/** One daemon: the state its tasks share, and the functions that specify each critical section. */
module Daemon {
  import opened Wrappers

  type ClipId = nat
  type NodeId = nat
  type ConnectionId = nat
  /** Nanoseconds on the monotonic clock. */
  type Instant = nat
  /** The representations of one clipboard value. */
  type Content(==, !new)
  type Fingerprint(==, !new)

  datatype Snapshot = Snapshot(content: Content, fingerprint: Fingerprint)

  datatype Clip = Clip(id: ClipId, origin: NodeId, content: Content)

  /** What the backend answers when the watcher looks at the clipboard. */
  datatype Capture = Captured(snapshot: Snapshot) | Empty | Failed

  const SEEN_LIMIT: nat := 4096
  const RETENTION: nat := 3600 * 1_000_000_000

  // ---------------------------------------------------------------------------
  // The state guarded by `apply_lock`: clipboard, last observation, echo tokens
  // ---------------------------------------------------------------------------

  datatype Guarded = Guarded(
    clipboard: Option<Snapshot>,
    previous: Option<Snapshot>,
    suppressed: map<Fingerprint, nat>)

  /** Counts are stored only while positive, so taking a token cannot underflow. */
  ghost predicate TokensPositive(suppressed: map<Fingerprint, nat>) {
    forall f :: f in suppressed ==> suppressed[f] > 0
  }

  function AddToken(suppressed: map<Fingerprint, nat>, f: Fingerprint): map<Fingerprint, nat> {
    suppressed[f := (if f in suppressed then suppressed[f] else 0) + 1]
  }

  function TakeToken(suppressed: map<Fingerprint, nat>, f: Fingerprint): map<Fingerprint, nat>
    requires f in suppressed && suppressed[f] > 0
  {
    if suppressed[f] == 1 then suppressed - {f} else suppressed[f := suppressed[f] - 1]
  }

  /** The clipboard differs from the last observation. */
  predicate Dirty(g: Guarded) {
    g.clipboard.Some? &&
    !(g.previous.Some? && g.previous.value.fingerprint == g.clipboard.value.fingerprint)
  }

  /** The next watcher iteration would announce the clipboard as a new local copy. */
  predicate WouldAnnounce(g: Guarded) {
    Dirty(g) && g.clipboard.value.fingerprint !in g.suppressed
  }

  /** One watcher iteration that captured the clipboard; the second part is what it announces. */
  function Observe(g: Guarded): (r: (Guarded, Option<Snapshot>))
    requires TokensPositive(g.suppressed)
    ensures TokensPositive(r.0.suppressed)
    ensures r.1.Some? <==> WouldAnnounce(g)
    ensures !Dirty(r.0)
  {
    if !Dirty(g) then (g, None)
    else
      var snapshot := g.clipboard.value;
      var observed := g.(previous := Some(snapshot));
      if snapshot.fingerprint in g.suppressed then
        (observed.(suppressed := TakeToken(g.suppressed, snapshot.fingerprint)), None)
      else
        (observed, Some(snapshot))
  }

  /** A successful apply: the backend holds `snapshot` and its echo is expected once more. */
  function Published(g: Guarded, snapshot: Snapshot): (r: Guarded)
    requires TokensPositive(g.suppressed)
    ensures TokensPositive(r.suppressed)
    ensures !WouldAnnounce(r)
  {
    g.(clipboard := Some(snapshot), suppressed := AddToken(g.suppressed, snapshot.fingerprint))
  }

  // ---------------------------------------------------------------------------
  // Deduplication by clip id, with bounded memory
  // ---------------------------------------------------------------------------

  /** Clock readings of one call, in the order they are taken. */
  datatype Readings = Readings(inserted: Instant, pruning: Instant, fallback: Instant)

  predicate Ordered(r: Readings) { r.inserted <= r.pruning <= r.fallback }

  function Cutoff(r: Readings): Instant {
    if r.pruning >= RETENTION then r.pruning - RETENTION else r.fallback
  }

  function MarkedSeen(seen: map<ClipId, Instant>, id: ClipId, r: Readings): map<ClipId, Instant> {
    if id in seen then seen
    else
      var added := seen[id := r.inserted];
      if |added| > SEEN_LIMIT then map k | k in added && added[k] >= Cutoff(r) :: added[k] else added
  }

  /** The shared state of a running daemon and the operations its tasks perform on it. */
  class Daemon {
    const nodeId: NodeId
    var clipboard: Option<Snapshot>
    var previous: Option<Snapshot>
    var suppressed: map<Fingerprint, nat>
    var seen: map<ClipId, Instant>
    var slots: map<ConnectionId, Option<Clip>>

    ghost predicate Valid()
      reads this
    {
      TokensPositive(suppressed)
    }

    ghost function View(): Guarded
      reads this
    {
      Guarded(clipboard, previous, suppressed)
    }

    /** The watcher starts from whatever a first capture returns. */
    constructor (nodeId: NodeId, clipboard: Option<Snapshot>, first: Capture)
      requires first.Captured? ==> clipboard == Some(first.snapshot)
      ensures Valid() && this.nodeId == nodeId
      ensures View() == Guarded(clipboard, if first.Captured? then Some(first.snapshot) else None, map[])
      ensures first.Captured? ==> !Dirty(View())
      ensures seen == map[] && slots == map[]
    {
      this.nodeId := nodeId;
      this.clipboard := clipboard;
      previous := if first.Captured? then Some(first.snapshot) else None;
      suppressed, seen, slots := map[], map[], map[];
    }

    method MarkSeen(id: ClipId, r: Readings) returns (isNew: bool)
      modifies this`seen
      ensures isNew <==> id !in old(seen)
      ensures seen == MarkedSeen(old(seen), id, r)
      ensures id in old(seen) ==> seen == old(seen)
      ensures id !in old(seen) && |old(seen)| < 4096 ==> seen == old(seen)[id := r.inserted]
      ensures id !in old(seen) && |old(seen)| >= 4096 ==>
                var hour := 3_600_000_000_000;
                var cutoff := if r.pruning >= hour then r.pruning - hour else r.fallback;
                && (forall k :: k in old(seen) ==> (k in seen <==> old(seen)[k] >= cutoff))
                && (id in seen <==> r.inserted >= cutoff)
                && forall k :: k in seen ==> seen[k] == if k == id then r.inserted else old(seen)[k]
    {
      if id in seen {
        return false;
      }
      assert seen[id := r.inserted].Keys == seen.Keys + {id} && |seen.Keys + {id}| == |seen.Keys| + 1;
      seen := seen[id := r.inserted];
      if |seen| > SEEN_LIMIT {
        var cutoff := if r.pruning >= RETENTION then r.pruning - RETENTION else r.fallback;
        seen := map k | k in seen && seen[k] >= cutoff :: seen[k];
      }
      return true;
    }

    method SuppressFingerprint(f: Fingerprint)
      requires Valid()
      modifies this`suppressed
      ensures Valid() && suppressed == AddToken(old(suppressed), f)
    {
      var count := if f in suppressed then suppressed[f] else 0;
      suppressed := suppressed[f := count + 1];
    }

    /** Every connection but the excepted one is to send `clip` next, whatever was still waiting in its slot. */
    method BroadcastClip(clip: Clip, except: Option<ConnectionId>)
      modifies this`slots
      ensures slots.Keys == old(slots).Keys
      ensures forall id :: id in slots && Some(id) != except ==> slots[id] == Some(clip)
      ensures forall id :: id in slots && Some(id) == except ==> slots[id] == old(slots)[id]
    {
      var remaining := slots.Keys;
      while remaining != {}
        invariant remaining <= slots.Keys == old(slots).Keys
        invariant forall id :: id in slots ==>
                                 slots[id] == if id in remaining || Some(id) == except then old(slots)[id]
                                              else Some(clip)
        decreases |remaining|
      {
        var id :| id in remaining;
        if Some(id) != except {
          slots := slots[id := Some(clip)];
        }
        remaining := remaining - {id};
      }
    }

    /** One iteration of `watch_clipboard`, under `apply_lock`; the result is the clip it announced. */
    method WatchOnce(capture: Capture, id: ClipId, r: Readings) returns (announced: Option<Clip>)
      requires Valid()
      requires capture.Captured? ==> clipboard == Some(capture.snapshot)
      modifies this
      ensures Valid()
      ensures View() == if capture.Captured? then Observe(old(View())).0 else old(View())
      ensures announced ==
              if && capture.Captured? && capture.snapshot.fingerprint !in old(suppressed)
                 && (old(previous).Some? ==> old(previous).value.fingerprint != capture.snapshot.fingerprint)
              then Some(Clip(id, nodeId, capture.snapshot.content)) else None
      ensures announced.None? ==> seen == old(seen) && slots == old(slots)
      ensures announced.Some? ==>
                && seen == MarkedSeen(old(seen), id, r) && slots.Keys == old(slots).Keys
                && forall c :: c in slots ==> slots[c] == announced
    {
      if !capture.Captured? {
        return None;
      }
      var snapshot := capture.snapshot;
      if previous.Some? && previous.value.fingerprint == snapshot.fingerprint {
        return None;
      }
      previous := Some(snapshot);
      if snapshot.fingerprint in suppressed {
        var count: nat := suppressed[snapshot.fingerprint] - 1;
        suppressed := suppressed[snapshot.fingerprint := count];
        if count == 0 {
          suppressed := suppressed - {snapshot.fingerprint};
          assert suppressed == old(suppressed) - {snapshot.fingerprint};
        }
        return None;
      }
      var clip := Clip(id, nodeId, snapshot.content);
      var _ := MarkSeen(id, r);
      BroadcastClip(clip, None);
      return Some(clip);
    }

    /** `outcome` is the snapshot the backend published, or nothing when materializing or applying failed. */
    method ReceiveClip(clip: Clip, source: ConnectionId, r: Readings, outcome: Option<Snapshot>)
      requires Valid()
      modifies this
      ensures Valid() && previous == old(previous)
      ensures clip.id in old(seen) ==> View() == old(View()) && seen == old(seen) && slots == old(slots)
      ensures clip.id !in old(seen) ==>
                && seen == MarkedSeen(old(seen), clip.id, r) && slots.Keys == old(slots).Keys
                && (forall c :: c in slots && c != source ==> slots[c] == Some(clip))
                && (source in slots ==> slots[source] == old(slots)[source])
                && View() == if outcome.Some? then Published(old(View()), outcome.value) else old(View())
    {
      var isNew := MarkSeen(clip.id, r);
      if !isNew {
        return;
      }
      BroadcastClip(clip, Some(source));
      match outcome
      case None =>
      case Some(snapshot) =>
        clipboard := Some(snapshot);
        SuppressFingerprint(snapshot.fingerprint);
    }
  }
}

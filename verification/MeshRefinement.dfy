/** The daemon's critical sections and the steps of the mesh: what a daemon does alone is what its node does. */
module MeshRefinement {
  import opened Wrappers
  import opened Daemon
  import opened Mesh

  /** The slots of a node's own links. */
  function Slots(t: Topology, s: State, n: NodeId): map<ConnectionId, Option<Clip>>
    requires |s.links| == |t.links|
  {
    map l: nat | l < |t.links| && t.links[l].from == n :: s.links[l].slot
  }

  ghost predicate Fits(t: Topology, s: State, n: NodeId) {
    |s.nodes| == t.size && |s.links| == |t.links| && n < t.size
  }

  /** What a daemon holds, as its node does. */
  ghost predicate Holds(t: Topology, s: State, n: NodeId, guarded: Guarded, seen: set<ClipId>,
      slots: map<ConnectionId, Option<Clip>>)
    requires Fits(t, s, n)
  {
    guarded == s.nodes[n].guarded && seen == s.nodes[n].seen.Keys && slots == Slots(t, s, n)
  }

  /** A daemon between two of its critical sections, and its node. */
  ghost predicate Agrees(t: Topology, s: State, n: NodeId, d: Daemon)
    requires Fits(t, s, n)
    reads d
  {
    d.nodeId == n && Holds(t, s, n, d.View(), d.seen.Keys, d.slots)
  }

  /** All slots but one hold the clip; that one, if there is one, is as it was. */
  ghost predicate Sent(before: map<ConnectionId, Option<Clip>>, after: map<ConnectionId, Option<Clip>>, clip: Clip,
      except: Option<ConnectionId>)
  {
    && after.Keys == before.Keys
    && forall l :: l in after ==> after[l] == if Some(l) == except then before[l] else Some(clip)
  }

  lemma SentAlike(before: map<ConnectionId, Option<Clip>>, a: map<ConnectionId, Option<Clip>>,
      b: map<ConnectionId, Option<Clip>>, clip: Clip, except: Option<ConnectionId>)
    requires Sent(before, a, clip, except) && Sent(before, b, clip, except)
    ensures a == b
  {
  }

  ghost predicate LeadsTo(t: Topology, s: State, events: seq<Event>, z: State)
    requires WellFormed(t) && Shape(t, s)
    decreases |events|
  {
    if events == [] then s == z
    else Enabled(t, s, events[0]) && LeadsTo(t, Step(t, s, events[0]), events[1..], z)
  }

  lemma {:induction false} LeadsOn(t: Topology, s: State, before: seq<Event>, y: State, after: seq<Event>, z: State)
    requires WellFormed(t) && Shape(t, s) && Shape(t, y) && LeadsTo(t, s, before, y) && LeadsTo(t, y, after, z)
    ensures LeadsTo(t, s, before + after, z)
    decreases |before|
  {
    if before == [] {
      assert before + after == after;
    } else {
      LeadsOn(t, Step(t, s, before[0]), before[1..], y, after, z);
      assert (before + after)[0] == before[0] && (before + after)[1..] == before[1..] + after;
    }
  }

  lemma OneStep(t: Topology, s: State, e: Event)
    requires WellFormed(t) && Shape(t, s) && Enabled(t, s, e)
    ensures LeadsTo(t, s, [e], Step(t, s, e))
  {
    assert [e][1..] == [];
  }

  // ---------------------------------------------------------------------------
  // Writing the slots one after the other
  // ---------------------------------------------------------------------------

  /** `order` visits each of the links once. */
  ghost predicate Visits(order: seq<nat>, links: set<nat>) {
    (forall l :: l in links <==> l in order) && forall i, j :: 0 <= i < j < |order| ==> order[i] != order[j]
  }

  lemma VisitsRest(order: seq<nat>, links: set<nat>)
    requires Visits(order, links) && order != []
    ensures order[0] in links && Visits(order[1..], links - {order[0]})
  {
    assert order == [order[0]] + order[1..];
  }

  function WatcherPosts(n: NodeId, order: seq<nat>): (r: seq<Event>)
    ensures |r| == |order| && forall i :: 0 <= i < |r| ==> r[i] == WatcherPost(n, order[i])
  {
    seq(|order|, i requires 0 <= i < |order| => WatcherPost(n, order[i]))
  }

  function ReaderPosts(l: nat, order: seq<nat>): (r: seq<Event>)
    ensures |r| == |order| && forall i :: 0 <= i < |r| ==> r[i] == ReaderPost(l, order[i])
  {
    seq(|order|, i requires 0 <= i < |order| => ReaderPost(l, order[i]))
  }

  /** Exactly the slots of these links hold the clip now; wires are as they were. */
  ghost predicate Wrote(s: State, z: State, links: set<nat>, clip: Clip) {
    && |z.links| == |s.links| && z.created == s.created
    && forall l :: 0 <= l < |s.links| ==>
         && z.links[l].slot == (if l in links then Some(clip) else s.links[l].slot)
         && z.links[l].wire == s.links[l].wire
  }

  lemma WatcherWritesOne(t: Topology, s: State, n: NodeId, clip: Clip, target: nat, links: set<nat>)
    requires WellFormed(t) && Shape(t, s) && n < t.size && s.nodes[n].watcher == Busy(clip, links) && target in links
    ensures Enabled(t, s, WatcherPost(n, target))
    ensures var y := AfterWatcherPost(t, s, n, target);
            && y.nodes[n].watcher == (if links - {target} == {} then Idle else Busy(clip, links - {target}))
            && y.nodes[n := y.nodes[n].(watcher := Idle)] == s.nodes[n := s.nodes[n].(watcher := Idle)]
            && Wrote(s, y, {target}, clip)
  {
  }

  lemma WrotesMore(s: State, y: State, z: State, target: nat, links: set<nat>, clip: Clip)
    requires target in links && Wrote(s, y, {target}, clip) && Wrote(y, z, links - {target}, clip)
    ensures Wrote(s, z, links, clip)
  {
  }

  lemma {:induction false} WatcherWrites(t: Topology, s: State, n: NodeId, clip: Clip, order: seq<nat>, links: set<nat>)
    returns (z: State)
    requires WellFormed(t) && Shape(t, s) && n < t.size && Visits(order, links)
    requires s.nodes[n].watcher == if links == {} then Idle else Busy(clip, links)
    ensures LeadsTo(t, s, WatcherPosts(n, order), z) && Shape(t, z)
    ensures z.nodes == s.nodes[n := s.nodes[n].(watcher := Idle)] && Wrote(s, z, links, clip)
    decreases |order|
  {
    if order == [] {
      z := s;
      assert links == {};
    } else {
      VisitsRest(order, links);
      WatcherWritesOne(t, s, n, clip, order[0], links);
      var y := AfterWatcherPost(t, s, n, order[0]);
      z := WatcherWrites(t, y, n, clip, order[1..], links - {order[0]});
      WrotesMore(s, y, z, order[0], links, clip);
      assert WatcherPosts(n, order)[0] == WatcherPost(n, order[0]);
      assert WatcherPosts(n, order)[1..] == WatcherPosts(n, order[1..]);
    }
  }

  lemma {:induction false} ReaderWrites(t: Topology, s: State, l: nat, clip: Clip, order: seq<nat>, links: set<nat>)
    returns (z: State)
    requires WellFormed(t) && Shape(t, s) && l < |t.links| && Visits(order, links)
    requires s.links[l].reader == Busy(clip, links)
    ensures LeadsTo(t, s, ReaderPosts(l, order), z) && Shape(t, z)
    ensures z.nodes == s.nodes && Wrote(s, z, links, clip) && z.links[l].reader == Busy(clip, {})
    decreases |order|
  {
    if order == [] {
      z := s;
      assert links == {};
    } else {
      VisitsRest(order, links);
      var y := AfterReaderPost(t, s, l, order[0]);
      z := ReaderWrites(t, y, l, clip, order[1..], links - {order[0]});
      assert ReaderPosts(l, order)[0] == ReaderPost(l, order[0]);
      assert ReaderPosts(l, order)[1..] == ReaderPosts(l, order[1..]);
    }
  }

  // ---------------------------------------------------------------------------
  // The watcher
  // ---------------------------------------------------------------------------

  /** What a watcher's iteration comes to in the mesh, its slots written in any order. */
  lemma WatcherCycle(t: Topology, s: State, n: NodeId, id: ClipId, order: seq<nat>)
    returns (events: seq<Event>, z: State)
    requires WellFormed(t) && Shape(t, s) && Enabled(t, s, Watch(n, id)) && Visits(order, Targets(t, n, None))
    ensures LeadsTo(t, s, events, z) && Fits(t, z, n) && z.nodes[n].watcher.Idle?
    ensures z.nodes[n].guarded == Observe(s.nodes[n].guarded).0
    ensures var found := Observe(s.nodes[n].guarded).1;
            && (found.None? ==>
                  events == [Watch(n, id)] && z.nodes[n].seen == s.nodes[n].seen && Slots(t, z, n) == Slots(t, s, n))
            && (found.Some? ==>
                  && events == [Watch(n, id)] + WatcherPosts(n, order)
                  && z.nodes[n].seen.Keys == s.nodes[n].seen.Keys + {id}
                  && Sent(Slots(t, s, n), Slots(t, z, n), Clip(id, n, found.value.content), None))
  {
    var y := AfterWatch(t, s, n, id);
    var found := Observe(s.nodes[n].guarded).1;
    OneStep(t, s, Watch(n, id));
    if found.None? {
      events, z := [Watch(n, id)], y;
    } else {
      z := WatcherWrites(t, y, n, Clip(id, n, found.value.content), order, Targets(t, n, None));
      LeadsOn(t, s, [Watch(n, id)], y, WatcherPosts(n, order), z);
      events := [Watch(n, id)] + WatcherPosts(n, order);
    }
  }

  lemma ObservedIs(g: Guarded, snapshot: Snapshot)
    requires TokensPositive(g.suppressed) && g.clipboard == Some(snapshot)
    ensures Observe(g).1 ==
            if && snapshot.fingerprint !in g.suppressed
               && (g.previous.Some? ==> g.previous.value.fingerprint != snapshot.fingerprint)
            then Some(snapshot) else None
  {
  }

  lemma MarkedIsAdded(seen: map<ClipId, Instant>, id: ClipId, r: Readings)
    requires |seen| < SEEN_LIMIT
    ensures MarkedSeen(seen, id, r).Keys == seen.Keys + {id}
  {
    if id in seen {
    } else {
      assert seen[id := r.inserted].Keys == seen.Keys + {id} && |seen.Keys + {id}| == |seen.Keys| + 1;
    }
  }

  /** What an iteration leaves, put together. */
  lemma IterationHolds(t: Topology, s: State, z: State, n: NodeId, id: ClipId, guarded: Guarded, seen: set<ClipId>,
      slots: map<ConnectionId, Option<Clip>>, announced: Option<Clip>)
    requires Fits(t, s, n) && Fits(t, z, n) && guarded == z.nodes[n].guarded
    requires announced.None? ==> seen == z.nodes[n].seen.Keys && slots == Slots(t, z, n)
    requires announced.Some? ==>
               && seen == z.nodes[n].seen.Keys && Sent(Slots(t, s, n), slots, announced.value, None)
               && Sent(Slots(t, s, n), Slots(t, z, n), announced.value, None)
    ensures Holds(t, z, n, guarded, seen, slots)
  {
    if announced.Some? { SentAlike(Slots(t, s, n), slots, Slots(t, z, n), announced.value, None); }
  }

  /**
   * `WatchOnce` is the step `Watch` followed by the posts of its clip, in whatever order: it leaves the daemon as the
   * mesh leaves its node. Only the ids that pruning forgets would differ.
   */
  method WatchInMesh(ghost t: Topology, ghost s: State, d: Daemon, capture: Capture, id: ClipId, r: Readings,
      ghost order: seq<nat>)
    returns (ghost events: seq<Event>, ghost z: State)
    requires WellFormed(t) && Shape(t, s) && Enabled(t, s, Watch(d.nodeId, id))
    requires d.Valid() && Agrees(t, s, d.nodeId, d) && |d.seen| < SEEN_LIMIT
    requires Visits(order, Targets(t, d.nodeId, None))
    requires capture.Captured? && d.clipboard == Some(capture.snapshot)
    modifies d
    ensures LeadsTo(t, s, events, z) && d.Valid() && Fits(t, z, d.nodeId) && Agrees(t, z, d.nodeId, d)
    ensures events == [Watch(d.nodeId, id)] || events == [Watch(d.nodeId, id)] + WatcherPosts(d.nodeId, order)
  {
    events, z := WatcherCycle(t, s, d.nodeId, id, order);
    ObservedIs(d.View(), capture.snapshot);
    MarkedIsAdded(d.seen, id, r);
    var announced := d.WatchOnce(capture, id, r);
    IterationHolds(t, s, z, d.nodeId, id, d.View(), d.seen.Keys, d.slots, announced);
  }

  // ---------------------------------------------------------------------------
  // The reader
  // ---------------------------------------------------------------------------

  lemma KnownClip(t: Topology, s: State, l: nat) returns (z: State)
    requires WellFormed(t) && Shape(t, s) && Enabled(t, s, Deliver(l))
    requires s.links[l].wire[0].id in s.nodes[t.links[l].to].seen
    ensures LeadsTo(t, s, [Deliver(l)], z) && Fits(t, z, t.links[l].to) && z.nodes == s.nodes
    ensures Slots(t, z, t.links[l].to) == Slots(t, s, t.links[l].to)
  {
    z := AfterDeliver(t, s, l);
    OneStep(t, s, Deliver(l));
  }

  /** A new clip is accepted: it is known, and the reader has all other links to write. */
  lemma Accepts(t: Topology, s: State, l: nat) returns (z: State)
    requires WellFormed(t) && Shape(t, s) && Enabled(t, s, Deliver(l))
    requires s.links[l].wire[0].id !in s.nodes[t.links[l].to].seen
    ensures LeadsTo(t, s, [Deliver(l)], z) && Shape(t, z)
    ensures var n, clip := t.links[l].to, s.links[l].wire[0];
            && z.nodes[n].guarded == s.nodes[n].guarded && z.nodes[n].watcher == s.nodes[n].watcher
            && z.nodes[n].seen.Keys == s.nodes[n].seen.Keys + {clip.id} && Slots(t, z, n) == Slots(t, s, n)
            && z.links[l].reader == Busy(clip, Targets(t, n, Some(t.links[l].back)))
  {
    z := AfterDeliver(t, s, l);
    OneStep(t, s, Deliver(l));
  }

  /** The reader is done with the slots and applies its clip. */
  lemma Applies(t: Topology, s: State, l: nat, ok: bool, clip: Clip) returns (z: State)
    requires WellFormed(t) && Shape(t, s) && Enabled(t, s, Apply(l, ok)) && s.links[l].reader.clip == clip
    ensures LeadsTo(t, s, [Apply(l, ok)], z) && Fits(t, z, t.links[l].to)
    ensures var n := t.links[l].to;
            && z.nodes[n].guarded == (if ok then Published(s.nodes[n].guarded, t.publish(n, clip))
                                      else s.nodes[n].guarded)
            && z.nodes[n].seen == s.nodes[n].seen && Slots(t, z, n) == Slots(t, s, n)
  {
    z := AfterApply(t, s, l, ok);
    OneStep(t, s, Apply(l, ok));
  }

  lemma WrittenIsSent(t: Topology, s: State, z: State, n: NodeId, clip: Clip, except: Option<nat>)
    requires |s.links| == |t.links| && Wrote(s, z, Targets(t, n, except), clip)
    ensures Sent(Slots(t, s, n), Slots(t, z, n), clip, except)
  {
  }

  lemma ReaderCycle(t: Topology, s: State, l: nat, ok: bool, order: seq<nat>) returns (events: seq<Event>, z: State)
    requires WellFormed(t) && Shape(t, s) && Enabled(t, s, Deliver(l)) && s.nodes[t.links[l].to].watcher.Idle?
    requires s.links[l].wire[0].id !in s.nodes[t.links[l].to].seen
    requires Visits(order, Targets(t, t.links[l].to, Some(t.links[l].back)))
    ensures LeadsTo(t, s, events, z) && events == [Deliver(l)] + ReaderPosts(l, order) + [Apply(l, ok)]
    ensures Fits(t, z, t.links[l].to)
    ensures var n, clip := t.links[l].to, s.links[l].wire[0];
            && z.nodes[n].guarded == (if ok then Published(s.nodes[n].guarded, t.publish(n, clip))
                                      else s.nodes[n].guarded)
            && z.nodes[n].seen.Keys == s.nodes[n].seen.Keys + {clip.id}
            && Sent(Slots(t, s, n), Slots(t, z, n), clip, Some(t.links[l].back))
  {
    var n, clip := t.links[l].to, s.links[l].wire[0];
    var x := Accepts(t, s, l);
    var y := ReaderWrites(t, x, l, clip, order, Targets(t, n, Some(t.links[l].back)));
    LeadsOn(t, s, [Deliver(l)], x, ReaderPosts(l, order), y);
    WrittenIsSent(t, x, y, n, clip, Some(t.links[l].back));
    z := Applies(t, y, l, ok, clip);
    LeadsOn(t, s, [Deliver(l)] + ReaderPosts(l, order), y, [Apply(l, ok)], z);
    events := [Deliver(l)] + ReaderPosts(l, order) + [Apply(l, ok)];
  }

  /**
   * `ReceiveClip` is the step `Deliver`, and for a new clip the posts to all but the connection it came from, in
   * whatever order, and then `Apply`.
   */
  method ReceiveInMesh(ghost t: Topology, ghost s: State, ghost l: nat, d: Daemon, clip: Clip,
      source: ConnectionId, r: Readings, outcome: Option<Snapshot>, ghost order: seq<nat>)
    returns (ghost events: seq<Event>, ghost z: State)
    requires WellFormed(t) && Shape(t, s) && Enabled(t, s, Deliver(l)) && t.links[l].to == d.nodeId
    requires d.Valid() && Agrees(t, s, d.nodeId, d) && |d.seen| < SEEN_LIMIT
    requires s.nodes[d.nodeId].watcher.Idle? && s.links[l].wire[0] == clip && t.links[l].back == source
    requires outcome.Some? ==> outcome.value == t.publish(d.nodeId, clip)
    requires Visits(order, Targets(t, d.nodeId, Some(source)))
    modifies d
    ensures LeadsTo(t, s, events, z) && d.Valid() && Fits(t, z, d.nodeId) && Agrees(t, z, d.nodeId, d)
    ensures events == if clip.id in old(d.seen) then [Deliver(l)]
                      else [Deliver(l)] + ReaderPosts(l, order) + [Apply(l, outcome.Some?)]
  {
    ghost var before := d.slots;
    if clip.id in d.seen {
      events := [Deliver(l)];
      z := KnownClip(t, s, l);
    } else {
      events, z := ReaderCycle(t, s, l, outcome.Some?, order);
    }
    ghost var known := clip.id in d.seen;
    MarkedIsAdded(d.seen, clip.id, r);
    d.ReceiveClip(clip, source, r, outcome);
    if !known { SentAlike(before, d.slots, Slots(t, z, d.nodeId), clip, Some(source)); }
  }
}

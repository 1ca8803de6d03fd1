/**
 * The phases a read goes through, and that every step of owner, readers and server keeps each window in one of them.
 */
module X11Phases {
  import opened Wrappers
  import opened Bytes
  import opened X11Selection
  import opened X11Transfer

  // ---------------------------------------------------------------------------
  // What concerns one window
  // ---------------------------------------------------------------------------

  /** The owner's events that concern a window, in order. */
  function Mine(outbox: seq<OwnerEvent>, w: nat): seq<OwnerEvent> {
    if outbox == [] then []
    else (if WindowOf(outbox[0]) == w then [outbox[0]] else []) + Mine(outbox[1..], w)
  }

  lemma {:induction false} MineAppend(outbox: seq<OwnerEvent>, e: OwnerEvent, w: nat)
    ensures Mine(outbox + [e], w) == Mine(outbox, w) + if WindowOf(e) == w then [e] else []
  {
    if outbox == [] {
      assert [e][1..] == [];
    } else {
      MineAppend(outbox[1..], e, w);
      assert (outbox + [e])[1..] == outbox[1..] + [e];
    }
  }

  datatype View = View(window: Window, transfer: Option<Transfer>, mine: seq<OwnerEvent>)

  function Look(y: World, w: nat): View
    requires w < |y.windows|
  {
    View(y.windows[w], if w in y.transfers then Some(y.transfers[w]) else None, Mine(y.outbox, w))
  }

  /** How many chunks `n` bytes take, the closing empty one not counted. */
  function ChunksFor(n: nat, chunk: nat): nat
    requires chunk >= 1
  {
    if n == 0 then 0 else if n <= chunk then 1 else 1 + ChunksFor(n - chunk, chunk)
  }

  lemma {:induction false} ChunksForIsCeiling(n: nat, chunk: nat)
    requires chunk >= 1 && n > 0
    ensures ChunksFor(n, chunk) >= 1
    ensures (ChunksFor(n, chunk) - 1) * chunk < n <= ChunksFor(n, chunk) * chunk
  {
    if n > chunk {
      ChunksForIsCeiling(n - chunk, chunk);
      var c := ChunksFor(n - chunk, chunk);
      assert (c - 1) * chunk == c * chunk - chunk && (c + 1) * chunk == c * chunk + chunk;
    }
  }

  // ---------------------------------------------------------------------------
  // The phases of a read
  // ---------------------------------------------------------------------------

  predicate Untouched(w: Window) {
    !w.reader.incremental && w.reader.data == [] && w.chunks == 0
  }

  predicate NewsOfProperty(inbox: seq<ReaderEvent>) {
    inbox == [Changed, Notified(true)] || inbox == [Notified(true)]
  }

  predicate Requested(w: nat, v: View) {
    && Untouched(v.window) && !v.window.unowned && v.window.property.Absent? && v.window.inbox == []
    && !v.window.watched
    && v.transfer.None? && v.mine == [Asked(Request(w, CLIPBOARD, v.window.reader.target))]
  }

  predicate Refused(v: View) {
    Untouched(v.window) && v.window.inbox == [Notified(false)] && v.window.property.Absent? && v.transfer.None? &&
      v.mine == []
  }

  /**
   * The whole value lies in the property; or it looked like an announcement, and the reader waits for what never
   * comes.
   */
  predicate Offering(v: View, p: Property) {
    && p.Value? && p.kind == ExpectedKind(v.window.reader.target) && p.bits == ExpectedBits(v.window.reader.target)
    && v.window.reader.data == [] && v.window.chunks == 0 && !v.window.watched && v.transfer.None? && v.mine == []
    && (if v.window.reader.incremental then p.kind == INCR && p.bits == 8 && v.window.inbox == []
        else v.window.property == p && NewsOfProperty(v.window.inbox))
  }

  /** The owner's side of a chunked transfer: `offset` bytes sent, unless it has given the transfer up. */
  predicate Sent(v: View, target: Atom, data: seq<byte>, offset: nat) {
    v.transfer == Some(Transfer(target, data, offset)) || (v.transfer.None? && v.window.expired)
  }

  predicate Announcing(v: View, target: Atom, data: seq<byte>) {
    && Untouched(v.window) && v.window.property == FirstProperty(Chunked(target, data))
    && NewsOfProperty(v.window.inbox)
    && v.mine == [] && Sent(v, target, data, 0)
  }

  /** What has been read is a prefix, in the right number of chunks. */
  predicate ReadSoFar(chunk: nat, v: View, data: seq<byte>)
    requires chunk >= 1
  {
    && v.window.reader.incremental && v.window.reader.data <= data && |data| <= v.window.reader.maxBytes
    && v.window.chunks + ChunksFor(|data| - |v.window.reader.data|, chunk) == ChunksFor(|data|, chunk)
  }

  /** The reader has taken what was there, and the owner is going to be told, or has given up. */
  predicate Pulling(w: nat, v: View, target: Atom, data: seq<byte>) {
    && v.window.property.Absent? && v.window.inbox == []
    && Sent(v, target, data, |v.window.reader.data|)
    && (v.mine == [Deleted(w)] || (v.mine == [] && v.transfer.None?))
  }

  function Min(a: nat, b: nat): nat { if a < b then a else b }

  /** The next chunk lies in the property: read ++ pending is what the owner has sent. */
  predicate Pending(chunk: nat, v: View, target: Atom, data: seq<byte>)
    requires |v.window.reader.data| <= |data|
  {
    var had := |v.window.reader.data|;
    var sent := Min(had + chunk, |data|);
    && v.window.property == Value(target, 8, data[had..sent]) && v.window.inbox == [Changed] && v.mine == []
    && (if sent == had then v.transfer.None? else Sent(v, target, data, sent))
  }

  predicate Streaming(w: nat, chunk: nat, v: View, target: Atom, data: seq<byte>)
    requires chunk >= 1
  {
    && target == v.window.reader.target && target != TARGETS && chunk < |data| <= U32_MAX && v.window.watched
    && (Announcing(v, target, data) ||
        (ReadSoFar(chunk, v, data) && (Pulling(w, v, target, data) || Pending(chunk, v, target, data))))
  }

  /** What a read comes to when it does not time out. */
  predicate Right(w: Window, chunk: nat, r: Result<seq<byte>, ReadError>)
    requires chunk >= 1
  {
    match w.answer
    case None => w.unowned && r == Ok([])
    case Some(Refuse) => r == Err(Unavailable)
    case Some(Plain(p)) =>
      && p.Value? && p.kind != INCR
      && r == if |p.bytes| <= Min(w.reader.maxBytes, 4 * U32_MAX) then Ok(p.bytes) else Err(TooBig)
    case Some(Chunked(_, data)) =>
      if |data| <= w.reader.maxBytes then r == Ok(data) && w.chunks == ChunksFor(|data|, chunk) else r == Err(TooBig)
  }

  predicate Phase(w: nat, chunk: nat, v: View)
    requires chunk >= 1
  {
    if !Alive(v.window) then
      v.window.reader.outcome == Some(Err(TimedOut)) || Right(v.window, chunk, v.window.reader.outcome.value)
    else
      match v.window.answer
      case None => Requested(w, v)
      case Some(Refuse) => Refused(v)
      case Some(Plain(p)) => Offering(v, p)
      case Some(Chunked(target, data)) => Streaming(w, chunk, v, target, data)
  }

  // ---------------------------------------------------------------------------
  // The reader's steps
  // ---------------------------------------------------------------------------

  /** A window after its reader has handled an event; the owner is told of a deletion if it watches. */
  function Handled(w: nat, v: View): View
    requires v.window.inbox != []
  {
    v.(window := AfterHandled(v.window),
       mine := if Deletes(v.window) && v.window.watched then v.mine + [Deleted(w)] else v.mine)
  }

  lemma ReadRefused(w: nat, chunk: nat, v: View)
    requires chunk >= 1 && Alive(v.window) && v.window.answer == Some(Refuse) && Refused(v)
    ensures Phase(w, chunk, Handled(w, v))
  {
  }

  /** A value within the limit is returned whole; a larger one is noticed. */
  lemma LongsSuffice(n: nat, remaining: nat)
    ensures n <= Min(remaining, 4 * U32_MAX) ==> n <= 4 * Longs(remaining)
    ensures n > Min(remaining, 4 * U32_MAX) ==> n > remaining || n > 4 * Longs(remaining)
  {
  }

  lemma ReadOffer(w: nat, chunk: nat, v: View, p: Property)
    requires chunk >= 1 && Alive(v.window) && v.window.answer == Some(Plain(p)) && Offering(v, p)
             && v.window.inbox != []
    ensures Phase(w, chunk, Handled(w, v))
  {
    var r := v.window.reader;
    LongsSuffice(|p.bytes|, Remaining(r));
    assert [] + p.bytes == p.bytes;
    if v.window.inbox[0].Changed? {
      assert v.window.inbox[1..] == [Notified(true)];
    } else {
      assert v.window.inbox[1..] == [];
    }
  }

  lemma ReadAnnouncement(w: nat, chunk: nat, v: View, target: Atom, data: seq<byte>)
    requires chunk >= 1 && Alive(v.window) && v.window.answer == Some(Chunked(target, data))
    requires Streaming(w, chunk, v, target, data) && Announcing(v, target, data)
    ensures Phase(w, chunk, Handled(w, v))
  {
    var header := BigEndian(|data|, 4);
    Widths();
    BigEndianRoundTrip(|data|, 4);
    assert header[..4] == header;
    assert data[..0] == [];
  }

  lemma TakeValue(r: Reader, value: seq<byte>)
    requires r.incremental && r.target != TARGETS && |value| <= Remaining(r) && |value| <= U32_MAX
    ensures var p := Value(r.target, 8, value);
            && Taken(p, Longs(Remaining(r))).Absent?
            && AfterTake(r, p) ==
               if value == [] then r.(outcome := Some(Ok(r.data))) else r.(data := r.data + value)
  {
    LongsSuffice(|value|, Remaining(r));
    assert r.data + [] == r.data;
  }

  /** Taking a chunk moves it from pending to read, */
  lemma ReadFullChunk(w: nat, chunk: nat, v: View, target: Atom, data: seq<byte>)
    requires chunk >= 1 && Alive(v.window) && v.window.answer == Some(Chunked(target, data))
    requires Streaming(w, chunk, v, target, data) && ReadSoFar(chunk, v, data) && Pending(chunk, v, target, data)
    requires |v.window.reader.data| < |data|
    ensures var next := Handled(w, v);
            && Alive(next.window) && next.window.answer == v.window.answer && next.window.watched
            && next.window.reader.target == v.window.reader.target
            && Pulling(w, next, target, data) && ReadSoFar(chunk, next, data)
            && |next.window.reader.data| == Min(|v.window.reader.data| + chunk, |data|)
  {
    var had := |v.window.reader.data|;
    var sent := Min(had + chunk, |data|);
    TakeValue(v.window.reader, data[had..sent]);
    assert v.window.reader.data + data[had..sent] == data[..sent];
    assert ChunksFor(|data| - had, chunk) == 1 + ChunksFor(|data| - sent, chunk);
    assert [] + [Deleted(w)] == [Deleted(w)];
  }

  /** and the empty one completes the read. */
  lemma ReadLastChunk(w: nat, chunk: nat, v: View, target: Atom, data: seq<byte>)
    requires chunk >= 1 && Alive(v.window) && v.window.answer == Some(Chunked(target, data))
    requires Streaming(w, chunk, v, target, data) && ReadSoFar(chunk, v, data) && Pending(chunk, v, target, data)
    requires |v.window.reader.data| == |data|
    ensures Phase(w, chunk, Handled(w, v))
  {
    TakeValue(v.window.reader, []);
    assert data[|data|..|data|] == [];
    assert v.window.reader.data == data;
  }

  lemma ReadChunk(w: nat, chunk: nat, v: View, target: Atom, data: seq<byte>)
    requires chunk >= 1 && Alive(v.window) && v.window.answer == Some(Chunked(target, data))
    requires Streaming(w, chunk, v, target, data) && ReadSoFar(chunk, v, data) && Pending(chunk, v, target, data)
    ensures Phase(w, chunk, Handled(w, v))
  {
    if |v.window.reader.data| < |data| {
      ReadFullChunk(w, chunk, v, target, data);
    } else {
      ReadLastChunk(w, chunk, v, target, data);
    }
  }

  lemma ReadKeepsPhase(w: nat, chunk: nat, v: View)
    requires chunk >= 1 && Alive(v.window) && v.window.inbox != [] && Phase(w, chunk, v)
    ensures Phase(w, chunk, Handled(w, v))
  {
    match v.window.answer
    case None =>
    case Some(Refuse) => ReadRefused(w, chunk, v);
    case Some(Plain(p)) => ReadOffer(w, chunk, v, p);
    case Some(Chunked(target, data)) =>
      if Announcing(v, target, data) {
        ReadAnnouncement(w, chunk, v, target, data);
      } else {
        ReadChunk(w, chunk, v, target, data);
      }
  }

  // ---------------------------------------------------------------------------
  // The owner's steps
  // ---------------------------------------------------------------------------

  lemma AnswerKeepsPhase(
      w: nat, chunk: nat, v: View, data: map<Atom, seq<byte>>, transfers: map<nat, Transfer>, listing: seq<nat>,
        after: View)
    requires chunk >= 1 && Alive(v.window) && v.window.answer.None? && Requested(w, v)
    requires var a := AnswerTo(chunk, data, transfers, v.mine[0].request, listing);
             after == View(Answered(v.window, a), if a.Chunked? then Some(Transfer(a.target, a.data, 0)) else None, [])
    ensures Phase(w, chunk, after)
  {
  }

  /**
   * A request from a window that is gone already, or that has been answered before, does not occur; a deletion does.
   */
  lemma RefillKeepsPhase(w: nat, chunk: nat, v: View, after: View)
    requires chunk >= 1 && Alive(v.window) && Phase(w, chunk, v) && v.mine == [Deleted(w)] && v.transfer.Some?
    requires v.transfer.value.offset <= |v.transfer.value.data|
    requires var t := v.transfer.value;
             after == View(Refilled(v.window, NextChunk(chunk, t)),
                           if t.offset == |t.data| then None else Some(t.(offset := ChunkEnd(chunk, t))), [])
    ensures Phase(w, chunk, after)
  {
    var a := v.window.answer.value;
    assert ReadSoFar(chunk, v, a.data) && Pulling(w, v, a.target, a.data);
    assert [] + [Changed] == [Changed];
    assert Pending(chunk, after, a.target, a.data) && ReadSoFar(chunk, after, a.data);
  }

  lemma MissedDeletionKeepsPhase(w: nat, chunk: nat, v: View)
    requires chunk >= 1 && Alive(v.window) && Phase(w, chunk, v) && v.mine == [Deleted(w)] && v.transfer.None?
    ensures Phase(w, chunk, v.(mine := []))
  {
    var a := v.window.answer.value;
    assert ReadSoFar(chunk, v, a.data) && Pulling(w, v, a.target, a.data);
    assert Pulling(w, v.(mine := []), a.target, a.data);
  }

  lemma ExpiryKeepsPhase(w: nat, chunk: nat, v: View)
    requires chunk >= 1 && Phase(w, chunk, v) && v.transfer.Some?
    ensures Phase(w, chunk, v.(transfer := None, window := v.window.(expired := true)))
  {
    if Alive(v.window) {
      var a, next := v.window.answer.value, v.(transfer := None, window := v.window.(expired := true));
      assert Announcing(v, a.target, a.data) ==> Announcing(next, a.target, a.data);
      assert Pulling(w, v, a.target, a.data) ==> Pulling(w, next, a.target, a.data);
      assert ReadSoFar(chunk, v, a.data) ==> ReadSoFar(chunk, next, a.data);
    }
  }

  /** What happens around a closed window no longer matters to its read. */
  lemma ClosedKeepsPhase(w: nat, chunk: nat, v: View, after: View)
    requires chunk >= 1 && Phase(w, chunk, v) && !Alive(v.window) && after.window == v.window
    ensures Phase(w, chunk, after)
  {
  }

  // ---------------------------------------------------------------------------
  // Every step of the world
  // ---------------------------------------------------------------------------

  ghost predicate Inv(y: World, chunk: nat)
    requires chunk >= 1
  {
    && OffsetsFit(y)
    && (forall w :: w in y.transfers ==> w < |y.windows|)
    && (forall i :: 0 <= i < |y.outbox| ==> WindowOf(y.outbox[i]) < |y.windows|)
    && (forall w: nat {:trigger Look(y, w)} :: w < |y.windows| ==> Phase(w, chunk, Look(y, w)))
  }

  /** The window a step concerns. */
  function Actor(y: World, e: Event): nat {
    match e
    case Publish(_) => |y.windows|
    case Open(_, _) => |y.windows|
    case Serve(_) => if y.outbox == [] then 0 else WindowOf(y.outbox[0])
    case Read(w) => w
    case TimeOut(w) => w
    case Expire(w) => w
  }

  /** A step leaves all other windows, their transfers and their events alone. */
  lemma OthersUnmoved(y: World, chunk: nat, e: Event, w: nat)
    requires chunk >= 1 && Inv(y, chunk) && Enabled(y, e) && w < |y.windows| && w != Actor(y, e)
    ensures w < |After(y, chunk, e).windows| && Look(After(y, chunk, e), w) == Look(y, w)
  {
    match e
    case Open(target, maxBytes) =>
      if y.owned { MineAppend(y.outbox, Asked(Request(|y.windows|, CLIPBOARD, target)), w); }
    case Read(v) =>
      MineAppend(y.outbox, Deleted(v), w);
    case _ =>
  }

  lemma {:induction false} NoEventsYet(outbox: seq<OwnerEvent>, w: nat)
    requires forall i :: 0 <= i < |outbox| ==> WindowOf(outbox[i]) < w
    ensures Mine(outbox, w) == []
  {
    if outbox != [] { NoEventsYet(outbox[1..], w); }
  }

  lemma OpenKeepsPhase(y: World, chunk: nat, target: Atom, maxBytes: nat)
    requires chunk >= 1 && Inv(y, chunk)
    ensures Phase(|y.windows|, chunk, Look(AfterOpen(y, target, maxBytes), |y.windows|))
  {
    var w := |y.windows|;
    NoEventsYet(y.outbox, w);
    if y.owned { MineAppend(y.outbox, Asked(Request(w, CLIPBOARD, target)), w); }
  }

  lemma ServeKeepsPhase(y: World, chunk: nat, listing: seq<nat>)
    requires chunk >= 1 && Inv(y, chunk) && Enabled(y, Serve(listing))
    ensures var w := WindowOf(y.outbox[0]);
            Phase(w, chunk, Look(AfterServe(y, chunk, listing), w))
  {
    var w, z := WindowOf(y.outbox[0]), AfterServe(y, chunk, listing);
    var v := Look(y, w);
    assert v.mine == [y.outbox[0]] + Mine(y.outbox[1..], w);
    if !Alive(v.window) {
      ClosedKeepsPhase(w, chunk, v, Look(z, w));
    } else {
      SoleEvent(w, chunk, v, Mine(y.outbox[1..], w));
      match y.outbox[0]
      case Asked(q) =>
        AnswerKeepsPhase(w, chunk, v, y.data, y.transfers, listing, Look(z, w));
      case Deleted(_) =>
        if w in y.transfers {
          RefillKeepsPhase(w, chunk, v, Look(z, w));
        } else {
          MissedDeletionKeepsPhase(w, chunk, v);
        }
    }
  }

  /** An open window never has two events under way, and a request only before it is answered. */
  lemma SoleEvent(w: nat, chunk: nat, v: View, more: seq<OwnerEvent>)
    requires chunk >= 1 && Alive(v.window) && Phase(w, chunk, v) && |v.mine| >= 1 && more == v.mine[1..]
    ensures |v.mine| == 1 && more == []
    ensures v.mine[0].Asked? ==> v.window.answer.None? && Requested(w, v) && v.mine[0].request.window == w
    ensures v.mine[0].Deleted? ==> v.mine == [Deleted(w)]
  {
  }

  lemma ReadStepKeepsPhase(y: World, chunk: nat, w: nat)
    requires chunk >= 1 && Inv(y, chunk) && Enabled(y, Read(w))
    ensures Phase(w, chunk, Look(AfterRead(y, w), w))
  {
    MineAppend(y.outbox, Deleted(w), w);
    assert Look(AfterRead(y, w), w) == Handled(w, Look(y, w));
    ReadKeepsPhase(w, chunk, Look(y, w));
  }

  lemma ActorKeepsPhase(y: World, chunk: nat, e: Event)
    requires chunk >= 1 && Inv(y, chunk) && Enabled(y, e) && !e.Publish?
    ensures var z, w := After(y, chunk, e), Actor(y, e);
            w < |z.windows| && Phase(w, chunk, Look(z, w))
  {
    match e
    case Open(target, maxBytes) => OpenKeepsPhase(y, chunk, target, maxBytes);
    case Serve(listing) => ServeKeepsPhase(y, chunk, listing);
    case Read(w) => ReadStepKeepsPhase(y, chunk, w);
    case TimeOut(w) => assert Phase(w, chunk, Look(y, w));
    case Expire(w) =>
      assert Look(After(y, chunk, e), w) == Look(y, w).(transfer := None, window := y.windows[w].(expired := true));
      ExpiryKeepsPhase(w, chunk, Look(y, w));
  }

  lemma StepKeepsOffsets(y: World, chunk: nat, e: Event)
    requires chunk >= 1 && Inv(y, chunk) && Enabled(y, e)
    ensures var z := After(y, chunk, e);
            && OffsetsFit(z) && |y.windows| <= |z.windows| <= |y.windows| + (if e.Open? then 1 else 0)
            && (forall w :: w in z.transfers ==> w < |z.windows|)
  {
  }

  lemma StepKeepsOutbox(y: World, chunk: nat, e: Event)
    requires chunk >= 1 && Inv(y, chunk) && Enabled(y, e)
    ensures var z := After(y, chunk, e); forall i :: 0 <= i < |z.outbox| ==> WindowOf(z.outbox[i]) < |z.windows|
  {
  }

  lemma StepKeepsInv(y: World, chunk: nat, e: Event)
    requires chunk >= 1 && Inv(y, chunk) && Enabled(y, e)
    ensures Inv(After(y, chunk, e), chunk)
  {
    var z := After(y, chunk, e);
    StepKeepsOffsets(y, chunk, e);
    StepKeepsOutbox(y, chunk, e);
    forall w: nat | w < |z.windows| ensures Phase(w, chunk, Look(z, w)) {
      if w == Actor(y, e) {
        ActorKeepsPhase(y, chunk, e);
      } else {
        OthersUnmoved(y, chunk, e, w);
        assert Phase(w, chunk, Look(y, w));
      }
    }
  }
}

/** Reads come to an end: every event counts, and an answered read that nobody gives up can be completed. */
module X11Progress {
  import opened Wrappers
  import opened Bytes
  import opened X11Selection
  import opened X11Transfer
  import opened X11Phases
  import opened X11Exact

  // ---------------------------------------------------------------------------
  // Progress
  // ---------------------------------------------------------------------------

  /** The events an answered read still has to see, its own and the owner's. */
  function EventsLeft(chunk: nat, v: View): nat
    requires chunk >= 1 && v.window.answer.Some?
  {
    if !Alive(v.window) then 0
    else
      match v.window.answer.value
      case Chunked(_, data) =>
        var missing := if |v.window.reader.data| <= |data| then |data| - |v.window.reader.data| else 0;
        |v.window.inbox| + 2 * ChunksFor(missing, chunk) +
        (if v.window.reader.incremental && v.window.property.Value? then 0 else 2)
      case _ => |v.window.inbox|
  }

  /** The whole value was sent at once, and looks like the announcement of chunks. */
  predicate Misread(a: Answer) { a.Plain? && a.property.Value? && a.property.kind == INCR }

  /** Nothing more is going to come: the owner has given up, or the value has been taken for an announcement. */
  predicate Forsaken(v: View) {
    v.window.expired || (v.window.reader.incremental && v.window.answer.Some? && Misread(v.window.answer.value))
  }

  /** Otherwise an open read always has an event under way. */
  lemma ReadsNeverStall(run: seq<World>, chunk: nat, i: nat, w: nat)
    requires chunk >= 1 && IsRun(run, chunk) && i < |run| && w < |run[i].windows| && Alive(run[i].windows[w])
    ensures Forsaken(Look(run[i], w)) || run[i].windows[w].inbox != [] || Mine(run[i].outbox, w) != []
  {
    InvHolds(run, chunk, i);
    assert Phase(w, chunk, Look(run[i], w));
  }

  lemma ChunkIsProgress(w: nat, chunk: nat, v: View, target: Atom, data: seq<byte>)
    requires chunk >= 1 && Alive(v.window) && v.window.answer == Some(Chunked(target, data))
    requires Streaming(w, chunk, v, target, data) && ReadSoFar(chunk, v, data) && Pending(chunk, v, target, data)
    ensures EventsLeft(chunk, Handled(w, v)) < EventsLeft(chunk, v)
  {
    var had := |v.window.reader.data|;
    if had < |data| {
      ReadFullChunk(w, chunk, v, target, data);
      assert ChunksFor(|data| - had, chunk) == 1 + ChunksFor(|data| - Min(had + chunk, |data|), chunk);
    } else {
      TakeValue(v.window.reader, []);
      assert data[had..had] == [];
    }
  }

  lemma HandlingIsProgress(w: nat, chunk: nat, v: View)
    requires chunk >= 1 && Alive(v.window) && v.window.answer.Some? && v.window.inbox != [] && Phase(w, chunk, v)
    ensures EventsLeft(chunk, Handled(w, v)) < EventsLeft(chunk, v)
  {
    if v.window.answer.value.Chunked? {
      var a := v.window.answer.value;
      if Announcing(v, a.target, a.data) {
        ReadAnnouncement(w, chunk, v, a.target, a.data);
      } else {
        ChunkIsProgress(w, chunk, v, a.target, a.data);
      }
    } else if v.window.answer.value.Plain? {
      assert v.window.reader.data == [];
    }
  }

  lemma ServingIsProgress(y: World, chunk: nat, listing: seq<nat>)
    requires chunk >= 1 && Inv(y, chunk) && Enabled(y, Serve(listing))
    requires var w := WindowOf(y.outbox[0]); Alive(y.windows[w]) && y.windows[w].answer.Some? && w in y.transfers
    ensures var w, z := WindowOf(y.outbox[0]), AfterServe(y, chunk, listing);
            && w < |z.windows| && z.windows[w].answer.Some?
            && EventsLeft(chunk, Look(z, w)) < EventsLeft(chunk, Look(y, w))
  {
    var w := WindowOf(y.outbox[0]);
    var v, a := Look(y, w), y.windows[w].answer.value;
    assert v.mine == [y.outbox[0]] + Mine(y.outbox[1..], w);
    SoleEvent(w, chunk, v, Mine(y.outbox[1..], w));
    assert ReadSoFar(chunk, v, a.data) && Pulling(w, v, a.target, a.data);
  }

  /** A deletion the owner no longer cares about, a timeout, an expiry: nothing is set back. */
  lemma OtherwiseNothingChanges(y: World, chunk: nat, e: Event)
    requires chunk >= 1 && Inv(y, chunk) && Enabled(y, e)
             && (e.TimeOut? || e.Expire? || (e.Serve? && Actor(y, e) !in y.transfers))
    requires var w := Actor(y, e); w < |y.windows| && Alive(y.windows[w]) && y.windows[w].answer.Some?
    ensures var z, w := After(y, chunk, e), Actor(y, e);
            && w < |z.windows| && z.windows[w].answer.Some?
            && EventsLeft(chunk, Look(z, w)) <= EventsLeft(chunk, Look(y, w))
  {
    if e.Serve? {
      var w := Actor(y, e);
      var v := Look(y, w);
      assert v.mine == [y.outbox[0]] + Mine(y.outbox[1..], w);
      SoleEvent(w, chunk, v, Mine(y.outbox[1..], w));
    }
  }

  lemma ReadingIsProgress(y: World, chunk: nat, w: nat)
    requires chunk >= 1 && Inv(y, chunk) && Enabled(y, Read(w)) && y.windows[w].answer.Some?
    ensures var z := AfterRead(y, w);
            && z.windows[w].answer.Some? && EventsLeft(chunk, Look(z, w)) < EventsLeft(chunk, Look(y, w))
  {
    MineAppend(y.outbox, Deleted(w), w);
    assert Look(AfterRead(y, w), w) == Handled(w, Look(y, w));
    HandlingIsProgress(w, chunk, Look(y, w));
  }

  /** Every event of an answered read, its own or the owner's, brings it closer to its end; nothing sets it back. */
  lemma EventsAreProgress(y: World, chunk: nat, e: Event, w: nat)
    requires chunk >= 1 && Inv(y, chunk) && Enabled(y, e)
    requires w < |y.windows| && Alive(y.windows[w]) && y.windows[w].answer.Some?
    ensures var z := After(y, chunk, e);
            && w < |z.windows| && z.windows[w].answer.Some?
            && EventsLeft(chunk, Look(z, w)) <= EventsLeft(chunk, Look(y, w))
            && (e == Read(w) || (e.Serve? && WindowOf(y.outbox[0]) == w && w in y.transfers) ==>
                  EventsLeft(chunk, Look(z, w)) < EventsLeft(chunk, Look(y, w)))
  {
    if w != Actor(y, e) {
      OthersUnmoved(y, chunk, e, w);
      assert Look(y, w).window == Look(After(y, chunk, e), w).window;
    } else if e.Read? {
      ReadingIsProgress(y, chunk, w);
    } else if e.Serve? && w in y.transfers {
      ServingIsProgress(y, chunk, e.listing);
    } else {
      OtherwiseNothingChanges(y, chunk, e);
    }
  }

  // ---------------------------------------------------------------------------
  // A read can always be completed
  // ---------------------------------------------------------------------------

  /** The owner keeps the transfer, and the value cannot be taken for an announcement. */
  predicate Finishable(w: Window) { !w.expired && !(w.answer.Some? && Misread(w.answer.value)) }

  /** Steps in which nobody gives up. */
  predicate Patient(e: Event) { e.Serve? || e.Read? }

  ghost predicate LeadsPatiently(y: World, chunk: nat, events: seq<Event>, z: World)
    requires chunk >= 1
    decreases |events|
  {
    if events == [] then y == z
    else
      && Enabled(y, events[0]) && Patient(events[0]) && OffsetsFit(y)
      && LeadsPatiently(After(y, chunk, events[0]), chunk, events[1..], z)
  }

  /** An open, finishable read that has been answered has an event of its own, or one of the owner's in the queue. */
  lemma EventIsDue(y: World, chunk: nat, w: nat)
    requires chunk >= 1 && Inv(y, chunk) && w < |y.windows| && Alive(y.windows[w]) && y.windows[w].answer.Some?
    requires Finishable(y.windows[w]) && y.windows[w].inbox == []
    ensures y.outbox != []
    ensures WindowOf(y.outbox[0]) == w ==> w in y.transfers
  {
    var v := Look(y, w);
    assert Phase(w, chunk, v);
    var a := v.window.answer.value;
    assert a.Chunked? && Pulling(w, v, a.target, a.data);
    assert v.mine != [];
  }

  /** The next event, and what it does to the read. */
  lemma NextEvent(y: World, chunk: nat, w: nat) returns (e: Event)
    requires chunk >= 1 && Inv(y, chunk) && w < |y.windows| && Alive(y.windows[w]) && y.windows[w].answer.Some?
    requires Finishable(y.windows[w])
    ensures Enabled(y, e) && Patient(e)
    ensures var z := After(y, chunk, e);
            && Inv(z, chunk) && w < |z.windows| && z.windows[w].answer == y.windows[w].answer
            && Finishable(z.windows[w])
            && (EventsLeft(chunk, Look(z, w)) < EventsLeft(chunk, Look(y, w)) ||
                (EventsLeft(chunk, Look(z, w)) == EventsLeft(chunk, Look(y, w)) && |z.outbox| < |y.outbox|))
  {
    if y.windows[w].inbox != [] {
      e := Read(w);
    } else {
      EventIsDue(y, chunk, w);
      e := Serve([]);
      if WindowOf(y.outbox[0]) != w { OthersUnmoved(y, chunk, e, w); }
    }
    StepKeepsInv(y, chunk, e);
    EventsAreProgress(y, chunk, e, w);
    ServingOrReadingKeepsAnswer(y, chunk, e, w);
  }

  lemma ServingKeepsAnswer(y: World, chunk: nat, listing: seq<nat>)
    requires chunk >= 1 && Inv(y, chunk) && Enabled(y, Serve(listing)) && y.windows[WindowOf(y.outbox[0])].answer.Some?
    ensures var w, z := WindowOf(y.outbox[0]), AfterServe(y, chunk, listing);
            && w < |z.windows| && z.windows[w].answer == y.windows[w].answer
            && z.windows[w].expired == y.windows[w].expired
            && z.windows[w].reader == y.windows[w].reader
  {
    var w := WindowOf(y.outbox[0]);
    var v := Look(y, w);
    assert v.mine == [y.outbox[0]] + Mine(y.outbox[1..], w);
    if Alive(v.window) { SoleEvent(w, chunk, v, Mine(y.outbox[1..], w)); }
  }

  lemma ReadingKeepsAnswer(y: World, w: nat)
    requires Enabled(y, Read(w))
    ensures var z := AfterRead(y, w);
            && z.windows[w].answer == y.windows[w].answer && z.windows[w].expired == y.windows[w].expired
            && z.windows[w].reader.outcome != Some(Err(TimedOut))
  {
  }

  lemma ServingShortensQueue(y: World, chunk: nat, listing: seq<nat>)
    requires chunk >= 1 && Enabled(y, Serve(listing)) && OffsetsFit(y)
    ensures |AfterServe(y, chunk, listing).outbox| < |y.outbox|
  {
  }

  lemma ServingOrReadingKeepsAnswer(y: World, chunk: nat, e: Event, w: nat)
    requires chunk >= 1 && Inv(y, chunk) && Enabled(y, e) && Patient(e) && w < |y.windows| && y.windows[w].answer.Some?
    ensures var z := After(y, chunk, e);
            && w < |z.windows| && z.windows[w].answer == y.windows[w].answer
            && z.windows[w].expired == y.windows[w].expired
            && (!Alive(z.windows[w]) && Alive(y.windows[w]) ==> z.windows[w].reader.outcome != Some(Err(TimedOut)))
            && (e.Serve? ==> |z.outbox| < |y.outbox|)
  {
    if e.Serve? { ServingShortensQueue(y, chunk, e.listing); }
    if w != Actor(y, e) {
      OthersUnmoved(y, chunk, e, w);
      assert Look(y, w).window == Look(After(y, chunk, e), w).window;
    } else if e.Serve? {
      ServingKeepsAnswer(y, chunk, e.listing);
    } else {
      ReadingKeepsAnswer(y, w);
    }
  }

  /** Whatever else waits in the queues, an answered read that nobody gives up can be completed, and then is right. */
  lemma {:induction false} ReadCanBeCompleted(y: World, chunk: nat, w: nat) returns (events: seq<Event>, z: World)
    requires chunk >= 1 && Inv(y, chunk) && w < |y.windows| && Alive(y.windows[w]) && y.windows[w].answer.Some?
    requires Finishable(y.windows[w])
    ensures LeadsPatiently(y, chunk, events, z)
    ensures w < |z.windows| && z.windows[w].answer == y.windows[w].answer && !Alive(z.windows[w])
    ensures Right(z.windows[w], chunk, z.windows[w].reader.outcome.value)
    decreases EventsLeft(chunk, Look(y, w)), |y.outbox|
  {
    var e := NextEvent(y, chunk, w);
    var next := After(y, chunk, e);
    ServingOrReadingKeepsAnswer(y, chunk, e, w);
    if Alive(next.windows[w]) {
      events, z := ReadCanBeCompleted(next, chunk, w);
      events := [e] + events;
    } else {
      events, z := [e], next;
      assert Phase(w, chunk, Look(next, w));
    }
    assert events[0] == e;
  }

  // ---------------------------------------------------------------------------
  // Exactly when
  // ---------------------------------------------------------------------------

  lemma MisreadStaysOpen(y: World, chunk: nat, e: Event, w: nat)
    requires chunk >= 1 && Inv(y, chunk) && Enabled(y, e) && Patient(e) && w < |y.windows| && Alive(y.windows[w])
    requires y.windows[w].answer.Some? && Misread(y.windows[w].answer.value)
    ensures var z := After(y, chunk, e);
            w < |z.windows| && Alive(z.windows[w]) && z.windows[w].answer == y.windows[w].answer
  {
    ServingOrReadingKeepsAnswer(y, chunk, e, w);
    assert Phase(w, chunk, Look(y, w));
    if w != Actor(y, e) {
      OthersUnmoved(y, chunk, e, w);
      assert Look(y, w).window == Look(After(y, chunk, e), w).window;
    } else if e.Serve? {
      ServingKeepsAnswer(y, chunk, e.listing);
    }
  }

  /** Whatever the owner and the readers do, such a read stays open until it times out. */
  lemma {:induction false} MisreadNeverEnds(y: World, chunk: nat, w: nat, events: seq<Event>, z: World)
    requires chunk >= 1 && Inv(y, chunk) && w < |y.windows| && Alive(y.windows[w])
    requires y.windows[w].answer.Some? && Misread(y.windows[w].answer.value) && LeadsPatiently(y, chunk, events, z)
    ensures w < |z.windows| && Alive(z.windows[w])
    decreases |events|
  {
    if events != [] {
      StepKeepsInv(y, chunk, events[0]);
      MisreadStaysOpen(y, chunk, events[0], w);
      MisreadNeverEnds(After(y, chunk, events[0]), chunk, w, events[1..], z);
    }
  }

  ghost predicate CanComplete(y: World, chunk: nat, w: nat)
    requires chunk >= 1
  {
    exists events, z: World ::
      && LeadsPatiently(y, chunk, events, z)
      && w < |z.windows| && !Alive(z.windows[w]) && Right(z.windows[w], chunk, z.windows[w].reader.outcome.value)
  }

  /** While the owner keeps its transfer, a read can be completed if and only if its value is not misread. */
  lemma CompletesExactlyWhen(y: World, chunk: nat, w: nat)
    requires chunk >= 1 && Inv(y, chunk) && w < |y.windows| && Alive(y.windows[w]) && !y.windows[w].expired
    requires y.windows[w].answer.Some?
    ensures CanComplete(y, chunk, w) <==> !Misread(y.windows[w].answer.value)
  {
    if !Misread(y.windows[w].answer.value) {
      var events, z := ReadCanBeCompleted(y, chunk, w);
    } else {
      forall events, z | LeadsPatiently(y, chunk, events, z) ensures w < |z.windows| && Alive(z.windows[w]) {
        MisreadNeverEnds(y, chunk, w, events, z);
      }
    }
  }

  function Last(run: seq<World>): World
    requires run != []
  {
    run[|run| - 1]
  }

  lemma Extend(run: seq<World>, chunk: nat, e: Event) returns (longer: seq<World>)
    requires chunk >= 1 && IsRun(run, chunk) && Enabled(Last(run), e) && OffsetsFit(Last(run))
    ensures IsRun(longer, chunk) && Last(longer) == After(Last(run), chunk, e)
  {
    longer := run + [After(Last(run), chunk, e)];
    assert Step(Last(run), chunk, longer[|run|]);
    forall i, j | 0 <= i < j < |longer| && j == i + 1 ensures Step(longer[i], chunk, longer[j]) {
      if j < |run| { assert longer[i] == run[i] && longer[j] == run[j]; }
    }
  }

  /** The one window of a world in which the format of the announcement is offered. */
  function Confused(data: seq<byte>, reader: Reader, property: Property, inbox: seq<ReaderEvent>,
      answer: Option<Answer>)
    : World
  {
    World(true, map[INCR := data], map[],
          if answer.None? then [Asked(Request(0, CLIPBOARD, INCR))] else [],
          [Window(reader, property, inbox, false, answer, 0, false, false)])
  }

  lemma Requesting(chunk: nat, data: seq<byte>, maxBytes: nat) returns (run: seq<World>)
    requires chunk >= 1
    ensures IsRun(run, chunk) && Last(run) == Confused(data, Reader(INCR, maxBytes, false, [], None), Absent, [], None)
  {
    run := [World(false, map[], map[], [], [])];
    var reps := [Offer(INCR, data)];
    run := Extend(run, chunk, Publish(reps));
    assert reps[1..] == [] && Offered(reps) == map[INCR := data];
    run := Extend(run, chunk, Open(INCR, maxBytes));
  }

  /** It happens: whatever is offered in one piece under that name, its read ends up open with nothing under way. */
  lemma MisreadHappens(chunk: nat, data: seq<byte>, maxBytes: nat) returns (run: seq<World>)
    requires chunk >= 1 && |data| <= chunk
    ensures IsRun(run, chunk) && |Last(run).windows| == 1
    ensures var window := Last(run).windows[0];
            && Alive(window) && !window.expired && window.reader.incremental && window.reader.data == []
            && window.answer == Some(Plain(Value(INCR, 8, data)))
            && window.inbox == [] && Last(run).outbox == [] && Last(run).transfers == map[]
  {
    var reader := Reader(INCR, maxBytes, false, [], None);
    var p := Value(INCR, 8, data);
    run := Requesting(chunk, data, maxBytes);
    assert |INCR| != |TARGETS|;
    assert AnswerTo(chunk, map[INCR := data], map[], Request(0, CLIPBOARD, INCR), []) == Plain(p);
    run := Extend(run, chunk, Serve([]));
    assert Last(run).outbox == [] && Last(run).windows[0].inbox == [Changed, Notified(true)];
    assert Last(run).windows == [Last(run).windows[0]];
    assert Last(run) == Confused(data, reader, p, [Changed, Notified(true)], Some(Plain(p)));
    run := Extend(run, chunk, Read(0));
    assert Last(run) == Confused(data, reader, p, [Notified(true)], Some(Plain(p)));
    run := Extend(run, chunk, Read(0));
  }

  // ---------------------------------------------------------------------------
  // Values that are read
  // ---------------------------------------------------------------------------

  lemma {:induction false} RunOn(run: seq<World>, chunk: nat, events: seq<Event>, z: World) returns (longer: seq<World>)
    requires chunk >= 1 && IsRun(run, chunk) && LeadsPatiently(Last(run), chunk, events, z)
    ensures IsRun(longer, chunk) && Last(longer) == z
    decreases |events|
  {
    if events == [] {
      longer := run;
    } else {
      longer := Extend(run, chunk, events[0]);
      longer := RunOn(longer, chunk, events[1..], z);
    }
  }

  /** A lone reader has asked for the one format on offer. */
  function Curious(target: Atom, data: seq<byte>, maxBytes: nat): World {
    World(true, map[target := data], map[], [Asked(Request(0, CLIPBOARD, target))],
          [Window(Reader(target, maxBytes, false, [], None), Absent, [], false, None, 0, false, false)])
  }

  lemma Asking(chunk: nat, target: Atom, data: seq<byte>, maxBytes: nat) returns (run: seq<World>)
    requires chunk >= 1
    ensures IsRun(run, chunk) && Last(run) == Curious(target, data, maxBytes)
  {
    run := [World(false, map[], map[], [], [])];
    var reps := [Offer(target, data)];
    run := Extend(run, chunk, Publish(reps));
    assert reps[1..] == [] && Offered(reps) == map[target := data];
    run := Extend(run, chunk, Open(target, maxBytes));
  }

  /** Serving it answers with all of the value, at once or announced. */
  lemma CuriousIsAnswered(chunk: nat, target: Atom, data: seq<byte>, maxBytes: nat)
    requires chunk >= 1 && target != "TARGETS" && (|data| > chunk ==> |data| < 0x1_0000_0000)
    ensures var y := Curious(target, data, maxBytes);
            && Enabled(y, Serve([])) && OffsetsFit(y)
            && var z := After(y, chunk, Serve([]));
            && |z.windows| == 1 && Alive(z.windows[0]) && !z.windows[0].expired && !z.windows[0].unowned
            && z.windows[0].reader.maxBytes == maxBytes
            && z.windows[0].answer == Some(if |data| <= chunk then Plain(Value(target, 8, data))
                                           else Chunked(target, data))
  {
    RefusedExactlyWhen(chunk, map[target := data], map[], Request(0, CLIPBOARD, target), []);
  }

  /** What the read of such a value comes to. */
  lemma RightIsWhole(window: Window, chunk: nat, target: Atom, data: seq<byte>)
    requires chunk >= 1 && !Alive(window) && Right(window, chunk, window.reader.outcome.value)
    requires window.answer == Some(if |data| <= chunk then Plain(Value(target, 8, data)) else Chunked(target, data))
    requires |data| <= window.reader.maxBytes && |data| < 0x1_0000_0000
    ensures window.reader.outcome == Some(Ok(data)) && (|data| > chunk ==> window.chunks == ChunksFor(|data|, chunk))
  {
  }

  /**
   * Whatever is offered can be read whole, if it fits the reader's limit and its length fits 32 bits; in one piece it
   * must not be called like an announcement.
   */
  lemma OfferedValueIsRead(chunk: nat, target: Atom, data: seq<byte>, maxBytes: nat) returns (run: seq<World>)
    requires chunk >= 1 && target != "TARGETS" && |data| <= maxBytes && |data| < 0x1_0000_0000
    requires |data| <= chunk ==> target != "INCR"
    ensures IsRun(run, chunk) && |Last(run).windows| > 0
    ensures var window := Last(run).windows[0];
            && window.reader.outcome == Some(Ok(data))
            && (|data| > chunk ==> (window.chunks - 1) * chunk < |data| <= window.chunks * chunk)
  {
    run := Asking(chunk, target, data, maxBytes);
    CuriousIsAnswered(chunk, target, data, maxBytes);
    run := Extend(run, chunk, Serve([]));
    InvHolds(run, chunk, |run| - 1);
    var events, z := ReadCanBeCompleted(Last(run), chunk, 0);
    LimitStays(Last(run), chunk, events, z);
    RightIsWhole(z.windows[0], chunk, target, data);
    run := RunOn(run, chunk, events, z);
    if |data| > chunk { ChunksForIsCeiling(|data|, chunk); }
  }

  lemma PatientStepKeepsLimit(y: World, chunk: nat, e: Event)
    requires chunk >= 1 && Inv(y, chunk) && |y.windows| > 0 && Enabled(y, e) && Patient(e) && OffsetsFit(y)
    ensures var z := After(y, chunk, e);
            |z.windows| > 0 && z.windows[0].reader.maxBytes == y.windows[0].reader.maxBytes
  {
    if Actor(y, e) != 0 {
      OthersUnmoved(y, chunk, e, 0);
      assert Look(y, 0).window == Look(After(y, chunk, e), 0).window;
    }
  }

  lemma {:induction false} LimitStays(y: World, chunk: nat, events: seq<Event>, z: World)
    requires chunk >= 1 && Inv(y, chunk) && |y.windows| > 0 && LeadsPatiently(y, chunk, events, z)
    ensures |z.windows| > 0 && z.windows[0].reader.maxBytes == y.windows[0].reader.maxBytes
    decreases |events|
  {
    if events != [] {
      StepKeepsInv(y, chunk, events[0]);
      PatientStepKeepsLimit(y, chunk, events[0]);
      LimitStays(After(y, chunk, events[0]), chunk, events[1..], z);
    }
  }
}

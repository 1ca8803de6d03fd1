/** What is read is exactly what was published when the request was answered, in exactly as many chunks as needed. */
module X11Exact {
  import opened Wrappers
  import opened Bytes
  import opened X11Selection
  import opened X11Transfer
  import opened X11Phases

  // ---------------------------------------------------------------------------
  // Over whole runs
  // ---------------------------------------------------------------------------

  ghost predicate Step(y: World, chunk: nat, z: World)
    requires chunk >= 1
  {
    exists e :: Enabled(y, e) && OffsetsFit(y) && After(y, chunk, e) == z
  }

  lemma StepEvent(y: World, chunk: nat, z: World) returns (e: Event)
    requires chunk >= 1 && Step(y, chunk, z)
    ensures Enabled(y, e) && OffsetsFit(y) && After(y, chunk, e) == z
  {
    e :| Enabled(y, e) && OffsetsFit(y) && After(y, chunk, e) == z;
  }

  ghost predicate IsRun(run: seq<World>, chunk: nat)
    requires chunk >= 1
  {
    && run != [] && Init(run[0])
    && forall i, j {:trigger Step(run[i], chunk, run[j])} ::
         0 <= i < j < |run| && j == i + 1 ==> Step(run[i], chunk, run[j])
  }

  lemma {:induction false} InvHolds(run: seq<World>, chunk: nat, i: nat)
    requires chunk >= 1 && IsRun(run, chunk) && i < |run|
    ensures Inv(run[i], chunk)
  {
    if i > 0 {
      InvHolds(run, chunk, i - 1);
      var e := StepEvent(run[i - 1], chunk, run[i]);
      StepKeepsInv(run[i - 1], chunk, e);
    }
  }

  /**
   * Whatever the interleaving, a read that is over has timed out or come to what its answer says: all of the bytes
   * of a value within the limit, nothing but an error for a larger one, and a chunked value in as many chunks as it
   * needs.
   */
  lemma ReadsAreExact(run: seq<World>, chunk: nat, i: nat, w: nat)
    requires chunk >= 1 && IsRun(run, chunk) && i < |run| && w < |run[i].windows| && !Alive(run[i].windows[w])
    ensures var window := run[i].windows[w];
            var outcome := window.reader.outcome.value;
            outcome == Err(TimedOut) || Right(window, chunk, outcome)
  {
    InvHolds(run, chunk, i);
    assert Phase(w, chunk, Look(run[i], w));
  }

  /** In a transfer under way, what has been read and what lies in the property are together what the owner has sent. */
  lemma NothingLostOrRepeated(run: seq<World>, chunk: nat, i: nat, w: nat)
    requires chunk >= 1 && IsRun(run, chunk) && i < |run| && w < |run[i].windows| && Alive(run[i].windows[w])
    requires var window := run[i].windows[w];
             window.answer.Some? && window.answer.value.Chunked? && window.reader.incremental && w in run[i].transfers
    ensures var window, t := run[i].windows[w], run[i].transfers[w];
            && t.data == window.answer.value.data && t.offset <= |t.data|
            && t.data[..t.offset] == window.reader.data + if window.property.Value? then window.property.bytes else []
  {
    InvHolds(run, chunk, i);
    var v, a := Look(run[i], w), run[i].windows[w].answer.value;
    assert Streaming(w, chunk, v, a.target, a.data);
  }

  /** Serving a window's event answers it, if it has not been answered before. */
  lemma ServingAnswers(y: World, chunk: nat, listing: seq<nat>)
    requires chunk >= 1 && Inv(y, chunk) && Enabled(y, Serve(listing))
    ensures var w, z := WindowOf(y.outbox[0]), AfterServe(y, chunk, listing);
            && w < |z.windows| && z.windows[w].reader.target == y.windows[w].reader.target
            && (y.windows[w].answer.Some? ==> z.windows[w].answer == y.windows[w].answer)
            && (y.windows[w].answer.None? && z.windows[w].answer.Some? ==>
                  && y.outbox[0] == Asked(Request(w, CLIPBOARD, y.windows[w].reader.target))
                  && z.windows[w].answer.value == AnswerTo(chunk, y.data, y.transfers, y.outbox[0].request, listing))
  {
    var w := WindowOf(y.outbox[0]);
    var v := Look(y, w);
    assert v.mine == [y.outbox[0]] + Mine(y.outbox[1..], w);
    if Alive(v.window) { SoleEvent(w, chunk, v, Mine(y.outbox[1..], w)); }
  }

  lemma OthersKeepTheirAnswers(y: World, chunk: nat, e: Event, w: nat)
    requires chunk >= 1 && Inv(y, chunk) && Enabled(y, e) && w < |y.windows| && w != Actor(y, e)
    ensures w < |After(y, chunk, e).windows| && After(y, chunk, e).windows[w] == y.windows[w]
  {
    OthersUnmoved(y, chunk, e, w);
    assert Look(y, w).window == Look(After(y, chunk, e), w).window;
  }

  /** Only the owner answers. */
  lemma OwnStepKeepsItsAnswer(y: World, chunk: nat, e: Event, w: nat)
    requires chunk >= 1 && Inv(y, chunk) && Enabled(y, e) && !e.Serve? && (w < |y.windows| ==> w == Actor(y, e))
    requires w < |After(y, chunk, e).windows| && After(y, chunk, e).windows[w].answer.Some?
    ensures w < |y.windows| && After(y, chunk, e).windows[w].reader.target == y.windows[w].reader.target
    ensures After(y, chunk, e).windows[w].answer == y.windows[w].answer
  {
  }

  lemma AnswerAppears(y: World, chunk: nat, e: Event, w: nat)
    requires chunk >= 1 && Inv(y, chunk) && Enabled(y, e)
    requires w < |After(y, chunk, e).windows| && After(y, chunk, e).windows[w].answer.Some?
    ensures w < |y.windows| && After(y, chunk, e).windows[w].reader.target == y.windows[w].reader.target
    ensures y.windows[w].answer.Some? ==> After(y, chunk, e).windows[w].answer == y.windows[w].answer
    ensures y.windows[w].answer.None? ==>
              && e.Serve? && y.outbox != [] && y.outbox[0] == Asked(Request(w, CLIPBOARD, y.windows[w].reader.target))
              && After(y, chunk, e).windows[w].answer.value ==
                 AnswerTo(chunk, y.data, y.transfers, y.outbox[0].request, e.listing)
  {
    if w < |y.windows| && w != Actor(y, e) {
      OthersKeepTheirAnswers(y, chunk, e, w);
    } else if e.Serve? {
      ServingAnswers(y, chunk, e.listing);
    } else {
      OwnStepKeepsItsAnswer(y, chunk, e, w);
    }
  }

  /** The bytes an answer promises are the ones that were on offer when the owner answered. */
  lemma {:induction false} AnswersComeFromTheOffer(run: seq<World>, chunk: nat, i: nat, w: nat)
    returns (k: nat, listing: seq<nat>)
    requires chunk >= 1 && IsRun(run, chunk) && i < |run| && w < |run[i].windows| && run[i].windows[w].answer.Some?
    ensures k < i && w < |run[k].windows| && run[k].windows[w].answer.None?
    ensures run[k].outbox != [] && run[k].outbox[0] == Asked(Request(w, CLIPBOARD, run[i].windows[w].reader.target))
    ensures run[i].windows[w].answer.value ==
            AnswerTo(chunk, run[k].data, run[k].transfers, run[k].outbox[0].request, listing)
  {
    InvHolds(run, chunk, i - 1);
    var e := StepEvent(run[i - 1], chunk, run[i]);
    AnswerAppears(run[i - 1], chunk, e, w);
    if run[i - 1].windows[w].answer.Some? {
      k, listing := AnswersComeFromTheOffer(run, chunk, i - 1, w);
    } else {
      k, listing := i - 1, e.listing;
    }
  }

  /** The offer of a format is its first representation. */
  lemma {:induction false} FirstRepresentationWins(reps: seq<Offer>, i: nat)
    requires i < |reps| && forall j :: 0 <= j < i ==> reps[j].format != reps[i].format
    ensures reps[i].format in Offered(reps) && Offered(reps)[reps[i].format] == reps[i].data
  {
    if i > 0 { FirstRepresentationWins(reps[1..], i - 1); }
  }

  /** And only what has been published is on offer. */
  lemma {:induction false} NothingElseIsOffered(reps: seq<Offer>, format: Atom)
    requires format in Offered(reps)
    ensures exists i :: 0 <= i < |reps| && reps[i].format == format
  {
    if reps[0].format != format {
      NothingElseIsOffered(reps[1..], format);
      var i :| 0 <= i < |reps[1..]| && reps[1..][i].format == format;
      assert reps[i + 1].format == format;
    }
  }

  /**
   * A request for something on offer is refused only for a value that takes chunks, and then exactly if 128 consumers
   * are being served already or its length does not fit 32 bits.
   */
  lemma RefusedExactlyWhen(chunk: nat, data: map<Atom, seq<byte>>, transfers: map<nat, Transfer>, q: Request,
      listing: seq<nat>)
    requires q.selection == "CLIPBOARD" && (q.target == "TARGETS" || q.target in data)
    ensures AnswerTo(chunk, data, transfers, q, listing).Refuse? <==>
              && q.target != "TARGETS" && |data[q.target]| > chunk
              && (|transfers| >= 128 || |data[q.target]| >= 0x1_0000_0000)
  {
  }

  /** The atoms of a list of targets, read back. */
  function AtomsIn(bytes: seq<byte>): seq<nat>
    requires |bytes| % 4 == 0
  {
    if bytes == [] then [] else [FromBigEndian(bytes[..4])] + AtomsIn(bytes[4..])
  }

  lemma {:induction false} AtomListRoundTrip(atoms: seq<nat>)
    requires forall i :: 0 <= i < |atoms| ==> atoms[i] < 0x1_0000_0000
    ensures |AtomList(atoms)| == 4 * |atoms| && AtomsIn(AtomList(atoms)) == atoms
  {
    if atoms != [] {
      Widths();
      BigEndianRoundTrip(atoms[0], 4);
      AtomListRoundTrip(atoms[1..]);
      var first, rest := BigEndian(atoms[0], 4), AtomList(atoms[1..]);
      assert (first + rest)[..4] == first && (first + rest)[4..] == rest;
      assert [atoms[0]] + atoms[1..] == atoms;
    }
  }

  /**
   * A successful read of an owned selection returns what was on offer when its request was answered, whatever was
   * published since.
   */
  lemma ReadReturnsWhatWasOffered(run: seq<World>, chunk: nat, i: nat, w: nat) returns (k: nat)
    requires chunk >= 1 && IsRun(run, chunk) && i < |run| && w < |run[i].windows|
    requires var window := run[i].windows[w];
             window.reader.outcome.Some? && window.reader.outcome.value.Ok? && !window.unowned &&
               window.reader.target != TARGETS
    ensures var reader := run[i].windows[w].reader;
            && k < i && w < |run[k].windows| && run[k].windows[w].answer.None?
            && run[k].outbox != [] && run[k].outbox[0] == Asked(Request(w, CLIPBOARD, reader.target))
            && reader.target in run[k].data && reader.outcome == Some(Ok(run[k].data[reader.target]))
            && |run[k].data[reader.target]| <= reader.maxBytes
  {
    ReadsAreExact(run, chunk, i, w);
    var listing;
    k, listing := AnswersComeFromTheOffer(run, chunk, i, w);
  }
}

/** The bounded `seen` map against a set that never forgets. */
module Deduplication {
  import opened Daemon

  datatype Call = Call(id: ClipId, readings: Readings)

  /** Calls in clock order, on a clock that has run for the whole retention period. */
  ghost predicate InOrder(now: Instant, calls: seq<Call>)
    decreases |calls|
  {
    calls == [] ||
    var r := calls[0].readings;
    now <= r.inserted && Ordered(r) && RETENTION <= r.pruning && InOrder(r.pruning, calls[1..])
  }

  /** What `mark_seen` answers to each call in turn. */
  function Answers(seen: map<ClipId, Instant>, calls: seq<Call>): seq<bool>
    decreases |calls|
  {
    if calls == [] then []
    else
      var c := calls[0];
      [c.id !in seen] + Answers(MarkedSeen(seen, c.id, c.readings), calls[1..])
  }

  function Remember(first: map<ClipId, Instant>, id: ClipId, at: Instant): map<ClipId, Instant> {
    if id in first then first else first[id := at]
  }

  /** The same calls answered by a map that keeps every first sighting for ever. */
  function UnboundedAnswers(first: map<ClipId, Instant>, calls: seq<Call>): seq<bool>
    decreases |calls|
  {
    if calls == [] then []
    else
      var c := calls[0];
      [c.id !in first] + UnboundedAnswers(Remember(first, c.id, c.readings.inserted), calls[1..])
  }

  /** First sightings after the first `i` calls. */
  function FirstSeen(first: map<ClipId, Instant>, calls: seq<Call>, i: nat): map<ClipId, Instant>
    requires i <= |calls|
    decreases i
  {
    if i == 0 then first
    else FirstSeen(Remember(first, calls[0].id, calls[0].readings.inserted), calls[1..], i - 1)
  }

  /** The bounded map knows every id first seen in the last hour, and nothing that was never seen. */
  ghost predicate Refines(seen: map<ClipId, Instant>, first: map<ClipId, Instant>, now: Instant) {
    && (forall id :: id in seen ==> id in first && first[id] <= seen[id] <= now)
    && (forall id :: id in first && now <= first[id] + RETENTION ==> id in seen)
  }

  /** Time passing keeps the relation, and so does any call. */
  lemma MarkRefines(seen: map<ClipId, Instant>, first: map<ClipId, Instant>, now: Instant, id: ClipId, r: Readings)
    requires Refines(seen, first, now)
    requires now <= r.inserted && Ordered(r) && RETENTION <= r.pruning
    ensures Refines(MarkedSeen(seen, id, r), Remember(first, id, r.inserted), r.pruning)
  {
    var after := Remember(first, id, r.inserted);
    forall k | k in after && r.pruning <= after[k] + RETENTION
      ensures k in MarkedSeen(seen, id, r)
    {
      if k in first {
        assert k in seen;
      } else {
        assert k == id && id !in seen;
      }
    }
  }

  /** Whether an id was first sighted too long ago for the bounded map to promise it. */
  predicate Recent(first: map<ClipId, Instant>, id: ClipId, now: Instant) {
    id in first ==> now <= first[id] + RETENTION
  }

  /** The reading before call `i`: the pruning reading of the call before it. */
  function Before(now: Instant, calls: seq<Call>, i: nat): Instant
    requires i <= |calls|
  {
    if i == 0 then now else calls[i - 1].readings.pruning
  }

  /** On every id never seen, or first seen within the hour, the bounded map answers as the unbounded one. */
  lemma {:induction false} BoundedMapAnswersLikeUnbounded(
      seen: map<ClipId, Instant>, first: map<ClipId, Instant>, now: Instant, calls: seq<Call>, i: nat)
    requires Refines(seen, first, now) && InOrder(now, calls) && i < |calls|
    requires Recent(FirstSeen(first, calls, i), calls[i].id, Before(now, calls, i))
    ensures |Answers(seen, calls)| == |UnboundedAnswers(first, calls)| == |calls|
    ensures Answers(seen, calls)[i] == UnboundedAnswers(first, calls)[i]
            == (calls[i].id !in FirstSeen(first, calls, i))
    decreases i
  {
    AnswersLength(seen, first, calls);
    if i > 0 {
      var c := calls[0];
      MarkRefines(seen, first, now, c.id, c.readings);
      BoundedMapAnswersLikeUnbounded(MarkedSeen(seen, c.id, c.readings), Remember(first, c.id, c.readings.inserted),
                                     c.readings.pruning, calls[1..], i - 1);
    }
  }

  lemma {:induction false} AnswersLength(seen: map<ClipId, Instant>, first: map<ClipId, Instant>, calls: seq<Call>)
    ensures |Answers(seen, calls)| == |UnboundedAnswers(first, calls)| == |calls|
    decreases |calls|
  {
    if calls != [] {
      var c := calls[0];
      AnswersLength(MarkedSeen(seen, c.id, c.readings), Remember(first, c.id, c.readings.inserted), calls[1..]);
    }
  }

  /** A started daemon, when no message outlives the hour: each id is accepted exactly at its first call. */
  lemma EachIdAcceptedOnce(calls: seq<Call>, i: nat)
    requires InOrder(0, calls) && i < |calls|
    requires Recent(FirstSeen(map[], calls, i), calls[i].id, Before(0, calls, i))
    ensures |Answers(map[], calls)| == |calls|
    ensures Answers(map[], calls)[i] <==> (forall j :: 0 <= j < i ==> calls[j].id != calls[i].id)
  {
    BoundedMapAnswersLikeUnbounded(map[], map[], 0, calls, i);
    FirstSeenKeys(map[], calls, i, calls[i].id);
  }

  lemma {:induction false} FirstSeenKeys(first: map<ClipId, Instant>, calls: seq<Call>, i: nat, id: ClipId)
    requires i <= |calls|
    ensures id in FirstSeen(first, calls, i) <==> id in first || exists j :: 0 <= j < i && calls[j].id == id
    decreases i
  {
    if i > 0 {
      var rest := calls[1..];
      FirstSeenKeys(Remember(first, calls[0].id, calls[0].readings.inserted), rest, i - 1, id);
      assert forall j :: 0 <= j < i - 1 ==> rest[j] == calls[j + 1];
      assert forall j :: 1 <= j < i ==> calls[j] == rest[j - 1];
    }
  }

  /** A just marked id is remembered exactly when no pruning happens or the cutoff is not after its reading. */
  lemma JustMarkedIsRemembered(seen: map<ClipId, Instant>, id: ClipId, r: Readings)
    requires id !in seen
    ensures id in MarkedSeen(seen, id, r) <==> |seen| < SEEN_LIMIT || Cutoff(r) <= r.inserted
  {
    assert seen[id := r.inserted].Keys == seen.Keys + {id};
    assert |seen[id := r.inserted]| == |seen| + 1 by {
      assert |seen.Keys + {id}| == |seen.Keys| + 1;
    }
  }

  /** Beyond the hour the promise ends: a full map forgets an older id, and accepts it a second time. */
  lemma OlderIdsAreForgotten(seen: map<ClipId, Instant>, stale: ClipId, id: ClipId, r: Readings)
    requires stale in seen && id !in seen && |seen| >= SEEN_LIMIT
    ensures Answers(seen, [Call(id, r), Call(stale, r)]) == [true, seen[stale] < Cutoff(r)]
  {
    JustMarkedIsRemembered(seen, id, r);
    var added := seen[id := r.inserted];
    assert added.Keys == seen.Keys + {id} && |added| == |seen| + 1;
    var later := MarkedSeen(seen, id, r);
    assert stale in later <==> seen[stale] >= Cutoff(r);
    var calls := [Call(id, r), Call(stale, r)];
    assert calls[1..] == [Call(stale, r)] && calls[1..][1..] == [];
    assert Answers(later, calls[1..]) == [stale !in later];
  }
}

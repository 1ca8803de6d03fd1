/**
 * Daemons with bounded memory behave like those of the mesh, which never forget, while no message outlives the hour.
 */
module MeshDeduplication {
  import opened Wrappers
  import opened Daemon
  import opened Deduplication
  import opened Mesh

  /** The id a step marks at node `n`: one its watcher announces, or one delivered to it. */
  ghost function Marked(t: Topology, s: State, e: Event, n: NodeId): Option<ClipId>
    requires WellFormed(t) && Shape(t, s) && Enabled(t, s, e)
  {
    match e
    case Watch(m, id) => if m == n && WouldAnnounce(s.nodes[m].guarded) then Some(id) else None
    case Deliver(l) => if t.links[l].to == n then Some(s.links[l].wire[0].id) else None
    case _ => None
  }

  function Made(marked: Option<ClipId>, r: Readings): seq<Call> {
    match marked
    case None => []
    case Some(id) => [Call(id, r)]
  }

  /** What node `n` marks step by step. */
  ghost function Marks(t: Topology, states: seq<State>, events: seq<Event>, n: NodeId): (r: seq<Option<ClipId>>)
    requires WellFormed(t) && IsRun(t, states, events)
    ensures |r| == |events|
    ensures forall k {:trigger r[k]} :: 0 <= k < |r| ==> r[k] == Marked(t, states[k], events[k], n)
  {
    seq(|events|, k requires 0 <= k < |events| => Marked(t, states[k], events[k], n))
  }

  function CallsOf(marks: seq<Option<ClipId>>, clock: nat -> Readings, i: nat): seq<Call>
    requires i <= |marks|
  {
    if i == 0 then [] else CallsOf(marks, clock, i - 1) + Made(marks[i - 1], clock(i - 1))
  }

  /** The calls node `n` makes in the first `i` steps of a run, when step `k` reads the clock as `clock(k)`. */
  ghost function Calls(t: Topology, states: seq<State>, events: seq<Event>, n: NodeId, clock: nat -> Readings, i: nat)
    : seq<Call>
    requires WellFormed(t) && IsRun(t, states, events) && i <= |events|
  {
    CallsOf(Marks(t, states, events, n), clock, i)
  }

  ghost predicate CalledFor(calls: seq<Call>, id: ClipId) { exists j :: 0 <= j < |calls| && calls[j].id == id }

  lemma MarkingIsSeeing(t: Topology, s: State, e: Event, n: NodeId, id: ClipId)
    requires WellFormed(t) && Shape(t, s) && Enabled(t, s, e) && n < t.size
    ensures id in Step(t, s, e).nodes[n].seen <==> id in s.nodes[n].seen || Marked(t, s, e, n) == Some(id)
  {
  }

  lemma CalledForNext(calls: seq<Call>, marked: Option<ClipId>, r: Readings, id: ClipId)
    ensures CalledFor(calls + Made(marked, r), id) <==> CalledFor(calls, id) || marked == Some(id)
  {
    var longer := calls + Made(marked, r);
    assert marked.Some? ==> longer[|calls|].id == marked.value;
    assert forall j :: 0 <= j < |calls| ==> longer[j] == calls[j];
  }

  lemma SeenNext(t: Topology, states: seq<State>, events: seq<Event>, n: NodeId, k: nat, l: nat, id: ClipId)
    requires WellFormed(t) && IsRun(t, states, events) && k < l < |states| && l == k + 1 && n < t.size
    ensures id in states[l].nodes[n].seen <==>
              id in states[k].nodes[n].seen || Marks(t, states, events, n)[k] == Some(id)
  {
    MarkingIsSeeing(t, states[k], events[k], n, id);
  }

  lemma {:induction false} SeenIsMarked(seen: seq<bool>, marks: seq<Option<ClipId>>, clock: nat -> Readings, i: nat,
                                        id: ClipId)
    requires |seen| == |marks| + 1 && i <= |marks| && !seen[0]
    requires forall k, l :: 0 <= k < l < |seen| && l == k + 1 ==> (seen[l] <==> seen[k] || marks[k] == Some(id))
    ensures seen[i] <==> CalledFor(CallsOf(marks, clock, i), id)
  {
    if i > 0 {
      SeenIsMarked(seen, marks, clock, i - 1, id);
      CalledForNext(CallsOf(marks, clock, i - 1), marks[i - 1], clock(i - 1), id);
    }
  }

  /** In the mesh a node has seen exactly what it has made a call for. */
  lemma SeenIsCalledFor(t: Topology, states: seq<State>, events: seq<Event>, n: NodeId, clock: nat -> Readings,
                        i: nat, id: ClipId)
    requires WellFormed(t) && IsRun(t, states, events) && i <= |events| && n < t.size
    ensures id in states[i].nodes[n].seen <==> CalledFor(Calls(t, states, events, n, clock, i), id)
  {
    var seen := seq(|states|, k requires 0 <= k < |states| => id in states[k].nodes[n].seen);
    var marks := Marks(t, states, events, n);
    forall k, l | 0 <= k < l < |seen| && l == k + 1 ensures seen[l] <==> seen[k] || marks[k] == Some(id) {
      SeenNext(t, states, events, n, k, l, id);
    }
    SeenIsMarked(seen, marks, clock, i, id);
  }

  lemma {:induction false} FirstSeenOfPrefix(first: map<ClipId, Instant>, calls: seq<Call>, call: Call, i: nat)
    requires i <= |calls|
    ensures FirstSeen(first, calls + [call], i) == FirstSeen(first, calls, i)
    decreases i
  {
    if i > 0 {
      assert (calls + [call])[1..] == calls[1..] + [call];
      FirstSeenOfPrefix(Remember(first, calls[0].id, calls[0].readings.inserted), calls[1..], call, i - 1);
    }
  }

  /** The last of several calls is answered as if nothing were forgotten, if its id was first seen within the hour. */
  lemma LastAnswer(before: seq<Call>, call: Call, calls: seq<Call>)
    requires calls == before + [call] && InOrder(0, calls)
    requires Recent(FirstSeen(map[], before, |before|), call.id, Before(0, before, |before|))
    ensures calls != [] && |Answers(map[], calls)| == |calls|
    ensures Answers(map[], calls)[|calls| - 1] == !CalledFor(before, call.id)
  {
    FirstSeenOfPrefix(map[], before, call, |before|);
    assert Before(0, calls, |before|) == Before(0, before, |before|);
    BoundedMapAnswersLikeUnbounded(map[], map[], 0, calls, |before|);
    FirstSeenKeys(map[], before, |before|, call.id);
  }

  lemma NextCall(t: Topology, states: seq<State>, events: seq<Event>, n: NodeId, clock: nat -> Readings, i: nat,
                 id: ClipId)
    requires WellFormed(t) && IsRun(t, states, events) && i < |events| && Marked(t, states[i], events[i], n) == Some(id)
    ensures Calls(t, states, events, n, clock, i + 1) == Calls(t, states, events, n, clock, i) + [Call(id, clock(i))]
  {
    assert Marks(t, states, events, n)[i] == Some(id);
  }

  /**
   * At every step of every run, the pruned map of a daemon that has made the same calls answers as the mesh does,
   * unless the message is about a clip the daemon first saw more than an hour ago.
   */
  lemma BoundedMemorySuffices(t: Topology, states: seq<State>, events: seq<Event>, n: NodeId, clock: nat -> Readings,
                              i: nat, id: ClipId)
    requires WellFormed(t) && IsRun(t, states, events) && i < |events| && n < t.size
    requires Marked(t, states[i], events[i], n) == Some(id)
    requires InOrder(0, Calls(t, states, events, n, clock, i + 1))
    requires var calls := Calls(t, states, events, n, clock, i);
             Recent(FirstSeen(map[], calls, |calls|), id, Before(0, calls, |calls|))
    ensures var calls := Calls(t, states, events, n, clock, i + 1);
            && calls != [] && |Answers(map[], calls)| == |calls|
            && Answers(map[], calls)[|calls| - 1] == (id !in states[i].nodes[n].seen)
  {
    var before, calls := Calls(t, states, events, n, clock, i), Calls(t, states, events, n, clock, i + 1);
    assert calls == before + [Call(id, clock(i))] by { NextCall(t, states, events, n, clock, i, id); }
    LastAnswer(before, Call(id, clock(i)), calls);
    SeenIsCalledFor(t, states, events, n, clock, i, id);
  }
}

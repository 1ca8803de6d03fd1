/** Copies that do not overlap in time reach every clipboard, however long the mesh has been running. */
module MeshConvergence {
  import opened Wrappers
  import opened Daemon
  import opened Mesh
  import opened MeshSafety
  import opened MeshCoverage
  import opened MeshRuns

  // ---------------------------------------------------------------------------
  // One clip under way
  // ---------------------------------------------------------------------------

  /** No other clip than `id` is under way, and none has overtaken it. */
  ghost predicate Alone(t: Topology, s: State, id: ClipId)
    requires Shape(t, s)
  {
    && (forall l :: 0 <= l < |t.links| ==> LinkAlone(s.links[l], id))
    && (forall n :: 0 <= n < t.size && s.nodes[n].watcher.Busy? ==> s.nodes[n].watcher.clip.id == id)
  }

  ghost predicate LinkAlone(k: LinkState, id: ClipId) {
    && (k.slot.Some? ==> k.slot.value.id == id)
    && (forall i :: 0 <= i < |k.wire| ==> k.wire[i].id == id)
    && (k.reader.Busy? ==> k.reader.clip.id == id)
    && id !in k.superseded
  }

  lemma SettledIsAlone(t: Topology, s: State, id: ClipId)
    requires WellFormed(t) && Shape(t, s) && Inv(t, s) && Settled(s) && id !in s.created
    ensures Alone(t, s, id)
  {
    forall l | 0 <= l < |t.links| ensures LinkAlone(s.links[l], id) {
      assert LinkLast(s.links[l]);
      assert id !in s.links[l].posted;
    }
  }

  lemma PostsKeepAlone(t: Topology, s: State, e: Event, id: ClipId)
    requires WellFormed(t) && Shape(t, s) && Enabled(t, s, e) && (e.WatcherPost? || e.ReaderPost?)
    requires LastSurvives(t, s) && ReaderTargetsFresh(t, s) && WatcherTargetsFresh(t, s) && Alone(t, s, id)
    ensures Alone(t, Step(t, s, e), id)
  {
    assert LinkLast(s.links[e.target]);
  }

  lemma WatchKeepsAlone(t: Topology, s: State, n: NodeId, other: ClipId, id: ClipId)
    requires WellFormed(t) && Shape(t, s) && Enabled(t, s, Watch(n, other)) && Alone(t, s, id)
    requires AfterWatch(t, s, n, other).created.Keys <= s.created.Keys + {id}
    ensures Alone(t, AfterWatch(t, s, n, other), id)
  {
    if AfterWatch(t, s, n, other).created != s.created {
      assert other in AfterWatch(t, s, n, other).created.Keys;
    }
  }

  lemma TransportKeepsAlone(t: Topology, s: State, e: Event, id: ClipId)
    requires WellFormed(t) && Shape(t, s) && Enabled(t, s, e) && (e.Send? || e.Deliver?) && Alone(t, s, id)
    ensures Alone(t, Step(t, s, e), id)
  {
    assert LinkAlone(s.links[e.l], id);
  }

  lemma StepKeepsAlone(t: Topology, s: State, e: Event, id: ClipId)
    requires WellFormed(t) && Shape(t, s) && Enabled(t, s, e) && Alone(t, s, id)
    requires LastSurvives(t, s) && ReaderTargetsFresh(t, s) && WatcherTargetsFresh(t, s)
    requires Step(t, s, e).created.Keys <= s.created.Keys + {id}
    ensures Alone(t, Step(t, s, e), id)
  {
    match e
    case Watch(n, other) => WatchKeepsAlone(t, s, n, other, id);
    case WatcherPost(_, _) => PostsKeepAlone(t, s, e, id);
    case ReaderPost(_, _) => PostsKeepAlone(t, s, e, id);
    case Send(_) => TransportKeepsAlone(t, s, e, id);
    case Deliver(_) => TransportKeepsAlone(t, s, e, id);
    case _ =>
  }

  // ---------------------------------------------------------------------------
  // What it leaves on a clipboard
  // ---------------------------------------------------------------------------

  /** A node that has applied the clip holds it, unless the apply failed or the node's user has copied meanwhile. */
  ghost predicate Holds(node: Node, id: ClipId, copied: bool) {
    id in node.applied ==>
      id in node.failed || (node.writer.Applied? && node.writer.clip.id == id) || (node.writer.Copied? && copied)
  }

  predicate CopiesAt(e: Event, n: NodeId) { e.UserCopy? && e.n == n }

  lemma StepKeepsHolds(t: Topology, s: State, e: Event, id: ClipId, n: NodeId, copied: bool)
    requires WellFormed(t) && Shape(t, s) && Enabled(t, s, e) && Alone(t, s, id) && n < t.size
    requires Holds(s.nodes[n], id, copied)
    ensures Holds(Step(t, s, e).nodes[n], id, copied || CopiesAt(e, n))
  {
  }

  lemma StepKeepsCreated(t: Topology, s: State, e: Event)
    requires WellFormed(t) && Shape(t, s) && Enabled(t, s, e)
    ensures s.created.Keys <= Step(t, s, e).created.Keys
  {
  }

  lemma {:induction false} CreatedGrows(t: Topology, states: seq<State>, events: seq<Event>, i: nat, j: nat)
    requires WellFormed(t) && IsPath(t, states, events) && i <= j < |states|
    ensures states[i].created.Keys <= states[j].created.Keys
    decreases j - i
  {
    if i < j {
      CreatedGrows(t, states, events, i, j - 1);
      StepKeepsCreated(t, states[j - 1], events[j - 1]);
    }
  }

  /** Whether the node's user has copied between two points of a run. */
  ghost predicate HasCopied(events: seq<Event>, i: nat, j: nat, n: NodeId)
    requires j <= |events|
  {
    exists k :: i <= k < j && CopiesAt(events[k], n)
  }

  lemma PostsAreFresh(t: Topology, states: seq<State>, events: seq<Event>, i: nat)
    requires WellFormed(t) && IsRun(t, states, events) && i < |states|
    ensures LastSurvives(t, states[i]) && ReaderTargetsFresh(t, states[i]) && WatcherTargetsFresh(t, states[i])
  {
    InvHolds(t, states, events, i);
  }

  lemma StaysAlone(t: Topology, s: State, e: Event, r: State, before: set<ClipId>, id: ClipId)
    requires WellFormed(t) && Shape(t, s) && Enabled(t, s, e) && r == Step(t, s, e) && Alone(t, s, id)
    requires LastSurvives(t, s) && ReaderTargetsFresh(t, s) && WatcherTargetsFresh(t, s)
    requires before <= s.created.Keys && r.created.Keys <= before + {id}
    ensures Alone(t, r, id)
  {
    StepKeepsAlone(t, s, e, id);
  }

  lemma NextStaysAlone(t: Topology, states: seq<State>, events: seq<Event>, k: nat, before: set<ClipId>, id: ClipId)
    requires WellFormed(t) && IsRun(t, states, events) && k < |events| && Alone(t, states[k], id)
    requires before <= states[k].created.Keys && states[k + 1].created.Keys <= before + {id}
    ensures Alone(t, states[k + 1], id)
  {
    PostsAreFresh(t, states, events, k);
    StaysAlone(t, states[k], events[k], states[k + 1], before, id);
  }

  lemma StartsAlone(t: Topology, states: seq<State>, events: seq<Event>, i: nat, id: ClipId, n: NodeId)
    requires WellFormed(t) && IsRun(t, states, events) && i < |states| && n < t.size
    requires Settled(states[i]) && id !in states[i].created
    ensures Alone(t, states[i], id) && id !in states[i].nodes[n].applied
  {
    InvHolds(t, states, events, i);
    SettledIsAlone(t, states[i], id);
    assert AppliedAccepted(t, states[i]) && SeenCreated(t, states[i]);
  }

  /** Between two settled states that differ by one clip, that clip is alone. */
  lemma {:induction false} AloneThroughout(t: Topology, states: seq<State>, events: seq<Event>, i: nat, k: nat,
      id: ClipId)
    requires WellFormed(t) && IsRun(t, states, events) && i <= k < |states|
    requires Alone(t, states[i], id) && states[k].created.Keys <= states[i].created.Keys + {id}
    ensures Alone(t, states[k], id)
    decreases k - i
  {
    if i < k {
      CreatedGrows(t, states, events, i, k - 1);
      CreatedGrows(t, states, events, k - 1, k);
      AloneThroughout(t, states, events, i, k - 1, id);
      NextStaysAlone(t, states, events, k - 1, states[i].created.Keys, id);
    }
  }

  /** And no other clip is applied. */
  lemma {:induction false} HoldsThroughout(t: Topology, states: seq<State>, events: seq<Event>, i: nat, k: nat,
                                           id: ClipId, n: NodeId)
    requires WellFormed(t) && IsRun(t, states, events) && i <= k < |states| && n < t.size
    requires Alone(t, states[i], id) && id !in states[i].nodes[n].applied
    requires states[k].created.Keys <= states[i].created.Keys + {id}
    ensures Holds(states[k].nodes[n], id, HasCopied(events, i, k, n))
    decreases k - i
  {
    if i < k {
      var before := HasCopied(events, i, k - 1, n);
      CreatedGrows(t, states, events, k - 1, k);
      HoldsThroughout(t, states, events, i, k - 1, id, n);
      AloneThroughout(t, states, events, i, k - 1, id);
      StepKeepsHolds(t, states[k - 1], events[k - 1], id, n, before);
      assert before || CopiesAt(events[k - 1], n) ==> HasCopied(events, i, k, n);
    }
  }

  // ---------------------------------------------------------------------------
  // Convergence
  // ---------------------------------------------------------------------------

  lemma AloneIsNeverSuperseded(t: Topology, s: State, id: ClipId)
    requires WellFormed(t) && Shape(t, s) && Alone(t, s, id)
    ensures NeverSuperseded(s, id)
  {
    forall l | 0 <= l < |s.links| ensures id !in s.links[l].superseded {
      assert LinkAlone(s.links[l], id);
    }
  }

  /**
   * A copy that meets no other converges. From any settled state of any run to any later settled state with one more
   * clip: every other node connected to its origin holds it in the end, unless the apply there failed or the node's own
   * user has written its clipboard meanwhile and last.
   */
  lemma SoleCopyConverges(t: Topology, states: seq<State>, events: seq<Event>, i: nat, j: nat,
                          id: ClipId, path: seq<nat>, n: NodeId)
    requires WellFormed(t) && Paired(t) && IsRun(t, states, events) && i <= j < |states|
    requires Settled(states[i]) && Settled(states[j])
    requires id !in states[i].created && states[j].created.Keys == states[i].created.Keys + {id}
    requires Connects(t, states[j].created[id].origin, path, n) && n != states[j].created[id].origin && n < t.size
    requires id !in states[j].nodes[n].failed && !(states[j].nodes[n].writer.Copied? && HasCopied(events, i, j, n))
    ensures states[j].nodes[n].guarded.clipboard == Some(t.publish(n, states[j].created[id]))
  {
    StartsAlone(t, states, events, i, id, n);
    AloneThroughout(t, states, events, i, j, id);
    HoldsThroughout(t, states, events, i, j, id, n);
    AloneIsNeverSuperseded(t, states[j], id);
    ClipReachesEveryNode(t, states, events, j, id, path, n);
    InvHolds(t, states, events, j);
  }

  /** In particular for the first copy of a run. */
  lemma SingleCopyIsEverywhere(t: Topology, states: seq<State>, events: seq<Event>, i: nat,
                               id: ClipId, path: seq<nat>, n: NodeId)
    requires WellFormed(t) && Paired(t) && IsRun(t, states, events) && i < |states| && Settled(states[i])
    requires states[i].created.Keys == {id}
    requires Connects(t, states[i].created[id].origin, path, n) && n != states[i].created[id].origin
    requires n < t.size && id !in states[i].nodes[n].failed && !states[i].nodes[n].writer.Copied?
    ensures states[i].nodes[n].guarded.clipboard == Some(t.publish(n, states[i].created[id]))
  {
    SoleCopyConverges(t, states, events, 0, i, id, path, n);
  }
}

/** The theorems about runs of the mesh. */
module MeshRuns {
  import opened Wrappers
  import opened Daemon
  import opened Mesh
  import opened MeshSafety
  import opened MeshCoverage

  /** Everything every step keeps. */
  ghost predicate Inv(t: Topology, s: State)
    requires WellFormed(t) && Shape(t, s)
  {
    && Accounted(t, s) && NoEcho(t, s)
    && LinksKnown(t, s) && WatchersKnown(t, s)
    && ReadersAccepted(t, s) && WatchersAccepted(t, s)
    && SeenCreated(t, s) && OriginsSeen(t, s) && PostedSeen(t, s)
    && AppliedAccepted(t, s) && ReadersUnapplied(t, s)
    && ReaderTargetsFresh(t, s) && WatcherTargetsFresh(t, s)
    && PostsAccountedFor(t, s) && LastSurvives(t, s)
    && SourcesPosted(t, s) && Flooded(t, s)
    && LocalIsOwn(t, s) && ClipboardsWritten(t, s) && AcceptedApplied(t, s)
  }

  lemma InitEstablishesInv(t: Topology, s: State)
    requires WellFormed(t) && Init(t, s)
    ensures Inv(t, s)
  {
  }

  lemma StepKeepsInv(t: Topology, s: State, e: Event)
    requires WellFormed(t) && Shape(t, s) && Enabled(t, s, e) && Inv(t, s)
    ensures Inv(t, Step(t, s, e))
  {
    StepAccounts(t, s, e);
    StepKeepsNoEcho(t, s, e);
    StepKeepsLinksKnown(t, s, e);
    StepKeepsWatchersKnown(t, s, e);
    StepKeepsReadersAccepted(t, s, e);
    StepKeepsWatchersAccepted(t, s, e);
    StepKeepsSeenCreated(t, s, e);
    StepKeepsOriginsSeen(t, s, e);
    StepKeepsPostedSeen(t, s, e);
    StepKeepsAppliedAccepted(t, s, e);
    StepKeepsReadersUnapplied(t, s, e);
    StepKeepsReaderTargetsFresh(t, s, e);
    StepKeepsWatcherTargetsFresh(t, s, e);
    StepKeepsPostsAccountedFor(t, s, e);
    StepKeepsLastSurvives(t, s, e);
    StepKeepsSourcesPosted(t, s, e);
    StepKeepsFlooded(t, s, e);
    StepKeepsLocalIsOwn(t, s, e);
    StepKeepsClipboardsWritten(t, s, e);
    StepKeepsAcceptedApplied(t, s, e);
  }

  lemma {:induction false} InvHolds(t: Topology, states: seq<State>, events: seq<Event>, i: nat)
    requires WellFormed(t) && IsRun(t, states, events) && i < |states|
    ensures Inv(t, states[i])
  {
    if i == 0 {
      InitEstablishesInv(t, states[0]);
    } else {
      InvHolds(t, states, events, i - 1);
      StepKeepsInv(t, states[i - 1], events[i - 1]);
    }
  }

  // ---------------------------------------------------------------------------
  // No feedback
  // ---------------------------------------------------------------------------

  function UserCopies(events: seq<Event>): nat {
    if events == [] then 0
    else UserCopies(events[..|events| - 1]) + if events[|events| - 1].UserCopy? then 1 else 0
  }

  /** Nodes that start with content their first capture did not return. */
  function Unread(nodes: seq<Node>): nat {
    if nodes == [] then 0
    else Unread(nodes[..|nodes| - 1]) + Pending(nodes[|nodes| - 1].guarded)
  }

  function TotalCopies(nodes: seq<Node>): nat {
    if nodes == [] then 0 else TotalCopies(nodes[..|nodes| - 1]) + nodes[|nodes| - 1].copies
  }

  function TotalAnnounced(nodes: seq<Node>): nat {
    if nodes == [] then 0 else TotalAnnounced(nodes[..|nodes| - 1]) + nodes[|nodes| - 1].announced
  }

  lemma {:induction false} TotalsUpdate(nodes: seq<Node>, n: nat, node: Node)
    requires n < |nodes|
    ensures TotalCopies(nodes[n := node]) == TotalCopies(nodes) - nodes[n].copies + node.copies
    ensures TotalAnnounced(nodes[n := node]) == TotalAnnounced(nodes) - nodes[n].announced + node.announced
  {
    var last := |nodes| - 1;
    if n == last {
      assert nodes[n := node][..last] == nodes[..last];
    } else {
      TotalsUpdate(nodes[..last], n, node);
      assert nodes[n := node][..last] == nodes[..last][n := node];
    }
  }

  lemma {:induction false} TotalsOrdered(nodes: seq<Node>)
    requires forall n :: 0 <= n < |nodes| ==> nodes[n].announced <= nodes[n].copies
    ensures TotalAnnounced(nodes) <= TotalCopies(nodes)
  {
    if nodes != [] { TotalsOrdered(nodes[..|nodes| - 1]); }
  }

  lemma {:induction false} TotalsInitially(nodes: seq<Node>)
    requires forall n :: 0 <= n < |nodes| ==> InitialNode(nodes[n])
    ensures TotalCopies(nodes) == Unread(nodes) && TotalAnnounced(nodes) == 0
  {
    if nodes != [] { TotalsInitially(nodes[..|nodes| - 1]); }
  }

  lemma WatchTotals(t: Topology, s: State, n: NodeId, id: ClipId)
    requires WellFormed(t) && Shape(t, s) && Enabled(t, s, Watch(n, id))
    ensures var r := AfterWatch(t, s, n, id);
            && TotalCopies(r.nodes) == TotalCopies(s.nodes)
            && |r.created| - |s.created| == TotalAnnounced(r.nodes) - TotalAnnounced(s.nodes)
  {
    var r := AfterWatch(t, s, n, id);
    TotalsUpdate(s.nodes, n, r.nodes[n]);
    if r.created != s.created {
      assert r.created.Keys == s.created.Keys + {id};
    }
  }

  lemma StepTotals(t: Topology, s: State, e: Event)
    requires WellFormed(t) && Shape(t, s) && Enabled(t, s, e)
    ensures var r := Step(t, s, e);
            && TotalCopies(r.nodes) == TotalCopies(s.nodes) + (if e.UserCopy? then 1 else 0)
            && |r.created| - |s.created| == TotalAnnounced(r.nodes) - TotalAnnounced(s.nodes)
  {
    var r := Step(t, s, e);
    match e
    case UserCopy(n, _) => TotalsUpdate(s.nodes, n, r.nodes[n]);
    case Watch(n, id) => WatchTotals(t, s, n, id);
    case WatcherPost(n, _) => TotalsUpdate(s.nodes, n, r.nodes[n]);
    case Deliver(l) =>
      TotalsUpdate(s.nodes, t.links[l].to, r.nodes[t.links[l].to]);
      assert s.nodes[t.links[l].to := s.nodes[t.links[l].to]] == s.nodes;
    case Apply(l, _) => TotalsUpdate(s.nodes, t.links[l].to, r.nodes[t.links[l].to]);
    case _ =>
  }

  lemma {:induction false} RunTotals(t: Topology, states: seq<State>, events: seq<Event>, i: nat)
    requires WellFormed(t) && IsRun(t, states, events) && i < |states|
    ensures TotalCopies(states[i].nodes) == Unread(states[0].nodes) + UserCopies(events[..i])
    ensures |states[i].created| == TotalAnnounced(states[i].nodes)
  {
    if i == 0 {
      TotalsInitially(states[0].nodes);
    } else {
      RunTotals(t, states, events, i - 1);
      StepTotals(t, states[i - 1], events[i - 1]);
      assert events[..i][..i - 1] == events[..i - 1];
    }
  }

  /** Clips never outnumber user copies, and every clip holds what its origin's user has copied. */
  lemma NoFeedback(t: Topology, states: seq<State>, events: seq<Event>, i: nat)
    requires WellFormed(t) && IsRun(t, states, events) && i < |states|
    ensures |states[i].created| <= Unread(states[0].nodes) + UserCopies(events[..i])
    ensures forall n :: 0 <= n < t.size ==> states[i].nodes[n].announced <= states[i].nodes[n].copies
    ensures forall id :: id in states[i].created ==>
              var c := states[i].created[id];
              c.origin < t.size && c.content in states[i].nodes[c.origin].copied
  {
    InvHolds(t, states, events, i);
    RunTotals(t, states, events, i);
    TotalsOrdered(states[i].nodes);
  }

  lemma AnnouncedIsCopied(t: Topology, s: State, e: Event)
    requires WellFormed(t) && Shape(t, s) && Enabled(t, s, e) && NoEcho(t, s) && Accounted(t, s)
    requires Step(t, s, e).created != s.created
    ensures e.Watch? && !s.nodes[e.n].writer.Applied? && e.id !in s.created
    ensures exists c: Content ::
              c in s.nodes[e.n].copied && Step(t, s, e).created == s.created[e.id := Clip(e.id, e.n, c)]
  {
    assert e.Watch?;
    var c := s.nodes[e.n].guarded.clipboard.value.content;
    assert Step(t, s, e).created == s.created[e.id := Clip(e.id, e.n, c)];
  }

  /** No echo of an applied clip is ever announced: whatever a watcher announces, its own user has put there. */
  lemma OnlyCopiesAreAnnounced(t: Topology, states: seq<State>, events: seq<Event>, i: nat)
    requires WellFormed(t) && IsRun(t, states, events) && i < |events|
    requires states[i + 1].created != states[i].created
    ensures var e := events[i];
            && e.Watch? && !states[i].nodes[e.n].writer.Applied? && e.id !in states[i].created
            && exists c: Content ::
                 && c in states[i].nodes[e.n].copied
                 && states[i + 1].created == states[i].created[e.id := Clip(e.id, e.n, c)]
  {
    WatchedState(t, states, events, i);
    AnnouncedIsCopied(t, states[i], events[i]);
  }

  lemma WatchedState(t: Topology, states: seq<State>, events: seq<Event>, i: nat)
    requires WellFormed(t) && IsRun(t, states, events) && i < |states|
    ensures NoEcho(t, states[i]) && Accounted(t, states[i])
  {
    InvHolds(t, states, events, i);
  }

  // ---------------------------------------------------------------------------
  // At most once
  // ---------------------------------------------------------------------------

  /** The link and clip a posting event is about, or the node and clip an applying one is. */
  ghost predicate Posts(t: Topology, s: State, e: Event, m: nat, id: ClipId)
    requires WellFormed(t) && Shape(t, s) && Enabled(t, s, e)
  {
    match e
    case WatcherPost(n, target) => target == m && s.nodes[n].watcher.clip.id == id
    case ReaderPost(l, target) => target == m && s.links[l].reader.clip.id == id
    case _ => false
  }

  ghost predicate Applies(t: Topology, s: State, e: Event, n: NodeId, id: ClipId)
    requires WellFormed(t) && Shape(t, s) && Enabled(t, s, e)
  {
    e.Apply? && t.links[e.l].to == n && s.links[e.l].reader.clip.id == id
  }

  lemma {:induction false} PostedForGood(t: Topology, states: seq<State>, events: seq<Event>, i: nat, j: nat, m: nat,
      id: ClipId)
    requires WellFormed(t) && IsPath(t, states, events) && i <= j < |states|
    requires m < |t.links| && id in states[i].links[m].posted
    ensures id in states[j].links[m].posted
    decreases j - i
  {
    if i < j {
      PostedForGood(t, states, events, i, j - 1, m, id);
      assert states[j] == Step(t, states[j - 1], events[j - 1]);
    }
  }

  lemma {:induction false} AppliedForGood(t: Topology, states: seq<State>, events: seq<Event>, i: nat, j: nat,
      n: NodeId, id: ClipId)
    requires WellFormed(t) && IsPath(t, states, events) && i <= j < |states|
    requires n < t.size && id in states[i].nodes[n].applied
    ensures id in states[j].nodes[n].applied
    decreases j - i
  {
    if i < j {
      AppliedForGood(t, states, events, i, j - 1, n, id);
      assert states[j] == Step(t, states[j - 1], events[j - 1]);
    }
  }

  /** No clip is posted twice on a link: not around a cycle, not over two connections to the same peer. */
  lemma PostedAtMostOnce(t: Topology, states: seq<State>, events: seq<Event>, i: nat, j: nat, m: nat, id: ClipId)
    requires WellFormed(t) && IsRun(t, states, events) && i < |events| && j < |events|
    requires Posts(t, states[i], events[i], m, id) && Posts(t, states[j], events[j], m, id)
    ensures i == j
  {
    if i < j {
      PostedForGood(t, states, events, i + 1, j, m, id);
      InvHolds(t, states, events, j);
    } else if j < i {
      PostedAtMostOnce(t, states, events, j, i, m, id);
    }
  }

  lemma ApplyIsFirst(t: Topology, s: State, e: Event, n: NodeId, id: ClipId)
    requires WellFormed(t) && Shape(t, s) && Enabled(t, s, e) && Applies(t, s, e, n, id)
    requires LinksKnown(t, s) && ReadersAccepted(t, s) && ReadersUnapplied(t, s) && OriginsSeen(t, s)
    ensures id !in s.nodes[n].applied && id in Step(t, s, e).nodes[n].applied
    ensures id in s.created && s.created[id].origin != n
  {
    assert Known(s.created, s.links[e.l].reader.clip);
  }

  lemma ApplyInRun(t: Topology, states: seq<State>, events: seq<Event>, i: nat, n: NodeId, id: ClipId)
    requires WellFormed(t) && IsRun(t, states, events) && i < |events| && Applies(t, states[i], events[i], n, id)
    ensures n < t.size && id !in states[i].nodes[n].applied && id in states[i + 1].nodes[n].applied
    ensures id in states[i].created && states[i].created[id].origin != n
  {
    InvHolds(t, states, events, i);
    ApplyIsFirst(t, states[i], events[i], n, id);
  }

  /** No node applies a clip twice, and none applies its own. */
  lemma AppliedAtMostOnce(t: Topology, states: seq<State>, events: seq<Event>, i: nat, j: nat, n: NodeId, id: ClipId)
    requires WellFormed(t) && IsRun(t, states, events) && i < |events| && j < |events|
    requires Applies(t, states[i], events[i], n, id) && Applies(t, states[j], events[j], n, id)
    ensures i == j
    ensures id in states[i].created && states[i].created[id].origin != n
  {
    ApplyInRun(t, states, events, i, n, id);
    ApplyInRun(t, states, events, j, n, id);
    if i < j {
      AppliedForGood(t, states, events, i + 1, j, n, id);
    } else if j < i {
      AppliedForGood(t, states, events, j + 1, i, n, id);
    }
  }

  // ---------------------------------------------------------------------------
  // Coverage
  // ---------------------------------------------------------------------------

  /** Nothing waits in a slot or on a wire, and no task has work left. */
  ghost predicate Settled(s: State) {
    && (forall l :: 0 <= l < |s.links| ==>
          s.links[l].slot == None && s.links[l].wire == [] && s.links[l].reader == Idle)
    && (forall n :: 0 <= n < |s.nodes| ==> s.nodes[n].watcher == Idle)
  }

  /**
   * The newest value is never lost: in every state the last clip posted on a link is in the slot, on the wire or seen.
   */
  lemma LastIsNeverLost(t: Topology, states: seq<State>, events: seq<Event>, i: nat, l: nat)
    requires WellFormed(t) && IsRun(t, states, events) && i < |states| && l < |t.links|
    requires states[i].links[l].last.Some?
    ensures var id := states[i].links[l].last.value.id;
            OnTheWay(states[i].links[l], id) || id in states[i].nodes[t.links[l].to].seen
  {
    InvHolds(t, states, events, i);
  }

  /** So once settled, the last clip posted on a link has been seen at its other end. */
  lemma LastValueArrives(t: Topology, states: seq<State>, events: seq<Event>, i: nat, l: nat)
    requires WellFormed(t) && IsRun(t, states, events) && i < |states| && l < |t.links|
    requires Settled(states[i]) && states[i].links[l].last.Some?
    ensures states[i].links[l].last.value.id in states[i].nodes[t.links[l].to].seen
  {
    LastIsNeverLost(t, states, events, i, l);
  }

  /** `path` leads from node `a` to node `b`. */
  predicate Connects(t: Topology, a: NodeId, path: seq<nat>, b: NodeId)
    decreases path
  {
    if path == [] then a == b
    else path[0] < |t.links| && t.links[path[0]].from == a && Connects(t, t.links[path[0]].to, path[1..], b)
  }

  ghost predicate NeverSuperseded(s: State, id: ClipId) {
    forall l :: 0 <= l < |s.links| ==> id !in s.links[l].superseded
  }

  lemma SeenCrossesLink(t: Topology, s: State, m: nat, id: ClipId)
    requires WellFormed(t) && Paired(t) && Shape(t, s) && Settled(s) && NeverSuperseded(s, id)
    requires PostsAccountedFor(t, s) && PostedSeen(t, s) && SourcesPosted(t, s) && Flooded(t, s)
    requires m < |t.links| && id in s.nodes[t.links[m].from].seen
    ensures id in s.nodes[t.links[m].to].seen
  {
    if id in s.links[m].posted {
      assert !OnTheWay(s.links[m], id);
    } else {
      var source := s.nodes[t.links[m].from].seen[id];
      assert !StillToPost(s, t.links[m].from, id, m);
      assert CameFrom(t, source, m);
      assert id in s.links[source.link].posted;
      assert t.links[m] == Link(t.links[source.link].to, t.links[source.link].from, source.link);
    }
  }

  lemma {:induction false} SeenAlongPath(t: Topology, s: State, a: NodeId, path: seq<nat>, b: NodeId, id: ClipId)
    requires WellFormed(t) && Paired(t) && Shape(t, s) && Inv(t, s) && Settled(s) && NeverSuperseded(s, id)
    requires a < t.size && Connects(t, a, path, b) && id in s.nodes[a].seen
    ensures b < t.size && id in s.nodes[b].seen
    decreases path
  {
    if path != [] {
      SeenCrossesLink(t, s, path[0], id);
      SeenAlongPath(t, s, t.links[path[0]].to, path[1..], b, id);
    }
  }

  /** A clip no newer one overtook reaches every node connected to its origin. */
  lemma ClipReachesEveryNode(t: Topology, states: seq<State>, events: seq<Event>, i: nat,
                             id: ClipId, path: seq<nat>, n: NodeId)
    requires WellFormed(t) && Paired(t) && IsRun(t, states, events) && i < |states| && Settled(states[i])
    requires id in states[i].created && NeverSuperseded(states[i], id)
    requires Connects(t, states[i].created[id].origin, path, n)
    ensures n < t.size && id in states[i].nodes[n].seen
    ensures n != states[i].created[id].origin ==> id in states[i].nodes[n].applied
  {
    InvHolds(t, states, events, i);
    var s := states[i];
    SeenAlongPath(t, s, s.created[id].origin, path, n, id);
    if n != s.created[id].origin {
      assert s.nodes[n].seen[id].From?;
      assert !WorkingOn(s.links, s.nodes[n].seen[id].link, id);
    }
  }
}

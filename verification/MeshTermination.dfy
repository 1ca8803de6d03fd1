/** Without new user copies, every run of the mesh comes to rest, and it is never stuck before that. */
module MeshTermination {
  import opened Wrappers
  import opened Daemon
  import opened Mesh
  import opened MeshSafety
  import opened MeshRuns
  import opened Sums

  // ---------------------------------------------------------------------------
  // The measure
  // ---------------------------------------------------------------------------

  function JobWeight(job: Job): nat {
    if job.Idle? then 0 else 3 * |job.targets| + 2
  }

  function LinkWeight(k: LinkState): nat {
    (if k.slot.Some? then 2 else 0) + |k.wire| + JobWeight(k.reader)
  }

  /** What one clip can still cost a node that has not seen it. */
  function ClipCost(t: Topology): nat { 3 * |t.links| + 2 }

  /** What one announcement can still cost the whole mesh. */
  function AnnouncementCost(t: Topology): nat { Times(t.size, ClipCost(t)) + ClipCost(t) }

  function NodeWeight(t: Topology, created: set<ClipId>, node: Node): nat {
    (if WouldAnnounce(node.guarded) then AnnouncementCost(t) else 0)
    + Times(|created - node.seen.Keys|, ClipCost(t))
    + (if Dirty(node.guarded) then 1 else 0) + JobWeight(node.watcher)
  }

  function NodeWeights(t: Topology, s: State): (w: seq<nat>)
    ensures |w| == |s.nodes|
    ensures forall n :: 0 <= n < |s.nodes| ==> w[n] == NodeWeight(t, s.created.Keys, s.nodes[n])
  {
    seq(|s.nodes|, n requires 0 <= n < |s.nodes| => NodeWeight(t, s.created.Keys, s.nodes[n]))
  }

  function LinkWeights(s: State): (w: seq<nat>)
    ensures |w| == |s.links|
    ensures forall l :: 0 <= l < |s.links| ==> w[l] == LinkWeight(s.links[l])
  {
    seq(|s.links|, l requires 0 <= l < |s.links| => LinkWeight(s.links[l]))
  }

  function Weight(t: Topology, s: State): nat {
    Sum(NodeWeights(t, s)) + Sum(LinkWeights(s))
  }

  /** A step that leaves the created clips and every node but `n` as they are. */
  lemma NodeChanged(t: Topology, s: State, r: State, n: nat)
    requires n < |s.nodes| == |r.nodes| && r.created == s.created && r.nodes == s.nodes[n := r.nodes[n]]
    ensures Sum(NodeWeights(t, r)) - NodeWeight(t, r.created.Keys, r.nodes[n])
            == Sum(NodeWeights(t, s)) - NodeWeight(t, s.created.Keys, s.nodes[n])
  {
    SumUpdate(NodeWeights(t, s), NodeWeights(t, r), n);
  }

  lemma NodesUnchanged(t: Topology, s: State, r: State)
    requires r.created == s.created && r.nodes == s.nodes
    ensures Sum(NodeWeights(t, r)) == Sum(NodeWeights(t, s))
  {
    assert NodeWeights(t, r) == NodeWeights(t, s);
  }

  lemma LinkChanged(s: State, r: State, l: nat)
    requires l < |s.links| == |r.links| && r.links == s.links[l := r.links[l]]
    ensures Sum(LinkWeights(r)) - LinkWeight(r.links[l]) == Sum(LinkWeights(s)) - LinkWeight(s.links[l])
  {
    SumUpdate(LinkWeights(s), LinkWeights(r), l);
  }

  lemma LinksUnchanged(s: State, r: State)
    requires r.links == s.links
    ensures Sum(LinkWeights(r)) == Sum(LinkWeights(s))
  {
    assert LinkWeights(r) == LinkWeights(s);
  }

  lemma TargetsBounded(t: Topology, n: NodeId, except: Option<nat>)
    ensures |Targets(t, n, except)| <= |t.links|
  {
    IndicesBounded(Targets(t, n, except), |t.links|);
  }

  // ---------------------------------------------------------------------------
  // Every step that changes anything makes the mesh lighter
  // ---------------------------------------------------------------------------

  lemma UnseenGrows(created: set<ClipId>, id: ClipId, seen: set<ClipId>)
    requires id !in created && id !in seen
    ensures |created + {id} - seen| == |created - seen| + 1
  {
    assert created + {id} - seen == (created - seen) + {id};
  }

  lemma UnseenShrinks(created: set<ClipId>, id: ClipId, seen: map<ClipId, Source>, source: Source)
    requires id in created && id !in seen
    ensures |created - seen.Keys| == |created - seen[id := source].Keys| + 1
  {
    assert created - seen.Keys == (created - seen[id := source].Keys) + {id};
  }

  lemma OthersGain(t: Topology, created: set<ClipId>, id: ClipId, node: Node)
    requires id !in created && id !in node.seen
    ensures NodeWeight(t, created + {id}, node) == NodeWeight(t, created, node) + ClipCost(t)
  {
    UnseenGrows(created, id, node.seen.Keys);
  }

  lemma AnnouncerLoses(t: Topology, created: set<ClipId>, n: NodeId, node: Node, guarded: Guarded, clip: Clip)
    requires clip.id !in created && clip.id !in node.seen && node.watcher.Idle?
    requires WouldAnnounce(node.guarded) && !Dirty(guarded)
    ensures NodeWeight(t, created + {clip.id}, Announced(t, n, node, guarded, clip)) + Times(t.size, ClipCost(t))
            < NodeWeight(t, created, node)
  {
    var after := Announced(t, n, node, guarded, clip);
    assert created + {clip.id} - after.seen.Keys == created - node.seen.Keys;
    TargetsBounded(t, n, None);
  }

  lemma NodesLighter(t: Topology, s: State, r: State, n: NodeId, gain: nat)
    requires |s.nodes| == |r.nodes| == t.size && n < t.size
    requires forall j :: 0 <= j < t.size && j != n ==>
               NodeWeight(t, r.created.Keys, r.nodes[j]) <= NodeWeight(t, s.created.Keys, s.nodes[j]) + gain
    requires NodeWeight(t, r.created.Keys, r.nodes[n]) + Times(t.size, gain) < NodeWeight(t, s.created.Keys, s.nodes[n])
    ensures Sum(NodeWeights(t, r)) < Sum(NodeWeights(t, s))
  {
    SumDrops(NodeWeights(t, s), NodeWeights(t, r), n, gain);
  }

  lemma AnnouncementIsLighter(t: Topology, s: State, r: State, n: NodeId, guarded: Guarded, clip: Clip)
    requires |s.nodes| == t.size && n < t.size && s.nodes[n].watcher.Idle?
    requires forall j :: 0 <= j < |s.nodes| ==> clip.id !in s.nodes[j].seen
    requires clip.id !in s.created && WouldAnnounce(s.nodes[n].guarded) && !Dirty(guarded)
    requires r.created == s.created[clip.id := clip] && r.links == s.links
    requires r.nodes == s.nodes[n := Announced(t, n, s.nodes[n], guarded, clip)]
    ensures Weight(t, r) < Weight(t, s)
  {
    var created := s.created.Keys;
    assert r.created.Keys == created + {clip.id};
    forall j | 0 <= j < t.size && j != n
      ensures NodeWeight(t, r.created.Keys, r.nodes[j]) <= NodeWeight(t, created, s.nodes[j]) + ClipCost(t)
    {
      OthersGain(t, created, clip.id, s.nodes[j]);
    }
    AnnouncerLoses(t, created, n, s.nodes[n], guarded, clip);
    NodesLighter(t, s, r, n, ClipCost(t));
    LinksUnchanged(s, r);
  }

  lemma WatchIsLighter(t: Topology, s: State, n: NodeId, id: ClipId)
    requires WellFormed(t) && Shape(t, s) && SeenCreated(t, s)
    requires n < t.size && s.nodes[n].watcher.Idle? && id !in s.created
    ensures var r := AfterWatch(t, s, n, id);
            if Dirty(s.nodes[n].guarded) then Weight(t, r) < Weight(t, s) else r == s
  {
    if WouldAnnounce(s.nodes[n].guarded) {
      var r := AfterWatch(t, s, n, id);
      AnnouncementIsLighter(t, s, r, n, r.nodes[n].guarded, r.created[id]);
    } else {
      NodeChanged(t, s, AfterWatch(t, s, n, id), n);
      LinksUnchanged(s, AfterWatch(t, s, n, id));
    }
  }

  lemma WatcherPostIsLighter(t: Topology, s: State, n: NodeId, target: nat)
    requires WellFormed(t) && Shape(t, s)
    requires n < t.size && s.nodes[n].watcher.Busy? && target in s.nodes[n].watcher.targets
    ensures Weight(t, AfterWatcherPost(t, s, n, target)) < Weight(t, s)
  {
    var r := AfterWatcherPost(t, s, n, target);
    NodeChanged(t, s, r, n);
    LinkChanged(s, r, target);
  }

  lemma ReaderPostIsLighter(t: Topology, s: State, l: nat, target: nat)
    requires WellFormed(t) && Shape(t, s)
    requires l < |t.links| && s.links[l].reader.Busy? && target in s.links[l].reader.targets
    ensures Weight(t, AfterReaderPost(t, s, l, target)) < Weight(t, s)
  {
    var k := s.links[l];
    var working := s.(links := s.links[l := k.(reader := k.reader.(targets := k.reader.targets - {target}))]);
    var r := AfterReaderPost(t, s, l, target);
    LinkChanged(s, working, l);
    LinkChanged(working, r, target);
    NodesUnchanged(t, s, r);
  }

  lemma SendIsLighter(t: Topology, s: State, l: nat)
    requires WellFormed(t) && Shape(t, s)
    requires l < |t.links| && s.links[l].slot.Some?
    ensures Weight(t, AfterSend(t, s, l)) < Weight(t, s)
  {
    LinkChanged(s, AfterSend(t, s, l), l);
    NodesUnchanged(t, s, AfterSend(t, s, l));
  }

  lemma DeliverIsLighter(t: Topology, s: State, l: nat)
    requires WellFormed(t) && Shape(t, s) && LinksKnown(t, s)
    requires l < |t.links| && s.links[l].wire != [] && s.links[l].reader.Idle?
    ensures Weight(t, AfterDeliver(t, s, l)) < Weight(t, s)
  {
    var r := AfterDeliver(t, s, l);
    var n, clip := t.links[l].to, s.links[l].wire[0];
    LinkChanged(s, r, l);
    if clip.id in s.nodes[n].seen {
      NodesUnchanged(t, s, r);
    } else {
      assert Known(s.created, clip);
      NodeChanged(t, s, r, n);
      UnseenShrinks(s.created.Keys, clip.id, s.nodes[n].seen, From(l));
      TargetsBounded(t, n, Some(t.links[l].back));
    }
  }

  lemma ApplyIsLighter(t: Topology, s: State, l: nat, ok: bool)
    requires WellFormed(t) && Shape(t, s)
    requires l < |t.links| && s.links[l].reader.Busy? && s.links[l].reader.targets == {}
    ensures Weight(t, AfterApply(t, s, l, ok)) < Weight(t, s)
  {
    var r := AfterApply(t, s, l, ok);
    LinkChanged(s, r, l);
    NodeChanged(t, s, r, t.links[l].to);
  }

  lemma StepIsLighter(t: Topology, s: State, e: Event)
    requires WellFormed(t) && Shape(t, s) && Inv(t, s) && Enabled(t, s, e) && !e.UserCopy?
    ensures var r := Step(t, s, e);
            Weight(t, r) < Weight(t, s) || (r == s && e.Watch? && !Dirty(s.nodes[e.n].guarded))
  {
    match e
    case Watch(n, id) => WatchIsLighter(t, s, n, id);
    case WatcherPost(n, target) => WatcherPostIsLighter(t, s, n, target);
    case ReaderPost(l, target) => ReaderPostIsLighter(t, s, l, target);
    case Send(l) => SendIsLighter(t, s, l);
    case Deliver(l) => DeliverIsLighter(t, s, l);
    case Apply(l, ok) => ApplyIsLighter(t, s, l, ok);
  }

  /** The steps between states `i` and `j` that changed something. */
  function Changes(states: seq<State>, i: nat, j: nat): nat
    requires i <= j < |states|
    decreases j - i
  {
    if i == j then 0 else Changes(states, i, j - 1) + if states[j] != states[j - 1] then 1 else 0
  }

  /** Nobody copies anything between states `i` and `j`. */
  ghost predicate NoCopies(events: seq<Event>, i: nat, j: nat)
    requires j <= |events|
  {
    forall k :: i <= k < j ==> !events[k].UserCopy?
  }

  lemma ChangeIsLighter(t: Topology, states: seq<State>, events: seq<Event>, i: nat, j: nat, k: nat, l: nat)
    requires WellFormed(t) && IsRun(t, states, events) && i <= k < l <= j < |states| && l == k + 1 &&
             NoCopies(events, i, j)
    ensures Weight(t, states[l]) < Weight(t, states[k]) || states[l] == states[k]
  {
    InvHolds(t, states, events, k);
    StepIsLighter(t, states[k], events[k]);
  }

  /** The weights of a run's states fall with every change. */
  ghost predicate Falling(states: seq<State>, weights: seq<nat>, i: nat, j: nat)
    requires i <= j < |states| == |weights|
  {
    forall k, l :: i <= k < l <= j && l == k + 1 ==>
      weights[l] < weights[k] || (weights[l] == weights[k] && states[l] == states[k])
  }

  lemma {:induction false} ChangesBounded(states: seq<State>, weights: seq<nat>, i: nat, j: nat)
    requires i <= j < |states| == |weights| && Falling(states, weights, i, j)
    ensures Changes(states, i, j) + weights[j] <= weights[i]
    decreases j - i
  {
    if i < j { ChangesBounded(states, weights, i, j - 1); }
  }

  lemma RunFalls(t: Topology, states: seq<State>, events: seq<Event>, i: nat, j: nat)
    requires WellFormed(t) && IsRun(t, states, events) && i <= j < |states| && NoCopies(events, i, j)
    ensures forall k, l :: i <= k < l <= j && l == k + 1 ==>
              Weight(t, states[l]) < Weight(t, states[k]) || states[l] == states[k]
  {
    forall k, l | i <= k < l <= j && l == k + 1
      ensures Weight(t, states[l]) < Weight(t, states[k]) || states[l] == states[k]
    {
      ChangeIsLighter(t, states, events, i, j, k, l);
    }
  }

  lemma Weigh(t: Topology, states: seq<State>, i: nat, j: nat)
    requires WellFormed(t) && i <= j < |states| && forall k :: 0 <= k < |states| ==> Shape(t, states[k])
    requires forall k, l :: i <= k < l <= j && l == k + 1 ==>
               Weight(t, states[l]) < Weight(t, states[k]) || states[l] == states[k]
    ensures Changes(states, i, j) + Weight(t, states[j]) <= Weight(t, states[i])
  {
    var weights := seq(|states|, k requires 0 <= k < |states| => Weight(t, states[k]));
    ChangesBounded(states, weights, i, j);
  }

  /** Flooding terminates: from any state of a run, only so many steps can change anything before the next user copy. */
  lemma FloodingTerminates(t: Topology, states: seq<State>, events: seq<Event>, i: nat, j: nat)
    requires WellFormed(t) && IsRun(t, states, events) && i <= j < |states| && NoCopies(events, i, j)
    ensures Changes(states, i, j) + Weight(t, states[j]) <= Weight(t, states[i])
  {
    RunFalls(t, states, events, i, j);
    Weigh(t, states, i, j);
  }

  // ---------------------------------------------------------------------------
  // It is never stuck before it has settled
  // ---------------------------------------------------------------------------

  /** Settled, and every watcher has looked at its clipboard. */
  ghost predicate Quiescent(s: State) {
    Settled(s) && forall n :: 0 <= n < |s.nodes| ==> !Dirty(s.nodes[n].guarded)
  }

  lemma {:induction false} FreshId(used: set<ClipId>) returns (id: ClipId)
    ensures forall u :: u in used ==> u < id
  {
    if used == {} {
      id := 0;
    } else {
      var u :| u in used;
      id := FreshId(used - {u});
      assert forall v :: v in used ==> v == u || v in used - {u};
      id := if u < id then id else u + 1;
    }
  }

  /** Some task can take a step, unless every task is idle and nothing waits. */
  lemma SomethingCanMove(t: Topology, s: State) returns (e: Event)
    requires WellFormed(t) && Shape(t, s) && !Quiescent(s)
    ensures Enabled(t, s, e) && !e.UserCopy? && (e.Watch? ==> Dirty(s.nodes[e.n].guarded))
  {
    if n :| 0 <= n < t.size && s.nodes[n].watcher.Busy? {
      var target :| target in s.nodes[n].watcher.targets;
      e := WatcherPost(n, target);
    } else if l :| 0 <= l < |t.links| && s.links[l].reader.Busy? {
      if target :| target in s.links[l].reader.targets {
        e := ReaderPost(l, target);
      } else {
        e := Apply(l, true);
      }
    } else if l :| 0 <= l < |t.links| && s.links[l].wire != [] {
      e := Deliver(l);
    } else if l :| 0 <= l < |t.links| && s.links[l].slot.Some? {
      e := Send(l);
    } else {
      var n :| 0 <= n < t.size && Dirty(s.nodes[n].guarded);
      var id := FreshId(s.created.Keys);
      e := Watch(n, id);
    }
  }

  /** With any wire capacity of at least one message, a run that is not quiescent can always go on. */
  lemma NeverStuck(t: Topology, states: seq<State>, events: seq<Event>, i: nat) returns (e: Event)
    requires WellFormed(t) && IsRun(t, states, events) && i < |states| && !Quiescent(states[i])
    ensures Enabled(t, states[i], e) && !e.UserCopy? && Weight(t, Step(t, states[i], e)) < Weight(t, states[i])
  {
    InvHolds(t, states, events, i);
    e := SomethingCanMove(t, states[i]);
    StepIsLighter(t, states[i], e);
  }
}

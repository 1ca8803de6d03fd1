/** Why coverage is claimed for one clip at a time: copies made at the same moment may end up crosswise. */
module MeshConflicts {
  import opened Wrappers
  import opened Daemon
  import opened Mesh
  import opened MeshRuns

  /** Two connected nodes; a clip is published as the copy it came from. */
  function Pair(a: Snapshot, b: Snapshot): Topology {
    Topology(2, [Link(0, 1, 1), Link(1, 0, 0)], 1, (n: NodeId, c: Clip) => if c.content == a.content then a else b)
  }

  function NewNode(): Node {
    Node(Guarded(None, None, map[]), map[], Idle, 0, 0, {}, {}, {}, Initial)
  }

  function NewLink(): LinkState { LinkState(None, [], Idle, {}, {}, None) }

  /** A node that has announced its user's copy under its own number. */
  function Announcer(n: NodeId, copy: Snapshot): Node {
    Node(Guarded(Some(copy), Some(copy), map[]), map[n := Local], Idle, 1, 1, {copy.content}, {}, {}, Copied)
  }

  function ClipOf(n: NodeId, copy: Snapshot): Clip { Clip(n, n, copy.content) }

  /** A link whose sender has posted its only clip, which is on the way or has arrived. */
  function Used(clip: Clip, wire: seq<Clip>): LinkState { LinkState(None, wire, Idle, {clip.id}, {}, Some(clip)) }

  function Waiting(clip: Clip): LinkState { LinkState(Some(clip), [], Idle, {clip.id}, {}, Some(clip)) }

  /** A node that has accepted the other one's clip, */
  function Accepting(n: NodeId, copy: Snapshot, m: NodeId, via: nat): Node {
    Announcer(n, copy).(seen := map[n := Local, m := From(via)])
  }

  /** and has applied it over its own copy. */
  function Overwritten(n: NodeId, copy: Snapshot, m: NodeId, via: nat, other: Snapshot): Node {
    Accepting(n, copy, m, via).(
      guarded := Guarded(Some(other), Some(copy), map[other.fingerprint := 1]),
      applied := {m}, writer := Applied(ClipOf(m, other)))
  }

  /** A run and the state it has reached. */
  ghost predicate Reaches(t: Topology, states: seq<State>, events: seq<Event>, s: State)
    requires WellFormed(t)
  {
    IsRun(t, states, events) && states[|states| - 1] == s
  }

  lemma Extend(t: Topology, states: seq<State>, events: seq<Event>, s: State, e: Event)
    returns (states': seq<State>, events': seq<Event>)
    requires WellFormed(t) && Reaches(t, states, events, s) && Shape(t, s) && Enabled(t, s, e)
    ensures Reaches(t, states', events', Step(t, s, e))
  {
    states', events' := states + [Step(t, s, e)], events + [e];
    forall i | 0 <= i < |events'|
      ensures Enabled(t, states'[i], events'[i]) && states'[i + 1] == Step(t, states'[i], events'[i])
    {
      if i < |events| { assert events'[i] == events[i] && states'[i] == states[i] && states'[i + 1] == states[i + 1]; }
    }
  }

  lemma PairFacts(a: Snapshot, b: Snapshot)
    ensures var t := Pair(a, b);
            && WellFormed(t) && Paired(t)
            && Targets(t, 0, None) == {0} && Targets(t, 1, None) == {1}
            && Targets(t, 0, Some(0)) == {} && Targets(t, 1, Some(1)) == {}
  {
  }

  function Copying(copy: Snapshot): Node {
    NewNode().(guarded := Guarded(Some(copy), None, map[]), copies := 1, copied := {copy.content}, writer := Copied)
  }

  function Posting(n: NodeId, copy: Snapshot): Node {
    Announcer(n, copy).(watcher := Busy(ClipOf(n, copy), {n}))
  }

  /** The two-element states of a pair. */
  function Both(n0: Node, n1: Node, l0: LinkState, l1: LinkState, created: map<ClipId, Clip>): State {
    State([n0, n1], [l0, l1], created)
  }

  lemma FirstAnnounces(a: Snapshot, b: Snapshot)
    ensures var t := Pair(a, b);
            var clip := ClipOf(0, a);
            var s0 := Both(NewNode(), NewNode(), NewLink(), NewLink(), map[]);
            var s1 := Both(Copying(a), NewNode(), NewLink(), NewLink(), map[]);
            var s2 := Both(Posting(0, a), NewNode(), NewLink(), NewLink(), map[0 := clip]);
            && AfterCopy(t, s0, 0, a) == s1
            && AfterWatch(t, s1, 0, 0) == s2
            && AfterWatcherPost(t, s2, 0, 0)
               == Both(Announcer(0, a), NewNode(), Waiting(clip), NewLink(), map[0 := clip])
  {
    PairFacts(a, b);
    assert {} + {a.content} == {a.content} && {0 as nat} - {0} == {};
    assert {} + {ClipOf(0, a).id} == {ClipOf(0, a).id};
  }

  lemma SecondAnnounces(a: Snapshot, b: Snapshot)
    ensures var t, c0, c1 := Pair(a, b), ClipOf(0, a), ClipOf(1, b);
            var s0 := Both(Announcer(0, a), NewNode(), Waiting(c0), NewLink(), map[0 := c0]);
            var s1 := Both(Announcer(0, a), Copying(b), Waiting(c0), NewLink(), map[0 := c0]);
            var s2 := Both(Announcer(0, a), Posting(1, b), Waiting(c0), NewLink(), map[0 := c0, 1 := c1]);
            && AfterCopy(t, s0, 1, b) == s1
            && AfterWatch(t, s1, 1, 1) == s2
            && AfterWatcherPost(t, s2, 1, 1) ==
               Both(Announcer(0, a), Announcer(1, b), Waiting(c0), Waiting(c1), map[0 := c0, 1 := c1])
  {
    PairFacts(a, b);
    assert {} + {b.content} == {b.content} && {1 as nat} - {1} == {};
    assert {} + {ClipOf(1, b).id} == {ClipOf(1, b).id};
  }

  lemma BothSend(a: Snapshot, b: Snapshot, n0: Node, n1: Node, created: map<ClipId, Clip>)
    requires !n0.watcher.Busy? && !n1.watcher.Busy? && TokensPositive(n0.guarded.suppressed)
             && TokensPositive(n1.guarded.suppressed)
    ensures var t, c0, c1 := Pair(a, b), ClipOf(0, a), ClipOf(1, b);
            var s1 := Both(n0, n1, Used(c0, [c0]), Waiting(c1), created);
            && AfterSend(t, Both(n0, n1, Waiting(c0), Waiting(c1), created), 0) == s1
            && AfterSend(t, s1, 1) == Both(n0, n1, Used(c0, [c0]), Used(c1, [c1]), created)
  {
    assert [] + [ClipOf(0, a)] == [ClipOf(0, a)] && [] + [ClipOf(1, b)] == [ClipOf(1, b)];
  }

  lemma FirstIsApplied(a: Snapshot, b: Snapshot, l1: LinkState, created: map<ClipId, Clip>)
    requires l1.reader.Idle?
    ensures var t, c0 := Pair(a, b), ClipOf(0, a);
            var s0 := Both(Announcer(0, a), Announcer(1, b), Used(c0, [c0]), l1, created);
            var s1 := Both(Announcer(0, a), Accepting(1, b, 0, 0), Used(c0, []).(reader := Busy(c0, {})), l1, created);
            && WellFormed(t) && AfterDeliver(t, s0, 0) == s1
            && AfterApply(t, s1, 0, true)
               == Both(Announcer(0, a), Overwritten(1, b, 0, 0, a), Used(c0, []), l1, created)
  {
    PairFacts(a, b);
    assert {} + {ClipOf(0, a).id} == {0} && [ClipOf(0, a)][1..] == [];
    assert Announcer(1, b).seen[0 := From(0)] == map[1 := Local, 0 := From(0)];
    assert Targets(Pair(a, b), 1, Some(1)) == {};
  }

  lemma SecondIsApplied(a: Snapshot, b: Snapshot, n1: Node, l0: LinkState, created: map<ClipId, Clip>)
    requires a.content != b.content && l0.reader.Idle? && !n1.watcher.Busy? && TokensPositive(n1.guarded.suppressed)
    ensures var t, c1 := Pair(a, b), ClipOf(1, b);
            var s0 := Both(Announcer(0, a), n1, l0, Used(c1, [c1]), created);
            var s1 := Both(Accepting(0, a, 1, 1), n1, l0, Used(c1, []).(reader := Busy(c1, {})), created);
            && WellFormed(t) && AfterDeliver(t, s0, 1) == s1
            && AfterApply(t, s1, 1, true) == Both(Overwritten(0, a, 1, 1, b), n1, l0, Used(c1, []), created)
  {
    PairFacts(a, b);
    assert {} + {ClipOf(1, b).id} == {1};
  }

  lemma OneAnnounced(a: Snapshot, b: Snapshot) returns (states: seq<State>, events: seq<Event>)
    ensures var t, c0 := Pair(a, b), ClipOf(0, a);
            && WellFormed(t)
            && Reaches(t, states, events, Both(Announcer(0, a), NewNode(), Waiting(c0), NewLink(), map[0 := c0]))
  {
    var t := Pair(a, b);
    PairFacts(a, b);
    FirstAnnounces(a, b);
    var s := Both(NewNode(), NewNode(), NewLink(), NewLink(), map[]);
    states, events := [s], [];
    states, events := Extend(t, states, events, s, UserCopy(0, a));
    states, events := Extend(t, states, events, Last(states), Watch(0, 0));
    states, events := Extend(t, states, events, Last(states), WatcherPost(0, 0));
  }

  /** Both users copy, and both daemons announce it before anything is sent. */
  lemma BothAnnounced(a: Snapshot, b: Snapshot) returns (states: seq<State>, events: seq<Event>)
    ensures var t, c0, c1 := Pair(a, b), ClipOf(0, a), ClipOf(1, b);
            && WellFormed(t)
            && Reaches(t, states, events,
                 Both(Announcer(0, a), Announcer(1, b), Waiting(c0), Waiting(c1), map[0 := c0, 1 := c1]))
  {
    var t := Pair(a, b);
    PairFacts(a, b);
    SecondAnnounces(a, b);
    states, events := OneAnnounced(a, b);
    states, events := Extend(t, states, events, Last(states), UserCopy(1, b));
    states, events := Extend(t, states, events, Last(states), Watch(1, 1));
    states, events := Extend(t, states, events, Last(states), WatcherPost(1, 1));
  }

  function Last(states: seq<State>): State
    requires states != []
  {
    states[|states| - 1]
  }

  /** Both clips are sent, and the second node applies the first one's. */
  lemma FirstArrived(a: Snapshot, b: Snapshot) returns (states: seq<State>, events: seq<Event>)
    ensures var t, c0, c1 := Pair(a, b), ClipOf(0, a), ClipOf(1, b);
            && WellFormed(t)
            && Reaches(t, states, events,
                 Both(Announcer(0, a), Overwritten(1, b, 0, 0, a), Used(c0, []), Used(c1, [c1]), map[0 := c0, 1 := c1]))
  {
    var t, c0, c1 := Pair(a, b), ClipOf(0, a), ClipOf(1, b);
    var created: map<ClipId, Clip> := map[0 := c0, 1 := c1];
    PairFacts(a, b);
    BothSend(a, b, Announcer(0, a), Announcer(1, b), created);
    FirstIsApplied(a, b, Used(c1, [c1]), created);
    states, events := BothAnnounced(a, b);
    states, events := Extend(t, states, events, Last(states), Send(0));
    states, events := Extend(t, states, events, Last(states), Send(1));
    states, events := Extend(t, states, events, Last(states), Deliver(0));
    states, events := Extend(t, states, events, Last(states), Apply(0, true));
  }

  /** Two copies made before either arrives can cross: everything settles, and each node holds the other one's. */
  lemma ConcurrentCopiesMayCross(a: Snapshot, b: Snapshot) returns (states: seq<State>, events: seq<Event>)
    requires a.content != b.content
    ensures WellFormed(Pair(a, b)) && Paired(Pair(a, b)) && IsRun(Pair(a, b), states, events)
    ensures var s := Last(states);
            && Settled(s) && s.nodes[0].guarded.clipboard == Some(b) && s.nodes[1].guarded.clipboard == Some(a)
            && !WouldAnnounce(s.nodes[0].guarded) && !WouldAnnounce(s.nodes[1].guarded)
  {
    var t, c0, c1 := Pair(a, b), ClipOf(0, a), ClipOf(1, b);
    PairFacts(a, b);
    SecondIsApplied(a, b, Overwritten(1, b, 0, 0, a), Used(c0, []), map[0 := c0, 1 := c1]);
    states, events := FirstArrived(a, b);
    states, events := Extend(t, states, events, Last(states), Deliver(1));
    states, events := Extend(t, states, events, Last(states), Apply(1, true));
  }
}

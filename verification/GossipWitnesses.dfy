/** How a daemon can stay behind although its peers know better. */
module GossipWitnesses {
  import opened Wrappers
  import opened Bytes
  import opened Versions
  import opened Gossip
  import opened GossipConvergence

  // ---------------------------------------------------------------------------
  // Two daemons
  // ---------------------------------------------------------------------------

  lemma Onward(run: seq<Net>, events: seq<Event>, e: Event, y: Net, z: Net)
    returns (longer: seq<Net>, more: seq<Event>)
    requires Follow(run, events) && run[|events|] == y && SteadyStepTo(y, e, z)
    ensures Follow(longer, more) && longer[0] == run[0]
    ensures more == events + [e] && longer[|more|] == z
  {
    longer, more := run + [z], events + [e];
    forall k, l | 0 <= k < l < |longer| && l == k + 1 ensures SteadyStepTo(longer[k], more[k], longer[l]) {
      if l < |run| { assert SteadyStepTo(run[k], events[k], run[l]); }
    }
  }

  function Hello(from: nat, to: nat, version: Text): Channel { Channel(from, to, false, false, [version]) }

  /** A connection on which everything has been said. */
  function Silent(from: nat, to: nat): Channel { Channel(from, to, true, false, []) }

  /** Two daemons that run `a`, while the registry offers `b`. */
  function Pair(a: Text, b: Text, there: Channel, back: Channel): Net {
    Net(b, {b}, [Started(a, None), Started(a, None)], [there, back])
  }

  lemma BeginsSound(a: Text, b: Text)
    requires NewerVersion(a, b)
    ensures Started(a, None) == Peer(Wishes(a, a, None), None, None, 0) && Sound(Started(a, None), {a} + {b})
  {
    StartsWellKept(a, None);
  }

  lemma PairIsSound(a: Text, b: Text, there: Channel, back: Channel)
    requires NewerVersion(a, b) && there.from == back.to == 0 && there.to == back.from == 1
    ensures var y := Pair(a, b, there, back);
            SteadySteps([y], [], {a}) && Informed(y, 0) && Informed(y, 1)
  {
    BeginsSound(a, b);
    var y := Pair(a, b, there, back);
    assert forall n :: 0 <= n < |y.peers| ==> y.peers[n] == Started(a, None);
  }

  /** The first of the two wants `b`, and the second does not. */
  function Ahead(a: Text, b: Text, hints: nat, there: Channel, back: Channel): Net {
    Net(b, {b}, [Peer(Wishes(a, b, Some(b)), None, None, 0), Peer(Wishes(a, a, None), None, None, hints)],
        [there, back])
  }

  /** The second is looking at the registry, too. */
  function Looking(a: Text, b: Text, there: Channel, back: Channel): Net {
    Net(b, {b}, [Peer(Wishes(a, b, Some(b)), None, None, 0), Peer(Wishes(a, a, None), Some(b), None, 0)],
        [there, back])
  }

  /** The first daemon while it looks at the registry, and while it tries to install what it has found. */
  function FirstIs(a: Text, b: Text, p: Peer, there: Channel, back: Channel): Net {
    Net(b, {b}, [p, Peer(Wishes(a, a, None), None, None, 0)], [there, back])
  }

  lemma FirstChecks(a: Text, b: Text, there: Channel, back: Channel)
    requires Started(a, None) == Peer(Wishes(a, a, None), None, None, 0)
    ensures SteadyStepTo(Pair(a, b, there, back), Check(0),
                         FirstIs(a, b, Peer(Wishes(a, a, None), Some(b), None, 0), there, back))
  {
  }

  lemma FirstReconciles(a: Text, b: Text)
    requires NewerVersion(a, b)
    ensures Reconciled(Wishes(a, a, None), b) == (Wishes(a, b, Some(b)), Install) && a != b
  {
    NotNewerThanItself(a);
  }

  lemma FirstAnnounces(there: Channel, back: Channel)
    requires there.from == 0 && back.from == 1
    ensures Announce([there, back], 0) == [there.(news := there.news || there.subscribed), back]
  {
  }

  lemma AfterInstall(y: Net, n: nat, wishes: Wishes)
    requires Enabled(y, Finish(n)) && Reconciled(y.peers[n].wishes, y.peers[n].fetched.value) == (wishes, Install)
    requires wishes.desired != y.peers[n].wishes.desired
    ensures After(y, Finish(n)) ==
            Net(y.registry, y.history, y.peers[n := Peer(wishes, None, y.peers[n].fetched, y.peers[n].hints)],
                Announce(y.channels, n))
  {
  }

  lemma FirstFinishes(a: Text, b: Text, there: Channel, back: Channel)
    requires Reconciled(Wishes(a, a, None), b) == (Wishes(a, b, Some(b)), Install) && a != b
    requires there.from == 0 && back.from == 1
    ensures SteadyStepTo(FirstIs(a, b, Peer(Wishes(a, a, None), Some(b), None, 0), there, back), Finish(0),
                         FirstIs(a, b, Peer(Wishes(a, b, Some(b)), None, Some(b), 0),
                                 there.(news := there.news || there.subscribed), back))
  {
    FirstAnnounces(there, back);
    AfterInstall(FirstIs(a, b, Peer(Wishes(a, a, None), Some(b), None, 0), there, back), 0, Wishes(a, b, Some(b)));
  }

  lemma FirstGivesUp(a: Text, b: Text, there: Channel, back: Channel)
    ensures SteadyStepTo(FirstIs(a, b, Peer(Wishes(a, b, Some(b)), None, Some(b), 0), there, back), FailInstall(0),
                         Ahead(a, b, 0, there, back))
  {
  }

  lemma FirstFinds(a: Text, b: Text, there: Channel, back: Channel) returns (run: seq<Net>, events: seq<Event>)
    requires Started(a, None) == Peer(Wishes(a, a, None), None, None, 0) && a != b
    requires Reconciled(Wishes(a, a, None), b) == (Wishes(a, b, Some(b)), Install)
    requires there.from == 0 && back.from == 1 && !there.news
    ensures Follow(run, events) && run[0] == Pair(a, b, there, back) && events == [Check(0), Finish(0)]
    ensures run[2] ==
            FirstIs(a, b, Peer(Wishes(a, b, Some(b)), None, Some(b), 0), there.(news := there.subscribed), back)
  {
    var y0, y1 := Pair(a, b, there, back), FirstIs(a, b, Peer(Wishes(a, a, None), Some(b), None, 0), there, back);
    FirstChecks(a, b, there, back);
    run, events := Onward([y0], [], Check(0), y0, y1);
    FirstFinishes(a, b, there, back);
    run, events := Onward(run, events, Finish(0), y1,
                          FirstIs(a, b, Peer(Wishes(a, b, Some(b)), None, Some(b), 0),
                                  there.(news := there.subscribed), back));
  }

  /** The first daemon looks at the registry, and cannot install what it finds. */
  lemma FirstLooks(a: Text, b: Text, there: Channel, back: Channel) returns (run: seq<Net>, events: seq<Event>)
    requires NewerVersion(a, b) && there.from == back.to == 0 && there.to == back.from == 1 && !there.news
    ensures Follow(run, events) && run[0] == Pair(a, b, there, back)
    ensures events == [Check(0), Finish(0), FailInstall(0)]
    ensures run[3] == Ahead(a, b, 0, there.(news := there.subscribed), back)
  {
    BeginsSound(a, b);
    FirstReconciles(a, b);
    run, events := FirstFinds(a, b, there, back);
    var told := there.(news := there.subscribed);
    FirstGivesUp(a, b, told, back);
    run, events := Onward(run, events, FailInstall(0), run[2], Ahead(a, b, 0, told, back));
  }

  lemma NotNewerThanItself(v: Text)
    ensures !NewerVersion(v, v)
  {
    if ParseVersion(v).Some? {
      var version := ParseVersion(v).value;
      BeforeIsAnOrder(version, version, version);
    }
  }

  lemma FirstSends(a: Text, b: Text, there: Channel, back: Channel)
    requires there.from == 0 && there.news && there.wire == []
    ensures SteadyStepTo(Ahead(a, b, 0, there, back), Send(0),
                         Ahead(a, b, 0, there.(news := false, wire := [b]), back))
  {
    assert there.wire + [b] == [b];
  }

  lemma SecondHears(a: Text, b: Text, there: Channel, back: Channel, v: Text)
    requires there.to == 1 && there.wire == [v]
    ensures SteadyStepTo(Ahead(a, b, 0, there, back), Deliver(0),
                         Ahead(a, b, if NewerVersion(a, v) then 1 else 0, there.(wire := []), back))
  {
    assert [v][1..] == [];
  }

  lemma FirstHears(a: Text, b: Text, there: Channel, back: Channel)
    requires back.to == 0 && back.wire == [a]
    ensures SteadyStepTo(Ahead(a, b, 0, there, back), Deliver(1), Ahead(a, b, 0, there, back.(wire := [])))
  {
    NotNewerThanItself(a);
    assert [a][1..] == [];
  }

  lemma SecondLooks(a: Text, b: Text, there: Channel, back: Channel)
    ensures var y, z := Ahead(a, b, 1, there, back), Looking(a, b, there, back);
            SteadyStepTo(y, TakeHint(1), z) && SteadyStepTo(z, FailFetch(1), Ahead(a, b, 0, there, back))
  {
  }

  lemma Subscribes(a: Text, b: Text, there: Channel, back: Channel)
    ensures var y := Ahead(a, b, 0, there, back);
            && (!there.subscribed ==>
                  SteadyStepTo(y, Subscribe(0), Ahead(a, b, 0, there.(subscribed := true), back)))
            && (!back.subscribed ==>
                  SteadyStepTo(y, Subscribe(1), Ahead(a, b, 0, there, back.(subscribed := true))))
  {
  }

  /** They stay apart: nobody is behind but the second, and nobody is going to tell it. */
  ghost predicate StayApart(y: Net) {
    && |y.peers| == 2 && AtRest(y) && Joins(y, 0) && y.channels[0].from == 0 && y.channels[0].to == 1
    && !Behind(y, y.peers[0]) && Behind(y, y.peers[1])
  }

  lemma NothingIsDue(y: Net)
    requires forall n :: 0 <= n < |y.peers| ==> y.peers[n].hints == 0 && Resting(y.peers[n])
    requires forall c :: 0 <= c < |y.channels| ==> y.channels[c] == Silent(y.channels[c].from, y.channels[c].to)
    ensures AtRest(y)
  {
  }

  lemma FirstIsNotBehind(a: Text, b: Text, there: Channel, back: Channel)
    requires NewerVersion(a, b)
    ensures var y := Ahead(a, b, 0, there, back); !Behind(y, y.peers[0]) && Behind(y, y.peers[1])
  {
    NotNewerThanItself(b);
  }

  lemma ApartAtRest(y: Net)
    requires |y.peers| == 2 && |y.channels| > 0 && y.channels[0].from == 0 && y.channels[0].to == 1 && AtRest(y)
    requires !Behind(y, y.peers[0]) && Behind(y, y.peers[1])
    ensures StayApart(y)
  {
  }

  lemma SilenceIsRest(a: Text, b: Text)
    ensures AtRest(Ahead(a, b, 0, Silent(0, 1), Silent(1, 0)))
  {
    NothingIsDue(Ahead(a, b, 0, Silent(0, 1), Silent(1, 0)));
  }

  lemma SilenceKeepsApart(a: Text, b: Text)
    requires NewerVersion(a, b)
    ensures StayApart(Ahead(a, b, 0, Silent(0, 1), Silent(1, 0)))
  {
    SilenceIsRest(a, b);
    FirstIsNotBehind(a, b, Silent(0, 1), Silent(1, 0));
    ApartAtRest(Ahead(a, b, 0, Silent(0, 1), Silent(1, 0)));
  }

  // ---------------------------------------------------------------------------
  // Two ways of missing a release
  // ---------------------------------------------------------------------------

  /** The first daemon's wish changes between the hellos and its subscription. */
  lemma FirstSubscribesLate(a: Text, b: Text, there: Channel, back: Channel)
    returns (run: seq<Net>, events: seq<Event>)
    requires NewerVersion(a, b) && there == Hello(0, 1, a) && back == Hello(1, 0, a)
    ensures Follow(run, events) && run[0] == Pair(a, b, there, back)
    ensures events == [Check(0), Finish(0), FailInstall(0), Deliver(1), Subscribe(0)]
    ensures run[|events|] == Ahead(a, b, 0, there.(subscribed := true), back.(wire := []))
  {
    var heard := back.(wire := []);
    var y3, y4 := Ahead(a, b, 0, there, back), Ahead(a, b, 0, there, heard);
    run, events := FirstLooks(a, b, there, back);
    FirstHears(a, b, there, back);
    run, events := Onward(run, events, Deliver(1), y3, y4);
    Subscribes(a, b, there, heard);
    run, events := Onward(run, events, Subscribe(0), y4, Ahead(a, b, 0, there.(subscribed := true), heard));
  }

  /** A wish that changes right after the hello is never announced on that connection. */
  lemma StaleHelloIsNotCorrected(a: Text, b: Text) returns (run: seq<Net>, events: seq<Event>)
    requires NewerVersion(a, b)
    ensures SteadySteps(run, events, {a}) && run[0] == Pair(a, b, Hello(0, 1, a), Hello(1, 0, a))
    ensures events == [Check(0), Finish(0), FailInstall(0), Deliver(1), Subscribe(0), Deliver(0), Subscribe(1)]
    ensures StayApart(run[|events|])
  {
    var there, back := Hello(0, 1, a), Hello(1, 0, a);
    var watched, heard := there.(subscribed := true), back.(wire := []);
    var y5, y6 := Ahead(a, b, 0, watched, heard), Ahead(a, b, 0, Silent(0, 1), heard);
    run, events := FirstSubscribesLate(a, b, there, back);
    NotNewerThanItself(a);
    SecondHears(a, b, watched, heard, a);
    run, events := Onward(run, events, Deliver(0), y5, y6);
    Subscribes(a, b, Silent(0, 1), heard);
    run, events := Onward(run, events, Subscribe(1), y6, Ahead(a, b, 0, Silent(0, 1), Silent(1, 0)));
    PairIsSound(a, b, there, back);
    SilenceKeepsApart(a, b);
  }

  /** The second daemon is told, and has a hint to look into. */
  lemma SecondIsTold(a: Text, b: Text, there: Channel, back: Channel) returns (run: seq<Net>, events: seq<Event>)
    requires NewerVersion(a, b) && there == Silent(0, 1) && back == Silent(1, 0)
    ensures Follow(run, events) && run[0] == Pair(a, b, there, back) && run[|events|] == Ahead(a, b, 1, there, back)
    ensures events == [Check(0), Finish(0), FailInstall(0), Send(0), Deliver(0)]
  {
    var news, told := there.(news := true), there.(wire := [b]);
    var y3, y4, y5 := Ahead(a, b, 0, news, back), Ahead(a, b, 0, told, back), Ahead(a, b, 1, there, back);
    run, events := FirstLooks(a, b, there, back);
    FirstSends(a, b, news, back);
    run, events := Onward(run, events, Send(0), y3, y4);
    SecondHears(a, b, told, back, b);
    run, events := Onward(run, events, Deliver(0), y4, y5);
  }

  /** A failed look at the registry is not repeated before the next check. */
  lemma FailedLookIsNotRepeated(a: Text, b: Text) returns (run: seq<Net>, events: seq<Event>)
    requires NewerVersion(a, b)
    ensures SteadySteps(run, events, {a}) && run[0] == Pair(a, b, Silent(0, 1), Silent(1, 0))
    ensures events == [Check(0), Finish(0), FailInstall(0), Send(0), Deliver(0), TakeHint(1), FailFetch(1)]
    ensures StayApart(run[|events|])
  {
    var there, back := Silent(0, 1), Silent(1, 0);
    var y5, y6, y7 := Ahead(a, b, 1, there, back), Looking(a, b, there, back), Ahead(a, b, 0, there, back);
    run, events := SecondIsTold(a, b, there, back);
    SecondLooks(a, b, there, back);
    run, events := Onward(run, events, TakeHint(1), y5, y6);
    run, events := Onward(run, events, FailFetch(1), y6, y7);
    PairIsSound(a, b, there, back);
    SilenceKeepsApart(a, b);
  }
}

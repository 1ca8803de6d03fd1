/** While the registry stands still, a release that one daemon wants comes to be wanted all along its connections. */
module GossipConvergence {
  import opened Wrappers
  import opened Bytes
  import opened Versions
  import opened Gossip

  // ---------------------------------------------------------------------------
  // Who has been told
  // ---------------------------------------------------------------------------

  /** An announcement of what the registry offers, or of something later. */
  predicate Tells(registry: Text, version: Text) { ParseVersion(version).Some? && !NewerVersion(version, registry) }

  predicate Carries(registry: Text, wire: seq<Text>) { exists i :: 0 <= i < |wire| && Tells(registry, wire[i]) }

  lemma CarriesTail(registry: Text, wire: seq<Text>)
    requires Carries(registry, wire)
    ensures Tells(registry, wire[0]) || Carries(registry, wire[1..])
  {
    var i :| 0 <= i < |wire| && Tells(registry, wire[i]);
    if i > 0 { assert Tells(registry, wire[1..][i - 1]); }
  }

  lemma CarriesMore(registry: Text, wire: seq<Text>, version: Text)
    ensures Carries(registry, wire) || Tells(registry, version) ==> Carries(registry, wire + [version])
  {
    assert (wire + [version])[|wire|] == version;
    if i :| 0 <= i < |wire| && Tells(registry, wire[i]) { assert (wire + [version])[i] == wire[i]; }
  }

  predicate Joins(y: Net, d: nat) {
    d < |y.channels| && y.channels[d].from < |y.peers| && y.channels[d].to < |y.peers|
  }

  /** The receiver is going to be told, is going to ask the registry, or has nothing to learn. */
  predicate Told(y: Net, d: nat)
    requires Joins(y, d)
  {
    var k, p := y.channels[d], y.peers[y.channels[d].to];
    k.news || Carries(y.registry, k.wire) || p.hints > 0 || p.fetched.Some? || !Behind(y, p)
  }

  /** A sender that is not behind has told the receiver. */
  predicate Informed(y: Net, d: nat) { Joins(y, d) && (Behind(y, y.peers[y.channels[d].from]) || Told(y, d)) }

  /**
   * The steps that can leave the receiver in the dark: its look at the registry fails, which it does not repeat, or the
   * sender's wish changes after its hello and before it subscribes to changes.
   */
  predicate Misses(y: Net, e: Event, d: nat) {
    && d < |y.channels| && Enabled(y, e)
    && (|| e == FailFetch(y.channels[d].to)
        || (e == Finish(y.channels[d].from) && !y.channels[d].subscribed
            && AfterFinish(y, e.n).peers[e.n].wishes.desired != y.peers[e.n].wishes.desired))
  }

  // ---------------------------------------------------------------------------
  // Nobody else is forgotten
  // ---------------------------------------------------------------------------

  lemma FinishLeavesNothing(y: Net, origins: set<Text>, n: nat)
    requires Inv(y, origins) && Fetched(y) && Enabled(y, Finish(n))
    ensures var p, q := y.peers[n], AfterFinish(y, n).peers[n];
            !Behind(y, q) && (q.wishes.desired != p.wishes.desired || !Behind(y, p))
  {
    ReconcilingFollowsTheRegistry(y.peers[n].wishes, y.registry);
    if ParseVersion(y.registry).Some? {
      var latest := ParseVersion(y.registry).value;
      BeforeIsAnOrder(latest, latest, latest);
    }
  }

  lemma FinishKeepsInformed(y: Net, origins: set<Text>, n: nat, d: nat)
    requires Inv(y, origins) && Fetched(y) && Enabled(y, Finish(n)) && Informed(y, d) && !Misses(y, Finish(n), d)
    ensures Informed(AfterFinish(y, n), d)
  {
    FinishLeavesNothing(y, origins, n);
  }

  /** What is delivered asks the receiver to look, unless it runs something as late already. */
  lemma DeliveredIsTold(y: Net, origins: set<Text>, c: nat)
    requires Inv(y, origins) && Enabled(y, Deliver(c)) && Tells(y.registry, y.channels[c].wire[0])
    ensures var z := AfterDeliver(y, c); z.peers[y.channels[c].to].hints > 0 || !Behind(z, z.peers[y.channels[c].to])
  {
    var p, v := y.peers[y.channels[c].to], y.channels[c].wire[0];
    if NewerVersion(p.wishes.desired, y.registry) && !NewerVersion(p.wishes.current, v) {
      var desired, latest := ParseVersion(p.wishes.desired).value, ParseVersion(y.registry).value;
      BeforeIsAnOrder(ParseVersion(p.wishes.current).value, desired, latest);
      BeforeIsAnOrder(ParseVersion(v).value, ParseVersion(p.wishes.current).value, latest);
      assert false;
    }
  }

  lemma DeliverKeepsTold(y: Net, origins: set<Text>, c: nat)
    requires Inv(y, origins) && Enabled(y, Deliver(c)) && Joins(y, c) && Told(y, c)
    ensures Told(AfterDeliver(y, c), c)
  {
    var k := y.channels[c];
    if Carries(y.registry, k.wire) {
      CarriesTail(y.registry, k.wire);
      if Tells(y.registry, k.wire[0]) { DeliveredIsTold(y, origins, c); }
    }
  }

  /** What is sent is what the sender wants now. */
  lemma SendKeepsTold(y: Net, origins: set<Text>, c: nat)
    requires Inv(y, origins) && Enabled(y, Send(c)) && Joins(y, c) && !Behind(y, y.peers[y.channels[c].from])
    ensures Told(After(y, Send(c)), c)
  {
    CarriesMore(y.registry, y.channels[c].wire, y.peers[y.channels[c].from].wishes.desired);
  }

  lemma ForgeKeepsTold(y: Net, c: nat, version: Text)
    requires Enabled(y, Forge(c, version)) && Joins(y, c) && Told(y, c)
    ensures Told(After(y, Forge(c, version)), c)
  {
    CarriesMore(y.registry, y.channels[c].wire, version);
  }

  /** The steps that are about the news or the wire of a channel. */
  predicate OfChannel(e: Event, d: nat) { e == Send(d) || e == Deliver(d) || (e.Forge? && e.c == d) }

  /** Elsewhere news and wires stay, and nobody has less reason to look. */
  lemma OtherStepsKeepTold(y: Net, e: Event, d: nat)
    requires Enabled(y, e) && Steady(e) && !e.Finish? && !OfChannel(e, d) && !Misses(y, e, d)
    requires Joins(y, d) && Told(y, d)
    ensures Joins(After(y, e), d) && Told(After(y, e), d)
  {
  }

  lemma EndsStay(y: Net, e: Event, d: nat)
    requires Enabled(y, e) && Steady(e) && Joins(y, d)
    ensures var z := After(y, e);
            Joins(z, d) && z.registry == y.registry && z.channels[d].from == y.channels[d].from
  {
  }

  /** No step but the end of a reconciliation takes a daemon out of those that are behind. */
  lemma BehindStays(y: Net, e: Event, d: nat)
    requires Enabled(y, e) && Steady(e) && !e.Finish? && Joins(y, d)
    ensures var z := After(y, e);
            Joins(z, d) && Behind(z, z.peers[z.channels[d].from]) == Behind(y, y.peers[y.channels[d].from])
  {
    EndsStay(y, e, d);
    OtherStepsKeepWishes(y, e, y.channels[d].from);
  }

  /** Steps of a steady net keep a receiver informed, forged announcements included, unless it misses them. */
  lemma StepKeepsInformed(y: Net, e: Event, origins: set<Text>, d: nat)
    requires Inv(y, origins) && Fetched(y) && Enabled(y, e) && Steady(e) && Informed(y, d) && !Misses(y, e, d)
    ensures Informed(After(y, e), d)
  {
    if e.Finish? {
      FinishKeepsInformed(y, origins, e.n, d);
    } else {
      BehindStays(y, e, d);
      if !Behind(y, y.peers[y.channels[d].from]) {
        if !OfChannel(e, d) {
          OtherStepsKeepTold(y, e, d);
        } else if e.Send? {
          SendKeepsTold(y, origins, d);
        } else if e.Deliver? {
          DeliverKeepsTold(y, origins, d);
        } else {
          ForgeKeepsTold(y, d, e.version);
        }
      }
    }
  }

  /** A connection informs by its sender's hello. */
  lemma HelloInforms(y: Net, origins: set<Text>, d: nat)
    requires Inv(y, origins) && Joins(y, d) && y.channels[d].wire == [y.peers[y.channels[d].from].wishes.desired]
    ensures Informed(y, d)
  {
    assert Tells(y.registry, y.channels[d].wire[0]) || Behind(y, y.peers[y.channels[d].from]);
  }

  /** Looking at the registry makes up for whatever was missed. */
  lemma LookingInforms(y: Net, e: Event, d: nat)
    requires Enabled(y, e) && Joins(y, d) && (e == Check(y.channels[d].to) || e == TakeHint(y.channels[d].to))
    ensures Informed(After(y, e), d)
  {
  }

  /** Asking for updates by hand makes the daemon look, and informs everyone who follows it once more. */
  lemma NotifyingInforms(y: Net, d: nat)
    requires Joins(y, d) && y.channels[d].subscribed
    ensures var n := y.channels[d].from;
            && Enabled(y, Notify(n)) && After(y, Notify(n)).peers[n].hints > 0 && Informed(After(y, Notify(n)), d)
            && After(y, Notify(n)).channels[d].news
  {
  }

  // ---------------------------------------------------------------------------
  // News arrives
  // ---------------------------------------------------------------------------

  /** Nothing is left to do before the next scheduled check. */
  ghost predicate AtRest(y: Net) { forall e :: Automatic(e) ==> !Enabled(y, e) }

  lemma RestingDaemonHasLooked(y: Net, n: nat)
    requires AtRest(y) && n < |y.peers|
    ensures y.peers[n].hints == 0 && y.peers[n].fetched.None?
  {
    assert Automatic(TakeHint(n)) && Automatic(Finish(n)) && Automatic(FailInstall(n));
  }

  lemma RestingChannelIsEmpty(y: Net, d: nat)
    requires AtRest(y) && Joins(y, d)
    ensures !y.channels[d].news && y.channels[d].wire == []
  {
    assert Automatic(Send(d)) && Automatic(Deliver(d));
  }

  /** `path` leads over connections from daemon `a` to daemon `b`. */
  predicate Leads(y: Net, a: nat, path: seq<nat>, b: nat)
    decreases path
  {
    if path == [] then a == b
    else Joins(y, path[0]) && y.channels[path[0]].from == a && Leads(y, y.channels[path[0]].to, path[1..], b)
  }

  lemma {:induction false} NewsIsEverywhere(y: Net, a: nat, path: seq<nat>, b: nat)
    requires AtRest(y) && a < |y.peers| && !Behind(y, y.peers[a]) && Leads(y, a, path, b)
    requires forall j :: 0 <= j < |path| ==> Informed(y, path[j])
    ensures b < |y.peers| && !Behind(y, y.peers[b])
    decreases path
  {
    if path != [] {
      var k := y.channels[path[0]];
      RestingChannelIsEmpty(y, path[0]);
      RestingDaemonHasLooked(y, k.to);
      assert Informed(y, path[0]);
      NewsIsEverywhere(y, k.to, path[1..], b);
    }
  }

  ghost predicate SteadyStepTo(y: Net, e: Event, z: Net) { Steady(e) && Enabled(y, e) && z == After(y, e) }

  ghost predicate Follow(run: seq<Net>, events: seq<Event>) {
    && |run| == |events| + 1
    && forall k, l {:trigger SteadyStepTo(run[k], events[k], run[l])} ::
         0 <= k < l < |run| && l == k + 1 ==> SteadyStepTo(run[k], events[k], run[l])
  }

  /** A run of a steady net, with the steps between its states. */
  ghost predicate SteadySteps(run: seq<Net>, events: seq<Event>, origins: set<Text>) {
    Follow(run, events) && Inv(run[0], origins) && Fetched(run[0])
  }

  lemma SteadyStepToKeeps(y: Net, e: Event, z: Net, origins: set<Text>)
    requires Inv(y, origins) && Fetched(y) && SteadyStepTo(y, e, z)
    ensures Inv(z, origins) && Fetched(z)
  {
    StepKeepsInv(y, e, origins);
    FetchedStays(y, e);
  }

  lemma {:induction false} SteadyStepsKeep(run: seq<Net>, events: seq<Event>, origins: set<Text>, i: nat)
    requires SteadySteps(run, events, origins) && i < |run|
    ensures Inv(run[i], origins) && Fetched(run[i])
  {
    if i > 0 {
      SteadyStepsKeep(run, events, origins, i - 1);
      SteadyStepToKeeps(run[i - 1], events[i - 1], run[i], origins);
    }
  }

  /** The receiver was informed at some time, and has missed nothing since. */
  ghost predicate HasMissedNothing(run: seq<Net>, events: seq<Event>, s: nat, i: nat, d: nat)
    requires s <= i < |run| == |events| + 1
  {
    Informed(run[s], d) && forall k {:trigger events[k]} :: s <= k < i ==> !Misses(run[k], events[k], d)
  }

  lemma NextStaysInformed(run: seq<Net>, events: seq<Event>, origins: set<Text>, k: nat, l: nat, d: nat)
    requires SteadySteps(run, events, origins) && k < l < |run| && l == k + 1
    requires Informed(run[k], d) && !Misses(run[k], events[k], d)
    ensures Informed(run[l], d)
  {
    SteadyStepsKeep(run, events, origins, k);
    assert SteadyStepTo(run[k], events[k], run[l]);
    StepKeepsInformed(run[k], events[k], origins, d);
  }

  lemma HadMissedNothing(run: seq<Net>, events: seq<Event>, s: nat, i: nat, d: nat)
    requires s < i < |run| == |events| + 1 && HasMissedNothing(run, events, s, i, d)
    ensures HasMissedNothing(run, events, s, i - 1, d) && !Misses(run[i - 1], events[i - 1], d)
  {
    assert !Misses(run[i - 1], events[i - 1], d);
  }

  lemma {:induction false} StaysInformed(run: seq<Net>, events: seq<Event>, origins: set<Text>, s: nat, i: nat, d: nat)
    requires SteadySteps(run, events, origins) && s <= i < |run| && HasMissedNothing(run, events, s, i, d)
    ensures Informed(run[i], d)
    decreases i
  {
    if s < i {
      HadMissedNothing(run, events, s, i, d);
      StaysInformed(run, events, origins, s, i - 1, d);
      NextStaysInformed(run, events, origins, i - 1, i, d);
    }
  }

  /**
   * Daemons converge: whenever nothing is left to do but wait for a check, everyone whom connections join to a daemon
   * that is not behind the registry is not behind it either, if nobody on the way has missed anything since some time
   * at which it was informed.
   */
  lemma DaemonsConverge(run: seq<Net>, events: seq<Event>, origins: set<Text>, i: nat, a: nat, path: seq<nat>, b: nat)
    requires SteadySteps(run, events, origins) && i < |run| && AtRest(run[i])
    requires a < |run[i].peers| && !Behind(run[i], run[i].peers[a]) && Leads(run[i], a, path, b)
    requires forall j :: 0 <= j < |path| ==> exists s :: 0 <= s <= i && HasMissedNothing(run, events, s, i, path[j])
    ensures b < |run[i].peers| && !Behind(run[i], run[i].peers[b])
  {
    forall j | 0 <= j < |path| ensures Informed(run[i], path[j]) {
      var s :| 0 <= s <= i && HasMissedNothing(run, events, s, i, path[j]);
      StaysInformed(run, events, origins, s, i, path[j]);
    }
    NewsIsEverywhere(run[i], a, path, b);
  }
}

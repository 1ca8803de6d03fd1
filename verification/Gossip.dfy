/** Update announcements between daemons: hints make a daemon ask the registry, and are otherwise not believed. */
module Gossip {
  import opened Wrappers
  import opened Bytes
  import opened Versions
  import opened Sums

  /**
   * A daemon: its wishes, the release it has fetched, the one it is installing, and the hints it has yet to look
   * into.
   */
  datatype Peer = Peer(wishes: Wishes, fetched: Option<Text>, installing: Option<Text>, hints: nat)

  /**
   * One direction of a connection: whether the sender follows its wish yet, whether it has news, and the announcements
   * under way. The first of them is the one in the sender's hello.
   */
  datatype Channel = Channel(from: nat, to: nat, subscribed: bool, news: bool, wire: seq<Text>)

  /** `history` records every release the registry has offered. */
  datatype Net = Net(registry: Text, history: set<Text>, peers: seq<Peer>, channels: seq<Channel>)

  /** A fetch fails when the registry cannot be reached or the record cannot be written. */
  datatype Event =
    | Release(version: Text)
    | Check(n: nat)
    | TakeHint(n: nat)
    | Finish(n: nat)
    | FailFetch(n: nat)
    | FailInstall(n: nat)
    | Upgrade(n: nat)
    | Restart(n: nat)
    | Notify(n: nat)
    | Subscribe(c: nat)
    | Send(c: nat)
    | Deliver(c: nat)
    | Forge(c: nat, version: Text)

  predicate Resting(p: Peer) { p.fetched.None? && p.installing.None? }

  predicate Enabled(y: Net, e: Event) {
    match e
    case Release(_) => true
    case Check(n) => n < |y.peers| && Resting(y.peers[n])
    case TakeHint(n) => n < |y.peers| && Resting(y.peers[n]) && y.peers[n].hints > 0
    case Finish(n) => n < |y.peers| && y.peers[n].fetched.Some? && y.peers[n].installing.None?
    case FailFetch(n) => n < |y.peers| && y.peers[n].fetched.Some? && y.peers[n].installing.None?
    case FailInstall(n) => n < |y.peers| && y.peers[n].installing.Some?
    case Upgrade(n) => n < |y.peers| && y.peers[n].installing.Some?
    case Restart(n) => n < |y.peers|
    case Notify(n) => n < |y.peers|
    case Subscribe(c) => c < |y.channels| && !y.channels[c].subscribed
    case Send(c) => c < |y.channels| && y.channels[c].news && y.channels[c].from < |y.peers|
    case Deliver(c) => c < |y.channels| && y.channels[c].wire != [] && y.channels[c].to < |y.peers|
    case Forge(c, _) => c < |y.channels|
  }

  predicate Follows(k: Channel, n: nat) { k.from == n && k.subscribed }

  /** Every connection that follows `n` has something to announce. */
  function Announce(channels: seq<Channel>, n: nat): (r: seq<Channel>)
    ensures |r| == |channels|
    ensures forall c :: 0 <= c < |r| ==>
              r[c] == if Follows(channels[c], n) then channels[c].(news := true) else channels[c]
  {
    if channels == [] then []
    else [if Follows(channels[0], n) then channels[0].(news := true) else channels[0]] + Announce(channels[1..], n)
  }

  function WithPeer(y: Net, n: nat, p: Peer): Net
    requires n < |y.peers|
  {
    y.(peers := y.peers[n := p])
  }

  function AfterFinish(y: Net, n: nat): Net
    requires Enabled(y, Finish(n))
  {
    var p := y.peers[n];
    var (wishes, verdict) := Reconciled(p.wishes, p.fetched.value);
    var done := Peer(wishes, None, if verdict.Install? then p.fetched else None, p.hints);
    var channels := if wishes.desired != p.wishes.desired then Announce(y.channels, n) else y.channels;
    WithPeer(y, n, done).(channels := channels)
  }

  /** A daemon starts afresh, with what is on record. */
  function Started(current: Text, persisted: Option<Text>): Peer {
    Peer(Wishes(current, InitialDesired(current, persisted), persisted), None, None, 0)
  }

  function AfterDeliver(y: Net, c: nat): Net
    requires Enabled(y, Deliver(c))
  {
    var k := y.channels[c];
    var p := y.peers[k.to];
    var taken := y.(channels := y.channels[c := k.(wire := k.wire[1..])]);
    if NewerVersion(p.wishes.current, k.wire[0]) then WithPeer(taken, k.to, p.(hints := p.hints + 1)) else taken
  }

  function After(y: Net, e: Event): Net
    requires Enabled(y, e)
  {
    match e
    case Release(version) => y.(registry := version, history := y.history + {version})
    case Check(n) => WithPeer(y, n, y.peers[n].(fetched := Some(y.registry)))
    case TakeHint(n) => WithPeer(y, n, y.peers[n].(fetched := Some(y.registry), hints := y.peers[n].hints - 1))
    case Finish(n) => AfterFinish(y, n)
    case FailFetch(n) => WithPeer(y, n, y.peers[n].(fetched := None))
    case FailInstall(n) => WithPeer(y, n, y.peers[n].(installing := None))
    case Upgrade(n) => WithPeer(y, n, Started(y.peers[n].installing.value, y.peers[n].wishes.persisted))
    case Restart(n) => WithPeer(y, n, Started(y.peers[n].wishes.current, y.peers[n].wishes.persisted))
    case Notify(n) => WithPeer(y, n, y.peers[n].(hints := y.peers[n].hints + 1)).(channels := Announce(y.channels, n))
    case Subscribe(c) => y.(channels := y.channels[c := y.channels[c].(subscribed := true)])
    case Send(c) =>
      var k := y.channels[c];
      y.(channels := y.channels[c := k.(news := false, wire := k.wire + [y.peers[k.from].wishes.desired])])
    case Deliver(c) => AfterDeliver(y, c)
    case Forge(c, version) => y.(channels := y.channels[c := y.channels[c].(wire := y.channels[c].wire + [version])])
  }

  // ---------------------------------------------------------------------------
  // Provenance and order
  // ---------------------------------------------------------------------------

  /** What a daemon runs, wants or has on record when it starts. */
  ghost predicate Known(p: Peer, origins: set<Text>) {
    && p.wishes.current in origins && p.wishes.desired in origins
    && (p.wishes.persisted.Some? ==> p.wishes.persisted.value in origins)
    && (p.fetched.Some? ==> p.fetched.value in origins)
    && (p.installing.Some? ==> p.installing.value in origins)
  }

  /**
   * Everything comes from the registry or from the start; a wish above the running version is on record, and what is
   * being installed is later than what runs, and on record.
   */
  ghost predicate Sound(p: Peer, origins: set<Text>) {
    && Known(p, origins) && WellKept(p.wishes) && OnRecord(p.wishes)
    && (p.installing.Some? ==> NewerVersion(p.wishes.current, p.installing.value) && p.wishes.persisted == p.installing)
  }

  ghost predicate Inv(y: Net, origins: set<Text>) {
    y.registry in y.history && forall n :: 0 <= n < |y.peers| ==> Sound(y.peers[n], origins + y.history)
  }

  lemma FinishKeepsSound(y: Net, n: nat, origins: set<Text>)
    requires Enabled(y, Finish(n)) && Sound(y.peers[n], origins)
    ensures Sound(After(y, Finish(n)).peers[n], origins)
  {
    ReconcilingFollowsTheRegistry(y.peers[n].wishes, y.peers[n].fetched.value);
    ReconcilingAdvances(y.peers[n].wishes, y.peers[n].fetched.value);
  }

  /** The steps that start a daemon again: with the release it has installed, or as it was. */
  predicate Starts(e: Event, n: nat) { e == Upgrade(n) || e == Restart(n) }

  lemma StartKeepsSound(y: Net, e: Event, n: nat, origins: set<Text>)
    requires Enabled(y, e) && Starts(e, n) && Sound(y.peers[n], origins)
    ensures Sound(After(y, e).peers[n], origins)
  {
    var p := y.peers[n];
    StartsWellKept(if e.Upgrade? then p.installing.value else p.wishes.current, p.wishes.persisted);
  }

  /** All other steps leave wishes alone, install nothing, and fetch nothing but what the registry says. */
  lemma OtherStepsKeepWishes(y: Net, e: Event, n: nat)
    requires Enabled(y, e) && n < |y.peers| && e != Finish(n) && !Starts(e, n)
    ensures var z := After(y, e);
            && n < |z.peers| && z.peers[n].wishes == y.peers[n].wishes
            && (z.peers[n].installing == y.peers[n].installing || z.peers[n].installing == None)
            && (z.peers[n].fetched == y.peers[n].fetched || z.peers[n].fetched in {None, Some(y.registry)})
  {
  }

  lemma HistoryGrows(y: Net, e: Event)
    requires Enabled(y, e) && y.registry in y.history
    ensures y.history <= After(y, e).history && After(y, e).registry in After(y, e).history
    ensures |After(y, e).peers| == |y.peers|
  {
  }

  lemma StepKeepsInv(y: Net, e: Event, origins: set<Text>)
    requires Inv(y, origins) && Enabled(y, e)
    ensures Inv(After(y, e), origins)
  {
    var z := After(y, e);
    HistoryGrows(y, e);
    forall n | 0 <= n < |z.peers| ensures Sound(z.peers[n], origins + z.history) {
      if e == Finish(n) {
        FinishKeepsSound(y, n, origins + y.history);
      } else if Starts(e, n) {
        StartKeepsSound(y, e, n, origins + y.history);
      } else {
        OtherStepsKeepWishes(y, e, n);
      }
    }
  }

  /** What a daemon runs changes only by an upgrade, and then to a later version, which the registry has offered. */
  lemma RunningVersionsAdvance(y: Net, e: Event, origins: set<Text>, n: nat)
    requires Inv(y, origins) && Enabled(y, e) && n < |y.peers|
    ensures var before, z := y.peers[n].wishes.current, After(y, e);
            && n < |z.peers| && z.peers[n].wishes.current in origins + z.history
            && (if e == Upgrade(n) then NewerVersion(before, z.peers[n].wishes.current)
                else z.peers[n].wishes.current == before)
  {
    StepKeepsInv(y, e, origins);
    if e == Finish(n) {
      ReconcilingFollowsTheRegistry(y.peers[n].wishes, y.peers[n].fetched.value);
    } else if !Starts(e, n) {
      OtherStepsKeepWishes(y, e, n);
    }
  }

  ghost predicate Step(y: Net, z: Net) {
    exists e :: Enabled(y, e) && After(y, e) == z
  }

  lemma StepEvent(y: Net, z: Net) returns (e: Event)
    requires Step(y, z)
    ensures Enabled(y, e) && After(y, e) == z
  {
    e :| Enabled(y, e) && After(y, e) == z;
  }

  ghost predicate IsRun(run: seq<Net>, origins: set<Text>) {
    && run != [] && Inv(run[0], origins)
    && forall i, j {:trigger Step(run[i], run[j])} ::
         0 <= i < j < |run| && j == i + 1 ==> Step(run[i], run[j])
  }

  /**
   * Whatever peers announce, forged announcements included, a daemon wants only what its start or the registry offered,
   * and never less than it runs.
   */
  lemma {:induction false} HintsAreNotBelieved(run: seq<Net>, origins: set<Text>, i: nat)
    requires IsRun(run, origins) && i < |run|
    ensures Inv(run[i], origins)
  {
    if i > 0 {
      HintsAreNotBelieved(run, origins, i - 1);
      var e := StepEvent(run[i - 1], run[i]);
      StepKeepsInv(run[i - 1], e, origins);
    }
  }

  /** While a daemon runs, what it wants only advances. */
  lemma WishesAdvance(y: Net, e: Event, origins: set<Text>, n: nat)
    requires Inv(y, origins) && Enabled(y, e) && n < |y.peers| && !Starts(e, n)
    ensures var z := After(y, e);
            && n < |z.peers| && z.peers[n].wishes.current == y.peers[n].wishes.current
            && WellKept(z.peers[n].wishes)
            && !Before(ParseVersion(z.peers[n].wishes.desired).value, ParseVersion(y.peers[n].wishes.desired).value)
            && (z.peers[n].wishes.desired != y.peers[n].wishes.desired ==>
                  e == Finish(n) && Some(z.peers[n].wishes.desired) == y.peers[n].fetched)
  {
    if e == Finish(n) {
      ReconcilingFollowsTheRegistry(y.peers[n].wishes, y.peers[n].fetched.value);
      ReconcilingAdvances(y.peers[n].wishes, y.peers[n].fetched.value);
    } else {
      var desired := ParseVersion(y.peers[n].wishes.desired).value;
      BeforeIsAnOrder(desired, desired, desired);
      assert After(y, e).peers[n].wishes == y.peers[n].wishes;
    }
  }

  /** When it starts again, upgraded or not, it loses the wish exactly when the record lags behind it. */
  lemma RestartLosesWishExactlyWhen(y: Net, e: Event, origins: set<Text>, n: nat)
    requires Inv(y, origins) && Enabled(y, e) && Starts(e, n)
    ensures var before, after := y.peers[n].wishes, After(y, e).peers[n].wishes;
            && WellKept(after) && after.persisted == before.persisted
            && (Before(ParseVersion(after.desired).value, ParseVersion(before.desired).value) <==> RecordLags(before))
  {
    var p := y.peers[n];
    StartKeepsSound(y, e, n, origins + y.history);
    StartingLosesExactlyWhen(p.wishes);
    if e.Upgrade? {
      var current, next := ParseVersion(p.wishes.current).value, ParseVersion(p.installing.value).value;
      BeforeIsAnOrder(current, next, ParseVersion(p.wishes.desired).value);
      BeforeIsAnOrder(next, next, next);
    }
  }

  function Last(run: seq<Net>): Net
    requires run != []
  {
    run[|run| - 1]
  }

  lemma Extend(run: seq<Net>, origins: set<Text>, e: Event) returns (longer: seq<Net>)
    requires IsRun(run, origins) && Enabled(Last(run), e)
    ensures IsRun(longer, origins) && Last(longer) == After(Last(run), e) && longer[0] == run[0]
  {
    longer := run + [After(Last(run), e)];
    assert Step(Last(run), longer[|run|]);
    forall i, j | 0 <= i < j < |longer| && j == i + 1 ensures Step(longer[i], longer[j]) {
      if j < |run| { assert longer[i] == run[i] && longer[j] == run[j]; }
    }
  }

  /** The one daemon of a net without connections. */
  function Alone(registry: Text, history: set<Text>, p: Peer): Net { Net(registry, history, [p], []) }

  /** Looking into a release that cannot be installed leaves a record, and perhaps a wish. */
  lemma LookInto(run: seq<Net>, origins: set<Text>, registry: Text, history: set<Text>, w: Wishes)
    returns (longer: seq<Net>)
    requires IsRun(run, origins) && Last(run) == Alone(registry, history, Peer(w, None, None, 0))
    requires Reconciled(w, registry).1.Install?
    ensures IsRun(longer, origins) && longer[0] == run[0]
    ensures Last(longer) == Alone(registry, history, Peer(Reconciled(w, registry).0, None, None, 0))
  {
    longer := Extend(run, origins, Check(0));
    longer := Extend(longer, origins, Finish(0));
    assert Announce([], 0) == [];
    longer := Extend(longer, origins, FailInstall(0));
  }

  /**
   * For any three versions: while `a` runs, the registry offers `c` and takes it back for `b`, and neither can be
   * installed. Starting again, the daemon no longer wants `c`.
   */
  lemma RestartMayLoseAWish(a: Text, b: Text, c: Text) returns (run: seq<Net>)
    requires NewerVersion(a, b) && NewerVersion(b, c)
    ensures IsRun(run, {a}) && run[0] == Alone(c, {c}, Started(a, None))
    ensures Enabled(Last(run), Restart(0)) && Last(run).peers[0].wishes == Wishes(a, c, Some(b))
    ensures After(Last(run), Restart(0)).peers[0].wishes == Wishes(a, b, Some(b))
  {
    var va, vb, vc := ParseVersion(a).value, ParseVersion(b).value, ParseVersion(c).value;
    BeforeIsAnOrder(va, vb, vc);
    BeforeIsAnOrder(vb, vc, vc);
    run := [Alone(c, {c}, Started(a, None))];
    run := LookInto(run, {a}, c, {c}, Wishes(a, a, None));
    run := Extend(run, {a}, Release(b));
    run := LookInto(run, {a}, b, {c, b}, Wishes(a, c, Some(c)));
  }

  // ---------------------------------------------------------------------------
  // With the registry frozen
  // ---------------------------------------------------------------------------

  /** Steps that neither change the registry nor start a daemon again. */
  predicate Steady(e: Event) { !e.Release? && !e.Upgrade? && !e.Restart? }

  /** Whatever is being looked into is what the registry says now. */
  ghost predicate Fetched(y: Net) {
    forall n :: 0 <= n < |y.peers| && y.peers[n].fetched.Some? ==> y.peers[n].fetched.value == y.registry
  }

  lemma FetchedStays(y: Net, e: Event)
    requires Fetched(y) && Enabled(y, e) && Steady(e)
    ensures Fetched(After(y, e)) && After(y, e).registry == y.registry && |After(y, e).peers| == |y.peers|
  {
  }

  lemma SteadyStep(y: Net, e: Event, origins: set<Text>, n: nat)
    requires Inv(y, origins) && Fetched(y) && Enabled(y, e) && Steady(e) && n < |y.peers|
    ensures var z := After(y, e);
            && Fetched(z) && z.registry == y.registry && |z.peers| == |y.peers|
            && (z.peers[n].wishes.desired == y.peers[n].wishes.desired || z.peers[n].wishes.desired == y.registry)
  {
    FetchedStays(y, e);
    WishesAdvance(y, e, origins, n);
  }

  ghost predicate SteadyNext(y: Net, z: Net) {
    exists e :: Enabled(y, e) && Steady(e) && After(y, e) == z
  }

  ghost predicate SteadyRun(run: seq<Net>, origins: set<Text>) {
    && run != [] && Inv(run[0], origins) && Fetched(run[0])
    && forall i, j {:trigger SteadyNext(run[i], run[j])} ::
         0 <= i < j < |run| && j == i + 1 ==> SteadyNext(run[i], run[j])
  }

  lemma SteadyStepKeeps(y: Net, z: Net, origins: set<Text>, n: nat)
    requires Inv(y, origins) && Fetched(y) && SteadyNext(y, z) && n < |y.peers|
    ensures Inv(z, origins) && Fetched(z) && z.registry == y.registry && |z.peers| == |y.peers|
    ensures z.peers[n].wishes.desired == y.peers[n].wishes.desired || z.peers[n].wishes.desired == y.registry
  {
    var e :| Enabled(y, e) && Steady(e) && After(y, e) == z;
    SteadyStep(y, e, origins, n);
    StepKeepsInv(y, e, origins);
  }

  lemma {:induction false} SteadyRunKeeps(run: seq<Net>, origins: set<Text>, i: nat, n: nat)
    requires SteadyRun(run, origins) && i < |run| && n < |run[0].peers|
    ensures Inv(run[i], origins) && Fetched(run[i]) && run[i].registry == run[0].registry
            && |run[i].peers| == |run[0].peers|
  {
    if i > 0 {
      SteadyRunKeeps(run, origins, i - 1, n);
      SteadyStepKeeps(run[i - 1], run[i], origins, n);
    }
  }

  lemma {:induction false} SettlesOnce(values: seq<Text>, settled: Text, i: nat, j: nat)
    requires i <= j < |values|
    requires forall k, l :: 0 <= k < l < |values| && l == k + 1 ==> values[l] == values[k] || values[l] == settled
    ensures values[j] == values[i] || values[j] == settled
    decreases j - i
  {
    if i < j { SettlesOnce(values, settled, i, j - 1); }
  }

  ghost predicate WishesOf(run: seq<Net>, n: nat, wishes: seq<Text>) {
    |wishes| == |run| && forall i :: 0 <= i < |run| ==>
      n < |run[i].peers| && wishes[i] == run[i].peers[n].wishes.desired
  }

  /** A daemon's wish changes at most once, to what the registry says, and then stays there. */
  lemma WishChangesOnce(run: seq<Net>, origins: set<Text>, n: nat, wishes: seq<Text>, i: nat, j: nat)
    requires SteadyRun(run, origins) && WishesOf(run, n, wishes) && i <= j < |run|
    ensures wishes[j] == wishes[i] || wishes[j] == run[0].registry
  {
    forall k, l | 0 <= k < l < |wishes| && l == k + 1 ensures wishes[l] == wishes[k] || wishes[l] == run[0].registry {
      SteadyRunKeeps(run, origins, k, n);
      SteadyStepKeeps(run[k], run[l], origins, n);
    }
    SettlesOnce(wishes, run[0].registry, i, j);
  }

  // ---------------------------------------------------------------------------
  // Announcements end
  // ---------------------------------------------------------------------------

  /** Steps nobody but the daemons themselves causes. */
  predicate Automatic(e: Event) {
    e.TakeHint? || e.Finish? || e.FailFetch? || e.FailInstall? || e.Subscribe? || e.Send? || e.Deliver?
  }

  /** The registry offers something later than what this daemon wants. */
  predicate Behind(y: Net, p: Peer) { NewerVersion(p.wishes.desired, y.registry) }

  function PeerWork(y: Net, p: Peer): nat {
    (if Behind(y, p) then Times(|y.channels|, 5) + 1 else 0) + 3 * p.hints
    + (if p.fetched.Some? then 2 else 0) + (if p.installing.Some? then 1 else 0)
  }

  function ChannelWork(k: Channel): nat {
    (if k.subscribed then 0 else 1) + (if k.news then 5 else 0) + 4 * |k.wire|
  }

  function PeersWork(y: Net): (r: seq<nat>)
    ensures |r| == |y.peers| && forall n :: 0 <= n < |r| ==> r[n] == PeerWork(y, y.peers[n])
  {
    seq(|y.peers|, n requires 0 <= n < |y.peers| => PeerWork(y, y.peers[n]))
  }

  function ChannelsWork(channels: seq<Channel>): (r: seq<nat>)
    ensures |r| == |channels| && forall c :: 0 <= c < |r| ==> r[c] == ChannelWork(channels[c])
  {
    seq(|channels|, c requires 0 <= c < |channels| => ChannelWork(channels[c]))
  }

  function Work(y: Net): nat { Sum(PeersWork(y)) + Sum(ChannelsWork(y.channels)) }

  lemma PeerMoves(y: Net, z: Net, n: nat)
    requires n < |y.peers| == |z.peers| && z.registry == y.registry && |z.channels| == |y.channels|
    requires z.peers == y.peers[n := z.peers[n]]
    ensures Sum(PeersWork(z)) == Sum(PeersWork(y)) - PeerWork(y, y.peers[n]) + PeerWork(y, z.peers[n])
  {
    SumUpdate(PeersWork(y), PeersWork(z), n);
  }

  lemma ChannelMoves(y: Net, z: Net, c: nat)
    requires c < |y.channels| == |z.channels| && z.channels == y.channels[c := z.channels[c]]
    ensures Sum(ChannelsWork(z.channels))
            == Sum(ChannelsWork(y.channels)) - ChannelWork(y.channels[c]) + ChannelWork(z.channels[c])
  {
    SumUpdate(ChannelsWork(y.channels), ChannelsWork(z.channels), c);
  }

  /** A daemon whose wish changes is behind before, and not any more; looking into a release is work done. */
  lemma FinishCatchesUp(y: Net, origins: set<Text>, n: nat)
    requires Inv(y, origins) && Fetched(y) && Enabled(y, Finish(n))
    ensures var p, q := y.peers[n], AfterFinish(y, n).peers[n];
            && (q.wishes.desired != p.wishes.desired ==> Behind(y, p) && !Behind(y, q))
            && (q.wishes.desired == p.wishes.desired ==> Behind(y, q) == Behind(y, p))
            && q.hints == p.hints && q.fetched.None? && p.installing.None?
  {
    var p := y.peers[n];
    ReconcilingFollowsTheRegistry(p.wishes, y.registry);
    if Behind(y, p) {
      var latest := ParseVersion(y.registry).value;
      BeforeIsAnOrder(latest, latest, latest);
    }
  }

  lemma AnnouncingCosts(channels: seq<Channel>, n: nat)
    ensures Sum(ChannelsWork(Announce(channels, n))) <= Sum(ChannelsWork(channels)) + Times(|channels|, 5)
  {
    SumBound(ChannelsWork(channels), ChannelsWork(Announce(channels, n)), 5);
  }

  lemma FinishIsProgress(y: Net, origins: set<Text>, n: nat)
    requires Inv(y, origins) && Fetched(y) && Enabled(y, Finish(n))
    ensures Work(After(y, Finish(n))) < Work(y)
  {
    FinishCatchesUp(y, origins, n);
    PeerMoves(y, AfterFinish(y, n), n);
    AnnouncingCosts(y.channels, n);
  }

  lemma PeersWorkStays(y: Net, z: Net)
    requires z.peers == y.peers && z.registry == y.registry && |z.channels| == |y.channels|
    ensures PeersWork(z) == PeersWork(y)
  {
  }

  lemma SubscribeIsProgress(y: Net, c: nat)
    requires Enabled(y, Subscribe(c))
    ensures Work(After(y, Subscribe(c))) < Work(y)
  {
    var z := After(y, Subscribe(c));
    ChannelMoves(y, z, c);
    PeersWorkStays(y, z);
  }

  lemma SendIsProgress(y: Net, c: nat)
    requires Enabled(y, Send(c))
    ensures Work(After(y, Send(c))) < Work(y)
  {
    var z := After(y, Send(c));
    ChannelMoves(y, z, c);
    PeersWorkStays(y, z);
  }

  lemma DeliverIsProgress(y: Net, c: nat)
    requires Enabled(y, Deliver(c))
    ensures Work(After(y, Deliver(c))) < Work(y)
  {
    var z, to := AfterDeliver(y, c), y.channels[c].to;
    ChannelMoves(y, z, c);
    PeerMoves(y, z, to);
    assert z.peers[to].wishes == y.peers[to].wishes;
  }

  lemma AutomaticStepIsProgress(y: Net, e: Event, origins: set<Text>)
    requires Inv(y, origins) && Fetched(y) && Enabled(y, e) && Automatic(e)
    ensures Work(After(y, e)) < Work(y)
  {
    match e
    case Finish(n) => FinishIsProgress(y, origins, n);
    case TakeHint(n) => PeerMoves(y, After(y, e), n);
    case FailFetch(n) => PeerMoves(y, After(y, e), n);
    case FailInstall(n) => PeerMoves(y, After(y, e), n);
    case Subscribe(c) => SubscribeIsProgress(y, c);
    case Send(c) => SendIsProgress(y, c);
    case Deliver(c) => DeliverIsProgress(y, c);
  }

  ghost predicate AutomaticNext(y: Net, z: Net) {
    exists e :: Enabled(y, e) && Automatic(e) && After(y, e) == z
  }

  ghost predicate AutomaticRun(run: seq<Net>, origins: set<Text>) {
    && run != [] && Inv(run[0], origins) && Fetched(run[0])
    && forall i, j {:trigger AutomaticNext(run[i], run[j])} ::
         0 <= i < j < |run| && j == i + 1 ==> AutomaticNext(run[i], run[j])
  }

  lemma AutomaticNextIsProgress(y: Net, z: Net, origins: set<Text>)
    requires Inv(y, origins) && Fetched(y) && AutomaticNext(y, z)
    ensures Inv(z, origins) && Fetched(z) && Work(z) < Work(y)
  {
    var e :| Enabled(y, e) && Automatic(e) && After(y, e) == z;
    AutomaticStepIsProgress(y, e, origins);
    StepKeepsInv(y, e, origins);
    FetchedStays(y, e);
  }

  lemma {:induction false} AutomaticRunKeeps(run: seq<Net>, origins: set<Text>, i: nat)
    requires AutomaticRun(run, origins) && i < |run|
    ensures Inv(run[i], origins) && Fetched(run[i])
  {
    if i > 0 {
      AutomaticRunKeeps(run, origins, i - 1);
      AutomaticNextIsProgress(run[i - 1], run[i], origins);
    }
  }

  lemma AutomaticRunProgresses(run: seq<Net>, origins: set<Text>, k: nat, l: nat)
    requires AutomaticRun(run, origins) && k < l < |run| && l == k + 1
    ensures Work(run[l]) < Work(run[k])
  {
    AutomaticRunKeeps(run, origins, k);
    AutomaticNextIsProgress(run[k], run[l], origins);
  }

  lemma {:induction false} CountsDown(work: seq<nat>, i: nat)
    requires i < |work| && forall k, l :: 0 <= k < l < |work| && l == k + 1 ==> work[l] < work[k]
    ensures work[i] + i <= work[0]
  {
    if i > 0 { CountsDown(work, i - 1); }
  }

  /** Between their own checks, daemons come to rest: no run of automatic steps is longer than the work at its start. */
  lemma HintsAreWorkedOff(run: seq<Net>, origins: set<Text>, i: nat)
    requires AutomaticRun(run, origins) && i < |run|
    ensures Work(run[i]) + i <= Work(run[0])
  {
    var work := seq(|run|, k requires 0 <= k < |run| => Work(run[k]));
    forall k, l | 0 <= k < l < |work| && l == k + 1 ensures work[l] < work[k] {
      AutomaticRunProgresses(run, origins, k, l);
    }
    CountsDown(work, i);
  }

  // ---------------------------------------------------------------------------
  // Announcements end, however often daemons check
  // ---------------------------------------------------------------------------

  /** Steps of daemons left to themselves, their scheduled checks included, in a world that does not change. */
  predicate Unprompted(e: Event) { Steady(e) && !e.Notify? && !e.Forge? }

  function NewsOf(k: Channel): nat { if k.news then 1 else 0 }

  function News(channels: seq<Channel>): (r: seq<nat>)
    ensures |r| == |channels| && forall c :: 0 <= c < |r| ==> r[c] == NewsOf(channels[c])
  {
    seq(|channels|, c requires 0 <= c < |channels| => NewsOf(channels[c]))
  }

  /** The connections of a daemon. */
  function Own(channels: seq<Channel>, n: nat): nat {
    if channels == [] then 0
    else Own(channels[..|channels| - 1], n) + if channels[|channels| - 1].from == n then 1 else 0
  }

  lemma {:induction false} OwnStays(a: seq<Channel>, b: seq<Channel>, n: nat)
    requires |a| == |b| && forall c :: 0 <= c < |a| ==> b[c].from == a[c].from
    ensures Own(b, n) == Own(a, n)
  {
    if a != [] { OwnStays(a[..|a| - 1], b[..|b| - 1], n); }
  }

  /** A daemon that is behind will announce once more on each of its connections. */
  function Due(y: Net, n: nat): nat
    requires n < |y.peers|
  {
    if Behind(y, y.peers[n]) then Own(y.channels, n) else 0
  }

  function Dues(y: Net): (r: seq<nat>)
    ensures |r| == |y.peers| && forall n :: 0 <= n < |r| ==> r[n] == Due(y, n)
  {
    seq(|y.peers|, n requires 0 <= n < |y.peers| => Due(y, n))
  }

  /** The announcements still to come. */
  function ToAnnounce(y: Net): nat { Sum(Dues(y)) + Sum(News(y.channels)) }

  ghost predicate SameEnds(y: Net, z: Net) {
    && |z.channels| == |y.channels|
    && forall c :: 0 <= c < |y.channels| ==> z.channels[c].from == y.channels[c].from
  }

  lemma DueMoves(y: Net, z: Net, n: nat)
    requires n < |y.peers| == |z.peers| && z.registry == y.registry && SameEnds(y, z)
    requires z.peers == y.peers[n := z.peers[n]]
    ensures Sum(Dues(z)) - Due(z, n) == Sum(Dues(y)) - Due(y, n)
  {
    forall m | 0 <= m < |y.peers| && m != n ensures Dues(z)[m] == Dues(y)[m] {
      OwnStays(y.channels, z.channels, m);
    }
    SumUpdate(Dues(y), Dues(z), n);
  }

  /** What changes no wish changes no dues. */
  lemma DuesStay(y: Net, z: Net)
    requires |z.peers| == |y.peers| && z.registry == y.registry && SameEnds(y, z)
    requires forall n :: 0 <= n < |y.peers| ==> z.peers[n].wishes.desired == y.peers[n].wishes.desired
    ensures Dues(z) == Dues(y)
  {
    forall n | 0 <= n < |y.peers| ensures Dues(z)[n] == Dues(y)[n] {
      OwnStays(y.channels, z.channels, n);
    }
  }

  lemma NewsMoves(y: Net, z: Net, c: nat)
    requires c < |y.channels| == |z.channels| && z.channels == y.channels[c := z.channels[c]]
    ensures Sum(News(z.channels)) == Sum(News(y.channels)) - NewsOf(y.channels[c]) + NewsOf(z.channels[c])
  {
    SumUpdate(News(y.channels), News(z.channels), c);
  }

  lemma {:induction false} AnnouncingIsNews(channels: seq<Channel>, n: nat)
    ensures Sum(News(Announce(channels, n))) <= Sum(News(channels)) + Own(channels, n)
  {
    if channels != [] {
      var last := |channels| - 1;
      var r := Announce(channels, n);
      AnnouncingIsNews(channels[..last], n);
      assert r[..last] == Announce(channels[..last], n);
      assert News(r)[..last] == News(r[..last]) && News(channels)[..last] == News(channels[..last]);
    }
  }

  lemma FinishAnnounces(y: Net, origins: set<Text>, n: nat)
    requires Inv(y, origins) && Fetched(y) && Enabled(y, Finish(n))
    ensures ToAnnounce(After(y, Finish(n))) <= ToAnnounce(y)
  {
    var z := AfterFinish(y, n);
    FinishCatchesUp(y, origins, n);
    DueMoves(y, z, n);
    OwnStays(y.channels, z.channels, n);
    AnnouncingIsNews(y.channels, n);
  }

  /** Only finishing a reconciliation touches a wish. */
  lemma UnpromptedStep(y: Net, e: Event, origins: set<Text>)
    requires Inv(y, origins) && Fetched(y) && Enabled(y, e) && Unprompted(e)
    ensures ToAnnounce(After(y, e)) + (if e.Send? then 1 else 0) <= ToAnnounce(y)
  {
    if e.Finish? {
      FinishAnnounces(y, origins, e.n);
    } else {
      DuesStay(y, After(y, e));
      if e.Subscribe? || e.Send? || e.Deliver? { NewsMoves(y, After(y, e), e.c); }
    }
  }

  ghost predicate UnpromptedNext(y: Net, e: Event, z: Net) { Unprompted(e) && Enabled(y, e) && z == After(y, e) }

  /** A run of such steps, with the steps between its states. */
  ghost predicate UnpromptedRun(run: seq<Net>, events: seq<Event>, origins: set<Text>) {
    && |run| == |events| + 1 && Inv(run[0], origins) && Fetched(run[0])
    && forall k, l {:trigger UnpromptedNext(run[k], events[k], run[l])} ::
         0 <= k < l < |run| && l == k + 1 ==> UnpromptedNext(run[k], events[k], run[l])
  }

  function Sends(events: seq<Event>): nat {
    if events == [] then 0
    else Sends(events[..|events| - 1]) + if events[|events| - 1].Send? then 1 else 0
  }

  lemma UnpromptedNextKeeps(y: Net, e: Event, z: Net, origins: set<Text>)
    requires Inv(y, origins) && Fetched(y) && UnpromptedNext(y, e, z)
    ensures Inv(z, origins) && Fetched(z) && ToAnnounce(z) + (if e.Send? then 1 else 0) <= ToAnnounce(y)
  {
    StepKeepsInv(y, e, origins);
    UnpromptedStep(y, e, origins);
    FetchedStays(y, e);
  }

  lemma {:induction false} UnpromptedRunKeeps(run: seq<Net>, events: seq<Event>, origins: set<Text>, i: nat)
    requires UnpromptedRun(run, events, origins) && i < |run|
    ensures Inv(run[i], origins) && Fetched(run[i])
  {
    if i > 0 {
      UnpromptedRunKeeps(run, events, origins, i - 1);
      UnpromptedNextKeeps(run[i - 1], events[i - 1], run[i], origins);
    }
  }

  lemma SendIsCounted(run: seq<Net>, events: seq<Event>, origins: set<Text>, k: nat, l: nat)
    requires UnpromptedRun(run, events, origins) && k < l < |run| && l == k + 1
    ensures ToAnnounce(run[l]) + (if events[k].Send? then 1 else 0) <= ToAnnounce(run[k])
  {
    UnpromptedRunKeeps(run, events, origins, k);
    UnpromptedNextKeeps(run[k], events[k], run[l], origins);
  }

  lemma {:induction false} SendsAreBounded(events: seq<Event>, work: seq<nat>, i: nat)
    requires |work| == |events| + 1 && i < |work|
    requires forall k, l :: 0 <= k < l < |work| && l == k + 1 ==>
             work[l] + (if events[k].Send? then 1 else 0) <= work[k]
    ensures Sends(events[..i]) + work[i] <= work[0]
  {
    if i > 0 {
      SendsAreBounded(events, work, i - 1);
      assert events[..i][..i - 1] == events[..i - 1];
    }
  }

  /**
   * Left to themselves, daemons stop announcing: however long they go on checking, only so many announcements are ever
   * sent, each daemon that is behind accounting for at most one on each of its connections.
   */
  lemma AnnouncementsEnd(run: seq<Net>, events: seq<Event>, origins: set<Text>, i: nat)
    requires UnpromptedRun(run, events, origins) && i < |run|
    ensures Sends(events[..i]) + ToAnnounce(run[i]) <= ToAnnounce(run[0])
  {
    var work := seq(|run|, k requires 0 <= k < |run| => ToAnnounce(run[k]));
    forall k, l | 0 <= k < l < |work| && l == k + 1 ensures work[l] + (if events[k].Send? then 1 else 0) <= work[k] {
      SendIsCounted(run, events, origins, k, l);
    }
    SendsAreBounded(events, work, i);
  }
}

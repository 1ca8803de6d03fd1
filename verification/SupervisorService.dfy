/** What starts and restarts bring about: while the service stays enabled, a daemon runs in the end. */
module SupervisorService {
  import opened Wrappers
  import opened Supervisor
  import opened SupervisorSafety
  import opened SupervisorProgress
  import opened Sums

  // ---------------------------------------------------------------------------
  // Runs in which nobody stops the service
  // ---------------------------------------------------------------------------

  /** A supervisor is terminated, cannot spawn a daemon, or takes the order of a stop. */
  predicate Disturbs(y: System, e: Event) {
    e.Terminate? || e.SpawnFails? ||
      (e.Serve? && e.c < |y.clients| && y.clients[e.c].at.Waiting? && y.clients[e.c].at.purpose.Order? &&
        y.clients[e.c].kind.Stop?)
  }

  /** A step of an enabled service, which daemons may die in, and which leaves it enabled. */
  ghost predicate CalmStep(y: System, e: Event, z: System) {
    Enabled(y, e) && !Disturbs(y, e) && z == After(y, e) && y.enabled && z.enabled
  }

  /** A calm stretch of a run, with the steps between its states. */
  ghost predicate Calm(stretch: seq<System>, events: seq<Event>) {
    && |stretch| == |events| + 1 && Inv(stretch[0])
    && forall k, l {:trigger CalmStep(stretch[k], events[k], stretch[l])} ::
         0 <= k < l < |stretch| && l == k + 1 ==> CalmStep(stretch[k], events[k], stretch[l])
  }

  lemma NextIsCalm(stretch: seq<System>, events: seq<Event>, k: nat, l: nat)
    requires Calm(stretch, events) && k < l < |stretch| && l == k + 1
    ensures CalmStep(stretch[k], events[k], stretch[l])
  {
  }

  lemma CalmStepKeepsInv(y: System, e: Event, z: System)
    requires Inv(y) && CalmStep(y, e, z)
    ensures Inv(z)
  {
    ExclusiveHolds(y, e);
    OwnedHolds(y, e);
    StopsHoldStep(y, e);
  }

  // ---------------------------------------------------------------------------
  // A supervisor that serves
  // ---------------------------------------------------------------------------

  /** On its way to a running daemon, or watching one. */
  predicate Serving(t: Stage) {
    t.Locked? || t.Cleared? || t.Listening? || t.Decided? || t.Running? || (t.Stopping? && t.restart)
  }

  lemma ServingStays(y: System, e: Event, z: System, s: nat)
    requires Inv(y) && CalmStep(y, e, z) && s < |y.sups| && Serving(y.sups[s])
    ensures s < |z.sups| && Serving(z.sups[s])
  {
  }

  /** The supervisor serves, and the daemon it watches, if any, was spawned after the first `first`. */
  predicate ServesNewly(y: System, s: nat, first: nat) {
    s < |y.sups| && Serving(y.sups[s]) && first <= y.spawned && (y.sups[s].Running? ==> first <= y.sups[s].pid)
  }

  lemma ServesNewlyStays(y: System, e: Event, z: System, s: nat, first: nat)
    requires Inv(y) && CalmStep(y, e, z) && ServesNewly(y, s, first)
    ensures ServesNewly(z, s, first)
  {
    ServingStays(y, e, z, s);
  }

  lemma {:induction false} KeepsServing(stretch: seq<System>, events: seq<Event>, s: nat, first: nat, j: nat)
    requires Calm(stretch, events) && ServesNewly(stretch[0], s, first) && j < |stretch|
    ensures Inv(stretch[j]) && ServesNewly(stretch[j], s, first)
  {
    if j > 0 {
      KeepsServing(stretch, events, s, first, j - 1);
      NextIsCalm(stretch, events, j - 1, j);
      CalmStepKeepsInv(stretch[j - 1], events[j - 1], stretch[j]);
      ServesNewlyStays(stretch[j - 1], events[j - 1], stretch[j], s, first);
    }
  }

  lemma ServingAtRestRuns(y: System, s: nat)
    requires AtRest(y) && s < |y.sups| && Serving(y.sups[s])
    ensures y.sups[s].Running? && y.sups[s].pid in y.alive
  {
    SupervisorCanMove(y, s);
  }

  // ---------------------------------------------------------------------------
  // Restarts
  // ---------------------------------------------------------------------------

  lemma OpenHoldsLock(y: System, s: nat)
    requires Inv(y) && s < |y.sups| && Open(y.sups[s])
    ensures y.lock == Some(s) && y.socket == Of(s)
  {
    assert HasLock(y.sups[s]) && Bound(y.sups[s]);
  }

  lemma {:induction false} KeepsOpen(stretch: seq<System>, events: seq<Event>, s: nat, first: nat, j: nat)
    requires Calm(stretch, events) && ServesNewly(stretch[0], s, first) && Open(stretch[0].sups[s]) && j < |stretch|
    ensures Inv(stretch[j]) && ServesNewly(stretch[j], s, first) && Open(stretch[j].sups[s])
    ensures stretch[j].lock == Some(s) && stretch[j].socket == Of(s)
  {
    KeepsServing(stretch, events, s, first, j);
    if j > 0 {
      KeepsOpen(stretch, events, s, first, j - 1);
      NextIsCalm(stretch, events, j - 1, j);
      OpenStays(stretch[j - 1], events[j - 1], stretch[j], s);
    }
    OpenHoldsLock(stretch[j], s);
  }

  lemma OpenStays(y: System, e: Event, z: System, s: nat)
    requires Inv(y) && CalmStep(y, e, z) && s < |y.sups| && Open(y.sups[s]) && Serving(y.sups[s])
    ensures s < |z.sups| && Open(z.sups[s])
  {
  }

  /**
   * An acknowledged restart restarts: unless the service is stopped, disabled or disturbed afterwards, its supervisor
   * stays open, and as soon as nothing more is due it watches a living daemon that has been spawned since.
   */
  lemma AcknowledgedRestartCompletes(y: System, c: nat, stretch: seq<System>, events: seq<Event>, j: nat)
    requires Inv(y) && Enabled(y, Serve(c)) && y.clients[c].kind.Restart? && y.clients[c].at.purpose.Order?
    requires Calm(stretch, events) && stretch[0] == After(y, Serve(c)) && j < |stretch|
    ensures var s, z := y.clients[c].at.on, stretch[j];
            && s < |z.sups| && Open(z.sups[s]) && z.lock == Some(s) && z.socket == Of(s)
            && (AtRest(z) ==> z.sups[s].Running? && z.sups[s].pid >= y.spawned && z.sups[s].pid in z.alive)
  {
    var s := y.clients[c].at.on;
    KeepsOpen(stretch, events, s, y.spawned, j);
    if AtRest(stretch[j]) { ServingAtRestRuns(stretch[j], s); }
  }

  // ---------------------------------------------------------------------------
  // Starts
  // ---------------------------------------------------------------------------

  /** A client that, finding nobody, is going to launch a supervisor. */
  predicate WillLaunch(client: Client) {
    !client.kind.Stop? &&
      (client.at.Ready? || client.at.Launching? ||
        ((client.at.Asking? || client.at.Waiting?) && (client.at.purpose.Probe? || client.at.purpose.Recheck?)))
  }

  /** Somebody serves; or nobody holds the lock, and somebody is going to. */
  ghost predicate ComingUp(y: System) {
    || (exists s :: 0 <= s < |y.sups| && Serving(y.sups[s]))
    || (y.lock.None? && (|| (exists s :: 0 <= s < |y.sups| && y.sups[s].Started?)
                         || (exists c :: 0 <= c < |y.clients| && WillLaunch(y.clients[c]))))
  }

  lemma ComingUpStays(y: System, e: Event, z: System)
    requires Inv(y) && CalmStep(y, e, z) && ComingUp(y)
    ensures ComingUp(z)
  {
    if s :| 0 <= s < |y.sups| && Serving(y.sups[s]) {
      ServingStays(y, e, z, s);
    } else if s :| 0 <= s < |y.sups| && y.sups[s].Started? {
      StartedStays(y, e, z, s);
    } else {
      var c :| 0 <= c < |y.clients| && WillLaunch(y.clients[c]);
      WillLaunchStays(y, e, z, c);
    }
  }

  lemma StartedStays(y: System, e: Event, z: System, s: nat)
    requires Inv(y) && CalmStep(y, e, z) && y.lock.None? && s < |y.sups| && y.sups[s].Started?
    ensures ComingUp(z)
  {
    assert s < |z.sups|;
    if e.TryLock? { assert z.sups[e.s].Locked?; } else { assert z.sups[s].Started? && z.lock.None?; }
  }

  /** Without a lock holder nobody listens, so every request fails. */
  lemma WillLaunchStays(y: System, e: Event, z: System, c: nat)
    requires Inv(y) && CalmStep(y, e, z) && y.lock.None? && c < |y.clients| && WillLaunch(y.clients[c])
    ensures ComingUp(z)
  {
    assert forall s: nat :: s < |y.sups| ==> !HasLock(y.sups[s]);
    if e.TryLock? {
      assert z.sups[e.s].Locked?;
    } else if e == Launch(c) {
      assert z.sups[|y.sups|].Started?;
    } else {
      assert c < |z.clients| && WillLaunch(z.clients[c]) && z.lock.None?;
    }
  }

  lemma {:induction false} KeepsComingUp(stretch: seq<System>, events: seq<Event>, j: nat)
    requires Calm(stretch, events) && ComingUp(stretch[0]) && j < |stretch|
    ensures Inv(stretch[j]) && ComingUp(stretch[j])
  {
    if j > 0 {
      KeepsComingUp(stretch, events, j - 1);
      NextIsCalm(stretch, events, j - 1, j);
      CalmStepKeepsInv(stretch[j - 1], events[j - 1], stretch[j]);
      ComingUpStays(stretch[j - 1], events[j - 1], stretch[j]);
    }
  }

  lemma ComingUpAtRestRuns(y: System)
    requires Inv(y) && ComingUp(y) && AtRest(y)
    ensures y.alive != map[]
  {
    if s :| 0 <= s < |y.sups| && Serving(y.sups[s]) {
      ServingAtRestRuns(y, s);
    } else {
      forall s: nat | s < |y.sups| ensures !y.sups[s].Started? { SupervisorCanMove(y, s); }
      var c :| 0 <= c < |y.clients| && WillLaunch(y.clients[c]);
      ClientCanMove(y, c);
    }
  }

  /**
   * Where no supervisor is left, a start, a restart or a bridge brings the service up: a daemon is alive as soon as
   * nothing more is due.
   */
  lemma StartBringsUp(stretch: seq<System>, events: seq<Event>, c: nat, j: nat)
    requires Calm(stretch, events) && j < |stretch| && AtRest(stretch[j])
    requires stretch[0].lock.None? && c < |stretch[0].clients| && !stretch[0].clients[c].kind.Stop?
    requires stretch[0].clients[c].at.Ready? || stretch[0].clients[c].at == Asking(Recheck)
    ensures stretch[j].alive != map[]
  {
    assert WillLaunch(stretch[0].clients[c]);
    KeepsComingUp(stretch, events, j);
    ComingUpAtRestRuns(stretch[j]);
  }

  // ---------------------------------------------------------------------------
  // Good answers
  // ---------------------------------------------------------------------------

  ghost predicate SomebodyServes(y: System) { exists s :: 0 <= s < |y.sups| && Serving(y.sups[s]) }

  lemma GoodAnswerComesFromAServer(y: System, e: Event, z: System, c: nat)
    requires Inv(y) && CalmStep(y, e, z) && c < |y.clients| && !y.clients[c].kind.Stop?
    requires y.clients[c].at == Done(true) ==> SomebodyServes(y)
    ensures c < |z.clients| && z.clients[c].kind == y.clients[c].kind
    ensures z.clients[c].at == Done(true) ==> SomebodyServes(z)
  {
    if y.clients[c].at == Done(true) {
      var s :| 0 <= s < |y.sups| && Serving(y.sups[s]);
      ServingStays(y, e, z, s);
    } else if z.clients[c].at == Done(true) {
      assert e == Serve(c);
      assert Serving(z.sups[y.clients[c].at.on]);
    }
  }

  lemma {:induction false} KeepsGoodAnswer(stretch: seq<System>, events: seq<Event>, c: nat, j: nat)
    requires Calm(stretch, events) && j < |stretch| && c < |stretch[0].clients| && !stretch[0].clients[c].kind.Stop?
    requires !stretch[0].clients[c].at.Done?
    ensures Inv(stretch[j]) && c < |stretch[j].clients| && !stretch[j].clients[c].kind.Stop?
    ensures stretch[j].clients[c].at == Done(true) ==> SomebodyServes(stretch[j])
  {
    if j > 0 {
      KeepsGoodAnswer(stretch, events, c, j - 1);
      NextIsCalm(stretch, events, j - 1, j);
      CalmStepKeepsInv(stretch[j - 1], events[j - 1], stretch[j]);
      GoodAnswerComesFromAServer(stretch[j - 1], events[j - 1], stretch[j], c);
    }
  }

  /** A start, a restart or a bridge that returns Ok leaves a daemon alive once nothing more is due. */
  lemma OkMeansUp(stretch: seq<System>, events: seq<Event>, c: nat, j: nat)
    requires Calm(stretch, events) && j < |stretch| && AtRest(stretch[j])
    requires c < |stretch[0].clients| && !stretch[0].clients[c].kind.Stop? && !stretch[0].clients[c].at.Done?
    requires c < |stretch[j].clients| && stretch[j].clients[c].at == Done(true)
    ensures stretch[j].alive != map[]
  {
    KeepsGoodAnswer(stretch, events, c, j);
    var s :| 0 <= s < |stretch[j].sups| && Serving(stretch[j].sups[s]);
    ServingAtRestRuns(stretch[j], s);
  }

  // ---------------------------------------------------------------------------
  // Calm stretches end
  // ---------------------------------------------------------------------------

  /** The steps a supervisor has left before it watches a living daemon or has gone. */
  function StagesLeft(t: Stage, alive: map<nat, nat>): nat {
    match t
    case Exited => 0
    case Unlinked => 1
    case Closing => 2
    case Running(pid) => if pid in alive then 0 else 4
    case Decided => 1
    case Listening => 2
    case Stopping(_, _) => 3
    case Cleared => 3
    case Locked => 4
    case Started => 5
  }

  function StagesLeftOf(sups: seq<Stage>, alive: map<nat, nat>): (r: seq<nat>)
    ensures |r| == |sups| && forall s :: 0 <= s < |r| ==> r[s] == StagesLeft(sups[s], alive)
  {
    seq(|sups|, s requires 0 <= s < |sups| => StagesLeft(sups[s], alive))
  }

  function StepsAhead(y: System): nat {
    Sum(StagesLeftOf(y.sups, y.alive)) + Sum(ClientsSteps(y.clients))
  }

  /** Only the supervisor whose step it is gets further or back. */
  lemma StagesMove(y: System, z: System, s: nat)
    requires s < |y.sups| == |z.sups| && z.sups == y.sups[s := z.sups[s]]
    requires forall k: nat :: k < |y.sups| && k != s ==>
               StagesLeft(y.sups[k], z.alive) == StagesLeft(y.sups[k], y.alive)
    ensures Sum(StagesLeftOf(z.sups, z.alive)) ==
            Sum(StagesLeftOf(y.sups, y.alive)) - StagesLeft(y.sups[s], y.alive) + StagesLeft(z.sups[s], z.alive)
  {
    SumUpdate(StagesLeftOf(y.sups, y.alive), StagesLeftOf(z.sups, z.alive), s);
  }

  lemma SupervisorGetsOn(y: System, e: Event, z: System)
    requires Inv(y) && CalmStep(y, e, z) && !OfClient(e) && !e.Die?
    ensures var s := Mover(e);
            && s < |y.sups| == |z.sups| && z.sups == y.sups[s := z.sups[s]] && z.clients == y.clients
            && StagesLeft(z.sups[s], z.alive) < StagesLeft(y.sups[s], y.alive)
            && forall k: nat :: k < |y.sups| && k != s ==>
                 StagesLeft(y.sups[k], z.alive) == StagesLeft(y.sups[k], y.alive)
  {
    if e.Reap? {
      forall k: nat | k < |y.sups| && k != e.s ensures !y.sups[k].Running? {
        assert HasLock(y.sups[e.s]);
      }
    }
  }

  lemma ClientGetsOn(y: System, e: Event, z: System)
    requires Inv(y) && CalmStep(y, e, z) && OfClient(e) && !e.Arrive?
    ensures StepsAhead(z) < StepsAhead(y)
  {
    var c := Mover(e);
    ClientAdvances(y, e);
    ClientMoves(y.clients, c, z.clients[c]);
    if e.Serve? {
      StagesMove(y, z, y.clients[c].at.on);
    } else {
      ClientStepsKeepSupervisors(y, e);
      if e.Launch? { StageJoins(y.sups, y.alive); }
    }
  }

  lemma StageJoins(sups: seq<Stage>, alive: map<nat, nat>)
    ensures Sum(StagesLeftOf(sups + [Started], alive)) == Sum(StagesLeftOf(sups, alive)) + 5
  {
    assert StagesLeftOf(sups + [Started], alive) == StagesLeftOf(sups, alive) + [5];
    SumAppend(StagesLeftOf(sups, alive), 5);
  }

  lemma CalmStepIsProgress(y: System, e: Event, z: System)
    requires Inv(y) && CalmStep(y, e, z) && !e.Arrive? && !e.Die?
    ensures StepsAhead(z) < StepsAhead(y)
  {
    if OfClient(e) {
      ClientGetsOn(y, e, z);
    } else {
      SupervisorGetsOn(y, e, z);
      StagesMove(y, z, Mover(e));
    }
  }

  lemma CalmStepCounts(y: System, e: Event, z: System)
    requires Inv(y) && CalmStep(y, e, z) && !e.Arrive? && !e.Die?
    ensures Inv(z) && StepsAhead(z) < StepsAhead(y)
  {
    CalmStepKeepsInv(y, e, z);
    CalmStepIsProgress(y, e, z);
  }

  /** Without newcomers and crashes every step counts, so rest is reached within `StepsAhead` steps. */
  lemma {:induction false} CalmStretchesEnd(stretch: seq<System>, events: seq<Event>, j: nat)
    requires Calm(stretch, events) && j < |stretch|
    requires forall k :: 0 <= k < j ==> !events[k].Arrive? && !events[k].Die?
    ensures Inv(stretch[j]) && StepsAhead(stretch[j]) + j <= StepsAhead(stretch[0])
  {
    if j > 0 {
      CalmStretchesEnd(stretch, events, j - 1);
      NextIsCalm(stretch, events, j - 1, j);
      CalmStepCounts(stretch[j - 1], events[j - 1], stretch[j]);
    }
  }
}

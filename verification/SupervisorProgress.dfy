/** What a stop sets in motion: once the flag is down, everything comes to rest within a bounded number of steps. */
module SupervisorProgress {
  import opened Supervisor
  import opened SupervisorSafety
  import opened Sums

  // ---------------------------------------------------------------------------
  // A measure
  // ---------------------------------------------------------------------------

  /** The steps a supervisor and its daemon have left when it reads the flag as down. */
  function StageSteps(t: Stage): nat {
    match t
    case Exited => 0
    case Unlinked => 1
    case Closing => 2
    case Listening => 3
    case Stopping(_, _) => 4
    case Running(_) => 5
    case Decided => 7
    case Cleared => 8
    case Locked => 9
    case Started => 10
  }

  function PollSteps(round: nat): nat { if round < ROUNDS then 2 * (ROUNDS - round) else 2 }

  /** The requests a client has left, each asked and answered; a launch brings a supervisor. */
  function PurposeSteps(purpose: Purpose): nat {
    match purpose
    case Poll(round) => PollSteps(round)
    case Order => PollSteps(0) + 2
    case Recheck => PollSteps(0) + 14
    case Probe => PollSteps(0) + 16
  }

  function ClientSteps(at: Point): nat {
    match at
    case Done(_) => 0
    case Asking(purpose) => PurposeSteps(purpose)
    case Waiting(purpose, _) => PurposeSteps(purpose) - 1
    case Launching => PollSteps(0) + 11
    case Ready => PollSteps(0) + 17
  }

  function SupervisorsSteps(sups: seq<Stage>): seq<nat> {
    seq(|sups|, i requires 0 <= i < |sups| => StageSteps(sups[i]))
  }

  function ClientsSteps(clients: seq<Client>): seq<nat> {
    seq(|clients|, i requires 0 <= i < |clients| => ClientSteps(clients[i].at))
  }

  function StepsLeft(y: System): nat {
    Sum(SupervisorsSteps(y.sups)) + Sum(ClientsSteps(y.clients)) + |y.alive|
  }

  lemma SupervisorMoves(sups: seq<Stage>, s: nat, t: Stage)
    requires s < |sups|
    ensures Sum(SupervisorsSteps(sups[s := t])) == Sum(SupervisorsSteps(sups)) - StageSteps(sups[s]) + StageSteps(t)
  {
    SumUpdate(SupervisorsSteps(sups), SupervisorsSteps(sups[s := t]), s);
  }

  lemma ClientMoves(clients: seq<Client>, c: nat, client: Client)
    requires c < |clients|
    ensures Sum(ClientsSteps(clients[c := client]))
            == Sum(ClientsSteps(clients)) - ClientSteps(clients[c].at) + ClientSteps(client.at)
  {
    SumUpdate(ClientsSteps(clients), ClientsSteps(clients[c := client]), c);
  }

  lemma SupervisorJoins(sups: seq<Stage>, t: Stage)
    ensures Sum(SupervisorsSteps(sups + [t])) == Sum(SupervisorsSteps(sups)) + StageSteps(t)
  {
    assert SupervisorsSteps(sups + [t]) == SupervisorsSteps(sups) + [StageSteps(t)];
    SumAppend(SupervisorsSteps(sups), StageSteps(t));
  }

  /** Every answer, good or bad, leaves a client with less to do. */
  lemma AnswersAdvance(kind: Kind, purpose: Purpose, ok: bool)
    ensures ClientSteps(Next(kind, purpose, ok)) < PurposeSteps(purpose) - 1
  {
  }

  /** The client or the supervisor whose step it is. */
  function Mover(e: Event): nat {
    match e
    case Arrive(_) => 0
    case Die(pid) => pid
    case ReadEnabled(k) => k
    case Write(k) => k
    case Connect(k) => k
    case Serve(k) => k
    case Drop(k) => k
    case Overlook(k) => k
    case GiveUp(k) => k
    case Launch(k) => k
    case TryLock(k) => k
    case RemoveStale(k) => k
    case Bind(k) => k
    case ReadSettings(k) => k
    case Spawn(k) => k
    case SpawnFails(k) => k
    case Notice(k) => k
    case Terminate(k) => k
    case Reap(k) => k
    case Unlink(k) => k
    case Release(k) => k
  }

  lemma ClientAdvances(y: System, e: Event)
    requires Enabled(y, e) && OfClient(e) && !e.Arrive?
    ensures var z, c := After(y, e), Mover(e);
            && c < |y.clients| && |z.clients| == |y.clients| && z.clients == y.clients[c := z.clients[c]]
            && z.alive == y.alive
            && ClientSteps(z.clients[c].at) + (if e.Launch? then 10 else 0) < ClientSteps(y.clients[c].at)
  {
    var c := Mover(e);
    if y.clients[c].at.Asking? || y.clients[c].at.Waiting? {
      AnswersAdvance(y.clients[c].kind, y.clients[c].at.purpose, true);
      AnswersAdvance(y.clients[c].kind, y.clients[c].at.purpose, false);
    }
  }

  lemma ClientStepIsProgress(y: System, e: Event)
    requires Enabled(y, e) && OfClient(e) && !e.Arrive?
    ensures StepsLeft(After(y, e)) < StepsLeft(y)
  {
    var z, c := After(y, e), Mover(e);
    ClientAdvances(y, e);
    ClientMoves(y.clients, c, z.clients[c]);
    if e.Launch? {
      SupervisorJoins(y.sups, Started);
    } else if e.Serve? {
      var s := y.clients[c].at.on;
      SupervisorMoves(y.sups, s, z.sups[s]);
      assert z.sups == y.sups[s := z.sups[s]];
    } else {
      ClientStepsKeepSupervisors(y, e);
    }
  }

  lemma SupervisorAdvances(y: System, e: Event)
    requires Enabled(y, e) && !OfClient(e) && !e.Die? && !After(y, e).enabled
    ensures var z, s := After(y, e), Mover(e);
            && s < |y.sups| && |z.sups| == |y.sups| && z.sups == y.sups[s := z.sups[s]] && z.clients == y.clients
            && StageSteps(z.sups[s]) + (if e.Spawn? then 1 else 0) < StageSteps(y.sups[s])
            && z.alive.Keys <= y.alive.Keys + if e.Spawn? then {y.spawned} else {}
  {
  }

  lemma SupervisorStepIsProgress(y: System, e: Event)
    requires Enabled(y, e) && !OfClient(e) && !e.Die? && !After(y, e).enabled
    ensures StepsLeft(After(y, e)) < StepsLeft(y)
  {
    var z, s := After(y, e), Mover(e);
    SupervisorAdvances(y, e);
    SupervisorMoves(y.sups, s, z.sups[s]);
    Fewer(z.alive.Keys, y.alive.Keys + if e.Spawn? then {y.spawned} else {});
  }

  lemma Fewer<T>(a: set<T>, b: set<T>)
    requires a <= b
    ensures |a| <= |b|
  {
    assert b == a + (b - a);
  }

  lemma DeathIsProgress(y: System, pid: nat)
    requires Enabled(y, Die(pid))
    ensures StepsLeft(After(y, Die(pid))) < StepsLeft(y)
  {
    assert After(y, Die(pid)).alive.Keys == y.alive.Keys - {pid};
  }

  /** With the flag down and nobody new, every step is progress. */
  lemma StepIsProgress(y: System, e: Event)
    requires Enabled(y, e) && !e.Arrive? && !After(y, e).enabled
    ensures StepsLeft(After(y, e)) < StepsLeft(y)
  {
    if OfClient(e) {
      ClientStepIsProgress(y, e);
    } else if e.Die? {
      DeathIsProgress(y, e.pid);
    } else {
      SupervisorStepIsProgress(y, e);
    }
  }

  // ---------------------------------------------------------------------------
  // Rest
  // ---------------------------------------------------------------------------

  /** Steps nobody has to wait for: not arrivals, late bytes, timeouts, crashes, signals or failures. */
  predicate Due(e: Event) {
    !e.Arrive? && !e.Overlook? && !e.GiveUp? && !e.Die? && !e.Terminate? && !e.SpawnFails?
  }

  ghost predicate AtRest(y: System) {
    forall e :: Due(e) ==> !Enabled(y, e)
  }

  predicate AtItsEnd(y: System, s: nat)
    requires s < |y.sups|
  {
    y.sups[s].Exited? || (y.sups[s].Running? && y.sups[s].pid in y.alive)
  }

  /**
   * Nothing is ever stuck: at rest every client has its answer, and every supervisor has left or watches a living
   * daemon.
   */
  lemma RestIsDone(y: System)
    requires StopsHold(y) && AtRest(y)
    ensures forall c: nat :: c < |y.clients| ==> y.clients[c].at.Done?
    ensures forall s: nat :: s < |y.sups| ==> AtItsEnd(y, s)
  {
    forall s: nat | s < |y.sups| ensures AtItsEnd(y, s) {
      SupervisorCanMove(y, s);
    }
    forall c: nat | c < |y.clients| ensures y.clients[c].at.Done? {
      ClientCanMove(y, c);
    }
  }

  /** What a supervisor does next by itself. */
  function OwnStep(s: nat, t: Stage): Event {
    match t
    case Started => TryLock(s)
    case Locked => RemoveStale(s)
    case Cleared => Bind(s)
    case Listening => ReadSettings(s)
    case Decided => Spawn(s)
    case Running(_) => Notice(s)
    case Stopping(_, _) => Reap(s)
    case Closing => Unlink(s)
    case _ => Release(s)
  }

  lemma SupervisorCanMove(y: System, s: nat)
    requires s < |y.sups| && AtRest(y)
    ensures AtItsEnd(y, s)
  {
    assert Due(OwnStep(s, y.sups[s]));
  }

  lemma ClientCanMove(y: System, c: nat)
    requires c < |y.clients| && StopsHold(y) && AtRest(y)
    ensures y.clients[c].at.Done?
  {
    assert Due(ReadEnabled(c)) && Due(Write(c)) && Due(Connect(c)) && Due(Launch(c)) && Due(Serve(c)) && Due(Drop(c));
    if y.clients[c].at.Waiting? { SupervisorCanMove(y, y.clients[c].at.on); }
  }

  /** The flag is down and whoever had read it as up has been told to stop. */
  ghost predicate WindingDown(y: System) {
    !y.enabled && forall s: nat :: s < |y.sups| ==> !y.sups[s].Decided? && !y.sups[s].Running?
  }

  /** Acknowledging a stop leaves no supervisor that would start or keep a daemon. */
  lemma AcknowledgedStopWindsDown(y: System, c: nat)
    requires Inv(y) && Enabled(y, Serve(c)) && Stands(y, c) && y.clients[c].at.purpose.Order?
    ensures WindingDown(After(y, Serve(c)))
  {
    var s := y.clients[c].at.on;
    assert HasLock(y.sups[s]);
  }

  lemma WindingDownLasts(y: System, e: Event)
    requires WindingDown(y) && Enabled(y, e) && !After(y, e).enabled
    ensures WindingDown(After(y, e))
  {
  }

  lemma WoundDown(y: System)
    requires Inv(y) && WindingDown(y) && AtRest(y)
    ensures y.alive == map[] && forall s: nat :: s < |y.sups| ==> y.sups[s].Exited?
  {
    RestIsDone(y);
    forall s: nat | s < |y.sups| ensures y.sups[s].Exited? { assert AtItsEnd(y, s); }
    QuietHasNoDaemon(y);
  }

  lemma WindingDownStep(y: System, z: System)
    requires WindingDown(y) && Step(y, z) && !z.enabled && |z.clients| == |y.clients|
    ensures WindingDown(z) && StepsLeft(z) < StepsLeft(y)
  {
    var e := StepEvent(y, z);
    WindingDownLasts(y, e);
    StepIsProgress(y, e);
  }

  /** Over a run without enabling writes or arrivals, every step counts. */
  lemma {:induction false} WindsDown(run: seq<System>, i: nat, j: nat)
    requires IsRun(run) && i <= j < |run| && WindingDown(run[i])
    requires forall k :: i <= k <= j ==> !run[k].enabled && |run[k].clients| == |run[i].clients|
    ensures WindingDown(run[j]) && StepsLeft(run[j]) + (j - i) <= StepsLeft(run[i])
  {
    if i < j {
      WindsDown(run, i, j - 1);
      WindingDownStep(run[j - 1], run[j]);
    }
  }

  /**
   * A stop that was acknowledged takes effect: unless the service is enabled again or clients keep arriving, the
   * machine is at rest after at most `StepsLeft` steps, and then every supervisor has exited and no daemon is alive.
   */
  lemma AcknowledgedStopCompletes(run: seq<System>, c: nat, i: nat, j: nat)
    requires IsRun(run) && i < j < |run|
    requires Enabled(run[i], Serve(c)) && Stands(run[i], c) && run[i].clients[c].at.purpose.Order?
    requires run[i + 1] == After(run[i], Serve(c))
    requires forall k :: i <= k <= j ==> !run[k].enabled && |run[k].clients| == |run[i].clients|
    ensures StepsLeft(run[j]) + (j - i) <= StepsLeft(run[i])
    ensures AtRest(run[j]) ==> run[j].alive == map[] && forall s: nat :: s < |run[j].sups| ==> run[j].sups[s].Exited?
  {
    InvHolds(run, i);
    AcknowledgedStopWindsDown(run[i], c);
    StepIsProgress(run[i], Serve(c));
    WindsDown(run, i + 1, j);
    InvHolds(run, j);
    if AtRest(run[j]) { WoundDown(run[j]); }
  }
}

/** What every interleaving keeps: one supervisor at a time, no daemon without one, and a stop that cannot be undone. */
module SupervisorSafety {
  import opened Wrappers
  import opened Supervisor

  // ---------------------------------------------------------------------------
  // Lock, socket and processes
  // ---------------------------------------------------------------------------

  /** One supervisor at a time between taking the lock and releasing it; the socket file is its own. */
  ghost predicate Exclusive(y: System) {
    && (forall s: nat :: s < |y.sups| ==> (HasLock(y.sups[s]) <==> y.lock == Some(s)))
    && (y.lock.Some? ==> y.lock.value < |y.sups|)
    && (forall s: nat :: s < |y.sups| && Bound(y.sups[s]) ==> y.socket == Of(s))
    && (forall s: nat :: s < |y.sups| && y.sups[s].Cleared? ==> y.socket == Absent)
    && (y.socket.Of? ==> y.socket.owner < |y.sups| && Bound(y.sups[y.socket.owner]))
  }

  /** Every living daemon is the one its supervisor waits for. */
  ghost predicate Owned(y: System) {
    && (forall s: nat :: s < |y.sups| && (y.sups[s].Running? || y.sups[s].Stopping?) ==> y.sups[s].pid < y.spawned)
    && (forall p :: p in y.alive ==>
          && p < y.spawned && y.alive[p] < |y.sups|
          && (y.sups[y.alive[p]].Running? || y.sups[y.alive[p]].Stopping?) && y.sups[y.alive[p]].pid == p)
  }

  predicate OfClient(e: Event) {
    e.Arrive? || e.ReadEnabled? || e.Write? || e.Connect? || e.Serve? || e.Drop? || e.Overlook? || e.GiveUp? ||
      e.Launch?
  }

  /** Steps that only move a supervisor between stages in which it holds the lock and the socket alike. */
  predicate Inner(e: Event) {
    OfClient(e) || e.ReadSettings? || e.Spawn? || e.SpawnFails? || e.Die? || e.Notice? || e.Terminate? || e.Reap?
  }

  lemma InnerStepsKeepHolds(y: System, e: Event)
    requires Enabled(y, e) && Inner(e)
    ensures var z := After(y, e);
            && z.lock == y.lock && z.socket == y.socket && |y.sups| <= |z.sups|
            && (forall s: nat :: s < |y.sups| ==>
                  && HasLock(z.sups[s]) == HasLock(y.sups[s]) && Bound(z.sups[s]) == Bound(y.sups[s])
                  && z.sups[s].Cleared? == y.sups[s].Cleared?)
            && (forall s: nat :: |y.sups| <= s < |z.sups| ==> z.sups[s].Started?)
  {
  }

  lemma ExclusiveHolds(y: System, e: Event)
    requires Exclusive(y) && Enabled(y, e)
    ensures Exclusive(After(y, e))
  {
    if Inner(e) { InnerStepsKeepHolds(y, e); }
  }

  predicate OfDaemon(e: Event) {
    e.Spawn? || e.Die? || e.Notice? || e.Terminate? || e.Reap? || e.Serve?
  }

  lemma ClientStepsKeepSupervisors(y: System, e: Event)
    requires Enabled(y, e) && OfClient(e) && !e.Serve?
    ensures var z := After(y, e);
            z.alive == y.alive && z.spawned == y.spawned && (z.sups == y.sups || z.sups == y.sups + [Started])
  {
  }

  /** No other step starts, stops or hands over a daemon. */
  lemma OtherStepsKeepDaemons(y: System, e: Event)
    requires Enabled(y, e) && !OfDaemon(e)
    ensures var z := After(y, e);
            && z.alive == y.alive && z.spawned == y.spawned && |y.sups| <= |z.sups|
            && (forall s: nat :: s < |y.sups| && (y.sups[s].Running? || y.sups[s].Stopping?) ==> z.sups[s] == y.sups[s])
            && (forall s: nat :: s < |z.sups| && (z.sups[s].Running? || z.sups[s].Stopping?) ==>
                  s < |y.sups| && z.sups[s] == y.sups[s])
  {
    if OfClient(e) { ClientStepsKeepSupervisors(y, e); }
  }

  lemma OwnedHolds(y: System, e: Event)
    requires Owned(y) && Enabled(y, e)
    ensures Owned(After(y, e))
  {
    if !OfDaemon(e) { OtherStepsKeepDaemons(y, e); }
  }

  // ---------------------------------------------------------------------------
  // Stopping
  // ---------------------------------------------------------------------------

  /** A stop that has written its flag, with no enabling write since. */
  predicate Stands(y: System, c: nat)
    requires c < |y.clients|
  {
    y.clients[c].kind.Stop? && !y.clients[c].at.Ready? && y.clients[c].stamp == y.enablings
  }

  ghost predicate Quiet(y: System) {
    !y.enabled && forall s: nat :: s < |y.sups| ==> !Busy(y.sups[s])
  }

  /** A failure of this ping shows that nobody listens: it has failed, or is about to. */
  predicate SeenClosed(y: System, c: nat)
    requires c < |y.clients|
  {
    var client := y.clients[c];
    (client.at == Done(true) && !client.missed) ||
    (client.at.Waiting? && client.at.on < |y.sups| && !Open(y.sups[client.at.on]))
  }

  /** A stop never goes on to `start`, and only stops and restarts give orders. */
  predicate OnCourse(client: Client) {
    && (client.kind.Stop? ==>
          !client.at.Launching? && (client.at.Asking? || client.at.Waiting? ==> !client.at.purpose.Recheck?))
    && (client.at.Asking? || client.at.Waiting? ==>
          (client.at.purpose.Probe? || client.at.purpose.Order? ==> client.kind.Stop? || client.kind.Restart?))
  }

  ghost predicate StopsHold(y: System) {
    && (forall c: nat :: c < |y.clients| ==> y.clients[c].stamp <= y.enablings)
    && (forall c: nat :: c < |y.clients| ==> OnCourse(y.clients[c]))
    && (forall c: nat :: c < |y.clients| && y.clients[c].at.Waiting? ==> y.clients[c].at.on < |y.sups|)
    && (forall c: nat :: c < |y.clients| && Stands(y, c) ==> !y.enabled)
    && (forall c: nat :: c < |y.clients| && Stands(y, c) && SeenClosed(y, c) ==> Quiet(y))
  }

  /** Nobody reached at the socket path means that nobody listens at all. */
  lemma NobodyListens(y: System)
    requires Exclusive(y) && (!y.socket.Of? || !Open(y.sups[y.socket.owner]))
    ensures forall s: nat :: s < |y.sups| ==> !Open(y.sups[s])
  {
  }

  lemma QuietStays(y: System, e: Event)
    requires Quiet(y) && Enabled(y, e) && !After(y, e).enabled
    ensures Quiet(After(y, e))
  {
  }

  predicate ActsFor(e: Event, c: nat) {
    match e
    case ReadEnabled(k) => k == c
    case Write(k) => k == c
    case Connect(k) => k == c
    case Serve(k) => k == c
    case Drop(k) => k == c
    case Overlook(k) => k == c
    case GiveUp(k) => k == c
    case Launch(k) => k == c
    case _ => false
  }

  /** The client of a step moves as it should; the flag is its own or was read back. */
  lemma OwnStepStaysOnCourse(y: System, e: Event, c: nat)
    requires StopsHold(y) && Enabled(y, e) && ActsFor(e, c)
    ensures var z := After(y, e);
            && c < |z.clients| && z.clients[c].stamp <= z.enablings && OnCourse(z.clients[c])
            && (z.clients[c].at.Waiting? ==> z.clients[c].at.on < |z.sups|)
            && (Stands(z, c) ==> !z.enabled)
  {
    if !e.Write? { assert Stands(After(y, e), c) ==> Stands(y, c); }
  }

  lemma OthersStepChangesNothing(y: System, e: Event, c: nat)
    requires Enabled(y, e) && !ActsFor(e, c) && c < |After(y, e).clients|
    ensures var z := After(y, e);
            && |y.sups| <= |z.sups| && y.enablings <= z.enablings
            && (z.enablings == y.enablings && !y.enabled ==> !z.enabled)
            && (if c < |y.clients| then z.clients[c] == y.clients[c]
                else z.clients[c].at.Ready? && z.clients[c].stamp == 0)
  {
  }

  /** The clients' own facts. */
  lemma ClientsStayOnCourse(y: System, e: Event, c: nat)
    requires StopsHold(y) && Enabled(y, e) && c < |After(y, e).clients|
    ensures var z := After(y, e);
            && z.clients[c].stamp <= z.enablings && OnCourse(z.clients[c])
            && (z.clients[c].at.Waiting? ==> z.clients[c].at.on < |z.sups|)
            && (Stands(z, c) ==> !z.enabled)
  {
    if ActsFor(e, c) {
      OwnStepStaysOnCourse(y, e, c);
    } else {
      OthersStepChangesNothing(y, e, c);
      assert c < |y.clients| && Stands(After(y, e), c) ==> Stands(y, c);
    }
  }

  /** A stop that learns that the listener is gone learns it of every listener. */
  lemma OwnStepSeesQuiet(y: System, e: Event, c: nat)
    requires Exclusive(y) && StopsHold(y) && Enabled(y, e) && ActsFor(e, c)
    requires Stands(After(y, e), c) && SeenClosed(After(y, e), c)
    ensures Quiet(After(y, e))
  {
    var z := After(y, e);
    ClientsStayOnCourse(y, e, c);
    if e.Connect? {
      NobodyListens(y);
    } else if e.GiveUp? && !y.clients[c].at.purpose.Order? && !SomebodyListens(y) {
      assert forall s: nat :: s < |y.sups| ==> !Open(y.sups[s]);
    } else {
      assert Stands(y, c) && SeenClosed(y, c);
    }
  }

  /** While a stop waits for an answer, the listener can close only by the hand of the one supervisor that has it. */
  lemma OthersStepKeepsQuiet(y: System, e: Event, c: nat)
    requires Exclusive(y) && StopsHold(y) && Enabled(y, e) && !ActsFor(e, c) && c < |y.clients|
    requires Stands(After(y, e), c) && SeenClosed(After(y, e), c)
    ensures Quiet(After(y, e))
  {
    var z := After(y, e);
    ClientsStayOnCourse(y, e, c);
    assert z.clients[c] == y.clients[c] && Stands(y, c);
    if SeenClosed(y, c) {
      QuietStays(y, e);
    } else {
      ExclusiveHolds(y, e);
      var v := y.clients[c].at.on;
      assert Open(y.sups[v]) && z.sups[v].Closing?;
      NobodyListens(z);
    }
  }

  lemma StopsHoldStep(y: System, e: Event)
    requires Exclusive(y) && StopsHold(y) && Enabled(y, e)
    ensures StopsHold(After(y, e))
  {
    var z := After(y, e);
    forall c: nat | c < |z.clients|
      ensures z.clients[c].stamp <= z.enablings && OnCourse(z.clients[c])
      ensures z.clients[c].at.Waiting? ==> z.clients[c].at.on < |z.sups|
      ensures Stands(z, c) ==> !z.enabled
      ensures Stands(z, c) && SeenClosed(z, c) ==> Quiet(z)
    {
      ClientsStayOnCourse(y, e, c);
      if Stands(z, c) && SeenClosed(z, c) {
        if ActsFor(e, c) {
          OwnStepSeesQuiet(y, e, c);
        } else {
          assert c < |y.clients|;
          OthersStepKeepsQuiet(y, e, c);
        }
      }
    }
  }

  // ---------------------------------------------------------------------------
  // Over whole runs
  // ---------------------------------------------------------------------------

  lemma StepEvent(y: System, z: System) returns (e: Event)
    requires Step(y, z)
    ensures Enabled(y, e) && After(y, e) == z
  {
    e :| Enabled(y, e) && After(y, e) == z;
  }

  ghost predicate Inv(y: System) { Exclusive(y) && Owned(y) && StopsHold(y) }

  lemma {:induction false} InvHolds(run: seq<System>, i: nat)
    requires IsRun(run) && i < |run|
    ensures Inv(run[i])
  {
    if i > 0 {
      InvHolds(run, i - 1);
      var e := StepEvent(run[i - 1], run[i]);
      ExclusiveHolds(run[i - 1], e);
      OwnedHolds(run[i - 1], e);
      StopsHoldStep(run[i - 1], e);
    }
  }

  /** At most one daemon is alive, and its supervisor holds the lock. */
  lemma OneDaemon(run: seq<System>, i: nat)
    requires IsRun(run) && i < |run|
    ensures |run[i].alive| <= 1
    ensures forall p :: p in run[i].alive ==> run[i].lock == Some(run[i].alive[p])
  {
    var y := run[i];
    InvHolds(run, i);
    if p :| p in y.alive {
      forall q | q in y.alive ensures q == p { assert HasLock(y.sups[y.alive[q]]) && HasLock(y.sups[y.alive[p]]); }
      assert y.alive.Keys == {p};
    }
  }

  /** Connecting succeeds exactly when some listener is open; binding never fails; nobody unlinks another's socket. */
  lemma SocketTellsTheTruth(run: seq<System>, i: nat)
    requires IsRun(run) && i < |run|
    ensures var y := run[i];
            && ((exists s: nat :: s < |y.sups| && Open(y.sups[s])) <==>
                y.socket.Of? && y.socket.owner < |y.sups| && Open(y.sups[y.socket.owner]))
            && (forall s: nat :: s < |y.sups| && y.sups[s].Cleared? ==> y.socket == Absent)
            && (forall s: nat :: s < |y.sups| && y.sups[s].Closing? ==> y.socket == Of(s))
  {
    InvHolds(run, i);
  }

  lemma QuietHasNoDaemon(y: System)
    requires Owned(y)
    ensures Quiet(y) ==> y.alive == map[]
  {
    if p :| p in y.alive { assert Busy(y.sups[y.alive[p]]); }
  }

  lemma {:induction false} QuietLasts(run: seq<System>, i: nat, j: nat)
    requires IsRun(run) && i <= j < |run| && Quiet(run[i])
    requires forall k :: i <= k <= j ==> !run[k].enabled
    ensures Quiet(run[j]) && run[j].spawned == run[i].spawned
  {
    if i < j {
      QuietLasts(run, i, j - 1);
      var e := StepEvent(run[j - 1], run[j]);
      QuietStays(run[j - 1], e);
    }
  }

  lemma DoneStays(y: System, z: System, c: nat)
    requires Step(y, z) && c < |y.clients| && y.clients[c].at.Done?
    ensures c < |z.clients| && z.clients[c] == y.clients[c] && y.enablings <= z.enablings
  {
    var e := StepEvent(y, z);
    OthersStepChangesNothing(y, e, c);
  }

  lemma {:induction false} StopStaysDone(run: seq<System>, c: nat, i: nat, j: nat)
    requires IsRun(run) && i <= j < |run| && c < |run[i].clients| && run[i].clients[c].at.Done?
    ensures c < |run[j].clients| && run[j].clients[c] == run[i].clients[c] && run[i].enablings <= run[j].enablings
  {
    if i < j {
      StopStaysDone(run, c, i, j - 1);
      DoneStays(run[j - 1], run[j], c);
    }
  }

  /**
   * An explicit stop wins. Once a stop none of whose pings failed at an open listener has returned Ok, no daemon is
   * alive and none is spawned until a later write enables the service again, whatever bridges and supervisors had read
   * before.
   */
  lemma ExplicitStopWins(run: seq<System>, c: nat, i: nat, j: nat)
    requires IsRun(run) && i <= j < |run| && c < |run[i].clients|
    requires var client := run[i].clients[c]; client.kind.Stop? && client.at == Done(true) && !client.missed
    requires run[j].enablings == run[i].clients[c].stamp
    ensures run[j].alive == map[] && run[j].spawned == run[i].spawned && !run[j].enabled
  {
    forall k | i <= k <= j ensures Quiet(run[k]) {
      StopStaysDone(run, c, i, k);
      StopStaysDone(run, c, k, j);
      InvHolds(run, k);
      assert Stands(run[k], c) && SeenClosed(run[k], c);
    }
    QuietLasts(run, i, j);
    InvHolds(run, j);
    QuietHasNoDaemon(run[j]);
  }

  function Last(run: seq<System>): System
    requires run != []
  {
    run[|run| - 1]
  }

  lemma Extend(run: seq<System>, e: Event) returns (longer: seq<System>)
    requires IsRun(run) && Enabled(Last(run), e)
    ensures IsRun(longer) && Last(longer) == After(Last(run), e)
  {
    longer := run + [After(Last(run), e)];
    assert Step(Last(run), longer[|run|]);
    forall i, j | 0 <= i < j < |longer| && j == i + 1 ensures Step(longer[i], longer[j]) {
      if j < |run| { assert longer[i] == run[i] && longer[j] == run[j]; }
    }
  }

  /** A start finds nobody and launches a supervisor, */
  lemma Launched() returns (run: seq<System>)
    ensures IsRun(run)
    ensures Last(run) == System(true, 1, None, Absent, [Started], [Client(Start, Asking(Poll(0)), 1, false)], map[], 0)
  {
    run := [System(false, 0, None, Absent, [], [], map[], 0)];
    run := Extend(run, Arrive(Start));
    run := Extend(run, Write(0));
    assert Last(run).clients == [Client(Start, Asking(Recheck), 1, false)];
    run := Extend(run, Connect(0));
    run := Extend(run, Launch(0));
  }

  /** which takes the lock and listens, */
  lemma Listened() returns (run: seq<System>)
    ensures IsRun(run)
    ensures Last(run) ==
            System(true, 1, Some(0), Of(0), [Listening], [Client(Start, Asking(Poll(0)), 1, false)], map[], 0)
  {
    run := Launched();
    run := Extend(run, TryLock(0));
    run := Extend(run, RemoveStale(0));
    run := Extend(run, Bind(0));
  }

  /** and spawns a daemon. */
  lemma StartedUp() returns (run: seq<System>)
    ensures IsRun(run)
    ensures Last(run) ==
            System(true, 1, Some(0), Of(0), [Running(0)], [Client(Start, Asking(Poll(0)), 1, false)], map[0 := 0], 1)
  {
    run := Listened();
    run := Extend(run, ReadSettings(0));
    run := Extend(run, Spawn(0));
  }

  /** A stop that has returned Ok over a living daemon, with no enabling write since its own. */
  ghost predicate StoppedInVain(y: System, c: nat) {
    && c < |y.clients| && y.clients[c].kind.Stop? && y.clients[c].at == Done(true) && y.clients[c].missed
    && y.clients[c].stamp == y.enablings && y.alive != map[]
  }

  /** A stop has lowered the flag and is about to ping. */
  lemma StopArrives() returns (run: seq<System>)
    ensures IsRun(run)
    ensures Last(run) ==
            System(false, 1, Some(0), Of(0), [Running(0)],
                   [Client(Start, Asking(Poll(0)), 1, false), Client(Stop, Asking(Probe), 1, false)], map[0 := 0], 1)
  {
    run := StartedUp();
    run := Extend(run, Arrive(Stop));
    run := Extend(run, Write(1));
  }

  /** Without that condition it fails: a ping may time out, */
  lemma TimedOutStopMayMissADaemon() returns (run: seq<System>)
    ensures IsRun(run) && StoppedInVain(Last(run), 1)
  {
    run := StopArrives();
    assert Open(Last(run).sups[0]);
    run := Extend(run, GiveUp(1));
    assert 0 in Last(run).alive;
  }

  /** or come too late for the supervisor, which hangs up. */
  lemma OverlookedStopMayMissADaemon() returns (run: seq<System>)
    ensures IsRun(run) && StoppedInVain(Last(run), 1)
  {
    run := StopArrives();
    run := Extend(run, Connect(1));
    assert Open(Last(run).sups[0]);
    run := Extend(run, Overlook(1));
    assert 0 in Last(run).alive;
  }
}

/**
 * Supervision without a service manager: controllers, SSH bridges and supervisors over a settings file, a lock and a
 * socket.
 */
module Supervisor {
  import opened Wrappers

  // ---------------------------------------------------------------------------
  // Clients: `service start|stop|restart` and the bridges of incoming SSH connections
  // ---------------------------------------------------------------------------

  datatype Kind = Start | Stop | Restart | Bridge

  /** What a request is for: `control`'s own ping, its order, the ping of `start`, and the polling afterwards. */
  datatype Purpose = Probe | Order | Recheck | Poll(round: nat)

  datatype Point =
    | Ready
    | Asking(purpose: Purpose)
    | Waiting(purpose: Purpose, on: nat)
    | Launching
    | Done(ok: bool)

  const ROUNDS: nat := 50

  /**
   * `stamp` counts the enabling writes up to the client's own write; `missed` records that one of its pings failed
   * while a listener was open.
   */
  datatype Client = Client(kind: Kind, at: Point, stamp: nat, missed: bool)

  function PollAgain(round: nat): Point {
    if round + 1 >= ROUNDS then Done(false) else Asking(Poll(round + 1))
  }

  /** Where a client goes once a request has succeeded or failed. */
  function Next(kind: Kind, purpose: Purpose, ok: bool): Point {
    match purpose
    case Probe =>
      if ok then Asking(Order) else if kind.Stop? then Done(true) else Asking(Recheck)
    case Order =>
      if kind.Stop? && ok then Asking(Poll(0)) else Done(ok)
    case Recheck =>
      if ok then Done(true) else Launching
    case Poll(round) =>
      if kind.Stop? != ok then Done(true) else PollAgain(round)
  }

  // ---------------------------------------------------------------------------
  // Supervisors
  // ---------------------------------------------------------------------------

  datatype Stage =
    | Started
    | Locked
    | Cleared
    | Listening
    | Decided
    | Running(pid: nat)
    | Stopping(pid: nat, restart: bool)
    | Closing
    | Unlinked
    | Exited

  /** The listener is open. */
  predicate Open(t: Stage) { t.Listening? || t.Decided? || t.Running? || t.Stopping? }

  /** The socket file is this supervisor's. */
  predicate Bound(t: Stage) { Open(t) || t.Closing? }

  predicate HasLock(t: Stage) { Bound(t) || t.Locked? || t.Cleared? || t.Unlinked? }

  /** A daemon is about to run, runs, or is being stopped. */
  predicate Busy(t: Stage) { t.Decided? || t.Running? || t.Stopping? }

  /** The file at the socket path; a killed supervisor may have left one behind. */
  datatype Socket = Absent | Stale | Of(owner: nat)

  /** `alive` maps the processes of living daemons to their supervisors. */
  datatype System = System(
    enabled: bool, enablings: nat,
    lock: Option<nat>, socket: Socket,
    sups: seq<Stage>, clients: seq<Client>,
    alive: map<nat, nat>, spawned: nat)

  datatype Event =
    | Arrive(kind: Kind)
    | ReadEnabled(c: nat)
    | Write(c: nat)
    | Connect(c: nat)
    | Serve(c: nat)
    | Drop(c: nat)
    | Overlook(c: nat)
    | GiveUp(c: nat)
    | Launch(c: nat)
    | TryLock(s: nat)
    | RemoveStale(s: nat)
    | Bind(s: nat)
    | ReadSettings(s: nat)
    | Spawn(s: nat)
    | SpawnFails(s: nat)
    | Die(pid: nat)
    | Notice(s: nat)
    | Terminate(s: nat)
    | Reap(s: nat)
    | Unlink(s: nat)
    | Release(s: nat)

  predicate Enabled(y: System, e: Event) {
    match e
    case Arrive(_) => true
    case ReadEnabled(c) => c < |y.clients| && y.clients[c].kind.Bridge? && y.clients[c].at.Ready?
    case Write(c) => c < |y.clients| && !y.clients[c].kind.Bridge? && y.clients[c].at.Ready?
    case Connect(c) => c < |y.clients| && y.clients[c].at.Asking?
    case Serve(c) =>
      && c < |y.clients| && y.clients[c].at.Waiting?
      && y.clients[c].at.on < |y.sups| && y.sups[y.clients[c].at.on].Running?
    case Drop(c) =>
      && c < |y.clients| && y.clients[c].at.Waiting?
      && y.clients[c].at.on < |y.sups| && !Open(y.sups[y.clients[c].at.on])
    case Overlook(c) =>
      && c < |y.clients| && y.clients[c].at.Waiting?
      && y.clients[c].at.on < |y.sups| && y.sups[y.clients[c].at.on].Running?
    case GiveUp(c) => c < |y.clients| && (y.clients[c].at.Asking? || y.clients[c].at.Waiting?)
    case Launch(c) => c < |y.clients| && y.clients[c].at.Launching?
    case TryLock(s) => s < |y.sups| && y.sups[s].Started?
    case RemoveStale(s) => s < |y.sups| && y.sups[s].Locked?
    case Bind(s) => s < |y.sups| && y.sups[s].Cleared?
    case ReadSettings(s) => s < |y.sups| && y.sups[s].Listening?
    case Spawn(s) => s < |y.sups| && y.sups[s].Decided?
    case SpawnFails(s) => s < |y.sups| && y.sups[s].Decided?
    case Die(pid) => pid in y.alive
    case Notice(s) => s < |y.sups| && y.sups[s].Running? && y.sups[s].pid !in y.alive
    case Terminate(s) => s < |y.sups| && y.sups[s].Running?
    case Reap(s) => s < |y.sups| && y.sups[s].Stopping?
    case Unlink(s) => s < |y.sups| && y.sups[s].Closing?
    case Release(s) => s < |y.sups| && y.sups[s].Unlinked?
  }

  function MoveClient(y: System, c: nat, at: Point): System
    requires c < |y.clients|
  {
    y.(clients := y.clients[c := y.clients[c].(at := at)])
  }

  function MoveSup(y: System, s: nat, stage: Stage): System
    requires s < |y.sups|
  {
    y.(sups := y.sups[s := stage])
  }

  /** `control` saves the flag, whatever it was. */
  function AfterWrite(y: System, c: nat): System
    requires c < |y.clients|
  {
    var k := y.clients[c].kind;
    var enablings := if k.Stop? then y.enablings else y.enablings + 1;
    y.(enabled := !k.Stop?, enablings := enablings,
       clients := y.clients[c := y.clients[c].(stamp := enablings, at := Asking(if k.Start? then Recheck else Probe))])
  }

  /** Connecting reaches whoever listens at the socket path. */
  function AfterConnect(y: System, c: nat): System
    requires c < |y.clients| && y.clients[c].at.Asking?
  {
    var client := y.clients[c];
    MoveClient(y, c,
      if y.socket.Of? && y.socket.owner < |y.sups| && Open(y.sups[y.socket.owner])
      then Waiting(client.at.purpose, y.socket.owner)
      else Next(client.kind, client.at.purpose, false))
  }

  /** A running supervisor acknowledges first; an order then ends its wait. */
  function AfterServe(y: System, c: nat): System
    requires Enabled(y, Serve(c))
  {
    var client := y.clients[c];
    var s := client.at.on;
    var answered := MoveClient(y, c, Next(client.kind, client.at.purpose, true));
    if client.at.purpose.Order? then MoveSup(answered, s, Stopping(y.sups[s].pid, client.kind.Restart?)) else answered
  }

  predicate SomebodyListens(y: System) {
    exists s :: 0 <= s < |y.sups| && Open(y.sups[s])
  }

  /**
   * A request fails for its sender, whether or not anybody listens: it times out, or a running supervisor that has
   * accepted the connection hears nothing for a second and hangs up.
   */
  function AfterFailure(y: System, c: nat): System
    requires c < |y.clients| && (y.clients[c].at.Asking? || y.clients[c].at.Waiting?)
  {
    var client := y.clients[c];
    y.(clients := y.clients[c := client.(
         at := Next(client.kind, client.at.purpose, false),
         missed := client.missed || (!client.at.purpose.Order? && SomebodyListens(y)))])
  }

  function AfterTryLock(y: System, s: nat): System
    requires s < |y.sups|
  {
    if y.lock.None? then MoveSup(y, s, Locked).(lock := Some(s)) else MoveSup(y, s, Exited)
  }

  /** Binding fails where there is a file, and then the supervisor leaves without unlinking it. */
  function AfterBind(y: System, s: nat): System
    requires s < |y.sups|
  {
    if y.socket.Absent? then MoveSup(y, s, Listening).(socket := Of(s)) else MoveSup(y, s, Exited).(lock := None)
  }

  /** Kill and wait; then either back to the settings or out, which closes the listener. */
  function AfterReap(y: System, s: nat): System
    requires Enabled(y, Reap(s))
  {
    var stage := y.sups[s];
    MoveSup(y, s, if stage.restart then Listening else Closing).(alive := y.alive - {stage.pid})
  }

  function After(y: System, e: Event): System
    requires Enabled(y, e)
  {
    match e
    case Arrive(kind) => y.(clients := y.clients + [Client(kind, Ready, 0, false)])
    case ReadEnabled(c) => MoveClient(y, c, if y.enabled then Asking(Recheck) else Done(true))
    case Write(c) => AfterWrite(y, c)
    case Connect(c) => AfterConnect(y, c)
    case Serve(c) => AfterServe(y, c)
    case Drop(c) => MoveClient(y, c, Next(y.clients[c].kind, y.clients[c].at.purpose, false))
    case Overlook(c) => AfterFailure(y, c)
    case GiveUp(c) => AfterFailure(y, c)
    case Launch(c) => MoveClient(y, c, Asking(Poll(0))).(sups := y.sups + [Started])
    case TryLock(s) => AfterTryLock(y, s)
    case RemoveStale(s) => MoveSup(y, s, Cleared).(socket := Absent)
    case Bind(s) => AfterBind(y, s)
    case ReadSettings(s) => MoveSup(y, s, if y.enabled then Decided else Closing)
    case Spawn(s) => MoveSup(y, s, Running(y.spawned)).(alive := y.alive[y.spawned := s], spawned := y.spawned + 1)
    case SpawnFails(s) => MoveSup(y, s, Closing)
    case Die(pid) => y.(alive := y.alive - {pid})
    case Notice(s) => MoveSup(y, s, Stopping(y.sups[s].pid, true))
    case Terminate(s) => MoveSup(y, s, Stopping(y.sups[s].pid, false))
    case Reap(s) => AfterReap(y, s)
    case Unlink(s) => MoveSup(y, s, Unlinked).(socket := Absent)
    case Release(s) => MoveSup(y, s, Exited).(lock := None)
  }

  predicate Init(y: System) {
    y.lock.None? && !y.socket.Of? && y.sups == [] && y.clients == [] && y.alive == map[]
  }

  ghost predicate Step(y: System, z: System) {
    exists e :: Enabled(y, e) && After(y, e) == z
  }

  ghost predicate IsRun(run: seq<System>) {
    && run != [] && Init(run[0])
    && forall i, j {:trigger Step(run[i], run[j])} ::
         0 <= i < j < |run| && j == i + 1 ==> Step(run[i], run[j])
  }

  // ---------------------------------------------------------------------------
  // The clients' code, which the machine interleaves request by request
  // ---------------------------------------------------------------------------

  /** Where a client ends up, and the replies it has not used, when nobody else moves. */
  function Follow(kind: Kind, at: Point, replies: seq<bool>): (Point, seq<bool>)
    decreases |replies|, at.Launching?
  {
    match at
    case Asking(purpose) =>
      if replies == [] then (at, []) else Follow(kind, Next(kind, purpose, replies[0]), replies[1..])
    case Launching => Follow(kind, Asking(Poll(0)), replies)
    case _ => (at, replies)
  }

  /** What a client does, in order. */
  datatype Action = Saved(enabled: bool) | Asked(purpose: Purpose) | Launched

  /** More has been done, none of it a write of the settings. */
  ghost predicate OnlyRequests(before: seq<Action>, after: seq<Action>) {
    before <= after && forall k :: |before| <= k < |after| ==> !after[k].Saved?
  }

  /** How often the daemon is asked for its health. */
  const CHECKS: nat := 40

  /** The settings, the answers still to come to requests and to health checks, and what has been done. */
  class Host {
    const installed: bool
    var enabled: bool
    var replies: seq<bool>
    var health: seq<bool>
    var log: seq<Action>

    constructor (installed: bool, enabled: bool, replies: seq<bool>, health: seq<bool>)
      ensures this.installed == installed && this.enabled == enabled
      ensures this.replies == replies && this.health == health && log == []
    {
      this.installed, this.enabled, this.replies, this.health, log := installed, enabled, replies, health, [];
    }

    method Request(kind: Kind, purpose: Purpose) returns (ok: bool)
      requires replies != []
      modifies this`replies, this`log
      ensures ok == old(replies)[0] && replies == old(replies)[1..]
      ensures log == old(log) + [Asked(purpose)]
      ensures Follow(kind, Asking(purpose), old(replies)) == Follow(kind, Next(kind, purpose, ok), replies)
    {
      ok, replies := replies[0], replies[1..];
      log := log + [Asked(purpose)];
    }

    /** Up to fifty pings, until one ends as wanted. */
    method Await(kind: Kind) returns (ok: bool)
      requires |replies| >= ROUNDS
      modifies this`replies, this`log
      ensures Follow(kind, Asking(Poll(0)), old(replies)) == (Done(ok), replies)
      ensures ok <==> !kind.Stop? in old(replies)[..50]
      ensures old(log) <= log && forall k :: |old(log)| <= k < |log| ==> log[k] == Asked(Poll(k - |old(log)|))
    {
      for round := 0 to ROUNDS
        invariant |replies| >= ROUNDS - round
        invariant Follow(kind, if round == ROUNDS then Done(false) else Asking(Poll(round)), replies)
                  == Follow(kind, Asking(Poll(0)), old(replies))
        invariant replies == old(replies)[round..]
        invariant forall k :: 0 <= k < round ==> old(replies)[k] == kind.Stop?
        invariant |log| == |old(log)| + round && old(log) <= log
        invariant forall k :: |old(log)| <= k < |log| ==> log[k] == Asked(Poll(k - |old(log)|))
      {
        var up := Request(kind, Poll(round));
        if up != kind.Stop? {
          assert old(replies)[..50][round] == up;
          return true;
        }
      }
      return false;
    }

    /** `start`: a ping, and only if it fails a launch. */
    method StartUp(kind: Kind) returns (ok: bool)
      requires !kind.Stop? && |replies| > ROUNDS
      modifies this`replies, this`log
      ensures Follow(kind, Asking(Recheck), old(replies)) == (Done(ok), replies)
      ensures ok <==> true in old(replies)[..51]
      ensures OnlyRequests(old(log) + [Asked(Recheck)], log)
      ensures Launched in log[|old(log)|..] <==> !old(replies)[0]
    {
      var up := Request(kind, Recheck);
      if up {
        return true;
      }
      log := log + [Launched];
      ghost var launched := log;
      ok := Await(kind);
      assert log[|old(log)| + 1] == Launched;
      assert old(replies)[..51] == [up] + old(replies)[1..][..50];
    }

    /** `control`: the flag is saved before anything else is done, and only once; a stop launches nothing. */
    method Control(kind: Kind) returns (ok: bool)
      requires !kind.Bridge? && |replies| > ROUNDS + 1
      modifies this`enabled, this`replies, this`log
      ensures enabled == !kind.Stop?
      ensures OnlyRequests(old(log) + [Saved(!kind.Stop?)], log)
      ensures kind.Stop? ==> Launched !in log[|old(log)|..]
      ensures Follow(kind, Asking(if kind.Start? then Recheck else Probe), old(replies)) == (Done(ok), replies)
      ensures kind.Start? ==> (ok <==> true in old(replies)[..51])
      ensures kind.Restart? ==> (ok <==> if old(replies)[0] then old(replies)[1] else true in old(replies)[1..52])
      ensures kind.Stop? ==> (ok <==> old(replies)[0] ==> old(replies)[1] && false in old(replies)[2..52])
    {
      enabled := !kind.Stop?;
      log := log + [Saved(enabled)];
      if kind.Start? {
        ok := StartUp(kind);
        return;
      }
      var up := Request(kind, Probe);
      if kind.Restart? {
        if up {
          ok := Request(kind, Order);
        } else {
          ok := StartUp(kind);
        }
        return;
      }
      if !up {
        return true;
      }
      var told := Request(kind, Order);
      if !told {
        return false;
      }
      ok := Await(kind);
    }

    /** `wait_until_healthy`: up to forty checks, until one is good. */
    method WaitUntilHealthy() returns (ok: bool)
      requires |health| >= CHECKS
      modifies this`health
      ensures ok <==> true in old(health)[..40]
      ensures |health| < |old(health)| && health == old(health)[|old(health)| - |health|..]
      ensures forall k :: 0 <= k < |old(health)| - |health| ==>
              (old(health)[k] <==> ok && k == |old(health)| - |health| - 1)
    {
      for round := 0 to CHECKS
        invariant health == old(health)[round..]
        invariant forall k :: 0 <= k < round ==> !old(health)[k]
      {
        var healthy := health[0];
        health := health[1..];
        if healthy {
          assert old(health)[..CHECKS][round];
          return true;
        }
      }
      return false;
    }

    /** `ensure_started`: an incoming connection revives the service unless it has been stopped, and waits for it. */
    method EnsureStarted() returns (ok: bool)
      requires |replies| > ROUNDS && |health| >= CHECKS
      modifies this`replies, this`health, this`log
      ensures !installed || !enabled ==> ok && replies == old(replies) && health == old(health) && log == old(log)
      ensures installed && enabled ==>
                var (at, left) := Follow(Bridge, Asking(Recheck), old(replies));
                && at in {Done(true), Done(false)} && replies == left
                && (ok <==> true in old(replies)[..51] && true in old(health)[..40])
                && OnlyRequests(old(log) + [Asked(Recheck)], log)
    {
      if !installed || !enabled {
        return true;
      }
      ok := StartUp(Bridge);
      if ok {
        ok := WaitUntilHealthy();
      }
    }
  }
}

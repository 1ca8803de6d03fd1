/** The two pipes under one connection: both peers write large clips at once. */
module Duplex {
  /** Bytes each peer has still to write, and bytes waiting in the pipe it writes to. */
  datatype Pipes = Pipes(toWrite: (nat, nat), buffered: (nat, nat))

  /** `Write(a, k)`: peer `a` moves `k` bytes into its pipe; `Read(a, k)`: peer `a` takes `k` bytes from the other's. */
  datatype Event = Write(first: bool, k: nat) | Read(first: bool, k: nat)

  /**
   * `Independent` keeps reading while a write is blocked; `WriteFirst` reads only once it has nothing left to write.
   */
  datatype Discipline = Independent | WriteFirst

  ghost predicate Enabled(d: Discipline, capacity: nat, s: Pipes, e: Event) {
    e.k > 0 &&
    match e
    case Write(true, k) => k <= s.toWrite.0 && s.buffered.0 + k <= capacity
    case Write(false, k) => k <= s.toWrite.1 && s.buffered.1 + k <= capacity
    case Read(true, k) => k <= s.buffered.1 && (d.WriteFirst? ==> s.toWrite.0 == 0)
    case Read(false, k) => k <= s.buffered.0 && (d.WriteFirst? ==> s.toWrite.1 == 0)
  }

  function Step(d: Discipline, capacity: nat, s: Pipes, e: Event): Pipes
    requires Enabled(d, capacity, s, e)
  {
    match e
    case Write(true, k) => Pipes((s.toWrite.0 - k, s.toWrite.1), (s.buffered.0 + k, s.buffered.1))
    case Write(false, k) => Pipes((s.toWrite.0, s.toWrite.1 - k), (s.buffered.0, s.buffered.1 + k))
    case Read(true, k) => Pipes(s.toWrite, (s.buffered.0, s.buffered.1 - k))
    case Read(false, k) => Pipes(s.toWrite, (s.buffered.0 - k, s.buffered.1))
  }

  predicate Done(s: Pipes) {
    s.toWrite == (0, 0) && s.buffered == (0, 0)
  }

  ghost predicate Stuck(d: Discipline, capacity: nat, s: Pipes) {
    !Done(s) && forall e :: !Enabled(d, capacity, s, e)
  }

  /** The state after the events in turn, all of them enabled. */
  ghost predicate Leads(d: Discipline, capacity: nat, s: Pipes, events: seq<Event>, r: Pipes)
    decreases |events|
  {
    if events == [] then s == r
    else Enabled(d, capacity, s, events[0]) && Leads(d, capacity, Step(d, capacity, s, events[0]), events[1..], r)
  }

  function Start(first: nat, second: nat): Pipes { Pipes((first, second), (0, 0)) }

  /** Bytes left to write count twice: once for the write, once for the read. */
  function Measure(s: Pipes): nat { 2 * (s.toWrite.0 + s.toWrite.1) + s.buffered.0 + s.buffered.1 }

  /** The bytes that a peer has read. */
  function Taken(events: seq<Event>, first: bool): nat {
    if events == [] then 0
    else (if events[0].Read? && events[0].first == first then events[0].k else 0) + Taken(events[1..], first)
  }

  /** Every byte is still to be written, on its way, or read, and every event makes progress. */
  lemma {:induction false} RunsAreBounded(d: Discipline, capacity: nat, s: Pipes, events: seq<Event>, r: Pipes)
    requires Leads(d, capacity, s, events, r)
    ensures |events| + Measure(r) <= Measure(s)
    ensures r.toWrite.0 + r.buffered.0 + Taken(events, false) == s.toWrite.0 + s.buffered.0
    ensures r.toWrite.1 + r.buffered.1 + Taken(events, true) == s.toWrite.1 + s.buffered.1
    decreases |events|
  {
    if events != [] {
      RunsAreBounded(d, capacity, Step(d, capacity, s, events[0]), events[1..], r);
    }
  }

  /** Independent loops never block each other: with any buffer at all, both clips get through. */
  lemma IndependentLoopsNeverStick(capacity: nat, s: Pipes)
    requires capacity > 0
    ensures !Stuck(Independent, capacity, s)
  {
    if s.buffered.0 > 0 {
      assert Enabled(Independent, capacity, s, Read(false, 1));
    } else if s.buffered.1 > 0 {
      assert Enabled(Independent, capacity, s, Read(true, 1));
    } else if s.toWrite.0 > 0 {
      assert Enabled(Independent, capacity, s, Write(true, 1));
    } else if s.toWrite.1 > 0 {
      assert Enabled(Independent, capacity, s, Write(false, 1));
    }
  }

  ghost predicate CanDeadlock(d: Discipline, capacity: nat, s: Pipes) {
    exists events, r :: Leads(d, capacity, s, events, r) && Stuck(d, capacity, r)
  }

  /** Serialized loops deadlock exactly when neither clip fits its pipe. */
  lemma SerializedLoopsDeadlockExactlyWhen(capacity: nat, first: nat, second: nat)
    requires capacity > 0
    ensures CanDeadlock(WriteFirst, capacity, Start(first, second)) <==> first > capacity && second > capacity
    ensures !CanDeadlock(Independent, capacity, Start(first, second))
  {
    var s := Start(first, second);
    forall events, r | Leads(Independent, capacity, s, events, r)
      ensures !Stuck(Independent, capacity, r)
    {
      IndependentLoopsNeverStick(capacity, r);
    }
    if first > capacity && second > capacity {
      var full := Pipes((first - capacity, second - capacity), (capacity, capacity));
      var events := [Write(true, capacity), Write(false, capacity)];
      var half := Step(WriteFirst, capacity, s, events[0]);
      assert events[1..] == [Write(false, capacity)] && events[1..][1..] == [];
      assert Leads(WriteFirst, capacity, full, [], full);
      assert Leads(WriteFirst, capacity, half, events[1..], full);
      assert Leads(WriteFirst, capacity, s, events, full);
      assert !Done(full) && forall e :: !Enabled(WriteFirst, capacity, full, e);
      assert CanDeadlock(WriteFirst, capacity, s);
    } else {
      forall events, r | Leads(WriteFirst, capacity, s, events, r)
        ensures !Stuck(WriteFirst, capacity, r)
      {
        RunsAreBounded(WriteFirst, capacity, s, events, r);
        SmallClipGetsThrough(capacity, r);
      }
    }
  }

  /** A peer whose whole clip fits its pipe finishes writing, and from then on reads. */
  lemma SmallClipGetsThrough(capacity: nat, r: Pipes)
    requires capacity > 0
    requires r.toWrite.0 + r.buffered.0 <= capacity || r.toWrite.1 + r.buffered.1 <= capacity
    ensures !Stuck(WriteFirst, capacity, r)
  {
    if r.toWrite.0 > 0 && r.buffered.0 < capacity {
      assert Enabled(WriteFirst, capacity, r, Write(true, 1));
    } else if r.toWrite.1 > 0 && r.buffered.1 < capacity {
      assert Enabled(WriteFirst, capacity, r, Write(false, 1));
    } else if r.toWrite.0 == 0 && r.buffered.1 > 0 {
      assert Enabled(WriteFirst, capacity, r, Read(true, 1));
    } else if r.toWrite.1 == 0 && r.buffered.0 > 0 {
      assert Enabled(WriteFirst, capacity, r, Read(false, 1));
    }
  }
}

/** Sums of measures, and how they change when one summand does. */
module Sums {
  /** `n` times `cost`, by repeated addition. */
  function Times(n: nat, cost: nat): nat {
    if n == 0 then 0 else Times(n - 1, cost) + cost
  }

  function Sum(w: seq<nat>): nat {
    if w == [] then 0 else Sum(w[..|w| - 1]) + w[|w| - 1]
  }

  /** Element `i` changes, and every other one gains at most `gain`. */
  lemma {:induction false} SumShift(a: seq<nat>, b: seq<nat>, i: nat, gain: nat)
    requires |a| == |b| && i < |a|
    requires forall j :: 0 <= j < |a| && j != i ==> b[j] <= a[j] + gain
    ensures Sum(b) - b[i] <= Sum(a) - a[i] + Times(|a| - 1, gain)
    decreases |a|
  {
    var last := |a| - 1;
    if i == last {
      SumBound(a[..last], b[..last], gain);
    } else {
      SumShift(a[..last], b[..last], i, gain);
    }
  }

  lemma {:induction false} SumBound(a: seq<nat>, b: seq<nat>, gain: nat)
    requires |a| == |b|
    requires forall j :: 0 <= j < |a| ==> b[j] <= a[j] + gain
    ensures Sum(b) <= Sum(a) + Times(|a|, gain)
    decreases |a|
  {
    if a != [] { SumBound(a[..|a| - 1], b[..|a| - 1], gain); }
  }

  lemma {:induction false} TimesZero(n: nat)
    ensures Times(n, 0) == 0
  {
    if n > 0 { TimesZero(n - 1); }
  }

  /** Only element `i` changes. */
  lemma SumUpdate(a: seq<nat>, b: seq<nat>, i: nat)
    requires |a| == |b| && i < |a|
    requires forall j :: 0 <= j < |a| && j != i ==> b[j] == a[j]
    ensures Sum(b) - b[i] == Sum(a) - a[i]
  {
    SumShift(a, b, i, 0);
    SumShift(b, a, i, 0);
    TimesZero(|a| - 1);
  }

  /** Element `i` loses more than all the others can gain. */
  lemma SumDrops(a: seq<nat>, b: seq<nat>, i: nat, gain: nat)
    requires |a| == |b| && i < |a|
    requires forall j :: 0 <= j < |a| && j != i ==> b[j] <= a[j] + gain
    requires b[i] + Times(|a|, gain) < a[i]
    ensures Sum(b) < Sum(a)
  {
    SumShift(a, b, i, gain);
  }

  lemma {:induction false} IndicesBounded(s: set<nat>, n: nat)
    requires forall x :: x in s ==> x < n
    ensures |s| <= n
  {
    if n > 0 {
      IndicesBounded(s - {n - 1}, n - 1);
    }
  }

  lemma SumAppend(a: seq<nat>, x: nat)
    ensures Sum(a + [x]) == Sum(a) + x
  {
    assert (a + [x])[..|a|] == a;
  }
}

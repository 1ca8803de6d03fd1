/** Which local copies a daemon announces, in terms of everything that has happened to its clipboard. */
module Echoes {
  import opened Wrappers
  import opened Daemon

  /** What happens under `apply_lock`, or to the clipboard from outside. */
  datatype Happening = Copy(snapshot: Snapshot) | Apply(snapshot: Snapshot) | Look

  function After(g: Guarded, h: Happening): (r: Guarded)
    requires TokensPositive(g.suppressed)
    ensures TokensPositive(r.suppressed)
  {
    match h
    case Copy(snapshot) => g.(clipboard := Some(snapshot))
    case Apply(snapshot) => Published(g, snapshot)
    case Look => Observe(g).0
  }

  function AfterAll(g: Guarded, hs: seq<Happening>): (r: Guarded)
    requires TokensPositive(g.suppressed)
    ensures TokensPositive(r.suppressed)
  {
    if hs == [] then g else After(AfterAll(g, hs[..|hs| - 1]), hs[|hs| - 1])
  }

  /** How often content with this fingerprint has been applied. */
  function Applies(hs: seq<Happening>, f: Fingerprint): nat {
    if hs == [] then 0
    else
      var last := hs[|hs| - 1];
      Applies(hs[..|hs| - 1], f) + if last.Apply? && last.snapshot.fingerprint == f then 1 else 0
  }

  /** The watcher takes the clipboard for an echo of an apply. */
  predicate Swallows(g: Guarded, f: Fingerprint) {
    Dirty(g) && g.clipboard.value.fingerprint == f && f in g.suppressed
  }

  /** How often the watcher has taken such content for an echo. */
  function Swallowed(g: Guarded, hs: seq<Happening>, f: Fingerprint): nat
    requires TokensPositive(g.suppressed)
  {
    if hs == [] then 0
    else
      var before := hs[..|hs| - 1];
      Swallowed(g, before, f) + if hs[|hs| - 1].Look? && Swallows(AfterAll(g, before), f) then 1 else 0
  }

  function Tokens(g: Guarded, f: Fingerprint): nat {
    if f in g.suppressed then g.suppressed[f] else 0
  }

  /** The tokens left are the applies not yet answered by an echo. */
  lemma {:induction false} TokensBalance(g: Guarded, hs: seq<Happening>, f: Fingerprint)
    requires g.suppressed == map[]
    ensures Tokens(AfterAll(g, hs), f) + Swallowed(g, hs, f) == Applies(hs, f)
  {
    if hs != [] { TokensBalance(g, hs[..|hs| - 1], f); }
  }

  /**
   * A copy that the watcher looks at next is announced exactly when it differs from what the watcher saw last and
   * every earlier apply of the same content has been answered by an echo.
   */
  lemma CopyIsAnnouncedExactlyWhen(g: Guarded, hs: seq<Happening>, copy: Snapshot)
    requires g.suppressed == map[]
    ensures var before, f := AfterAll(g, hs), copy.fingerprint;
            Observe(After(before, Copy(copy))).1 == Some(copy) <==>
            !(before.previous.Some? && before.previous.value.fingerprint == f) && Swallowed(g, hs, f) == Applies(hs, f)
  {
    TokensBalance(g, hs, copy.fingerprint);
  }

  /**
   * It is not always: of two applies before one look, the first leaves a token that swallows a later copy of its
   * content.
   */
  lemma LeftoverTokenSwallowsACopy(g: Guarded, a: Snapshot, b: Snapshot)
    requires g.suppressed == map[] && a.fingerprint != b.fingerprint
    requires !(g.previous.Some? && g.previous.value.fingerprint == b.fingerprint)
    ensures var before := AfterAll(g, [Apply(a), Apply(b), Look]);
            && before.previous == Some(b)
            && Dirty(After(before, Copy(a))) && Observe(After(before, Copy(a))).1 == None
  {
    var g1 := Published(g, a);
    var g2 := Published(g1, b);
    AfterOneMore(g, [], Apply(a));
    AfterOneMore(g, [Apply(a)], Apply(b));
    AfterOneMore(g, [Apply(a), Apply(b)], Look);
    assert [] + [Apply(a)] == [Apply(a)] && [Apply(a)] + [Apply(b)] == [Apply(a), Apply(b)];
    assert [Apply(a), Apply(b)] + [Look] == [Apply(a), Apply(b), Look];
    assert a.fingerprint in Observe(g2).0.suppressed;
  }

  lemma AfterOneMore(g: Guarded, hs: seq<Happening>, h: Happening)
    requires TokensPositive(g.suppressed)
    ensures AfterAll(g, hs + [h]) == After(AfterAll(g, hs), h)
  {
    assert (hs + [h])[..|hs|] == hs;
  }
}

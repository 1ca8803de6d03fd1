/** Relative paths as the bundle writes and reads them, and distinct names for a selection. */
module Paths {
  import opened Wrappers
  import opened Bytes
  import opened Texts

  const SLASH: byte := 47
  const SPACE: byte := 32

  type Path = seq<Text>

  /** A file name: one normal path component. */
  predicate IsName(n: Text) {
    n != [] && SLASH !in n && n != [DOT] && n != [DOT, DOT]
  }

  predicate IsPath(p: Path) {
    p != [] && forall i :: 0 <= i < |p| ==> IsName(p[i])
  }

  /** Empty components and inner dots do not count. */
  function Significant(parts: seq<Text>): (r: seq<Text>)
    ensures forall i :: 0 <= i < |r| ==> r[i] != [] && r[i] != [DOT] && r[i] in parts
  {
    if parts == [] then []
    else if parts[0] == [] || parts[0] == [DOT] then Significant(parts[1..])
    else [parts[0]] + Significant(parts[1..])
  }

  /** The components of a relative path that stays below its base; absolute, dotted and climbing paths are refused. */
  function SafeRelative(s: Text): (r: Option<Path>)
    ensures r.Some? ==> IsPath(r.value)
  {
    var parts := Split(SLASH, s);
    if s == [] || s[0] == SLASH || parts[0] == [DOT] || [DOT, DOT] in parts then None
    else
      assert s == [s[0]] + s[1..];
      Some(Significant(parts))
  }

  function Join(p: Path): Text {
    if p == [] then [] else if |p| == 1 then p[0] else p[0] + [SLASH] + Join(p[1..])
  }

  // ---------------------------------------------------------------------------
  // Paths as system calls are given them
  // ---------------------------------------------------------------------------

  /** What follows the last component: nothing, slashes, or something with a dot. */
  datatype Ending = Bare | Slashed | Dotted

  function EndingOf(parts: seq<Text>): Ending {
    if parts == [] then Bare
    else
      var last, before := parts[|parts| - 1], EndingOf(parts[..|parts| - 1]);
      if last == [DOT] then Dotted
      else if last != [] then Bare
      else if before.Dotted? then Dotted
      else Slashed
  }

  /** The components of a path's text and how it ends. */
  datatype FsPath = FsPath(names: Path, ending: Ending)

  function ToFsPath(s: Text): FsPath
    requires SafeRelative(s).Some?
  {
    FsPath(SafeRelative(s).value, EndingOf(Split(SLASH, s)))
  }

  /** The path without its last component, which takes the ending with it. */
  function Parent(a: FsPath): FsPath
    requires a.names != []
  {
    FsPath(a.names[..|a.names| - 1], Bare)
  }

  predicate HasNul(p: Path) {
    exists i :: 0 <= i < |p| && 0 in p[i]
  }

  lemma {:induction false} SplitJoin(p: Path)
    requires IsPath(p)
    ensures Split(SLASH, Join(p)) == p && Significant(p) == p
    ensures Join(p) != [] && Join(p)[0] != SLASH
  {
    SplitFirst(SLASH, p[0], if |p| == 1 then [] else Join(p[1..]));
    assert p == [p[0]] + p[1..];
    if |p| > 1 {
      SplitJoin(p[1..]);
    } else {
      assert p[1..] == [];
    }
  }

  /** A path of proper names is read back as written. */
  lemma JoinIsSafe(p: Path)
    requires IsPath(p)
    ensures SafeRelative(Join(p)) == Some(p) && ToFsPath(Join(p)) == FsPath(p, Bare)
  {
    SplitJoin(p);
  }

  /**
   * A path is safe exactly if it is not empty, does not begin with a slash or a dot that stands alone, and never
   * climbs; its components are those that are neither empty nor a dot.
   */
  lemma SafeExactlyWhen(s: Text)
    ensures SafeRelative(s).Some? <==>
              && s != [] && s[0] != 47 && s != [46] && !([46, 47] <= s)
              && forall i :: 0 <= i < |Split(47, s)| ==> Split(47, s)[i] != [46, 46]
    ensures SafeRelative(s).Some? ==> SafeRelative(s).value == Significant(Split(47, s))
  {
    StartsWithDot(s);
  }

  lemma StartsWithDot(s: Text)
    ensures Split(SLASH, s)[0] == [DOT] <==> s == [DOT] || [DOT, SLASH] <= s
  {
    if s != [] && s[0] == DOT {
      var rest := s[1..];
      assert s == [DOT] + rest;
      assert Split(SLASH, s)[0] == [DOT] + Split(SLASH, rest)[0];
      if rest != [] && rest[0] == SLASH { assert Split(SLASH, rest)[0] == []; }
    }
  }

  /** Which components count, part by part. */
  lemma {:induction false} SignificantIsFiltered(parts: seq<Text>, last: Text)
    ensures Significant(parts + [last]) == Significant(parts) + if last == [] || last == [46] then [] else [last]
  {
    if parts == [] {
      assert (parts + [last])[1..] == parts;
    } else {
      SignificantIsFiltered(parts[1..], last);
      assert (parts + [last])[1..] == parts[1..] + [last] && (parts + [last])[0] == parts[0];
    }
  }

  predicate Insignificant(parts: seq<Text>) { forall i :: 0 <= i < |parts| ==> parts[i] == [] || parts[i] == [DOT] }

  lemma {:induction false} InsignificantTail(p: seq<Text>, parts: seq<Text>)
    requires Insignificant(parts)
    ensures Significant(p + parts) == Significant(p)
  {
    if p != [] {
      InsignificantTail(p[1..], parts);
      assert (p + parts)[1..] == p[1..] + parts && (p + parts)[0] == p[0];
    } else if parts != [] {
      InsignificantTail(p, parts[1..]);
      assert p + parts == parts && p + parts[1..] == parts[1..];
    } else {
      assert p + parts == p;
    }
  }

  function ToFsPathOf(s: Text): Option<FsPath> {
    if SafeRelative(s).Some? then Some(ToFsPath(s)) else None
  }

  lemma TailIsNoName(p: Path, tail: Text, parts: seq<Text>)
    requires IsPath(p) && Split(SLASH, tail) == parts && Insignificant(parts)
    ensures ToFsPathOf(Join(p) + [SLASH] + tail) == Some(FsPath(p, EndingOf(p + parts)))
  {
    var s := Join(p) + [SLASH] + tail;
    EndingFollows(p, tail);
    InsignificantTail(p, parts);
    SplitJoin(p);
    assert Split(SLASH, s)[0] == p[0];
    forall i | 0 <= i < |p + parts| ensures (p + parts)[i] != [DOT, DOT] {}
  }

  /** How a path ends is told by what is appended to it. */
  lemma EndingsAreTold(p: Path)
    requires IsPath(p)
    ensures ToFsPathOf(Join(p) + [47] + []) == Some(FsPath(p, Slashed))
    ensures ToFsPathOf(Join(p) + [47] + [46]) == Some(FsPath(p, Dotted))
    ensures ToFsPathOf(Join(p) + [47] + [46, 47]) == Some(FsPath(p, Dotted))
  {
    SplitFirst(SLASH, [], []);
    SplitFirst(SLASH, [DOT], []);
    assert [DOT] + [SLASH] + [] == [DOT, SLASH];
    assert [[DOT]] + [[]] == [[DOT], []];
    TailIsNoName(p, [], [[]]);
    TailIsNoName(p, [DOT], [[DOT]]);
    TailIsNoName(p, [DOT, SLASH], [[DOT], []]);
    ProperEnd(p);
    EndsWith(p, []);
    EndsWith(p, [DOT]);
    EndsWith(p + [[DOT]], []);
    assert p + [[DOT]] + [[]] == p + [[DOT], []];
  }

  lemma ProperEnd(p: Path)
    requires IsPath(p)
    ensures EndingOf(p) == Bare
  {
    assert IsName(p[|p| - 1]);
  }

  lemma EndsWith(parts: seq<Text>, last: Text)
    ensures EndingOf(parts + [last]) ==
            if last == [DOT] then Dotted else if last != [] then Bare
            else if EndingOf(parts).Dotted? then Dotted else Slashed
  {
    assert (parts + [last])[..|parts|] == parts;
  }

  /** What follows a slash is split for itself. */
  lemma {:induction false} EndingFollows(p: Path, tail: Text)
    requires IsPath(p)
    ensures Split(SLASH, Join(p) + [SLASH] + tail) == p + Split(SLASH, tail)
    ensures Join(p) + [SLASH] + tail != [] && (Join(p) + [SLASH] + tail)[0] != SLASH
  {
    assert IsName(p[0]);
    if |p| == 1 {
      SplitFirst(SLASH, p[0], tail);
      assert p == [p[0]];
    } else {
      var rest := Join(p[1..]) + [SLASH] + tail;
      EndingFollows(p[1..], tail);
      SplitFirst(SLASH, p[0], rest);
      Associate(p[0] + [SLASH], Join(p[1..]), [SLASH] + tail);
      Associate(Join(p[1..]), [SLASH], tail);
      Associate(Join(p), [SLASH], tail);
      assert Join(p) + [SLASH] + tail == p[0] + [SLASH] + rest;
      assert p == [p[0]] + p[1..];
      Associate([p[0]], p[1..], Split(SLASH, tail));
    }
  }

  // ---------------------------------------------------------------------------
  // Distinct root names
  // ---------------------------------------------------------------------------

  function Candidate(base: Text, index: nat): Text {
    base + [SPACE] + Decimal(index)
  }

  lemma CandidateInjective(base: Text, i: nat, j: nat)
    requires Candidate(base, i) == Candidate(base, j)
    ensures i == j
  {
    assert Decimal(i) == Candidate(base, i)[|base| + 1..];
    assert Decimal(j) == Candidate(base, j)[|base| + 1..];
    DecimalInjective(i, j);
  }

  /** The used names that are candidates from `index` on. */
  ghost function Taken(base: Text, used: set<Text>, index: nat): set<Text> {
    set n | n in used && exists k: nat :: k >= index && n == Candidate(base, k)
  }

  lemma TakenShrinks(base: Text, used: set<Text>, index: nat)
    requires Candidate(base, index) in used
    ensures Taken(base, used, index + 1) < Taken(base, used, index)
  {
    var c := Candidate(base, index);
    assert c in Taken(base, used, index);
    if c in Taken(base, used, index + 1) {
      var k: nat :| k >= index + 1 && c == Candidate(base, k);
      CandidateInjective(base, index, k);
    }
  }

  /** The first candidate from `index` on that is free; there is one, since only finitely many are used. */
  function FirstFree(base: Text, used: set<Text>, index: nat): (k: nat)
    ensures k >= index && Candidate(base, k) !in used
    ensures forall j :: index <= j < k ==> Candidate(base, j) in used
    decreases Taken(base, used, index)
  {
    if Candidate(base, index) !in used then index
    else
      TakenShrinks(base, used, index);
      FirstFree(base, used, index + 1)
  }

  function UniqueName(base: Text, used: set<Text>): (name: Text)
    ensures name !in used
    ensures base !in used ==> name == base
  {
    if base !in used then base else Candidate(base, FirstFree(base, used, 2))
  }

  /** `unique_name`: inserts the name it returns. */
  method ChooseName(base: Text, used: set<Text>) returns (name: Text, after: set<Text>)
    ensures name == UniqueName(base, used)
    ensures name !in used && after == used + {name}
  {
    if base !in used {
      return base, used + {base};
    }
    var index := 2;
    name := Candidate(base, index);
    while name in used
      invariant index >= 2 && name == Candidate(base, index)
      invariant forall j :: 2 <= j < index ==> Candidate(base, j) in used
      decreases Taken(base, used, index)
    {
      TakenShrinks(base, used, index);
      index := index + 1;
      name := Candidate(base, index);
    }
    FirstFreeIs(base, used, index);
    after := used + {name};
  }

  lemma FirstFreeIs(base: Text, used: set<Text>, index: nat)
    requires index >= 2 && Candidate(base, index) !in used
    requires forall j :: 2 <= j < index ==> Candidate(base, j) in used
    ensures FirstFree(base, used, 2) == index
  {
  }

  lemma CandidateIsName(base: Text, index: nat)
    requires IsName(base)
    ensures IsName(Candidate(base, index)) && (0 !in base ==> 0 !in Candidate(base, index))
  {
    var c := Candidate(base, index);
    assert c[|base|] == SPACE;
  }

  /** Root names for bases taken in order. */
  function RootNames(bases: seq<Text>, used: set<Text>): (names: seq<Text>)
    ensures |names| == |bases|
  {
    if bases == [] then []
    else
      var name := UniqueName(bases[0], used);
      [name] + RootNames(bases[1..], used + {name})
  }

  lemma {:induction false} RootNameIsFree(bases: seq<Text>, used: set<Text>, i: nat)
    requires (forall k :: 0 <= k < |bases| ==> IsName(bases[k])) && i < |bases|
    ensures IsName(RootNames(bases, used)[i]) && RootNames(bases, used)[i] !in used
    ensures 0 !in bases[i] ==> 0 !in RootNames(bases, used)[i]
  {
    var name := UniqueName(bases[0], used);
    if name != bases[0] { CandidateIsName(bases[0], FirstFree(bases[0], used, 2)); }
    if i > 0 { RootNameIsFree(bases[1..], used + {name}, i - 1); }
  }

  /** A root is called like its base exactly when nothing before it is. */
  lemma {:induction false} RootKeepsBaseExactlyWhen(bases: seq<Text>, used: set<Text>, i: nat)
    requires i < |bases|
    ensures var names := RootNames(bases, used);
            names[i] == bases[i] <==> bases[i] !in used && bases[i] !in names[..i]
  {
    var names, name := RootNames(bases, used), UniqueName(bases[0], used);
    if i == 0 {
      if name != bases[0] { assert |Candidate(bases[0], FirstFree(bases[0], used, 2))| > |bases[0]|; }
    } else {
      RootKeepsBaseExactlyWhen(bases[1..], used + {name}, i - 1);
      assert names[..i] == [name] + RootNames(bases[1..], used + {name})[..i - 1];
    }
  }

  /** Otherwise it is numbered: the base, a space, and the least number from 2 on that gives a free name. */
  lemma {:induction false} RootIsNumbered(bases: seq<Text>, used: set<Text>, i: nat) returns (k: nat)
    requires i < |bases| && RootNames(bases, used)[i] != bases[i]
    ensures k >= 2 && RootNames(bases, used)[i] == bases[i] + [32] + Decimal(k)
    ensures forall j :: 2 <= j < k ==>
              bases[i] + [32] + Decimal(j) in used || bases[i] + [32] + Decimal(j) in RootNames(bases, used)[..i]
  {
    var names, name := RootNames(bases, used), UniqueName(bases[0], used);
    if i == 0 {
      k := FirstFree(bases[0], used, 2);
      forall j | 2 <= j < k ensures bases[0] + [32] + Decimal(j) in used { assert Candidate(bases[0], j) in used; }
    } else {
      var later := RootNames(bases[1..], used + {name})[..i - 1];
      k := RootIsNumbered(bases[1..], used + {name}, i - 1);
      assert names[..i] == [name] + later;
      forall j | 2 <= j < k
        ensures bases[i] + [32] + Decimal(j) in used || bases[i] + [32] + Decimal(j) in names[..i]
      {
        var candidate := bases[1..][i - 1] + [32] + Decimal(j);
        assert candidate in used + {name} || candidate in later;
        assert name in [name] + later && (candidate in later ==> candidate in [name] + later);
      }
    }
  }

  /** The roots of a selection never clash, even when a source is itself called like a numbered candidate. */
  lemma {:induction false} RootNamesDiffer(bases: seq<Text>, used: set<Text>, i: nat, j: nat)
    requires (forall k :: 0 <= k < |bases| ==> IsName(bases[k])) && i < j < |bases|
    ensures RootNames(bases, used)[i] != RootNames(bases, used)[j]
  {
    var name := UniqueName(bases[0], used);
    if i > 0 {
      RootNamesDiffer(bases[1..], used + {name}, i - 1, j - 1);
    } else {
      RootNameIsFree(bases[1..], used + {name}, j - 1);
    }
  }
}

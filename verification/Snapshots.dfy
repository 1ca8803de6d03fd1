/** Snapshots: the canonical order of representations, the bytes their fingerprint is taken of, and portable aliases. */
module Snapshots {
  import opened Bytes
  import opened Texts
  import opened Sorting
  import opened Model

  // ---------------------------------------------------------------------------
  // Canonical order
  // ---------------------------------------------------------------------------

  /** Item first, then the format, byte by byte. */
  function SortKey(r: Representation): Key { [r.item as int] + r.format }

  lemma SortKeyIsItemAndFormat(a: Representation, b: Representation)
    ensures SortKey(a) == SortKey(b) <==> a.item == b.item && a.format == b.format
  {
    if SortKey(a) == SortKey(b) {
      assert SortKey(a)[0] == a.item && SortKey(b)[0] == b.item;
      assert SortKey(a)[1..] == a.format && SortKey(b)[1..] == b.format;
    }
  }

  function Canonical(reps: seq<Representation>): seq<Representation> { Sort(SortKey, reps) }

  /** The elements with one key, in their order. */
  function WithKey<T>(key: T -> Key, s: seq<T>, k: Key): seq<T> {
    if s == [] then [] else (if key(s[0]) == k then [s[0]] else []) + WithKey(key, s[1..], k)
  }

  lemma {:induction false} InsertKeepsOrder<T>(key: T -> Key, x: T, s: seq<T>, k: Key)
    requires SortedBy(key, s)
    ensures WithKey(key, Insert(key, x, s), k) == (if key(x) == k then [x] else []) + WithKey(key, s, k)
  {
    if s == [] || LexLe(key(x), key(s[0])) {
      assert ([x] + s)[1..] == s;
    } else {
      InsertKeepsOrder(key, x, s[1..], k);
      var r := Insert(key, x, s[1..]);
      assert ([s[0]] + r)[1..] == r;
      if key(x) == k == key(s[0]) { LexReflexive(k); }
    }
  }

  lemma {:induction false} LexReflexive(k: Key)
    ensures LexLe(k, k)
  {
    if k != [] { LexReflexive(k[1..]); }
  }

  /** Sorting is stable. */
  lemma {:induction false} SortKeepsOrder<T>(key: T -> Key, s: seq<T>, k: Key)
    ensures WithKey(key, Sort(key, s), k) == WithKey(key, s, k)
  {
    if s != [] {
      SortKeepsOrder(key, s[1..], k);
      SortSorts(key, s[1..]);
      InsertKeepsOrder(key, s[0], Sort(key, s[1..]), k);
    }
  }

  /** Lists that agree key by key. */
  ghost predicate AgreeByKey<T>(key: T -> Key, a: seq<T>, b: seq<T>) {
    forall k :: WithKey(key, a, k) == WithKey(key, b, k)
  }

  lemma {:induction false} WithKeyFinds<T>(key: T -> Key, s: seq<T>, k: Key)
    ensures WithKey(key, s, k) != [] ==> exists x :: x in s && key(x) == k
    ensures forall x :: x in s && key(x) == k ==> x in WithKey(key, s, k)
  {
    if s != [] {
      WithKeyFinds(key, s[1..], k);
      assert forall x :: x in s ==> x == s[0] || x in s[1..];
    }
  }

  /** The least key comes first in both lists, and its first element is the same. */
  lemma AgreeingHeads<T>(key: T -> Key, a: seq<T>, b: seq<T>)
    requires SortedBy(key, a) && SortedBy(key, b) && AgreeByKey(key, a, b) && a != [] && b != []
    ensures a[0] == b[0]
  {
    var ka, kb := key(a[0]), key(b[0]);
    WithKeyFinds(key, a, kb);
    WithKeyFinds(key, b, ka);
    WithKeyFinds(key, a, ka);
    WithKeyFinds(key, b, kb);
    assert WithKey(key, a, ka) == WithKey(key, b, ka) && WithKey(key, a, kb) == WithKey(key, b, kb);
    var x :| x in a && key(x) == kb;
    var y :| y in b && key(y) == ka;
    LexReflexive(ka);
    LexReflexive(kb);
    assert LexLe(ka, kb) && LexLe(kb, ka);
    LexAntisymmetric(ka, kb);
    assert WithKey(key, a, ka)[0] == a[0] && WithKey(key, b, ka)[0] == b[0];
  }

  lemma NothingWithAnyKey<T>(key: T -> Key, a: seq<T>, b: seq<T>)
    requires AgreeByKey(key, a, b)
    ensures a == [] ==> b == []
  {
    if b != [] { assert WithKey(key, a, key(b[0])) == WithKey(key, b, key(b[0])) != []; }
  }

  lemma {:induction false} AgreeingSorted<T>(key: T -> Key, a: seq<T>, b: seq<T>)
    requires SortedBy(key, a) && SortedBy(key, b) && AgreeByKey(key, a, b)
    ensures a == b
    decreases |a|
  {
    if a == [] {
      NothingWithAnyKey(key, a, b);
    } else {
      assert WithKey(key, a, key(a[0])) == WithKey(key, b, key(a[0]));
      AgreeingHeads(key, a, b);
      forall k ensures WithKey(key, a[1..], k) == WithKey(key, b[1..], k) {
        assert WithKey(key, a, k) == WithKey(key, b, k);
        if key(a[0]) == k {
          assert WithKey(key, a[1..], k) == WithKey(key, a, k)[1..] &&
                 WithKey(key, b[1..], k) == WithKey(key, b, k)[1..];
        } else {
          assert WithKey(key, a[1..], k) == WithKey(key, a, k) && WithKey(key, b[1..], k) == WithKey(key, b, k);
        }
      }
      AgreeingSorted(key, a[1..], b[1..]);
      assert a == [a[0]] + a[1..] && b == [b[0]] + b[1..];
    }
  }

  /** Two lists have the same canonical order exactly when they agree key by key. */
  lemma CanonicalAgrees(a: seq<Representation>, b: seq<Representation>)
    ensures Canonical(a) == Canonical(b) <==> AgreeByKey(SortKey, a, b)
  {
    forall k
      ensures WithKey(SortKey, Canonical(a), k) == WithKey(SortKey, a, k)
      ensures WithKey(SortKey, Canonical(b), k) == WithKey(SortKey, b, k)
    {
      SortKeepsOrder(SortKey, a, k);
      SortKeepsOrder(SortKey, b, k);
    }
    SortSorts(SortKey, a);
    SortSorts(SortKey, b);
    if AgreeByKey(SortKey, a, b) {
      AgreeingSorted(SortKey, Canonical(a), Canonical(b));
    }
  }

  /** No format comes after a larger one, byte by byte; one that begins another is the smaller one. */
  ghost predicate FormatLe(a: Text, b: Text) {
    a <= b || exists k :: 0 <= k < |a| && k < |b| && a[..k] == b[..k] && a[k] < b[k]
  }

  /** The canonical order keeps all representations: smaller items first, and within an item smaller formats. */
  lemma CanonicalIsOrdered(reps: seq<Representation>, i: nat, j: nat)
    requires i < j < |Canonical(reps)|
    ensures multiset(Canonical(reps)) == multiset(reps)
    ensures var a, b := Canonical(reps)[i], Canonical(reps)[j];
            a.item < b.item || (a.item == b.item && FormatLe(a.format, b.format))
  {
    var a, b := Canonical(reps)[i], Canonical(reps)[j];
    SortSorts(SortKey, reps);
    assert LexLe(SortKey(a), SortKey(b));
    assert SortKey(a)[1..] == a.format && SortKey(b)[1..] == b.format;
    if a.item == b.item { LexLeExactlyWhen(SortKey(a)[1..], SortKey(b)[1..]); }
  }

  // ---------------------------------------------------------------------------
  // The input of the digest
  // ---------------------------------------------------------------------------

  function Length64(n: nat): seq<byte> { BigEndian(if n <= U64_MAX then n else U64_MAX, 8) }

  /** One representation: item, length and bytes of the format, length and bytes of the data. */
  function Record(r: Representation): seq<byte> {
    BigEndian(r.item, 4) + (Length64(|r.format|) + (r.format + (Length64(|r.data|) + r.data)))
  }

  function DigestInput(reps: seq<Representation>): seq<byte> {
    if reps == [] then [] else Record(reps[0]) + DigestInput(reps[1..])
  }

  /** Numbers are written with their highest byte first. */
  lemma RecordIsWritten(r: Representation)
    requires |r.format| < 0x1_0000_0000 && |r.data| < 0x1_0000_0000
    ensures Record(r) ==
            [r.item / 0x100_0000, r.item / 0x1_0000 % 256, r.item / 0x100 % 256, r.item % 256]
            + ([0, 0, 0, 0] + [|r.format| / 0x100_0000, |r.format| / 0x1_0000 % 256, |r.format| / 0x100 % 256,
                               |r.format| % 256]
               + (r.format
                  + ([0, 0, 0, 0] + [|r.data| / 0x100_0000, |r.data| / 0x1_0000 % 256, |r.data| / 0x100 % 256,
                                     |r.data| % 256] + r.data)))
  {
    FourBytes(r.item);
    EightBytes(|r.format|);
    EightBytes(|r.data|);
  }

  lemma LastTwoBytes(n: nat, width: nat)
    ensures BigEndian(n, width + 2) == BigEndian(n / 256 / 256, width) + [n / 256 % 256, n % 256]
  {
    assert BigEndian(n, width + 2) == BigEndian(n / 256, width + 1) + [n % 256];
    assert BigEndian(n / 256, width + 1) == BigEndian(n / 256 / 256, width) + [n / 256 % 256];
  }

  /** The first four of eight bytes are zero where four suffice. */
  lemma EightBytes(n: nat)
    requires n < 0x1_0000_0000
    ensures Length64(n) ==
            [0, 0, 0, 0] + [n / 0x100_0000, n / 0x1_0000 % 256, n / 0x100 % 256, n % 256]
  {
    var half := n / 256 / 256;
    LastTwoBytes(n, 6);
    LastTwoBytes(half, 4);
    LastTwoBytes(n, 2);
    LastTwoBytes(half, 0);
    assert half / 256 / 256 == 0;
    FourBytes(0);
    FourBytes(n);
    var low, high := [n / 256 % 256, n % 256], [half / 256 % 256, half % 256];
    Associate([0, 0, 0, 0], high, low);
    assert BigEndian(n, 4) == high + low;
  }

  /** A running digest, as the bytes it has been given. */
  class Digest {
    var input: seq<byte>

    constructor ()
      ensures input == []
    {
      input := [];
    }

    method Update(bytes: seq<byte>)
      modifies this
      ensures input == old(input) + bytes
    {
      input := input + bytes;
    }

    /** `fingerprint`, field by field. */
    method AddAll(reps: seq<Representation>)
      modifies this
      ensures input == old(input) + DigestInput(reps)
    {
      var rest := reps;
      while rest != []
        invariant input + DigestInput(rest) == old(input) + DigestInput(reps)
        decreases |rest|
      {
        ghost var before, r := input, rest[0];
        Update(BigEndian(rest[0].item, 4));
        Update(Length64(|rest[0].format|));
        Update(rest[0].format);
        Update(Length64(|rest[0].data|));
        Update(rest[0].data);
        FieldsMakeRecord(before, r, DigestInput(rest[1..]));
        rest := rest[1..];
      }
      assert input + [] == input;
    }
  }

  lemma Regroup(a: seq<byte>, b: seq<byte>, c: seq<byte>, d: seq<byte>, e: seq<byte>, f: seq<byte>, g: seq<byte>)
    ensures a + b + c + d + e + f + g == a + (b + (c + (d + (e + f))) + g)
  {
    Associate(b, c + (d + (e + f)), g);
    Associate(c, d + (e + f), g);
    Associate(d, e + f, g);
    Associate(e, f, g);
    Associate(a + b + c + d + e, f, g);
    Associate(a + b + c + d, e, f + g);
    Associate(a + b + c, d, e + (f + g));
    Associate(a + b, c, d + (e + (f + g)));
    Associate(a, b, c + (d + (e + (f + g))));
  }

  lemma FieldsMakeRecord(before: seq<byte>, r: Representation, later: seq<byte>)
    ensures before + BigEndian(r.item, 4) + Length64(|r.format|) + r.format + Length64(|r.data|) + r.data + later
            == before + (Record(r) + later)
  {
    Regroup(before, BigEndian(r.item, 4), Length64(|r.format|), r.format, Length64(|r.data|), r.data, later);
  }

  predicate Measurable(r: Representation) { |r.format| <= U64_MAX && |r.data| <= U64_MAX }

  predicate AllMeasurable(reps: seq<Representation>) { forall i :: 0 <= i < |reps| ==> Measurable(reps[i]) }

  lemma BigEndianInjective(m: nat, n: nat, width: nat, a: seq<byte>, b: seq<byte>)
    requires m < Pow256(width) && n < Pow256(width) && BigEndian(m, width) + a == BigEndian(n, width) + b
    ensures m == n && a == b
  {
    BigEndianRoundTrip(m, width);
    BigEndianRoundTrip(n, width);
    var s := BigEndian(m, width) + a;
    assert s[..width] == BigEndian(m, width) && s[width..] == a;
    assert (BigEndian(n, width) + b)[..width] == BigEndian(n, width) && (BigEndian(n, width) + b)[width..] == b;
  }

  /** A length-prefixed field can be told from what follows it. */
  lemma FieldIsUnique(x: seq<byte>, y: seq<byte>, a: seq<byte>, b: seq<byte>)
    requires |x| <= U64_MAX && |y| <= U64_MAX && Length64(|x|) + (x + a) == Length64(|y|) + (y + b)
    ensures x == y && a == b
  {
    Widths();
    BigEndianInjective(|x|, |y|, 8, x + a, y + b);
    assert (x + a)[..|x|] == x && (x + a)[|x|..] == a;
    assert (y + b)[..|y|] == y && (y + b)[|y|..] == b;
  }

  lemma RecordIsUnique(r: Representation, s: Representation, a: seq<byte>, b: seq<byte>)
    requires Measurable(r) && Measurable(s) && Record(r) + a == Record(s) + b
    ensures r == s && a == b
  {
    Widths();
    RegroupRecord(r, a);
    RegroupRecord(s, b);
    BigEndianInjective(r.item, s.item, 4, AfterItem(r, a), AfterItem(s, b));
    FieldIsUnique(r.format, s.format, Length64(|r.data|) + (r.data + a), Length64(|s.data|) + (s.data + b));
    FieldIsUnique(r.data, s.data, a, b);
  }

  function AfterItem(r: Representation, a: seq<byte>): seq<byte> {
    Length64(|r.format|) + (r.format + (Length64(|r.data|) + (r.data + a)))
  }

  lemma RegroupRecord(r: Representation, a: seq<byte>)
    ensures Record(r) + a == BigEndian(r.item, 4) + AfterItem(r, a)
  {
  }

  /** Different lists of representations never have the same digest input. */
  lemma {:induction false} DigestInputInjective(a: seq<Representation>, b: seq<Representation>)
    requires AllMeasurable(a) && AllMeasurable(b) && DigestInput(a) == DigestInput(b)
    ensures a == b
  {
    if a != [] && b != [] {
      RecordIsUnique(a[0], b[0], DigestInput(a[1..]), DigestInput(b[1..]));
      DigestInputInjective(a[1..], b[1..]);
      assert a == [a[0]] + a[1..] && b == [b[0]] + b[1..];
    }
  }

  /** `Snapshot::new`: the canonical order, and what the fingerprint is the digest of. */
  method Snapshot(reps: seq<Representation>) returns (ordered: seq<Representation>, digest: Digest)
    ensures ordered == Canonical(reps) && digest.input == DigestInput(Canonical(reps))
  {
    ordered := Canonical(reps);
    digest := new Digest();
    digest.AddAll(ordered);
  }

  /** Two snapshots have the same digest input exactly when their representations agree key by key. */
  lemma FingerprintsTellContentsApart(a: seq<Representation>, b: seq<Representation>)
    requires AllMeasurable(a) && AllMeasurable(b)
    ensures DigestInput(Canonical(a)) == DigestInput(Canonical(b)) <==> AgreeByKey(SortKey, a, b)
  {
    CanonicalAgrees(a, b);
    CanonicalIsMeasurable(a);
    CanonicalIsMeasurable(b);
    if DigestInput(Canonical(a)) == DigestInput(Canonical(b)) {
      DigestInputInjective(Canonical(a), Canonical(b));
    }
  }

  lemma CanonicalIsMeasurable(a: seq<Representation>)
    requires AllMeasurable(a)
    ensures AllMeasurable(Canonical(a))
  {
    SameMembers(a, Canonical(a));
    forall i | 0 <= i < |Canonical(a)| ensures Measurable(Canonical(a)[i]) {
      assert Canonical(a)[i] in a;
    }
  }

  /** With distinct keys the order in which a clipboard lists its formats does not show in the fingerprint. */
  lemma ListingOrderDoesNotShow(a: seq<Representation>, b: seq<Representation>)
    requires DistinctBy(SortKey, a) && multiset(a) == multiset(b)
    ensures DigestInput(Canonical(a)) == DigestInput(Canonical(b))
  {
    SortIsCanonical(SortKey, a, b);
  }

  // ---------------------------------------------------------------------------
  // Portable aliases
  // ---------------------------------------------------------------------------

  /** Formats with the other platform's names for them. */
  const ALIASES: seq<(string, seq<string>)> := [
    ("public.utf8-plain-text", ["text/plain;charset=utf-8"]),
    ("public.plain-text", ["text/plain;charset=utf-8"]),
    ("NSStringPboardType", ["text/plain;charset=utf-8"]),
    ("UTF8_STRING", ["public.utf8-plain-text", "text/plain;charset=utf-8"]),
    ("text/plain", ["public.utf8-plain-text"]),
    ("text/plain;charset=utf-8", ["public.utf8-plain-text"]),
    ("public.html", ["text/html"]),
    ("text/html", ["public.html"]),
    ("public.rtf", ["text/rtf"]),
    ("text/rtf", ["public.rtf"]),
    ("application/rtf", ["public.rtf"]),
    ("public.png", ["image/png"]),
    ("image/png", ["public.png"]),
    ("public.jpeg", ["image/jpeg"]),
    ("image/jpeg", ["public.jpeg"]),
    ("public.tiff", ["image/tiff"]),
    ("image/tiff", ["public.tiff"]),
    ("com.compuserve.gif", ["image/gif"]),
    ("image/gif", ["com.compuserve.gif"]),
    ("public.heic", ["image/heic"]),
    ("image/heic", ["public.heic"]),
    ("public.heif", ["image/heif"]),
    ("image/heif", ["public.heif"]),
    ("org.webmproject.webp", ["image/webp"]),
    ("image/webp", ["org.webmproject.webp"]),
    ("com.adobe.pdf", ["application/pdf"]),
    ("application/pdf", ["com.adobe.pdf"]),
    ("public.file-url", ["text/uri-list"])
  ]

  function AsciiAll(names: seq<string>): seq<Text> {
    if names == [] then [] else [Ascii(names[0])] + AsciiAll(names[1..])
  }

  function Entry(format: Text, table: seq<(string, seq<string>)>): seq<string> {
    if table == [] then [] else if Ascii(table[0].0) == format then table[0].1 else Entry(format, table[1..])
  }

  function AliasesOf(format: Text): seq<Text> { AsciiAll(Entry(format, ALIASES)) }

  predicate Offers(reps: seq<Representation>, item: u32, format: Text) {
    exists i :: 0 <= i < |reps| && reps[i].item == item && reps[i].format == format
  }

  /** `r` copies an original under one of the aliases of its format. */
  predicate AliasOf(originals: seq<Representation>, r: Representation) {
    exists i {:trigger originals[i]} :: 0 <= i < |originals| &&
      r.item == originals[i].item && r.data == originals[i].data && r.format in AliasesOf(originals[i].format)
  }

  /** The alias is there, or the rest of the budget does not pay for it. */
  predicate Covered(reps: seq<Representation>, original: Representation, alias: Text, left: nat) {
    Offers(reps, original.item, alias) || |original.data| > left
  }

  /** No alias that still fits the rest of the budget has been left out of what the first `n` originals call for. */
  ghost predicate NothingFittingMissed(originals: seq<Representation>, n: nat, reps: seq<Representation>, left: nat)
    requires n <= |originals|
  {
    forall i, alias :: 0 <= i < n && alias in AliasesOf(originals[i].format) ==>
      Covered(reps, originals[i], alias, left)
  }

  /** What adding aliases to `originals` may lead to: the originals first, then aliases that the budget paid for. */
  ghost predicate Extended(originals: seq<Representation>, reps: seq<Representation>, budget: nat, left: nat) {
    && originals <= reps
    && (forall j :: |originals| <= j < |reps| ==>
          AliasOf(originals, reps[j]) && !Offers(reps[..j], reps[j].item, reps[j].format))
    && TotalBytes(reps) + left == TotalBytes(originals) + budget
    && (DistinctBy(SortKey, originals) ==> DistinctBy(SortKey, reps))
  }

  lemma AddOne(originals: seq<Representation>, reps: seq<Representation>, budget: nat, left: nat, r: Representation)
    requires Extended(originals, reps, budget, left) && AliasOf(originals, r) && |r.data| <= left
    requires !Offers(reps, r.item, r.format)
    ensures Extended(originals, reps + [r], budget, left - |r.data|)
  {
    TotalAppend(reps, r);
    forall j | 0 <= j < |reps| ensures SortKey(reps[j]) != SortKey(r) {
      SortKeyIsItemAndFormat(reps[j], r);
    }
    var more := reps + [r];
    forall j | |originals| <= j <= |reps| ensures !Offers(more[..j], more[j].item, more[j].format) {
      assert more[..j] == reps[..j];
      if j == |reps| { assert reps[..j] == reps; }
    }
  }

  /**
   * What the turn of original `n` adds: copies of it under its aliases, all that are missing and fit what is left; and
   * while one of them is missing, none of those after it.
   */
  ghost predicate Served(originals: seq<Representation>, n: nat, before: seq<Representation>,
      after: seq<Representation>, left: int)
    requires n < |originals|
  {
    var o, aliases := originals[n], AliasesOf(originals[n].format);
    && before <= after
    && (forall j :: |before| <= j < |after| ==>
          after[j].item == o.item && after[j].data == o.data && after[j].format in aliases)
    && (forall a :: 0 <= a < |aliases| ==> Offers(after, o.item, aliases[a]) || |o.data| > left)
    && (forall a, b :: 0 <= a < b < |aliases| && !Offers(after, o.item, aliases[a]) ==>
          (Offers(after, o.item, aliases[b]) ==> Offers(before, o.item, aliases[b]) || aliases[b] in aliases[..a]))
  }

  /** Originals are served in their order, each from what those before it have left of the budget. */
  ghost predicate InTurn(originals: seq<Representation>, stages: seq<seq<Representation>>, budget: nat) {
    && stages != [] && stages[0] == originals && |stages| <= |originals| + 1
    && forall n {:trigger stages[n]} :: 0 <= n < |stages| - 1 ==>
         Turn(originals, n, stages[n], stages[n + 1], budget)
  }

  /** What is left is the budget less what has been added. */
  ghost predicate Turn(originals: seq<Representation>, n: nat, before: seq<Representation>, after: seq<Representation>,
      budget: nat)
    requires n < |originals|
  {
    Served(originals, n, before, after, TotalBytes(originals) + budget - TotalBytes(after))
  }

  /** One alias, unless the item has that format already or the budget is too small. */
  method AddAlias(originals: seq<Representation>, n: nat, alias: Text, reps: seq<Representation>, ghost budget: nat,
      left: nat)
    returns (r: seq<Representation>, rest: nat)
    requires n < |originals| && alias in AliasesOf(originals[n].format) && Extended(originals, reps, budget, left)
    ensures Extended(originals, r, budget, rest) && rest <= left
    ensures if Offers(reps, originals[n].item, alias) || |originals[n].data| > left then r == reps && rest == left
            else r == reps + [Representation(originals[n].item, alias, originals[n].data)]
                 && rest == left - |originals[n].data|
  {
    var known := IsOffered(reps, originals[n].item, alias);
    if known || |originals[n].data| > left {
      return reps, left;
    }
    var added := Representation(originals[n].item, alias, originals[n].data);
    AddOne(originals, reps, budget, left, added);
    r, rest := reps + [added], left - |added.data|;
  }

  /** The same for the first `m` of its aliases. */
  ghost predicate ServedUpTo(originals: seq<Representation>, n: nat, m: nat, before: seq<Representation>,
      after: seq<Representation>, left: int)
    requires n < |originals| && m <= |AliasesOf(originals[n].format)|
  {
    var o, aliases := originals[n], AliasesOf(originals[n].format);
    && before <= after
    && (forall j :: |before| <= j < |after| ==>
          after[j].item == o.item && after[j].data == o.data && after[j].format in aliases[..m])
    && (forall a :: 0 <= a < m ==> Offers(after, o.item, aliases[a]) || |o.data| > left)
    && (forall a, b :: 0 <= a < b < |aliases| && !Offers(after, o.item, aliases[a]) && a < m ==>
          (Offers(after, o.item, aliases[b]) ==> Offers(before, o.item, aliases[b]) || aliases[b] in aliases[..a]))
  }

  lemma OffersMore(reps: seq<Representation>, r: seq<Representation>, added: Representation, item: u32, format: Text)
    requires r == reps + [added]
    ensures Offers(r, item, format) <==> Offers(reps, item, format) || (added.item == item && added.format == format)
  {
    assert r[|reps|] == added;
    if i :| 0 <= i < |reps| && reps[i].item == item && reps[i].format == format { assert r[i] == reps[i]; }
  }

  lemma ServesOneMore(originals: seq<Representation>, n: nat, m: nat, before: seq<Representation>,
      reps: seq<Representation>, left: nat, r: seq<Representation>, rest: nat)
    requires n < |originals| && m < |AliasesOf(originals[n].format)|
    requires ServedUpTo(originals, n, m, before, reps, left)
    requires var o, alias := originals[n], AliasesOf(originals[n].format)[m];
             if Offers(reps, o.item, alias) || |o.data| > left then r == reps && rest == left
             else r == reps + [Representation(o.item, alias, o.data)] && rest == left - |o.data|
    ensures ServedUpTo(originals, n, m + 1, before, r, rest)
  {
    var o, aliases := originals[n], AliasesOf(originals[n].format);
    assert aliases[..m + 1] == aliases[..m] + [aliases[m]];
    if r != reps {
      var added := Representation(o.item, aliases[m], o.data);
      forall a | 0 <= a < |aliases|
        ensures Offers(r, o.item, aliases[a]) <==> Offers(reps, o.item, aliases[a]) || aliases[a] == aliases[m]
      {
        OffersMore(reps, r, added, o.item, aliases[a]);
      }
    } else {
      forall b | m < b < |aliases| && !Offers(reps, o.item, aliases[m]) && Offers(reps, o.item, aliases[b])
        ensures Offers(before, o.item, aliases[b]) || aliases[b] in aliases[..m]
      {
        OfferedBeforeOrAdded(before, reps, o.item, aliases[b]);
      }
    }
  }

  lemma OfferedBeforeOrAdded(before: seq<Representation>, after: seq<Representation>, item: u32, format: Text)
    requires before <= after && Offers(after, item, format)
    ensures Offers(before, item, format) || exists j :: |before| <= j < |after| && after[j].format == format
  {
    var i :| 0 <= i < |after| && after[i].item == item && after[i].format == format;
    if i < |before| { assert before[i] == after[i]; }
  }

  /** One original's aliases. */
  method AddAliases(originals: seq<Representation>, n: nat, reps: seq<Representation>, ghost budget: nat, left: nat)
    returns (r: seq<Representation>, rest: nat)
    requires n < |originals| && Extended(originals, reps, budget, left)
             && NothingFittingMissed(originals, n, reps, left)
    ensures Extended(originals, r, budget, rest) && NothingFittingMissed(originals, n + 1, r, rest)
    ensures Served(originals, n, reps, r, rest)
  {
    r, rest := reps, left;
    var aliases := AliasesOf(originals[n].format);
    for a := 0 to |aliases|
      invariant Extended(originals, r, budget, rest) && rest <= left && ServedUpTo(originals, n, a, reps, r, rest)
    {
      ghost var before, had := r, rest;
      r, rest := AddAlias(originals, n, aliases[a], r, budget, rest);
      ServesOneMore(originals, n, a, reps, before, had, r, rest);
    }
    forall i, alias | 0 <= i < n && alias in AliasesOf(originals[i].format)
      ensures Covered(r, originals[i], alias, rest)
    {
      StaysCovered(reps, left, r, rest, originals[i], alias);
    }
  }

  lemma StaysCovered(
      reps: seq<Representation>, left: nat, r: seq<Representation>, rest: nat, original: Representation, alias: Text)
    requires Covered(reps, original, alias, left) && reps <= r && rest <= left
    ensures Covered(r, original, alias, rest)
  {
    if Offers(reps, original.item, alias) {
      var i :| 0 <= i < |reps| && reps[i].item == original.item && reps[i].format == alias;
      assert r[i] == reps[i];
    }
  }

  method IsOffered(reps: seq<Representation>, item: u32, format: Text) returns (known: bool)
    ensures known <==> Offers(reps, item, format)
  {
    for i := 0 to |reps|
      invariant forall j :: 0 <= j < i ==> !(reps[j].item == item && reps[j].format == format)
    {
      if reps[i].item == item && reps[i].format == format { return true; }
    }
    return false;
  }

  lemma TurnIsOver(originals: seq<Representation>, stages: seq<seq<Representation>>, r: seq<Representation>,
      budget: nat)
    requires InTurn(originals, stages, budget) && |stages| <= |originals|
    requires Turn(originals, |stages| - 1, stages[|stages| - 1], r, budget)
    ensures InTurn(originals, stages + [r], budget)
  {
    var more := stages + [r];
    forall n | 0 <= n < |more| - 1 ensures Turn(originals, n, more[n], more[n + 1], budget) {
      assert more[n] == stages[n];
    }
  }

  /** `add_portable_aliases`: within the budget, and as much as it allows. */
  method AddPortableAliases(reps: seq<Representation>, budget: nat)
    returns (r: seq<Representation>, left: nat, ghost stages: seq<seq<Representation>>)
    ensures Extended(reps, r, budget, left) && NothingFittingMissed(reps, |reps|, r, left)
    ensures InTurn(reps, stages, budget) && |stages| == |reps| + 1 && stages[|reps|] == r
  {
    r, left, stages := reps, budget, [reps];
    for n := 0 to |reps|
      invariant Extended(reps, r, budget, left) && NothingFittingMissed(reps, n, r, left)
      invariant InTurn(reps, stages, budget) && |stages| == n + 1 && stages[n] == r
    {
      r, left := AddAliases(reps, n, r, budget, left);
      TurnIsOver(reps, stages, r, budget);
      stages := stages + [r];
    }
  }
}

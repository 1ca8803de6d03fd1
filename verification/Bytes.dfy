/** Bytes, big-endian integers, and a self-delimiting encoding for the headers that precede raw bodies. */
module Bytes {
  import opened Wrappers

  type byte = x: int | 0 <= x < 256

  /** UTF-8 text, as its bytes. */
  type Text = seq<byte>

  const U32_MAX: nat := 0xFFFF_FFFF
  const U64_MAX: nat := 0xFFFF_FFFF_FFFF_FFFF

  type u32 = n: nat | n <= U32_MAX
  type u64 = n: nat | n <= U64_MAX

  function Pow256(width: nat): nat {
    if width == 0 then 1 else 256 * Pow256(width - 1)
  }

  function BigEndian(n: nat, width: nat): (b: seq<byte>)
    ensures |b| == width
  {
    if width == 0 then [] else BigEndian(n / 256, width - 1) + [n % 256]
  }

  function FromBigEndian(b: seq<byte>): nat {
    if b == [] then 0 else 256 * FromBigEndian(b[..|b| - 1]) + b[|b| - 1]
  }

  lemma {:induction false} BigEndianRoundTrip(n: nat, width: nat)
    requires n < Pow256(width)
    ensures FromBigEndian(BigEndian(n, width)) == n
  {
    if width > 0 {
      BigEndianRoundTrip(n / 256, width - 1);
      assert BigEndian(n, width)[..width - 1] == BigEndian(n / 256, width - 1);
    }
  }

  lemma {:induction false} BigEndianOf(b: seq<byte>)
    ensures BigEndian(FromBigEndian(b), |b|) == b && FromBigEndian(b) < Pow256(|b|)
  {
    if b != [] {
      var last := |b| - 1;
      BigEndianOf(b[..last]);
      assert FromBigEndian(b) / 256 == FromBigEndian(b[..last]) && FromBigEndian(b) % 256 == b[last];
      assert b[..last] + [b[last]] == b;
    }
  }

  /** Network order: the most significant byte first. */
  lemma FourBytes(n: nat)
    requires n < 0x1_0000_0000
    ensures BigEndian(n, 4) == [n / 0x100_0000, n / 0x1_0000 % 256, n / 0x100 % 256, n % 256]
  {
    assert BigEndian(n, 4) == BigEndian(n / 256, 3) + [n % 256];
    assert BigEndian(n / 256, 3) == BigEndian(n / 256 / 256, 2) + [n / 256 % 256];
    assert BigEndian(n / 256 / 256, 2) == BigEndian(n / 256 / 256 / 256, 1) + [n / 256 / 256 % 256];
    assert BigEndian(n / 256 / 256 / 256, 1) == [] + [n / 256 / 256 / 256 % 256];
    assert n / 256 / 256 == n / 0x1_0000 && n / 256 / 256 / 256 == n / 0x100_0000;
  }

  lemma Widths()
    ensures Pow256(4) == U32_MAX + 1 && Pow256(8) == U64_MAX + 1
  {
    assert Pow256(2) == 65536;
    assert Pow256(4) == 256 * 256 * Pow256(2);
    assert Pow256(6) == 256 * 256 * Pow256(4);
    assert Pow256(8) == 256 * 256 * Pow256(6);
  }

  // ---------------------------------------------------------------------------
  // Self-delimiting writing and parsing
  // ---------------------------------------------------------------------------

  datatype Parsed<+T> = NoParse | Got(value: T, rest: seq<byte>)

  /** Seven bits a byte, lowest first; the high bit says that more follow. */
  function PutNat(n: nat): (b: seq<byte>)
    ensures b != []
  {
    if n < 128 then [n] else [128 + n % 128] + PutNat(n / 128)
  }

  function ParseNat(b: seq<byte>): (r: Parsed<nat>) {
    if b == [] then NoParse
    else if b[0] < 128 then Got(b[0], b[1..])
    else
      match ParseNat(b[1..])
      case NoParse => NoParse
      case Got(high, rest) => Got(128 * high + (b[0] - 128), rest)
  }

  function ParseBounded(bound: nat, b: seq<byte>): (r: Parsed<nat>)
    ensures r.Got? ==> r.value <= bound
  {
    match ParseNat(b)
    case Got(n, rest) => if n <= bound then Got(n, rest) else NoParse
    case NoParse => NoParse
  }

  lemma {:induction false} NatRoundTrip(n: nat, rest: seq<byte>)
    ensures ParseNat(PutNat(n) + rest) == Got(n, rest)
  {
    var b := PutNat(n) + rest;
    if n < 128 {
      assert b[1..] == rest;
    } else {
      NatRoundTrip(n / 128, rest);
      assert b[1..] == PutNat(n / 128) + rest;
    }
  }

  function PutText(s: Text): seq<byte> { PutNat(|s|) + s }

  function ParseText(b: seq<byte>): Parsed<Text> {
    match ParseNat(b)
    case NoParse => NoParse
    case Got(n, rest) => if |rest| < n then NoParse else Got(rest[..n], rest[n..])
  }

  lemma TextRoundTrip(s: Text, rest: seq<byte>)
    ensures ParseText(PutText(s) + rest) == Got(s, rest)
  {
    NatRoundTrip(|s|, s + rest);
    assert PutText(s) + rest == PutNat(|s|) + (s + rest);
    assert (s + rest)[..|s|] == s && (s + rest)[|s|..] == rest;
  }

  function PutOption<T>(put: T -> seq<byte>, x: Option<T>): seq<byte> {
    match x
    case None => [0]
    case Some(v) => [1] + put(v)
  }

  function ParseOption<T>(parse: seq<byte> -> Parsed<T>, b: seq<byte>): Parsed<Option<T>> {
    if b == [] then NoParse
    else if b[0] == 0 then Got(None, b[1..])
    else if b[0] != 1 then NoParse
    else
      match parse(b[1..])
      case NoParse => NoParse
      case Got(v, rest) => Got(Some(v), rest)
  }

  /** `parse` undoes `put`, whatever follows. */
  ghost predicate Inverts<T(!new)>(put: T -> seq<byte>, parse: seq<byte> -> Parsed<T>) {
    forall x: T, rest: seq<byte> {:trigger put(x) + rest} :: parse(put(x) + rest) == Got(x, rest)
  }

  lemma OptionRoundTrip<T(!new)>(put: T -> seq<byte>, parse: seq<byte> -> Parsed<T>, x: Option<T>, rest: seq<byte>)
    requires Inverts(put, parse)
    ensures ParseOption(parse, PutOption(put, x) + rest) == Got(x, rest)
  {
    var b := PutOption(put, x) + rest;
    match x
    case None => assert b[1..] == rest;
    case Some(v) => assert b[1..] == put(v) + rest;
  }

  function PutAll<T>(put: T -> seq<byte>, xs: seq<T>): seq<byte> {
    if xs == [] then [] else put(xs[0]) + PutAll(put, xs[1..])
  }

  function ParseCount<T>(parse: seq<byte> -> Parsed<T>, n: nat, b: seq<byte>): Parsed<seq<T>>
    decreases n
  {
    if n == 0 then Got([], b)
    else
      match parse(b)
      case NoParse => NoParse
      case Got(x, rest) =>
        match ParseCount(parse, n - 1, rest)
        case NoParse => NoParse
        case Got(xs, rest') => Got([x] + xs, rest')
  }

  lemma {:induction false} AllRoundTrip<T(!new)>(
      put: T -> seq<byte>, parse: seq<byte> -> Parsed<T>, xs: seq<T>, rest: seq<byte>)
    requires Inverts(put, parse)
    ensures ParseCount(parse, |xs|, PutAll(put, xs) + rest) == Got(xs, rest)
  {
    if xs != [] {
      var tail := PutAll(put, xs[1..]) + rest;
      assert PutAll(put, xs) + rest == put(xs[0]) + tail;
      AllRoundTrip(put, parse, xs[1..], rest);
      assert [xs[0]] + xs[1..] == xs;
    }
  }

  function PutSeq<T>(put: T -> seq<byte>, xs: seq<T>): seq<byte> {
    PutNat(|xs|) + PutAll(put, xs)
  }

  function ParseSeq<T>(parse: seq<byte> -> Parsed<T>, b: seq<byte>): Parsed<seq<T>> {
    match ParseNat(b)
    case NoParse => NoParse
    case Got(n, rest) => ParseCount(parse, n, rest)
  }

  lemma SeqRoundTrip<T(!new)>(put: T -> seq<byte>, parse: seq<byte> -> Parsed<T>, xs: seq<T>, rest: seq<byte>)
    requires Inverts(put, parse)
    ensures ParseSeq(parse, PutSeq(put, xs) + rest) == Got(xs, rest)
  {
    NatRoundTrip(|xs|, PutAll(put, xs) + rest);
    assert PutSeq(put, xs) + rest == PutNat(|xs|) + (PutAll(put, xs) + rest);
    AllRoundTrip(put, parse, xs, rest);
  }

  lemma TextInverts()
    ensures Inverts(PutText, ParseText)
  {
    forall s: Text, rest: seq<byte> ensures ParseText(PutText(s) + rest) == Got(s, rest) {
      TextRoundTrip(s, rest);
    }
  }

  lemma Associate<T>(a: seq<T>, b: seq<T>, c: seq<T>)
    ensures (a + b) + c == a + (b + c)
  {
  }

  /** The bytes of several bodies, one after the other. */
  function Concat(bodies: seq<seq<byte>>): seq<byte> {
    if bodies == [] then [] else bodies[0] + Concat(bodies[1..])
  }

  lemma {:induction false} ConcatAppend(a: seq<seq<byte>>, b: seq<seq<byte>>)
    ensures Concat(a + b) == Concat(a) + Concat(b)
  {
    if a == [] {
      assert a + b == b;
    } else {
      ConcatAppend(a[1..], b);
      assert (a + b)[1..] == a[1..] + b && (a + b)[0] == a[0];
      Associate(a[0], Concat(a[1..]), Concat(b));
    }
  }
}

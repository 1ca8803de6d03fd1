/** Trimming and splitting, in terms of Unicode characters and of what is left of the text. */
module WhiteSpace {
  import opened Bytes
  import opened Texts

  // ---------------------------------------------------------------------------
  // White space
  // ---------------------------------------------------------------------------

  /** A character as bytes, as section 3 of RFC 3629 lays it out. */
  function Utf8(c: nat): Text
    requires c < 0x11_0000
  {
    if c < 0x80 then [c]
    else if c < 0x800 then [0xC0 + c / 64, 0x80 + c % 64]
    else if c < 0x1_0000 then [0xE0 + c / 4096, 0x80 + c / 64 % 64, 0x80 + c % 64]
    else [0xF0 + c / 262144, 0x80 + c / 4096 % 64, 0x80 + c / 64 % 64, 0x80 + c % 64]
  }

  /** Characters are all numbers below 0x110000 but the surrogates. */
  predicate IsCharacter(c: nat) { c < 0xD800 || 0xE000 <= c < 0x11_0000 }

  function Encoded(cs: seq<nat>): Text
    requires forall i :: 0 <= i < |cs| ==> IsCharacter(cs[i])
  {
    if cs == [] then []
    else
      assert IsCharacter(cs[0]);
      Utf8(cs[0]) + Encoded(cs[1..])
  }

  /** The first character is as long as its encoding, */
  lemma FirstCharacter(c: nat, rest: Text)
    requires IsCharacter(c)
    ensures CharLength(Utf8(c) + rest) == |Utf8(c)|
  {
    var s := Utf8(c) + rest;
    assert s[0] == Utf8(c)[0];
    if c >= 0x80 { assert s[1] == Utf8(c)[1]; }
    if c >= 0x800 { assert s[2] == Utf8(c)[2]; }
    if c >= 0x1_0000 {
      assert s[3] == Utf8(c)[3];
      ManyBytes(c);
    } else if c >= 0x800 {
      ThreeBytes(c);
    }
  }

  lemma ThreeBytes(c: nat)
    requires 0x800 <= c < 0x1_0000 && IsCharacter(c)
    ensures c / 4096 == 0 ==> c / 64 % 64 >= 0x20
    ensures c / 4096 == 13 ==> c / 64 % 64 < 0x20
  {
    assert c == 4096 * (c / 4096) + 64 * (c / 64 % 64) + c % 64;
  }

  lemma ManyBytes(c: nat)
    requires 0x1_0000 <= c < 0x11_0000
    ensures c / 262144 <= 4
    ensures c / 262144 == 0 ==> c / 4096 % 64 >= 0x10
    ensures c / 262144 == 4 ==> c / 4096 % 64 < 0x10
  {
    var high := c / 4096;
    assert 16 <= high < 272 && high / 64 == c / 262144;
  }

  lemma TwoBytesFound(a: int, b: int)
    requires 0xC2 <= a < 0xE0 && 0x80 <= b < 0xC0
    ensures var c: int := 64 * (a - 0xC0) + (b - 0x80);
            0x80 <= c < 0x800 && 0xC0 + c / 64 == a && 0x80 + c % 64 == b
  {
  }

  lemma ThreeBytesFound(a: int, b: int, d: int)
    requires 0xE0 <= a < 0xF0 && 0x80 <= b < 0xC0 && 0x80 <= d < 0xC0
    requires (a == 0xE0 ==> b >= 0xA0) && (a == 0xED ==> b < 0xA0)
    ensures var c: int := 4096 * (a - 0xE0) + 64 * (b - 0x80) + (d - 0x80);
            && 0x800 <= c < 0x1_0000 && (c < 0xD800 || c >= 0xE000)
            && 0xE0 + c / 4096 == a && 0x80 + c / 64 % 64 == b && 0x80 + c % 64 == d
  {
    var c: int := 4096 * (a - 0xE0) + 64 * (b - 0x80) + (d - 0x80);
    assert c / 64 == 64 * (a - 0xE0) + (b - 0x80);
  }

  lemma FourBytesFound(a: int, b: int, d: int, e: int)
    requires 0xF0 <= a <= 0xF4 && 0x80 <= b < 0xC0 && 0x80 <= d < 0xC0 && 0x80 <= e < 0xC0
    requires (a == 0xF0 ==> b >= 0x90) && (a == 0xF4 ==> b < 0x90)
    ensures var c: int := 262144 * (a - 0xF0) + 4096 * (b - 0x80) + 64 * (d - 0x80) + (e - 0x80);
            && 0x1_0000 <= c < 0x11_0000
            && 0xF0 + c / 262144 == a && 0x80 + c / 4096 % 64 == b && 0x80 + c / 64 % 64 == d && 0x80 + c % 64 == e
  {
    var c: int := 262144 * (a - 0xF0) + 4096 * (b - 0x80) + 64 * (d - 0x80) + (e - 0x80);
    assert c / 64 == 4096 * (a - 0xF0) + 64 * (b - 0x80) + (d - 0x80);
    assert c / 4096 == 64 * (a - 0xF0) + (b - 0x80);
  }

  /** and what is taken for a character is the encoding of one. */
  lemma CharacterIsFound(s: Text) returns (c: nat)
    requires CharLength(s) > 0
    ensures IsCharacter(c) && CharLength(s) <= |s| && s[..CharLength(s)] == Utf8(c)
  {
    var k, a: int := CharLength(s), s[0];
    if k == 1 {
      c := a;
    } else if k == 2 {
      TwoBytesFound(a, s[1]);
      c := 64 * (a - 0xC0) + (s[1] as int - 0x80);
    } else if k == 3 {
      ThreeBytesFound(a, s[1], s[2]);
      c := 4096 * (a - 0xE0) + 64 * (s[1] as int - 0x80) + (s[2] as int - 0x80);
    } else {
      FourBytesFound(a, s[1], s[2], s[3]);
      c := 262144 * (a - 0xF0) + 4096 * (s[1] as int - 0x80) + 64 * (s[2] as int - 0x80) + (s[3] as int - 0x80);
    }
  }

  lemma {:induction false} EncodedIsUtf8(cs: seq<nat>)
    requires forall i :: 0 <= i < |cs| ==> IsCharacter(cs[i])
    ensures IsUtf8(Encoded(cs))
  {
    if cs != [] {
      FirstCharacter(cs[0], Encoded(cs[1..]));
      EncodedIsUtf8(cs[1..]);
      assert Encoded(cs)[|Utf8(cs[0])|..] == Encoded(cs[1..]);
    }
  }

  lemma {:induction false} Utf8IsEncoded(s: Text) returns (cs: seq<nat>)
    requires IsUtf8(s)
    ensures (forall i :: 0 <= i < |cs| ==> IsCharacter(cs[i])) && Encoded(cs) == s
    decreases |s|
  {
    if s == [] {
      cs := [];
    } else {
      var k := CharLength(s);
      var c := CharacterIsFound(s);
      var rest := Utf8IsEncoded(s[k..]);
      cs := [c] + rest;
      assert cs[1..] == rest && s == s[..k] + s[k..];
    }
  }

  /** Text is UTF-8 exactly if it is the encoding of characters. */
  lemma Utf8ExactlyWhen(s: Text)
    ensures IsUtf8(s) <==> exists cs: seq<nat> ::
              (forall i :: 0 <= i < |cs| ==> IsCharacter(cs[i])) && Encoded(cs) == s
  {
    if IsUtf8(s) { var cs := Utf8IsEncoded(s); }
    forall cs: seq<nat> | (forall i :: 0 <= i < |cs| ==> IsCharacter(cs[i])) && Encoded(cs) == s ensures IsUtf8(s) {
      EncodedIsUtf8(cs);
    }
  }

  /** The characters with the Unicode property White_Space. */
  predicate IsWhite(c: nat) {
    9 <= c <= 13 || c == 0x20 || c == 0x85 || c == 0xA0 || c == 0x1680 || 0x2000 <= c <= 0x200A ||
      c == 0x2028 || c == 0x2029 || c == 0x202F || c == 0x205F || c == 0x3000
  }

  lemma SpacesOfThreeBytes(a: nat, b: nat, d: nat)
    requires a < 16 && b < 64 && d < 64 && 4096 * a + 64 * b + d >= 0x800
    ensures Space3(0xE0 + a, 0x80 + b, 0x80 + d) <==> IsWhite(4096 * a + 64 * b + d)
  {
  }

  lemma SpacesAreWhite(c: nat)
    requires c < 0x11_0000
    ensures IsSpace(Utf8(c)) <==> IsWhite(c)
  {
    if 0x800 <= c < 0x1_0000 {
      assert c == 4096 * (c / 4096) + 64 * (c / 64 % 64) + c % 64;
      SpacesOfThreeBytes(c / 4096, c / 64 % 64, c % 64);
    }
  }

  /** Characters of white space. */
  predicate AllSpaces(cs: seq<Text>) { forall i :: 0 <= i < |cs| ==> IsSpace(cs[i]) }

  /** Whatever the text begins with, it is no space, */
  ghost predicate BeginsPlainly(s: Text) { forall c: Text, t: Text :: s == c + t ==> !IsSpace(c) }

  /** or whatever it ends with. */
  ghost predicate EndsPlainly(s: Text) { forall t: Text, c: Text :: s == t + c ==> !IsSpace(c) }

  /** What space a text begins with is told by its first byte. */
  lemma OneFirstSpace(c: Text, rest: Text)
    requires IsSpace(c)
    ensures FirstSpace(c + rest) == |c|
  {
    assert forall i :: 0 <= i < |c| ==> (c + rest)[i] == c[i];
  }

  /** And what space it ends with is never overlooked. */
  lemma SomeLastSpace(front: Text, c: Text)
    requires IsSpace(c)
    ensures LastSpace(front + c) > 0
  {
    var s := front + c;
    assert s[|s| - 1] == c[|c| - 1];
    if |c| > 1 { assert s[|s| - 2] == c[|c| - 2]; }
    if |c| > 2 { assert s[|s| - 3] == c[|c| - 3]; }
  }

  lemma PlainOutside(s: Text)
    ensures FirstSpace(s) == 0 ==> BeginsPlainly(s)
    ensures LastSpace(s) == 0 ==> EndsPlainly(s)
  {
    forall c: Text, t: Text | s == c + t && IsSpace(c) ensures FirstSpace(s) > 0 { OneFirstSpace(c, t); }
    forall t: Text, c: Text | s == t + c && IsSpace(c) ensures LastSpace(s) > 0 { SomeLastSpace(t, c); }
  }

  lemma FirstTaken(s: Text) returns (c: Text, rest: Text)
    requires FirstSpace(s) > 0
    ensures s == c + rest && rest == s[FirstSpace(s)..] && IsSpace(c)
  {
    var k := FirstSpace(s);
    c, rest := s[..k], s[k..];
    assert forall i :: 0 <= i < k ==> c[i] == s[i];
  }

  lemma LastTaken(s: Text) returns (front: Text, c: Text)
    requires LastSpace(s) > 0
    ensures s == front + c && front == s[..|s| - LastSpace(s)] && IsSpace(c)
  {
    var n := |s| - LastSpace(s);
    front, c := s[..n], s[n..];
    assert forall i :: 0 <= i < |c| ==> c[i] == s[n + i];
  }

  lemma OneMoreInFront(c: Text, cs: seq<Text>)
    ensures Concat([c] + cs) == c + Concat(cs)
  {
    assert ([c] + cs)[1..] == cs;
  }

  lemma OneMoreBehind(cs: seq<Text>, c: Text)
    ensures Concat(cs + [c]) == Concat(cs) + c
  {
    ConcatAppend(cs, [c]);
    OneMoreInFront(c, []);
    assert [c] + [] == [c] && c + [] == c;
  }

  lemma {:induction false} TrimStartTakesSpaces(s: Text) returns (cs: seq<Text>)
    ensures AllSpaces(cs) && s == Concat(cs) + TrimStart(s) && BeginsPlainly(TrimStart(s))
    decreases |s|
  {
    if FirstSpace(s) == 0 {
      PlainOutside(s);
      cs := [];
      assert [] + s == s;
    } else {
      var c, rest := FirstTaken(s);
      var more := TrimStartTakesSpaces(rest);
      cs := [c] + more;
      OneMoreInFront(c, more);
      Associate(c, Concat(more), TrimStart(rest));
    }
  }

  lemma {:induction false} TrimEndTakesSpaces(s: Text) returns (cs: seq<Text>)
    ensures AllSpaces(cs) && s == TrimEnd(s) + Concat(cs) && EndsPlainly(TrimEnd(s))
    decreases |s|
  {
    if LastSpace(s) == 0 {
      PlainOutside(s);
      cs := [];
      assert s + [] == s;
    } else {
      var front, c := LastTaken(s);
      var more := TrimEndTakesSpaces(front);
      cs := more + [c];
      OneMoreBehind(more, c);
      Associate(TrimEnd(front), Concat(more), c);
    }
  }

  /** Trimming takes off white space at both ends, and all of it. */
  lemma TrimTakesAllSpaces(s: Text) returns (before: seq<Text>, after: seq<Text>)
    ensures AllSpaces(before) && AllSpaces(after) && s == Concat(before) + Trim(s) + Concat(after)
    ensures BeginsPlainly(Trim(s)) && EndsPlainly(Trim(s))
  {
    before := TrimStartTakesSpaces(s);
    after := TrimEndTakesSpaces(TrimStart(s));
    Associate(Concat(before), Trim(s), Concat(after));
    PrefixBeginsPlainly(TrimStart(s), Trim(s), Concat(after));
  }

  lemma PrefixBeginsPlainly(s: Text, t: Text, rest: Text)
    requires s == t + rest && BeginsPlainly(s)
    ensures BeginsPlainly(t)
  {
    forall c: Text, u: Text | t == c + u ensures !IsSpace(c) { Associate(c, u, rest); }
  }

  lemma {:induction false} SpacesAreTrimmed(cs: seq<Text>)
    requires AllSpaces(cs)
    ensures Trim(Concat(cs)) == []
  {
    if cs != [] {
      OneFirstSpace(cs[0], Concat(cs[1..]));
      SpacesAreTrimmed(cs[1..]);
      assert (cs[0] + Concat(cs[1..]))[|cs[0]|..] == Concat(cs[1..]);
    }
  }

  /** A name is blank exactly if it is nothing but white space. */
  lemma BlankExactlyWhen(s: Text)
    ensures Blank(s) <==> exists cs :: AllSpaces(cs) && s == Concat(cs)
  {
    if Blank(s) {
      var before, after := TrimTakesAllSpaces(s);
      ConcatAppend(before, after);
      assert Concat(before) + [] == Concat(before);
      assert AllSpaces(before + after) && s == Concat(before + after);
    }
    forall cs | AllSpaces(cs) && s == Concat(cs) ensures Blank(s) { SpacesAreTrimmed(cs); }
  }

  // ---------------------------------------------------------------------------
  // Splitting
  // ---------------------------------------------------------------------------

  function Joined(parts: seq<Text>, sep: byte): Text {
    if parts == [] then [] else if |parts| == 1 then parts[0] else parts[0] + [sep] + Joined(parts[1..], sep)
  }

  /** The parts, with the separator in between, are the text; none of them holds the separator. */
  lemma {:induction false} SplitIsExact(sep: byte, s: Text)
    ensures Joined(Split(sep, s), sep) == s
    ensures forall i :: 0 <= i < |Split(sep, s)| ==> sep !in Split(sep, s)[i]
  {
    if s != [] {
      var rest := Split(sep, s[1..]);
      SplitIsExact(sep, s[1..]);
      assert s == [s[0]] + s[1..];
      if s[0] == sep {
        assert ([[]] + rest)[1..] == rest;
        assert [] + [sep] + Joined(rest, sep) == [sep] + s[1..];
      } else {
        var first := [s[0]] + rest[0];
        assert ([first] + rest[1..])[1..] == rest[1..];
        if |rest| > 1 {
          assert first + [sep] + Joined(rest[1..], sep) == [s[0]] + (rest[0] + [sep] + Joined(rest[1..], sep));
        }
      }
    }
  }
}

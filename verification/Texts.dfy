/** UTF-8 text as bytes: splitting, white space, lines, decimal numbers. */
module Texts {
  import opened Bytes

  const LF: byte := 10
  const CR: byte := 13
  const DOT: byte := 46
  const PLUS: byte := 43

  /** The bytes of an ASCII literal. */
  function Ascii(s: string): (t: Text)
    ensures |t| == |s| && forall i :: 0 <= i < |s| && s[i] < 128 as char ==> t[i] == s[i] as int
  {
    seq(|s|, i requires 0 <= i < |s| => if s[i] < 128 as char then s[i] as int else 63)
  }

  // ---------------------------------------------------------------------------
  // UTF-8
  // ---------------------------------------------------------------------------

  predicate Continues(b: byte) { 0x80 <= b < 0xC0 }

  /**
   * How many bytes the first character takes, 0 if there is none: well-formed sequences as RFC 3629, section 4, lists
   * them.
   */
  function CharLength(s: Text): nat {
    if s == [] then 0
    else if s[0] < 0x80 then 1
    else if |s| < 2 || !Continues(s[1]) then 0
    else if 0xC2 <= s[0] < 0xE0 then 2
    else if |s| < 3 || !Continues(s[2]) then 0
    else if (s[0] == 0xE0 && s[1] >= 0xA0) || (0xE1 <= s[0] < 0xF0 && (s[0] != 0xED || s[1] < 0xA0)) then 3
    else if |s| < 4 || !Continues(s[3]) then 0
    else if (s[0] == 0xF0 && s[1] >= 0x90) || 0xF1 <= s[0] < 0xF4 || (s[0] == 0xF4 && s[1] < 0x90) then 4
    else 0
  }

  predicate IsUtf8(s: Text) {
    s == [] || (0 < CharLength(s) <= |s| && IsUtf8(s[CharLength(s)..]))
  }

  // ---------------------------------------------------------------------------
  // White space
  // ---------------------------------------------------------------------------

  /** The characters that trimming removes, as UTF-8 writes them: of one byte, two, or three. */
  predicate Space1(a: byte) { 9 <= a <= 13 || a == 32 }

  predicate Space2(a: byte, b: byte) { a == 0xC2 && (b == 0x85 || b == 0xA0) }

  predicate Space3(a: byte, b: byte, c: byte) {
    || (a == 0xE1 && b == 0x9A && c == 0x80)
    || (a == 0xE2 && b == 0x80 && (0x80 <= c <= 0x8A || 0xA8 <= c <= 0xA9 || c == 0xAF))
    || (a == 0xE2 && b == 0x81 && c == 0x9F)
    || (a == 0xE3 && b == 0x80 && c == 0x80)
  }

  predicate IsSpace(c: Text) {
    || (|c| == 1 && Space1(c[0]))
    || (|c| == 2 && Space2(c[0], c[1]))
    || (|c| == 3 && Space3(c[0], c[1], c[2]))
  }

  /** How long the space is that the text begins with, 0 if there is none. */
  function FirstSpace(s: Text): (k: nat)
    ensures k <= |s|
  {
    if |s| >= 1 && Space1(s[0]) then 1
    else if |s| >= 2 && Space2(s[0], s[1]) then 2
    else if |s| >= 3 && Space3(s[0], s[1], s[2]) then 3
    else 0
  }

  /** And the one that it ends with. */
  function LastSpace(s: Text): (k: nat)
    ensures k <= |s|
  {
    var n := |s|;
    if n >= 1 && Space1(s[n - 1]) then 1
    else if n >= 2 && Space2(s[n - 2], s[n - 1]) then 2
    else if n >= 3 && Space3(s[n - 3], s[n - 2], s[n - 1]) then 3
    else 0
  }

  function TrimStart(s: Text): Text {
    if FirstSpace(s) == 0 then s else TrimStart(s[FirstSpace(s)..])
  }

  function TrimEnd(s: Text): Text {
    if LastSpace(s) == 0 then s else TrimEnd(s[..|s| - LastSpace(s)])
  }

  function Trim(s: Text): Text { TrimEnd(TrimStart(s)) }

  predicate Blank(s: Text) { Trim(s) == [] }

  // ---------------------------------------------------------------------------
  // Splitting
  // ---------------------------------------------------------------------------

  function Split(sep: byte, s: Text): (parts: seq<Text>)
    ensures parts != []
    ensures forall i :: 0 <= i < |parts| ==> sep !in parts[i]
  {
    if s == [] then [[]]
    else
      var rest := Split(sep, s[1..]);
      if s[0] == sep then [[]] + rest else [[s[0]] + rest[0]] + rest[1..]
  }

  lemma {:induction false} SplitFirst(sep: byte, n: Text, rest: Text)
    requires sep !in n
    ensures Split(sep, n) == [n]
    ensures Split(sep, n + [sep] + rest) == [n] + Split(sep, rest)
  {
    if n == [] {
      assert (n + [sep] + rest)[1..] == rest;
    } else {
      SplitFirst(sep, n[1..], rest);
      assert (n + [sep] + rest)[1..] == n[1..] + [sep] + rest;
      assert n == [n[0]] + n[1..];
    }
  }

  /**
   * The line up to the first line feed, and what follows it; a line feed ends a line, with a carriage return before
   * it.
   */
  function FirstLine(s: Text): (r: (Text, Text))
    ensures s != [] ==> |r.1| < |s|
  {
    if s == [] then ([], [])
    else if s[0] == LF then ([], s[1..])
    else
      var (line, rest) := FirstLine(s[1..]);
      ([s[0]] + line, rest)
  }

  function Lines(s: Text): seq<Text>
    decreases |s|
  {
    if s == [] then []
    else
      var (line, rest) := FirstLine(s);
      var ended := |line| < |s|;
      [if ended && line != [] && line[|line| - 1] == CR then line[..|line| - 1] else line] + Lines(rest)
  }

  lemma {:induction false} FirstLineEnds(line: Text, rest: Text)
    requires LF !in line
    ensures FirstLine(line + [LF] + rest) == (line, rest) && FirstLine(line) == (line, [])
  {
    if line == [] {
      assert (line + [LF] + rest)[1..] == rest;
    } else {
      FirstLineEnds(line[1..], rest);
      assert (line + [LF] + rest)[1..] == line[1..] + [LF] + rest;
      assert line == [line[0]] + line[1..];
    }
  }

  // ---------------------------------------------------------------------------
  // Decimal numbers
  // ---------------------------------------------------------------------------

  predicate IsDigit(b: byte) { 48 <= b < 58 }

  predicate AllDigits(s: Text) { forall i :: 0 <= i < |s| ==> IsDigit(s[i]) }

  function Decimal(n: nat): (s: Text)
    ensures s != [] && AllDigits(s)
  {
    if n < 10 then [48 + n] else Decimal(n / 10) + [48 + n % 10]
  }

  function DigitsValue(s: Text): nat
    requires AllDigits(s)
  {
    if s == [] then 0 else 10 * DigitsValue(s[..|s| - 1]) + (s[|s| - 1] - 48)
  }

  lemma {:induction false} DecimalValue(n: nat)
    ensures DigitsValue(Decimal(n)) == n
  {
    if n >= 10 {
      DecimalValue(n / 10);
      assert Decimal(n)[..|Decimal(n)| - 1] == Decimal(n / 10);
    }
  }

  lemma DecimalInjective(m: nat, n: nat)
    requires Decimal(m) == Decimal(n)
    ensures m == n
  {
    DecimalValue(m);
    DecimalValue(n);
  }
}

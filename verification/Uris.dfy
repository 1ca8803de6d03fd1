/** File URIs and the lists of them that file managers put on a clipboard. */
module Uris {
  import opened Wrappers
  import opened Bytes
  import opened Texts
  import opened Model
  import opened Paths

  // ---------------------------------------------------------------------------
  // Percent encoding
  // ---------------------------------------------------------------------------

  const PERCENT: byte := 37
  const HASH: byte := 35

  /**
   * Bytes written as they are: printable ASCII without the space and `"`, `#`, `%`, `<`, `>`, `?`, backquote, `{`,
   * `}`.
   */
  predicate Kept(b: byte) {
    32 < b < 127 && b !in {34, 35, 37, 60, 62, 63, 96, 123, 125}
  }

  function Hex(n: nat): byte
    requires n < 16
  {
    if n < 10 then 48 + n else 65 + (n - 10)
  }

  function HexValue(b: byte): Option<nat> {
    if 48 <= b < 58 then Some(b - 48)
    else if 65 <= b < 71 then Some(b - 55)
    else if 97 <= b < 103 then Some(b - 87)
    else None
  }

  function EncodeByte(b: byte): Text {
    if Kept(b) then [b] else [PERCENT, Hex(b / 16), Hex(b % 16)]
  }

  function Encode(s: Text): Text {
    if s == [] then [] else EncodeByte(s[0]) + Encode(s[1..])
  }

  /** A percent sign that does not introduce two hexadecimal digits stands for itself. */
  function Decode(s: Text): Text {
    if s == [] then []
    else if s[0] == PERCENT && |s| >= 3 && HexValue(s[1]).Some? && HexValue(s[2]).Some? then
      HexByte(HexValue(s[1]).value, HexValue(s[2]).value) + Decode(s[3..])
    else [s[0]] + Decode(s[1..])
  }

  function HexByte(high: nat, low: nat): Text {
    if high < 16 && low < 16 then [16 * high + low] else []
  }

  lemma {:induction false} DecodeInvertsEncode(s: Text)
    ensures Decode(Encode(s)) == s
  {
    if s != [] {
      DecodeInvertsEncode(s[1..]);
      var e, rest := Encode(s), Encode(s[1..]);
      if Kept(s[0]) {
        assert e[0] == s[0] && e[1..] == rest;
      } else {
        assert e[0] == PERCENT && e[1] == Hex(s[0] / 16) && e[2] == Hex(s[0] % 16) && e[3..] == rest;
        assert HexValue(e[1]) == Some(s[0] / 16) && HexValue(e[2]) == Some(s[0] % 16);
      }
      assert [s[0]] + s[1..] == s;
    }
  }

  /** Encoded text is printable ASCII: no space, no line break, no comment mark. */
  lemma {:induction false} EncodedIsPlain(s: Text)
    ensures forall i :: 0 <= i < |Encode(s)| ==> 32 < Encode(s)[i] < 127 && Encode(s)[i] != HASH
  {
    if s != [] { EncodedIsPlain(s[1..]); }
  }

  // ---------------------------------------------------------------------------
  // Paths and URIs
  // ---------------------------------------------------------------------------

  const FILE_SCHEME: Text := Ascii("file://")
  const LOCALHOST: Text := Ascii("localhost")

  function PathToUri(path: Text): Text { FILE_SCHEME + Encode(path) }

  /** A path, if this is a file URI of this host whose decoded path is UTF-8. */
  function UriToPath(uri: Text): Option<Text> {
    if !(FILE_SCHEME <= uri) then None
    else
      var rest := uri[|FILE_SCHEME|..];
      var decoded := Decode(if LOCALHOST <= rest then rest[|LOCALHOST|..] else rest);
      if IsUtf8(decoded) then Some(decoded) else None
  }

  predicate KeptAll(s: Text) { forall i :: 0 <= i < |s| ==> Kept(s[i]) }

  /** Encoding leaves letters alone, so it neither adds nor removes a plain prefix. */
  lemma {:induction false} PrefixSurvives(prefix: Text, s: Text)
    requires KeptAll(prefix)
    ensures prefix <= Encode(s) <==> prefix <= s
    ensures prefix <= s ==> Encode(s)[|prefix|..] == Encode(s[|prefix|..])
  {
    if prefix == [] {
      assert Encode(s)[0..] == Encode(s) && s[0..] == s;
    } else if s != [] {
      PrefixSurvives(prefix[1..], s[1..]);
      var e := Encode(s);
      if s[0] == prefix[0] {
        assert e[1..] == Encode(s[1..]);
        assert prefix <= s <==> prefix[1..] <= s[1..];
        assert prefix <= e <==> prefix[1..] <= e[1..];
        if prefix <= s {
          assert e[|prefix|..] == e[1..][|prefix| - 1..] && s[|prefix|..] == s[1..][|prefix| - 1..];
        }
      } else {
        assert e[0] != prefix[0];
      }
    }
  }

  /**
   * A path comes back from its URI exactly when it does not begin like the name of this host; absolute paths never
   * do.
   */
  lemma UriRoundTrip(path: Text)
    requires IsUtf8(path)
    ensures UriToPath(PathToUri(path)) == Some(path) <==> !(LOCALHOST <= path)
    ensures LOCALHOST <= path && UriToPath(PathToUri(path)).Some? ==>
              UriToPath(PathToUri(path)) == Some(path[|LOCALHOST|..])
  {
    var uri := PathToUri(path);
    assert uri[|FILE_SCHEME|..] == Encode(path);
    PrefixSurvives(LOCALHOST, path);
    DecodeInvertsEncode(path);
    if LOCALHOST <= path { DecodeInvertsEncode(path[|LOCALHOST|..]); }
  }

  // ---------------------------------------------------------------------------
  // Lists
  // ---------------------------------------------------------------------------

  function UrisOf(paths: seq<Text>): (r: seq<Text>)
    ensures |r| == |paths|
  {
    if paths == [] then [] else [PathToUri(paths[0])] + UrisOf(paths[1..])
  }

  function JoinLines(lines: seq<Text>, sep: Text): Text {
    if lines == [] then []
    else if |lines| == 1 then lines[0]
    else lines[0] + sep + JoinLines(lines[1..], sep)
  }

  /** The paths of a list's lines; blank lines, comments and anything but file URIs are skipped. */
  function PathsOf(lines: seq<Text>): seq<Text> {
    if lines == [] then []
    else
      var line := Trim(lines[0]);
      var skipped := line == [] || line[0] == HASH || UriToPath(line).None?;
      (if skipped then [] else [UriToPath(line).value]) + PathsOf(lines[1..])
  }

  function ParseCandidates(text: Text): seq<Text> { PathsOf(Lines(text)) }

  /** Where a path comes back from, if it does. */
  function Back(paths: seq<Text>): seq<Text> {
    if paths == [] then []
    else (match UriToPath(PathToUri(paths[0])) case None => [] case Some(p) => [p]) + Back(paths[1..])
  }

  predicate Plain(s: Text) { s != [] && forall i :: 0 <= i < |s| ==> 32 < s[i] < 127 }

  lemma UriIsPlain(path: Text)
    ensures Plain(PathToUri(path)) && PathToUri(path)[0] != HASH
  {
    EncodedIsPlain(path);
    assert FILE_SCHEME[0] == 102;
  }

  lemma NoSpaceAround(s: Text)
    requires Plain(s)
    ensures FirstSpace(s) == 0 && LastSpace(s) == 0
  {
    assert 32 < s[0] < 127 && 32 < s[|s| - 1] < 127;
    assert |s| >= 2 ==> 32 < s[|s| - 2] < 127;
    assert |s| >= 3 ==> 32 < s[|s| - 3] < 127;
  }

  lemma TrimKeepsPlain(s: Text)
    requires Plain(s)
    ensures Trim(s) == s
  {
    NoSpaceAround(s);
  }

  lemma LastLine(s: Text)
    requires Plain(s)
    ensures Lines(s) == [s]
  {
    FirstLineEnds(s, []);
  }

  lemma NextLine(s: Text, sep: Text, rest: Text)
    requires Plain(s) && (sep == [LF] || sep == [CR, LF])
    ensures Lines(s + sep + rest) == [s] + Lines(rest)
  {
    var line := if sep == [LF] then s else s + [CR];
    FirstLineEnds(line, rest);
    assert s + sep + rest == line + [LF] + rest;
    if sep != [LF] { assert line[..|s|] == s; }
  }

  lemma {:induction false} LinesOfJoined(lines: seq<Text>, sep: Text)
    requires forall i :: 0 <= i < |lines| ==> Plain(lines[i])
    requires sep == [LF] || sep == [CR, LF]
    ensures Lines(JoinLines(lines, sep)) == lines
  {
    if |lines| == 1 {
      LastLine(lines[0]);
    } else if |lines| > 1 {
      LinesOfJoined(lines[1..], sep);
      NextLine(lines[0], sep, JoinLines(lines[1..], sep));
    }
  }

  lemma {:induction false} PathsOfUris(paths: seq<Text>)
    ensures PathsOf(UrisOf(paths)) == Back(paths)
    ensures forall i :: 0 <= i < |paths| ==> Plain(UrisOf(paths)[i])
  {
    if paths != [] {
      UriIsPlain(paths[0]);
      TrimKeepsPlain(PathToUri(paths[0]));
      PathsOfUris(paths[1..]);
    }
  }

  /** The first line of a copy operation is no path. */
  lemma CopyLineIsSkipped(list: Text)
    ensures ParseCandidates(Ascii("copy\n") + list) == ParseCandidates(list)
  {
    var copy := Ascii("copy");
    FirstLineEnds(copy, list);
    assert Ascii("copy\n") + list == copy + [LF] + list;
    TrimKeepsPlain(copy);
    assert copy[0] != FILE_SCHEME[0];
    assert ([copy] + Lines(list))[1..] == Lines(list);
  }

  /**
   * What an application gets from the CRLF-joined list, and from the list of a copy operation, which starts with
   * `copy`.
   */
  lemma ListsParseAlike(paths: seq<Text>)
    ensures ParseCandidates(JoinLines(UrisOf(paths), [CR, LF])) == Back(paths)
    ensures ParseCandidates(Ascii("copy\n") + JoinLines(UrisOf(paths), [LF])) == Back(paths)
  {
    PathsOfUris(paths);
    LinesOfJoined(UrisOf(paths), [CR, LF]);
    LinesOfJoined(UrisOf(paths), [LF]);
    CopyLineIsSkipped(JoinLines(UrisOf(paths), [LF]));
  }

  function TotalLength(paths: seq<Text>): nat {
    if paths == [] then 0 else |paths[0]| + TotalLength(paths[1..])
  }

  predicate AllUtf8(paths: seq<Text>) { forall i :: 0 <= i < |paths| ==> IsUtf8(paths[i]) }

  predicate Foreign(paths: seq<Text>) { forall i :: 0 <= i < |paths| ==> !(LOCALHOST <= paths[i]) }

  lemma ForeignHead(paths: seq<Text>)
    requires paths != []
    ensures Foreign(paths) <==> !(LOCALHOST <= paths[0]) && Foreign(paths[1..])
    ensures AllUtf8(paths) ==> IsUtf8(paths[0]) && AllUtf8(paths[1..])
  {
    assert paths == [paths[0]] + paths[1..];
  }

  lemma TotalOfOne(first: seq<Text>, rest: seq<Text>)
    requires |first| <= 1
    ensures TotalLength(first + rest) == (if first == [] then 0 else |first[0]|) + TotalLength(rest)
  {
    assert first == [] ==> first + rest == rest;
    assert first != [] ==> (first + rest)[1..] == rest;
  }

  /** Stripping a host name from any path leaves less text than there was. */
  lemma {:induction false} BackIsExact(paths: seq<Text>)
    requires AllUtf8(paths)
    ensures Foreign(paths) ==> Back(paths) == paths
    ensures TotalLength(Back(paths)) <= TotalLength(paths)
    ensures !Foreign(paths) ==> TotalLength(Back(paths)) < TotalLength(paths)
  {
    if paths != [] {
      ForeignHead(paths);
      UriRoundTrip(paths[0]);
      BackIsExact(paths[1..]);
      TotalOfOne(match UriToPath(PathToUri(paths[0])) case None => [] case Some(p) => [p], Back(paths[1..]));
      assert Foreign(paths) ==> [paths[0]] + paths[1..] == paths;
    }
  }

  /** Both lists give back exactly the paths they were made from, unless one of them begins like the host name. */
  lemma ListsRoundTrip(paths: seq<Text>)
    requires AllUtf8(paths)
    ensures ParseCandidates(JoinLines(UrisOf(paths), [CR, LF])) == paths <==> Foreign(paths)
    ensures ParseCandidates(Ascii("copy\n") + JoinLines(UrisOf(paths), [LF])) == paths <==> Foreign(paths)
  {
    ListsParseAlike(paths);
    BackIsExact(paths);
  }

  predicate Absolute(path: Text) { path != [] && path[0] == SLASH }

  lemma AbsoluteIsForeign(paths: seq<Text>)
    requires forall i :: 0 <= i < |paths| ==> Absolute(paths[i])
    ensures Foreign(paths)
  {
    assert LOCALHOST[0] != SLASH;
  }

  // ---------------------------------------------------------------------------
  // What a Linux file manager is offered, and what is understood of it
  // ---------------------------------------------------------------------------

  const URI_LIST: Text := Ascii("text/uri-list")
  const GNOME_FILES: Text := Ascii("x-special/gnome-copied-files")
  const NAUTILUS_FILES: Text := Ascii("x-special/nautilus-clipboard")
  const KDE_CUT: Text := Ascii("application/x-kde-cutselection")

  predicate IsFileFormat(format: Text) {
    format in {URI_LIST, Ascii("public.file-url"), Ascii("NSFilenamesPboardType"), GNOME_FILES, NAUTILUS_FILES}
  }

  function FileRepresentations(paths: seq<Text>): seq<Representation> {
    var uris := UrisOf(paths);
    var copied := Ascii("copy\n") + JoinLines(uris, [LF]);
    [Representation(0, URI_LIST, JoinLines(uris, [CR, LF])), Representation(0, GNOME_FILES, copied),
     Representation(0, NAUTILUS_FILES, copied), Representation(0, KDE_CUT, Ascii("0"))]
  }

  /** The paths that exist, among those given. */
  function Existing(paths: seq<Text>, present: set<Text>): seq<Text> {
    if paths == [] then [] else (if paths[0] in present then [paths[0]] else []) + Existing(paths[1..], present)
  }

  function PathsNamed(reps: seq<Representation>, present: set<Text>): seq<Text> {
    if reps == [] then []
    else
      (if IsFileFormat(reps[0].format) then Existing(ParseCandidates(reps[0].data), present) else [])
      + PathsNamed(reps[1..], present)
  }

  /**
   * What paths are compared by: whether they are absolute, whether a relative one begins with a dot, and the components
   * that count.
   */
  datatype Components = Components(absolute: bool, here: bool, names: seq<Text>)

  function ComponentsOf(path: Text): Components {
    var parts := Split(SLASH, path);
    Components(Absolute(path), parts[0] == [DOT], Significant(parts))
  }

  /** Later occurrences are dropped, however they are written. */
  function Distinct(paths: seq<Text>, seen: set<Components>): seq<Text> {
    if paths == [] then []
    else if ComponentsOf(paths[0]) in seen then Distinct(paths[1..], seen)
    else [paths[0]] + Distinct(paths[1..], seen + {ComponentsOf(paths[0])})
  }

  function ClipboardFilePaths(reps: seq<Representation>, present: set<Text>): seq<Text> {
    Distinct(PathsNamed(reps, present), {})
  }

  lemma {:induction false} DistinctAppend(a: seq<Text>, b: seq<Text>, seen: set<Components>)
    requires forall i :: 0 <= i < |b| ==> ComponentsOf(b[i]) in seen || b[i] in a
    ensures Distinct(a + b, seen) == Distinct(a, seen)
  {
    if a == [] {
      assert a + b == b;
      NothingNew(b, seen);
    } else {
      assert (a + b)[1..] == a[1..] + b;
      DistinctAppend(a[1..], b, if ComponentsOf(a[0]) in seen then seen else seen + {ComponentsOf(a[0])});
    }
  }

  lemma {:induction false} NothingNew(b: seq<Text>, seen: set<Components>)
    requires forall i :: 0 <= i < |b| ==> ComponentsOf(b[i]) in seen
    ensures Distinct(b, seen) == []
  {
    if b != [] { NothingNew(b[1..], seen); }
  }

  ghost predicate Covers(paths: seq<Text>, seen: set<Components>, c: Components) {
    c in seen || exists i :: 0 <= i < |paths| && ComponentsOf(paths[i]) == c
  }

  lemma {:induction false} DistinctIsPart(paths: seq<Text>, seen: set<Components>)
    ensures forall q :: q in Distinct(paths, seen) ==> q in paths && ComponentsOf(q) !in seen
  {
    if paths != [] {
      var c := ComponentsOf(paths[0]);
      DistinctIsPart(paths[1..], if c in seen then seen else seen + {c});
      forall q | q in Distinct(paths, seen) ensures q in paths && ComponentsOf(q) !in seen {
        if q !in Distinct(paths[1..], if c in seen then seen else seen + {c}) { assert q == paths[0]; }
      }
    }
  }

  lemma {:induction false} DistinctDiffers(paths: seq<Text>, seen: set<Components>, i: nat, j: nat)
    requires i < j < |Distinct(paths, seen)|
    ensures ComponentsOf(Distinct(paths, seen)[i]) != ComponentsOf(Distinct(paths, seen)[j])
  {
    var c := ComponentsOf(paths[0]);
    if c in seen {
      DistinctDiffers(paths[1..], seen, i, j);
    } else if i > 0 {
      DistinctDiffers(paths[1..], seen + {c}, i - 1, j - 1);
    } else {
      DistinctIsPart(paths[1..], seen + {c});
      assert Distinct(paths, seen)[j] == Distinct(paths[1..], seen + {c})[j - 1];
    }
  }

  lemma {:induction false} DistinctKeepsOne(paths: seq<Text>, seen: set<Components>, i: nat)
    requires i < |paths|
    ensures Covers(Distinct(paths, seen), seen, ComponentsOf(paths[i]))
  {
    var c := ComponentsOf(paths[0]);
    var rest := if c in seen then seen else seen + {c};
    var r, later := Distinct(paths, seen), Distinct(paths[1..], rest);
    assert c !in seen ==> r[0] == paths[0];
    if i > 0 {
      DistinctKeepsOne(paths[1..], rest, i - 1);
      if k :| 0 <= k < |later| && ComponentsOf(later[k]) == ComponentsOf(paths[i]) {
        assert ComponentsOf(r[if c in seen then k else k + 1]) == ComponentsOf(paths[i]);
      }
    }
  }

  /** Of all paths that come to the same components exactly one is kept, and it is one of those given. */
  lemma DistinctKeepsOneOfEach(paths: seq<Text>)
    ensures var r := Distinct(paths, {});
            && (forall q :: q in r ==> q in paths)
            && (forall i, j :: 0 <= i < j < |r| ==> ComponentsOf(r[i]) != ComponentsOf(r[j]))
            && (forall i :: 0 <= i < |paths| ==> Covers(r, {}, ComponentsOf(paths[i])))
  {
    DistinctIsPart(paths, {});
    forall i, j | 0 <= i < j < |Distinct(paths, {})|
      ensures ComponentsOf(Distinct(paths, {})[i]) != ComponentsOf(Distinct(paths, {})[j])
    {
      DistinctDiffers(paths, {}, i, j);
    }
    forall i | 0 <= i < |paths| ensures Covers(Distinct(paths, {}), {}, ComponentsOf(paths[i])) {
      DistinctKeepsOne(paths, {}, i);
    }
  }

  lemma {:induction false} SplitAppend(sep: byte, a: Text, b: Text)
    ensures Split(sep, a + [sep] + b) == Split(sep, a) + Split(sep, b)
  {
    var s := a + [sep] + b;
    if a == [] {
      assert s[1..] == b;
    } else {
      var x, y := Split(sep, a[1..]), Split(sep, b);
      SplitAppend(sep, a[1..], b);
      assert s[1..] == a[1..] + [sep] + b && s[0] == a[0];
      assert (x + y)[0] == x[0] && (x + y)[1..] == x[1..] + y;
      if a[0] == sep { Associate([[]], x, y); } else { Associate([[a[0]] + x[0]], x[1..], y); }
    }
  }

  lemma {:induction false} SignificantAppend(a: seq<Text>, b: seq<Text>)
    ensures Significant(a + b) == Significant(a) + Significant(b)
  {
    if a == [] {
      assert a + b == b;
    } else {
      SignificantAppend(a[1..], b);
      assert (a + b)[0] == a[0] && (a + b)[1..] == a[1..] + b;
      if a[0] != [] && a[0] != [DOT] { Associate([a[0]], Significant(a[1..]), Significant(b)); }
    }
  }

  /** A path is the same path with a slash doubled or a dot in between. */
  lemma SlashesAndDotsDoNotCount(a: Text, b: Text, between: Text)
    requires a != [] && between in {[], [DOT]}
    ensures ComponentsOf(a + [SLASH] + (between + [SLASH] + b)) == ComponentsOf(a + [SLASH] + b)
  {
    var x, y, z := Split(SLASH, a), Split(SLASH, between), Split(SLASH, b);
    SplitAppend(SLASH, a, between + [SLASH] + b);
    SplitAppend(SLASH, between, b);
    SplitAppend(SLASH, a, b);
    SplitFirst(SLASH, between, []);
    assert Significant(y) == [] by { assert [between][1..] == []; }
    SignificantAppend(x, y + z);
    SignificantAppend(y, z);
    SignificantAppend(x, z);
    assert (x + (y + z))[0] == x[0] == (x + z)[0];
  }

  lemma FormatsAreTold()
    ensures IsFileFormat(URI_LIST) && IsFileFormat(GNOME_FILES) && IsFileFormat(NAUTILUS_FILES)
            && !IsFileFormat(KDE_CUT)
  {
    assert KDE_CUT[0] == 97 && URI_LIST[0] == 116 && GNOME_FILES[0] == 120 && NAUTILUS_FILES[0] == 120;
    assert Ascii("public.file-url")[0] == 112 && Ascii("NSFilenamesPboardType")[0] == 78;
  }

  /** What four representations name, the last of which is not about files. */
  lemma ThreeAreNamed(a: Representation, b: Representation, c: Representation, d: Representation, present: set<Text>)
    requires IsFileFormat(a.format) && IsFileFormat(b.format) && IsFileFormat(c.format) && !IsFileFormat(d.format)
    ensures PathsNamed([a, b, c, d], present) ==
            Existing(ParseCandidates(a.data), present)
            + (Existing(ParseCandidates(b.data), present) + Existing(ParseCandidates(c.data), present))
  {
    assert [a, b, c, d][1..] == [b, c, d] && [b, c, d][1..] == [c, d] && [c, d][1..] == [d] && [d][1..] == [];
    assert PathsNamed([d], present) == [];
    assert PathsNamed([c, d], present) == Existing(ParseCandidates(c.data), present);
    assert PathsNamed([b, c, d], present) ==
           Existing(ParseCandidates(b.data), present) + PathsNamed([c, d], present);
  }

  /** Offered to the clipboard and read back, copied files are the ones that exist, each path once, in order. */
  lemma FilesRoundTrip(paths: seq<Text>, present: set<Text>)
    requires AllUtf8(paths) && forall i :: 0 <= i < |paths| ==> Absolute(paths[i])
    ensures ClipboardFilePaths(FileRepresentations(paths), present) == Distinct(Existing(paths, present), {})
  {
    AbsoluteIsForeign(paths);
    ListsRoundTrip(paths);
    FormatsAreTold();
    var reps, files := FileRepresentations(paths), Existing(paths, present);
    ThreeAreNamed(reps[0], reps[1], reps[2], reps[3], present);
    assert reps == [reps[0], reps[1], reps[2], reps[3]];
    DistinctAppend(files, files + files, {});
  }
}

/** File URIs and their lists in terms of characters, whoever wrote them. */
module UriChecks {
  import opened Wrappers
  import opened Bytes
  import opened Texts
  import opened Model
  import opened Paths
  import opened Uris

  // ---------------------------------------------------------------------------
  // URIs
  // ---------------------------------------------------------------------------

  lemma KeptCharacters(b: byte)
    ensures Kept(b) <==> 33 <= b <= 126 && b !in Ascii("\"#%<>?`{}")
  {
    assert Ascii("\"#%<>?`{}") == [34, 35, 37, 60, 62, 63, 96, 123, 125];
  }

  lemma Digits(n: nat)
    requires n < 16
    ensures Hex(n) == Ascii("0123456789ABCDEF")[n]
  {
    assert Ascii("0123456789ABCDEF") == [48, 49, 50, 51, 52, 53, 54, 55, 56, 57, 65, 66, 67, 68, 69, 70];
  }

  /** Every byte is written as it is, or as a percent sign and two digits; which, only depends on it. */
  lemma ByteIsEncoded(b: byte)
    ensures EncodeByte(b) ==
            if 33 <= b <= 126 && b !in Ascii("\"#%<>?`{}") then [b]
            else Ascii("%") + [Ascii("0123456789ABCDEF")[b / 16], Ascii("0123456789ABCDEF")[b % 16]]
  {
    KeptCharacters(b);
    Digits(b / 16);
    Digits(b % 16);
  }

  lemma {:induction false} TextIsEncoded(a: Text, b: Text)
    ensures Encode(a + b) == Encode(a) + Encode(b)
    ensures |a| == 1 ==> Encode(a) == EncodeByte(a[0])
  {
    if a == [] {
      assert a + b == b;
    } else {
      TextIsEncoded(a[1..], b);
      assert (a + b)[1..] == a[1..] + b && (a + b)[0] == a[0];
      Associate(EncodeByte(a[0]), Encode(a[1..]), Encode(b));
    }
  }

  lemma SchemeIsTaken(rest: Text)
    ensures UriToPath(Ascii("file://") + rest) ==
            var decoded := Decode(if Ascii("localhost") <= rest then rest[9..] else rest);
            if IsUtf8(decoded) then Some(decoded) else None
  {
    assert (Ascii("file://") + rest)[|Ascii("file://")|..] == rest;
  }

  /** A URI is `file://` and the encoded path; `file://localhost` is read alike, other schemes are not. */
  lemma UrisAreRead(path: Text, uri: Text)
    ensures PathToUri(path) == Ascii("file://") + Encode(path)
    ensures UriToPath(Ascii("file://") + (Ascii("localhost") + Encode(path))) ==
            if IsUtf8(path) then Some(path) else None
    ensures !(Ascii("file://") <= uri) ==> UriToPath(uri) == None
  {
    var rest := Ascii("localhost") + Encode(path);
    SchemeIsTaken(rest);
    assert rest[9..] == Encode(path);
    DecodeInvertsEncode(path);
  }

  /** Digits may be small; a percent sign without two digits stands for itself. */
  lemma EscapesAreRead(s: Text)
    ensures Decode(Ascii("%2f") + s) == Ascii("/") + Decode(s) && Decode(Ascii("%2F") + s) == Ascii("/") + Decode(s)
    ensures Decode(Ascii("%zz") + s) == Ascii("%") + Decode(Ascii("zz") + s)
  {
    assert (Ascii("%2f") + s)[3..] == s && (Ascii("%2F") + s)[3..] == s;
    assert (Ascii("%zz") + s)[1..] == Ascii("zz") + s;
    assert Ascii("/") == [47] && Ascii("%") == [37];
  }

  // ---------------------------------------------------------------------------
  // Lists
  // ---------------------------------------------------------------------------

  /** What one line of a list contributes, blanks around it aside. */
  function PathIn(line: Text): seq<Text> {
    if Trim(line) == [] || Ascii("#") <= Trim(line) then []
    else match UriToPath(Trim(line)) case None => [] case Some(p) => [p]
  }

  /** A list is read line by line, whether lines end in LF or CRLF; comments and whatever is no file URI are skipped. */
  lemma ListsAreReadByLine(line: Text, rest: Text)
    requires 10 !in line && (line != [] ==> line[|line| - 1] != 13)
    ensures ParseCandidates(line + [10] + rest) == PathIn(line) + ParseCandidates(rest)
    ensures ParseCandidates(line + [13, 10] + rest) == PathIn(line) + ParseCandidates(rest)
    ensures line != [] ==> ParseCandidates(line) == PathIn(line)
  {
    var ended := line + [13];
    FirstLineEnds(line, rest);
    FirstLineEnds(ended, rest);
    assert line + [13, 10] + rest == ended + [LF] + rest && ended[..|line|] == line;
    assert Ascii("#") == [35];
    assert ([line] + Lines(rest))[1..] == Lines(rest);
    LineIsRead(line, Lines(rest));
    if line != [] {
      assert Lines(line) == [line] + Lines([]);
      LineIsRead(line, []);
      assert PathIn(line) + [] == PathIn(line);
    }
  }

  lemma LineIsRead(line: Text, lines: seq<Text>)
    ensures PathsOf([line] + lines) == PathIn(line) + PathsOf(lines)
  {
    assert ([line] + lines)[1..] == lines;
    assert Ascii("#") == [35];
  }

  /** What a file manager is given for two files. */
  lemma TwoFilesAreOffered(a: Text, c: Text)
    ensures var reps, x, y := FileRepresentations([a, c]), PathToUri(a), PathToUri(c);
            && |reps| == 4 && (forall i :: 0 <= i < 4 ==> reps[i].item == 0)
            && reps[0].format == Ascii("text/uri-list") && reps[0].data == x + [13, 10] + y
            && reps[1].format == Ascii("x-special/gnome-copied-files")
            && reps[2].format == Ascii("x-special/nautilus-clipboard")
            && reps[1].data == reps[2].data == Ascii("copy\n") + (x + [10] + y)
            && reps[3].format == Ascii("application/x-kde-cutselection") && reps[3].data == Ascii("0")
  {
    assert [a, c][1..] == [c];
    assert UrisOf([c]) == [PathToUri(c)] && UrisOf([a, c]) == [PathToUri(a), PathToUri(c)];
    LinesAreJoined([PathToUri(a)], PathToUri(c), [CR, LF]);
    LinesAreJoined([PathToUri(a)], PathToUri(c), [LF]);
    assert [PathToUri(a)] + [PathToUri(c)] == [PathToUri(a), PathToUri(c)];
  }

  /** Separators stand between the lines only. */
  lemma {:induction false} LinesAreJoined(lines: seq<Text>, line: Text, sep: Text)
    ensures JoinLines(lines + [line], sep) == if lines == [] then line else JoinLines(lines, sep) + sep + line
  {
    if lines == [] {
    } else {
      assert (lines + [line])[1..] == lines[1..] + [line] && (lines + [line])[0] == lines[0];
      LinesAreJoined(lines[1..], line, sep);
      if |lines| > 1 {
        var rest := JoinLines(lines[1..], sep);
        Associate(lines[0] + sep, rest + sep, line);
        Associate(lines[0] + sep, rest, sep);
      }
    }
  }

  // ---------------------------------------------------------------------------
  // Paths read back
  // ---------------------------------------------------------------------------

  /** Path by path, those that exist stay. */
  lemma {:induction false} ExistingIsFiltered(a: seq<Text>, p: Text, present: set<Text>)
    ensures Existing(a + [p], present) == Existing(a, present) + if p in present then [p] else []
  {
    if a == [] {
      assert (a + [p])[1..] == a;
    } else {
      ExistingIsFiltered(a[1..], p, present);
      assert (a + [p])[1..] == a[1..] + [p] && (a + [p])[0] == a[0];
      Associate(if a[0] in present then [a[0]] else [], Existing(a[1..], present), if p in present then [p] else []);
    }
  }

  /** Path by path, one is dropped exactly if one before it comes to the same components. */
  lemma {:induction false} DistinctIsFiltered(a: seq<Text>, p: Text, seen: set<Components>)
    ensures Distinct(a + [p], seen) ==
            Distinct(a, seen) +
            if ComponentsOf(p) in seen || exists i :: 0 <= i < |a| && ComponentsOf(a[i]) == ComponentsOf(p)
            then [] else [p]
  {
    if a == [] {
      assert (a + [p])[1..] == a;
    } else {
      assert (a + [p])[1..] == a[1..] + [p] && (a + [p])[0] == a[0];
      var later := if ComponentsOf(a[0]) in seen then seen else seen + {ComponentsOf(a[0])};
      DistinctIsFiltered(a[1..], p, later);
      assert (exists i :: 0 <= i < |a| && ComponentsOf(a[i]) == ComponentsOf(p)) <==>
               ComponentsOf(a[0]) == ComponentsOf(p) ||
               exists i :: 0 <= i < |a[1..]| && ComponentsOf(a[1..][i]) == ComponentsOf(p) by {
        forall i | 0 < i < |a| ensures a[i] == a[1..][i - 1] {}
        forall i | 0 <= i < |a[1..]| ensures a[1..][i] == a[i + 1] {}
      }
    }
  }

  /** The components of an absolute path are its names. */
  lemma ComponentsAreNames(p: Path)
    requires IsPath(p)
    ensures ComponentsOf(Ascii("/") + Join(p)) == Components(true, false, p)
  {
    SplitJoin(p);
    assert Ascii("/") == [] + [SLASH] && Ascii("/") + Join(p) == [] + [SLASH] + Join(p);
    SplitFirst(SLASH, [], Join(p));
    assert ([[]] + p)[1..] == p;
  }
}

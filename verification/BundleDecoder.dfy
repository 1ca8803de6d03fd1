/** The decoder: checks a bundle completely before it writes anything, then extracts it. */
module BundleDecoder {
  import opened Wrappers
  import opened Bytes
  import opened Texts
  import opened Paths
  import opened FileTree
  import opened Bundle
  import opened FileSystem
  import opened Extraction

  datatype DecodeError =
    | Truncated | BadMagic | BadManifestLength | BadManifest | UnsafeRoot | InvalidManifest | SizeOverflow
    | BodyMismatch | Incomplete | FileSystemError(error: FsError) | TrailingData | NotMaterialized

  // ---------------------------------------------------------------------------
  // Manifest entries with their bodies
  // ---------------------------------------------------------------------------

  function BodySize(e: Entry): nat { if e.kind.AFile? then e.size else 0 }

  function BodyBytes(entries: seq<Entry>): nat {
    if entries == [] then 0 else BodySize(entries[0]) + BodyBytes(entries[1..])
  }

  function EntryPath(e: Entry): Path { if Safe(e.path) then PathOf(e) else [] }

  function NodeAt(e: Entry, data: seq<byte>): Node {
    match e.kind
    case AFile => FileNode(data, e.mode)
    case ADirectory => DirNode(e.mode)
    case ASymlink => LinkNode(if e.linkTarget.Some? then e.linkTarget.value else [])
  }

  /** Each entry with the bytes that are its own: the bodies follow each other in manifest order. */
  function Unpack(entries: seq<Entry>, body: seq<byte>): (items: seq<Item>)
    requires BodyBytes(entries) <= |body|
    ensures |items| == |entries|
    ensures forall i :: 0 <= i < |items| ==>
              && items[i].path == EntryPath(entries[i])
              && (items[i].node.FileNode? <==> entries[i].kind.AFile?)
              && (items[i].node.DirNode? <==> entries[i].kind.ADirectory?)
  {
    if entries == [] then []
    else
      var size := BodySize(entries[0]);
      [Item(EntryPath(entries[0]), NodeAt(entries[0], body[..size]))] + Unpack(entries[1..], body[size..])
  }

  /** How the paths of the entries end. */
  function Endings(entries: seq<Entry>): (r: seq<Ending>)
    ensures |r| == |entries|
    ensures forall i :: 0 <= i < |r| ==> r[i] == EndingOf(Split(SLASH, entries[i].path))
  {
    if entries == [] then [] else [EndingOf(Split(SLASH, entries[0].path))] + Endings(entries[1..])
  }

  lemma UnpackedPair(entries: seq<Entry>, body: seq<byte>, i: nat, j: nat)
    requires BodyBytes(entries) <= |body| && i < |entries| && j < |entries|
    requires Safe(entries[i].path) && Safe(entries[j].path)
    ensures var items := Unpack(entries, body);
            && items[i].path == PathOf(entries[i]) && items[j].path == PathOf(entries[j])
            && (items[i].node.DirNode? <==> entries[i].kind.ADirectory?)
  {
  }

  lemma ValidIsExtractable(m: Manifest, body: seq<byte>)
    requires Valid(m) && BodyBytes(m.entries) <= |body|
    ensures Extractable(Unpack(m.entries, body))
  {
    var entries, items := m.entries, Unpack(m.entries, body);
    forall j | 0 <= j < |items| ensures items[j].path != [] {
      UnpackedPair(entries, body, j, j);
    }
    forall i, j | 0 <= i < j < |items| ensures items[i].path != items[j].path {
      UnpackedPair(entries, body, i, j);
    }
    forall i, j | 0 <= i < |items| && 0 <= j < |items| && items[i].path < items[j].path
      ensures items[i].node.DirNode?
    {
      UnpackedPair(entries, body, i, j);
    }
  }

  // ---------------------------------------------------------------------------
  // Checking
  // ---------------------------------------------------------------------------

  /** The manifest, and how long it is. */
  ghost function ParseHeader(bytes: seq<byte>): (r: Result<(Manifest, nat), DecodeError>)
    ensures r.Ok? ==> 9 + r.value.1 <= |bytes|
  {
    if |bytes| < 5 then Err(Truncated)
    else if bytes[..5] != MAGIC then Err(BadMagic)
    else if |bytes| < 9 then Err(Truncated)
    else
      var length := FromBigEndian(bytes[5..9]);
      if length == 0 || length > MAX_MANIFEST then Err(BadManifestLength)
      else if |bytes| < 9 + length then Err(Truncated)
      else
        match ParseManifest(bytes[9..9 + length])
        case None => Err(BadManifest)
        case Some(m) => Ok((m, length))
  }

  /** What comes after the header: the manifest must be sound, and the bodies exactly as long as it says. */
  ghost function Accepted(m: Manifest, length: nat, bytes: seq<byte>): Result<(Manifest, seq<byte>), DecodeError>
    requires 9 + length <= |bytes|
  {
    if exists r :: 0 <= r < |m.roots| && !Safe(m.roots[r]) then Err(UnsafeRoot)
    else if !Valid(m) then Err(InvalidManifest)
    else if BodyBytes(m.entries) > U64_MAX || 9 + length + BodyBytes(m.entries) > U64_MAX then Err(SizeOverflow)
    else if 9 + length + BodyBytes(m.entries) != |bytes| then Err(BodyMismatch)
    else Ok((m, bytes[9 + length..]))
  }

  ghost function ParseBundle(bytes: seq<byte>): Result<(Manifest, seq<byte>), DecodeError> {
    match ParseHeader(bytes)
    case Err(e) => Err(e)
    case Ok((m, length)) => Accepted(m, length, bytes)
  }

  /** A manifest of this length follows the magic and the length itself. */
  ghost predicate HasManifest(bytes: seq<byte>, length: nat, m: Manifest) {
    && 0 < length <= 16 * 1024 * 1024 && 9 + length <= |bytes| && bytes[..5] == Ascii("SCBF1")
    && bytes[5..9] == [length / 0x100_0000, length / 0x1_0000 % 256, length / 0x100 % 256, length % 256]
    && ParseManifest(bytes[9..9 + length]) == Some(m)
  }

  /** The bytes of all files in a manifest, one after the other. */
  predicate AreBodies(entries: seq<Entry>, body: seq<byte>) {
    if entries == [] then body == []
    else if entries[0].kind.AFile? then
      entries[0].size <= |body| && AreBodies(entries[1..], body[entries[0].size..])
    else AreBodies(entries[1..], body)
  }

  lemma {:induction false} BodiesAreMeasured(entries: seq<Entry>, body: seq<byte>)
    ensures AreBodies(entries, body) <==> |body| == BodyBytes(entries)
  {
    if entries != [] {
      if entries[0].kind.AFile? {
        if entries[0].size <= |body| { BodiesAreMeasured(entries[1..], body[entries[0].size..]); }
      } else {
        BodiesAreMeasured(entries[1..], body);
      }
    }
  }

  lemma LengthIsRead(bytes: seq<byte>, length: nat)
    requires |bytes| >= 9 && length < 0x1_0000_0000
    ensures bytes[5..9] == [length / 0x100_0000, length / 0x1_0000 % 256, length / 0x100 % 256, length % 256] <==>
              FromBigEndian(bytes[5..9]) == length
  {
    Widths();
    FourBytes(length);
    BigEndianRoundTrip(length, 4);
    BigEndianOf(bytes[5..9]);
  }

  lemma HeaderIsFound(bytes: seq<byte>, length: nat, m: Manifest)
    requires HasManifest(bytes, length, m)
    ensures ParseHeader(bytes) == Ok((m, length))
  {
    assert MAGIC == Ascii("SCBF1");
    LengthIsRead(bytes, length);
  }

  lemma FoundIsHeader(bytes: seq<byte>)
    requires ParseHeader(bytes).Ok?
    ensures HasManifest(bytes, ParseHeader(bytes).value.1, ParseHeader(bytes).value.0)
  {
    assert MAGIC == Ascii("SCBF1");
    LengthIsRead(bytes, FromBigEndian(bytes[5..9]));
  }

  lemma RestIsAccepted(bytes: seq<byte>, length: nat, m: Manifest, body: seq<byte>)
    requires |bytes| < 0x1_0000_0000_0000_0000 && 9 + length <= |bytes|
    ensures Accepted(m, length, bytes) == Ok((m, body)) <==>
              Valid(m) && body == bytes[9 + length..] && AreBodies(m.entries, body)
  {
    BodiesAreMeasured(m.entries, bytes[9 + length..]);
  }

  /**
   * A bundle is accepted exactly if it is `SCBF1`, the length of a manifest up to 16 MiB, a valid manifest, and the
   * bodies of its files, and nothing else.
   */
  lemma AcceptedExactlyWhen(bytes: seq<byte>, m: Manifest, body: seq<byte>)
    requires |bytes| < 0x1_0000_0000_0000_0000
    ensures ParseBundle(bytes) == Ok((m, body)) <==>
              exists length: nat ::
                && HasManifest(bytes, length, m) && Valid(m) && body == bytes[9 + length..]
                && AreBodies(m.entries, body)
  {
    if ParseBundle(bytes) == Ok((m, body)) {
      FoundIsHeader(bytes);
      RestIsAccepted(bytes, ParseHeader(bytes).value.1, m, body);
    }
    forall length: nat
      | HasManifest(bytes, length, m) && Valid(m) && body == bytes[9 + length..] && AreBodies(m.entries, body)
      ensures ParseBundle(bytes) == Ok((m, body))
    {
      HeaderIsFound(bytes, length, m);
      RestIsAccepted(bytes, length, m, body);
    }
  }

  lemma ParsedIsValid(bytes: seq<byte>, m: Manifest, body: seq<byte>)
    requires ParseBundle(bytes) == Ok((m, body))
    ensures Valid(m) && BodyBytes(m.entries) == |body|
  {
  }

  method TotalBody(entries: seq<Entry>) returns (total: Option<nat>)
    ensures total == if BodyBytes(entries) <= U64_MAX then Some(BodyBytes(entries)) else None
  {
    var sum, rest := 0, entries;
    while rest != []
      invariant sum + BodyBytes(rest) == BodyBytes(entries)
      decreases |rest|
    {
      if rest[0].kind.AFile? {
        if sum + rest[0].size > U64_MAX {
          return None;
        }
        sum := sum + rest[0].size;
      }
      rest := rest[1..];
    }
    return if sum <= U64_MAX then Some(sum) else None;
  }

  method ReadHeader(bytes: seq<byte>) returns (r: Result<(Manifest, nat), DecodeError>)
    ensures r == ParseHeader(bytes)
  {
    if |bytes| < 5 { return Err(Truncated); }
    if bytes[..5] != MAGIC { return Err(BadMagic); }
    if |bytes| < 9 { return Err(Truncated); }
    var length := FromBigEndian(bytes[5..9]);
    if length == 0 || length > MAX_MANIFEST { return Err(BadManifestLength); }
    if |bytes| < 9 + length { return Err(Truncated); }
    var parsed := ParseManifest(bytes[9..9 + length]);
    return if parsed.None? then Err(BadManifest) else Ok((parsed.value, length));
  }

  method RootsAreSafe(roots: seq<Text>) returns (ok: bool)
    ensures ok <==> forall r :: 0 <= r < |roots| ==> Safe(roots[r])
  {
    for r := 0 to |roots|
      invariant forall k :: 0 <= k < r ==> Safe(roots[k])
    {
      if !Safe(roots[r]) { return false; }
    }
    return true;
  }

  method Accept(m: Manifest, length: nat, bytes: seq<byte>) returns (r: Result<(Manifest, seq<byte>), DecodeError>)
    requires 9 + length <= |bytes|
    ensures r == Accepted(m, length, bytes)
  {
    var ok := RootsAreSafe(m.roots);
    if !ok { return Err(UnsafeRoot); }
    ok := ValidateEntries(m);
    if !ok { return Err(InvalidManifest); }
    var total := TotalBody(m.entries);
    if total.None? || 9 + length + total.value > U64_MAX { return Err(SizeOverflow); }
    if 9 + length + total.value != |bytes| { return Err(BodyMismatch); }
    return Ok((m, bytes[9 + length..]));
  }

  /** Everything `decode` checks before it touches the destination. */
  method ReadBundle(bytes: seq<byte>) returns (r: Result<(Manifest, seq<byte>), DecodeError>)
    ensures r == ParseBundle(bytes)
  {
    var header := ReadHeader(bytes);
    if header.Err? { return Err(header.error); }
    r := Accept(header.value.0, header.value.1, bytes);
  }

  // ---------------------------------------------------------------------------
  // Extracting
  // ---------------------------------------------------------------------------

  /** The receiving directory; it may not exist yet. */
  class Destination {
    var created: bool
    var files: Files

    constructor ()
      ensures !created && files == map[]
    {
      created, files := false, map[];
    }

    /** `create_dir_all`: what it has made stays, even if it fails in the end. */
    method MakeDirectories(path: FsPath) returns (error: Option<FsError>)
      modifies this`files
      ensures Effect(files, error) == CreateDirAll(old(files), path)
    {
      var effect := CreateDirAll(files, path);
      files := effect.files;
      return effect.error;
    }

    /** `create_dir_all` of the parent, `open` with create-new, `write_all`. */
    method WriteFile(path: FsPath, data: seq<byte>) returns (error: Option<FsError>)
      requires path.names != []
      modifies this`files
      ensures Effect(files, error) == MakeFile(old(files), path, data)
    {
      error := MakeDirectories(Parent(path));
      if error.Some? { return; }
      match OpenNew(files, path, data)
      case Ok(m) =>
        files := m;
      case Err(e) =>
        error := Some(e);
    }

    /** `create_dir_all` of the parent, `symlink`. */
    method WriteLink(path: FsPath, target: Text) returns (error: Option<FsError>)
      requires path.names != []
      modifies this`files
      ensures Effect(files, error) == PlaceLink(old(files), path, target)
    {
      error := MakeDirectories(Parent(path));
      if error.Some? { return; }
      match MakeLink(files, path, target)
      case Ok(m) =>
        files := m;
      case Err(e) =>
        error := Some(e);
    }

    /** `set_permissions`. */
    method Chmod(path: FsPath, mode: nat) returns (error: Option<FsError>)
      requires path.names != []
      modifies this`files
      ensures match SetMode(old(files), path, mode)
              case Ok(m) => files == m && error == None
              case Err(e) => files == old(files) && error == Some(e)
    {
      match SetMode(files, path, mode)
      case Ok(m) =>
        files := m;
        return None;
      case Err(e) =>
        return Some(e);
    }
  }

  ghost predicate Ready(entries: seq<Entry>, body: seq<byte>) {
    && BodyBytes(entries) == |body|
    && (forall i :: 0 <= i < |entries| ==> Safe(entries[i].path))
    && Extractable(Unpack(entries, body))
  }

  /** The items left once the first has been read off. */
  lemma NextItem(entries: seq<Entry>, body: seq<byte>)
    requires entries != [] && BodyBytes(entries) <= |body|
    ensures BodySize(entries[0]) <= |body| && BodyBytes(entries[1..]) <= |body[BodySize(entries[0])..]|
    ensures Unpack(entries, body)[0] == Item(EntryPath(entries[0]), NodeAt(entries[0], body[..BodySize(entries[0])]))
    ensures Unpack(entries, body)[1..] == Unpack(entries[1..], body[BodySize(entries[0])..])
  {
  }

  /** An entry's path as the system calls see it. */
  function PathText(e: Entry): FsPath
    requires Safe(e.path)
  {
    ToFsPath(e.path)
  }

  /** One entry of the first pass: only the text of its path can be in the way. */
  method CreateEntry(e: Entry, data: seq<byte>, ghost items: seq<Item>, ghost endings: seq<Ending>, ghost i: nat,
                     d: Destination)
    returns (error: Option<FsError>)
    requires Extractable(items) && i < |items| == |endings| && Stage(items, i, |items|, d.files)
    requires Safe(e.path) && items[i] == Item(PathOf(e), NodeAt(e, data)) &&
             PathText(e) == FsPath(items[i].path, endings[i])
    modifies d`files
    ensures error == if Creatable(items, endings, i) then None else Some(Refusal(items, endings, i))
    ensures error.None? ==> Stage(items, i + 1, |items|, d.files)
    ensures error.Some? ==> Contained(items, d.files)
  {
    var path := PathText(e);
    match e.kind
    case ASymlink =>
      SkipStep(items, i, d.files);
      error := None;
    case ADirectory =>
      DirectoryStep(items, endings, i, d.files);
      error := d.MakeDirectories(path);
    case AFile =>
      FileStep(items, endings, i, d.files);
      error := d.WriteFile(path, data);
  }

  /** The refusal of the first item from `i` on that cannot be created. */
  ghost function FirstRefusal(items: seq<Item>, endings: seq<Ending>, i: nat): (error: Option<FsError>)
    requires i <= |items| == |endings|
    ensures error.None? <==> forall j {:trigger Creatable(items, endings, j)} :: i <= j < |items| ==>
            Creatable(items, endings, j)
    decreases |items| - i
  {
    if i == |items| then None
    else if !Creatable(items, endings, i) then Some(Refusal(items, endings, i))
    else FirstRefusal(items, endings, i + 1)
  }

  /** The first pass creates directories and files; links wait. The cursor ends where the bytes do. */
  method FirstPass(entries: seq<Entry>, body: seq<byte>, d: Destination)
    returns (unread: seq<byte>, error: Option<FsError>)
    requires Ready(entries, body) && d.files == map[]
    modifies d`files
    ensures var items, endings := Unpack(entries, body), Endings(entries);
            && error == FirstRefusal(items, endings, 0)
            && (error.None? ==> unread == [] && Stage(items, |items|, |items|, d.files))
            && Contained(items, d.files)
  {
    ghost var items, endings := Unpack(entries, body), Endings(entries);
    NothingMade(items);
    var rest := entries;
    unread := body;
    ghost var i := 0;
    while rest != []
      invariant i + |rest| == |entries| && BodyBytes(rest) == |unread| && rest == entries[i..]
      invariant Unpack(rest, unread) == items[i..]
      invariant Stage(items, i, |items|, d.files) && FirstRefusal(items, endings, 0) == FirstRefusal(items, endings, i)
      decreases |rest|
    {
      var e := rest[0];
      var size := BodySize(e);
      NextItem(rest, unread);
      assert items[i] == items[i..][0] && items[i..][1..] == items[i + 1..] && e == entries[i];
      error := CreateEntry(e, unread[..size], items, endings, i, d);
      if error.Some? { return; }
      rest, unread, i := rest[1..], unread[size..], i + 1;
    }
    StageIsContained(items, i, |items|, d.files);
    error := None;
  }

  /** `set_mode`: mode 0 is never applied. */
  method ApplyMode(path: FsPath, mode: u32, ghost items: seq<Item>, ghost endings: seq<Ending>, ghost k: nat,
      d: Destination)
    returns (error: Option<FsError>)
    requires Extractable(items) && 0 < k <= |items| == |endings| && Stage(items, |items|, k, d.files)
    requires !items[k - 1].node.LinkNode? && items[k - 1].node.mode == mode && Creatable(items, endings, k - 1)
    requires path == FsPath(items[k - 1].path, endings[k - 1])
    modifies d`files
    ensures error == if Finishable(items, endings, k - 1) then None else Some(LateRefusal(items, endings, k - 1))
    ensures error.None? ==> Stage(items, |items|, k - 1, d.files)
    ensures error.Some? ==> Contained(items, d.files)
  {
    StageIsContained(items, |items|, k, d.files);
    if mode != 0 {
      ChmodStep(items, endings, k, d.files);
      error := d.Chmod(path, mode % MODE_BITS);
    } else {
      UnchangedStep(items, endings, k, d.files);
      error := None;
    }
  }

  /** The item, with the ending of its path, is what the entry says. */
  ghost predicate Describes(e: Entry, item: Item, ending: Ending) {
    && Safe(e.path) && GoodTarget(e) && PathText(e) == FsPath(item.path, ending)
    && item.node == NodeAt(e, if item.node.FileNode? then item.node.data else [])
  }

  ghost predicate AllDescribed(entries: seq<Entry>, items: seq<Item>, endings: seq<Ending>)
    requires |entries| == |items| == |endings|
  {
    forall i {:trigger Describes(entries[i], items[i], endings[i])} :: 0 <= i < |entries| ==>
      Describes(entries[i], items[i], endings[i])
  }

  /** One entry of the second pass: what may be in the way of a link is its text or a directory closed too early. */
  method FinishEntry(e: Entry, ghost items: seq<Item>, ghost endings: seq<Ending>, ghost k: nat, d: Destination)
    returns (error: Option<FsError>)
    requires Extractable(items) && 0 < k <= |items| == |endings| && Stage(items, |items|, k, d.files)
    requires Creatable(items, endings, k - 1) && Describes(e, items[k - 1], endings[k - 1])
    modifies d`files
    ensures error == if Finishable(items, endings, k - 1) then None else Some(LateRefusal(items, endings, k - 1))
    ensures error.None? ==> Stage(items, |items|, k - 1, d.files)
    ensures error.Some? ==> Contained(items, d.files)
  {
    var path := PathText(e);
    if e.kind.ASymlink? {
      LinkStep(items, endings, k, d.files);
      error := d.WriteLink(path, e.linkTarget.value);
    } else {
      error := ApplyMode(path, e.mode, items, endings, k, d);
    }
  }

  /** The items from `k` on can all be given their final form. */
  ghost predicate FinishableFrom(items: seq<Item>, endings: seq<Ending>, k: nat)
    requires |items| == |endings|
  {
    forall x {:trigger Finishable(items, endings, x)} :: k <= x < |items| ==> Finishable(items, endings, x)
  }

  /** The refusal of the last item below `k` that cannot be given its final form. */
  ghost function LastRefusal(items: seq<Item>, endings: seq<Ending>, k: nat): Option<FsError>
    requires k <= |items| == |endings|
  {
    if k == 0 then None
    else if !Finishable(items, endings, k - 1) then Some(LateRefusal(items, endings, k - 1))
    else LastRefusal(items, endings, k - 1)
  }

  lemma {:induction false} LastRefusalStops(items: seq<Item>, endings: seq<Ending>, k: nat, n: nat)
    requires k <= n <= |items| == |endings| && FinishableFrom(items, endings, k)
    ensures LastRefusal(items, endings, n) == LastRefusal(items, endings, k)
    decreases n
  {
    if k < n {
      assert Finishable(items, endings, n - 1);
      LastRefusalStops(items, endings, k, n - 1);
    }
  }

  lemma RefusedAt(items: seq<Item>, endings: seq<Ending>, k: nat)
    requires 0 < k <= |items| == |endings| && FinishableFrom(items, endings, k) && !Finishable(items, endings, k - 1)
    ensures LastRefusal(items, endings, |items|) == Some(LateRefusal(items, endings, k - 1))
    ensures !FinishableFrom(items, endings, 0)
  {
    LastRefusalStops(items, endings, k, |items|);
  }

  /** The second pass goes backwards: links, and permissions from the leaves up. */
  method SecondPass(entries: seq<Entry>, ghost items: seq<Item>, ghost endings: seq<Ending>, d: Destination)
    returns (error: Option<FsError>)
    requires |entries| == |items| == |endings| && Extractable(items) && Stage(items, |items|, |items|, d.files)
    requires AllDescribed(entries, items, endings) && FirstRefusal(items, endings, 0).None?
    modifies d`files
    ensures error.None? <==> FinishableFrom(items, endings, 0)
    ensures error == LastRefusal(items, endings, |items|)
    ensures error.None? ==> Stage(items, |items|, 0, d.files)
    ensures Contained(items, d.files)
  {
    var k := |entries|;
    while k > 0
      invariant 0 <= k <= |entries| && Stage(items, |items|, k, d.files)
      invariant FinishableFrom(items, endings, k)
    {
      error := FinishEntry(entries[k - 1], items, endings, k, d);
      if error.Some? {
        RefusedAt(items, endings, k);
        return;
      }
      k := k - 1;
    }
    LastRefusalStops(items, endings, 0, |items|);
    StageIsContained(items, |items|, 0, d.files);
    error := None;
  }

  lemma ItemIsDescribed(entries: seq<Entry>, body: seq<byte>, i: nat)
    requires BodyBytes(entries) <= |body| && i < |entries| && Safe(entries[i].path) && GoodTarget(entries[i])
    ensures Describes(entries[i], Unpack(entries, body)[i], Endings(entries)[i])
  {
    var data := UnpackedNode(entries, body, i);
  }

  lemma ItemsAreDescribed(entries: seq<Entry>, body: seq<byte>)
    requires BodyBytes(entries) <= |body|
    requires forall i :: 0 <= i < |entries| ==> Safe(entries[i].path) && GoodTarget(entries[i])
    ensures AllDescribed(entries, Unpack(entries, body), Endings(entries))
  {
    forall i | 0 <= i < |entries| ensures Describes(entries[i], Unpack(entries, body)[i], Endings(entries)[i]) {
      ItemIsDescribed(entries, body, i);
    }
  }

  lemma {:induction false} UnpackedNode(entries: seq<Entry>, body: seq<byte>, i: nat) returns (data: seq<byte>)
    requires BodyBytes(entries) <= |body| && i < |entries|
    ensures Unpack(entries, body)[i] == Item(EntryPath(entries[i]), NodeAt(entries[i], data))
  {
    var size := BodySize(entries[0]);
    NextItem(entries, body);
    if i == 0 {
      data := body[..size];
    } else {
      data := UnpackedNode(entries[1..], body[size..], i - 1);
      assert Unpack(entries, body)[i] == Unpack(entries, body)[1..][i - 1] && entries[i] == entries[1..][i - 1];
    }
  }

  function RootPaths(roots: seq<Text>): (r: seq<FsPath>)
    requires forall i :: 0 <= i < |roots| ==> Safe(roots[i])
    ensures |r| == |roots| && forall i :: 0 <= i < |r| ==> Safe(roots[i]) && r[i] == ToFsPath(roots[i])
  {
    if roots == [] then [] else assert Safe(roots[0]); [ToFsPath(roots[0])] + RootPaths(roots[1..])
  }

  ghost predicate AllPresent(files: Files, links: Links, roots: seq<FsPath>) {
    forall i :: 0 <= i < |roots| ==> Present(files, links, roots[i])
  }

  /** Every path, and what is there, once every item has its final form. */
  ghost predicate Extracted(items: seq<Item>, files: Files) {
    Stage(items, |items|, 0, files)
  }

  lemma RootNamesItem(m: Manifest, body: seq<byte>, r: nat, x: nat)
    requires Valid(m) && BodyBytes(m.entries) <= |body|
    requires r < |m.roots| && x < |m.entries| && ToFsPath(m.roots[r]).names == PathOf(m.entries[x])
    ensures RootPaths(m.roots)[r] == FsPath(Unpack(m.entries, body)[x].path, ToFsPath(m.roots[r]).ending)
  {
    UnpackedPair(m.entries, body, x, x);
  }

  /** Once everything is extracted, a root that names entry `x` is found exactly when its text and its way allow it. */
  lemma RootIsFoundExactlyWhen(m: Manifest, body: seq<byte>, links: Links, files: Files, r: nat, x: nat)
    requires Valid(m) && BodyBytes(m.entries) <= |body| && Extracted(Unpack(m.entries, body), files)
    requires r < |m.roots| && x < |m.entries| && ToFsPath(m.roots[r]).names == PathOf(m.entries[x])
    ensures Present(files, links, RootPaths(m.roots)[r]) <==>
              Found(Unpack(m.entries, body), links, files, x, ToFsPath(m.roots[r]).ending)
  {
    ValidIsExtractable(m, body);
    RootNamesItem(m, body, r, x);
    PresentExactlyWhen(Unpack(m.entries, body), links, files, x, ToFsPath(m.roots[r]).ending);
  }

  method CheckPresent(files: Files, links: Links, roots: seq<FsPath>) returns (ok: bool)
    ensures ok <==> AllPresent(files, links, roots)
  {
    for i := 0 to |roots|
      invariant forall j :: 0 <= j < i ==> Present(files, links, roots[j])
    {
      if !Present(files, links, roots[i]) { return false; }
    }
    return true;
  }

  /** No item's path is refused, and none is closed off before its turn. */
  ghost predicate CanBeExtracted(items: seq<Item>, endings: seq<Ending>)
    requires |items| == |endings|
  {
    FirstRefusal(items, endings, 0).None? && FinishableFrom(items, endings, 0)
  }

  lemma NothingIsRefused(items: seq<Item>, endings: seq<Ending>)
    requires |items| == |endings| && CanBeExtracted(items, endings)
    ensures LastRefusal(items, endings, |items|).None?
  {
    LastRefusalStops(items, endings, 0, |items|);
  }

  /**
   * What extracting into a fresh directory comes to: everything in its final form, if that is possible, and then all
   * roots or an error for a root that cannot be found; otherwise the error of the first call that was refused. Nothing
   * is written elsewhere in any case.
   */
  ghost predicate ExtractionEnds(m: Manifest, body: seq<byte>, links: Links, files: Files,
                                 r: Result<seq<FsPath>, DecodeError>)
    requires Valid(m) && BodyBytes(m.entries) <= |body|
  {
    var items, endings, roots := Unpack(m.entries, body), Endings(m.entries), RootPaths(m.roots);
    && Contained(items, files)
    && match FirstRefusal(items, endings, 0)
       case Some(e) => r == Err(FileSystemError(e))
       case None =>
         match LastRefusal(items, endings, |items|)
         case Some(e) => r == Err(FileSystemError(e))
         case None =>
           && Extracted(items, files)
           && r == if AllPresent(files, links, roots) then Ok(roots) else Err(NotMaterialized)
  }

  /** Both passes over a directory that has just been made, and the look at the roots. */
  method Extract(m: Manifest, body: seq<byte>, links: Links, d: Destination)
    returns (r: Result<seq<FsPath>, DecodeError>)
    requires Valid(m) && BodyBytes(m.entries) == |body| && d.files == map[]
    modifies d`files
    ensures ExtractionEnds(m, body, links, d.files, r)
  {
    ValidIsExtractable(m, body);
    var unread, error := FirstPass(m.entries, body, d);
    if error.Some? {
      return Err(FileSystemError(error.value));
    }
    ItemsAreDescribed(m.entries, body);
    error := SecondPass(m.entries, Unpack(m.entries, body), Endings(m.entries), d);
    if error.Some? {
      return Err(FileSystemError(error.value));
    }
    if unread != [] {
      return Err(TrailingData);
    }
    var roots := RootPaths(m.roots);
    var present := CheckPresent(d.files, links, roots);
    return if present then Ok(roots) else Err(NotMaterialized);
  }

  /**
   * `decode`: nothing is written unless the whole bundle checks out, and then only the text of a path and directories
   * closed too early can get in the way. `links` says what the links of a file system lead to.
   */
  method Decode(bytes: seq<byte>, links: Links, d: Destination) returns (r: Result<seq<FsPath>, DecodeError>)
    requires !d.created ==> d.files == map[]
    modifies d
    ensures ParseBundle(bytes).Err? ==>
              r == Err(ParseBundle(bytes).error) && d.files == old(d.files) && d.created == old(d.created)
    ensures ParseBundle(bytes).Ok? ==>
              var (m, body) := ParseBundle(bytes).value;
              && d.created
              && (old(d.created) ==>
                    && d.files == old(d.files)
                    && r == if AllPresent(d.files, links, RootPaths(m.roots)) then Ok(RootPaths(m.roots))
                            else Err(Incomplete))
              && (!old(d.created) ==> ExtractionEnds(m, body, links, d.files, r))
  {
    var parsed := ReadBundle(bytes);
    if parsed.Err? {
      return Err(parsed.error);
    }
    var (m, body) := parsed.value;
    if d.created {
      var roots := RootPaths(m.roots);
      var present := CheckPresent(d.files, links, roots);
      return if present then Ok(roots) else Err(Incomplete);
    }
    d.created := true;
    r := Extract(m, body, links, d);
  }

  /** `decode` into a directory that does not exist yet, for a bundle that reads as `parsed`. */
  method DecodeAfresh(bytes: seq<byte>, ghost parsed: Result<(Manifest, seq<byte>), DecodeError>, links: Links)
    returns (r: Result<seq<FsPath>, DecodeError>, d: Destination)
    requires ParseBundle(bytes) == parsed
    ensures match parsed
            case Err(e) => r == Err(e) && d.files == map[] && !d.created
            case Ok((m, body)) =>
              Valid(m) && BodyBytes(m.entries) <= |body| && ExtractionEnds(m, body, links, d.files, r)
  {
    if parsed.Ok? { ParsedIsValid(bytes, parsed.value.0, parsed.value.1); }
    d := new Destination();
    r := Decode(bytes, links, d);
  }

  lemma NothingMade(items: seq<Item>)
    ensures Stage(items, 0, |items|, map[])
  {
  }
}

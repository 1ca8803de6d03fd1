/** Manifests that validation accepts and extraction refuses, each decoded. */
module BundleWitnesses {
  import opened Wrappers
  import opened Bytes
  import opened Texts
  import opened Paths
  import opened FileTree
  import opened Bundle
  import opened BundleEncoder
  import opened FileSystem
  import opened Extraction
  import opened BundleDecoder
  import opened BundleRoundTrip

  /** A short file name. */
  predicate IsShortName(n: Text) { IsName(n) && 0 !in n && |n| < 60 }

  // ---------------------------------------------------------------------------
  // Small manifests
  // ---------------------------------------------------------------------------

  ghost predicate IsShort(e: Entry) {
    |e.path| < 128 && e.size < 128 && e.mode < 16384 && e.linkTarget.None?
  }

  lemma ShortEntry(e: Entry)
    requires IsShort(e)
    ensures |PutEntry(e)| <= 134
  {
    assert |PutNat(e.mode)| <= 2;
  }

  lemma {:induction false} ShortEntries(entries: seq<Entry>)
    requires forall e :: e in entries ==> IsShort(e)
    ensures |PutAll(PutEntry, entries)| <= 134 * |entries|
  {
    if entries != [] {
      ShortEntry(entries[0]);
      ShortEntries(entries[1..]);
    }
  }

  lemma ShortManifest(root: Text, entries: seq<Entry>)
    requires |root| < 128 && |entries| < 3 && forall e :: e in entries ==> IsShort(e)
    ensures |PutManifest(Manifest([root], entries))| <= 400
  {
    ShortEntries(entries);
    assert [root][1..] == [];
    assert |PutAll(PutText, [root])| <= 128;
  }

  /** Decoding the bundle of a small valid manifest without bodies into a fresh directory. */
  method DecodeManifest(m: Manifest, links: Links) returns (r: Result<seq<FsPath>, DecodeError>, d: Destination)
    requires Valid(m) && BodyBytes(m.entries) == 0 && |PutManifest(m)| <= 400
    ensures ExtractionEnds(m, [], links, d.files, r)
  {
    var header := PutManifest(m);
    var nothing: seq<seq<byte>> := [];
    ParsesAssembled(m, header, nothing);
    r, d := DecodeAfresh(Assemble(header, nothing), Ok((m, Concat(nothing))), links);
  }

  // ---------------------------------------------------------------------------
  // A file listed before a directory that ends up closed
  // ---------------------------------------------------------------------------

  /** The file "d/f", then the directory "d", with modes that are applied; the directory's does not admit its owner. */
  ghost predicate IsDescending(items: seq<Item>, d: Text, f: Text) {
    && IsShortName(d) && IsShortName(f) && |items| == 2
    && items[0].path == [d, f] && items[0].node.FileNode?
    && items[0].node.data == [] && 0 < items[0].node.mode < MODE_BITS
    && items[1].path == [d] && items[1].node.DirNode? && 0 < items[1].node.mode < MODE_BITS
    && !Searchable(items[1].node)
  }

  lemma DescendingFacts(items: seq<Item>, d: Text, f: Text)
    requires IsDescending(items, d, f)
    ensures Proper(items) && ProperPaths(items) && Extractable(items) && Concat(BodiesOf(items)) == []
  {
    assert items[1..] == [items[1]] && items[1..][1..] == [];
    assert BodiesOf(items[1..]) == [];
    assert BodiesOf(items) == [[]];
  }

  lemma DescendingIsValid(items: seq<Item>, d: Text, f: Text)
    requires IsDescending(items, d, f) && Proper(items)
    ensures var m := Manifest([d], EntriesOf(items));
            Valid(m) && BodyBytes(m.entries) == 0 && |PutManifest(m)| <= 400
  {
    var entries := EntriesOf(items);
    DescendingFacts(items, d, f);
    BodiesMatchEntries(items);
    EncodedEntriesAreValid(items);
    assert Join([d]) == d;
    JoinIsSafe([d]);
    EntryIsSound(items, 1);
    assert PathOf(entries[1]) == [d];
    assert Join([d, f]) == d + [SLASH] + f by { assert [d, f][1..] == [f]; }
    ShortManifest(d, entries);
  }

  lemma {:induction false} DescendingCanBeCreated(items: seq<Item>, d: Text, f: Text, endings: seq<Ending>)
    requires IsDescending(items, d, f) && |endings| == 2 && endings[0] == endings[1] == Bare
    ensures FirstRefusal(items, endings, 0).None?
  {
    forall i | 0 <= i < 2 ensures Creatable(items, endings, i) {}
  }

  lemma DescendingIsClosed(items: seq<Item>, d: Text, f: Text, endings: seq<Ending>)
    requires IsDescending(items, d, f) && |endings| == 2
    ensures !Finishable(items, endings, 0) && Finishable(items, endings, 1)
  {
    assert items[1].path < items[0].path && !Searchable(Final(items[1].node));
    assert !WayStaysSearchable(items, 1, 0) && WayStaysSearchable(items, 2, 1);
  }

  /** The directory is closed first, and then its file cannot be reached. */
  lemma {:induction false} DescendingIsRefused(items: seq<Item>, d: Text, f: Text, endings: seq<Ending>)
    requires IsDescending(items, d, f) && |endings| == 2 && endings[0] == endings[1] == Bare
    ensures LastRefusal(items, endings, 2) == Some(Denied)
  {
    DescendingIsClosed(items, d, f, endings);
    RefusedAt(items, endings, 1);
  }

  /** Such a manifest is valid, and cannot be extracted. */
  method DecodeDescending(d: Text, f: Text, fileMode: u32, directoryMode: u32, links: Links)
    returns (r: Result<seq<FsPath>, DecodeError>, destination: Destination)
    requires IsShortName(d) && IsShortName(f) && 0 < fileMode < MODE_BITS && 0 < directoryMode < MODE_BITS
    requires !Searchable(DirNode(directoryMode))
    ensures r == Err(FileSystemError(Denied))
  {
    var items := [Item([d, f], FileNode([], fileMode)), Item([d], DirNode(directoryMode))];
    DescendingFacts(items, d, f);
    DescendingIsValid(items, d, f);
    UnpackInverts(items);
    EndingsAreBare(items);
    DescendingCanBeCreated(items, d, f, Endings(EntriesOf(items)));
    DescendingIsRefused(items, d, f, Endings(EntriesOf(items)));
    r, destination := DecodeManifest(Manifest([d], EntriesOf(items)), links);
  }

  // ---------------------------------------------------------------------------
  // A file whose path ends in a slash, and a root that does
  // ---------------------------------------------------------------------------

  function EmptyFile(path: Text): Entry { Entry(path, AFile, 0, 0, None) }

  lemma ReadSlash(f: Text)
    requires IsName(f)
    ensures Safe(f) && ToFsPath(f) == FsPath([f], Bare)
    ensures Safe(f + [SLASH]) && ToFsPath(f + [SLASH]) == FsPath([f], Slashed)
  {
    var nothing: Text := [];
    assert Join([f]) == f;
    JoinIsSafe([f]);
    assert f + [SLASH] == f + [SLASH] + nothing;
    SplitFirst(SLASH, f, nothing);
    assert [f, nothing][..1] == [f] && [f, nothing][1..] == [nothing] && [nothing][1..] == [];
    assert Significant([nothing]) == [];
  }

  /** One empty file, however its path and the root are written. */
  lemma SingleFile(f: Text, root: Text, path: Text)
    requires Safe(root) && Safe(path) && ToFsPath(root).names == ToFsPath(path).names == [f]
    requires |root| < 128 && |path| < 128
    ensures var m := Manifest([root], [EmptyFile(path)]);
            && Valid(m) && BodyBytes(m.entries) == 0 && |PutManifest(m)| <= 400
            && Unpack(m.entries, []) == [Item([f], FileNode([], 0))] && Endings(m.entries) == [ToFsPath(path).ending]
  {
    var m := Manifest([root], [EmptyFile(path)]);
    ShortManifest(root, m.entries);
    assert PathOf(m.entries[0]) == [f];
    assert m.entries[1..] == [];
  }

  /** A file whose path ends in a slash is valid, and cannot be created. */
  method DecodeSlashedFile(f: Text, links: Links) returns (r: Result<seq<FsPath>, DecodeError>, d: Destination)
    requires IsShortName(f)
    ensures r == Err(FileSystemError(IsADirectory))
  {
    ReadSlash(f);
    SingleFile(f, f + [SLASH], f + [SLASH]);
    r, d := DecodeManifest(Manifest([f + [SLASH]], [EmptyFile(f + [SLASH])]), links);
  }

  lemma {:induction false} SlashedRootIsMissing(f: Text, items: seq<Item>, endings: seq<Ending>, links: Links,
      files: Files)
    requires IsShortName(f) && items == [Item([f], FileNode([], 0))] && endings == [Bare]
    ensures FirstRefusal(items, endings, 0).None? && LastRefusal(items, endings, 1).None?
    ensures Extracted(items, files) ==> [f] in files && !Present(files, links, FsPath([f], Slashed))
  {
    assert Creatable(items, endings, 0) && Finishable(items, endings, 0);
    if Extracted(items, files) {
      assert Made(items, 1, 0, 0);
      PresentExactlyWhen(items, links, files, 0, Slashed);
    }
  }

  /** A root that ends in a slash is valid over a file, which is then there, but not as a directory. */
  method DecodeSlashedRoot(f: Text, links: Links) returns (r: Result<seq<FsPath>, DecodeError>, d: Destination)
    requires IsShortName(f)
    ensures r == Err(NotMaterialized) && [f] in d.files
  {
    ReadSlash(f);
    SingleFile(f, f + [SLASH], f);
    var m := Manifest([f + [SLASH]], [EmptyFile(f)]);
    r, d := DecodeManifest(m, links);
    SlashedRootIsMissing(f, Unpack(m.entries, []), Endings(m.entries), links, d.files);
    assert RootPaths(m.roots)[0] == FsPath([f], Slashed);
  }
}

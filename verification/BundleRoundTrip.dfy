/** Decoding what was encoded gives the selected trees back. */
module BundleRoundTrip {
  import opened Wrappers
  import opened Bytes
  import opened Texts
  import opened Paths
  import opened Sorting
  import opened FileTree
  import opened Bundle
  import opened BundleEncoder
  import opened FileSystem
  import opened Extraction
  import opened BundleDecoder

  // ---------------------------------------------------------------------------
  // Entries and bodies read back as the items they came from
  // ---------------------------------------------------------------------------

  ghost predicate ProperPaths(items: seq<Item>) {
    forall i :: 0 <= i < |items| ==> IsPath(items[i].path)
  }

  /** A proper item is what its entry and its own bytes say it is. */
  lemma ItemReadsBack(item: Item)
    requires ProperNode(item.node) && IsPath(item.path)
    ensures EntryPath(EntryOf(item)) == item.path && EndingOf(Split(SLASH, EntryOf(item).path)) == Bare
    ensures NodeAt(EntryOf(item), if item.node.FileNode? then item.node.data else []) == item.node
  {
    JoinIsSafe(item.path);
  }

  lemma FirstBody(items: seq<Item>)
    requires items != [] && Proper(items)
    ensures var own := if items[0].node.FileNode? then items[0].node.data else [];
            && BodySize(EntryOf(items[0])) == |own|
            && Concat(BodiesOf(items)) == own + Concat(BodiesOf(items[1..]))
  {
    if items[0].node.FileNode? {
      assert BodiesOf(items)[1..] == BodiesOf(items[1..]);
    } else {
      assert BodiesOf(items) == BodiesOf(items[1..]);
      assert [] + Concat(BodiesOf(items)) == Concat(BodiesOf(items));
    }
  }

  lemma {:induction false} BodiesMatchEntries(items: seq<Item>)
    requires Proper(items)
    ensures BodyBytes(EntriesOf(items)) == |Concat(BodiesOf(items))|
  {
    if items != [] {
      BodiesMatchEntries(items[1..]);
      FirstBody(items);
      assert EntriesOf(items)[1..] == EntriesOf(items[1..]);
    }
  }

  lemma {:induction false} UnpackInverts(items: seq<Item>)
    requires Proper(items) && ProperPaths(items)
    ensures BodyBytes(EntriesOf(items)) <= |Concat(BodiesOf(items))|
    ensures Unpack(EntriesOf(items), Concat(BodiesOf(items))) == items
  {
    BodiesMatchEntries(items);
    if items != [] {
      var entries, rest := EntriesOf(items), Concat(BodiesOf(items[1..]));
      var own := if items[0].node.FileNode? then items[0].node.data else [];
      UnpackInverts(items[1..]);
      ItemReadsBack(items[0]);
      FirstBody(items);
      assert (own + rest)[..|own|] == own && (own + rest)[|own|..] == rest;
      assert entries[1..] == EntriesOf(items[1..]);
      NextItem(entries, own + rest);
    }
  }

  lemma EndingsAreBare(items: seq<Item>)
    requires Proper(items) && ProperPaths(items)
    ensures forall i :: 0 <= i < |items| ==> Endings(EntriesOf(items))[i] == Bare
  {
    forall i | 0 <= i < |items| ensures Endings(EntriesOf(items))[i] == Bare {
      ItemReadsBack(items[i]);
    }
  }

  // ---------------------------------------------------------------------------
  // The encoder's output is always acceptable
  // ---------------------------------------------------------------------------

  ghost predicate Sendable(sources: seq<Source>) {
    WellFormedSelection(sources) && SupportedAll(Selection(sources))
  }

  lemma ItemsFacts(sources: seq<Source>)
    requires Sendable(sources)
    ensures WellFormedAll(Selection(sources)) && DistinctBy(NameOf, Selection(sources))
    ensures var items := Items(sources);
            && ProperPaths(items) && DistinctPaths(items) && AncestorsFirst(items) && Extractable(items)
            && forall i :: 0 <= i < |items| ==> !HasNul(items[i].path)
  {
    var kids, items := Selection(sources), Items(sources);
    SelectionIsWellFormed(sources);
    FlattenAllOrdered(kids, []);
    forall i | 0 <= i < |items|
      ensures IsPath(items[i].path) && LookupIn(kids, items[i].path) == Some(items[i].node) && !HasNul(items[i].path)
    {
      FlattenAllSound(kids, [], items[i]);
      FlattenAllProper(kids, [], items[i]);
      FlattenAllNulFree(kids, [], items[i]);
      assert items[i].path[0..] == items[i].path;
    }
    forall i, j | 0 <= i < |items| && 0 <= j < |items| && items[i].path < items[j].path
      ensures items[i].node.DirNode?
    {
      LookupInPrefix(kids, items[j].path, items[i].path);
    }
  }

  lemma RootIsSafe(sources: seq<Source>, i: nat)
    requires WellFormedSelection(sources) && i < |sources|
    ensures SafeRelative(Roots(sources)[i]) == Some([Roots(sources)[i]])
    ensures ToFsPath(Roots(sources)[i]) == FsPath([Roots(sources)[i]], Bare) && !HasNul([Roots(sources)[i]])
  {
    RootNameIsFree(BasesOf(sources), {}, i);
    assert Join([Roots(sources)[i]]) == Roots(sources)[i];
    JoinIsSafe([Roots(sources)[i]]);
  }

  lemma RootIsFound(sources: seq<Source>, i: nat)
    requires Sendable(sources) && i < |sources|
    ensures LookupIn(Selection(sources), [Roots(sources)[i]]).Some?
  {
    var kids, p := Selection(sources), [Roots(sources)[i]];
    SelectionIsWellFormed(sources);
    assert kids[i] in kids;
    LookupFindsMember(kids, kids[i], p);
    assert p[1..] == [];
  }

  lemma FoundIsListed(sources: seq<Source>, p: Path) returns (j: nat)
    requires Sendable(sources) && LookupIn(Selection(sources), p).Some?
    ensures j < |Items(sources)| && Items(sources)[j] == Item(p, LookupIn(Selection(sources), p).value)
  {
    var kids := Selection(sources);
    SelectionIsWellFormed(sources);
    FlattenAllComplete(kids, [], p);
    assert [] + p == p;
    j :| j < |Items(sources)| && Items(sources)[j] == Item(p, LookupIn(kids, p).value);
  }

  lemma EntryIsSound(items: seq<Item>, i: nat)
    requires Proper(items) && ProperPaths(items) && i < |items|
    ensures var e := EntriesOf(items)[i];
            && Safe(e.path) && PathOf(e) == items[i].path && GoodTarget(e)
            && (e.kind.ADirectory? <==> items[i].node.DirNode?)
  {
    JoinIsSafe(items[i].path);
  }

  lemma EncodedRootsAreListed(sources: seq<Source>, r: nat)
    requires Sendable(sources) && r < |sources| && ProperPaths(Items(sources)) && AllSafe(ManifestOf(sources).entries)
    ensures Safe(Roots(sources)[r]) && Listed(ManifestOf(sources).entries, SafeRelative(Roots(sources)[r]).value)
  {
    RootIsSafe(sources, r);
    RootIsFound(sources, r);
    var j := FoundIsListed(sources, [Roots(sources)[r]]);
    EntryIsSound(Items(sources), j);
  }

  lemma EncodedEntriesAreValid(items: seq<Item>)
    requires Proper(items) && ProperPaths(items) && Extractable(items)
    ensures Valid(Manifest([], EntriesOf(items)))
  {
    var entries := EntriesOf(items);
    forall i | 0 <= i < |items|
      ensures Safe(entries[i].path) && PathOf(entries[i]) == items[i].path && GoodTarget(entries[i])
      ensures entries[i].kind.ADirectory? <==> items[i].node.DirNode?
    {
      EntryIsSound(items, i);
    }
  }

  lemma EncodedManifestIsValid(sources: seq<Source>)
    requires Sendable(sources)
    ensures Valid(ManifestOf(sources))
  {
    ItemsFacts(sources);
    EncodedEntriesAreValid(Items(sources));
    forall r | 0 <= r < |sources|
      ensures Safe(Roots(sources)[r]) && Listed(ManifestOf(sources).entries, SafeRelative(Roots(sources)[r]).value)
    {
      EncodedRootsAreListed(sources, r);
    }
  }

  lemma AssembledParts(header: seq<byte>, bodies: seq<seq<byte>>)
    requires |header| <= U32_MAX
    ensures var b := Assemble(header, bodies);
            && |b| == 9 + |header| + |Concat(bodies)|
            && b[..5] == MAGIC && FromBigEndian(b[5..9]) == |header|
            && b[9..9 + |header|] == header && b[9 + |header|..] == Concat(bodies)
  {
    var b := Assemble(header, bodies);
    assert b[5..9] == BigEndian(|header|, 4);
    Widths();
    BigEndianRoundTrip(|header|, 4);
  }

  lemma HeaderOfAssembled(m: Manifest, header: seq<byte>, bodies: seq<seq<byte>>)
    requires header == PutManifest(m) && |header| <= U32_MAX
    ensures ParseHeader(Assemble(header, bodies)) ==
            if |header| <= MAX_MANIFEST then Ok((m, |header|)) else Err(BadManifestLength)
  {
    AssembledParts(header, bodies);
    ManifestRoundTrip(m);
  }

  lemma BodyOfAssembled(m: Manifest, header: seq<byte>, bodies: seq<seq<byte>>)
    requires |header| <= U32_MAX && Valid(m)
    requires BodyBytes(m.entries) == |Concat(bodies)| && 9 + |header| + |Concat(bodies)| <= U64_MAX
    ensures 9 + |header| <= |Assemble(header, bodies)|
    ensures Accepted(m, |header|, Assemble(header, bodies)) == Ok((m, Concat(bodies)))
  {
    AssembledParts(header, bodies);
  }

  lemma ParsesAssembled(m: Manifest, header: seq<byte>, bodies: seq<seq<byte>>)
    requires header == PutManifest(m) && |header| <= U32_MAX && Valid(m)
    requires BodyBytes(m.entries) == |Concat(bodies)| && 9 + |header| + |Concat(bodies)| <= U64_MAX
    ensures ParseBundle(Assemble(header, bodies)) ==
            if |header| <= MAX_MANIFEST then Ok((m, Concat(bodies))) else Err(BadManifestLength)
  {
    HeaderOfAssembled(m, header, bodies);
    BodyOfAssembled(m, header, bodies);
  }

  /** A bundle the encoder wrote is accepted exactly when its manifest is within the decoder's limit. */
  lemma EncodedBundleParses(sources: seq<Source>, maxBytes: nat)
    requires WellFormedSelection(sources) && Encodable(sources, maxBytes) && maxBytes <= U64_MAX
    ensures var bytes := Assemble(Header(sources), BodiesOf(Items(sources)));
            ParseBundle(bytes) ==
            if |Header(sources)| <= MAX_MANIFEST then Ok((ManifestOf(sources), Concat(BodiesOf(Items(sources)))))
            else Err(BadManifestLength)
  {
    EncodedManifestIsValid(sources);
    SelectionIsWellFormed(sources);
    BodiesMatchEntries(Items(sources));
    BodiesSizeAll(Selection(sources), []);
    ParsesAssembled(ManifestOf(sources), Header(sources), BodiesOf(Items(sources)));
  }

  // ---------------------------------------------------------------------------
  // The extracted tree is the selected one
  // ---------------------------------------------------------------------------

  /** Every item the encoder lists can be created and given its final form. */
  lemma EncodedCanBeExtracted(sources: seq<Source>)
    requires Sendable(sources)
    ensures CanBeExtracted(Items(sources), Endings(EntriesOf(Items(sources))))
  {
    var items := Items(sources);
    ItemsFacts(sources);
    EndingsAreBare(items);
    forall x | 0 <= x < |items|
      ensures Creatable(items, Endings(EntriesOf(items)), x) && Finishable(items, Endings(EntriesOf(items)), x)
    {
      AncestorsFirstIsFinishable(items, Endings(EntriesOf(items)), x);
    }
  }

  /** Exactly the selected paths, each holding what was selected, with its mode restored. */
  ghost predicate SameTrees(sources: seq<Source>, files: Files)
    requires Sendable(sources)
  {
    forall p :: (p in files <==> LookupIn(Selection(sources), p).Some?) &&
                (p in files ==> files[p] == Final(LookupIn(Selection(sources), p).value))
  }

  /** Whatever is at or above an item is found by looking it up. */
  lemma HeldIsFound(sources: seq<Source>, j: nat, p: Path)
    requires Sendable(sources) && j < |Items(sources)| && p != [] && p <= Items(sources)[j].path
    ensures LookupIn(Selection(sources), p).Some?
  {
    var kids, item := Selection(sources), Items(sources)[j];
    SelectionIsWellFormed(sources);
    FlattenAllSound(kids, [], item);
    assert item.path[0..] == item.path;
    if p != item.path { LookupInPrefix(kids, item.path, p); }
  }

  lemma PathRestored(sources: seq<Source>, files: Files, p: Path)
    requires Sendable(sources) && Extracted(Items(sources), files)
    ensures p in files <==> LookupIn(Selection(sources), p).Some?
    ensures p in files ==> files[p] == Final(LookupIn(Selection(sources), p).value)
  {
    var items := Items(sources);
    var n := |items|;
    assert p in files <==> Holds(items, n, 0, p);
    if p in files {
      var j: nat :| Made(items, n, 0, j) && p <= items[j].path;
      HeldIsFound(sources, j, p);
    }
    if LookupIn(Selection(sources), p).Some? {
      var j := FoundIsListed(sources, p);
      assert Made(items, n, 0, j);
    }
  }

  lemma TreesRestored(sources: seq<Source>, links: Links, files: Files)
    requires Sendable(sources) && Extracted(Items(sources), files)
    ensures SameTrees(sources, files)
    ensures forall i :: 0 <= i < |sources| ==> Present(files, links, FsPath([Roots(sources)[i]], Bare))
  {
    forall p ensures (p in files <==> LookupIn(Selection(sources), p).Some?) &&
                     (p in files ==> files[p] == Final(LookupIn(Selection(sources), p).value)) {
      PathRestored(sources, files, p);
    }
    forall i | 0 <= i < |sources| ensures Present(files, links, FsPath([Roots(sources)[i]], Bare)) {
      RootIsFound(sources, i);
      RootIsSafe(sources, i);
    }
  }

  /** What lies below a root is what lay below its source. */
  lemma RootHoldsItsSource(sources: seq<Source>, files: Files, i: nat, q: Path)
    requires Sendable(sources) && SameTrees(sources, files) && i < |sources|
    ensures Supported(sources[i].tree)
    ensures [Roots(sources)[i]] + q in files <==> Lookup(sources[i].tree, q).Some?
    ensures Lookup(sources[i].tree, q).Some? ==>
              files[[Roots(sources)[i]] + q] == Final(Lookup(sources[i].tree, q).value)
  {
    var kids, p := Selection(sources), [Roots(sources)[i]] + q;
    SelectionIsWellFormed(sources);
    assert kids[i] in kids && p[1..] == q;
    LookupFindsMember(kids, kids[i], p);
    assert p in files <==> LookupIn(kids, p).Some?;
  }

  // ---------------------------------------------------------------------------
  // A copy of a tree, read off the pasted files alone
  // ---------------------------------------------------------------------------

  /**
   * `p` holds a copy of the tree: bytes and link targets as they were; the nine permission bits, or 0o644 and 0o755
   * where none is set; and below a directory nothing but copies of its children, under their names.
   */
  ghost predicate IsCopy(files: Files, p: Path, tree: Tree)
    decreases tree
  {
    && p in files
    && match tree
       case File(data, mode) =>
         files[p] == FileNode(data, if mode % 512 == 0 then 420 else mode % 512) && NothingBelow(files, p)
       case Directory(mode, children) =>
         && files[p] == DirNode(if mode % 512 == 0 then 493 else mode % 512)
         && (forall i :: 0 <= i < |children| ==> IsCopy(files, p + [children[i].name], children[i].tree))
         && (forall q :: q in files && p < q ==> exists i :: 0 <= i < |children| && children[i].name == q[|p|])
       case Symlink(target) => files[p] == LinkNode(target) && NothingBelow(files, p)
       case Special => false
  }

  ghost predicate NothingBelow(files: Files, p: Path) { forall q :: q in files ==> !(p < q) }

  /** What is looked up in a tree is what lies below `p`. */
  ghost predicate Mirrors(files: Files, p: Path, tree: Tree)
    requires Supported(tree)
  {
    forall q :: (p + q in files <==> Lookup(tree, q).Some?) &&
                (p + q in files ==> files[p + q] == Final(Lookup(tree, q).value))
  }

  lemma MirrorHead(files: Files, p: Path, tree: Tree)
    requires Supported(tree) && Mirrors(files, p, tree)
    ensures p in files && files[p] == Final(NodeOf(tree))
    ensures !tree.Directory? ==> NothingBelow(files, p)
  {
    assert p + [] == p;
    if !tree.Directory? {
      forall q ensures q in files ==> !(p < q) { LeafEnds(files, p, tree, q); }
    }
  }

  lemma LeafEnds(files: Files, p: Path, tree: Tree, q: Path)
    requires Supported(tree) && !tree.Directory? && Mirrors(files, p, tree)
    ensures q in files ==> !(p < q)
  {
    if p < q {
      var rest := q[|p|..];
      assert q == p + rest;
      assert p + rest in files <==> Lookup(tree, rest).Some?;
    }
  }

  lemma MirrorChild(files: Files, p: Path, tree: Tree, i: nat)
    requires tree.Directory? && WellFormed(tree) && Supported(tree) && Mirrors(files, p, tree) && i < |tree.children|
    ensures var c := tree.children[i];
            WellFormed(c.tree) && Supported(c.tree) && Mirrors(files, p + [c.name], c.tree)
  {
    var kids := tree.children;
    var c := kids[i];
    SupportedMember(kids, c);
    WellFormedMember(kids, c);
    forall q
      ensures p + [c.name] + q in files <==> Lookup(c.tree, q).Some?
      ensures p + [c.name] + q in files ==> files[p + [c.name] + q] == Final(Lookup(c.tree, q).value)
    {
      Associate(p, [c.name], q);
      assert ([c.name] + q)[1..] == q;
      LookupFindsMember(kids, c, [c.name] + q);
      assert p + ([c.name] + q) in files <==> Lookup(tree, [c.name] + q).Some?;
    }
  }

  lemma {:induction false} WellFormedMember(kids: seq<Child>, c: Child)
    requires WellFormedAll(kids) && c in kids
    ensures WellFormed(c.tree)
  {
    if c != kids[0] { WellFormedMember(kids[1..], c); }
  }

  /** Below a directory everything goes through a child. */
  lemma MirrorHasNothingElse(files: Files, p: Path, tree: Tree, q: Path)
    requires tree.Directory? && Supported(tree) && Mirrors(files, p, tree) && q in files && p < q
    ensures exists i :: 0 <= i < |tree.children| && tree.children[i].name == q[|p|]
  {
    var rest := q[|p|..];
    assert q == p + rest && rest != [];
    assert LookupIn(tree.children, rest).Some?;
    if forall c :: c in tree.children ==> c.name != rest[0] { LookupMissesOthers(tree.children, rest); }
    var c :| c in tree.children && c.name == rest[0];
  }

  lemma {:induction false} MirrorIsCopy(files: Files, p: Path, tree: Tree)
    requires WellFormed(tree) && Supported(tree) && Mirrors(files, p, tree)
    ensures IsCopy(files, p, tree)
    decreases tree
  {
    MirrorHead(files, p, tree);
    if tree.Directory? {
      forall i | 0 <= i < |tree.children|
        ensures IsCopy(files, p + [tree.children[i].name], tree.children[i].tree)
      {
        MirrorChild(files, p, tree, i);
        MirrorIsCopy(files, p + [tree.children[i].name], tree.children[i].tree);
      }
      forall q | q in files && p < q
        ensures exists i :: 0 <= i < |tree.children| && tree.children[i].name == q[|p|]
      {
        MirrorHasNothingElse(files, p, tree, q);
      }
    }
  }

  /** Each root is a copy of its source, and there is nothing else. */
  lemma SourcesAreCopied(sources: seq<Source>, files: Files)
    requires Sendable(sources) && SameTrees(sources, files)
    ensures forall i :: 0 <= i < |sources| ==> IsCopy(files, [Roots(sources)[i]], sources[i].tree)
    ensures forall p :: p in files ==> p != [] && p[0] in Roots(sources)
  {
    forall i | 0 <= i < |sources| ensures IsCopy(files, [Roots(sources)[i]], sources[i].tree) {
      RootHoldsItsSource(sources, files, i, []);
      forall q
        ensures [Roots(sources)[i]] + q in files <==> Lookup(sources[i].tree, q).Some?
        ensures [Roots(sources)[i]] + q in files ==>
                  files[[Roots(sources)[i]] + q] == Final(Lookup(sources[i].tree, q).value)
      {
        RootHoldsItsSource(sources, files, i, q);
      }
      MirrorIsCopy(files, [Roots(sources)[i]], sources[i].tree);
    }
    forall p | p in files ensures p != [] && p[0] in Roots(sources) {
      assert LookupIn(Selection(sources), p).Some?;
      FoundUnderARoot(sources, p);
    }
  }

  lemma FoundUnderARoot(sources: seq<Source>, p: Path)
    requires Sendable(sources) && LookupIn(Selection(sources), p).Some?
    ensures p != [] && p[0] in Roots(sources)
  {
    var kids := Selection(sources);
    if forall c :: c in kids ==> c.name != p[0] { LookupMissesOthers(kids, p); }
    var c :| c in kids && c.name == p[0];
    var i :| 0 <= i < |kids| && kids[i] == c;
    assert Roots(sources)[i] == p[0];
  }

  /** A root is called like its source exactly when no root before it is. */
  lemma RootKeepsNameExactlyWhen(sources: seq<Source>, i: nat)
    requires WellFormedSelection(sources) && i < |sources|
    ensures sources[i].name.Some? ==>
              (Roots(sources)[i] == sources[i].name.value <==> sources[i].name.value !in Roots(sources)[..i])
    ensures sources[i].name.None? ==>
              (Roots(sources)[i] == Ascii("clipboard-file") <==> Ascii("clipboard-file") !in Roots(sources)[..i])
  {
    assert WellFormedSource(sources[i]);
    assert Ascii("clipboard-file") == CLIPBOARD_FILE;
    RootKeepsBaseExactlyWhen(BasesOf(sources), {}, i);
  }

  /** Otherwise a space and a number follow, the least from 2 on that no root before it has taken. */
  lemma RenamedRootIsNumbered(sources: seq<Source>, i: nat) returns (k: nat)
    requires WellFormedSelection(sources) && i < |sources|
    requires sources[i].name.Some? && Roots(sources)[i] != sources[i].name.value
    ensures k >= 2 && Roots(sources)[i] == sources[i].name.value + Ascii(" ") + Decimal(k)
    ensures forall j :: 2 <= j < k ==> sources[i].name.value + Ascii(" ") + Decimal(j) in Roots(sources)[..i]
  {
    assert WellFormedSource(sources[i]);
    assert Ascii(" ") == [32];
    k := RootIsNumbered(BasesOf(sources), {}, i);
    forall j | 2 <= j < k ensures sources[i].name.value + Ascii(" ") + Decimal(j) in Roots(sources)[..i] {
      assert BasesOf(sources)[i] + [32] + Decimal(j) in Roots(sources)[..i];
    }
  }

  /** Extracting what was encoded ends well. */
  lemma EncodedIsExtracted(sources: seq<Source>, links: Links, files: Files, r: Result<seq<FsPath>, DecodeError>)
    requires Sendable(sources) && Valid(ManifestOf(sources))
    requires BodyBytes(ManifestOf(sources).entries) <= |Concat(BodiesOf(Items(sources)))|
    requires ExtractionEnds(ManifestOf(sources), Concat(BodiesOf(Items(sources))), links, files, r)
    ensures SameTrees(sources, files) && r == Ok(RootPaths(Roots(sources)))
    ensures forall i :: 0 <= i < |sources| ==> RootPaths(Roots(sources))[i] == FsPath([Roots(sources)[i]], Bare)
  {
    ItemsFacts(sources);
    UnpackInverts(Items(sources));
    EncodedCanBeExtracted(sources);
    NothingIsRefused(Items(sources), Endings(EntriesOf(Items(sources))));
    TreesRestored(sources, links, files);
    forall i | 0 <= i < |sources| ensures RootPaths(Roots(sources))[i] == FsPath([Roots(sources)[i]], Bare) {
      RootIsSafe(sources, i);
    }
  }

  /** What is pasted when everything has gone well: a copy of every source, under its name if that is free. */
  ghost predicate Pasted(sources: seq<Source>, files: Files, roots: seq<FsPath>) {
    && |roots| == |sources|
    && (forall i :: 0 <= i < |sources| ==> roots[i].ending == Bare && IsCopy(files, roots[i].names, sources[i].tree))
    && (forall p :: p in files ==> exists i :: 0 <= i < |sources| && roots[i].names <= p)
    && (forall i :: 0 <= i < |sources| && sources[i].name.Some? ==>
          (roots[i].names == [sources[i].name.value] <==>
             forall j :: 0 <= j < i ==> roots[j].names != [sources[i].name.value]))
  }

  lemma PastedIsCopied(sources: seq<Source>, files: Files, pasted: seq<FsPath>)
    requires Sendable(sources) && SameTrees(sources, files) && |pasted| == |sources|
    requires forall i :: 0 <= i < |sources| ==> pasted[i] == FsPath([Roots(sources)[i]], Bare)
    ensures Pasted(sources, files, pasted)
  {
    SourcesAreCopied(sources, files);
    forall p | p in files ensures exists i :: 0 <= i < |sources| && pasted[i].names <= p {
      var i :| 0 <= i < |sources| && Roots(sources)[i] == p[0];
      assert pasted[i].names <= p;
    }
    forall i | 0 <= i < |sources| && sources[i].name.Some?
      ensures pasted[i].names == [sources[i].name.value] <==>
                forall j :: 0 <= j < i ==> pasted[j].names != [sources[i].name.value]
    {
      RootKeepsNameExactlyWhen(sources, i);
      NamesBefore(Roots(sources), pasted, i, sources[i].name.value);
    }
  }

  lemma NamesBefore(roots: seq<Text>, pasted: seq<FsPath>, i: nat, name: Text)
    requires i < |roots| == |pasted| && forall k :: 0 <= k < |roots| ==> pasted[k] == FsPath([roots[k]], Bare)
    ensures pasted[i].names == [name] <==> roots[i] == name
    ensures name !in roots[..i] <==> forall j :: 0 <= j < i ==> pasted[j].names != [name]
  {
    assert forall k :: 0 <= k < |roots| ==> (pasted[k].names == [name] <==> roots[k] == name) by {
      forall k | 0 <= k < |roots| ensures pasted[k].names == [name] <==> roots[k] == name {
        assert [roots[k]][0] == roots[k] && [name][0] == name;
      }
    }
    assert forall j :: 0 <= j < i ==> roots[..i][j] == roots[j];
  }

  lemma ExtractedIsPasted(sources: seq<Source>, links: Links, files: Files, r: Result<seq<FsPath>, DecodeError>)
    requires Sendable(sources) && Valid(ManifestOf(sources))
    requires BodyBytes(ManifestOf(sources).entries) <= |Concat(BodiesOf(Items(sources)))|
    requires ExtractionEnds(ManifestOf(sources), Concat(BodiesOf(Items(sources))), links, files, r)
    ensures r.Ok? && Pasted(sources, files, r.value)
  {
    EncodedIsExtracted(sources, links, files, r);
    PastedIsCopied(sources, files, RootPaths(Roots(sources)));
  }

  /** Copying here and pasting there: `encode`, then `decode` into a directory that does not exist yet. */
  method CopyAndPaste(sources: seq<Source>, maxBytes: nat, links: Links)
    returns (encoded: bool, r: Result<seq<FsPath>, DecodeError>, d: Destination)
    requires WellFormedSelection(sources) && maxBytes <= U64_MAX
    ensures encoded <==> Encodable(sources, maxBytes)
    ensures encoded && |Header(sources)| > 16 * 1024 * 1024 ==> r == Err(BadManifestLength) && d.files == map[]
    ensures encoded && |Header(sources)| <= 16 * 1024 * 1024 ==> r.Ok? && Pasted(sources, d.files, r.value)
  {
    var bundle := Encode(sources, maxBytes);
    encoded := bundle.Ok?;
    if encoded {
      EncodedBundleParses(sources, maxBytes);
      ghost var m, body := ManifestOf(sources), Concat(BodiesOf(Items(sources)));
      r, d := DecodeAfresh(bundle.value,
                           if |Header(sources)| <= MAX_MANIFEST then Ok((m, body)) else Err(BadManifestLength), links);
      if |Header(sources)| <= MAX_MANIFEST {
        ExtractedIsPasted(sources, links, d.files, r);
      }
    } else {
      r := Err(Truncated);
      d := new Destination();
    }
  }

  /** The order in which a directory lists its children does not show in a bundle. */
  lemma ListingOrderDoesNotShow(mode: nat, a: seq<Child>, b: seq<Child>, relative: Path)
    requires DistinctBy(NameOf, a) && multiset(a) == multiset(b)
    ensures Flatten(Directory(mode, a), relative) == Flatten(Directory(mode, b), relative)
  {
    SortIsCanonical(NameOf, a, b);
  }
}

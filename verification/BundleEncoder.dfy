/** The encoder: a selection of file trees becomes a manifest followed by the bytes of every file. */
module BundleEncoder {
  import opened Wrappers
  import opened Bytes
  import opened Texts
  import opened Paths
  import opened Sorting
  import opened FileTree
  import opened Bundle

  /** A selected path: its last component, if it has one, and what is there. */
  datatype Source = Source(name: Option<Text>, tree: Tree)

  ghost predicate WellFormedSource(s: Source) {
    (s.name.Some? ==> IsName(s.name.value) && 0 !in s.name.value) && WellFormed(s.tree)
  }

  function BaseOf(s: Source): Text {
    if s.name.Some? && s.name.value != [] then s.name.value else CLIPBOARD_FILE
  }

  function BasesOf(sources: seq<Source>): (r: seq<Text>)
    ensures |r| == |sources| && forall i :: 0 <= i < |r| ==> r[i] == BaseOf(sources[i])
  {
    if sources == [] then [] else [BaseOf(sources[0])] + BasesOf(sources[1..])
  }

  /** The selection as the children of one directory, under the names chosen for its roots. */
  function Selected(sources: seq<Source>, roots: seq<Text>): (kids: seq<Child>)
    requires |sources| == |roots|
    ensures |kids| == |sources|
    ensures forall i :: 0 <= i < |kids| ==> kids[i] == Child(roots[i], sources[i].tree)
  {
    if sources == [] then [] else [Child(roots[0], sources[0].tree)] + Selected(sources[1..], roots[1..])
  }

  function Roots(sources: seq<Source>): (r: seq<Text>)
    ensures |r| == |sources|
  {
    RootNames(BasesOf(sources), {})
  }

  function Selection(sources: seq<Source>): (kids: seq<Child>)
    ensures |kids| == |sources|
    ensures forall i :: 0 <= i < |kids| ==> kids[i] == Child(Roots(sources)[i], sources[i].tree)
  {
    Selected(sources, Roots(sources))
  }

  // ---------------------------------------------------------------------------
  // Items as entries and bodies
  // ---------------------------------------------------------------------------

  function EntryOf(item: Item): Entry
    requires ProperNode(item.node)
  {
    match item.node
    case FileNode(data, mode) => Entry(Join(item.path), AFile, |data|, mode, None)
    case DirNode(mode) => Entry(Join(item.path), ADirectory, 0, mode, None)
    case LinkNode(target) => Entry(Join(item.path), ASymlink, 0, 0, Some(target))
  }

  ghost predicate Proper(items: seq<Item>) {
    forall i :: 0 <= i < |items| ==> ProperNode(items[i].node)
  }

  function EntriesOf(items: seq<Item>): (r: seq<Entry>)
    requires Proper(items)
    ensures |r| == |items|
    ensures forall i :: 0 <= i < |r| ==> r[i] == EntryOf(items[i])
  {
    if items == [] then [] else [EntryOf(items[0])] + EntriesOf(items[1..])
  }

  function BodiesOf(items: seq<Item>): seq<seq<byte>> {
    if items == [] then []
    else (if items[0].node.FileNode? then [items[0].node.data] else []) + BodiesOf(items[1..])
  }

  lemma EntriesAppend(a: seq<Item>, b: seq<Item>)
    requires Proper(a) && Proper(b)
    ensures Proper(a + b) && EntriesOf(a + b) == EntriesOf(a) + EntriesOf(b)
  {
  }

  lemma {:induction false} BodiesAppend(a: seq<Item>, b: seq<Item>)
    ensures BodiesOf(a + b) == BodiesOf(a) + BodiesOf(b)
  {
    if a == [] {
      assert a + b == b && BodiesOf(a) + BodiesOf(b) == BodiesOf(b);
    } else {
      BodiesAppend(a[1..], b);
      assert (a + b)[1..] == a[1..] + b;
      Associate(if a[0].node.FileNode? then [a[0].node.data] else [], BodiesOf(a[1..]), BodiesOf(b));
    }
  }

  lemma FlattenIsProper(tree: Tree, relative: Path)
    requires WellFormed(tree) && (forall i :: 0 <= i < |relative| ==> IsName(relative[i]))
    ensures Proper(Flatten(tree, relative))
  {
    forall i | 0 <= i < |Flatten(tree, relative)| ensures ProperNode(Flatten(tree, relative)[i].node) {
      FlattenProper(tree, relative, Flatten(tree, relative)[i]);
    }
  }

  lemma FlattenAllIsProper(kids: seq<Child>, relative: Path)
    requires WellFormedAll(kids) && (forall i :: 0 <= i < |relative| ==> IsName(relative[i]))
    ensures Proper(FlattenAll(kids, relative))
  {
    forall i | 0 <= i < |FlattenAll(kids, relative)| ensures ProperNode(FlattenAll(kids, relative)[i].node) {
      FlattenAllProper(kids, relative, FlattenAll(kids, relative)[i]);
    }
  }

  /** The entry and the bodies of a tree's own item. */
  lemma OwnItem(tree: Tree, relative: Path)
    requires !tree.Special? && ProperNode(NodeOf(tree))
    ensures var own := [Item(relative, NodeOf(tree))];
            && Proper(own) && EntriesOf(own) == [EntryOf(own[0])]
            && BodiesOf(own) == if tree.File? then [tree.data] else []
  {
    var own := [Item(relative, NodeOf(tree))];
    assert own[1..] == [];
  }

  lemma LeafItems(tree: Tree, relative: Path)
    requires !tree.Special? && !tree.Directory? && ProperNode(NodeOf(tree))
    ensures var own := [Item(relative, NodeOf(tree))];
            && Flatten(tree, relative) == own && Proper(own) && EntriesOf(own) == [EntryOf(own[0])]
            && BodiesOf(own) == if tree.File? then [tree.data] else []
  {
    OwnItem(tree, relative);
  }

  /** A directory's items: its own, then those of its children. */
  lemma DirectoryItems(tree: Tree, relative: Path)
    requires tree.Directory? && WellFormed(tree) && IsPath(relative)
    ensures var kids := Listing(tree.children);
            && Proper(FlattenAll(kids, relative)) && Proper(Flatten(tree, relative))
            && EntriesOf(Flatten(tree, relative)) ==
               [Entry(Join(relative), ADirectory, 0, tree.mode % MODE_BITS, None)]
               + EntriesOf(FlattenAll(kids, relative))
            && BodiesOf(Flatten(tree, relative)) == BodiesOf(FlattenAll(kids, relative))
  {
    var own, below := [Item(relative, NodeOf(tree))], FlattenAll(Listing(tree.children), relative);
    FlattenAllIsProper(Listing(tree.children), relative);
    OwnItem(tree, relative);
    EntriesAppend(own, below);
    BodiesAppend(own, below);
  }

  /** The bodies are the files' bytes, all of them. */
  lemma {:induction false} BodiesSize(tree: Tree, relative: Path)
    requires WellFormed(tree) && Supported(tree)
    ensures |Concat(BodiesOf(Flatten(tree, relative)))| == Size(tree)
    decreases Depth(tree), 0, 0
  {
    if tree.Directory? {
      var own, kids := [Item(relative, NodeOf(tree))], Listing(tree.children);
      OwnItem(tree, relative);
      BodiesSizeAll(kids, relative);
      BodiesAppend(own, FlattenAll(kids, relative));
      assert BodiesOf(own) + BodiesOf(FlattenAll(kids, relative)) == BodiesOf(FlattenAll(kids, relative));
    } else {
      LeafItems(tree, relative);
      if tree.File? {
        assert Concat([tree.data]) == tree.data + Concat([tree.data][1..]);
      }
    }
  }

  lemma {:induction false} BodiesSizeAll(kids: seq<Child>, relative: Path)
    requires WellFormedAll(kids) && SupportedAll(kids)
    ensures |Concat(BodiesOf(FlattenAll(kids, relative)))| == SizeAll(kids)
    decreases DepthAll(kids), 1, |kids|
  {
    if kids != [] {
      var below := relative + [kids[0].name];
      var a, b := Flatten(kids[0].tree, below), FlattenAll(kids[1..], relative);
      BodiesSize(kids[0].tree, below);
      BodiesSizeAll(kids[1..], relative);
      BodiesAppend(a, b);
      ConcatAppend(BodiesOf(a), BodiesOf(b));
    }
  }

  lemma PathBelow(relative: Path, name: Text)
    requires (forall i :: 0 <= i < |relative| ==> IsName(relative[i])) && IsName(name)
    ensures IsPath(relative + [name])
  {
    var below := relative + [name];
    assert forall i :: 0 <= i < |relative| ==> below[i] == relative[i];
  }

  /** The first child's items, split off the rest. */
  lemma NextChildItems(kids: seq<Child>, relative: Path)
    requires kids != [] && WellFormedAll(kids) && (forall i :: 0 <= i < |relative| ==> IsName(relative[i]))
    ensures var here, later := Flatten(kids[0].tree, relative + [kids[0].name]), FlattenAll(kids[1..], relative);
            && Proper(here) && Proper(later) && FlattenAll(kids, relative) == here + later && Proper(here + later)
            && EntriesOf(here + later) == EntriesOf(here) + EntriesOf(later)
            && BodiesOf(here + later) == BodiesOf(here) + BodiesOf(later)
  {
    var here, later := Flatten(kids[0].tree, relative + [kids[0].name]), FlattenAll(kids[1..], relative);
    PathBelow(relative, kids[0].name);
    FlattenIsProper(kids[0].tree, relative + [kids[0].name]);
    FlattenAllIsProper(kids[1..], relative);
    EntriesAppend(here, later);
    BodiesAppend(here, later);
  }

  /** The first child's items and size, split off the rest. */
  lemma NextChild(kids: seq<Child>, relative: Path)
    requires kids != [] && WellFormedAll(kids) && (forall i :: 0 <= i < |relative| ==> IsName(relative[i]))
    ensures var here, later := Flatten(kids[0].tree, relative + [kids[0].name]), FlattenAll(kids[1..], relative);
            && Proper(here) && Proper(later) && Proper(FlattenAll(kids, relative))
            && EntriesOf(FlattenAll(kids, relative)) == EntriesOf(here) + EntriesOf(later)
            && BodiesOf(FlattenAll(kids, relative)) == BodiesOf(here) + BodiesOf(later)
    ensures SizeAll(kids) == Size(kids[0].tree) + SizeAll(kids[1..])
    ensures SupportedAll(kids) == (Supported(kids[0].tree) && SupportedAll(kids[1..]))
    ensures WellFormed(kids[0].tree) && WellFormedAll(kids[1..]) && IsPath(relative + [kids[0].name])
    ensures Depth(kids[0].tree) <= DepthAll(kids) && DepthAll(kids[1..]) <= DepthAll(kids)
  {
    PathBelow(relative, kids[0].name);
    NextChildItems(kids, relative);
  }

  // ---------------------------------------------------------------------------
  // Collecting
  // ---------------------------------------------------------------------------

  /** The growing manifest entries, bodies and running total. */
  class Collector {
    var entries: seq<Entry>
    var bodies: seq<seq<byte>>
    var total: nat

    constructor ()
      ensures entries == [] && bodies == [] && total == 0
    {
      entries, bodies, total := [], [], 0;
    }

    method CollectFile(data: seq<byte>, mode: nat, path: Text, maxBytes: nat) returns (ok: bool)
      requires |data| <= U64_MAX && total <= maxBytes <= U64_MAX
      modifies this
      ensures ok <==> old(total) + |data| <= maxBytes
      ensures ok ==> entries == old(entries) + [Entry(path, AFile, |data|, mode % MODE_BITS, None)]
      ensures ok ==> bodies == old(bodies) + [data] && total == old(total) + |data|
      ensures !ok ==> entries == old(entries) && bodies == old(bodies) && total == old(total)
    {
      var next := total + |data|;
      if next > U64_MAX || next > maxBytes {
        return false;
      }
      total := next;
      entries := entries + [Entry(path, AFile, |data|, mode % MODE_BITS, None)];
      bodies := bodies + [data];
      return true;
    }

    /** Appends the items of `tree`, unless it holds something unsupported or the files exceed the limit. */
    method Collect(tree: Tree, relative: Path, maxBytes: nat) returns (ok: bool)
      requires WellFormed(tree) && IsPath(relative) && total <= maxBytes <= U64_MAX
      modifies this
      ensures ok <==> Supported(tree) && old(total) + Size(tree) <= maxBytes
      ensures ok ==>
                && Proper(Flatten(tree, relative))
                && entries == old(entries) + EntriesOf(Flatten(tree, relative))
                && bodies == old(bodies) + BodiesOf(Flatten(tree, relative))
                && total == old(total) + Size(tree)
      decreases Depth(tree), 0
    {
      match tree
      case Symlink(target) =>
        LeafItems(tree, relative);
        entries := entries + [Entry(Join(relative), ASymlink, 0, 0, Some(target))];
        return true;
      case Directory(_, _) =>
        ok := CollectDirectory(tree, relative, maxBytes);
      case File(data, mode) =>
        LeafItems(tree, relative);
        ok := CollectFile(data, mode, Join(relative), maxBytes);
      case Special =>
        return false;
    }

    /** The directory's own entry, and then its children. */
    method CollectDirectory(tree: Tree, relative: Path, maxBytes: nat) returns (ok: bool)
      requires WellFormed(tree) && tree.Directory? && IsPath(relative) && total <= maxBytes <= U64_MAX
      modifies this
      ensures ok <==> Supported(tree) && old(total) + Size(tree) <= maxBytes
      ensures ok ==>
                && Proper(Flatten(tree, relative))
                && entries == old(entries) + EntriesOf(Flatten(tree, relative))
                && bodies == old(bodies) + BodiesOf(Flatten(tree, relative))
                && total == old(total) + Size(tree)
      decreases DepthAll(Listing(tree.children)), 2
    {
      DirectoryItems(tree, relative);
      var own := [Entry(Join(relative), ADirectory, 0, tree.mode % MODE_BITS, None)];
      Associate(entries, own, EntriesOf(FlattenAll(Listing(tree.children), relative)));
      entries := entries + own;
      ok := CollectChildren(Listing(tree.children), relative, maxBytes);
    }

    /** The loop over the sorted children. */
    method CollectChildren(kids: seq<Child>, relative: Path, maxBytes: nat) returns (ok: bool)
      requires WellFormedAll(kids) && IsPath(relative) && total <= maxBytes <= U64_MAX
      modifies this
      ensures ok <==> SupportedAll(kids) && old(total) + SizeAll(kids) <= maxBytes
      ensures ok ==>
                && Proper(FlattenAll(kids, relative))
                && entries == old(entries) + EntriesOf(FlattenAll(kids, relative))
                && bodies == old(bodies) + BodiesOf(FlattenAll(kids, relative))
                && total == old(total) + SizeAll(kids)
      decreases DepthAll(kids), 1
    {
      FlattenAllIsProper(kids, relative);
      var rest := kids;
      while rest != []
        invariant WellFormedAll(rest) && DepthAll(rest) <= DepthAll(kids)
        invariant SupportedAll(kids) == SupportedAll(rest)
        invariant total <= maxBytes && total + SizeAll(rest) == old(total) + SizeAll(kids)
        invariant Proper(FlattenAll(rest, relative))
        invariant entries + EntriesOf(FlattenAll(rest, relative))
                  == old(entries) + EntriesOf(FlattenAll(kids, relative))
        invariant bodies + BodiesOf(FlattenAll(rest, relative)) == old(bodies) + BodiesOf(FlattenAll(kids, relative))
        decreases |rest|
      {
        NextChild(rest, relative);
        ghost var here, later := Flatten(rest[0].tree, relative + [rest[0].name]), FlattenAll(rest[1..], relative);
        Associate(entries, EntriesOf(here), EntriesOf(later));
        Associate(bodies, BodiesOf(here), BodiesOf(later));
        ok := Collect(rest[0].tree, relative + [rest[0].name], maxBytes);
        if !ok {
          return;
        }
        rest := rest[1..];
      }
      ok := true;
    }
  }

  // ---------------------------------------------------------------------------
  // Encoding
  // ---------------------------------------------------------------------------

  datatype EncodeError = NotCollected | ManifestTooLarge | BundleTooLarge

  ghost predicate WellFormedSelection(sources: seq<Source>) {
    forall i :: 0 <= i < |sources| ==> WellFormedSource(sources[i])
  }

  /** Root names are proper and distinct, so a selection is like the listing of a directory. */
  lemma SelectionIsWellFormed(sources: seq<Source>)
    requires WellFormedSelection(sources)
    ensures WellFormedAll(Selection(sources)) && DistinctBy(NameOf, Selection(sources))
    ensures Proper(FlattenAll(Selection(sources), []))
  {
    var bases, kids := BasesOf(sources), Selection(sources);
    forall i | 0 <= i < |kids| ensures IsName(kids[i].name) && 0 !in kids[i].name {
      RootNameIsFree(bases, {}, i);
    }
    forall i, j | 0 <= i < j < |kids| ensures NameOf(kids[i]) != NameOf(kids[j]) {
      RootNamesDiffer(bases, {}, i, j);
    }
    AllWellFormed(kids);
    FlattenAllIsProper(kids, []);
  }

  lemma {:induction false} AllWellFormed(kids: seq<Child>)
    requires forall i :: 0 <= i < |kids| ==> IsName(kids[i].name) && 0 !in kids[i].name && WellFormed(kids[i].tree)
    ensures WellFormedAll(kids)
  {
    if kids != [] { AllWellFormed(kids[1..]); }
  }

  ghost function Items(sources: seq<Source>): (items: seq<Item>)
    requires WellFormedSelection(sources)
    ensures Proper(items)
  {
    SelectionIsWellFormed(sources);
    FlattenAll(Selection(sources), [])
  }

  ghost function ManifestOf(sources: seq<Source>): Manifest
    requires WellFormedSelection(sources)
  {
    Manifest(Roots(sources), EntriesOf(Items(sources)))
  }

  ghost function Header(sources: seq<Source>): seq<byte>
    requires WellFormedSelection(sources)
  {
    PutManifest(ManifestOf(sources))
  }

  /** The bytes of a bundle around a header. */
  function Assemble(header: seq<byte>, bodies: seq<seq<byte>>): seq<byte> {
    MAGIC + BigEndian(|header|, 4) + header + Concat(bodies)
  }

  /** The output of `encode` once everything is known to fit. */
  method WriteBundle(header: seq<byte>, bodies: seq<seq<byte>>) returns (output: seq<byte>)
    ensures output == Assemble(header, bodies)
    ensures output == Ascii("SCBF1") + BigEndian(|header|, 4) + header + Concat(bodies)
    ensures |output| == 9 + |header| + |Concat(bodies)|
  {
    assert MAGIC == Ascii("SCBF1");
    output := MAGIC + BigEndian(|header|, 4) + header;
    var rest := bodies;
    while rest != []
      invariant output + Concat(rest) == Assemble(header, bodies)
      decreases |rest|
    {
      Associate(output, rest[0], Concat(rest[1..]));
      output := output + rest[0];
      rest := rest[1..];
    }
    assert output + [] == output;
  }

  /** Everything is a file, directory or link, and manifest and files fit the limit together. */
  ghost predicate Encodable(sources: seq<Source>, maxBytes: nat)
    requires WellFormedSelection(sources)
  {
    && SupportedAll(Selection(sources))
    && |Header(sources)| <= U32_MAX
    && 9 + |Header(sources)| + SizeAll(Selection(sources)) <= maxBytes
  }

  lemma NextRoot(kids: seq<Child>)
    requires kids != [] && WellFormedAll(kids)
    ensures var here, later := Flatten(kids[0].tree, [kids[0].name]), FlattenAll(kids[1..], []);
            && Proper(here) && Proper(later) && Proper(FlattenAll(kids, []))
            && EntriesOf(FlattenAll(kids, [])) == EntriesOf(here) + EntriesOf(later)
            && BodiesOf(FlattenAll(kids, [])) == BodiesOf(here) + BodiesOf(later)
    ensures SizeAll(kids) == Size(kids[0].tree) + SizeAll(kids[1..])
    ensures SupportedAll(kids) == (Supported(kids[0].tree) && SupportedAll(kids[1..]))
    ensures WellFormed(kids[0].tree) && WellFormedAll(kids[1..]) && IsPath([kids[0].name])
  {
    assert [] + [kids[0].name] == [kids[0].name];
    NextChild(kids, []);
  }

  /** The loop of `encode` over its sources: each gets a root name and is collected under it. */
  method CollectSelection(sources: seq<Source>, maxBytes: nat)
    returns (ok: bool, roots: seq<Text>, collector: Collector)
    requires WellFormedSelection(sources) && maxBytes <= U64_MAX
    ensures fresh(collector)
    ensures ok <==> SupportedAll(Selection(sources)) && SizeAll(Selection(sources)) <= maxBytes
    ensures ok ==>
              && roots == Roots(sources)
              && collector.entries == EntriesOf(Items(sources))
              && collector.bodies == BodiesOf(Items(sources))
              && collector.total == SizeAll(Selection(sources))
  {
    SelectionIsWellFormed(sources);
    ghost var bases, kids := BasesOf(sources), Selection(sources);
    ghost var entries, bodies := EntriesOf(Items(sources)), BodiesOf(Items(sources));
    ghost var rest := kids;
    collector := new Collector();
    roots := [];
    var used: set<Text> := {};
    for n := 0 to |sources|
      invariant fresh(collector) && collector.total <= maxBytes
      invariant |roots| == n && roots + RootNames(bases[n..], used) == RootNames(bases, {})
      invariant rest == kids[n..] && WellFormedAll(rest) && Proper(FlattenAll(rest, []))
      invariant collector.entries + EntriesOf(FlattenAll(rest, [])) == entries
      invariant collector.bodies + BodiesOf(FlattenAll(rest, [])) == bodies
      invariant collector.total + SizeAll(rest) == SizeAll(kids)
      invariant SupportedAll(kids) == SupportedAll(rest)
    {
      var root, after := ChooseName(BaseOf(sources[n]), used);
      NextRootName(bases, n, used, roots, root, after);
      NextRoot(rest);
      ghost var here, later := Flatten(sources[n].tree, [root]), FlattenAll(rest[1..], []);
      Associate(collector.entries, EntriesOf(here), EntriesOf(later));
      Associate(collector.bodies, BodiesOf(here), BodiesOf(later));
      used, roots, rest := after, roots + [root], rest[1..];
      ok := collector.Collect(sources[n].tree, [root], maxBytes);
      if !ok {
        return;
      }
    }
    ok := true;
  }

  lemma NextRootName(bases: seq<Text>, n: nat, used: set<Text>, roots: seq<Text>, root: Text, after: set<Text>)
    requires n < |bases| && |roots| == n && roots + RootNames(bases[n..], used) == RootNames(bases, {})
    requires root == UniqueName(bases[n], used) && after == used + {root}
    ensures roots + [root] + RootNames(bases[n + 1..], after) == RootNames(bases, {})
    ensures RootNames(bases, {})[n] == root
  {
    assert bases[n..][0] == bases[n] && bases[n..][1..] == bases[n + 1..];
    Associate(roots, [root], RootNames(bases[n + 1..], after));
  }

  /** `encode`: succeeds exactly on encodable selections, with a bundle of exactly the announced size. */
  method Encode(sources: seq<Source>, maxBytes: nat) returns (r: Result<seq<byte>, EncodeError>)
    requires WellFormedSelection(sources) && maxBytes <= U64_MAX
    ensures r.Ok? <==> Encodable(sources, maxBytes)
    ensures !SupportedAll(Selection(sources)) || SizeAll(Selection(sources)) > maxBytes ==> r == Err(NotCollected)
    ensures r.Err? && r != Err(NotCollected) ==>
              r == Err(if |Header(sources)| >= 0x1_0000_0000 then ManifestTooLarge else BundleTooLarge)
    ensures r.Ok? ==>
              && r.value == Assemble(Header(sources), BodiesOf(Items(sources)))
              && r.value == Ascii("SCBF1") + BigEndian(|Header(sources)|, 4) + Header(sources)
                            + Concat(BodiesOf(Items(sources)))
              && |r.value| == 9 + |Header(sources)| + SizeAll(Selection(sources)) <= maxBytes
  {
    var ok, roots, collector := CollectSelection(sources, maxBytes);
    if !ok {
      return Err(NotCollected);
    }
    var header := PutManifest(Manifest(roots, collector.entries));
    assert header == Header(sources);
    if |header| > U32_MAX {
      return Err(ManifestTooLarge);
    }
    if collector.total + |header| + 9 > maxBytes {
      return Err(BundleTooLarge);
    }
    SelectionIsWellFormed(sources);
    BodiesSizeAll(Selection(sources), []);
    var output := WriteBundle(header, collector.bodies);
    return Ok(output);
  }
}

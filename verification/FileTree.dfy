/** What the encoder reads: file trees, flattened in preorder with every directory's children sorted by name. */
module FileTree {
  import opened Wrappers
  import opened Bytes
  import opened Paths
  import opened Sorting

  /** `Special` is anything that is not a file, a directory or a link. */
  datatype Tree =
    | File(data: seq<byte>, mode: nat)
    | Directory(mode: nat, children: seq<Child>)
    | Symlink(target: Text)
    | Special

  datatype Child = Child(name: Text, tree: Tree)

  function NameOf(c: Child): Key { c.name }

  /** What a file system guarantees: proper, distinct names and non-empty link targets, none of them with a NUL. */
  predicate WellFormed(tree: Tree)
    decreases tree, 1
  {
    match tree
    case File(data, _) => |data| <= U64_MAX
    case Directory(_, children) => WellFormedAll(children) && DistinctBy(NameOf, children)
    case Symlink(target) => target != [] && 0 !in target
    case Special => true
  }

  predicate WellFormedAll(kids: seq<Child>)
    decreases kids, 0
  {
    kids == [] || (IsName(kids[0].name) && 0 !in kids[0].name && WellFormed(kids[0].tree) && WellFormedAll(kids[1..]))
  }

  predicate Supported(tree: Tree)
    decreases tree, 1
  {
    match tree
    case Directory(_, children) => SupportedAll(children)
    case _ => !tree.Special?
  }

  predicate SupportedAll(kids: seq<Child>)
    decreases kids, 0
  {
    kids == [] || (Supported(kids[0].tree) && SupportedAll(kids[1..]))
  }

  /** The bytes of all files together. */
  function Size(tree: Tree): nat
    decreases tree, 1
  {
    match tree
    case File(data, _) => |data|
    case Directory(_, children) => SizeAll(children)
    case _ => 0
  }

  function SizeAll(kids: seq<Child>): nat
    decreases kids, 0
  {
    if kids == [] then 0 else Size(kids[0].tree) + SizeAll(kids[1..])
  }

  function Depth(tree: Tree): nat
    decreases tree, 1
  {
    if tree.Directory? then 1 + DepthAll(tree.children) else 0
  }

  function DepthAll(kids: seq<Child>): (d: nat)
    ensures kids != [] ==> Depth(kids[0].tree) <= d && DepthAll(kids[1..]) <= d
    decreases kids, 0
  {
    if kids == [] then 0
    else
      var first, rest := Depth(kids[0].tree), DepthAll(kids[1..]);
      if first > rest then first else rest
  }

  /** Sorting a listing changes none of the folds over it. */
  lemma {:induction false} InsertKeepsFolds(c: Child, kids: seq<Child>)
    ensures var r := Insert(NameOf, c, kids);
            && DepthAll(r) == DepthAll([c] + kids) && SizeAll(r) == SizeAll([c] + kids)
            && SupportedAll(r) == SupportedAll([c] + kids) && WellFormedAll(r) == WellFormedAll([c] + kids)
  {
    assert ([c] + kids)[1..] == kids;
    if kids != [] && !LexLe(NameOf(c), NameOf(kids[0])) {
      InsertKeepsFolds(c, kids[1..]);
      assert ([c] + kids[1..])[1..] == kids[1..];
      var r := Insert(NameOf, c, kids);
      assert r[1..] == Insert(NameOf, c, kids[1..]);
    }
  }

  lemma {:induction false} SortKeepsFolds(kids: seq<Child>)
    ensures var r := Sort(NameOf, kids);
            && DepthAll(r) == DepthAll(kids) && SizeAll(r) == SizeAll(kids)
            && SupportedAll(r) == SupportedAll(kids) && WellFormedAll(r) == WellFormedAll(kids)
  {
    if kids != [] {
      SortKeepsFolds(kids[1..]);
      var rest := Sort(NameOf, kids[1..]);
      InsertKeepsFolds(kids[0], rest);
      assert ([kids[0]] + rest)[1..] == rest;
    }
  }

  /** The children in the order the encoder visits them. */
  function Listing(children: seq<Child>): (r: seq<Child>)
    ensures DepthAll(r) == DepthAll(children) && SizeAll(r) == SizeAll(children)
    ensures SupportedAll(r) == SupportedAll(children) && WellFormedAll(r) == WellFormedAll(children)
  {
    SortKeepsFolds(children);
    Sort(NameOf, children)
  }

  // ---------------------------------------------------------------------------
  // Entries and bodies
  // ---------------------------------------------------------------------------

  /** What one path holds; modes are permission bits, 0 when unknown. */
  datatype Node = FileNode(data: seq<byte>, mode: nat) | DirNode(mode: nat) | LinkNode(target: Text)

  datatype Item = Item(path: Path, node: Node)

  const MODE_BITS: nat := 512

  function NodeOf(tree: Tree): Node
    requires !tree.Special?
  {
    match tree
    case File(data, mode) => FileNode(data, mode % MODE_BITS)
    case Directory(mode, _) => DirNode(mode % MODE_BITS)
    case Symlink(target) => LinkNode(target)
  }

  /** Of a mode the nine permission bits are kept, and nothing else. */
  lemma PermissionsAreKept(tree: Tree)
    ensures tree.File? ==> NodeOf(tree) == FileNode(tree.data, tree.mode % 512)
    ensures tree.Directory? ==> NodeOf(tree) == DirNode(tree.mode % 512)
  {
  }

  /** Preorder: a directory comes before everything below it. */
  function Flatten(tree: Tree, relative: Path): seq<Item>
    decreases Depth(tree), 0, 0
  {
    if tree.Special? then []
    else
      [Item(relative, NodeOf(tree))] +
      (if tree.Directory? then FlattenAll(Listing(tree.children), relative) else [])
  }

  function FlattenAll(kids: seq<Child>, relative: Path): seq<Item>
    decreases DepthAll(kids), 1, |kids|
  {
    if kids == [] then []
    else Flatten(kids[0].tree, relative + [kids[0].name]) + FlattenAll(kids[1..], relative)
  }

  // ---------------------------------------------------------------------------
  // Looking a path up in a tree, whatever the order of its listings
  // ---------------------------------------------------------------------------

  function Lookup(tree: Tree, p: Path): Option<Node>
    requires Supported(tree)
    decreases Depth(tree), 0, 0
  {
    if p == [] then Some(NodeOf(tree))
    else if tree.Directory? then LookupIn(tree.children, p)
    else None
  }

  function LookupIn(kids: seq<Child>, p: Path): Option<Node>
    requires SupportedAll(kids)
    decreases DepthAll(kids), 1, |kids|
  {
    if kids == [] || p == [] then None
    else if kids[0].name == p[0] then Lookup(kids[0].tree, p[1..])
    else LookupIn(kids[1..], p)
  }

  lemma {:induction false} SupportedMember(kids: seq<Child>, c: Child)
    requires SupportedAll(kids) && c in kids
    ensures Supported(c.tree)
  {
    if c != kids[0] { SupportedMember(kids[1..], c); }
  }

  lemma {:induction false} LookupFindsMember(kids: seq<Child>, c: Child, p: Path)
    requires SupportedAll(kids) && DistinctBy(NameOf, kids) && c in kids && p != [] && p[0] == c.name
    ensures Supported(c.tree) && LookupIn(kids, p) == Lookup(c.tree, p[1..])
  {
    SupportedMember(kids, c);
    if c == kids[0] {
    } else {
      LookupFindsMember(kids[1..], c, p);
    }
  }

  lemma {:induction false} LookupMissesOthers(kids: seq<Child>, p: Path)
    requires SupportedAll(kids) && p != [] && forall c :: c in kids ==> c.name != p[0]
    ensures LookupIn(kids, p) == None
  {
    if kids != [] { LookupMissesOthers(kids[1..], p); }
  }

  /** The order of a listing does not matter to what is found in it. */
  lemma LookupIgnoresOrder(a: seq<Child>, b: seq<Child>, p: Path)
    requires SupportedAll(a) && SupportedAll(b) && DistinctBy(NameOf, a) && multiset(a) == multiset(b)
    ensures LookupIn(a, p) == LookupIn(b, p)
  {
    if p == [] { return; }
    SameMembers(a, b);
    DistinctPermutes(NameOf, a, b);
    if c :| c in a && c.name == p[0] {
      LookupFindsMember(a, c, p);
      LookupFindsMember(b, c, p);
    } else {
      LookupMissesOthers(a, p);
      LookupMissesOthers(b, p);
    }
  }

  // ---------------------------------------------------------------------------
  // Flattening lists exactly what is found by looking it up
  // ---------------------------------------------------------------------------

  lemma {:induction false} FlattenSound(tree: Tree, relative: Path, item: Item)
    requires WellFormed(tree) && Supported(tree) && item in Flatten(tree, relative)
    ensures relative <= item.path && Lookup(tree, item.path[|relative|..]) == Some(item.node)
    decreases Depth(tree), 0, 0
  {
    if item != Item(relative, NodeOf(tree)) {
      var kids := Listing(tree.children);
      DistinctPermutes(NameOf, tree.children, kids);
      FlattenAllSound(kids, relative, item);
      LookupIgnoresOrder(tree.children, kids, item.path[|relative|..]);
    } else {
      assert item.path[|relative|..] == [];
    }
  }

  lemma {:induction false} FlattenAllSound(kids: seq<Child>, relative: Path, item: Item)
    requires WellFormedAll(kids) && SupportedAll(kids) && DistinctBy(NameOf, kids) && item in FlattenAll(kids, relative)
    ensures relative < item.path && LookupIn(kids, item.path[|relative|..]) == Some(item.node)
    ensures exists c :: c in kids && c.name == item.path[|relative|]
    decreases DepthAll(kids), 1, |kids|
  {
    var below := relative + [kids[0].name];
    if item in Flatten(kids[0].tree, below) {
      FlattenSound(kids[0].tree, below, item);
      assert item.path[|relative|..][1..] == item.path[|below|..];
      assert item.path[|relative|] == below[|relative|];
      assert kids[0] in kids;
    } else {
      FlattenAllSound(kids[1..], relative, item);
      var c :| c in kids[1..] && c.name == item.path[|relative|];
      assert c in kids && NameOf(c) != NameOf(kids[0]);
    }
  }

  lemma Descends(relative: Path, p: Path)
    requires p != []
    ensures relative + [p[0]] + p[1..] == relative + p
  {
  }

  lemma InEither<T>(x: T, a: seq<T>, b: seq<T>)
    requires x in a || x in b
    ensures x in a + b
  {
  }

  lemma {:induction false} FlattenComplete(tree: Tree, relative: Path, p: Path)
    requires WellFormed(tree) && Supported(tree) && Lookup(tree, p).Some?
    ensures Item(relative + p, Lookup(tree, p).value) in Flatten(tree, relative)
    decreases Depth(tree), 0, 0
  {
    if p == [] {
      assert relative + p == relative;
    } else {
      var kids := Listing(tree.children);
      LookupIgnoresOrder(tree.children, kids, p);
      FlattenAllComplete(kids, relative, p);
    }
  }

  lemma {:induction false} FlattenAllComplete(kids: seq<Child>, relative: Path, p: Path)
    requires WellFormedAll(kids) && SupportedAll(kids) && LookupIn(kids, p).Some?
    ensures Item(relative + p, LookupIn(kids, p).value) in FlattenAll(kids, relative)
    decreases DepthAll(kids), 1, |kids|
  {
    var below := relative + [kids[0].name];
    var here, later := Flatten(kids[0].tree, below), FlattenAll(kids[1..], relative);
    if kids[0].name == p[0] {
      Descends(relative, p);
      FlattenComplete(kids[0].tree, below, p[1..]);
      InEither(Item(relative + p, Lookup(kids[0].tree, p[1..]).value), here, later);
    } else {
      FlattenAllComplete(kids[1..], relative, p);
      InEither(Item(relative + p, LookupIn(kids[1..], p).value), here, later);
    }
  }

  // ---------------------------------------------------------------------------
  // Order: distinct paths, ancestors first
  // ---------------------------------------------------------------------------

  predicate DistinctPaths(items: seq<Item>) {
    forall i, j :: 0 <= i < j < |items| ==> items[i].path != items[j].path
  }

  /** No item comes after one of its descendants. */
  predicate AncestorsFirst(items: seq<Item>) {
    forall i, j :: 0 <= i < j < |items| ==> !(items[j].path < items[i].path)
  }

  /** Two runs of items, nothing in the second being at or above anything in the first. */
  lemma Concatenate(a: seq<Item>, b: seq<Item>)
    requires DistinctPaths(a) && DistinctPaths(b) && AncestorsFirst(a) && AncestorsFirst(b)
    requires forall x, y :: x in a && y in b ==> !(y.path <= x.path)
    ensures DistinctPaths(a + b) && AncestorsFirst(a + b)
  {
    var r := a + b;
    forall i, j | 0 <= i < j < |r|
      ensures r[i].path != r[j].path && !(r[j].path < r[i].path)
    {
      if i < |a| <= j { assert r[i] in a && r[j] in b; }
    }
  }

  lemma {:induction false} FlattenOrdered(tree: Tree, relative: Path)
    requires WellFormed(tree) && Supported(tree)
    ensures DistinctPaths(Flatten(tree, relative)) && AncestorsFirst(Flatten(tree, relative))
    decreases Depth(tree), 0, 0
  {
    if tree.Directory? {
      var kids := Listing(tree.children);
      DistinctPermutes(NameOf, tree.children, kids);
      FlattenAllOrdered(kids, relative);
      forall y | y in FlattenAll(kids, relative) ensures relative < y.path {
        FlattenAllSound(kids, relative, y);
      }
      Concatenate([Item(relative, NodeOf(tree))], FlattenAll(kids, relative));
    }
  }

  lemma {:induction false} FlattenAllOrdered(kids: seq<Child>, relative: Path)
    requires WellFormedAll(kids) && SupportedAll(kids) && DistinctBy(NameOf, kids)
    ensures DistinctPaths(FlattenAll(kids, relative)) && AncestorsFirst(FlattenAll(kids, relative))
    decreases DepthAll(kids), 1, |kids|
  {
    if kids != [] {
      var below := relative + [kids[0].name];
      var a, b := Flatten(kids[0].tree, below), FlattenAll(kids[1..], relative);
      FlattenOrdered(kids[0].tree, below);
      FlattenAllOrdered(kids[1..], relative);
      forall x, y | x in a && y in b ensures !(y.path <= x.path) {
        FlattenSound(kids[0].tree, below, x);
        FlattenAllSound(kids[1..], relative, y);
        var c :| c in kids[1..] && c.name == y.path[|relative|];
        assert NameOf(c) != NameOf(kids[0]);
        assert x.path[|relative|] == below[|relative|] == kids[0].name;
      }
      Concatenate(a, b);
    }
  }

  /** Only directories have anything below them. */
  lemma {:induction false} LookupPrefix(tree: Tree, p: Path, q: Path)
    requires Supported(tree) && Lookup(tree, p).Some? && q < p
    ensures Lookup(tree, q).Some? && Lookup(tree, q).value.DirNode?
    decreases Depth(tree), 0, 0
  {
    if q != [] { LookupInPrefix(tree.children, p, q); }
  }

  lemma {:induction false} LookupInPrefix(kids: seq<Child>, p: Path, q: Path)
    requires SupportedAll(kids) && LookupIn(kids, p).Some? && q < p && q != []
    ensures LookupIn(kids, q).Some? && LookupIn(kids, q).value.DirNode?
    decreases DepthAll(kids), 1, |kids|
  {
    if kids[0].name == p[0] {
      LookupPrefix(kids[0].tree, p[1..], q[1..]);
    } else {
      LookupInPrefix(kids[1..], p, q);
    }
  }

  /** What a file system allows at a path, with its mode masked. */
  predicate ProperNode(n: Node) {
    match n
    case FileNode(data, mode) => |data| <= U64_MAX && mode < MODE_BITS
    case DirNode(mode) => mode < MODE_BITS
    case LinkNode(target) => target != [] && 0 !in target
  }

  lemma {:induction false} FlattenProper(tree: Tree, relative: Path, item: Item)
    requires WellFormed(tree) && (forall i :: 0 <= i < |relative| ==> IsName(relative[i]))
    requires item in Flatten(tree, relative)
    ensures ProperNode(item.node) && forall i :: 0 <= i < |item.path| ==> IsName(item.path[i])
    decreases Depth(tree), 0, 0
  {
    if item != Item(relative, NodeOf(tree)) {
      FlattenAllProper(Listing(tree.children), relative, item);
    }
  }

  lemma {:induction false} FlattenAllProper(kids: seq<Child>, relative: Path, item: Item)
    requires WellFormedAll(kids) && (forall i :: 0 <= i < |relative| ==> IsName(relative[i]))
    requires item in FlattenAll(kids, relative)
    ensures ProperNode(item.node) && forall i :: 0 <= i < |item.path| ==> IsName(item.path[i])
    decreases DepthAll(kids), 1, |kids|
  {
    if item in Flatten(kids[0].tree, relative + [kids[0].name]) {
      FlattenProper(kids[0].tree, relative + [kids[0].name], item);
    } else {
      FlattenAllProper(kids[1..], relative, item);
    }
  }

  lemma {:induction false} FlattenNulFree(tree: Tree, relative: Path, item: Item)
    requires WellFormed(tree) && !HasNul(relative) && item in Flatten(tree, relative)
    ensures !HasNul(item.path)
    decreases Depth(tree), 0, 0
  {
    if item != Item(relative, NodeOf(tree)) {
      FlattenAllNulFree(Listing(tree.children), relative, item);
    }
  }

  /** Nothing that comes from a file system has a NUL in its path. */
  lemma {:induction false} FlattenAllNulFree(kids: seq<Child>, relative: Path, item: Item)
    requires WellFormedAll(kids) && !HasNul(relative) && item in FlattenAll(kids, relative)
    ensures !HasNul(item.path)
    decreases DepthAll(kids), 1, |kids|
  {
    if item in Flatten(kids[0].tree, relative + [kids[0].name]) {
      FlattenNulFree(kids[0].tree, relative + [kids[0].name], item);
    } else {
      FlattenAllNulFree(kids[1..], relative, item);
    }
  }
}

/** Rebuilding a tree below a fresh directory: two passes over the items, the second one backwards. */
module Extraction {
  import opened Wrappers
  import opened Bytes
  import opened Paths
  import opened FileTree
  import opened FileSystem

  // ---------------------------------------------------------------------------
  // What each pass leaves behind
  // ---------------------------------------------------------------------------

  /** What the first pass makes of an item: default permissions. */
  function Fresh(n: Node): Node {
    match n
    case FileNode(data, _) => FileNode(data, DEFAULT_FILE)
    case DirNode(_) => DirNode(DEFAULT_DIR)
    case LinkNode(_) => n
  }

  /** What an item is in the end: mode 0 is never applied, and only permission bits are. */
  function Final(n: Node): Node {
    match n
    case FileNode(data, mode) => if mode == 0 then Fresh(n) else FileNode(data, mode % MODE_BITS)
    case DirNode(mode) => if mode == 0 then Fresh(n) else DirNode(mode % MODE_BITS)
    case LinkNode(_) => n
  }

  /** A mode of 0 leaves 0o644 and 0o755; of any other the nine permission bits are set, even if they are all 0. */
  lemma PermissionsAreSet(data: seq<byte>, mode: nat)
    ensures Final(FileNode(data, mode)) == FileNode(data, if mode == 0 then 420 else mode % 512)
    ensures Final(DirNode(mode)) == DirNode(if mode == 0 then 493 else mode % 512)
  {
  }

  /** Item `j` exists once the first pass has reached it, or, for a link, once the second pass has. */
  predicate Made(items: seq<Item>, i: nat, k: nat, j: nat) {
    j < |items| && ((j < i && !items[j].node.LinkNode?) || j >= k)
  }

  /** `p` is the path of an item made so far, or above one. */
  ghost predicate Holds(items: seq<Item>, i: nat, k: nat, p: Path) {
    p != [] && exists j: nat :: Made(items, i, k, j) && p <= items[j].path
  }

  ghost predicate OwnPath(items: seq<Item>, i: nat, k: nat, p: Path) {
    exists j: nat :: Made(items, i, k, j) && items[j].path == p
  }

  /** What item `x` holds, made: its final node once the second pass has reached it. */
  function Expected(items: seq<Item>, k: nat, x: nat): Node
    requires x < |items|
  {
    if x >= k then Final(items[x].node) else Fresh(items[x].node)
  }

  /** The first pass has done the items below `i`, the second those from `k` on. */
  ghost predicate Stage(items: seq<Item>, i: nat, k: nat, m: Files) {
    && (forall p {:trigger Holds(items, i, k, p)} :: p in m <==> Holds(items, i, k, p))
    && (forall j: nat {:trigger Made(items, i, k, j)} :: Made(items, i, k, j) ==>
          items[j].path in m && m[items[j].path] == Expected(items, k, j))
    && (forall p {:trigger OwnPath(items, i, k, p)} :: p in m && !OwnPath(items, i, k, p) ==>
         m[p] == DirNode(DEFAULT_DIR))
  }

  /** Paths as a valid manifest has them. */
  ghost predicate Extractable(items: seq<Item>) {
    && (forall j :: 0 <= j < |items| ==> items[j].path != [])
    && DistinctPaths(items)
    && (forall i, j :: 0 <= i < |items| && 0 <= j < |items| && items[i].path < items[j].path ==> items[i].node.DirNode?)
  }

  // ---------------------------------------------------------------------------
  // No step finds its path taken by anything but a directory
  // ---------------------------------------------------------------------------

  /** At every stage the way to an item leads through directories, and only a directory can be at its path early. */
  lemma WayIsClear(items: seq<Item>, i: nat, k: nat, m: Files, x: nat)
    requires Extractable(items) && Stage(items, i, k, m) && x < |items|
    ensures DirsTo(m, items[x].path, |items[x].path| - 1)
    ensures !Made(items, i, k, x) && items[x].path in m ==>
              items[x].node.DirNode? && m[items[x].path] == DirNode(DEFAULT_DIR)
  {
    var p := items[x].path;
    forall l | 1 <= l < |p| && p[..l] in m
      ensures m[p[..l]].DirNode?
    {
      if OwnPath(items, i, k, p[..l]) {
        var j: nat :| Made(items, i, k, j) && items[j].path == p[..l];
        assert items[j].path < p;
      }
    }
    if !Made(items, i, k, x) && p in m {
      assert Holds(items, i, k, p) && !OwnPath(items, i, k, p);
      var j: nat :| Made(items, i, k, j) && p <= items[j].path;
      assert j != x && p < items[j].path;
    }
  }

  /** Whatever is above an existing path exists. */
  lemma ParentsExist(items: seq<Item>, i: nat, k: nat, m: Files, p: Path)
    requires Stage(items, i, k, m) && p in m
    ensures forall l :: 1 <= l <= |p| ==> p[..l] in m
  {
    assert Holds(items, i, k, p);
    var j: nat :| Made(items, i, k, j) && p <= items[j].path;
    forall l | 1 <= l <= |p| ensures p[..l] in m {
      assert p[..l] <= items[j].path;
      assert Holds(items, i, k, p[..l]);
    }
  }

  /** While no ancestor has its final mode yet, every directory on the way is open. */
  lemma WayIsOpen(items: seq<Item>, i: nat, k: nat, m: Files, x: nat)
    requires Extractable(items) && Stage(items, i, k, m) && x < |items|
    requires forall j :: k <= j < |items| ==> !(items[j].path < items[x].path)
    ensures OpenTo(m, items[x].path, |items[x].path| - 1)
  {
    var p := items[x].path;
    WayIsClear(items, i, k, m, x);
    forall l | 1 <= l < |p| && p[..l] in m
      ensures m[p[..l]] == DirNode(DEFAULT_DIR)
    {
      if OwnPath(items, i, k, p[..l]) {
        var j: nat :| Made(items, i, k, j) && items[j].path == p[..l];
        assert items[j].path < p;
      }
    }
  }

  /** Item `x`, and only it, is made between two stages. */
  ghost predicate Adds(items: seq<Item>, i: nat, k: nat, i': nat, k': nat, x: nat) {
    && x < |items| && !Made(items, i, k, x) && Made(items, i', k', x)
    && (forall j: nat :: Made(items, i', k', j) && j != x ==> Made(items, i, k, j))
    && (forall j: nat :: Made(items, i, k, j) ==> Made(items, i', k', j) && (j >= k <==> j >= k'))
  }

  /** `r` holds item `x` as `node`, under directories that existed in `m` or have just been made. */
  ghost predicate PutInPlace(m: Files, p: Path, node: Node, r: Files) {
    && p in r && r[p] == node
    && (forall q :: q in m && q != p ==> q in r && r[q] == m[q])
    && (forall l :: 1 <= l <= |p| ==> p[..l] in r)
    && (forall q :: q in r && q !in m && q != p ==> q != [] && q < p && r[q] == DirNode(DEFAULT_DIR))
  }

  lemma PlacedPaths(items: seq<Item>, i: nat, k: nat, i': nat, k': nat, x: nat, m: Files, node: Node, r: Files, p: Path)
    requires Stage(items, i, k, m) && Adds(items, i, k, i', k', x) && items[x].path != []
    requires PutInPlace(m, items[x].path, node, r)
    ensures p in r <==> Holds(items, i', k', p)
  {
    var path := items[x].path;
    if p in r {
      if p in m {
        assert Holds(items, i, k, p);
        var j: nat :| Made(items, i, k, j) && p <= items[j].path;
        assert Made(items, i', k', j);
      } else {
        assert p <= path;
      }
    }
    if Holds(items, i', k', p) {
      var j: nat :| Made(items, i', k', j) && p <= items[j].path;
      if j == x {
        assert p == path[..|p|];
      } else {
        assert Holds(items, i, k, p);
      }
    }
  }

  lemma PlacedDefaults(items: seq<Item>, i: nat, k: nat, i': nat, k': nat, x: nat, m: Files, node: Node, r: Files,
      p: Path)
    requires Stage(items, i, k, m) && Adds(items, i, k, i', k', x)
    requires PutInPlace(m, items[x].path, node, r) && p in r && !OwnPath(items, i', k', p)
    ensures r[p] == DirNode(DEFAULT_DIR)
  {
    assert p != items[x].path;
    assert OwnPath(items, i, k, p) ==> OwnPath(items, i', k', p);
  }

  /** The stage after item `x` has been put in place. */
  lemma Placed(items: seq<Item>, i: nat, k: nat, i': nat, k': nat, x: nat, m: Files, r: Files)
    requires Extractable(items) && Stage(items, i, k, m) && Adds(items, i, k, i', k', x)
    requires PutInPlace(m, items[x].path, Expected(items, k', x), r)
    ensures Stage(items, i', k', r)
  {
    var node := Expected(items, k', x);
    forall p ensures p in r <==> Holds(items, i', k', p) {
      PlacedPaths(items, i, k, i', k', x, m, node, r, p);
    }
    forall p | p in r && !OwnPath(items, i', k', p) ensures r[p] == DirNode(DEFAULT_DIR) {
      PlacedDefaults(items, i, k, i', k', x, m, node, r, p);
    }
    forall j: nat | Made(items, i', k', j)
      ensures items[j].path in r && r[items[j].path] == Expected(items, k', j)
    {
      if j != x { assert items[j].path != items[x].path; }
    }
  }

  /** Counting the same items as made another way changes nothing for a path. */
  lemma Recounted(items: seq<Item>, i: nat, k: nat, i': nat, k': nat, m: Files, p: Path)
    requires Stage(items, i, k, m)
    requires forall j: nat :: Made(items, i, k, j) <==> Made(items, i', k', j)
    ensures p in m <==> Holds(items, i', k', p)
    ensures p in m && !OwnPath(items, i', k', p) ==> m[p] == DirNode(DEFAULT_DIR)
  {
    assert p in m <==> Holds(items, i, k, p);
    assert OwnPath(items, i, k, p) <==> OwnPath(items, i', k', p);
  }

  /** Item `x` perhaps changed to what the new stage says it holds, the same items made. */
  ghost predicate Changes(items: seq<Item>, i: nat, k: nat, i': nat, k': nat, m: Files, x: nat, r: Files) {
    && x < |items|
    && (forall j: nat :: Made(items, i, k, j) <==> Made(items, i', k', j))
    && (forall j: nat :: Made(items, i, k, j) && j != x ==> (j >= k <==> j >= k'))
    && r.Keys == m.Keys && (forall p :: p in m && p != items[x].path ==> r[p] == m[p])
    && if Made(items, i', k', x) then items[x].path in r && r[items[x].path] == Expected(items, k', x) else r == m
  }

  lemma ChangedPath(items: seq<Item>, i: nat, k: nat, i': nat, k': nat, m: Files, x: nat, r: Files, p: Path)
    requires Stage(items, i, k, m) && Changes(items, i, k, i', k', m, x, r)
    ensures p in r <==> Holds(items, i', k', p)
    ensures p in r && !OwnPath(items, i', k', p) ==> r[p] == DirNode(DEFAULT_DIR)
  {
    Recounted(items, i, k, i', k', m, p);
    assert p == items[x].path && Made(items, i', k', x) ==> OwnPath(items, i', k', p);
  }

  lemma ChangedItem(items: seq<Item>, i: nat, k: nat, i': nat, k': nat, m: Files, x: nat, r: Files, j: nat)
    requires Extractable(items) && Stage(items, i, k, m) && Changes(items, i, k, i', k', m, x, r)
    requires Made(items, i', k', j)
    ensures items[j].path in r && r[items[j].path] == Expected(items, k', j)
  {
    assert Made(items, i, k, j);
    if j != x { assert items[j].path != items[x].path; }
  }

  lemma Changed(items: seq<Item>, i: nat, k: nat, i': nat, k': nat, m: Files, x: nat, r: Files)
    requires Extractable(items) && Stage(items, i, k, m) && Changes(items, i, k, i', k', m, x, r)
    ensures Stage(items, i', k', r)
  {
    forall p ensures p in r <==> Holds(items, i', k', p) {
      ChangedPath(items, i, k, i', k', m, x, r, p);
    }
    forall p | p in r && !OwnPath(items, i', k', p) ensures r[p] == DirNode(DEFAULT_DIR) {
      ChangedPath(items, i, k, i', k', m, x, r, p);
    }
    forall j: nat | Made(items, i', k', j)
      ensures items[j].path in r && r[items[j].path] == Expected(items, k', j)
    {
      ChangedItem(items, i, k, i', k', m, x, r, j);
    }
  }

  // ---------------------------------------------------------------------------
  // Whatever happens, nothing is written elsewhere
  // ---------------------------------------------------------------------------

  /** Every path is that of an item or above one, and every link is an item's own. */
  ghost predicate Contained(items: seq<Item>, m: Files) {
    forall p :: p in m ==>
      && p != [] && (exists j: nat :: j < |items| && p <= items[j].path)
      && (m[p].LinkNode? ==> exists j: nat :: j < |items| && items[j] == Item(p, m[p]))
  }

  lemma StageIsContained(items: seq<Item>, i: nat, k: nat, m: Files)
    requires Stage(items, i, k, m)
    ensures Contained(items, m)
  {
    forall p | p in m
      ensures p != [] && exists j: nat :: j < |items| && p <= items[j].path
      ensures m[p].LinkNode? ==> exists j: nat :: j < |items| && items[j] == Item(p, m[p])
    {
      assert Holds(items, i, k, p);
      if m[p].LinkNode? {
        assert OwnPath(items, i, k, p);
        var j: nat :| Made(items, i, k, j) && items[j].path == p;
        assert items[j] == Item(p, m[p]);
      }
    }
  }

  lemma GrownIsContained(items: seq<Item>, x: nat, m: Files, p: Path, r: Files)
    requires Contained(items, m) && x < |items| && p <= items[x].path && Grown(m, p, r)
    ensures Contained(items, r)
  {
    forall q | q in r
      ensures q != [] && exists j: nat :: j < |items| && q <= items[j].path
      ensures r[q].LinkNode? ==> exists j: nat :: j < |items| && items[j] == Item(q, r[q])
    {
      if q !in m { assert q <= items[x].path; }
    }
  }

  lemma StageIsRooted(items: seq<Item>, i: nat, k: nat, m: Files, p: Path)
    requires Stage(items, i, k, m)
    ensures Rooted(m, p)
  {
    forall l, l' {:trigger p[..l], p[..l']} | 1 <= l <= l' <= |p| && p[..l'] in m ensures p[..l] in m {
      ParentsExist(items, i, k, m, p[..l']);
      assert p[..l'][..l] == p[..l];
    }
  }

  /** What there is on the way to an item that has not been made. */
  lemma WayToItem(items: seq<Item>, i: nat, k: nat, m: Files, x: nat)
    requires Extractable(items) && Stage(items, i, k, m) && x < |items| && !Made(items, i, k, x)
    ensures var p := items[x].path;
            && DirsTo(m, p, |p|) && Rooted(m, p) && Contained(items, m)
            && (p in m ==> items[x].node.DirNode? && m[p] == DirNode(DEFAULT_DIR))
  {
    var p := items[x].path;
    WayIsClear(items, i, k, m, x);
    StageIsRooted(items, i, k, m, p);
    StageIsContained(items, i, k, m);
    assert p[..|p|] == p;
  }

  // ---------------------------------------------------------------------------
  // The first pass
  // ---------------------------------------------------------------------------

  /** A directory whose path ends in a dot exists already when its turn comes. */
  ghost predicate MadeEarlier(items: seq<Item>, i: nat)
    requires i < |items|
  {
    exists j :: 0 <= j < i && !items[j].node.LinkNode? && items[i].path < items[j].path
  }

  /**
   * No component holds a NUL, a file's path does not end in a slash or a dot, a directory's in a dot only if it exists.
   */
  ghost predicate Creatable(items: seq<Item>, endings: seq<Ending>, i: nat)
    requires i < |items| == |endings|
  {
    match items[i].node
    case FileNode(_, _) => !HasNul(items[i].path) && endings[i].Bare?
    case DirNode(_) => !HasNul(items[i].path) && (endings[i].Dotted? ==> MadeEarlier(items, i))
    case LinkNode(_) => true
  }

  /** How the first pass refuses an item. */
  function Refusal(items: seq<Item>, endings: seq<Ending>, i: nat): FsError
    requires i < |items| == |endings|
  {
    if HasNul(items[i].path) then InvalidInput
    else if items[i].node.FileNode? && endings[i].Slashed? then IsADirectory
    else Missing
  }

  lemma HeldEarly(items: seq<Item>, i: nat, m: Files)
    requires Extractable(items) && Stage(items, i, |items|, m) && i < |items|
    ensures items[i].path in m <==> MadeEarlier(items, i)
  {
    var n, p := |items|, items[i].path;
    assert p in m <==> Holds(items, i, n, p);
    if p in m {
      var j: nat :| Made(items, i, n, j) && p <= items[j].path;
      assert j < i && items[j].path != p;
    }
    if MadeEarlier(items, i) {
      var j: nat :| j < i && !items[j].node.LinkNode? && p < items[j].path;
      assert Made(items, i, n, j) && p <= items[j].path;
    }
  }

  lemma DirectoryInPlace(m: Files, p: Path, r: Files)
    requires p != [] && Extends(m, p, r) && (p in m ==> m[p] == DirNode(DEFAULT_DIR))
    ensures PutInPlace(m, p, DirNode(DEFAULT_DIR), r)
  {
    assert p[..|p|] == p;
  }

  lemma DirectoryMade(items: seq<Item>, i: nat, m: Files, r: Files)
    requires Extractable(items) && Stage(items, i, |items|, m) && i < |items| && items[i].node.DirNode?
    requires Extends(m, items[i].path, r)
    ensures Stage(items, i + 1, |items|, r)
  {
    WayToItem(items, i, |items|, m, i);
    DirectoryInPlace(m, items[i].path, r);
    Placed(items, i, |items|, i + 1, |items|, i, m, r);
  }

  lemma DirectoryWayIsOpen(items: seq<Item>, i: nat, m: Files)
    requires Extractable(items) && Stage(items, i, |items|, m) && i < |items| && items[i].node.DirNode?
    ensures var p := items[i].path; DirsTo(m, p, |p|) && Rooted(m, p) && OpenTo(m, p, |p|)
  {
    WayToItem(items, i, |items|, m, i);
    WayIsOpen(items, i, |items|, m, i);
    OpenToItself(m, items[i].path);
  }

  lemma DottedDirectory(items: seq<Item>, i: nat, m: Files)
    requires Extractable(items) && Stage(items, i, |items|, m) && i < |items| && items[i].node.DirNode?
    requires !HasNul(items[i].path)
    ensures var e := CreateDirAll(m, FsPath(items[i].path, Dotted));
            && e.error == (if MadeEarlier(items, i) then None else Some(Missing))
            && (e.error.None? ==> Extends(m, items[i].path, e.files))
            && Grown(m, items[i].path, e.files)
  {
    var p := items[i].path;
    DirectoryWayIsOpen(items, i, m);
    HeldEarly(items, i, m);
    DottedMustExist(m, p);
    if p in m { ParentsExist(items, i, |items|, m, p); }
  }

  lemma PlainDirectory(items: seq<Item>, i: nat, m: Files)
    requires Extractable(items) && Stage(items, i, |items|, m) && i < |items| && items[i].node.DirNode?
    requires !HasNul(items[i].path)
    ensures var e := CreateDirAll(m, FsPath(items[i].path, Bare));
            e.error.None? && Extends(m, items[i].path, e.files)
  {
    WayToItem(items, i, |items|, m, i);
    WayIsOpen(items, i, |items|, m, i);
    CreateDirAllIsAllowed(m, items[i].path);
    OpenWayIsAllowed(m, items[i].path);
  }

  /** A directory of the first pass is refused only for the text of its path. */
  lemma DirectoryStep(items: seq<Item>, endings: seq<Ending>, i: nat, m: Files)
    requires Extractable(items) && Stage(items, i, |items|, m) && i < |items| == |endings| && items[i].node.DirNode?
    ensures var e := CreateDirAll(m, FsPath(items[i].path, endings[i]));
            && e.error == (if Creatable(items, endings, i) then None else Some(Refusal(items, endings, i)))
            && (e.error.None? ==> Stage(items, i + 1, |items|, e.files))
            && Contained(items, e.files)
  {
    var p := items[i].path;
    var e := CreateDirAll(m, FsPath(p, endings[i]));
    StageIsContained(items, i, |items|, m);
    if HasNul(p) {
      NulIsRefused(m, FsPath(p, endings[i]));
    } else {
      if endings[i].Dotted? {
        DottedDirectory(items, i, m);
      } else {
        SlashMakesNoDifference(m, p);
        PlainDirectory(items, i, m);
      }
      GrownIsContained(items, i, m, p, e.files);
      if e.error.None? { DirectoryMade(items, i, m, e.files); }
    }
  }

  lemma OpenWayIsAllowed(m: Files, p: Path)
    requires p != [] && DirsTo(m, p, |p| - 1) && Rooted(m, p) && OpenTo(m, p, |p| - 1)
    ensures SearchableTo(m, p, |p| - 1) && Admitted(m, p)
  {
  }

  /** The directories above item `x` are made where the way is open, and then hold it as `node`. */
  ghost predicate WayMade(items: seq<Item>, x: nat, m: Files, node: Node, open: bool)
    requires x < |items| && items[x].path != []
  {
    var p := items[x].path;
    var e := CreateDirAll(m, FsPath(p[..|p| - 1], Bare));
    && Contained(items, e.files)
    && if HasNul(p[..|p| - 1]) then e.error == Some(InvalidInput)
       else
         && (if open then e.error.None? else e.error in {None, Some(Denied)})
         && p !in m && p !in e.files
         && (e.error.None? ==>
               && Extends(m, p[..|p| - 1], e.files)
               && Create(e.files, p, node) == if open then Ok(e.files[p := node]) else Err(Denied))
  }

  lemma ClearWayToFile(items: seq<Item>, i: nat, m: Files)
    requires Extractable(items) && Stage(items, i, |items|, m) && i < |items| && items[i].node.FileNode?
    requires !HasNul(items[i].path[..|items[i].path| - 1])
    ensures WayMade(items, i, m, Fresh(items[i].node), true)
  {
    var p := items[i].path;
    WayToItem(items, i, |items|, m, i);
    WayIsOpen(items, i, |items|, m, i);
    EntryIsAllowed(m, p, Fresh(items[i].node));
    OpenIsAllowed(m, p);
    GrownIsContained(items, i, m, p, CreateDirAll(m, FsPath(p[..|p| - 1], Bare)).files);
  }

  lemma WayToFile(items: seq<Item>, i: nat, m: Files)
    requires Extractable(items) && Stage(items, i, |items|, m) && i < |items| && items[i].node.FileNode?
    ensures WayMade(items, i, m, Fresh(items[i].node), true)
  {
    var above := items[i].path[..|items[i].path| - 1];
    if HasNul(above) {
      StageIsContained(items, i, |items|, m);
      NulIsRefused(m, FsPath(above, Bare));
    } else {
      ClearWayToFile(items, i, m);
    }
  }

  /** A new entry, or an error after some of the directories above it have been made. */
  ghost predicate EntryOrError(items: seq<Item>, x: nat, m: Files, node: Node, above: Files, e: Effect)
    requires x < |items| && items[x].path != []
  {
    var p := items[x].path;
    && Contained(items, above)
    && if e.error.Some? then e.files == above
       else p !in m && p !in above && Extends(m, p[..|p| - 1], above) && e.files == above[p := node]
  }

  lemma EntryMade(items: seq<Item>, i: nat, k: nat, i': nat, k': nat, x: nat, m: Files, above: Files, e: Effect)
    requires Extractable(items) && Stage(items, i, k, m) && Adds(items, i, k, i', k', x)
    requires EntryOrError(items, x, m, Expected(items, k', x), above, e)
    ensures e.error.None? ==> Stage(items, i', k', e.files)
    ensures Contained(items, e.files)
  {
    if e.error.None? {
      PutsInPlace(m, items[x].path, Expected(items, k', x), above);
      Placed(items, i, k, i', k', x, m, e.files);
      StageIsContained(items, i', k', e.files);
    }
  }

  lemma FileMade(items: seq<Item>, ending: Ending, x: nat, m: Files)
    requires x < |items| && items[x].path != [] && items[x].node.FileNode?
    requires WayMade(items, x, m, Fresh(items[x].node), true)
    ensures var p := items[x].path;
            var e := MakeFile(m, FsPath(p, ending), items[x].node.data);
            && EntryOrError(items, x, m, Fresh(items[x].node), CreateDirAll(m, FsPath(p[..|p| - 1], Bare)).files, e)
            && e.error == if HasNul(p) then Some(InvalidInput) else if ending.Slashed? then Some(IsADirectory)
                          else if ending.Dotted? then Some(Missing) else None
  {
    var p := items[x].path;
    NulAbove(p);
    OpensWhenBare(CreateDirAll(m, FsPath(p[..|p| - 1], Bare)).files, FsPath(p, ending), items[x].node.data);
  }

  lemma FileOutcome(items: seq<Item>, ending: Ending, i: nat, m: Files)
    requires Extractable(items) && Stage(items, i, |items|, m) && i < |items| && items[i].node.FileNode?
    ensures var p := items[i].path;
            var e := MakeFile(m, FsPath(p, ending), items[i].node.data);
            && EntryOrError(items, i, m, Fresh(items[i].node), CreateDirAll(m, FsPath(p[..|p| - 1], Bare)).files, e)
            && e.error == if HasNul(p) then Some(InvalidInput) else if ending.Slashed? then Some(IsADirectory)
                          else if ending.Dotted? then Some(Missing) else None
  {
    WayToFile(items, i, m);
    FileMade(items, ending, i, m);
  }

  /** A file of the first pass finds its path free, and is refused only for the text of its path. */
  lemma FileStep(items: seq<Item>, endings: seq<Ending>, i: nat, m: Files)
    requires Extractable(items) && Stage(items, i, |items|, m) && i < |items| == |endings| && items[i].node.FileNode?
    ensures var e := MakeFile(m, FsPath(items[i].path, endings[i]), items[i].node.data);
            && e.error == (if Creatable(items, endings, i) then None else Some(Refusal(items, endings, i)))
            && (e.error.None? ==> Stage(items, i + 1, |items|, e.files))
            && Contained(items, e.files)
  {
    var a := FsPath(items[i].path, endings[i]);
    FileOutcome(items, endings[i], i, m);
    EntryMade(items, i, |items|, i + 1, |items|, i, m, CreateDirAll(m, Parent(a)).files,
              MakeFile(m, a, items[i].node.data));
  }

  lemma PutsInPlace(m: Files, p: Path, node: Node, r: Files)
    requires p != [] && p !in m && Extends(m, p[..|p| - 1], r) && p !in r
    ensures PutInPlace(m, p, node, r[p := node])
  {
    var above := p[..|p| - 1];
    forall l | 1 <= l <= |p| ensures p[..l] in r[p := node] {
      if l < |p| { assert above[..l] == p[..l]; } else { assert p[..l] == p; }
    }
  }

  /** A link is not touched by the first pass. */
  lemma SkipStep(items: seq<Item>, i: nat, m: Files)
    requires Extractable(items) && Stage(items, i, |items|, m) && i < |items| && items[i].node.LinkNode?
    ensures Stage(items, i + 1, |items|, m)
  {
    Changed(items, i, |items|, i + 1, |items|, m, i, m);
  }

  // ---------------------------------------------------------------------------
  // The second pass
  // ---------------------------------------------------------------------------

  /** No directory above item `x` is closed to searching by the items that have their final mode, those from `k` on. */
  ghost predicate WayStaysSearchable(items: seq<Item>, k: nat, x: nat)
    requires x < |items|
  {
    forall j {:trigger Final(items[j].node)} :: k <= j < |items| && items[j].path < items[x].path ==>
      Searchable(Final(items[j].node))
  }

  /** Nor has the directory been closed to writing that the item, or the first missing directory above it, goes into. */
  ghost predicate WayStaysWritable(items: seq<Item>, x: nat)
    requires x < |items|
  {
    forall j {:trigger Final(items[j].node)} ::
      x < j < |items| && items[j].path < items[x].path && NothingBetween(items, x + 1, items[j].path, items[x].path) ==>
      Writable(Final(items[j].node))
  }

  ghost predicate WayStaysOpen(items: seq<Item>, x: nat)
    requires x < |items|
  {
    WayStaysSearchable(items, x + 1, x) && WayStaysWritable(items, x)
  }

  /** The second pass can give the item its final form. */
  ghost predicate Finishable(items: seq<Item>, endings: seq<Ending>, x: nat)
    requires x < |items| == |endings|
  {
    match items[x].node
    case FileNode(_, mode) => mode == 0 || WayStaysSearchable(items, x + 1, x)
    case DirNode(mode) => mode == 0 || WayStaysSearchable(items, x + 1, x)
    case LinkNode(_) =>
      !HasNul(items[x].path) && endings[x].Bare? && WayStaysOpen(items, x)
  }

  /** What a directory above an item is at its turn. */
  lemma DirectoryAbove(items: seq<Item>, k: nat, m: Files, q: Path)
    requires Stage(items, |items|, k, m) && k <= |items| && q in m && m[q].DirNode?
    ensures (exists j: nat :: k <= j < |items| && items[j].path == q && m[q] == Final(items[j].node)) ||
            (Searchable(m[q]) && Writable(m[q]))
  {
    if OwnPath(items, |items|, k, q) {
      var j: nat :| Made(items, |items|, k, j) && items[j].path == q;
      assert m[q] == Expected(items, k, j);
      if j < k { assert m[q] == Fresh(items[j].node); }
    }
  }

  lemma SearchableExactlyWhen(items: seq<Item>, k: nat, x: nat, m: Files)
    requires Extractable(items) && x < |items| && k <= |items| && Stage(items, |items|, k, m)
    ensures var p := items[x].path; SearchableTo(m, p, |p| - 1) <==> WayStaysSearchable(items, k, x)
  {
    var p := items[x].path;
    WayIsClear(items, |items|, k, m, x);
    if SearchableTo(m, p, |p| - 1) {
      forall j | k <= j < |items| && items[j].path < p ensures Searchable(Final(items[j].node)) {
        assert Made(items, |items|, k, j);
        assert p[..|items[j].path|] == items[j].path;
      }
    }
    if WayStaysSearchable(items, k, x) {
      forall l | 1 <= l <= |p| - 1 && p[..l] in m ensures Searchable(m[p[..l]]) {
        DirectoryAbove(items, k, m, p[..l]);
        assert p[..l] < p;
      }
    }
  }

  /** Nothing has been made strictly between two paths. */
  ghost predicate NothingBetween(items: seq<Item>, k: nat, above: Path, p: Path) {
    forall q {:trigger Holds(items, |items|, k, q)} :: above < q && q < p ==> !Holds(items, |items|, k, q)
  }

  lemma BelowTheReach(items: seq<Item>, x: nat, m: Files, j: nat)
    requires Extractable(items) && x < j < |items| && Stage(items, |items|, x + 1, m) && items[j].path < items[x].path
    ensures var p, r := items[x].path, Reach(m, items[x].path);
            && |items[j].path| <= r && items[j].path in m && m[items[j].path] == Final(items[j].node)
            && (NothingBetween(items, x + 1, items[j].path, p) ==> items[j].path == p[..r])
  {
    var p, r := items[x].path, Reach(m, items[x].path);
    StageIsRooted(items, |items|, x + 1, m, p);
    ReachStops(m, p);
    assert Made(items, |items|, x + 1, j) && p[..|items[j].path|] == items[j].path;
    assert r > 0 ==> Holds(items, |items|, x + 1, p[..r]);
  }

  lemma NothingAboveReach(items: seq<Item>, x: nat, m: Files)
    requires Extractable(items) && x < |items| && Stage(items, |items|, x + 1, m)
    ensures NothingBetween(items, x + 1, items[x].path[..Reach(m, items[x].path)], items[x].path)
  {
    var p, r := items[x].path, Reach(m, items[x].path);
    StageIsRooted(items, |items|, x + 1, m, p);
    ReachStops(m, p);
    forall q {:trigger Holds(items, |items|, x + 1, q)}
      ensures p[..r] < q && q < p ==> !Holds(items, |items|, x + 1, q)
    {
      assert q < p ==> q == p[..|q|];
    }
  }

  lemma WritableExactlyWhen(items: seq<Item>, x: nat, m: Files)
    requires Extractable(items) && x < |items| && Stage(items, |items|, x + 1, m)
    ensures var p := items[x].path;
            (Reach(m, p) > 0 ==> Writable(m[p[..Reach(m, p)]])) <==> WayStaysWritable(items, x)
  {
    var p, r := items[x].path, Reach(m, items[x].path);
    forall j | x < j < |items| && items[j].path < p
      ensures |items[j].path| <= r && items[j].path in m && m[items[j].path] == Final(items[j].node)
      ensures NothingBetween(items, x + 1, items[j].path, p) ==> items[j].path == p[..r]
    {
      BelowTheReach(items, x, m, j);
    }
    if r > 0 {
      WayIsClear(items, |items|, x + 1, m, x);
      DirectoryAbove(items, x + 1, m, p[..r]);
      NothingAboveReach(items, x, m);
      assert p[..r] < p;
    }
  }

  lemma WayToLink(items: seq<Item>, x: nat, m: Files)
    requires Extractable(items) && x < |items| && Stage(items, |items|, x + 1, m) && items[x].node.LinkNode?
    ensures WayMade(items, x, m, items[x].node, WayStaysOpen(items, x))
  {
    var p := items[x].path;
    var above := p[..|p| - 1];
    WayToItem(items, |items|, x + 1, m, x);
    if HasNul(above) {
      NulIsRefused(m, FsPath(above, Bare));
    } else {
      EntryIsAllowed(m, p, items[x].node);
      GrownIsContained(items, x, m, p, CreateDirAll(m, FsPath(above, Bare)).files);
      SearchableExactlyWhen(items, x + 1, x, m);
      WritableExactlyWhen(items, x, m);
    }
  }

  lemma LinkMade(items: seq<Item>, ending: Ending, x: nat, m: Files, open: bool)
    requires x < |items| && items[x].path != [] && items[x].node.LinkNode? && WayMade(items, x, m, items[x].node, open)
    ensures var p := items[x].path;
            var e := PlaceLink(m, FsPath(p, ending), items[x].node.target);
            && EntryOrError(items, x, m, items[x].node, CreateDirAll(m, FsPath(p[..|p| - 1], Bare)).files, e)
            && (e.error.None? <==> !HasNul(p) && ending.Bare? && open)
  {
    var p := items[x].path;
    NulAbove(p);
    LinksWhenBare(CreateDirAll(m, FsPath(p[..|p| - 1], Bare)).files, FsPath(p, ending), items[x].node.target);
  }

  lemma LinkIsNext(items: seq<Item>, k: nat)
    requires 0 < k <= |items| && items[k - 1].node.LinkNode?
    ensures Adds(items, |items|, k, |items|, k - 1, k - 1) && Expected(items, k - 1, k - 1) == items[k - 1].node
  {
  }

  lemma LinkOutcome(items: seq<Item>, ending: Ending, x: nat, m: Files)
    requires Extractable(items) && x < |items| && Stage(items, |items|, x + 1, m) && items[x].node.LinkNode?
    ensures var p := items[x].path;
            var e := PlaceLink(m, FsPath(p, ending), items[x].node.target);
            && EntryOrError(items, x, m, items[x].node, CreateDirAll(m, FsPath(p[..|p| - 1], Bare)).files, e)
            && (e.error.None? <==> !HasNul(p) && ending.Bare? && WayStaysOpen(items, x))
  {
    WayToLink(items, x, m);
    LinkMade(items, ending, x, m, WayStaysOpen(items, x));
  }

  /** The directory a link goes into is there and can be looked at, or can be made. */
  ghost predicate ParentIsAtHand(items: seq<Item>, x: nat)
    requires x < |items| && items[x].path != []
  {
    var above := items[x].path[..|items[x].path| - 1];
    if above == [] then true
    else if Holds(items, |items|, x + 1, above) then
      forall j {:trigger Final(items[j].node)} :: x < j < |items| && items[j].path < above ==>
        Searchable(Final(items[j].node))
    else WayStaysOpen(items, x)
  }

  /** How the second pass refuses an item. */
  ghost function LateRefusal(items: seq<Item>, endings: seq<Ending>, x: nat): FsError
    requires x < |items| == |endings|
  {
    var p := items[x].path;
    if !items[x].node.LinkNode? || p == [] then Denied
    else if HasNul(p[..|p| - 1]) then InvalidInput
    else if !ParentIsAtHand(items, x) then Denied
    else if HasNul(p) then InvalidInput
    else if endings[x].Bare? || !WayStaysSearchable(items, x + 1, x) then Denied
    else Missing
  }

  lemma ShorterWayExactlyWhen(items: seq<Item>, x: nat, m: Files)
    requires Extractable(items) && x < |items| && Stage(items, |items|, x + 1, m) && |items[x].path| > 1
    ensures var above := items[x].path[..|items[x].path| - 1];
            SearchableTo(m, above, |above| - 1) <==>
              forall j {:trigger Final(items[j].node)} :: x < j < |items| && items[j].path < above ==>
                Searchable(Final(items[j].node))
  {
    var above := items[x].path[..|items[x].path| - 1];
    WayIsClear(items, |items|, x + 1, m, x);
    if SearchableTo(m, above, |above| - 1) {
      forall j | x < j < |items| && items[j].path < above ensures Searchable(Final(items[j].node)) {
        assert Made(items, |items|, x + 1, j);
        assert above[..|items[j].path|] == items[j].path;
      }
    }
    if forall j {:trigger Final(items[j].node)} :: x < j < |items| && items[j].path < above ==>
         Searchable(Final(items[j].node))
    {
      forall l | 1 <= l <= |above| - 1 && above[..l] in m ensures Searchable(m[above[..l]]) {
        assert above[..l] == items[x].path[..l];
        DirectoryAbove(items, x + 1, m, above[..l]);
        assert above[..l] < above;
      }
    }
  }

  lemma ParentExactlyWhen(items: seq<Item>, x: nat, m: Files)
    requires Extractable(items) && x < |items| && Stage(items, |items|, x + 1, m)
    ensures HasParent(m, items[x].path) <==> ParentIsAtHand(items, x)
  {
    var above := items[x].path[..|items[x].path| - 1];
    if above != [] {
      assert above in m <==> Holds(items, |items|, x + 1, above);
      ShorterWayExactlyWhen(items, x, m);
      SearchableExactlyWhen(items, x + 1, x, m);
      WritableExactlyWhen(items, x, m);
    }
  }

  lemma LinkErrorIs(items: seq<Item>, endings: seq<Ending>, x: nat, m: Files)
    requires Extractable(items) && x < |items| == |endings| && Stage(items, |items|, x + 1, m)
    requires items[x].node.LinkNode?
    ensures LinkError(m, FsPath(items[x].path, endings[x])) == LateRefusal(items, endings, x)
  {
    ParentExactlyWhen(items, x, m);
    SearchableExactlyWhen(items, x + 1, x, m);
  }

  /** A link is refused for the first thing in its way, which the manifest tells. */
  lemma LinkRefusedFor(items: seq<Item>, endings: seq<Ending>, x: nat, m: Files)
    requires Extractable(items) && x < |items| == |endings| && Stage(items, |items|, x + 1, m)
    requires items[x].node.LinkNode?
    ensures PlaceLink(m, FsPath(items[x].path, endings[x]), items[x].node.target).error
            in {None, Some(LateRefusal(items, endings, x))}
  {
    WayToItem(items, |items|, x + 1, m, x);
    LinkErrorIs(items, endings, x, m);
    LinkIsRefused(m, FsPath(items[x].path, endings[x]), items[x].node.target);
  }

  /** A link of the second pass finds its path free; its text or a directory closed too early can refuse it. */
  lemma LinkStep(items: seq<Item>, endings: seq<Ending>, k: nat, m: Files)
    requires Extractable(items) && 0 < k <= |items| == |endings| && Stage(items, |items|, k, m)
    requires items[k - 1].node.LinkNode?
    ensures var e := PlaceLink(m, FsPath(items[k - 1].path, endings[k - 1]), items[k - 1].node.target);
            && e.error == (if Finishable(items, endings, k - 1) then None else Some(LateRefusal(items, endings, k - 1)))
            && (e.error.None? ==> Stage(items, |items|, k - 1, e.files))
            && Contained(items, e.files)
  {
    var n, x, a := |items|, k - 1, FsPath(items[k - 1].path, endings[k - 1]);
    LinkOutcome(items, endings[x], x, m);
    LinkRefusedFor(items, endings, x, m);
    LinkIsNext(items, k);
    EntryMade(items, n, k, n, x, x, m, CreateDirAll(m, Parent(a)).files, PlaceLink(m, a, items[x].node.target));
  }

  /** A link whose path is sound is refused for lack of permission only. */
  lemma SoundLinksAreDenied(items: seq<Item>, endings: seq<Ending>, x: nat)
    requires x < |items| == |endings|
    requires items[x].node.LinkNode? ==> !HasNul(items[x].path) && endings[x].Bare?
    ensures LateRefusal(items, endings, x) == Denied
  {
    if items[x].path != [] { NulAbove(items[x].path); }
  }

  lemma ModeApplied(items: seq<Item>, k: nat, m: Files)
    requires Extractable(items) && 0 < k <= |items| && Stage(items, |items|, k, m) && !items[k - 1].node.LinkNode?
    ensures var r := m[items[k - 1].path := Final(items[k - 1].node)];
            Stage(items, |items|, k - 1, r) && Contained(items, r)
  {
    var n, x := |items|, k - 1;
    assert Made(items, n, k, x);
    Changed(items, n, k, n, x, m, x, m[items[x].path := Final(items[x].node)]);
    StageIsContained(items, n, x, m[items[x].path := Final(items[x].node)]);
  }

  lemma ModeAllowed(items: seq<Item>, ending: Ending, x: nat, m: Files, mode: nat)
    requires Extractable(items) && x < |items| && Stage(items, |items|, x + 1, m) && !items[x].node.LinkNode?
    requires !HasNul(items[x].path) && (items[x].node.FileNode? ==> ending.Bare?)
    requires WithMode(items[x].node, mode) == Final(items[x].node)
    ensures SetMode(m, FsPath(items[x].path, ending), mode) ==
            if WayStaysSearchable(items, x + 1, x) then Ok(m[items[x].path := Final(items[x].node)]) else Err(Denied)
  {
    var p := items[x].path;
    assert Made(items, |items|, x + 1, x) && m[p] == Fresh(items[x].node);
    WayIsClear(items, |items|, x + 1, m, x);
    StageIsRooted(items, |items|, x + 1, m, p);
    ParentsExist(items, |items|, x + 1, m, p);
    ObstacleOnTheWay(m, p, |p| - 1);
    SearchableExactlyWhen(items, x + 1, x, m);
  }

  /** A chmod of the second pass never meets a link; only a directory closed too early can refuse it. */
  lemma ChmodStep(items: seq<Item>, endings: seq<Ending>, k: nat, m: Files)
    requires Extractable(items) && 0 < k <= |items| == |endings| && Stage(items, |items|, k, m)
    requires !items[k - 1].node.LinkNode? && Creatable(items, endings, k - 1) && items[k - 1].node.mode != 0
    ensures match SetMode(m, FsPath(items[k - 1].path, endings[k - 1]), items[k - 1].node.mode % MODE_BITS)
            case Err(e) => e == Denied && !Finishable(items, endings, k - 1)
            case Ok(r) => Finishable(items, endings, k - 1) && Stage(items, |items|, k - 1, r) && Contained(items, r)
  {
    ModeApplied(items, k, m);
    ModeAllowed(items, endings[k - 1], k - 1, m, items[k - 1].node.mode % MODE_BITS);
  }

  /** Mode 0 is never applied, so such an item already is what it will be. */
  lemma UnchangedStep(items: seq<Item>, endings: seq<Ending>, k: nat, m: Files)
    requires Extractable(items) && 0 < k <= |items| == |endings| && Stage(items, |items|, k, m)
    requires !items[k - 1].node.LinkNode? && items[k - 1].node.mode == 0
    ensures Stage(items, |items|, k - 1, m) && Finishable(items, endings, k - 1) && Contained(items, m)
  {
    var x := k - 1;
    assert Made(items, |items|, k, x);
    assert m[items[x].path := Final(items[x].node)] == m;
    ModeApplied(items, k, m);
  }

  /** When ancestors are listed first, as the encoder lists them, no directory is ever closed too early. */
  lemma AncestorsFirstIsFinishable(items: seq<Item>, endings: seq<Ending>, x: nat)
    requires AncestorsFirst(items) && x < |items| == |endings|
    requires items[x].node.LinkNode? ==> !HasNul(items[x].path) && endings[x].Bare?
    ensures Finishable(items, endings, x)
  {
  }

  /** Nor does any order of listing do harm while all directories admit their owner in the end. */
  lemma OpenDirectoriesAreFinishable(items: seq<Item>, endings: seq<Ending>, x: nat)
    requires forall j :: 0 <= j < |items| && items[j].node.DirNode? ==>
               Searchable(Final(items[j].node)) && Writable(Final(items[j].node))
    requires Extractable(items) && x < |items| == |endings|
    requires items[x].node.LinkNode? ==> !HasNul(items[x].path) && endings[x].Bare?
    ensures Finishable(items, endings, x)
  {
  }

  // ---------------------------------------------------------------------------
  // Looking for a root in the end
  // ---------------------------------------------------------------------------

  /** A path that names item `x` finds it: nothing above is closed, and what follows the name is right for its kind. */
  ghost predicate Found(items: seq<Item>, links: Links, m: Files, x: nat, ending: Ending)
    requires x < |items|
  {
    && !HasNul(items[x].path) && WayStaysSearchable(items, 0, x)
    && match items[x].node
       case FileNode(_, _) => ending.Bare?
       case DirNode(_) => ending.Dotted? ==> Searchable(Final(items[x].node))
       case LinkNode(_) => !ending.Bare? ==> links(m, items[x].path, [])
  }

  lemma PresentExactlyWhen(items: seq<Item>, links: Links, m: Files, x: nat, ending: Ending)
    requires Extractable(items) && x < |items| && Stage(items, |items|, 0, m)
    ensures Present(m, links, FsPath(items[x].path, ending)) <==> Found(items, links, m, x, ending)
  {
    var p := items[x].path;
    assert Made(items, |items|, 0, x);
    WayIsClear(items, |items|, 0, m, x);
    StageIsRooted(items, |items|, 0, m, p);
    SearchableExactlyWhen(items, 0, x, m);
    assert p[..|p|] == p;
    LeadsThroughDirectories(m, links, p, 0);
  }
}

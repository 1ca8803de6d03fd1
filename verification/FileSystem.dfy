/** The directory that receives a bundle, and the system calls made on the paths below it. */
module FileSystem {
  import opened Wrappers
  import opened Bytes
  import opened Paths
  import opened FileTree

  /** Every existing path below the destination, which itself is the empty path and stays open to its owner. */
  type Files = map<Path, Node>

  datatype FsError = Exists | NotADirectory | IsADirectory | Missing | ThroughLink | Denied | InvalidInput

  const DEFAULT_DIR: nat := 493    // 0o755
  const DEFAULT_FILE: nat := 420   // 0o644

  predicate Searchable(n: Node) { n.DirNode? && n.mode / 64 % 2 == 1 }
  predicate Writable(n: Node) { n.DirNode? && n.mode / 128 % 2 == 1 }

  /** They are the owner's bits: 0o100 and 0o200. */
  lemma OwnersBitsDecide(mode: nat)
    ensures Searchable(DirNode(mode)) <==> mode % 128 >= 64
    ensures Writable(DirNode(mode)) <==> mode % 256 >= 128
  {
    BitDecides(mode, 64);
    BitDecides(mode, 128);
  }

  lemma BitDecides(mode: nat, bit: nat)
    requires bit == 64 || bit == 128
    ensures mode / bit % 2 == 1 <==> mode % (2 * bit) >= bit
  {
    var half := mode / bit / 2;
    assert mode == 2 * bit * half + bit * (mode / bit % 2) + mode % bit;
  }

  // ---------------------------------------------------------------------------
  // Calls
  // ---------------------------------------------------------------------------

  /** A system call on several directories may fail after it has made some of them. */
  datatype Effect = Effect(files: Files, error: Option<FsError>)

  /** What keeps a path from being resolved through its first `length` components. */
  function Obstacle(m: Files, p: Path, length: nat): Option<FsError>
    requires length <= |p|
  {
    if length == 0 then None
    else if Obstacle(m, p, length - 1).Some? then Obstacle(m, p, length - 1)
    else if p[..length] !in m then Some(Missing)
    else if m[p[..length]].LinkNode? then Some(ThroughLink)
    else if m[p[..length]].FileNode? then Some(NotADirectory)
    else if !Searchable(m[p[..length]]) then Some(Denied)
    else None
  }

  /** A new entry in an existing, open directory. */
  function Create(m: Files, p: Path, node: Node): Result<Files, FsError>
    requires p != []
  {
    var parent := p[..|p| - 1];
    if Obstacle(m, p, |p| - 1).Some? then Err(Obstacle(m, p, |p| - 1).value)
    else if p in m then Err(Exists)
    else if parent != [] && !Writable(m[parent]) then Err(Denied)
    else Ok(m[p := node])
  }

  /** Resolving a path that ends in a dot enters its last component, and then finds that it exists. */
  function Entered(m: Files, p: Path): FsError {
    if Obstacle(m, p, |p|).Some? then Obstacle(m, p, |p|).value else Exists
  }

  /** `mkdir`: a trailing slash does not matter. */
  function Mkdir(m: Files, a: FsPath): Result<Files, FsError>
    requires a.names != []
  {
    if HasNul(a.names) then Err(InvalidInput)
    else if a.ending.Dotted? then Err(Entered(m, a.names))
    else Create(m, a.names, DirNode(DEFAULT_DIR))
  }

  predicate IsDir(m: Files, a: FsPath) {
    || a.names == []
    || (&& !HasNul(a.names) && Obstacle(m, a.names, |a.names| - 1).None?
        && a.names in m && m[a.names].DirNode? && (a.ending.Dotted? ==> Searchable(m[a.names])))
  }

  /** `create_dir_all`: makes the directories above only if it has to; an existing directory is fine. */
  function CreateDirAll(m: Files, a: FsPath): Effect
    decreases |a.names|
  {
    if a.names == [] then Effect(m, None)
    else
      match Mkdir(m, a)
      case Ok(r) => Effect(r, None)
      case Err(e) =>
        if e != Missing then Effect(m, if IsDir(m, a) then None else Some(e))
        else
          var above := CreateDirAll(m, Parent(a));
          if above.error.Some? then above
          else
            match Mkdir(above.files, a)
            case Ok(r) => Effect(r, None)
            case Err(e) => Effect(above.files, if IsDir(above.files, a) then None else Some(e))
  }

  /** `open` with create-new: a path that ends in a slash names no file. */
  function OpenNew(m: Files, a: FsPath, data: seq<byte>): Result<Files, FsError>
    requires a.names != []
  {
    if HasNul(a.names) then Err(InvalidInput)
    else if a.ending.Dotted? then Err(Entered(m, a.names))
    else if a.ending.Slashed? then
      Err(if Obstacle(m, a.names, |a.names| - 1).Some? then Obstacle(m, a.names, |a.names| - 1).value else IsADirectory)
    else Create(m, a.names, FileNode(data, DEFAULT_FILE))
  }

  /** `symlink`: with a slash at the end, the link would have to exist already. */
  function MakeLink(m: Files, a: FsPath, target: Text): Result<Files, FsError>
    requires a.names != []
  {
    if HasNul(a.names) then Err(InvalidInput)
    else if a.ending.Dotted? then Err(Entered(m, a.names))
    else if a.ending.Slashed? then
      Err(if Obstacle(m, a.names, |a.names| - 1).Some? then Obstacle(m, a.names, |a.names| - 1).value
          else if a.names in m then Exists else Missing)
    else Create(m, a.names, LinkNode(target))
  }

  /** The directories above, then the file. */
  function MakeFile(m: Files, a: FsPath, data: seq<byte>): Effect
    requires a.names != []
  {
    var above := CreateDirAll(m, Parent(a));
    if above.error.Some? then above
    else
      match OpenNew(above.files, a, data)
      case Ok(r) => Effect(r, None)
      case Err(e) => Effect(above.files, Some(e))
  }

  /** The directories above, then the link. */
  function PlaceLink(m: Files, a: FsPath, target: Text): Effect
    requires a.names != []
  {
    var above := CreateDirAll(m, Parent(a));
    if above.error.Some? then above
    else
      match MakeLink(above.files, a, target)
      case Ok(r) => Effect(r, None)
      case Err(e) => Effect(above.files, Some(e))
  }

  lemma OpensWhenBare(m: Files, a: FsPath, data: seq<byte>)
    requires a.names != []
    ensures OpenNew(m, a, data).Ok? ==> OpenNew(m, a, data) == Create(m, a.names, FileNode(data, DEFAULT_FILE))
    ensures OpenNew(m, a, data).Ok? <==>
              !HasNul(a.names) && a.ending.Bare? && Create(m, a.names, FileNode(data, DEFAULT_FILE)).Ok?
    ensures Create(m, a.names, FileNode(data, DEFAULT_FILE)).Ok? && OpenNew(m, a, data).Err? ==>
              OpenNew(m, a, data).error ==
              if HasNul(a.names) then InvalidInput else if a.ending.Slashed? then IsADirectory else Missing
  {
    assert a.names[..|a.names|] == a.names;
  }

  lemma LinksWhenBare(m: Files, a: FsPath, target: Text)
    requires a.names != []
    ensures !HasNul(a.names) && a.ending.Bare? ==> MakeLink(m, a, target) == Create(m, a.names, LinkNode(target))
    ensures MakeLink(m, a, target).Ok? <==>
              !HasNul(a.names) && a.ending.Bare? && Create(m, a.names, LinkNode(target)).Ok?
  {
  }

  function WithMode(n: Node, mode: nat): Node {
    match n
    case FileNode(data, _) => FileNode(data, mode)
    case DirNode(_) => DirNode(mode)
    case LinkNode(_) => n
  }

  /** `chmod`. */
  function SetMode(m: Files, a: FsPath, mode: nat): Result<Files, FsError>
    requires a.names != []
  {
    var p := a.names;
    if HasNul(p) then Err(InvalidInput)
    else if Obstacle(m, p, |p| - 1).Some? then Err(Obstacle(m, p, |p| - 1).value)
    else if p !in m then Err(Missing)
    else if m[p].LinkNode? then Err(ThroughLink)
    else if m[p].FileNode? && !a.ending.Bare? then Err(NotADirectory)
    else if a.ending.Dotted? && !Searchable(m[p]) then Err(Denied)
    else Ok(m[p := WithMode(m[p], mode)])
  }

  /** Whether what a link leads to exists: `through` and `rest` are the link and the components after it. */
  type Links = (Files, Path, Path) -> bool

  /** The way to the component after the first `length` ones, following links wherever they may lead. */
  function Leads(m: Files, links: Links, p: Path, length: nat): bool
    requires length < |p|
    decreases |p| - length
  {
    var here := p[..length + 1];
    if here !in m then false
    else if m[here].LinkNode? then length + 1 == |p| || links(m, here, p[length + 1..])
    else if length + 1 == |p| then true
    else Searchable(m[here]) && Leads(m, links, p, length + 1)
  }

  /** `symlink_metadata` succeeds: a link at the end is not followed, unless a slash or a dot comes after it. */
  predicate Present(m: Files, links: Links, a: FsPath) {
    && a.names != [] && !HasNul(a.names) && Leads(m, links, a.names, 0)
    && (!a.ending.Bare? && a.names in m ==>
          match m[a.names]
          case FileNode(_, _) => false
          case DirNode(_) => a.ending.Slashed? || Searchable(m[a.names])
          case LinkNode(_) => links(m, a.names, []))
  }

  // ---------------------------------------------------------------------------
  // Ways that lead through directories
  // ---------------------------------------------------------------------------

  /** The first `length` components lead through directories, as far as they exist. */
  ghost predicate DirsTo(m: Files, p: Path, length: nat)
    requires length <= |p|
  {
    forall k :: 1 <= k <= length && p[..k] in m ==> m[p[..k]].DirNode?
  }

  /** None of those directories refuses its owner. */
  ghost predicate OpenTo(m: Files, p: Path, length: nat)
    requires length <= |p|
  {
    forall k :: 1 <= k <= length && p[..k] in m ==> Searchable(m[p[..k]]) && Writable(m[p[..k]])
  }

  ghost predicate SearchableTo(m: Files, p: Path, length: nat)
    requires length <= |p|
  {
    forall k :: 1 <= k <= length && p[..k] in m ==> Searchable(m[p[..k]])
  }

  /** Whatever exists on the way has everything above it. */
  ghost predicate Rooted(m: Files, p: Path) {
    forall k, l {:trigger p[..k], p[..l]} :: 1 <= k <= l <= |p| && p[..l] in m ==> p[..k] in m
  }

  /** How many components of the way to `p`, itself not counted, exist. */
  function Reach(m: Files, p: Path): (length: nat)
    requires p != []
    ensures length < |p| && (length > 0 ==> p[..length] in m)
  {
    if |p| == 1 || p[..|p| - 1] in m then |p| - 1
    else
      assert forall l :: 0 <= l < |p| ==> p[..|p| - 1][..l] == p[..l];
      Reach(m, p[..|p| - 1])
  }

  /** The deepest existing directory above `p` and those above it admit their owner. */
  ghost predicate Admitted(m: Files, p: Path)
    requires p != []
  {
    SearchableTo(m, p, |p| - 1) && (Reach(m, p) > 0 ==> Writable(m[p[..Reach(m, p)]]))
  }

  /** `r` is `m` with some missing directories on the way to `p`. */
  ghost predicate Grown(m: Files, p: Path, r: Files) {
    && (forall q :: q in m ==> q in r && r[q] == m[q])
    && (forall q :: q in r && q !in m ==> r[q] == DirNode(DEFAULT_DIR) && q != [] && q <= p)
  }

  /** `r` is `m` with all missing directories down to `p`. */
  ghost predicate Extends(m: Files, p: Path, r: Files) {
    Grown(m, p, r) && forall k :: 1 <= k <= |p| ==> p[..k] in r
  }

  lemma {:induction false} ObstacleOnTheWay(m: Files, p: Path, length: nat)
    requires length <= |p| && DirsTo(m, p, length) && Rooted(m, p)
    ensures Obstacle(m, p, length) == None || Obstacle(m, p, length) == Some(Denied) ||
            Obstacle(m, p, length) == Some(Missing)
    ensures Obstacle(m, p, length) == None <==> SearchableTo(m, p, length) && (length > 0 ==> p[..length] in m)
    ensures Obstacle(m, p, length) == Some(Missing) <==> SearchableTo(m, p, length) && length > 0 && p[..length] !in m
  {
    if length > 0 {
      ObstacleOnTheWay(m, p, length - 1);
      assert p[..length] in m && length > 1 ==> p[..length - 1] in m;
    }
  }

  lemma Shorter(m: Files, p: Path)
    requires p != []
    ensures var above := p[..|p| - 1];
            && (forall l :: 0 <= l < |p| ==> above[..l] == p[..l])
            && (DirsTo(m, p, |p| - 1) ==> DirsTo(m, above, |above|))
            && (Rooted(m, p) ==> Rooted(m, above))
            && (SearchableTo(m, p, |p| - 1) <==> SearchableTo(m, above, |above|))
  {
    var above := p[..|p| - 1];
    assert forall l :: 0 <= l < |p| ==> above[..l] == p[..l];
  }

  lemma {:induction false} ReachStops(m: Files, p: Path)
    requires p != [] && Rooted(m, p)
    ensures forall l :: Reach(m, p) < l < |p| ==> p[..l] !in m
  {
    if |p| > 1 && p[..|p| - 1] !in m {
      Shorter(m, p);
      ReachStops(m, p[..|p| - 1]);
    }
  }

  /** A single new entry is refused only for lack of permission or of a directory to hold it. */
  lemma CreateOnTheWay(m: Files, p: Path, node: Node)
    requires p != [] && p !in m && DirsTo(m, p, |p| - 1) && Rooted(m, p)
    requires |p| == 1 || p[..|p| - 1] in m
    ensures Create(m, p, node) == if Admitted(m, p) then Ok(m[p := node]) else Err(Denied)
  {
    ObstacleOnTheWay(m, p, |p| - 1);
  }

  /** With nothing directly above it, a path is as accessible as what is above it. */
  lemma AdmittedAbove(m: Files, p: Path)
    requires |p| > 1 && p[..|p| - 1] !in m
    ensures Admitted(m, p) <==> Admitted(m, p[..|p| - 1])
  {
    var above := p[..|p| - 1];
    Shorter(m, p);
    assert above[..|above|] == above;
    assert SearchableTo(m, p, |p| - 1) <==> SearchableTo(m, above, |above| - 1) by {
      Shorter(m, above);
    }
  }

  lemma MadeAbove(m: Files, p: Path, above: Files)
    requires p != [] && p !in m && DirsTo(m, p, |p| - 1) && Rooted(m, p) && SearchableTo(m, p, |p| - 1)
    requires |p| > 1 && p[..|p| - 1] !in m && Extends(m, p[..|p| - 1], above)
    ensures p !in above && DirsTo(above, p, |p| - 1) && Rooted(above, p)
    ensures Admitted(above, p) && Create(above, p, DirNode(DEFAULT_DIR)) == Ok(above[p := DirNode(DEFAULT_DIR)])
    ensures Extends(m, p, above[p := DirNode(DEFAULT_DIR)])
  {
    Shorter(m, p);
    var up := p[..|p| - 1];
    assert up[..|up|] == up && p[..|p|] == p;
    forall k | 1 <= k < |p| ensures p[..k] in above && above[p[..k]].DirNode? && Searchable(above[p[..k]]) {
      assert up[..k] == p[..k];
    }
    assert above[up] == DirNode(DEFAULT_DIR);
    CreateOnTheWay(above, p, DirNode(DEFAULT_DIR));
  }

  /** A directory whose parent exists. */
  lemma CreateDirHere(m: Files, p: Path)
    requires p != [] && DirsTo(m, p, |p|) && Rooted(m, p) && !HasNul(p) && (|p| == 1 || p[..|p| - 1] in m)
    ensures var e := CreateDirAll(m, FsPath(p, Bare));
            if p in m then e == Effect(m, if SearchableTo(m, p, |p| - 1) then None else Some(Denied))
            else e == if Admitted(m, p) then Effect(m[p := DirNode(DEFAULT_DIR)], None) else Effect(m, Some(Denied))
  {
    assert p[..|p|] == p;
    ObstacleOnTheWay(m, p, |p| - 1);
    if p !in m { CreateOnTheWay(m, p, DirNode(DEFAULT_DIR)); }
  }

  lemma BareUnfolds(m: Files, p: Path)
    requires p != [] && p !in m && !HasNul(p) && Obstacle(m, p, |p| - 1).Some?
    ensures CreateDirAll(m, FsPath(p, Bare)) ==
            if Obstacle(m, p, |p| - 1) != Some(Missing) then Effect(m, Obstacle(m, p, |p| - 1))
            else
              var above := CreateDirAll(m, FsPath(p[..|p| - 1], Bare));
              if above.error.Some? then above
              else
                match Create(above.files, p, DirNode(DEFAULT_DIR))
                case Ok(r) => Effect(r, None)
                case Err(e) => Effect(above.files, if IsDir(above.files, FsPath(p, Bare)) then None else Some(e))
  {
  }

  lemma NulAbove(p: Path)
    requires p != []
    ensures HasNul(p[..|p| - 1]) ==> HasNul(p)
  {
    assert forall i :: 0 <= i < |p| - 1 ==> p[..|p| - 1][i] == p[i];
  }

  /** All directories down to `p`: possible exactly when the deepest existing one admits its owner. */
  lemma {:induction false} CreateDirAllIsAllowed(m: Files, p: Path)
    requires DirsTo(m, p, |p|) && Rooted(m, p) && !HasNul(p)
    ensures var e := CreateDirAll(m, FsPath(p, Bare));
            && (e.error.None? <==> p == [] || (if p in m then SearchableTo(m, p, |p| - 1) else Admitted(m, p)))
            && (e.error.Some? ==> e.error == Some(Denied))
            && Grown(m, p, e.files) && (e.error.None? ==> Extends(m, p, e.files))
    decreases |p|
  {
    if p != [] {
      var above := p[..|p| - 1];
      assert p[..|p|] == p;
      if |p| == 1 || above in m {
        CreateDirHere(m, p);
      } else {
        Shorter(m, p);
        ObstacleOnTheWay(m, p, |p| - 1);
        BareUnfolds(m, p);
        NulAbove(p);
        CreateDirAllIsAllowed(m, above);
        AdmittedAbove(m, p);
        var e := CreateDirAll(m, FsPath(above, Bare));
        if SearchableTo(m, p, |p| - 1) && e.error.None? { MadeAbove(m, p, e.files); }
      }
    }
  }

  lemma SlashMakesNoDifference(m: Files, p: Path)
    ensures CreateDirAll(m, FsPath(p, Slashed)) == CreateDirAll(m, FsPath(p, Bare))
  {
  }

  lemma NulIsRefused(m: Files, a: FsPath)
    requires HasNul(a.names)
    ensures CreateDirAll(m, a) == Effect(m, Some(InvalidInput))
  {
  }

  lemma MissingBelow(m: Files, p: Path)
    requires p != [] && p !in m
    ensures Obstacle(m, p, |p|).Some? && !IsDir(m, FsPath(p, Dotted))
    ensures (forall k :: 1 <= k < |p| ==> p[..k] in m && m[p[..k]].DirNode? && Searchable(m[p[..k]])) ==>
              Obstacle(m, p, |p|) == Some(Missing)
  {
    assert p[..|p|] == p;
    if forall k :: 1 <= k < |p| ==> p[..k] in m && m[p[..k]].DirNode? && Searchable(m[p[..k]]) {
      NoObstacle(m, p, |p| - 1);
    }
  }

  lemma {:induction false} NoObstacle(m: Files, p: Path, length: nat)
    requires length <= |p| && forall k :: 1 <= k <= length ==>
             p[..k] in m && m[p[..k]].DirNode? && Searchable(m[p[..k]])
    ensures Obstacle(m, p, length) == None
  {
    if length > 0 { NoObstacle(m, p, length - 1); }
  }

  lemma DottedIsEntered(m: Files, p: Path)
    requires p != [] && p in m && DirsTo(m, p, |p|) && Rooted(m, p) && OpenTo(m, p, |p|) && !HasNul(p)
    ensures CreateDirAll(m, FsPath(p, Dotted)) == Effect(m, None)
  {
    assert p[..|p|] == p;
    ObstacleOnTheWay(m, p, |p|);
    ObstacleOnTheWay(m, p, |p| - 1);
  }

  lemma GrownStaysOpen(m: Files, p: Path, above: Path, r: Files)
    requires p != [] && above == p[..|p| - 1] && p !in m && DirsTo(m, p, |p|) && OpenTo(m, p, |p|) &&
             Extends(m, above, r)
    ensures p !in r && forall k :: 1 <= k < |p| ==> p[..k] in r && r[p[..k]].DirNode? && Searchable(r[p[..k]])
  {
    forall k | 1 <= k < |p| ensures p[..k] in r && r[p[..k]].DirNode? && Searchable(r[p[..k]]) {
      assert above[..k] == p[..k];
    }
  }

  /** Where everything on the way is open, all of it can be made. */
  lemma OpenIsAllowed(m: Files, p: Path)
    requires p != [] && DirsTo(m, p, |p| - 1) && Rooted(m, p) && OpenTo(m, p, |p| - 1) && !HasNul(p[..|p| - 1])
    ensures Admitted(m, p)
    ensures var e := CreateDirAll(m, FsPath(p[..|p| - 1], Bare)); e.error.None? && Extends(m, p[..|p| - 1], e.files)
  {
    var above := p[..|p| - 1];
    Shorter(m, p);
    assert above[..|above|] == above;
    CreateDirAllIsAllowed(m, above);
    if |p| > 1 && above !in m { AdmittedAbove(m, p); }
  }

  lemma OpenToItself(m: Files, p: Path)
    requires p != [] && OpenTo(m, p, |p| - 1) && (p in m ==> m[p] == DirNode(DEFAULT_DIR))
    ensures OpenTo(m, p, |p|)
  {
    assert p[..|p|] == p;
  }

  lemma DottedUnfolds(m: Files, p: Path, above: Files)
    requires p != [] && !HasNul(p) && Obstacle(m, p, |p|) == Some(Missing)
    requires CreateDirAll(m, FsPath(p[..|p| - 1], Bare)) == Effect(above, None)
    requires Obstacle(above, p, |p|) == Some(Missing) && p !in above
    ensures CreateDirAll(m, FsPath(p, Dotted)) == Effect(above, Some(Missing))
  {
  }

  lemma DottedIsMissing(m: Files, p: Path)
    requires p != [] && p !in m && DirsTo(m, p, |p|) && Rooted(m, p) && OpenTo(m, p, |p|) && !HasNul(p)
    ensures var e := CreateDirAll(m, FsPath(p, Dotted)); e.error == Some(Missing) && Grown(m, p, e.files)
  {
    var above := p[..|p| - 1];
    assert p[..|p|] == p;
    NulAbove(p);
    OpenIsAllowed(m, p);
    ObstacleOnTheWay(m, p, |p|);
    var up := CreateDirAll(m, FsPath(above, Bare));
    GrownStaysOpen(m, p, above, up.files);
    MissingBelow(up.files, p);
    DottedUnfolds(m, p, up.files);
  }

  /** A path that ends in a dot must exist already, or only what is above it is made. */
  lemma DottedMustExist(m: Files, p: Path)
    requires p != [] && DirsTo(m, p, |p|) && Rooted(m, p) && OpenTo(m, p, |p|) && !HasNul(p)
    ensures var e := CreateDirAll(m, FsPath(p, Dotted));
            if p in m then e == Effect(m, None) else e.error == Some(Missing) && Grown(m, p, e.files)
  {
    if p in m { DottedIsEntered(m, p); } else { DottedIsMissing(m, p); }
  }

  /** The directories above, then a new entry: possible exactly when the deepest existing one admits its owner. */
  lemma EntryIsAllowed(m: Files, p: Path, node: Node)
    requires p != [] && p !in m && DirsTo(m, p, |p| - 1) && Rooted(m, p) && !HasNul(p[..|p| - 1])
    ensures var e := CreateDirAll(m, FsPath(p[..|p| - 1], Bare));
            && Grown(m, p, e.files) && p !in e.files
            && (e.error.Some? ==> e.error == Some(Denied) && !Admitted(m, p))
            && (e.error.None? ==>
                  && Extends(m, p[..|p| - 1], e.files)
                  && Create(e.files, p, node) == if Admitted(m, p) then Ok(e.files[p := node]) else Err(Denied))
  {
    var above := p[..|p| - 1];
    Shorter(m, p);
    assert above[..|above|] == above;
    CreateDirAllIsAllowed(m, above);
    var e := CreateDirAll(m, FsPath(above, Bare));
    if |p| > 1 && above !in m {
      AdmittedAbove(m, p);
      if e.error.None? {
        MadeAbove(m, p, e.files);
        CreateOnTheWay(e.files, p, node);
      }
    } else {
      NothingToMake(m, above);
      CreateOnTheWay(m, p, node);
    }
  }

  lemma NothingToMake(m: Files, p: Path)
    requires p == [] || p in m
    requires DirsTo(m, p, |p|) && Rooted(m, p) && !HasNul(p)
    ensures CreateDirAll(m, FsPath(p, Bare)).files == m
    ensures p != [] ==> (CreateDirAll(m, FsPath(p, Bare)).error.None? <==> SearchableTo(m, p, |p| - 1))
  {
    if p != [] {
      assert p[..|p|] == p;
      ObstacleOnTheWay(m, p, |p| - 1);
    }
  }

  /** Without links on the way, a path is followed through directories that admit their owner. */
  lemma {:induction false} LeadsThroughDirectories(m: Files, links: Links, p: Path, length: nat)
    requires length < |p| && p in m && Rooted(m, p) && DirsTo(m, p, |p| - 1)
    ensures Leads(m, links, p, length) <==> forall k :: length < k < |p| ==> p[..k] in m && Searchable(m[p[..k]])
    decreases |p| - length
  {
    assert p[..|p|] == p;
    assert p[..length + 1] in m;
    if length + 1 < |p| { LeadsThroughDirectories(m, links, p, length + 1); }
  }

  /** The directory a path lies in is there and can be looked at, or can be made. */
  ghost predicate HasParent(m: Files, p: Path)
    requires p != []
  {
    var above := p[..|p| - 1];
    above == [] || if above in m then SearchableTo(m, above, |above| - 1) else Admitted(m, p)
  }

  /** Along the way to a path that does not exist, either a directory is closed or all of it can be entered. */
  lemma ParentIsMade(m: Files, p: Path)
    requires p != [] && p !in m && DirsTo(m, p, |p| - 1) && Rooted(m, p) && !HasNul(p[..|p| - 1])
    ensures var e := CreateDirAll(m, FsPath(p[..|p| - 1], Bare));
            && p !in e.files && e.error == (if HasParent(m, p) then None else Some(Denied))
            && (e.error.None? ==>
                  Obstacle(e.files, p, |p| - 1) == if SearchableTo(m, p, |p| - 1) then None else Some(Denied))
  {
    var above := p[..|p| - 1];
    var e := CreateDirAll(m, FsPath(above, Bare));
    Shorter(m, p);
    assert above[..|above|] == above;
    CreateDirAllIsAllowed(m, above);
    if |p| > 1 && above !in m {
      AdmittedAbove(m, p);
      if e.error.None? {
        MadeAbove(m, p, e.files);
        ObstacleOnTheWay(e.files, p, |p| - 1);
      }
    } else {
      NothingToMake(m, above);
      ObstacleOnTheWay(m, p, |p| - 1);
    }
  }

  /** How a link is refused: the first thing in its way. */
  ghost function LinkError(m: Files, a: FsPath): FsError
    requires a.names != []
  {
    var p := a.names;
    if HasNul(p[..|p| - 1]) then InvalidInput
    else if !HasParent(m, p) then Denied
    else if HasNul(p) then InvalidInput
    else if a.ending.Bare? || !SearchableTo(m, p, |p| - 1) then Denied
    else Missing
  }

  lemma MakeLinkError(m: Files, a: FsPath, target: Text)
    requires a.names != [] && a.names !in m && Obstacle(m, a.names, |a.names| - 1) in {None, Some(Denied)}
    ensures MakeLink(m, a, target).Err? ==>
              MakeLink(m, a, target).error ==
              if HasNul(a.names) then InvalidInput
              else if a.ending.Bare? || Obstacle(m, a.names, |a.names| - 1).Some? then Denied
              else Missing
  {
    assert a.names[..|a.names|] == a.names;
  }

  lemma LinkIsRefused(m: Files, a: FsPath, target: Text)
    requires var p := a.names; p != [] && p !in m && DirsTo(m, p, |p| - 1) && Rooted(m, p)
    ensures PlaceLink(m, a, target).error in {None, Some(LinkError(m, a))}
  {
    var p := a.names;
    var above := p[..|p| - 1];
    if HasNul(above) {
      NulIsRefused(m, FsPath(above, Bare));
    } else {
      ParentIsMade(m, p);
      if HasParent(m, p) { MakeLinkError(CreateDirAll(m, FsPath(above, Bare)).files, a, target); }
    }
  }
}

/** The bundle format: a manifest, its validation, and the encoder. */
module Bundle {
  import opened Wrappers
  import opened Bytes
  import opened Paths

  datatype EntryKind = AFile | ADirectory | ASymlink

  datatype Entry = Entry(path: Text, kind: EntryKind, size: u64, mode: u32, linkTarget: Option<Text>)

  datatype Manifest = Manifest(roots: seq<Text>, entries: seq<Entry>)

  const MAGIC: seq<byte> := [83, 67, 66, 70, 49]  // "SCBF1"
  const MAX_MANIFEST: nat := 16 * 1024 * 1024
  const CLIPBOARD_FILE: Text := [99, 108, 105, 112, 98, 111, 97, 114, 100, 45, 102, 105, 108, 101]  // "clipboard-file"

  // ---------------------------------------------------------------------------
  // The manifest as bytes
  // ---------------------------------------------------------------------------

  function KindTag(kind: EntryKind): nat {
    match kind
    case AFile => 0
    case ADirectory => 1
    case ASymlink => 2
  }

  function PutEntry(e: Entry): seq<byte> {
    PutText(e.path) + (PutNat(KindTag(e.kind)) + (PutNat(e.size) + (PutNat(e.mode) + PutOption(PutText, e.linkTarget))))
  }

  function ParseKind(b: seq<byte>): Parsed<EntryKind> {
    match ParseNat(b)
    case Got(0, rest) => Got(AFile, rest)
    case Got(1, rest) => Got(ADirectory, rest)
    case Got(2, rest) => Got(ASymlink, rest)
    case _ => NoParse
  }

  function ParseTarget(path: Text, kind: EntryKind, size: u64, mode: u32, b: seq<byte>): Parsed<Entry> {
    match ParseOption(ParseText, b)
    case NoParse => NoParse
    case Got(target, rest) => Got(Entry(path, kind, size, mode, target), rest)
  }

  function ParseNumbers(path: Text, kind: EntryKind, b: seq<byte>): Parsed<Entry> {
    match ParseBounded(U64_MAX, b)
    case NoParse => NoParse
    case Got(size, b1) =>
      match ParseBounded(U32_MAX, b1)
      case NoParse => NoParse
      case Got(mode, b2) => ParseTarget(path, kind, size, mode, b2)
  }

  function ParseEntry(b: seq<byte>): Parsed<Entry> {
    match ParseText(b)
    case NoParse => NoParse
    case Got(path, b1) =>
      match ParseKind(b1)
      case NoParse => NoParse
      case Got(kind, b2) => ParseNumbers(path, kind, b2)
  }

  lemma EntryInverts()
    ensures Inverts(PutEntry, ParseEntry)
  {
    TextInverts();
    forall e: Entry, rest: seq<byte> ensures ParseEntry(PutEntry(e) + rest) == Got(e, rest) {
      EntryRoundTrip(e, rest);
    }
  }

  lemma NumbersRoundTrip(e: Entry, rest: seq<byte>)
    ensures ParseNumbers(e.path, e.kind, PutNat(e.size) + (PutNat(e.mode) + (PutOption(PutText, e.linkTarget) + rest)))
            == Got(e, rest)
  {
    TextInverts();
    var target := PutOption(PutText, e.linkTarget) + rest;
    NatRoundTrip(e.size, PutNat(e.mode) + target);
    NatRoundTrip(e.mode, target);
    OptionRoundTrip(PutText, ParseText, e.linkTarget, rest);
  }

  lemma EntryRoundTrip(e: Entry, rest: seq<byte>)
    ensures ParseEntry(PutEntry(e) + rest) == Got(e, rest)
  {
    var target := PutOption(PutText, e.linkTarget);
    var mode := PutNat(e.mode) + target;
    var size := PutNat(e.size) + mode;
    var kind := PutNat(KindTag(e.kind)) + size;
    Associate(PutText(e.path), kind, rest);
    Associate(PutNat(KindTag(e.kind)), size, rest);
    Associate(PutNat(e.size), mode, rest);
    Associate(PutNat(e.mode), target, rest);
    TextRoundTrip(e.path, kind + rest);
    NatRoundTrip(KindTag(e.kind), size + rest);
    assert ParseKind(kind + rest) == Got(e.kind, size + rest);
    NumbersRoundTrip(e, rest);
  }

  function PutManifest(m: Manifest): (b: seq<byte>)
    ensures b != []
  {
    PutSeq(PutText, m.roots) + PutSeq(PutEntry, m.entries)
  }

  /** The whole header must be the manifest. */
  function ParseManifest(b: seq<byte>): Option<Manifest> {
    match ParseSeq(ParseText, b)
    case NoParse => None
    case Got(roots, b1) =>
      match ParseSeq(ParseEntry, b1)
      case NoParse => None
      case Got(entries, b2) => if b2 == [] then Some(Manifest(roots, entries)) else None
  }

  lemma ManifestRoundTrip(m: Manifest)
    ensures ParseManifest(PutManifest(m)) == Some(m)
  {
    TextInverts();
    EntryInverts();
    var b1 := PutSeq(PutEntry, m.entries);
    SeqRoundTrip(PutText, ParseText, m.roots, b1);
    SeqRoundTrip(PutEntry, ParseEntry, m.entries, []);
    assert b1 + [] == b1;
  }

  // ---------------------------------------------------------------------------
  // Validation
  // ---------------------------------------------------------------------------

  predicate Safe(path: Text) { SafeRelative(path).Some? }

  function PathOf(e: Entry): Path
    requires Safe(e.path)
  {
    SafeRelative(e.path).value
  }

  predicate GoodTarget(e: Entry) {
    e.kind.ASymlink? ==> e.linkTarget.Some? && e.linkTarget.value != [] && 0 !in e.linkTarget.value
  }

  predicate AllSafe(entries: seq<Entry>) {
    forall i :: 0 <= i < |entries| ==> Safe(entries[i].path)
  }

  /** No two entries share a path, nothing lies below a non-directory, links point somewhere, roots are listed. */
  ghost predicate Valid(m: Manifest) {
    && AllSafe(m.entries)
    && (forall i :: 0 <= i < |m.entries| ==> GoodTarget(m.entries[i]))
    && (forall i, j :: 0 <= i < j < |m.entries| ==> PathOf(m.entries[i]) != PathOf(m.entries[j]))
    && (forall i, j :: 0 <= i < |m.entries| && 0 <= j < |m.entries| && PathOf(m.entries[i]) < PathOf(m.entries[j]) ==>
          m.entries[i].kind.ADirectory?)
    && (forall r :: 0 <= r < |m.roots| ==> Safe(m.roots[r]) && Listed(m.entries, SafeRelative(m.roots[r]).value))
  }

  ghost predicate Listed(entries: seq<Entry>, p: Path)
    requires AllSafe(entries)
  {
    exists i :: 0 <= i < |entries| && PathOf(entries[i]) == p
  }

  /** The paths of the first entries, with their kinds. */
  ghost predicate Indexes(kinds: map<Path, EntryKind>, entries: seq<Entry>)
    requires AllSafe(entries)
  {
    && (forall i :: 0 <= i < |entries| ==> PathOf(entries[i]) in kinds && kinds[PathOf(entries[i])] == entries[i].kind)
    && (forall p :: p in kinds ==> Listed(entries, p))
  }

  /** The first `n` entries are sound and distinct, and indexed. */
  ghost predicate IndexedUpTo(kinds: map<Path, EntryKind>, entries: seq<Entry>, n: nat)
    requires n <= |entries|
  {
    && (forall i :: 0 <= i < n ==> Safe(entries[i].path) && GoodTarget(entries[i]))
    && (forall i, j :: 0 <= i < j < n ==> PathOf(entries[i]) != PathOf(entries[j]))
    && (forall i :: 0 <= i < n ==> PathOf(entries[i]) in kinds && kinds[PathOf(entries[i])] == entries[i].kind)
    && (forall p :: p in kinds ==> exists i :: 0 <= i < n && PathOf(entries[i]) == p)
  }

  lemma IndexNext(kinds: map<Path, EntryKind>, entries: seq<Entry>, n: nat)
    requires n < |entries| && IndexedUpTo(kinds, entries, n) && Safe(entries[n].path) && GoodTarget(entries[n])
    requires PathOf(entries[n]) !in kinds
    ensures IndexedUpTo(kinds[PathOf(entries[n]) := entries[n].kind], entries, n + 1)
  {
    var next := kinds[PathOf(entries[n]) := entries[n].kind];
    forall p | p in next ensures exists i :: 0 <= i < n + 1 && PathOf(entries[i]) == p {
      if p == PathOf(entries[n]) {
        assert PathOf(entries[n]) == p;
      } else {
        var i :| 0 <= i < n && PathOf(entries[i]) == p;
      }
    }
  }

  /** First pass of `validate_entries`: nothing when a path is unsafe or repeated, or a link target bad. */
  method IndexEntries(entries: seq<Entry>) returns (kinds: Option<map<Path, EntryKind>>)
    ensures kinds.Some? <==>
              && AllSafe(entries)
              && (forall i :: 0 <= i < |entries| && entries[i].kind.ASymlink? ==>
                    var target := entries[i].linkTarget; target.Some? && target.value != [] && 0 !in target.value)
              && (forall i, j :: 0 <= i < j < |entries| ==> PathOf(entries[i]) != PathOf(entries[j]))
    ensures kinds.Some? ==> Indexes(kinds.value, entries)
  {
    var found: map<Path, EntryKind> := map[];
    for n := 0 to |entries|
      invariant IndexedUpTo(found, entries, n)
    {
      var e := entries[n];
      if !Safe(e.path) {
        return None;
      }
      var path := PathOf(e);
      if path in found {
        return None;
      }
      if !GoodTarget(e) {
        return None;
      }
      IndexNext(found, entries, n);
      found := found[path := e.kind];
    }
    return Some(found);
  }

  /** Second pass: every listed ancestor of a listed path is a directory. */
  method AncestorsAreDirectories(kinds: map<Path, EntryKind>) returns (ok: bool)
    ensures ok <==> forall p, q :: p in kinds && q in kinds && q < p ==> kinds[q].ADirectory?
  {
    var unchecked := kinds.Keys;
    while unchecked != {}
      invariant unchecked <= kinds.Keys
      invariant forall p, q :: p in kinds && p !in unchecked && q in kinds && q < p ==> kinds[q].ADirectory?
      decreases |unchecked|
    {
      var path :| path in unchecked;
      for length := 0 to |path|
        invariant forall k :: 0 <= k < length && path[..k] in kinds ==> kinds[path[..k]].ADirectory?
      {
        if path[..length] in kinds && !kinds[path[..length]].ADirectory? {
          assert path[..length] < path;
          return false;
        }
      }
      assert forall q :: q < path ==> q == path[..|q|];
      unchecked := unchecked - {path};
    }
    return true;
  }

  /** `validate_entries`: one pass over the entries, one over the paths and their ancestors, one over the roots. */
  method ValidateEntries(m: Manifest) returns (ok: bool)
    ensures ok <==> Valid(m)
  {
    var index := IndexEntries(m.entries);
    if index.None? {
      return false;
    }
    var kinds := index.value;
    ok := AncestorsAreDirectories(kinds);
    if !ok {
      assert exists p, q :: p in kinds && q in kinds && q < p && !kinds[q].ADirectory?;
      return false;
    }
    for r := 0 to |m.roots|
      invariant forall k :: 0 <= k < r ==> Safe(m.roots[k]) && Listed(m.entries, SafeRelative(m.roots[k]).value)
    {
      if !Safe(m.roots[r]) || SafeRelative(m.roots[r]).value !in kinds {
        return false;
      }
    }
    return true;
  }
}

/** Released versions, and how a daemon decides which one it wants. */
module Versions {
  import opened Wrappers
  import opened Bytes
  import opened Texts

  /** Three numeric components, compared in order. */
  datatype Version = Version(major: u64, minor: u64, patch: u64)

  predicate Before(a: Version, b: Version) {
    a.major < b.major || (a.major == b.major && (a.minor < b.minor || (a.minor == b.minor && a.patch < b.patch)))
  }

  /** Digits, with an optional plus sign, of a number that fits 64 bits. */
  function ParseNumber(s: Text): Option<u64> {
    var digits := if s != [] && s[0] == PLUS then s[1..] else s;
    if digits == [] || !AllDigits(digits) || DigitsValue(digits) > U64_MAX then None else Some(DigitsValue(digits))
  }

  function ParseVersion(s: Text): Option<Version> {
    var parts := Split(DOT, s);
    if |parts| != 3 then None
    else if ParseNumber(parts[0]).None? || ParseNumber(parts[1]).None? || ParseNumber(parts[2]).None? then None
    else Some(Version(ParseNumber(parts[0]).value, ParseNumber(parts[1]).value, ParseNumber(parts[2]).value))
  }

  function PrintVersion(v: Version): Text {
    Decimal(v.major) + [DOT] + (Decimal(v.minor) + [DOT] + Decimal(v.patch))
  }

  lemma NumberRoundTrip(n: u64)
    ensures ParseNumber(Decimal(n)) == Some(n)
  {
    DecimalValue(n);
    assert IsDigit(Decimal(n)[0]);
  }

  lemma ThreeParts(a: Text, b: Text, c: Text)
    requires DOT !in a && DOT !in b && DOT !in c
    ensures Split(DOT, a + [DOT] + (b + [DOT] + c)) == [a, b, c]
  {
    SplitFirst(DOT, a, b + [DOT] + c);
    SplitFirst(DOT, b, c);
    SplitFirst(DOT, c, []);
  }

  lemma VersionRoundTrip(v: Version)
    ensures ParseVersion(PrintVersion(v)) == Some(v)
  {
    ThreeParts(Decimal(v.major), Decimal(v.minor), Decimal(v.patch));
    NumberRoundTrip(v.major);
    NumberRoundTrip(v.minor);
    NumberRoundTrip(v.patch);
  }

  /** The candidate is a version, the current one is, and the candidate is later. */
  predicate NewerVersion(current: Text, candidate: Text) {
    && ParseVersion(candidate).Some? && ParseVersion(current).Some?
    && Before(ParseVersion(current).value, ParseVersion(candidate).value)
  }

  /** A printed version is later than another exactly when the first component in which they differ is larger. */
  lemma NewerExactlyWhen(a: Version, b: Version)
    ensures b.major > a.major ==> NewerVersion(PrintVersion(a), PrintVersion(b))
    ensures b.major == a.major && b.minor > a.minor ==> NewerVersion(PrintVersion(a), PrintVersion(b))
    ensures b.major == a.major && b.minor == a.minor && b.patch > a.patch ==>
              NewerVersion(PrintVersion(a), PrintVersion(b))
    ensures NewerVersion(PrintVersion(a), PrintVersion(b)) ==>
              || b.major > a.major
              || (b.major == a.major && (b.minor > a.minor || (b.minor == a.minor && b.patch > a.patch)))
  {
    VersionRoundTrip(a);
    VersionRoundTrip(b);
  }

  /** A number as `u64` reads it: an optional plus sign and at least one digit, leading zeros included. */
  predicate ReadsAsNumber(s: Text) {
    IsNumber(s) || (s != [] && s[0] == 43 && IsNumber(s[1..]))
  }

  predicate IsNumber(s: Text) {
    s != [] && (forall i :: 0 <= i < |s| ==> 48 <= s[i] <= 57) && DigitsValue(s) < 0x1_0000_0000_0000_0000
  }

  /** Three such numbers with dots in between are a version, and nothing else is. */
  lemma VersionTexts(a: Text, b: Text, c: Text)
    requires 46 !in a && 46 !in b && 46 !in c
    ensures ParseVersion(a + [46] + (b + [46] + c)).Some? <==> ReadsAsNumber(a) && ReadsAsNumber(b) && ReadsAsNumber(c)
    ensures ParseVersion(a).None? && ParseVersion(a + [46] + b).None?
  {
    ThreeParts(a, b, c);
    NumbersAreRead(a);
    NumbersAreRead(b);
    NumbersAreRead(c);
    SplitFirst(DOT, a, b);
    SplitFirst(DOT, b, []);
  }

  lemma NumbersAreRead(s: Text)
    ensures ParseNumber(s).Some? <==> ReadsAsNumber(s)
  {
    assert AllDigits(s) <==> forall i :: 0 <= i < |s| ==> 48 <= s[i] <= 57;
    if s != [] && s[0] == PLUS {
      assert AllDigits(s[1..]) <==> forall i :: 0 <= i < |s[1..]| ==> 48 <= s[1..][i] <= 57;
      assert !IsNumber(s);
    }
  }

  /** Four parts or more are no version. */
  lemma MorePartsAreNoVersion(a: Text, b: Text, c: Text, rest: Text)
    requires 46 !in a && 46 !in b && 46 !in c
    ensures ParseVersion(a + [46] + (b + [46] + (c + [46] + rest))).None?
  {
    SplitFirst(DOT, a, b + [46] + (c + [46] + rest));
    SplitFirst(DOT, b, c + [46] + rest);
    SplitFirst(DOT, c, rest);
  }

  /** Digits are decimal, the most significant first, and numbers are compared as numbers. */
  lemma VersionsLookLikeThis()
    ensures PrintVersion(Version(1, 20, 3)) == Ascii("1.20.3")
    ensures NewerVersion(Ascii("1.9.9"), Ascii("1.10.0")) && !NewerVersion(Ascii("1.10.0"), Ascii("1.9.9"))
  {
    assert Decimal(20) == Decimal(2) + [48] && Decimal(10) == Decimal(1) + [48];
    assert PrintVersion(Version(1, 20, 3)) == Ascii("1.20.3");
    assert PrintVersion(Version(1, 9, 9)) == Ascii("1.9.9");
    assert PrintVersion(Version(1, 10, 0)) == Ascii("1.10.0");
    NewerExactlyWhen(Version(1, 9, 9), Version(1, 10, 0));
    NewerExactlyWhen(Version(1, 10, 0), Version(1, 9, 9));
  }

  // ---------------------------------------------------------------------------
  // One daemon's wishes
  // ---------------------------------------------------------------------------

  /** The running version, the one wanted, and the one on record for the next start. */
  datatype Wishes = Wishes(current: Text, desired: Text, persisted: Option<Text>)

  function InitialDesired(current: Text, persisted: Option<Text>): Text {
    if persisted.Some? && NewerVersion(current, persisted.value) then persisted.value else current
  }

  function VersionOf(s: Text, otherwise: Version): Version {
    match ParseVersion(s)
    case None => otherwise
    case Some(v) => v
  }

  datatype Verdict = Unreadable | UpToDate | Install

  function Reconciled(w: Wishes, release: Text): (Wishes, Verdict) {
    if ParseVersion(w.current).None? || ParseVersion(release).None? then (w, Unreadable)
    else
      var current, latest := ParseVersion(w.current).value, ParseVersion(release).value;
      if !Before(current, latest) then (w, UpToDate)
      else
        var desired := if Before(VersionOf(w.desired, current), latest) then release else w.desired;
        (Wishes(w.current, desired, Some(release)), Install)
  }

  /** What is wanted is a version, and not older than the running one. */
  predicate WellKept(w: Wishes) {
    && ParseVersion(w.current).Some? && ParseVersion(w.desired).Some?
    && !Before(ParseVersion(w.desired).value, ParseVersion(w.current).value)
  }

  /** A wish above the running version is not only in memory: the record is above the running version, too. */
  predicate OnRecord(w: Wishes) {
    NewerVersion(w.current, w.desired) ==> w.persisted.Some? && NewerVersion(w.current, w.persisted.value)
  }

  /** The record is older than a wish above the running version. */
  predicate RecordLags(w: Wishes) {
    NewerVersion(w.current, w.desired) && w.persisted.Some? && NewerVersion(w.persisted.value, w.desired)
  }

  lemma StartsWellKept(current: Text, persisted: Option<Text>)
    requires ParseVersion(current).Some?
    ensures var w := Wishes(current, InitialDesired(current, persisted), persisted); WellKept(w) && OnRecord(w)
  {
  }

  lemma BeforeIsAnOrder(a: Version, b: Version, c: Version)
    ensures !Before(a, a) && (Before(a, b) ==> !Before(b, a))
    ensures !Before(b, a) && Before(b, c) ==> Before(a, c)
  {
  }

  /** Reconciling changes the wish exactly when the release is later than it, and then to the release. */
  lemma ReconcilingFollowsTheRegistry(w: Wishes, release: Text)
    requires WellKept(w)
    ensures var r := Reconciled(w, release).0;
            && r.current == w.current
            && r.desired == (if NewerVersion(w.desired, release) then release else w.desired)
            && (r.persisted == w.persisted || r.persisted == Some(release))
  {
    if ParseVersion(release).Some? {
      BeforeIsAnOrder(ParseVersion(w.current).value, ParseVersion(w.desired).value, ParseVersion(release).value);
    }
  }

  lemma ReconcilingAdvances(w: Wishes, release: Text)
    requires WellKept(w)
    ensures var r := Reconciled(w, release).0;
            && WellKept(r) && !Before(ParseVersion(r.desired).value, ParseVersion(w.desired).value)
            && (OnRecord(w) ==> OnRecord(r))
  {
    ReconcilingFollowsTheRegistry(w, release);
    var current, desired := ParseVersion(w.current).value, ParseVersion(w.desired).value;
    BeforeIsAnOrder(desired, desired, desired);
    if NewerVersion(w.desired, release) {
      var latest := ParseVersion(release).value;
      BeforeIsAnOrder(current, desired, latest);
      BeforeIsAnOrder(desired, latest, latest);
      BeforeIsAnOrder(current, latest, latest);
    }
  }

  /** The record falls behind the wish exactly by following a registry that has gone back, though not to what runs. */
  lemma RecordLagsExactlyWhen(w: Wishes, release: Text)
    requires WellKept(w)
    ensures RecordLags(Reconciled(w, release).0) <==>
              if NewerVersion(w.current, release) then NewerVersion(release, w.desired) else RecordLags(w)
  {
    ReconcilingFollowsTheRegistry(w, release);
    if ParseVersion(release).Some? {
      var current, desired := ParseVersion(w.current).value, ParseVersion(w.desired).value;
      var latest := ParseVersion(release).value;
      BeforeIsAnOrder(current, latest, desired);
      BeforeIsAnOrder(latest, latest, latest);
    }
  }

  /** Starting again with what is on record loses the wish exactly when the record lags behind it. */
  lemma StartingLosesExactlyWhen(w: Wishes)
    requires WellKept(w) && OnRecord(w)
    ensures Before(ParseVersion(InitialDesired(w.current, w.persisted)).value, ParseVersion(w.desired).value) <==>
              RecordLags(w)
  {
  }

  /** What reconciling answers, and comes to want, for versions as they are printed: only what is later counts. */
  lemma ReconciledVersions(current: Version, desired: Version, persisted: Option<Text>, release: Version)
    ensures var w, text := Wishes(PrintVersion(current), PrintVersion(desired), persisted), PrintVersion(release);
            var later := || release.major > current.major
                         || (release.major == current.major && release.minor > current.minor)
                         || (release.major == current.major && release.minor == current.minor
                             && release.patch > current.patch);
            var wanted := || release.major > desired.major
                          || (release.major == desired.major && release.minor > desired.minor)
                          || (release.major == desired.major && release.minor == desired.minor
                              && release.patch > desired.patch);
            Reconciled(w, text) ==
            if !later then (w, UpToDate)
            else (Wishes(w.current, if wanted then text else w.desired, Some(text)), Install)
  {
    VersionRoundTrip(current);
    VersionRoundTrip(desired);
    VersionRoundTrip(release);
  }

  class Updater {
    const current: Text
    var desired: Text
    var persisted: Option<Text>

    constructor (current: Text, persisted: Option<Text>)
      ensures this.current == current && desired == InitialDesired(current, persisted) && this.persisted == persisted
    {
      this.current, this.persisted := current, persisted;
      desired := if persisted.Some? && NewerVersion(current, persisted.value) then persisted.value else current;
    }

    function State(): Wishes
      reads this
    {
      Wishes(current, desired, persisted)
    }

    /** `reconcile`, up to the download: the record is written before the wish is raised. */
    method Reconcile(release: Text) returns (verdict: Verdict)
      modifies this
      ensures (State(), verdict) == Reconciled(old(State()), release)
      ensures verdict.Unreadable? <==> ParseVersion(current).None? || ParseVersion(release).None?
      ensures verdict.Install? <==> NewerVersion(current, release)
      ensures persisted == if verdict.Install? then Some(release) else old(persisted)
      ensures desired ==
              if verdict.Install? && (ParseVersion(old(desired)).None? || NewerVersion(old(desired), release))
              then release else old(desired)
    {
      var running := ParseVersion(current);
      if running.None? {
        return Unreadable;
      }
      var latest := ParseVersion(release);
      if latest.None? {
        return Unreadable;
      }
      if !Before(running.value, latest.value) {
        return UpToDate;
      }
      persisted := Some(release);
      var known := ParseVersion(desired);
      if Before(if known.Some? then known.value else running.value, latest.value) {
        desired := release;
      }
      return Install;
    }
  }
}

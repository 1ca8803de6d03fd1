/** What a reader accepts and what it refuses, whoever wrote it. */
module FramingChecks {
  import opened Wrappers
  import opened Bytes
  import opened Texts
  import opened Model
  import opened Framing

  // ---------------------------------------------------------------------------
  // Bodies
  // ---------------------------------------------------------------------------

  function Sizes(headers: seq<RepHeader>): nat {
    if headers == [] then 0 else headers[0].size + Sizes(headers[1..])
  }

  ghost predicate Matches(reps: seq<Representation>, headers: seq<RepHeader>) {
    && |reps| == |headers|
    && forall i :: 0 <= i < |reps| ==>
         reps[i].item == headers[i].item && reps[i].format == headers[i].format && |reps[i].data| == headers[i].size
  }

  /** Bodies are read exactly if they fit the limit and have all arrived, and then are what has arrived. */
  lemma {:induction false} BodiesAreRead(headers: seq<RepHeader>, total: nat, maxBytes: u64, b: seq<byte>)
    requires total <= maxBytes
    ensures var got := ReadBodies(headers, total, maxBytes, b);
            && (got.Done? <==> total + Sizes(headers) <= maxBytes && Sizes(headers) <= |b|)
            && (got.Done? ==> Matches(got.value, headers) && b == Concat(Bodies(got.value)) + got.rest)
            && (got.Failed? && total + Sizes(headers) <= maxBytes ==> got.error == EndOfStream)
            && (got.Failed? && Sizes(headers) <= |b| ==> got.error == Oversized)
    decreases |headers|
  {
    if headers == [] {
      assert [] + b == b;
    } else if total + headers[0].size <= maxBytes && headers[0].size <= |b| {
      var h := headers[0];
      var rest := b[h.size..];
      BodiesAreRead(headers[1..], total + h.size, maxBytes, rest);
      var later := ReadBodies(headers[1..], total + h.size, maxBytes, rest);
      assert b == b[..h.size] + rest;
      if later.Done? {
        var reps := [Representation(h.item, h.format, b[..h.size])] + later.value;
        assert Bodies(reps) == [b[..h.size]] + Bodies(later.value) by { assert reps[1..] == later.value; }
        assert ([b[..h.size]] + Bodies(later.value))[1..] == Bodies(later.value);
        Associate(b[..h.size], Concat(Bodies(later.value)), later.rest);
      }
    }
  }

  lemma {:induction false} TotalIsTheirLength(reps: seq<Representation>)
    ensures TotalBytes(reps) == |Concat(Bodies(reps))|
  {
    if reps != [] {
      TotalIsTheirLength(reps[1..]);
      assert Bodies(reps)[1..] == Bodies(reps[1..]);
    }
  }

  // ---------------------------------------------------------------------------
  // Headers
  // ---------------------------------------------------------------------------

  /** A frame begins with `SCB1` and the length of its header, four bytes with the highest first. */
  predicate Begins(b: seq<byte>, length: nat) {
    |b| >= 8 && b[..4] == Ascii("SCB1") && length < 0x1_0000_0000 &&
      b[4..8] == [length / 0x100_0000, length / 0x1_0000 % 256, length / 0x100 % 256, length % 256]
  }

  lemma BeginsWithItsLength(b: seq<byte>)
    requires |b| >= 8 && b[..4] == Ascii("SCB1")
    ensures Begins(b, FromBigEndian(b[4..8]))
    ensures forall n :: Begins(b, n) ==> n == FromBigEndian(b[4..8])
  {
    Widths();
    BigEndianOf(b[4..8]);
    FourBytes(FromBigEndian(b[4..8]));
    forall n | Begins(b, n) ensures n == FromBigEndian(b[4..8]) {
      FourBytes(n);
      BigEndianRoundTrip(n, 4);
    }
  }

  lemma MagicIsAscii()
    ensures MAGIC == Ascii("SCB1")
  {
  }

  /** The first bytes are the header of a frame. */
  predicate HasHeader(b: seq<byte>, n: nat, h: Header) {
    0 < n <= 1024 * 1024 && n + 8 <= |b| && Begins(b, n) && ParseHeader(b[8..n + 8]) == Some(h)
  }

  /** The header is read from a beginning with a length from 1 to 1 MiB, once it has arrived, if it parses, */
  lemma HeaderIsRead(b: seq<byte>, n: nat, h: Header)
    requires HasHeader(b, n, h)
    ensures ReadHeader(b) == Done(h, b[n + 8..])
  {
    MagicIsAscii();
    BeginsWithItsLength(b);
    assert b[4..][..4] == b[4..8] && b[4..][4..] == b[8..];
    assert b[8..][..n] == b[8..n + 8] && b[8..][n..] == b[n + 8..];
  }

  /** and from nothing else. */
  lemma OnlyHeadersAreRead(b: seq<byte>) returns (n: nat)
    requires ReadHeader(b).Done?
    ensures HasHeader(b, n, ReadHeader(b).value) && ReadHeader(b).rest == b[n + 8..]
  {
    MagicIsAscii();
    n := FromBigEndian(b[4..8]);
    BeginsWithItsLength(b);
    assert b[4..][..4] == b[4..8] && b[4..][4..] == b[8..];
    assert b[8..][..n] == b[8..n + 8] && b[8..][n..] == b[n + 8..];
  }

  /** Which check fails first: on the first eight bytes, */
  lemma BeginningErrors(b: seq<byte>)
    ensures |b| < 4 ==> ReadHeader(b) == Failed(EndOfStream)
    ensures |b| >= 4 && b[..4] != Ascii("SCB1") ==> ReadHeader(b) == Failed(InvalidMagic)
    ensures 4 <= |b| < 8 && b[..4] == Ascii("SCB1") ==> ReadHeader(b) == Failed(EndOfStream)
  {
    MagicIsAscii();
  }

  /** and after them. */
  lemma HeaderErrors(b: seq<byte>, n: nat)
    requires Begins(b, n)
    ensures n == 0 || n > 1024 * 1024 ==> ReadHeader(b) == Failed(InvalidHeaderLength)
    ensures 0 < n <= 1024 * 1024 && |b| < n + 8 ==> ReadHeader(b) == Failed(EndOfStream)
    ensures 0 < n <= 1024 * 1024 && n + 8 <= |b| && ParseHeader(b[8..n + 8]).None? ==>
              ReadHeader(b) == Failed(InvalidHeader)
  {
    MagicIsAscii();
    BeginsWithItsLength(b);
    assert b[4..][..4] == b[4..8] && b[4..][4..] == b[8..];
    if n + 8 <= |b| { assert b[8..][..n] == b[8..n + 8]; }
  }

  // ---------------------------------------------------------------------------
  // Messages
  // ---------------------------------------------------------------------------

  /** The machine's name unless it is blank. */
  predicate IsMachineName(given: Option<Text>, read: Option<Text>) {
    read == if given.Some? && Blank(given.value) then None else given
  }

  /** `m` is what the header says, with the bodies that follow it. */
  ghost predicate IsMessageOf(m: Message, h: Header, bodies: seq<byte>, maxBytes: u64) {
    match m
    case Hello(id, name, machine, app, desired) =>
      && h.kind.AHello? && bodies == [] && h.nodeId == Some(id) && h.nodeName == Some(name) && name != []
      && IsMachineName(h.machineName, machine) && app == h.appVersion && desired == h.desiredVersion
    case UpdateAvailable(id, version) =>
      h.kind.AnUpdate? && bodies == [] && h.updateId == Some(id) && h.desiredVersion == Some(version) && version != []
    case Posted(clip) =>
      && h.kind.AClip? && h.clipId == Some(clip.id) && h.origin == Some(clip.origin)
      && clip.createdMillis == h.createdMillis && Matches(clip.representations, h.representations)
      && bodies == Concat(Bodies(clip.representations)) && |bodies| <= maxBytes
  }

  lemma {:induction false} MatchesSizes(reps: seq<Representation>, headers: seq<RepHeader>)
    requires Matches(reps, headers)
    ensures |Concat(Bodies(reps))| == Sizes(headers)
  {
    if reps != [] {
      assert Bodies(reps)[1..] == Bodies(reps[1..]);
      assert reps[0].item == headers[0].item;
      forall i | 0 <= i < |reps[1..]|
        ensures && reps[1..][i].item == headers[1..][i].item && reps[1..][i].format == headers[1..][i].format
                && |reps[1..][i].data| == headers[1..][i].size
      {
        assert reps[1..][i] == reps[i + 1] && headers[1..][i] == headers[i + 1];
      }
      MatchesSizes(reps[1..], headers[1..]);
    }
  }

  /** What has been read is a message of protocol version 1, and nothing but its own bytes has been consumed. */
  lemma PayloadIsSound(h: Header, maxBytes: u64, b: seq<byte>)
    requires ReadPayload(h, maxBytes, b).Done?
    ensures var got := ReadPayload(h, maxBytes, b);
            && h.version == 1 && |got.rest| <= |b|
            && var bodies := b[..|b| - |got.rest|];
            b == bodies + got.rest && IsMessageOf(got.value, h, bodies, maxBytes)
  {
    var headers := if h.kind.AClip? then h.representations else [];
    BodiesAreRead(headers, 0, maxBytes, b);
    var got := ReadBodies(headers, 0, maxBytes, b);
    MatchesSizes(got.value, headers);
    var bodies := Concat(Bodies(got.value));
    assert (bodies + got.rest)[..|b| - |got.rest|] == bodies;
  }

  /** Errors of a header that has been read: another version, a limit that is exceeded, or a field that is missing. */
  lemma PayloadErrors(h: Header, maxBytes: u64, b: seq<byte>)
    ensures h.version != 1 ==> ReadPayload(h, maxBytes, b) == Failed(UnsupportedVersion)
    ensures h.version == 1 && h.kind.AHello? && (h.nodeId.None? || h.nodeName.None? || h.nodeName.value == []) ==>
              ReadPayload(h, maxBytes, b) == Failed(InvalidMessage)
    ensures h.version == 1 && h.kind.AnUpdate? &&
            (h.updateId.None? || h.desiredVersion.None? || h.desiredVersion.value == []) ==>
              ReadPayload(h, maxBytes, b) == Failed(InvalidMessage)
    ensures h.version == 1 && h.kind.AClip? && maxBytes < Sizes(h.representations) <= |b| ==>
              ReadPayload(h, maxBytes, b) == Failed(Oversized)
    ensures h.version == 1 && h.kind.AClip? && |b| < Sizes(h.representations) <= maxBytes ==>
              ReadPayload(h, maxBytes, b) == Failed(EndOfStream)
    ensures h.version == 1 && h.kind.AClip? && Sizes(h.representations) <= maxBytes &&
            Sizes(h.representations) <= |b| && (h.clipId.None? || h.origin.None?) ==>
              ReadPayload(h, maxBytes, b) == Failed(InvalidMessage)
  {
    BodiesAreRead(if h.kind.AClip? then h.representations else [], 0, maxBytes, b);
  }

  lemma {:induction false} MatchesAlike(a: seq<Representation>, b: seq<Representation>, headers: seq<RepHeader>)
    requires Matches(a, headers) && Matches(b, headers) && Concat(Bodies(a)) == Concat(Bodies(b))
    ensures a == b
  {
    if headers != [] {
      var x, y := Concat(Bodies(a[1..])), Concat(Bodies(b[1..]));
      assert Bodies(a)[1..] == Bodies(a[1..]) && Bodies(b)[1..] == Bodies(b[1..]);
      assert a[0].data == (a[0].data + x)[..headers[0].size] && b[0].data == (b[0].data + y)[..headers[0].size];
      assert x == (a[0].data + x)[headers[0].size..] && y == (b[0].data + y)[headers[0].size..];
      forall i | 0 <= i < |headers[1..]|
        ensures && a[1..][i].item == headers[1..][i].item && a[1..][i].format == headers[1..][i].format
                && |a[1..][i].data| == headers[1..][i].size
                && b[1..][i].item == headers[1..][i].item && b[1..][i].format == headers[1..][i].format
                && |b[1..][i].data| == headers[1..][i].size
      {
        assert a[1..][i] == a[i + 1] && b[1..][i] == b[i + 1] && headers[1..][i] == headers[i + 1];
      }
      MatchesAlike(a[1..], b[1..], headers[1..]);
      assert a == [a[0]] + a[1..] && b == [b[0]] + b[1..];
    }
  }

  lemma PayloadIsComplete(h: Header, maxBytes: u64, m: Message, bodies: seq<byte>, rest: seq<byte>)
    requires h.version == 1 && IsMessageOf(m, h, bodies, maxBytes)
    ensures ReadPayload(h, maxBytes, bodies + rest) == Done(m, rest)
  {
    var b := bodies + rest;
    var headers := if h.kind.AClip? then h.representations else [];
    BodiesAreRead(headers, 0, maxBytes, b);
    if m.Posted? {
      MatchesSizes(m.clip.representations, headers);
      var got := ReadBodies(headers, 0, maxBytes, b);
      MatchesSizes(got.value, headers);
      assert Concat(Bodies(got.value)) == (Concat(Bodies(got.value)) + got.rest)[..|bodies|] == bodies;
      assert got.rest == (Concat(Bodies(got.value)) + got.rest)[|bodies|..] == rest;
      MatchesAlike(got.value, m.clip.representations, headers);
    }
  }

  /** The first `k` bytes are the frame of a message, with a header of `n` bytes. */
  ghost predicate IsFrame(b: seq<byte>, n: nat, k: nat, h: Header, m: Message, maxBytes: u64) {
    HasHeader(b, n, h) && n + 8 <= k <= |b| && h.version == 1 && IsMessageOf(m, h, b[n + 8..k], maxBytes)
  }

  lemma ReadIsSound(b: seq<byte>, maxBytes: u64, m: Message, rest: seq<byte>) returns (n: nat, k: nat, h: Header)
    requires Read(b, maxBytes) == Done(m, rest)
    ensures IsFrame(b, n, k, h, m, maxBytes) && rest == b[k..]
  {
    n := OnlyHeadersAreRead(b);
    h := ReadHeader(b).value;
    PayloadIsSound(h, maxBytes, b[n + 8..]);
    k := |b| - |rest|;
    Slices(b, n + 8, k);
  }

  lemma Slices(b: seq<byte>, i: nat, k: nat)
    requires i <= k <= |b|
    ensures b[i..][..k - i] == b[i..k] && b[i..][k - i..] == b[k..] && b[i..] == b[i..k] + b[k..]
  {
  }

  lemma ReadIsComplete(b: seq<byte>, maxBytes: u64, m: Message, n: nat, k: nat, h: Header)
    requires IsFrame(b, n, k, h, m, maxBytes)
    ensures Read(b, maxBytes) == Done(m, b[k..])
  {
    HeaderIsRead(b, n, h);
    Slices(b, n + 8, k);
    PayloadIsComplete(h, maxBytes, m, b[n + 8..k], b[k..]);
  }

  /**
   * A message is read exactly from `SCB1`, the length of a header from 1 byte to 1 MiB, a header of version 1 that
   * describes it, and its bodies within the limit; what follows is left.
   */
  lemma ReadExactlyWhen(b: seq<byte>, maxBytes: u64, m: Message, rest: seq<byte>)
    ensures Read(b, maxBytes) == Done(m, rest) <==>
              exists n: nat, k: nat, h: Header :: IsFrame(b, n, k, h, m, maxBytes) && rest == b[k..]
  {
    if Read(b, maxBytes) == Done(m, rest) {
      var n, k, h := ReadIsSound(b, maxBytes, m, rest);
    }
    forall n: nat, k: nat, h: Header | IsFrame(b, n, k, h, m, maxBytes) && rest == b[k..]
      ensures Read(b, maxBytes) == Done(m, rest)
    {
      ReadIsComplete(b, maxBytes, m, n, k, h);
    }
  }
}

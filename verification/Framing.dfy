/** The wire format between daemons: a magic, the length of a header, the header, and the raw bodies of a clip. */
module Framing {
  import opened Wrappers
  import opened Bytes
  import opened Texts
  import opened Model

  const MAGIC: seq<byte> := [83, 67, 66, 49]  // "SCB1"
  const MAX_HEADER: nat := 1024 * 1024
  const PROTOCOL_VERSION: nat := 1

  datatype Message =
    | Hello(nodeId: Uuid, nodeName: Text, machineName: Option<Text>, appVersion: Option<Text>,
            desiredVersion: Option<Text>)
    | UpdateAvailable(updateId: Uuid, version: Text)
    | Posted(clip: Clip)

  // ---------------------------------------------------------------------------
  // The header as bytes
  // ---------------------------------------------------------------------------

  datatype Kind = AHello | AnUpdate | AClip

  datatype RepHeader = RepHeader(item: u32, format: Text, size: u64)

  /** All fields of every kind; those a message does not use are absent. */
  datatype Header = Header(
    version: nat, kind: Kind,
    nodeName: Option<Text>, machineName: Option<Text>, appVersion: Option<Text>, desiredVersion: Option<Text>,
    nodeId: Option<Uuid>, updateId: Option<Uuid>, clipId: Option<Uuid>, origin: Option<Uuid>,
    createdMillis: u64, representations: seq<RepHeader>)

  const UUID_MAX: nat := 0xFFFF_FFFF_FFFF_FFFF_FFFF_FFFF_FFFF_FFFF

  function PutUuid(id: Uuid): seq<byte> { PutNat(id) }

  function ParseUuid(b: seq<byte>): Parsed<Uuid> { ParseBounded(UUID_MAX, b) }

  function PutMaybeText(t: Option<Text>): seq<byte> { PutOption(PutText, t) }

  function ParseMaybeText(b: seq<byte>): Parsed<Option<Text>> { ParseOption(ParseText, b) }

  function PutMaybeUuid(id: Option<Uuid>): seq<byte> { PutOption(PutUuid, id) }

  function ParseMaybeUuid(b: seq<byte>): Parsed<Option<Uuid>> { ParseOption(ParseUuid, b) }

  function PutRep(r: RepHeader): seq<byte> { PutNat(r.item) + (PutText(r.format) + PutNat(r.size)) }

  function ParseRepSize(item: u32, format: Text, b: seq<byte>): Parsed<RepHeader> {
    match ParseBounded(U64_MAX, b)
    case NoParse => NoParse
    case Got(size, rest) => Got(RepHeader(item, format, size), rest)
  }

  function ParseRep(b: seq<byte>): Parsed<RepHeader> {
    match ParseBounded(U32_MAX, b)
    case NoParse => NoParse
    case Got(item, b1) =>
      match ParseText(b1)
      case NoParse => NoParse
      case Got(format, b2) => ParseRepSize(item, format, b2)
  }

  lemma MaybeTextInverts()
    ensures Inverts(PutMaybeText, ParseMaybeText)
  {
    TextInverts();
    forall t: Option<Text>, rest: seq<byte> ensures ParseMaybeText(PutMaybeText(t) + rest) == Got(t, rest) {
      OptionRoundTrip(PutText, ParseText, t, rest);
    }
  }

  lemma MaybeUuidInverts()
    ensures Inverts(PutMaybeUuid, ParseMaybeUuid)
  {
    forall id: Uuid, rest: seq<byte> ensures ParseUuid(PutUuid(id) + rest) == Got(id, rest) {
      NatRoundTrip(id, rest);
    }
    forall id: Option<Uuid>, rest: seq<byte> ensures ParseMaybeUuid(PutMaybeUuid(id) + rest) == Got(id, rest) {
      OptionRoundTrip(PutUuid, ParseUuid, id, rest);
    }
  }

  lemma RepInverts()
    ensures Inverts(PutRep, ParseRep)
  {
    forall r: RepHeader, rest: seq<byte> ensures ParseRep(PutRep(r) + rest) == Got(r, rest) {
      var size := PutNat(r.size);
      Associate(PutNat(r.item), PutText(r.format) + size, rest);
      Associate(PutText(r.format), size, rest);
      NatRoundTrip(r.item, PutText(r.format) + size + rest);
      TextRoundTrip(r.format, size + rest);
      NatRoundTrip(r.size, rest);
    }
  }

  function KindTag(kind: Kind): nat {
    match kind
    case AHello => 0
    case AnUpdate => 1
    case AClip => 2
  }

  function KindWith(tag: nat): Kind {
    if tag == 0 then AHello else if tag == 1 then AnUpdate else AClip
  }

  function TextsOf(h: Header): seq<Option<Text>> { [h.nodeName, h.machineName, h.appVersion, h.desiredVersion] }

  function IdsOf(h: Header): seq<Option<Uuid>> { [h.nodeId, h.updateId, h.clipId, h.origin] }

  function PutTail(h: Header): seq<byte> { PutNat(h.createdMillis) + PutSeq(PutRep, h.representations) }

  function PutFields(h: Header): seq<byte> {
    PutAll(PutMaybeText, TextsOf(h)) + (PutAll(PutMaybeUuid, IdsOf(h)) + PutTail(h))
  }

  function PutHeader(h: Header): (b: seq<byte>)
    ensures b != []
  {
    PutNat(h.version) + (PutNat(KindTag(h.kind)) + PutFields(h))
  }

  function ParseTail(
      version: nat, kind: Kind, texts: seq<Option<Text>>, ids: seq<Option<Uuid>>, b: seq<byte>): Option<Header>
    requires |texts| == 4 && |ids| == 4
  {
    match ParseBounded(U64_MAX, b)
    case NoParse => None
    case Got(millis, b1) =>
      match ParseSeq(ParseRep, b1)
      case NoParse => None
      case Got(reps, b2) =>
        if b2 != [] then None
        else
          Some(Header(version, kind, texts[0], texts[1], texts[2], texts[3],
                      ids[0], ids[1], ids[2], ids[3], millis, reps))
  }

  function ParseFields(version: nat, kind: Kind, b: seq<byte>): Option<Header> {
    match ParseCount(ParseMaybeText, 4, b)
    case NoParse => None
    case Got(texts, b1) =>
      CountIs(ParseMaybeText, 4, b);
      match ParseCount(ParseMaybeUuid, 4, b1)
      case NoParse => None
      case Got(ids, b2) =>
        CountIs(ParseMaybeUuid, 4, b1);
        ParseTail(version, kind, texts, ids, b2)
  }

  lemma {:induction false} CountIs<T>(parse: seq<byte> -> Parsed<T>, n: nat, b: seq<byte>)
    ensures ParseCount(parse, n, b).Got? ==> |ParseCount(parse, n, b).value| == n
    decreases n
  {
    if n > 0 && parse(b).Got? { CountIs(parse, n - 1, parse(b).rest); }
  }

  function ParseKind(b: seq<byte>): Parsed<Kind> {
    match ParseNat(b)
    case NoParse => NoParse
    case Got(tag, rest) => if tag > 2 then NoParse else Got(KindWith(tag), rest)
  }

  /** The header must be nothing but a header. */
  function ParseHeader(b: seq<byte>): Option<Header> {
    match ParseNat(b)
    case NoParse => None
    case Got(version, b1) =>
      match ParseKind(b1)
      case NoParse => None
      case Got(kind, b2) => ParseFields(version, kind, b2)
  }

  lemma TailRoundTrip(h: Header)
    ensures ParseTail(h.version, h.kind, TextsOf(h), IdsOf(h), PutTail(h)) == Some(h)
  {
    RepInverts();
    var reps := PutSeq(PutRep, h.representations);
    NatRoundTrip(h.createdMillis, reps);
    SeqRoundTrip(PutRep, ParseRep, h.representations, []);
    assert reps + [] == reps;
  }

  lemma FieldsRoundTrip(h: Header)
    ensures ParseFields(h.version, h.kind, PutFields(h)) == Some(h)
  {
    MaybeTextInverts();
    MaybeUuidInverts();
    TailRoundTrip(h);
    AllRoundTrip(PutMaybeText, ParseMaybeText, TextsOf(h), PutAll(PutMaybeUuid, IdsOf(h)) + PutTail(h));
    AllRoundTrip(PutMaybeUuid, ParseMaybeUuid, IdsOf(h), PutTail(h));
  }

  lemma KindRoundTrip(kind: Kind, rest: seq<byte>)
    ensures ParseKind(PutNat(KindTag(kind)) + rest) == Got(kind, rest)
  {
    NatRoundTrip(KindTag(kind), rest);
  }

  lemma VersionAndKindAreRead(version: nat, kind: Kind, fields: seq<byte>)
    ensures ParseHeader(PutNat(version) + (PutNat(KindTag(kind)) + fields)) == ParseFields(version, kind, fields)
  {
    NatRoundTrip(version, PutNat(KindTag(kind)) + fields);
    KindRoundTrip(kind, fields);
  }

  lemma HeaderRoundTrip(h: Header)
    ensures ParseHeader(PutHeader(h)) == Some(h)
  {
    FieldsRoundTrip(h);
    VersionAndKindAreRead(h.version, h.kind, PutFields(h));
  }

  // ---------------------------------------------------------------------------
  // Frames
  // ---------------------------------------------------------------------------

  function RepHeaders(reps: seq<Representation>): (r: seq<RepHeader>)
    ensures |r| == |reps|
  {
    if reps == [] then []
    else
      var size := if |reps[0].data| <= U64_MAX then |reps[0].data| else U64_MAX;
      [RepHeader(reps[0].item, reps[0].format, size)] + RepHeaders(reps[1..])
  }

  function Bodies(reps: seq<Representation>): (r: seq<seq<byte>>) {
    if reps == [] then [] else [reps[0].data] + Bodies(reps[1..])
  }

  function HeaderOf(m: Message): Header {
    match m
    case Hello(nodeId, nodeName, machineName, appVersion, desiredVersion) =>
      Header(PROTOCOL_VERSION, AHello, Some(nodeName), machineName, appVersion, desiredVersion,
             Some(nodeId), None, None, None, 0, [])
    case UpdateAvailable(updateId, version) =>
      Header(PROTOCOL_VERSION, AnUpdate, None, None, None, Some(version), None, Some(updateId), None, None, 0, [])
    case Posted(clip) =>
      Header(PROTOCOL_VERSION, AClip, None, None, None, None, None, None, Some(clip.id), Some(clip.origin),
             clip.createdMillis, RepHeaders(clip.representations))
  }

  function BodiesOf(m: Message): seq<seq<byte>> {
    if m.Posted? then Bodies(m.clip.representations) else []
  }

  function Frame(m: Message): seq<byte> {
    var header := PutHeader(HeaderOf(m));
    MAGIC + (BigEndian(|header|, 4) + (header + Concat(BodiesOf(m))))
  }

  datatype WriteError = PayloadTooLarge | HeaderTooLong

  /** What `write_message` refuses. */
  function Refusal(m: Message, maxBytes: u64): Option<WriteError> {
    if m.Posted? && TotalBytes(m.clip.representations) > maxBytes then Some(PayloadTooLarge)
    else if |PutHeader(HeaderOf(m))| > MAX_HEADER then Some(HeaderTooLong)
    else None
  }

  /** The connection a daemon writes to. */
  class Sink {
    var written: seq<byte>

    constructor ()
      ensures written == []
    {
      written := [];
    }

    /** `write_parts`, which has nothing written before everything is known to fit. */
    method WriteParts(header: Header, bodies: seq<seq<byte>>) returns (error: Option<WriteError>)
      modifies this
      ensures var h := PutHeader(header);
              && error == (if |h| > 1024 * 1024 then Some(HeaderTooLong) else None)
              && written == old(written) + if error.Some? then []
                                           else [83, 67, 66, 49] + (BigEndian(|h|, 4) + (h + Concat(bodies)))
    {
      var encoded := PutHeader(header);
      if |encoded| == 0 || |encoded| > MAX_HEADER {
        return Some(HeaderTooLong);
      }
      ghost var goal := written + (MAGIC + (BigEndian(|encoded|, 4) + (encoded + Concat(bodies))));
      Associate(written, MAGIC, BigEndian(|encoded|, 4) + (encoded + Concat(bodies)));
      written := written + MAGIC;
      Associate(written, BigEndian(|encoded|, 4), encoded + Concat(bodies));
      written := written + BigEndian(|encoded|, 4);
      Associate(written, encoded, Concat(bodies));
      written := written + encoded;
      var rest := bodies;
      while rest != []
        invariant written + Concat(rest) == goal
        decreases |rest|
      {
        Associate(written, rest[0], Concat(rest[1..]));
        written := written + rest[0];
        rest := rest[1..];
      }
      assert written + [] == written;
      return None;
    }

    /** `write_message`: a whole frame or nothing. */
    method WriteMessage(m: Message, maxBytes: u64) returns (error: Option<WriteError>)
      modifies this
      ensures error == Refusal(m, maxBytes)
      ensures error == Some(PayloadTooLarge) <==> m.Posted? && TotalBytes(m.clip.representations) > maxBytes
      ensures error.None? <==>
                && (m.Posted? ==> TotalBytes(m.clip.representations) <= maxBytes)
                && |PutHeader(HeaderOf(m))| <= 1024 * 1024
      ensures written == old(written) + if error.Some? then [] else Frame(m)
    {
      if m.Posted? && TotalBytes(m.clip.representations) > maxBytes {
        return Some(PayloadTooLarge);
      }
      error := WriteParts(HeaderOf(m), BodiesOf(m));
    }
  }

  // ---------------------------------------------------------------------------
  // Reading
  // ---------------------------------------------------------------------------

  datatype ReadError =
    | EndOfStream
    | InvalidMagic
    | InvalidHeaderLength
    | InvalidHeader
    | UnsupportedVersion
    | Oversized
    | InvalidMessage

  function NotBlank(s: Option<Text>): Option<Text> {
    if s.Some? && Blank(s.value) then None else s
  }

  /** The message of a header, for a clip once its bodies have been read. */
  function MessageOf(h: Header, reps: seq<Representation>): Result<Message, ReadError> {
    match h.kind
    case AHello =>
      if h.nodeId.None? || h.nodeName.None? || h.nodeName.value == [] then Err(InvalidMessage)
      else Ok(Hello(h.nodeId.value, h.nodeName.value, NotBlank(h.machineName), h.appVersion, h.desiredVersion))
    case AnUpdate =>
      if h.updateId.None? || h.desiredVersion.None? || h.desiredVersion.value == [] then Err(InvalidMessage)
      else Ok(UpdateAvailable(h.updateId.value, h.desiredVersion.value))
    case AClip =>
      if h.clipId.None? || h.origin.None? then Err(InvalidMessage)
      else Ok(Posted(Clip(h.clipId.value, h.origin.value, h.createdMillis, reps)))
  }

  datatype Outcome<+T> = Failed(error: ReadError) | Done(value: T, rest: seq<byte>)

  /** Bodies one after the other, their running total checked before each is read. */
  function ReadBodies(headers: seq<RepHeader>, total: nat, maxBytes: u64, b: seq<byte>): Outcome<seq<Representation>>
    decreases |headers|
  {
    if headers == [] then Done([], b)
    else
      var h := headers[0];
      if total + h.size > maxBytes then Failed(Oversized)
      else if |b| < h.size then Failed(EndOfStream)
      else
        match ReadBodies(headers[1..], total + h.size, maxBytes, b[h.size..])
        case Failed(e) => Failed(e)
        case Done(reps, rest) => Done([Representation(h.item, h.format, b[..h.size])] + reps, rest)
  }

  function ReadPayload(h: Header, maxBytes: u64, b: seq<byte>): Outcome<Message> {
    if h.version != PROTOCOL_VERSION then Failed(UnsupportedVersion)
    else
      match ReadBodies(if h.kind.AClip? then h.representations else [], 0, maxBytes, b)
      case Failed(e) => Failed(e)
      case Done(reps, rest) =>
        match MessageOf(h, reps)
        case Err(e) => Failed(e)
        case Ok(m) => Done(m, rest)
  }

  /** The first `n` bytes, and the others. */
  function Take(b: seq<byte>, n: nat): Outcome<seq<byte>> {
    if |b| < n then Failed(EndOfStream) else Done(b[..n], b[n..])
  }

  function ReadEncoded(length: nat, b: seq<byte>): Outcome<Header> {
    if length == 0 || length > MAX_HEADER then Failed(InvalidHeaderLength)
    else
      match Take(b, length)
      case Failed(e) => Failed(e)
      case Done(encoded, rest) =>
        match ParseHeader(encoded)
        case None => Failed(InvalidHeader)
        case Some(h) => Done(h, rest)
  }

  function ReadHeader(b: seq<byte>): Outcome<Header> {
    match Take(b, 4)
    case Failed(e) => Failed(e)
    case Done(magic, b1) =>
      if magic != MAGIC then Failed(InvalidMagic)
      else
        match Take(b1, 4)
        case Failed(e) => Failed(e)
        case Done(length, b2) => ReadEncoded(FromBigEndian(length), b2)
  }

  /** The next message of a byte stream, and what follows it. */
  function Read(b: seq<byte>, maxBytes: u64): Outcome<Message> {
    match ReadHeader(b)
    case Failed(e) => Failed(e)
    case Done(h, rest) => ReadPayload(h, maxBytes, rest)
  }

  /** A connection as its reader sees it: bytes that have arrived, and pieces still to come, in whatever sizes. */
  class Stream {
    var arrived: seq<byte>
    var coming: seq<seq<byte>>
    var reserved: nat   // bytes allocated for bodies so far

    constructor (pieces: seq<seq<byte>>)
      ensures Content() == Concat(pieces) && reserved == 0
    {
      arrived, coming, reserved := [], pieces, 0;
      new;
      assert [] + Concat(pieces) == Concat(pieces);
    }

    ghost function Content(): seq<byte>
      reads this
    {
      arrived + Concat(coming)
    }

    /** `read_exact`: waits for more pieces as long as there are any. */
    method ReadExact(n: nat) returns (data: Option<seq<byte>>)
      modifies this`arrived, this`coming
      ensures match Take(old(Content()), n)
              case Failed(_) => data == None
              case Done(first, rest) => data == Some(first) && Content() == rest
    {
      var got: seq<byte> := [];
      while |got| < n && (arrived != [] || coming != [])
        invariant |got| <= n && got + Content() == old(Content())
        decreases |coming|, |arrived|
      {
        if arrived == [] {
          arrived, coming := coming[0], coming[1..];
        } else {
          var take := if |arrived| < n - |got| then |arrived| else n - |got|;
          Associate(got, arrived[..take], arrived[take..] + Concat(coming));
          Associate(arrived[..take], arrived[take..], Concat(coming));
          assert arrived[..take] + arrived[take..] == arrived;
          got, arrived := got + arrived[..take], arrived[take..];
        }
      }
      if |got| < n {
        return None;
      }
      return Some(got);
    }

    method ReadClipBodies(headers: seq<RepHeader>, maxBytes: u64) returns (r: Result<seq<Representation>, ReadError>)
      modifies this
      ensures reserved <= old(reserved) + maxBytes
      ensures r.Ok? ==> reserved == old(reserved) + TotalBytes(r.value)
      ensures match ReadBodies(headers, 0, maxBytes, old(Content()))
              case Failed(e) => r == Err(e)
              case Done(reps, rest) => r == Ok(reps) && Content() == rest
    {
      var total: nat, reps: seq<Representation>, todo := 0, [], headers;
      ghost var all := ReadBodies(headers, 0, maxBytes, Content());
      if all.Done? { assert [] + all.value == all.value; }
      while todo != []
        invariant total <= maxBytes && reserved == old(reserved) + total && TotalBytes(reps) == total
        invariant all ==
                  match ReadBodies(todo, total, maxBytes, Content())
                  case Failed(e) => Failed(e)
                  case Done(more, rest) => Done(reps + more, rest)
        decreases |todo|
      {
        var h := todo[0];
        if total + h.size > maxBytes {
          return Err(Oversized);
        }
        total := total + h.size;
        reserved := reserved + h.size;
        var data := ReadExact(h.size);
        if data.None? {
          return Err(EndOfStream);
        }
        var next := Representation(h.item, h.format, data.value);
        ghost var later := ReadBodies(todo[1..], total, maxBytes, Content());
        if later.Done? { Associate(reps, [next], later.value); }
        TotalAppend(reps, next);
        reps, todo := reps + [next], todo[1..];
      }
      assert reps + [] == reps;
      return Ok(reps);
    }

    method ReadHeaderPart() returns (r: Result<Header, ReadError>)
      modifies this`arrived, this`coming
      ensures match ReadHeader(old(Content()))
              case Failed(e) => r == Err(e)
              case Done(h, rest) => r == Ok(h) && Content() == rest
    {
      var magic := ReadExact(4);
      if magic.None? { return Err(EndOfStream); }
      if magic.value != MAGIC { return Err(InvalidMagic); }
      var prefix := ReadExact(4);
      if prefix.None? { return Err(EndOfStream); }
      var length := FromBigEndian(prefix.value);
      if length == 0 || length > MAX_HEADER { return Err(InvalidHeaderLength); }
      var encoded := ReadExact(length);
      if encoded.None? { return Err(EndOfStream); }
      var parsed := ParseHeader(encoded.value);
      if parsed.None? { return Err(InvalidHeader); }
      return Ok(parsed.value);
    }

    /** `read_message`: whatever arrives, no more than `maxBytes` is allocated for bodies. */
    method ReadMessage(maxBytes: u64) returns (r: Result<Message, ReadError>)
      modifies this
      ensures reserved <= old(reserved) + maxBytes
      ensures match Read(old(Content()), maxBytes)
              case Failed(e) => r == Err(e)
              case Done(m, rest) => r == Ok(m) && Content() == rest
    {
      var header := ReadHeaderPart();
      if header.Err? { return Err(header.error); }
      var h := header.value;
      if h.version != PROTOCOL_VERSION { return Err(UnsupportedVersion); }
      var reps: seq<Representation> := [];
      if h.kind.AClip? {
        var bodies := ReadClipBodies(h.representations, maxBytes);
        if bodies.Err? { return Err(bodies.error); }
        reps := bodies.value;
      }
      return MessageOf(h, reps);
    }
  }

  // ---------------------------------------------------------------------------
  // What was written is read back
  // ---------------------------------------------------------------------------

  /** What a reader with this limit makes of a message. */
  function Received(m: Message, maxBytes: u64): Result<Message, ReadError> {
    match m
    case Hello(id, name, machine, app, desired) =>
      if name == [] then Err(InvalidMessage) else Ok(Hello(id, name, NotBlank(machine), app, desired))
    case UpdateAvailable(_, version) => if version == [] then Err(InvalidMessage) else Ok(m)
    case Posted(clip) => if TotalBytes(clip.representations) > maxBytes then Err(Oversized) else Ok(m)
  }

  /** What a message must be like to be read back unchanged. */
  predicate WellFormed(m: Message, maxBytes: u64) {
    match m
    case Hello(_, name, machine, _, _) => name != [] && (machine.Some? ==> !Blank(machine.value))
    case UpdateAvailable(_, version) => version != []
    case Posted(clip) => TotalBytes(clip.representations) <= maxBytes
  }

  lemma ReceivedUnchanged(m: Message, maxBytes: u64)
    ensures WellFormed(m, maxBytes) <==> Received(m, maxBytes) == Ok(m)
  {
  }

  /** No clip is larger than its sizes can say. */
  predicate Addressable(m: Message) { m.Posted? ==> TotalBytes(m.clip.representations) <= U64_MAX }

  lemma {:induction false} BodiesRoundTrip(reps: seq<Representation>, total: nat, maxBytes: u64, rest: seq<byte>)
    requires TotalBytes(reps) <= U64_MAX
    ensures ReadBodies(RepHeaders(reps), total, maxBytes, Concat(Bodies(reps)) + rest) ==
            if reps == [] || total + TotalBytes(reps) <= maxBytes then Done(reps, rest) else Failed(Oversized)
  {
    if reps == [] {
      assert [] + rest == rest;
    } else {
      var data, b := reps[0].data, Concat(Bodies(reps)) + rest;
      assert Bodies(reps)[1..] == Bodies(reps[1..]) && RepHeaders(reps)[1..] == RepHeaders(reps[1..]);
      Associate(data, Concat(Bodies(reps[1..])), rest);
      assert b[..|data|] == data && b[|data|..] == Concat(Bodies(reps[1..])) + rest;
      BodiesRoundTrip(reps[1..], total + |data|, maxBytes, rest);
      assert [reps[0]] + reps[1..] == reps;
    }
  }

  lemma PayloadRoundTrip(m: Message, maxBytes: u64, rest: seq<byte>)
    requires Addressable(m)
    ensures ReadPayload(HeaderOf(m), maxBytes, Concat(BodiesOf(m)) + rest) ==
            match Received(m, maxBytes) case Err(e) => Failed(e) case Ok(r) => Done(r, rest)
  {
    match m
    case Posted(clip) => BodiesRoundTrip(clip.representations, 0, maxBytes, rest);
    case _ => assert [] + rest == rest;
  }

  lemma TakesWhatWasJoined(a: seq<byte>, b: seq<byte>)
    ensures Take(a + b, |a|) == Done(a, b)
  {
    assert (a + b)[..|a|] == a && (a + b)[|a|..] == b;
  }

  lemma EncodedIsRead(header: seq<byte>, h: Header, rest: seq<byte>)
    requires 0 < |header| <= MAX_HEADER && ParseHeader(header) == Some(h)
    ensures ReadEncoded(|header|, header + rest) == Done(h, rest)
  {
    TakesWhatWasJoined(header, rest);
  }

  lemma PrefixIsRead(length: seq<byte>, rest: seq<byte>)
    requires |length| == 4
    ensures ReadHeader(MAGIC + (length + rest)) == ReadEncoded(FromBigEndian(length), rest)
  {
    TakesWhatWasJoined(MAGIC, length + rest);
    TakesWhatWasJoined(length, rest);
  }

  lemma FrameIsRead(header: seq<byte>, h: Header, bodies: seq<byte>, rest: seq<byte>)
    requires 0 < |header| <= MAX_HEADER && ParseHeader(header) == Some(h)
    ensures ReadHeader(MAGIC + (BigEndian(|header|, 4) + (header + bodies)) + rest) == Done(h, bodies + rest)
  {
    var length := BigEndian(|header|, 4);
    Widths();
    BigEndianRoundTrip(|header|, 4);
    EncodedIsRead(header, h, bodies + rest);
    PrefixIsRead(length, header + (bodies + rest));
    Associate(header, bodies, rest);
    Associate(length, header + bodies, rest);
    Associate(MAGIC, length + (header + bodies), rest);
  }

  /** One frame, whatever follows it: the reader gets what it should, and exactly the frame is consumed. */
  lemma FrameRoundTrip(m: Message, maxBytes: u64, rest: seq<byte>)
    requires Addressable(m) && |PutHeader(HeaderOf(m))| <= MAX_HEADER
    ensures Read(Frame(m) + rest, maxBytes) ==
            match Received(m, maxBytes) case Err(e) => Failed(e) case Ok(r) => Done(r, rest)
    ensures Read(Frame(m) + rest, maxBytes) == Done(m, rest) <==> WellFormed(m, maxBytes)
  {
    HeaderRoundTrip(HeaderOf(m));
    FrameIsRead(PutHeader(HeaderOf(m)), HeaderOf(m), Concat(BodiesOf(m)), rest);
    PayloadRoundTrip(m, maxBytes, rest);
    ReceivedUnchanged(m, maxBytes);
  }

  // ---------------------------------------------------------------------------
  // Whole streams
  // ---------------------------------------------------------------------------

  /** Within the writer's limit, and read back unchanged under the reader's. */
  predicate Passes(m: Message, writeMax: u64, readMax: u64) {
    Refusal(m, writeMax).None? && WellFormed(m, readMax)
  }

  predicate AllPass(ms: seq<Message>, writeMax: u64, readMax: u64) {
    forall i :: 0 <= i < |ms| ==> Passes(ms[i], writeMax, readMax)
  }

  /** The frames of several messages, one after the other. */
  function Frames(ms: seq<Message>): seq<byte> {
    if ms == [] then [] else Frame(ms[0]) + Frames(ms[1..])
  }

  /** Messages read one after the other. */
  function ReadMany(n: nat, b: seq<byte>, maxBytes: u64): Outcome<seq<Message>>
    decreases n
  {
    if n == 0 then Done([], b)
    else
      match Read(b, maxBytes)
      case Failed(e) => Failed(e)
      case Done(m, rest) =>
        match ReadMany(n - 1, rest, maxBytes)
        case Failed(e) => Failed(e)
        case Done(ms, rest') => Done([m] + ms, rest')
  }

  lemma NextMessage(ms: seq<Message>, writeMax: u64, readMax: u64, rest: seq<byte>)
    requires ms != [] && AllPass(ms, writeMax, readMax)
    ensures AllPass(ms[1..], writeMax, readMax)
    ensures Read(Frames(ms) + rest, readMax) == Done(ms[0], Frames(ms[1..]) + rest)
  {
    assert Passes(ms[0], writeMax, readMax);
    Associate(Frame(ms[0]), Frames(ms[1..]), rest);
    FrameRoundTrip(ms[0], readMax, Frames(ms[1..]) + rest);
  }

  lemma OneMore(n: nat, b: seq<byte>, maxBytes: u64, m: Message, b1: seq<byte>, ms: seq<Message>, rest: seq<byte>)
    requires Read(b, maxBytes) == Done(m, b1) && ReadMany(n, b1, maxBytes) == Done(ms, rest)
    ensures ReadMany(n + 1, b, maxBytes) == Done([m] + ms, rest)
  {
  }

  /** Reading back a stream of frames yields the messages, and leaves what follows them untouched. */
  lemma {:induction false} StreamRoundTrip(ms: seq<Message>, writeMax: u64, readMax: u64, rest: seq<byte>)
    requires AllPass(ms, writeMax, readMax)
    ensures ReadMany(|ms|, Frames(ms) + rest, readMax) == Done(ms, rest)
  {
    if ms == [] {
      assert [] + rest == rest;
    } else {
      var b1 := Frames(ms[1..]) + rest;
      NextMessage(ms, writeMax, readMax, rest);
      StreamRoundTrip(ms[1..], writeMax, readMax, rest);
      OneMore(|ms| - 1, Frames(ms) + rest, readMax, ms[0], b1, ms[1..], rest);
      assert [ms[0]] + ms[1..] == ms;
    }
  }

  /** No message is read from part of a frame. */
  lemma PartialFrameIsNotRead(m: Message, maxBytes: u64, n: nat)
    requires Addressable(m) && |PutHeader(HeaderOf(m))| <= MAX_HEADER && n < |Frame(m)|
    ensures Read(Frame(m)[..n], maxBytes).Failed?
  {
    var part, tail := Frame(m)[..n], Frame(m)[n..];
    assert part + tail == Frame(m);
    assert Frame(m) + [] == Frame(m);
    FrameRoundTrip(m, maxBytes, []);
    if Read(part, maxBytes).Done? { ReadIgnoresTheRest(part, tail, maxBytes); }
  }

  lemma {:induction false} BodiesIgnoreTheRest(
      headers: seq<RepHeader>, total: nat, maxBytes: u64, b: seq<byte>, more: seq<byte>)
    requires ReadBodies(headers, total, maxBytes, b).Done?
    ensures var got := ReadBodies(headers, total, maxBytes, b);
            ReadBodies(headers, total, maxBytes, b + more) == Done(got.value, got.rest + more)
    decreases |headers|
  {
    if headers != [] {
      var h := headers[0];
      assert (b + more)[..h.size] == b[..h.size] && (b + more)[h.size..] == b[h.size..] + more;
      BodiesIgnoreTheRest(headers[1..], total + h.size, maxBytes, b[h.size..], more);
    }
  }

  lemma PayloadIgnoresTheRest(h: Header, maxBytes: u64, b: seq<byte>, more: seq<byte>)
    requires ReadPayload(h, maxBytes, b).Done?
    ensures var got := ReadPayload(h, maxBytes, b);
            ReadPayload(h, maxBytes, b + more) == Done(got.value, got.rest + more)
  {
    BodiesIgnoreTheRest(if h.kind.AClip? then h.representations else [], 0, maxBytes, b, more);
  }

  lemma TakeIgnoresTheRest(b: seq<byte>, n: nat, more: seq<byte>)
    requires Take(b, n).Done?
    ensures var got := Take(b, n); Take(b + more, n) == Done(got.value, got.rest + more)
  {
    assert (b + more)[..n] == b[..n] && (b + more)[n..] == b[n..] + more;
  }

  lemma EncodedIgnoresTheRest(length: nat, b: seq<byte>, more: seq<byte>)
    requires ReadEncoded(length, b).Done?
    ensures var got := ReadEncoded(length, b); ReadEncoded(length, b + more) == Done(got.value, got.rest + more)
  {
    TakeIgnoresTheRest(b, length, more);
  }

  lemma HeaderIgnoresTheRest(b: seq<byte>, more: seq<byte>)
    requires ReadHeader(b).Done?
    ensures var got := ReadHeader(b); ReadHeader(b + more) == Done(got.value, got.rest + more)
  {
    var b1 := Take(b, 4).rest;
    TakeIgnoresTheRest(b, 4, more);
    TakeIgnoresTheRest(b1, 4, more);
    EncodedIgnoresTheRest(FromBigEndian(Take(b1, 4).value), Take(b1, 4).rest, more);
  }

  /** What follows a message has no influence on it. */
  lemma ReadIgnoresTheRest(b: seq<byte>, more: seq<byte>, maxBytes: u64)
    requires Read(b, maxBytes).Done?
    ensures var got := Read(b, maxBytes); Read(b + more, maxBytes) == Done(got.value, got.rest + more)
  {
    HeaderIgnoresTheRest(b, more);
    PayloadIgnoresTheRest(ReadHeader(b).value, maxBytes, ReadHeader(b).rest, more);
  }

  /** Messages written one after the other. */
  method WriteAll(ms: seq<Message>, writeMax: u64, sink: Sink)
    requires forall i :: 0 <= i < |ms| ==> Refusal(ms[i], writeMax).None?
    modifies sink
    ensures sink.written == old(sink.written) + Frames(ms)
  {
    var rest := ms;
    while rest != []
      invariant forall i :: 0 <= i < |rest| ==> Refusal(rest[i], writeMax).None?
      invariant sink.written + Frames(rest) == old(sink.written) + Frames(ms)
      decreases |rest|
    {
      Associate(sink.written, Frame(rest[0]), Frames(rest[1..]));
      var error := sink.WriteMessage(rest[0], writeMax);
      assert error.None?;
      rest := rest[1..];
    }
    assert sink.written + [] == sink.written;
  }

  lemma OneRead<T>(read: seq<T>, rest: seq<T>, all: seq<T>)
    requires read + rest == all && rest != []
    ensures read + [rest[0]] + rest[1..] == all
  {
    Associate(read, [rest[0]], rest[1..]);
    assert [rest[0]] + rest[1..] == rest;
  }

  /**
   * However the written bytes are cut into pieces on the way, the messages come out, and nothing that follows is
   * touched.
   */
  method ReadAll(ms: seq<Message>, writeMax: u64, readMax: u64, tail: seq<byte>, pieces: seq<seq<byte>>)
    returns (read: seq<Message>, stream: Stream)
    requires AllPass(ms, writeMax, readMax) && Concat(pieces) == Frames(ms) + tail
    ensures read == ms && stream.Content() == tail
  {
    stream := new Stream(pieces);
    read := [];
    var count := |ms|;
    ghost var rest := ms;
    while count > 0
      invariant fresh(stream) && count == |rest| && read + rest == ms && AllPass(rest, writeMax, readMax)
      invariant stream.Content() == Frames(rest) + tail
    {
      NextMessage(rest, writeMax, readMax, tail);
      var r := stream.ReadMessage(readMax);
      assert r == Ok(rest[0]);
      OneRead(read, rest, ms);
      read, count, rest := read + [r.value], count - 1, rest[1..];
    }
    assert [] + tail == tail;
  }
}

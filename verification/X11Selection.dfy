/** Both ends of an X11 selection: the owner, which serves large values in chunks, and the bounded reader. */
module X11Selection {
  import opened Wrappers
  import opened Bytes

  /** Interned names; interning is injective, so an atom is its name. */
  type Atom = string

  const CLIPBOARD: Atom := "CLIPBOARD"
  const TARGETS: Atom := "TARGETS"
  const INCR: Atom := "INCR"
  const ATOM: Atom := "ATOM"

  const MAX_CHUNK: nat := 256 * 1024
  const MAX_TRANSFERS: nat := 128

  /** A property of a window: a type, a unit of 8 or 32 bits, and the value. */
  datatype Property = Absent | Value(kind: Atom, bits: nat, bytes: seq<byte>)

  datatype Offer = Offer(format: Atom, data: seq<byte>)

  // ---------------------------------------------------------------------------
  // The owner
  // ---------------------------------------------------------------------------

  datatype Transfer = Transfer(target: Atom, data: seq<byte>, offset: nat)

  /** A consumer's request; every consumer is a window of its own with one property. */
  datatype Request = Request(window: nat, selection: Atom, target: Atom)

  /** The first representation of a format is the one that is offered. */
  function Offered(reps: seq<Offer>): map<Atom, seq<byte>> {
    if reps == [] then map[] else Offered(reps[1..])[reps[0].format := reps[0].data]
  }

  function AtomList(atoms: seq<nat>): seq<byte> {
    if atoms == [] then [] else BigEndian(atoms[0], 4) + AtomList(atoms[1..])
  }

  /** How a request is answered. `Chunked` announces the length; the bytes follow as the consumer takes them. */
  datatype Answer = Refuse | Plain(property: Property) | Chunked(target: Atom, data: seq<byte>)

  /** The answer to a request, for a server that numbers the offered formats as `listing`. */
  function AnswerTo(
      chunk: nat, data: map<Atom, seq<byte>>, transfers: map<nat, Transfer>, q: Request, listing: seq<nat>): Answer
  {
    if q.selection != CLIPBOARD then Refuse
    else if q.target == TARGETS then Plain(Value(ATOM, 32, AtomList(listing)))
    else if q.target !in data then Refuse
    else if |data[q.target]| <= chunk then Plain(Value(q.target, 8, data[q.target]))
    else if |transfers| >= MAX_TRANSFERS || |data[q.target]| > U32_MAX then Refuse
    else Chunked(q.target, data[q.target])
  }

  /** What an answer puts into the consumer's property. */
  function FirstProperty(a: Answer): Property {
    match a
    case Refuse => Absent
    case Plain(p) => p
    case Chunked(_, data) => Value(INCR, 32, BigEndian(|data|, 4))
  }

  function AfterAnswer(transfers: map<nat, Transfer>, w: nat, a: Answer): map<nat, Transfer> {
    if a.Chunked? then transfers[w := Transfer(a.target, a.data, 0)] else transfers
  }

  function ChunkEnd(chunk: nat, t: Transfer): nat {
    if t.offset + chunk < |t.data| then t.offset + chunk else |t.data|
  }

  /** The consumer has taken what was there: the next chunk, which is empty once everything has been sent. */
  function NextChunk(chunk: nat, t: Transfer): Property
    requires t.offset <= |t.data|
  {
    Value(t.target, 8, t.data[t.offset..ChunkEnd(chunk, t)])
  }

  /** A transfer ends with its empty chunk, or as soon as a chunk cannot be delivered. */
  function AfterChunk(chunk: nat, transfers: map<nat, Transfer>, w: nat, delivered: bool): map<nat, Transfer>
    requires w in transfers
  {
    var t := transfers[w];
    if t.offset == |t.data| || !delivered then transfers - {w}
    else transfers[w := t.(offset := ChunkEnd(chunk, t))]
  }

  class Owner {
    const chunkSize: nat
    var data: map<Atom, seq<byte>>
    var transfers: map<nat, Transfer>

    /** The chunk size follows from the server's limit, given in units of four bytes. */
    constructor (maximumRequestLength: nat)
      ensures 1 <= chunkSize <= 256 * 1024
      ensures chunkSize > 1 ==> chunkSize + 64 <= 4 * maximumRequestLength
      ensures chunkSize < 256 * 1024 ==> chunkSize + 64 >= 4 * maximumRequestLength
      ensures data == map[] && transfers == map[]
    {
      var room := if 4 * maximumRequestLength > 64 then 4 * maximumRequestLength - 64 else 0;
      chunkSize := if room < 1 then 1 else if room > MAX_CHUNK then MAX_CHUNK else room;
      data, transfers := map[], map[];
    }

    ghost predicate Valid()
      reads this
    {
      chunkSize >= 1 && forall w :: w in transfers ==> transfers[w].offset <= |transfers[w].data|
    }

    /** New representations replace the old ones; transfers under way keep their bytes. */
    method Publish(reps: seq<Offer>)
      modifies this`data
      ensures data == Offered(reps)
    {
      var offered: map<Atom, seq<byte>> := map[];
      var rest := reps;
      while rest != []
        invariant Offered(rest) + offered == Offered(reps)
        decreases |rest|
      {
        if rest[0].format !in offered {
          offered := offered[rest[0].format := rest[0].data];
        }
        rest := rest[1..];
      }
      assert map[] + offered == offered;
      data := offered;
    }

    /** `request` with `convert`: `reachable` says whether the consumer's window still exists. */
    method Convert(q: Request, listing: seq<nat>, reachable: bool) returns (written: Property, ok: bool)
      requires Valid()
      modifies this`transfers
      ensures Valid()
      ensures var a := AnswerTo(chunkSize, data, old(transfers), q, listing);
              && ok == (reachable && !a.Refuse?)
              && written == (if reachable then FirstProperty(a) else Absent)
              && transfers == if reachable then AfterAnswer(old(transfers), q.window, a) else old(transfers)
      ensures q.selection != "CLIPBOARD" || (q.target != "TARGETS" && q.target !in data) ==> !ok
      ensures q.selection == "CLIPBOARD" && q.target == "TARGETS" && reachable ==>
                ok && written == Value("ATOM", 32, AtomList(listing))
      ensures q.selection == "CLIPBOARD" && q.target != "TARGETS" && q.target in data && reachable ==>
                var value := data[q.target];
                && (ok <==> |value| <= chunkSize || (|old(transfers)| < 128 && |value| < 0x1_0000_0000))
                && (|value| <= chunkSize ==> written == Value(q.target, 8, value) && transfers == old(transfers))
                && (ok && |value| > chunkSize ==>
                      && written == Value("INCR", 32, BigEndian(|value|, 4))
                      && transfers == old(transfers)[q.window := Transfer(q.target, value, 0)])
      ensures !ok ==> written == Absent && transfers == old(transfers)
    {
      if q.selection != CLIPBOARD {
        return Absent, false;
      }
      if q.target == TARGETS {
        if !reachable { return Absent, false; }
        return Value(ATOM, 32, AtomList(listing)), true;
      }
      if q.target !in data {
        return Absent, false;
      }
      var bytes := data[q.target];
      if |bytes| <= chunkSize {
        if !reachable { return Absent, false; }
        return Value(q.target, 8, bytes), true;
      }
      if |transfers| >= MAX_TRANSFERS || !reachable || |bytes| > U32_MAX {
        return Absent, false;
      }
      transfers := transfers[q.window := Transfer(q.target, bytes, 0)];
      return Value(INCR, 32, BigEndian(|bytes|, 4)), true;
    }

    /** The consumer has deleted its property. */
    method Deleted(w: nat, reachable: bool) returns (written: Option<Property>)
      requires Valid()
      modifies this`transfers
      ensures Valid()
      ensures w !in old(transfers) ==> written == None && transfers == old(transfers)
      ensures w in old(transfers) ==>
                && written == (if reachable then Some(NextChunk(chunkSize, old(transfers)[w])) else None)
                && transfers == AfterChunk(chunkSize, old(transfers), w, reachable)
    {
      if w !in transfers {
        return None;
      }
      var t := transfers[w];
      var end := if t.offset + chunkSize < |t.data| then t.offset + chunkSize else |t.data|;
      written := if reachable then Some(Value(t.target, 8, t.data[t.offset..end])) else None;
      var finished := t.offset == |t.data|;
      transfers := transfers[w := t.(offset := end)];
      if finished || !reachable {
        transfers := transfers - {w};
      }
    }
  }

  // ---------------------------------------------------------------------------
  // The reader
  // ---------------------------------------------------------------------------

  datatype ReadError = Unavailable | TooBig | TypeMismatch | TimedOut

  datatype Reader = Reader(
    target: Atom, maxBytes: nat, incremental: bool, data: seq<byte>,
    outcome: Option<Result<seq<byte>, ReadError>>)

  /** `SelectionNotify`, with or without a property, and a new value of the property. */
  datatype ReaderEvent = Notified(ok: bool) | Changed

  function ExpectedKind(target: Atom): Atom { if target == TARGETS then ATOM else target }

  function ExpectedBits(target: Atom): nat { if target == TARGETS then 32 else 8 }

  function Remaining(r: Reader): nat {
    if |r.data| < r.maxBytes then r.maxBytes - |r.data| else 0
  }

  /** The length of a `GetProperty` request, in units of four bytes. */
  function Longs(remaining: nat): nat {
    var longs := (remaining + 3) / 4;
    if longs < 1 then 1 else if longs > U32_MAX then U32_MAX else longs
  }

  /** The value, as much of it as is asked for. */
  function Prefix(p: Property, longs: nat): seq<byte>
    requires p.Value?
  {
    if |p.bytes| <= 4 * longs then p.bytes else p.bytes[..4 * longs]
  }

  /** `GetProperty` deletes the property if it returned all of it. */
  function Taken(p: Property, longs: nat): Property {
    if p.Value? && |p.bytes| > 4 * longs then p else Absent
  }

  /** The first 32-bit unit, 0 if there is none. */
  function Announced(bits: nat, value: seq<byte>): nat {
    if bits == 32 && |value| >= 4 then FromBigEndian(value[..4]) else 0
  }

  /** The reader after one `GetProperty`. */
  function AfterTake(r: Reader, p: Property): Reader {
    if p.Absent? then r
    else
      var remaining := Remaining(r);
      var value := Prefix(p, Longs(remaining));
      if p.kind == INCR && !r.incremental then
        if Announced(p.bits, value) > r.maxBytes then r.(outcome := Some(Err(TooBig))) else r.(incremental := true)
      else if p.kind != ExpectedKind(r.target) || p.bits != ExpectedBits(r.target) then
        r.(outcome := Some(Err(TypeMismatch)))
      else if |value| < |p.bytes| || |value| > remaining then r.(outcome := Some(Err(TooBig)))
      else if !r.incremental || value == [] then r.(data := r.data + value, outcome := Some(Ok(r.data + value)))
      else r.(data := r.data + value)
  }

  predicate Reads(r: Reader, e: ReaderEvent) {
    e == Notified(true) || (e.Changed? && r.incremental)
  }

  /** The reader and its property after one event. */
  function AfterEvent(r: Reader, e: ReaderEvent, p: Property): (Reader, Property) {
    if e == Notified(false) then (r.(outcome := Some(Err(Unavailable))), p)
    else if Reads(r, e) then (AfterTake(r, p), Taken(p, Longs(Remaining(r))))
    else (r, p)
  }

  /** The reader's loop, one event at a time; `Value` is the state of its own property on the server. */
  class ReadLoop {
    const target: Atom
    const maxBytes: nat
    var incremental: bool
    var data: seq<byte>
    var property: Property

    constructor (target: Atom, maxBytes: nat)
      ensures this.target == target && this.maxBytes == maxBytes && property == Absent
      ensures State(None) == Reader(target, maxBytes, false, [], None)
    {
      this.target, this.maxBytes := target, maxBytes;
      incremental, data, property := false, [], Absent;
    }

    function State(outcome: Option<Result<seq<byte>, ReadError>>): Reader
      reads this
    {
      Reader(target, maxBytes, incremental, data, outcome)
    }

    method GetProperty(longs: nat) returns (kind: Option<Atom>, bits: nat, value: seq<byte>, after: nat)
      modifies this`property
      ensures property == Taken(old(property), longs)
      ensures old(property).Absent? ==> kind.None?
      ensures old(property).Value? ==>
                && kind == Some(old(property).kind) && bits == old(property).bits
                && value == Prefix(old(property), longs) && after == |old(property).bytes| - |value|
    {
      match property
      case Absent =>
        return None, 0, [], 0;
      case Value(k, b, bytes) =>
        kind, bits := Some(k), b;
        value := if |bytes| <= 4 * longs then bytes else bytes[..4 * longs];
        after := |bytes| - |value|;
        if after == 0 {
          property := Absent;
        }
    }

    method Handle(e: ReaderEvent) returns (outcome: Option<Result<seq<byte>, ReadError>>)
      modifies this
      ensures (State(outcome), property) == AfterEvent(old(State(None)), e, old(property))
      ensures e == Notified(false) ==> outcome == Some(Err(Unavailable))
      ensures (e == Notified(true) || (e.Changed? && old(incremental))) && old(property).Value? &&
              (old(property).kind != "INCR" || old(incremental)) &&
              (old(property).kind != (if target == "TARGETS" then "ATOM" else target) ||
               old(property).bits != (if target == "TARGETS" then 32 else 8)) ==>
                outcome == Some(Err(TypeMismatch))
      ensures e.Changed? && !old(incremental) ==> outcome.None? && property == old(property)
    {
      if e == Notified(false) {
        return Some(Err(Unavailable));
      }
      if e.Changed? && !incremental {
        return None;
      }
      var remaining := if |data| < maxBytes then maxBytes - |data| else 0;
      var kind, bits, value, after := GetProperty(Longs(remaining));
      if kind.None? {
        return None;
      }
      if kind == Some(INCR) && !incremental {
        if Announced(bits, value) > maxBytes {
          return Some(Err(TooBig));
        }
        incremental := true;
        return None;
      }
      if kind.value != ExpectedKind(target) || bits != ExpectedBits(target) {
        return Some(Err(TypeMismatch));
      }
      if after != 0 || |value| > remaining {
        return Some(Err(TooBig));
      }
      data := data + value;
      return if !incremental || value == [] then Some(Ok(data)) else None;
    }
  }
}

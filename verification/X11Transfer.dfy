/** One owner and any number of readers around an X server: windows, properties and first-in-first-out event queues. */
module X11Transfer {
  import opened Wrappers
  import opened Bytes
  import opened X11Selection

  /** What the owner is told, in order. It is told of deletions only on windows it watches. */
  datatype OwnerEvent = Asked(request: Request) | Deleted(window: nat)

  /**
   * A reader's window. `answer` records how its request was answered, `chunks` how many non-empty chunks it has taken,
   * `expired` that the owner has given the transfer up, `unowned` that nobody owned the selection when it asked.
   */
  datatype Window = Window(
    reader: Reader, property: Property, inbox: seq<ReaderEvent>, watched: bool,
    answer: Option<Answer>, chunks: nat, expired: bool, unowned: bool)

  datatype World = World(
    owned: bool, data: map<Atom, seq<byte>>, transfers: map<nat, Transfer>,
    outbox: seq<OwnerEvent>, windows: seq<Window>)

  datatype Event =
    | Publish(reps: seq<Offer>)
    | Open(target: Atom, maxBytes: nat)
    | Serve(listing: seq<nat>)
    | Read(w: nat)
    | TimeOut(w: nat)
    | Expire(w: nat)

  predicate Alive(w: Window) { w.reader.outcome.None? }

  predicate Enabled(y: World, e: Event) {
    match e
    case Publish(_) => true
    case Open(_, _) => true
    case Serve(_) => y.outbox != [] && WindowOf(y.outbox[0]) < |y.windows|
    case Read(w) => w < |y.windows| && Alive(y.windows[w]) && y.windows[w].inbox != []
    case TimeOut(w) => w < |y.windows| && Alive(y.windows[w])
    case Expire(w) => w < |y.windows| && w in y.transfers
  }

  function WindowOf(e: OwnerEvent): nat {
    match e
    case Asked(q) => q.window
    case Deleted(w) => w
  }

  /** A closed window takes its property and its events with it. */
  function Closed(w: Window): Window {
    if Alive(w) then w else w.(property := Absent, inbox := [])
  }

  /** Without an owner the read ends at once, empty. */
  function Opened(y: World, target: Atom, maxBytes: nat): Window {
    var reader := Reader(target, maxBytes, false, [], None);
    if y.owned then Window(reader, Absent, [], false, None, 0, false, false)
    else Window(reader.(outcome := Some(Ok([]))), Absent, [], false, None, 0, false, true)
  }

  function AfterOpen(y: World, target: Atom, maxBytes: nat): World {
    var w := |y.windows|;
    y.(windows := y.windows + [Opened(y, target, maxBytes)],
       outbox := if y.owned then y.outbox + [Asked(Request(w, CLIPBOARD, target))] else y.outbox)
  }

  /** The answer reaches the property first, then the reader's queue. */
  function Answered(w: Window, a: Answer): Window {
    w.(answer := Some(a), watched := w.watched || a.Chunked?,
       property := FirstProperty(a),
       inbox := w.inbox + if a.Refuse? then [Notified(false)] else [Changed, Notified(true)])
  }

  function AfterAsked(y: World, chunk: nat, q: Request, listing: seq<nat>): World
    requires q.window < |y.windows|
  {
    var w := y.windows[q.window];
    if !Alive(w) then y
    else
      var a := AnswerTo(chunk, y.data, y.transfers, q, listing);
      y.(transfers := AfterAnswer(y.transfers, q.window, a), windows := y.windows[q.window := Answered(w, a)])
  }

  function Refilled(w: Window, p: Property): Window {
    w.(property := p, inbox := w.inbox + [Changed])
  }

  function AfterDeleted(y: World, chunk: nat, w: nat): World
    requires w < |y.windows| && (w in y.transfers ==> y.transfers[w].offset <= |y.transfers[w].data|)
  {
    if w !in y.transfers then y
    else
      var reachable := Alive(y.windows[w]);
      y.(transfers := AfterChunk(chunk, y.transfers, w, reachable),
         windows := if reachable then y.windows[w := Refilled(y.windows[w], NextChunk(chunk, y.transfers[w]))]
                    else y.windows)
  }

  ghost predicate OffsetsFit(y: World) {
    forall w :: w in y.transfers ==> y.transfers[w].offset <= |y.transfers[w].data|
  }

  /** The owner takes its first event. */
  function AfterServe(y: World, chunk: nat, listing: seq<nat>): World
    requires Enabled(y, Serve(listing)) && OffsetsFit(y)
  {
    var rest := y.(outbox := y.outbox[1..]);
    match y.outbox[0]
    case Asked(q) => AfterAsked(rest, chunk, q, listing)
    case Deleted(w) => AfterDeleted(rest, chunk, w)
  }

  /** The window after its reader has taken the first event of its queue. */
  function AfterHandled(w: Window): Window
    requires w.inbox != []
  {
    var (reader, property) := AfterEvent(w.reader, w.inbox[0], w.property);
    Closed(w.(reader := reader, property := property, inbox := w.inbox[1..],
              chunks := if |reader.data| > |w.reader.data| && w.reader.incremental then w.chunks + 1 else w.chunks))
  }

  /** Reading has deleted the property. */
  predicate Deletes(w: Window)
    requires w.inbox != []
  {
    w.property.Value? && AfterEvent(w.reader, w.inbox[0], w.property).1.Absent?
  }

  function AfterRead(y: World, w: nat): World
    requires Enabled(y, Read(w))
  {
    var window := y.windows[w];
    y.(windows := y.windows[w := AfterHandled(window)],
       outbox := if Deletes(window) && window.watched then y.outbox + [Deleted(w)] else y.outbox)
  }

  function GivenUp(w: Window): Window {
    Closed(w.(reader := w.reader.(outcome := Some(Err(TimedOut)))))
  }

  function After(y: World, chunk: nat, e: Event): World
    requires Enabled(y, e) && OffsetsFit(y)
  {
    match e
    case Publish(reps) => y.(owned := true, data := Offered(reps))
    case Open(target, maxBytes) => AfterOpen(y, target, maxBytes)
    case Serve(listing) => AfterServe(y, chunk, listing)
    case Read(w) => AfterRead(y, w)
    case TimeOut(w) => y.(windows := y.windows[w := GivenUp(y.windows[w])])
    case Expire(w) => y.(transfers := y.transfers - {w}, windows := y.windows[w := y.windows[w].(expired := true)])
  }

  predicate Init(y: World) {
    !y.owned && y.data == map[] && y.transfers == map[] && y.outbox == [] && y.windows == []
  }
}

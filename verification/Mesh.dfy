/** The mesh of daemons as a state machine: any number of nodes, any connections between them, any interleaving. */
module Mesh {
  import opened Wrappers
  import opened Daemon

  /** One direction of a connection; `back` is the index of the other direction. */
  datatype Link = Link(from: NodeId, to: NodeId, back: nat)

  /**
   * `capacity` bounds the messages under way on a link; `publish` is what a node's backend holds after applying a
   * clip.
   */
  datatype Topology = Topology(size: nat, links: seq<Link>, capacity: nat, publish: (NodeId, Clip) -> Snapshot)

  ghost predicate WellFormed(t: Topology) {
    t.capacity > 0 && forall l :: 0 <= l < |t.links| ==> t.links[l].from < t.size && t.links[l].to < t.size
  }

  /** Connections are bidirectional. */
  ghost predicate Paired(t: Topology) {
    forall l {:trigger t.links[l]} :: 0 <= l < |t.links| ==>
      t.links[l].back < |t.links| && t.links[t.links[l].back] == Link(t.links[l].to, t.links[l].from, l)
  }

  /** A broadcast in progress: the slots still to be written, then, for a received clip, the apply. */
  datatype Job = Idle | Busy(clip: Clip, targets: set<nat>)

  /** How a node came to know a clip: its own watcher created it, or the reader of a link accepted it first. */
  datatype Source = Local | From(link: nat)

  /** What wrote a clipboard last. */
  datatype Writer = Initial | Copied | Applied(clip: Clip)

  /**
   * The guarded state, the ids seen (with their source on record) and the watcher; the rest records what has
   * happened.
   */
  datatype Node = Node(
    guarded: Guarded,
    seen: map<ClipId, Source>,
    watcher: Job,
    copies: nat,             // values the user has put on the clipboard
    announced: nat,          // clips the watcher has created
    copied: set<Content>,
    applied: set<ClipId>,      // applies attempted
    failed: set<ClipId>,
    writer: Writer)

  /** The sender's newest-value slot, the stream, the receiving task; the rest records what has happened on the link. */
  datatype LinkState = LinkState(
    slot: Option<Clip>,
    wire: seq<Clip>,
    reader: Job,
    posted: set<ClipId>,
    superseded: set<ClipId>,   // overwritten in the slot before being sent
    last: Option<Clip>)      // the last clip posted

  /** `created` records every clip so far; steps look at it only to keep new ids distinct. */
  datatype State = State(nodes: seq<Node>, links: seq<LinkState>, created: map<ClipId, Clip>)

  datatype Event =
    | UserCopy(n: NodeId, snapshot: Snapshot)
    | Watch(n: NodeId, id: ClipId)
    | WatcherPost(n: NodeId, target: nat)
    | ReaderPost(l: nat, target: nat)
    | Send(l: nat)
    | Deliver(l: nat)
    | Apply(l: nat, ok: bool)

  /** The links a node posts a clip on: all of its own except the one back to where it came from. */
  function Targets(t: Topology, n: NodeId, except: Option<nat>): set<nat> {
    set l | 0 <= l < |t.links| && t.links[l].from == n && Some(l) != except
  }

  /** Every slot still to be written belongs to node `n`. */
  ghost predicate Outgoing(t: Topology, job: Job, n: NodeId) {
    job.Busy? ==> forall m :: m in job.targets ==> m < |t.links| && t.links[m].from == n
  }

  ghost predicate Shape(t: Topology, s: State) {
    && |s.nodes| == t.size
    && |s.links| == |t.links|
    && (forall n :: 0 <= n < |s.nodes| ==>
          && TokensPositive(s.nodes[n].guarded.suppressed)
          && Outgoing(t, s.nodes[n].watcher, n)
          && (s.nodes[n].watcher.Busy? ==> s.nodes[n].watcher.targets != {}))
    && (forall l :: 0 <= l < |s.links| ==> Outgoing(t, s.links[l].reader, t.links[l].to))
  }

  ghost predicate Enabled(t: Topology, s: State, e: Event)
    requires WellFormed(t) && Shape(t, s)
  {
    match e
    case UserCopy(n, _) => n < t.size
    // Under the apply lock, which a watcher keeps until it has written every slot.
    case Watch(n, id) => n < t.size && s.nodes[n].watcher.Idle? && id !in s.created
    case WatcherPost(n, target) => n < t.size && s.nodes[n].watcher.Busy? && target in s.nodes[n].watcher.targets
    case ReaderPost(l, target) => l < |t.links| && s.links[l].reader.Busy? && target in s.links[l].reader.targets
    case Send(l) => l < |t.links| && s.links[l].slot.Some? && |s.links[l].wire| < t.capacity
    case Deliver(l) => l < |t.links| && s.links[l].wire != [] && s.links[l].reader.Idle?
    case Apply(l, _) =>
      && l < |t.links| && s.links[l].reader.Busy? && s.links[l].reader.targets == {}
      && s.nodes[t.links[l].to].watcher.Idle?
  }

  /** A clip written into a link's slot, over whatever was still waiting there. */
  function Posted(k: LinkState, clip: Clip): LinkState {
    k.(slot := Some(clip), last := Some(clip), posted := k.posted + {clip.id},
       superseded := if k.slot.Some? then k.superseded + {k.slot.value.id} else k.superseded)
  }

  /** The watcher's job once it has written one more slot. */
  function WithoutTarget(job: Job, target: nat): Job
    requires job.Busy?
  {
    if job.targets - {target} == {} then Idle else job.(targets := job.targets - {target})
  }

  function Announced(t: Topology, n: NodeId, node: Node, guarded: Guarded, clip: Clip): Node {
    var targets := Targets(t, n, None);
    node.(guarded := guarded, seen := node.seen[clip.id := Local], announced := node.announced + 1,
          watcher := if targets == {} then Idle else Busy(clip, targets))
  }

  function AfterCopy(t: Topology, s: State, n: NodeId, snapshot: Snapshot): (r: State)
    requires Shape(t, s) && n < t.size
    ensures Shape(t, r)
  {
    var node := s.nodes[n];
    s.(nodes := s.nodes[n := node.(guarded := node.guarded.(clipboard := Some(snapshot)), copies := node.copies + 1,
                                   copied := node.copied + {snapshot.content}, writer := Copied)])
  }

  function AfterWatch(t: Topology, s: State, n: NodeId, id: ClipId): (r: State)
    requires Shape(t, s) && n < t.size && s.nodes[n].watcher.Idle?
    ensures Shape(t, r)
  {
    var node := s.nodes[n];
    var (guarded, found) := Observe(node.guarded);
    if found.None? then s.(nodes := s.nodes[n := node.(guarded := guarded)])
    else
      var clip := Clip(id, n, found.value.content);
      s.(nodes := s.nodes[n := Announced(t, n, node, guarded, clip)], created := s.created[id := clip])
  }

  function AfterWatcherPost(t: Topology, s: State, n: NodeId, target: nat): (r: State)
    requires Shape(t, s) && n < t.size && s.nodes[n].watcher.Busy? && target in s.nodes[n].watcher.targets
    ensures Shape(t, r)
  {
    var node := s.nodes[n];
    s.(nodes := s.nodes[n := node.(watcher := WithoutTarget(node.watcher, target))],
       links := s.links[target := Posted(s.links[target], node.watcher.clip)])
  }

  function AfterReaderPost(t: Topology, s: State, l: nat, target: nat): (r: State)
    requires Shape(t, s) && l < |t.links| && s.links[l].reader.Busy? && target in s.links[l].reader.targets
    ensures Shape(t, r)
  {
    var k := s.links[l];
    var links := s.links[l := k.(reader := k.reader.(targets := k.reader.targets - {target}))];
    s.(links := links[target := Posted(links[target], k.reader.clip)])
  }

  function AfterSend(t: Topology, s: State, l: nat): (r: State)
    requires Shape(t, s) && l < |t.links| && s.links[l].slot.Some?
    ensures Shape(t, r)
  {
    var k := s.links[l];
    s.(links := s.links[l := k.(slot := None, wire := k.wire + [k.slot.value])])
  }

  function AfterDeliver(t: Topology, s: State, l: nat): (r: State)
    requires WellFormed(t) && Shape(t, s) && l < |t.links| && s.links[l].wire != []
    ensures Shape(t, r)
  {
    var k := s.links[l];
    var n := t.links[l].to;
    var clip := k.wire[0];
    if clip.id in s.nodes[n].seen then s.(links := s.links[l := k.(wire := k.wire[1..])])
    else
      var job := Busy(clip, Targets(t, n, Some(t.links[l].back)));
      s.(links := s.links[l := k.(wire := k.wire[1..], reader := job)],
         nodes := s.nodes[n := s.nodes[n].(seen := s.nodes[n].seen[clip.id := From(l)])])
  }

  function AfterApply(t: Topology, s: State, l: nat, ok: bool): (r: State)
    requires WellFormed(t) && Shape(t, s) && l < |t.links| && s.links[l].reader.Busy?
    ensures Shape(t, r)
  {
    var k := s.links[l];
    var n := t.links[l].to;
    var clip := k.reader.clip;
    var node := s.nodes[n].(applied := s.nodes[n].applied + {clip.id});
    var after :=
      if ok then node.(guarded := Published(node.guarded, t.publish(n, clip)), writer := Applied(clip))
      else node.(failed := node.failed + {clip.id});
    s.(links := s.links[l := k.(reader := Idle)], nodes := s.nodes[n := after])
  }

  function Step(t: Topology, s: State, e: Event): (r: State)
    requires WellFormed(t) && Shape(t, s) && Enabled(t, s, e)
    ensures Shape(t, r)
  {
    match e
    case UserCopy(n, snapshot) => AfterCopy(t, s, n, snapshot)
    case Watch(n, id) => AfterWatch(t, s, n, id)
    case WatcherPost(n, target) => AfterWatcherPost(t, s, n, target)
    case ReaderPost(l, target) => AfterReaderPost(t, s, l, target)
    case Send(l) => AfterSend(t, s, l)
    case Deliver(l) => AfterDeliver(t, s, l)
    case Apply(l, ok) => AfterApply(t, s, l, ok)
  }

  /** Nothing in flight; a node whose first capture failed has content its watcher has not looked at. */
  ghost predicate InitialNode(node: Node) {
    && node.guarded.suppressed == map[]
    && node.guarded.previous in {None, node.guarded.clipboard}
    && node.seen == map[] && node.watcher == Idle
    && node.copies == (if WouldAnnounce(node.guarded) then 1 else 0)
    && (WouldAnnounce(node.guarded) ==> node.guarded.clipboard.value.content in node.copied)
    && node.announced == 0 && node.applied == {} && node.failed == {} && node.writer == Initial
  }

  ghost predicate Init(t: Topology, s: State) {
    && Shape(t, s)
    && (forall n :: 0 <= n < t.size ==> InitialNode(s.nodes[n]))
    && (forall l :: 0 <= l < |t.links| ==> s.links[l] == LinkState(None, [], Idle, {}, {}, None))
    && s.created == map[]
  }

  ghost predicate IsPath(t: Topology, states: seq<State>, events: seq<Event>)
    requires WellFormed(t)
  {
    && |states| == |events| + 1
    && (forall i :: 0 <= i < |states| ==> Shape(t, states[i]))
    && forall i {:trigger events[i]} :: 0 <= i < |events| ==>
         Enabled(t, states[i], events[i]) && states[i + 1] == Step(t, states[i], events[i])
  }

  /** A run: the states passed through and the events between them. */
  ghost predicate IsRun(t: Topology, states: seq<State>, events: seq<Event>)
    requires WellFormed(t)
  {
    IsPath(t, states, events) && Init(t, states[0])
  }
}

/** What every step of the mesh keeps, and what therefore holds in every run. */
module MeshSafety {
  import opened Daemon
  import opened Mesh

  // ---------------------------------------------------------------------------
  // No feedback
  // ---------------------------------------------------------------------------

  function Pending(g: Guarded): nat { if WouldAnnounce(g) then 1 else 0 }

  /** Each announced clip, and each content about to be announced, is paid for by a copy of this node's user. */
  ghost predicate Accounted(t: Topology, s: State)
    requires Shape(t, s)
  {
    && (forall n :: 0 <= n < t.size ==> s.nodes[n].announced + Pending(s.nodes[n].guarded) <= s.nodes[n].copies)
    && (forall n :: 0 <= n < t.size && WouldAnnounce(s.nodes[n].guarded) ==>
          s.nodes[n].guarded.clipboard.value.content in s.nodes[n].copied)
    && (forall id :: id in s.created ==>
          var c := s.created[id];
          c.id == id && c.origin < t.size && c.content in s.nodes[c.origin].copied)
  }

  lemma WatchAccounts(t: Topology, s: State, n: NodeId, id: ClipId)
    requires WellFormed(t) && Shape(t, s) && Accounted(t, s) && Enabled(t, s, Watch(n, id))
    ensures Accounted(t, AfterWatch(t, s, n, id))
  {
  }

  lemma ApplyAccounts(t: Topology, s: State, l: nat, ok: bool)
    requires WellFormed(t) && Shape(t, s) && Accounted(t, s) && Enabled(t, s, Apply(l, ok))
    ensures Accounted(t, AfterApply(t, s, l, ok))
  {
  }

  lemma StepAccounts(t: Topology, s: State, e: Event)
    requires WellFormed(t) && Shape(t, s) && Accounted(t, s) && Enabled(t, s, e)
    ensures Accounted(t, Step(t, s, e))
  {
    match e
    case Watch(n, id) => WatchAccounts(t, s, n, id);
    case Apply(l, ok) => ApplyAccounts(t, s, l, ok);
    case _ =>
  }

  /** What an apply has written is not about to be announced, now or once its echo has been looked at. */
  ghost predicate NoEcho(t: Topology, s: State)
    requires Shape(t, s)
  {
    forall n :: 0 <= n < t.size && s.nodes[n].writer.Applied? ==> !WouldAnnounce(s.nodes[n].guarded)
  }

  lemma StepKeepsNoEcho(t: Topology, s: State, e: Event)
    requires WellFormed(t) && Shape(t, s) && Enabled(t, s, e) && NoEcho(t, s)
    ensures NoEcho(t, Step(t, s, e))
  {
  }

  // ---------------------------------------------------------------------------
  // Clips under way
  // ---------------------------------------------------------------------------

  ghost predicate Known(created: map<ClipId, Clip>, c: Clip) {
    c.id in created && created[c.id] == c
  }

  ghost predicate LinkKnown(created: map<ClipId, Clip>, k: LinkState) {
    && (k.slot.Some? ==> Known(created, k.slot.value))
    && (forall i :: 0 <= i < |k.wire| ==> Known(created, k.wire[i]))
    && (k.reader.Busy? ==> Known(created, k.reader.clip))
    && (k.last.Some? ==> Known(created, k.last.value))
  }

  ghost predicate AcceptedBy(node: Node, id: ClipId, source: Source) {
    id in node.seen && node.seen[id] == source
  }

  /** Every clip under way is a created one. */
  ghost predicate LinksKnown(t: Topology, s: State)
    requires WellFormed(t) && Shape(t, s)
  {
    forall l :: 0 <= l < |t.links| ==> LinkKnown(s.created, s.links[l])
  }

  lemma StepKeepsLinksKnown(t: Topology, s: State, e: Event)
    requires WellFormed(t) && Shape(t, s) && Enabled(t, s, e) && LinksKnown(t, s)
    requires WatchersKnown(t, s)
    ensures LinksKnown(t, Step(t, s, e))
  {
  }

  /** So is the clip a watcher is posting, and it is one of its own. */
  ghost predicate WatchersKnown(t: Topology, s: State)
    requires WellFormed(t) && Shape(t, s)
  {
    forall n :: 0 <= n < t.size && s.nodes[n].watcher.Busy? ==>
      Known(s.created, s.nodes[n].watcher.clip) && s.nodes[n].watcher.clip.origin == n
  }

  lemma StepKeepsWatchersKnown(t: Topology, s: State, e: Event)
    requires WellFormed(t) && Shape(t, s) && Enabled(t, s, e) && WatchersKnown(t, s)
    ensures WatchersKnown(t, Step(t, s, e))
  {
  }

  /** A reader works on the clip it was the first to accept for its node. */
  ghost predicate ReadersAccepted(t: Topology, s: State)
    requires WellFormed(t) && Shape(t, s)
  {
    forall l :: 0 <= l < |t.links| && s.links[l].reader.Busy? ==>
      AcceptedBy(s.nodes[t.links[l].to], s.links[l].reader.clip.id, From(l))
  }

  lemma StepKeepsReadersAccepted(t: Topology, s: State, e: Event)
    requires WellFormed(t) && Shape(t, s) && Enabled(t, s, e) && ReadersAccepted(t, s)
    requires SeenCreated(t, s)
    ensures ReadersAccepted(t, Step(t, s, e))
  {
  }

  /** A watcher works on a clip it created. */
  ghost predicate WatchersAccepted(t: Topology, s: State)
    requires WellFormed(t) && Shape(t, s)
  {
    forall n :: 0 <= n < t.size && s.nodes[n].watcher.Busy? ==>
      AcceptedBy(s.nodes[n], s.nodes[n].watcher.clip.id, Local)
  }

  lemma StepKeepsWatchersAccepted(t: Topology, s: State, e: Event)
    requires WellFormed(t) && Shape(t, s) && Enabled(t, s, e) && WatchersAccepted(t, s)
    requires SeenCreated(t, s)
    ensures WatchersAccepted(t, Step(t, s, e))
  {
  }

  /** Only created clips are seen. */
  ghost predicate SeenCreated(t: Topology, s: State)
    requires WellFormed(t) && Shape(t, s)
  {
    forall n, id :: 0 <= n < t.size && id in s.nodes[n].seen ==> id in s.created
  }

  lemma StepKeepsSeenCreated(t: Topology, s: State, e: Event)
    requires WellFormed(t) && Shape(t, s) && Enabled(t, s, e) && SeenCreated(t, s)
    requires LinksKnown(t, s)
    ensures SeenCreated(t, Step(t, s, e))
  {
  }

  /** The origin of a clip has seen it first. */
  ghost predicate OriginsSeen(t: Topology, s: State)
    requires WellFormed(t) && Shape(t, s)
  {
    forall id {:trigger s.created[id]} :: id in s.created ==>
      s.created[id].id == id && s.created[id].origin < t.size && AcceptedBy(s.nodes[s.created[id].origin], id, Local)
  }

  lemma WatchKeepsOriginsSeen(t: Topology, s: State, n: NodeId, id: ClipId)
    requires WellFormed(t) && Shape(t, s) && Enabled(t, s, Watch(n, id)) && OriginsSeen(t, s) && SeenCreated(t, s)
    ensures OriginsSeen(t, AfterWatch(t, s, n, id))
  {
  }

  lemma DeliverKeepsOriginsSeen(t: Topology, s: State, l: nat)
    requires WellFormed(t) && Shape(t, s) && Enabled(t, s, Deliver(l)) && OriginsSeen(t, s) && SeenCreated(t, s)
    ensures OriginsSeen(t, AfterDeliver(t, s, l))
  {
  }

  lemma StepKeepsOriginsSeen(t: Topology, s: State, e: Event)
    requires WellFormed(t) && Shape(t, s) && Enabled(t, s, e) && OriginsSeen(t, s)
    requires SeenCreated(t, s)
    ensures OriginsSeen(t, Step(t, s, e))
  {
    match e
    case Watch(n, id) => WatchKeepsOriginsSeen(t, s, n, id);
    case Deliver(l) => DeliverKeepsOriginsSeen(t, s, l);
    case _ =>
  }

  /** A node posts only what it has seen. */
  ghost predicate PostedSeen(t: Topology, s: State)
    requires WellFormed(t) && Shape(t, s)
  {
    forall l, id :: 0 <= l < |t.links| && id in s.links[l].posted ==> id in s.nodes[t.links[l].from].seen
  }

  lemma StepKeepsPostedSeen(t: Topology, s: State, e: Event)
    requires WellFormed(t) && Shape(t, s) && Enabled(t, s, e) && PostedSeen(t, s)
    requires ReadersAccepted(t, s) && WatchersAccepted(t, s)
    ensures PostedSeen(t, Step(t, s, e))
  {
  }

  /** A node applies only what it accepted from a link. */
  ghost predicate AppliedAccepted(t: Topology, s: State)
    requires WellFormed(t) && Shape(t, s)
  {
    forall n, id :: 0 <= n < t.size && id in s.nodes[n].applied ==>
      id in s.nodes[n].seen && s.nodes[n].seen[id].From?
  }

  lemma StepKeepsAppliedAccepted(t: Topology, s: State, e: Event)
    requires WellFormed(t) && Shape(t, s) && Enabled(t, s, e) && AppliedAccepted(t, s)
    requires ReadersAccepted(t, s) && SeenCreated(t, s)
    ensures AppliedAccepted(t, Step(t, s, e))
  {
  }

  /** What a reader works on has not been applied yet. */
  ghost predicate ReadersUnapplied(t: Topology, s: State)
    requires WellFormed(t) && Shape(t, s)
  {
    forall l :: 0 <= l < |t.links| && s.links[l].reader.Busy? ==>
      s.links[l].reader.clip.id !in s.nodes[t.links[l].to].applied
  }

  lemma StepKeepsReadersUnapplied(t: Topology, s: State, e: Event)
    requires WellFormed(t) && Shape(t, s) && Enabled(t, s, e) && ReadersUnapplied(t, s)
    requires ReadersAccepted(t, s) && AppliedAccepted(t, s)
    ensures ReadersUnapplied(t, Step(t, s, e))
  {
  }

  /** A slot a reader is still to write has not been posted its clip. */
  ghost predicate ReaderTargetsFresh(t: Topology, s: State)
    requires WellFormed(t) && Shape(t, s)
  {
    forall l, m :: 0 <= l < |t.links| && s.links[l].reader.Busy? && m in s.links[l].reader.targets ==>
      s.links[l].reader.clip.id !in s.links[m].posted
  }

  lemma WatcherPostKeepsReaderTargetsFresh(t: Topology, s: State, n: NodeId, target: nat)
    requires WellFormed(t) && Shape(t, s) && ReaderTargetsFresh(t, s) && ReadersAccepted(t, s) && WatchersAccepted(t, s)
    requires n < t.size && s.nodes[n].watcher.Busy? && target in s.nodes[n].watcher.targets
    ensures ReaderTargetsFresh(t, AfterWatcherPost(t, s, n, target))
  {
  }

  lemma ReaderPostKeepsReaderTargetsFresh(t: Topology, s: State, l: nat, target: nat)
    requires WellFormed(t) && Shape(t, s) && ReaderTargetsFresh(t, s) && ReadersAccepted(t, s) && WatchersAccepted(t, s)
    requires l < |t.links| && s.links[l].reader.Busy? && target in s.links[l].reader.targets
    ensures ReaderTargetsFresh(t, AfterReaderPost(t, s, l, target))
  {
  }

  lemma StepKeepsReaderTargetsFresh(t: Topology, s: State, e: Event)
    requires WellFormed(t) && Shape(t, s) && Enabled(t, s, e) && ReaderTargetsFresh(t, s)
    requires ReadersAccepted(t, s) && WatchersAccepted(t, s) && PostedSeen(t, s)
    ensures ReaderTargetsFresh(t, Step(t, s, e))
  {
    match e
    case WatcherPost(n, target) => WatcherPostKeepsReaderTargetsFresh(t, s, n, target);
    case ReaderPost(l, target) => ReaderPostKeepsReaderTargetsFresh(t, s, l, target);
    case _ =>
  }

  /** Nor has one a watcher is still to write. */
  ghost predicate WatcherTargetsFresh(t: Topology, s: State)
    requires WellFormed(t) && Shape(t, s)
  {
    forall n, m :: 0 <= n < t.size && s.nodes[n].watcher.Busy? && m in s.nodes[n].watcher.targets ==>
      s.nodes[n].watcher.clip.id !in s.links[m].posted
  }

  lemma WatcherPostKeepsWatcherTargetsFresh(t: Topology, s: State, n: NodeId, target: nat)
    requires WellFormed(t) && Shape(t, s) && WatcherTargetsFresh(t, s) && ReadersAccepted(t, s)
             && WatchersAccepted(t, s)
    requires n < t.size && s.nodes[n].watcher.Busy? && target in s.nodes[n].watcher.targets
    ensures WatcherTargetsFresh(t, AfterWatcherPost(t, s, n, target))
  {
  }

  lemma ReaderPostKeepsWatcherTargetsFresh(t: Topology, s: State, l: nat, target: nat)
    requires WellFormed(t) && Shape(t, s) && WatcherTargetsFresh(t, s) && ReadersAccepted(t, s)
             && WatchersAccepted(t, s)
    requires l < |t.links| && s.links[l].reader.Busy? && target in s.links[l].reader.targets
    ensures WatcherTargetsFresh(t, AfterReaderPost(t, s, l, target))
  {
  }

  lemma WatchKeepsWatcherTargetsFresh(t: Topology, s: State, n: NodeId, id: ClipId)
    requires WellFormed(t) && Shape(t, s) && Enabled(t, s, Watch(n, id)) && WatcherTargetsFresh(t, s)
    requires PostedSeen(t, s) && SeenCreated(t, s)
    ensures WatcherTargetsFresh(t, AfterWatch(t, s, n, id))
  {
  }

  lemma StepKeepsWatcherTargetsFresh(t: Topology, s: State, e: Event)
    requires WellFormed(t) && Shape(t, s) && Enabled(t, s, e) && WatcherTargetsFresh(t, s)
    requires ReadersAccepted(t, s) && WatchersAccepted(t, s) && PostedSeen(t, s) && SeenCreated(t, s)
    ensures WatcherTargetsFresh(t, Step(t, s, e))
  {
    match e
    case Watch(n, id) => WatchKeepsWatcherTargetsFresh(t, s, n, id);
    case WatcherPost(n, target) => WatcherPostKeepsWatcherTargetsFresh(t, s, n, target);
    case ReaderPost(l, target) => ReaderPostKeepsWatcherTargetsFresh(t, s, l, target);
    case _ =>
  }
}

/** What becomes of a posted clip, and what every node holds once the mesh has settled. */
module MeshCoverage {
  import opened Wrappers
  import opened Daemon
  import opened Mesh
  import opened MeshSafety

  // ---------------------------------------------------------------------------
  // The newest value is never lost
  // ---------------------------------------------------------------------------

  /** A posted clip is in the slot, on the wire, seen by the receiver, or was overwritten in the slot. */
  ghost predicate OnTheWay(k: LinkState, id: ClipId) {
    || (k.slot.Some? && k.slot.value.id == id)
    || (exists c :: c in k.wire && c.id == id)
  }

  ghost predicate PostsAccountedFor(t: Topology, s: State)
    requires WellFormed(t) && Shape(t, s)
  {
    forall l, id :: 0 <= l < |t.links| && id in s.links[l].posted ==>
      OnTheWay(s.links[l], id) || id in s.nodes[t.links[l].to].seen || id in s.links[l].superseded
  }

  lemma StepKeepsPostsAccountedFor(t: Topology, s: State, e: Event)
    requires WellFormed(t) && Shape(t, s) && Enabled(t, s, e) && PostsAccountedFor(t, s)
    ensures PostsAccountedFor(t, Step(t, s, e))
  {
  }

  /** Only other posts overwrite a slot, so the last clip posted on a link is never superseded. */
  ghost predicate LastSurvives(t: Topology, s: State)
    requires WellFormed(t) && Shape(t, s)
  {
    forall l :: 0 <= l < |t.links| ==> LinkLast(s.links[l])
  }

  ghost predicate LinkLast(k: LinkState) {
    && (k.slot.Some? ==> k.slot.value.id in k.posted)
    && (forall i :: 0 <= i < |k.wire| ==> k.wire[i].id in k.posted)
    && (k.last.Some? ==> k.last.value.id in k.posted && k.last.value.id !in k.superseded)
    && (forall id :: id in k.superseded ==> id in k.posted && k.last.Some?)
    && (k.posted != {} ==> k.last.Some?)
    && (k.slot.Some? ==> k.last == k.slot)
  }

  lemma StepKeepsLastSurvives(t: Topology, s: State, e: Event)
    requires WellFormed(t) && Shape(t, s) && Enabled(t, s, e) && LastSurvives(t, s)
    requires ReaderTargetsFresh(t, s) && WatcherTargetsFresh(t, s)
    ensures LastSurvives(t, Step(t, s, e))
  {
  }

  // ---------------------------------------------------------------------------
  // Flooding is complete
  // ---------------------------------------------------------------------------

  /** A clip accepted from a link came over that link. */
  ghost predicate SourcesPosted(t: Topology, s: State)
    requires WellFormed(t) && Shape(t, s)
  {
    forall n, id :: 0 <= n < t.size && id in s.nodes[n].seen && s.nodes[n].seen[id].From? ==>
      var l := s.nodes[n].seen[id].link;
      l < |t.links| && t.links[l].to == n && id in s.links[l].posted
  }

  lemma DeliverKeepsSourcesPosted(t: Topology, s: State, l: nat)
    requires WellFormed(t) && Shape(t, s) && Enabled(t, s, Deliver(l)) && SourcesPosted(t, s) && LastSurvives(t, s)
    ensures SourcesPosted(t, AfterDeliver(t, s, l))
  {
  }

  lemma WatchKeepsSourcesPosted(t: Topology, s: State, n: NodeId, id: ClipId)
    requires WellFormed(t) && Shape(t, s) && Enabled(t, s, Watch(n, id)) && SourcesPosted(t, s)
    ensures SourcesPosted(t, AfterWatch(t, s, n, id))
  {
  }

  lemma PostKeepsSourcesPosted(t: Topology, s: State, e: Event)
    requires WellFormed(t) && Shape(t, s) && Enabled(t, s, e) && SourcesPosted(t, s)
             && (e.WatcherPost? || e.ReaderPost?)
    ensures SourcesPosted(t, Step(t, s, e))
  {
  }

  lemma StepKeepsSourcesPosted(t: Topology, s: State, e: Event)
    requires WellFormed(t) && Shape(t, s) && Enabled(t, s, e) && SourcesPosted(t, s) && LastSurvives(t, s)
    ensures SourcesPosted(t, Step(t, s, e))
  {
    match e
    case Deliver(l) => DeliverKeepsSourcesPosted(t, s, l);
    case Watch(n, id) => WatchKeepsSourcesPosted(t, s, n, id);
    case WatcherPost(_, _) => PostKeepsSourcesPosted(t, s, e);
    case ReaderPost(_, _) => PostKeepsSourcesPosted(t, s, e);
    case _ =>
  }

  /** The task that accepted a clip still has slot `m` to write. */
  ghost predicate StillToPost(s: State, n: NodeId, id: ClipId, m: nat)
    requires n < |s.nodes| && id in s.nodes[n].seen
  {
    match s.nodes[n].seen[id]
    case Local => s.nodes[n].watcher.Busy? && s.nodes[n].watcher.clip.id == id && m in s.nodes[n].watcher.targets
    case From(l) =>
      l < |s.links| && s.links[l].reader.Busy? && s.links[l].reader.clip.id == id && m in s.links[l].reader.targets
  }

  ghost predicate CameFrom(t: Topology, source: Source, m: nat) {
    source.From? && source.link < |t.links| && t.links[source.link].back == m
  }

  /** A node posts what it has seen on all its links, except back to where the clip came from. */
  ghost predicate Flooded(t: Topology, s: State)
    requires WellFormed(t) && Shape(t, s)
  {
    forall m, id :: 0 <= m < |t.links| && id in s.nodes[t.links[m].from].seen ==>
      || id in s.links[m].posted
      || CameFrom(t, s.nodes[t.links[m].from].seen[id], m)
      || StillToPost(s, t.links[m].from, id, m)
  }

  lemma WatchKeepsFlooded(t: Topology, s: State, n: NodeId, id: ClipId)
    requires WellFormed(t) && Shape(t, s) && Flooded(t, s)
    requires n < t.size && s.nodes[n].watcher.Idle? && id !in s.nodes[n].seen
    ensures Flooded(t, AfterWatch(t, s, n, id))
  {
    assert forall m :: 0 <= m < |t.links| && t.links[m].from == n ==> m in Targets(t, n, None);
  }

  lemma DeliverKeepsFlooded(t: Topology, s: State, l: nat)
    requires WellFormed(t) && Shape(t, s) && Flooded(t, s)
    requires l < |t.links| && s.links[l].wire != [] && s.links[l].reader.Idle?
    ensures Flooded(t, AfterDeliver(t, s, l))
  {
    var n, back := t.links[l].to, Some(t.links[l].back);
    assert forall m :: 0 <= m < |t.links| && t.links[m].from == n && Some(m) != back ==> m in Targets(t, n, back);
  }

  lemma WatcherPostKeepsFlooded(t: Topology, s: State, n: NodeId, target: nat)
    requires WellFormed(t) && Shape(t, s) && Flooded(t, s)
    requires n < t.size && s.nodes[n].watcher.Busy? && target in s.nodes[n].watcher.targets
    ensures Flooded(t, AfterWatcherPost(t, s, n, target))
  {
    var rest := s.nodes[n].watcher.targets - {target};
    assert forall m :: m in s.nodes[n].watcher.targets && m != target ==> m in rest;
  }

  lemma ReaderPostKeepsFlooded(t: Topology, s: State, l: nat, target: nat)
    requires WellFormed(t) && Shape(t, s) && Flooded(t, s)
    requires l < |t.links| && s.links[l].reader.Busy? && target in s.links[l].reader.targets
    ensures Flooded(t, AfterReaderPost(t, s, l, target))
  {
  }

  lemma StepKeepsFlooded(t: Topology, s: State, e: Event)
    requires WellFormed(t) && Shape(t, s) && Enabled(t, s, e) && Flooded(t, s)
    requires SeenCreated(t, s)
    ensures Flooded(t, Step(t, s, e))
  {
    match e
    case Watch(n, id) => WatchKeepsFlooded(t, s, n, id);
    case Deliver(l) => DeliverKeepsFlooded(t, s, l);
    case WatcherPost(n, target) => WatcherPostKeepsFlooded(t, s, n, target);
    case ReaderPost(l, target) => ReaderPostKeepsFlooded(t, s, l, target);
    case _ =>
  }

  /** Only the origin of a clip knows it from its own watcher. */
  ghost predicate LocalIsOwn(t: Topology, s: State)
    requires WellFormed(t) && Shape(t, s)
  {
    forall n, id :: 0 <= n < t.size && id in s.nodes[n].seen && s.nodes[n].seen[id].Local? ==>
      id in s.created && s.created[id].origin == n
  }

  lemma StepKeepsLocalIsOwn(t: Topology, s: State, e: Event)
    requires WellFormed(t) && Shape(t, s) && Enabled(t, s, e) && LocalIsOwn(t, s)
    ensures LocalIsOwn(t, Step(t, s, e))
  {
  }

  // ---------------------------------------------------------------------------
  // What a clipboard holds
  // ---------------------------------------------------------------------------

  ghost predicate ClipboardsWritten(t: Topology, s: State)
    requires WellFormed(t) && Shape(t, s)
  {
    forall n :: 0 <= n < t.size ==>
      var node := s.nodes[n];
      && (node.writer.Applied? ==>
            && node.guarded.clipboard == Some(t.publish(n, node.writer.clip))
            && Known(s.created, node.writer.clip))
      && (node.applied <= node.failed || !node.writer.Initial?)
  }

  lemma StepKeepsClipboardsWritten(t: Topology, s: State, e: Event)
    requires WellFormed(t) && Shape(t, s) && Enabled(t, s, e) && ClipboardsWritten(t, s) && LinksKnown(t, s)
    ensures ClipboardsWritten(t, Step(t, s, e))
  {
  }

  /** Whatever was accepted from a link has been applied, or its reader is still on it. */
  ghost predicate AcceptedApplied(t: Topology, s: State)
    requires WellFormed(t) && Shape(t, s)
  {
    forall n, id :: 0 <= n < t.size && id in s.nodes[n].seen && s.nodes[n].seen[id].From? ==>
      id in s.nodes[n].applied || WorkingOn(s.links, s.nodes[n].seen[id].link, id)
  }

  ghost predicate WorkingOn(links: seq<LinkState>, l: nat, id: ClipId) {
    l < |links| && links[l].reader.Busy? && links[l].reader.clip.id == id
  }

  lemma ApplyKeepsAcceptedApplied(t: Topology, s: State, l: nat, ok: bool)
    requires WellFormed(t) && Shape(t, s) && AcceptedApplied(t, s) && SourcesPosted(t, s)
    requires l < |t.links| && s.links[l].reader.Busy?
    ensures AcceptedApplied(t, AfterApply(t, s, l, ok))
  {
  }

  lemma DeliverKeepsAcceptedApplied(t: Topology, s: State, l: nat)
    requires WellFormed(t) && Shape(t, s) && Enabled(t, s, Deliver(l)) && AcceptedApplied(t, s)
    ensures AcceptedApplied(t, AfterDeliver(t, s, l))
  {
  }

  lemma PostKeepsAcceptedApplied(t: Topology, s: State, e: Event)
    requires WellFormed(t) && Shape(t, s) && Enabled(t, s, e) && AcceptedApplied(t, s)
             && (e.WatcherPost? || e.ReaderPost?)
    ensures AcceptedApplied(t, Step(t, s, e))
  {
  }

  lemma StepKeepsAcceptedApplied(t: Topology, s: State, e: Event)
    requires WellFormed(t) && Shape(t, s) && Enabled(t, s, e) && AcceptedApplied(t, s) && SourcesPosted(t, s)
    ensures AcceptedApplied(t, Step(t, s, e))
  {
    match e
    case Apply(l, ok) => ApplyKeepsAcceptedApplied(t, s, l, ok);
    case Deliver(l) => DeliverKeepsAcceptedApplied(t, s, l);
    case WatcherPost(_, _) => PostKeepsAcceptedApplied(t, s, e);
    case ReaderPost(_, _) => PostKeepsAcceptedApplied(t, s, e);
    case _ =>
  }
}

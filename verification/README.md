# ssh-clipboard: a verified model

ssh-clipboard keeps the clipboards of several machines in step. Each machine runs a daemon that watches its clipboard,
floods new values over SSH connections, and applies what it receives. This project models the parts of it whose
correctness is hard to see from one function, and proves what they promise for every input, every run and every
interleaving. Nothing here executes the program; all statements are about the model, which follows the code branch by
branch.

## What is modelled

**The clipboard mesh** (`src/daemon.rs`). `Daemon` holds one daemon's shared state and its critical sections as class
methods, each proved against a function of the state before. `Mesh` composes those functions into a state machine over
any number of nodes and connections: a user copies, a watcher looks and posts to one newest-value slot per connection, a
writer sends, a reader accepts or drops, relays, and applies under the apply lock. Relaying and applying are separate
steps, a watcher holds the lock until its last post, and wires have any finite capacity. The backend behaves as the
repository's own mock: a capture returns what was written last, and an apply is all or nothing. `Duplex` looks below one
connection, at two finite pipes with a large clip in both directions. `Deduplication` relates the pruned `seen` map to a
set that never forgets, and `MeshDeduplication` takes that to the mesh. `MeshRefinement` shows that the daemon's methods
are the mesh's steps. `Echoes` accounts for every suppression token.

**The file bundle** (`src/filebundle.rs`). A selection of trees is flattened in preorder, with a manifest and the bytes
of all files, by a `Collector` that mutates its vectors and running total. A manifest is validated, and a `Destination`
is rebuilt in two passes. `FileSystem` models the calls: `mkdir`, `open` with create-new, `symlink`, `chmod` and
`symlink_metadata` see a path as it was written, with its trailing slashes and dots and NUL bytes, fail as they do on
Linux, permission bits included, and leave behind what they made before failing.

**The container supervisor** (`src/service/container.rs`). Controllers, SSH bridges and supervisors interleave freely
over a settings file, an exclusive lock, a control socket and daemon processes. A request connects to whoever listens at
the socket path, waits, and is answered, dropped when the listener closes, hung up on by a supervisor that hears nothing
for a second, or given up. Daemons die and are started again. `Supervisor.Host` is the clients' sequential code, proved to follow the transitions that the
machine interleaves.

**X11 selections** (`src/clipboard/x11_owner.rs`, `src/clipboard/x11_read.rs`). Both ends of an incremental transfer as
sections 2.5 and 2.7.2 of the ICCCM describe it: the owner's table of transfers, the reader's event loop, properties
that are deleted once read whole, and first-in-first-out event queues, with any number of readers and republications.

**Wire framing** (`src/protocol.rs`). Frames are written to a `Sink` and read from a `Stream` whose bytes arrive in
pieces of any size.

**Snapshots, aliases, URI lists** (`src/clipboard.rs`, `src/clipboard/linux_files.rs`, `src/filebundle.rs`). The
canonical order of representations, the bytes that the fingerprint is the digest of, alias expansion within a budget,
and file URIs by section 2.1 of RFC 3986 in lists by section 5 of RFC 2483.

**Version gossip** (`src/update.rs`, `src/daemon.rs`). What a daemon wants to run, how announcements between daemons
make it ask the registry, and what upgrades and restarts leave of its wish. A connection starts with a hello that names
the sender's wish, and follows its changes from the moment the sender subscribes to them; a look at the registry can
fail. `GossipConvergence` says when news reaches everybody, `GossipWitnesses` how it can fail to.

## Where the code falls short of a promise

- `docs/architecture.md:22` says that a new clipboard event is sent to every peer. A suppression token that no echo
  has answered swallows a later copy of the same content: `Echoes.LeftoverTokenSwallowsACopy`.
  `Echoes.CopyIsAnnouncedExactlyWhen` gives the condition in terms of the history.
- Copies made on two machines at the same moment need not converge: `MeshConflicts.ConcurrentCopiesMayCross` ends with
  each machine holding the other's. Copies that do not overlap converge, however long the mesh has been running:
  `MeshConvergence.SoleCopyConverges`. For overlapping ones coverage is claimed clip by clip:
  `MeshRuns.ClipReachesEveryNode`.
- A `service stop` one of whose pings fails while a supervisor listens may report success over a living daemon. The ping
  may time out (`SupervisorSafety.TimedOutStopMayMissADaemon`), or its byte may come too late for the supervisor,
  which hangs up after a second (`SupervisorSafety.OverlookedStopMayMissADaemon`). `SupervisorSafety.ExplicitStopWins`
  holds for every other stop.
- `docs/architecture.md:38` says that version state only advances. When a daemon starts again, upgraded or not, its
  wish falls exactly when its record lags behind it (`Gossip.RestartLosesWishExactlyWhen`), which happens exactly by
  following a registry that has gone back (`Versions.RecordLagsExactlyWhen`, `Gossip.RestartMayLoseAWish`).
- The same paragraph says that version state converges. Between scheduled checks it does unless a daemon misses
  something, in one of two ways: its look at the registry fails, which is not repeated
  (`GossipWitnesses.FailedLookIsNotRepeated`), or its peer's wish changes after the hello and before the peer subscribes
  to changes (`GossipWitnesses.StaleHelloIsNotCorrected`). `GossipConvergence.DaemonsConverge` holds for all others.
- The bundle decoder refuses manifests over 16 MiB, the encoder does not; `BundleRoundTrip.CopyAndPaste` states both
  sides.
- Validation looks at the components of a path, the file system at its text. A valid manifest fails halfway if a path
  holds a NUL, if a file's or a link's path ends in a slash or a dot, or if a directory's path ends in a dot before
  anything below it exists: `BundleDecoder.FirstPass` and `BundleDecoder.SecondPass` give the exact conditions and errors,
  `BundleWitnesses.DecodeSlashedFile` an example. A root that ends in a slash over a file is validated, and then not
  found: `BundleWitnesses.DecodeSlashedRoot`.
- A valid manifest can also fail halfway because a directory was closed before the turn of something below it:
  `BundleWitnesses.DecodeDescending`. `Extraction.Finishable` is the exact condition on the manifest. Manifests that
  list ancestors first, as the encoder's do, and manifests with open directories never fail there.
- A published format called `INCR` with a value that needs no chunks looks like an announcement to the reader, which
  then waits until it times out: `X11Progress.MisreadHappens`. That is the only such case:
  `X11Progress.CompletesExactlyWhen`.
- A relative path that begins with `localhost` does not survive its file URI: `Uris.UriRoundTrip`.
- Beyond an hour a full `seen` map accepts an old clip a second time: `Deduplication.OlderIdsAreForgotten`.

## Model

| member | source | states |
|---|---|---|
| Daemon.Observe | src/daemon.rs:175-188 | a watcher iteration announces exactly when the content differs from the last observation and no echo is owed for it, and afterwards there is nothing left to look at |
| Daemon.Published | src/daemon.rs:370-395 | content that has just been applied is never announced by the next look, and no stored count is ever zero |
| Daemon.Daemon.constructor | src/daemon.rs:131-144 | a watcher that starts with a successful capture owes no announcement for what was there |
| Daemon.Daemon.WatchOnce | src/daemon.rs:152-197 | one iteration under the lock: announces exactly what differs from the last observation and is owed no echo, and then every slot holds that clip, whatever was waiting there; or takes a token, or changes nothing |
| Daemon.Daemon.ReceiveClip | src/daemon.rs:349-395 | a known id changes nothing; a new one is in every slot but its source's afterwards, which keeps what it had, and if applying succeeds leaves one token |
| Daemon.Daemon.BroadcastClip | src/daemon.rs:418-425 | whatever the order in which the map is visited, the connections stay, the excepted slot stays, and every other slot holds the clip, over what was waiting there |
| Daemon.Daemon.MarkSeen | src/daemon.rs:427-440 | true exactly for ids not in the map; over 4096 ids only those within the last hour stay, with their readings |
| Daemon.Daemon.SuppressFingerprint | src/daemon.rs:393-395 | one more echo is expected, all other counts unchanged |
| MeshRefinement.WatchInMesh | src/daemon.rs:152-197 | a daemon that agrees with its node goes through an iteration as the node goes through a look and its posts, written in any order, and agrees with it again |
| MeshRefinement.ReceiveInMesh | src/daemon.rs:349-425 | the same for a received clip: a delivery, the posts to all but its source in any order, and the apply |
| Echoes.TokensBalance | src/daemon.rs:152-197 | over any history, tokens left plus echoes taken equal the applies, fingerprint by fingerprint |
| Echoes.CopyIsAnnouncedExactlyWhen | src/daemon.rs:175-186 | a copy looked at next is announced if and only if it differs from the last observation and every apply of it has been echoed |
| Echoes.LeftoverTokenSwallowsACopy | src/daemon.rs:175-186 | two applies before one look make the daemon swallow a later, real copy |
| Deduplication.BoundedMapAnswersLikeUnbounded | src/daemon.rs:427-440 | for every id first seen within the last hour the pruned map answers as a set that never forgets, over any sequence of calls |
| Deduplication.EachIdAcceptedOnce | src/daemon.rs:349-352 | if no message outlives the hour, an id is accepted exactly at its first call |
| Deduplication.JustMarkedIsRemembered | src/daemon.rs:432-437 | with the fallback cutoff included, the id just marked survives if and only if nothing is pruned or the cutoff is not after its reading |
| Deduplication.OlderIdsAreForgotten | src/daemon.rs:432-437 | a full map accepts a stale id again exactly when its reading is before the cutoff |
| MeshDeduplication.BoundedMemorySuffices | src/daemon.rs:427-440 | at every step of every run of the mesh, a daemon whose pruned map has had the same calls accepts or drops the clip as the mesh does, unless it first saw that clip more than an hour ago |
| MeshSafety.StepAccounts | src/daemon.rs:152-197 | every step keeps: announced clips and pending announcements of a node are covered by its own user's copies, and every clip's content was copied at its origin |
| MeshSafety.StepKeepsNoEcho | src/daemon.rs:152-197 | every step keeps: a clipboard last written by an apply is not about to be announced |
| MeshSafety.StepKeepsReadersAccepted | src/daemon.rs:349-352 | every step keeps: a clip in a reader's hands was accepted by that node from that link first |
| MeshSafety.StepKeepsOriginsSeen | src/daemon.rs:188-197 | every step keeps: the origin of a clip knows it as its own, so it never accepts it from a peer |
| MeshSafety.StepKeepsReaderTargetsFresh | src/daemon.rs:418-425 | every step keeps: a link that a reader still has to write has not been given that clip before |
| MeshSafety.StepKeepsWatcherTargetsFresh | src/daemon.rs:418-425 | every step keeps: a link that a watcher still has to write has not been given that clip before |
| MeshCoverage.StepKeepsPostsAccountedFor | src/daemon.rs:301-315 | every step keeps: a posted clip is in the slot, on the wire, seen by the receiver, or was overwritten while waiting |
| MeshCoverage.StepKeepsLastSurvives | src/daemon.rs:301-315 | every step keeps: the last clip posted on a link has been posted there and is never the one overwritten |
| MeshCoverage.StepKeepsFlooded | src/daemon.rs:349-425 | every step keeps: what a node has seen it has posted, or still has to post, on every link but the one back |
| MeshCoverage.StepKeepsAcceptedApplied | src/daemon.rs:349-391 | every step keeps: what was accepted from a link has been applied, or its reader is still on it |
| MeshCoverage.StepKeepsClipboardsWritten | src/daemon.rs:369-391 | every step keeps: a clipboard holds what its last writer put there, and an applied clip's content as published |
| MeshRuns.InvHolds | src/daemon.rs:131-440 | all of the above in every state of every run, over any topology |
| MeshRuns.NoFeedback | src/daemon.rs:152-197 | in every run the clips ever created are at most the user copies plus clipboards unread at the start, node by node, and each carries content its origin's user copied |
| MeshRuns.OnlyCopiesAreAnnounced | src/daemon.rs:152-197 | in every run a clip is created only by a look at a clipboard that no apply has written last, and holds what that user copied |
| MeshRuns.PostedAtMostOnce | src/daemon.rs:349-425 | no clip is posted twice on a directed link, cycles and parallel connections included |
| MeshRuns.AppliedAtMostOnce | src/daemon.rs:349-391 | no node applies a clip twice, and none its own |
| MeshRuns.LastIsNeverLost | src/daemon.rs:301-315 | in every state of every run the last clip posted on a link is in its slot, on its wire, or seen at its other end |
| MeshRuns.LastValueArrives | src/daemon.rs:301-315 | once settled, the last clip posted on each link has been seen at its other end |
| MeshRuns.ClipReachesEveryNode | src/daemon.rs:349-425 | once settled, a clip that was never overwritten while waiting has been seen by every node connected to its origin and applied by all others |
| MeshConvergence.SoleCopyConverges | src/daemon.rs:349-391 | from any settled state of any run to a later settled one with one more clip, every other node connected to its origin ends with it on its clipboard, unless the apply there failed or its own user copied in between and last |
| MeshConvergence.SingleCopyIsEverywhere | src/daemon.rs:349-391 | the same for the first clip of a run |
| MeshConflicts.ConcurrentCopiesMayCross | src/daemon.rs:349-391 | two concurrent copies can settle crosswise, with nothing left to announce |
| MeshTermination.StepIsLighter | src/daemon.rs:131-440 | a step other than a user copy lowers a measure of unseen clips, full slots, messages and jobs, or changes nothing |
| MeshTermination.FloodingTerminates | src/daemon.rs:131-440 | between user copies only so many steps of any run can change anything |
| MeshTermination.NeverStuck | src/daemon.rs:131-440 | until everything is settled and looked at, some step is enabled that makes progress |
| Duplex.RunsAreBounded | src/daemon.rs:267-343 | every byte is still to be written, on its way or read, and every event lowers a measure |
| Duplex.IndependentLoopsNeverStick | src/daemon.rs:267-343 | with any positive buffer, reading while writing always leaves some step enabled until both clips are through |
| Duplex.SerializedLoopsDeadlockExactlyWhen | src/daemon.rs:267-270 | writing before reading deadlocks if and only if both clips exceed their pipes; independent loops never do |
| Paths.SplitJoin | src/filebundle.rs:430-446 | a path of proper names is split back into exactly those names |
| Paths.JoinIsSafe | src/filebundle.rs:430-446 | every path the encoder writes is accepted and read back unchanged |
| Paths.SafeExactlyWhen | src/filebundle.rs:430-441 | a path is safe if and only if it is not empty, not absolute, does not begin with a lone dot and never climbs |
| Paths.EndingsAreTold | src/filebundle.rs:430-441 | how a path is understood to end is what was appended to its last name |
| Paths.SafeRelative | src/filebundle.rs:430-441 | whatever is accepted consists of proper names only: nothing absolute, nothing climbing |
| Paths.UniqueName | src/filebundle.rs:448-460 | terminates for every finite set of used names with one that is free, and keeps a free base |
| Paths.ChooseName | src/filebundle.rs:448-460 | the loop over numbered candidates returns the first free one and adds it to the used names |
| Paths.RootNamesDiffer | src/filebundle.rs:150-159 | the roots of a selection are pairwise distinct, even when a source is named like a numbered candidate |
| Paths.RootKeepsBaseExactlyWhen | src/filebundle.rs:448-460 | a name is kept if and only if it has not been taken before |
| Paths.RootIsNumbered | src/filebundle.rs:448-460 | otherwise a space and the least number from 2 on that gives a free name follow it |
| FileTree.FlattenSound | src/filebundle.rs:207-281 | every item of a flattened tree is what looking up its path finds, whatever order the listing came in |
| FileTree.FlattenComplete | src/filebundle.rs:207-281 | everything that can be looked up in a tree is listed |
| FileTree.FlattenOrdered | src/filebundle.rs:207-281 | paths are distinct and no item follows one of its descendants |
| FileTree.PermissionsAreKept | src/filebundle.rs:490-493 | of a mode exactly the nine permission bits are packed |
| Bundle.ManifestRoundTrip | src/filebundle.rs:30-53 | a manifest is read back from its header exactly |
| Bundle.IndexEntries | src/filebundle.rs:385-400 | succeeds if and only if all paths are safe and distinct and link targets good, with an index of exactly those paths |
| Bundle.AncestorsAreDirectories | src/filebundle.rs:401-411 | true if and only if nothing listed lies below a listed non-directory |
| Bundle.ValidateEntries | src/filebundle.rs:385-418 | accepts if and only if paths are safe and distinct, only directories have anything below them, link targets are good and every root is listed |
| BundleEncoder.Collector.CollectFile | src/filebundle.rs:255-273 | fails exactly when the running total would exceed the limit, and then changes nothing |
| BundleEncoder.Collector.Collect | src/filebundle.rs:207-281 | succeeds if and only if everything is a file, directory or link and the total stays within the limit; appends exactly the preorder items and bodies, with the total exact across the recursion |
| BundleEncoder.BodiesSize | src/filebundle.rs:255-273 | the bodies are all the bytes of all files |
| BundleEncoder.CollectSelection | src/filebundle.rs:150-171 | the loop over sources: distinct roots, and all items of all sources in order |
| BundleEncoder.Encode | src/filebundle.rs:142-187 | succeeds if and only if everything is supported and fits, with the error of the first limit that is exceeded; the bundle is its magic, the length of its manifest, the manifest and all files' bytes |
| FileSystem.OwnersBitsDecide | src/filebundle.rs:366-370 | what a directory admits its owner to are the bits 0o100 and 0o200 |
| FileSystem.CreateDirAllIsAllowed | src/filebundle.rs:339-343 | where the way leads through directories and holds no NUL, all of them can be made if and only if the deepest existing one and those above admit their owner; otherwise permission is refused, and in either case only missing directories on the way have been made |
| FileSystem.DottedMustExist | src/filebundle.rs:339 | along an open way, making a directory whose path ends in a dot does nothing if it exists, and otherwise fails after making what is above it |
| FileSystem.EntryIsAllowed | src/filebundle.rs:340-365 | the directories above and then a new entry: possible if and only if the deepest existing directory and those above admit their owner |
| Extraction.WayIsClear | src/filebundle.rs:332-371 | at every stage of either pass the way to an item leads through directories and its own path is free or a directory |
| Extraction.WayIsOpen | src/filebundle.rs:353-371 | while no ancestor has its final mode, every directory on the way admits its owner |
| Extraction.DirectoryStep | src/filebundle.rs:339 | a directory of the first pass is refused if and only if its path holds a NUL, or ends in a dot and nothing below it was made before, with that error |
| Extraction.FileStep | src/filebundle.rs:340-350 | a file of the first pass finds its path free, and is refused if and only if its path holds a NUL or ends in a slash or a dot, with that error |
| Extraction.LinkStep | src/filebundle.rs:354-365 | a link of the second pass finds its path free, and is made if and only if its path holds no NUL and ends in a name, and no directory above it was closed to searching nor the one it goes into to writing; otherwise with the error of the first thing in its way, which the manifest tells |
| Extraction.SoundLinksAreDenied | src/filebundle.rs:354-365 | a link without a NUL that ends in a name can only be refused for lack of permission |
| Extraction.ChmodStep | src/filebundle.rs:366-370 | setting a mode never meets a link, and is refused if and only if a directory above was closed to searching before its turn |
| Extraction.AncestorsFirstIsFinishable | src/filebundle.rs:353-371 | with ancestors listed first no directory is closed too early |
| Extraction.OpenDirectoriesAreFinishable | src/filebundle.rs:353-371 | nor in any order, if all final modes admit their owner |
| Extraction.PermissionsAreSet | src/filebundle.rs:501-507 | mode 0 leaves the defaults, any other sets exactly its nine permission bits |
| Extraction.PresentExactlyWhen | src/filebundle.rs:375-382 | after extraction a path to an item is found if and only if it holds no NUL, no directory above is closed, and what follows the name fits what is there |
| BundleDecoder.ReadBundle | src/filebundle.rs:283-320 | all checks before anything is written, with the error of the first that fails |
| BundleDecoder.AcceptedExactlyWhen | src/filebundle.rs:283-320 | bytes are accepted as a bundle if and only if they are the magic, the length of a manifest from 1 byte to 16 MiB, a valid manifest, and the bytes of its files, and nothing else |
| BundleDecoder.ValidIsExtractable | src/filebundle.rs:385-418 | what validation accepts is what extraction needs |
| BundleDecoder.FirstPass | src/filebundle.rs:332-352 | on a valid manifest it fails exactly with the refusal of the first item whose path text is in the way, and otherwise uses every byte and leaves exactly files and directories with default modes; nothing is written elsewhere |
| BundleDecoder.SecondPass | src/filebundle.rs:353-371 | succeeds if and only if every item can be finished, which the manifest decides, and then leaves every item in its final form; otherwise it ends with the refusal of the last item that cannot be |
| BundleDecoder.Decode | src/filebundle.rs:283-383 | nothing is written unless the whole bundle checks out; a fresh destination ends with exactly the items if and only if they can be extracted, then with all roots or an error for a root not found, and otherwise with exactly the error of the refused call, of the first item that cannot be created or else of the last that cannot be finished; an existing one is only looked at |
| BundleDecoder.RootIsFoundExactlyWhen | src/filebundle.rs:375-382 | a root of an extracted bundle is found if and only if its text fits the entry it names and nothing above is closed |
| BundleWitnesses.DecodeDescending | src/filebundle.rs:353-371 | for any names and modes, a valid bundle with a file listed before its directory, which ends up closed, fails in its second pass for lack of permission |
| BundleWitnesses.DecodeSlashedFile | src/filebundle.rs:348 | for any name, a valid bundle with a file entry that ends in a slash fails as opening a directory does |
| BundleWitnesses.DecodeSlashedRoot | src/filebundle.rs:375-382 | for any name, a valid bundle whose root ends in a slash over a file is extracted and then reported as not materialized |
| BundleRoundTrip.UnpackInverts | src/filebundle.rs:332-352 | entries and concatenated bodies give back the items they were made from |
| BundleRoundTrip.EncodedManifestIsValid | src/filebundle.rs:142-187 | the encoder's manifest always passes validation |
| BundleRoundTrip.EncodedBundleParses | src/filebundle.rs:283-320 | an encoded bundle passes all checks if and only if its manifest is at most 16 MiB |
| BundleRoundTrip.EncodedCanBeExtracted | src/filebundle.rs:142-371 | whatever the encoder lists can be created and finished |
| BundleRoundTrip.TreesRestored | src/filebundle.rs:331-383 | the extracted paths are exactly the selected ones, each with its bytes, link target or kind, and non-zero modes masked |
| BundleRoundTrip.RootHoldsItsSource | src/filebundle.rs:142-383 | what lies below the i-th root is what lay below the i-th source |
| BundleRoundTrip.MirrorIsCopy | src/filebundle.rs:142-383 | files that answer every lookup like a tree are a copy of it, node by node |
| BundleRoundTrip.RootKeepsNameExactlyWhen | src/filebundle.rs:150-159 | a root has its source's own name, or `clipboard-file` for a source without one, if and only if no root before it has |
| BundleRoundTrip.RenamedRootIsNumbered | src/filebundle.rs:448-460 | otherwise it has the least free number from 2 on behind it |
| BundleRoundTrip.CopyAndPaste | src/filebundle.rs:142-383 | encoding and then decoding into a fresh directory returns one root per source in order, each holding a copy of it: bytes, link targets, permission bits, and nothing more; a root is called like its source if and only if no root before it is |
| BundleRoundTrip.ListingOrderDoesNotShow | src/filebundle.rs:241-254 | the order in which a directory lists its children has no influence on a bundle |
| Supervisor.Host.Await | src/service/container.rs:150-156 | at most fifty polls, good if and only if one of them ends as wanted, where the machine's transitions end |
| Supervisor.Host.StartUp | src/service/container.rs:171-199 | good if and only if the first ping or one of fifty more succeeds; launches a supervisor exactly when the first fails |
| Supervisor.Host.Control | src/service/container.rs:142-169 | the flag is saved once and before anything else is done, a stop launches nothing, and what each action answers in terms of the replies to its pings and its order, as in the machine |
| Supervisor.Host.WaitUntilHealthy | src/service.rs:405-416 | true if and only if one of the next forty checks is good, and no check is made after a good one |
| Supervisor.Host.EnsureStarted | src/service/container.rs:201-209 | a service that is not installed or disabled is left alone without a single request; otherwise good if and only if a ping succeeds, before or after a launch, and then a health check |
| SupervisorSafety.ExclusiveHolds | src/service/container.rs:213-241 | every step keeps: one supervisor at a time holds the lock, and the socket file is its own |
| SupervisorSafety.OwnedHolds | src/service/container.rs:296-317 | every step keeps: every living daemon is the one its supervisor waits for |
| SupervisorSafety.OneDaemon | src/service/container.rs:213-322 | at most one supervised daemon is ever alive, and its supervisor holds the lock |
| SupervisorSafety.SocketTellsTheTruth | src/service/container.rs:225-240 | connecting succeeds if and only if some listener is open, binding never finds the path taken, and no supervisor unlinks another's socket |
| SupervisorSafety.ExplicitStopWins | src/service/container.rs:142-159 | once a stop none of whose pings failed at an open listener returns Ok, no daemon is alive and none is spawned until a later enabling write, whatever had been read before |
| SupervisorSafety.TimedOutStopMayMissADaemon | src/service/container.rs:130-159 | a run in which a timed-out ping makes a stop succeed over a living daemon |
| SupervisorSafety.OverlookedStopMayMissADaemon | src/service/container.rs:302-303 | a run in which a supervisor that hangs up after a second makes a stop succeed over its living daemon |
| SupervisorProgress.StepIsProgress | src/service/container.rs:142-322 | with the flag down and nobody new, every step lowers a measure |
| SupervisorProgress.RestIsDone | src/service/container.rs:142-322 | when no step is due, every client has its answer and every supervisor has left or watches a living daemon |
| SupervisorProgress.AcknowledgedStopCompletes | src/service/container.rs:142-322 | after an acknowledged stop, without enabling writes or newcomers, the machine rests within a bounded number of steps with all supervisors gone and no daemon |
| SupervisorService.AcknowledgedRestartCompletes | src/service/container.rs:296-322 | after an acknowledged restart, while the service stays enabled and nobody stops or terminates it, its supervisor stays open, and once no step is due it watches a living daemon spawned since, however often daemons have died |
| SupervisorService.StartBringsUp | src/service/container.rs:171-241 | where no supervisor holds the lock, a start, a restart or a bridge leads to a living daemon once no step is due, with any number of others racing |
| SupervisorService.OkMeansUp | src/service/container.rs:142-209 | a start, a restart or a bridge that returns Ok leaves a living daemon once no step is due |
| SupervisorService.CalmStretchesEnd | src/service/container.rs:142-322 | without newcomers and crashes, an enabled service comes to rest within a bounded number of steps |
| X11Selection.Owner.constructor | src/clipboard/x11_owner.rs:84-98 | the chunk size is the server's limit less 64 bytes, clamped to between 1 and 256 KiB |
| X11Selection.Owner.Publish | src/clipboard/x11_owner.rs:128-146 | of several representations of a format the first is offered, and transfers under way keep their bytes |
| X11Selection.Owner.Convert | src/clipboard/x11_owner.rs:180-265 | in terms of the value on offer: refused, given at once, or announced with a transfer started; at most 128 transfers, lengths of 32 bits; for consumers that may be gone |
| X11Selection.Owner.Deleted | src/clipboard/x11_owner.rs:148-178 | the next chunk, or the end of the transfer after its empty chunk or a failed delivery |
| X11Selection.ReadLoop.Handle | src/clipboard/x11_read.rs:62-107 | the reader after one event, with one bounded read that deletes the property if it took all of it |
| X11Phases.ChunksForIsCeiling | src/clipboard/x11_owner.rs:152-170 | the chunks counted are the ceiling of the length over the chunk size |
| X11Phases.StepKeepsInv | src/clipboard/x11_owner.rs:100-265 | every step, republication, timeout and expiry included, keeps every window in its phase |
| X11Exact.NothingLostOrRepeated | src/clipboard/x11_owner.rs:152-171 | in a transfer under way, what has been read and what lies in the property are together exactly what has been sent |
| X11Exact.ReadsAreExact | src/clipboard/x11_read.rs:47-107 | a finished read has timed out, or returned all bytes of a value within the limit in exactly the chunks it needs, or an error for a larger or refused one |
| X11Exact.ReadReturnsWhatWasOffered | src/clipboard/x11_read.rs:47-107 | a successful read returns what was on offer when its request was answered, whatever was published since |
| X11Exact.FirstRepresentationWins | src/clipboard/x11_owner.rs:129-137 | the offer of a format is its first representation |
| X11Exact.NothingElseIsOffered | src/clipboard/x11_owner.rs:128-146 | whatever is on offer has been published |
| X11Exact.RefusedExactlyWhen | src/clipboard/x11_owner.rs:207-262 | a request for something on offer is refused if and only if it takes chunks and 128 consumers are being served or its length does not fit 32 bits |
| X11Exact.AtomListRoundTrip | src/clipboard/x11_owner.rs:209-221 | the list of targets is read back as its atoms |
| X11Progress.ReadsNeverStall | src/clipboard/x11_read.rs:47-107 | an open read has an event under way unless the owner gave up or its value has been taken for an announcement |
| X11Progress.ReadCanBeCompleted | src/clipboard/x11_read.rs:47-107 | from any reachable state an answered read that nobody gives up can be brought to its right end, whatever else is in the queues |
| X11Progress.EventsAreProgress | src/clipboard/x11_read.rs:47-107 | every event of an answered read brings it closer to its end and no other sets it back |
| X11Progress.CompletesExactlyWhen | src/clipboard/x11_read.rs:47-107 | while the owner keeps its transfer, an answered read can be brought to its right end if and only if its answer is not a plain value of the announcement type |
| X11Progress.MisreadHappens | src/clipboard/x11_read.rs:76-93 | for any value that needs no chunks, a run in which offering it under that name leaves its read open with nothing under way |
| X11Progress.OfferedValueIsRead | src/clipboard/x11_read.rs:47-107 | for any value within the reader's limit and 32 bits, not misread, a run in which a reader gets all of it, in as many chunks as it takes |
| Framing.HeaderRoundTrip | src/protocol.rs:47-86 | a header is read back exactly |
| Framing.Sink.WriteParts | src/protocol.rs:175-193 | the magic, the length, the header and the bodies, or nothing; refused exactly when the header is over 1 MiB |
| Framing.Sink.WriteMessage | src/protocol.rs:88-173 | refuses exactly clips over the limit and headers over 1 MiB, before writing anything |
| Framing.Stream.ReadExact | src/protocol.rs:199-209 | however bytes arrive, the first n of them, or end of stream if there are fewer |
| Framing.Stream.ReadClipBodies | src/protocol.rs:236-255 | the bodies in order, with exactly their length allocated, and at most the limit whatever sizes a header claims |
| Framing.Stream.ReadMessage | src/protocol.rs:195-268 | the next message or the first error, and exactly its bytes consumed; at most the limit allocated for bodies |
| Framing.FrameRoundTrip | src/protocol.rs:88-268 | a frame is read back as sent if and only if the message is well formed for the reader, and otherwise as the stated error or normalized message |
| Framing.StreamRoundTrip | src/protocol.rs:88-268 | reading back the frames of a list of messages yields the list and leaves what follows untouched |
| Framing.ReadIgnoresTheRest | src/protocol.rs:195-268 | what follows a message has no influence on it |
| Framing.PartialFrameIsNotRead | src/protocol.rs:195-268 | no proper prefix of a frame yields a message |
| Framing.WriteAll | src/protocol.rs:88-193 | messages that are not refused leave exactly their frames, in order, behind what was there |
| Framing.ReadAll | src/protocol.rs:195-268 | whatever the pieces, the messages come out in order and no further byte is consumed |
| FramingChecks.BodiesAreRead | src/protocol.rs:236-255 | bodies are read if and only if their sizes fit the limit together and all have arrived, and then are what has arrived |
| FramingChecks.BeginningErrors | src/protocol.rs:199-206 | fewer than eight bytes or another magic are refused, with their errors |
| FramingChecks.HeaderErrors | src/protocol.rs:203-209 | a length of 0 or over 1 MiB, a header cut off and one that does not parse are refused, with their errors |
| FramingChecks.PayloadErrors | src/protocol.rs:210-262 | another protocol version, missing or empty fields, bodies over the limit or cut off are refused, with their errors |
| FramingChecks.ReadExactlyWhen | src/protocol.rs:195-268 | a message is read if and only if the bytes begin with a frame of version 1 that says it, whoever wrote it |
| WhiteSpace.SpacesAreWhite | src/protocol.rs:223 | what is trimmed are the characters with the property White_Space |
| WhiteSpace.TrimTakesAllSpaces | src/protocol.rs:223 | trimming takes off white space at both ends, and all of it |
| WhiteSpace.BlankExactlyWhen | src/protocol.rs:223 | a machine name is dropped as blank if and only if it is nothing but white space |
| WhiteSpace.Utf8ExactlyWhen | src/filebundle.rs:477-478 | text is UTF-8 if and only if it is the encoding of Unicode characters |
| Snapshots.CanonicalAgrees | src/clipboard.rs:36-47 | two lists of representations have the same canonical order if and only if they agree key by key |
| Snapshots.CanonicalIsOrdered | src/clipboard.rs:36-42 | all representations, smaller items first and within an item smaller formats, byte by byte |
| Snapshots.RecordIsWritten | src/clipboard.rs:490-508 | the item, the lengths and the bytes of a record, highest bytes first |
| Snapshots.ListingOrderDoesNotShow | src/clipboard.rs:36-47 | with distinct keys any permutation has the same digest input |
| Snapshots.Digest.AddAll | src/clipboard.rs:490-508 | field by field, the digest is given the records one after the other |
| Snapshots.DigestInputInjective | src/clipboard.rs:490-508 | different lists of representations never have the same digest input |
| Snapshots.FingerprintsTellContentsApart | src/clipboard.rs:36-47 | two snapshots have the same digest input if and only if their representations agree key by key |
| Snapshots.AddPortableAliases | src/clipboard.rs:577-630 | originals stay in front; every addition copies an original under one of its aliases that was missing; the budget is exact, distinct keys stay distinct, no alias that still fits is missing, and originals and aliases are served in their order |
| Uris.DecodeInvertsEncode | src/filebundle.rs:18-28 | percent decoding undoes percent encoding for every byte string |
| UriChecks.ByteIsEncoded | src/filebundle.rs:18-28 | a printable byte other than the ten special ones stands for itself, any other is a percent sign and two capital digits |
| UriChecks.EscapesAreRead | src/filebundle.rs:473-479 | digits may be small, and a percent sign without two digits stands for itself |
| UriChecks.UrisAreRead | src/filebundle.rs:473-487 | `file://` and `file://localhost` are read alike, other schemes and paths that are not UTF-8 are not |
| UriChecks.ListsAreReadByLine | src/filebundle.rs:133-140 | whatever the list, each line counts for itself, trimmed, with either line end; comments and other URIs are skipped |
| Uris.UriRoundTrip | src/filebundle.rs:473-487 | a UTF-8 path comes back from its URI if and only if it does not begin with the host name |
| Uris.ListsRoundTrip | src/filebundle.rs:133-140 | the CRLF list and the list of a copy operation give back exactly their paths if and only if none begins with the host name |
| Uris.FilesRoundTrip | src/clipboard.rs:566-576 | copied files offered to the clipboard and read back are the ones that exist, in order, the first of each group that comes to the same path components |
| UriChecks.TwoFilesAreOffered | src/clipboard/linux_files.rs:7-26 | the formats and texts that two copied files are offered under |
| UriChecks.ExistingIsFiltered | src/filebundle.rs:126-131 | path by path, those that exist stay, in order |
| UriChecks.DistinctIsFiltered | src/clipboard.rs:566-576 | path by path, one is dropped if and only if one before it comes to the same components |
| UriChecks.ComponentsAreNames | src/clipboard.rs:568-573 | the components of an absolute path are its names |
| Uris.DistinctKeepsOneOfEach | src/clipboard.rs:566-576 | of all paths with the same components exactly one is kept, and it is one of those given |
| Uris.SlashesAndDotsDoNotCount | src/clipboard.rs:568-573 | doubling a slash or adding a dot between slashes leaves the path the same |
| Versions.VersionRoundTrip | src/update.rs:43-62 | parsing a printed version returns it |
| Versions.VersionTexts | src/update.rs:43-55 | three numbers of 64 bits with dots in between are a version, plus signs and leading zeros included, and fewer parts are none |
| Versions.MorePartsAreNoVersion | src/update.rs:43-55 | nor are more |
| Versions.NewerExactlyWhen | src/update.rs:36-41 | of two printed versions one is newer if and only if the first number in which they differ is larger |
| Versions.VersionsLookLikeThis | src/update.rs:58-62 | a version prints as `1.20.3`, in decimal digits, and 1.10.0 is newer than 1.9.9 |
| Versions.ReconciledVersions | src/update.rs:156-173 | for printed versions: nothing happens unless the release is later than what runs; then it is recorded and installed, and wanted if it is later than the wish |
| Versions.StartsWellKept | src/update.rs:87-102 | a daemon starts wanting a version that is not older than the one it runs, and if it is later, the record is, too |
| Versions.ReconcilingFollowsTheRegistry | src/update.rs:156-173 | the wish changes exactly when the release is later, and then to the release |
| Versions.ReconcilingAdvances | src/update.rs:156-173 | the wish never falls back or below the running version, and a wish above it stays on record |
| Versions.RecordLagsExactlyWhen | src/update.rs:156-173 | reconciling leaves the record behind the wish if and only if the release is later than the running version but earlier than the wish, or changes nothing and it lagged before |
| Versions.Updater.Reconcile | src/update.rs:156-173 | installs if and only if the release is newer than what runs; then the record is the release, and the wish, too, if it was older or unreadable; otherwise nothing changes |
| Gossip.HintsAreNotBelieved | src/daemon.rs:282-288 | whatever peers announce, forged or not, a daemon wants only what its start or the registry offered, never less than it runs |
| Gossip.WishesAdvance | src/update.rs:156-173 | while a daemon runs, its wish only advances, and changes only by finishing a reconciliation |
| Gossip.RunningVersionsAdvance | src/daemon.rs:282-334 | what a daemon runs changes only by an upgrade, and then to a later version that the registry has offered |
| Gossip.RestartLosesWishExactlyWhen | src/update.rs:87-102 | when a daemon starts again, upgraded or as it was, its wish falls if and only if the record lags behind it |
| Gossip.RestartMayLoseAWish | src/update.rs:87-102 | for any three versions, a run without an upgrade after which a restart loses the wish |
| Gossip.WishChangesOnce | src/update.rs:156-173 | with the registry frozen a daemon's wish changes at most once |
| Gossip.AnnouncementsEnd | src/daemon.rs:316-334 | with the registry frozen and daemons left to themselves, scheduled checks included, all announcements ever sent number at most the pending ones plus one per connection of each daemon that is behind |
| Gossip.HintsAreWorkedOff | src/update.rs:116-134 | between scheduled checks no run of automatic steps is longer than the work at its start |
| GossipConvergence.StepKeepsInformed | src/daemon.rs:282-334 | every step keeps, forged announcements included: whoever is connected to a daemon that is not behind has been told, is going to be told or is looking, unless the step is a failed look or a change of wish between hello and subscription |
| GossipConvergence.HelloInforms | src/daemon.rs:220-246 | a connection begins with its receiver told |
| GossipConvergence.LookingInforms | src/update.rs:116-134 | any check or hint makes up for what was missed |
| GossipConvergence.NotifyingInforms | src/daemon.rs:485-500 | so does asking by hand: the daemon looks again, and everyone who follows it is told again |
| GossipConvergence.DaemonsConverge | src/update.rs:116-173 | whenever nothing is left to do before the next check, everyone connected to a daemon that is not behind the registry is not behind either, along any path whose daemons have missed nothing since they were informed |
| GossipWitnesses.StaleHelloIsNotCorrected | src/daemon.rs:220-250 | for any two versions, a run in which a wish that changes between hello and subscription is never announced on that connection |
| GossipWitnesses.FailedLookIsNotRepeated | src/update.rs:116-134 | for any two versions, a run in which a daemon whose look failed stays behind its peer with nothing left to do |

## Left out

- The macOS file claim (`src/daemon.rs:165-173` and the claim in `receive_clip`): one platform, driven by a clock.
- Native clipboards, AppKit, Wayland, file coordination: the backend contract of the mock takes their place.
- Connections coming and going: the mesh's topology is fixed. A new connection starts with an empty slot, so it adds nothing to what its peers have seen. In the gossip of versions, too, connections are given from the start, each with its hello on the wire.
- Finite message sizes on the mesh's wires: `Duplex` looks at bytes, `Mesh` at whole messages with any finite capacity.
- The mesh remembers every id; `MeshDeduplication` says at which steps the pruned map answers alike.
- The JSON text of headers and manifests: a small self-delimiting encoding with a proved inverse stands for it, so unknown and defaulted fields are not modelled, and sizes in statements are those of this encoding.
- Digests are not computed; statements are about their input. Equal fingerprints of different contents are outside the model.
- Wall-clock limits (3 s requests, 5 s and 30 s X11 limits, one poll a 100 ms): a client or reader may give up, and a transfer may expire, at any moment.
- Supervisor crashes and kills, failing `accept`, the virtual display's process, the choice of environment variables.
- The supervisor and the mesh are modelled on values, since what matters there is the interleaving; the sequential code of their clients and daemons is in `Supervisor.Host` and `Daemon.Daemon`.
- Supervisor.Host.Control: models the flag of the settings file only, because the other settings have no part in stopping.
- File names that are not UTF-8, limits of file name and path length, full disks and other device errors, files that change while being read, and umasks other than 022.
- BundleEncoder.Collector.Collect: does not model files and directories that the process may not read, which end the encoding with an error.
- BundleEncoder.Encode: likewise; everything selected is readable.
- The destination's owner is an ordinary user, to whom permission bits apply; what links lead to that lie in the middle of a path in an existing destination is any function of the file system.
- BundleDecoder.Decode: for an existing destination only the presence of the roots is claimed, because the code checks no more.
- The byte order of 32-bit values on an X11 connection: both ends use the same one.
- X11 requests that name no property, consumers with several properties on one window, the reader's own deletion events (which it ignores), owners other than this one, and the names behind a list of targets.
- Lossy decoding of URI lists that are not UTF-8; `attach_bundle` beyond encoding; the rewriting of representations by `materialize`.
- Sensitive and internal marker formats, rendered images, previews, peer merging, dial backoff, capture retries, configuration checks: true but easy case tables.
- `notify_updates` reads the wish and announces it in two statements; here they are one step.
- Downloading, checking and swapping binaries, and whether a watchdog rolls an update back.
- Terminal interface, setup, SSH commands, service files, packaging scripts and the documentation site.

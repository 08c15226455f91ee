# Verified models of WarpHold

A Dafny model of the parts of WarpHold (a kopia derivative with Fleet) whose
correctness is hardest to see from the code: concurrent protocols, in-place
transformations of a directory tree or a manifest store, and text formats that
must survive being written and read. `dafny verify dfyconfig.toml` checks all of
it.

Concurrent code is modelled as a state machine. Every mutex section, channel
operation, atomic access or file operation is one step, a run is any
interleaving of the threads' steps (`Runs.IsRun`), and the theorems speak about
every state of every run. Code that updates something in place is a class or a
method with loops, proved against a specification. I/O, clocks and the network
are parameters or nondeterministic outcomes: every store, file or stream
operation may also fail.

| module | what it models |
|---|---|
| `Multiplexer` | one gRPC stream shared by many requests: who may put into and close a response channel |
| `SessionRetry` | calls that share, kill and re-establish inner sessions, and what they send again |
| `RecentlyRead`, `ContentWrites` | the ring of recently read contents, asynchronous writes, and Flush as a barrier |
| `RefCount` | the reference-counted close of a repository and the write sessions that use it |
| `UpgradeMonitor` | the upgrade lock check in front of every storage operation |
| `RepositorySync` | `repository sync-to`: the plan, and the workers that carry it out |
| `Resharding` | `blob shards modify`: renaming blobs while their tree is walked, then removing empty directories |
| `SnapshotHistory` | `snapshot copy-history` and `move-history` |
| `SnapshotLoading` | loading many manifests at once behind a channel used as a semaphore |
| `Sources`, `PolicyTransfer` | the text form of snapshot sources, and policies that travel under it |
| `FleetState` | one Fleet state directory under servers, rotations and crashes |
| `VerifyReport` | the size-limited UTF-8 text of a failed verification |
| `Launching` | the Desktop Entry and systemd unit that embed the program's path |
| `Wrappers`, `Runs` | shared datatypes; runs of a state machine and their invariants |

## Where the code does less than it seems to

For each of these there is a lemma or method with the failing input or run,
most of them for every input or state of the kind, and the condition under which
the expected property does hold.

- A sync whose caller's context ends while the workers wait for work reports
  success with its plan undone (`CancelledSyncReportsSuccess`,
  `SuccessIsCompleteExactly`), and with parallelism 0 it never does anything
  (`NoWorkersNoWork`).
- A write launched after a flush found the write group empty, and before its
  request is on the stream, is flushed without any evidence that the server has
  it (`LateWriteEscapesTheFlush`). So is a content that another session put into
  the shared cache before the server had it: reading it there makes this client
  skip the write (`OthersCacheEscapesTheFlush`). Everything else is covered
  (`FlushIsABarrier`).
- Resharding loses the ID of a blob if one of the slices cut from it is "." or
  "..", unless another file has it (`RenameKeeps`). With shards of 5 and 1
  characters this happens to the repository's own format blob
  (`FormatBlobIsLost`).
- A passphrase rotation that starts while the rename of an earlier one is
  unfinished overwrites the only copy of the store's key
  (`RotationOverUnfinishedRenameLosesTheKey`, `PendingKeyNeedsFinishedRename`),
  and a commit that is written but reported as failed leaves a live server
  sealing with the replaced key (`LostCommitSplitsTheStore`).
- A server that is shut down by force lets go of the state directory's lock while
  a rotation may still be under way. Its late pending key can land on that of the
  next process, which then loses the store's key (`LateWriteLosesTheKey`). Which
  late steps do harm is stated exactly (`NoServerSealsWithReplacedKey`,
  `TrespassIsHarmful`), and nobody else touches the directory without the lock
  (`OnlyTheLateTrespass`).
- A session caller that leaves a response unread when the stream breaks stops
  every other one: the read loop waits for it with the map's mutex
  (`UnreadChannelCanBlock`, `UnreadChannelBlocksEveryone`). While every caller
  reads, nobody waits for good (`Multiplexer.NeverStuck`).
- A snapshot that cannot be loaded at the moment it is listed is left out of the
  list. A move reports success and leaves it at its old source
  (`UnloadedIsNotMoved`, `Run`), and a copy whose destination could not be loaded
  is made again (`UnloadedIsCopiedAgain`, `RunAgain`). No snapshot is lost either
  way.
- With an empty destination host a repeated copy lists no destination snapshots
  and copies again (`EmptyHostExample`, `RunAgain`).
- Importing policies with delete-other-policies keeps a policy whose target
  prints like an exported one (`LookalikePolicySurvives`, `ExportThenImport`).
- A reload that gives another revision under the same loaded time, or goes back
  in time, lets an operation through on a revision that was never checked
  (`DisorderlyReloadSkipsACheck`); loading the same revision again does not
  (`ComparisonMeansChecked`). Another revision under the same loaded time does
  occur: setting the upgrade lock and committing the upgrade change the loaded
  configuration in place and leave its loaded time alone
  (repo/format/upgrade_lock.go:63-76, 116-118).
- A check that passed is not repeated until the format is reloaded, also after
  someone else's lock has started (`OldCheckStillPasses`,
  `FreshCheckAgreesExactly`).
- A close that takes the count to zero while a session is being opened can make
  that session panic (`LastCloseDuringOpenPanics`). Any other close during an
  open is harmless (`ClosersRunOnceInOrder`).
- A verification report within the size bound is not repaired, so it may end
  inside a code point (`ShortTextIsNotRepaired`, `VerifyStderr`).
- A state directory with a backslash does not reach the service it was installed
  with (`StateDirSurvivesExactly`).

## Model

| member | source | states |
|---|---|---|
| `Multiplexer.ChannelsAreSafe` | repo/grpc_repository_client.go:109-208 | In every interleaving every put and close that can come next is on an existing open channel, so none ever faults; each caller's channel carries the server's responses to its own request in order, or a prefix of them and then STREAM_BROKEN, and is closed only after all of them or after that |
| `Multiplexer.QuiescenceClosesEverything` | repo/grpc_repository_client.go:131-193 | Once the read loop has ended and no sender is inside sendRequest, the map of active requests is empty, every channel ever created is closed and sendMutex is free, whenever requests were registered or failed |
| `Multiplexer.NeverStuck` | repo/grpc_repository_client.go:109-193 | In every reachable state in which a call of sendRequest is under way, or the read loop has a response or a failure in hand, some thread can go on without a new request, a new response or a failure of Recv, given that callers read their channels and Send returns |
| `Multiplexer.UnreadChannelBlocksEveryone` | repo/grpc_repository_client.go:131-142 | Once the drain waits for a full channel, then in every continuation in which its caller reads nothing the loop stays there with the mutex of the map, no request is registered and none can be |
| `Multiplexer.UnreadChannelCanBlock` | repo/grpc_repository_client.go:131-142 | A run that reaches such a state: the stream breaks while a response that is to be followed by more lies unread |
| `Multiplexer.StepKeepsInv` | repo/grpc_repository_client.go:109-208 | Every step of senders, read loop, callers and server keeps the ownership of each channel with exactly one of map, loop and sender, or nobody once it is closed |
| `Multiplexer.StepProjects` | repo/grpc_repository_client.go:109-208 | What a step of the whole machine does to one request is what the request's own view predicts |
| `Multiplexer.EffectKeepsOwnership` | repo/grpc_repository_client.go:131-208 | No step makes two owners of a channel or leaves an open one without an owner |
| `Multiplexer.EffectKeepsTraffic` | repo/grpc_repository_client.go:109-144 | Every step keeps a channel's contents equal to the responses forwarded so far, with STREAM_BROKEN exactly when the stream broke first |
| `Multiplexer.OwnerFindsChannelOpen` | repo/grpc_repository_client.go:116-144 | Whoever is about to put into or close a channel finds it non-nil and open, and a response always finds its request in the map |
| `SessionRetry.WritesAreSentOnce` | repo/grpc_repository_client.go:301-336 | A call made without retry puts its request on at most one stream, and no call puts it twice on the same stream |
| `SessionRetry.ResendsFollowBrokenStreams` | repo/grpc_repository_client.go:599-636 | A request goes on a stream again only for a retrying call, after each earlier attempt ended in STREAM_BROKEN and the read loops of all sessions it used have exited, and on a newer session |
| `SessionRetry.EndsOfAttempts` | repo/grpc_repository_client.go:599-636 | How an attempt can end from each point, and what follows: a retrying call goes on to kill the session exactly when its stream broke, its Send failed or io.EOF kept it from a session; any other error, an answer, and every end of a call without retry, ends the call |
| `SessionRetry.BrokenAttemptCanSucceed` | repo/grpc_repository_client.go:613-624 | From every reachable state in which the attempt of a retrying call ends that way, the call can put its request on a newer session than all it used before and be answered, whoever holds the session mutex |
| `SessionRetry.RequestIsSentAgain` | repo/grpc_repository_client.go:613-624 | A run in which one request is put on two sessions, one after the other, and answered |
| `SessionRetry.StepKeepsInv` | repo/grpc_repository_client.go:943-1003 | Establishing, killing, using and leaving sessions keep that a broken attempt's session has exited before the call looks for another |
| `SessionRetry.StepKeepsSessions` | repo/grpc_repository_client.go:943-1003 | Every session but the current one is older and its read loop has exited, and a session that was replaced never becomes current again |
| `RecentlyRead.Ring.Add` | repo/recently_read.go:19-36 | Adding an ID makes the array, the position and the set those of the longer history of adds |
| `RecentlyRead.Ring.Exists` | repo/recently_read.go:38-49 | The lookup answers membership in the recent set of the history |
| `RecentlyRead.NextSlotIsEvicted` | repo/recently_read.go:28-35 | The slot an add overwrites holds the ID added a full turn earlier, or the empty ID before the ring is full |
| `RecentlyRead.RecentExactly` | repo/recently_read.go:19-36 | An ID is in the set exactly when no copy of it has left the ring since its latest add |
| `RecentlyRead.RecentByPosition` | repo/recently_read.go:19-36 | In terms of positions alone: an ID stays in the set unless some add of it is more than a full turn old and it was not added again within that turn |
| `RecentlyRead.HitsAreRecent` | repo/recently_read.go:19-49 | Every hit is among the last 1024 adds |
| `RecentlyRead.SetStaysSmall` | repo/recently_read.go:19-36 | The set never has more than 1024 IDs |
| `ContentWrites.FlushIsABarrier` | repo/grpc_repository_client.go:540-560 | When a Flush request goes on the stream, the server has shown that it has every content whose ID WriteContent returned before the group was found empty, by answering a read, ContentInfo or the write itself under that ID, unless this client read it from what another session cached; any other returned ID is no worse or was launched after that |
| `ContentWrites.FlushedIsKnown` | repo/grpc_repository_client.go:540-560 | Every ID returned before the group was found empty was read through this client, reported present or acknowledged under that ID |
| `ContentWrites.FailedWriteStopsFlushes` | repo/grpc_repository_client.go:540-560 | After one failed or mismatched write, no flush that has not yet looked at the group's error is ever sent |
| `ContentWrites.WriteCanReturn` | repo/grpc_repository_client.go:752-844 | From every reachable state a write of any content can return its ID: without being sent if it was read recently, launched if not |
| `ContentWrites.PresentIsNotSent` | repo/grpc_repository_client.go:752-778 | A large content that ContentInfo reports as present is returned without being sent |
| `ContentWrites.FlushCanBeSent` | repo/grpc_repository_client.go:540-560 | From every reachable state without a failed write, a flush can be sent that covers everything returned so far |
| `ContentWrites.WriteEndsInEvidence` | repo/grpc_repository_client.go:811-844 | Whatever step is taken, a content being written is afterwards still being written, acknowledged under the expected ID, or the group has failed |
| `ContentWrites.RecentIsAdded` | repo/grpc_repository_client.go:703-726 | An ID the ring calls recent, whose write is skipped, was added by an earlier read |
| `ContentWrites.StepKeepsInv` | repo/grpc_repository_client.go:703-844 | Every step of readers, writers, server, flushes and other sessions keeps that what was returned, launched or read from the cache is evidenced, still being written, in a failed group, or from another session's cache entry |
| `ContentWrites.CoverLasts` | repo/grpc_repository_client.go:540-560 | What had been returned before a flush's barrier stays covered by it to the end |
| `ContentWrites.LateWriteEscapesTheFlush` | repo/grpc_repository_client.go:545-560 | From every reachable state with a flush in its callbacks and a write of an unevidenced content about to be launched, that ID can be returned before the flush is sent |
| `ContentWrites.OthersCacheEscapesTheFlush` | repo/grpc_repository_client.go:703-778 | From every reachable state without running or failed writes, a content that another session cached and the server has not shown to have can be read, its write skipped, and a flush sent after that |
| `RefCount.ClosersRunOnceInOrder` | repo/refcount_closer.go:20-62 | If sessions are opened through open handles, handles are closed once, and the close that reaches zero finds no session being opened, then in every interleaving nothing panics, what ran is a prefix of what was registered, and nothing runs while a handle is open or being opened |
| `RefCount.EverythingIsClosedAtTheEnd` | repo/refcount_closer.go:20-40 | When every close has returned, every registered closer has run exactly once, in registration order |
| `RefCount.EverythingCanBeClosed` | repo/refcount_closer.go:20-48 | From every reachable state there is a continuation in which every open and close returns, and then every registered closer has run |
| `RefCount.CountIsOpenHandles` | repo/refcount_closer.go:20-48 | The count is the number of handles still in use, and nothing is closed while it is positive |
| `RefCount.StepKeepsInv` | repo/refcount_closer.go:20-52 | Every atomic step of opens, registrations and closes keeps the count, the closed flag and the progress of the closers in agreement |
| `RefCount.LastCloseDuringOpenPanics` | repo/refcount_closer.go:20-48 | From every reachable state, a close that takes the count to zero while a session is being opened has a continuation that panics |
| `RefCount.RefCountedCloser.constructor` | repo/refcount_closer.go:54-62 | A new closer holds one reference and the given closers, and is a start of the machine |
| `RefCount.RefCountedCloser.AddRef` | repo/refcount_closer.go:42-48 | Takes one reference for a new handle and changes nothing else |
| `RefCount.RefCountedCloser.RegisterEarlyCloseFunc` | repo/refcount_closer.go:50-52 | Appends the closer to the list |
| `RefCount.RefCountedCloser.Close` | repo/refcount_closer.go:20-40 | Only the last close runs the closers: all of them in order, also after a failure; it returns as many errors as closers failed, the error of each at the position given by how many failed before it |
| `RefCount.WriteSession` | repo/repository.go:418-483 | A session, with any sessions nested in its callback, flushes unless its callback failed and flush-on-failure is off, reports the flush error first, and leaves the count, the closers and all other handles as found |
| `UpgradeMonitor.ComparisonMeansChecked` | repo/open.go:461-517 | If every reload gives a later loaded time or the very same revision again, an operation passed by comparing times saw the time of a revision which itself passed a full lock and feature check earlier, however callbacks and reloads interleave |
| `UpgradeMonitor.EqualTimesMeanChecked` | repo/open.go:474-491 | Whenever the cached and the loaded time agree, the revision loaded at that moment has passed a full check |
| `UpgradeMonitor.SpannedCheckIsRepeated` | repo/open.go:488-511 | A check during which the format was reloaded leaves the cached time older than the loaded one, so the new revision is checked |
| `UpgradeMonitor.StepKeepsInv` | repo/open.go:474-514 | Every step keeps writers exclusive and the cached time matched only by a checked revision |
| `UpgradeMonitor.RepeatedTimeSkipsTheCheck` | repo/open.go:474-480 | For any two revisions with one loaded time, the first of which passes, there is a run in which the second is passed by comparison without any full check of it |
| `UpgradeMonitor.BackwardTimeSkipsTheCheck` | repo/open.go:488-511 | For any reload to a revision with an earlier time that passes, there is a run in which the later one is passed by comparison without any full check of it |
| `UpgradeMonitor.DisorderlyReloadSkipsACheck` | repo/open.go:474-511 | The two together: the condition on reloads is exact |
| `UpgradeMonitor.FreshCheckAgreesExactly` | repo/format/upgrade_lock_intent.go:126-147 | A revision that passed once passes a fresh check later if and only if no lock of someone else has started by then, that is at its creation plus the notice less the time to drain |
| `UpgradeMonitor.FullCheckPassesExactly` | repo/open.go:418-428 | A full check passes if and only if there is no lock, or it is the own one, or its notice leaves the drift and two drain times and they have not begun; and, unless missing features are ignored, every required feature that is not supported is one to warn about only |
| `UpgradeMonitor.StepsDecide` | repo/open.go:494-514 | Reading the features refuses exactly for a missing one that is not to be ignored or warned about, the lock decision exactly for the lock of someone else in force, and a failed read always, without touching the cached time |
| `UpgradeMonitor.OldCheckStillPasses` | repo/open.go:474-480 | For every revision that passed and every later instant there is a run in which an operation is passed by comparison at that instant |
| `RepositorySync.MakePlan` | cli/command_repository_sync.go:114-155 | The copy list is exactly the source's blobs that are missing or, when updating, have a later timestamp; the delete list is exactly the destination's blobs not in the source when deleting, else empty; no blob twice |
| `RepositorySync.ScanSource` | cli/command_repository_sync.go:114-155 | One pass over the source listing collects exactly the blobs that the destination lacks or, when updating, has with an earlier timestamp, and leaves in the destination map what the source does not list |
| `RepositorySync.ListDestinationBlobs` | cli/command_repository_sync.go:178-196 | The map has every destination blob with its own metadata |
| `RepositorySync.SuccessfulSyncIsDetermined` | cli/command_repository_sync.go:231-342 | With a worker and a live caller's context, every successful run ends in the one destination given by the two storages and the flags |
| `RepositorySync.SyncedBlob` | cli/command_repository_sync.go:114-155 | That destination blob by blob, over the timestamps: a source blob has the source's data if it was missing or updates are on and the source's is the later one, else the data it had; any other blob is gone if deleting is on, else as it was |
| `RepositorySync.SyncCanSucceed` | cli/command_repository_sync.go:231-342 | From every reachable state in which nothing failed and the caller's context is live, the sync can still succeed |
| `RepositorySync.SuccessIsCompleteExactly` | cli/command_repository_sync.go:231-304 | A successful run ends in the wanted destination if and only if every deletion was handed out and every copy not handed out had the source's contents already |
| `RepositorySync.SourceBlobsAreNeverDeleted` | cli/command_repository_sync.go:231-352 | No run, also a failing one, removes from the destination a blob that the source lists |
| `RepositorySync.StepKeepsInv` | cli/command_repository_sync.go:231-342 | Every step of feeders and workers keeps that what was handed out is in a worker's hands or done, unless a worker failed, and all else is untouched |
| `RepositorySync.NoWorkersNoWork` | cli/command_repository_sync.go:241-286 | With parallelism 0 the sync succeeds in every state and the destination never changes |
| `RepositorySync.CancelledSyncReportsSuccess` | cli/command_repository_sync.go:288-304 | For every plan there is a run that succeeds, after the caller's context is done, with the destination unchanged |
| `Resharding.CanonicalPlaceSpellsId` | repo/blob/sharded/sharded_parameters.go:73-101 | The place of a blob reads back as its ID if and only if no slice of the ID is "." or ".." |
| `Resharding.FirstOverrideDecides` | repo/blob/sharded/sharded_parameters.go:73-81 | The sizes are those of the first override whose prefix begins the ID, and the default ones if there is none |
| `Resharding.CanonicalFromSizes` | repo/blob/sharded/sharded_parameters.go:84-101 | A file is at its canonical place if and only if, with those sizes, it is at the root for an ID within the unsharded length, and otherwise in the directories named by the next size characters each, without the empty ones, until the sizes run out or the rest is no longer than the next size, with that rest as its name |
| `Resharding.RenameKeeps` | cli/command_blob_shards_modify.go:250-267 | Renaming a misplaced blob keeps all files that are no blobs; if no slice of its ID is a dot element it keeps all blob IDs, each with the data of one of its files, and makes no new misplaced file; the blob's own ID stays if and only if that is so or another file has it |
| `Resharding.FormatBlobIsLost` | repo/blob/sharded/sharded_parameters.go:84-101 | With shards 5 and 1 the file of kopia.repository becomes one of a blob kopiarepository |
| `Resharding.MoveBlob` | cli/command_blob_shards_modify.go:243-272 | Handling one file, for any parameters, leaves all other files in place and keeps what a rename keeps, and on success leaves no misplaced blob at this path |
| `Resharding.RenameBlobs` | cli/command_blob_shards_modify.go:227-275 | For any parameters the walk touches nothing outside the directory and no file that is no blob; if the parameters can spell the IDs it keeps them after every rename, though the tree changes under it, and on success leaves no misplaced blob inside |
| `Resharding.RemoveEmptyDirs` | cli/command_blob_shards_modify.go:186-225 | The sweep removes only directories without files inside, never a file, and if no removal fails none is left below the directory |
| `Resharding.Modify` | cli/command_blob_shards_modify.go:137-184 | After every single rename of any run the files that are no blobs are kept and, if the parameters can spell the IDs, so are the blob IDs, each with the data of one of its files (of two files of one blob, one may replace the other); on success every blob is then at its canonical place, and the file-free directories are gone; a dry run changes nothing |
| `Resharding.WalkAdvances` | cli/command_blob_shards_modify.go:233-272 | Entries listed before the renames and not yet visited are still there when the walk reaches them |
| `SnapshotHistory.LabelsSelectSources` | snapshot/manager.go:60-80 | Finding manifests by the labels of a source finds exactly the snapshots of the sources that match it |
| `SnapshotHistory.ChecksPreventCollapse` | cli/command_snapshot_copy_move_history.go:161-191 | The two argument checks hold if and only if the destination mapping is injective on the sources matching the filter |
| `SnapshotHistory.ArgumentsDecide` | cli/command_snapshot_copy_move_history.go:161-191 | Without a destination argument the destination is the client's own host and user without a path; the arguments are refused if and only if one cannot be parsed, or a path or a user is named at the destination only |
| `SnapshotHistory.DestinationInSourceIsFixed` | cli/command_snapshot_copy_move_history.go:221-237 | A mapped source that still matches the source filter is mapped to itself |
| `SnapshotHistory.DestinationIsListed` | cli/command_snapshot_copy_move_history.go:221-237 | With a destination host, every mapped source matches the destination filter |
| `SnapshotHistory.ManifestStore.ListSnapshots` | snapshot/manager.go:82-89 | Finding can fail; otherwise lists, once each, exactly the snapshots whose source matches and whose load succeeds at that moment |
| `SnapshotHistory.ManifestStore.SaveSnapshot` | snapshot/manager.go:114-149 | Stores the manifest under its source's labels and its tags with a new ID, or refuses and changes nothing |
| `SnapshotHistory.SnapshotExists` | cli/command_snapshot_copy_move_history.go:193-218 | Finds a listed snapshot of the source with the same start time and root, exactly if there is one |
| `SnapshotHistory.DeleteKeepsHolds` | cli/command_snapshot_copy_move_history.go:124-143 | Deleting a moved source never removes the copy that makes another move safe |
| `SnapshotHistory.MoveOne` | cli/command_snapshot_copy_move_history.go:101-143 | One source snapshot: skipped if fixed, copied unless it exists, then deleted when moving; at every step it still exists under its old or its new source |
| `SnapshotHistory.Run` | cli/command_snapshot_copy_move_history.go:82-146 | Whatever fails, at every step and every early return each original snapshot exists under its old source or its destination and all else is unchanged; on success every non-fixed one that was loaded is at its destination and, for a move, exactly those that were not loaded are left; a successful run changes nothing if and only if the store is settled under its loads |
| `SnapshotHistory.SnapshotIsAtDestination` | cli/command_snapshot_copy_move_history.go:193-237 | Conservation and completion field by field: a snapshot that is gone, or was loaded by a successful run, has a readable stored one with the same start time and root, under its source with every field replaced that the destination names |
| `SnapshotHistory.CompleteIsSettled` | cli/command_snapshot_copy_move_history.go:82-146 | A complete run whose loads all succeeded leaves nothing for the next one to do, if it is a move, or if there is a destination host and the destination is loaded again |
| `SnapshotHistory.RunAgain` | cli/command_snapshot_copy_move_history.go:82-146 | A second identical run changes the store if and only if it is not settled under the loads of its own listings; when every load succeeds it changes nothing, except a copy without a destination host, which stores new copies if and only if there was anything to copy |
| `SnapshotHistory.CopyMoveHistory` | cli/command_snapshot_copy_move_history.go:82-191 | The command from its arguments: refused arguments change nothing, accepted ones conserve every snapshot, complete what was loaded on success and change nothing in a dry run, for the parsed source and destination |
| `SnapshotHistory.UnloadedIsNotMoved` | snapshot/manager.go:162-166 | A move during which no snapshot to be moved can be loaded leaves all of them where they are, and succeeds whenever the two listings were made |
| `SnapshotHistory.UnloadedIsCopiedAgain` | snapshot/manager.go:162-166 | A snapshot whose only copy cannot be loaded leaves the store unsettled, so that a copy that succeeds stores another one |
| `SnapshotHistory.EmptyHostExample` | cli/command_snapshot_copy_move_history.go:161-191 | The arguments u@h:/p and v@:/q parse to a destination without a host, and a stored snapshot of the source is never settled under them when it is loaded |
| `SnapshotHistory.NoHostIsNeverSettled` | snapshot/manager.go:64-80 | Without a destination host a copy is settled if and only if there is nothing to copy, however many copies there are |
| `SnapshotLoading.TokensCountLoads` | snapshot/manager.go:152-175 | In every interleaving the channel's tokens are the unfinished loads, the one just put and the slots the caller waits with, so at most 50 loads run |
| `SnapshotLoading.ClosedAfterEveryStore` | snapshot/manager.go:170-175 | Once the channel is closed every slot holds what its load gave and no step writes one any more |
| `SnapshotLoading.NeverStuck` | snapshot/manager.go:156-174 | Until the channel is closed some step can be taken |
| `SnapshotLoading.EveryStepMakesProgress` | snapshot/manager.go:156-175 | Every step leaves less to do, so every run reaches the closed channel |
| `SnapshotLoading.StepKeepsInv` | snapshot/manager.go:152-175 | Every step keeps the token count and the slots in agreement with the loads |
| `SnapshotLoading.Compact` | snapshot/manager.go:177-186 | Compaction over the very array it reads leaves exactly the loaded manifests, in input order |
| `SnapshotLoading.SuccessfulAt` | snapshot/manager.go:177-186 | Every loaded manifest stands at the position given by how many were loaded before it, and there are no others |
| `SnapshotLoading.Finish` | snapshot/manager.go:152-187 | Whatever the interleaving, the result is the successful loads in input order |
| `Sources.ParseUndoesPrint` | snapshot/source.go:18-71 | Parsing the text of a printable source gives that source |
| `Sources.ParseUndoesPrintExactly` | snapshot/source.go:18-71 | A source survives printing and parsing if and only if it is the global one, or has no "@" or ":" in the user, no ":" in the host, and a host without a path or a user with one |
| `Sources.PlainPathIsLocal` | snapshot/source.go:61-71 | Text that is neither user@host:path nor user@host is a path of the given host name and user name, or an error if it cannot be made absolute |
| `Sources.MissingHostIsRefused` | snapshot/source.go:49-59 | Text that ends after the "@" is refused |
| `PolicyTransfer.Export` | cli/command_policy_export.go:56-81 | Every target's text is a key of the document, and every entry is the policy of a target with that text |
| `PolicyTransfer.ImportAll` | cli/command_policy_import.go:85-106 | On success each document entry, within the limit, is the policy of the target its key parses to, and no other target changed |
| `PolicyTransfer.DeleteOthers` | cli/command_policy_import.go:114-129 | On success exactly the targets whose text was imported remain; whatever happens, the policies that remain are as they were |
| `PolicyTransfer.Import` | cli/command_policy_import.go:85-111 | Imports the document and, when asked, removes what was not imported |
| `PolicyTransfer.ExportThenImport` | cli/command_policy_import.go:85-129 | Exporting printable targets and importing them with delete-other-policies leaves exactly the exported policies if and only if no other target printed like an exported one, and so always when the receiving targets are printable too |
| `PolicyTransfer.RoundTrip` | cli/command_policy_export.go:64-80 | The same, as a relation between the exported map, the document and the store before and after |
| `PolicyTransfer.ImportedTarget` | cli/command_policy_import.go:74-129 | With any limit, target by target: an exported target within the limit gets its policy; any other keeps what it had, or goes when other policies are deleted, unless it prints like one that was imported |
| `PolicyTransfer.LookalikePolicySurvives` | cli/command_policy_import.go:114-129 | Exporting a policy of user "user" on host "corp@h" and importing it with delete-other-policies keeps the policy of user "user@corp" on host "h" |
| `PolicyTransfer.PrintableTargetsPrintApart` | snapshot/source.go:18-31 | Two printable targets with the same text are the same target |
| `PolicyTransfer.PrintableRoundTrip` | cli/command_policy_import.go:114-129 | Between repositories of printable targets the store after the import is the exported map |
| `FleetState.OneProcessAtATime` | cli/command_fleet.go:53-120 | Over any history of starts, refusals, shutdowns, forced or not, crashes and rotations at most one process has the store open, and only while it holds the lock |
| `FleetState.OnlyTheLateTrespass` | cli/command_server_start.go:238-258 | Whoever changes the directory holds the lock, or let go of it while shutting down and still has a request or a rotation under way |
| `FleetState.NoServerSealsWithReplacedKey` | cli/command_fleet_rotate.go:63-90 | Unless a commit was lost on a live server, a rotation overwrote an unfinished rename or a late step got in the way, nothing was sealed with a replaced key, all secrets are under the store's key, every server at work has it, and the next start finds it |
| `FleetState.RotationCanComplete` | fleet/api/admin_passphrase.go:53-166 | From every reachable state without such an event a server at work can complete a rotation to a key never used before, after which key file, store and server agree on it and every secret is under it |
| `FleetState.StepKeepsExclusion` | fleet/lock.go:21-38 | Every step keeps that exactly the holder of the lock is between locking and unlocking |
| `FleetState.StepKeepsKeyInv` | fleet/api/admin_passphrase.go:53-216 | Every step that is none of the three events, late ones included, keeps the store's key recoverable from the key file or the pending one and the keys of overlapping rotations apart |
| `FleetState.PendingKeyNeedsFinishedRename` | fleet/api/admin_passphrase.go:53-166 | Writing a pending key, late or not, keeps the directory recoverable if and only if the previous rename is done |
| `FleetState.RenameNeedsTheStoresKey` | fleet/api/admin_passphrase.go:53-166 | A rename, late or not, keeps it recoverable if and only if the store's key is at the pending path |
| `FleetState.CommitNeedsItsPendingKey` | fleet/api/admin_passphrase.go:53-166 | A commit, late or not, keeps it recoverable if and only if its own key is at the pending path |
| `FleetState.TrespassIsHarmful` | cli/command_fleet.go:105-120 | From every reachable state a late step of the third kind can be followed by the loss of the store's key or by a seal with a replaced one |
| `FleetState.LateWriteLosesTheKey` | fleet/api/admin_passphrase.go:91-108 | A run with neither of the other two events: a server closed by force writes its pending key over that of an offline rotation, which commits and renames it, and the store's key is gone |
| `FleetState.LostCommitSplitsTheStore` | fleet/api/admin_passphrase.go:53-166 | After a commit that was written but reported as failed, the live server's next seal leaves the store under two keys |
| `FleetState.LostCommitHappens` | fleet/api/admin_passphrase.go:53-166 | A run in which that happens |
| `FleetState.RotationOverUnfinishedRenameLosesTheKey` | fleet/api/admin_passphrase.go:181-216 | From every reachable state with an unfinished rename, a pending key written by the holder of the lock and a crash make the next server come up with a key that opens nothing |
| `FleetState.OverwrittenKeyIsLost` | fleet/api/admin_passphrase.go:53-216 | A run in which that happens: a rename fails, the next rotation overwrites the pending key, and the server after the crash seals with a key that is not the one of the store |
| `VerifyReport.LastRuneExact` | agent/engine/verify.go:168-172 | The backward decoder reports a rune exactly when the text ends in a whole code point |
| `VerifyReport.BoundaryExact` | agent/engine/verify.go:163-174 | A prefix of valid UTF-8 is valid if and only if it is empty or ends in a whole code point |
| `VerifyReport.EncodingIsAccepted` | agent/engine/verify.go:168-172 | The byte ranges the decoder accepts include the encoding of every Unicode scalar value (RFC 3629, section 3), whatever follows it |
| `VerifyReport.AcceptedIsEncoding` | agent/engine/verify.go:168-172 | And nothing else: whatever is accepted is the encoding of a scalar value |
| `VerifyReport.VerifyStderr` | agent/engine/verify.go:152-177 | Text within 8192 bytes is reported as it is; longer text as its longest prefix within the bound that is empty or ends in a whole code point; the report ends so if and only if the text was cut or itself does |
| `VerifyReport.ValidTextIsCutAtACodePoint` | agent/engine/verify.go:163-174 | Valid text that is cut stays valid, no longer prefix within the bound is valid, and at most three bytes are dropped |
| `VerifyReport.LongestWholeIsUnique` | agent/engine/verify.go:163-174 | There is only one such prefix |
| `VerifyReport.JoinValid` | agent/engine/verify.go:154-158 | Lines of valid UTF-8 join to valid UTF-8 |
| `VerifyReport.JoinedAt` | agent/engine/verify.go:158 | The lines stand in order at the positions their lengths give, with one newline between each two and none after the last |
| `VerifyReport.ReportedLines` | agent/engine/verify.go:152-158 | Before the cut every error found stands whole on its own line; without any, the text is the error that stopped the verification, or empty |
| `VerifyReport.ShortTextIsNotRepaired` | agent/engine/verify.go:159-161 | A short text that ends inside a code point is reported unchanged |
| `Launching.ExecRunsTheBinary` | agent/install/autostart.go:73-86 | For every path checkBinary accepts, string-unescaping, argument-unquoting and percent-unescaping the Exec value gives the path as one argument and then the tray's arguments |
| `Launching.StringLayer` | agent/install/autostart.go:73-86 | The string layer turns the written characters into exactly what the quoting layer expects |
| `Launching.QuotingLayer` | agent/install/autostart.go:73-86 | The quoting layer ends the argument at the closing quote that was written, not before |
| `Launching.AutostartStartsTheTray` | agent/install/autostart.go:47-64 | An entry is written exactly for an accepted path and a known scope; it sets Exec once, under [Desktop Entry], to that command |
| `Launching.UnitRunsTheBinary` | agent/install/systemd.go:259-280 | A unit is written exactly for an accepted path and state directory; it sets ExecStart once, under [Service], and its first word, C-unescaped and with specifiers expanded, is the path, followed by the arguments |
| `Launching.UnitIsWantedBy` | agent/install/systemd.go:41-58 | A unit sets WantedBy once, under [Install], to the target it was written for |
| `Launching.UnquotingLayer` | agent/install/systemd.go:287-289 | systemd's unquoting ends the word at the written quote and gives back every backslash |
| `Launching.PercentLayer` | agent/install/systemd.go:287-289 | Expanding doubled percent signs gives back the text |
| `Launching.StateDirSurvivesExactly` | agent/install/systemd.go:259-280 | A unit written for a state directory sets Environment once, under [Service], and the service sees that directory if and only if it has no backslash |

## Left out

- Liveness of the transport: that the server answers, that Recv fails when the stream breaks, and gRPC flow control.
- Multiplexer: the order of responses to different requests is left open, which allows more runs than one ordered stream does.
- RefCount: the count is unbounded where the source has 32 bits; two registrations at the same instant are two steps one after the other, which the source's unguarded append does not give.
- UpgradeMonitor: reading and decrypting the format blob, the cache that gives a load its time, and the callback that a fatal feature error runs.
- RepositorySync: the format blob check, dry runs, progress output, and blob times other than the timestamps compared by the plan.
- RepositorySync.MakePlan: the listings are those of unchanging storages, as the plan's own two listings are taken at different moments.
- Resharding: parsing and writing the `.shards` file, the counters, and a place that leaves the root through ".." and comes back through the root's own name, which counts as outside.
- Resharding.Modify: that the file-free directories are gone is stated for runs in which no removal failed, as the source ignores a failed removal.
- SnapshotHistory: the messages, and updating a snapshot in place.
- PolicyTransfer: reading and writing JSON, and several policy manifests for one target.
- FleetState: activation and jobs, two rotation requests overlapping in one server (they exclude each other by a mutex), and the cryptography: a key is identified with its salt.
- SessionRetry: the back-off between attempts and the session's parameters.
- ContentWrites: compression, hashing, the encoding of requests, and what is evicted from the content cache.
- SnapshotLoading.Finish: takes the array as the closed channel left it; the concurrent writes into it are steps of the machine.
- VerifyReport: walking the snapshots and collecting the errors.
- Launching: systemd's special executable prefixes and its numeric escapes, where the unit file is written, and the trimming of a unit's outer white space.
- Installing, enrolling, polling and the rest of the agent, the HTTP handlers, the user interface, and kopia's content, index and compression layers: not part of this model.

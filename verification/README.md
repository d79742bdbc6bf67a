# Pear-to-Pear: a verified model

Pear-to-Pear shares files between devices. One *main* node keeps an append-only log
(the WAL) of every metadata change and gives each entry a sequence id and each file
entry a version. Every other node copies the log, applies it to three tables (`files`,
`object_owners`, `devices`), keeps file contents in a content-addressed object store, and
fetches missing contents from the devices the tables name as owners.

The project follows that structure.

| files | what they hold |
|---|---|
| `Wal.dfy` | log entries, the tables, replay, and convergence of replay over overlapping, stale and complete segments |
| `Store.dfy`, `Database.dfy` | each transaction of the database as a function of its state, and the class whose methods carry it out in place |
| `MasterService.dfy`, `Commands.dfy` | the main node's three calls; what push sends and what cleanup plans to delete |
| `LogFacts.dfy`, `NodeInvariant.dfy`, `Replication.dfy` | the distributed system as a step relation (late, lost and repeated replies, cleanups with any keep count, reopened databases) and the theorems over its runs |
| `DivergingRuns.dfy` | runs after which nodes with one log disagree |
| `Ownership.dfy`, `OwnershipProof.dfy`, `LateRun.dfy`, `LateCalls.dfy` | the commands connect, add, push, pull and cleanup of every node, interleaved one step at a time, over that system; requests are carried out at any time after they were sent, whether or not their command is still there |
| `Transfer.dfy`, `Download.dfy`, `ObjectLocks.dfy` | ranged streaming, rotation over owners, the worker threads of a download, the server's per-object locks |
| `Workspace.dfy`, `ObjectIntegrity.dfy`, `FileCommands.dfy` | hard links and copies of objects; the commands' file operations cut where the user can come in between |
| `Undisturbed.dfy` | what the commands come to when nothing is lost |
| `StoreTruth.dfy` | the protocol's view of a node's object store and the disk's, together |
| `Placeholders.dfy`, `Status.dfy` | `.empty` placeholders, the compressed list of untracked files |
| `Basics.dfy` | optional values and results, maxima, sorted text |

Functions describe the effect of one transaction; class methods are proved to have
exactly that effect; the step relations are built from the same functions, so what is
proved over runs is about what the methods do.

## Where the code and its documentation differ

The model follows the code.

- `docs/transport.md` asks that a pushed batch be accepted as a whole or not at all.
  The code commits one transaction per entry, so a failing push leaves a prefix of the
  batch in the log. `MasterService.MasterServiceImpl.PushWAL` states the prefix form.
- `docs/architecture.md` asks that nodes with the same applied prefix have equivalent
  state. That is true of nodes whose tables no reopen, cleanup or reply ending before
  what they already hold has ever changed (`Replication.PristineConverge`); of all others
  the device rows and the file rows are exact (`Replication.FilesAndDevicesExact`). Every
  open of the database re-inserts owners from file rows: `Store.BackfillHarmless` says
  exactly when that changes nothing and `DivergingRuns.ReopenDisturbsOwners` gives a run in which
  it does. A reply that overtakes a newer one is harmless exactly when
  `Wal.StaleSegmentHarmless` says so, and `DivergingRuns.LateReplyDisturbsOwners` gives
  a run in which it is not. Connecting again repairs all of it (`Replication.ReconnectHeals`).
- `readonly --off` for a tracked object that is not at hand makes the file writable in
  place. `ObjectIntegrity.ChmodSafeIff` says when that is safe;
  `ObjectIntegrity.FallbackCorrupts` is a run in which it lets the user overwrite a stored
  object.
- `add` and `readonly` hash a file read by read, `pull` knows its hash, and all three copy
  it into the store afterwards. A write during the hashing, or between it and the end of
  the copying, stores other bytes under that hash: `ObjectIntegrity.WriteDuringHash` and
  `ObjectIntegrity.WriteBetweenHashAndCopy` are such runs,
  `ObjectIntegrity.ObjectsStayIntactIff` is the exact condition.
- The main node carries a push out even when its client has gone, and a daemon a delete
  whose cleanup has ended. `LateRun.LateRequestLosesObject` is a run in which the log
  then names an owner that has just deleted the object, `LateRun.LateDeleteLosesObject` one
  in which the delete comes last. Ownership is sound for nodes that
  start a cleanup (on the main node, any sync) only when none of their own requests is
  open, and a push, a pull or the staging of an object only when no delete call of their
  own for it is outstanding (`Ownership.Prudent`); `LateCalls.LateCallsHarmless` is the
  exact condition of a state, `LateCalls.OwnershipSoundIff` that of a run.
- `create_objectfile` copies an object under its final name, so a reader can find it half
  written and be sent a truncated one with a good status
  (`ObjectLocks.ReaderMeetsCreation`, `ObjectLocks.UnchangedIff`). A failed read on the
  server's disk truncates a chunk in the same way (`Download.FetchFromHolder`). The check of
  the hash at the end of a download catches both.
- A cleanup that keeps 0 versions (as `add` performs) on the main node starts the
  versions of the affected paths over: `Store.CleanupKeepsNextVersion` is the exact
  condition.
- The rounding in the chunk count wraps for objects within 4 MiB of 2^64 bytes:
  `Transfer.ChunkCountExact`.

## Model

| member | source | states |
|---|---|---|
| Wal.ReadReplay | src/pear/db/sqlite_database.cpp:125-212 | after replaying a log every row of every table holds what the last entry that wrote it says, and unwritten rows are untouched; deletes of owners count as writes |
| Wal.OverlapConverges | src/pear/db/sqlite_database.cpp:214-245 | a segment that starts inside the applied prefix and ends at or beyond it brings all three tables to the fold of the longer prefix, for every log and every i <= k <= j |
| Wal.FullReplayHeals | src/pear/cli/commands.cpp:213-218 | replaying a whole log onto any tables gives the fold of the log if and only if every row present was written by the log |
| Wal.StaleSegmentHarmless | src/pear/db/sqlite_database.cpp:219-238 | a segment that ends before the applied prefix leaves the tables alone if and only if nothing it writes was overwritten differently later |
| Store.SelectedEntries | src/pear/db/sqlite_database.cpp:77-123 | over a gap-free log table the query for a range of ids returns exactly that slice of the log, in order, with its ids |
| Store.CleanupKeeps | src/pear/db/sqlite_database.cpp:421-476 | a row survives a cleanup of some paths if and only if it was there and, if its path is named, fewer than `keep` of the rows there were of that path have a larger version; what survives is unchanged |
| Store.CleanupKeepsNextVersion | src/pear/db/sqlite_database.cpp:362-376 | a cleanup leaves the next version of a path what it was if and only if it keeps a version, does not name the path, or the path had none |
| Store.CleanupKeepsLatestView | src/pear/db/sqlite_database.cpp:421-476 | the newest-version view of every path survives any cleanup that keeps at least one version |
| Store.LatestMeans | src/pear/db/sqlite_database.cpp:247-304 | the answer for a path shows its row with the largest version, field by field, and is nothing if that row is a deletion or there is none |
| Basics.TextLessMeans | src/pear/db/sqlite_database.cpp:378-403 | in the order of listings the text that ends first, or is smaller where two first differ, comes first |
| Store.BackfillMeans | src/pear/db/schema.cpp:82-87 | after an open a pair is an owner if and only if it was or some file row has its hash and owner; nothing else changed |
| Store.BackfillHarmless | src/pear/db/schema.cpp:78-93 | reopening a database equal to the fold of its log changes it if and only if some current file row names a device that has since given the object up |
| Store.AppliedMeans | src/pear/db/sqlite_database.cpp:214-245 | an accepted reply replays all its operations on the tables, those of entries the log has too, and adds to the log exactly the ids it lacked, rewriting none |
| Store.StampMeans | src/pear/db/sqlite_database.cpp:313-320 | a file entry gets the version after the largest one its path has, and is otherwise unchanged |
| Store.AddEntryAppends | src/pear/db/sqlite_database.cpp:306-350 | an accepted entry goes to the end of a gap-free log under the next id, changed in its version at most, and the tables become one replay step further |
| Store.BatchAccepted | src/pear/net/master_service.cpp:157-165 | a batch without registrations is never refused |
| Store.BatchAppends | src/pear/net/master_service.cpp:157-165 | entries accepted one after another land as one block at the end of the log, in order, with only their versions rewritten |
| Database.SqliteDatabase.Reopen | src/pear/db/schema.cpp:78-93 | opening the database again adds the owners named by file rows and nothing else |
| Database.SqliteDatabase.GetWalEntriesSince | src/pear/db/sqlite_database.cpp:77-123 | exactly the stored entries with a larger id, in increasing order of id |
| Database.SqliteDatabase.ApplyWalEntryToState | src/pear/db/sqlite_database.cpp:125-212 | one entry changes the tables as replay says, or is refused and changes nothing when a device row would repeat another one's address |
| Database.SqliteDatabase.ApplyWalEntries | src/pear/db/sqlite_database.cpp:214-245 | a reply is applied whole or rolled back whole; entries already in the log are applied to the tables again |
| Database.SqliteDatabase.AddWalEntry | src/pear/db/sqlite_database.cpp:306-350 | answers the next id, stamps the path's next version, logs and applies the entry; changes nothing when refused |
| Database.SqliteDatabase.RegisterDevice | src/pear/db/sqlite_database.cpp:534-556 | a known address gets its id back without a change, a new one gets a new row and a log entry; if the entry is refused the row alone stays |
| Database.SqliteDatabase.SelectVersionsDescending | src/pear/db/sqlite_database.cpp:421-440 | the versions of a path, each once, newest first |
| Database.SqliteDatabase.CleanupOldFileVersionsForPath | src/pear/db/sqlite_database.cpp:421-457 | deleting from position `keep` of the descending list on leaves exactly the rows with fewer than `keep` newer ones, other paths untouched, and counts what it removed |
| Database.SqliteDatabase.CleanupOldFileVersions | src/pear/db/sqlite_database.cpp:459-476 | leaves exactly the rows of other paths and, of each path named, those with fewer than `keep` larger versions among the rows there were, unchanged, and counts the rows removed |
| Database.KeptRows | src/pear/db/sqlite_database.cpp:421-457 | dropping the tail of a descending listing and keeping the rows with fewer than `keep` newer ones are the same thing |
| Database.SqliteDatabase.GetFileInfoByPath | src/pear/db/sqlite_database.cpp:247-296 | version 0 asks for the row with the largest version, another version for that row; the row is shown field by field, and deleted and missing rows answer nothing |
| Database.SqliteDatabase.GetAllFiles | src/pear/db/sqlite_database.cpp:378-403 | sorted by path, each path once: the rows with the largest version of their paths that are no deletions, field by field |
| Commands.StagePath | src/pear/cli/commands.cpp:303-325 | drops the staged row and answers no if and only if the row of the path with the largest version is no deletion and has the file's hash; otherwise stages the hash, local path and mode given, as an update if and only if that row exists and is no deletion; other paths keep their staged rows |
| Database.SqliteDatabase.UnstageFile | src/pear/db/sqlite_database.cpp:497-505 | removes the staged row of one path |
| Database.SqliteDatabase.GetStagedFiles | src/pear/db/sqlite_database.cpp:507-527 | exactly the staged rows, sorted by path, each once |
| MasterService.MasterServiceImpl.RegisterDevice | src/pear/net/master_service.cpp:102-125 | registration, and the whole log with the answer |
| MasterService.MasterServiceImpl.UpdateDB | src/pear/net/master_service.cpp:127-148 | the entries after the id the caller names |
| MasterService.MasterServiceImpl.PushWAL | src/pear/net/master_service.cpp:150-174 | success if and only if every entry went in; the ids are consecutive from the old end of the log; on failure exactly a prefix went in and the next entry met a fault or was refused, and entries that register no device are never refused |
| Commands.PreparePush | src/pear/cli/commands.cpp:773-813 | the batch holds, in path order, one file entry for each staged path that can be sent, with its hash and mode and version 0, and reports whether any could not |
| Commands.StagedIsPushed | src/pear/cli/commands.cpp:309-325 | after a file was staged the next push sends its hash and mode for its path, unless the row of the path with the largest version is no deletion and has that hash; the other paths it sends are what they were |
| Commands.UnstageBatch | src/pear/cli/commands.cpp:825-827 | unstages exactly the paths of the batch |
| Commands.PlanCleanup | src/pear/cli/commands.cpp:72-99 | the listed objects that are the hash of no file row and of no staged row, and one owner delete for each of those this device is down for |
| OwnershipProof.ScanSparesRows | src/pear/cli/commands.cpp:72-99 | what a cleanup sets aside, and every owner it retracts, is of an object in the store that is the hash of no file row and no staged row left after it forgot the old versions |
| LogFacts.DeliverSegment | src/pear/db/sqlite_database.cpp:214-245 | applying any slice of a log that registers each device once, at or before the end of the held prefix, is never refused and extends the prefix to the slice's end at most |
| NodeInvariant.NodeDelivers | src/pear/db/sqlite_database.cpp:214-245 | what a node's tables owe to its prefix (no row unaccounted for, devices exact, all rows of a node never cleaned up, newest rows, standing owners) survives any reply; a stale one that changes the tables costs the owners' lower bound, and one that is not stale brings back the newest rows of the paths it speaks of |
| NodeInvariant.NodeForgets | src/pear/db/sqlite_database.cpp:421-476 | the same survives a cleanup with any keep count, except the newest rows of paths cleaned with keep 0 |
| NodeInvariant.NodeReopens | src/pear/db/schema.cpp:78-93 | the same survives the owner re-insertion of an open, equality with the fold too when it adds nothing |
| NodeInvariant.MainPushes | src/pear/net/master_service.cpp:150-174 | an entry pushed to the main node is never refused, keeps what its tables owe to the log, and keeps the versions of every path dense |
| NodeInvariant.MainRegisters | src/pear/db/sqlite_database.cpp:534-556 | a registration is never refused and keeps ids and addresses of the log in one-to-one correspondence |
| Replication.StepAdvances | src/pear/net/master_service.cpp:102-174 | every step of the system keeps the invariant, the log grows at its end only and no node's prefix shrinks |
| Replication.PrefixReplication | src/pear/cli/sync.cpp:37-42 | in every reachable state each node's log table is 1..k without gaps and a prefix of the main node's log |
| Replication.LogsOnlyGrow | src/pear/db/sqlite_database.cpp:214-245 | over any run the log of every node, the main node included, is only ever extended |
| Replication.SyncCatchesUp | src/pear/cli/sync.cpp:20-42 | from any reachable state a fetch and its delivery with nothing between them make the node's log table equal to the main node's |
| Replication.PristineConverge | src/pear/db/sqlite_database.cpp:125-245 | nodes that hold equally long prefixes and whose tables no reopen, cleanup or stale reply ever changed have equal tables, the fold of that prefix, however the replies were cut |
| Replication.FilesAndDevicesExact | src/pear/db/sqlite_database.cpp:125-245 | whatever reopens and stale replies a node went through, its device rows are the fold's, and so are its file rows on every path the main node did not start over: all of them if no cleanup of the node removed one |
| DivergingRuns.LateReplyDisturbsOwners | src/pear/db/sqlite_database.cpp:219-238 | a run from the initial state: a device becomes an owner and gives the object up, a reply made in between reaches the replica last, and the replica has the main node's log and an owner the main node does not have |
| DivergingRuns.ReopenDisturbsOwners | src/pear/db/schema.cpp:82-87 | a run from the initial state: a file is shared, a second device comes to serve it, the first gives it up, and a replica that has received all of this and opens its database again has the first as an owner again |
| Replication.ReconnectHeals | src/pear/cli/commands.cpp:207-218 | from any reachable state of a node, applying the answer to a request from id 0 gives exactly the fold of the whole log on all three tables, whatever was lost or added locally |
| Replication.OwnerBounds | src/pear/db/schema.cpp:78-93 | the owner table holds only pairs some applied entry named, and, unless a stale reply changed the tables, every pair whose last entry makes it an owner, through reopens and cleanups |
| Replication.DenseVersions | src/pear/db/sqlite_database.cpp:306-376 | a path's file entries carry the versions 1, 2, 3, ... in log order, no version twice, and the main node's newest row carries their number, unless the main node cleaned the path with keep 0 |
| Replication.LatestViewRefinesLog | src/pear/db/sqlite_database.cpp:247-275 | the newest-version view of any node is the last word of its applied prefix on the path: that update's hash, owner and mode, or nothing after a delete or with no entry; excused are paths the main node, or this node since it last heard of them, cleaned with keep 0 |
| Replication.ViewComesBack | src/pear/db/sqlite_database.cpp:247-275 | a reply that is not stale makes the view right again for every path it has an entry for, whatever the node had cleaned up |
| Replication.DeviceRegistry | src/pear/db/sqlite_database.cpp:534-556 | no two ids of the main node share an address, and registering an address again answers its id and changes nothing |
| Replication.RegistrationsLast | src/pear/db/sqlite_database.cpp:534-567 | a device row seen on any node is the main node's row at every later time, so no id is lost, revised or given out again |
| Replication.NothingClashes | src/pear/db/schema.cpp:24-27 | no push, registration or delivery of a reachable state is refused by the uniqueness of addresses |
| OwnershipProof.DeliverKeepsOwn | src/pear/cli/sync.cpp:37-42 | a reply leaves a device's standing owners in its table wherever it begins, if it ends at or beyond what the node holds or no entry about the device follows it in the log |
| OwnershipProof.ActKeeps | src/pear/cli/commands.cpp:40-134 | every single step of every command of every node, breaking off at any point, and every step of the servers on calls old or new, keeps the invariant: of each node what its requests have put into the log, of each prudent node ownership |
| OwnershipProof.ProtocolRefinesReplication | src/pear/cli/commands.cpp:749-840 | every command step is a step of the replication system or leaves it unchanged |
| OwnershipProof.EveryWorldIsAReplicationState | src/pear/cli/commands.cpp:749-840 | every state of a run of the commands is the end of a run of the replication system, so its theorems hold of the commands |
| OwnershipProof.OwnershipSound | src/pear/cli/commands.cpp:61-131 | in every reachable state, whatever the log says a device owns, the node that is that device has in its object store, if it has been prudent and whatever the others do, with replies lost, batches cut short, and requests carried out after their command ended |
| LateRun.LateRequestLosesObject | src/pear/net/master_service.cpp:150-174 | a run from the initial state: with another file shared, a push is sent and its client goes away, a cleanup of the other file deletes its object, then the push is carried out, and the log names an owner that has nothing |
| LateRun.LateDeleteLosesObject | src/pear/cli/commands.cpp:114-131 | a run from the initial state: a cleanup asks for the delete of an object and goes away, the object is staged and shared again, then the delete is carried out |
| LateCalls.LateCallsHarmless | src/pear/net/master_service.cpp:150-174 | in every reachable state, what the servers may still do for a node can make the log wrong about it if and only if some object it owns, or an open request of its own adds, is missing or has a delete call outstanding |
| LateCalls.PrudenceSuffices | src/pear/cli/commands.cpp:61-131 | a prudent node is never in such a state |
| LateCalls.DeleteCallRisks | src/pear/cli/commands.cpp:114-131 | asking for the delete of an object brings a node into such a state if and only if the log has the device down for it or an open request adds it |
| LateCalls.RiskStepIff | src/pear/cli/commands.cpp:61-131 | of a node that is not at risk, a step of any node or server puts it there if and only if it is the node's own delete call for an object the log or an open request has it down for, or its own push or announcement of an object it has a delete call outstanding for: conditions the node can check before the step |
| LateCalls.OwnershipSoundIff | src/pear/cli/commands.cpp:61-131 | over any run, everything the log says a node owns is in its store at every moment, and at every moment of what the servers may still do after it, if and only if no step of the run is one of these three |
| Undisturbed.ExecuteDecides | src/pear/net/master_service.cpp:150-174 | an entry that is carried out decides there and then whether the log names its sender an owner of its object, and of no other |
| Undisturbed.AnnounceMakesOwner | src/pear/cli/commands.cpp:911-928 | a pulled object the table does not know this device for can be announced, and is owned once that is carried out |
| Undisturbed.PushCompletes | src/pear/cli/commands.cpp:815-827 | a push whose request is not closed can be carried out to its end, with its whole batch in the log and none of its paths staged |
| OwnershipProof.DevicesDiffer | src/pear/cli/commands.cpp:186-233 | two nodes never hold the same device id |
| OwnershipProof.PushLosesNothing | src/pear/cli/commands.cpp:819-827 | a push that unstages a path has its whole batch in the log, in order, at positions after the point where it was sent, and the batch has the staged hash and mode for the path, under this device |
| OwnershipProof.PushStartsAtTheEnd | src/pear/cli/commands.cpp:815-822 | that point is the end the log had when the push was sent |
| OwnershipProof.DeletionsAreSafe | src/pear/cli/commands.cpp:114-131 | a delete call of a prudent node, whenever it is carried out, removes no object that is staged, that the log has the device down for, or that an open request adds |
| OwnershipProof.OwnerBoundsInRuns | src/pear/db/schema.cpp:78-93 | in every run of the commands the owner table of a node other than the main one lies between the pairs its prefix leaves standing and the pairs it ever named; a prudent main node has its own standing pairs |
| Transfer.ChunkCountExact | src/pear/cli/object_download.cpp:73-84 | the computed number of chunks covers the object and none is superfluous if and only if the rounding addition does not wrap in 64 bits; where it wraps the count is 0 |
| Transfer.ChunksNotEmpty | src/pear/cli/object_download.cpp:99-117 | no chunk request has size 0, which a server reads as the rest of the object, and each lies within the object |
| Transfer.ChunksRebuild | src/pear/cli/object_download.cpp:170-192 | the chunks of an object end to end are the object, for every size up to 2^64 - 4 MiB, 0 included |
| Transfer.WantedMeans | src/pear/net/storage_service.cpp:19-33 | a range is cut at the end of the object, and size 0 stands for all that follows the offset |
| Transfer.StreamObjectRange | src/pear/net/storage_service.cpp:19-63 | an offset past the end is refused; otherwise non-empty pieces of at most 64 KiB lie end to end over the beginning of the requested bytes, all of them unless a read brings nothing or the receiver leaves, and exactly the piece that completes the range is marked last; a failed read still ends with a good status |
| Transfer.StreamedMeans | src/pear/net/storage_service.cpp:40-60 | each piece is a slice of the object of 1 byte to 64 KiB, the first at the offset asked for, each next one where the one before it ends, and marked as the last if and only if it ends where the range does |
| Transfer.ReceiveRange | src/pear/net/remote_client.cpp:282-311 | the pieces end to end if the call ended well, an error otherwise |
| Transfer.RotationInjective | src/pear/cli/object_download.cpp:99-117 | different attempts at a chunk go to different owners |
| Transfer.RotationOnto | src/pear/cli/object_download.cpp:99-117 | every owner has its attempt |
| Transfer.OutcomeMeans | src/pear/cli/object_download.cpp:99-117 | a chunk fails if and only if every owner fails it; otherwise its bytes are some owner's answer |
| Transfer.OutcomeIsFirst | src/pear/cli/object_download.cpp:105-116 | the outcome of a chunk is the answer of the first owner, in the order of asking, whose answer is no error |
| Transfer.DownloadOneChunk | src/pear/cli/object_download.cpp:99-117 | the i-th owner asked is number (chunk + i) modulo their count, all but the last asked failed, the last one's answer is the result, and it fails only after asking every owner once |
| Download.SomeWorker | src/pear/cli/object_download.cpp:86-97 | there are as many workers as the least of the chunks, the owners, 8 and, if known, the hardware threads |
| Download.MoveKeeps | src/pear/cli/object_download.cpp:119-168 | every atomic operation of every worker keeps the pool invariant and never revises who claimed a chunk |
| Download.ErrorStops | src/pear/cli/object_download.cpp:127-147 | once an error is seen a worker that comes back to its loop exits, only a worker about to claim a chunk still does, and the first error saved is kept |
| Download.RunsAreShort | src/pear/cli/object_download.cpp:130-150 | the length of every schedule is bounded by the chunks and workers at its start |
| Download.NoDeadlock | src/pear/cli/object_download.cpp:119-168 | in every reachable state some worker can move until all have exited |
| Download.JoinOutcome | src/pear/cli/object_download.cpp:119-168 | at the join, in every interleaving, no error was recorded if and only if every chunk can be had; then each chunk was claimed and is there with its bytes, and otherwise the recorded chunk truly failed |
| Download.AssembleChunks | src/pear/cli/object_download.cpp:170-192 | the chunks end to end, or an error if one of them is empty, because inserting an empty file makes the output stream fail |
| Download.FirstOk | src/pear/cli/object_download.cpp:44-56 | the size used is the first answer in the order of asking, failing if and only if all failed |
| Download.FetchFromHolder | src/pear/net/remote_client.cpp:253-311 | a chunk requested from a device that has the object arrives as a beginning of that slice of it or as an error, whole if and only if the stream was completed; a failed read on the holder truncates it and is accepted |
| Download.WholeFromHolder | src/pear/cli/object_download.cpp:99-111 | a completed stream brings the 4 MiB of the chunk, or what is left of the object |
| Download.JoinedParts | src/pear/cli/object_download.cpp:119-168 | what the workers have left when they are joined is, for every schedule, the outcome of each chunk in order, or an error if one has none |
| Download.DownloadObject | src/pear/cli/object_download.cpp:194-225 | with owners that answer anything at all and workers that took any turns, the destination is as it was and an error is raised, or it holds bytes of the requested hash; which of the two, and the bytes, are fixed by the answers alone |
| Download.AssembledMeans | src/pear/cli/object_download.cpp:209-225 | a download comes to the first good answers to the chunks of an object of the first size answered, end to end, if none of them is empty, and to nothing else |
| Download.HonestDownload | src/pear/cli/object_download.cpp:99-192 | owners that hold the object, some answers of which may be errors or cut short, give it back if and only if for each chunk the first answer in the rotation that is no error is whole |
| Download.DownloadFromHolders | src/pear/cli/object_download.cpp:209-225 | from the holders' disks to the destination, through any schedule: if no read fails on a holder and each chunk gets through from some holder, the destination is the object |
| ObjectLocks.ServiceKeeps | src/pear/net/storage_service.cpp:69-168 | every step of any number of readers of any ranges, deleters, and objects being installed or created byte by byte keeps the locking invariant |
| ObjectLocks.StreamSeesOneObject | src/pear/net/storage_service.cpp:80-136 | from a reader's existence check to its last piece the object is not removed and holds at least what it held when its size was read; what was sent is a beginning of the range in that |
| ObjectLocks.UnchangedIff | src/pear/net/storage_service.cpp:19-63 | the object a stream reads is complete and unchanged to its last piece if and only if it was not still being created when its size was read |
| ObjectLocks.DoneMeans | src/pear/net/storage_service.cpp:19-63 | what a reader got is a beginning of the requested range in what the object held when its size was read, itself a beginning of the object as it was meant to be |
| ObjectLocks.ServesAsHolder | src/pear/net/storage_service.cpp:121-136 | a chunk requested while the object was complete is answered, through any interleaving with other calls and commands, as `Download.FromHolder` says of a device that holds it |
| ObjectLocks.ReaderMeetsCreation | src/pear/fs/workspace.cpp:127-134 | a run in which a reader comes during a creation and gets a truncated object, by its own account all of it |
| ObjectLocks.CallAnswered | src/pear/net/storage_service.cpp:80-168 | a read is refused if and only if the object is missing at its existence check or the range begins beyond the size then read, and streams otherwise; a delete that got the lock leaves the object gone and answers success |
| ObjectLocks.StreamGoesOn | src/pear/net/storage_service.cpp:40-60 | a stream that has not sent all of its range can send the next 64 KiB of it, or the rest |
| ObjectLocks.DeletesExclude | src/pear/net/storage_service.cpp:138-168 | while a delete holds the lock of a hash no other delete or stream of that hash does |
| ObjectLocks.OnlyDeletesRemove | src/pear/net/storage_service.cpp:138-168 | an object disappears only in the step of a delete of its hash that answers success |
| ObjectLocks.BusyRemovedNothing | src/pear/net/storage_service.cpp:138-168 | a delete that got the lock never answers busy, so one that answers busy removed nothing |
| ObjectLocks.OneLockPerHash | src/pear/net/storage_service.cpp:69-78 | a hash keeps one lock for the life of the service |
| Workspace.WorkspaceFiles.CreateObjectFile | src/pear/fs/workspace.cpp:127-134 | a new object is a file of its own with the source's bytes and mode; an existing one is overwritten in its own file, which fails if that is read-only or is the source |
| Workspace.WorkspaceFiles.LinkObjectFile | src/pear/fs/workspace.cpp:144-156 | the target becomes another name of the object's file, now read-only, and the temporary name is gone |
| Workspace.WorkspaceFiles.CopyObjectFile | src/pear/fs/workspace.cpp:158-170 | the target becomes a writable file of its own with the object's bytes, and the temporary name is gone |
| Workspace.WorkspaceFiles.DeleteObjectFile | src/pear/fs/workspace.cpp:172-177 | removes the object's name, reporting whether it was there; files under workspace names stay |
| FileCommands.StageFile | src/pear/cli/commands.cpp:303-322 | the object is there afterwards, made from the file if it was missing; a read-only path is another, unwritable name of it, any other path is the file it was; no other name or bytes change; and this is the steps of hashing, copying and linking of the runs below |
| FileCommands.TurnReadonlyOn | src/pear/cli/commands.cpp:556-577 | the same for `readonly`, which refuses a missing or modified file and then changes nothing |
| FileCommands.TurnReadonlyOff | src/pear/cli/commands.cpp:583-592 | the path becomes a writable file of its own with the object's bytes; without the object at hand the file it names becomes writable; with neither it is refused |
| FileCommands.PullFile | src/pear/cli/commands.cpp:880-905 | a writable pull leaves a new writable file with the object's or the downloaded bytes under the path; a read-only one makes path and object one unwritable file; a download adds the object if it is read-only or shared and not otherwise; no other name or bytes change; a failed download changes nothing |
| ObjectIntegrity.StepSafeIff | src/pear/cli/commands.cpp:297-331 | a step of add, readonly, pull or cleanup, or of the user within file modes, keeps stored bytes true to their names and shared files read-only if and only if it does not end or break off a copy that has read bytes of another hash, nor make a shared file writable in place |
| ObjectIntegrity.ObjectsStayIntactIff | src/pear/cli/commands.cpp:303-322 | through every interleaving of the commands' steps with the user's, the bytes stored under every name hash to it (but for one being copied) and no writable workspace path shares a file with an object, at every moment, if and only if no step of the run is one of those |
| ObjectIntegrity.CalmRunsStayIntact | src/pear/cli/commands.cpp:880-905 | that holds of every run in which the user leaves a file alone from the beginning of its hashing, or from its download, to the end of its copying, and no copy is broken off |
| ObjectIntegrity.WriteDuringHash | src/pear/fs/hash.cpp:45-75 | a run from the empty disk in which the user writes between two reads of the hashing, and an object holds bytes of another hash than its name |
| ObjectIntegrity.WriteBetweenHashAndCopy | src/pear/cli/commands.cpp:304-314 | a run from the empty disk in which the user writes between the two and an object holds bytes of another hash |
| ObjectIntegrity.ChmodSafeIff | src/pear/cli/commands.cpp:583-592 | the in-place branch of `readonly --off` is safe if and only if the path is not another name of some object |
| ObjectIntegrity.FallbackCorrupts | src/pear/cli/commands.cpp:583-592 | a run from the empty disk in which that branch and one user write leave an object whose bytes do not hash to its name |
| StoreTruth.OwnedIsStored | src/pear/cli/commands.cpp:61-131 | in every run of all nodes together with the disk and the users of one: what the log says that node owns is on its disk with bytes of that hash, if the node has been prudent and its users left files alone while they were being stored |
| StoreTruth.StepOnFinished | src/pear/fs/workspace.cpp:127-177 | a step on the disk adds at most the one object it finishes, removes at most the one it deletes, and leaves all others |
| StoreTruth.GainIsMatched | src/pear/cli/commands.cpp:314-315 | an object finished on the disk between commands' steps is one the protocol takes note of in a step of its own |
| StoreTruth.LossIsMatched | src/pear/net/storage_service.cpp:138-168 | so is one deleted at the daemon's being asked |
| Placeholders.WorkTree.CreateAllEmptyFiles | src/pear/fs/workspace.cpp:179-183 | adds the placeholder of every name given and nothing else |
| Placeholders.WorkTree.ReconcilePlaceholders | src/pear/cli/sync.cpp:44-83 | the loops over tracked paths and over the tree leave the non-placeholders and the placeholders of the missing tracked paths, in whatever order the tree is walked |
| Placeholders.PlaceholderMeans | src/pear/cli/sync.cpp:64-70 | a placeholder is a name that ends in `.empty` after a non-empty last component, so neither `.empty` nor `dir/.empty` is one |
| Placeholders.ReconciledMeans | src/pear/cli/sync.cpp:44-83 | the placeholders are then exactly those of tracked paths not in the workspace, no other file is touched, and doing it again changes nothing |
| Placeholders.PlaceholderNamedFile | src/pear/cli/sync.cpp:68-80 | a file with a placeholder's name survives if and only if the path it stands for is tracked and missing |
| Status.IsFullyUntrackedDirectory | src/pear/cli/status.cpp:65-90 | true if and only if some file lies under the directory and all that do are untracked |
| Status.BestEntry | src/pear/cli/status.cpp:98-116 | the upward walk ends at the topmost fully untracked directory below the root, or at the file itself when there is none |
| Status.CompressUntrackedPaths | src/pear/cli/status.cpp:92-118 | every untracked file has its entry in the list, and every entry is that of some untracked file |
| Status.CompressionLossless | src/pear/cli/status.cpp:92-118 | expanding the entries over the workspace files gives back exactly the untracked files |
| Status.ListedDirectoriesAreClean | src/pear/cli/status.cpp:65-90 | no tracked or staged file lies under a listed directory |
| Status.EntriesAreAntichain | src/pear/cli/status.cpp:92-118 | no entry lies at or under a listed directory other than itself |
| Status.CollectUntracked | src/pear/cli/status.cpp:165-166 | a file is listed, or lies under a listed directory, if and only if it is neither staged nor tracked; no entry lies at or under a listed directory other than itself; and a directory below the root all of whose files are neither is listed or lies in one that is |

## Left out

- Transport: gRPC, protobuf encoding, channels and server threads. A call is a request and a reply, either of which may be lost or delayed; replies with log updates may also be repeated. A PushWAL request is carried out entry by entry and, unlike in the code, other requests may come in between its entries.
- Storage engine: SQLite, its locking and busy errors, and 64-bit overflow of ids. Statements have their relational meaning, a transaction is one step, ids and versions are unbounded.
- Hashing: SHA-256 is any function from bytes to names; nothing is claimed about collisions.
- Device registration: its row and its log entry are two transactions in the code; no storage failure is assumed to fall between them.
- Setup changes: deinit, switching the main node, a device that changes its address, two workspaces at one address.
- Serial commands: `Ownership.dfy` lets the commands of different nodes interleave freely but those of one workspace run one after another, apart from what their calls do later; `Replication.dfy` has no such assumption.
- OwnershipProof.OwnershipSound: promises an object only of nodes whose history is prudent, because the code lets an imprudent node lose it (`LateRun.LateRequestLosesObject`); connecting and staging with an open push are allowed.
- keep 0 on the main node: such cleanups are steps of `Replication.dfy`; the paths they name are recorded in its history field `gone` and excused from `Replication.DenseVersions` and `Replication.LatestViewRefinesLog`.
- Placeholders.WorkTree.ReconcilePlaceholders: assumes tracked names do not end in `.empty`, as `add` ensures; directories are not entities, so a directory in a tracked file's place and failures to create one are not covered.
- Download.DownloadObject: sizes are below 2^64, the width of their type.
- ObjectIntegrity.ObjectsStayIntactIff: assumes fresh temporary names the user does not touch, no change of file modes by the user, and no write through a file opened before its mode changed.
- StoreTruth.OwnedIsStored: the protocol counts an object from the moment its copy ends, or is broken off, not from the moment its name appears.
- Workspace.WorkspaceFiles.CreateObjectFile: the copy is one step here; `ObjectIntegrity.dfy` and `ObjectLocks.dfy` cut it. A process that may write read-only files is not modelled.
- ObjectLocks.StreamSeesOneObject: objects are created only while absent; two processes that both find an object absent and copy into it are not modelled.
- User interface: command-line parsing, printing, JSON output, progress, `log`, the tree view, configuration, the daemon and its pid file.
- Files: timestamps, symbolic links, other permission errors, crashes in the middle of a file operation other than a copy into the store.
- Owner address collection and object info: joining owner ids with device addresses and dropping duplicates, and the fields of the object-info reply, are plain field copying.

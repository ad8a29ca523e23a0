# sky10: file sync and agent coordination, modelled and proved

A Dafny model of the two stateful halves of sky10.

**File sync (`pkg/fs`).** The local ops log is replayed into a snapshot of files, directories and tombstones, cached,
and compacted (`OpsLog`, `OpsLogConvergence`, `OpsLogOrder`, `OpsLogRoots`, `OpsLogLimits`, `OpsLogCache`,
`OpsLogCompaction`, `LocalLog`). The shared op log is written under keys, filtered by key, decoded, sorted and folded
(`OpReplay`, `OpKeys`, `OpStore`), and the two replays are compared (`ReplayAgreement`). Around them: the pack writer,
the outbox worker, the three-way disk scan, blob garbage collection, the Merkle directory hash, the local/remote diff,
the chunk-source planner and the Windows path policy.

**Agent coordination (`pkg/agent`).** Store-and-forward mailbox delivery is a step system over any number of nodes, with
a relay that may drop, duplicate and reorder, private sends and compaction (`Mailbox`, `MailboxProtocol`,
`MailboxSafety`, `MailboxLimits`), and the router's code is proved to take those steps (`MailboxRouter`). The job and
spec stores are append-only logs with lifecycles (`LatestLog`, `JobStore`, `SpecStore`); the registry keeps four maps
(`Registry`).

Code that changes things step by step is a class or a loop proved against a function of the old state; the functions
are then related to simpler meanings: an order-free rule, a map, a set, a run of steps. Where a promised property is
false of the code, a lemma gives an input that breaks it and another says exactly when it holds.

What the environment decides is a parameter: the clock, fresh ids, hashes and ciphers (`digest`, `seal`, `open`,
`decode`), which strings parse as addresses, the outcome of every put, send and lease, and of every log write except
mailbox events, where a failed append is a step that is not taken. Integers are unbounded; where the code's width
matters (64-bit timestamps in keys and envelopes) it is written out.

## What is false of the code, and when

- Replay of the local log depends on the order of arrival. Every order shows the latest entries exactly when latest
  writes dominate their paths and nothing shares the clock of a directory's latest creation
  (`OpsLogOrder.LastWriterWinsIff`). Every order shows the same exactly when each path with a latest write has a
  dominating one and directories are untied, or nothing is newer than the latest `delete_root` (`OrderFreeIff`); this
  leaves out deletes that hide a latest write, which a delete by another device that names its content does in every
  order (`BlockedWriteIsLost`). An edit that is undone is dropped (`RevertIsLost`), and the disk scan then reports the
  file for ever (`ScanQuiescence.RevertNeverSettles`).
- A warm cache forgets a directory tombstone when the directory is created again, and shows files a restart would hide
  (`OpsLogCache.RevivedDirectorySplitsCache`); it is coherent exactly when no entry does that.
- Compaction writes the root tombstone last, so reading a compacted log wipes everything newer
  (`OpsLogCompaction.CompactionPreservesIff`), and a compacted log may answer later entries differently
  (`OpsLogCompaction.CompactionInvisibleIff`).
- A flush with only empty chunks pending reports success and indexes nothing; a second pack writer overwrites the first
  one's packs.
- An outbox entry refreshed within its own second is removed together with the entry it replaces; a put whose log record
  cannot be written is removed all the same (`Outbox.DropsIff`).
- A scan whose record is not stored lets the next one delete files it did not see (`DiskScan.DeletesLastSeenIff`).
- A stored snapshot that cannot be read protects no blob from collection.
- A rejected rename drops the agent's old name from the name index; if another agent then takes that name, removing the
  first one takes it from the second (`Registry.DeregisterShows`).
- A call's second save can bring a finished job back to work, as long as the call is still sending.
- A queue claim whose claimant is not the address its actor is routed to is assigned again if marking the item failed.
  Nodes running this code make no such claim (`MailboxLimits.ConformingAssignedOnce`), a foreign peer may.
- Mailbox compaction deletes delivered and terminal records; a replayed relay item then starts over.
- An item a node addresses to itself, or sends privately, can count as delivered although no other node ever held it.
- Backoff rounds up from one below an odd cap.

Documentation and code disagree in places; the model follows the code. The envelope comment lists two op types, the code
writes five (`pkg/fs/op.go:48-57`, `pkg/fs/op.go:105-114`). `ReadAllOps` skips ops with timestamp zero
(`pkg/fs/op.go:193-196`). `Compact` says that deletes stay authoritative (`pkg/fs/opslog/local.go:120-122`).

## Model

| member | source | states |
|---|---|---|
| `Ordering.BeatsTrichotomy` | pkg/fs/opslog/opslog.go:97-106 | the (timestamp, device, seq) comparison is total and antisymmetric |
| `Ordering.BeatsTransitive` | pkg/fs/opslog/opslog.go:97-106 | and transitive, so clocks are strictly ordered |
| `OpsLog.CoveredByDirTombstone` | pkg/fs/opslog/opslog.go:1160-1175 | walking up a path's parents finds a covering tombstone exactly when some deleted directory's prefix covers the path with a clock the entry does not beat |
| `OpsLog.SweepFiles` | pkg/fs/opslog/opslog.go:1097-1107 | the delete_dir loop removes, tombstones and stamps exactly the files below the directory that its clock beats, whatever order the map is visited in |
| `OpsLog.ReplayAppend` | pkg/fs/opslog/opslog.go:1003-1137 | replaying two stretches is replaying their concatenation |
| `OpsLogConvergence.FilesAreLatest` | pkg/fs/opslog/opslog.go:950-1140 | without delete_root, a file is visible exactly when a latest entry at its path is a write, and shows that write, if each such write dominates: it strictly beats the removals and no other entry names its content as predecessor |
| `OpsLogConvergence.DirsAreLatest` | pkg/fs/opslog/opslog.go:950-1140 | the same for directories, if no entry that touches one shares the clock of its latest creation |
| `OpsLogOrder.AlwaysShownIff` | pkg/fs/opslog/opslog.go:938-1140 | every arrival order, with any repeats, shows a write exactly when it outlives each other entry at its path one by one: by clock, or by naming the other's content |
| `OpsLogOrder.LastWriterWinsIff` | pkg/fs/opslog/opslog.go:938-1140 | every order shows the latest writes and creations and nothing where a removal is later, exactly when those writes dominate and those creations are untied; clocks may repeat otherwise |
| `OpsLogOrder.OrderFreeIff` | pkg/fs/opslog/opslog.go:938-1140 | every order shows the same exactly when the entries are convergent: with a delete_root, nothing brought is newer than the latest one; without, each path with a latest write has a dominating write and directories are untied; provided no delete hides a latest write |
| `OpsLogOrder.OrderFreeAndKeptIff` | pkg/fs/opslog/opslog.go:938-1140 | without that proviso: every order shows the same and loses no path with a latest write exactly when the entries are convergent |
| `OpsLogRoots.RootOrderFreeIff` | pkg/fs/opslog/opslog.go:1121-1135 | with a delete_root, every order shows the same exactly when no write or directory creation is newer than the latest one |
| `OpsLogOrder.ReplayConverges` | pkg/fs/opslog/opslog.go:938-1140 | any two logs with the same convergent entries show the same files and directories |
| `OpsLogOrder.KeptUnlessBlocked` | pkg/fs/opslog/opslog.go:1022-1032 | some order shows each path with a latest write, unless a delete by another device, or with the same clock, names that write's content |
| `OpsLogOrder.BlockedWriteIsLost` | pkg/fs/opslog/opslog.go:1022-1032 | such a delete hides the later write in every order |
| `OpsLogLimits.LaterWriteWins` | pkg/fs/opslog/opslog.go:1007-1021 | of two writes to one path the later wins, in each order, exactly when the earlier does not name its content as predecessor (in the second order, or it names the earlier one's) |
| `OpsLogLimits.RevertIsLost` | pkg/fs/opslog/opslog.go:1011-1014 | create, edit, undo replays to the edit, since the undo does not dominate |
| `OpsLogLimits.TombstonesDependOnOrder` | pkg/fs/opslog/opslog.go:1087-1107 | the tombstones behind converged files depend on arrival order |
| `OpsLogCache.TidyReplay` | pkg/fs/opslog/opslog.go:950-1140 | in every replayed state clocks match what they stand for, no path is both live and deleted, and no live entry is older than a tombstone above it |
| `OpsLogCache.SyncedStep` | pkg/fs/opslog/opslog.go:1065-1096 | a step leaves every enforced tombstone recorded in the snapshot exactly when it does not revive a deleted directory |
| `OpsLogCache.AdvanceAgrees` | pkg/fs/opslog/opslog.go:973-1001 | one entry gives the same snapshot from a replay state and from its reloaded snapshot, if every enforced tombstone is recorded there |
| `OpsLogCache.AdvanceAgreesIff` | pkg/fs/opslog/opslog.go:973-1001 | for replayed states all entries give the same snapshot exactly when every enforced tombstone is recorded |
| `OpsLogCache.CacheCoherent` | pkg/fs/opslog/local.go:44-62 | a cache warmed at any point and advanced entry by entry is the rebuilt snapshot, if no entry revives a deleted directory |
| `OpsLogCache.CacheCoherentIff` | pkg/fs/opslog/local.go:44-62 | at every point of a log the cache and a rebuild give the same snapshot for the next entry, whatever it is, exactly when no entry of the log revives a deleted directory |
| `OpsLogCache.RevivedDirectorySplitsCache` | pkg/fs/opslog/opslog.go:1079-1081 | after delete_dir, create_dir and an older put the warm cache shows the file and a rebuild does not |
| `OpsLogCompaction.CompactionRebuilds` | pkg/fs/opslog/local.go:126-310 | reading a compacted log gives the snapshot back, or only the root tombstone if one is set, whatever order the keys are written in |
| `OpsLogCompaction.CompactionPreservesIff` | pkg/fs/opslog/local.go:274-295 | compaction preserves the snapshot exactly when no root tombstone is set or nothing else is |
| `OpsLogCompaction.CompactedLogPreserved` | pkg/fs/opslog/local.go:120-310 | for every log, compacting and reading back keeps every file with chunks or a link target, every directory and tombstone, and no other file, exactly when no root tombstone is set or it stands alone |
| `OpsLogCompaction.CompactionIdempotent` | pkg/fs/opslog/local.go:126-310 | compacting twice is compacting once, with or without a root tombstone |
| `OpsLogCompaction.CompactionInvisibleIff` | pkg/fs/opslog/local.go:120-310 | a compacted log and the log itself give the same snapshot after any further entries exactly when every file has chunks or a link target, no root tombstone stands beside anything else, and no revived directory was forgotten |
| `OpsLogCompaction.SettledAdvance` | pkg/fs/opslog/opslog.go:973-1001 | what compaction relies on is kept by warm caches too |
| `LocalLog.SweepDirs` | pkg/fs/opslog/opslog.go:1108-1120 | the directory half of delete_dir removes and stamps exactly the directories at or below it that its clock beats |
| `LocalLog.Step` | pkg/fs/opslog/opslog.go:1003-1137 | one round of the loop is one step of the replay function, branch by branch |
| `LocalLog.BuildSnapshot` | pkg/fs/opslog/opslog.go:950-1140 | the materialization loop computes the replay of all entries on the base |
| `LocalLog.LocalOpsLog.Append` | pkg/fs/opslog/local.go:44-62 | appends the entry and advances a warm cache; a failed write changes nothing |
| `LocalLog.LocalOpsLog.AppendLocal` | pkg/fs/opslog/local.go:67-87 | stamps device, next number and, if missing, the time; a failed write still uses the number up |
| `LocalLog.LocalOpsLog.Rebuilt` | pkg/fs/opslog/local.go:322-344 | the cache becomes the rebuild and the counter rises to the largest local number in the file, no further |
| `LocalLog.LocalOpsLog.Current` | pkg/fs/opslog/local.go:91-99 | reading changes nothing visible and shows the rebuild of the file, if no entry revives a deleted directory |
| `LocalLog.LocalOpsLog.InvalidateCache` | pkg/fs/opslog/local.go:313-317 | afterwards the rebuild of the file is shown |
| `LocalLog.LocalOpsLog.Compact` | pkg/fs/opslog/local.go:126-310 | afterwards exactly the files with chunks or a link target are shown, unchanged, and all directories and tombstones, or nothing but the root tombstone if one is set |
| `OpReplay.BuildState` | pkg/fs/op.go:218-254 | the replay loop, with its inner loop over the tree, folds the ops |
| `OpReplay.LastWriterDecides` | pkg/fs/op.go:229-250 | each path is decided by the last op that touches it, or by the base if none does |
| `OpReplay.FoldAppend` | pkg/fs/op.go:218-254 | replaying xs then ys on the result is replaying xs + ys |
| `OpReplay.DisjointOpsCommute` | pkg/fs/op.go:229-250 | ops that touch no common path can be swapped |
| `OpReplay.SortOps` | pkg/fs/op.go:199-209 | the result is in clock order and holds the same ops |
| `OpReplay.OneArrangement` | pkg/fs/op.go:199-209 | with distinct clocks there is one sorted form |
| `OpReplay.ReplayConvergesIff` | pkg/fs/op.go:198-254 | all orders the sort may produce give one tree exactly when the latest ops at each path leave the same thing |
| `OpReplay.DistinctClocksConverge` | pkg/fs/op.go:198-254 | permutations of ops with distinct clocks sort and replay to one tree |
| `OpReplay.DetectConflicts` | pkg/fs/op.go:265-303 | every reported pair is two devices' edits of one content, and every such pair has a report for what it edited |
| `ReplayAgreement.ReplaysAgree` | pkg/fs/op.go:218-254 | where the latest writes dominate, the local log's files, in any arrival order, are what sorting and replaying the shared log gives, whatever the sort does with equal clocks |
| `OpKeys.OpKeyInjective` | pkg/fs/op.go:211-215 | for non-negative timestamps and numbers two keys are equal exactly when the clocks are, dashes in device ids included |
| `OpKeys.ParseInvertsOpKey` | pkg/fs/op.go:305-317 | the timestamp is read back from the key if it is not negative, and as zero otherwise |
| `OpKeys.NegativeSeqCollides` | pkg/fs/op.go:211-215 | a negative number can share a key with another device |
| `OpStore.MakeOpEnvelope` | pkg/fs/op.go:83-119 | the filled buffer is the 22-byte header followed by the payload |
| `OpStore.EnvelopeRoundTrip` | pkg/fs/op.go:83-135 | parsing an envelope gives back the payload and version, and the header bytes give back the 64-bit timestamp, device field and type code |
| `OpStore.LegacyPayload` | pkg/fs/op.go:121-135 | a blob without envelope comes back whole exactly when it is short or does not start with the magic |
| `OpStore.DecodeMeans` | pkg/fs/op.go:121-191 | an envelope of a later major version is refused; otherwise the payload after the header, or the whole old blob, is decoded |
| `OpStore.ReadOps` | pkg/fs/op.go:139-191 | fails exactly when a selected blob cannot be decoded; otherwise returns exactly the ops under keys later than `since`, in clock order, each clock once if every op is under its own key |
| `OpStore.ReadIsWritten` | pkg/fs/op.go:62-191 | of a written log exactly the last op of each clock with timestamp after `since` is read: filtering by key is filtering by content |
| `PackWriter.NothingLost` | pkg/fs/pack.go:118-175 | after any adds and flushes with any put outcomes the pending entries tile the buffer, and each hash is found in buffer or packs with the bytes last added |
| `PackWriter.FlushedReadsBack` | pkg/fs/pack.go:144-186 | after a successful flush that left nothing pending, reading each hash's indexed range returns the bytes last added |
| `PackWriter.FlushSettlesIff` | pkg/fs/pack.go:151-154 | a successful flush leaves nothing pending exactly when more than empty chunks was pending |
| `PackWriter.EmptyChunkUnindexed` | pkg/fs/pack.go:151-154 | an empty chunk alone is accepted and flushed but never indexed |
| `PackWriter.SecondWriterOverwrites` | pkg/fs/pack.go:110-116 | a second writer makes the first one's chunk read back as its own |
| `PackWriter.PacksStaySmall` | pkg/fs/pack.go:121-142 | while puts succeed no stored pack reaches 20 MiB |
| `PackWriter.AddShows` | pkg/fs/pack.go:118-142 | chunks of up to 4 MiB are buffered, and the buffer is flushed exactly when it reaches 16 MiB |
| `PackWriter.FlushShows` | pkg/fs/pack.go:144-186 | what a flush leaves for each outcome of the put |
| `PackWriter.RefusedPutGrowsPack` | pkg/fs/pack.go:159-162 | after a refused put the next pack holds the kept buffer and more |
| `PackWriter.PackNameInjective` | pkg/fs/pack.go:156-157 | different numbers give different pack names |
| `PackWriter.PackWriterObject.AddChunk` | pkg/fs/pack.go:121-142 | the object's fields change as the model's add says, with both results |
| `PackWriter.PackWriterObject.FlushBuffer` | pkg/fs/pack.go:151-176 | the indexing loop and reset do what the model's flush says, on every outcome |
| `Outbox.ConsumedOnceInOrder` | pkg/fs/outbox_worker.go:80-139 | if no two appended entries share path and second, at every moment everything appended is what was consumed followed by what is queued, in order |
| `Outbox.FinishConservesIff` | pkg/fs/outbox_worker.go:117-121 | removing a finished entry loses nothing exactly when no other queued entry has its path and second |
| `Outbox.OneOutputEach` | pkg/fs/outbox_worker.go:80-253 | each consumed entry gave one record, one refreshed entry or was dropped, as the file, the upload and the log called for; a put or link record names what the log showed as predecessor, a put record repeats its finished upload; nothing else was recorded |
| `Outbox.DropsIff` | pkg/fs/outbox_worker.go:148-253 | the worker drops the head exactly when its op is unknown, or it is a put that reaches its log write and the write fails |
| `Outbox.RetriesIff` | pkg/fs/outbox_worker.go:80-330 | an entry stays queued exactly when its file cannot be read, its upload or re-queueing fails, or, for ops other than puts, the log write fails; nothing is then recorded or removed |
| `Outbox.WorkLogs` | pkg/fs/outbox_worker.go:199-330 | the log grows by exactly the record the worker counts as its own |
| `Outbox.RecordedOrRefreshed` | pkg/fs/outbox_worker.go:80-253 | in a run whose log writes succeed and whose ops are known every consumed entry is recorded or refreshed |
| `Outbox.RecordsNumbered` | pkg/fs/opslog/local.go:67-87 | the worker's records carry its device and strictly increasing numbers, failed writes included |
| `Outbox.SameSecondRefreshIsLost` | pkg/fs/outbox_worker.go:238-253 | a refreshed entry disappears with the one it replaces exactly when it was stamped in the same second |
| `Outbox.RemoveMatching` | pkg/fs/synclog.go:98-117 | the rewrite keeps exactly the entries with another key, in order |
| `Outbox.Worker.DrainOnce` | pkg/fs/outbox_worker.go:80-139 | one round of the loop is one step of work and one removal |
| `Outbox.Worker.TryUpload` | pkg/fs/outbox_worker.go:148-253 | every branch of the upload, in order, gives the outcome those rules name |
| `DiskScan.DeletesOnlySeenFiles` | pkg/fs/daemon_v2_5.go:595-614 | over every run of scans a delete is logged only for a file some earlier scan saw, and never for one on disk |
| `DiskScan.ScanMeans` | pkg/fs/daemon_v2_5.go:595-648 | which files a scan deletes, none if the stored record cannot be read, and what record it leaves |
| `DiskScan.DeletesLastSeenIff` | pkg/fs/daemon_v2_5.go:595-648 | every next scan deletes only what the last one saw exactly when the stored record holds nothing else |
| `DiskScan.StoredRecordIsEnough` | pkg/fs/daemon_v2_5.go:646-648 | which a last scan that stored its record ensures |
| `DiskScan.UnstoredScanDeletesUnseen` | pkg/fs/daemon_v2_5.go:646-648 | one unstored record lets a scan delete a file the last completed scan did not see |
| `DiskScan.Scan` | pkg/fs/daemon_v2_5.go:487-636 | the loops report exactly the changed files, vanished files, new directories or missing root, each once |
| `DiskScan.QuietIff` | pkg/fs/daemon_v2_5.go:487-636 | a scan reports nothing exactly when the log agrees with every file it has not deleted, in content or link target, has every empty directory, and knows of no file gone since the last scan |
| `DiskScan.ReportedIff` | pkg/fs/daemon_v2_5.go:487-636 | exactly the files the log does not agree with are queued with their content and, if links, their target; and which deletes, directories and root deletions are reported |
| `DiskScan.SaveLocalDiskState` | pkg/fs/local_disk_state.go:41-57 | the stored list is sorted and holds every path but the empty one |
| `DiskScan.LoadLocalDiskState` | pkg/fs/local_disk_state.go:17-39 | loading gives the stored paths as a set |
| `ScanQuiescence.ViewMoves` | pkg/fs/daemon_v2_5.go:487-636 | recording one scan's effects, with any clocks, shows each accepted one, nothing of a rejected one, and leaves every other path alone; acceptance can be judged on the starting snapshot |
| `ScanQuiescence.SecondScanQuietIff` | pkg/fs/daemon_v2_5.go:422-648 | after scan and drain, with any clocks, a second scan of the same disk reports nothing exactly when the starting snapshot accepts every file and directory effect |
| `ScanQuiescence.MissingRootSettles` | pkg/fs/daemon_v2_5.go:564-594 | with the root missing one delete_root is logged and the next scan reports nothing |
| `ScanQuiescence.RevertNeverSettles` | pkg/fs/daemon_v2_5.go:487-561 | a file put back to the content it was edited from is reported by every scan, after any number of scans and drains, and its entry never changes |
| `BlobGC.GC` | pkg/fs/gc.go:33-46 | a dry run changes nothing; for distinct namespaces both runs report the same numbers of snapshots and blobs |
| `BlobGC.GcNamespace` | pkg/fs/gc.go:48-106 | one namespace loses exactly its expired snapshots and unreferenced blobs, and the counters say so |
| `BlobGC.SweepSnapshots` | pkg/fs/gc.go:57-82 | the loop deletes and counts the expired snapshots, counts the retained ones and gathers what the readable ones refer to |
| `BlobGC.SweepBlobs` | pkg/fs/gc.go:91-104 | the loop deletes and counts exactly the blobs without a reference |
| `BlobGC.CollectBlobRefs` | pkg/fs/gc.go:108-136 | the hashes of one readable snapshot are added, of an unreadable one none |
| `BlobGC.SurvivesIffReferenced` | pkg/fs/gc.go:33-106 | a blob of a collected namespace survives exactly when a retained, readable snapshot of that namespace refers to it |
| `BlobGC.OthersUntouched` | pkg/fs/gc.go:33-106 | keys outside the collected namespaces stay, and what survives is unchanged |
| `BlobGC.CollectionIdempotent` | pkg/fs/gc.go:33-106 | a second run with the same cutoff deletes nothing |
| `BlobGC.UnreadableSnapshotProtectsNothing` | pkg/fs/gc.go:73-79 | if no retained snapshot can be read every blob is deleted |
| `BlobGC.DryRunCountsRepeats` | pkg/fs/gc.go:40-44 | naming a namespace twice doubles a dry run's count and changes nothing in a real run |
| `BlobGC.SnapshotExpiresByTime` | pkg/fs/gc.go:57-70 | a snapshot key gives back its time, so it expires exactly when that is positive and before the cutoff; the latest never does |
| `BlobGC.BlobKeyNamesHash` | pkg/fs/gc.go:152-160 | a blob key gives back its hash |
| `DirMerkle.OrderDoesNotMatter` | pkg/fs/dirtree.go:43-82 | trees that differ only in listing order hash alike |
| `DirMerkle.EqualHashesEqualTrees` | pkg/fs/dirtree.go:43-82 | with a collision-free digest of fixed length, same names and kinds and equal root hashes mean equal checksums everywhere |
| `DirMerkle.UnframedNamesCollide` | pkg/fs/dirtree.go:63-79 | without the same-shape premise two different directories hash alike |
| `DirTree.DirHash` | pkg/fs/dirtree.go:43-82 | the accumulating walk computes the recursive hash |
| `DirTree.DirTreeRecursive` | pkg/fs/dirtree.go:84-132 | the walk adds each path of its tree with its hash to the shared map and changes nothing else |
| `DirTree.DirTree` | pkg/fs/dirtree.go:31-41 | the map has exactly the tree's paths, each with the recursive hash of what is there; the root's is the directory hash |
| `FileDiff.DiffLocalRemote` | pkg/fs/diff.go:35-94 | one entry for each path where the sides differ, with the direction LocalWins gives a meaning to |
| `FileDiff.DiffReconciles` | pkg/fs/diff.go:35-94 | acting on the diff makes paths and checksums agree, and a second diff is empty |
| `FileDiff.LocalWins` | pkg/fs/diff.go:51-94 | after acting, a local file is as it was, unless it is empty and the remote one is not; a remote-only file keeps its entry; what agreed is untouched |
| `FileDiff.EmptyNeverUploaded` | pkg/fs/diff.go:51-63 | a remote file with content is never replaced by an empty local one |
| `FileDiff.DiffForDeleted` | pkg/fs/diff.go:96-114 | one delete for each path that was local, is no longer, and is remote |
| `FileDiff.DeletedStaysDeleted` | pkg/fs/diff.go:35-114 | after acting on the deletes first, a locally deleted path is on neither side |
| `ChunkSources.BackoffForFailures` | pkg/fs/chunk_source_planner.go:132-157 | the wait is at most the cap, and is the base doubled per failure cut off at the cap, exactly unless that lands one below the cap |
| `ChunkSources.EvenCapIsExact` | pkg/fs/chunk_source_planner.go:132-157 | which an even cap rules out |
| `ChunkSources.Prioritize` | pkg/fs/chunk_source_planner.go:55-69 | a stable permutation of the sources by score |
| `ChunkSources.ScoreMeans` | pkg/fs/chunk_source_planner.go:107-130 | the score of each kind of source, and which kinds share a health record |
| `ChunkSources.LocalFirst` | pkg/fs/chunk_source_planner.go:114-130 | local sources come first; S3 out of backoff precedes a peer in backoff |
| `ChunkSources.HealthyPeerBeforeS3` | pkg/fs/chunk_source_planner.go:114-130 | a peer out of backoff comes after S3 exactly on a tie of ten failures against none that S3 wins by being listed first |
| `ChunkSources.Planner.RecordFailure` | pkg/fs/chunk_source_planner.go:89-105 | a counted failure raises the count and puts the source in backoff for the doubled wait; nothing else changes |
| `ChunkSources.Planner.RecordSuccess` | pkg/fs/chunk_source_planner.go:71-87 | a success ends the backoff of its source only |
| `ChunkSources.NextLocalScanDelay` | pkg/fs/daemon_v2_5.go:278-303 | the delay is the doubled interval, at most five times the base, plus less than a fifth |
| `ChunkSources.JitterKeepsOrder` | pkg/fs/daemon_v2_5.go:278-303 | below the cap a later step is always longer, and no delay reaches six times the base |
| `WindowsPaths.NormalizeFixed` | pkg/fs/path.go:35-78 | normalising only turns backslashes, and its results are fixed points of both forms |
| `WindowsPaths.NormalizeIff` | pkg/fs/path.go:35-78 | exactly relative paths without drive letter and without empty, "." or ".." segments are accepted |
| `WindowsPaths.AcceptableIff` | pkg/fs/path.go:107-151 | exactly canonical paths whose segments have no trailing dot or space, reserved character or device name raise no issue of their own |
| `WindowsPaths.DetectWindowsPathIssues` | pkg/fs/path_policy.go:33-85 | the issues are a function of the set of paths: order and repeats do not show |
| `WindowsPaths.PathIssueBlocksPath` | pkg/fs/path_policy.go:147-159 | a path is blocked exactly when it is, or is below, a path of an issue |
| `WindowsPaths.NamedIff` | pkg/fs/path_policy.go:33-85 | an issue names a path exactly when Windows would not take it or another taken path folds to the same |
| `WindowsPaths.UnblockedPathsAreSafe` | pkg/fs/path_policy.go:33-159 | unblocked paths are canonical, valid on Windows, and distinct after folding |
| `Mailbox.HasMailboxEvent` | pkg/agent/router.go:1477-1490 | the scan finds an event exactly when one of that type carries the value |
| `Mailbox.RelayHandoffForRecord` | pkg/agent/router.go:1458-1470 | the backward scan names the latest handoff, by its id or the item's |
| `Mailbox.EssenceKeepsRoute` | pkg/agent/router.go:960-964 | clearing hints on the way does not change where an item is routed |
| `Mailbox.SameEssenceIff` | pkg/agent/router.go:960-964 | copies of an item may differ in the recipient's device hint and the sender's route hint and in nothing else |
| `Mailbox.CreatableIff` | pkg/agent/mailbox/types.go:125-147 | which items may be stored |
| `Mailbox.StateMeans` | pkg/agent/mailbox/index.go:184-227 | which last events make a record terminal, delivered or failed, and that a lease shows unless they do |
| `Mailbox.RouteMeans` | pkg/agent/mailbox/types.go:84-104 | the route hint is tried before the id, and only on the public network |
| `MailboxProtocol.HandoffReachable` | pkg/agent/mailbox/relay_dropbox.go:145-195 | the relay gets the same item up to hints, and a sender without a route becomes reachable at the node's address |
| `MailboxSafety.NextKeeps` | pkg/agent/router.go:858-1268 | every step of every node keeps the network invariant; all but compaction only add to mailboxes |
| `MailboxSafety.DeliveredMeansHeld` | pkg/agent/router.go:205-1116 | in every run a live network delivery is recorded only when another node has held the item, and a receipt only when the addressed node has; any other delivery was local or a private send of an item from the device's own id with an inline message |
| `MailboxSafety.CopiesAgree` | pkg/agent/router.go:932-1083 | a node that has held an item holds it still unless it compacted it, and all copies are the same item up to hints |
| `MailboxSafety.RecordedOnce` | pkg/agent/router.go:1050-1159 | however anything is replayed, a record's timeline has each creation, each handoff's receipt and each assignment of the item at most once |
| `MailboxSafety.CreatedOncePerCompaction` | pkg/agent/mailbox/store.go:52-107 | a node creates a record of an item at most once more often than it compacts one, and without compaction at most once |
| `MailboxSafety.AssignedOnce` | pkg/agent/router.go:1202-1230 | however often a routable claim is ingested, a node makes a second assignment for its item, agent and claimant only after compacting the first |
| `MailboxProtocol.NewQueueClaim` | pkg/agent/mailbox/public_queue.go:108-143 | a claim is made exactly for a complete offer and an actor with an address, and is routable |
| `MailboxLimits.ConformingAssignedOnce` | pkg/agent/router.go:738-750 | in runs whose claims are all made so, a node makes a second assignment for an offer only after compacting the first |
| `MailboxSafety.RecordsPersist` | pkg/agent/mailbox/store.go:52-107 | over every run items do not change and timelines only grow, until the record is compacted |
| `MailboxSafety.RemovedIffCompacted` | pkg/agent/mailbox/lifecycle.go:220-312 | a step removes a record exactly when it compacts a delivered or terminal one |
| `MailboxLimits.RepeatedClaimFindsAssignment` | pkg/agent/router.go:1202-1230 | an assignment is found again by the same claim exactly when the claimant is its actor's route address |
| `MailboxLimits.UnroutableClaimDuplicates` | pkg/agent/router.go:1118-1230 | a run that assigns a claim twice: the claimant is not its actor's route address, and marking the item failed the first time |
| `MailboxLimits.AssignsIff` | pkg/agent/router.go:1118-1230 | ingesting a claim makes an assignment exactly when the item is open for it, the lease is held or granted, no reply answers it, and the new item can be created |
| `MailboxLimits.AnsweredIff` | pkg/agent/router.go:1202-1210 | what answers a claim: a reply to its item, addressed to its agent at its claimant |
| `MailboxLimits.AssignsAgainIff` | pkg/agent/router.go:1118-1230 | while an assignment is on record another one for the same offer is made exactly when all this holds of a claim that is not routable |
| `MailboxLimits.MarkedTakesNoClaims` | pkg/agent/router.go:1126-1128 | once the item is marked as assigned, ingesting any claim for it changes nothing |
| `MailboxLimits.RecreatedIff` | pkg/agent/router.go:1050-1064 | a relay item makes a record exactly when the node has compacted every one it had |
| `MailboxLimits.CompactedThenReplayed` | pkg/agent/mailbox/lifecycle.go:386-397 | a record that is compacted and replayed starts over with an empty history |
| `MailboxLimits.ReceiptFromAnotherNode` | pkg/agent/router.go:1065-1116 | a receipt comes from another node exactly when the item is not addressed to its sender |
| `MailboxLimits.SelfAddressedReceipt` | pkg/agent/router.go:932-1116 | a run in which a lone node receipts its own item |
| `MailboxLimits.PrivateDelivery` | pkg/agent/router.go:205-297 | a run in which a private send of an inline message counts as delivered although no other node ever held the item |
| `MailboxLimits.TrustworthyIff` | pkg/agent/router.go:205-1116 | a delivery that is not local means in every run that another node has held the item, exactly for items that are neither inline messages from the device's own id nor addressed to the node itself |
| `MailboxRouter.Router.HandleDeliver` | pkg/agent/link.go:68-103 | the live handler is one receive step, and accepting means holding |
| `MailboxRouter.Router.IngestRelayItem` | pkg/agent/router.go:1050-1083 | ingesting an item is one step; the receipt it publishes is one the protocol allows, and none is owed otherwise |
| `MailboxRouter.Router.IngestRelayReceipt` | pkg/agent/router.go:1085-1116 | ingesting a receipt is one step |
| `MailboxRouter.Router.EnsureAssignment` | pkg/agent/router.go:1202-1230 | finds a matching reply in any listing order, or creates the assignment |
| `MailboxRouter.Router.MarkPublicQueueAssigned` | pkg/agent/router.go:1232-1268 | marks an assignment once and releases the lease |
| `MailboxRouter.Router.IngestQueueClaim` | pkg/agent/router.go:1118-1159 | ingesting a claim is one step with the lease and write outcomes as given, on every path through it |
| `MailboxRouter.Router.DeliverNetworkMailbox` | pkg/agent/router.go:932-1048 | a delivery undisturbed on its node is a run of steps and adds to the timeline exactly the attempts, and the delivery, failure or hand-off, that the outcome calls for |
| `MailboxRouter.Router.StartDelivery` | pkg/agent/router.go:932-982 | up to the live call: one step from any network state, and the event it adds, if the record is still there |
| `MailboxRouter.Router.AfterCall` | pkg/agent/router.go:983-1043 | from the answer to the live call, whatever happened meanwhile, to the relay: one step, and the event it adds |
| `MailboxRouter.Router.AfterHandoff` | pkg/agent/router.go:999-1031 | from the relay's answer, whatever happened meanwhile: one step; no hand-off is recorded on a delivered or terminal record |
| `MailboxRouter.Router.DeliverNetworkQueueOffer` | pkg/agent/router.go:858-930 | a queue offer is a run of steps that adds a failure without a public queue, nothing for a terminal or already offered record, and otherwise an attempt and its outcome |
| `LatestLog.ListLatest` | pkg/agent/job_store.go:261-313 | lists the last saved value of each live id, each once, most recently saved first |
| `LatestLog.ReadLog` | pkg/agent/spec_store.go:282-348 | replay with tombstones agrees with a plain map and keeps ids in order of their last save |
| `LatestLog.LatestMeans` | pkg/agent/spec_store.go:302-338 | the map holds an id exactly when the last line about it saved it, with that value |
| `JobStore.TermsNeverChange` | pkg/agent/job_store.go:162-259 | over every run a job keeps its identity, payment state and idempotency key |
| `JobStore.TerminalAbsorbsIff` | pkg/agent/job_store.go:162-259 | a terminal job stays exactly as it is in every continuation exactly when no call for it is still sending |
| `JobStore.SecondSaveShows` | pkg/agent/job_rpc.go:100-119 | a call's second save shows the job accepted or failed, without progress or result, whatever it was |
| `JobStore.CompletedThenAccepted` | pkg/agent/job_rpc.go:72-119 | call, complete, second save: the job is accepted again |
| `JobStore.JobFacts` | pkg/agent/job_rpc.go:42-74 | in every run finished jobs have progress 1, and one nonempty key makes one job per buyer, seller and tool |
| `JobStore.OperationShows` | pkg/agent/job_store.go:162-259 | an operation changes nothing exactly when the job is missing or terminal or the request is bad; otherwise one line is added that shows the changed job and no other |
| `JobStore.CallIff` | pkg/agent/job_rpc.go:42-77 | a call makes a job unless its nonempty key repeats one used by the same buyer for the same seller and tool, or the request is unsound |
| `JobStore.ChangedJob` | pkg/agent/job_store.go:162-259 | which fields each operation sets, and that it keeps the job valid and its terms |
| `JobStore.JobLog.Find` | pkg/agent/job_store.go:109-124 | the search of the latest jobs is the lookup by trimmed id |
| `JobStore.JobLog.FindByIdempotency` | pkg/agent/job_store.go:126-141 | finds a job exactly when one with that buyer, seller, tool and nonempty key is live |
| `JobStore.JobLog.Perform` | pkg/agent/job_store.go:162-259 | cancel, update, complete and fail refuse or save as the lifecycle says |
| `SpecStore.SpecsOnlyAge` | pkg/agent/spec_store.go:57-232 | over every run a spec moves only forward from draft to approved to discarded to deleted; its creation time is fixed and its content is fixed once it leaves draft |
| `SpecStore.DeletedStaysDeleted` | pkg/agent/spec_store.go:182-232 | a deleted id never comes back |
| `SpecStore.ApprovedHasDate` | pkg/agent/spec_store.go:149-166 | approved specs carry an approval time, drafts none |
| `SpecStore.OperationShows` | pkg/agent/spec_store.go:57-232 | each operation is refused exactly when said, and otherwise adds one line that shows the named spec with these fields, or its absence, and leaves the others alone |
| `SpecStore.SpecLog.UpdateSpec` | pkg/agent/spec_store.go:123-147 | only drafts are updated, keeping creation and approval times |
| `SpecStore.SpecLog.ApproveSpec` | pkg/agent/spec_store.go:149-166 | approves anything but a discarded spec |
| `SpecStore.SpecLog.DiscardSpec` | pkg/agent/spec_store.go:168-180 | discards any live spec |
| `SpecStore.SpecLog.DeleteSpec` | pkg/agent/spec_store.go:182-232 | writes a tombstone for a live spec |
| `Registry.MapsAgree` | pkg/agent/registry.go:41-177 | in every run key names correspond one to one with live agents, heartbeats are kept for exactly those, and every indexed name belongs to a live agent of that name |
| `Registry.CompleteUnlessRejectedRename` | pkg/agent/registry.go:51-58 | a step breaks a complete name index exactly when it is a rejected rename |
| `Registry.NamesFindAgents` | pkg/agent/registry.go:41-177 | without one every agent is found by its name and names are unique |
| `Registry.LostNameStaysLost` | pkg/agent/registry.go:49-58 | registering again under the lost name does not bring it back |
| `Registry.RegisterShows` | pkg/agent/registry.go:41-98 | a registration shows the agent as requested and nothing else changed, or is refused for a taken name |
| `Registry.DeregisterShows` | pkg/agent/registry.go:153-166 | removing an agent takes a name from another one exactly when that one took it over after a rejected rename |
| `Registry.AgentRegistry.RegisterAgent` | pkg/agent/registry.go:41-98 | the four maps change as the model says on every branch, and the error is returned exactly for a taken name |
| `Registry.AgentRegistry.DeregisterAgent` | pkg/agent/registry.go:153-166 | removes the agent from all four maps |
| `Registry.AgentRegistry.RecordHeartbeat` | pkg/agent/registry.go:169-177 | stamps a known agent only |
| `Registry.AgentRegistry.Resolve` | pkg/agent/registry.go:186-243 | finds by id first, then by name; a hit by name has that name |

## Left out

- OpsLogOrder.OrderFreeIff: where a delete hides a latest write, which sets of entries still converge to showing nothing is not characterised; OrderFreeAndKeptIff is exact for those that lose no such write.
- OpReplay.SortOps: the sort is modelled on values by what the comparator asks for, not as an update in place, because the library sort is not part of this model.
- MailboxRouter.Router.DeliverNetworkMailbox: nothing else happens on the node during the whole call; its three parts are proved for whatever happens between them.
- MailboxRouter.Router.IngestQueueClaim: one ingestion is one step, as when a single loop ingests the relay; two loops at once could both pass the check before either appends.
- MailboxSafety.DeliveredMeansHeld: every node runs this code, except that claims may be any; a live call reaches a node other than its sender; the relay forges nothing (envelopes are sealed but not signed).
- Outbox.OneOutputEach: a crash between recording and removal, which records an entry twice, and a queue rewrite that fails are not modelled.
- ScanQuiescence.SecondScanQuietIff: files are stable and readable, uploads and log writes succeed, the Windows policy is off, and an empty directory has nothing scanned below it, as the walk lists it.
- BlobGC.GC: deletes, listings and reads of the backend succeed; reclaimed bytes and the referenced counter are not stated.
- DirTree.DirTree: paths are lists of names instead of joined strings, and the ignore function has been applied to the tree.
- JobStore.TerminalAbsorbsIff: a lookup and the save that follows it are one step.
- MailboxSafety.RecordsPersist: when a lifecycle sweep runs and the age limits it compares are not modelled; any delivered or terminal record may be compacted at any time.
- Private-network peer lookup and the agent.send call itself: the step system has the delivery event they append.
- Job and spec listing filters, tool and skill normalisation, key-name normalisation: easy members.
- The S3 side of pkg/fs/opslog (batched reads, snapshot upload and download), the reconciler, the poller and the watcher.
- Encryption, chunking, JSON, file and temp-rename details, peer discovery, timeouts, events and logging.
- Commands, packaging, configuration, spec building and compiling, payments.

# Hyperlite, modelled and proved in Dafny

This project models the parts of Hyperlite whose correctness is not visible from one function: its deduplicating backup
store, its retention of backups and copies of stores, its load balancing, its leader's lease and tree rewrite, its
all-or-nothing restore, its CPU and VLAN lists, and its schedules. `dafny verify dfyconfig.toml` checks all of it.

| Files | What they model |
|---|---|
| `Wrappers`, `Bytes`, `Sorting`, `RangeText` | options and results, byte strings and digits, sorted sets, numbers and ranges as text |
| `StoreSettings`, `IndexCodec`, `KeyCode`, `ChunkCodec` | the store's constants and formats: a disk's index, a written-down key, a chunk's file |
| `ChunkStore`, `BackupStore`, `DiskCut` | the store as its readers see it, the store as its operations change it, where chunks lie on a disk |
| `IncrementalBackup`, `Restore`, `StoreHistory` | reading a disk whole or over a base, writing it back, and every history of a store |
| `GarbageCollection` | mark and sweep beside running backups, step by step |
| `Calendar`, `Retention`, `RetentionChoice`, `Pruning`, `StoreSync` | dates and next runs, the retention policy, pruning in the long run, copy jobs |
| `AffinityRules`, `ClusterLoad`, `LoadPlanner`, `LoadPlan`, `Placing`, `AutomaticMoves` | load balancing: rules, loads, the plan, placement, automatic mode |
| `LeaderLease`, `NameUpgrade`, `TreeRewrite` | the leader's lock, and the rewrite of the replicated tree |
| `DiskSwap`, `DiskNames` | the restore of a VM's disks by renames, and the names it uses |
| `CpuSet`, `VlanPort` | CPU lists, trunk lists and a bridge port's VLAN table |

How the source's world is carried over:

- Foreign functions (the chunk digest, zstd, AES-GCM, CRC-32, SHA-256) are parameters with stated laws: the digest is
  injective and never all zeros, and decompression and decryption invert their partners. A chunk's digest is a byte string
  of any length, since no injective function has 32 bytes for result.
- Clocks, nonces, streams, answers of other services and failures of commands are parameters. A failure can come at any
  command or rename.
- Threads are interleaved atomic steps (`GarbageCollection`, `LeaderLease`, `TreeRewrite`), or a bounded queue whose
  futures are run when they are taken (`IncrementalBackup`, `Restore`); the order in which puts complete does not matter
  (`StoredInAnyOrder`), and reads change nothing.
- What a result assumes of the world can be met: `SomeSchemeIsLawful` and `SomethingLists` give instances.
- Times and loads are real numbers. VM and node names of load balancing are numbered in their alphabetical order.

## What the code does not do

Each of these is a property one would expect, that the code does not have. The model keeps the code as it is, a lemma
gives an input that shows it, and another says exactly when the property holds.

- A copy job compares what it removes with the whole target, inside its loop over the VMs
  (`app/core/backup_store_sync.py:147-161`). So it leaves the target with what the policy keeps, per VM, if and only if the
  target was empty or the two stores hold one VM at most (`RightIff`, `AgainIsRightIff`); with two VMs a second run removes
  every copy (`SecondRunLosesAll`).
- `schema_v1.row` changes its argument in place for a table without renamed columns, so the rewrite of the tree compares a
  row with itself (`app/core/schema_v1.py:363-372`, `app/core/cluster_v1.py:93-95`). Recorded as done, the rewrite leaves
  exactly the old rows that such tables held before and that no other writer has changed since (`OldRowsOnceDone`,
  `DoneLeavesNoOldRowIff`, `OldRoleStays`); alone, it leaves none if and only if they held none (`AloneLeavesNoOldRowIff`).
- A collection that dies holding a chunk leaves it under its sweep name, and the next collection gives it its name back
  after its own mark (`DyingCollectionLosesChunk`, `NextCollectionDeletesIt`). The chunk outlives every run of that
  collection if and only if its access time is not before the new cutoff (`LeftoverIsJudgedByItsAge`), and runs in which
  this holds of the leftovers of committed backups lose no committed chunk, whatever crashes
  (`CrashesLoseNothingRecoveredInTime`). It holds when each such collection begins soon enough after the backup
  (`PromptCollectionsLoseNothing`).
- A restore whose swap fails leaves every disk as it was if and only if each disk before the first whose renames fail was
  there (`NothingChangedIff`); whatever rename fails, if and only if each disk but the last was there
  (`NothingChangesWhateverFailsIff`). Of two disks, the first one absent, the image stays when the last rename fails
  (`ImageOfAbsentDiskStays`).
- The names a restore uses can meet when a disk's name holds `.restore-`. They are apart if and only if no two disks of one
  directory are such that the one's name, its first `.restore-` made `.pre-restore-`, is the other's, or is what the
  other's becomes in the same way (`NamesAreSeparateIff`). Apart, no rename touches another disk's files. In the first
  case (`AsideMeetsImage`) the one is set aside under the name of the other's image: swapped first, it makes its own old
  content the other disk; swapped second, it does no harm (`ClashByOrder`). In the second (`AsidesMeet`) the two are
  set aside under one name, and the old content of the first is lost (`ClashLosesOldDisk`).
- A put of a damaged chunk's content repairs it if and only if no damaged file is left in its place
  (`PutRepairsWhenAside`): a damaged one is only touched (`DamagedChunkIsOnlyTouched`).
- Two nodes can both lead if and only if an answer of the lock service may be used more than 2 RENEW_S after it was given
  (`WindowIsTheMargin`, `LateAnswer`).
- A collection can lose a committed chunk, and none dies for it, if and only if backups may write their manifest later than
  the grace period after their first touch, less a write window and a sweep window (`MarginIsTheWindows`,
  `SmallerMarginLosesChunk`).

## Model

| member | source | states |
|---|---|---|
| GarbageCollection.CollectionNeverLosesCommittedChunks | app/core/backup_store.py:469-536 | In every interleaving of backups, deletions and collections without a crash, each committed backup's chunks are at their paths, or renamed by the running sweep with an access time that sends them back, when each backup commits within the grace period less the two windows |
| GarbageCollection.WhatWasCommittedIsInReach | app/core/backup_store.py:222-302 | The same in terms of the steps alone: each chunk a backup touched or wrote before it committed is in reach for as long as the backup is not deleted |
| GarbageCollection.CrashesLoseNothingRecoveredInTime | app/core/backup_store.py:469-536 | In every such interleaving, whichever collections die midway, each committed backup's chunks are in reach or left over for the next collection, when each leftover a committed backup names is recovered with an access time not before the cutoff |
| GarbageCollection.WhatWasCommittedIsNotLost | app/core/backup_store.py:222-302 | The same in terms of the steps alone |
| GarbageCollection.CommittedIsRecorded | app/core/backup_store.py:281-302 | A commit records exactly what the backup touched or wrote since it began, and keeps it until that backup is deleted |
| GarbageCollection.BackupStays | app/core/backup_store.py:434-442 | Along every run a committed backup stays what it is until it is itself deleted |
| GarbageCollection.JobHoldsWhatItUsed | app/core/backup_store.py:222-245 | Along every run a backup under way holds exactly what it touched or wrote, and goes on until it commits or fails |
| GarbageCollection.PromptCollectionsLoseNothing | app/core/backup_store.py:478-501 | The same, of runs in which each collection that recovers a committed backup's leftover began within the grace period less the two windows of the first touch of a backup that names it |
| GarbageCollection.PromptRunIsTimely | app/core/backup_store.py:478-501 | Such a run recovers every leftover of a committed backup in time |
| GarbageCollection.MarginIsTheWindows | app/core/backup_store.py:520-536 | Runs without a crash lose no committed chunk if and only if backups commit within the grace period less at least the two windows |
| GarbageCollection.SmallerMarginLosesChunk | app/core/backup_store.py:520-536 | With any smaller margin, a run of backups and collections that loses a committed chunk |
| GarbageCollection.RunKeepsInvariant | app/core/backup_store.py:469-536 | The invariant behind both holds along every run, crashes included |
| GarbageCollection.HeldStays | app/core/backup_store.py:520-536 | No step of a sweep, nor its death, loses a chunk touched recently enough or lowers its access time below the floor |
| GarbageCollection.StepKeepsJobs | app/core/backup_store.py:222-245 | What a backup has touched or written stays held until it can no longer commit in time |
| GarbageCollection.StepKeepsBackups | app/core/backup_store.py:281-302 | What a committed backup names stays held |
| GarbageCollection.StepKeepsSpares | app/core/backup_store.py:469-508 | While a sweep runs, no committed chunk is old enough for it |
| GarbageCollection.LeftoverIsJudgedByItsAge | app/core/backup_store.py:492-501 | After a crash the file gets its own name back; from then on the chunk is at its path in every run until another collection starts, crashes included, if and only if its access time is not before the cutoff |
| GarbageCollection.DyingCollectionLosesChunk | app/core/backup_store.py:520-536 | A concrete run: a backup checks its chunk, a collection renames it away, the backup commits, the collection dies |
| GarbageCollection.NextCollectionDeletesIt | app/core/backup_store.py:478-501 | The next collection deletes that committed chunk |
| IndexCodec.DecodeOfEncode | app/core/backup_store.py:117-134 | An index whose fields fit, of 32-byte digests, comes back from its encoding exactly when their number is the size over the chunk size, rounded up, and is refused otherwise |
| IndexCodec.EncodeOfDecode | app/core/backup_store.py:117-134 | What is decoded encodes to the same bytes |
| IndexCodec.DecodeAcceptsExactlyEncodings | app/core/backup_store.py:117-134 | Decoding accepts the encodings of well-formed indexes and nothing else |
| KeyCode.DigitsRoundTrip | app/core/backup_store.py:593-607 | Base32 without its padding (section 6 of RFC 4648) loses nothing, whatever the length |
| KeyCode.KeyComesBack | app/core/backup_store.py:593-607 | Every 32-byte key comes back from its code, however its letters, spaces and dashes are written |
| KeyCode.KnownCode | app/core/backup_store.py:593-596 | A word is encoded as section 10 of RFC 4648 has it, in groups of four |
| KeyCode.ReadsLettersAndDigits | app/core/backup_store.py:599-600 | Of a written code, the letters, as capitals, and the digits are read and nothing else |
| KeyCode.OtherDigitsAreRefused | app/core/backup_store.py:599-604 | A code with a 0, 1, 8 or 9 is refused |
| ChunkCodec.BlobRoundTrip | app/core/backup_store.py:186-220 | A chunk's file decodes to its content, compressed or not, encrypted or not |
| ChunkCodec.DecodeNeverLies | app/core/backup_store.py:198-220 | Whatever the file holds, decoding it under a content's digest fails or gives that content |
| ChunkCodec.SoundBlobsAreCopied | app/core/backup_store.py:511-517 | A file that decodes passes the check made before it is copied |
| ChunkCodec.CheckAccepts | app/core/backup_store.py:511-517 | The check made before a copy accepts exactly the files of the format whose payload has the CRC they bear |
| ChunkCodec.DamagedBlobsAreNotCopied | app/core/backup_store.py:511-517 | A payload that came to have another CRC is refused |
| ChunkCodec.FlagsMean | app/core/backup_store.py:186-196 | A payload is compressed exactly when that makes it smaller, and sealed exactly in a store that seals |
| ChunkCodec.SealMustMatch | app/core/backup_store.py:198-212 | A file sealed otherwise than the store is refused |
| ChunkStore.ReadIndexOf | app/core/backup_store.py:259-274 | Under any damage, reading a disk's index fails or gives the disk's bytes; it succeeds exactly when every chunk it names can be read |
| ChunkStore.StoredAt | app/core/backup_store.py:222-236 | What a sequence of puts leaves of each chunk: content and access time |
| ChunkStore.StoredKeeps | app/core/backup_store.py:222-236 | Puts lose no readable chunk, and make those of their contents readable when none was damaged |
| ChunkStore.StoredInAnyOrder | app/core/backup_store_vm.py:233-243 | The same contents put in any order leave the same chunks, as the futures of a pool may complete |
| BackupStore.Store.Put | app/core/backup_store.py:222-236 | The digest returned and the store's new view; a chunk already there is only touched |
| BackupStore.Store.Touch | app/core/backup_store.py:238-245 | Found or missing, and the new view |
| BackupStore.Store.Get | app/core/backup_store.py:247-255 | The content, or missing, or damaged, as the view says |
| BackupStore.Store.WriteBackup | app/core/backup_store.py:281-302 | A backup is recorded exactly when every chunk it names is there and its name is free |
| BackupStore.Store.DeleteBackup | app/core/backup_store.py:434-442 | The backup goes, no other does, and no chunk |
| BackupStore.Store.Sweep | app/core/backup_store.py:520-536 | The chunk is deleted exactly when both looks at its access time find it old |
| BackupStore.Store.CollectGarbage | app/core/backup_store.py:469-508 | With no backup running, exactly the chunks that are named or young are left, leftovers of an earlier collection among the young ones, and the count is of those deleted; a backup that cannot be read stops it before it deletes |
| BackupStore.Store.CopyChunk | app/core/backup_store.py:396-406 | One chunk touched or copied as it is, or the error when the source's file is missing or does not check |
| BackupStore.Store.CopyBackupFrom | app/core/backup_store.py:385-415 | On success the backup is here over every chunk it names and the count is of the chunks copied; otherwise no backup is added and no chunk lost; each error has its cause |
| BackupStore.Store.Verify | app/core/backup_store.py:444-465 | The missing and damaged chunks of a backup, each once; the damaged ones set aside, the others untouched |
| IncrementalBackup.ChangedChunks | app/core/backup_store_vm.py:257-272 | The loop gives exactly the chunks in which a dirty extent has a byte of the disk, when no extent is empty or begins beyond it |
| IncrementalBackup.ChangedMeans | app/core/backup_store_vm.py:269-271 | The first and last chunk of an extent are those of its first and last byte |
| IncrementalBackup.UncoveredChunkUnchanged | app/core/backup_store_vm.py:257-272 | A chunk no dirty extent touches is the same in both disks |
| IncrementalBackup.MergedIsWhole | app/core/backup_store_vm.py:289-330 | The base's digests with the chunks read in place are the digests of the whole new disk, whichever base chunks were lost |
| IncrementalBackup.StoredIsWhole | app/core/backup_store_vm.py:289-330 | Touching the reused chunks and putting the read ones leaves the store as a whole read would |
| IncrementalBackup.IncrementalRefinesFull | app/core/backup_store_vm.py:257-330 | With the base the index of the old disk and every difference dirty, an incremental read gives the index and the store a full read gives |
| IncrementalBackup.ReadIntoStore | app/core/backup_store_vm.py:225-254 | The bounded queue gives the disk's index in disk order with at most 2 WORKERS + 1 chunks in flight; a stream too short or too long and a reader that fails are each told, and the chunks read in whole are stored whatever comes of it |
| IncrementalBackup.ReadFull | app/core/backup_store_vm.py:214-222 | One chunk of the stream, or the error when it ends early |
| IncrementalBackup.TouchBase | app/core/backup_store_vm.py:293-301 | The chunks to read are the changed ones and the lost ones; the others are touched |
| IncrementalBackup.StoreRanges | app/core/backup_store_vm.py:302-316 | The ranges read in order are stored and put in their places, with at most 2 WORKERS + 1 in flight; when the stream ends early the ones it held are stored and the read fails |
| IncrementalBackup.ReadChangedIntoStore | app/core/backup_store_vm.py:289-330 | The index, the store and the count of an incremental read, and what a stream that ends early or a reader that fails leaves |
| Restore.RestoreDisk | app/core/backup_store_vm.py:516-527 | The bounded queue writes what a plain read of the index gives, in order, or its first error, with at most 2 WORKERS + 1 in flight |
| Restore.WriteRaw | app/core/backup_store_recover.py:36-47 | The image with holes for zero chunks is the disk, or the restore fails; it succeeds exactly when every chunk can be read |
| Restore.WriteChunk | app/core/backup_store_recover.py:41-47 | One chunk written at its offset, or skipped when it is zeros |
| Restore.PutRepairsWhenAside | app/core/backup_store.py:222-236 | A put makes its chunk readable exactly when no damaged file is at its path |
| Restore.DamagedChunkIsOnlyTouched | app/core/backup_store.py:222-236 | A damaged chunk in its place stays damaged after a put of its content |
| Restore.OnePutRepairsEveryDisk | app/core/backup_store.py:444-465 | After a verification sets a damaged chunk aside, with any others, one put makes every disk that names the chunk read back, exactly when nothing else of it is missing |
| StoreHistory.StoredDiskIsItself | app/core/backup_store_vm.py:404-433 | A disk backed up full or over a base, as backup_vm chooses, is stored as itself, whatever became of the base's chunks |
| StoreHistory.ReadOverBaseIff | app/core/backup_store_vm.py:404-433 | A disk is read over a base exactly when it has a bitmap and the base backup holds a disk of that name and size |
| StoreHistory.StepKeeps | app/core/backup_store.py:385-442 | Whatever is done, and whatever happens to the chunks' files, every backup stays that of its own disks |
| StoreHistory.StepKeepsGood | app/core/backup_store.py:385-442 | Backups, copies, deletions, collections and abandoned backups keep every chunk of every other backup readable |
| StoreHistory.EveryRestoreIsRight | app/core/backup_store.py:198-274 | After any history, in which any chunks are damaged or lost at any time, every restore of a disk fails or gives the bytes of its backup's own time, and succeeds exactly when every chunk of it can be read |
| StoreHistory.EveryBackupReadsBack | app/core/backup_store.py:259-302 | After any history in which nothing happens to the chunks' files, every disk of every remaining backup reads back the bytes of its own time |
| StoreHistory.BackupsAfter | app/core/backup_store.py:385-442 | The backups each operation leaves; a copy is recorded exactly when every chunk of it is in one store or the other |
| StoreHistory.BackupStays | app/core/backup_store.py:434-442 | Along every history a backup stays what it is until it is itself deleted |
| Calendar.NextRun | app/core/backups.py:1293-1308 | The least instant after the base at the given time of day, on any day, a Monday, or the first of a month |
| Calendar.NextDaily | app/core/backups.py:1293-1298 | The first instant of that time of day after the base |
| Calendar.NextMonday | app/core/backups.py:1299-1301 | The loop ends on the first Monday from a date on |
| Calendar.NextFirst | app/core/backups.py:1302-1307 | The first of a month, across month and year ends |
| Calendar.OrdinalOrder | app/core/backups.py:1293-1308 | Day numbers order dates as the calendar does, leap years included |
| Calendar.DaysBeforeYearInFull | app/core/backups.py:1293-1308 | The days before a year: 365 each, and one for every fourth, but for the hundreds that are not four hundreds |
| Calendar.MonthsInFull | app/core/backups.py:1293-1308 | The days before each month |
| Calendar.KnownDays | app/core/backups.py:1299-1301 | January 1 of 1970 is day 719163 and a Thursday, January 1 of 2024 a Monday |
| Calendar.IsoYearOfThursday | app/core/backup_retention.py:25 | The ISO year of a date is the year of the Thursday of its week |
| Calendar.SameIsoWeek | app/core/backup_retention.py:25 | Two dates have one ISO year and week exactly when their weeks begin on one Monday |
| Retention.KeptBackups | app/core/backup_retention.py:19-40 | The nested loops give the policy's set |
| Retention.SamePeriod | app/core/backup_retention.py:23-27 | Two dates are of one day, ISO week or month exactly when that day, week from Monday on, or month begins on one day |
| Retention.AddRule | app/core/backup_retention.py:28-40 | One period rule's loop, with its early end |
| Retention.RuleMeans | app/core/backup_retention.py:31-39 | A rule keeps exactly the newest backup of each of the count most recent periods that have one |
| Retention.NewestFirstOfOnly | app/core/backup_retention.py:21 | The sort is stable: dropping backups and sorting commute |
| Retention.KeptAmongFewer | app/core/backup_retention.py:19-40 | Among fewer backups the policy keeps each of them it kept before |
| Retention.KeptAmongEnough | app/core/backup_retention.py:19-40 | kept(S) within S' within S makes kept(S') = kept(S) |
| RetentionChoice.KeptIsChosen | app/core/backup_retention.py:19-40 | Listed in any order, backups of distinct instants are kept when fewer than `last` are newer, or they are the newest of one of the most recent days, weeks from Monday on, or months |
| RetentionChoice.ChosenAmongEnough | app/core/backup_retention.py:19-40 | The same steadiness, of sets of backups |
| Pruning.Catalogue.ApplyRetention | app/core/backups.py:1259-1290 | The rows left: those the policy retains and those that cannot go |
| Pruning.Catalogue.RemoveBeyond | app/core/backups.py:1279-1290 | The loop deletes exactly the rows neither kept nor stuck, the others in their order |
| Pruning.SoundUndisturbed | app/core/backups.py:1274-1278 | Corrupted backups take no sound one's place |
| Pruning.RetainedAmongEnough | app/core/backups.py:1274-1278 | The choice with corrupted ones set apart is steady too |
| Pruning.RetainedAfterArrival | app/core/backups.py:1274-1278 | A new backup brings back none the policy had let go |
| Pruning.SurvivorsHoldTheChoice | app/core/backups.py:1259-1290 | Pruning after every backup, whatever could not be removed and in whatever order they came, keeps all the policy keeps of the whole history |
| Pruning.OnlineIsOffline | app/core/backups.py:1259-1290 | Once a run can remove all it lets go, what is left is what one pruning of the whole history leaves |
| StoreSync.RightIff | app/core/backup_store_sync.py:147-161 | The target ends with exactly what the policy keeps of both stores, per VM, if and only if it was empty or there is one VM at most |
| StoreSync.AgainChangesNothing | app/core/backup_store_sync.py:147-161 | With one VM the job run again, after any deletions at the source, copies and removes nothing |
| StoreSync.AgainIsRightIff | app/core/backup_store_sync.py:147-161 | In general a second run is right exactly when nothing is kept or there is one VM at most |
| StoreSync.SecondRunLosesAll | app/core/backup_store_sync.py:157-161 | Two VMs: the second run removes every copy |
| StoreSync.PolicyIsSteady | app/core/backup_store_sync.py:152-156 | The policy over a VM's backups is a choice these results apply to |
| StoreSync.RunJob | app/core/backup_store_sync.py:145-161 | The job's passes over two stores: what is copied, removed and left, and the errors; whatever fails, each backup held is the old one or the source's over all its chunks |
| StoreSync.KeepOfVm | app/core/backup_store_sync.py:150-156 | What the policy keeps of one VM's backups in both stores |
| AffinityRules.BrokenRules | app/core/drs_rules.py:160-169 | The loop gives the enabled rules of the strengths asked that are broken, all of them and in order |
| AffinityRules.KeptPlacement | app/core/drs_rules.py:141-157 | No VM breaks a rule exactly when its VMs that run are on one node, on different ones, on named nodes only, or on none of them |
| AffinityRules.BreaksIff | app/core/drs_rules.py:141-157 | What a VM breaks on a node, by the nodes the rule's other VMs run on |
| AffinityRules.BreaksOnceThere | app/core/drs_rules.py:141-157 | Where the VM runs now does not matter |
| AffinityRules.KeepsEach | app/core/drs_rules.py:160-174 | No rule found exactly when none of the strengths asked is broken |
| AffinityRules.MoveBreaksNothing | app/core/drs_rules.py:141-157 | A VM put where it keeps a rule makes no other VM break it |
| AffinityRules.MoveShrinksViolations | app/core/drs_rules.py:141-169 | The broken pairs of a rule and a VM, over the whole placement, only become fewer, and strictly when the VM broke one |
| ClusterLoad.SpreadIsLargest | app/core/drs.py:110-112 | The spread is the largest difference of two nodes' scores |
| ClusterLoad.AfterRuns | app/core/drs.py:124-139 | After a move every VM is on the node the placement says, and on that one only |
| ClusterLoad.MoveConserves | app/core/drs.py:124-139 | Total memory and the sum of cpu times cpus stay the same |
| ClusterLoad.MovesKeepFigures | app/core/drs.py:124-139 | A node's share of memory stays its memory in use over its memory, and its score the larger of its two shares |
| ClusterLoad.CpuPointsMean | app/core/drs.py:119-121 | The CPU a VM uses, whatever the node, and what missing figures count as |
| ClusterLoad.WithAdds | app/core/drs.py:249-257 | A VM put on a node adds what it uses to that node's memory and CPU, and nothing to any other |
| ClusterLoad.FitsIff | app/core/drs.py:151-153 | A VM fits when a tenth more than its memory is free |
| ClusterLoad.MoveStaysWithin | app/core/drs.py:151-153 | A target the VM fits is within its memory with it, and no node comes to be beyond its own |
| LoadPlanner.FindFix | app/core/drs.py:210-228 | The move that mends a VM's rules, to the least loaded eligible node, if there is one |
| LoadPlanner.MayMove | app/core/drs.py:142-148 | Which VMs may move: shared disks, not excluded, cooled down; one in manual like any other |
| LoadPlanner.LowestIsFirst | app/core/drs.py:217 | Of several least loaded nodes, the first |
| LoadPlanner.RuleFixes | app/core/drs.py:205-229 | The fixes of the VMs in turn, each where the ones before left the others |
| LoadPlanner.TryMove | app/core/drs.py:183-192 | One candidate against the best so far |
| LoadPlanner.BestMove | app/core/drs.py:181-192 | A feasible move no other from the node beats by gain, then by least memory, or none when none is feasible |
| LoadPlanner.HottestIsFirst | app/core/drs.py:176 | Of several most loaded nodes, the first |
| LoadPlanner.Levels | app/core/drs.py:47 | The thresholds of the five levels |
| LoadPlan.Recommend | app/core/drs.py:162-202 | The plan, from the placement in which each VM is where the last node that shows it is: fixes, then load moves, each as its step demands, ending only when nothing is left to do |
| LoadPlan.NextLoadMove | app/core/drs.py:175-201 | The next load move, or why there is none |
| LoadPlan.PlanBreaksNoRule | app/core/drs.py:162-229 | No move of a plan makes any VM break a rule; every fix leaves fewer broken |
| LoadPlan.PlanConserves | app/core/drs.py:124-139 | Along a plan VMs that are partitioned over the nodes stay so, and memory and CPU in use are conserved |
| LoadPlan.NoVmTwice | app/core/drs.py:183 | No VM moves twice |
| LoadPlan.PlanMovesOnlyMovable | app/core/drs.py:142-148 | A plan moves no VM whose disks are not shared, none that is excluded, and none within its cool-down |
| LoadPlan.TargetsStayWithin | app/core/drs.py:185-187 | A load move's target is within its memory to the end of the plan |
| LoadPlan.SpreadFalls | app/core/drs.py:193-201 | k load moves lower the spread by k quarters of the threshold at least |
| Placing.PlaceIsFirst | app/core/drs.py:235-246 | A VM is placed exactly when a member has room and keeps its "must" rules, on the one that precedes all of those |
| Placing.PrecedesIsAnOrder | app/core/drs.py:239-246 | Members are compared by whether they keep every rule, then by the score they would have, then by name |
| Placing.InitialMembers | app/core/drs.py:286-297 | The loop of placements ends and gives the ranking |
| Placing.InitialIsRanked | app/core/drs.py:286-297 | Every feasible member once: those keeping all rules by score and name, then the others by score and name |
| Placing.LargestFirstSorts | app/core/drs.py:277 | The VMs are taken largest first, then by name |
| Placing.SpreadOver | app/core/drs.py:267-283 | The loop of a drain, the largest VM first, each once, the loads counting the VMs placed before: its placement is a safe one as long as no load is negative |
| Placing.DrainOneIsSafe | app/core/drs.py:279-282 | Placing one VM breaks no "must" rule and takes no member beyond its memory |
| Placing.DrainIsSafe | app/core/drs.py:267-283 | A whole drain: every VM answered, members within memory, no "must" rule newly broken, the other VMs unmoved |
| AutomaticMoves.Balancer.Settle | app/core/drs.py:429-459 | The requests still under way, and the outcomes of the others in order |
| AutomaticMoves.OneRequest | app/core/drs.py:438-454 | A request stays while a member carries it out or may yet take it up; it fails when its row says so or is gone, or nobody took it up within PICKUP_S; it succeeds when its row says so |
| AutomaticMoves.PausedIff | app/core/drs.py:451-454 | Automatic mode is paused exactly when two failures came in a row and nobody resumed it since |
| AutomaticMoves.TwoFailuresPause | app/core/drs.py:444-454 | Two requests that failed, with no success settled between them, pause it |
| AutomaticMoves.NothingAskedAfterTwoFailures | app/core/drs.py:462-466 | The round that settles them asks for nothing |
| AutomaticMoves.NoMemberShared | app/core/drs.py:467-474 | No two requests under way share a source or target member |
| AutomaticMoves.Balancer.Ask | app/core/drs.py:407-426 | A request: one more under way, its VM's cool-down begun |
| AutomaticMoves.Balancer.Evaluate | app/core/drs.py:303-332 | The moves for the next round: a plan of the cluster once it was uneven SUSTAINED times in a row, and its rule fixes alone until then; they are ready for a round later, VMs moved by hand in between included; none when switched off |
| AutomaticMoves.Balancer.Round | app/core/drs.py:462-476 | A round settles, then, unless paused, asks for the moves that fit; at most MAX_RUNNING under way, no member shared, cool-down and pause kept |
| AutomaticMoves.Balancer.Resume | app/core/drs.py:517-529 | The pause ends and the failures are forgotten |
| AutomaticMoves.Balancer.MovedByHand | app/core/drs.py:369-370 | A move by hand begins the VM's cool-down |
| AutomaticMoves.NothingUntilResumed | app/core/drs.py:451-466 | After two failures in a row nothing is requested before a resume |
| AutomaticMoves.PlanIsCooled | app/core/drs.py:142-148 | A plan's moves are each of one VM, cooled down when the plan was made |
| AutomaticMoves.ChosenIsReady | app/core/drs.py:314-332 | So are its rule fixes, which are its moves without a gain, and either may be asked for as long as nothing was requested since |
| LeaderLease.Lead.Renew | app/core/cluster_lead.py:166-195 | How long a service counts itself leader after a renewal, held or not |
| LeaderLease.OneNodeLeads | app/core/cluster_lead.py:151-195 | In every run, at no instant do services of two nodes both lead, when answers used are not older than 2 RENEW_S, whatever requests fail, hang, or reach the lock after they were given up on |
| LeaderLease.RunKeepsInvariant | app/core/cluster_lead.py:151-195 | A service that leads has its node's lock for as long as it will lead |
| LeaderLease.WindowIsTheMargin | app/core/cluster_lead.py:191-192 | Two nodes can lead at once exactly when an answer may be older than 2 RENEW_S |
| LeaderLease.StrayTakesTheLock | app/core/cluster_lead.py:166-195 | A request given up on can still take the lock for its node, without its service leading |
| NameUpgrade.ReadRow | app/core/schema_v1.py:363-372 | The row in the new names: a new dictionary with renamed columns, the one given, changed, without |
| NameUpgrade.ComesOutDifferent | app/core/cluster_v1.py:93-95 | The comparison tells an old row exactly when the table has renamed columns |
| NameUpgrade.UpgradedIsNew | app/core/schema_v1.py:363-372 | What comes out is not old, and is the row itself exactly when the row was not |
| TreeRewrite.DoneMeansRewritten | app/core/cluster_v1.py:78-140 | Once DONE_PATH is recorded no row of a table with renamed columns is in old names in any later state, beside writers of new names and other rewriting nodes |
| TreeRewrite.RunKeepsInvariant | app/core/cluster_v1.py:78-140 | A file still to rewrite is ahead of every round that has rewritten nothing |
| TreeRewrite.OnlyWhatWasRead | app/core/cluster_v1.py:96-100 | A round's change replaces exactly what it read, by the same row in the new names |
| TreeRewrite.NoRoundOnceDone | app/core/cluster_v1.py:125-140 | A node makes one round at a time, and none begins once done is recorded |
| TreeRewrite.OldRowsOnceDone | app/core/cluster_v1.py:88-140 | Beside other writers, the old rows left once done are those that tables without renamed columns held before and no writer has changed |
| TreeRewrite.DoneLeavesNoOldRowIff | app/core/cluster_v1.py:125-140 | Done leaves no old row if and only if other writers changed every old row of those tables |
| TreeRewrite.AloneLeavesNoOldRowIff | app/core/cluster_v1.py:125-140 | With no other writer, done leaves no old row if and only if no table without renamed columns held one |
| TreeRewrite.OldRoleStays | app/core/cluster_v1.py:88-95 | A user's old role stays, and the rewrite is recorded as done |
| DiskSwap.RestoreOverwrite | app/core/backups.py:798-840 | When the restore reaches its swap, and what the swap's renames make of the disks, success and failure; an error before it leaves every file as it was; in no state on the way is an old disk lost before all the new ones are in place |
| DiskSwap.Stage | app/core/backups.py:817-830 | Every image staged beside its disk, or nothing left of it |
| DiskSwap.SwapStaged | app/core/backups.py:843-867 | Success exactly when every rename works: every image in place. Failure at the first that does not: every disk that was there is back. In every state between, no old disk is lost before all the new ones are in place |
| DiskSwap.SwapOne | app/core/backups.py:848-855 | One disk kept aside, when it is there, and its image put in place, exactly when those renames work; or where they stopped |
| DiskSwap.Rollback | app/core/backups.py:857-859 | Every disk kept aside is back |
| DiskSwap.NothingChangedIff | app/core/backups.py:850-862 | A failed swap leaves every disk as it was exactly when each disk before the first whose renames fail was there |
| DiskSwap.NothingChangesWhateverFailsIff | app/core/backups.py:850-862 | Whatever rename fails, it does so exactly when each disk but the last was there |
| DiskSwap.ImageOfAbsentDiskStays | app/core/backups.py:850-862 | Two disks, the first absent, the last rename failing: the first one's image stays in its place |
| DiskNames.NamesAreSeparateIff | app/core/backups.py:821-849 | For distinct disks none of which ends in the token, temporary and aside names meet nowhere if and only if no two disks clash |
| DiskNames.NamesOf | app/core/backups.py:849 | The aside name: the mark replaced in the disk's own name when that holds one, in the staged suffix otherwise |
| DiskNames.AsideMeetsImage | app/core/backups.py:849-855 | One family that clashes: a disk is set aside where another one's image is staged |
| DiskNames.AsidesMeet | app/core/backups.py:849-851 | The other: two disks are set aside under one name |
| DiskNames.ClashByOrder | app/core/backups.py:848-855 | Two disks swapped one after the other: each has its image, but the second has the first one's old content exactly when the first is marked and becomes the second |
| DiskNames.ClashLosesOldDisk | app/core/backups.py:850-855 | Two marked disks that become the same: once the second is set aside, the old content of the first is on no file |
| CpuSet.Parse | app/core/cpu_pinning.py:46-60 | The loop gives the sorted CPUs of the text, or the first error |
| CpuSet.Format | app/core/cpu_pinning.py:63-73 | The nested loops give the text of the maximal runs |
| CpuSet.CpusetRoundTrip | app/core/cpu_pinning.py:46-73 | Every non-empty set of ids up to 4095 comes back, sorted |
| CpuSet.EmptyIsRefused | app/core/cpu_pinning.py:46-73 | The text of the empty set is not parsed |
| CpuSet.FormatIsCanonical | app/core/cpu_pinning.py:63-73 | The text is that of the only list of ranges with gaps that covers the set |
| CpuSet.ParsedIsNormalised | app/core/cpu_pinning.py:46-73 | Whatever text parses, its CPUs are shown in a form that parses to the same |
| VlanPort.Parse | app/core/bridge_vlan.py:94-108 | The loop gives the sorted ranges of the text, or the error |
| VlanPort.SortedSorts | app/core/bridge_vlan.py:108 | In order, none lost and none added |
| VlanPort.TrunksRoundTrip | app/core/bridge_vlan.py:94-112 | Sorted valid ranges come back from their text; so does none |
| VlanPort.OneRangeIff | app/core/bridge_vlan.py:99-106 | A range is a trunk exactly when its ends are in order and among the VLANs from 1 to 4094 |
| VlanPort.EitherSeparates | app/core/bridge_vlan.py:97 | Commas and semicolons separate, and nothing else |
| VlanPort.StripsBlanksOnly | app/core/bridge_vlan.py:98 | The blanks on either side of a part are dropped, all of them and nothing else |
| RangeText.DigitsAlone | app/core/bridge_vlan.py:99-102 | Digits alone are a number when they are one to four |
| VlanPort.SomethingLists | app/core/bridge_vlan.py:219-222 | A port's VLANs can be listed by ranges, which is what the port's operations assume of the listing |
| VlanPort.Port.Clear | app/core/bridge_vlan.py:219-225 | The port's VLANs are deleted, or a command failed |
| VlanPort.Port.AddRange | app/core/bridge_vlan.py:205-213 | A range added tagged, split around the access VLAN |
| VlanPort.Port.Apply | app/core/bridge_vlan.py:196-216 | From any earlier table: exactly the access VLAN untagged and the trunk VLANs but it tagged; nothing changed when the trunks do not parse; no VLAN left after a failure whose isolating commands work |

## Left out

- BackupStore.Store.CollectGarbage: no backup runs beside it (`GarbageCollection` models that); stray temporary and damaged files in the chunk directories, and their deletion, are not part of this model.
- BackupStore.Store.WriteBackup: the files kept whole with a backup (definition, NVRAM, sealed keys), the manifest's other entries, and the directory a backup stopped midway leaves, which refuses the same name again, are not part of this model.
- BackupStore.Store.CopyBackupFrom: one clock reading per copy.
- ChunkStore.ReadIndexOf: write_disk and read_disk of the store cut and join as the queues do, and have no member of their own.
- IncrementalBackup.ReadIntoStore: progress reports and a put that fails are not part of this model; a put runs when its future is taken, all of one read at one time.
- IncrementalBackup.StoreRanges: a put that fails is not part of this model.
- IncrementalBackup.ReadChangedIntoStore: a put that fails is not part of this model.
- StoreHistory.EveryBackupReadsBack: the dirty bitmap is taken at its word, which is QEMU's: every byte that differs from the base backup lies in a dirty extent.
- GarbageCollection.CollectionNeverLosesCommittedChunks: a crash of the collection is left out of it, because the property is then false; `CrashesLoseNothingRecoveredInTime` says what holds.
- KeyCode.KeyComesBack: text is ASCII.
- CpuSet.Parse: digits are those of ASCII.
- VlanPort.Parse: digits and blanks are those of ASCII.
- Calendar.NextRun: years are unbounded, so the error at the end of year 9999 is not modelled.
- Pruning.OnlineIsOffline: verification's verdicts are fixed; a backup found corrupted later has taken its place until then.
- StoreSync.RunJob: no two backups of one VM have one instant, as their names are times to the second; the set of running jobs, remote stores and the order of the keys within a pass are not part of this model.
- LoadPlan.Recommend: gains are not rounded and reasons are not built; memory is not claimed for a sequence of rule fixes, which the code judges on the loads from before the plan.
- LoadPlan.PlanConserves: the VMs of members that may not receive VMs are not in the placement the plan sees.
- AutomaticMoves.Balancer.Evaluate: the state kept for display and the members left out of the view are not part of this model.
- AutomaticMoves.Balancer.Round: a round's requests are made at one instant; members carrying out requests, and notifications, are not part of this model.
- LeaderLease.OneNodeLeads: the lock service's early release when its holder leaves the membership is not part of this model.
- TreeRewrite.DoneMeansRewritten: the cluster's own configuration entry, rewritten after the rows in the same way, and the local versions table are not part of this model.
- DiskSwap.SwapStaged: the renames of a rollback and the deletions are taken to work.
- Writing a CPU pinning into a domain's definition and reading it back: would only add easy members.
- The daemon, its clients and sockets, HTTP routing, libvirt, QEMU and SSH, databases and their migrations, the dashboard and the command line: command sequences and plumbing.

# The Managed ReFS Library Pool, modelled and proved in Dafny

The Managed ReFS Library Pool (`internal/refsworkspace`) keeps a canonical "baseline" directory inside a VHDX
and clones it into private workers under a byte budget. It coordinates processes with on-disk journals, marker
files and directory locks, commits a pool through a detach and reattach proof, and clones files with block
requests. This project models its protocols and its arithmetic, together with the file tails of `internal/ipc`
and `internal/bridge`, and proves what they promise. `dafny verify dfyconfig.toml` checks everything.

## How it is modelled

- Code that changes things step by step is a class or a method with loops (`WorkerLease`, `LeaseSpace`, `Host`,
  `Site`, `Recovery`, `Recorder`, the planning, copying, scanning and measuring loops). A history records every
  intermediate disk, so a safety property of the history covers a crash after any operation, and a power loss
  can take a run back to any recorded state.
- The environment is nondeterministic. An operation may fail at any point; where the source has to cope with it,
  a failed operation may have taken effect. A counter of failures still to come makes retries terminate and lets
  a contract say what happens when no failure is left. A flush promises nothing unless it is called honest, and a
  detach keeps any mixture of flushed and unflushed changes.
- Every operation leaves an entry in a ghost trace, whatever became of it. What a method promises on success says
  which operations it made, in which order, and that none failed (`Did`), beside the state it reaches.
- Where the environment can break a promise, the model lets it, and the contract names the exact event: a ghost
  field or result (`misledAt`, `loss`, `seen`, `log`) says whether it happened, and the promise holds if and
  only if it did not. Constants of the environment (`tears`, `unlocksFail`, `cleanupsFail`, `creation`) bound
  what can happen.
- Protocols between processes (`Reservation`, `BaselineCoordination`, the schedules of `AcquireBarrier`) are
  transition systems over single file operations. Invariants are proved for every step and every run.
- `int64` is a newtype. Whatever verifies over it stays in range; wrap-around is explicit where the source adds
  without a check.

| module | subject |
|---|---|
| `Int64`, `ByteStrings`, `Leases` | checked 64-bit arithmetic; bytes; lease states |
| `AllocatedRanges`, `ClonePlans`, `CloneExecution` | normalised ranges, paged queries, clone plans, their execution and metrics |
| `WorkerRelease`, `WorkerAcquisition` | the resumable release of a lease; acquisition with its rollback |
| `Reservation`, `WorkerLadder` | admission under the byte budget; the budget calculated for N workers |
| `BaselineCoordination` | active uses, mutation marker, quarantine, creation |
| `PoolLifecycle`, `ReleaseDurability`, `CorruptRecovery`, `MountedResidual` | setup, removal, recovery, durable proof of a release, residual measurement |
| `AcquireBarrier`, `BusTail`, `ProtectionEncoding` | the clone gate and its overlap test; NDJSON tails; the canonical byte string of the protection digest |

## What the code does not guarantee

These came out of the proofs; each is stated as an exact condition or as a lemma with its counterexample.

- A release is stuck for good exactly in three states (`WorkerLease.Stuck`): the worker was moved but the owner
  check behind the rename failed (`internal/refsworkspace/worker.go:545-547`), so later calls measure the vanished
  path (513-516); a deletion that failed half-way took the owner file with it; the marker went although its
  removal reported a failure. Otherwise retrying converges; only an existence test that errs leads out of them.
- `pathExists` takes every `Lstat` error for absence (`internal/refsworkspace/worker.go:610-613`). A release that
  misses its quarantine copy goes on to remove marker and journal. Every disk of a release is safe if and only if
  that did not happen (`Release`, `ReleaseUntilDone`); `UnreadableQuarantineLosesMarker` runs into it.
- A release sets its memory before it writes the journal (`internal/refsworkspace/worker.go:489-491`), so a retry
  does not repeat a write that failed. The durable journal is ahead of every disk a call leaves unless the call began
  behind such a write (`Release`); then the next effect of that stage happens under a journal that does not announce
  it, as `LostWriteIsNotRepeated` shows in a run.
- A failed acquisition restores the namespace if and only if none of its creations took effect although it
  failed, every cleanup and unlock took effect, and no unlock failed behind a creation (`Acquire`, `RestoredIff`).
  A failed unlock skips the rollback of the journal or marker just created; a failed removal of the worker tree
  still removes marker and journal, so the tree is left unprotected (`ExposedIff`).
- A release addresses its journal by file name. If the removal of the journal takes effect although it fails and
  the lease id is admitted again, the repeated release writes `released` over the new lease's journal and removes
  it (`internal/refsworkspace/worker.go:589-601`). Every active lease keeps its journal if and only if no such step
  is taken (`LeasesHoldTheirJournalsIff`), none is where failing removals leave the file (`OnlyTornRemovalsDisturb`),
  and until then the budget holds. Afterwards the new lease's next write brings its bytes back without the lock,
  and the reservations can exceed the budget (`StaleReleaseBreaksBudget`).
- A tree whose files are all smaller than a cluster is refused by `ValidateCloneMetrics`, because nothing was
  block cloned (`ValidateTree`, `DenseFileClonesWholeClusters`).
- A VHDX can end without any ownership record. The creation of the VHDX closes its handle last
  (`internal/vhdxstorage/lifecycle_windows.go:394-396`) and can fail with the file in place; the cleanup knows of
  no file and removes the pending record (`internal/refsworkspace/pool.go:150-200`). `LeakedCreationLosesRecord`
  runs it. Only one other event costs the record: a commit whose removal of the pending name took effect although
  it failed, followed by the rollback of the owner. `Setup` and `RunCommands` say that records survive if and only
  if neither happened.
- An interrupted setup or removal can be final (`BlockedWorlds`, `RunBlocked`): a VHDX without record or mount
  directory, two records, a record that does not yet name VHDX and volume, a durable `pool.json` without committed
  owner, or anything at all in the root without a VHDX are accepted by no command. The mount directory alone is
  enough: it is made before the pending record (`internal/refsworkspace/pool.go:129-133`, 812-838) and before the
  cleanup is registered, so a failure in between leaves it for good (`MountDirectoryBlocksSetup`); so does a
  temporary file whose removal failed (`UpdatePending`).
- Removal and recovery look at the storage root last. A foreign file in it makes them fail after VHDX and records
  are gone (`RemovePool`, `RecoverIncompleteSetup`).
- `Remove` looks at the managed directories and at the probe prefix only. Any other entry of the pool root or the
  volume root is deleted with the pool, while recovery refuses it (`Disposable`, `RemovePool`,
  `RecoverIncompleteSetup`).
- The phase test of the corrupt-release recovery does not look at creation locks, staging and unknown entries of
  the baselines, or probe directories (`internal/refsworkspace/corrupt_release_recovery.go:421-425`). With such an
  entry left behind a run deletes journal and marker, fails at the final status, and can be resumed once the entry
  is gone (`Recover`).
- A corrupt-release recovery whose deletion was recorded but not flushed is refused for ever after a crash brings
  the file back (`RefusedForEver`); so is an artifact directory without a receipt. The receipt's phase is not
  monotone: a resumed run writes `volume-flushed` again
  (`internal/refsworkspace/corrupt_release_recovery.go:226`).
- The mutation marker of a baseline outlives its lock when its removal fails, or when its exclusive creation fails
  with the file in place (`MutationMarkerUnderLock`).
- The comment at `internal/bridge/client.go:219` says a partial line is read again at the next tick. The offset has
  already moved past it. `PollsDeliverFileIff` says for every file which polls lose or repeat a line, and
  `HarmlessCut` is the test of one poll: a snapshot that ends in the middle of a line swallows the byte that
  follows, a carriage return makes the offset fall short, and the two can cancel out at the very end.
- With the gate opened by the timer the overlap test may fail (`TimerMayDefeatOverlap`).

## Model

| member | source | states |
|---|---|---|
| `Int64.CheckedAdd` | internal/refsworkspace/policy.go:54-59 | fits exactly when the mathematical sum is an int64, and is then that sum |
| `Int64.CheckedSum` | internal/refsworkspace/policy.go:61-71 | succeeds exactly when every prefix sum is an int64, with the total sum |
| `Int64.CheckedMultiply` | internal/refsworkspace/worker_ladder.go:79-84 | fits exactly for nonnegative factors whose product is an int64, and is then that product |
| `Int64.RoundUpGiB` | internal/refsworkspace/worker_ladder.go:67-77 | fits exactly up to MaxInt64 - (1 GiB - 1), and is then the multiple of 1 GiB in `[value, value + 1 GiB)` |
| `Int64.LeastGiBMultipleIsLeast` | internal/refsworkspace/worker_ladder.go:67-77 | no smaller multiple of 1 GiB reaches the value |
| `Int64.WrapAdd` | internal/refsworkspace/clone.go:246-260 | the unchecked `+=`: congruent to the sum modulo 2^64, equal to it when it is an int64 |
| `AllocatedRanges.CanonicalUnique` | internal/refsworkspace/clone.go:115-116 | a canonical list of ranges is determined by the points it covers |
| `AllocatedRanges.NormalFormUnique` | internal/refsworkspace/clone.go:117-179 | two inputs that cover the same points of the query have the same normal form, whatever their order and overlaps |
| `AllocatedRanges.NormalFormIdempotent` | internal/refsworkspace/clone.go:117-179 | normalising a normal form gives it back |
| `AllocatedRanges.ClipRanges` | internal/refsworkspace/clone.go:131-154 | refuses exactly on a negative or overflowing range; otherwise nonempty ranges inside the query that cover exactly its covered points |
| `AllocatedRanges.CompactCanonical` | internal/refsworkspace/clone.go:161-178 | merging a sorted list gives sorted, nonempty, strictly separated ranges |
| `AllocatedRanges.CompactCovers` | internal/refsworkspace/clone.go:161-178 | merging keeps the covered points |
| `AllocatedRanges.MergeInto` | internal/refsworkspace/clone.go:162-177 | one turn of the loop over the shared buffer: the prefix becomes the merged list, the ranges still to be read are untouched |
| `AllocatedRanges.CompactInPlace` | internal/refsworkspace/clone.go:161-178 | compaction over its own input equals merging the old contents: the aliasing is safe |
| `AllocatedRanges.SortAndMerge` | internal/refsworkspace/clone.go:155-178 | sorting and merging clipped ranges gives their normal form |
| `AllocatedRanges.NormalizeAllocatedRanges` | internal/refsworkspace/clone.go:117-179 | which arguments are refused and why, and otherwise the normal form of the ranges in the query, without overflow |
| `AllocatedRanges.PageSettles` | internal/refsworkspace/clone.go:194-214 | an honest page with more data is not empty and is exact for every byte before the next query |
| `AllocatedRanges.CollectPage` | internal/refsworkspace/clone.go:193-218 | the pages so far cover exactly the allocated bytes before the next offset |
| `AllocatedRanges.ReadPage` | internal/refsworkspace/clone.go:194-208 | one page: its normal form, or the error that ends the collection; "no progress" only on a page that promises more and holds nothing |
| `AllocatedRanges.CollectAllocatedRangesPaged` | internal/refsworkspace/clone.go:185-220 | terminates, its second no-progress test cannot fire, and on honest queries the result is the normal form of the whole allocation map |
| `AllocatedRanges.PagedEqualsOneShot` | internal/refsworkspace/clone.go:183-220 | the paged result and the one-shot normalisation are the same list |
| `ClonePlans.MaxChunk` | internal/refsworkspace/clone.go:45-48 | a multiple of the cluster size below 4 GiB, positive exactly when a cluster is below 4 GiB |
| `ClonePlans.AppendChunks` | internal/refsworkspace/clone.go:56-63 | the chunking loop computes the specified chunks |
| `ClonePlans.ChunksTile` | internal/refsworkspace/clone.go:56-63 | the chunks hold every byte of the span exactly once and no other byte |
| `ClonePlans.ChunksAligned` | internal/refsworkspace/clone.go:99-106 | chunks of an aligned span are nonempty whole clusters below 4 GiB |
| `ClonePlans.PlanClone` | internal/refsworkspace/clone.go:38-65 | succeeds exactly on valid geometry, with the error of the first failing test, and yields the dense plan |
| `ClonePlans.DensePlanExact` | internal/refsworkspace/clone.go:38-65 | clone ranges and tail hold every byte of the file exactly once; ranges are clusters below 4 GiB, the tail is shorter than one |
| `ClonePlans.HeadEnd` | internal/refsworkspace/clone.go:80-91 | first cluster boundary inside the extent or its end, less than a cluster away |
| `ClonePlans.BodyEnd` | internal/refsworkspace/clone.go:92-95 | last cluster boundary inside the extent, less than a cluster from its end |
| `ClonePlans.PlanExtent` | internal/refsworkspace/clone.go:78-109 | one extent becomes head copy, cluster clones and tail copy |
| `ClonePlans.PlanExtents` | internal/refsworkspace/clone.go:75-112 | the loop over all extents, with the allocated and the hole bytes, without overflow |
| `ClonePlans.PlanSparseClone` | internal/refsworkspace/clone.go:67-113 | when it succeeds, with which error it fails, and that the plan is that of the normalised ranges |
| `ClonePlans.ExtentTiled` | internal/refsworkspace/clone.go:78-109 | the parts of one extent hold each of its bytes exactly once |
| `ClonePlans.SparsePlanExact` | internal/refsworkspace/clone.go:77-110 | every byte is cloned or copied exactly as often as it is allocated |
| `ClonePlans.SparsePlanAligned` | internal/refsworkspace/clone.go:80-109 | clone requests are whole clusters below 4 GiB, physical copies are shorter than one cluster |
| `ClonePlans.SparsePlanPartition` | internal/refsworkspace/clone.go:67-113 | clone and physical ranges partition the allocated bytes; allocated plus hole bytes are the file size |
| `ClonePlans.FullyAllocatedIsDense` | internal/refsworkspace/clone.go:38-113 | on a fully allocated file the sparse plan is the dense plan |
| `CloneExecution.CopyFileRange` | internal/refsworkspace/clone_windows.go:334-362 | copies the range chunk by chunk, one turn per MiB, and succeeds exactly when no turn failed; a failure leaves each byte old or already copied, and nothing outside the range changes |
| `CloneExecution.CloneRanges` | internal/refsworkspace/clone_windows.go:240-268 | sends exactly one request per range, in order, succeeds exactly when none failed, and counts only the ranges that succeeded |
| `CloneExecution.NextChunk` | internal/refsworkspace/clone_windows.go:336-342 | a turn of the copy loop takes 1 MiB or the rest |
| `CloneExecution.CopyRanges` | internal/refsworkspace/clone_windows.go:272-278 | copies the physical ranges in order, succeeds exactly when no turn failed, and counts only the ranges that succeeded |
| `CloneExecution.SparsePlanFits` | internal/refsworkspace/clone_windows.go:220-229 | a sparse plan lies inside the file, holds every allocated byte exactly once and no other byte |
| `CloneExecution.DensePlanFits` | internal/refsworkspace/clone_windows.go:230-239 | a dense plan holds every byte of the file exactly once |
| `CloneExecution.PlanFile` | internal/refsworkspace/clone_windows.go:219-239 | which plan is chosen, which bytes it moves, and that with honest queries only bad geometry fails |
| `CloneExecution.PlanCanonical` | internal/refsworkspace/clone.go:222-231 | planning from already canonical ranges keeps them |
| `CloneExecution.ExecutePlan` | internal/refsworkspace/clone_windows.go:226-284 | after success every needed byte equals the source, every counter is the one the plan determines, and the system calls were those of the plan; it succeeds exactly when none failed |
| `CloneExecution.CloneFile` | internal/refsworkspace/clone_windows.go:154-306 | on success the destination equals the source (a sparse source: if zero outside its honestly queried ranges), every counter is determined by the plan and the calls were preparation, one request per range, the copies and the finish; with honest queries it succeeds exactly on valid geometry when no call failed |
| `CloneExecution.AggregateTree` | internal/refsworkspace/clone_windows.go:89-151 | the walk succeeds exactly when every directory and file does and the directories are restored; only a failing file counts as failed; all eleven counters are the sums of what was walked modulo 2^64, the flags their disjunctions, and physical equals tail bytes throughout |
| `CloneExecution.SumStep` | internal/refsworkspace/clone.go:246-260 | aggregating one more entry keeps every counter a sum modulo 2^64 and every flag a disjunction |
| `CloneExecution.DirectoriesCount` | internal/refsworkspace/clone_windows.go:112-131 | a tree of directories alone is walked and counted as such; a refused entry ends the walk |
| `CloneExecution.ValidateTree` | internal/refsworkspace/clone.go:271-285 | on the metrics of a walk only a failed file or a tree without cloned bytes is refused; the physical-bytes test never fires |
| `CloneExecution.DenseFileClonesWholeClusters` | internal/refsworkspace/clone.go:278-280 | a dense file clones bytes exactly when it holds a whole cluster, so a tree of smaller files is refused |
| `WorkerRelease.WorkerLease.UpdateLease` | internal/refsworkspace/worker.go:674-690 | a failed journal write leaves the old or the new journal |
| `WorkerRelease.WorkerLease.Milestone` | internal/refsworkspace/worker.go:491-497 | a successful milestone is in the durable journal, and its hook ran after it was written |
| `WorkerRelease.Volume.PathExists` | internal/refsworkspace/worker.go:610-613 | never sees what is absent, and misses an existing entry only where the query may fail |
| `WorkerRelease.WorkerLease.MarkRunning` | internal/refsworkspace/worker.go:465-473 | only a ready lease runs; otherwise nothing changes |
| `WorkerRelease.WorkerLease.BeginRelease` | internal/refsworkspace/worker.go:489-497 | the state becomes releasing, durably and before anything is removed; the memory is set first, so a lost write is not repeated |
| `WorkerRelease.WorkerLease.RemoveJunction` | internal/refsworkspace/worker.go:499-512 | the milestone is recorded only when the junction is gone |
| `WorkerRelease.WorkerLease.TakeJunctionAway` | internal/refsworkspace/worker.go:499-507 | a removal error is tolerated only when the junction is gone and the worker is still owned; the removal is ahead of its journal exactly behind a lost write |
| `WorkerRelease.WorkerLease.MeasureWorker` | internal/refsworkspace/worker.go:513-520 | measures the original path until the move is a milestone |
| `WorkerRelease.WorkerLease.MoveWorker` | internal/refsworkspace/worker.go:534-547 | an owner check on both sides of the rename; where the far one can fail, it leaves the lease stuck; the move is ahead of its journal exactly behind a lost write |
| `WorkerRelease.WorkerLease.RecordMove` | internal/refsworkspace/worker.go:548-556 | the milestone follows the move |
| `WorkerRelease.WorkerLease.QuarantineWorker` | internal/refsworkspace/worker.go:526-557 | moves the verified worker; a lost milestone after the move is the one way to get stuck here |
| `WorkerRelease.WorkerLease.MoveAndRecord` | internal/refsworkspace/worker.go:534-557 | the move and its milestone, in order |
| `WorkerRelease.WorkerLease.RemoveQuarantine` | internal/refsworkspace/worker.go:568-571 | only a verified entry is deleted; a torn deletion may take the owner file first |
| `WorkerRelease.WorkerLease.DeleteWorker` | internal/refsworkspace/worker.go:558-576 | decides on what the existence test reports: an entry that is not seen counts as deleted, and on a hidden one the release is misled |
| `WorkerRelease.WorkerLease.DeleteIfSeen` | internal/refsworkspace/worker.go:559-576 | an entry that was seen is checked, then deleted, then recorded; one that was not is recorded as deleted |
| `WorkerRelease.WorkerLease.RecordDeletion` | internal/refsworkspace/worker.go:572-576 | the milestone follows the deletion, or the belief that there was nothing to delete |
| `WorkerRelease.WorkerLease.ReleaseActiveUse` | internal/refsworkspace/worker.go:577-588 | the milestone follows the release of the marker |
| `WorkerRelease.WorkerLease.RemoveMarker` | internal/refsworkspace/baseline.go:441-462 | the marker is read before it goes, and only once the deletion is a milestone |
| `WorkerRelease.WorkerLease.RecordRelease` | internal/refsworkspace/worker.go:589-597 | the journal says `released` only after the use was released |
| `WorkerRelease.WorkerLease.Finish` | internal/refsworkspace/worker.go:589-607 | journal `released`, hooks, journal removal, in that order |
| `WorkerRelease.WorkerLease.Release` | internal/refsworkspace/worker.go:479-613 | every recorded disk is safe if and only if no existence test missed an existing quarantine copy, or nothing was done since; the durable journal is ahead of every disk the call adds, unless it began behind a lost write; a call that succeeds with clear sight did exactly the operations, writes and hooks that were left, in order, none failing except a tolerated junction removal; without failures it succeeds exactly when the lease is not stuck |
| `WorkerRelease.WorkerLease.ReleaseUntilDone` | internal/refsworkspace/worker.go:475-608 | after any finite number of failures retrying ends, unless the volume tears or the owner check behind the move fails; everything is gone, and every disk was safe, if and only if no existence test missed the quarantine copy |
| `WorkerRelease.HistoryForward` | internal/refsworkspace/worker.go:479-608 | over a whole history trees, marker and junction do not come back, a journal comes back only as `released`, and the states of its journals never go down |
| `WorkerRelease.TreeWasProtected` | internal/refsworkspace/worker.go:479-608 | in a safe history a tree that exists was protected by marker and journal in every earlier state |
| `WorkerRelease.UnreadableQuarantineLosesMarker` | internal/refsworkspace/worker.go:558-613 | a run of Release that reports success and leaves the tree without marker and journal |
| `WorkerRelease.LostWriteIsNotRepeated` | internal/refsworkspace/worker.go:489-507 | a run of Release in which the first write is lost and the repeated call removes the junction under a journal that still says `ready` |
| `WorkerAcquisition.LeaseSpace.CreateJournal` | internal/refsworkspace/worker.go:432-462 | the journal is created exclusively or not at all, save for a write that failed after taking effect |
| `WorkerAcquisition.LeaseSpace.Try` | internal/refsworkspace/worker.go:229-350 | a creation succeeds, fails cleanly, or takes effect although it failed, the last only where creations tear; the log says which |
| `WorkerAcquisition.LeaseSpace.Undo` | internal/refsworkspace/worker.go:188-260 | a cleanup or unlock fails only where cleanups or unlocks can; the name stays only if it failed; the log says which |
| `WorkerAcquisition.LeaseSpace.Reserve` | internal/refsworkspace/worker.go:423-463 | success creates exactly the journal; after a failure journal and lock are there as their creation, the unlock and the environment decide |
| `WorkerAcquisition.LeaseSpace.ReserveLocked` | internal/refsworkspace/worker.go:431-463 | always unlocks; a journal stays without cleanup exactly when its creation tore or the unlock behind it failed |
| `WorkerAcquisition.LeaseSpace.CreateMarker` | internal/refsworkspace/baseline.go:417-440 | the marker is created exclusively or not at all, save for a write that failed after taking effect |
| `WorkerAcquisition.LeaseSpace.AcquireUse` | internal/refsworkspace/baseline.go:399-463 | success creates exactly the marker; after a failure marker and lock are there as their creation, the unlock and the environment decide |
| `WorkerAcquisition.LeaseSpace.UseLocked` | internal/refsworkspace/baseline.go:417-440 | always unlocks; a marker stays without cleanup exactly when its creation tore or the unlock behind it failed |
| `WorkerAcquisition.LeaseSpace.StageWorker` | internal/refsworkspace/worker.go:229-350 | existing staging and worker paths are refused, never adopted or removed; otherwise each tree stays only if its creation tore or its removal failed |
| `WorkerAcquisition.LeaseSpace.CommitStaging` | internal/refsworkspace/worker.go:269-312 | renames only what was cloned and measured; the staging directory is gone exactly when the rename took effect, and a committed worker stays only if its removal failed |
| `WorkerAcquisition.LeaseSpace.FillStaging` | internal/refsworkspace/worker.go:236-352 | an uncommitted staging directory is removed by the call that created it, and stays exactly when rename and removal both failed |
| `WorkerAcquisition.LeaseSpace.KeepWorker` | internal/refsworkspace/worker.go:302-352 | a committed worker that cannot be published is removed, and stays exactly when that removal failed |
| `WorkerAcquisition.LeaseSpace.PublishWorker` | internal/refsworkspace/worker.go:313-352 | junction and ready journal; when the journal write fails the junction is removed; it stays exactly when its creation tore or that removal failed |
| `WorkerAcquisition.LeaseSpace.UseBaseline` | internal/refsworkspace/worker.go:202-352 | marker, staging and worker are undone in reverse order, each attempted whatever the others did |
| `WorkerAcquisition.LeaseSpace.UseResolved` | internal/refsworkspace/worker.go:211-352 | the part under the active use |
| `WorkerAcquisition.LeaseSpace.UseReservation` | internal/refsworkspace/worker.go:188-352 | when anything under it fails the journal is removed, and stays exactly when that removal failed |
| `WorkerAcquisition.LeaseSpace.UseMarker` | internal/refsworkspace/worker.go:212-352 | when anything under it fails the marker is removed, and stays exactly when that removal failed |
| `WorkerAcquisition.LeaseSpace.Acquire` | internal/refsworkspace/worker.go:156-360 | success means that every test and change of the source was made, in order, and none failed, and yields the state the release starts from; a failed call leaves the namespace as it was if and only if no creation tore, every cleanup and unlock took effect and no unlock failed behind a creation, so always where nothing tears and cleanups and unlocks succeed; a new tree was exposed exactly when it stayed while marker or journal went; on free names it fails only when an operation failed |
| `WorkerAcquisition.RestoredIff` | internal/refsworkspace/worker.go:188-360 | what the operations of a failed call leave is the old namespace if and only if none of them tore, stayed undone, or failed to unlock behind a creation |
| `WorkerAcquisition.ExposedIff` | internal/refsworkspace/worker.go:188-310 | a failed call leaves a tree without marker or journal exactly when the tree stayed and the removal of one of the two did not |
| `Reservation.Admits` | internal/refsworkspace/worker.go:443-457 | overflow-free tests that hold exactly when usage, reservations and the new one fit the budget and the host keeps its floor |
| `Reservation.Account` | internal/refsworkspace/worker.go:638-660 | the running total of the scan never decreases |
| `Reservation.CheckLeases` | internal/refsworkspace/worker.go:625-663 | refuses exactly when a journal is unsound or the sum does not fit, and otherwise sums the live reservations |
| `Reservation.ReserveWorker` | internal/refsworkspace/worker.go:423-463 | admitted exactly when the journal's reserve is the policy's, the journals are sound, the budget holds all and the host keeps its floor; and which refusal comes first |
| `Reservation.ReserveAloneIff` | internal/refsworkspace/worker.go:423-463 | an undisturbed reservation adds exactly its journal and lease if the id is free and the budget and the host floor admit it, and changes nothing otherwise; the lock is free again either way |
| `Reservation.GiveUpAloneLeavesNothing` | internal/refsworkspace/worker.go:431-463 | giving up at any point under the lock leaves nothing, not even the lock |
| `Reservation.EndOfLease` | internal/refsworkspace/worker.go:589-601 | an undisturbed release or rollback takes journal and reservation away for good |
| `Reservation.ActiveReservationBytes` | internal/refsworkspace/unity_parallel.go:877-899 | the unchecked sum agrees with the scan's total modulo 2^64, and equals it when that is an int64 |
| `Reservation.StepKeepsInv` | internal/refsworkspace/worker.go:423-463 | every step that takes no journal from an active lease keeps the invariant of scan, admission and lease ownership |
| `Reservation.ClobberBreaksHolding` | internal/refsworkspace/worker.go:589-601 | a step that takes one breaks it |
| `Reservation.EmptyDirectoryStarts` | internal/refsworkspace/worker.go:423-463 | a pool without leases satisfies the invariant |
| `Reservation.RestartStarts` | internal/refsworkspace/worker.go:423-463 | new processes over whatever a run left behind satisfy it |
| `Reservation.RunKeepsInv` | internal/refsworkspace/worker.go:423-463 | from any state that satisfies the invariant it holds in every state of every interleaving, up to the first such step |
| `Reservation.LeasesHoldTheirJournalsIff` | internal/refsworkspace/worker.go:589-601 | in every interleaving: every admitted, unreleased lease has its own journal in every state if and only if no release that had lost its file name to another lease wrote or removed it |
| `Reservation.OnlyTornRemovalsDisturb` | internal/refsworkspace/worker.go:598-601 | where every removal of a journal that fails leaves it in place, that never happens |
| `Reservation.ActiveIsCounted` | internal/refsworkspace/worker.go:649-659 | a lease that holds its journal is counted with all its bytes |
| `Reservation.LeasesNeverExceedBudget` | internal/refsworkspace/worker.go:454-462 | the bytes of all admitted, unreleased leases together fit the budget in every state of an undisturbed run |
| `Reservation.StaleReleaseBreaksBudget` | internal/refsworkspace/worker.go:589-601 | a run from an empty directory, with one torn removal and a reused lease id, after which live reservations exceed the budget |
| `Reservation.AdmissionsFitTheBudget` | internal/refsworkspace/worker.go:454-462 | at each admission of an undisturbed run the measured bytes plus all live reservations, the new one included, fit the budget, and the lease id was free |
| `Reservation.ReservationsNeverExceedBudget` | internal/refsworkspace/coordination.go:17-45 | in every state of an undisturbed run live reservations fit the budget and at most one process is inside the lock |
| `Reservation.LockIsExclusive` | internal/refsworkspace/coordination.go:17-45 | in every state of every run, disturbed or not, at most one process is inside the lock |
| `Reservation.LockHeldBecause` | internal/refsworkspace/coordination.go:17-45 | in every run the lock is there only while its holder works or crashed under it, or after its unlock failed |
| `Reservation.ScanNeverOverflows` | internal/refsworkspace/worker.go:656-659 | in an undisturbed run the overflow test of the scan never fires, and each journal still present is counted |
| `Reservation.OnlyCreateRaisesReservations` | internal/refsworkspace/worker.go:458-462 | in an undisturbed run only the lock holder's creation raises the live reservations |
| `BaselineCoordination.StepKeepsInv` | internal/refsworkspace/baseline.go:272-328 | every step keeps locks, markers and uses consistent |
| `BaselineCoordination.RestartInv` | internal/refsworkspace/baseline.go:272-328 | crashed processes, their locks and markers, and new idle ones satisfy it |
| `BaselineCoordination.RunKeepsInv` | internal/refsworkspace/baseline.go:272-328 | from any state that satisfies the invariant it holds in every state of every interleaving |
| `BaselineCoordination.RunKeepsDirectory` | internal/refsworkspace/baseline.go:293-327 | no step moves or replaces the directory of a baseline in use |
| `BaselineCoordination.InUseBaselineStays` | internal/refsworkspace/baseline.go:499-514 | while a use marker exists, the directory at the baseline's path is one and the same |
| `BaselineCoordination.GrantedUseHasBaseline` | internal/refsworkspace/baseline.go:421-440 | a use is granted only on a present baseline, alone in the lock, with a fresh lease id and no mutation |
| `BaselineCoordination.MutationMarkerUnderLock` | internal/refsworkspace/baseline.go:284-292 | unless its removal, or the cleanup of its torn creation, failed, the mutation marker stands only under its creator's lock |
| `BaselineCoordination.CommitNeverReplaces` | internal/refsworkspace/baseline.go:204-213 | one builder at a time, and a commit never replaces an existing baseline |
| `BaselineCoordination.AcquireUseAloneIff` | internal/refsworkspace/baseline.go:399-463 | undisturbed, a use is granted exactly on a valid, unmutated baseline and a fresh lease id |
| `BaselineCoordination.UseRoundTrip` | internal/refsworkspace/baseline.go:399-463 | giving a use back undoes exactly what granting it did, and only the granted token can |
| `BaselineCoordination.MutateAloneIff` | internal/refsworkspace/baseline.go:284-327 | undisturbed, a quarantine moves the baseline exactly when it is unused and unmarked, and leaves no marker and no lock |
| `BaselineCoordination.ClearAloneIff` | internal/refsworkspace/baseline.go:250-266 | undisturbed, clear leaves no baseline, or changes nothing when a use or a mutation forbids it |
| `BaselineCoordination.EnsureAloneIff` | internal/refsworkspace/baseline.go:114-222 | undisturbed, ensure keeps a valid baseline, builds a missing one and replaces a corrupt one exactly when its quarantine is allowed |
| `BaselineCoordination.FailedInsideLeavesNothing` | internal/refsworkspace/baseline.go:272-328 | wherever a call fails under the coordination lock, an undisturbed failure gives back lock and marker and leaves uses and baseline as they were |
| `BaselineCoordination.FailedBuildLeavesNothing` | internal/refsworkspace/baseline.go:114-222 | the same for a failure under the creation lock |
| `BaselineCoordination.LocksHeldBecause` | internal/refsworkspace/coordination.go:17-45 | in every run either lock is there only while its holder works or crashed under it, or after its unlock failed |
| `BaselineCoordination.FailedCleanupLeaves` | internal/refsworkspace/baseline.go:284-297 | a cleanup that fails leaves its lock or its marker |
| `PoolLifecycle.Host.Mount` | internal/refsworkspace/pool.go:216-224 | a failed mount may stay attached unless its error says `released` |
| `PoolLifecycle.InspectMounted` | internal/refsworkspace/pool.go:539-638 | the judgement on the mounted pool holds for the durable contents it leaves behind; removal ignores stray root entries and baselines, recovery does not |
| `PoolLifecycle.TakeDown` | internal/refsworkspace/pool.go:629-651 | second look at the VHDX, VHDX, record, directories, in order; without failures all go, and the call succeeds exactly when the root held nothing else |
| `PoolLifecycle.RemoveDirectories` | internal/refsworkspace/pool.go:644-651 | the mount directory goes, then the root, which fails exactly when something failed or an entry is left |
| `PoolLifecycle.RemovePool` | internal/refsworkspace/pool.go:518-655 | without failures it takes down exactly the removable pools, whatever else lies in the volume's roots, and succeeds exactly on those whose storage root holds nothing else; success means that every test and removal was made in order and none failed; the VHDX goes only then, its records after it, the directories last |
| `PoolLifecycle.RecoverIncompleteSetup` | internal/refsworkspace/recovery.go:20-180 | without failures it takes down exactly the recoverable setups and succeeds exactly on those whose storage root holds nothing else; success means that every test and removal was made in order and none failed; it never deletes a VHDX whose durable contents hold `pool.json` |
| `PoolLifecycle.CreateDynamic` | internal/vhdxstorage/lifecycle_windows.go:383-397 | the creation may fail with the file in place, because its handle is closed last |
| `PoolLifecycle.UpdatePending` | internal/refsworkspace/pool_transaction.go:43-81 | the record is replaced or not; a temporary file stays in the root only if its removal failed too |
| `PoolLifecycle.CreateVHDX` | internal/refsworkspace/pool.go:198-214 | success names the file in the pending record; a failure leaves the cleanup variables of the step that failed, and a leaked file those that know of no file |
| `PoolLifecycle.ProbeCloning` | internal/refsworkspace/pool.go:720-733 | the probe directory comes and goes under the pending record |
| `PoolLifecycle.WriteVolume` | internal/refsworkspace/pool.go:215-289 | layout, probe, identities, `pool.json`, flush and detach, in order; a failure leaves exactly the cleanup variables of the step that failed |
| `PoolLifecycle.FillVolume` | internal/refsworkspace/pool.go:225-276 | layout, probe, identities and `pool.json` on the mounted volume; durable after an honest flush |
| `PoolLifecycle.WritePoolFile` | internal/refsworkspace/pool_transaction.go:43-81 | `pool.json` equals the record; after an honest flush it is durable |
| `PoolLifecycle.PublishPoolFile` | internal/refsworkspace/pool_transaction.go:43-81 | `pool.json` is replaced or not; a temporary file stays in the pool's root only if its removal failed too |
| `PoolLifecycle.ProveDurable` | internal/refsworkspace/pool.go:290-346 | accepts exactly the contents that survived the detach and equal the record, and leaves the world as it was; a failure leaves exactly the cleanup variables of the step that failed |
| `PoolLifecycle.BuildVolume` | internal/refsworkspace/pool.go:198-346 | up to the durable proof no record is lost and no owner appears |
| `PoolLifecycle.CommitPendingOwner` | internal/refsworkspace/pool_transaction.go:90-111 | the first result says whether the owner exists, unless a removal tore; both names are lost exactly when the removal and the rollback both took effect |
| `PoolLifecycle.CleanUp` | internal/refsworkspace/pool.go:140-197 | a failed setup removes VHDX, pending record and mount directory when it is safe to, never a committed owner; it costs a record exactly when it drops that of a leaked file |
| `PoolLifecycle.PrepareRoot` | internal/refsworkspace/pool.go:812-838 | the mount directory is made in an empty root, before any record and any cleanup |
| `PoolLifecycle.DropPending` | internal/refsworkspace/pool.go:162-190 | pending record, then directories; without a failure both are gone |
| `PoolLifecycle.CreatePending` | internal/refsworkspace/pool.go:129-133 | the pending record is created exclusively; a failure may leave it, readable or not, and leaves the mount directory |
| `PoolLifecycle.RunSetup` | internal/refsworkspace/pool.go:198-382 | success is a committed pool; a failure before the commit leaves the cleanup variables accurate; only a torn and undone commit loses a record |
| `PoolLifecycle.Setup` | internal/refsworkspace/pool.go:69-382 | success is a committed, detached, durable pool in a clean root, after every test and change of the source in order, none failing; anything in the root refuses it; every VHDX keeps a record if and only if the setup neither dropped the record of a leaked file nor lost both names in the commit |
| `PoolLifecycle.LeakedCreationLosesRecord` | internal/refsworkspace/pool.go:150-200 | a run of Setup that ends with a VHDX and no record |
| `PoolLifecycle.MountDirectoryBlocksSetup` | internal/refsworkspace/pool.go:812-838 | the first step of a setup and a power loss leave an empty mount directory that every later command refuses |
| `PoolLifecycle.RunCommand` | internal/refsworkspace/pool.go:69-655 | each command runs its operations, keeps the history good and loses a record only as Setup does |
| `PoolLifecycle.RunCommands` | internal/refsworkspace/pool.go:69-655 | over any sequence of commands, each cut by a power loss at any world it reached, every VHDX has a record if and only if no setup was lossy; clean creations and removals never are |
| `PoolLifecycle.RunBlocked` | internal/refsworkspace/pool.go:69-655 | from a blocked world no sequence of commands changes anything but the mount |
| `PoolLifecycle.BlockedWorlds` | internal/refsworkspace/recovery.go:112-139 | anything in the root without a VHDX, a VHDX without record or mount directory, two records, an incomplete record, and `pool.json` or a stray entry without owner are blocked |
| `PoolLifecycle.OwnerWasProved` | internal/refsworkspace/pool.go:296-351 | an owner that appeared was linked on a detached volume whose durable `pool.json` equalled it |
| `ReleaseDurability.Site.ReportStatus` | internal/refsworkspace/unity_phase2_release.go:85-96 | a status comes exactly from a pool that can be attached and read, and reports zero exactly when the durable contents hold nothing but canonical baselines and everything else was measured zero |
| `ReleaseDurability.ValidateDurableReleaseStatus` | internal/refsworkspace/unity_phase2_release.go:109-140 | accepts exactly a ready status that says zero, whose looked-at metrics are measured zero, with one owned VHDX |
| `ReleaseDurability.SecondLookAgrees` | internal/refsworkspace/unity_phase2_release.go:109-140 | when the status says zero only on zero metrics, the second look at the metrics refuses nothing more |
| `ReleaseDurability.RunWorkerReleaseDurability` | internal/refsworkspace/unity_phase2_release.go:47-107 | the flush is always tried, each link is tried exactly when all before it held, the evidence reports what the operations said, success is reported exactly when the removal succeeded and was recorded, and the pool is removed only from clean durable contents |
| `ReleaseDurability.ReleaseAndFlush` | internal/refsworkspace/unity_phase2_release.go:47-68 | release, measurement of the mounted volume and the flush, in order |
| `ReleaseDurability.ProveDurability` | internal/refsworkspace/unity_phase2_release.go:76-107 | detach, status and removal, each tried exactly when the ones before it held |
| `CorruptRecovery.Recovery.OpenArtifacts` | internal/refsworkspace/corrupt_release_recovery.go:372-408 | an existing directory needs its receipt, a new one is created; without failures nothing else is refused |
| `CorruptRecovery.Recovery.MountAndValidate` | internal/refsworkspace/corrupt_release_recovery.go:410-448 | continues exactly when the entries that the phase test looks at are in the state the receipt describes |
| `CorruptRecovery.AgreesByPhase` | internal/refsworkspace/corrupt_release_recovery.go:410-448 | which of the two pinned files each receipt phase demands, and which it forbids |
| `CorruptRecovery.Recovery.Capture` | internal/refsworkspace/corrupt_release_recovery.go:169-193 | backups with the pinned hashes first, then the receipt |
| `CorruptRecovery.Recovery.BackupsMatch` | internal/refsworkspace/corrupt_release_recovery.go:194-201 | a resumed run needs both backups with the pinned hashes |
| `CorruptRecovery.Recovery.EnsureBackups` | internal/refsworkspace/corrupt_release_recovery.go:169-201 | afterwards both backups and a receipt exist, and volume and receipt still agree |
| `CorruptRecovery.Recovery.RemoveJournal` | internal/refsworkspace/corrupt_release_recovery.go:202-210 | removes only the file with the pinned hash, then advances the receipt; success means both were done and nothing failed |
| `CorruptRecovery.Recovery.RemoveMarker` | internal/refsworkspace/corrupt_release_recovery.go:212-220 | removes only the file with the pinned hash, then advances the receipt; success means both were done and nothing failed |
| `CorruptRecovery.Recovery.DeleteArtifacts` | internal/refsworkspace/corrupt_release_recovery.go:202-221 | from any receipt phase that agrees with the volume both files end up gone and nothing else changes |
| `CorruptRecovery.Recovery.BackUpAndDelete` | internal/refsworkspace/corrupt_release_recovery.go:169-221 | backups, then the deletions the receipt still asks for, in order |
| `CorruptRecovery.Recovery.Flush` | internal/refsworkspace/corrupt_release_recovery.go:222-226 | a failing or dishonest flush keeps any part, an honest one everything |
| `CorruptRecovery.Recovery.FlushAndDetach` | internal/refsworkspace/corrupt_release_recovery.go:222-233 | succeeds exactly without failure; after an honest flush the mounted contents are durable |
| `CorruptRecovery.Recovery.VerifyAndRemove` | internal/refsworkspace/corrupt_release_recovery.go:234-257 | removes the pool only when the reattached volume shows nothing at all left |
| `CorruptRecovery.Recovery.PersistAndRemove` | internal/refsworkspace/corrupt_release_recovery.go:222-257 | flush, receipt, detach, final status, receipts and removal, in order; after an honest flush it succeeds exactly when nothing was left |
| `CorruptRecovery.Recovery.Recover` | internal/refsworkspace/corrupt_release_recovery.go:109-262 | succeeds only from a resumable world and, with an honest flush and no failure, from every one; success means that exactly the operations and receipts that the found receipt left open were done, in order, none failing; a disagreement with the receipt deletes nothing; an entry the phase test does not look at costs both files, backed up, but never the pool, and the call is resumable once it is gone |
| `CorruptRecovery.Recovery.RecoverRepeatedly` | internal/refsworkspace/corrupt_release_recovery.go:109-262 | over any number of calls, each cut by a power loss at any world it reached, no file is missing without backups and receipt, and the pool goes only after a durable zero |
| `CorruptRecovery.Recovery.RefusedForEver` | internal/refsworkspace/corrupt_release_recovery.go:410-448 | a receipt that disagrees with the volume is refused by every later call |
| `CorruptRecovery.DurableInterruptionIsResumable` | internal/refsworkspace/corrupt_release_recovery.go:413-425 | an interruption whose deletion became durable stays resumable |
| `WorkerLadder.CalculateWorkerLadderSizing` | internal/refsworkspace/worker_ladder.go:25-65 | succeeds exactly when the need fits 62 GiB and the host floor fits int64; which error comes first; the budget is the least GiB multiple that holds the need |
| `WorkerLadder.NextIsAdmitted` | internal/refsworkspace/worker.go:443-457 | each of the first N attempts within the forecast passes the admission test |
| `WorkerLadder.LedgerBalances` | internal/refsworkspace/worker.go:443-462 | every event is an attempt or a release, and what was neither refused nor released is live |
| `WorkerLadder.SizedLadderAdmitsEveryWorker` | internal/refsworkspace/worker_ladder.go:25-65 | with the calculated budget all N attempts are admitted, in any order and with releases between them |
| `WorkerLadder.LastWorkerRefused` | internal/refsworkspace/worker.go:443-457 | with N - 1 live workers at the edge of the forecast a smaller budget refuses the next one |
| `WorkerLadder.SmallerBudgetRefusesAWorker` | internal/refsworkspace/worker_ladder.go:48-52 | any smaller number of GiB refuses a worker in the worst case of the forecast |
| `AcquireBarrier.IntervalsHaveCommonOverlap` | internal/refsworkspace/unity_parallel.go:942-962 | true exactly when there are two or more intervals and every pair, each with itself included, overlaps |
| `AcquireBarrier.PairsMeetAtOneMoment` | internal/refsworkspace/unity_parallel.go:942-966 | pairwise overlap is the same as one instant inside all intervals |
| `AcquireBarrier.AcquireGroupIntervalsOverlap` | internal/refsworkspace/unity_parallel.go:914-932 | the same for recorded events, where the last event of a stage counts and a missing worker or event refutes |
| `AcquireBarrier.ReadInterval` | internal/refsworkspace/unity_parallel.go:920-928 | the last start and the last end of one worker |
| `AcquireBarrier.Recorder.Observe` | internal/refsworkspace/unity_parallel.go:228-241 | appends the event, counts clone starts, opens the gate at the N-th, and says whether to wait |
| `AcquireBarrier.LastArrival` | internal/refsworkspace/unity_parallel.go:231-236 | when an arrival opens the gate everybody has started and nobody is past it |
| `AcquireBarrier.RunKeepsInv` | internal/refsworkspace/unity_parallel.go:228-241 | counting, stamps and gate order hold in every schedule |
| `AcquireBarrier.EverybodyMayPass` | internal/refsworkspace/unity_parallel.go:231-240 | once everybody has arrived nobody waits for ever |
| `AcquireBarrier.ArrivalsProveOverlap` | internal/refsworkspace/unity_parallel.go:228-241 | in every schedule whose gate the N-th arrival opened, the finished workers pass the overlap test |
| `AcquireBarrier.TimerMayDefeatOverlap` | internal/refsworkspace/unity_parallel.go:224-224 | when the timer opened the gate there are schedules that fail it |
| `BusTail.OffsetError` | internal/ipc/reader.go:134-138 | the counted bytes are the scanned bytes, less one per carriage return, plus one for an unterminated last line |
| `BusTail.LinesSplit` | internal/ipc/reader.go:132-135 | cutting behind a line feed cuts the lines in two |
| `BusTail.ClosingFeed` | internal/ipc/reader.go:132-138 | the line feed behind an already yielded line adds nothing |
| `BusTail.ClosingReturn` | internal/ipc/reader.go:132-138 | nor does a last carriage return, but the offset then falls short |
| `BusTail.OtherByte` | internal/ipc/reader.go:132-138 | a line cut before another of its bytes is yielded wrongly |
| `BusTail.CutCount` | internal/ipc/reader.go:132-138 | a cut inside a line yields one line more, any other cut none |
| `BusTail.ScanCatchesUp` | internal/ipc/reader.go:121-158 | from a harmless cut one scan yields exactly the new lines |
| `BusTail.DrainCatchesUp` | internal/ipc/reader.go:121-158 | so does one poll of a snapshot, also when the reader has stopped |
| `BusTail.DrainAllCatchesUp` | internal/ipc/reader.go:89-116 | after any harmless polls the lines are those of the prefix seen |
| `BusTail.PromiseKept` | internal/ipc/reader.go:121-158 | what has been and will be yielded never shrinks, whatever is polled |
| `BusTail.SkippedByte` | internal/ipc/reader.go:134-138 | an offset past an unfinished line spoils the lines |
| `BusTail.HarmfulCut` | internal/ipc/reader.go:121-158 | every cut that is not harmless spoils the lines |
| `BusTail.PollsDeliverFileIff` | internal/ipc/reader.go:84-158 | over a growing file of any bytes every line is delivered once and in order if and only if every poll followed by another was a harmless cut |
| `BusTail.WholeLinesAreTailedExactly` | internal/ipc/reader.go:84-158 | with line-feed-terminated snapshots the lines are those of the file and the offset is its size if and only if no line ends with a carriage return or is too long |
| `BusTail.LongLineStallsProgress` | internal/bridge/client.go:208-225 | the progress reader never passes a line that exceeds the scanner's buffer |
| `BusTail.Classify` | internal/ipc/reader.go:162-170 | visible exactly when sent by the role, sent to it or broadcast, with the direction decided by the sender |
| `BusTail.ProgressToStatus` | internal/bridge/client.go:231-248 | exactly the phases "compiling" and "running" are passed on, as themselves and with the counts unchanged |
| `BusTail.EventsConcat` | internal/ipc/reader.go:139-152 | filtering lines in two batches gives the events of all lines in order |
| `BusTail.EventsAreSelected` | internal/ipc/reader.go:139-152 | each nonempty line that is seen gives exactly one event, in the order of the lines |
| `BusTail.SelectedIsSent` | internal/ipc/reader.go:139-170 | a role is sent exactly the messages from it, to it or to everybody, each once, as its line parses and with the direction of its sender |
| `BusTail.SelectedIsWritten` | internal/bridge/client.go:212-248 | the status is written exactly for the lines of the two running phases, each once, in order |
| `BusTail.ScanLines` | internal/ipc/reader.go:132-156 | the scanning loop yields the events and the byte count of exactly the scanned lines |
| `BusTail.ReadSince` | internal/ipc/reader.go:121-158 | one drain of the reader, with the offset kept on an overlong line |
| `BusTail.DrainProgress` | internal/bridge/client.go:197-226 | one drain of the client writes exactly the running phases of the delivered lines, once and in order, with the offset moved behind the lines before an overlong one |
| `BusTail.ReadAttempt` | internal/ipc/reader.go:121-158 | one attempt on a file that may be missing moves the tail by one poll |
| `BusTail.RunTicks` | internal/ipc/reader.go:89-116 | a missing file is retried; any other error of opening, seeking or scanning ends the loop |
| `BusTail.Run` | internal/ipc/reader.go:89-117 | over the lines of all drains up to the first error, the role is sent each visible message exactly once and in order; an error is reported exactly when one comes before the last drain |
| `MountedResidual.ClassesExclusive` | internal/refsworkspace/residual.go:186-204 | an entry matches at most one pattern, so the order of the cases does not matter |
| `MountedResidual.DigestIff` | internal/refsworkspace/residual.go:15-15 | a digest is 64 lower-case hexadecimal digits |
| `MountedResidual.LeaseIdIff` | internal/refsworkspace/worker.go:21-21 | which strings are lease ids |
| `MountedResidual.StagingSuffixIff` | internal/refsworkspace/residual.go:21-22 | what follows the identity in a staging name |
| `MountedResidual.WorkerJournalNameIff` | internal/refsworkspace/residual.go:16-16 | a journal name is prefix, lease id and extension |
| `MountedResidual.ActiveUseNameIff` | internal/refsworkspace/residual.go:17-17 | an active-use name is prefix, digest, lease id and extension |
| `MountedResidual.BaselineNameIff` | internal/refsworkspace/residual.go:18-20 | a coordination name is prefix, digest and one of the suffixes |
| `MountedResidual.BaselineStagingNameIff` | internal/refsworkspace/residual.go:21-21 | a baseline staging name is a dot, a digest and a staging suffix |
| `MountedResidual.WorkerStagingNameIff` | internal/refsworkspace/residual.go:22-22 | a worker staging name is a dot, a lease id and a staging suffix |
| `MountedResidual.ClassifyLeaseArtifacts` | internal/refsworkspace/residual.go:177-206 | each counter is the number of entries of its class, and they add up to all entries |
| `MountedResidual.ClassifyTree` | internal/refsworkspace/residual.go:208-248 | the same for the baseline and the worker directory |
| `MountedResidual.CountProbes` | internal/refsworkspace/residual.go:64-67 | the number of entries with the probe prefix, zero exactly when there is none |
| `MountedResidual.ProbeNameIff` | internal/refsworkspace/residual.go:64-67 | a probe name is the prefix and anything behind it |
| `MountedResidual.InspectWorkerJunctions` | internal/refsworkspace/residual.go:255-341 | counts the readable journals whose junction is still there, and fails exactly when an entry with a journal's name cannot be read |
| `MountedResidual.MountedResidualStatus` | internal/refsworkspace/residual.go:97-117 | zero exactly when every metric is measured zero; not measured exactly when one is missing |
| `MountedResidual.MeasureMountedResidual` | internal/refsworkspace/residual.go:29-79 | each of the sixteen metrics is the number of entries of its kind; zero exactly when leases, workers and quarantine are empty, baselines are canonical and no probe is left |
| `MountedResidual.ResidualStatus` | internal/refsworkspace/residual.go:149-173 | zero exactly when all is measured zero; a nonzero count wins over a missing measurement |
| `ProtectionEncoding.SortStringsSorts` | internal/refsworkspace/protection.go:30-30 | the sorted list is ordered and keeps every record with its multiplicity |
| `ProtectionEncoding.LeqIsBytewise` | internal/refsworkspace/protection.go:30-30 | the order is the ascending one of the bytes: a prefix first, else the first byte that differs decides |
| `ProtectionEncoding.SortedUnique` | internal/refsworkspace/protection.go:30-30 | a multiset of records has one sorted listing |
| `ProtectionEncoding.LittleEndianRoundTrip` | internal/refsworkspace/protection.go:33-33 | a length that fits is read back from its little-endian bytes |
| `ProtectionEncoding.FrameSplits` | internal/refsworkspace/protection.go:32-35 | a length-prefixed record shows where it ends |
| `ProtectionEncoding.EncodeInjective` | internal/refsworkspace/protection.go:32-35 | different record lists have different byte strings |
| `ProtectionEncoding.CanonicalBytesIff` | internal/refsworkspace/protection.go:29-38 | the hashed byte strings are equal exactly when the record lists are equal as multisets |
| `ProtectionEncoding.WriteCanonical` | internal/refsworkspace/protection.go:29-35 | sorts the caller's slice in place and writes the canonical bytes |

## Left out

- Windows system calls, PowerShell, access control lists, junction and volume APIs, process listing: steps that succeed or fail.
- SHA-256, `HashTree` and JSON: a digest is an uninterpreted function, a file is decoded or not; the tree encoding is not modelled.
- Paths, symbolic links and reparse checks: names are opaque, a failing path check is a failing step.
- Metrics timing, error wrapping, evidence copying, command line, configuration: no state of their own.
- `RunGNFUnity`, `RunUnityPhase2`, `RunUnityParallel` and Unity execution: orchestration around the modelled parts.
- `internal/libraryimage` and bridge selection in `internal/runsvc/service.go`: not part of this model.
- `BuildVerifiedPoolPolicy` and `comparePoolIdentity`: field-by-field comparisons; their outcome is the premise `Reservation.ValidPolicy`, and identity mismatches are failing steps of `PoolLifecycle`.
- `Reservation` and `BaselineCoordination` are transition systems on values, not objects with methods: what is proved is about interleavings of single file operations, and waiting in the lock's retry loop is a step that is not yet enabled.
- In the interleavings of `Reservation` every journal can be read and every holder's process is alive; a scan that finds otherwise refuses (`CheckLeases`), and so admits less.
- One baseline key: the names of different keys are disjoint, so `BaselineCoordination` has one of each.
- Staging directories of a baseline build and the contents of the quarantine directory: only the rename to the baseline's path matters to the uses.
- An unreadable managed directory ends `measureMountedResidual` with an error and no status; the model's listings can be read.
- The receipt is rewritten in place atomically and host files survive crashes; an unreadable host file is modelled only for the first pending record.
- A source file that changes while it is queried or copied: queries are a function of offset and length, and contents are fixed.
- WorkerRelease.WorkerLease.ReleaseUntilDone: converges where the volume does not tear and the owner check behind the move does not fail; elsewhere a release can end in one of the stuck states named above.
- `acquireIntervalsOverlap` (first event of a stage, two workers): the group test, which takes the last event, is the one modelled.

# Verification of TPU Sync's KV-cache data plane

TPU Sync moves KV-cache blocks between device memory, host memory and peer
nodes.  This project models the parts of it where a wrong byte, a lost pin or a
torn table entry would be silent, and proves what they promise.  Run
`dafny verify dfyconfig.toml` with Dafny 4.11.

* **Pool reshard data plane** (`Intervals`, `PoolLayout`, `ReceiverCoverage`, `PoolSpecs`,
  `BlockChunks`, `Delivery`, `PlanChecks`, `PushStreams`, `DeliveryExample`).  The receiver's
  validator accepts a plan exactly when its entries tile every destination block; the
  sender's gather list and the receiver's scatter list agree; so performing all pushes
  of an accepted plan, in any order, touches no byte the schedule does not name, and
  leaves each live byte equal to the one source byte it names if and only if no pair
  moves more bytes than one of its sender's blocks holds.
* **Pool reshard state machines** (`PoolReshardRecv`, `PoolReshardSend`, `SendExample`).  Whole
  runs of the wire-complete, rank-ordered upload and finalise steps, and of the
  sender's countdown, under interleaved callbacks and timeouts.
* **Store protocols** (`RemoteWrites`, `RemoteWriteRuns`, `RemoteReads`, `Lookup`,
  `SweepOffers`, `EvictSweep`).  Mutex sections are atomic steps; anything may run between them.
  Offers settle at most once, and none is lost while live operation ids differ; pins and
  marks are conserved, lookups pin what they return, and the evict sweep is pin-neutral
  and terminates.
* **Metadata table and recovery** (`Metadata`, `Recovery`).  Crash atomicity store by
  store, and recovery that is correct over any number of crashes, its own included.
* **Plan and copy transformations** (`TransferProgram`, `CopySpecs`, `LoadPlan`,
  `PipelinedPromise`).

Methods that the source writes as loops or state changes are Dafny methods and
classes, each proved against a function or predicate; the theorems are about those.
Clocks, the network, the registry, allocators, device copies and map iteration order
are parameters or nondeterministic choices.

## Where a promise needs a condition

These hold of the code only under the condition given, which is proved to be exact.

* A pair whose entries move more bytes than one of the sender's blocks holds is cut
  silently, because the transport gathers at most `block_bytes` per pair
  (`PlanChecks.AcceptedDelivery`, `OverCapLoses`, `DeliveryExample.ReplayLost`).
* A send whose pool group lacks an entry for some peer never drains its counter; only
  the deadline ends it (`PoolReshardSend.DrainsIffFull`, `StuckForever`,
  `SendExample.RequestSticks`).
* Remote writes are claimed and erased by operation id alone, although each destination
  draws its own ids: an offer that shares a live id is stranded
  (`RemoteWriteRuns.FileKeepsOthersIff`, `SharedIdStrands`, `StrandedForever`).
* A load whose positions share a staging block but ask for different remote blocks is
  accepted and delivers one of them to both (`LoadPlan.LoadDeliversIff`, `SharedStagingLoses`).
* A model id with a NUL byte formats but does not attach (`Metadata.FormatAttach`,
  `NulIdRefused`).
* The recovery counter wraps when a stamp has reached 2^64-1 (`Recovery.CounterResumes`,
  `LastStampWraps`).
* Compiling drops `expected_layer_chunk_counts`, and lowering drops empty schedules, the
  layout fingerprint, the deadline and memory types (`TransferProgram.LowerCompileSame`,
  `CompileLowerSame`).

Two dead cases are worth a line.  `MarkChunkComplete` has a branch that reports an error
from the last chunk; it is never taken (`PipelinedPromise.LastChunkNeverReportsError`).
`emplace` would drop a second read under one future; it never finds its key present
(`RemoteReads.NeverLost`), and `RecordTracksIff` and `SharedFutureLoses` say what depends
on that.

## Model

| member | source | states |
|---|---|---|
| `Intervals.SortAndSweep` | tpu_sync/core/kv_cache_manager_with_transfer.cc:1126-1147 | for positive-size intervals, sort-and-sweep accepts iff every byte below the extent lies in exactly one interval and no interval reaches past it |
| `Intervals.SweepExact` | tpu_sync/core/kv_cache_manager_with_transfer.cc:1130-1146 | on sorted intervals, abutting from 0 to the extent is the same as tiling it, in both directions |
| `Intervals.CoverPermutation` | tpu_sync/core/kv_cache_manager_with_transfer.cc:1128-1129 | sorting does not change how often a byte is covered |
| `PoolLayout.ExpandPoolLiveSegments` | tpu_sync/kv_cache/pool_layout.cc:376-472 | accepts iff the regions fit and no byte is claimed twice; the segments map exactly the live bytes, in order, onto a gap-free logical range |
| `PoolLayout.MergeRuns` | tpu_sync/kv_cache/pool_layout.cc:448-460 | merging sorted intervals succeeds iff none overlap, and covers the same bytes with separated runs |
| `PoolLayout.PhysicalLiveRangeToLogical` | tpu_sync/kv_cache/pool_layout.cc:474-494 | returns the logical range of a physical range that lies in one segment |
| `PoolLayout.RangeMapsBytes` | tpu_sync/kv_cache/pool_layout.cc:474-494 | an accepted range maps byte by byte to a contiguous logical range of the same size |
| `PoolLayout.RangeAcceptedIffLive` | tpu_sync/kv_cache/pool_layout.cc:474-494 | a range is accepted iff every byte of it is live |
| `PoolLayout.PhysicalOfLogical` | tpu_sync/kv_cache/pool_layout.cc:474-494 | physical to logical and back is the identity on live bytes, so the mapping is injective |
| `PoolLayout.LogicalOfPhysical` | tpu_sync/kv_cache/pool_layout.cc:474-494 | logical to physical and back is the identity below the live total |
| `PoolLayout.CoveredEndExact` | tpu_sync/kv_cache/pool_layout.cc:65-86 | the end a region reports for an offset is the end of the live run containing it |
| `PoolLayout.RegionsCoverRange` | tpu_sync/kv_cache/pool_layout.cc:255-272 | hopping from covered end to covered end accepts iff every byte of the range is live |
| `ReceiverCoverage.StridedSpanFitsBlock` | tpu_sync/core/kv_cache_manager_with_transfer.cc:115-126 | the division test equals offset + (count-1)*stride + size <= block, with every intermediate inside int64 |
| `ReceiverCoverage.StridedSpanFitsRegions` | tpu_sync/core/kv_cache_manager_with_transfer.cc:128-142 | accepts iff the span fits and every byte of every repeat is live |
| `ReceiverCoverage.CheckPartition` | tpu_sync/core/kv_cache_manager_with_transfer.cc:958-987 | accepts iff the groups' pools are distinct, non-negative and exactly the transferred pools |
| `ReceiverCoverage.CheckGroup` | tpu_sync/core/kv_cache_manager_with_transfer.cc:1004-1064 | accepts iff a group's pools agree on live segments and its extents fit them |
| `ReceiverCoverage.CollectCoverage` | tpu_sync/core/kv_cache_manager_with_transfer.cc:1066-1110 | accepts iff every entry names a known block and every repeat maps inside its extent, and collects exactly their logical intervals per block |
| `ReceiverCoverage.CountPushes` | tpu_sync/core/kv_cache_manager_with_transfer.cc:1112-1125 | sums over senders the distinct (peer, source, destination) pairs, capped by the parallelism |
| `ReceiverCoverage.ValidatePoolReshardReceiverCoverage` | tpu_sync/core/kv_cache_manager_with_transfer.cc:948-1150 | accepts iff the groups partition the pools, every repeat is inside its extent, push counts agree, and each destination block is tiled exactly |
| `PushStreams.AsyncPush` | tpu_sync/transport/block_transport.cc:773-868 | a push is refused iff it has no block or no parallelism; otherwise its blocks are cut into consecutive non-empty even slices, as many as the parallelism, or fewer only when each holds one block |
| `PushStreams.SplitLength` | tpu_sync/transport/block_transport.cc:795-803 | so a push opens one stream per block up to the parallelism: never more than either, and equal to one of them |
| `PushStreams.ExpectedPushes` | tpu_sync/core/kv_cache_manager_with_transfer.cc:1112-1125 | the push count an accepted plan declares for a group is the number of streams its senders open for the pairs they owe it, however each push is cut |
| `BlockChunks.StepsExact` | tpu_sync/kv_cache/kv_cache_manager_base.cc:2422-2510 | a selection resolves to all repeats of all selected entries, each once, entry after entry and repeat after repeat; a count that is not positive is one repeat |
| `BlockChunks.SelectedExactly` | tpu_sync/kv_cache/kv_cache_manager_base.cc:2406-2500 | which entries each end selects: an empty peer or a block id of -1 asks for any, and a plan without groups for every pool |
| `BlockChunks.CapTotal` | tpu_sync/kv_cache/kv_cache_manager_base.cc:2512-2521 | the capped list holds all bytes, or exactly the budget |
| `BlockChunks.RepeatsAreSteps` | tpu_sync/core/kv_cache_manager_with_transfer.cc:1066-1110 | the validator's expansion bound is on the number of pieces the whole plan expands to |
| `BlockChunks.GetBlockChunks` | tpu_sync/kv_cache/kv_cache_manager_base.cc:2321-2528 | the chunk list of the blocks: the selected (entry, repeat) pieces in schedule order, cut at the byte budget; nothing for an unknown pool or a block out of range |
| `BlockChunks.SameSteps` | tpu_sync/kv_cache/kv_cache_manager_base.cc:2422-2522 | the sender's filter by peer over its schedule and the receiver's filter by shard over its own entries select the same (entry, repeat) sequence |
| `BlockChunks.GatherScatterAgree` | tpu_sync/kv_cache/kv_cache_manager_base.cc:2422-2522 | for any rank, pool, blocks and byte cap, both ends' lists have equal length and pointwise equal sizes, and move equal byte totals |
| `BlockChunks.CapWholeIff` | tpu_sync/kv_cache/kv_cache_manager_base.cc:2512-2521 | the byte budget leaves a list of positive chunks whole iff its bytes fit the budget |
| `BlockChunks.CapTwice` | tpu_sync/transport/block_transport.cc:405-421 | a receiver that asks for as many bytes as the sender gathered cuts at the same place |
| `Delivery.ChunksInside` | tpu_sync/kv_cache/kv_cache_manager_base.cc:2422-2522 | for accepted plans every chunk lies inside its block on both ends |
| `Delivery.WriteLands` | tpu_sync/core/kv_cache_manager_with_transfer.cc:1066-1110 | every scheduled byte lands on a live byte below its block's extent |
| `Delivery.OneWriter` | tpu_sync/core/kv_cache_manager_with_transfer.cc:1126-1147 | no destination byte is named by two (entry, repeat) pairs of an accepted plan, whatever ranks or groups they belong to |
| `Delivery.EveryByteScheduled` | tpu_sync/core/kv_cache_manager_with_transfer.cc:1126-1147 | every live byte below an extent, in every pool of the group, is named by some (entry, repeat) |
| `Delivery.DeliveredByte` | tpu_sync/kv_cache/kv_cache_manager_base.cc:2321-2528 | after all pushes in any order, with any repeats, a scheduled byte whose pair fits the cap equals the one source byte the schedule names |
| `Delivery.ChangedByteScheduled` | tpu_sync/kv_cache/kv_cache_manager_base.cc:2321-2528 | a byte that changed is a scheduled live byte below its extent: padding and bytes past the extent are untouched |
| `Delivery.DeliveryExact` | tpu_sync/transport/block_transport.cc:1020-1055 | every scheduled byte arrives from every prior memory iff no pair moves more bytes than one of its sender's blocks holds (the sender gathers at most block_bytes per pair) |
| `PoolSpecs.ValidatePool` | tpu_sync/kv_cache/pool_layout.cc:189-229 | registration accepts iff the geometry is sound and, when the storage size is known, the live bytes of the last block end inside the storage and below 2^63-1 |
| `PoolSpecs.ValidateRegion` | tpu_sync/kv_cache/pool_layout.cc:127-187 | accepts iff the region's geometry is sound and its bytes end inside the slot, every product and sum guarded before it is computed |
| `PoolSpecs.StorageExtentEndBytes` | tpu_sync/kv_cache/pool_layout.cc:231-253 | the saturating sum is the exact live end, or 2^63-1 when that does not fit |
| `PoolSpecs.MulWillOverflow` | tpu_sync/kv_cache/pool_layout.cc:34-37 | the division test is the exact overflow condition |
| `PoolSpecs.LiveBelowEnd` | tpu_sync/kv_cache/pool_layout.cc:231-253 | every live byte of a valid pool lies below the live end |
| `PlanChecks.ValidatePoolReshardPlan` | tpu_sync/core/kv_cache_manager_with_transfer.cc:742-946 | at either end, accepts iff the header, the local block ids, the declared pools and every entry pass and, at the receiver, every block is named at offset zero and the coverage holds |
| `PlanChecks.DstLiveIff` | tpu_sync/core/kv_cache_manager_with_transfer.cc:115-142 | for a pool whose regions expand, the span test of an entry is the liveness of every byte of every repeat |
| `PlanChecks.AcceptedValid` | tpu_sync/kv_cache/reshard/reshard_coordinator.cc:109-200 | plans both ends accept, placed as the coordinator places them, meet every condition of the delivery theorems |
| `PlanChecks.AcceptedChunks` | tpu_sync/core/kv_cache_manager_with_transfer.cc:115-142 | from registration and acceptance, every chunk of every push lies inside its block at both ends, on live bytes, and every product and sum on the way to its last byte stays inside int64 |
| `PlanChecks.AcceptedDelivery` | tpu_sync/transport/block_transport.cc:1020-1055 | accepted plans deliver every scheduled byte in every complete order iff no pair moves more bytes than one of its sender's blocks holds |
| `PlanChecks.OverCapLoses` | tpu_sync/transport/block_transport.cc:1028-1034 | a pair over that cap loses a byte, in every complete order of every accepted plan that has one |
| `DeliveryExample.ReplayAccepted` | tpu_sync/core/kv_cache_manager_with_transfer.cc:742-946 | a concrete plan that passes every check of both ends: two one-byte entries read one source byte into both bytes of a two-byte block |
| `DeliveryExample.ReplayLost` | tpu_sync/transport/block_transport.cc:1028-1034 | that plan's pair is over the cap, and in every complete order some scheduled byte is not delivered |
| `DeliveryExample.ReplayOrder` | tpu_sync/transport/block_transport.cc:1020-1055 | pushing the one pair once is such a complete order |
| `PoolReshardRecv.Manager.Arm` | tpu_sync/core/kv_cache_manager_with_transfer.cc:1376-1430 | arming registers a fresh receive with nothing started and refuses a uuid in use |
| `PoolReshardRecv.Manager.OnPoolReceived` | tpu_sync/core/kv_cache_manager_with_transfer.cc:2665-2697 | a wire-complete pool is marked started once; a repeated, unknown or foreign pool changes nothing |
| `PoolReshardRecv.Manager.LaunchEligiblePoolH2ds` | tpu_sync/core/kv_cache_manager_with_transfer.cc:2699-2751 | launches exactly the started, unlaunched pools all of whose lower-ranked expected pools, by the armed map, are completed |
| `PoolReshardRecv.Manager.FinishPoolFirst` | tpu_sync/core/kv_cache_manager_with_transfer.cc:2753-2776 | records a completion or a failure and claims finalising at most once |
| `PoolReshardRecv.Manager.CompleteReadRaw` | tpu_sync/core/kv_cache_manager_with_transfer.cc:1701-1738 | drains each expired or settled receive into exactly one of done or failed and keeps the rest; a receive whose request id no other shares is settled as the one-receive machine settles it |
| `PoolReshardRecv.SettlesEach` | tpu_sync/core/kv_cache_manager_with_transfer.cc:1701-1738 | settling the whole map settles each receive alone, when no two active receives share a request id (serves `PoolReshardRecv.Manager.CompleteReadRaw`) |
| `PoolReshardRecv.RankOrder` | tpu_sync/core/kv_cache_manager_with_transfer.cc:2699-2751 | in every run, in terms of the armed rank map (absent pools count as 0): completed within launched within started within expected; each pool launched at most once, after every expected pool of lower rank was uploaded; no byte of a lower rank lands after one of a higher rank |
| `PoolReshardRecv.SharedByte` | tpu_sync/core/kv_cache_manager_with_transfer.cc:2699-2776 | the last writer of a device byte is ranked, in the armed map, no lower than any uploaded pool that covers it |
| `PoolReshardRecv.CanLaunch` | tpu_sync/core/kv_cache_manager_with_transfer.cc:2699-2751 | all pools arrived, nothing in flight, not complete: some pool is eligible |
| `PoolReshardRecv.NeverStalls` | tpu_sync/core/kv_cache_manager_with_transfer.cc:2699-2803 | in every run, once all pools arrived an unfinished receive has an upload in flight or a launch pending |
| `PoolReshardRecv.LaunchDecreases` | tpu_sync/core/kv_cache_manager_with_transfer.cc:2699-2751 | each launch of a non-empty set strictly shrinks expected minus launched, so launch and finish terminate (a companion of `PoolReshardRecv.NeverStalls`) |
| `PoolReshardRecv.SingleOutcome` | tpu_sync/core/kv_cache_manager_with_transfer.cc:2753-2803 | a receive is reported at most once over all drains, and exactly one report is made or waiting once it is gone, even when the timeout races with finalising |
| `PoolReshardRecv.OutcomeExact` | tpu_sync/core/kv_cache_manager_with_transfer.cc:2753-2803 | in every run: done only if every expected pool was uploaded and nothing failed; failed only if a copy or the unregistering failed or a poll came after the deadline; over means one or the other |
| `PoolReshardRecv.CanFinish` | tpu_sync/core/kv_cache_manager_with_transfer.cc:2665-2803 | from every state in which nothing has failed, some run without a failure and before the deadline reports the receive done, once |
| `PoolReshardSend.TransfersByPeer` | tpu_sync/core/kv_cache_manager_with_transfer.cc:1294-1306 | the per-peer lists of a group hold exactly its distinct (source, destination) pairs for that peer |
| `PoolReshardSend.Manager.Start` | tpu_sync/core/kv_cache_manager_with_transfer.cc:1189-1206 | a fresh send starts with one push outstanding per pool and peer; a uuid in use is refused |
| `PoolReshardSend.Manager.FinishPoolReshardSendFirst` | tpu_sync/core/kv_cache_manager_with_transfer.cc:1337-1360 | a callback counts down or records the failure, and claims finalising at most once |
| `PoolReshardSend.Manager.CompleteReadRaw` | tpu_sync/core/kv_cache_manager_with_transfer.cc:1685-1696 | expired sends are dropped and reported failed, and no others |
| `PoolReshardSend.CounterExact` | tpu_sync/core/kv_cache_manager_with_transfer.cc:1337-1374 | in every run, the counter of an active send equals its outstanding pool/peer pushes when every pool has entries for every peer |
| `PoolReshardSend.DoneMeansPushed` | tpu_sync/core/kv_cache_manager_with_transfer.cc:1337-1374 | a send is done only after every scheduled push succeeded |
| `PoolReshardSend.SingleOutcome` | tpu_sync/core/kv_cache_manager_with_transfer.cc:1337-1374 | exactly one of done or failed, whatever order callbacks, failures and the timeout come in |
| `PoolReshardSend.DrainsIffFull` | tpu_sync/core/kv_cache_manager_with_transfer.cc:1189-1334 | with every push over and none failed, the counter drains iff every pool with entries has entries for every peer, and is above zero otherwise |
| `PoolReshardSend.StuckForever` | tpu_sync/core/kv_cache_manager_with_transfer.cc:1189-1374 | such a send keeps its entry and its counter, and is not reported, in every run without an expired poll |
| `PoolReshardSend.StuckStep` | tpu_sync/core/kv_cache_manager_with_transfer.cc:1685-1696 | in such a send only polls are left to happen, and one after the deadline reports it failed (serves `PoolReshardSend.StuckForever`) |
| `PoolReshardSend.StuckExample` | tpu_sync/core/kv_cache_manager_with_transfer.cc:1189-1334 | a schedule of three entries, two peers and two groups, the first with an entry for one peer only: the run in which every push succeeds ends stuck with the counter at one |
| `SendExample.RequestSticks` | tpu_sync/core/kv_cache_manager_with_transfer.cc:742-946 | the whole request around that schedule passes every check of the sender, for every positive uuid, and the send it starts ends stuck with the counter at one |
| `PoolReshardSend.ScheduleSendable` | tpu_sync/core/kv_cache_manager_with_transfer.cc:1189-1250 | every non-empty schedule and pool list starts a send the results above apply to |
| `PoolReshardSend.OutcomeExact` | tpu_sync/core/kv_cache_manager_with_transfer.cc:1337-1374 | in every run: done only if every scheduled push succeeded and nothing failed; failed only if something failed or a poll came after the deadline; over means one or the other |
| `PoolReshardSend.CanFinish` | tpu_sync/core/kv_cache_manager_with_transfer.cc:1189-1374 | from every state in which nothing has failed, with no peer missing from a pool, some run without a failure and before the deadline reports the send done, once |
| `RemoteWrites.Backend.Pin` | tpu_sync/kv_cache/host_offload_backend.cc:516-527 | all or nothing: succeeds iff every entry is present, one pin each, else every count is as before |
| `RemoteWrites.Backend.Release` | tpu_sync/kv_cache/host_offload_backend.cc:529-537 | drops one pin per listed hash, clamped at zero, absent entries ignored |
| `RemoteWrites.MarkExact` | tpu_sync/kv_cache/kv_cache_store.cc:1865-1901 | marking succeeds iff the hashes are distinct, resident, pinned and unmarked; a failure has marked only hashes that were free |
| `RemoteWrites.Store.MarkSaving` | tpu_sync/kv_cache/kv_cache_store.cc:1865-1901 | the marking section: marks, this call's marks and the outcome, stopping at the first refused hash |
| `RemoteWrites.Store.MarkLocal` | tpu_sync/kv_cache/kv_cache_store.cc:986-1018 | a local save checks every hash before marking any |
| `RemoteWrites.Store.ClaimWrites` | tpu_sync/kv_cache/kv_cache_store.cc:2025-2034 | a poller takes the active operations no other poller holds |
| `RemoteWrites.Store.ReleaseClaims` | tpu_sync/kv_cache/kv_cache_store.cc:2042-2047 | every claim of the poller is given back |
| `RemoteWrites.Store.FileVerdict` | tpu_sync/kv_cache/kv_cache_store.cc:1998-2016 | erases by operation id, clears the marks and files in the owner's mailbox only |
| `RemoteWrites.Store.DrainApplication` | tpu_sync/kv_cache/kv_cache_store.cc:1478-1485 | the application takes its own mail, all of it, and leaves none |
| `RemoteWrites.Store.DrainSweep` | tpu_sync/kv_cache/kv_cache_store.cc:1691-1700 | the sweep takes its own mail, all of it, and leaves none |
| `RemoteWriteRuns.StepKeeps` | tpu_sync/kv_cache/kv_cache_store.cc:1829-2104 | every atomic step of any call, poller, finisher, local save or other client keeps the protocol invariant |
| `RemoteWriteRuns.SettledOnce` | tpu_sync/kv_cache/kv_cache_store.cc:1978-2104 | in every run, an accepted offer is filed at most once; once filed, its internal pin was released once and the caller's once exactly if it succeeded, whatever ids the destinations hand out |
| `RemoteWriteRuns.NeverLost` | tpu_sync/kv_cache/kv_cache_store.cc:1978-2104 | with ids distinct among live operations, an accepted offer not yet filed is in the list or being finished |
| `RemoteWriteRuns.RefusedLeavesNothing` | tpu_sync/kv_cache/kv_cache_store.cc:1846-1860 | a call that returned an error released nothing, filed nothing, and holds no pin and no mark |
| `RemoteWriteRuns.MarksRestored` | tpu_sync/kv_cache/kv_cache_store.cc:1865-1901 | undoing a failed marking restores the saving marks; marking touches no pin |
| `RemoteWriteRuns.PinRestored` | tpu_sync/kv_cache/kv_cache_store.cc:1903-1927 | a call refused after pinning restores every pin count |
| `RemoteWriteRuns.RefusalRestores` | tpu_sync/kv_cache/kv_cache_store.cc:1846-1927 | a refused call that ran alone restores every pin and every mark, at whichever section it was refused |
| `RemoteWriteRuns.PinSucceeds` | tpu_sync/kv_cache/kv_cache_store.cc:1903-1909 | while the caller keeps its pin the internal pin cannot fail |
| `RemoteWriteRuns.PinsConserved` | tpu_sync/kv_cache/kv_cache_store.cc:1903-1996 | in every run, each pin is a client's or the one internal pin of the offer marking the block |
| `RemoteWriteRuns.MarksExact` | tpu_sync/kv_cache/kv_cache_store.cc:977-1058 | in every run, saving_hashes_ is the disjoint union of the hashes of the operations in flight, local and remote |
| `RemoteWriteRuns.MailExact` | tpu_sync/kv_cache/kv_cache_store.cc:2001-2016 | each owner's mail reports a hash done or failed once for every one of its own offers that included it and settled so |
| `RemoteWriteRuns.MailLists` | tpu_sync/kv_cache/kv_cache_store.cc:2001-2016 | each owner's done, failed, existing and unregistered mail is its own filings' lists end to end, in filing order |
| `RemoteWriteRuns.NextPollTakes` | tpu_sync/kv_cache/kv_cache_store.cc:2019-2047 | an offer in flight is claimed by the next poll unless a running poller has it: no claim is left behind |
| `RemoteWriteRuns.FileKeepsOthersIff` | tpu_sync/kv_cache/kv_cache_store.cc:1999-2001 | finishing an offer keeps every other one in the list iff none shares its operation id |
| `RemoteWriteRuns.StrandedForever` | tpu_sync/kv_cache/kv_cache_store.cc:1999-2034 | an offer erased by another's id is never settled: in every further run its marks stay and each of its blocks keeps one pin no client holds |
| `RemoteWriteRuns.SharedIdStrands` | tpu_sync/kv_cache/kv_cache_store.cc:1999-2001 | a run from the empty store in which two destinations hand out one id and an accepted offer is stranded for ever |
| `RemoteReads.Store.MarkReading` | tpu_sync/kv_cache/kv_cache_store.cc:1337-1345 | marks in order and stops at the first hash already being read |
| `RemoteReads.MarkExact` | tpu_sync/kv_cache/kv_cache_store.cc:1337-1345 | marking succeeds iff the hashes are distinct and none is being read; otherwise it marked the prefix before the first that is |
| `RemoteReads.Store.RecordRead` | tpu_sync/kv_cache/kv_cache_store.cc:1434-1445 | emplace: a future already in the map keeps its old entry |
| `RemoteReads.Store.SettleRead` | tpu_sync/kv_cache/kv_cache_store.cc:2255-2293 | reports each hash done or failed and clears the reading marks |
| `RemoteReads.ReadingExact` | tpu_sync/kv_cache/kv_cache_store.cc:1298-1451 | in every run, reading_hashes_ is the disjoint union of the hashes of the reads in flight |
| `RemoteReads.StagingExact` | tpu_sync/kv_cache/kv_cache_store.cc:1298-1451 | in every run, the staging blocks out are the disjoint union of those calls still hold; each call's are handed back at most once, and exactly once when it was refused or is over |
| `RemoteReads.NeverLost` | tpu_sync/kv_cache/kv_cache_store.cc:1420-1445 | in every run, a read in flight is kept in the map or by a poller, and a call about to record its read holds a future that is not a key: a future is the address of a live object, and a key keeps its object alive |
| `RemoteReads.LostForever` | tpu_sync/kv_cache/kv_cache_store.cc:1434-1451 | what the address rule prevents: a read kept nowhere would never be settled, and in every further run its reading marks and staging blocks would stay taken |
| `RemoteReads.RecordTracksIff` | tpu_sync/kv_cache/kv_cache_store.cc:1434-1445 | a recorded read is visible to the pollers iff its future was not yet a key, which `NeverLost` shows is always so |
| `RemoteReads.SharedFutureLoses` | tpu_sync/kv_cache/kv_cache_store.cc:1434-1445 | what the address rule prevents: from any state of the protocol, a call handed the future of a read still in the map would lose its own read in every continuation |
| `Lookup.Backend.SweepLocal` | tpu_sync/kv_cache/host_offload_backend.cc:180-213 | the first locked phase: hits, the registry's question as exactly the holes in order, and one pin per hit |
| `Lookup.Backend.Assemble` | tpu_sync/kv_cache/host_offload_backend.cc:232-285 | the second locked phase: the answer stops at the first position nobody can answer and nowhere else, and the pins past its end are handed back |
| `Lookup.AnswerMaximal` | tpu_sync/kv_cache/host_offload_backend.cc:236-274 | a position is unanswerable iff it is a local hit that left the cache or is queued for eviction, or a hole whose number is past the registry's answers or whose record names this node |
| `Lookup.AnswerIsPrefix` | tpu_sync/kv_cache/host_offload_backend.cc:236-274 | result hashes are a prefix of the request; a local slice is the cached block; a remote slice is the registry's answer for the hash at its position |
| `Lookup.PinsExact` | tpu_sync/kv_cache/host_offload_backend.cc:276-284 | whatever ran between the phases, each hash ends with others' pins plus one per local-hit position inside the returned prefix |
| `Lookup.PinnedHitsStay` | tpu_sync/kv_cache/host_offload_backend.cc:240-252 | with pinning, the answer never ends at a local hit |
| `Lookup.LookupAlone` | tpu_sync/kv_cache/host_offload_backend.cc:154-288 | undisturbed, every count rises by the hash's local hits in the prefix and nothing else in the cache changes |
| `Lookup.AloneAnswer` | tpu_sync/kv_cache/host_offload_backend.cc:154-288 | undisturbed, the answer ends only at a hole and pins its own local hits and nothing else |
| `SweepOffers.MailOfOffer` | tpu_sync/kv_cache/kv_cache_store.cc:1691-2016 | in any run with one open offer of the sweep, its drains find nothing until the offer is settled, then exactly its filing, whole and once, then nothing |
| `SweepOffers.CallerPins` | tpu_sync/kv_cache/kv_cache_store.cc:1978-2016 | in any run, the sweep's pin on a block of its offer is gone from the clients' pins iff the offer settled well; every other change is someone else's |
| `EvictSweep.SettledInRun` | tpu_sync/kv_cache/kv_cache_store.cc:1639-1678 | in any run, of the pins on a block of a settled offer the sweep's own is given back exactly once, by the settlement or by the sweep's last release |
| `EvictSweep.WaitInRun` | tpu_sync/kv_cache/kv_cache_store.cc:1702-1741 | in any run with one open offer of the sweep, waiting on its actual drains ends at the drain that finds the filing and returns its verdict |
| `EvictSweep.EvictableKeysOldest` | tpu_sync/kv_cache/lru_cache.h:258-278 | a batch is the first unpinned keys of the eviction order, in order: all of them, or as many as asked for |
| `EvictSweep.BatchSizeExact` | tpu_sync/kv_cache/kv_cache_store.cc:1623-1632 | as many as the high watermark misses, rounded up, and at most 128 |
| `EvictSweep.OutcomeExact` | tpu_sync/kv_cache/kv_cache_store.cc:1659-1688 | an unpinned host-resident block no reader took is gone iff its target holds it, or no target was left and it was in the batch |
| `EvictSweep.TargetsExact` | tpu_sync/kv_cache/kv_cache_store.cc:1659-1688 | a target is dropped iff it refused or a transfer to it failed; the sweep goes on iff a transfer failed or something was freed |
| `EvictSweep.WaitForBatchWriteResult` | tpu_sync/kv_cache/kv_cache_store.cc:1702-1741 | drains until every block of the batch has a verdict, and no longer; the result is the tally of those drains |
| `EvictSweep.WaitExact` | tpu_sync/kv_cache/kv_cache_store.cc:1702-1741 | on mail that begins with an offer's rounds, the wait ends with the filing and not before, and returns its verdict |
| `EvictSweep.Store.Evict` | tpu_sync/kv_cache/host_offload_backend.cc:656-688 | erases exactly the listed entries that are unpinned and in host memory, and counts them |
| `EvictSweep.FinishOffer` | tpu_sync/kv_cache/kv_cache_store.cc:1659-1678 | after a settled offer the pins are as before, only done or existing blocks are evicted, and the target is dropped iff a transfer failed |
| `EvictSweep.OfferBatch` | tpu_sync/kv_cache/kv_cache_store.cc:1639-1688 | targets are tried in order; the first that does not refuse settles the batch, and it is dropped locally only when every target refused |
| `EvictSweep.OutcomeNeutral` | tpu_sync/kv_cache/kv_cache_store.cc:1639-1688 | every surviving pin count is as before; only unpinned host-resident blocks that the target holds (or, with no target left, the batch) are evicted (serves `EvictSweep.Store.SweepOnce` and `DrainPressure`) |
| `EvictSweep.OutcomeDecreases` | tpu_sync/kv_cache/kv_cache_store.cc:1639-1688 | going on means fewer targets plus host-resident entries (serves `EvictSweep.Store.SweepOnce` and `DrainPressure`) |
| `EvictSweep.DeficitExact` | tpu_sync/kv_cache/kv_cache_store.cc:1623-1626 | below the high watermark the deficit is at least one, and freeing it reaches the watermark (a companion of `EvictSweep.Store.SweepOnce`) |
| `EvictSweep.Store.SweepOnce` | tpu_sync/kv_cache/kv_cache_store.cc:1572-1689 | idle above the low watermark, over at the high one, otherwise exactly one batch of the oldest unpinned blocks; pin-neutral, and returning true strictly decreases targets plus host-resident entries |
| `EvictSweep.Store.DrainPressure` | tpu_sync/kv_cache/kv_cache_store.cc:1572-1689 | a whole episode terminates within one step per target and host-resident block, pin-neutral throughout |
| `Metadata.Table.Set` | tpu_sync/kv_cache/kv_cache_metadata.cc:136-160 | refuses a bad id, an empty or an overlong hash; otherwise performs the stores of the operation in order |
| `Metadata.Table.Clear` | tpu_sync/kv_cache/kv_cache_metadata.cc:162-169 | refuses a bad id; otherwise one store |
| `Metadata.Table.ValidEntries` | tpu_sync/kv_cache/kv_cache_metadata.cc:171-185 | lists exactly the committed bindings in block order |
| `Metadata.CrashAtomic` | tpu_sync/kv_cache/kv_cache_metadata.cc:136-185 | cut after any individual store, the table shows each operation as done, not begun, or its block without a binding |
| `Metadata.LastBegunDecides` | tpu_sync/kv_cache/kv_cache_metadata.cc:136-185 | the last operation begun on a block decides: its binding if a finished Set, nothing otherwise |
| `Metadata.NeverTorn` | tpu_sync/kv_cache/kv_cache_metadata.cc:136-185 | for every table, run and crash point: an untouched block keeps its binding and a touched one shows the last committed Set or nothing |
| `Metadata.Region.Format` | tpu_sync/kv_cache/kv_cache_metadata.cc:71-89 | makes an empty table and the header, leaves slots past it alone, refuses an unusable region |
| `Metadata.Region.Attach` | tpu_sync/kv_cache/kv_cache_metadata.cc:91-130 | accepts iff the region is usable and the header matches magic, version, entry size, block count and model id |
| `Metadata.FormatAttach` | tpu_sync/kv_cache/kv_cache_metadata.cc:71-130 | a formatted region attaches under its own id iff the id has no NUL, and under no other block count or id |
| `Metadata.NulIdRefused` | tpu_sync/kv_cache/kv_cache_metadata.cc:71-130 | a region formatted under the one-byte id NUL refuses that id and accepts the empty one (an input for `Metadata.FormatAttach`) |
| `Metadata.EmptyTable` | tpu_sync/kv_cache/kv_cache_metadata.cc:71-89 | a formatted table has no binding |
| `Recovery.NewestOfTable` | tpu_sync/kv_cache/host_offload_backend.cc:570-578 | the map binds each hash to its highest-stamp binding (ties to the lower block) and nothing else |
| `Recovery.Backend.Recover` | tpu_sync/kv_cache/host_offload_backend.cc:559-618 | inserts each newest binding once in ascending stamp order, resumes the counter, clears the stale entries; an empty table or a refused allocation changes nothing |
| `Recovery.CleanedTable` | tpu_sync/kv_cache/host_offload_backend.cc:607-615 | afterwards the table holds exactly the recovered bindings, one per hash |
| `Recovery.RecoverAgain` | tpu_sync/kv_cache/host_offload_backend.cc:607-615 | recovery after a crash at any point of the clearing recovers the same bindings |
| `Recovery.CounterResumes` | tpu_sync/kv_cache/host_offload_backend.cc:599-605 | the counter resumes above every recorded stamp, stale ones included, iff none has reached 2^64-1 (where it wraps) |
| `Recovery.LastStampWraps` | tpu_sync/kv_cache/host_offload_backend.cc:599-605 | a table holding the stamp 2^64-1 resumes the counter at zero, below that stamp (an input for `Recovery.CounterResumes`) |
| `Recovery.Backend.SetEntry` | tpu_sync/kv_cache/host_offload_backend.cc:1224-1239 | binds a host-resident block under the next stamp, spent even when the table refuses |
| `Recovery.Backend.ClearEntry` | tpu_sync/kv_cache/host_offload_backend.cc:1241-1254 | unbinds a host-resident block |
| `Recovery.SetKeepsStamped` | tpu_sync/kv_cache/host_offload_backend.cc:1224-1254 | stamps stay distinct and below the counter (serves `Recovery.LivesKeepStamped`) |
| `Recovery.RecoveryKeepsStamped` | tpu_sync/kv_cache/host_offload_backend.cc:599-615 | recovery keeps stamps distinct and below the resumed counter unless it wrapped |
| `Recovery.CrashRecoversLatest` | tpu_sync/kv_cache/host_offload_backend.cc:559-618 | from any table stamped below the counter, a run of Set and Clear with later stamps, cut after any store, recovers each hash to the binding set last among the survivors |
| `Recovery.LivesKeepStamped` | tpu_sync/kv_cache/host_offload_backend.cc:559-618 | after any number of processes, each cut off in its recovery or after it, stamps are distinct and below the counter the next one resumes with |
| `Recovery.LivesRecoverLatest` | tpu_sync/kv_cache/host_offload_backend.cc:559-618 | across any number of crashes and recoveries, the binding recovered for a hash is the one set last, by the latest process that set one of the survivors |
| `Recovery.ResumedExact` | tpu_sync/kv_cache/host_offload_backend.cc:599-605 | the counter computed from the chosen bindings is the one above all recorded stamps |
| `TransferProgram.NormalizeReshardProgram` | tpu_sync/core/transfer_program_reshard.cc:55-133 | accepts iff the program is normal, names the executor by role, and tells unsupported from invalid |
| `TransferProgram.CompileStartTransfer` | tpu_sync/core/transfer_program_reshard.cc:135-222 | succeeds iff the request has pool fields; the program's moves are the schedules by ascending rank in entry order |
| `TransferProgram.LowerToStartTransfer` | tpu_sync/core/transfer_program_reshard.cc:224-303 | succeeds iff fan-in, one extent per move, block ids fit int32; groups the moves by rank in order |
| `TransferProgram.LowerCompile` | tpu_sync/core/transfer_program_reshard.cc:135-303 | lowering a compiled request gives it back without empty schedules and layer chunk counts |
| `TransferProgram.LowerCompileSame` | tpu_sync/core/transfer_program_reshard.cc:135-303 | the request comes back unchanged iff no schedule is empty and it carries no layer chunk counts |
| `TransferProgram.ChunkCountsLost` | tpu_sync/core/transfer_program_reshard.cc:135-303 | a concrete request that loses its layer chunk counts |
| `TransferProgram.CompileLower` | tpu_sync/core/transfer_program_reshard.cc:135-303 | compiling a lowered program sorts its moves stably by rank and resets kind, fingerprint, deadline, role and memory references |
| `TransferProgram.CompileLowerSame` | tpu_sync/core/transfer_program_reshard.cc:135-303 | a normal program comes back with its moves stably sorted and nothing else changed iff its kind is set and it has no fingerprint, deadline or memory type |
| `TransferProgram.DeadlineLost` | tpu_sync/core/transfer_program_reshard.cc:224-303 | a concrete normal program that loses its deadline |
| `TransferProgram.NormalCompiles` | tpu_sync/core/transfer_program_reshard.cc:224-303 | a normal program lowers iff its block ids fit int32, and then compiles back (a companion of `TransferProgram.CompileLower`) |
| `TransferProgram.RoundTripIdempotent` | tpu_sync/core/transfer_program_reshard.cc:135-303 | a second round trip changes nothing |
| `TransferProgram.CompilesUnique` | tpu_sync/core/transfer_program_reshard.cc:189-195 | the program does not depend on the map's iteration order |
| `TransferProgram.StableSortUnique` | tpu_sync/core/transfer_program_reshard.cc:186-220 | a rank-sorted list with the same per-rank sublists is unique |
| `TransferProgram.CompileKeepsBytes` | tpu_sync/core/transfer_program_reshard.cc:135-222 | the compiled program copies exactly the bytes the request copies: same rank, peer, shard, group, blocks and offsets |
| `TransferProgram.LowerKeepsBytes` | tpu_sync/core/transfer_program_reshard.cc:224-303 | the lowered request copies exactly the bytes the program copies |
| `TransferProgram.DeriveSenderSourceBlockIds` | tpu_sync/core/transfer_program_reshard.cc:305-315 | the distinct source blocks in ascending order |
| `TransferProgram.DeriveArmChipBlockIds` | tpu_sync/core/transfer_program_reshard.cc:317-326 | the groups' destination blocks concatenated in order |
| `TransferProgram.DerivedInvariant` | tpu_sync/core/transfer_program_reshard.cc:305-326 | both derived lists survive compiling and lowering |
| `CopySpecs.CoalesceMajorDimCopies` | tpu_sync/kv_cache/kv_cache_manager_base.cc:121-141 | merges each copy into the last run or starts a new one |
| `CopySpecs.CoalescedExpands` | tpu_sync/kv_cache/kv_cache_manager_base.cc:121-141 | coalescing copies the same blocks in the same order (sizes not negative) |
| `CopySpecs.CoalescedFixed` | tpu_sync/kv_cache/kv_cache_manager_base.cc:121-141 | a list is a fixed point iff nothing in it can be merged |
| `CopySpecs.BuildCoalescedCopySpec` | tpu_sync/core/kv_cache_manager_with_transfer.cc:326-355 | scanning ahead gives what merging one block at a time gives; refuses lists of different lengths |
| `CopySpecs.Offsets` | tpu_sync/core/kv_cache_manager_with_transfer.cc:294-318 | packing one side gives the same runs as pairing the ids with 0, 1, 2, ... |
| `CopySpecs.BuiltSpec` | tpu_sync/core/kv_cache_manager_with_transfer.cc:326-355 | the runs expand to exactly the given pairs in order, are maximal, and are a fixed point of coalescing |
| `CopySpecs.CoalescedInBounds` | tpu_sync/kv_cache/kv_cache_manager_base.cc:1996-2023 | the byte bounds check passes on the coalesced list iff it passes on every original copy |
| `CopySpecs.BoundsExact` | tpu_sync/kv_cache/kv_cache_manager_base.cc:1996-2023 | for runs of at least one block, the check passes iff every block pair copied ends inside both buffers |
| `LoadPlan.AssignStaging` | tpu_sync/core/kv_cache_manager_with_transfer.cc:1531-1564 | fails iff the distinct device blocks exceed the slot or no slot is free; else two positions share a staging block iff they share a device block |
| `LoadPlan.StableSortIndices` | tpu_sync/core/kv_cache_manager_with_transfer.cc:376-383 | the positions in ascending key order, ties in original order |
| `LoadPlan.ListUploads` | tpu_sync/core/kv_cache_manager_with_transfer.cc:403-420 | lists each device block once in ascending order with its staging block, or reports a block with two |
| `LoadPlan.BuildLoadCopyPlan` | tpu_sync/core/kv_cache_manager_with_transfer.cc:357-425 | succeeds iff the lists have one length and equal device blocks are staged alike; the plan pulls in remote order and uploads in device order |
| `LoadPlan.LoadDelivers` | tpu_sync/core/kv_cache_manager_with_transfer.cc:357-425 | whatever order the pulls arrive in, each requested device block ends with the remote block requested for it and no other device block changes, if positions sharing a staging block ask for one remote block |
| `LoadPlan.SharedStagingLoses` | tpu_sync/core/kv_cache_manager_with_transfer.cc:357-425 | remote blocks 1 and 2 for device blocks 0 and 1, both staged in block 5: the plan is built, and does not deliver |
| `LoadPlan.LoadDeliversIff` | tpu_sync/core/kv_cache_manager_with_transfer.cc:357-425 | an accepted plan delivers from every memory and in every pull order iff positions that share a staging block ask for the same remote block |
| `PipelinedPromise.TransferPipelinedState.SetError` | tpu_sync/kv_cache/kv_cache_manager_base.cc:161-179 | undisturbed: records the first error and fulfils the promise unless fulfilled |
| `PipelinedPromise.TransferPipelinedState.MarkChunkComplete` | tpu_sync/kv_cache/kv_cache_manager_base.cc:181-198 | undisturbed: counts the chunk, and the last one fulfils an unfulfilled promise |
| `PipelinedPromise.SetErrorAlone` | tpu_sync/kv_cache/kv_cache_manager_base.cc:161-179 | a failing chunk whose atomic steps no other interrupts does exactly what SetError does |
| `PipelinedPromise.MarkChunkCompleteAlone` | tpu_sync/kv_cache/kv_cache_manager_base.cc:181-198 | a finishing chunk whose atomic steps no other interrupts does exactly what MarkChunkComplete does |
| `PipelinedPromise.StepKeeps` | tpu_sync/kv_cache/kv_cache_manager_base.cc:143-201 | every atomic step of every chunk keeps the invariant |
| `PipelinedPromise.SetOnce` | tpu_sync/kv_cache/kv_cache_manager_base.cc:143-201 | in every interleaving the promise is set at most once; an error is the first recorded; success only if nothing failed and every chunk is counted |
| `PipelinedPromise.SetWhenDone` | tpu_sync/kv_cache/kv_cache_manager_base.cc:923-973 | once every chunk has been marked the promise is set, with an error iff some chunk failed |
| `PipelinedPromise.LastChunkNeverReportsError` | tpu_sync/kv_cache/kv_cache_manager_base.cc:185-192 | the failure branch of the last chunk is never taken: every error has been reported before |

## Left out

- BlockChunks.GetBlockChunks: only the branch for a registered plan with a known sender is modelled.
  A push header always carries its sender's node id as an unsigned number
  (`tpu_sync/transport/block_transport.cc:413-417`), so a push does not reach the search over ranks;
  without a plan a block is addressed whole, with no schedule to agree on.
- Delivery.DeliveredByte: the transport is a step that delivers a pair's gathered bytes to the
  receiver's chunk list; sockets, framing and the 32-bit size field are not part of this model.
- Delivery.ChunksInside: stated from the per-repeat conditions; `PlanChecks.AcceptedChunks` derives
  it, with int64 bounds, from what the two ends check. The sender's own pools need not expand,
  because the sender only checks that a span fits its block or regions.
- PlanChecks.ValidatePoolReshardPlan: device attachments and storage sizes are not part of this
  model. A group that names a pool the manager does not have is refused, where the code reads that
  pool before it has checked the groups against the declared pools.
- PushStreams.ExpectedPushes: a sender pushes with the parallelism its receiver's plan declares;
  that both ends get the same value is the coordinator's doing.
- PlanChecks.AcceptedValid: that receiver pools lie apart in memory and that a peer stands for one
  shard is what placement gives (`Placed`); no check of the code establishes it.
- PoolSpecs.ValidatePool: names and tags, which must not be empty, are not modelled.
- PlanChecks.AcceptedChunks: stated for pools registered when the size of their storage was known
  (`SpecOk`); registration does not bound the end of a pool whose storage is not known yet.
  Addresses are relative to the start of the storage.
- PoolLayout.ExpandPoolLiveSegments: layout arithmetic is over unbounded integers; the registration
  checks, the strided-span test and the chunk addresses of accepted plans are bounded by int64.
- PoolReshardRecv.Manager.Arm: one step here; the code checks for the uuid and inserts the entry in
  two locked sections, with the plan registered between them, so two concurrent armings of one uuid
  are not modelled.
- PoolReshardRecv.Manager.CompleteReadRaw: the legacy layer-by-layer read path and its staging-slot
  free list are not part of this model. That a receive is settled as the one-receive machine settles
  it is stated for a request id no other active receive shares; result sets hold request ids, so
  receives that share one are reported as one.
- PoolReshardRecv.SettlesEach: the same condition on request ids.
- PoolReshardRecv.SingleOutcome: a uuid is armed once; reuse of a uuid is not modelled.
- PoolReshardSend.Manager.CompleteReadRaw: the legacy send entries are not part of this model.
- RemoteWriteRuns.SettledOnce: callers keep the pin a save consumes until the save settles, as the
  interface asks of them.
- RemoteWriteRuns.NeverLost: operation ids are distinct among live operations, without which it is
  false (see above).
- RemoteWrites.Backend.Pin: pinning an eviction candidate also takes it off the candidate list; only
  the pin counts are modelled here.
- RemoteReads.NeverLost: that the controller makes a new future for every read
  (`tpu_sync/core/controller/raiden_controller.cc:820-1005`), compared by the address of its object
  (`tpu_sync/kv_cache/kv_cache_store.h:592-602`), is the enabling condition of the step that hands
  it over; memory allocation itself is not modelled.
- EvictSweep.WaitInRun: the sweep has one offer open at a time, as its one thread does; everything
  else in the run is free.
- EvictSweep.Store.SweepOnce: the order of the cache is a parameter, since pinning and unpinning
  reorder it; watermark ratios are real numbers.
- Recovery.Backend.Recover: the cache is the list of insertions; a cache smaller than the table,
  which would demote the oldest entries, is not modelled.
- Recovery.LivesRecoverLatest: no process stamps an entry with 2^64-1, after which the counter wraps
  (see above).
- Metadata.NeverTorn: the stores of an operation reach the table in program order. The release store
  that hides a slot does not by itself keep the later plain stores behind it; that the compiler and
  the machine keep them there is an assumption.
- Metadata.CrashAtomic: the same assumption on the order of the stores.
- Metadata.Region.Format: the region is a header and an array of slots rather than bytes; endianness
  is not modelled.
- TransferProgram.CompileStartTransfer: presence of empty submessages is not modelled; optional
  scalar fields keep their presence.
- CopySpecs.CoalescedInBounds: products of block counts and block sizes are over unbounded integers.
- `GetPoolPushProgressSpec`, the pending list of `PollSaveStatus` and the grouping of a read by peer
  read state and decide nothing in the protocols above.
- Multi-tier lookup and insert, write-through registration of local saves, and the loads path share
  the pin, mark and mailbox rules proved here and add a second tier to them.
- PJRT and device DMA, shared-memory mapping, host allocators, NUMA pinning, gRPC, metrics, Python
  bindings and benchmarks.

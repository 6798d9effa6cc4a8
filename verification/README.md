# Model of the AMD RAID NVMe driver

This project models the parts of the driver on which user data depends, and proves properties of
them for every input, every run or every reachable state.  Protocols are state machines over the
single accesses to shared state that the C code makes; code that updates structures in place is a
class whose methods equal the steps of those machines; loops over arrays are methods with
invariants, proved against functions whose properties are proved separately.

| files | part of the driver |
|---|---|
| `Mirror`, `MirrorShape`, `MirrorExclusion`, `MirrorData`, `MirrorSafety`, `MirrorRaces`, `MirrorStop`, `MirrorStopRace`, `MirrorLate`, `MirrorTimeout`, `MirrorProgress`, `MirrorVolume` | the RAID1/RAID10 member states, application writes through the rebuild gate, and the rebuild thread, interleaved; a stopped thread that still runs, a copy command that lands late, a write the timeout handler ends |
| `Striping`, `MapLba` | the per-sector map, its inverse, and the choice of a copy to read |
| `FanOut`, `FanOutWalk`, `FanOutDispatch`, `FanOutRead`, `Discard` | the fast forms: one command per member for a request of many stripes |
| `Prp`, `FanOutPrp` | the PRP builder, the controller's reading of PRPs, and which lists of the fan-outs they can express |
| `Ring`, `RingSync`, `RingHeard`, `RingQueue` | submission and completion rings, two consumers, the synchronous command |
| `FinishStatus`, `Completion`, `CompletionVolume`, `CompletionPdu`, `CompletionHandler` | who ends a request, how often, and with which status |
| `AsyncContext`, `AsyncEngine`, `AsyncPump`, `AsyncEvict`, `ResyncJob` | the asynchronous mirror completion engine and its rebuild pump |
| `ConfigScan`, `Config`, `ConfigDisk`, `ConfigFormat`, `ConfigImage`, `ConfigRound`, `ConfigMkmeta` | the on-disk configuration: parser, image writer, round trip |
| `ParityField`, `ParityBlocks` | the GF(2^8) tables and the P and Q parities |
| `Common` | the datatype and the few functions that several of these share |

## Where the code falls short of what it says

Each of these is a lemma with a concrete run or input, beside the exact condition under which the
property does hold.

- A dispatch that snapshots the write mask before a rebuild starts and passes the gate after it ends
  misses the promoted copy (`MirrorRaces.StraddlingDispatch`).
- The last chunk is copied from a survivor that may have failed since it was picked
  (`MirrorRaces.SurvivorFailsAfterPick`), or that is about to be marked failed, because the write
  generation is given back before the status is computed (`MirrorRaces.ErrorReportedAfterDrain`).
- A rebuild stopped in its drain and started again waits on the wrong bucket
  (`MirrorRaces.RestartAfterInterruptedDrain`).
- A rebuild can be started while a stopped one still runs, because `rc_volume_resync_stop` clears
  `rc_volume_resync_thread` before the thread has ended; the old thread, done with its copy, opens
  the new one's window (`MirrorStopRace.StartBesideLeaver`).  For the same reason a
  member can be detached under a thread that still writes to it (`MirrorStopRace.DetachBesideLeaver`).
  With no start and no detach beside a stopped thread, everything proved of one thread holds
  (`MirrorStop.Shadows`).
- A copy WRITE that timed out is forgotten but not aborted: landing after its chunk's window has moved
  on, it overwrites acknowledged data (`MirrorLate.LateCopyOverwrites`); landing while the chunk is
  copied again it does no harm (`MirrorLate.InTimeCopiesHoldLastWrite`).
- A request that the timeout handler ends itself marks nobody failed: a member that erred stays live
  beside a copy that took the write, with other contents (`CompletionHandler.ErringMemberStaysLive`,
  `CompletionHandler.UnmarkedIffByHandler`, `MirrorTimeout.LiveCopiesDisagree`).
- A RAID10 volume whose capacity is not a whole number of rows is rebuilt incompletely
  (`Striping.RebuildCoversVolumeIff`).
- A RAID10 READ over several stripes of a healthy volume can read sectors it was not asked for
  (`FanOutRead.AlternatingReadIsWrong`, `FanOutRead.ReadRightIff`).
- `rc_ld_level_from` has no level for type 0x1BF6 with counts 1 x 2, which src/rc_linux.h:711-712
  documents as RAID1; an image written as RAID1 is not assembled (`Config.GenericLevels`,
  `ConfigMkmeta.Raid1ImageHasNoLevel`).
- The product of a record's two counts is a u32: a stripe width of 2^31 + 1 over two devices passes
  for RAID10 (`Config.WrappedProduct`, `Config.GenericLevels`).
- The u32 test for the last chunk of the configuration walk fails on a generation longer than
  2^32 - 2048 bytes (`ConfigDisk.LastChunkTestIff`), its position wraps without end on one longer
  than 2^32 - 1024 bytes (`ConfigScan.WalkEndsIff`), and so does the u32 chunk length of the rebuild pump on a range of 2^32 sectors
  or more (`ResyncJob.FinishesIff`).
- One report more than promised reaps an asynchronous context twice
  (`AsyncEngine.ExtraReportReapsTwice`); an abort that carries OK ends its parent OK
  (`AsyncEngine.AbortOkEndsOk`).
- The graveyard of 256 tombstones frees a context whose last report is still on its way to the claim
  when another 256 contexts are reaped meanwhile (`AsyncEvict.LateClaimTouchesFreed`).
- A job cut short by a thread stop is reported as done (`ResyncJob.StopReportsDone`).
- A synchronous command can return the status of another one that timed out exactly 256, 512, ...
  calls earlier (`RingSync.OwnStatusIffCidFree`).
- The PRP builder rejects a later entry that starts inside a page, but not an earlier entry that ends
  inside one (`Prp.DecodeIff`); the block layer's boundary promise rules that out
  (`Prp.MergedIsExpressible`).
- A request over several stripes whose first sector is not as far into its page as its memory is can
  leave a member a list that PRPs cannot express, and is refused with an I/O error
  (`FanOutPrp.UnalignedStartIsRefused`, `FanOutPrp.MultiStripeIff`).

## Model

| member | source | states |
|---|---|---|
| `MirrorExclusion.CopyExcludesWrites` | src/rc_nvme.c:3751-3788 | in every interleaving of any number of writers with the rebuild thread, over rebuilds that begin after the bucket of an interrupted drain has emptied, no admitted WRITE or DISCARD that has not ended overlaps the chunk while it is read and written, although the two buckets are reused by parity |
| `MirrorExclusion.StepKeepsGen` | src/rc_nvme.c:5711-5793 | a request past its re-check is counted in the current generation or in the one being drained; if in the current one during drain and copy, it has missed the published window |
| `MirrorShape.StepKeepsShape` | src/rc_nvme.c:227-382 | every step of writes, member errors, resets, removals, re-adds and rebuilds keeps the live and write masks equal to what the member states say, in-flight writes disjoint, and the two generation counters equal to the counted requests not yet ended |
| `MirrorShape.MemberAlone` | src/rc_nvme.c:333-382 | a failure, removal, re-plug or reset takes the member out of both masks and leaves every other member alone |
| `MirrorShape.MemberBecomes` | src/rc_nvme.c:2914-2995 | the state each event leaves the member in: FAILED for a failure unless it was parked already, FAILED and still attached for a removal, gone after a detach, NEEDS_RESYNC with the content it brings after a re-plug, NEEDS_RESYNC after a reset |
| `MirrorShape.ReturnedCanBeRebuilt` | src/rc_nvme.c:6782-6823 | a member that came back by re-plug or reset can be rebuilt at once if no rebuild runs and a live copy of what it stores is there |
| `MirrorShape.ChunkIsLongest` | src/rc_nvme.c:5620-5681 | a chunk of the rebuild ends at 256 sectors, at its stripe or at the end of the member, whichever is first |
| `MirrorProgress.UndisturbedRebuildCompletes` | src/rc_nvme.c:5580-5844 | from every consistent state with a parked member, a live copy of it and no write under way, some run of the rebuild thread makes the member LIVE with the content of that copy and leaves every other member as it is |
| `MirrorData.SettleKeepsCopy` | src/rc_nvme.c:3829-4003 | once every member of a write has answered, each current copy without an error of its own holds the data of the write |
| `MirrorSafety.LiveCopiesHoldLastWrite` | src/rc_nvme.c:610-666 | in every state reachable under the schedule hypotheses, every LIVE copy of a sector with no write in flight holds the last acknowledged data, through failures, drains, resets, removals, re-adds and rebuilds |
| `MirrorSafety.CompleteRebuildIsEqual` | src/rc_nvme.c:5620-5799 | a rebuild whose cursor reached the total leaves its target equal to the last write, and to every live copy, on every sector of its column that no request covers, with application writes running throughout |
| `MirrorSafety.EndedWriteSurvives` | src/rc_nvme.c:5815-5844 | however members fail, leave, return and rebuild after a write has ended, every copy that is LIVE then still returns its data |
| `MirrorSafety.LiveOnlyThroughRebuild` | src/rc_nvme.c:5946-6002 | under any schedule at all, a member that is not LIVE and later is has been promoted in between by a rebuild whose cursor reached the total |
| `MirrorStop.Shadows` | src/rc_nvme.c:5892-5905 | a run in which rebuilds are stopped at any moment, and the stopped thread takes its remaining steps at any later one, is a run of the one-thread machine step for step, as long as no rebuild is started and no member detached beside a stopped thread |
| `MirrorStop.StaysSane` | src/rc_nvme.c:5892-5905 | in such runs every step is possible and leaves both views of the volume consistent: the runs spoken of leave none out |
| `MirrorStop.StoppedCopyExcludesWrites` | src/rc_nvme.c:5892-5905 | in such runs at most one thread is running, and no admitted write that has not ended overlaps the chunk it reads and writes |
| `MirrorStop.StoppedCopiesHoldLastWrite` | src/rc_nvme.c:5892-5905 | in such runs, under the schedule hypotheses, every LIVE copy of a sector with no write in flight holds the last acknowledged data |
| `MirrorStopRace.StartBesideLeaver` | src/rc_nvme.c:5946-6002 | with every other hypothesis kept, one start beside a stopped thread on a two-column RAID10 volume ends with a LIVE member that holds old data |
| `MirrorStop.EndpointsArePresent` | src/rc_nvme.c:6386-6392 | under any schedule of requests and failures in which no rebuild is started and no member detached beside a stopped thread, one thread runs at a time and the members it copies between are present as long as it does |
| `MirrorStopRace.DetachBesideLeaver` | src/rc_nvme.c:5892-5905 | without that, a second removal finds no thread to stop, and its member departs while the stopped thread has its buffer still to write to it |
| `MirrorLate.LateCopyOverwrites` | src/rc_nvme.c:1936-1946 | every hypothesis kept, a first copy command that timed out lands after its target is LIVE and a write is acknowledged: a LIVE copy loses the write |
| `MirrorLate.InTimeCopiesHoldLastWrite` | src/rc_nvme.c:5711-5793 | with any number of copy commands timed out, LIVE copies hold the last acknowledged data as long as each forgotten sector lands while its chunk is being copied again, ahead of that copy, or never |
| `MirrorTimeout.CopiesAgreeIff` | src/rc_nvme.c:5080-5084 | of two LIVE copies of a sector, one that took a write and one that erred, the handler's end leaves both LIVE, and equal exactly if the erring one stored the sector after all; the end by the count takes it out |
| `MirrorTimeout.LiveCopiesDisagree` | src/rc_nvme.c:5080-5084 | a run to such an end: two LIVE copies with different contents and no request in flight |
| `MirrorRaces.StraddlingDispatch` | src/rc_nvme.c:3839-3840 | without the hypothesis that no dispatch straddles the start of a rebuild, a run loses an acknowledged write on a LIVE copy |
| `MirrorRaces.SurvivorFailsAfterPick` | src/rc_nvme.c:5642-5793 | without the hypothesis that the survivor is still live after the drain, a run promotes a target that holds old data |
| `MirrorRaces.ErrorReportedAfterDrain` | src/rc_nvme.c:919-929 | the same loss with a survivor still LIVE at the end of the drain: the generation count goes down before the survivor's error is acted on |
| `MirrorRaces.RestartAfterInterruptedDrain` | src/rc_nvme.c:5718-5724 | without the queue freeze after a stop in mid-drain, a second rebuild overwrites a write that was in flight all along |
| `Mirror.PickSurvivor` | src/rc_nvme.c:5559-5578 | the copy to read from is live, present, of the target's column and not the target, and there is none exactly when no such member exists |
| `Mirror.Raid1Sound` | src/rc_nvme.c:5679-5681 | the RAID1 layout meets what the protocol needs of a layout |
| `Mirror.Raid10Sound` | src/rc_nvme.c:5661-5678 | the RAID10 layout does so for a member size of whole stripes: the cursor formula names the logical sector stored at the cursor, and a chunk is one logical range |
| `MirrorVolume.MirrorSet.MarkMemberFailed` | src/rc_nvme.c:333-382 | the member leaves both masks and is FAILED, unless it was parked and stays so; every other member is as before |
| `MirrorVolume.MirrorSet.SetMemberState` | src/rc_nvme.c:227-270 | the same for an explicit state change |
| `MirrorVolume.MirrorSet.ReAdd` | src/rc_nvme.c:2914-2995 | a re-plugged member of a mirrored volume is attached again, out of both masks and NEEDS_RESYNC, with whatever content it brings; every other member is as before, and with an idle thread and a copy to read from a rebuild of it can start |
| `MirrorVolume.MirrorSet.Recovered` | src/rc_nvme.c:6782-6823 | a controller back from reset is attached, out of both masks and NEEDS_RESYNC, with its content as it was |
| `MirrorVolume.MirrorSet.GateCount` | src/rc_nvme.c:3764-3768 | one access of the gate: the counter of the generation read earlier goes up |
| `MirrorVolume.MirrorSet.GateRecheck` | src/rc_nvme.c:3768-3771 | the seqlock re-check: on a changed generation the count is taken back and the gate starts over |
| `MirrorVolume.MirrorSet.GateReadWindow` | src/rc_nvme.c:3777-3787 | admitted exactly when the request misses the published window; otherwise the count is given back and the request returned |
| `MirrorVolume.MirrorSet.FinishRequest` | src/rc_nvme.c:658-666 | every erring member is marked failed as the request ends, by a loop equal to the one-step specification |
| `MirrorVolume.MirrorSet.FindSurvivor` | src/rc_nvme.c:5559-5578 | the scan returns what the specification picks |
| `MirrorVolume.MirrorSet.StartRebuild` | src/rc_nvme.c:5946-6002 | the scan over the slots: the first parked, present member with a survivor is taken, and none exactly when no rebuild may start |
| `MirrorVolume.MirrorSet.Gate` | src/rc_nvme.c:3751-3788 | the whole gate with nobody interfering: admitted exactly when the request misses the window, then counted once under the current generation; turned away it leaves no trace |
| `MirrorVolume.MirrorSet.CopyChunk` | src/rc_nvme.c:5726-5797 | one whole chunk with nobody interfering: the target holds the survivor's sectors there, every other sector is as before, and the cursor is past them |
| `MirrorVolume.MirrorSet.PublishChunk` | src/rc_nvme.c:5620-5717 | head of the copy loop: end, abort, or publish the window of the next chunk |
| `MirrorVolume.MirrorSet.PollDrain` | src/rc_nvme.c:5719-5724 | the drain ends exactly when its bucket reads zero |
| `MirrorVolume.MirrorSet.WriteSector` | src/rc_nvme.c:5760-5792 | one sector of the chunk lands on the target, nothing else changes |
| `MirrorVolume.MirrorSet.Promote` | src/rc_nvme.c:5815-5844 | the target becomes LIVE only if it is still RESYNCING; else both bits are taken back |
| `Striping.LogicalOfMap` | src/rc_nvme.c:5674-5678 | the rebuild's cursor-to-logical formula inverts the map |
| `Striping.MapOfLogical` | src/rc_nvme.c:2457-2468 | the map inverts the cursor-to-logical formula |
| `Striping.RowColumn` | src/rc_nvme.c:2457-2468 | the layout in rows and columns: stripes count along the rows, and a column packs its stripes one row after the other |
| `Striping.MapIsBijection` | src/rc_nvme.c:2489-2575 | with a user size of whole stripes the map is a bijection from the volume onto columns times user sectors |
| `Striping.RebuildCoversVolumeIff` | src/rc_nvme.c:5910-5917 | rebuilding capacity / columns sectors of a member covers every sector of the volume if and only if there is one column or the capacity is a whole number of rows |
| `Striping.NestedAgrees` | src/rc_nvme.c:7317-7352 | rc_amd_map_nested_raid10 agrees with the dispatch map |
| `Striping.ChunkIsContiguous` | src/rc_nvme.c:5652-5681 | a chunk capped at its stripe boundary is one contiguous logical range, as one window can describe |
| `MapLba.VolumeMap.Serves` | src/rc_nvme.c:279-299 | true exactly when every logical sector has a live copy |
| `MapLba.CanServeIff` | src/rc_nvme.c:279-299 | the volume can serve if and only if every logical sector is stored by a live member |
| `MapLba.VolumeMap.NthSetBit` | src/rc_nvme.c:2514-2522 | the scan with a countdown returns the n-th live member, for every n below their number |
| `MapLba.RoundIsFair` | src/rc_nvme.c:2512-2522 | wherever the counter starts, each turn of it names exactly one live member, and as many turns as there are live members visit every one of them |
| `MapLba.ChosenServes` | src/rc_nvme.c:2544-2560 | whenever the volume can serve, the copy a RAID10 read takes is live and stores the sector |
| `MapLba.PairAlternates` | src/rc_nvme.c:2544-2551 | two reads in a row of a whole pair go to both copies |
| `MapLba.SectorIsOwn` | src/rc_nvme.c:2489-2575 | the sector a member keeps x at keeps nothing else: the inverse map leads from it to x |
| `MapLba.Packed` | src/rc_nvme.c:2566-2574 | the stripe arithmetic computes column and sector of the map |
| `MapLba.VolumeMap.Map` | src/rc_nvme.c:2489-2575 | whenever the volume can serve, the member is live and stores the sector, and the address is that sector behind the member's user-data offset; RAID1 takes the live members in turn, a whole RAID10 pair alternates, and nothing else moves the counter |
| `FanOut.AppendKeepsBytes` | src/rc_nvme.c:3381-3397 | merging into a scatter list loses no byte, reorders none, keeps the list as short as the addresses allow, and reports a full list exactly when they need more entries |
| `FanOut.CountAgainstRank` | src/rc_nvme.c:3448-3512 | between any two sectors of a request a member gets no more sectors than its column stores, and as many exactly when it skips none |
| `FanOut.ExactIffNoGap` | src/rc_nvme.c:3448-3512 | one start LBA and one length per member place every sector where the per-sector map does and touch nothing else, if and only if no sector of the column is dealt past the member between two that it got |
| `FanOutWalk.Walk` | src/rc_nvme.c:3448-3512 | the two nested loops over the memory fragments: accepted exactly when every fragment is whole sectors, every sector has a target and every list has room; each member then has the start, length and memory of what it was dealt |
| `FanOutDispatch.MultiStripe` | src/rc_nvme.c:3417-3528 | RAID0 READ and WRITE, any fragment split, stripe, member count and range: accepted exactly under the conditions listed; each member's one command joins to each of its sectors exactly the memory the per-sector map names, and is as long as its list, which fits its array |
| `FanOutDispatch.ColumnIsRefined` | src/rc_nvme.c:2566-2574 | a fan-out that looks at the column alone refines the per-sector map |
| `FanOutDispatch.Raid0Touched` | src/rc_nvme.c:3514-3521 | at least two members have data exactly when the request reaches a second member |
| `FanOutDispatch.Raid10Write` | src/rc_nvme.c:4060-4149 | every write-eligible copy gets one command that refines the map of its column and is as long as its list, every other member none |
| `FanOutRead.Raid10Read` | src/rc_nvme.c:4087-4149 | the READ walk as coded, a copy picked per piece and one start per member: accepted exactly under the conditions listed; every sector is then read from one live copy of its column, and each command is as long as its list |
| `FanOutRead.DrawIsChosen` | src/rc_nvme.c:4094-4110 | a piece goes to the copy that a single-stripe read with the same counter takes, and to none if no copy is live |
| `FanOutRead.ReadRightIff` | src/rc_nvme.c:4094-4110 | the commands of an accepted READ fill every sector from where the map says if and only if no column's picks come back to a copy they left |
| `FanOutRead.DegradedReadsRight` | src/rc_nvme.c:4094-4110 | with at most one live copy in every column READ is always right |
| `FanOutRead.AlternatingReadIsWrong` | src/rc_nvme.c:4094-4110 | on a healthy two-column volume a READ of four pages is accepted and sent to sectors it does not name |
| `Discard.BelowRank` | src/rc_nvme.c:3664-3692 | rank is the inverse of the cursor-to-logical formula in the order of sectors |
| `Discard.MemberExtentExact` | src/rc_nvme.c:3664-3692 | the closed form of one member, with every u32 it stores into, is precisely the set of physical sectors its stripes own in the range, and none of the u32s overflows |
| `Discard.MultiStripeDiscard` | src/rc_nvme.c:3644-3698 | an exact range for each RAID0 member |
| `Discard.Raid10Discard` | src/rc_nvme.c:4271-4332 | an exact range for each write-eligible copy; refused only when no eligible copy owns a sector of the request |
| `Discard.OwnedIffRange` | src/rc_nvme.c:4294-4326 | a member has a range exactly when it owns a sector of the request |
| `Prp.DecodeIff` | src/rc_nvme.c:3200-3254 | decoding PRP1, PRP2 and the list as NVMe 1.4, section 4.3 prescribes gives back exactly the bytes of the scatter list if and only if no entry but the last ends inside a page |
| `Prp.EncodedByBytes` | src/rc_nvme.c:3200-3254 | of every list PRPs can express: PRP1 is the address of the first byte; PRP2 is 0 within one page, the address of the first byte of the second page within two, and the list's address beyond; entry j of the list is the address of the first byte of page j + 1, and there are as many as the bytes need |
| `Prp.WalkIff` | src/rc_nvme.c:3218-3246 | the controller's walk over the driver's pages reads the scatter list if and only if every inner boundary is a page boundary |
| `Prp.BuildPrp` | src/rc_nvme.c:3200-3254 | rejects exactly the lists with a later entry that starts inside a page, and writes PRP1, PRP2 and the list of every other |
| `Prp.ListFitsPage` | src/rc_nvme.c:441-442 | a transfer of at most 256 entries and 1 MiB needs at most the 512 entries of one list page |
| `Prp.MergedIsExpressible` | src/rc_nvme.c:3381-3397 | fragments that join or part at page boundaries merge into a list the controller reads back byte for byte |
| `FanOutPrp.MemberListIff` | src/rc_nvme.c:3448-3512 | a member's list, merged from what it was dealt of any request, can be expressed as PRPs if and only if every skip in what it was dealt leads from the end of a page to the start of one, or to the next byte |
| `FanOutPrp.MultiStripeIff` | src/rc_nvme.c:3417-3528 | that condition for the commands of every accepted RAID0 request; stripes of whole pages, with memory placed in its pages as the sectors are, always meet it |
| `FanOutPrp.UnalignedStartIsRefused` | src/rc_nvme.c:3213-3218 | sectors 124 to 256 over two members with 64 KiB stripes, in page-aligned memory: accepted by the fan-out, and the builder refuses the list of member 0 |
| `Ring.StepKeepsInv` | src/rc_nvme.c:1783-1828 | sq_inflight is the slots reserved plus the commands whose completion is unconsumed, below the depth; both rings hold exactly their pending entries at the right places, with the right phase |
| `Ring.PhaseBitTellsIff` | src/rc_nvme.c:784-792 | the phase bit at the head differs from the expected one exactly when the controller has posted nothing new, and otherwise the entry there is the oldest unconsumed one (NVMe 1.4, section 4.6) |
| `Ring.NothingOverwritten` | src/rc_nvme.c:1812-1828 | the tail never lands on an unfetched submission, and no posting on an unconsumed completion (NVMe 1.4, section 4.1.2) |
| `Ring.CountNeverClamped` | src/rc_nvme.c:1798-1806 | the guards against counting below zero are never needed |
| `Ring.RingsAreFifo` | src/rc_nvme.c:784-910 | in every run from a reset the controller reads the submissions in order, handler and poller together take the completions in order and none twice, and once nothing is in flight every command has been consumed exactly once |
| `RingSync.OwnStatusIffCidFree` | src/rc_nvme.c:1842-1955 | in every continuation of an accepted synchronous call a status it returns is that of its own completion, if and only if no outstanding command carries its CID when it is armed |
| `RingHeard.ConsumedIsHandedOver` | src/rc_nvme.c:784-910 | in every run from a reset, a waiting caller whose own completion has been consumed, by the handler or by its own poll loop, returns at its next look |
| `RingHeard.ConsumedIsHeard` | src/rc_nvme.c:1842-1955 | of every call made while its CID is free, in every continuation without a timeout: once its completion is consumed, its status has been returned or is returned by the next look |
| `RingHeard.PolledIsSync` | src/rc_nvme.c:1893-1934 | the poll loop never takes a completion of the block layer |
| `RingSync.CidFreeWhenRecent` | src/rc_nvme.c:1873-1876 | the CID is free whenever fewer than 256 calls have been made since the oldest outstanding one |
| `RingQueue.IoQueue.Reserve` | src/rc_nvme.c:1783-1796 | reserved exactly when n slots are left, and nothing else changes |
| `RingQueue.IoQueue.Submit` | src/rc_nvme.c:1812-1828 | the entry is written at the tail of the array, the tail moves on by one, round the end |
| `RingQueue.IoQueue.ArmSync` | src/rc_nvme.c:1865-1880 | refused exactly when no slot is left; otherwise slot, CID and handshake are set in one step |
| `RingQueue.IoQueue.Irq` | src/rc_nvme.c:784-910 | the handler's loop takes every posted completion in order, gives back as many slots, and leaves the head where the phase bit says stop; a waiting caller whose completion was among them is left with its handshake satisfied |
| `RingQueue.IoQueue.Poll` | src/rc_nvme.c:1893-1934 | one look of the poll loop: the handler's claim with its status, or a head entry in the synchronous range, which moves the head on by one, or nothing |
| `FinishStatus.Finish` | src/rc_nvme.c:610-666 | the loop over the columns computes the specification |
| `FinishStatus.OkIffDurable` | src/rc_nvme.c:610-666 | with every outcome in, a request ends OK if and only if what it asked for is durable: one surviving copy in every redundancy group a mirrored WRITE, DISCARD or FLUSH went to, every member otherwise; whatever the status, on a mirrored level exactly the members that failed are marked, and on any other nobody is |
| `Completion.StepKeepsInv` | src/rc_nvme.c:868-890 | every atomic operation of handlers, drain and timeout keeps the countdown equal to the members not counted, the errors exact, and one holder at most of the right to end |
| `Completion.EndedOnceAndTrue` | src/rc_nvme.c:4838-4883 | however handlers, drain and timeout interleave, each (request, member) completion is counted once, the request is ended at most once, and an end by the count has the status of FinishStatus.OkIffDurable |
| `Completion.OkMeansDurable` | src/rc_nvme.c:4838-4883 | whoever ends the request, with the count or past it: an end with OK was by the count, what was asked for is durable on members whose controllers reported success, and every other member of the request is marked failed |
| `Completion.OnlyErringAreMarked` | src/rc_nvme.c:610-666 | however the actors interleave, no member that succeeded is ever marked failed, and on a level without redundancy nobody is |
| `Completion.SmoothEndsOk` | src/rc_nvme.c:868-890 | with success from every member and none dead, a request ended by the count ends OK and marks nobody, in every interleaving |
| `CompletionHandler.UnmarkedIffByHandler` | src/rc_nvme.c:5080-5084 | however the actors interleave, a member that erred on an ended request of a mirrored volume is left unmarked if and only if a handler ended the request and not the count |
| `CompletionHandler.ErringMemberStaysLive` | src/rc_nvme.c:5035-5039 | a WRITE to two pairs in which one member is dead and one errs, ended by the handler between that member's acknowledgement and its count: its partner holds the data, and neither is marked |
| `Completion.QuietMeansEnded` | src/rc_nvme.c:4976-5085 | with every completion consumed and nobody between two operations, the request has been ended exactly once and its generation released |
| `CompletionVolume.CountersAreUnended` | src/rc_nvme.c:3128-3139 | in every run over any number of requests the two generation counters are exactly the counted requests not yet released, and no ended request is among them |
| `CompletionPdu.Pdu.ConsumeCqe` | src/rc_nvme.c:838-890 | one completion in the handler is a run of the atomic steps; it wins the request exactly when it counted down to zero unclaimed |
| `CompletionPdu.Pdu.DrainIter` | src/rc_nvme.c:4838-4883 | the drain of one request is such a run, counts exactly the dead members not yet acknowledged and marks them as errors |
| `CompletionPdu.Pdu.UnmapAndFinish` | src/rc_nvme.c:3128-3139 | the winner releases the generation once and ends with the status computed |
| `AsyncContext.MergeAllIsWorst` | src/patch_async_worker.c:390-434 | the aggregate of any reports is one of them and none is worse |
| `AsyncContext.AggregateIsGraded` | src/patch_async_worker.c:390-434 | what worst means, by the statuses themselves: the aggregate is a retry status only if every failure is one, a shortage of zones, space or reservation only if no failure is worse than that, a device status only if no report is a plain I/O error or an unknown one |
| `AsyncContext.MergeAllOkIff` | src/patch_async_worker.c:425-434 | no failure is masked: OK exactly when everything merged was OK |
| `AsyncEngine.StepKeeps` | src/patch_async_worker.c:479-691 | every critical section keeps each context's countdown, its one endio owner and its one reap, and registry and graveyard lists in order |
| `AsyncEngine.EndedOnceReapedOnce` | src/patch_async_worker.c:502-643 | each registered parent is ended at most once, its context leaves the registry at most once, freed memory is never touched, live contexts and reaps under way equal inflight, tombstones stay at most 256 |
| `AsyncEngine.OkMeansEverythingOk` | src/patch_async_worker.c:663-691 | a parent ends OK only if its dispatch was clean, no abort or drain claimed it and every promised report arrived and was OK |
| `AsyncEngine.ParentGetsWorst` | src/patch_async_worker.c:597-691 | in every careful run a parent is ended with the worst of its dispatch status and all promised reports; aborted, with the worst of those in and the abort's status; without a context, with Resource |
| `AsyncEngine.NothingForgotten` | src/patch_async_worker.c:561-643 | once every promised report is in and nobody is on the way, the parent has been ended and the context has left the registry |
| `AsyncEngine.ExtraReportReapsTwice` | src/patch_async_worker.c:611-642 | one report more than promised leads to two reaps |
| `AsyncEngine.AbortOkEndsOk` | src/patch_async_worker.c:905-911 | an abort that carries OK ends its parent OK with no report in |
| `AsyncEvict.LateClaimTouchesFreed` | src/patch_async_worker.c:525-541 | a run that keeps every hypothesis up to the 257th reap, which evicts a context whose last report has still to claim; the claim then touches freed memory |
| `AsyncEngine.PurgeEmpties` | src/patch_async_worker.c:1763-1812 | after the purge nothing is registered and every reap is accounted for |
| `AsyncPump.CompletionEngine.QueueCompletion` | src/patch_async_worker.c:725-790 | a registered context, or a parent already ended with the stated status; nothing in between |
| `AsyncPump.CompletionEngine.MirrorComplete` | src/patch_async_worker.c:818-863 | equal to its step; late reports go to the straggler path, the last owed one on to claim |
| `AsyncPump.CompletionEngine.CompletionWork` | src/patch_async_worker.c:597-643 | equal to its step; the status is the aggregate at retirement |
| `AsyncPump.CompletionEngine.ContextReap` | src/patch_async_worker.c:502-540 | equal to its step, eviction of the oldest tombstone included |
| `AsyncPump.CompletionEngine.DrainForceAll` | src/patch_async_worker.c:1712-1740 | claims exactly the live contexts nobody owns yet |
| `AsyncPump.CompletionEngine.ContextPurge` | src/patch_async_worker.c:1763-1812 | frees exactly what is registered and the tombstones |
| `ResyncJob.OneJobAndNoStuckBrake` | src/patch_async_worker.c:1377-1502 | at most one job is pending or running; an idle pump accepts every sensible request until shutdown begins, so no cancel outlives its job |
| `ResyncJob.DoneMeansPartitioned` | src/patch_async_worker.c:1169-1287 | a job that ends done without a thread stop issued chunks that partition its range in order, and bytes is 512 times its sectors |
| `ResyncJob.ChunkIsLongest` | src/patch_async_worker.c:1200-1200 | a chunk is never longer than asked for nor past the end, and shorter than asked for only at the end |
| `ResyncJob.CancelIsReported` | src/patch_async_worker.c:1185-1287 | a job told to stop in the middle of its range issues nothing more, is reported as cancelled, and leaves the brake off |
| `ResyncJob.CoversOnce` | src/patch_async_worker.c:1196-1230 | a sector of the range lies in exactly one chunk |
| `ResyncJob.StopReportsDone` | src/patch_async_worker.c:1185-1195 | a thread stop ends a job as done with its range unfinished |
| `ResyncJob.FinishesIff` | src/patch_async_worker.c:1200-1200 | the copy loop can reach the end of a range if and only if the range is shorter than 2^32 sectors |
| `ResyncJob.ResyncRun` | src/patch_async_worker.c:1169-1234 | the loop, whenever it ends at all: every turn before the last issued its chunk, and together they partition the range up to the cursor; the last turn found, in this order, the end of the range, a thread stop, the brake, or an error of the media layer, and the result says which |
| `ConfigScan.ChunkedIsLinearIff` | src/rc_nvme.c:2286-2443 | for any parser that only finds more in more bytes, the overlapping-chunk scan finds what one linear scan finds if and only if the record found ends within the chunk that accepts its tag |
| `ConfigScan.WalkEndsIff` | src/rc_nvme.c:2286-2300 | the walk with its u32 position ends if and only if the generation is at most 2^32 - 1024 bytes |
| `Config.ChunkedFindsIff` | src/rc_nvme.c:2286-2443 | for every generation, the driver's scan finds what one linear scan finds if and only if the latter finds nothing, or fields and element array of its record end in the chunk that accepts the tag |
| `Config.ChunkedIsLinear` | src/rc_nvme.c:2144-2145 | with tagged records that fit the 1 KiB overlap, for a generation of any length, the two scans find the same first record |
| `ConfigDisk.ParsedIsLinear` | src/rc_nvme.c:2144-2145 | what the driver reads from such a generation, header check included, is the record of one linear scan |
| `ConfigRound.PrintedIsSmall` | scripts/qemu-test/mkmeta.py:167-226 | every printed generation is such a generation, with exactly two tagged records in it |
| `ConfigRound.PrintedIsLinear` | scripts/qemu-test/mkmeta.py:167-226 | so the driver's scan of it and one linear scan both read back the array record |
| `Config.ParseAgrees` | src/rc_nvme.c:2340-2440 | bytes beyond those read have no part in a parsed record |
| `ConfigFormat.ParseIff` | src/rc_nvme.c:2340-2440 | a record is taken if and only if it has the tag, its fixed part and its elements were read, and it names this disk among two to eight devices; its position is that of the first element that does |
| `ConfigFormat.FieldsComeFrom` | src/rc_nvme.c:2340-2440 | the offset of every field read from a record and its element |
| `ConfigFormat.StripeOf` | src/rc_nvme.c:2709-2745 | RAID1 has a granule of 512 sectors whatever is on disk; else a chunk size on disk wins over the index, and an index without a meaning counts as 128 sectors |
| `Config.GenericLevels` | src/rc_nvme.c:2155-2180 | of records with type 0x1BF6 and any u32 counts, exactly which are recognized and as which level, the product taken modulo 2^32; 1 x 2 is not |
| `Config.MirrorLevels` | src/rc_nvme.c:2155-2180 | type 0x1BF7 is RAID1 if and only if there are two devices and the counts are absent or 1 x 2; it is never RAID0 or RAID10 |
| `Config.OtherTypes` | src/rc_nvme.c:2155-2180 | a record of any other type has no level |
| `Config.WrappedProduct` | src/rc_nvme.c:2155-2180 | counts 2^31 + 1 and 2 of two devices are taken for RAID10 |
| `ConfigDisk.ScanGeneration` | src/rc_nvme.c:2286-2443 | the walk over chunks in one reused buffer returns what the specification finds on the disk, whatever the buffer held before; with unreadable chunks it returns that or nothing |
| `ConfigDisk.LastChunkTestIff` | src/rc_nvme.c:2288-2292 | of the whole-sector generation lengths, the u32 test for the last chunk is right at every chunk if and only if the length is at most 2^32 - 2048: the lengths ScanGeneration and ParseLogicalDevice are about |
| `ConfigDisk.ParseLogicalDevice` | src/rc_nvme.c:2255-2451 | the whole parse equals the specification on the disk's content |
| `ConfigDisk.CommitOf` | src/rc_nvme.c:2194-2243 | an accepted commit names a non-empty whole-sector extent inside the ring |
| `ConfigFormat.CommitIff` | src/rc_nvme.c:2194-2243 | a commit block is accepted if and only if it names a non-empty extent of whole sectors inside the ring and carries a timestamp, and then read as it is |
| `ConfigFormat.MetadataIff` | src/rc_nvme.c:2013-2075 | a metadata block is refused if and only if its magic is not RAIDCore, its version is not 3.0 or its checksum does not match, in this order |
| `ConfigFormat.RecordIff` | src/rc_nvme.c:2255-2451 | a disk yields a record if and only if ring and commit block are named, the commit is accepted, the generation carries its timestamp and the scan finds one |
| `ConfigDisk.OnlyTheCommittedExtent` | src/rc_nvme.c:2194-2451 | two disks with the same metadata, commit sector and committed extent give the same record, whatever else is in their rings |
| `ConfigDisk.ChecksumLoop` | src/rc_nvme.c:1977-2011 | the checksum loop over the buffer computes the checksum function |
| `ConfigFormat.ChecksumStep` | src/rc_nvme.c:1977-2011 | each round XORs one lane of the word into each lane of the sum, the lane chosen by the low bits of both |
| `ConfigFormat.LaneBytes` | src/rc_nvme.c:1977-2011 | a lane is two bytes of the word, the low one first |
| `ConfigRound.PrintedParses` | scripts/qemu-test/mkmeta.py:167-226 | in a printed generation the raw-disk record is passed over, no other word passes for a record, and the array record is read back |
| `ConfigMkmeta.Raid0RoundTrip` | scripts/qemu-test/mkmeta.py:239-330 | every RAID0 image set of 2 to 8 members and any size below 2^32 sectors passes magic, version and checksum on every member and parses to the level, position, capacity, chunk and user-data offset it was made with, whatever the rest of the ring holds |
| `ConfigMkmeta.Raid1ImageHasNoLevel` | scripts/qemu-test/mkmeta.py:157-164 | a RAID1 image set reads back the same way, but the driver finds no level in it |
| `ConfigMkmeta.ImageReadsBack` | scripts/qemu-test/mkmeta.py:239-330 | each member of an image set reads back exactly the array record, at its own position |
| `ConfigMkmeta.MetadataReadsBack` | scripts/qemu-test/mkmeta.py:142-154 | the printed metadata block passes validation with the fields it was printed from |
| `ConfigFormat.WriterStamps` | scripts/qemu-test/mkmeta.py:96-111 | the identities and timestamps an image set is stamped with, and zeros where nothing is printed |
| `ConfigMkmeta.BuildMetadata` | scripts/qemu-test/mkmeta.py:123-154 | pack_into and the checksum loop print that block |
| `ConfigMkmeta.BuildGeneration` | scripts/qemu-test/mkmeta.py:219-226 | header, records and padding are the words specified |
| `ConfigMkmeta.BuildCommit` | scripts/qemu-test/mkmeta.py:229-236 | the commit block is the words specified |
| `ConfigMkmeta.BuildMember` | scripts/qemu-test/mkmeta.py:239-330 | what is written to a member is what the round trip starts from, and a decoy generation of the other level that ends before the active one |
| `ConfigMkmeta.DecoyWouldBeFound` | scripts/qemu-test/mkmeta.py:291-308 | a scan of the ring that took the first array record would take the decoy, and read a capacity different from the set's |
| `ConfigImage.BuildRecord` | scripts/qemu-test/mkmeta.py:167-216 | a record and its element array are the words specified, zero elsewhere |
| `ParityField.InitTables` | src/patch_parity_math.c:38-64 | exp holds the powers of alpha, log inverts it, mul holds the products by alpha |
| `ParityField.AlphaRoot` | src/patch_parity_math.c:26-31 | alpha is a root of x^8 + x^4 + x^3 + x^2 + 1: the field is that of 0x11D |
| `ParityField.OrderIs255` | src/patch_parity_math.c:38-64 | no smaller power of alpha than the 255th is 1 |
| `ParityField.PowersDistinct` | src/patch_parity_math.c:38-64 | the first 255 powers are different |
| `ParityField.HasLog` | src/patch_parity_math.c:38-64 | every nonzero byte is one of them, so exp is a bijection onto the nonzero bytes |
| `ParityField.ProductIsTimes` | src/patch_parity_math.c:67-72 | the log/exp product by a power of alpha is repeated multiplication by alpha |
| `ParityField.ProductLinear` | src/patch_parity_math.c:67-72 | the log/exp product is linear over XOR in either argument |
| `ParityBlocks.Raid5Parity` | src/patch_parity_math.c:77-94 | block by block in place, the parity buffer ends with the XOR of all data blocks |
| `ParityBlocks.Raid6Parity` | src/patch_parity_math.c:113-148 | byte by byte, the buffers end with P and Q of all data blocks |
| `ParityBlocks.SumsOfOne` | src/patch_parity_math.c:105-108 | a drive d alone gives P its byte and Q its byte times alpha^d |
| `ParityBlocks.SumsLinear` | src/patch_parity_math.c:105-108 | P and Q of the XOR of two stripes are the XOR of their P and Q; with the row before, this fixes both |
| `ParityBlocks.TwoLostIff` | src/patch_parity_math.c:113-148 | for any number of data drives and any block length, P and Q determine lost data blocks x and y if and only if x and y differ modulo 255 |
| `ParityBlocks.TwoLostUpTo255` | src/patch_parity_math.c:113-148 | up to 255 data drives, any two lost blocks are determined |
| `ParityBlocks.OneLostBlock` | src/patch_parity_math.c:77-94 | P alone, and Q alone, determines one lost data block |
| `ParityBlocks.HiddenDifference` | src/patch_parity_math.c:113-148 | with 256 drives or more, two different stripes have the same P and Q |

## Left out

Hypotheses of the theorems and limits of the model:

- Memory ordering: every access is one sequentially consistent atomic step; the individual barriers are not justified.
- Member transitions: `rc_volume_member_mark_failed`, `rc_volume_member_set_state` and the promotion block are single steps.
- Overlapping application writes are not in flight together; a completed member write is on the media.
- MirrorSafety.LiveCopiesHoldLastWrite: holds for schedules in which a rebuild starts with no request inside the gate and no count left in the other bucket, and ends a drain with its survivor still live and not owing an error on the chunk; the four runs of `MirrorRaces` break one of these each.  One thread at a time; for stopped threads see `MirrorStop.StoppedCopiesHoldLastWrite`.
- MirrorExclusion.CopyExcludesWrites: a rebuild stopped in mid-drain is followed by the queue freeze of src/rc_nvme.c:6447-6463 before the next one starts; without it see `MirrorRaces.RestartAfterInterruptedDrain`.  It speaks of one thread; for stopped threads that still run see `MirrorStop.StoppedCopyExcludesWrites`.
- MirrorStop.StoppedCopyExcludesWrites: for schedules in which no rebuild is started and no member detached while a stopped thread still runs; without that see `MirrorStopRace.StartBesideLeaver` and `MirrorStopRace.DetachBesideLeaver`.  One stopped thread at a time.
- MirrorStop.StoppedCopiesHoldLastWrite: under the same condition.
- MirrorVolume.MirrorSet.StartRebuild: the thread is created; on a failure of kthread_run the slot is parked again.
- MirrorSafety.CompleteRebuildIsEqual: as LiveCopiesHoldLastWrite, for copy commands that have no effect after they timed out; with such effects see `MirrorLate`.  The late command carries the data it was sent with.
- A write that the timeout handler ends is not a step of `Mirror`, whose writes all end by the count; `MirrorTimeout` says what it leaves behind.
- A DISCARD is a write of the same data to every copy; FLUSH changes no data.
- Mirror.Raid10Sound: needs a member size of whole stripes, as `Striping.RebuildCoversVolumeIff` shows.
- FanOutWalk.Walk: the byte and sector counters are unbounded; requests are at most 2048 sectors, far from their u32 limit.  Mapping for DMA and the reservation of slots are not part of the fan-out.
- FanOutDispatch.MultiStripe: the branch for a member index that disagrees with `rc_volume_map_lba` cannot be reached and is not modelled.
- MapLba.RoundIsFair: for a counter that does not wrap during the round.
- `rc_volume_map_lba` before assembly, when the stripe or the column count is zero, returns the fallback of the code and promises nothing.
- Ring.RingsAreFifo: between two resets, with no slot held across a reset; one synchronous caller per queue, as src/rc_nvme.c:1842-1955 assumes.
- Completion.EndedOnceAndTrue: one lifetime of a tag; a controller disabled by the drain posts no later completion, so a reused tag meets none of its predecessor's.  The batch of 16 requests in the handler and the soft-interrupt path end a request the same way and are not told apart.  Requests that `rc_volume_queue_rq` fails before any submission claim themselves and involve no member.
- The retry limits of the timeout handler and the choice of the members it declares dead are not modelled: it may claim at any moment.
- AsyncEngine.EndedOnceReapedOnce: at most the promised number of reports arrives before a context is a tombstone; a tombstone evicted from the graveyard has had its endio and nobody is on the way to it.  A report to a tombstone is one step.
- AsyncEngine.OkMeansEverythingOk: an abort carries a failure; without that see `AsyncEngine.AbortOkEndsOk`.
- The kernel's numeric block status values are not part of this model; ranks are.
- ResyncJob.ResyncRun: for a range of 2^32 sectors or more a turn on which something other than the end of the range ends the loop is given, since by `ResyncJob.FinishesIff` it never ends otherwise.
- ConfigDisk.ScanGeneration: for generations of at most 2^32 - 2048 bytes; on exactly the longer ones the u32 test for the last chunk fails (`ConfigDisk.LastChunkTestIff`) and the position wraps in mid-walk, and on one of them the walk never ends (`ConfigScan.WalkEndsIff`).
- ConfigDisk.ParseLogicalDevice: for a committed extent of the same lengths.  A failed read ends the walk without a record.
- ConfigMkmeta.Raid0RoundTrip: holds whatever the ring holds outside the committed extent, the decoy included.

Not modelled:

- PCI probe, registers, interrupt vectors, controller bring-up, Identify, power management, queue creation.
- blk-mq, kthread, workqueue and DMA internals, beyond their contracts.
- Volatile caches, FUA and power loss.
- sysfs, debugfs, the ioctl bridge, logging, the console program and the decompiled extracts.
- The RAID5/6 distributed mappers of src/patch_parity_math.c:187-274, which return the logical address and are not wired into dispatch.
- Chunk routing and member choice in the asynchronous pump (src/patch_async_worker.c:1102-1140) and `rc_amd_handle_transient_retry`.

# Read-ahead, from the page lock to the free list

This project models the parts of three programs that carry their hardest guarantees, and proves those
guarantees for every input, run or interleaving:

- **readaround-split**, kernel code under study for splitting a 128 KB read-around into two requests: the
  page-lock wait/wake protocol, fault-around mapping and page-cache read-ahead of the memory side, and on the block
  side the way of a bio through split, chain, merge, dispatch and completion.
- **prefetch-sim**, a simulator of buffer pools (FIFO ring, LRU timestamps) and prefetchers (fixed and adaptive
  read-ahead, read-around).
- **mini-malloc**, a first-fit allocator with an explicit free list.

`dafny verify dfyconfig.toml` checks everything.

## How it is laid out

| file | what it is |
|---|---|
| `PageLock.dfy` | the lock protocol as a step machine: lock and waiters bits, wait queue, per-task flags, wake walk |
| `LockReturns.dfy`, `StaleWake.dfy` | what the return value of a wait means, over whole runs; when a shared wait returns 0 with its bit set throughout |
| `LockProgress.dfy` | its liveness without signals: a measure that every step lowers |
| `BioChain.dfy` | completion of chained bios, status write and counter decrement as separate steps; bio_endio on top |
| `Segments.dfy` | what a device accepts as one request, said without loops; cutting vectors |
| `BioSplit.dfy` | bvec_split_segs and bio_split_io_at against that |
| `SplitSubmit.dfy` | get_max_io_size with the 256-sector hook, bio_split, and resubmission until nothing is left |
| `Requests.dfy` | requests as values: merges, partial completion, all runs |
| `RequestList.dfy` | the same in memory: one table of requests with disjoint bio chains, re-linked and consumed in place |
| `Dispatch.dfy` | list dispatch, direct issue, plug flushing against arbitrary driver answers |
| `RqChains.dfy` | the in-place sorting of a plug's linked list by queue |
| `Pipeline.dfy` | split, chain, request and completion together, end to end |
| `FifoPool.dfy`, `Prefetch.dfy` | the FIFO ring, the two read-ahead prefetchers, the hit theorems |
| `FifoHistory.dfy` | the FIFO pool as the last blocks of its history: hits of any trace, from any state |
| `LruPool.dfy`, `ReadAround.dfy`, `LocalityWalk.dfy` | the LRU pool, read-around, inclusion, the bounded walk |
| `GapReadahead.dfy`, `LargeFolios.dfy` | page_cache_ra_unbounded and page_cache_ra_order |
| `FaultAround.dfy` | filemap_map_folio_range |
| `FreeList.dfy` | the allocator, on values and on headers in memory |
| `Chains.dfy` | singly linked lists in memory |
| `Align.dfy`, `Sectors.dfy`, `Lists.dfy`, `Options.dfy` | multiples and rounding without division; the sector size; occurrences and distinctness in sequences; an option type |

Code that computes a value is a function; code that updates fields, arrays or links is a class or a method proved
against a specification function, and the theorems are about that function. Protocols are step machines: `Enabled`,
`Do`, runs, an invariant kept by each step, and theorems about every reachable state. Automatic induction is switched
off on every lemma: each induction is a recursive call in its body.

## Where the code and its promises differ

- **Signals and wakeups.** A waiter that leaves the wait loop on a signal and is then chosen as the one exclusive waiter
  to wake returns -EINTR without trying the bit and passes the wakeup to nobody (`PageLock.SignalCanStrand`). Wakeups are
  lost only so (`PageLock.WakeupsAreNotLost`).
- **Waits that do not take the bit.** A shared wait can return 0 although its bit was set during all of the call: an
  unlock from before, still on its way to the queue, wakes it (`StaleWake.StaleMoment`). `StaleWake.StaleWakeIff` gives
  the exact condition; otherwise the bit was clear during the call (`LockReturns.ZeroMeansClear`).
- **Errors of siblings.** __bio_chain_endio tests the parent's status and writes it in two steps, so of two failing
  children the later write can replace the first error (`BioChain.LateWriteOverwrites`), exactly when it lost that race
  (`BioChain.OverwriteIsRace`). An error is never replaced by success.
- **Part-sector completions.** `__sector` moves by whole sectors of each completion, so completing 256 and then 768
  bytes leaves it one behind the head bio (`Requests.PartSectorsDrift`); `Requests.CompletionIsAdditive` gives the exact
  condition. Drivers complete whole sectors.
- **The 256-sector hook** returns 128 without looking at max_sectors or chunk_sectors, and its front half can cross a
  chunk boundary (`SplitSubmit.HookCrossesChunk`). The halves are within the device limits exactly when these leave room
  for 128 sectors where the bio begins (`SplitSubmit.HalvesWithinDevice`); with that room where the hook can fire, every
  piece of every submission is (`SplitSubmit.DeviceLimits`).
- **Resident blocks in the FIFO pool** keep their place when prefetched again, so a run over stale blocks can miss
  although its window fits (`Prefetch.StaleResidentMisses`). The closed hit counts are for runs that reach no resident
  block; for any other trace `FifoHistory.HitIsRecentPush` and `FifoHistory.ResidentHit` say which accesses hit.
- **Huge allocations.** my_malloc hands sbrk a size_t that it reads as signed: from 2^63 - 32 bytes on, a request that
  finds no free block lowers the break (`FreeList.HugeRequestOverlaps`). `FreeList.ApplyKeeps` is an equivalence with
  exactly that case excluded.

## What is assumed of code outside these files

- get_max_segment_size takes at least one byte, and as many of those offered as fit from that address on. A vector that
  ends within max_fast_segment_size of the start of its page is one segment; segment boundaries and maximum sizes are
  otherwise arbitrary (`Segments.BoundaryQueue`). Masks are given by the set of numbers that pass them.
- bio_inc_remaining sets BIO_CHAIN and adds one; bio_advance drops a byte prefix; a bio's vectors are not empty.
- rq_mergeable and bio_mergeable are false under REQ_NOMERGE. Every other reason against a merge is the free parameter
  `fits`, or the freedom of a run not to take the step.
- __wake_up_locked_key walks the queue in order and stops on a negative result or after one exclusive wake.
- sbrk fails or returns the break or an address above it; rand() is any sequence of numbers.
- The driver's answers are arbitrary; a queue_rqs driver leaves what it does not take in order.

## Model

| member | source | states |
|---|---|---|
| `PageLock.InvStep` | readaround-split/src/mm/filemap.c:1134-1379 | every step of every task (try-lock, wait, sleep, signal, grab, finish, unlock, each part of the wake walk) keeps the queue and bucket-lock shape, the ownership of every set bit, and the wakeup invariant |
| `PageLock.InvRun` | readaround-split/src/mm/filemap.c:1134-1379 | so does every interleaving, of any length, of any number of tasks on any number of folios and bits that share one wait queue |
| `PageLock.AtMostOneOwner` | readaround-split/src/mm/filemap.c:1245-1379 | two exclusive callers never both hold a successful return for the same bit |
| `PageLock.ReturnsZeroIffOwner` | readaround-split/src/mm/filemap.c:1358-1379 | an exclusive call that has returned returned 0 if and only if the bit was set on its behalf and not cleared since; -EINTR never owns a bit, even when a hand-off raced with the signal |
| `PageLock.SetBitHasOneClaimant` | readaround-split/src/mm/filemap.c:1134-1183 | no set bit is leaked: each has exactly one claimant, which has returned 0 or is bound to |
| `PageLock.ClaimIsKept` | readaround-split/src/mm/filemap.c:1232-1243 | no step but the claimant's own unlock ends a claim: a hand-off is never undone or stolen |
| `PageLock.WakeupsAreNotLost` | readaround-split/src/mm/filemap.c:1185-1211 | in every reachable state, for every unwoken waiter the waiters bit stands and its bit is set or somebody is going to try it (an unlocker before or in its walk, or a woken exclusive waiter still in the loop), unless, since the bit was last set, an exclusive waiter that left the loop on a signal was woken in its place |
| `PageLock.NoSignalNoLostWakeup` | readaround-split/src/mm/filemap.c:1268-1347 | in every run without a signal, for every unwoken waiter the waiters bit stands and its bit is set or somebody is going to try it |
| `PageLock.SignalCanStrand` | readaround-split/src/mm/filemap.c:1312-1320 | the exception is real: a concrete run in which a waiter that left on a signal is chosen as the one to wake, returns -EINTR, and another sleeps on with the bit clear and nobody going to try it |
| `PageLock.RequeuesAreBounded` | readaround-split/src/mm/filemap.c:1268-1274 | an exclusive waiter goes back to `repeat` at most sysctl_page_lock_unfairness times, and from then on any wake it gets carries WQ_FLAG_DONE |
| `LockReturns.UninterruptedReturnsZero` | readaround-split/src/mm/filemap.c:1310-1379 | over whole runs: a call, shared, drop or exclusive, that took no signal of its own never returns -EINTR |
| `LockReturns.ZeroMeansClear` | readaround-split/src/mm/filemap.c:1358-1379 | over whole runs: if a shared or drop wait returns 0, its bit was clear at some moment since the call began, unless somebody who had cleared it earlier was still on the way to the queue when the call began |
| `StaleWake.StaleWakeIff` | readaround-split/src/mm/filemap.c:1145-1167 | the exception, exactly, for a call made while the bucket lock is free: some run returns 0 with the bit set throughout if and only if the bit is set, somebody who cleared it before is on the way to the queue, and no sleeping exclusive waiter for it that cannot be interrupted is queued |
| `StaleWake.StaleMoment` | readaround-split/src/mm/filemap.c:1190-1198 | such moments are reachable: one task has unlocked, another has locked again, and a third is about to wait |
| `LockReturns.BarrenWalkClears` | readaround-split/src/mm/filemap.c:1200-1209 | a walk that begins when nobody in the queue waits for its folio clears the waiters bit, whatever others do meanwhile |
| `LockProgress.InternalRunEnds` | readaround-split/src/mm/filemap.c:1268-1356 | every step of the protocol itself (no new call, no signal) lowers a measure, so any schedule of such steps is finite |
| `LockProgress.MovesUntilDrained` | readaround-split/src/mm/filemap.c:1505-1513 | as long as no signal has carried a wakeup away, some step of the protocol is enabled until every caller is back, every bit clear and the queue empty |
| `LockProgress.SignalFreeIsUndisturbed` | readaround-split/src/mm/filemap.c:1312-1347 | after a signal-free run no wakeup has been carried away, and whoever is on the way out was woken and, if exclusive, has the bit |
| `LockProgress.SignalFreeRunsDrain` | readaround-split/src/mm/filemap.c:1245-1379 | liveness: from any such state, whatever the scheduler does, the protocol's own steps come to an end, and end only when every caller is back, every bit is clear and nobody is queued |
| `BioChain.InvStep` | readaround-split/src/block/bio.c:331-368 | allocation, chaining, an error noted on a bio that is only partly done, completion, the counter decrement, and the separate test and write of the status each keep the counters equal to what is still awaited and the statuses justified |
| `BioChain.InvRun` | readaround-split/src/block/bio.c:1731-1808 | so does every interleaving of them |
| `BioChain.CounterIsPositive` | readaround-split/src/block/bio.c:1740-1750 | the BUG_ON on __bi_remaining cannot fire, and a child always finds its parent waiting |
| `BioChain.EndsAfterMembers` | readaround-split/src/block/bio.c:1767-1808 | end_io runs at most once, only at an unchained bio, and only after the own I/O of every bio chained to it, directly or not, has completed and reported |
| `BioChain.StatusIsExact` | readaround-split/src/block/bio.c:331-340 | the status end_io sees is nonzero if and only if some completion of the own I/O of some member of its tree carried an error |
| `BioChain.StatusIsReported` | readaround-split/src/block/bio.c:331-340 | over runs from nothing: the status end_io sees is an error if and only if the run reports one for a member of its tree, and it is then one of the errors reported there |
| `BioChain.OneErrorReachesTop` | readaround-split/src/block/bio.c:331-340 | if all failing completions in a tree carry the same error, that is the status end_io sees |
| `BioChain.FoundErrorStays` | readaround-split/src/block/bio.c:335-336 | a child that finds an error in its parent never writes over it |
| `BioChain.OverwriteIsRace` | readaround-split/src/block/bio.c:335-336 | a child that found no error writes over one if and only if the status of the parent was written between its look and its write |
| `BioChain.LateWriteOverwrites` | readaround-split/src/block/bio.c:335-336 | such a race is real: a reachable state in which error 20 is about to replace error 10 in the parent |
| `BioChain.FailureHasSource` | readaround-split/src/block/bio.c:331-340 | an error status anywhere can be traced to a member whose own I/O failed |
| `BioChain.EndsExactlyOnce` | readaround-split/src/block/bio.c:1767-1808 | when every completion has arrived and no climb is under way, each unchained bio has had exactly one end_io call and each chained one none |
| `BioChain.CompletionTerminates` | readaround-split/src/block/bio.c:1767-1795 | any order of completion steps on n bios is over after at most 6n of them, not counting errors noted on bios still under way |
| `BioChain.Bios.BioEndio` | readaround-split/src/block/bio.c:1767-1808 | an undisturbed call of bio_endio is one of these runs; it climbs until a counter does not reach zero or there is no parent, and leaves no bio half reported |
| `Segments.TakeDrop` | readaround-split/src/block/bio.c:1847-1854 | cutting a bio's vectors after n bytes gives a front and a rest whose memory, byte for byte, is the original's |
| `Segments.AcceptablePrefix` | readaround-split/src/block/blk-merge.c:426-483 | a shorter prefix of something acceptable (segment count, bytes, gaps) is acceptable and needs no more segments |
| `Segments.BoundaryQueue` | readaround-split/src/block/blk-merge.c:460-466 | what is assumed of max_fast_segment_size holds of a queue whose segments must not cross 64 KiB boundaries |
| `BioSplit.BvecSplitSegs` | readaround-split/src/block/blk-merge.c:373-397 | says split if and only if some of the vector is left over, and appends exactly the part given by the reference walk, never passing either limit |
| `BioSplit.TakeSegments` | readaround-split/src/block/blk-merge.c:381-391 | the loop over segments computes the reference walk, with its break at a virtual boundary |
| `BioSplit.WalkIsLongest` | readaround-split/src/block/blk-merge.c:373-397 | the part taken is the longest one within the segment limit and without an inner gap, and is counted by the segments it needs |
| `BioSplit.ScanIsLongest` | readaround-split/src/block/blk-merge.c:443-474 | the scan of the vectors, from any point on, takes all of them if they are acceptable and otherwise stops at the longest acceptable byte prefix, with its segment count |
| `BioSplit.ScanVectors` | readaround-split/src/block/blk-merge.c:443-474 | the loop over the vectors computes that scan |
| `BioSplit.BioSplitIoAt` | readaround-split/src/block/blk-merge.c:426-509 | bio_split_io_at computes the verdict of the reference: error, no cut, or a number of sectors, and the segment count |
| `BioSplit.SplitIsExact` | readaround-split/src/block/blk-merge.c:426-509 | with aligned vectors the bio is kept if and only if all of it is acceptable; a cut is strictly inside and is the largest multiple of the alignment (of zones for writes, else of logical blocks) that is acceptable; the segments reported are those the longest acceptable byte prefix needs; EAGAIN and EINVAL are returned exactly when a cut is needed but forbidden or impossible |
| `BioSplit.MisalignedIsExact` | readaround-split/src/block/blk-merge.c:443-446 | a misaligned vector gives EINVAL if and only if the vectors before it are acceptable; otherwise the bio is cut as if it ended there |
| `BioSplit.SplitIsInside` | readaround-split/src/block/blk-merge.c:489-507 | on any device, a cut is strictly inside the bio, a multiple of the split alignment, and never made in an atomic or no-wait bio |
| `SplitSubmit.OrdinaryIsWithin` | readaround-split/src/block/blk-merge.c:332-352 | past the hook, the limit keeps to the size limit of the operation (max_sectors, or that of atomic writes or of write-zeroes) and no boundary of chunks or atomic writes lies inside it; it is the largest such that ends between physical blocks, or, if none does, the largest whole number of logical blocks |
| `SplitSubmit.CutIsInside` | readaround-split/src/block/bio.c:1829-1832 | for a bio of whole logical blocks bio_split's size guards never fire, and the remainder is again of whole logical blocks |
| `SplitSubmit.SubmitKeepsContent` | readaround-split/src/block/blk-merge.c:136-158 | for any limits, faults and number of cuts, the memory of the pieces in order, then of the part that failed, is the original's byte for byte |
| `SplitSubmit.SubmitIsLaid` | readaround-split/src/block/blk-merge.c:136-158 | the pieces lie on consecutive sectors from the bio's own, and a failed part begins where they end |
| `SplitSubmit.SubmitFits` | readaround-split/src/block/blk-merge.c:181-197 | each piece is within the limit it was cut to and within max_segments, each one with something after it is a positive multiple of the split alignment and carries REQ_NOMERGE, and a part fails only for a cause of its own, never for a bad cut |
| `SplitSubmit.HookFiresOnce` | readaround-split/src/block/blk-merge.c:317-327 | in the whole submission of a bio the hook fires at most once, and only for a read-ahead of at least 256 sectors while it is switched on |
| `SplitSubmit.HookHalves` | readaround-split/src/block/blk-merge.c:317-327 | a read-ahead of 256 sectors goes out as 128 + 128 sectors if and only if its first half is acceptable and its second half is within the ordinary limit at its sector |
| `SplitSubmit.DeviceLimits` | readaround-split/src/block/blk-merge.c:332-352 | every piece keeps to the size limit of its operation and no boundary of chunks or atomic writes lies inside it, provided that holds of 128 sectors from the one sector where the hook can fire, 256 sectors before the end of the bio |
| `SplitSubmit.HalvesWithinDevice` | readaround-split/src/block/blk-merge.c:317-327 | when the hook halves a bio that proviso is exact: both pieces keep to the limits if and only if 128 sectors from where the bio begins do |
| `SplitSubmit.OrdinaryPieceWithin` | readaround-split/src/block/blk-merge.c:332-352 | a piece that was cut to the ordinary limit always keeps to the device's limits |
| `SplitSubmit.OrdinaryCutIsLongest` | readaround-split/src/block/blk-merge.c:341-351 | a cut the hook did not make is no shorter than the device requires: of the multiples of the split alignment exactly those up to the cut are acceptable within the ordinary limit |
| `SplitSubmit.HookCrossesChunk` | readaround-split/src/block/blk-merge.c:317-327 | a concrete read-ahead of 256 sectors on a queue with chunks of 192: the hook halves it and the first half crosses the boundary |
| `SplitSubmit.PiecesAreWhole` | readaround-split/src/block/blk-merge.c:181-197 | every piece of a non-empty bio of whole logical blocks is some whole sectors |
| `SplitSubmit.BioObject.BioSplit` | readaround-split/src/block/bio.c:1824-1862 | bio_split fails exactly on its guards or for want of memory; otherwise clone and advanced bio are the two parts and together hold the same memory |
| `SplitSubmit.BioObject.SubmitAll` | readaround-split/src/block/blk-merge.c:512-518 | submitting a bio and resubmitting what is left computes exactly the reference run |
| `Requests.RestIsContiguous` | readaround-split/src/block/blk-mq.c:994-1033 | what whole sectors of completion leave of a contiguous bio list is contiguous from the right sector and has the right length |
| `Requests.EndedOrLeft` | readaround-split/src/block/blk-mq.c:994-1033 | every bio of a request is ended or left, once and in order |
| `Requests.CompletionIsAdditive` | readaround-split/src/block/blk-mq.c:962-1074 | completing a then b bytes ends the same bios in order, leaves as many bytes and answers the same as a + b; while something is left, list and sector agree too if and only if the part-sectors of a and b do not make up a sector |
| `Requests.PartSectorsDrift` | readaround-split/src/block/blk-mq.c:1047-1049 | a concrete request whose __sector lags behind its head bio after 256 and then 768 bytes |
| `Requests.UpdateValid` | readaround-split/src/block/blk-mq.c:1057-1067 | completing whole sectors, or everything, keeps the request valid: the "request botched" repair never happens, and false is returned if and only if nothing remains |
| `Requests.BackMergeValid` | readaround-split/src/block/blk-merge.c:1033-1067 | a back merge that blk_try_merge chose keeps the request valid and appends the bio |
| `Requests.FrontMergeValid` | readaround-split/src/block/blk-merge.c:1069-1105 | a front merge keeps it valid and prepends the bio |
| `Requests.JoinRqsValid` | readaround-split/src/block/blk-merge.c:866-952 | joining two requests keeps the result valid and concatenates their bios |
| `Requests.TryMergeIsExact` | readaround-split/src/block/blk-merge.c:1013-1022 | a bio is merged at an end if and only if that leaves a valid request and neither carries REQ_NOMERGE: nothing mergeable is turned away |
| `Requests.CanJoinIsExact` | readaround-split/src/block/blk-merge.c:866-898 | and so are two requests |
| `Requests.InvStep` | readaround-split/src/block/blk-merge.c:1013-1105 | each of: new request, bio merge, request merge, setting REQ_NOMERGE, partial completion keeps all requests valid and every bio counted once |
| `Requests.EveryRun` | readaround-split/src/block/blk-merge.c:987-990 | in every run each request is a sector-contiguous list with the right __sector and __data_len, and a bio with REQ_NOMERGE, such as a split's front half, shares its request with no other |
| `Requests.BiosAreConserved` | readaround-split/src/block/blk-mq.c:994-1033 | in every run each bio is held by a request or has ended exactly as often as it came in |
| `RequestList.RequestTable.BioToRequest` | readaround-split/src/block/blk-mq.c:2697-2708 | in memory: a new request's bio is head and tail of a chain of its own, and all other chains stay as they were |
| `RequestList.RequestTable.BackMerge` | readaround-split/src/block/blk-merge.c:1033-1067 | re-linking at biotail makes the value model's back merge; every chain stays null-terminated with biotail its last node, and no bio is on two |
| `RequestList.RequestTable.FrontMerge` | readaround-split/src/block/blk-merge.c:1069-1105 | re-linking at the head makes its front merge, with the same invariant |
| `RequestList.RequestTable.MergeBio` | readaround-split/src/block/blk-merge.c:1013-1022 | a bio is merged if and only if it is allowed, adjacent and fits, at the end blk_try_merge chooses; otherwise nothing is written |
| `RequestList.RequestTable.AttemptMerge` | readaround-split/src/block/blk-merge.c:866-952 | one request takes over the other's chain whole, exactly when both may merge and are adjacent, and the other is left without bios |
| `RequestList.RequestTable.Consume` | readaround-split/src/block/blk-mq.c:994-1033 | the loop pops used-up bios in order, advances the one it cuts, writes to no other chain, and leaves the reference's list well linked |
| `RequestList.RequestTable.UpdateRequest` | readaround-split/src/block/blk-mq.c:962-1074 | blk_update_request makes the value model's completion, ends its bios in order, and returns true if and only if something remains; with every request of the table valid before and after |
| `RequestList.TableUpdate` | readaround-split/src/block/blk-merge.c:1033-1105 | writing to one request's chain and to one bio that is nobody's keeps every other request: chains well linked, pairwise disjoint, biotail last |
| `Dispatch.FilterSplits` | readaround-split/src/block/blk-mq.c:2873-2900 | sorting a list by class loses and doubles nothing |
| `Dispatch.FilterTwice` | readaround-split/src/block/blk-mq.c:2923-2945 | sorting out one context keeps the order within every context |
| `Dispatch.FatedSplits` | readaround-split/src/block/blk-mq.c:2146-2176 | each request offered meets with exactly one fate |
| `Dispatch.ByAnswer` | readaround-split/src/block/blk-mq.c:2159-2176 | how often each request is accepted, ended, inserted or put aside is how often the answer to it was OK, an error, a stopped queue, or a want of room |
| `Dispatch.ListConserves` | readaround-split/src/block/blk-mq.c:2128-2254 | for every sequence of answers, what list dispatch accepts, ends and leaves makes up the list |
| `Dispatch.DirectConserves` | readaround-split/src/block/blk-mq.c:2827-2864 | for every sequence of answers, what direct issue accepts, ends, inserts, puts aside and leaves makes up the list |
| `Dispatch.Layer.OfferAll` | readaround-split/src/block/blk-mq.c:2146-2176 | requests are offered in order; the driver has exactly those it answered OK and those it answered with an error are over; the first for which there is no budget or tag, or that is answered RESOURCE or DEV_RESOURCE, ends the loop and stays in the list with all after it |
| `Dispatch.Layer.DispatchRqList` | readaround-split/src/block/blk-mq.c:2128-2254 | that request and all after it are parked on hctx->dispatch in order, the others are with the driver or over by their answers; true is returned if and only if the list was non-empty and wholly processed; no request is lost or doubled |
| `Dispatch.Layer.IssueDirect` | readaround-split/src/block/blk-mq.c:2827-2864 | direct issue: by their answers requests are with the driver or over, those whose queue is stopped are inserted, the one without budget or tag or answered RESOURCE or DEV_RESOURCE is the last offered and waits on its hctx->dispatch, the others stay in the list in order; nothing is lost or doubled |
| `Dispatch.Layer.QueueRqs` | readaround-split/src/block/blk-mq.c:2866-2871 | a driver that takes lists takes any of the requests; the others stay in order |
| `Dispatch.Layer.ExtractQueueRequests` | readaround-split/src/block/blk-mq.c:2873-2900 | a stable partition by the first request's queue, with the count of the matched part, which is never empty; no request lost or doubled |
| `RqChains.Plug.Unlink` | readaround-split/src/block/blk-mq.c:2886-2888 | storing the successor through prev takes one node out of the chain, whether prev is the head or another node's link, and disturbs no other chain |
| `RqChains.Plug.SortOut` | readaround-split/src/block/blk-mq.c:2885-2895 | the loop with its pointer to the link it came by sorts the nodes in place: both chains well linked and disjoint, both in order |
| `RqChains.Plug.ExtractQueueRequests` | readaround-split/src/block/blk-mq.c:2873-2900 | in place: afterwards both lists are null-terminated chains with the right heads and tails, no node on both, and hold the stable partition of the old list |
| `Dispatch.Layer.DispatchQueueRequests` | readaround-split/src/block/blk-mq.c:2902-2921 | for every answer: what the driver takes of the whole list, what is then accepted, ended, inserted or put aside, and the leftovers, each in order and in the right place |
| `Dispatch.Layer.InsertRequests` | readaround-split/src/block/blk-mq.c:2598-2633 | with direct issue first unless run asynchronously: what is accepted, ended, inserted or put aside, then the leftovers on the software queue, each in order |
| `Dispatch.Layer.DispatchList` | readaround-split/src/block/blk-mq.c:2923-2966 | a stable partition by hardware context, software context and kind: the others stay in order; the matching ones are, for every answer, accepted, ended, inserted or put aside, and the rest of them wait in order where requests of that kind belong; nothing is offered to the driver when a scheduler is set, for passthrough requests, or on the way to sleep |
| `Dispatch.Layer.DispatchByContext` | readaround-split/src/block/blk-mq.c:3008-3010 | the rounds end with an empty list; when nothing is issued directly each context's requests wait in the order they had |
| `Dispatch.Layer.DispatchMultiple` | readaround-split/src/block/blk-mq.c:2968-2979 | the rounds over several queues end with an empty list and place every request exactly once |
| `Dispatch.Layer.FlushPlugList` | readaround-split/src/block/blk-mq.c:2981-3011 | flushing a plug empties it and, for every sequence of answers, each request is accepted, ended or parked exactly once, passthrough requests only on their hctx->dispatch; a plug for one queue without a scheduler is offered to the driver first, and nothing is offered on the way to sleep |
| `Pipeline.InvStep` | readaround-split/src/block/bio.c:355-368 | a bio's whole way as one machine (cut and chain, request, merge with other traffic, complete partly, climb): every step keeps the chain, the request layer and their correspondence |
| `Pipeline.EndsOnceWithStatus` | readaround-split/src/block/blk-merge.c:136-158 | however the bio is cut, its pieces requested, merged with other traffic and completed, once all has settled its end_io has been called exactly once, after every piece completed, and with an error if and only if the bio was refused or, somewhere in the run, a completion with an error reached one of its pieces or what was left of it, even in part; the error is one of those |
| `Pipeline.FailedStep` | readaround-split/src/block/blk-mq.c:993-1038 | a step marks a bio as failed if and only if it refuses the bio or completes bytes with an error that reach it: it is the first of the request, or fewer bytes come before it than are completed |
| `Pipeline.ErrorIsReported` | readaround-split/src/block/blk-mq.c:998-999 | the error status of any piece, or of the bio, is the error of some completion that reached a piece, or of the refusal |
| `Pipeline.ReachedIsEndedOrTouched` | readaround-split/src/block/blk-mq.c:993-1034 | the bios whose status a completion with an error writes are those it gets as far as: the ones it ends and the one it only advances |
| `Pipeline.SubmitIsReady` | readaround-split/src/block/blk-merge.c:181-197 | what a submission yields is what the pipeline starts from: pieces of whole sectors, every front piece marked REQ_NOMERGE, and a last piece unless part of the bio failed |
| `Pipeline.PiecesStayApart` | readaround-split/src/block/blk-merge.c:181-197 | in every run no request ever holds two pieces of one submission, the two halves of a read-around included |
| `Pipeline.NeverStuck` | readaround-split/src/block/blk-mq.c:3179-3226 | until all has settled a piece can go out, a request that holds one can complete, or a completion can climb |
| `Pipeline.ProgressLowers` | readaround-split/src/block/blk-mq.c:993-1038 | a piece sent out, the completion of a whole request that holds one, and a step of bio_endio each lower a measure; other traffic and partial completions never raise it |
| `Pipeline.SettlesInTime` | readaround-split/src/block/bio.c:1767-1808 | liveness: whatever other traffic there is between them, a run takes at most seven steps that lower that measure for the bio and for each of its front pieces, and has settled when it has taken them all |
| `FifoPool.BufferPool.Lookup` | prefetch-sim/src/buffer_pool.c:33-51 | a lookup hits if and only if the block is in the pool and counts it |
| `FifoPool.BufferPool.InsertBlock` | prefetch-sim/src/buffer_pool.c:53-81 | the ring with its eviction position is a FIFO queue in which a resident block keeps its place |
| `FifoPool.BufferPool.PrefetchRange` | prefetch-sim/src/buffer_pool.c:82-98 | prefetching a range inserts its blocks in order |
| `FifoPool.FreshRange` | prefetch-sim/src/buffer_pool.c:53-98 | of a range of blocks none of which is resident, all are resident afterwards if it fits in the pool, and exactly its end if it does not; nothing else is new |
| `FifoHistory.PoolIsTail` | prefetch-sim/src/buffer_pool.c:53-81 | from any state, the pool holds the last blocks, up to its capacity, of its history: what was resident, then every block that was not resident at its turn |
| `FifoHistory.Survives` | prefetch-sim/src/buffer_pool.c:62-81 | a resident block that is not inserted again is lost if and only if the blocks pushed since have reached its place in the ring |
| `FifoHistory.HitIsRecentPush` | prefetch-sim/benchmarks/mixed_bench.c:140-155 | for any trace, any windows and any state of the pool, an access hits if and only if its block is among the last pushed, as many as the capacity |
| `FifoHistory.ResidentHit` | prefetch-sim/benchmarks/mixed_bench.c:140-155 | a block resident at the start and not asked for before its turn hits if and only if the pushes until then have not reached its place |
| `Prefetch.AdaptiveReadahead.OnAccess` | prefetch-sim/src/adaptive_readahead.c:15-58 | the doubling-window state machine on its fields is the reference's step, and fetches what the reference fetches |
| `Prefetch.Readahead.OnAccess` | prefetch-sim/src/readahead.c:14-62 | the fixed-window machine is the adaptive one with equal windows |
| `Prefetch.RunAdaptive` | prefetch-sim/benchmarks/mixed_bench.c:140-155 | the counters after the access loop are those of the reference trace |
| `Prefetch.RunFixed` | prefetch-sim/benchmarks/mixed_bench.c:101-116 | likewise for the fixed window |
| `Prefetch.MidRunStep` | prefetch-sim/src/adaptive_readahead.c:27-46 | in the middle of a sequential run each access keeps the invariant that ties the cache to the current window, and hits if and only if that window fits |
| `Prefetch.SequentialRun` | prefetch-sim/src/adaptive_readahead.c:15-58 | the cliff: on a sequential run none of whose blocks, up to where its prefetches reach, is resident, access i hits if and only if i >= 2 and the window that prefetched it is at most the capacity; blocks beyond may be resident |
| `Prefetch.FixedAllOrNothing` | prefetch-sim/src/readahead.c:14-62 | a fixed window gives all hits but two, or none |
| `Prefetch.AdaptiveHits` | prefetch-sim/src/adaptive_readahead.c:15-58 | the adaptive hit total is exactly all but two if every window fits, and otherwise the smaller of that and the sum of the doubling windows that fit |
| `Prefetch.StaleResidentMisses` | prefetch-sim/src/buffer_pool.c:62-66 | why the run must be fresh: the trace 2, 50, 0, 1, 2 from an empty pool of 4 with a window of 2 misses at its end, because the resident block 2 is not renewed |
| `LruPool.LruBufferPool.Lookup` | prefetch-sim/src/lru_buffer_pool.c:28-40 | a lookup hits if and only if the block is present, and a hit makes it the most recent |
| `LruPool.LruBufferPool.Insert` | prefetch-sim/src/lru_buffer_pool.c:42-72 | the timestamp table behaves as a recency list: the inserted block comes to the front, the least recent one is evicted when full |
| `LruPool.LruBufferPool.Victim` | prefetch-sim/src/lru_buffer_pool.c:61-67 | the minimum search finds the least recently used slot |
| `LruPool.LruBufferPool.PrefetchRange` | prefetch-sim/src/lru_buffer_pool.c:74-78 | prefetching a range touches its blocks in order |
| `LruPool.Evicted` | prefetch-sim/src/lru_buffer_pool.c:69-71 | overwriting the slot with the smallest stamp drops the last of the recency list and adds a new first |
| `ReadAround.ReadAroundPrefetcher.OnAccess` | prefetch-sim/src/read_around.c:10-35 | all that an access makes new lies in the file and within the radius of the block, and of the blocks there exactly the last, as many as the capacity, are resident; the window is touched in ascending order |
| `ReadAround.Run` | prefetch-sim/benchmarks/read_around_bench.c:188-208 | the counters after the access loop are those of the pool's history; no block past the end of the file is ever resident, and each access brings in only blocks of the file around it |
| `ReadAround.PoolIsTop` | prefetch-sim/src/lru_buffer_pool.c:28-78 | at every step the pool of capacity c holds exactly the c most recently touched blocks of the whole past |
| `ReadAround.Inclusion` | prefetch-sim/benchmarks/read_around_bench.c:188-208 | LRU inclusion: for any trace, radius and capacities c1 <= c2 the smaller pool's contents are at every step among the larger one's, and it never has more hits |
| `LocalityWalk.GenerateLocalityWalk` | prefetch-sim/benchmarks/read_around_bench.c:78-97 | every walk stays in the region that the first number of rand() chooses, begins where the second says, and each step goes as near as the region allows to where the next number sends it, so moves by at most the jitter |
| `LocalityWalk.NextIsResident` | prefetch-sim/src/read_around.c:10-35 | after an access every block within the jitter is resident, at clamped edges too, if jitter <= radius and capacity >= radius + jitter + 1 |
| `LocalityWalk.WalkMisses` | prefetch-sim/benchmarks/read_around_bench.c:188-208 | under that condition a walk has at most one miss from any pool state: only its first access can miss |
| `LocalityWalk.CapacityIsTight` | prefetch-sim/src/read_around.c:10-35 | with less than that, a walk of two accesses from an empty pool can miss twice |
| `LocalityWalk.Repeat` | prefetch-sim/benchmarks/read_around_bench.c:177-208 | a repeat of the benchmark has exactly one miss if it makes an access |
| `GapReadahead.Control.Unbounded` | readaround-split/src/mm/readahead.c:224-319 | the batches ascend and never touch, their pages are exactly the wanted ones up to where the loop stops, the cache gains just these and the units that turned out to be there by then (-EEXIST), and the first unit at or after index + nr_to_read - lookahead_size is flagged if it is read |
| `GapReadahead.Control.Fill` | readaround-split/src/mm/readahead.c:256-300 | loop invariant _index + _nr_pages = index + i, with everything before it taken exactly as wanted |
| `GapReadahead.Control.ReadPages` | readaround-split/src/mm/readahead.c:157-193 | the pending batch is submitted, and the loop consumes its folios from the front, whatever their sizes, until none is left |
| `GapReadahead.ExactlyTheMissing` | readaround-split/src/mm/readahead.c:224-319 | with no failure the pages read are exactly the missing pages of the aligned range, never a cached one |
| `GapReadahead.StopAtEnd` | readaround-split/src/mm/readahead.c:256-300 | with no failure the loop reaches the end of the aligned range |
| `LargeFolios.ChooseOrder` | readaround-split/src/mm/readahead.c:519-526 | the order chosen is the largest permitted: aligned, at most the starting order, and within the limit unless it is the minimum order |
| `LargeFolios.StartOrderIsLargest` | readaround-split/src/mm/readahead.c:505-507 | the loop starts from an order at least as large as any within ra->order, the mapping and the window |
| `LargeFolios.FfsIsExact` | readaround-split/src/mm/readahead.c:522-523 | an index is aligned to 2^k if and only if k is at most its lowest set bit |
| `LargeFolios.OrderControl.AllocFolio` | readaround-split/src/mm/readahead.c:458-478 | the flag is set if and only if the folio holds the marked page |
| `LargeFolios.OrderControl.Order` | readaround-split/src/mm/readahead.c:480-533 | the folios tile the aligned range from its start to past the limit, or to the index that failed |
| `LargeFolios.TiledOnce` | readaround-split/src/mm/readahead.c:518-531 | a page of the range is in exactly one folio, any other page in none |
| `LargeFolios.FlaggedOnce` | readaround-split/src/mm/readahead.c:458-478 | exactly the folio that holds start + size - async_size is flagged when that page is covered, and only a folio of the minimum order can pass the limit |
| `FaultAround.Fault.MapPages` | readaround-split/src/mm/filemap.c:3780-3836 | gathering runs maps each eligible page exactly once at its own entry, raises rss by the number mapped and the references by that minus one, and returns NOPAGE if and only if the faulting page was mapped |
| `FaultAround.Fault.MapFolioRange` | readaround-split/src/mm/filemap.c:3749-3837 | the same for the range widened to the whole folio where that is allowed |
| `FaultAround.MappedExactly` | readaround-split/src/mm/filemap.c:3780-3836 | the page-by-page reference maps exactly the eligible pages, in ascending order |
| `FaultAround.MappedRun` | readaround-split/src/mm/filemap.c:3803-3811 | a run of eligible pages mapped at once is the same pages mapped one by one |
| `FreeList.ApplyKeeps` | mini-malloc/src/malloc.c:34-127 | a request keeps the heap consistent (list = the free blocks, once each; blocks disjoint and below the break) if and only if it does not grow the heap by a size that sbrk reads as negative |
| `FreeList.RunKeeps` | mini-malloc/src/malloc.c:34-98 | so does every sequence of requests, immediate double frees included |
| `FreeList.PayloadsAreDisjoint` | mini-malloc/src/malloc.c:34-98 | after any such sequence no byte belongs to two payloads or to a payload and a header |
| `FreeList.MallocIsSound` | mini-malloc/src/malloc.c:34-71 | a block returned is large enough, live now and not live before, nothing else changes, NULL is returned exactly for the refused sizes or when sbrk fails with no fit, and the break moves only when no free block fits |
| `FreeList.HugeRequestOverlaps` | mini-malloc/src/malloc.c:54-62 | the exception is real: with a block of 1000 bytes in use, a request of 2^64 - 96 bytes lowers the break and the next block's header lies in the live payload |
| `FreeList.FreeTwice` | mini-malloc/src/malloc.c:73-98 | freeing twice in a row is freeing once, and a malloc that fits gets the block freed last and restores the heap |
| `FreeList.UnlinkKeeps` | mini-malloc/src/malloc.c:115-127 | unlinking a node keeps prev and next inverse and the chain acyclic |
| `FreeList.PushKeeps` | mini-malloc/src/malloc.c:86-97 | so does pushing one at the head |
| `FreeList.Allocator.FindFreeBlock` | mini-malloc/src/malloc.c:100-113 | the walk along next finds the first free block that is large enough, or NULL |
| `FreeList.Allocator.RemoveFreeBlock` | mini-malloc/src/malloc.c:115-127 | the node leaves the list, which stays well linked, and no size or mark changes |
| `FreeList.Allocator.Malloc` | mini-malloc/src/malloc.c:34-71 | my_malloc on headers in memory computes the reference's heap and pointer |
| `FreeList.Allocator.Free` | mini-malloc/src/malloc.c:73-98 | my_free likewise, on NULL and on any pointer returned before, freed since or not |

## Left out

- Weak memory order and RCU: each access to a flag word is one atomic step.
- Liveness of killable waiters beyond the stranding example; `__folio_lock_async`, migration and thrashing accounting.
- LockProgress.SignalFreeRunsDrain: assumes that a caller which holds a bit unlocks it, as one of the protocol's steps.
- Zone append, flush sequences, mixed-merge flags, integrity and crypto in blk_update_request; statuses are followed in
  BioChain and Pipeline only.
- Discard requests and discard merging; write-zeroes splitting other than its size limit; zero-sized bios.
- Recounting of segments after a merge or completion (blk_recalc_rq_segments).
- The order in which front piece and remainder reach the driver: pieces are listed by sector.
- Wrap-around of sectors, of the mmap_miss counter, of block numbers and of the LRU clock: these are natural numbers.
- Elevator internals, flush requests at the head of hctx->dispatch, queue reruns, commit_rqs and the `last` hint to the driver.
- In read_pages, folios that the filesystem leaves unread and that are removed again.
- The fallback of page_cache_ra_order to the regular path, and the clamping of windows before page_cache_ra_unbounded.
- Whether a folio may be mapped whole (file size, VMA and page-table bounds) is a parameter of the fault-around model.
- File I/O, timing, statistics, workload generation by sorting and shuffling, my_realloc and my_calloc (declared, not
  defined), and the block splitting and coalescing that the allocator's design notes describe but the code does not do.
- Requests.CompletionIsAdditive: without an error status; list and sector agree under the stated condition only, because
  the code truncates each count to whole sectors.
- Pipeline.EndsOnceWithStatus: one bio's chain beside arbitrary other traffic; the pieces enter the request layer in the
  order of their sectors, a bio that is refused fails as a whole, and the status writes of one completion are one step.
- StaleWake.StaleWakeIff: for calls made while nobody holds the bucket lock; LockReturns.ZeroMeansClear is for all calls.
- Dispatch.Layer.FlushPlugList: that requests are offered before any of them waits is stated for plugs with one queue only.
- Prefetch.SequentialRun: for runs that reach no resident block; of others FifoHistory says which accesses hit, not how many.

# OSTD: concurrency, TLB and memory bookkeeping in Dafny

This project models the hard core of the OSTD operating-system library and proves what it is for.

- **Reader-writer locks** (`LockWord`, `RwProtocol`, `RwTheorems`, `RwMutexObject`, over `Bits`). One
  64-bit word packs a writer bit, an upgradeable bit, a being-upgraded bit and a reader count. Any number
  of tasks act on it one atomic operation at a time; failing attempts disturb the word and retract later.
  `RwLock` is the protocol without the downgrade actions, `RwMutex` the protocol with them. The class
  `RwMutex` runs the operations against an arbitrary schedule of the other tasks.
- **Wait queue, waker and mutex** (`WaitQueue`, `WaitCalls`, `MutexProtocol`, `WakeAll`,
  `WaitQueueObject`, `UnclosedWaiter`): the lock-free counter, the spin-locked queue and the one-shot flag
  as a step system, what whole calls have done when they return, the mutex and a stable condition as
  clients, and the queue as an object.
- **TLB shootdown** (`TlbOps`, `Shootdown`, `ShootdownStale`, `ShootdownSync`, `ShootdownOnce`,
  `ShootdownTheorems`, `ShootdownHandover`, `ShootdownProgress`, `ShootdownWindow`, `VmSpace`): the
  bounded stack of flush requests, the protocol of queues, acknowledgements, calls and interrupts around
  one address space, and `map` and `unmap` on top of it.
- **Boot memory regions** (`MemoryRegions`, `MemoryRegionArray`): align, compact, sweep, merge.
- **Task switching** (`TaskSwitch`, `TaskSwitchCalls`): claim flags, per-CPU slots and the references leaked into them.
- **CPU sets** (`CpuSets`) and **memory through translation** (`VirtMem`, `VmIo`).

`Base` holds what several modules share.

Protocols are step systems: a `State`, the `Enabled` actions, a deterministic `Step`, an invariant that
every step keeps, and theorems over runs of any length and any interleaving. What the code keeps in
fields and changes in place is a class whose methods are proved against functions of the old state.
Interference, page faults, the shape of the page table and the CPUs' refills are inputs.

## Where the code and its documentation differ, and what was found

- `wait_until` must close its waker when it returns. The source says so in a commented `impl Drop`, and
  provides the same as a plain method that `wait_until` does not call. The model closes the waker, as the
  documentation of `Waiter` promises. Without the closing step a mutex can end up free, with a waiter
  parked and nobody left to wake it, if and only if at least two tasks share it
  (`UnclosedWaiter.LostExactlyWhenShared`).
- `issue_tlb_flush_with` promises that a frame is recycled only after the TLBs of all CPUs have been
  flushed. `activate` takes a CPU out of the target set of the space it leaves before it loads the next
  table (ostd/src/mm/vm_space.rs:343-349). A dispatch in between does not reach the CPU, and releases a
  frame that the CPU still has cached (`ShootdownWindow.WindowIsHit`). In that window, and nowhere else,
  a released frame is reachable through a translation that the table has dropped
  (`ShootdownWindow.DanglesExactlyWhileLeaving`). The CPU is then inside `activate`, in kernel mode; what it
  could do with such a translation is not part of this model.
- `into_non_overlapping` documents a panic when the *result* has more than `LEN` regions. The code panics
  when the pieces *before* merging do: `RegionArray.IntoNonOverlapping` gives the exact condition, and
  `RoomForPieces` a family of inputs where the result is a single region and the array is too small.
- Joining the two parts of a split `MemView` keeps a write to the left part exactly if the mapping written
  to does not reach beyond the split (`WriteThroughSplit`). The source only joins views whose mappings are
  disjoint, which is that condition.
- A write that faults half-way rolls the cursor back but not the bytes already written
  (`VmWriter.WriteVal`).

## Model

| member | source | states |
|---|---|---|
| LockWord.Layout | ostd/src/sync/rwlock.rs:169-302 | a word is exactly its four fields: decoding and encoding it gives it back, and the count fits in 61 bits |
| LockWord.DecodeEncode | ostd/src/sync/rwlock.rs:169-302 | the other direction of the round trip between words and fields |
| LockWord.AddReader | ostd/src/sync/rwlock.rs:456-512 | adding `READER` increments the count and touches no other field if and only if the count is below 2^61 - 1 |
| LockWord.SubReader | ostd/src/sync/rwlock.rs:763-786 | subtracting `READER` decrements the count and borrows nothing if and only if the count is positive |
| LockWord.SetUpread | ostd/src/sync/rwlock.rs:570-626 | `fetch_or(UPGRADEABLE_READER)` sets that field alone |
| LockWord.ClearUpread | ostd/src/sync/rwlock.rs:1102-1129 | subtracting `UPGRADEABLE_READER` clears that field alone if and only if it was set |
| LockWord.SetUpgrading | ostd/src/sync/rwlock.rs:959-987 | `fetch_or(BEING_UPGRADED)` sets that field alone |
| LockWord.ClearWriter | ostd/src/sync/rwlock.rs:872-903 | `fetch_and(!WRITER)` clears that field alone, and is the identity without a writer |
| LockWord.CompareExchange | ostd/src/sync/rwlock.rs:989-1073 | a compare-exchange between two encodings is a conditional change of the fields |
| LockWord.ReadBlockedExactly | ostd/src/sync/rwlock.rs:478-492 | the mask test of `try_read` is true exactly for a writer, an upgrade in progress, or 2^60 recorded readers |
| LockWord.UpreadSeenExactly | ostd/src/sync/rwlock.rs:570-626 | the two-bit test of `try_upread` tells a free lock, a lone writer and an owner apart |
| RwProtocol.StepInv | ostd/src/sync/rwlock.rs:169-302 | every atomic operation of every task keeps the invariant that ties the word to guards, retractions and upgraders |
| RwProtocol.OutcomeByFields | ostd/src/sync/rwlock.rs:456-626 | the branch an attempt takes on the word is the branch the fields call for |
| RwTheorems.Exclusion | ostd/src/sync/rwlock.rs:456-626 | in every state of every run a write guard is alone, and there is at most one upgradeable guard |
| RwTheorems.WordDecodes | ostd/src/sync/rwlock.rs:169-302 | in every reachable state the word is the encoding of the live guards, unretracted failed attempts and upgrader |
| RwTheorems.NoReaderOverflow | ostd/src/sync/rwlock.rs:81-88 | with fewer than 2^60 tasks no addition carries and no subtraction borrows, and at most 2^60 read guards are alive; the source assumes this |
| RwTheorems.AttemptsGrantedExactly | ostd/src/sync/rwlock.rs:456-626 | when each attempt succeeds, in terms of guards and retractions, both directions |
| RwTheorems.ValueStableWhileHeld | ostd/src/sync/rwlock.rs:959-1073 | the value does not change while a task has access, across the steps of an upgrade too |
| RwTheorems.UpgradeIsAtomic | ostd/src/sync/rwlock.rs:959-1073 | the write guard returned by `upgrade` starts from the value that `try_upread` saw |
| RwTheorems.NoNewReadersDuringUpgrade | ostd/src/sync/rwlock.rs:478-492 | from the moment bit 61 is set until the compare-exchange succeeds no read guard is added |
| RwTheorems.DowngradeIsAtomic | ostd/src/sync/rwmutex.rs:722-810 | no writer comes between the write guard and the upgradeable guard that `downgrade` returns |
| RwTheorems.TrailingFetchAndIsIdle | ostd/src/sync/rwmutex.rs:734-810 | the `fetch_and(!WRITER)` at the end of a downgrade never changes the word |
| RwTheorems.RunRefines | ostd/src/sync/rwlock.rs:404-626 | every run on the word is a run of a lock that only has sets of holders, where readers, upgradeable reader and writer exclude each other |
| RwMutexObject.RwMutex.TryRead | ostd/src/sync/rwmutex.rs:367-420 | when it is granted; a refused attempt leaves the guards as they were and the state that the others make of it between its two atomic operations |
| RwMutexObject.RwMutex.TryWrite | ostd/src/sync/rwmutex.rs:421-468 | granted exactly on the zero word; otherwise nothing changes |
| RwMutexObject.RwMutex.TryUpread | ostd/src/sync/rwmutex.rs:470-525 | when it is granted; refused because of another upgradeable reader it changes nothing, because of a writer it retracts, whatever others do in between |
| RwMutexObject.RwMutex.DropRead | ostd/src/sync/rwmutex.rs:637-665 | takes one read guard and one reader off, without borrowing, and wakes one waiter exactly when it leaves the lock free |
| RwMutexObject.RwMutex.DropWrite | ostd/src/sync/rwmutex.rs:812-850 | ends the only write guard, clears the writer field alone, and wakes everybody |
| RwMutexObject.RwMutex.DropUpread | ostd/src/sync/rwmutex.rs:1014-1045 | ends the only upgradeable guard, and wakes everybody exactly when it leaves the lock free |
| RwMutexObject.RwMutex.TryUpgrade | ostd/src/sync/rwmutex.rs:936-1010 | succeeds exactly on the word of a lone upgrader, leaving the caller with the only guard, whatever others do before the trailing subtraction; otherwise nothing changes |
| RwMutexObject.RwMutex.TryDowngrade | ostd/src/sync/rwmutex.rs:734-810 | succeeds exactly on the word of a lone writer, whatever others do before the trailing `fetch_and`, and then wakes everybody; otherwise nothing changes |
| RwMutexObject.RwMutex.Upgrade | ostd/src/sync/rwmutex.rs:906-1010 | it returns if and only if one of its attempts finds the word of a lone upgrader, undisturbed if and only if there is no reader; the caller then holds the only guard; until then the state is what the others make of it, and the value never changes |
| RwMutexObject.RwMutex.Downgrade | ostd/src/sync/rwmutex.rs:722-810 | it returns if and only if one of its attempts finds the word of a lone writer; the caller then holds the upgradeable guard, nobody writes, and everybody is woken; the value never changes |
| WaitQueue.StepInv | ostd/src/sync/wait.rs:124-264 | every step of every task keeps the bookkeeping of counter, queue, spin lock, entries and flags |
| WaitQueue.CountTracksQueue | ostd/src/sync/wait.rs:146-264 | `num_wakers` equals the queue's length up to the one open critical section, and the subtraction never wraps |
| WaitQueue.OneWakeupPerWaiter | ostd/src/sync/wait.rs:124-264 | an enqueued waiter has exactly one of a queue entry, an entry in one waker's hands, a set flag |
| WaitQueue.ParkedIsCarried | ostd/src/sync/wait.rs:446-476 | a parked waiter that is not in the queue is in the hands of a waker that is about to flag it |
| WaitQueue.ZeroCountHidesNobody | ostd/src/sync/wait.rs:146-154 | the fast path that sees a zero counter misses no parked waiter in the queue |
| WaitCalls.WakeAllReturns | ostd/src/sync/wait.rs:189-233 | in every run `wake_all` returns only after it has loaded a zero counter or found the queue empty under the lock |
| WaitCalls.WakeOneReturns | ostd/src/sync/wait.rs:146-185 | in every run `wake_one` returns with the first flag that it sets anew, or after it has seen that there is nobody left |
| WaitCalls.FastPath | ostd/src/sync/wait.rs:146-154 | a wake call that loads a zero counter returns without the lock, and no other does |
| WaitCalls.WaitReturns | ostd/src/sync/wait.rs:124-142 | in every run `wait_until` returns only after a check that succeeded, the last one it made, and with its waker closed |
| WaitCalls.FirstInFirstOut | ostd/src/sync/wait.rs:146-264 | in every run the wakers pushed are, in order, those taken followed by those still queued |
| MutexProtocol.MutualExclusion | ostd/src/sync/mutex.rs:73-178 | at most one guard is alive and the flag says whether one is |
| MutexProtocol.LockReturnsGuard | ostd/src/sync/mutex.rs:73-80 | when `lock` returns the caller has the only guard, which it did not have before |
| MutexProtocol.TryLockExactly | ostd/src/sync/mutex.rs:82-99 | `try_lock` gets the guard exactly if nobody has it |
| MutexProtocol.UnlockFrees | ostd/src/sync/mutex.rs:119-178 | dropping the guard leaves none, frees the mutex and enters `wake_one` |
| MutexProtocol.NoLostWakeup | ostd/src/sync/mutex.rs:73-127 | in every reachable state, if the mutex is free and a waiter is parked, another task is still inside `wake_one` or still to retry |
| MutexProtocol.DebtorCanAct | ostd/src/sync/wait.rs:146-185 | whoever owes progress has a step to make, or waits for a spin lock whose holder has |
| WakeAll.NobodyLeftBehind | ostd/src/sync/wait.rs:189-233 | once a task that entered `wake_all` after a stable condition was set is back from it, a parked waiter is in another waker's hands |
| UnclosedWaiter.WakeupIsLost | ostd/src/sync/wait.rs:426-433 | if `wait_until` returns without closing its waker, any two tasks among any number can reach a free mutex with a parked waiter and no debtor |
| UnclosedWaiter.LostExactlyWhenShared | ostd/src/sync/wait.rs:124-141 | without the closing step such a state is reachable if and only if at least two tasks share the mutex |
| WaitQueueObject.Waker.WakeUp | ostd/src/sync/wait.rs:446-455 | reports whether this call is the one that set the flag |
| WaitQueueObject.Waker.TakeWakeup | ostd/src/sync/wait.rs:458-463 | consumes a wakeup if there is one and reports it |
| WaitQueueObject.Waker.Close | ostd/src/sync/wait.rs:465-476 | sets the flag, so that no later call wakes |
| WaitQueueObject.Waiter.Wait | ostd/src/sync/wait.rs:347-349 | returns exactly if it has been woken before or is woken while parked, and consumes the wakeup |
| WaitQueueObject.Waiter.Drop | ostd/src/sync/wait.rs:426-433 | closes the waker |
| WaitQueueObject.WaitQueue.Enqueue | ostd/src/sync/wait.rs:244-264 | appends at the back and keeps the counter equal to the length |
| WaitQueueObject.WaitQueue.IsEmpty | ostd/src/sync/wait.rs:235-240 | the counter answers for the queue |
| WaitQueueObject.WaitQueue.WakeOne | ostd/src/sync/wait.rs:146-185 | wakes the first waker that can be woken, drops it and all before it, and touches no other flag |
| WaitQueueObject.WaitQueue.WakeAll | ostd/src/sync/wait.rs:189-233 | empties the queue, flags every waker in it, and returns how many were not flagged before |
| TlbOps.OptimizeForLargeRange | ostd/src/mm/tlb.rs:233-244 | a range of more than 32 pages becomes a full flush, any other request stays as it is, and nothing covered is lost |
| TlbOps.RangeIsPages | ostd/src/mm/tlb.rs:203-216 | flushing a page-aligned range is flushing each of its pages by its address |
| TlbOps.PushOpIncludes | ostd/src/mm/tlb.rs:310-326 | a push forgets no earlier request or frame and covers the new one, also when the stack collapses |
| TlbOps.PushOpExact | ostd/src/mm/tlb.rs:310-326 | a push keeps exactly the old and the new frames; it collapses the stack exactly when it was full or the request is for everything or more than 32 pages; otherwise it adds one request and asks for nothing else |
| TlbOps.PushFromIncludes | ostd/src/mm/tlb.rs:328-343 | `push_from` forgets nothing of either stack |
| TlbOps.PushFromExact | ostd/src/mm/tlb.rs:328-343 | `push_from` keeps exactly both stacks' frames, collapses exactly when one asks for everything or both have 32 requests together, and otherwise asks for what either asks for |
| TlbOps.OverApproximates | ostd/src/mm/tlb.rs:286-366 | after any sequence of pushes and clears every request since the last clear is still covered and its frames are still kept |
| TlbOps.NothingInvented | ostd/src/mm/tlb.rs:286-366 | after any sequence of pushes and clears the kept frames are exactly those handed over since the last clear, and a stack that has not collapsed asks for exactly what it was asked for since then |
| TlbOps.OpsStack.Push | ostd/src/mm/tlb.rs:310-326 | the array stores the stack with the request pushed, in the sense of `PushOpExact`; no index passes 32, and flush-all implies size 0 |
| TlbOps.OpsStack.PushAllFrom | ostd/src/mm/tlb.rs:328-343 | the array stores the union of both stacks, in the sense of `PushFromExact`, and the other one is unchanged |
| TlbOps.OpsStack.IsEmptyStack | ostd/src/mm/tlb.rs:305-307 | no request is pending |
| TlbOps.OpsStack.FlushAll | ostd/src/mm/tlb.rs:345-359 | exactly the translations that some request covers are gone, and the stack is empty |
| TlbOps.OpsStack.ClearWithoutFlush | ostd/src/mm/tlb.rs:361-366 | empties the stack and releases the frames |
| ShootdownStale.StepStale | ostd/src/mm/tlb.rs:110-183 | every step keeps it true that, on a target CPU that runs on the table, a cached translation is live or covered by a request on its way that keeps its frame |
| ShootdownStale.HandlerKeeps | ostd/src/mm/tlb.rs:256-277 | the interrupt handler drops a request only after performing it |
| ShootdownStale.PendingStays | ostd/src/mm/tlb.rs:110-150 | a dispatcher stays responsible for a CPU until it has pushed to it or flushed it |
| ShootdownSync.SyncEmptiesQueues | ostd/src/mm/tlb.rs:169-183 | when `sync_tlb_flush` returns no dispatch of this flusher is in any queue, although all dispatchers share one flag per CPU |
| ShootdownTheorems.StepInv | ostd/src/mm/tlb.rs:110-277 | every action of every CPU and flusher keeps all invariants of the protocol |
| ShootdownTheorems.StaleIsCovered | ostd/src/mm/tlb.rs:110-277 | in every run a CPU caches only what the table says or what a request on its way will remove, unless it has left the target set and not loaded another table yet |
| ShootdownTheorems.ReleasedIsUnreachable | ostd/src/mm/tlb.rs:73-93 | once no stack keeps a frame alive, a CPU reaches it through a dropped translation only while it is leaving |
| ShootdownTheorems.FrameHeldUntilPerformed | ostd/src/mm/tlb.rs:73-93 | a frame handed over with a dispatch is kept until every CPU in the loaded target set has performed it |
| ShootdownTheorems.TargetsAreReached | ostd/src/mm/tlb.rs:117-128 | the word-by-word load of the target set misses no CPU that is a target throughout |
| ShootdownTheorems.PerformedMeansFlushed | ostd/src/mm/tlb.rs:256-277 | a CPU that has performed a dispatch caches, for the addresses it covers, only translations loaded after the dispatch began |
| ShootdownTheorems.SyncDelivers | ostd/src/mm/tlb.rs:169-183 | when `sync_tlb_flush` returns every dispatch of the flusher has been performed by each of its targets or taken by a handler that has yet to return |
| ShootdownTheorems.SyncLeavesOthers | ostd/src/mm/tlb.rs:169-183 | a translation still stale then, outside a handler, is the business of another flusher or of a CPU that is leaving |
| ShootdownTheorems.AloneSyncIsCoherent | ostd/src/mm/tlb.rs:152-183 | with no other flusher, every CPU is then coherent with the table, but for those in their handler or leaving |
| ShootdownTheorems.WaitIsAnswered | ostd/src/smp.rs:35-94 | a CPU that has not acknowledged is in its handler, or a call and its interrupt are pending or owed |
| ShootdownHandover.LastNameDecides | ostd/src/mm/vm_space.rs:860-1482 | in every run the table maps an address to a frame exactly if the last `map`, remap or `unmap` that concerned the address mapped it there |
| ShootdownHandover.UnnamedStays | ostd/src/mm/vm_space.rs:860-1482 | an address that none of these concerns keeps its translation |
| ShootdownHandover.HandsOverExactly | ostd/src/mm/vm_space.rs:948-1482 | a flusher's kept frames grow by exactly those whose translations it takes out or replaces |
| ShootdownHandover.TakenOutIsKept | ostd/src/mm/tlb.rs:73-93 | whoever takes a translation out of the table has a request for it and keeps its frame |
| ShootdownHandover.HandedOver | ostd/src/mm/tlb.rs:73-93 | a frame handed over is out of the table at its address until it is mapped there again, and once released no CPU has the translation, except while leaving |
| ShootdownHandover.UnmappedFrame | ostd/src/mm/tlb.rs:73-93 | a frame mapped nowhere stays out of the table until it is mapped again, and once released no CPU has any translation to it, except while leaving |
| ShootdownProgress.FlusherProgresses | ostd/src/mm/tlb.rs:110-183 | every step of a dispatch or a wait brings it nearer to its end |
| ShootdownProgress.HandlerProgresses | ostd/src/smp.rs:60-94 | every step of an interrupt handler takes the interrupt, or brings it nearer to its end |
| ShootdownProgress.NeverStuck | ostd/src/mm/tlb.rs:110-277 | in every run, while any flusher dispatches or waits, a flusher that does, or a handler, can make a step |
| ShootdownProgress.FlushCompletes | ostd/src/mm/tlb.rs:110-277 | from any reachable state where nobody else is busy, a dispatch, the handlers it calls and the wait for them can run to the end, and all CPUs that were targets have then performed it |
| ShootdownWindow.LeavingDangles | ostd/src/mm/vm_space.rs:330-351 | whenever a CPU is leaving with a live translation and nobody else is a target, an idle flusher can release the frame under it |
| ShootdownWindow.WindowIsHit | ostd/src/mm/vm_space.rs:343-349 | from any fresh state, for any CPU and any address, the frame mapped there, or any frame if none is, can be released and left in the TLB of a CPU between its removal from the targets and its next table |
| ShootdownWindow.DanglesExactlyWhileLeaving | ostd/src/mm/vm_space.rs:343-349 | a state with a released frame reachable through a dropped translation is reachable for a CPU outside the target set and for none inside it |
| VmSpace.CursorMut.Unmap | ostd/src/mm/vm_space.rs:948-1482 | exactly the mappings of the range are removed, their number is returned, the cursor is at the end, nothing is pending, and the TLB of a target CPU is coherent again despite refills; page by page and with room on the stack, nothing outside the range is flushed; when it panics nothing changes |
| VmSpace.CursorMut.Map | ostd/src/mm/vm_space.rs:860-893 | the page is mapped and the cursor advanced; a page it replaces is flushed at once, and nothing that was not asked for |
| VmSpace.CursorMut.TakeNext | ostd/src/mm/page_table/cursor/mod.rs:3066-3117 | all that was mapped between the old and the new cursor has been taken out: nothing, one page, or one aligned subtree |
| VmSpace.CursorMut.DispatchTlbFlush | ostd/src/mm/tlb.rs:110-150 | on a target CPU exactly the translations covered by the pending requests go, which restores coherence; on another the TLB is untouched |
| VmSpace.UnflushedCoherent | ostd/src/mm/tlb.rs:123-150 | on a CPU that is not a target coherence survives if and only if it had nothing of the range cached |
| MemoryRegions.AsAlignedFits | ostd/src/boot/memory_region.rs:330-352 | the aligned region lies on page boundaries and its computation does not overflow |
| MemoryRegions.AsAlignedSound | ostd/src/boot/memory_region.rs:330-352 | usable regions shrink and others grow, by less than a page at either end |
| MemoryRegions.AsAlignedExact | ostd/src/boot/memory_region.rs:330-352 | the aligned region holds exactly the pages that usable memory fills, or that other memory touches |
| MemoryRegions.LeastTypeMeans | ostd/src/boot/memory_region.rs:890-945 | the selected type occurs around the address and has the least discriminant there; none exactly in a hole |
| MemoryRegions.TypeAtVerdict | ostd/src/boot/memory_region.rs:32-51 | the type of an address is bad memory if any region around it is, else unknown, non-volatile sleep, reserved, kernel, module, framebuffer, reclaimable, and usable only if all are; unknown in a hole |
| MemoryRegions.MaxEndMeans | ostd/src/boot/memory_region.rs:855-888 | an upper bound of all ends that one region attains |
| MemoryRegions.NextBoundaryMeans | ostd/src/boot/memory_region.rs:947-1000 | the next boundary is a boundary, and none lies before it |
| MemoryRegions.SweepTiles | ostd/src/boot/memory_region.rs:638-740 | the pieces tile the range and each carries the selected type of all its addresses |
| MemoryRegions.SweepNeeds | ostd/src/boot/memory_region.rs:638-740 | the sweep makes one piece per distinct positive boundary |
| MemoryRegions.MergedTiles | ostd/src/boot/memory_region.rs:743-842 | merging keeps the tiling and every address's type, and no two neighbours share a type |
| MemoryRegions.NormalizeMeaning | ostd/src/boot/memory_region.rs:582-842 | the result is a page-aligned coalesced tiling from 0 to the last end, each address with the type that the aligned regions give it, which `TypeAtVerdict` spells out |
| MemoryRegions.NormalizeTypes | ostd/src/boot/memory_region.rs:582-842 | the type of each page of the result in terms of the input, by that order; it is usable if and only if a usable region fills the page and no other region touches it |
| MemoryRegions.NormalizeFits | ostd/src/boot/memory_region.rs:582-842 | no computed address exceeds `usize::MAX` |
| MemoryRegions.Canonical | ostd/src/boot/memory_region.rs:388-438 | coalesced tilings with the same end and the same type at every address are equal |
| MemoryRegions.NormalizePermutation | ostd/src/boot/memory_region.rs:582-842 | the result does not depend on the order of the input |
| MemoryRegions.NormalizeOrder | ostd/src/boot/memory_region.rs:582-842 | nor on repetitions, and neither does the room it needs |
| MemoryRegions.NormalizeIdempotent | ostd/src/boot/memory_region.rs:582-842 | normalizing twice is normalizing once |
| MemoryRegions.SecondTimeFits | ostd/src/boot/memory_region.rs:582-842 | the second time needs exactly as much room as the first result has regions |
| MemoryRegions.RoomForPieces | ostd/src/boot/memory_region.rs:536-548 | inputs whose result is one region but whose pieces do not fit in an array of the input's size |
| MemoryRegionArray.RegionArray.Push | ostd/src/boot/memory_region.rs:524-534 | appends, or leaves a full array as it is |
| MemoryRegionArray.RegionArray.AlignAndCompact | ostd/src/boot/memory_region.rs:589-623 | in place, the array holds the aligned regions that are not empty, in order |
| MemoryRegionArray.RegionArray.MaxRegionEnd | ostd/src/boot/memory_region.rs:855-888 | the largest end, 0 without regions |
| MemoryRegionArray.RegionArray.MostRestrictiveType | ostd/src/boot/memory_region.rs:890-945 | the type that wins around an address, from bad memory down to usable, and none exactly in a hole |
| MemoryRegionArray.RegionArray.NextRegionBoundary | ostd/src/boot/memory_region.rs:947-1000 | the first boundary after an address |
| MemoryRegionArray.RegionArray.SweepInto | ostd/src/boot/memory_region.rs:632-740 | fills the result with the pieces, or fails exactly when they do not fit |
| MemoryRegionArray.RegionArray.MergeNeighbours | ostd/src/boot/memory_region.rs:743-842 | merges in place |
| MemoryRegionArray.RegionArray.IntoNonOverlapping | ostd/src/boot/memory_region.rs:582-842 | returns the normal form, whose types `NormalizeTypes` gives, and panics if and only if the distinct positive boundaries outnumber the slots |
| TaskSwitch.StepInv | ostd/src/task/processor.rs:36-142 | every load, store and compare-and-exchange keeps the invariants of slots, flags, references and contexts |
| TaskSwitch.OnePlace | ostd/src/task/processor.rs:36-142 | a task is in at most one of all CPUs' claimed, current, previous and outgoing places |
| TaskSwitch.FlagIsExact | ostd/src/task/processor.rs:88-126 | `switched_to_cpu` is set for a task exactly while it is in one of these places |
| TaskSwitch.SlotsHoldReferences | ostd/src/task/processor.rs:67-69 | each place keeps its task alive by one leaked reference that no other place and no variable has |
| TaskSwitch.PreviousIsEmpty | ostd/src/task/processor.rs:67-69 | the previous slot is empty whenever a switch stores into it |
| TaskSwitch.ContextsAreExclusive | ostd/src/task/processor.rs:62-86 | a context is loaded only after it was saved, and no other CPU has either of the two tasks |
| TaskSwitchCalls.SwitchReturns | ostd/src/task/processor.rs:36-142 | when a switch returns the next task is current on the reference handed in, the previous slot is empty, and the task it came from has had its flag cleared and its reference given back |
| TaskSwitchCalls.WaitsForFlag | ostd/src/task/processor.rs:88-106 | a switch has a step to make exactly unless it waits for the flag of the next task |
| TaskSwitchCalls.SwitchProgresses | ostd/src/task/processor.rs:36-142 | every step of a switch brings it nearer to its end |
| CpuSets.CountIsCardinality | ostd/src/cpu/set.rs:235-269 | the sum of the words' population counts is the number of members |
| CpuSets.FullIff | ostd/src/cpu/set.rs:313-360 | every word is the full one if and only if every CPU is a member |
| CpuSets.EmptyIff | ostd/src/cpu/set.rs:278-305 | every word is zero if and only if there is no member |
| CpuSets.TrimmedMembers | ostd/src/cpu/set.rs:480-493 | masking the last word drops the CPUs that do not exist and no other |
| CpuSets.CpuSet.Full | ostd/src/cpu/set.rs:133-137 | the set of all CPUs, with clear tail bits |
| CpuSets.CpuSet.Empty | ostd/src/cpu/set.rs:145-158 | the empty set |
| CpuSets.CpuSet.ClearNonexistentCpuBits | ostd/src/cpu/set.rs:480-493 | keeps exactly the existing CPUs of any words |
| CpuSets.CpuSet.Add | ostd/src/cpu/set.rs:168-186 | adds the CPU and nothing else, also when the vector must grow |
| CpuSets.CpuSet.Remove | ostd/src/cpu/set.rs:196-212 | removes the CPU and nothing else |
| CpuSets.CpuSet.Contains | ostd/src/cpu/set.rs:220-227 | membership |
| CpuSets.CpuSet.Count | ostd/src/cpu/set.rs:235-269 | the cardinality |
| CpuSets.CpuSet.IsEmpty | ostd/src/cpu/set.rs:278-305 | exact |
| CpuSets.CpuSet.IsFull | ostd/src/cpu/set.rs:313-360 | exact |
| CpuSets.CpuSet.AddAll | ostd/src/cpu/set.rs:371-374 | all CPUs, tail bits clear |
| CpuSets.CpuSet.Clear | ostd/src/cpu/set.rs:384-396 | none |
| CpuSets.CpuSet.Iter | ostd/src/cpu/set.rs:408-447 | exactly the members, in strictly ascending order |
| CpuSets.LoadedMeans | ostd/src/cpu/set.rs:541-568 | a racing load contains every CPU that is a member throughout, and only CPUs that are members at some load |
| CpuSets.LastOpDecides | ostd/src/cpu/set.rs:593-608 | after any atomic operations, the last one on a CPU decides whether it is a member |
| CpuSets.LoadSeesChange | ostd/src/cpu/set.rs:541-568 | a racing load sees the last change of a CPU before its word is loaded |
| CpuSets.LoadedHasNoTail | ostd/src/cpu/set.rs:558-568 | racing with any changes of existing CPUs, a load has clear tail bits |
| CpuSets.StoredMeans | ostd/src/cpu/set.rs:570-590 | a store racing with changes of other CPUs stores the membership of a CPU |
| CpuSets.StoredThenChanged | ostd/src/cpu/set.rs:570-590 | a change of a CPU after its word has been stored is not overwritten |
| CpuSets.AtomicCpuSet.Load | ostd/src/cpu/set.rs:558-568 | loads word by word whatever others do in between, into a proper set of existing CPUs |
| CpuSets.AtomicCpuSet.Store | ostd/src/cpu/set.rs:581-590 | stores word by word whatever others do in between |
| CpuSets.AtomicCpuSet.Add | ostd/src/cpu/set.rs:593-599 | adds the CPU and nothing else |
| CpuSets.AtomicCpuSet.Remove | ostd/src/cpu/set.rs:602-608 | removes the CPU and nothing else |
| CpuSets.AtomicCpuSet.Contains | ostd/src/cpu/set.rs:618-623 | membership |
| VirtMem.TranslInjective | ostd/specs/mm/virt_mem.rs:93-104 | with disjoint mappings different addresses translate to different bytes |
| VirtMem.ReadWrite | ostd/specs/mm/virt_mem.rs:106-132 | a write is seen at its address and nowhere else |
| VirtMem.WriteBytesMeaning | ostd/specs/mm/virt_mem.rs:134-146 | what writing a range does to every address |
| VirtMem.ReadBackBytes | ostd/specs/mm/virt_mem.rs:134-161 | reading back returns the bytes written |
| VirtMem.MemcpyIsWriteBytes | ostd/specs/mm/virt_mem.rs:846-863 | copying backwards byte by byte is writing the bytes read |
| VirtMem.MemcpyMeaning | ostd/specs/mm/virt_mem.rs:846-939 | the destination has the source's bytes and no other address changes |
| VirtMem.SplitJoin | ostd/specs/mm/virt_mem.rs:399-419 | splitting and joining gives the view back |
| VirtMem.SplitReads | ostd/specs/mm/virt_mem.rs:420-454 | each part reads like the whole on its side |
| VirtMem.SplitLeftExact | ostd/specs/mm/virt_mem.rs:236-263 | the left part has exactly the mappings, and the frames of the mappings, with an address in the range |
| VirtMem.SplitRightExact | ostd/specs/mm/virt_mem.rs:236-263 | the right part has exactly those with an address from the end on |
| VirtMem.WriteThroughSplit | ostd/specs/mm/virt_mem.rs:243-263 | a write to the left part survives the join if and only if its mapping does not straddle the split, or the byte does not change |
| VmIo.CopyNonoverlapping | ostd/specs/mm/virt_mem.rs:883-939 | the recursive copy computes the copy specification |
| VmIo.MemcpyFallible | ostd/src/mm/io.rs:78-83 | copies the bytes before the first fault and reports their number |
| VmIo.VmReader.Read | ostd/src/mm/io.rs:792-852 | copies the smaller of what remains and what is available, advances both cursors by it, and changes no other address |
| VmIo.VmReader.ReadFallible | ostd/src/mm/io.rs:2072-2103 | the same up to a page fault, and complete exactly without one |
| VmIo.VmReader.ReadVal | ostd/src/mm/io.rs:1073-1094 | returns the bytes, or leaves the cursor where it was; which error, both directions |
| VmIo.VmReader.Limit | ostd/src/mm/io.rs:1597-1602 | shortens what remains, never lengthens it |
| VmIo.VmReader.Skip | ostd/src/mm/io.rs:1622-1626 | advances, or panics exactly when fewer bytes remain |
| VmIo.VmWriter.Limit | ostd/src/mm/io.rs:1731-1736 | shortens the room, never lengthens it |
| VmIo.VmWriter.Skip | ostd/src/mm/io.rs:1756-1760 | advances, or panics exactly when there is less room |
| VmIo.VmWriter.Fill | ostd/src/mm/io.rs:390-495 | fills the room with copies of the value, and panics exactly when alignment or size do not fit |
| VmIo.FillMeaning | ostd/src/mm/io.rs:390-495 | after a fill each byte is the value's byte at its place, and no other address changes |
| VmIo.VmWriter.FillZeros | ostd/src/mm/io.rs:1871-1889 | zeroes up to the room, the length and the fault, and reports which |
| VmIo.VmWriter.WriteVal | ostd/src/mm/io.rs:1827-1847 | writes the value, or leaves the cursor where it was with the bytes before the fault written |

## Left out

- Weak memory orderings: all atomic operations are sequentially consistent steps.
- Fairness: spin loops are retried attempts; the theorems are invariants, properties of whole calls, progress measures, absence of deadlock in the shootdown and "someone still owes progress" in the mutex, not that a scheduler lets it happen.
- Scheduler park and unpark: a waiter is blocked until its flag is set.
- Wakeups of `RwMutex` callers that use bare `try_read` or `try_upread`: their retractions wake nobody, and the model does not claim that none is lost.
- Counter width of the wait queue: the source assumes fewer than 2^32 queued wakers (ostd/src/sync/wait.rs:259), and counting up is enabled only then.
- `wait_until_or_cancelled`: only the uncancelled wait is modelled.
- WaitQueueObject.WaitQueue.WakeOne: an undisturbed call; what others do while the lock is dropped between rounds is in the step system `WaitQueue`.
- WaitQueueObject.WaitQueue.WakeAll: an undisturbed call, for the same reason.
- VmSpace.CursorMut.DispatchTlbFlush: the part on the local CPU; the remote queues are in the step system `Shootdown`.
- SpinLock internals: the spin lock of the wait queue is a critical section with explicit steps, those of the flush queues an exclusion of steps.
- Page-table cursor internals, huge pages, page properties, frame metadata and RCU: `take_next` removes the next base page or one aligned subtree.
- `va + len` overflow in `unmap`: a precondition, as the source assumes.
- The page keeper, commented out in the source, is modelled as the comments have it, as a set of frames.
- Global memory views, pointer provenance, typed and volatile accesses beyond their bytes, wrap-around of pointers at the top of the address space.
- Frame size and alignment metadata of `FrameContents`: a frame is its bytes.
- `__memcpy_fallible` and `__memset_fallible`: modelled as transferring the bytes before the fault, which the source leaves to the architecture code.
- Schedule handlers, kernel stacks and interrupt masking in task switching: a CPU inside a switch is not preempted.
- Boot, SMP start-up, console, logging, user mode, PCI and the tools: plumbing.

# Caffeinix kernel: a verified model of its memory, scheduling and synchronisation core

Caffeinix is a small RISC-V kernel with a Linux-like system call interface. This project models the
parts of it in which a wrong step is hardest to see: copy-on-write memory, the red-black tree under
the run queue, the fair scheduler, the buddy allocator, the list of virtual memory areas, the virtio
split ring, signals, wait queues, timed waits, futexes, pipes, the memory range set and the tick
conversions.
Everything is stated for all inputs, all interleavings or all runs, and is proved by Dafny's verifier
(`dafny verify dfyconfig.toml`).

The project has two layers.

* Modules on values describe what an operation does to the state and carry the main theorems:
  `CopyOnWrite` and `CowMachine`, `RedBlack`, `Scheduler`, `SchedulerSafety` and
  `SchedulerEffects`, `Buddy`, `Vma`, `VmaGap` and `VmaCanonical`, `Virtqueue`, `SignalWakeup`, `Signals`
  and `SignalMail`, `WaitQueues`, `WakeOrder` and `TimedWaits`, `Futex`, `FutexOrder` and `FutexRuns`,
  `Ktime`, `Memrange`, `Pipe`, `PipeRuns` and `PipeAnswers`.
* Modules with classes follow the C code statement by statement, with its loops, in-place updates
  and PANICs, and are proved to do exactly what the value layer says: `CowKernel`, `RedBlackHeap`,
  `Timeline`, `SchedulerKernel`, `BuddyKernel`, `Palloc`, `VmaKernel`, `VirtqueueKernel`, `SignalKernel`,
  `WaitKernel`, `PipeKernel` and the class in `Memrange`.

`Common` and `Arithmetic` hold what several of them share.

## Main results

* **Copy-on-write is invisible.** Over every run of mmap, munmap, mprotect, fork (with failures at any
  point), faults, stores, exit, reclaim and page-cache activity, the private memory of every process,
  which is its anonymous pages and every page of a private file mapping from the first store on, equals
  that of a reference machine that copies eagerly at fork (`CowMachine.Refines`), and a load that the
  hardware lets through reads those bytes (`CowMachine.LoadReads`). A fork succeeds exactly when the areas
  can be cloned, the page tables can be had and no reference count overflows (`CowMachine.ForkExact`), and
  every answer of a fault comes exactly in its case (`CopyOnWrite.FaultCorrect`).
* **Red-black tree.** Insertion and erasure of any node restore every colour rule, change the in-order
  sequence by exactly that node and keep parent and child pointers consistent; `rb_first` and `rb_next`
  enumerate exactly the sequence (`RedBlack.InsertCorrect`, `RedBlack.EraseCorrect`,
  `RedBlackHeap.Root.InsertColor`, `RedBlackHeap.Root.Erase`, `RedBlackHeap.Root.Enumerate`).
* **Scheduler.** Over every run on any number of CPUs no PANIC is reached, no thread is lost or in two
  places, the books of the run queue are exact, queued work always leaves some CPU awake, and no thread
  that can run falls more than the wake-up granularity behind the minimum (`SchedulerSafety.Safe`,
  `SchedulerSafety.WhereThreadsAre`, `SchedulerSafety.NextLeast`). The minimum rises to the least virtual
  runtime of the threads that can run whenever all of them are above it (`SchedulerEffects.StopMinimum`,
  `SchedulerEffects.EnqueueMinimum`, `SchedulerEffects.NextMinimum`), and a thread pays exactly for the time
  it has run (`SchedulerEffects.SlicePaid`).
* **Buddy allocator.** Free and allocated blocks partition every region, the free blocks are determined
  by the free pages alone, an allocation fails exactly when no free aligned run exists, and a wrong free
  is rejected without a change (`Buddy.Complete`, `Buddy.Canonical`, `BuddyKernel.Allocator.Alloc`,
  `BuddyKernel.Allocator.Free`). The page allocator on top of it never hands out a page in use, and its
  PANICs for a referenced new page and for a last reference that cannot be freed are unreachable
  (`Palloc.Pages.AllocPages`, `Palloc.Pages.PFree`).
* **Virtual memory areas.** The list refines a map from addresses to attributes: insert, unmap, protect
  and clone change it on exactly their range, failures change nothing, the list stays sorted, disjoint
  and maximally merged, and references equal the number of areas that hold them. One call breaks this:
  `vma_insert_elf_file` can report an error after it has changed a shared page;
  `VmaKernel.ElfFailureExample` gives such a call, `VmaKernel.ElfFailure` says exactly when it happens, and
  `VmaKernel.TakenMerged` says exactly when the list then stays maximally merged. Merging is decided by the
  two addresses at a boundary (`VmaCanonical.MergeExact`); lists without partly filled file areas that mean
  the same are the same list (`VmaCanonical.Canonical`), and with such areas that fails
  (`VmaCanonical.NotCanonical`).
* **Virtio ring.** No run of driver and device, with failed additions, any reset and any wrap of the
  16-bit indices, reaches a PANIC; every token is returned at most once and none is lost (`Virtqueue.Safe`).
* **Signals.** No interleaving loses a wake-up (`SignalWakeup.NoLostWakeup`), and dropping the second look
  at the sequence number would lose one (`SignalWakeup.SecondLookNeeded`). Queues, the exclusion of
  SIGCONT and stop signals, and single targeting hold over every run (`Signals.Safe`). Seen as mail, every
  operation does to the messages of every signal at every place exactly what a machine of simple queues
  does (`SignalMail.MailRefines`).
* **Wait queues.** Expiry wakes exactly the threads that are due, requeueing keeps order and loses nobody
  (`WaitQueues.ExpireExact`, `Futex.RequeueOrder`), and in no run does a wait report a timeout before the
  time it asked for has passed (`TimedWaits.NoEarlyTimeout`) or does a thread sleep on past it once an expiry
  pass has looked (`TimedWaits.NobodyOversleeps`). A wake reaches exactly the oldest waiters that match, as
  many as asked for (`WakeOrder.WakeMaskExact`, `FutexOrder.WakeKeyExact`).
* **Futexes.** No run reaches a PANIC and the slots stay consistent (`FutexRuns.Safe`). The slot counts are
  not always exact: a waiter that an exit request meets between taking its slot and giving it back never
  gives it back. `FutexRuns.LeakExample` is such a run, and `FutexRuns.ExactWhen` proves that every count is
  the number of threads that will give the slot back exactly when no waiter has been caught that way.
* **Pipes.** In every interleaving of readers and writers the bytes read are a prefix of the bytes
  accepted, every call reports exactly the bytes it moved even after a fault in the middle of a copy, a
  write of at most PIPE_BUF bytes is all or nothing and contiguous, and end of file means that every
  accepted byte has been read (`PipeRuns.ReadsArePrefix`, `PipeRuns.ReadsReport`,
  `PipeRuns.SmallWritesAtomic`, `PipeRuns.EndOfStream`). Every answer of a turn comes exactly in its case
  (`PipeAnswers.ReadTurnExact`, `PipeAnswers.WriteTurnExact`, `PipeAnswers.ReadFinishExact`).
* **Ranges and time.** The range set is a set of addresses (`Memrange.AddMeaning`,
  `Memrange.RemoveMeaning`, `Memrange.ContainsExact`, `Memrange.TotalCounts`); tick conversions are the
  exact ceiling, so timed waits are never early (`Ktime.ToTicksExact`, `Ktime.NeverEarly`). The way from
  ticks to nanoseconds wraps past the end of 64 bits; `Ktime.TicksToNsExact` says exactly when.

## Reading the model

Environment choices are parameters: whether an allocation succeeds, which frame the allocator hands
out, which page of the destination faults, what the clock and the device show, whether a sleep is
interrupted. A PANIC is a result value that the theorems prove unreachable. Locks are modelled by the
granularity of the steps: what the code does under one lock is one step, and steps of different threads
interleave freely. 64-bit and 16-bit arithmetic is written out where it can wrap.

## Model

| member | source | states |
|---|---|---|
| CopyOnWrite.SoleHolder | kernel/palloc.c:330-341 | A frame with one reference that an entry maps is mapped by that entry alone and is not in the page cache: the test on which resolving a copy-on-write entry in place rests |
| CopyOnWrite.PFreeKeeps | kernel/palloc.c:289-312 | Dropping one counted reference keeps every reference count equal to the number of holders, and frees the frame with the last one |
| CopyOnWrite.ResolveCowKeeps | arch/riscv/vm.c:505-537 | Resolving a copy-on-write entry keeps the invariant and every process's bytes; success leaves the entry writable, anything else changes nothing, and a writable or copy-on-write entry is never reported as not copy-on-write |
| CopyOnWrite.ResolveCowExact | arch/riscv/vm.c:505-537 | A copy-on-write entry is resolved exactly when its frame has no other holder or a frame is free; alone it keeps its frame, otherwise it moves to the new frame, which has one reference and the old bytes, and the old frame has one reference fewer; no other entry or frame changes |
| CopyOnWrite.FaultCorrect | kernel/mmap.c:532-658 | For every fault: each result comes exactly in its case (no area, access not allowed, out of memory by the condition OutOfMemory, bus error, retry), an error changes nothing, the entry and the frames after a success are given in full, no fault changes a byte of any page, private or shared, that a process sees, and success lets the access through (a first write fault may leave a copy-on-write entry for the next fault) |
| CopyOnWrite.StorePrivate | kernel/mmap.c:532-658 | A store the hardware permits to a private page changes that byte of that page only: no other process, no shared page, no cached page |
| CopyOnWrite.StoreSeen | kernel/mmap.c:532-658 | A store changes one byte for every process that maps the frame and for nobody else, and marks only its own entry dirty |
| CopyOnWrite.StoreShared | kernel/mmap.c:532-658 | A store to a shared page reaches no private anonymous page and no written private file page of any process |
| CopyOnWrite.ProtectPageKeeps | arch/riscv/vm.c:451-503 | Changing the protection of a page keeps the invariant (no shared frame becomes writable through a private entry) and every byte |
| CopyOnWrite.UnmapPageKeeps | arch/riscv/vm.c:330-350 | Unmapping a page removes its entry and its area, drops exactly its reference, and touches no other page |
| CopyOnWrite.ReclaimPageKeeps | kernel/mmap.c:282-340 | Dropping a clean private anonymous page loses nothing: it reads as zeroes before and after |
| CopyOnWrite.CopyEntryKeeps | arch/riscv/vm.c:549-594 | Sharing one entry with the child keeps the invariant: afterwards both have the same entry on the same frame, a shared one as it was and a private one without write access, and both read the same bytes |
| CowMachine.ProtectRangeKeeps | arch/riscv/vm.c:451-503 | Protecting a range changes the protection of exactly its areas and no byte anywhere |
| CowMachine.UnmapRangeKeeps | arch/riscv/vm.c:330-350 | Unmapping a range removes exactly its areas and entries; every other page keeps its bytes |
| CowMachine.CopyRangeKeeps | arch/riscv/vm.c:549-609 | The fork walk, stopped anywhere by a failure, keeps the invariant and everything outside the child; if it finishes, the child has the parent's bytes |
| CowMachine.CopyRangeFits | arch/riscv/vm.c:549-609 | The walk succeeds exactly when every table page can be had and no frame would get more references than can be counted; it then adds one reference for each page shared |
| CowMachine.ForkExact | kernel/mmap.c:61-83 | A fork succeeds exactly when the walk can and the areas can be cloned |
| CowMachine.ForkRefines | kernel/mmap.c:61-83 | Fork is an eager copy exactly when the condition for its success holds, and invisible otherwise |
| CowMachine.ExitRefines | arch/riscv/vm.c:330-350 | An exit removes exactly the memory of that process from the reference machine |
| CowMachine.StepRefines | kernel/mmap.c:532-658 | Each step (mmap, munmap, mprotect, fork, fault, store, exit, reclaim, page-cache fill, write and drop) is the corresponding step of the eager machine or no step |
| CowMachine.Refines | arch/riscv/vm.c:451-609 | Over every run, the private memory of every process, written pages of private file mappings included, is what it would be had every fork copied it at once |
| CowMachine.LoadReads | arch/riscv/vm.c:77-99 | In every reachable state a load that the hardware lets through on a private anonymous page, or on a private file page that has been written, reads the reference machine's bytes |
| CowKernel.Memory.Put | kernel/palloc.c:289-312 | pfree on the frame table: one reference less, the frame gone with the last |
| CowKernel.Memory.TryGet | kernel/palloc.c:314-328 | palloc_get: refused exactly at the reference limit or for a page without references |
| CowKernel.Memory.Resolve | arch/riscv/vm.c:505-537 | The code of vm_resolve_cow is the value-level resolution; it fails exactly when a frame with other holders needs a copy and none is free |
| CowKernel.Memory.HandleMapped | kernel/mmap.c:558-600 | The part of mmap_handle_fault for a mapped page is the value-level fault |
| CowKernel.Memory.HandleFault | kernel/mmap.c:532-658 | The code of mmap_handle_fault, with every failure path giving its page back, is the value-level fault |
| CowKernel.Memory.Unmap | arch/riscv/vm.c:330-350 | The unmap loop is the value-level unmap of the range |
| CowKernel.Memory.Protect | arch/riscv/vm.c:451-503 | The protect loop is the value-level protection of the range |
| CopyOnWrite.ProtectedExclusive | arch/riscv/vm.c:469-500 | mprotect gives an entry no more than the new protection and keeps its frame and dirty bit; a private entry is writable exactly as the sole holder of its frame and copy-on-write exactly otherwise; a shared file entry keeps waiting for the fault that marks the page |
| CowKernel.Memory.ProtectEntry | arch/riscv/vm.c:469-500 | One entry of that loop is the value-level protection; if it leaves the entry writable, the new protection allows it and no other holder of a private frame exists |
| CowKernel.Memory.CopyAt | arch/riscv/vm.c:549-594 | vm_copy_walk at one page: share the entry, or fail without a half-made change |
| CowKernel.Memory.CopyOne | arch/riscv/vm.c:549-594 | The same at a mapped page: the parent loses write access, the reference is counted, the child gets the entry |
| CowKernel.Memory.CopyAll | arch/riscv/vm.c:596-609 | The whole walk equals the value-level copy, also when it stops early |
| CowKernel.Memory.ForkInto | kernel/mmap.c:61-83 | mmap_process_fork: copy, clone the areas, or free everything the child got; it reports success exactly when the references, the table pages and the clone allow it |
| CowKernel.Memory.ReclaimAnonymous | kernel/mmap.c:282-340 | Reclaim frees exactly the clean private anonymous pages it drops, reports the number of frames freed, and falls short of the target only when no clean page is left |
| CowKernel.Memory.Flush | kernel/mmap.c:322-337 | A batch of references is dropped and the frames that became free are counted |
| RedBlack.InsertFixValid | kernel/rbtree.c:49-96 | The insertion fix-up restores root-black, no red-red and equal black height from any tree whose only fault is a red node under a red parent |
| RedBlack.InsertFixInorder | kernel/rbtree.c:49-96 | The insertion fix-up does not change the in-order sequence |
| RedBlack.InsertCorrect | kernel/rbtree.c:49-96 | Linking a red leaf anywhere into a red-black tree and fixing up gives a red-black tree whose sequence has exactly that node inserted at that place |
| RedBlack.EraseFixValid | kernel/rbtree.c:118-191 | The erase fix-up restores every rule for a subtree that lacks one black node |
| RedBlack.EraseFixInorder | kernel/rbtree.c:118-191 | The erase fix-up does not change the in-order sequence |
| RedBlack.EraseCorrect | kernel/rbtree.c:200-237 | Erasing any node of any red-black tree gives a red-black tree whose sequence lacks exactly that node |
| RedBlack.NextAboveCorrect | kernel/rbtree.c:246-258 | Climbing to the first ancestor entered from the left reaches the next node in order, or none exactly at the end |
| RedBlack.PlugValid | tests/rbtree.c:74-83 | A tree is valid exactly when a path and the subtree at its end are |
| RedBlackHeap.Root.RotateLeft | kernel/rbtree.c:13-29 | The rotation on fields is the rotation of the tree, with all parent and child pointers consistent |
| RedBlackHeap.Root.RotateRight | kernel/rbtree.c:31-47 | The mirrored rotation |
| RedBlackHeap.Root.InsertColor | kernel/rbtree.c:49-96 | rb_insert_color on fields computes the value-level fix-up and terminates |
| RedBlackHeap.Root.Recolor | kernel/rbtree.c:58-64 | Red uncle: both turn black, the red grandparent becomes the new focus |
| RedBlackHeap.Root.Straighten | kernel/rbtree.c:65-74 | Black uncle: one or two rotations end the loop |
| RedBlackHeap.Root.ReplaceNode | kernel/rbtree.c:98-109 | The pointer to a node leads to its replacement and back |
| RedBlackHeap.Root.SubtreeFirst | kernel/rbtree.c:111-116 | The leftmost node of a subtree is the first of its sequence |
| RedBlackHeap.Root.EraseFixup | kernel/rbtree.c:118-191 | rb_erase_fixup on fields computes the value-level fix-up and terminates |
| RedBlackHeap.Root.FixStep | kernel/rbtree.c:118-191 | One turn of the loop, for either side |
| RedBlackHeap.Root.LowerRed | kernel/rbtree.c:128-133 | A red sibling is rotated above the parent |
| RedBlackHeap.Root.Push | kernel/rbtree.c:139-145 | Both nephews black: the sibling turns red and the lack moves up |
| RedBlackHeap.Root.Settle | kernel/rbtree.c:146-159 | A red nephew: the last rotations settle the lack |
| RedBlackHeap.Root.LinkNode | kernel/include/rbtree.h:31-44 | rb_link_node puts a red leaf at exactly the given empty place |
| RedBlackHeap.Root.Erase | kernel/rbtree.c:200-237 | rb_erase on fields computes the value-level erase and resets the erased node |
| RedBlackHeap.Root.UnlinkOuter | kernel/rbtree.c:207-214 | A node with at most one child is replaced by it |
| RedBlackHeap.Root.UnlinkInner | kernel/rbtree.c:215-233 | A node with two children is replaced by its successor, which takes its colour |
| RedBlackHeap.Root.First | kernel/rbtree.c:239-244 | rb_first is the first of the sequence, null exactly for the empty tree |
| RedBlackHeap.Root.Next | kernel/rbtree.c:246-258 | rb_next is the node that follows in the sequence, null exactly after the last |
| RedBlackHeap.Root.Enumerate | kernel/rbtree.c:239-258 | rb_first followed by rb_next until null visits every node exactly once, in order |
| Timeline.InsertSorted | kernel/scheduler.c:223-243 | Inserting an entity keeps the run queue sorted by virtual runtime and thread and adds exactly that entity |
| Timeline.RemoveSorted | kernel/scheduler.c:245-254 | Removing an entity keeps the order and removes exactly that entity |
| Timeline.Queue.Search | kernel/scheduler.c:223-243 | The descent finds the one place at which the new thread keeps the order |
| Timeline.Queue.Enqueue | kernel/scheduler.c:223-243 | The tree after enqueue_entity_locked holds the old sequence with the thread inserted in order |
| Timeline.Queue.Dequeue | kernel/scheduler.c:245-254 | The tree after rb_erase holds the old sequence without the thread |
| Timeline.Queue.First | kernel/scheduler.c:507-533 | rb_first of the timeline is the least thread |
| Scheduler.ScaleExact | kernel/scheduler.c:113-117 | scale_runtime, computed in two parts, is the floor of runtime * 1024 / weight modulo 2^64 |
| Scheduler.ScaleFits | kernel/scheduler.c:113-117 | Below the clock limit and from the least weight up, it does not wrap |
| Scheduler.VruntimeMonotone | kernel/scheduler.c:119-129 | The virtual runtime of a thread, as seen at a later time, never runs backwards |
| SchedulerSafety.MinimumBounds | kernel/scheduler.c:272-304 | update_min_vruntime_locked never lowers the minimum and never raises it above a thread that can run |
| SchedulerEffects.MinimumExact | kernel/scheduler.c:272-304 | The minimum rises exactly when there is a candidate below the largest number and all are above it, and then to the least candidate: the selected thread, the queued ones, those pending and those running on a CPU |
| SchedulerEffects.StopMinimum | kernel/scheduler.c:645-673 | A block or an exit brings the minimum up to the least virtual runtime of the threads that can run, exactly when all are above it |
| SchedulerEffects.EnqueueMinimum | kernel/scheduler.c:380-409 | The same for scheduler_enqueue |
| SchedulerEffects.NextMinimum | kernel/scheduler.c:507-533 | The same for scheduler_next |
| SchedulerEffects.AccountExact | kernel/scheduler.c:152-167 | account_runtime adds the time run to the sum and its share by weight to the virtual runtime, both capped |
| SchedulerEffects.NowExact | kernel/scheduler.c:119-129 | entity_vruntime_now is the virtual runtime the thread would have if it were charged now |
| SchedulerEffects.PlaceExact | kernel/scheduler.c:256-270 | A new thread starts at the minimum, any other no lower than the granularity below it |
| SchedulerEffects.EnqueueEffect | kernel/scheduler.c:380-409 | The whole record of the thread after scheduler_enqueue: charged if it ran, otherwise placed by the new minimum |
| SchedulerEffects.NextEffect | kernel/scheduler.c:507-533 | The first thread leaves the queue and is selected; no other thread or CPU changes |
| SchedulerEffects.DispatchEffect | kernel/scheduler.c:535-610 | The thread runs from now on; no other thread or CPU changes |
| SchedulerEffects.YieldEffect | kernel/scheduler.c:635-643 | The thread that yields is charged up to now and queued again; no idle CPU is claimed and no other thread or CPU changes |
| SchedulerEffects.StopEffect | kernel/scheduler.c:645-673 | The thread is charged up to now; no other thread or CPU changes |
| SchedulerEffects.SlicePaid | kernel/scheduler.c:535-673 | From its dispatch to its block or exit a thread pays for exactly that time, by its weight |
| SchedulerEffects.SetNiceEffect | kernel/scheduler.c:461-493 | Out of range nothing changes; otherwise the thread, charged if it runs, has the weight of its nice value and stays queued or not |
| SchedulerEffects.NiceOrder | kernel/scheduler.c:12-28 | A lower nice value weighs more |
| SchedulerEffects.NiceUnit | kernel/scheduler.c:12-28 | At nice 0 virtual time is real time |
| SchedulerEffects.FinishEffect | kernel/scheduler.c:590-608 | After its turn the lock of a thread is free again, or the thread is gone, exactly when it has exited and may be reaped; the CPU picks again |
| SchedulerEffects.SpawnEffect | kernel/thread.c:26-41 | A new thread has run for no time, weighs as nice 0 does and starts at the minimum when it is first woken |
| SchedulerEffects.InheritEffect | kernel/scheduler.c:445-459 | The child gets the weight and the virtual runtime that its parent has now |
| SchedulerEffects.ClaimExact | kernel/scheduler.c:306-323 | Exactly one CPU is marked busy: the caller if it is idle, otherwise the first other CPU that is up and idle, if any |
| SchedulerSafety.UpdateMinFair | kernel/scheduler.c:272-304 | After the update every thread that can run is at most the granularity behind the minimum |
| SchedulerSafety.EnqueueKeepsQueue | kernel/scheduler.c:223-243 | Enqueueing keeps queue order, the on-queue flags, the count and the weight sum |
| SchedulerSafety.EnqueueBooks | kernel/scheduler.c:380-409 | scheduler_enqueue reaches no PANIC, keeps the books and fairness and never lowers the minimum |
| SchedulerSafety.EnqueuePlaces | kernel/scheduler.c:380-409 | scheduler_enqueue moves that thread only: it becomes runnable and queued, no CPU changes what it runs or has selected, no CPU goes idle, and a caller that may claim an idle CPU stays awake itself |
| SchedulerSafety.WakeKeeps | kernel/scheduler.c:380-409 | Waking a blocked thread keeps the whole invariant and never lowers the minimum |
| SchedulerSafety.DispatchKeeps | kernel/scheduler.c:535-610 | Dispatching the selected thread keeps the invariant; its PANICs are not reached |
| SchedulerSafety.OnlineKeeps | arch/riscv/cpu.c:310-320 | A CPU that comes up starts awake and keeps the invariant; until then it takes no step and does not count as awake |
| SchedulerSafety.ReweighKeeps | kernel/scheduler.c:461-493 | Changing the weight of a thread keeps the weight sum and fairness |
| SchedulerSafety.StepKeeps | kernel/scheduler.c:507-683 | Every step (bring a CPU up, select, dispatch, lock, unlock, wake, yield, block, exit, switch, finish, nice, inherit, spawn, time) keeps the invariant and reaches no PANIC |
| SchedulerSafety.Safe | kernel/scheduler.c:507-683 | No run on any number of CPUs reaches a PANIC, and the invariant holds in every reachable state |
| SchedulerSafety.WhereThreadsAre | kernel/scheduler.c:507-683 | A thread is current on at most one CPU; it is runnable exactly when it is on the timeline or selected by one CPU, never both |
| SchedulerSafety.NextLeast | kernel/scheduler.c:507-533 | scheduler_next selects the queued thread with the least virtual runtime, then the lowest thread number, or marks the CPU idle exactly when the queue is empty |
| SchedulerKernel.Cfs.EnqueueEntityLocked | kernel/scheduler.c:223-243 | The code on the tree and the counters is the value-level enqueue |
| SchedulerKernel.Cfs.DequeueEntityLocked | kernel/scheduler.c:245-254 | The same for dequeue; its PANIC fires exactly for a thread that is not queued |
| SchedulerKernel.Cfs.Minimum | kernel/scheduler.c:272-304 | The loop over CPUs and the first queued thread finds the least virtual runtime |
| SchedulerKernel.Cfs.UpdateMinVruntimeLocked | kernel/scheduler.c:272-304 | The new minimum is the value-level one, which is the least candidate exactly when all are above the old |
| SchedulerKernel.Cfs.ClaimIdleCpuLocked | kernel/scheduler.c:306-323 | The first idle online CPU other than this one is claimed and marked busy, if there is one |
| SchedulerKernel.Cfs.PrepareThread | kernel/scheduler.c:390-401 | Charging or placing the thread and the change of state before the insertion |
| SchedulerKernel.Cfs.SchedulerEnqueue | kernel/scheduler.c:380-409 | The code of scheduler_enqueue is the value-level step |
| SchedulerKernel.Cfs.SchedulerNext | kernel/scheduler.c:507-533 | The code of scheduler_next is the value-level step |
| Buddy.RegionFirst | kernel/buddy.c:17-29 | The search finds the first region that contains the page, and none exactly when none does |
| Buddy.PushLists | kernel/buddy.c:77-88 | Adding a block keeps lists, counts and state bytes in agreement, and taking it off again restores lists and counts |
| Buddy.PullLists | kernel/buddy.c:90-97 | Taking a free block off its list keeps them in agreement: it was on that list, the count falls by one, and it is on no list afterwards |
| Buddy.RunInBlock | kernel/buddy.c:213-245 | Free blocks are maximal: a free aligned run lies inside one free block |
| Buddy.Complete | kernel/buddy.c:164-196 | A free block of at least an order exists exactly when some region contains a free aligned run of that order |
| Buddy.Canonical | kernel/buddy.c:213-245 | Two states with the same regions and the same free pages have the same free blocks |
| Buddy.SplitKeeps | kernel/buddy.c:164-196 | The split loop keeps the partition and returns exactly the pages that are not asked for |
| Buddy.CarveKeeps | kernel/buddy.c:164-196 | After an allocation exactly the pages of the new block are no longer free |
| Buddy.MergeStep | kernel/buddy.c:227-241 | One turn of the merge loop keeps the partition with the block twice as large |
| Buddy.ReleaseKeeps | kernel/buddy.c:213-245 | After a free exactly the freed pages have joined the free ones, whatever merges, and nothing mergeable is left |
| Buddy.UsedFits | kernel/buddy.c:64-75 | Every allocated block is aligned, inside one region and of a valid order, so buddy_allocated accepts it |
| Buddy.LargestIs | kernel/buddy.c:99-109 | buddy_largest_order is the largest order that alignment and length allow |
| Buddy.GreedyAlone | kernel/buddy.c:153-162 | The blocks handed over from a new region have no free half to merge with |
| Buddy.SeedKeeps | kernel/buddy.c:123-162 | Handing a region over in greedy blocks makes exactly its pages free |
| BuddyKernel.Allocator.Alloc | kernel/buddy.c:164-196 | Fails exactly when no region contains a free aligned run of the order, and then changes nothing; otherwise exactly such a run becomes one allocated block |
| BuddyKernel.Allocator.Free | kernel/buddy.c:213-245 | Succeeds exactly for the address and order of an allocated block; anything else changes nothing; exactly those pages become free |
| BuddyKernel.Allocator.AddRegion | kernel/buddy.c:123-162 | Accepts exactly the well-formed regions that overlap no other; then exactly its allocatable pages become free |
| BuddyKernel.Allocator.Allocated | kernel/buddy.c:198-211 | True of the address and order of an allocated block and of nothing else |
| BuddyKernel.Allocator.LargestOrder | kernel/buddy.c:99-109 | The loop computes the largest order |
| BuddyKernel.Allocator.FirstNonEmpty | kernel/buddy.c:175-181 | The search stops at the first list from the order on that is not empty |
| BuddyKernel.Allocator.SplitBlock | kernel/buddy.c:188-192 | The split loop is the value-level split |
| BuddyKernel.Allocator.MergeBlock | kernel/buddy.c:227-243 | The merge loop and the insertion are the value-level release |
| BuddyKernel.Allocator.SeedRegion | kernel/buddy.c:153-162 | The hand-over loop is the value-level one |
| Palloc.NewBlock | kernel/palloc.c:266-287 | A block the buddy allocator hands out has a count, and it is 0; setting it to 1 for a single page keeps counts and allocated pages in agreement |
| Palloc.BlockGone | kernel/palloc.c:239-264 | After a block has been freed, with its count 0, counts and allocated pages agree |
| Palloc.Pages.constructor | kernel/palloc.c:194-204 | No range is managed and no page is counted |
| Palloc.Pages.AllocPages | kernel/palloc.c:266-287 | Fails exactly when no free aligned run of the order exists, then without a change; the page is no frame in use, a single page starts with one reference, and the PANIC for a referenced page is not reached |
| Palloc.Pages.FreePages | kernel/palloc.c:239-264 | PANICs exactly when the pointer is not the start of an allocated block of that order, or is a single page whose count is not 1; no other count changes |
| Palloc.Pages.PFree | kernel/palloc.c:289-312 | PANICs exactly when the pointer is no single allocated page; one reference less, and the page goes back exactly with the last; the PANIC for a page that cannot be given back is not reached |
| Palloc.Pages.Get | kernel/palloc.c:314-328 | Refused exactly for what is no single allocated page or at the largest count; otherwise one reference more |
| Palloc.Pages.AddRange | kernel/palloc.c:205-232 | A range is taken exactly when the buddy allocator accepts it; its pages then have counts and no allocated block changes |
| Vma.MergeAllMeaning | kernel/vma.c:119-133 | Merging changes the attributes of no address |
| Vma.MergeAllValid | kernel/vma.c:119-133 | Merging keeps order and leaves nothing to merge |
| Vma.SplitMeaning | kernel/vma.c:48-65 | Cutting an area in two changes the attributes of no address, including file offset and valid file bytes |
| Vma.UnmapMeaning | kernel/vma.c:480-536 | Unmap takes the attributes of exactly [start, end) away |
| Vma.UnmapValid | kernel/vma.c:480-536 | The list is still sorted, disjoint and maximally merged |
| Vma.RecolorMeaning | kernel/vma.c:538-589 | Protect changes the protection on exactly [start, end) and nothing else |
| Vma.InsertMeaning | kernel/vma.c:194-237 | Insert gives exactly the range of the new area its attributes |
| Vma.InsertValid | kernel/vma.c:194-237 | The list is still sorted, disjoint and maximally merged |
| VmaCanonical.MergeExact | kernel/vma.c:82-106 | Two areas can be merged exactly when they touch and the attributes continue from the last address of one to the first of the other |
| VmaCanonical.BoundariesNeeded | kernel/vma.c:119-133 | In a valid list the attributes do not continue across any boundary between touching areas |
| VmaCanonical.Canonical | kernel/vma.c:119-133 | Two valid lists without partly filled file areas that give every address the same attributes are the same list |
| VmaCanonical.NotCanonical | kernel/vma.c:82-106 | With a partly filled file area two different valid lists can mean the same |
| VmaGap.AlignUpLeast | kernel/vma.c:387-402 | align_up_offset gives the least address at or above the value in the residue class |
| VmaGap.AlignUpOverflow | kernel/vma.c:387-402 | Its overflow test fires exactly when the aligned address does not fit in 64 bits |
| VmaGap.AlignDownGreatest | kernel/vma.c:404-414 | align_down_offset gives the greatest address at or below the value in the class, and fails exactly when there is none |
| VmaGap.GapAligned | kernel/vma.c:416-428 | The highest suitable address in one stretch, or none exactly when there is none |
| VmaGap.RangeFree | kernel/vma.c:345-362 | True exactly when no area meets the range |
| VmaGap.TopDown | kernel/vma.c:430-471 | The loop from the last area to the first finds the highest suitable address |
| VmaGap.FindGapAligned | kernel/vma.c:430-471 | The aligned hint if it suits; otherwise the highest suitable address; none exactly when none exists or the request is malformed |
| VmaKernel.VmaSet.Find | kernel/vma.c:328-343 | The area that contains the address, or none exactly when no area does |
| VmaKernel.VmaSet.RangeMapped | kernel/vma.c:364-385 | True exactly when every address of the range lies in an area |
| VmaKernel.VmaSet.MergeAt | kernel/vma.c:108-117 | Two mergeable neighbours become one area and the second's references are dropped |
| VmaKernel.VmaSet.MergeAllAreas | kernel/vma.c:119-133 | The loop is the value-level merge and keeps the reference counts |
| VmaKernel.VmaSet.InsertArea | kernel/vma.c:194-237 | Succeeds exactly for a well-formed range that is free; then exactly that range has the new attributes; a failure changes nothing |
| VmaKernel.VmaSet.LinkArea | kernel/vma.c:194-237 | The area goes to its place and merges with its neighbours where possible |
| VmaKernel.VmaSet.UnmapRange | kernel/vma.c:480-536 | Fails exactly for a malformed range or a needed split that cannot be allocated, without a change; otherwise exactly [start, end) loses its attributes |
| VmaKernel.VmaSet.CutOne | kernel/vma.c:493-532 | One turn of the removal loop: drop, trim or split one area |
| VmaKernel.VmaSet.ProtectRange | kernel/vma.c:538-589 | Fails exactly for a malformed or not wholly mapped range or a missing split, without a change; otherwise exactly [start, end) changes protection |
| VmaKernel.VmaSet.Isolate | kernel/vma.c:548-577 | The areas at both ends are cut there, or nothing changes |
| VmaKernel.VmaSet.RecolorAreas | kernel/vma.c:578-586 | The loop sets the protection of exactly the areas in the range |
| VmaKernel.VmaSet.InsertElf | kernel/vma.c:267-326 | The outcome of vma_insert_elf_file in every case, with the attributes of every address afterwards; after a failure the list is still maximally merged exactly when the page taken over can merge with no neighbour |
| VmaKernel.VmaSet.Destroy | kernel/vma.c:140-152 | All areas go and every reference is dropped |
| VmaKernel.VmaSet.MoveFrom | kernel/vma.c:154-166 | Areas and references change hands; none is dropped or taken |
| VmaKernel.VmaSet.CloneFrom | kernel/vma.c:168-192 | The same areas with their own references, or none when an allocation fails; the source is unchanged |
| VmaKernel.ElfFailure | kernel/vma.c:267-326 | A failed insertion leaves every address as it was exactly when the page shared with the previous segment, if any, would keep its attributes |
| VmaKernel.TakenMerged | kernel/vma.c:267-326 | The list with the page taken over is maximally merged exactly when that page can merge neither with the area before it nor with the one after it |
| VmaKernel.ElfMeaning | kernel/vma.c:267-326 | What every address means afterwards, in terms of the segment: the shared page allows what either allows and never both writing and executing, the rest reads its file from its offset on and is zero behind it |
| VmaKernel.ElfFailureExample | kernel/vma.c:267-326 | A failed insertion that changes an address exists |
| Virtqueue.AddKeeps | drivers/virtio/ring.c:119-187 | Adding a chain keeps the descriptors partitioned between the free list and disjoint chains |
| Virtqueue.AddFailsKeeps | drivers/virtio/ring.c:175-186 | A failed mapping gives back what it took: the free descriptors are the same set in another order, and the invariant holds |
| Virtqueue.ReleaseKeeps | drivers/virtio/ring.c:197-230 | Releasing a chain returns exactly its descriptors to the free list |
| Virtqueue.FewOutstanding | drivers/virtio/ring.c:119-187 | Chains waiting, held and completed never exceed the descriptors in use |
| Virtqueue.SameSlot | drivers/virtio/ring.c:168-171 | A 16-bit index and the unbounded count behind it name the same slot, through every wrap |
| Virtqueue.ReapStepKeeps | drivers/virtio/ring.c:245-271 | virtqueue_get_used sees exactly the completed chains in order and does not reach its PANICs |
| Virtqueue.DetachStepKeeps | drivers/virtio/ring.c:273-291 | After a reset each outstanding token is returned once |
| Virtqueue.StepKeeps | drivers/virtio/ring.c:100-291 | Every step of driver or device, a failed addition and a reset included, keeps the invariant |
| Virtqueue.Safe | drivers/virtio/ring.c:100-291 | No run reaches a PANIC; every added token has been returned at most once and is otherwise outstanding |
| VirtqueueKernel.AcceptedSizes | drivers/virtio/ring.c:8-33 | The tests on the size leave exactly the powers of two up to 256 |
| VirtqueueKernel.Create | drivers/virtio/ring.c:20-73 | No queue exactly for a size that is refused or without memory; otherwise every descriptor is free and no token is held |
| VirtqueueKernel.Queue.constructor | drivers/virtio/ring.c:37-66 | A new queue represents the initial driver state |
| VirtqueueKernel.Queue.AllocDesc | drivers/virtio/ring.c:100-109 | The head of the free list is taken |
| VirtqueueKernel.Queue.FreeDesc | drivers/virtio/ring.c:111-117 | The descriptor goes to the head of the free list |
| VirtqueueKernel.Queue.Add | drivers/virtio/ring.c:119-187 | The return code exactly in every case; on success each buffer is described in order by its own descriptor (address, length, whether the device may write, what follows), no other descriptor changes, and one chain is published; a failed mapping restores the same free set and mappings |
| VirtqueueKernel.Queue.Unwind | drivers/virtio/ring.c:175-186 | The error path gives back every descriptor and mapping |
| VirtqueueKernel.Queue.Publish | drivers/virtio/ring.c:164-173 | Labels, token and available entry of the new chain |
| VirtqueueKernel.Queue.CheckChain | drivers/virtio/ring.c:199-212 | The first loop never panics on an outstanding chain |
| VirtqueueKernel.Queue.FreeChain | drivers/virtio/ring.c:214-229 | The second loop unmaps, clears to zero and frees exactly the descriptors of the chain |
| VirtqueueKernel.Queue.TakeBack | drivers/virtio/ring.c:197-230 | The token is handed back and the chain released |
| VirtqueueKernel.Queue.GetUsed | drivers/virtio/ring.c:232-271 | Null exactly when nothing is pending; a PANIC exactly for an index or head the device must not show; otherwise the token of that chain |
| VirtqueueKernel.Queue.DetachUnused | drivers/virtio/ring.c:273-291 | The token of the outstanding chain with the lowest head, or null exactly when none is outstanding |
| VirtqueueKernel.FilledAt | drivers/virtio/ring.c:139-163 | Each buffer ends in its own descriptor |
| VirtqueueKernel.FilledDescribes | drivers/virtio/ring.c:139-163 | The chain tells the device the buffers in order: address, length, write flag set exactly for buffers from the device, and the link to the next |
| SignalWakeup.StepKeeps | kernel/wait.c:47-147 | Every step of the sleeper and of any number of senders keeps the invariant |
| SignalWakeup.NoLostWakeup | kernel/signal.c:268-312 | In no reachable state is the thread asleep with an unblocked signal pending and no sender still on its way to wake it |
| SignalWakeup.SleeperExact | kernel/wait.c:90-124 | The thread gives up the sleep exactly for an unblocked signal it sees or a sequence that has moved, and a wake reaches it exactly when it sleeps |
| SignalWakeup.SecondLookNeeded | kernel/wait.c:107-124 | Without the second look at the sequence number a lost wake-up is reachable |
| Signals.StoreKeeps | kernel/signal.c:382-414 | Storing fails exactly for a real-time signal at the limit or without memory; a real-time signal goes behind its earlier ones and no other signal changes |
| Signals.TakeOneKeeps | kernel/signal.c:495-550 | A take yields the oldest entry of its signal, and the bit is cleared exactly with the last one |
| Signals.ClearAllKeeps | kernel/signal.c:200-213 | After clearing, another signal is pending somewhere exactly when it was before, and this one nowhere |
| Signals.RetargetKeeps | kernel/signal.c:281-312 | After retargeting a pending signal is aimed at a thread exactly when some thread can take it |
| Signals.ChangeMaskKeeps | kernel/signal.c:314-327 | After a mask change each pending process signal is aimed at a thread exactly when some thread can take it, and at most at one |
| Signals.DetachKeeps | kernel/signal.c:329-343 | A leaving thread is aimed at no more; each signal it was to take is aimed at another thread exactly when another can take it; no other signal moves |
| Signals.PrepareKeeps | kernel/signal.c:345-366 | SIGCONT clears stop signals and a stop signal clears SIGCONT, in the process and every thread |
| Signals.QueueProcessKeeps | kernel/signal.c:416-433 | Sending to a process keeps the invariant |
| Signals.QueueThreadKeeps | kernel/signal.c:435-455 | Sending to a thread keeps the invariant |
| Signals.TakeKeeps | kernel/signal.c:495-550 | A take yields the lowest available signal without a PANIC, and nothing exactly when none is available |
| Signals.Safe | kernel/signal.c:178-550 | Over every run: real-time bits and queues agree, SIGCONT and a stop signal are never pending together (section 2.4.1 of POSIX.1-2017 System Interfaces), each process signal is aimed at no more than one thread and only while pending |
| SignalMail.SendProcess | kernel/signal.c:416-433 | A signal sent to a process arrives exactly when it is valid, not ignored and has room, and is then aimed at a thread exactly when one can take it; what it cancels is gone everywhere and no other message changes |
| SignalMail.SendThread | kernel/signal.c:435-455 | The same for a signal sent to a thread |
| SignalMail.PrepareMail | kernel/signal.c:345-366 | SIGCONT and the stop signals drive each other out of every place; nothing else changes, and the process runs again after SIGCONT and SIGKILL |
| SignalMail.TakeMail | kernel/signal.c:495-550 | A take yields the first message of the lowest signal the thread may take, its own before those of the process, or nothing exactly when there is none, and removes exactly that message |
| SignalMail.TakersExact | kernel/signal.c:215-312 | A signal finds a thread exactly when some live thread other than the excluded one does not block it, and stays where it is aimed exactly when that thread is such a one |
| SignalMail.RetargetFirst | kernel/signal.c:281-312 | A pending signal that nobody keeps is aimed at the first thread that can take it and at no other |
| SignalMail.MailRefines | kernel/signal.c:178-550 | Every operation does to the messages of every signal at every place exactly what the machine of simple queues does |
| SignalKernel.ClearPending | kernel/signal.c:178-198 | The loop drops exactly the queued entries of one signal |
| SignalKernel.TakePending | kernel/signal.c:495-550 | The search and removal are the value-level take |
| SignalKernel.ProcessSignals.ClearSignal | kernel/signal.c:200-213 | The loop over threads is the value-level clear |
| SignalKernel.ProcessSignals.UntargetAll | kernel/signal.c:255-266 | No thread is a target of the signal afterwards |
| SignalKernel.ProcessSignals.RetargetSignal | kernel/signal.c:281-312 | The loops are the value-level retargeting; the thread to be woken is the one that gets the signal |
| SignalKernel.ProcessSignals.DetachThread | kernel/signal.c:329-343 | The loop over signals is the value-level detachment |
| SignalKernel.FirstOf | kernel/signal.c:495-550 | The loop stops at the lowest signal of the set |
| SignalKernel.ProcessSignals.TakeSet | kernel/signal.c:495-550 | The loop over signals takes the lowest one the thread may take |
| WaitQueues.SleepKeeps | kernel/wait.c:76-128 | Going to sleep puts the thread last on its queue and on the timeout list exactly when it has a deadline, with that deadline and mode; nobody else is affected |
| WaitQueues.InsertInOrder | kernel/wait.c:31-45 | The timeout list stays in order of deadline |
| WaitQueues.WakeKeeps | kernel/wait.c:210-228 | A waiting thread can be woken without a PANIC, has the result it was woken with and is on no list; nobody else is affected |
| WaitQueues.WakeListKeeps | kernel/wait.c:250-266 | Waking a list of threads wakes exactly those |
| WaitQueues.DueExact | kernel/wait.c:423-443 | The due threads are exactly those whose deadline has come |
| WaitQueues.ExpireExact | kernel/wait.c:423-443 | An expiry pass wakes exactly the sleepers whose deadline has come and reports the timeout to them |
| WaitQueues.WakeMaskKeeps | kernel/wait.c:268-290 | A masked wake wakes the oldest matching threads, up to the count |
| WakeOrder.WakeMaskExact | kernel/wait.c:268-290 | A masked wake reaches exactly the threads that meet the mask and have fewer than the count of such threads before them; they run with result 0 and the others stay in order |
| WaitQueues.RequeueKeeps | kernel/wait.c:292-323 | The oldest threads move, in order, to the end of the other queue; nobody is lost or duplicated |
| WaitQueues.SignalKeeps | kernel/wait.c:360-421 | A signal ends a wait exactly when the thread sleeps interruptibly, or killably and the signal is fatal; termination ends every wait; the thread leaves its queue with that result and nobody else is affected |
| WaitKernel.WaitTable.TimeoutPlace | kernel/wait.c:31-45 | The search stops where the deadline belongs |
| WaitKernel.WaitTable.SleepOn | kernel/wait.c:76-128 | The code that puts the thread to sleep is the value-level step: last on its queue, on the timeout list exactly with a deadline |
| WaitKernel.WaitTable.ExpireAll | kernel/wait.c:423-443 | The loop over the head of the timeout list is the value-level expiry |
| WaitKernel.WaitTable.WakeMatching | kernel/wait.c:268-290 | The loop over the queue wakes exactly the oldest matching threads and counts them |
| WaitKernel.WaitTable.RequeueWaiters | kernel/wait.c:292-323 | The loop is the value-level requeue |
| TimedWaits.ExpireStep | kernel/wait.c:423-443 | An expiry pass times out every thread whose time has passed, leaves none of them asleep, and reports no other timeout |
| TimedWaits.StepKeeps | kernel/wait.c:154-208 | Every step of timed and untimed waits, wakes, requeues and expiry keeps the invariant and reaches no PANIC |
| TimedWaits.Safe | kernel/wait.c:154-208 | The invariant holds over every run with a clock that does not run backwards |
| TimedWaits.NoEarlyTimeout | kernel/wait.c:154-208 | In every run, when a wait reports a timeout at least the time it asked for has passed since it started |
| TimedWaits.TimedWaitKeeps | kernel/wait.c:154-208 | A timed wait times out at once exactly when its time has passed, and otherwise sleeps with that deadline on the timeout list |
| TimedWaits.LateReports | kernel/wait.c:423-443 | In every run, a sleeper that an expiry pass finds past its time reports the timeout when it returns |
| TimedWaits.WokenReports | kernel/wait.c:210-228 | In every run, a sleeper that is woken reports the result that it was woken with |
| TimedWaits.NobodyOversleeps | kernel/wait.c:423-443 | In every run, after an expiry pass no thread sleeps beyond the time it asked for |
| Futex.EnterKeeps | kernel/futex.c:152-187 | Taking a slot keeps the counts, whether there is one for the key, one is set up, or none is free; then nothing changes |
| Futex.PutKeeps | kernel/futex.c:189-200 | Giving a slot back never panics and frees it exactly with the last user |
| Futex.NobodyLeft | kernel/futex.c:189-200 | When the last user gives a slot back, nobody sleeps on its queue |
| Futex.RequeueKeysKeeps | kernel/futex.c:366-427 | A requeue keeps every count and reaches no PANIC |
| Futex.RequeueOrder | kernel/futex.c:366-427 | The oldest waiters are woken, the next oldest move in order behind those of the target, the rest stay in order |
| FutexOrder.WakeKeyExact | kernel/futex.c:337-364 | futex_wake reaches exactly the first waiters of that key that meet the mask, as many as asked for, with result 0; no slot and no other waiter changes |
| FutexOrder.RequeuePlain | kernel/futex.c:366-427 | Without anything to move, or a slot to move it to, futex_requeue is a plain wake |
| FutexOrder.EnterExact | kernel/futex.c:152-187 | A wait takes the slot of its key, sets one up, or does nothing exactly when every slot is in use for other keys; no other slot changes |
| FutexOrder.PutExact | kernel/futex.c:189-200 | One waiter less, and the slot is free again exactly with the last; no other slot changes |
| FutexRuns.StepKeeps | kernel/futex.c:152-427 | Every step of a wait (take the slot, look, sleep, return, give back), wake, requeue, expiry, signal and exit request keeps the invariant and reaches no PANIC |
| FutexRuns.Safe | kernel/futex.c:152-427 | Over every run no PANIC is reached, active slots have different keys, and each count is the number of threads that hold the slot, dead ones included |
| FutexRuns.DoomStep | kernel/wait.c:57-146 | A step dooms exactly the thread that it catches with an exit request while it holds a slot, and a doomed thread stays doomed |
| FutexRuns.DoomedWhen | kernel/wait.c:57-146 | In a run some thread is doomed exactly when the run has caught a waiter |
| FutexRuns.ExactWhen | kernel/futex.c:257-335 | Every count is the number of threads that will give the slot back exactly when no waiter has been caught by an exit request |
| FutexRuns.LeakExample | kernel/futex.c:257-335 | An exit request that comes before the waiter sleeps leaves its slot counted with nobody to give it back |
| Ktime.ToTicksExact | kernel/ktime.c:68-110 | The conversion is the exact ceiling of duration times frequency over unit, or the largest number when that does not fit |
| Ktime.PartialFits | kernel/ktime.c:90-110 | The part below one second does not overflow |
| Ktime.NeverEarly | kernel/wait.c:154-167 | When a deadline computed from a duration has passed, at least the duration has |
| Ktime.NotLate | kernel/ktime.c:68-110 | The ticks exceed the duration by less than one tick |
| Ktime.RelativeCovers | kernel/futex.c:202-227 | The milliseconds of a relative futex timeout are the fewest that cover the timespec, or the cap exactly when the sum might overflow |
| Ktime.FutexNeverEarly | kernel/futex.c:202-227 | A relative futex timeout is not reported early |
| Ktime.TicksToNsExact | kernel/timeconv.c:3-16 | It is the floor of ticks * 10^9 / frequency, or the largest number when that does not fit, except exactly past the last nanosecond of the last representable second |
| Ktime.TicksToNsWraps | kernel/timeconv.c:3-16 | There the answer of the code is less than a second |
| Ktime.RoundTrip | kernel/timeconv.c:3-16 | Up to 1 GHz, ticks survive the way to nanoseconds and back |
| Memrange.AddMeaning | kernel/memrange.c:17-48 | add is union |
| Memrange.AddSorted | kernel/memrange.c:17-48 | The ranges stay sorted with a gap between neighbours |
| Memrange.RemoveMeaning | kernel/memrange.c:50-89 | remove is difference |
| Memrange.RemoveSorted | kernel/memrange.c:50-89 | The ranges stay sorted with a gap between neighbours |
| Memrange.ContainsExact | kernel/memrange.c:91-106 | Every address of a range is in the set exactly when one stored range holds it all |
| Memrange.TotalCounts | kernel/memrange.c:118-134 | The total is the number of addresses in the set |
| Memrange.TotalFits | kernel/memrange.c:118-134 | The sizes add up to less than 2^64 |
| Memrange.RangeSet.constructor | kernel/memrange.c:12-15 | A new set is empty |
| Memrange.RangeSet.Delete | kernel/memrange.c:3-10 | The shift to the left removes exactly one place |
| Memrange.RangeSet.Open | kernel/memrange.c:38-40 | The shift to the right opens exactly one place |
| Memrange.RangeSet.Replace | kernel/memrange.c:35-46 | One range takes the place of those it swallowed, or there is no room and nothing changes |
| Memrange.AddFitsExact | kernel/memrange.c:17-48 | A range can be added exactly when it is not empty and there is a free place or a range that it touches |
| Memrange.RangeSet.Add | kernel/memrange.c:17-48 | Fails exactly for an empty range, or in a full set when it touches no range, without a change; otherwise the union |
| Memrange.RangeSet.CutAt | kernel/memrange.c:55-86 | One turn of the removal loop: keep, drop, trim or split one range |
| Memrange.RangeSet.Remove | kernel/memrange.c:50-89 | Fails exactly for an empty range or a split in a full set, without a change; otherwise the difference |
| Memrange.RangeSet.Contains | kernel/memrange.c:91-106 | True exactly when every address of a non-empty range is in the set |
| Memrange.RangeSet.Sum | kernel/memrange.c:118-134 | The overflow test never fires and the result is the number of addresses |
| Pipe.ScatterExact | kernel/fs/pipe.c:139-150 | A vectored copy moves every byte before the first address that faults and none from it on |
| Pipe.ScatterAt | kernel/fs/pipe.c:139-150 | For vectors that do not overlap, the k-th byte is at the k-th address |
| Pipe.ScatterElse | kernel/fs/pipe.c:139-150 | No other address changes |
| PipeRuns.ChunksJoin | kernel/fs/pipe.c:249-268 | Staging in chunks of at most a page loses and reorders nothing; a write of at most PIPE_BUF bytes is one chunk |
| PipeRuns.AcceptKeeps | kernel/fs/pipe.c:174-233 | A copy into the pipe keeps the invariant of every call |
| PipeRuns.WriteTurnKeeps | kernel/fs/pipe.c:189-233 | One turn of the write loop keeps the invariant |
| PipeRuns.ReadTurnKeeps | kernel/fs/pipe.c:112-133 | One turn of the read loop keeps the invariant; only one reader at a time has the pipe to itself |
| PipeRuns.ReadFinishKeeps | kernel/fs/pipe.c:134-160 | The copy out, with a fault anywhere, keeps the invariant |
| PipeRuns.StepKeeps | kernel/fs/pipe.c:95-329 | Every step of every reader and writer, and closing an end, keeps the invariant |
| PipeRuns.Safe | kernel/fs/pipe.c:95-329 | The invariant holds over every interleaving |
| PipeRuns.ReadsArePrefix | kernel/fs/pipe.c:95-329 | The bytes read so far are a prefix of the bytes accepted so far, the pipe holds the rest, and that is never more than the capacity |
| PipeRuns.WritesReport | kernel/fs/pipe.c:189-329 | A finished write has put in exactly the prefix of its data that it reports, and nothing when it reports an error |
| PipeRuns.SmallWritesAtomic | kernel/fs/pipe.c:275-329 | A write or writev of at most PIPE_BUF bytes is all or nothing, and its bytes are contiguous (the rules for pipes of write() in POSIX.1-2017) |
| PipeRuns.ReadsReport | kernel/fs/pipe.c:95-160 | A finished read has taken exactly the bytes it reports, in one piece, its memory holds them in order, and an error means none was taken |
| PipeRuns.EndOfStream | kernel/fs/pipe.c:113-117 | A read that asked for bytes returns 0 only when no writer is left and every accepted byte has been read, and that stays so |
| PipeAnswers.ReadTurnExact | kernel/fs/pipe.c:113-132 | A non-empty pipe that no other reader has is claimed for the smaller of the bytes held and wanted; 0, would-block and interrupted come exactly in their cases, and otherwise the call waits |
| PipeAnswers.ReadFinishExact | kernel/fs/pipe.c:134-160 | Every byte up to the first address that faults leaves the pipe and is reported; a fault at the first address is the error |
| PipeAnswers.WriteTurnExact | kernel/fs/pipe.c:189-233 | With room and a reader the next bytes enter the pipe, as many as fit, up to the staged page; a call that stops reports what it has put in, or exactly the error of its case |
| PipeAnswers.StartWriteExact | kernel/fs/pipe.c:275-329 | Too much is refused, nothing is answered with 0, anything else is staged in order and is atomic exactly up to PIPE_BUF bytes |
| PipeAnswers.StartReadExact | kernel/fs/pipe.c:95-111 | Too much is refused, nothing is answered with 0, anything else starts to wait |
| PipeKernel.Ringed.constructor | kernel/fs/pipe.c:423-452 | A new pipe is the initial state of the runs |
| PipeKernel.Ringed.Take | kernel/fs/pipe.c:87-89 | Advancing the read position removes exactly that many bytes from the front |
| PipeKernel.Ringed.NextChunk | kernel/fs/pipe.c:67-76 | The chunk stays below the wrap of the ring and inside one page of the destination |
| PipeKernel.Ringed.CopyOut | kernel/fs/pipe.c:59-93 | The bytes that leave the ring are exactly the bytes stored; the copy stops exactly at the first address that faults |
| PipeKernel.Ringed.CopyIn | kernel/fs/pipe.c:174-187 | The two moves append the bytes to the contents |
| PipeKernel.Ringed.CopyVectors | kernel/fs/pipe.c:139-150 | The loop over the vectors is the value-level scatter |
| PipeKernel.Ringed.ReadTurn | kernel/fs/pipe.c:113-132 | One turn of the waiting loop is the step of the runs |
| PipeKernel.Ringed.ReadFinish | kernel/fs/pipe.c:134-160 | The end of pipe_readv is the step of the runs; the result is the number of bytes that left the pipe, or the fault |
| PipeKernel.Ringed.WriteStaged | kernel/fs/pipe.c:189-233 | How much is written before the lock is given up, what is returned in every case, and that this is the step of the runs |
| PipeRuns.CloseReaderKeeps | kernel/fs/pipe.c:379-391 | Closing a read end while no read is under way keeps the invariant of every call |
| PipeRuns.CloseWriterKeeps | kernel/fs/pipe.c:379-391 | Closing a write end while no write is under way keeps the invariant of every call, so a reader that then sees no writer has read everything |
| PipeKernel.Gather | kernel/fs/pipe.c:304-312 | The gathering loop joins the vectors in order |
| PipeKernel.StagePart | kernel/fs/pipe.c:249-268 | The staging loop cuts the source into pages |

## Left out

- Page tables: the three-level table is one map from (process, page) to an entry; levels, huge pages and the failure to allocate a table page appear only as a failing step.
- User copies pinned by the kernel and user copies through faults are atomic loads and stores of the model.
- The page cache is an extra holder of frames that may fill, write and drop them; write-back durability and file contents are not modelled.
- Reclaim of anonymous pages is modelled once the process is known to have a single live thread, which the source tests first.
- vfork, exec and brk: memory is shared or replaced by design, so fork isolation says nothing about them.
- TLB flushes are part of the step that changes an entry.
- Reschedule requests, inter-processor interrupts, time slices and the user/kernel time split: they decide when a step happens, which the runs leave open.
- Scheduler.ScaleFits: assumes runtimes below 15 * 2^54 ticks, where scale_runtime stops fitting in 64 bits.
- The branch of rb_erase_fixup for a missing sibling: proved unreachable, so the fix-up code of the model does not have it.
- The buddy of a page is found by flipping one bit of its number; the exclusive-or of the source is written as that arithmetic.
- State bytes of the buddy allocator and tokens, labels and mappings of the ring are sequences and maps in fields, not byte arrays.
- VMA lists are sequences; the links between list elements are not modelled, reference counts are.
- The length that the device reports with a used chain is passed through and not modelled.
- SignalWakeup is about interruptible sleeps; killable ones and signal_force_fault are not part of it.
- The 64-bit signal sequence number is unbounded in SignalWakeup.
- Futex values, keys of shared mappings, restart blocks, robust lists and absolute timeouts: the comparison with the user value is taken as passed when a wait starts.
- Pipes: the prefault pass is an outcome (it may fail, and success promises nothing for the copy that follows); SIGPIPE, poll and wake-ups of the two wait queues are not modelled, sleeping is a turn without effect; user addresses do not wrap at 2^64.
- memrange_get, vma_count, buddy_contains, wait_queue_empty and similar read-only one-liners.
- Written pages of a private file mapping are told apart by the dirty bit of their entry, which the hardware sets with the first store.
- The discovery of memory, the heap and the self tests of the page allocator; Palloc.Pages.AddRange gets the first allocatable address as a parameter, so the size of the arrays at the start of a range is not computed.
- Device tree, drivers, filesystems, networking, trap entry, system call argument copying and formatted output.

# Verification of the kernel's core

A Dafny model of the C core of this x86-64 teaching kernel, with proofs of what it keeps over every run.
`dafny verify dfyconfig.toml` checks everything.

Every component has a specification on values (datatypes and functions) whose properties are proved as
lemmas, and where the C code changes things step by step a class or method that changes fields or arrays
step by step and is proved to do exactly what the specification says.

| part | specification and theorems | in place |
|---|---|---|
| buddy allocator | `BuddyTree`, `BuddyTheorems`, `BuddyRuns`, `BuddyExhaustion` (with `Powers`, `Sequences`) | `BuddyHeap` |
| free-list allocator | `FreeList`, `FreeListRuns` | `FreeListHeap` |
| queue, byte ring | `Queue`, `CircularBuffer` | same files |
| semaphores, scheduler, process lifecycle | `Semaphores`, `KernelState`, `KernelInvariant`, `KernelSteps`, `KernelWaits`, `KernelTermination`, `KernelReaping`, `KernelStart`, `KernelRuns`, `KernelEffects`, `KernelActions`, `KernelFairness`, `KernelDuties` | `Scheduler` |
| pipes | `Pipe`, `PipeInvariant`, `PipeSteps`, `PipeRuns`, `PipeCalls` | `PipeHeap` |
| file accesses and descriptors | `FileDescriptors`, `FileInvariant`, `FileCalls`, `FileTables`, `FilePipes`, `FileRuns`, `FileActions`, `Pipelines` | `DescriptorHeap` |
| pipes, descriptors and kernel together | `EndOfStream` | |
| the shell's command line | `Wiring`, `Stages`, `Shell`, `ShellLines` | `Shell` |
| the one-slot variable of `mvar` | `Mvar` | |
| the circle rasteriser | `Circle` | same file |
| module packer and loader | `Modules` | same file |

## How the system is modelled

* **Buddy.** The node array is an `array` of records; unused and recycled slots are the two counters
  `nodeCount` and `firstFreeNode` of the source. A ghost tree says what the array means: `Shape` ties
  every field except the `isFree` flag of inner nodes (which the source lets go stale) to it. Allocation, merging and lookup are proved
  to be functions of that tree, including what happens when the node array runs out. `Skeleton` is a tree
  without slot numbers.
* **Free list.** Block headers live in a map from address to header; `Linked` and `Tiles` tie the `prev` and
  `next` fields and the sizes to a sequence of blocks. Sizes are 64-bit where the source rounds them.
* **Scheduler.** The vector is an interrupt gate (`Kernel/interruptions/idtLoader.c:35`), so kernel code between two context switches
  is one step. A run is any sequence of timer ticks, creations, waits, posts, blocks, kills, reaps. A
  process blocked inside `wait_any` or `wait_pid` finishes the call in a later step.
* **Pipes.** A step runs from one `semWait` to the next, so a run is any interleaving of any number of
  readers and writers. `accepted`, `delivered` and `writes` are histories that only proofs read.
* **Descriptors.** The state holds live accesses, live pipes and all slots of all tables; the answers of the
  memory allocator are inputs, so every failing path is covered.
* **Shell.** Between any two system calls of the shell, the other processes, its own stages included, make any system
  calls. The family of a process is itself, the processes it created, those they created and so on, as long as they live.
* **Modules.** Files are byte sequences read in 128-byte chunks by a reader that notices the end only when a
  read falls short; the loader works on an array of bytes.

An invariant alone is also kept by an operation that does nothing, so beside what each operation keeps the model says what
each one does, to everybody and on every input: `BuddyRuns.LiveIsHeld`, `FreeListRuns.LiveIsHeld`,
`KernelActions.EveryStepActs`, `PipeCalls.WritesAreAnswered` and `ReadsAreAnswered`, `FileActions.EveryCallActs`,
`ShellLines` and `Mvar.StepAdvances`.

Assumptions: queue nodes can always be allocated;
semaphores start at zero or more; idle never waits; when the current process blocks or kills itself,
the scheduler runs next; no process is killed in the middle of a pipe or `mvar`
operation; a new priority is at least one; no more than 64 processes use a pipe.

Four duties of callers that the code does not check are needed for the kernel's invariant, and each is proved to be an
exact condition:

* a killed process is not already a zombie (`KernelTermination.KillIsSafeExactlyOnNonZombies`);
* a process made ready from outside is not waiting on a semaphore (`KernelRuns.ContinueIsSafeExactlyWithoutWait`);
* a recycled PID is not still queued on a semaphore (`KernelRuns.StartIsSafeExactlyWithoutDeadWaiter`);
* `wait_pid` names a live child of the caller, or a zombie whose own parent is not about to reap it
  (`KernelReaping.WaitPidIsSafeExactly`).

`KernelDuties` reaches an input that breaks each of them by a run from boot and proves the damage. The shell itself can
break the first: when a second stage cannot start it kills the first one without asking whether that is still alive
(`Userland/SampleCodeModule/shell.c:232-236`), waits for it, and calls `sys_reap_zombies` at the next prompt
(`Userland/SampleCodeModule/shell.c:255`). If the first stage had already terminated, idle's slot in the process table is
freed (`KernelDuties.SecondKillFreesIdle`).

Where comments or expectations and the code differ, the model follows the code:

* `getOrder` stops at the largest order, so a request for more than the heap is served, with a block that is too
  small (`BuddyRuns.OversizedRequestIsServedShort`); the block covers the request exactly when the request is at most the heap.
* When the node array runs out in the middle of a request, the splits already made stay (`BuddyExhaustion.StrandedSplitIsReached`).
* `alignUp` wraps around in the last seven byte counts of the 64-bit range, and such a request gets an empty block
  (`FreeListRuns.WrappedRequestGetsNothing`).
* `dataAvailable` does not count bytes as the header says (`Kernel/include/pipe.h:5`); it is posted only when the buffer stops
  being empty. No wakeup is lost all the same (`PipeRuns.NoLostWakeup`).
* Idle is an ordinary member of the ready queue, so it also runs while others are ready (`KernelDuties.IdleRuns` reaches such a
  state).
* In `mvar` the mutex is never contended: the two slot semaphores already admit one process at a time.

## Model

| member | source | states |
|---|---|---|
| BuddyTheorems.AllocKeepsSlotsApart | Kernel/memory/memoryManagerBuddy.c:56-101 | after an allocation, tree slots, recycled slots and unused slots still split the array, also when the array runs out midway |
| BuddyTheorems.FreeKeepsSlotsApart | Kernel/memory/memoryManagerBuddy.c:198-234 | after a free with all its merges the slots still split the same way, and none is lost |
| BuddyTheorems.LeavesTile | Kernel/memory/memoryManagerBuddy.c:77-101 | the leaves follow each other without gap or overlap over the whole range |
| BuddyTheorems.BlocksWithin | Kernel/memory/memoryManagerBuddy.c:77-101 | every leaf is aligned to its own size and lies inside the range |
| BuddyTheorems.BlocksAreDisjoint | Kernel/memory/memoryManagerBuddy.c:137-183 | two allocated blocks never overlap, nor an allocated and a free one |
| BuddyTheorems.BytesConserved | Kernel/memory/memoryManagerBuddy.c:262-297 | occupied and free bytes add up to the size of the root |
| BuddyTheorems.AllocAddsBlock | Kernel/memory/memoryManagerBuddy.c:137-183 | a hit adds exactly one allocated block of the required order at the returned offset, which was not there; a miss adds none |
| BuddyTheorems.FindLiveExact | Kernel/memory/memoryManagerBuddy.c:186-195 | the lookup finds a slot if and only if an allocated block begins at the address |
| BuddyTheorems.FreeRemovesBlock | Kernel/memory/memoryManagerBuddy.c:247-259 | freeing removes exactly the block at the address from the allocated ones, whatever merges |
| BuddyTheorems.NoCandidateNoChange | Kernel/memory/memoryManagerBuddy.c:150-183 | without a free leaf of the required order or more a request fails and changes nothing |
| BuddyTheorems.AllocIsFirstFit | Kernel/memory/memoryManagerBuddy.c:150-183 | for every tree and pool a request succeeds if and only if a free leaf of its exact order exists or there are two slots for every order between it and the lowest large enough leaf; in the second case it gets that leaf, otherwise the lowest exact one |
| BuddyTheorems.ExactFitIsServed | Kernel/memory/memoryManagerBuddy.c:137-183 | a free leaf of exactly the required order is enough, however few slots are left |
| BuddyTheorems.TightIsCoarsest | Kernel/memory/memoryManagerBuddy.c:211-234 | every split node has an allocated block below it if and only if the tree is the coarsest one with its allocated blocks, a function of the set of blocks |
| BuddyTheorems.AllocKeepsTight | Kernel/memory/memoryManagerBuddy.c:150-183 | a request keeps such a tree so if and only if no free leaf is large enough, or fewer than two slots are left, or there are two for every order down from the lowest large enough leaf; a request that fails in one of these cases leaves the tree as it was |
| BuddyTheorems.FreeKeepsTight | Kernel/memory/memoryManagerBuddy.c:211-234 | a free with its merges keeps that property and never restores it: it holds afterwards if and only if it held before |
| BuddyTheorems.AllocThenFreeIsIdentity | Kernel/memory/memoryManagerBuddy.c:236-259 | freeing the block just allocated restores the same tree up to slot numbers if and only if the request met the condition of `AllocKeepsTight` |
| BuddyRuns.OrderCovers | Kernel/memory/memoryManagerBuddy.c:120-124 | the order is the smallest from 4 on that covers the request, exactly if the request is at most the heap |
| BuddyRuns.OversizedRequestIsServedShort | Kernel/memory/memoryManagerBuddy.c:120-124 | every larger request on the initial heap is answered with the whole heap, which is too small |
| BuddyRuns.EveryRunIsSafe | Kernel/memory/memoryManagerBuddy.c:236-259 | in every run of allocations and frees, slot exhaustion included: slots split exactly, leaves tile, blocks are aligned, inside and disjoint, bytes are conserved |
| BuddyRuns.ReleaseFreesBlock | Kernel/memory/memoryManagerBuddy.c:247-259 | in every heap a run reaches, releasing an address frees exactly the allocated block that begins there inside the region, and changes nothing if there is none |
| BuddyRuns.LiveIsHeld | Kernel/memory/memoryManagerBuddy.c:236-259 | after every run the allocated blocks are exactly those granted by its requests and not yet freed |
| BuddyRuns.RequestThenReleaseIsIdentity | Kernel/memory/memoryManagerBuddy.c:236-259 | a request and the release of its answer, as steps of a run, restore the tree up to slot numbers if and only if the request met the condition of `AllocKeepsTight` |
| BuddyRuns.RequestIsComplete | Kernel/memory/memoryManagerBuddy.c:236-245 | with 2 * (max order - order) spare slots a request fails if and only if no free leaf is large enough, and otherwise gets the lowest |
| BuddyRuns.RequestSucceedsExactly | Kernel/memory/memoryManagerBuddy.c:236-245 | in every heap a run reaches: which requests succeed, which leaf they get, and which of them leave a split behind, all as exact conditions on the free leaves and the number of spare slots |
| BuddyRuns.RunStaysTightExactly | Kernel/memory/memoryManagerBuddy.c:150-234 | every split node has an allocated block below it in all states of a run if and only if every request of the run meets the condition of `AllocKeepsTight` |
| BuddyRuns.RoomyRunIsAllOrNothing | Kernel/memory/memoryManagerBuddy.c:56-101 | runs with two spare slots for every order between request and root are such runs |
| BuddyRuns.HistoryIndependence | Kernel/memory/memoryManagerBuddy.c:211-259 | two such runs that end with the same allocated blocks end with the same tree up to slot numbers |
| BuddyRuns.AllFreedIsOneBlock | Kernel/memory/memoryManagerBuddy.c:198-259 | such a run that has freed everything ends with one free root leaf and every other slot available again |
| BuddyRuns.TightNodeBound | Kernel/memory/memoryManagerBuddy.c:56-74 | nodes are at most 1 + 2 * orders * allocated blocks |
| BuddyRuns.FewBlocksMeansRoom | Kernel/memory/memoryManagerBuddy.c:56-74 | so few enough allocated blocks guarantee the spare slots the completeness result asks for |
| BuddyExhaustion.RequestsFill | Kernel/memory/memoryManagerBuddy.c:150-183 | equal requests occupy the heap from the left block by block as long as a full tree of such blocks fits the node array |
| BuddyExhaustion.StrandedSplitIsReached | Kernel/memory/memoryManagerBuddy.c:77-101 | the condition is needed: in a heap of 2^18 bytes or more, 4094 requests of a 4096th of it leave three slots, and a request four times smaller then fails although a free leaf eight times its own size is there, and leaves two free halves: the allocated blocks are the same and the tree is another |
| BuddyExhaustion.StrandedSplitStays | Kernel/memory/memoryManagerBuddy.c:211-259 | after that no sequence of releases, not even of every block, gives the initial heap back |
| BuddyHeap.Buddy.CreateNode | Kernel/memory/memoryManagerBuddy.c:56-74 | takes the last recycled slot, else the next unused one, else fails; no other slot changes |
| BuddyHeap.Buddy.SplitNode | Kernel/memory/memoryManagerBuddy.c:77-101 | gives a leaf two free halves or, when one cannot be made, recycles what it took and leaves the leaf |
| BuddyHeap.Buddy.TryAllocateExactSize | Kernel/memory/memoryManagerBuddy.c:137-145 | occupies the leaf exactly if it is free and of the required order |
| BuddyHeap.Buddy.TrySplitAndAllocate | Kernel/memory/memoryManagerBuddy.c:150-161 | after a split, allocation in the halves; failing splits change nothing |
| BuddyHeap.Buddy.FindAndAllocate | Kernel/memory/memoryManagerBuddy.c:164-183 | the array does exactly what allocation on the tree says and touches only the subtree and the pool |
| BuddyHeap.Buddy.MergeBuddies | Kernel/memory/memoryManagerBuddy.c:211-223 | two free leaves become one and merging goes on upwards; otherwise nothing changes |
| BuddyHeap.Buddy.TryMerge | Kernel/memory/memoryManagerBuddy.c:225-234 | merging from a freed leaf upwards is merging along the path on the tree |
| BuddyHeap.Buddy.Log2Int | Kernel/memory/memoryManagerBuddy.c:49-53 | the largest power of two not above the value |
| BuddyHeap.Buddy.MemInit | Kernel/memory/memoryManagerBuddy.c:103-117 | one free root of the largest order that fits the size |
| BuddyHeap.Buddy.GetOrder | Kernel/memory/memoryManagerBuddy.c:120-124 | the loop computes the order of a request |
| BuddyHeap.Buddy.MemAlloc | Kernel/memory/memoryManagerBuddy.c:236-245 | answers an address if and only if there is room for the splits or a leaf of the exact order, and then exactly the block at that address, of the order of the request, is newly allocated; otherwise null, with the same blocks allocated |
| BuddyHeap.Buddy.FindNodeByAddress | Kernel/memory/memoryManagerBuddy.c:186-195 | the scan over all slots ever used answers the slot of the allocated leaf at the address, never a recycled one, or -1 |
| BuddyHeap.Buddy.MemFree | Kernel/memory/memoryManagerBuddy.c:247-259 | the allocated block that begins at the address is free afterwards and all others are still allocated; for null, foreign and free addresses nothing changes |
| BuddyHeap.Buddy.CountLeafNodes | Kernel/memory/memoryManagerBuddy.c:262-281 | adds up the leaves below a node, allocated and free |
| BuddyHeap.Buddy.MemStatus | Kernel/memory/memoryManagerBuddy.c:283-297 | reports the bytes and counts of the leaves; occupied + free = 2^maxOrder |
| FreeList.AllocateKeepsGood | Kernel/memory/memoryManager.c:34-56 | after an allocation the blocks still tile the heap and no two neighbours are free |
| FreeList.ReleaseKeepsGood | Kernel/memory/memoryManager.c:58-75 | the same after a free with coalescing on both sides |
| FreeList.AllocateThenReleaseIsIdentity | Kernel/memory/memoryManager.c:34-75 | freeing the block just allocated restores the exact list of blocks |
| FreeList.AllocateAddsBlock | Kernel/memory/memoryManager.c:34-56 | an allocation adds exactly the first block that fits to the allocated ones, at its old address and less than a header and 8 bytes larger than asked for; a larger rest is split off as a free block behind it, and no other block changes |
| FreeList.ReleaseRemovesBlock | Kernel/memory/memoryManager.c:58-75 | a free removes exactly that block from the allocated ones |
| FreeList.NothingLiveIsOneBlock | Kernel/memory/memoryManager.c:58-75 | a heap with nothing allocated is one free block of size total - header |
| FreeList.AlignUp | Kernel/memory/memoryManager.c:21-23 | a multiple of 8, the next one above the request exactly if the request is at most 2^64 - 8, and 0 otherwise |
| FreeListHeap.Heap.MemInit | Kernel/memory/memoryManager.c:25-32 | one free block over the whole heap, linked to nothing, for any region of at least one header in the 64-bit address space |
| FreeListHeap.Heap.MemAlloc | Kernel/memory/memoryManager.c:34-56 | null if and only if no free block is large enough; otherwise the payload of the first one, which is occupied with the rest split off as above |
| FreeListHeap.Heap.MemFree | Kernel/memory/memoryManager.c:58-75 | the linked headers become the list with the block and its free neighbours in one, and exactly that block is not allocated any more |
| FreeListHeap.Heap.AbsorbNext | Kernel/memory/memoryManager.c:58-75 | a block takes over its successor and both links around it stay consistent |
| FreeListHeap.Heap.MemStatus | Kernel/memory/memoryManager.c:77-89 | walks the list and reports its free bytes, free blocks and the rest |
| FreeListHeap.ReleaseInSteps | Kernel/memory/memoryManager.c:58-75 | merging right and then left is merging the whole free run at once |
| FreeListRuns.EveryRunIsGood | Kernel/memory/memoryManager.c:25-75 | in every run the blocks tile the heap and no two neighbours are free |
| FreeListRuns.LiveIsHeld | Kernel/memory/memoryManager.c:34-75 | after every run the allocated blocks are exactly those granted and not yet freed |
| FreeListRuns.EverythingFreedIsInitialHeap | Kernel/memory/memoryManager.c:25-75 | every run after which nothing is allocated ends in the initial heap |
| FreeListRuns.FreeingInAnyOrder | Kernel/memory/memoryManager.c:58-75 | freeing all allocated blocks in any order is legal at each step and leaves one block |
| FreeListRuns.PayloadsAreAligned | Kernel/memory/memoryManager.c:21-56 | in every run, whatever sizes are asked for, every payload address is a multiple of 8 exactly when the start of the heap is |
| FreeListRuns.PayloadCoversRequest | Kernel/memory/memoryManager.c:34-56 | the payload covers the request exactly when rounding it did not wrap |
| FreeListRuns.WrappedRequestGetsNothing | Kernel/memory/memoryManager.c:21-23 | a request that wraps is answered with an empty payload |
| Queue.Queue.Enqueue | Kernel/queue.c:36-49 | the linked nodes hold the old contents and the new element, or the old contents without memory; they are old nodes or new ones |
| Queue.Queue.PollQueue | Kernel/queue.c:51-61 | the oldest element leaves; an empty queue answers 0 and stays empty |
| Queue.Queue.RemoveNode | Kernel/queue.c:20-26 | unlinks exactly the given node, first, last or in between |
| Queue.Queue.RemoveFromQueue | Kernel/queue.c:76-93 | the loop removes every matching element, keeps the others in order and counts what it removed |
| Queue.WithoutKeepsOthers | Kernel/queue.c:76-93 | what remains are exactly the elements that do not match |
| CircularBuffer.Ring.NewBuffer | Kernel/circularBuffer.c:13-29 | an empty ring of the given size |
| CircularBuffer.Ring.Write | Kernel/circularBuffer.c:34-42 | appends a byte to the contents unless full; wraps correctly |
| CircularBuffer.Ring.Read | Kernel/circularBuffer.c:44-52 | takes the oldest byte of the contents; an empty ring answers 0 |
| Semaphores.PostExact | Kernel/semaphores/semaphore.c:50-62 | a post goes to the longest-waiting process still blocked, or to the value if there is none, and the queue is again as long as the value is negative |
| Semaphores.Conservation | Kernel/semaphores/semaphore.c:33-74 | in every history, with dead waiters dropped, granted waits + available units = initial units + posts, and queue length = max(0, -value) |
| KernelSteps.TickKeepsGood | Kernel/process_contextswitch/scheduler.c:414-448 | a scheduler call keeps the whole invariant and leaves a running current process |
| KernelSteps.NextPidIsReady | Kernel/process_contextswitch/scheduler.c:414-417 | the ready queue is never empty when a process is to be dispatched, so the fallback to idle is not taken |
| KernelSteps.StopKeepsGood | Kernel/process_contextswitch/scheduler.c:169-179 | blocking any process keeps the invariant |
| KernelSteps.NiceKeepsGood | Kernel/process_contextswitch/scheduler.c:192-197 | a priority change keeps the invariant |
| KernelEffects.TerminateEffect | Kernel/process_contextswitch/scheduler.c:207-250 | terminating any live process but idle and init, the running one included: it is a zombie off the ready queue; its parent lists it last; terminated has a unit more or has woken the parent that waits for it, childTerminated of the parent likewise; its children are init's, the dead ones listed and announced there; nobody else is different, and other PIDs change nothing |
| KernelTermination.NotifyTerminationKeepsInv | Kernel/process_contextswitch/scheduler.c:225-231 | posting both semaphores and listing the zombie keeps all accounts |
| KernelTermination.TransferFirstKeepsInv | Kernel/process_contextswitch/scheduler.c:207-223 | each orphan moved to init, announced there if dead, keeps all accounts |
| KernelTermination.KillIsSafeExactlyOnNonZombies | Kernel/process_contextswitch/scheduler.c:233-250 | a kill keeps the invariant if and only if the victim is not a zombie yet |
| KernelReaping.PolledIsZombieChild | Kernel/process_contextswitch/scheduler.c:284-302 | wait_any and reap_zombies never poll an empty list, and what they poll is a zombie child of the caller |
| KernelActions.WaitAnyActs | Kernel/process_contextswitch/scheduler.c:284-291 | with a unit, wait_any takes it and reaps the oldest listed child, which leaves the table and both lists while nobody else changes; without one the caller is blocked at the end of the queue |
| KernelActions.ResumeActs | Kernel/process_contextswitch/scheduler.c:267-291 | a process woken inside wait_any reaps its oldest listed child without taking another unit, one woken inside wait_pid the child it waited for, with a unit |
| KernelActions.WaitPidActs | Kernel/process_contextswitch/scheduler.c:267-282 | wait_pid reaps an announced zombie, takes a unit of its parent if there is one, and otherwise blocks the caller at the end of the queue; nobody else changes |
| KernelActions.ReapAllActs | Kernel/process_contextswitch/scheduler.c:293-302 | reap_zombies takes exactly the zombie children of the caller out of the table with their semaphores, and all units; nobody else changes |
| KernelReaping.WaitPidIsSafeExactly | Kernel/process_contextswitch/scheduler.c:267-282 | wait_pid by anybody keeps the invariant if and only if the process is unknown, a live child of the caller, or an announced zombie whose parent has neither been granted it nor is finishing a wait_pid for it |
| KernelReaping.WaitPidKeepsGood | Kernel/process_contextswitch/scheduler.c:267-282 | under that condition the caller blocks exactly while the child lives, and else the zombie is gone |
| KernelReaping.ParentMayWait | Kernel/process_contextswitch/scheduler.c:267-282 | a parent other than init always meets the condition |
| KernelReaping.AnnouncedZombieIsReaped | Kernel/process_contextswitch/scheduler.c:267-282 | wait_pid on an announced zombie removes it from the table and the caller goes on running |
| KernelReaping.ReapZombiesReapsAll | Kernel/process_contextswitch/scheduler.c:293-302 | after reap_zombies the caller has no zombie child left |
| KernelReaping.ResumeKeepsGood | Kernel/process_contextswitch/scheduler.c:267-291 | a process woken inside a wait finds a zombie to reap and keeps the invariant |
| KernelStart.StartKeepsGood | Kernel/process_contextswitch/scheduler.c:71-97 | creating a process under a PID that is queued nowhere keeps the invariant |
| KernelRuns.StepKeepsGood | Kernel/process_contextswitch/scheduler.c:71-302 | every kernel operation keeps the invariant, under the four duties |
| KernelActions.EveryStepActs | Kernel/process_contextswitch/scheduler.c:71-448 | every step any process can take in a good state does to all processes, queues and semaphores what its kind says: scheduling, creation, waits, posts, stops, continuations, priorities, kills, reaping |
| KernelActions.TickActs | Kernel/process_contextswitch/scheduler.c:414-448 | a scheduler call uses one quantum of a process that has some left; otherwise the head of the ready queue runs with the quanta of its priority, and a process that was still running is at the end of the queue |
| KernelActions.StartActs | Kernel/process_contextswitch/scheduler.c:71-97 | the new process has the lowest free PID, is ready at the end of the queue, a child of the current process, with fresh semaphores; with all PIDs taken nothing changes |
| KernelActions.StopActs | Kernel/process_contextswitch/scheduler.c:169-179 | exactly a ready or running process other than idle and init becomes blocked and leaves the ready queue |
| KernelRuns.EveryReachableStateIsGood | Kernel/process_contextswitch/scheduler.c:99-448 | in every state any run from boot under the four duties reaches: ready queue exactly the READY processes once each, one RUNNING process, parent links mirrored by children lists, zombies listed once and counted up to a granted wait |
| KernelRuns.EveryoneDescendsFromInit | Kernel/process_contextswitch/scheduler.c:207-223 | parent links lead from every process to init through live processes |
| KernelRuns.SchedulerAlwaysDispatches | Kernel/process_contextswitch/scheduler.c:419-448 | after every run a scheduler call dispatches a ready process and exactly that one runs |
| KernelRuns.ZombiesCanBeReaped | Kernel/process_contextswitch/scheduler.c:225-302 | in every reachable state each zombie is listed by a live parent that has a unit or a grant to reap |
| KernelRuns.StartIsSafeExactlyWithoutDeadWaiter | Kernel/process_contextswitch/scheduler.c:71-97 | creating a process keeps the invariant if and only if the recycled PID is not still queued on a semaphore |
| KernelRuns.ContinueIsSafeExactlyWithoutWait | Kernel/process_contextswitch/scheduler.c:181-190 | making a process ready from outside keeps the invariant if and only if it is not blocked on a semaphore |
| KernelDuties.SecondKillFreesIdle | Userland/SampleCodeModule/shell.c:232-255 | in every good state whose running process has a zombie child: kill, wait_pid and reap_zombies, as the shell issues them, poll NULL and free idle's slot |
| KernelDuties.SecondKillIsReached | Userland/SampleCodeModule/shell.c:232-255 | a run from boot reaches such a state |
| KernelDuties.IdleRuns | Kernel/process_contextswitch/scheduler.c:414-448 | a run from boot reaches a state in which idle runs and two other processes are ready |
| KernelDuties.ContinueDoublesUnit | Kernel/process_contextswitch/scheduler.c:181-190 | a waiter made ready goes on without a unit and the next post goes to the value too: one post lets two pass |
| KernelDuties.ContinueIsReached | Kernel/interruptions/syscallDispatcher.c:95-99 | a run from boot reaches a process that sys_unblock harms so |
| KernelDuties.StartStealsUnit | Kernel/process_contextswitch/scheduler.c:71-97 | a new process with a dead waiter's PID, merely stopped, is woken by that semaphore's post, and the unit is lost |
| KernelDuties.RecycledPidIsReached | Kernel/process_contextswitch/scheduler.c:71-97 | a run from boot reaches such a PID |
| KernelDuties.StrayWaitIsReached | Kernel/interruptions/syscallDispatcher.c:101 | a run from boot reaches a process that waits for init: the invariant is lost and no kill of init will ever wake it |
| KernelFairness.BoundedWaiting | Kernel/process_contextswitch/scheduler.c:414-448 | a ready process is dispatched within remaining(current) + 1 + the priorities ahead of it, plus what priority changes add to these in between, in scheduler calls, whatever else happens, unless it is stopped or killed |
| KernelFairness.PriorityChangeShifts | Kernel/process_contextswitch/scheduler.c:192-197 | a priority change moves that bound by exactly the quanta it gives to the running process or to one queued ahead, less what that one had, and otherwise not at all |
| KernelFairness.TickComesCloser | Kernel/process_contextswitch/scheduler.c:419-448 | each scheduler call dispatches the process or lowers its bound |
| KernelFairness.OtherStepsAreNoLater | Kernel/process_contextswitch/scheduler.c:71-302 | no other operation than these two raises the bound |
| KernelFairness.QuantaRunOut | Kernel/process_contextswitch/process.c:161-169 | a process other than idle whose priority nobody changes keeps the processor for at most its remaining quanta of scheduler calls |
| KernelFairness.DispatchGivesQuanta | Kernel/process_contextswitch/scheduler.c:433-448 | a dispatched process starts with its priority in quanta, one used at once |
| Scheduler.System.InitializeScheduler | Kernel/process_contextswitch/scheduler.c:99-110 | idle and init ready; the invariant holds |
| Scheduler.System.SemWait | Kernel/semaphores/semaphore.c:33-48 | takes a unit or blocks the caller at the end of the queue |
| Scheduler.System.SemPost | Kernel/semaphores/semaphore.c:50-62 | the loop over dead waiters does what the post on values does |
| Scheduler.System.SemTryWait | Kernel/semaphores/semaphore.c:64-74 | takes a unit or fails without blocking |
| Scheduler.System.SetBlocked | Kernel/process_contextswitch/scheduler.c:169-179 | a ready or running process becomes BLOCKED and leaves the ready queue |
| Scheduler.System.SetReady | Kernel/process_contextswitch/scheduler.c:181-190 | a blocked process becomes READY at the end of the ready queue |
| Scheduler.System.Schedule | Kernel/process_contextswitch/scheduler.c:419-448 | uses a quantum, or puts the current process back and dispatches the next; the invariant holds after |
| Scheduler.System.FindFreePid | Kernel/process_contextswitch/scheduler.c:71-75 | the lowest free PID or -1 |
| Scheduler.System.StartNewProcessWithPid | Kernel/process_contextswitch/scheduler.c:77-97 | creates the process, its parent link and its place in the ready queue, or changes nothing |
| Scheduler.System.TransferOrphanChildren | Kernel/process_contextswitch/scheduler.c:207-223 | the loop moves every child to init and announces the dead ones there |
| Scheduler.System.NotifyTermination | Kernel/process_contextswitch/scheduler.c:225-231 | zombie, out of the ready queue, both semaphores posted, listed by the parent |
| Scheduler.System.TerminateProcess | Kernel/process_contextswitch/scheduler.c:233-250 | does to a live process and its relatives what `KernelEffects.TerminateEffect` says; init, idle and unknown PIDs are refused; the invariant holds after exactly if the victim was not a zombie |
| Scheduler.System.WaitAny | Kernel/process_contextswitch/scheduler.c:284-291 | reaps the oldest terminated child with a unit, or blocks, and changes nobody else |
| Scheduler.System.WaitPid | Kernel/process_contextswitch/scheduler.c:267-282 | by any caller: reaps the announced process or blocks until it terminates, and changes nobody else; the invariant holds after exactly under the condition above |
| Scheduler.System.ReapZombies | Kernel/process_contextswitch/scheduler.c:293-302 | the loop reaps every zombie child and nobody else, and keeps the invariant |
| Scheduler.System.FinishCall | Kernel/process_contextswitch/scheduler.c:267-291 | a process woken inside wait_any or wait_pid finishes the call |
| Scheduler.System.SetPriorityOnPid | Kernel/process_contextswitch/scheduler.c:192-197 | an existing process gets a priority above zero and as many quanta; otherwise -1 and nothing changes |
| PipeRuns.StepKeepsInv | Kernel/IPC/pipe.c:58-135 | every step keeps: locks exclusive, each place of the buffer filled, free or promised (count + freeSpaces + pending writer = 1024), bytes announced, stream in order |
| PipeRuns.StreamIsCorrect | Kernel/IPC/pipe.c:58-130 | in every interleaving the bytes reads returned, followed by the buffer, are the finished writes one after the other and then what the current writer has put: order kept, each write contiguous |
| PipeRuns.NoLostWakeup | Kernel/IPC/pipe.c:67-88 | with bytes in the buffer either dataAvailable is positive or a reader that can run holds a unit |
| PipeRuns.ReaderSleepsForAReason | Kernel/IPC/pipe.c:67-88 | a reader asleep on data has a writer left, and the buffer is empty or another reader can go on |
| PipeRuns.WriterSleepsOnlyOnFullBuffer | Kernel/IPC/pipe.c:109-130 | a writer asleep on space sees a full buffer |
| PipeRuns.WriteLockHolderCanGoOn | Kernel/IPC/pipe.c:109-130 | whoever sleeps on the write lock waits for a holder that can run or finds the buffer full |
| PipeRuns.ZeroMeansEndOfFile | Kernel/IPC/pipe.c:67-88 | a blocking read of at least one byte answers 0 only when the buffer is empty, no writer is left and every accepted byte was delivered |
| PipeRuns.AfterCloseNobodySleeps | Kernel/IPC/pipe.c:44-53 | from the close of the last writer on, in every run, no reader sleeps on data and no byte is added |
| PipeCalls.WritesAreAnswered | Kernel/IPC/pipe.c:109-130 | in every run, whatever everybody does, a write that returns has put its bytes contiguously behind all earlier writes; a blocking one has put all and answers their number; a nonblocking one has put less only on a full buffer, and answers PIPE_WOULD_BLOCK only if it put none |
| PipeCalls.ReadsAreAnswered | Kernel/IPC/pipe.c:67-107 | in every run a read that returns gives the first bytes of the buffer, as many as there are and were asked for; on an empty buffer 0 if no writer is left, and otherwise PIPE_WOULD_BLOCK, to nonblocking reads only |
| PipeCalls.ReadStarts | Kernel/IPC/pipe.c:67-107 | a read returns at once if and only if it asks for nothing, or the buffer is empty and there is no writer left or it must not block |
| PipeCalls.OthersKeepCall | Kernel/IPC/pipe.c:58-135 | no step of anybody else ends or changes the read or write a process is in |
| PipeCalls.StepCountsWriters | Kernel/IPC/pipe.c:35-53 | only opening and closing change the number of writers, by one |
| PipeSteps.GrantedSpaceIsThere | Kernel/IPC/pipe.c:120-125 | once semWait(freeSpaces) has returned the buffer is not full, so the write into the ring never fails |
| PipeSteps.PutByteKeepsInv | Kernel/IPC/pipe.c:109-130 | putting a byte, announced only into an empty buffer, keeps the whole invariant |
| PipeSteps.ReadCriticalKeepsInv | Kernel/IPC/pipe.c:58-88 | draining with a post per byte, passing the unit on and giving the lock back keep the invariant |
| PipeSteps.CloseKeepsInv | Kernel/IPC/pipe.c:132-135 | the 64 posts of the last close reach every blocked reader |
| PipeHeap.SharedPipe.constructor | Kernel/IPC/pipe.c:17-33 | a new pipe: empty ring, 1024 spaces, both locks free, no writer |
| PipeHeap.SharedPipe.DrainBuffer | Kernel/IPC/pipe.c:58-65 | the loop, posting after each byte, takes the first min(count, length) bytes in order |
| PipeHeap.SharedPipe.ReadCritical | Kernel/IPC/pipe.c:73-101 | the critical section of both kinds of read on the ring and the semaphores is the protocol's step; it returns exactly with data, without writers or if it must not block, and answers the first bytes of the buffer, 0, or PIPE_WOULD_BLOCK, in this order |
| PipeHeap.SharedPipe.WriteLoop | Kernel/IPC/pipe.c:109-130 | the head of the writing loop is the protocol's step; it returns exactly when all is put, or nonblocking on a full buffer, and answers the number of bytes put, or PIPE_WOULD_BLOCK for none |
| PipeHeap.SharedPipe.PutByte | Kernel/IPC/pipe.c:120-125 | one byte goes into the ring and is announced if the ring was empty |
| PipeHeap.SharedPipe.ForceReadersWakeUp | Kernel/IPC/pipe.c:132-135 | the loop posts the given number of times |
| PipeHeap.SharedPipe.RemovePipeWriter | Kernel/IPC/pipe.c:44-53 | one writer less, and the wakeups at the last one |
| FileDescriptors.FirstClosed | Kernel/process_contextswitch/process.c:201-207 | the lowest closed descriptor: all below are open |
| FileInvariant.FreeKeepsExact | Kernel/IPC/fileAccess.c:63-70 | freeing an access takes one from both counts of its pipe and frees the pipe exactly with its last access |
| FileCalls.CloseKeepsSound | Kernel/process_contextswitch/process.c:209-216 | close empties exactly that slot and keeps every count exact |
| FileCalls.DupKeepsGood | Kernel/process_contextswitch/process.c:218-232 | dup makes the new descriptor refer to what the old one refers to, closes it if the old one is closed, and keeps every count exact |
| FileCalls.ReopenKeepsGood | Kernel/process_contextswitch/process.c:234-241 | reopen puts a new access to the same pipe with the same flags in the first closed slot, or changes nothing at all |
| FileCalls.CountsAreDetermined | Kernel/IPC/fileAccess.c:11-30 | the tables determine all live accesses, pipes and counts |
| FileTables.CloseFromKeepsGood | Kernel/process_contextswitch/process.c:276-280 | closing all descriptors of a process empties its table and no other |
| FileTables.CopyFromKeepsGood | Kernel/process_contextswitch/process.c:282-288 | the target's table becomes a copy of the source's, old entries released, every count exact |
| FileTables.SpawnKeepsGood | Kernel/process_contextswitch/scheduler.c:121-137 | a new process with overrides changes only its own table |
| FilePipes.PipeKeepsGood | Kernel/interruptions/syscallDispatcher.c:125-158 | a successful sysPipe puts the two ends of a new pipe in the first two closed slots |
| FilePipes.FailedPipeChangesNothing | Kernel/interruptions/syscallDispatcher.c:125-158 | a sysPipe that lacks any of three allocations or two slots leaves every table and count as it was |
| FileRuns.EveryRunIsExact | Kernel/process_contextswitch/process.c:193-288 | after any calls since boot each access has as many references as slots hold it (the keyboard driver's included), each pipe as many as its accesses and writers as its writable ones; nothing referenced is freed and nothing unreferenced is kept |
| FileRuns.BootIsGood | Kernel/kernel.c:81-88 | init reads the keyboard pipe at descriptor 0 and the driver holds the end that writes |
| FileRuns.ReopenThenCloseIsIdentity | Kernel/process_contextswitch/process.c:209-241 | closing a reopened descriptor restores the whole state |
| FileRuns.PipeThenClosesIsIdentity | Kernel/interruptions/syscallDispatcher.c:125-162 | closing both ends of a new pipe restores the whole state |
| FileRuns.SpawnThenTerminateIsIdentity | Kernel/process_contextswitch/scheduler.c:121-137 | terminating a process just created, whatever its overrides, restores all tables and counts |
| FileRuns.CallIsLocal | Kernel/process_contextswitch/process.c:193-288 | a system call changes no slot of another existing process, nor where it leads |
| FileActions.EveryCallActs | Kernel/process_contextswitch/process.c:193-288 | every system call on descriptors does to all slots of all tables what its kind says, gives the new accesses the right pipe and flags, keeps all counts exact and turns no access into another |
| FileActions.SpawnTable | Kernel/process_contextswitch/scheduler.c:121-137 | a new process has its parent's table with the overrides applied to it one after the other |
| Pipelines.EndOfFileExactly | Kernel/IPC/pipe.c:44-53 | a pipe's writer count is zero if and only if no slot of any process can write to it |
| Pipelines.NoNewWriter | Kernel/process_contextswitch/process.c:193-288 | a process without write access to a pipe gives it to nobody |
| Pipelines.RunKeepsWriters | Kernel/process_contextswitch/process.c:193-288 | in every run of system calls by everybody only the living members of a family, and the slots of processes that make no call, can write to its pipe |
| Pipelines.TerminationEndsTheStream | Kernel/process_contextswitch/scheduler.c:233-250 | whatever everybody does, the sole writer included as long as it creates no process, its termination leaves the pipe without writers |
| EndOfStream.NewPipeIsLinked | Kernel/interruptions/syscallDispatcher.c:125-158 | a pipe just made has one writer both in the descriptor tables and in the pipe |
| EndOfStream.CallKeepsLinked | Kernel/IPC/fileAccess.c:11-70 | whatever is called on descriptors, the writer count the pipe works with is the one the tables keep; the last write access is never closed under a write in progress, and none is opened on a pipe without one |
| EndOfStream.StepKeepsLinked | Kernel/IPC/pipe.c:44-135 | reads by any processes and writes by those with write access, interleaved with any calls on descriptors, keep the invariants of both models and their agreement |
| EndOfStream.StreamEnds | Kernel/process_contextswitch/scheduler.c:233-250 | in every such run, once the family of the writers is gone, no reader sleeps for data and each one can go on or waits for one that can |
| EndOfStream.ReadAtTheEnd | Kernel/IPC/pipe.c:73-101 | from then on a blocking read returns what is in the buffer, and 0 if and only if everything accepted has been delivered |
| EndOfStream.TerminationWakesReaders | Kernel/IPC/pipe.c:44-53 | terminating the only writer moves every reader asleep for data past its wait and changes no other process |
| EndOfStream.PostIsSemPost | Kernel/semaphores/semaphore.c:50-62 | a post of the pipe protocol and semPost in the kernel leave the same semaphore, and the reader that is woken becomes ready and queued |
| EndOfStream.SleepersBecomeReady | Kernel/IPC/pipe.c:132-135 | after the posts of the last close every reader that slept for data is ready and queued in the kernel |
| DescriptorHeap.Kernel.NewFileAccess | Kernel/IPC/fileAccess.c:11-22 | a new access without references, counted by its pipe and among its writers if it can write |
| DescriptorHeap.Kernel.FreeFileAccess | Kernel/IPC/fileAccess.c:63-70 | one writer less if it could write, one reference less, and the pipe freed at zero |
| DescriptorHeap.Kernel.RemoveFileRef | Kernel/IPC/fileAccess.c:26-30 | one reference less, freed at zero |
| DescriptorHeap.Kernel.OpenFd | Kernel/process_contextswitch/process.c:193-199 | fills a closed valid slot or answers -1 |
| DescriptorHeap.Kernel.AddFd | Kernel/process_contextswitch/process.c:201-207 | the loop fills the first closed slot |
| DescriptorHeap.Kernel.CloseFd | Kernel/process_contextswitch/process.c:209-216 | empties an open slot and drops its reference or answers -1 |
| DescriptorHeap.Kernel.DupFd | Kernel/process_contextswitch/process.c:218-232 | all five cases of dup |
| DescriptorHeap.Kernel.ReopenFd | Kernel/process_contextswitch/process.c:234-241 | the clone in a new slot, or undone |
| DescriptorHeap.Kernel.CloseAllFDs | Kernel/process_contextswitch/process.c:276-280 | the loop closes every open slot |
| DescriptorHeap.Kernel.CopyFdTable | Kernel/process_contextswitch/process.c:282-288 | the loop copies slot by slot |
| DescriptorHeap.Kernel.StartNewProcessWithFds | Kernel/process_contextswitch/scheduler.c:121-137 | inherits the table and applies the overrides in order |
| DescriptorHeap.Kernel.SysPipe | Kernel/interruptions/syscallDispatcher.c:125-158 | step by step with rollback, the same as the specification |
| Stages.StageTable | Userland/SampleCodeModule/shell.c:122-161 | each descriptor of a stage: the shell's, its input and output put in place, the given ones closed |
| Shell.SingleStageDescriptors | Userland/SampleCodeModule/shell.c:174-189 | the only stage has the shell's descriptors, with its own copy of the input, or no input in the background |
| Shell.FirstStageDescriptors | Userland/SampleCodeModule/shell.c:206-212 | stage one has the writing end as output, not the reading end, and in the background no input |
| Shell.SecondStageDescriptors | Userland/SampleCodeModule/shell.c:221-227 | stage two has the reading end as input and neither the writing end nor the copy of the shell's input |
| Shell.OnlyStageOneWrites | Userland/SampleCodeModule/shell.c:198-230 | after a two-stage launch from a shell with descriptors 0 to 2 open, whatever everybody did meanwhile, only the living family of stage one can write to the pipe, and only stage one if it created no process; as long as they make no call stage one writes at its output and stage two reads at its input |
| Shell.PipelineReachesEndOfFile | Userland/SampleCodeModule/shell.c:198-246 | in every run from there on, until the address is given to another pipe, the writer count is zero once the family of stage one is gone; if stage one creates no process, once it has terminated, whenever that was |
| Shell.LineLeavesFamily | Userland/SampleCodeModule/shell.c:163-246 | when runLine returns from a line both of whose stages started, only the living family of stage one can write |
| Shell.RunLineRestoresTable | Userland/SampleCodeModule/shell.c:163-246 | on every path, whatever fails and whatever others do in between, the shell's table ends as it began |
| ShellLines.StageStarts | Userland/SampleCodeModule/shell.c:122-161 | a stage starts if and only if its command is known and there is a free PID, which it gets; otherwise nothing happens |
| ShellLines.LaunchStarts | Userland/SampleCodeModule/shell.c:198-230 | stage one starts if and only if the pipe fits, its command is known and a PID is free; stage two if and only if stage one has started, its command is known and a PID is free then |
| ShellLines.SingleLineInherits | Userland/SampleCodeModule/shell.c:163-196 | the only stage of a line, if it can start, is there when the line is done and has what the shell had before the line, with an input of its own to the same pipe, or none in the background |
| ShellLines.DoubleLineRuns | Userland/SampleCodeModule/shell.c:198-246 | when the line is done both stages that started still write to the pipe and read from it, as long as they make no call; a stage one left alone has been killed |
| Shell.FillOverrides | Userland/SampleCodeModule/shell.c:138-148 | builds the override list in its array of seven without overflow |
| Shell.RunStageCalls | Userland/SampleCodeModule/shell.c:122-161 | an unknown command or a failed creation answers -1; otherwise the process with its overrides |
| Shell.LaunchCalls | Userland/SampleCodeModule/shell.c:198-230 | the system calls of a two-stage launch, one after the other |
| Shell.RunLineCalls | Userland/SampleCodeModule/shell.c:163-246 | the system calls of a whole line, one after the other |
| Mvar.StepKeepsInv | Userland/SampleCodeModule/mvar.c:46-72 | every step of every producer and consumer keeps: one unit or one process in between, and whether the slot holds an untaken value follows from where the unit is |
| Mvar.StepAdvances | Userland/SampleCodeModule/mvar.c:46-72 | each step brings its process to the next place of its loop: it takes its unit or goes to the end of the queue, finds the mutex free, writes or reads the slot, and hands the other unit to the first that waits or leaves it there; nobody else moves |
| Mvar.LockKeepsInv | Userland/SampleCodeModule/mvar.c:48-50 | a process that has its slot unit never sleeps on the mutex |
| Mvar.EveryRunHandsOver | Userland/SampleCodeModule/mvar.c:46-72 | for any workers and any interleaving: free unit + full unit + processes in between = 1, writes and reads alternate, and the k-th value read is the k-th written |
| Mvar.NoDeadlock | Userland/SampleCodeModule/mvar.c:46-72 | with a producer and a consumer some process can always go on |
| Circle.DrawCircumference | Kernel/Drivers/videoDriver.c:205-227 | plots the eight mirror images of exactly one octant: for each y from 0 the x nearest to sqrt(r^2 - y^2), one for each row, none missing before the diagonal; the loop ends |
| Circle.OctantIsUnique | Kernel/Drivers/videoDriver.c:205-227 | the radius alone determines the octant, so any other pixel list fails the contract above |
| Circle.NearestIsUnique | Kernel/Drivers/videoDriver.c:205-227 | only one x satisfies the half-pixel bound of a row |
| Circle.RowAdvances | Kernel/Drivers/videoDriver.c:219-225 | the error stays x^2 - x + y^2 + 2y + 1 - r^2, and its sign decides rightly between keeping x and stepping left |
| Circle.BelowDiagonal | Kernel/Drivers/videoDriver.c:210 | when the loop stops no later row belongs to the octant |
| Circle.ErrorIsSmall | Kernel/Drivers/videoDriver.c:208-225 | the error stays within 2x of zero |
| Modules.FieldRoundTrip | Toolchain/ModulePacker/main.c:101-106 | a 32-bit field gives back what was put in if and only if it fits |
| Modules.Memcpy | Kernel/lib.c:21-57 | both the word loop and the byte loop copy exactly the region and nothing else, for regions that do not overlap |
| Modules.Source.Read | Toolchain/ModulePacker/main.c:113-116 | a read of the next bytes that notices the end only when it falls short |
| Modules.WriteFile | Toolchain/ModulePacker/main.c:109-119 | the chunk loop writes the whole file, whatever its length |
| Modules.BuildImage | Toolchain/ModulePacker/main.c:52-85 | the kernel, the number of modules, and each module after its size |
| Modules.RecordAt | Toolchain/ModulePacker/main.c:71-82 | module i lies where the sizes before it say |
| Modules.ImageHoldsPayload | Kernel/moduleLoader.c:16-20 | an image in memory has the loader's payload where the kernel ends |
| Modules.LoadModule | Kernel/moduleLoader.c:26-31 | one module is copied to its target and the cursor moves past it |
| Modules.LoadModules | Kernel/moduleLoader.c:16-24 | run on what the packer wrote, puts exactly module i at target i and changes no other byte, for any modules whose count and sizes fit 32 bits and targets apart from the payload and each other |

## Left out

- The node array of the buddy system is an array; the header memory of the free list is a map from address to header, because headers lie inside the bytes they manage.
- Process control blocks are records in a map that the methods reassign, and queues inside them are sequences (`Queue` proves the linked queue equal to a sequence), so aliasing between PCBs is not modelled.
- The descriptor slots of all processes are one map with an entry per open slot instead of one 16-place array in each PCB.
- PipeHeap.SharedPipe.ReadCritical: a read or write blocks inside a loop, so the method covers the code between two waits and the loops around the waits are the protocol's steps in `Pipe`.
- Mvar.StepKeepsInv: the endless loops are steps of a transition system for the same reason; delays, colours and output are not modelled.
- Shell.RunLineCalls: `hasBackground`, `splitPipeline`, `tokenize` and the command lookup are inputs (how many stages, which are usable); foreground marking, messages and waiting for a PID are not modelled, except that others run meanwhile.
- Circle.DrawCircumference: unbounded integers instead of 64-bit ones (`ErrorIsSmall` bounds every value by the radius), and the list of plotted pixels instead of the framebuffer.
- Modules.BuildImage: opening, permissions and I/O errors of files; a file does not change between the size and the copy.
- Modules.LoadModules: the loader counts modules in an `int` and the packer takes at most 128 files; the model counts up to 2^32 - 1.
- KernelFairness.QuantaRunOut: idle, which is dispatched again at once when nobody else is ready.
- FileRuns.SpawnThenTerminateIsIdentity: pending end-of-file requests of other processes are not compared.
- KernelRuns.EveryReachableStateIsGood: runs in which a caller breaks one of the four duties; the invariant is then lost, as `KernelDuties` shows.
- KernelReaping.ResumeKeepsGood: `wait_pid` by a process that is not the parent is modelled up to its wait; it blocks only outside the invariant.
- FreeListHeap.Heap.MemInit: a region smaller than one header, for which the source's subtraction wraps, and one within 8 bytes of the whole address space.
- Shell.PipelineReachesEndOfFile: after the pipe was freed its address may name another pipe, which is not this one any more.
- Scheduler.System.TerminateProcess: descriptors are closed in `DescriptorHeap` and not in this class; the foreground set is not modelled.
- Scheduler.System.StartNewProcessWithPid: names, arguments, stacks and registers; memory is one yes-or-no answer.
- The process-creation time `born` exists only in the model, and the kernel code of init before the scheduler is enabled is not a step.
- EndOfStream.StepKeepsLinked: one pipe at a time; the keyboard driver, which writes without being a process, does not write in these runs.
- `readFd` filtering of zero bytes and pending end-of-file requests on reads, and the keyboard driver's Ctrl-C and Ctrl-D.
- `setFileFlags`, `addFileFlags`, `removeFileFlags`: no caller in the kernel.
- Named semaphores (`sharedSemaphores.c`): a name lookup; the semaphores themselves are modelled.
- `killFromIsr` differs from `terminateProcess` only in not calling the scheduler; the window in which the victim still runs is excluded.
- Assembly, boot code, interrupt tables, clock, sound, keyboard decoding, fonts and the rest of the video driver, the terminal and the user commands.
- The file-system tool `Bootloader/BMFS/bmfs.c`.

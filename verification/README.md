# Verified models of the kernel's core

This Dafny project models the parts of the operating system whose correctness is hard to see by reading one
function: two memory managers, the doubly linked list, counting semaphores, pipes, the scheduler with its process
table, the memory that a process owns, the integer printer and parser, and the BMFS disk utility. For each part there
is a specification on values, lemmas about that specification over all inputs and all runs, and, where the original
changes state step by step, a class or method with the same loops and branches that is proved to do what the
specification says. `dafny verify dfyconfig.toml` checks everything.

* **Memory managers.** `AbstractHeap` says what both promise: a map of disjoint live intervals.
  `BuddyTree`, `BuddyGeometry`, `BuddySpec`, `BuddyRuns` and `BuddyLeaks` treat the buddy allocator: the tree of FREE,
  USED and SPLIT nodes, the blocks that the nodes stand for, one call, whole runs, and the blocks that get lost.
  `BuddyAllocator` is the in-place code. `BitmapSpec` and `BitmapAllocator` do the same for the bitmap allocator.
* **List and semaphores.** `DoublyLinkedList` has the real pointers, with removal in the middle of an iteration.
  `SemaphoreSpec` and `Semaphore` have sem_wait and sem_post as written: the purge of dead waiters, the hand-over, the
  counter, and what happens when memory for a queue entry is refused.
* **Pipes.** `PipeRing` is the 512-byte ring, `PipeProtocol` the three-semaphore protocol as one atomic step per
  semaphore operation, for any number of processes with any number of calls. `PipeProofs` and `PipeTheorems` prove
  conservation, order, absence of the retry, absence of deadlock and termination, `PipeRefusals` what refused memory does
  to them, and `PipeDebts` how the permits balance then. `TestSync` is the client program that tests the semaphores, and
  `LostUpdates` is that program without mutual exclusion.
* **Scheduler.** `SchedulerSpec` has every operation as a function of the whole state, with addresses that may be
  freed and reused; `SchedulerProofs` the invariant; `SchedulerFairness` bounded waiting, saved stack positions and
  unreachable branches; `SchedulerOutcomes` what each operation does, said of records and lists; `Scheduler.dfy` (module
  `SchedulerClass`) the code. `ProcessMemory` is the memory that process creation asks for and gives back, and
  `ProcessTable` that of all processes together. `KernelSync` puts semaphores and scheduler together, and
  `KernelTickets` says which process a permit reaches.
* **Numbers and disk.** `NumberText` has itoa, log and strtoi; `BmfsSpec`, `BmfsProofs` and `Bmfs.dfy` the file system.
* `Words` (fixed-width integers, powers of two) and `Sums` (sums over finite maps) are shared.

What the outside world decides is a parameter: which memory requests are granted and at which address (`Grant`, `cell`,
`ptr`, `node`, `granted`, the answers of `ProcessMemory.Memory`), what freed memory holds where a pid would be (`junk`),
which process steps next (a run is any sequence of allowed steps), the stack position at a tick, and the contents of local
files.

Assumptions: idle (pid 0) is never blocked, killed or given other descriptors by a caller, and as it only halts it
calls nothing; no process is killed or woken from outside while it is inside a pipe call, and a pipe's three semaphores
are new ones. Runs of the scheduler have the nodes of its three lists granted; what a refused one does to a single
operation is stated with its exact condition.

Where the code and the expectation differ, the code was kept and the difference stated:

* `used` of the buddy allocator is not exact. Freeing gives back half of a block that is not the whole tree
  (`BuddySpec.AllocThenFree` has the exact condition), so a heap with nothing allocated can end up refusing a request;
  `BuddyRuns.StarvesIff` says exactly when.
* mm_alloc marks a block USED before it finds that the block starts past the region, and then returns NULL. Such a block is
  lost. `BuddyLeaks.AllFreedIsFresh` says that freeing everything restores the tree exactly if that never happened, and
  `BuddyLeaks.CanLeak` in which regions it can happen; the kernel's own heap is one (`BuddyLeaks.KernelHeapLeaks`).
* Blocks are aligned relative to treeStart only, and mm_create does not align treeStart (`BuddyRuns.AddressAlignment`).
* sem_wait returns -1 when memory for its cell is refused, blocks its caller outside the queue when memory for the list node
  is refused, and returns 0 without a permit when blockProcess is refused its list node; sem_post loses its permit when
  setReadyProcess is refused the node for a blocked waiter. readPipe, writePipe and my_process_inc ignore all of it.
  `PipeTheorems.EveryRun` and `TestSync.EveryRun` say that everything holds exactly if no such refusal but the second kind
  happens, and `PipeRefusals.StrandedInRun` and `TestSync.EndsWell` what the second kind does. `PipeRefusals` and
  `LostUpdates` have failing runs, and `PipeDebts.IdlesIff` says exactly when a pipe retries or drops a byte.
* A semaphore queues pids, and pids are reused: a new process with the pid of a killed waiter counts as that waiter.
  `KernelTickets.PermitArrives` has the exact condition for a permit to reach the process that queued for it;
  `KernelSync.ReuseLosesPermit` and `KernelSync.WrongSemaphore` are two ways in which it does not, and
  `KernelTickets.StaleEntry` is a run from boot to the second one.
* setReadyProcess, blockProcess, createProcess and schedule leave a process in no list when a list node is refused
  (`SchedulerProofs.SetReadyRefusedBreaks`, `BlockRefusedBreaks`, `CreateRefusedBreaks` and `TickRefusedBreaks`).
* strtoi fails above 2^31 - 49, not above 2^31 - 1, because it adds the character before it subtracts '0'
  (`NumberText.StrtoiExact`).
* A process killed in a pipe takes along the first other process that has its descriptor, be it the other end or not
  (`SchedulerOutcomes.KillsBothEnds`). So the shell survives the interrupt key unless the process that it kills is
  redirected to one of the shell's own descriptors (`SchedulerOutcomes.ShellSurvives`).
* BMFS overwrites files when the directory is full and has a deleted entry (`BmfsProofs.FullDirectoryOverlaps`).
* BMFS places files outside the data blocks on disks with fewer than two blocks (`BmfsProofs.SmallDisks`).
* The synchronisation test is deterministic exactly with its semaphore (`LostUpdates.DeterministicIff`).

## Model

| member | source | states |
|---|---|---|
| BuddyTree.TakeInv | Kernel/utils/memory/buddy.c:201-214 | Marking a node USED and its ancestors SPLIT, when no ancestor or descendant is in use, keeps the tree well formed and coalesced and adds exactly that node to the used ones. |
| BuddyTree.ReleaseInv | Kernel/utils/memory/buddy.c:106-107 | Freeing a USED node and merging upwards restores the whole invariant (no SPLIT node has two FREE children) and removes exactly that node from the used ones. |
| BuddyTree.MergeInv | Kernel/utils/memory/buddy.c:175-199 | The recursive merge started at a FREE node that may leave one untidy pair repairs the tree all the way up and touches no used node. |
| BuddyTree.Canonical | Kernel/utils/memory/buddy.c:175-199 | Coalescing is canonical: two trees of one size that keep the invariant and have the same USED nodes are equal. |
| BuddyTree.AboveSplit | Kernel/utils/memory/buddy.c:201-207 | Every proper ancestor of a node that is not FREE is SPLIT. |
| BuddyTree.UsedBelow | Kernel/utils/memory/buddy.c:175-207 | Every node that is not FREE has a USED node at or below it, so no split part of the tree is empty. |
| BuddyGeometry.UsedApart | Kernel/utils/memory/buddy.c:88-94 | Blocks of distinct USED nodes do not overlap, although the nodes sit on different levels. |
| BuddyGeometry.ClearIsAvailable | Kernel/utils/memory/buddy.c:154-168 | The states seen by the search (FREE at the target, nothing USED above) say exactly that the block overlaps no USED block. |
| BuddyGeometry.FindFreeFirst | Kernel/utils/memory/buddy.c:154-168 | The recursive search returns the leftmost clear node of the target level below its starting node, and -1 only if there is none. |
| BuddyGeometry.NodeAtStart | Kernel/utils/memory/buddy.c:90-90 | Index arithmetic and address arithmetic are inverse: decoding a node's start offset at its own level gives the node, and the offset is a multiple of the block size. |
| BuddyGeometry.Spine | Kernel/utils/memory/buddy.c:111-127 | All nodes that decode from one start offset, from the largest power of two dividing it down to the block's own, are ancestors of the owner, and the owner itself only at its own level. |
| BuddySpec.FitExp | Kernel/utils/memory/buddy.c:143-152 | The exponent is the smallest from 4 on whose power of two holds the request. |
| BuddySpec.AllocLowest | Kernel/utils/memory/buddy.c:78-95 | mm_alloc, exactly: a request of 1 to 2^17 bytes within what the counter leaves, in unsigned arithmetic, takes the lowest block of its size that overlaps no block in use, and returns its address if it starts within the region; NULL means that one of these is not so, and a call that takes no block changes nothing. |
| BuddySpec.AllocThenFree | Kernel/utils/memory/buddy.c:78-109 | Freeing what was just allocated restores the whole tree; the used counter is restored if and only if the request needs the whole tree, and otherwise drifts by half the block. |
| BuddySpec.FreesCommute | Kernel/utils/memory/buddy.c:97-109 | Two blocks can be freed in either order with the same final state. |
| BuddySpec.OwnerUnique | Kernel/utils/memory/buddy.c:111-127 | At most one USED node's block starts at an address, although many nodes share that start. |
| BuddySpec.DescentStarts | Kernel/utils/memory/buddy.c:129-141 | The descent of mm_free starts, for every live pointer, on the spine above the owner. |
| BuddySpec.DescentSteps | Kernel/utils/memory/buddy.c:115-124 | As long as the descent has not reached the owner it stands on a SPLIT node, and one more step stays on the spine; so it stops at the owner and nowhere else. |
| BuddySpec.AllocRefines | Kernel/utils/memory/buddy.c:78-95 | mm_alloc is an allocation of the abstract heap: one new interval, large enough and apart from all others, or no change. |
| BuddySpec.FreeRefines | Kernel/utils/memory/buddy.c:97-109 | mm_free of a live pointer removes exactly its interval from the abstract heap. |
| BuddySpec.LargeTreeFitsAll | Kernel/utils/memory/buddy.c:80-84 | With maxExp of at least 17 every admitted request has a level in the tree. |
| BuddyRuns.FreshInv | Kernel/utils/memory/buddy.c:64-69 | The state that mm_create leaves satisfies the run invariant. |
| BuddyRuns.StepKeeps | Kernel/utils/memory/buddy.c:78-109 | Every mm_alloc and every mm_free of a held pointer or NULL keeps the run invariant; a held pointer is always live. |
| BuddyRuns.EveryRun | Kernel/utils/memory/buddy.c:78-109 | Over every run: held blocks are disjoint, aligned to their size relative to treeStart and at least as large as requested, and used never falls below the bytes in use (for runs with fewer than 2^47 allocations). |
| BuddyRuns.AddressAlignment | Kernel/utils/memory/buddy.c:62-94 | The address of a held block is a multiple of 16 if and only if treeStart is; mm_create does not align treeStart. |
| BuddyLeaks.LeakingCall | Kernel/utils/memory/buddy.c:87-93 | A call that finds its block past the region returns NULL and gives its caller nothing, but one more node is USED and used goes up by the block. |
| BuddyLeaks.AllFreedIsFresh | Kernel/utils/memory/buddy.c:78-109 | After any run from mm_create in which everything was freed, in whatever order, the tree is all FREE again if and only if no mm_alloc of the run took that branch. |
| BuddyLeaks.RoomyRunNeverLeaks | Kernel/utils/memory/buddy.c:87-93 | If the last 16-byte block of the tree starts within the region, no run takes the branch. |
| BuddyLeaks.CanLeak | Kernel/utils/memory/buddy.c:78-109 | From mm_create some run leads to a call that takes the branch if and only if the region is not empty and the last 16-byte block of the tree starts past it. |
| BuddyLeaks.KernelHeapLeaks | Kernel/include/memoryManagement.h:7-7 | The heap of 2^28 bytes that the kernel creates is such a region. |
| BuddyRuns.DriftStarves | Kernel/utils/memory/buddy.c:97-109 | Refutes exactness of used: on an entirely free tree, some number of allocate-and-free pairs of a request ends with the request being refused, if what the counter leaves has too small a remainder by half the block. |
| BuddyRuns.NeverStarves | Kernel/utils/memory/buddy.c:97-109 | If the remainder is large enough, no number of such pairs ends in a refusal. |
| BuddyRuns.StarvesIff | Kernel/utils/memory/buddy.c:78-109 | So a request can starve on a free heap if and only if the remainder is smaller than the request, which holds for every request above 8 bytes. |
| BuddyAllocator.Buddy.Create | Kernel/utils/memory/buddy.c:38-72 | mm_create computes the largest exponent up to 28 whose power of two is within the total size, refuses a region that cannot hold header, nodes and one block, and otherwise leaves an all-FREE tree with nothing used. |
| BuddyAllocator.KernelHeap | Kernel/utils/memory/buddy.c:43-58 | For the kernel's 2^28 bytes that is exponent 28 and 2^25 - 1 nodes, which leaves 2^28 - 2^25 - 47 bytes. |
| BuddyAllocator.Buddy.GetExponent | Kernel/utils/memory/buddy.c:143-152 | The doubling loop computes the fitting exponent. |
| BuddyAllocator.Buddy.SplitTree | Kernel/utils/memory/buddy.c:201-207 | The loop towards the root writes SPLIT on exactly the proper ancestors. |
| BuddyAllocator.Buddy.TakeNode | Kernel/utils/memory/buddy.c:87-88 | Splitting the ancestors and marking the node used, in place, is what the specification calls taking it. |
| BuddyAllocator.Buddy.MmAlloc | Kernel/utils/memory/buddy.c:78-95 | The in-place allocation gives the specified state and address and keeps the invariant. |
| BuddyAllocator.Buddy.GetExponentPtr | Kernel/utils/memory/buddy.c:129-141 | The halving loop stops at the largest power of two that divides the offset; below the region the result is 0. |
| BuddyAllocator.Buddy.GetNodeIndex | Kernel/utils/memory/buddy.c:111-127 | The descent returns the owner of the live pointer, and the exponent it leaves behind is one below the block's, except at the root. |
| BuddyAllocator.Buddy.SetMerge | Kernel/utils/memory/buddy.c:175-199 | The in-place recursive merge computes the specified merge and terminates. |
| BuddyAllocator.Buddy.MmFree | Kernel/utils/memory/buddy.c:97-109 | The in-place free of a live pointer or NULL gives the specified state and keeps the invariant. |
| BitmapSpec.FirstRunLowest | Kernel/utils/memory/bitmap.c:67-88 | The first run of n free blocks is the lowest one, and -1 means that there is none. |
| BitmapSpec.FreeRunFits | Kernel/utils/memory/bitmap.c:62-65 | A run of n free blocks needs n blocks that are not taken, so the early exit on the counter refuses no request that could be met. |
| BitmapSpec.AllocLowest | Kernel/utils/memory/bitmap.c:56-89 | mm_alloc, exactly: NULL if and only if the request is for 0 or more than 2^17 bytes or no run of free 64-byte cells holds it; otherwise it takes the lowest run of as few cells as hold it, marks them and changes nothing else. |
| BitmapSpec.AllocValid | Kernel/utils/memory/bitmap.c:72-81 | Allocation keeps the counter equal to the number of entries that are not FREE and every USED entry behind a BORDER or USED one. |
| BitmapSpec.FreeValid | Kernel/utils/memory/bitmap.c:91-116 | mm_free, exactly, of any pointer: one into the first 64 bytes of a run clears that run and takes it off the counter, and any other is ignored; the invariant is kept. |
| BitmapSpec.AllocRefines | Kernel/utils/memory/bitmap.c:56-89 | mm_alloc is an allocation of the same abstract heap that the buddy allocator refines. |
| BitmapSpec.FreeRefines | Kernel/utils/memory/bitmap.c:91-116 | mm_free of any pointer removes exactly the interval it resolves to, or changes nothing. |
| BitmapSpec.AllocThenFree | Kernel/utils/memory/bitmap.c:56-116 | Freeing what was just allocated restores the whole state, counter included. |
| BitmapSpec.EveryRun | Kernel/utils/memory/bitmap.c:56-116 | Over every run of allocations and arbitrary frees the live intervals are disjoint and inside the managed region. |
| BitmapAllocator.Bitmap.constructor | Kernel/utils/memory/bitmap.c:38-47 | mm_create leaves every block FREE and nothing used. |
| BitmapAllocator.Bitmap.MmAlloc | Kernel/utils/memory/bitmap.c:56-89 | The scan with its running count of free blocks gives the specified state and address. |
| BitmapAllocator.Bitmap.MmFree | Kernel/utils/memory/bitmap.c:91-116 | The clearing loop gives the specified state and keeps the invariant. |
| BitmapAllocator.Bitmap.MmInfo | Kernel/utils/memory/bitmap.c:118-128 | The figures reported are the number of blocks, of taken blocks and of free blocks. |
| DoublyLinkedList.RemoveAt | Kernel/utils/doubleLinkedList.c:81-104 | What removal at a place does: one element less, the earlier ones in place and the later ones moved up. |
| DoublyLinkedList.List.AddNode | Kernel/utils/doubleLinkedList.c:33-57 | Appends the element, or changes nothing when memory for the node is refused; prev and next chains stay consistent. |
| DoublyLinkedList.List.AddNodeInFirst | Kernel/utils/doubleLinkedList.c:59-74 | Links an existing node in front of all others. |
| DoublyLinkedList.List.RemoveNode | Kernel/utils/doubleLinkedList.c:76-107 | Unlinks the first node that holds the element and no other, in all four neighbour cases; the cursor is left where it was. |
| DoublyLinkedList.List.GetFirstData | Kernel/utils/doubleLinkedList.c:109-114 | Pops the head, or returns NULL for an empty list. |
| DoublyLinkedList.List.ToBegin | Kernel/utils/doubleLinkedList.c:141-146 | Puts the cursor before the first element. |
| DoublyLinkedList.List.HasNext | Kernel/utils/doubleLinkedList.c:148-153 | Says whether the cursor is before an element. |
| DoublyLinkedList.List.NextInList | Kernel/utils/doubleLinkedList.c:155-162 | Returns the element at the cursor and moves the cursor by one; NULL at the end. |
| DoublyLinkedList.List.FreeAll | Kernel/utils/doubleLinkedList.c:116-125 | What it hands to mm_free are exactly the nodes of the list, in order, and then the list itself. |
| SemaphoreSpec.PurgeCounts | Kernel/utils/semaphores/semaphores.c:125-134 | Purging keeps every entry of a live pid, as often as it is there, and no other. |
| SemaphoreSpec.PurgeOrder | Kernel/utils/semaphores/semaphores.c:125-134 | Of two live entries the one that was first is still first. |
| SemaphoreSpec.Conservation | Kernel/utils/semaphores/semaphores.c:78-157 | Over every run, whatever memory is refused: initial permits and posts equal the counter, the permits acquired at once and those handed to waiters; nobody waits while the counter is positive. |
| SemaphoreSpec.PostCounts | Kernel/utils/semaphores/semaphores.c:153-155 | A post that finds nobody alive adds one to the counter, which wraps around from 2^32 - 1 to 0. |
| SemaphoreSpec.SemOkAlways | Kernel/utils/semaphores/semaphores.c:78-157 | Even when the 32-bit counter wraps around, nobody waits while it is positive. |
| SemaphoreSpec.PlaceMoves | Kernel/utils/semaphores/semaphores.c:136-151 | At each post a live waiter either is first among the living and gets the permit, or moves up. |
| SemaphoreSpec.WokenInTurn | Kernel/utils/semaphores/semaphores.c:78-157 | First come, first served: a waiter with k others ahead, alive at every post, is woken by the (k+1)-th post at the latest. |
| Semaphore.SemaphoreT.constructor | Kernel/utils/semaphores/semaphores.c:33-43 | sem_create on an inactive slot gives the initial counter and an empty queue. |
| Semaphore.SemaphoreT.Wait | Kernel/utils/semaphores/semaphores.c:78-110 | Takes a permit; or queues the caller's pid at the end and blocks it; or, if its cell is refused, fails without change; or, if the list node is refused, blocks the caller outside the queue and leaks the cell; or, if blockProcess is refused its node, returns 0 with the pid in the queue and the caller not blocked. |
| Semaphore.SemaphoreT.PurgeDead | Kernel/utils/semaphores/semaphores.c:125-134 | The loop that unlinks and frees nodes of the list it iterates over leaves exactly the live entries in order, and only ever reads entries that are still there. |
| Semaphore.SemaphoreT.Post | Kernel/utils/semaphores/semaphores.c:112-157 | Purge, then hand-over to the first live waiter without touching the counter, else one more permit. |
| PipeRing.PutAppends | Kernel/utils/pipes/pipes.c:122-124 | Storing a byte at writeIdx appends it to what the ring holds, with wrap-around. |
| PipeRing.DropPops | Kernel/utils/pipes/pipes.c:81-83 | Taking the byte at readIdx removes the first one of what the ring holds, with wrap-around. |
| PipeRing.Pipe.Open | Kernel/utils/pipes/pipes.c:30-42 | A pipe is opened empty, with one reader and one writer and a cleared buffer. |
| PipeRing.Pipe.ReadSection | Kernel/utils/pipes/pipes.c:74-100 | The reader's critical section: end of file, a byte taken in order, the last byte, or retry, each exactly in its case. |
| PipeRing.Pipe.WriteSection | Kernel/utils/pipes/pipes.c:121-126 | The writer's critical section appends the byte, or leaves the ring alone when it is full. |
| PipeProofs.StartKeeps | Kernel/utils/pipes/pipes.c:60-117 | A process that is in no call may start one at any time, on any number of processes. |
| PipeProofs.StepKeeps | Kernel/utils/pipes/pipes.c:70-131 | An atomic step keeps 512 = semWriters + slots held + count + slot posts owed and count = semReaders + items held + item posts owed, mutual exclusion and the agreement of the logs with the ring, if and only if it overlooks no refusal: it is no sem_wait that finds no permit and is refused its cell or the node of blockProcess, and no sem_post that is refused the node for the waiter it wakes. |
| PipeProofs.StepWorks | Kernel/utils/pipes/pipes.c:70-131 | Whatever memory is refused, no step looks beyond the caller's buffer or the ring. |
| PipeTheorems.OpenedInv | Kernel/utils/pipes/pipes.c:30-50 | createPipe establishes that invariant. |
| PipeTheorems.EveryRun | Kernel/utils/pipes/pipes.c:60-136 | In every interleaving of any number of calls, whatever memory is refused, the invariant holds in all states if and only if no step overlooks a refusal. |
| PipeTheorems.NeverRetries | Kernel/utils/pipes/pipes.c:80-126 | Where the invariant holds, a process inside the critical section always moves a byte: the fullness test never fails, and the retry branch is never taken. |
| PipeTheorems.MutualExclusion | Kernel/utils/pipes/pipes.c:70-131 | At most one process is between acquiring and releasing the mutex. |
| PipeTheorems.FifoDelivery | Kernel/utils/pipes/pipes.c:80-126 | The log of bytes written is the log of bytes delivered followed by what the ring holds. |
| PipeTheorems.FifoFromOpened | Kernel/utils/pipes/pipes.c:25-136 | In every run from an opened pipe that overlooks no refusal: what was written is what was delivered and then the ring, and each process's bytes are those of its calls. |
| PipeTheorems.EndToEnd | Kernel/utils/pipes/pipes.c:60-136 | One process writes and one reads, each in any number of calls: what was read is a prefix of the concatenated data, and once it is as long it is all of it and the pipe is empty, also beyond 512 bytes. |
| PipeTheorems.LastReads | Kernel/utils/pipes/pipes.c:74-95 | On a pipe without writers a reader that finds nothing returns, and so does one that took the last byte, having posted its slot, however much it asked for. |
| PipeTheorems.Quiescence | Kernel/utils/pipes/pipes.c:70-131 | When nobody can move and nobody is marooned, a reader still waiting means an empty pipe and no unfinished writer, and a writer still waiting means a full pipe and no unfinished reader. |
| PipeTheorems.NoDeadlock | Kernel/utils/pipes/pipes.c:70-131 | While a reader and a writer are both in the middle of a call and nobody is marooned, somebody can move. |
| PipeTheorems.StepCosts | Kernel/utils/pipes/pipes.c:70-131 | Every step that overlooks no refusal uses up energy, so nobody can keep others busy for ever. |
| PipeTheorems.Termination | Kernel/utils/pipes/pipes.c:60-136 | Every run that overlooks no refusal takes at most 7 steps for each byte asked for. |
| PipeRefusals.StrandedInRun | Kernel/utils/pipes/pipes.c:70-136 | Whatever memory was refused, somebody is marooned at the end of a run (blocked where no post will find him) if and only if some sem_wait of the run that found no permit, of a process with no other entry in a queue, was refused its list node, or some sem_post could not wake whom it handed its permit to. |
| PipeRefusals.StrandedForever | Kernel/utils/pipes/pipes.c:70-136 | Whatever happens afterwards, a marooned process never returns from its call. |
| PipeRefusals.RestsInQueues | Kernel/utils/pipes/pipes.c:60-136 | When a run from an opened pipe that overlooks no refusal has come to rest, every call that has not returned waits in a queue if and only if no sem_wait that found no permit was refused its list node. |
| PipeRefusals.RetryTurn | Kernel/utils/pipes/pipes.c:96-100 | A reader on an empty pipe that is refused its cell does take the retry branch, and is back where it was. |
| PipeRefusals.RetriesForever | Kernel/utils/pipes/pipes.c:70-101 | A failing run: from an opened pipe such a reader can go on retrying without limit, however little it asked for. |
| PipeRefusals.DropsByte | Kernel/utils/pipes/pipes.c:116-131 | A writer on a full pipe that is refused its cell drops its byte, goes on to the next one and posts semReaders all the same. |
| PipeDebts.DebtsBalance | Kernel/utils/pipes/pipes.c:60-136 | After every run from an opened pipe, whatever cells and list nodes were refused, permits, bytes and debts balance: a sem_wait that goes on without a permit makes a debt, a retry or a dropped byte pays one back; there are at most as many dropped bytes as writers that went on without a slot, and as many retries as readers that did so and dropped bytes. |
| PipeDebts.IdlesIff | Kernel/utils/pipes/pipes.c:74-126 | At any point of such a run a reader in its section retries if and only if all items around, free, held or owed, are debts, and a writer drops its byte if and only if all slots are. |
| PipeDebts.AnotherRetries | Kernel/utils/pipes/pipes.c:70-100 | Refutes that only a reader that was refused can retry: a refused reader takes the byte of one that had its permit, and that one retries. |
| TestSync.StoreWraps | Userland/SampleCodeModule/tests/test_sync.c:14-19 | Adding on the unsigned image of a signed 64-bit sum is adding to the sum, wrap-around included. |
| TestSync.SyncKeeps | Userland/SampleCodeModule/tests/test_sync.c:52-60 | A step keeps: at most one client between wait and post, its loaded value is current, and the shared variable is the sum of all stores so far; if and only if it overlooks no refusal (as for pipes). |
| TestSync.EveryRun | Userland/SampleCodeModule/tests/test_sync.c:52-60 | In every interleaving, including the yield between load and store, and whatever memory is refused, that holds in all states if and only if no step overlooks a refusal. |
| TestSync.FinalValue | Userland/SampleCodeModule/tests/test_sync.c:21-64 | When all clients are done, and no refusal was overlooked, the shared variable is the sum of n times inc over the clients, as a 64-bit integer. |
| TestSync.MatchedPairsCancel | Userland/SampleCodeModule/tests/test_sync.c:87-90 | The two decrementing and the two incrementing clients add up to nothing. |
| TestSync.TestSyncDeterministic | Userland/SampleCodeModule/tests/test_sync.c:66-97 | With the semaphore and no overlooked refusal, every interleaving of the four clients that cannot go on has all clients done if and only if no list node was refused, and then the shared variable is 0. |
| TestSync.StepCosts | Userland/SampleCodeModule/tests/test_sync.c:52-60 | Every step that overlooks no refusal brings the end nearer. |
| TestSync.NoDeadlock | Userland/SampleCodeModule/tests/test_sync.c:52-60 | While some client is not done and nobody is marooned, some client can move. |
| TestSync.Termination | Userland/SampleCodeModule/tests/test_sync.c:52-60 | Every run that overlooks no refusal comes to an end within four steps for each round of each client. |
| TestSync.EndsWell | Userland/SampleCodeModule/tests/test_sync.c:21-64 | A run that overlooks no refusal and cannot go on has every client done and the planned sum in the shared variable if and only if no sem_wait that found no permit was refused its list node. |
| LostUpdates.Solo | Userland/SampleCodeModule/tests/test_sync.c:52-60 | A client that runs alone adds inc once for each of its rounds. |
| LostUpdates.LostUpdate | Userland/SampleCodeModule/tests/test_sync.c:66-97 | For every n the four clients of the test have an interleaving that ends with -n: without the semaphore, and with it if one sem_wait is refused its cell. |
| LostUpdates.DeterministicIff | Userland/SampleCodeModule/tests/test_sync.c:66-97 | For every n, all interleavings of the test that run to their end undisturbed by refusals end with 0 if and only if the semaphore is used. |
| SchedulerSpec.FreePid | Kernel/utils/processes/scheduler.c:124-130 | The pid search finds the least pid that no listed process has. |
| SchedulerProofs.Finds | Kernel/utils/processes/scheduler.c:209-219 | A search by pid finds the one listed process that has it, or nothing exactly if none has. |
| SchedulerProofs.BootInv | Kernel/utils/processes/scheduler.c:21-43 | createScheduler establishes the invariant. |
| SchedulerProofs.CreateKeeps | Kernel/utils/processes/scheduler.c:107-153 | Creation keeps the invariant, whether it succeeds or not, if list nodes are granted. |
| SchedulerProofs.CreateRefusedBreaks | Kernel/utils/processes/scheduler.c:143-151 | A successful creation keeps the invariant if and only if both of its list nodes are granted. |
| SchedulerProofs.PidIsFree | Kernel/utils/processes/scheduler.c:113-135 | With fewer than 30 processes there is a free pid, by counting. |
| SchedulerProofs.SetReadyKeeps | Kernel/utils/processes/scheduler.c:221-237 | Waking keeps the invariant, also in the middle of a kill. |
| SchedulerProofs.SetReadyRefusedBreaks | Kernel/utils/processes/scheduler.c:227-233 | Without its list node setReadyProcess keeps the invariant if and only if the process is not blocked; a blocked one ends up in no list and cannot be woken again. |
| SchedulerProofs.BlockKeeps | Kernel/utils/processes/scheduler.c:239-260 | Blocking any process but idle keeps the invariant, including the switch when the caller blocks itself. |
| SchedulerProofs.BlockRefusedBreaks | Kernel/utils/processes/scheduler.c:245-254 | Without its list node blockProcess keeps the invariant if and only if the process is not ready; a ready one ends up in no list. |
| SchedulerProofs.TickDispatches | Kernel/utils/processes/scheduler.c:70-104 | A tick that switches always dispatches the head of the ready list; it is never empty then. |
| SchedulerProofs.TickKeeps | Kernel/utils/processes/scheduler.c:45-105 | A timer tick keeps the invariant; in particular the record of a killed process is gone after the switch. |
| SchedulerProofs.TickRefusedBreaks | Kernel/utils/processes/scheduler.c:70-104 | Without its list node a tick that switches keeps the invariant if and only if it takes no running process off the processor or nobody else is ready; otherwise that process is ready and in no list. |
| SchedulerProofs.YieldKeeps | Kernel/utils/processes/scheduler.c:262-266 | yield keeps the invariant from the state in which the caller is already marked blocked. |
| SchedulerProofs.KillSucceeds | Kernel/utils/processes/scheduler.c:379-410 | kill of a listed process takes neither of its failure exits. |
| SchedulerProofs.KillKeeps | Kernel/utils/processes/scheduler.c:379-410 | kill keeps the invariant whatever the freed entries of the waiting list hold. |
| SchedulerProofs.KillSpares | Kernel/utils/processes/scheduler.c:379-410 | kill removes that process only; every other record stays as it was, but for being woken. |
| SchedulerProofs.KillWakesWaiters | Kernel/utils/processes/scheduler.c:391-398 | Every listed process that is blocked and waits for the killed one becomes ready, even if other waiters were freed. |
| SchedulerProofs.KillWakesNoOther | Kernel/utils/processes/scheduler.c:391-398 | If no waiter was freed, nobody else is touched. |
| SchedulerProofs.KillProcessKeeps | Kernel/utils/processes/scheduler.c:273-291 | Killing a process and then the process at the other end of its pipe keeps the invariant; the second one is never idle. |
| SchedulerProofs.KillForegroundKeeps | Kernel/utils/processes/scheduler.c:294-316 | The interrupt key keeps the invariant; it never kills idle. |
| SchedulerProofs.WaitForKeeps | Kernel/utils/processes/process.c:103-116 | waitProcess keeps the invariant, also when the caller has been killed meanwhile. |
| SchedulerProofs.WaitForPassedKeeps | Kernel/utils/processes/process.c:103-116 | If blockProcess is refused its list node, the invariant holds and the caller of waitProcess goes on running. |
| SchedulerProofs.ChangesKeep | Kernel/utils/processes/process.c:118-200 | Changing priorities and file descriptors keeps the invariant. |
| SchedulerProofs.NextKeeps | Kernel/utils/processes/scheduler.c:45-410 | Every operation keeps: distinct pids in 0 to 29, processQty the length of the list, READY and BLOCKED exactly as listed, RUNNING only the current process, currentPid in agreement, no record beyond those listed, idle alive. |
| SchedulerProofs.EveryRun | Kernel/utils/processes/scheduler.c:45-410 | That holds after every sequence of operations. |
| SchedulerFairness.FallbacksUnreachable | Kernel/utils/processes/scheduler.c:85-135 | From boot on, in every run, no call of schedule finds the ready list empty and no creation runs out of pids. |
| SchedulerFairness.KillCalm | Kernel/utils/processes/scheduler.c:379-410 | kill puts nobody in front of a ready process that it does not kill. |
| SchedulerFairness.BeforeTickCalm | Kernel/utils/processes/scheduler.c:107-316 | No operation puts anybody in front of a ready process. |
| SchedulerFairness.TickNearer | Kernel/utils/processes/scheduler.c:53-104 | Each tick either dispatches a ready process or brings it nearer by at least one tick, and by one place if it switches. |
| SchedulerFairness.BoundedWaiting | Kernel/utils/processes/scheduler.c:53-104 | While a process stays ready there are fewer ticks than the quantum left plus the quanta of those ahead, and at most as many switches as there are processes ahead. |
| SchedulerFairness.BoundedWaitingCapped | Kernel/utils/processes/scheduler.c:53-104 | The same with 10 ticks for each process ahead, even if priorities change on the way. |
| SchedulerFairness.TenPerPlace | Kernel/utils/processes/scheduler.c:53-104 | From place k, with priorities up to 10: fewer than 10 * (k + 1) ticks and at most k switches before the dispatch. |
| SchedulerFairness.LeavesReady | Kernel/utils/processes/scheduler.c:85-104 | A process leaves the ready list only by being dispatched, blocked or killed. |
| SchedulerFairness.TickStack | Kernel/utils/processes/scheduler.c:70-104 | A switch saves the stack position of the process it stops, keeps every other one, and continues with what was saved for the one it starts. |
| SchedulerFairness.ResumesWhereStopped | Kernel/utils/processes/scheduler.c:70-104 | However long a process is suspended, it is resumed with the stack position it was stopped at. |
| SchedulerClass.Scheduler.constructor | Kernel/utils/processes/scheduler.c:21-43 | createScheduler leaves the specified boot state. |
| SchedulerClass.Scheduler.FindProcess | Kernel/utils/processes/scheduler.c:209-219 | The loop over the process list finds what the specification finds. |
| SchedulerClass.Scheduler.PipedTo | Kernel/utils/processes/scheduler.c:356-367 | The loop finds the first process with that descriptor. |
| SchedulerClass.Scheduler.Schedule | Kernel/utils/processes/scheduler.c:45-105 | The in-place tick gives the specified state and stack position, with its list node granted or refused; it reads no freed record. |
| SchedulerClass.Scheduler.CreateProcess | Kernel/utils/processes/scheduler.c:107-153 | The in-place creation gives the specified state, with any of its requests refused, and gives the record back when it fails. |
| SchedulerClass.Scheduler.SetReadyProcess | Kernel/utils/processes/scheduler.c:221-237 | The in-place wake-up gives the specified state, with its list node granted or refused. |
| SchedulerClass.Scheduler.BlockProcess | Kernel/utils/processes/scheduler.c:239-260 | The in-place block gives the specified state, with its list node granted or refused. |
| SchedulerClass.Scheduler.Yield | Kernel/utils/processes/scheduler.c:262-266 | yield ends the quantum and takes a tick. |
| SchedulerClass.Scheduler.WakeWaiters | Kernel/utils/processes/scheduler.c:391-398 | The loop over the waiting list wakes whom the specification wakes. |
| SchedulerClass.Scheduler.Kill | Kernel/utils/processes/scheduler.c:379-410 | The in-place kill gives the specified state. |
| SchedulerClass.Scheduler.KillProcess | Kernel/utils/processes/scheduler.c:273-291 | The process and then its pipe partner are killed as specified. |
| SchedulerClass.Scheduler.KillForegroundProcess | Kernel/utils/processes/scheduler.c:294-316 | The search for a foreground process and its kill are as specified. |
| SchedulerClass.Scheduler.WaitProcess | Kernel/utils/processes/process.c:103-116 | The in-place wait gives the specified state, with its entry in the waiting list granted or not and the node of blockProcess granted or not. |
| SchedulerClass.Scheduler.ChangePriority | Kernel/utils/processes/process.c:189-200 | Priorities outside 1 to 10 are refused, others are set. |
| SchedulerClass.Scheduler.ChangeFileDescriptors | Kernel/utils/processes/process.c:118-130 | The descriptors of a listed process are set. |
| SchedulerOutcomes.TickCounts | Kernel/utils/processes/scheduler.c:53-57 | A tick with more than one tick of the quantum left changes nothing but the count, and goes on at the same stack position. |
| SchedulerOutcomes.TickSwitches | Kernel/utils/processes/scheduler.c:70-104 | Any other tick runs the head of the ready list, to whose end the running process was added, with its priority as quantum and from its stack position; the process that ran keeps its own, the record of a killed one is gone, and no other record changes. |
| SchedulerOutcomes.FullQuantum | Kernel/utils/processes/scheduler.c:53-57 | A process with a quantum of q stays on the processor for q - 1 ticks, which change nothing but the count. |
| SchedulerOutcomes.QuantumEnds | Kernel/utils/processes/scheduler.c:53-104 | And the tick after those takes it off, if anybody else is ready. |
| SchedulerOutcomes.KeepsProcessor | Kernel/utils/processes/scheduler.c:53-410 | Whatever else is created, woken, blocked, killed or changed, a process that does not yield, block itself or wait stays the current one for fewer ticks than its quantum, and each takes one off. |
| SchedulerOutcomes.Creates | Kernel/utils/processes/scheduler.c:107-153 | createProcess fails if and only if it gets no record or 30 processes are listed; otherwise the record holds the given priority, descriptors, ground and stack position, the least free pid, READY and no waiters, the process is last in both lists, and nothing else changes. |
| SchedulerOutcomes.Boots | Kernel/utils/processes/scheduler.c:21-43 | The state after createScheduler, field by field. |
| SchedulerOutcomes.Wakes | Kernel/utils/processes/scheduler.c:221-237 | setReadyProcess moves a blocked process from its place in the blocked list to the end of the ready list, and leaves any other one alone. |
| SchedulerOutcomes.BlocksOther | Kernel/utils/processes/scheduler.c:239-260 | blockProcess moves a ready process from its place in the ready list to the end of the blocked list, and leaves a blocked one alone. |
| SchedulerOutcomes.BlocksSelf | Kernel/utils/processes/scheduler.c:239-266 | A process that blocks itself ends up last in the blocked list with its stack position saved, and the head of the ready list runs. |
| SchedulerOutcomes.Yields | Kernel/utils/processes/scheduler.c:262-266 | yield is the last tick of a quantum, whatever was left of it. |
| SchedulerOutcomes.SetsPriority | Kernel/utils/processes/process.c:189-200 | changePriority stores priorities from 1 to 10 in the record with that pid, and refuses all others. |
| SchedulerOutcomes.SetsDescriptors | Kernel/utils/processes/process.c:118-130 | changeFileDescriptors stores both descriptors in the record with that pid, or fails if there is none. |
| SchedulerOutcomes.NextFrames | Kernel/utils/processes/scheduler.c:45-410 | Every operation changes the record of a listed process in the one way it is for and, apart from status, in no other; its stack position only if it is the one that ran. |
| SchedulerOutcomes.KillsBothEnds | Kernel/utils/processes/scheduler.c:273-291 | If a process reads from a descriptor other than 0, or else writes to one other than 1, killProcess takes it and the first other process with that descriptor off the list, and nobody else. |
| SchedulerOutcomes.KillsAlone | Kernel/utils/processes/scheduler.c:273-291 | With both descriptors the terminal's, or a descriptor that nobody else has or that is -1, it takes the named process alone. |
| SchedulerOutcomes.KillsNobody | Kernel/utils/processes/scheduler.c:273-278 | With a pid that nobody has, it fails and changes nothing. |
| SchedulerOutcomes.InterruptsRunning | Kernel/utils/processes/scheduler.c:294-302 | The interrupt key kills the running process, as killProcess does, if that is in the foreground and not process 1. |
| SchedulerOutcomes.InterruptsFirst | Kernel/utils/processes/scheduler.c:303-313 | Otherwise it kills the first such process in the list, alone. |
| SchedulerOutcomes.InterruptsNobody | Kernel/utils/processes/scheduler.c:303-316 | And if there is none, nobody. |
| SchedulerOutcomes.ShellSurvives | Kernel/utils/processes/scheduler.c:294-316 | The shell, on its terminal, survives the interrupt key unless the process killed is redirected to descriptor 1 for reading or 0 for writing. |
| SchedulerOutcomes.WaitsFor | Kernel/utils/processes/process.c:103-116 | waitProcess puts the caller on the waiting list of the process it names, and blocks it. |
| SchedulerOutcomes.WaitsForNobody | Kernel/utils/processes/process.c:103-110 | waitProcess fails and changes nothing if and only if the pid is the caller's own or nobody's. |
| SchedulerOutcomes.DeathWakes | Kernel/utils/processes/scheduler.c:273-410 | Whatever action kills a process, the blocked processes on its waiting list that survive become ready. |
| SchedulerOutcomes.WaitEnds | Kernel/utils/processes/process.c:103-116 | End to end: after any run in which waiter and process are both still there, an action that kills the process makes the waiter ready if it is blocked, unless it kills it too. |
| SchedulerOutcomes.WakesNobody | Kernel/utils/processes/scheduler.c:227-233 | What setReadyProcess does without its list node, exactly. |
| SchedulerOutcomes.BlocksNobody | Kernel/utils/processes/scheduler.c:245-252 | What blockProcess does without its list node, exactly. |
| SchedulerOutcomes.CreatesUnlisted | Kernel/utils/processes/scheduler.c:143-151 | What createProcess does without one of its list nodes, exactly. |
| SchedulerOutcomes.WaitsRunning | Kernel/utils/processes/process.c:103-116 | What waitProcess does without the node of blockProcess, exactly. |
| SchedulerOutcomes.TicksWithout | Kernel/utils/processes/scheduler.c:76-104 | What a tick does without the node for the process it takes off, exactly. |
| KernelSync.WaitBlocks | Kernel/utils/semaphores/semaphores.c:93-109 | Without a permit the caller ends up blocked and another process runs, unless its cell or the node of blockProcess is refused and it goes on; it is at the end of the queue unless its cell or its list node is refused. |
| KernelSync.PostWakes | Kernel/utils/semaphores/semaphores.c:136-151 | sem_post hands the permit to the first live pid, and the process with this pid is not blocked any more. |
| KernelTickets.WaitErases | Kernel/utils/semaphores/semaphores.c:78-110 | Recording in each queue entry which process made it does not change what sem_wait does. |
| KernelTickets.PostErases | Kernel/utils/semaphores/semaphores.c:112-157 | Nor what sem_post does. |
| KernelTickets.BootedInv | Kernel/utils/processes/scheduler.c:21-43 | The kernel as it boots, with semaphores that nobody waits for, satisfies the invariant of numbers and entries. |
| KernelTickets.NextKeeps | Kernel/utils/processes/scheduler.c:107-410 | No operation of scheduler or semaphores gives a process number twice or changes the pid of a record, so an entry's maker keeps the pid on it. |
| KernelTickets.OnlyKillsUnlist | Kernel/utils/processes/scheduler.c:273-410 | An action takes a process off the process list if and only if it kills it: it names it or the process at the other end of its pipe, or is the interrupt key that finds it; said in terms of pids, descriptors and places in the list. |
| KernelTickets.PermitArrives | Kernel/utils/semaphores/semaphores.c:78-151 | A process queues itself in sem_wait; after any run since then the permit that is handed to its entry reaches it if and only if no action of the run killed it; whoever it reaches becomes ready if blocked. |
| KernelSync.WrongSemaphore | Kernel/utils/semaphores/semaphores.c:125-148 | Refutes that only waiters are woken: the entry of a killed waiter whose pid now names a process that waits for another semaphore makes that process ready, without a permit and still in the other queue. |
| KernelTickets.StaleEntry | Kernel/utils/semaphores/semaphores.c:78-148 | A run from boot gets there: process 1 waits, is killed, a new process gets its pid and waits for another semaphore, and the next post on the first one makes the new process ready, which did not make the entry. |
| KernelSync.ReuseLosesPermit | Kernel/utils/semaphores/semaphores.c:125-148 | Refutes that a permit always reaches a waiter: a waiter's pid that was freed and given to a new process takes the permit of the next sem_post, and nobody goes on. |
| KernelSync.ReachedFromBoot | Kernel/utils/processes/scheduler.c:21-153 | The system with idle and one more, running process is reached from boot by a creation and two ticks. |
| KernelSync.ReuseHappens | Kernel/utils/processes/scheduler.c:124-130 | That scenario occurs there: the killed waiter's pid is the lowest free one. |
| ProcessMemory.FreeArgv | Kernel/utils/processes/process.c:132-144 | Releases every copied string once, and the vector. |
| ProcessMemory.AllocArgv | Kernel/utils/processes/process.c:146-187 | Copies the whole vector into new distinct blocks or leaves the heap as it was; it fails if and only if the vector is unusable or memory is refused. |
| ProcessMemory.InitializeProcess | Kernel/utils/processes/process.c:14-73 | Grants all parts of a process apart from each other and from everything live, or unwinds so that the heap is as before; it fails if and only if the arguments are unusable or memory is refused. |
| ProcessMemory.FreeProcess | Kernel/utils/processes/process.c:75-101 | Releases exactly the process's footprint, each block once. |
| ProcessMemory.FreeWaitingList | Kernel/utils/doubleLinkedList.c:116-125 | Releases every node of the waiting list once, and its header. |
| ProcessMemory.CreateProcess | Kernel/utils/processes/scheduler.c:107-141 | For every pattern of refused requests, a failed creation leaves the set of live blocks unchanged, and a successful one adds exactly the new footprint. |
| ProcessMemory.AddWaiter | Kernel/utils/processes/process.c:113-113 | A waiter adds one list node to the footprint, or nothing if its memory is refused. |
| ProcessTable.GivenParts | Kernel/utils/processes/scheduler.c:117-141 | Blocks given to one owner change no other owner's part. |
| ProcessTable.TakenParts | Kernel/utils/processes/process.c:75-101 | Neither do blocks that are taken from one owner. |
| ProcessTable.Table.Create | Kernel/utils/processes/scheduler.c:107-153 | Creation adds a process if and only if there is room, a pid, usable arguments and all memory; every live block keeps one owner, and the new ones are the process's footprint. |
| ProcessTable.Table.Wait | Kernel/utils/processes/process.c:103-116 | A wait adds one live block, a list node, to the footprint of the process waited for, or nothing if it is refused. |
| ProcessTable.Table.Kill | Kernel/utils/processes/scheduler.c:399-407 | A kill finds the record whole and live and releases exactly its part, at once or at the next tick if it is running. |
| ProcessTable.Table.Tick | Kernel/utils/processes/scheduler.c:70-75 | The tick releases the record of a killed running process, once. |
| ProcessTable.Table.Run | Kernel/utils/processes/scheduler.c:107-410 | Over every sequence of creations, waits, kills and ticks every live block has one owner, and once all processes are gone exactly the blocks of others are live. |
| NumberText.DigitsDenote | Kernel/lib.c:100-105 | The digits that division produces denote the number, in every base. |
| NumberText.DigitsUnique | Kernel/lib.c:100-105 | They are the only digits without a leading zero that do. |
| NumberText.CharacterIs | Kernel/lib.c:100-105 | Digits up to 35 are printed as 0 to 9 and A to Z. |
| NumberText.Log | Kernel/lib.c:83-88 | log is the number of digits. |
| NumberText.Itoa | Kernel/lib.c:90-108 | In every base from 2 on, the backward writes fill the buffer exactly with the digits, the terminator follows, and nothing behind it is touched. |
| NumberText.Strtoi | Kernel/lib.c:110-116 | The loop stops at the first character that is not a digit, and reads what the specification reads. |
| NumberText.StrtoiExact | Kernel/lib.c:110-116 | Every string of decimal digits is read right if its number is at most 2^31 - 49, and overflows a 32-bit int otherwise. |
| NumberText.RoundTrip | Kernel/lib.c:90-116 | strtoi undoes itoa in base 10 if and only if n is at most 2^31 - 49. |
| BmfsSpec.FindFrom | Bootloader/BMFS/bmfs.c:178-201 | A slot that is found holds the first live entry of that name before the end mark; if none is found there is none. |
| BmfsProofs.SortChain | Bootloader/BMFS/bmfs.c:567-569 | The sorted copy holds the same files, each ending before the next one starts. |
| BmfsProofs.PlaceLowest | Bootloader/BMFS/bmfs.c:571-596 | The walk over the gaps finds the lowest place, or none exactly if there is none. |
| BmfsProofs.Found | Bootloader/BMFS/bmfs.c:178-201 | findfile finds a file exactly if there is one of that name. |
| BmfsProofs.FormatInv | Bootloader/BMFS/bmfs.c:227-236 | A formatted disk has no files and satisfies the invariant. |
| BmfsProofs.CreatePlaces | Bootloader/BMFS/bmfs.c:566-596 | create takes the lowest free place on the disk. |
| BmfsProofs.CreateOutcome | Bootloader/BMFS/bmfs.c:522-623 | create succeeds if and only if the name is new, one of the 64 slots is left and the file fits somewhere within blocks 1 to num_blocks - 2; it adds that file, empty, with the fewest 2 MiB blocks that hold it at the lowest place, and nothing else; each refusal has its exact reason. |
| BmfsProofs.WriteKeeps | Bootloader/BMFS/bmfs.c:650-687 | write succeeds if and only if the file exists and has reserved the room; then the bytes at its place on the disk and its size are the new ones and nothing else has changed; it keeps the invariant. |
| BmfsProofs.ReadAfterWrite | Bootloader/BMFS/bmfs.c:625-687 | Reading a file after writing up to 2^31 - 1 bytes to it returns what was written. |
| BmfsProofs.WriteSpares | Bootloader/BMFS/bmfs.c:650-687 | A write changes no other file's bytes. |
| BmfsProofs.CreateSpares | Bootloader/BMFS/bmfs.c:522-623 | A create changes no other file's bytes, and the new file is empty. |
| BmfsProofs.EveryRun | Bootloader/BMFS/bmfs.c:522-687 | Over any run of creates and writes the files stay in disjoint ranges within the data blocks, and a file that no command names keeps its contents. |
| BmfsProofs.SmallDisks | Bootloader/BMFS/bmfs.c:571-596 | On an empty disk create stays within the data blocks, or refuses, if and only if the disk has two blocks or more; below that the unsigned subtraction wraps around and any file is placed at block 1. |
| BmfsProofs.SortOrders | Bootloader/BMFS/bmfs.c:567-569 | The sorted copy holds the same entries, live ones by starting block before deleted ones. |
| BmfsProofs.FullDirectoryOverlaps | Bootloader/BMFS/bmfs.c:545-623 | Refutes that files never overlap once entries are deleted: a directory of 64 entries without an end mark counts as empty, so a new file in a deleted slot is placed at block 1 over whatever is there; and if that slot is the first, the entry after it becomes the end mark and all other files are gone. |
| BmfsClass.Bmfs.FindFile | Bootloader/BMFS/bmfs.c:178-201 | The loop over the 64 entries finds the specified slot. |
| BmfsClass.Bmfs.Format | Bootloader/BMFS/bmfs.c:227-236 | The cleared directory satisfies the invariant. |
| BmfsClass.Bmfs.CountEntries | Bootloader/BMFS/bmfs.c:545-560 | The loop computes the number of used entries and the first usable slot. |
| BmfsClass.Bmfs.FindPlace | Bootloader/BMFS/bmfs.c:571-591 | The loop over the gaps computes the specified place. |
| BmfsClass.Bmfs.Create | Bootloader/BMFS/bmfs.c:522-623 | The in-place create gives the specified directory and outcome. |
| BmfsClass.Bmfs.Write | Bootloader/BMFS/bmfs.c:650-687 | The byte loop and the size update give the specified disk and directory. |
| BmfsClass.Bmfs.Read | Bootloader/BMFS/bmfs.c:625-648 | The byte loop returns the specified contents. |

## Left out

- BuddyRuns.EveryRun: does not claim that used equals the bytes in use, because the code lets it drift upwards; it claims that used covers them, and only for fewer than 2^47 allocations, after which the 64-bit counter could wrap around.
- BuddySpec.AllocLowest: does not claim that a block ends inside the region, because the code checks only its start offset.
- BuddySpec.AllocRefines: requests must have a level in the tree (maxExp of at least 17 suffices for all), because the code does not check this itself.
- SemaphoreSpec.Conservation: holds as long as the posts of the run do not overflow the 32-bit counter.
- SemaphoreSpec.WokenInTurn: waiters are known by their pids, as in the code; which process a pid means is the subject of KernelTickets.PermitArrives.
- BuddyAllocator.Buddy.MmFree: pointers that a caller holds, or NULL; what a stray pointer does to the tree is not modelled.
- BuddyAllocator.Buddy.GetNodeIndex: likewise, pointers that own a block.
- SchedulerClass.Scheduler.Schedule: process records are values in a map from addresses, so that freed and reused addresses can be told apart, and the scheduler's lists are sequences with the operations that DoublyLinkedList proves of the pointer structure; the calls before createScheduler are not modelled.
- SchedulerProofs.EveryRun: runs in which the nodes of the three scheduler lists are granted; the branch of createProcess for a process that is created BLOCKED is absent because initializeProcess always leaves it READY.
- SchedulerClass.Scheduler.WakeWaiters: the list nodes of those it wakes are granted.
- SchedulerClass.Scheduler.Yield: the list node that its tick needs is granted.
- KernelSync.PostWakes: likewise the node for the waiter; a refused one is the subject of SchedulerProofs.SetReadyRefusedBreaks.
- KernelTickets.PermitArrives: runs with the nodes of the ready list granted, and a process that runs on after it was killed is not refused the node of blockProcess.
- ProcessMemory.CreateProcess: covers the record and all that hangs on it, not the nodes of the scheduler's own lists; the contents of the copied strings and of the initial stack frame are not modelled.
- ProcessMemory.InitializeProcess: the unwinding that the original repeats at each failure point is one method.
- ProcessTable.Table.Kill: memory only; which processes are waiting, ready or running is the subject of SchedulerProofs.
- BmfsProofs.EveryRun: creates and writes only; after a delete the ranges are not claimed to be disjoint, and BmfsProofs.FullDirectoryOverlaps shows how they come to overlap.
- BmfsClass.Bmfs.Create: qsort is an insertion sort with the comparison of StartingBlockCmp; the directory is an array of entries, not 4096 bytes, and its copy on the disk (in block 0, which holds no file) is not modelled.
- BmfsClass.Bmfs.Write: files of up to 2^31 - 1 bytes, as the byte loops count with a 32-bit int; the volume's files lie on the disk.
- TestSync.EveryRun: clients start after their arguments were parsed and the semaphore was opened.
- PipeTheorems.NoDeadlock: to be able to move means not to be blocked; when the scheduler lets a process move is the subject of SchedulerFairness.
- PipeDebts.DebtsBalance: cells and list nodes are refused, but not the nodes of blockProcess and setReadyProcess; and for runs of fewer than 2^32 - 2048 actions, after which a counter could wrap around.
- PipeProofs.StepKeeps: the open phase of a pipe only. closePipe, clearPipe and the table of pipes with its ever-growing semaphore ids are not modelled. A critical section is one step also where a refusal has let two processes into it, because system calls run with interrupts off.
- Semaphore.SemaphoreT.Wait: one semaphore; the table, its ids, sem_open and sem_destroy are not modelled, and the spinlock makes each call one atomic step.
- ps, copyProcess, getFd and getPid: they copy or return fields of the process table.
- BMFS initialize, list and delete, argument parsing and file access.
- Context-switch assembly, interrupts and exceptions: a saved stack position is an opaque number.
- Video, keyboard, shell, user library, the other user programs, boot code and module packer.

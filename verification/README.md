# A verified model of the kernel and virtual machine core

This Dafny project models the hard parts of a small real-time kernel and the CLDC Java virtual machine that
runs on it, and proves what they promise. `dafny verify dfyconfig.toml` checks everything.

## What is modelled

**The heap and the garbage collector.** Blocks with boundary-tag headers tile a heap. A header's two union
words mean different things for free, non-collectible and collectible blocks; the free list runs through
the headers of the free blocks. `HeapBlocks` is the algebra of block sequences: what an allocation, a
release and a sweep do to extents and kinds. `Heap` is the mutable heap, with headers in a map from
addresses, and the invariant that ties headers to blocks; `Joining`, `Allocator`, `Releaser` and `Sweeper`
are the operations that write headers, each proved to do to the blocks what the algebra says. `ObjectGraph` says
what reachability is. `Marker` is the stackless depth-first marker, whose suspended path lives in the
headers it is marking; the path is a ghost stack that the headers are proved to encode. `Collector` puts
whitening, root colouring, marking, sweeping and splicing together, and `Survival` says what that means
for a program: exactly when everything reachable survives. `Carrying` says when the objects still fit the
heap after blocks have come or gone, and `HeapRuns` is about whole histories of reserving, creating,
storing, releasing and collecting. `memoryFree` reads its neighbour words before it enters the heap monitor,
and a collection splices what it has released after the other threads go on: both are two steps each, with
anything in between. `HeapExamples` holds two histories after which the heap is not well formed.

**Linked lists.** `LinkedLists` holds the circular doubly linked lists with their links in a map from
addresses, each operation proved against a sequence of entries.

**The scheduler.** `SchedulerState` is the state (which thread is on which list, owners and depths,
counters, timers) and its invariant; `SchedulerOps`, `Timeouts` and `ThreadOps` are the critical regions
as functions on it, each proved to keep the invariant; `SchedulerRuns` proves the properties of whole runs;
`SchedulerEffects` gives every list, monitor, timer and counter after every event, and `SchedulerOutcome` who
runs then and the data of every thread, all in terms of the state before. `SemaphoreOrder` is about
the order in which waiting threads get a semaphore, and `SchedulerExamples` holds runs after which an
expected property fails. `PriorityMap` is the two-level bitmap on bytes, and `ThreadLists` the storage of
the lists: one list entry and one timer entry for every thread. `Scheduler` is the same scheduler with its
linked lists, bitmap and registers updated in place: every method, with its loops, splices and bitmap
updates, is proved to take exactly the step of the state machine, to leave every list and the timer queue a
well-linked ring, and to keep the bitmap equal to the set of non-empty running lists. Time shares are a
model of their own, `TimeShares`.

**Construction and lookup.** `MultiArray` is the breadth-first construction of multi-dimensional arrays,
with its work list threaded through element 0. `ClassTable` is the open-addressed class table, and
`ClassTableThreads` any number of threads that use it at once, every read and write a step, with what they
find and how soon they are done. `TypeCheck` is
the iterative type test against the closure of the direct supertypes. `StringPool` is the string pool with
its hash and its arithmetic keys, and `StringPoolThreads` any number of threads that search it without a lock.

The configuration is the preemptive one without time shares, with priority-ordered semaphores and without
concurrent collection; table sizes and masks are those of the source.

## What the proofs found

Where a promise turned out not to hold of the code as it stands, the code is modelled as it is and the
exact condition is proved.

- An allocation of nearly 4 GB wraps around when the header size is added, and is granted a block that is
  too small: `Allocator.PayloadFits`, with `Allocator.WrappedRequest` as an example.
- A pending throwable is kept without its fields being followed: `Survival.CollectionIsSafe` is the exact
  condition under which a collection is safe, `Survival.PendingThrowableLosesItsField` an example in a heap
  that may be collected. After a collection the objects fit the heap again exactly if the blocks that
  survive unscanned refer to survivors only: `Collector.GarbageCollect`.
- A release that another thread gets in between can corrupt the heap, because the word for the left
  neighbour is read before the heap monitor is entered: `HeapExamples.InterruptedRelease` ends with a free
  block that overlaps a reserved one. A release while a collection is about to splice can corrupt the free
  lists: `HeapExamples.ReleaseBeforeSplice`. `Releaser.ReleaseIff` is the exact condition for one release,
  `HeapRuns.EveryHistoryGood` for whole histories; uninterrupted releases always meet it
  (`HeapRuns.UninterruptedGood`).
- A thread that changes its own priority can leave the next thread running behind the front of its list:
  `ThreadOps.SetOwnPriorityInv`, `SchedulerExamples.OwnPriorityDisplaces`.
- A thread that waits for a semaphore stays where it is on the list when its priority is set, so the list can
  lose its order: `SchedulerExamples.QueueDisordered`. It keeps the order exactly if the new priority lies
  between those of the neighbours (`SemaphoreOrder.StepOrder`); in runs that respect this a post wakes a
  thread of highest priority that has waited longest at it (`SemaphoreOrder.PostServes`).
- Two threads that ask for the same new string can both add it, and get different keys for it:
  `StringPoolThreads.SameStringTwoKeys`. `StringPoolThreads.UniqueIff` is the exact condition.
- The comment on `strongYield` promises to give way to threads of higher priority as well; a thread that is
  alone at its priority does not: `ThreadOps.StrongYieldRuns`, `SchedulerExamples.StrongYieldStays`. The
  model follows the code.
- With a first dimension of zero and more dimensions, array construction reads an element that does not
  exist: the `WildRead` outcome of `MultiArray.ArrayHeap.InstantiateMultiArray`.
- String keys wrap around at 16 bits and package keys have 11: keys are unique up to 256 strings in a chain
  (`StringPool.DistinctKeys`, `StringPool.DeepChainsCollide`), package keys lead back up to a depth of seven,
  modulo 256 (`StringPool.PackageRoundTrip`). The comment that the pool uses only 11 bits is not what the code does.
- The macro that clears a priority bit guards only the first of its two statements; `PriorityMap.RemoveMarks`
  shows that this does no harm.

## What is assumed

- The roots of a collection and the pinned blocks are given. Each object lies in a block whose header agrees
  with it about its shape and number of references; `HeapRuns.EveryHistoryGood` says in which histories this
  holds. Permanent objects hold no references.
- What a thread does inside the heap monitor is one step, and a collection starts when no thread is inside
  it. The program frees a block once, and not while an object or a monitor is in it.
- Monitor operations are called by the owner, blocking operations never by the idle thread, and a thread
  that dies owns no monitor. Whether the tick counter has reached the expiry of the first timer, and what
  time it is, are parameters of a tick.
- Arrays get fresh addresses from a supply that may run out at any point; the class has at least as many
  dimensions as are asked for, and lengths are not negative.
- Parents and superinterfaces are loaded before the classes that name them, superinterface lists are
  closed, and there is one class structure for a type.

## Model

| member | source | states |
|---|---|---|
| Heap.Heap.Initialize | lib/src/memory/memoryAlloc.c:22-35 | a heap of one free block that fills it, with the free list holding exactly that block; every list and neighbour invariant holds |
| Allocator.AllocateBlock | lib/src/memory/memoryAlloc.c:150-267 | succeeds if and only if some block of the free list is large enough, which means at least a minimal block with room for the request behind its header, unless adding the header wraps around; takes the first one on the list that is; the new blocks are the old ones with that block split at its end or taken whole; every header and list write is exact and the free list keeps its order; allocated blocks are untouched and the heap stays well formed, also while a collection has released blocks that are not spliced yet |
| Allocator.RequiredSize | lib/src/memory/memoryAlloc.c:157-163 | the least block size that is large enough for a block and has room for the request; the least there is when adding the header wraps around |
| Allocator.FitIsRoom | lib/src/memory/memoryAlloc.c:157-172 | some block of the free list fits the required size if and only if one has room for the request |
| Allocator.LeastTaken | lib/src/memory/memoryAlloc.c:174-249 | no more is taken from the free block than is required, unless what would be left could not be a block |
| Allocator.SplitBlock | lib/src/memory/memoryAlloc.c:174-217 | the splitting branch alone: the rest stays free in its place on the list, the tail is allocated and its right neighbour points back to it |
| Allocator.TakeWhole | lib/src/memory/memoryAlloc.c:218-249 | the other branch alone: the block leaves the free list and both neighbours on the list are joined |
| Allocator.GrantedHolds | lib/src/memory/memoryAlloc.c:174-249 | whatever the words of the new header that are not written hold, the writes of either branch leave the heap and both its lists well formed, with the new block linked to its neighbours |
| Allocator.PayloadFits | lib/src/memory/memoryAlloc.c:157-163 | the granted block has room for the request if and only if adding the header to the size does not wrap around in 32 bits |
| Allocator.WrappedRequest | lib/src/memory/memoryAlloc.c:157-163 | a request of 0xFFFF_FFF8 bytes in a heap of 200 is granted with a block of 16 |
| Allocator.GrantedApart | lib/src/memory/memoryAlloc.c:174-249 | the granted block lies inside the free block it comes from and overlaps no other block, and every other block is still there |
| Releaser.MemoryFree | lib/src/memory/memoryAlloc.c:40-137 | uninterrupted: the blocks are the old ones with the freed block and its free neighbours made one free block, in all four cases; no other allocated block is touched; the heap stays well formed |
| Releaser.ReadNeighbours | lib/src/memory/memoryAlloc.c:42-44 | the two words read before the heap monitor is entered are those of the true neighbours at that moment |
| Releaser.FreeLocked | lib/src/memory/memoryAlloc.c:55-137 | inside the heap monitor, for any word that was read as the left neighbour: exactly these headers, lists and head; the heap is in order afterwards if and only if the word is safe and the right neighbour is no end of a list about to be spliced |
| Releaser.ReleaseIff | lib/src/memory/memoryAlloc.c:42-137 | with the block freed and joined to its free neighbours the heap is in order if and only if the word still leads to the left neighbour, or neither the block it leads to nor the left neighbour is free, and the right neighbour is neither the first nor the last released block of a collection that has not spliced; otherwise no other lists put it in order |
| Releaser.LockedOrder | lib/src/memory/memoryAlloc.c:55-137 | a free right neighbour is taken out of its list or replaced in its place, a block without a free neighbour goes to the front; no other entry of either list moves, and the collecting thread's pointers stay |
| Releaser.StaleWrites | lib/src/memory/memoryAlloc.c:57-91 | a word that is out of date: the block it leads to grows by what is released, whatever it is, and the right neighbour is told that it begins there |
| Releaser.JoinThree | lib/src/memory/memoryAlloc.c:57-82 | the block read as the left neighbour and the right one both say free: the exact writes; the right neighbour leaves its list; the three blocks become one if the word was right |
| Releaser.JoinNext | lib/src/memory/memoryAlloc.c:96-124 | only the right neighbour says free: the joined block takes its place on its list, links included |
| Releaser.JoinPrevious | lib/src/memory/memoryAlloc.c:83-91 | only the block read as the left neighbour says free: it grows and the lists stay as they are |
| Releaser.PushAlone | lib/src/memory/memoryAlloc.c:125-134 | neither says free: the block becomes the front of the free list |
| Releaser.NeighbourHeaders | lib/src/memory/heap.h:56-82 | the neighbour pointers of a non-collectible block are its true neighbours in address order, or NULL at the ends of the heap |
| Releaser.AllocateThenFree | lib/src/memory/memoryAlloc.c:40-267 | allocating a non-collectible block and freeing it leaves every extent and every status as it was |
| HeapBlocks.AllocateReleaseRoundTrip | lib/src/memory/memoryAlloc.c:40-267 | the same as a law of block sequences, whether the block was split or taken whole |
| HeapBlocks.AllocatedTiled | lib/src/memory/memoryAlloc.c:174-249 | after an allocation the blocks still tile the heap without gap or overlap |
| HeapBlocks.AllocatedNoAdjacentFree | lib/src/memory/memoryAlloc.c:174-249 | an allocation leaves no two free blocks next to each other |
| HeapBlocks.ReleasedTiled | lib/src/memory/memoryAlloc.c:56-134 | after a release the blocks still tile the heap |
| Joining.JoinFinished | lib/src/memory/memoryAlloc.c:74-81 | the writes that end a join lead to a well-formed heap whose lists are the ones stated, and touch no allocated block outside the run |
| Joining.FinishJoin | lib/src/memory/garbageCollect.c:73-79 | what every join writes last: the size of the joined block and the back pointer of a non-collectible right neighbour |
| Heap.Heap.Unlink | lib/src/memory/garbageCollect.c:58-67 | takes a block out of the middle or front of a list; the rest is the same list in the same order; the head of the free list is moved exactly when nothing comes before the block |
| Heap.Heap.Replace | lib/src/memory/memoryAlloc.c:101-113 | puts a block into a list in the place of another one |
| Heap.Heap.Push | lib/src/memory/memoryAlloc.c:127-132 | makes a block the front of the free list |
| Sweeper.Sweep | lib/src/memory/garbageCollect.c:9-145 | the blocks end up as the recursive definition of a swept heap says; what is not white keeps its header; the free blocks are exactly those on the remaining free list and the released list, each once, both well linked; nothing is added to the free list and what stays on it keeps its order; the released list has the last block first |
| Sweeper.Swallow | lib/src/memory/garbageCollect.c:54-69 | walks over the unreferenced blocks behind a white block and takes exactly the free ones among them off the free list |
| Sweeper.SweepRun | lib/src/memory/garbageCollect.c:50-143 | a maximal run of unreferenced blocks, and the free block before it, become one free block |
| Sweeper.GrowPrevious | lib/src/memory/garbageCollect.c:71-89 | the run is joined to the free block left of it |
| Sweeper.ReleaseRun | lib/src/memory/garbageCollect.c:90-134 | the run becomes a block at the front of the released list |
| HeapBlocks.SweptTiled | lib/src/memory/garbageCollect.c:9-145 | a swept heap is tiled, and has no two free blocks next to each other |
| HeapBlocks.SweptKeepsReferenced | lib/src/memory/garbageCollect.c:9-145 | no referenced block moves, changes size or kind, or appears |
| HeapBlocks.SweptCoversReleased | lib/src/memory/garbageCollect.c:50-98 | every free or white block ends up inside a free block |
| HeapBlocks.SweptFreeBytes | lib/src/memory/garbageCollect.c:9-145 | the free bytes grow by exactly the bytes of the white blocks |
| HeapBlocks.BytesAddUp | lib/src/memory/memoryAlloc.c:392-402 | free and allocated bytes together are the bytes of the heap |
| HeapBlocks.SweptJoined | lib/src/memory/garbageCollect.c:54-98 | joining a run early does not change where the sweep ends, so the one-pass walk refines the recursive definition |
| Collector.AddToFreeList | lib/src/memory/memoryAlloc.c:12-19 | splices the released list in front of the free list with exactly these two link writes |
| Collector.SplicedLinked | lib/src/memory/memoryAlloc.c:12-19 | which make one well-linked list of exactly the free blocks |
| Collector.Whiten | lib/src/memory/garbageCollect.c:148-156 | every block is white and nothing but colours has changed |
| Collector.ScanObject | jvm/src/object/allocate.c:57-104 | a root is coloured black with its monitor if there is nothing to follow, else grey, in the header of its own block |
| Collector.BareIs | jvm/src/object/allocate.c:57-104 | there is nothing to follow exactly when the object has no reference, or a single one that is NULL |
| Collector.MarkRoots | jvm/src/object/allocate.c:154-389 | after the roots have been coloured exactly the roots with something to follow are grey, and exactly the others, their monitors and the pinned blocks are black |
| Marker.PopFrame | jvm/src/object/allocate.c:520-542 | at a pop the headers hold exactly the suspended object, index, field count and kind, and the path that is left is again a path |
| Marker.PushChild | jvm/src/object/allocate.c:504-516 | descending keeps the path: the child is new on it, the suspended blocks below have only NULL or black fields before their index, every black block off the path only NULL or black children |
| Marker.BlackenChild | jvm/src/object/allocate.c:502-503 | blackening a child and its monitor keeps the path, only that child may be unfinished |
| Marker.MarkField | jvm/src/object/allocate.c:456-518 | one turn of the loop: a field is skipped, a leaf blackened or a child entered; the path invariant holds and the number of white blocks or of fields left shrinks |
| Marker.Scan | jvm/src/object/allocate.c:453-543 | the loop ends, with nothing left on the path and the scanned root black |
| Marker.MarkFrom | jvm/src/object/allocate.c:441-450 | everything reachable from a grey block is scanned, whatever cycles and sharing there are |
| Marker.MarkChildren | jvm/src/object/allocate.c:397-560 | a block is black afterwards if and only if it was black before or is reachable from a grey block through blocks that were not black; headers change only as marking may change them, and the heap stays well formed |
| Marker.SettledReachesAll | jvm/src/object/allocate.c:397-560 | a settled heap without unscanned grey blocks has blackened everything reachable |
| ObjectGraph.ReachableInClosed | jvm/src/object/allocate.c:391-396 | a set of blocks that holds the roots and is closed under edges holds everything reachable |
| Collector.JavaMarkFunction | jvm/src/object/allocate.c:618-622 | after whitening, colouring and marking a block is black if and only if it is pinned or reachable from the roots without going through an unscanned pinned block |
| Collector.GarbageCollect | lib/src/memory/garbageCollect.c:206-227 | uninterrupted: marked and non-collectible blocks keep address, size and contents; everything else is free; the free bytes grow by exactly the bytes of the unmarked collectible blocks; the heap is well formed, and the surviving objects fit it again if and only if what survives unscanned refers to survivors only |
| Collector.RunGarbageCollection | lib/src/memory/garbageCollect.c:159-175 | the same for the part in which other threads are stopped, which ends with the released blocks on a list of their own |
| Collector.Splice | lib/src/memory/garbageCollect.c:219-224 | the part inside the heap monitor: the two lists become one, and only list links change |
| Collector.SurvivorsFit | lib/src/memory/garbageCollect.c:9-145 | after a sweep each surviving object lies in a block of the heap that describes it, each block with references has its object, and no reference or monitor dangles, if and only if the blocks that survive unscanned refer to survivors only |
| Collector.CoveredIsClosed | jvm/src/object/allocate.c:154-389 | no survivor refers to a released block if and only if the pinned blocks that are not scanned and the permanent ones do not |
| Carrying.RestrictedFits | lib/src/memory/garbageCollect.c:9-145 | whatever blocks go, the objects in the others fit the heap that is left if and only if none of them refers to what has gone |
| Carrying.ReleasedFits | lib/src/memory/memoryAlloc.c:40-137 | after a block has been freed the objects fit the heap if and only if neither an object nor a monitor was in it |
| Carrying.AllocatedFits | lib/src/memory/memoryAlloc.c:150-267 | an allocation without references leaves every object in its block |
| Carrying.ObjectFits | jvm/src/object/allocate.c:583-616 | a new object, with references that are NULL, fits into the block that was allocated for it, at an address that no object and no monitor has |
| Carrying.NewObjectIs | jvm/src/object/allocate.c:583-616 | a new object can be collected unless it is permanent; its references are followed if it has any, as those of an array if it is one; they and its monitor are NULL |
| HeapRuns.Perform | lib/src/memory/memoryAlloc.c:347-359 | each of reserving, creating, storing, the two parts of a release and the two parts of a collection, carried out by the allocator and the collector, takes the step that the histories are made of; for the sweep it is this method that proves the heap well formed, for all other steps the writes are exact |
| HeapRuns.StepGood | lib/src/memory/memoryAlloc.c:40-282 | one step of any kind leaves a heap that is right so if and only if it meets the condition on the state before it; that the heap is well formed is derived from the writes, for allocations, releases and splices |
| HeapRuns.EndsGood | lib/src/memory/memoryAlloc.c:55-137 | the locked part of a release leaves the heap right if and only if what was read before is safe and the right neighbour no end of a list about to be spliced |
| HeapRuns.UninterruptedGood | lib/src/memory/memoryAlloc.c:40-137 | when nothing comes between the two parts of a release, and none happens before a splice, only collections have a condition to meet |
| HeapRuns.EveryHistoryGood | lib/src/memory/memoryAlloc.c:22-359 | a history from an empty heap, in which other threads may do anything between the two parts of a release and of a collection, is one in which the heap is well formed and fits its objects at every moment, if and only if every release ends with a safe word and a safe neighbour and every collection finds its survivors covered |
| HeapRuns.SweepsGood | lib/src/memory/garbageCollect.c:159-175 | a sweep leaves the heap fitting its objects if and only if the survivors are covered |
| HeapRuns.LivesOn | jvm/src/object/allocate.c:391-396 | throughout every history whose releases and collections meet their conditions, a block that is not freed, and is reachable or permanent at each collection, keeps address, size, kind and number of references, and its object keeps every reference that is not overwritten |
| HeapExamples.InterruptedRelease | lib/src/memory/memoryAlloc.c:42-91 | every history of four given requests from a fresh heap, an allocation between the two parts of a release, ends with a free block that overlaps a reserved one |
| HeapExamples.InterruptedHappens | lib/src/memory/memoryAlloc.c:42-91 | that history happens: it is carried out by the methods |
| HeapExamples.ReleaseBeforeSplice | lib/src/memory/garbageCollect.c:159-224 | every history of five given requests from a fresh heap, a release between sweep and splice, ends with a collection about to splice a block in the middle of another free block |
| HeapExamples.UnsplicedHappens | lib/src/memory/garbageCollect.c:159-224 | that history happens as well |
| Collector.GetTotalAvailableMemory | lib/src/memory/memoryAlloc.c:392-402 | the sum over the free list is the number of free bytes of the heap |
| Collector.FreeListBytes | lib/src/memory/memoryAlloc.c:392-402 | the sizes along any duplicate-free list of exactly the free blocks add up to the free bytes |
| Collector.MemoryAlloc | lib/src/memory/memoryAlloc.c:270-282 | allocates from the heap as it is if possible, else from the swept heap; fails if and only if neither has a free block that is large enough; the objects fit the heap afterwards, after a collection if the survivors are covered |
| Survival.MarkedIsReachable | jvm/src/object/allocate.c:397-560 | nothing survives without being reachable |
| Survival.CollectionIsSafe | jvm/src/object/allocate.c:154-389 | a collection keeps everything reachable if and only if the pinned blocks that are not scanned refer only to what is marked anyway |
| Survival.ReachableSurvives | jvm/src/object/allocate.c:154-389 | if the survivors are covered, everything reachable or permanent survives |
| Survival.LeavesPinned | jvm/src/object/allocate.c:154-389 | when pinned blocks refer to nothing, exactly the reachable blocks are marked |
| Survival.PendingThrowableLosesItsField | jvm/src/object/allocate.c:261-264 | a well-formed heap that may be collected, with a pending throwable whose field is reachable but not marked; the survivors are not covered |
| LinkedLists.Memory.AddOneSorted | lib/src/types/linkedList.c:18-57 | the entry goes before the first entry that it precedes; the result is a well-formed ring; rings elsewhere are unaffected |
| LinkedLists.SortedInsertion | lib/src/types/linkedList.c:18-57 | inserting there keeps the order and is first in, first out among equals |
| LinkedLists.Memory.AddOneToEnd | lib/src/types/linkedList.c:60-74 | the entry becomes the last of the ring |
| LinkedLists.Memory.RemoveOne | lib/src/types/linkedList.c:83-100 | the entry leaves the ring, the others keep their order |
| LinkedLists.Memory.RemoveOneFromFront | lib/src/types/linkedList.c:106-122 | takes the first entry off, or returns NULL for an empty list |
| LinkedLists.Memory.RotateOneFrontToEnd | lib/src/types/linkedList.c:128-136 | the first entry becomes the last |
| LinkedLists.Memory.MoveAllToEnd | lib/src/types/linkedList.c:142-164 | the source entries follow the destination entries in one ring, and the source is empty |
| LinkedLists.OtherRing | lib/src/types/linkedList.c:83-100 | a ring without entries in common is not affected |
| ThreadLists.RingsUpdated | lib/src/thread/schedule.h:87-128 | changing one list leaves every other list a well-linked ring |
| Scheduler.EntryOnOneRing | lib/src/thread/thread.h:98-115 | the list entry of an active thread is in one place of one ring only, between its neighbours there; the entry of any other thread is on no ring |
| SchedulerRuns.RunInv | lib/src/thread/thread.h:95-116 | in every run: each active thread is on exactly one list with a fitting status, an unowned monitor blocks nobody, the length of a semaphore's list is the negative part of its counter, the timer queue holds exactly the timed sleepers in order, the current thread is at the front of its running list |
| SchedulerRuns.RunExtended | lib/src/thread/schedule.c:147-452 | a run goes on with the step of its last event |
| SchedulerRuns.StepInv | lib/src/thread/schedule.c:147-452 | every operation and every tick keeps all of that |
| SchedulerRuns.OnExactlyOneList | lib/src/thread/thread.h:98-115 | a thread is active if and only if it is on some list, then on one list once; it counts as running if and only if that is the running list of its priority |
| SchedulerRuns.InitialInv | lib/src/thread/schedule.c:266-276 | the invariant holds when only the idle thread runs |
| SchedulerRuns.InitialState | lib/src/thread/schedule.c:266-276 | at the start only the idle thread is on a list; no monitor is owned, no counter set, no timer queued, and nobody else has started |
| SchedulerRuns.StepKept | lib/src/thread/schedule.c:102-110 | no step but a thread's own enter and exit changes how deep it is inside a monitor, other than letting it in at depth one; no step takes a monitor from a thread that is not current |
| SchedulerRuns.RunDepth | lib/src/thread/schedule.c:102-110 | the same over whole runs |
| SchedulerRuns.WaitResumes | lib/src/thread/schedule.c:304-323 | a thread that waits at depth d owns the monitor at depth d whenever it owns it next, however it was woken and whatever runs in between |
| SchedulerOps.ConditionalRuns | lib/src/thread/contextSwitch.h:108-115 | afterwards the current thread is the front of the highest non-empty running list |
| SchedulerOps.GeneratedRuns | lib/src/thread/contextSwitch.h:120-123 | the same, when the current thread had left the running lists |
| SchedulerOps.MonitorEnterInv | lib/src/thread/schedule.h:226-239 | entering keeps the invariant; a thread that blocks gives way to the highest one |
| SchedulerOps.MonitorExitInv | lib/src/thread/schedule.h:241-252 | leaving keeps the invariant; a contended monitor is handed over before the switch |
| SchedulerOps.MonitorWaitInv | lib/src/thread/schedule.c:304-323 | waiting keeps the invariant and ends with the highest thread running |
| SchedulerOps.MonitorNotifyInv | lib/src/thread/schedule.c:326-343 | notifying keeps the invariant |
| SchedulerOps.MonitorNotifyAllInv | lib/src/thread/schedule.c:345-366 | notifying all keeps the invariant |
| SchedulerOps.AllNotifiedLists | lib/src/thread/schedule.c:345-366 | notifying the sleepers one by one moves the whole list in order to the end of the blocked list |
| SchedulerOps.ReleasedConsistent | lib/src/thread/schedule.c:186-201 | whatever state the monitor was left in, handing it to the first blocked thread or to none makes it consistent |
| SchedulerEffects.StepLists | lib/src/thread/schedule.c:186-452 | every list after every event: who leaves it, who joins it and at which place, which threads a tick wakes, where the state before sends each of them and in which order they arrive, and whether the list of the current thread turns; all other lists are as they were |
| SchedulerEffects.StepRest | lib/src/thread/schedule.c:147-323 | every monitor, the timer queue and every counter after every event: to whom a monitor passes and at which depth, and exactly which timers are left, in which order; a tick gives a free monitor to the first of the waiters for it whose time-outs have expired |
| SchedulerOutcome.StepCurrent | lib/src/thread/schedule.c:186-452 | who runs after every event, from the state before it: the current thread goes on after an entry that does not block, an exit that hands nothing over, a notification of nobody, a start, a change of priority of a thread that does not run, a post or pend that neither wakes nor blocks and a strong yield alone; after everything else it is the first of the highest priority at which a thread is ready once everybody has gone where the event sends it |
| SchedulerOutcome.NextIsOne | lib/src/thread/schedule.h:165-172 | there is only one such thread |
| SchedulerOutcome.StepIdle | lib/src/thread/schedule.c:147-532 | no event makes another thread the idle one |
| SchedulerOutcome.StepThreads | lib/src/thread/schedule.c:147-532 | state, status, priority, monitor and depth of every thread after every event, from the state before it; setting a priority sets exactly that of the given thread, whether it runs, sleeps, waits, is blocked or joins |
| Timeouts.FiredConsistent | lib/src/thread/schedule.c:147-177 | an expired timer leaves the state consistent: the sleeper runs, the waiter owns its monitor or queues for it |
| Timeouts.UpdateFires | lib/src/thread/timer.c:27-55 | exactly the timers that are due fire, in the order of the queue; as a function of the state before: sleepers run, the first due waiter for a free monitor gets it at its depth, all other due waiters queue for theirs, and they arrive on their lists in the order of their timers; every other thread stays where it was |
| Timeouts.UpdateData | lib/src/thread/schedule.c:147-177 | what the timers that fire do to status and monitor of their threads, as a function of the state before; no other thread changes |
| Timeouts.NotDue | lib/src/thread/timer.c:34-42 | every timer that is left in the queue is still to come |
| Timeouts.UpdatedInv | lib/src/thread/timer.c:27-55 | updating the queue keeps the invariant and the current thread |
| Timeouts.ThreadSleepRuns | lib/src/thread/schedule.c:370-381 | sleeping keeps the invariant and ends with the highest thread running |
| Timeouts.TickRuns | lib/src/thread/contextSwitch.h:54-62 | after the tick that ends a turn the highest thread runs |
| Timeouts.InterruptRuns | lib/src/thread/contextSwitch.h:94-102 | after any other interrupt the highest thread runs |
| SchedulerState.WithTimerMembers | lib/src/thread/timer.c:57-69 | a new timer keeps the queue in order of time, and adds one entry |
| ThreadOps.StrongYieldRuns | lib/src/thread/schedule.c:394-408 | after a strong yield the highest thread runs if and only if the list had another thread or the current one was the highest already |
| SchedulerExamples.StrongYieldStays | lib/src/thread/schedule.c:394-408 | one event after the start: the idle thread yields strongly and keeps running, although a thread of higher priority is ready |
| ThreadOps.SetPriorityInv | lib/src/thread/schedule.c:224-241 | setting the priority of another thread keeps the invariant |
| ThreadOps.SetOwnPriorityInv | lib/src/thread/schedule.c:227-236 | setting the priority of the current thread leaves the new current thread in front of its list if and only if the new list was empty otherwise or a list of higher priority is not empty |
| SchedulerExamples.OwnPriorityDisplaces | lib/src/thread/schedule.c:227-236 | one event after the start: the current thread lowers its priority to that of another one, which then runs from behind it on the list |
| ThreadOps.ScheduleNewThreadInv | lib/src/thread/schedule.c:277-301 | starting a thread keeps the invariant |
| ThreadOps.ThreadJoinRuns | lib/src/thread/schedule.c:413-421 | joining keeps the invariant and ends with the highest thread running |
| ThreadOps.AllWokenInv | lib/src/thread/schedule.c:423-432 | waking those that joined leaves nobody waiting, and all of them run |
| ThreadOps.RemoveThreadRuns | lib/src/thread/schedule.c:436-452 | a thread that owns no monitor and dies is on no list, everybody who joined it runs, and the highest thread runs |
| ThreadOps.SemaphorePostInv | lib/src/thread/schedule.c:510-520 | a post that finds the counter negative finds a waiting thread |
| ThreadOps.SemaphorePendInv | lib/src/thread/schedule.c:522-532 | a pend keeps the length of the list equal to the negative part of the counter |
| SemaphoreOrder.QueueAfter | lib/src/thread/schedule.c:510-532 | threads join the queue of a semaphore at their sorted place by pending and leave its front by a post; no other event changes it |
| SemaphoreOrder.QueuePrioritized | lib/src/thread/schedule.c:238-240 | setting the priority of a waiting thread leaves an ordered queue in order if and only if the new priority lies between those of its neighbours |
| SemaphoreOrder.StepOrder | lib/src/thread/schedule.h:270-285 | a step keeps every queue in order of priority, and of waiting time among equals, if and only if it does not set the priority of a waiting thread outside of those of its neighbours |
| SemaphoreOrder.RunOrder | lib/src/thread/schedule.h:270-285 | so does every run whose priority changes meet that condition |
| SemaphoreOrder.NotedWhen | lib/src/thread/schedule.h:270-285 | what the time of waiting means: a thread has waited at that semaphore and that priority ever since the step that is noted, and did not before |
| SemaphoreOrder.PostServes | lib/src/thread/schedule.c:510-520 | in every such run from the start, a post takes the front thread off the queue and makes it runnable, and that thread has the highest priority of those that wait and has waited longest at it |
| SchedulerExamples.QueueDisordered | lib/src/thread/schedule.c:238-240 | a run of seven events after which the second of two waiting threads has the higher priority; the next post wakes the first |
| PriorityMap.HighestBit | lib/src/thread/schedule.c:56-73 | the table entry of a byte is its highest set bit |
| PriorityMap.MaskIs | lib/src/thread/schedule.h:154-161 | the mask of a priority is one bit |
| PriorityMap.AddMarks | lib/src/thread/schedule.h:154-156 | adding a priority keeps bits and row bits exact |
| PriorityMap.RemoveMarks | lib/src/thread/schedule.h:158-161 | removing a priority keeps them exact, although the macro guards only its first statement |
| PriorityMap.HighestMarked | lib/src/thread/schedule.h:165-167 | the two lookups find the highest marked priority |
| PriorityMap.HighestReady | lib/src/thread/schedule.h:165-172 | that is the highest priority with a runnable thread |
| Scheduler.Scheduler.constructor | lib/src/thread/schedule.c:266-276 | the initial state: one ring with the idle thread, an empty timer queue, an exact bitmap |
| Scheduler.Scheduler.AddEntry | lib/src/thread/schedule.h:94-98 | the entry of a thread that is on no list ends the ring of one; all other rings stay as they are |
| Scheduler.Scheduler.RemoveEntry | lib/src/thread/schedule.h:100-103 | the entry leaves its ring; all other rings stay as they are |
| Scheduler.Scheduler.RemoveFrontEntry | lib/src/thread/schedule.h:117-119 | the front entry leaves its ring and is returned |
| Scheduler.Scheduler.SortEntry | lib/src/thread/schedule.h:121-126 | the entry is put into a ring at the place of its priority |
| Scheduler.Scheduler.MoveAll | lib/src/thread/schedule.h:105-108 | the ring of sleepers is spliced behind the ring of blocked threads |
| Scheduler.Scheduler.SetTimerCallback | lib/src/thread/timer.c:57-69 | the timer entry of a thread is put into the ring of timers by its time, behind those of the same time |
| Scheduler.Scheduler.RemoveTimerCallback | lib/src/thread/timer.c:27-44 | the timer entry of a thread that has one leaves the ring of timers |
| Scheduler.Scheduler.RemoveTimerCallbacks | lib/src/thread/schedule.c:353-361 | once around the ring of sleepers: exactly the timers of those that sleep with a time-out are removed |
| Scheduler.Scheduler.TakeFront | lib/src/thread/schedule.h:117-119 | the front thread leaves its list; all rings stay well linked and the bitmap exact |
| Scheduler.Scheduler.TakeThread | lib/src/thread/schedule.h:100-103 | a given thread leaves its list; all rings stay well linked and the bitmap exact |
| Scheduler.Scheduler.AddLast | lib/src/thread/schedule.c:112-114 | a thread ends a list; all rings stay well linked and the bitmap exact |
| Scheduler.Scheduler.HighestPriorityThread | lib/src/thread/schedule.h:172 | the bitmap leads to the ring whose first entry is the highest thread |
| Scheduler.Scheduler.GeneratedContextSwitch | lib/src/thread/contextSwitch.h:120-123 | the current register gets the highest thread |
| Scheduler.Scheduler.ConditionalContextSwitch | lib/src/thread/contextSwitch.h:108-115 | the list is turned and the register set if another thread is highest |
| Scheduler.Scheduler.ReleaseBlockedThread | lib/src/thread/schedule.c:186-201 | on the rings, the step of Released |
| Scheduler.Scheduler.Enter | lib/src/thread/schedule.h:226-239 | on the rings, the step of MonitorEnter, keeping invariant, rings and bitmap |
| Scheduler.Scheduler.Exit | lib/src/thread/schedule.h:241-252 | on the rings, the step of MonitorExit |
| Scheduler.Scheduler.Wait | lib/src/thread/schedule.c:304-323 | on the rings, the step of MonitorWait |
| Scheduler.Scheduler.Notify | lib/src/thread/schedule.c:326-343 | on the rings, the step of MonitorNotify |
| Scheduler.Scheduler.NotifyAll | lib/src/thread/schedule.c:345-366 | one loop over the timers and one splice come to notifying the sleepers one by one |
| Scheduler.Scheduler.UpdateTimerQueue | lib/src/thread/timer.c:27-55 | the loop fires what UpdateFires says |
| Scheduler.Scheduler.Sleep | lib/src/thread/schedule.c:370-381 | on the rings, the step of ThreadSleep |
| Scheduler.Scheduler.ConcludeTimeShare | lib/src/thread/contextSwitch.h:54-62 | on the rings, the step of Tick |
| Scheduler.Scheduler.InterruptConditionalContextSwitch | lib/src/thread/contextSwitch.h:94-102 | on the rings, timers and then a conditional switch |
| Scheduler.Scheduler.YieldStrongly | lib/src/thread/schedule.c:394-408 | on the rings, the step of StrongYield |
| Scheduler.Scheduler.Prioritize | lib/src/thread/schedule.c:231-240 | on the rings, the step of SetPriority, for another thread |
| Scheduler.Scheduler.PrioritizeCurrent | lib/src/thread/schedule.c:227-236 | the same for the current thread, where only rings and bitmap are sure to be right afterwards |
| Scheduler.Scheduler.Start | lib/src/thread/schedule.c:277-301 | on the rings, the step of ScheduleNewThread |
| Scheduler.Scheduler.Join | lib/src/thread/schedule.c:413-421 | on the rings, the step of ThreadJoin |
| Scheduler.Scheduler.ReleaseJoinedThreads | lib/src/thread/schedule.c:423-432 | the loop wakes everybody who joined, in order |
| Scheduler.Scheduler.WakeFirst | lib/src/thread/schedule.c:514-516 | the first thread of a waiting list becomes runnable, as the last of its priority |
| Scheduler.Scheduler.Remove | lib/src/thread/schedule.c:436-452 | on the rings, the step of RemoveThread |
| Scheduler.Scheduler.Post | lib/src/thread/schedule.c:510-520 | on the rings, the step of SemaphorePost |
| Scheduler.Scheduler.Pend | lib/src/thread/schedule.c:522-532 | on the rings, the step of SemaphorePend |
| Scheduler.Scheduler.Queue | lib/src/thread/schedule.h:274-278 | a thread is queued by its priority |
| TimeShares.VisitAndDeduct | lib/src/thread/schedule.h:34-45 | with the allotments of the source a visit either gives whole shares or leaves the counter below one, and a running thread's counter reaches exactly zero |
| TimeShares.CounterFits | lib/src/thread/thread.h:56-64 | no counter leaves the range of a signed byte |
| TimeShares.VisitedOk | lib/src/thread/schedule.h:34-41 | a visit keeps six times the ticks plus the counter equal to the allotment times the visits, for every thread, and the visits fair |
| TimeShares.DeductedOk | lib/src/thread/schedule.h:43-45 | so does a tick |
| TimeShares.RunningList.SelectRunningThread | lib/src/thread/schedule.h:34-41 | the selection ends, with a thread that has a whole share |
| TimeShares.RunningList.ConcludeTimeShare | jvm/src/execute/javaRegisterSwitch.h:86-99 | the running thread gets one tick, and another selection is made exactly when its counter has reached zero |
| TimeShares.SixRounds | lib/src/thread/thread.h:56-64 | when six rounds are complete every thread has had exactly its allotment of ticks and all counters are zero |
| TimeShares.FairShares | lib/src/thread/thread.h:56-64 | whenever the threads have had r times the sum of their allotments in ticks, each has had exactly r times its own |
| TimeShares.RunShares | jvm/src/execute/javaRegisterSwitch.h:86-99 | for any threads and allotments, started with zero counters and run tick by tick for r times the sum of the allotments, each thread has had r times its allotment |
| TimeShares.RunningList.Conclude | jvm/src/execute/javaRegisterSwitch.h:86-99 | any number of ticks keeps the shares in balance, and every tick goes to some thread |
| TimeShares.SixthRoundRuns | lib/src/thread/schedule.h:34-41 | the visit that completes a sixth round always ends the selection |
| MultiArray.ArrayHeap.InstantiateArray | jvm/src/object/instantiate.c:24-55 | one array of zeros, or the error of a length over 65535, or no memory |
| MultiArray.ArrayHeap.FillArray | jvm/src/object/instantiate.c:112-134 | every element becomes a new array of the next class and length; the new ones are threaded in order of creation if they are to be filled |
| MultiArray.ArrayHeap.FillLevel | jvm/src/object/instantiate.c:106-137 | following the thread fills all arrays of a level, the one created last first |
| MultiArray.ArrayHeap.FillLevels | jvm/src/object/instantiate.c:99-150 | all levels down to the last or the first zero dimension are filled |
| MultiArray.ArrayHeap.InstantiateMultiArray | jvm/src/object/instantiate.c:58-153 | the outcome for every input: success with all levels built, no memory, unsupported length, or, exactly when the first length is zero and there are more dimensions, a read outside the array; arrays that were there are untouched |
| MultiArray.BuiltIsComplete | jvm/src/object/instantiate.c:58-153 | what is built is the complete tree: non-null arrays of the next class and length at each level, zeros in the last dimension, no threading link left |
| MultiArray.DepthIs | jvm/src/object/instantiate.c:94-150 | a class has n dimensions, as the caller promises, if and only if one can go n times from an array class to the class of its elements |
| MultiArray.NoSharing | jvm/src/object/instantiate.c:111-134 | no array is an element twice, at the same level or another |
| MultiArray.WhenBuilt | jvm/src/object/instantiate.c:58-153 | success if and only if every dimension up to the first zero one is supported and all arrays fit |
| MultiArray.WhenUnsupported | jvm/src/object/instantiate.c:58-153 | the length is reported as unsupported if and only if the arrays above the first length that is too long all fit; otherwise memory runs out first |
| ClassTable.Table.ClassIsInTable | jvm/src/class/table.c:28-48 | found if and only if the key is in the table, at its slot |
| ClassTable.Table.FindClassTableIndex | jvm/src/class/table.c:50-68 | found, full only when every slot holds another key, or the first free slot of the chain |
| ClassTable.Table.GetClassInTable | jvm/src/class/table.c:73-119 | undisturbed: the table gains exactly the key if it was missing and a slot was free; full if and only if every slot holds another key; the count is the number of used slots |
| ClassTable.HashIndexIs | jvm/src/class/table.c:26 | a key starts at its remainder |
| ClassTable.NoKeyTwice | jvm/src/class/table.c:73-119 | no key is in two slots |
| ClassTable.FreeMeansAbsent | jvm/src/class/table.c:28-48 | a probe that ends at a free slot has not missed the key |
| ClassTable.InsertedOk | jvm/src/class/table.c:105-111 | an insertion at the end of the chain keeps every key findable |
| ClassTableThreads.StepInv | jvm/src/class/table.c:73-119 | every single read or write of every thread keeps the table in order and removes nothing, and the count is the number of used slots but for one that is about to be counted; a thread that reports a full table does so only when every slot holds another key |
| ClassTableThreads.RunInv | jvm/src/class/table.c:73-119 | the same over whole runs |
| ClassTableThreads.OneSlotPerKey | jvm/src/class/table.c:87-117 | whatever happens between the unlocked probe and the locked resume, a key has one slot and keeps it |
| ClassTableThreads.InsertingCall | jvm/src/class/table.c:73-119 | in every run an inserting call ends only with a slot that holds its key, or when every slot holds another key |
| ClassTableThreads.CallEnds | jvm/src/class/table.c:73-119 | whatever the other threads do, a call ends after at most four steps for each slot and four more, but for the time it waits for the critical region |
| ClassTableThreads.HolderMoves | jvm/src/class/table.c:87-117 | the thread in the critical region never waits, so it leaves within that number of steps |
| ClassTableThreads.CallAlone | jvm/src/class/table.c:73-119 | undisturbed, a call ends within that number of steps: an inserting one with its key in the table, in its old slot or in a free one that is now used and counted, or with every slot holding another key; any other with the truth about the key |
| ClassTableThreads.MissesWhenAbsent | jvm/src/class/table.c:28-48 | a search that misses does so at a moment when the key is absent |
| ClassTableThreads.NeverMissed | jvm/src/class/table.c:28-48 | a key that is in the table is never missed by a search |
| TypeCheck.IsInstanceOf | jvm/src/class/typeCheck.c:46-88 | terminates, and holds if and only if the target is in the reflexive closure of the direct supertypes of the source |
| TypeCheck.IsSuperInterface | jvm/src/class/typeCheck.c:10-26 | true if and only if the source is no array and the target an interface of its list |
| TypeCheck.IsParentClass | jvm/src/class/typeCheck.c:32-41 | true if and only if parent links lead from the child, of whatever type, to the other type |
| TypeCheck.ListDecides | jvm/src/class/typeCheck.c:15-24 | with closed interface lists, membership is the subtype relation |
| TypeCheck.ParentsDecide | jvm/src/class/typeCheck.c:32-41 | for a class and a target that is no interface, ancestry is the subtype relation |
| TypeCheck.AboveClass | jvm/src/class/typeCheck.c:46-88 | above a class is itself, what is above its parent and what is above its interfaces; above an interface is Object in place of the parent |
| TypeCheck.Transitive | jvm/src/class/typeCheck.c:46-88 | the relation is transitive |
| TypeCheck.Covariant | jvm/src/class/typeCheck.c:76-85 | arrays of references are covariant, arrays of primitives unrelated to them |
| StringPool.Pool.GetByChars | jvm/src/string/stringPool.c:44-92 | for one thread: gives the key of the string in the pool or adds it; keys of other strings never change, so equal strings get equal keys; fails only for a new string without memory |
| StringPool.GetStringHash | jvm/src/string/stringPool.c:36-40 | the loop over the characters comes to the number whose digits to the base 37 they are, in 16 bits |
| StringPool.HashIsNumber | jvm/src/string/stringPool.c:36-40 | the hash is that number, whose definition is apart from the loop |
| StringPool.HashAppended | jvm/src/string/stringPool.c:36-40 | a character more multiplies the hash by 37 and adds the character |
| StringPool.FirstKey | jvm/src/string/stringPool.c:53-84 | the first string of a chain has its index plus the table size for a key |
| StringPool.Pool.AddGlobal | jvm/src/string/stringPool.c:290-311 | adds any string in front of its chain, under the key that follows; the pool keeps one entry for every string if and only if the string was not in it |
| StringPoolThreads.OvertakenIff | jvm/src/string/stringPool.c:57-90 | a thread adds a string that is in the pool already if and only if another thread has inserted it since this one read the front of the chain |
| StringPoolThreads.UniqueIff | jvm/src/string/stringPool.c:57-90 | a run of any number of threads keeps one entry for every string if and only if no string is inserted between the search of another thread for it and its own insertion |
| StringPoolThreads.SeekingCall | jvm/src/string/stringPool.c:57-91 | in every run a call ends only with a key that an entry of its string has, or without memory |
| StringPoolThreads.CallEnds | jvm/src/string/stringPool.c:57-91 | whatever the other threads do, a call ends after as many steps as its chain had entries when it began, and two more |
| StringPoolThreads.CallAlone | jvm/src/string/stringPool.c:57-91 | undisturbed, a call ends with the key of the newest entry of its string, or of a new one in front of its chain, and changes nothing else |
| StringPoolThreads.RunKeys | jvm/src/string/stringPool.c:83-87 | in every run, also one that adds a string twice, the k-th entry of a chain has its arithmetic key |
| StringPoolThreads.SameStringTwoKeys | jvm/src/string/stringPool.c:57-90 | for every string, a run of two threads that leaves it in the pool twice, each thread with a key of its own |
| StringPool.Pool.GetByKey | jvm/src/string/stringPool.c:95-108 | returns the first string of the chain with that key |
| StringPool.AddedOk | jvm/src/string/stringPool.c:83-85 | the k-th string of a chain has key index plus k times the size, in 16 bits |
| StringPool.NextKey | jvm/src/string/stringPool.c:84 | each key is the one before it plus the table size |
| StringPool.KeyIs | jvm/src/string/stringPool.c:84 | the k-th key as a formula, which the code computes step by step |
| StringPool.KeyFromChars | jvm/src/string/stringPool.c:53-84 | the key of a string from its characters and its number in the chain alone |
| StringPool.RoundTrip | jvm/src/string/stringPool.c:95-108 | the key of a string leads back to it if and only if fewer than 256 strings were added to its chain after it; every key is congruent to its index |
| StringPool.DistinctKeys | jvm/src/string/stringPool.c:83-85 | distinct strings have distinct keys when no chain is deeper than 256 |
| StringPool.DeepChainsCollide | jvm/src/string/stringPool.c:83-85 | and in every deeper chain two strings share a key |
| StringPool.PackageRoundTrip | jvm/src/elements/keys.h:68-88 | in every pool, a string is recovered from its package key if and only if its depth in its chain is at most seven modulo 256 and fewer than 256 strings were added to its chain after it; depth and primitive bit are recovered whenever the depth is at most seven modulo 256 |
| StringPool.Unpacked | jvm/src/elements/keys.h:68-88 | the three parts of a package key are read back from the stored 16 bits |
| StringPool.PackedBack | jvm/src/elements/keys.h:68-88 | and the 16 bits from the three parts |
| StringPool.DepthLaws | jvm/src/elements/keys.h:86 | setting depth and primitive bit on a plain key gives these; setting them twice sets both, setting none changes nothing |

## Left out

- MarkRoots: takes the roots and pinned blocks as given; the walk over thread stacks and frames that finds them is not modelled.
- RunGarbageCollection: marks and sweeps in one step, with all other threads stopped and none of them inside the heap monitor; the code stops them without taking that monitor, and what a thread stopped in the middle of an allocation does to a collection is not modelled, nor is concurrent collection.
- GarbageCollect: is the collection without any other thread between its two parts; what may come between is the subject of HeapRuns.
- MemoryFree: is the release without any other thread between its two parts; what may come between is the subject of FreeLocked, ReleaseIff and HeapRuns.
- Perform: takes a collection and an allocation right after it as separate steps, where `garbageCollectForMemory` keeps the heap monitor; histories of separate steps include that one.
- LivesOn: speaks of histories in which every release and every collection meets its condition; after one that does not, the heap is not in order any more and nothing is claimed.
- MemoryAlloc: models one thread; waiting for a collection that another thread is running, and the choice of the first thread to be served, are not modelled.
- MarkChildren: covers collectible objects; a permanent object with object fields as a child would have its neighbour pointer overwritten, and is not part of the graph.
- Heap blocks hold no data: that contents stay where they are is stated as headers, addresses and sizes that do not change. Where a word that is out of date could look for a header, the data of the program are an arbitrary header.
- Allocation with clearing: the 32-bit product of number and size is not modelled.
- Interrupting a waiting or sleeping thread: the code passes a list without its address and leaves a sleeper's timer queued, so the operation does not fit the lists at all.
- StepInv: says nothing exact about the status of a thread that has been notified and is still blocked, because the code does not update it; the interrupted flag is not modelled.
- SetOwnPriorityInv: after a change that fails its condition nothing is claimed about the runs that follow.
- Enter: depths are unbounded; wrapping around after 2^32 entries is not modelled, nor is a semaphore counter's range.
- ConcludeTimeShare: time shares are modelled for one priority with fixed threads and allotments; changing them while running, other priorities and timers are left out.
- Disabling the rescheduler, the switch hooks and the clean-up function of a thread: they run code outside the scheduler.
- UpdateTimerQueue: the expiry tick that is recomputed at the end is not modelled; whether the queue is looked at is a parameter of a tick.
- WithTimerMembers: for the same reason the expiry tick that setTimerCallback computes is not modelled.
- SetTimerCallback: puts the timer into the ring; the expiry tick that it recomputes is not modelled.
- Remove: the clean-up function of a dying thread and its removal from the list of all active threads are not modelled.
- The list of all active threads: a second list of the same kind that no other operation depends on.
- InstantiateArray: the permanent flag and the size in bytes are not modelled; memory is a supply of addresses.
- InstantiateMultiArray: a collection in the middle of the construction and the permanent flag, which the code ignores, are not modelled.
- GetClassInTable: the status of a class after it has been referenced, and what the entry points to, are not modelled.
- IsInstanceOf: Cloneable and Serializable as supertypes of arrays are left out, as in CLDC.
- GetByChars: describes one thread; several threads at once are the subject of StringPoolThreads, where the memory for a new entry is simply there or not.
- AddGlobal: is modelled as one step, as it is called while the system starts.
- The interned string pool, class names and the loader: more of the same chains, or input and output.
- The interpreter, bytecode handlers, resolver, romizer, native methods, platform code and context-switch assembly: input, output or data, or not about these properties.
- Split 64-bit arithmetic, the bytecode filter and the data streams: not part of this model.

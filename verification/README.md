# Verified model of the kernel's heap, lists, scheduler, semaphores and timer

The project models three parts of the operating-system kernel and proves what they
are for.

**Heap and list.** `HeapModel` describes the heap as a tiling of equal cells by
free and taken blocks. `MemoryAllocator` is the first-fit allocator itself: one
array of 64-bit words in which both block lists are threaded through header words,
overwritten statement by statement. Every operation is proved to keep the words a
faithful picture of a tiling whose free list is ordered and fully coalesced; what
allocation and release mean is then stated on the tiling alone. `ListSpec` says
what the list template's operations mean on sequences, and `LinkedList` proves the
pointer code - ordered insertion, removal by value, iteration under removal, merge
sort in place - against it, down to which nodes are linked.

**Threads, semaphores and time.** `KernelState` gives the state of the kernel and
its steps: create, dispatch, exit, kill, sleep, open, wait, timed wait, signal,
close, tick. A system call or a timer tick is one step, because traps run to
completion on one core; a thread suspended inside a system call carries a tag that
says what is left of that call, and the tag is acted on when the thread is next
selected. `KernelInvariant` and `KernelDispatch` prove the invariant of every step:
where each thread is, what each queue holds, how `val` relates to the queue, that
the sleep list is sorted. `KernelRuns` proves theorems about whole runs. `Kernel`
is the imperative kernel, an object whose methods overwrite its fields as the
source's functions do; each method is proved to do what its step says.

`KernelSteps` says what each step does to the whole state - who runs next, which list
changes and in what order, what a waiter is told, and that nothing else changes -
without the functions that compute it. `KernelTime` says on which tick the timer releases a thread, for every duration and
every clock value, and `KernelExclusion` that the units of a semaphore are held by
no more threads than there are units, for any clients that signal only what they
hold.

**Bounded buffer.** `BoundedBuffer` is the producer-consumer buffer run by any
number of threads on top of that kernel. Its operations are broken into the
statements between which the timer may switch threads; its semaphore calls are
the kernel's steps, and everything else the kernel does may happen in between.
`SharedBuffer` is the object itself - the array, the kernel object and every
thread's place - with a method for each statement, each proved to be that action.
`BufferCalls` proves what callers get: every call takes effect exactly once between
its start and its return, and the value a `get` returns is the argument of the
matching `put`. `BufferProgress` proves that the buffer never deadlocks.

The step functions of `KernelState` and the specification functions of the other
modules are definitions: what they mean is stated by the lemmas and methods below.

## What the proofs show about the code

- A semaphore opened with a value of 2^63 or more starts with a negative `val` and
  an empty queue. The semaphore law holds at the start exactly below that value
  (`KernelDispatch.OpenObeysLaw`), and exactly from that value on the first signal
  takes a thread off an empty queue (`KernelDispatch.FirstSignalIsDefined`).
- `tryWait` takes a unit that is not there: it keeps the semaphore law exactly when
  `val` is at least 1 (`KernelDispatch.TryWaitObeysLaw`). With `val` 0, and only
  then, its answer is wrong and the next signal takes a thread off an empty queue
  (`KernelDispatch.TryWaitThenSignal`).
- Rounding a request of `size` bytes up to blocks overflows from 2^64 - 79 on. The
  sizes 2^64 - 79 to 2^64 - 16 then ask for no block at all and are refused whatever
  room there is; from 2^64 - 15 on one block is asked for and handed out, and it is
  too small. So a block handed out holds the bytes requested exactly when
  `size + 15` fits 64 bits (`MemoryAllocator.Allocator.MemAlloc`).
- A sleep or timed wait of d ticks, d at least 1, ends on exactly the d-th tick if
  and only if `SYS_TIME` plus d fits 64 bits or `SYS_TIME` is 2^64 - 1; otherwise the
  very next tick ends it (`KernelTime.RequestedTick`, `KernelTime.SleepLasts`,
  `KernelTime.TimerEndsWait`). Sleeps above 2^63 are halved first, so their sum fits
  throughout the first half of the clock's range; durations of timed waits are not
  clamped, so a wait of 2^64 - 1 ticks times out on the first tick as soon as the
  clock has moved. A duration of 0 ends on the next tick, except at clock value
  2^64 - 1, where it lasts 2^64 ticks.
- A thread killed while it waits with a timeout keeps its status when it is
  released, because the status of a finished thread is never written
  (`h/_thread.hpp:162`). It is then in the ready queue with status TIMEDWAITING,
  and the invariant allows this for finished threads.
- A woken sleeper runs with state READY rather than RUNNING
  (`src/_time.cpp:39`), so the invariant allows both for the running thread.
- The comment on `timedWait` (`h/_sem.hpp:41`) says its argument is the time of
  release; the code takes a duration and adds the clock to it
  (`src/_sem.cpp:71`). The model follows the code.
- The self-kill check of `subtleKill` (`src/_context.cpp:73`) never fires: no thread
  is its own parent, so the parent check has already refused it
  (`KernelDispatch.OnlyParentsKill`).
- Of sleepers with equal wake-up times the last to fall asleep wakes first, because the
  sleep list is kept with a strict comparator (`KernelSteps.LastToSleepIsAhead`).
- A finished thread in the middle of the ready queue stays there until it reaches
  the front: a dispatch deletes the finished prefix only.

## Model

| member | source | states |
|---|---|---|
| HeapModel.CanonicalList | src/_memoryAllocator.cpp:111-146 | two address-ordered lists with no adjacent blocks that cover the same cells are the same list |
| HeapModel.FreeListIsCanonical | src/_memoryAllocator.cpp:84-148 | in a tiled heap the free list is a function of the cells in taken blocks alone, whatever the history |
| HeapModel.NothingTakenOneBlock | src/_memoryAllocator.cpp:16-22 | a tiled heap with nothing taken is one free block holding all of it |
| HeapModel.InitialTiles | src/_memoryAllocator.cpp:16-22 | the heap that initialization sets up is tiled, ordered and coalesced |
| HeapModel.ReleasedSet | src/_memoryAllocator.cpp:84-148 | after any sequence of releases the heap is tiled and the taken list has lost exactly the released blocks and kept its order |
| HeapModel.ReleaseOrderIsIrrelevant | src/_memoryAllocator.cpp:84-148 | releasing the same live blocks in any two orders ends in the same free list and the same taken list |
| HeapModel.ReleaseEverything | src/_memoryAllocator.cpp:84-148 | releasing every live block, in any order, restores the single initial free block |
| HeapModel.RunInOneBlock | src/_memoryAllocator.cpp:36-38 | free cells in a row never straddle two blocks of the free list, so looking at single blocks misses nothing |
| HeapModel.FirstFitIsLowest | src/_memoryAllocator.cpp:36-41 | the first block that fits starts the lowest-addressed free run of that length, and when no block fits no such run exists anywhere |
| HeapModel.AllocateThenRelease | src/_memoryAllocator.cpp:43-146 | an allocation released at once restores both lists exactly, for exact fits and splits alike |
| HeapModel.CarveKeepsTiling | src/_memoryAllocator.cpp:43-79 | cutting the front off any large enough free block and taking it keeps the heap exactly tiled and coalesced |
| HeapModel.ReleaseKeepsTiling | src/_memoryAllocator.cpp:100-146 | unlinking a taken block and joining it with the neighbours it touches in its slot is a release: tiled, ordered, no two adjacent free blocks |
| MemoryAllocator.ThreadedUnique | src/_memoryAllocator.cpp:36-38 | the header words and a head pointer determine the list that a walk visits; the walk ends and repeats no block |
| MemoryAllocator.ThreadSplice | src/_memoryAllocator.cpp:58-72 | redirecting one link to a new header replaces exactly that part of the list |
| MemoryAllocator.ThreadDrop | src/_memoryAllocator.cpp:46-57 | redirecting one link past a block removes exactly that block from the list |
| MemoryAllocator.TakeRewires | src/_memoryAllocator.cpp:43-79 | the words written by an allocation describe the carved heap, and no payload word of a live block is among them |
| MemoryAllocator.ReleaseRewires | src/_memoryAllocator.cpp:100-146 | the words written by a release describe the coalesced heap, which is a release of that block, and no payload word of a block that stays live is among them |
| MemoryAllocator.PayloadsDisjoint | src/_memoryAllocator.cpp:81 | no word is payload of two live blocks |
| MemoryAllocator.ClientWritesAreHarmless | src/_memoryAllocator.cpp:81 | whatever a client stores in the payload of a live block, both lists stay intact |
| MemoryAllocator.RequestedCells | src/syscall_c.cpp:13 | up to 2^64 - 80 the request is for the smallest number of blocks that holds the size; the next 64 sizes ask for none, and the last 15 for one that is too small |
| MemoryAllocator.Allocator.constructor | src/_memoryAllocator.cpp:3-7 | the untouched heap stands for one free block of all cells |
| MemoryAllocator.Allocator.PointerIsToPayload | src/_memoryAllocator.cpp:81 | the words behind a handed-out pointer, up to the block's payload size, are exactly the block's payload words |
| MemoryAllocator.Allocator.Init | src/_memoryAllocator.cpp:9-26 | the lazy initialization makes the words describe what the heap already stood for, and does nothing the second time |
| MemoryAllocator.Allocator.FindFit | src/_memoryAllocator.cpp:36-41 | the walk ends at the first block that is long enough and at the null address exactly when none is |
| MemoryAllocator.Allocator.TakeAddresses | src/_memoryAllocator.cpp:43-44 | the leftover address never leaves the chosen block, and no address computed while carving wraps |
| MemoryAllocator.Allocator.Take | src/_memoryAllocator.cpp:43-81 | the new lists are the carved free list and the taken list with the block in front; every live payload word is kept |
| MemoryAllocator.Allocator.Kmalloc | src/_memoryAllocator.cpp:28-82 | null exactly for zero blocks or when the heap has no free run of that length, and then nothing changes; otherwise the pointer is to the lowest-addressed run, newly taken; live payload is kept |
| MemoryAllocator.Allocator.MemAlloc | src/syscall_c.cpp:9-23 | null exactly when there is no room for the blocks requested or the rounding overflowed to none; a block handed out is the lowest-addressed run and holds the size exactly when size + 15 fits 64 bits |
| MemoryAllocator.Allocator.FindTaken | src/_memoryAllocator.cpp:89-98 | the walk finds the taken block at the address and ends at null exactly when there is none |
| MemoryAllocator.Allocator.FindSlot | src/_memoryAllocator.cpp:112-115 | the walk ends between the free blocks below and above the released address |
| MemoryAllocator.Allocator.JoinPrev | src/_memoryAllocator.cpp:117-133 | the words are those of the block joined to or linked behind the free block before it |
| MemoryAllocator.Allocator.JoinNext | src/_memoryAllocator.cpp:135-146 | the words are those of the block joined with or linked to the free block behind it |
| MemoryAllocator.Allocator.Release | src/_memoryAllocator.cpp:100-147 | giving back taken block `j` is a release of that block and keeps the payload of all others |
| MemoryAllocator.Allocator.Kmfree | src/_memoryAllocator.cpp:84-148 | 0 for null and for pointers handed out and not yet released, whose block is released; -1 for every other pointer, and then no word changes; payload of live blocks is kept |
| ListSpec.RemoveFromDistinct | h/_list.hpp:157-181 | removal by value from a list without repeats takes out exactly that element |
| ListSpec.RemoveMovesUp | h/_list.hpp:157-181 | removal moves exactly the elements behind the removed one up, by one place |
| ListSpec.PreordersAndTheirStrictPartsOrder | h/_list.hpp:13 | every total preorder and its strict part satisfy the condition under which the sorting theorems hold |
| ListSpec.InsertKeepsSorted | h/_list.hpp:189-216 | ordered insertion keeps a sorted list sorted, for reflexive and strict comparators |
| ListSpec.InsertAllTies | h/_list.hpp:189-216 | repeated ordered insertion keeps ties in order for a reflexive comparator and reverses them exactly for a strict one |
| ListSpec.MergeInsert | h/_list.hpp:272-294 | merging commutes with ordered insertion on the right, sorted or not |
| ListSpec.MergeSortIsInsertion | h/_list.hpp:233-248 | merge sort gives, element for element, the list that inserting the elements one by one gives |
| ListSpec.SortMeaning | h/_list.hpp:218-231 | sorting is a sorted permutation, stable for a total preorder and with ties exactly reversed for its strict part |
| LinkedList.MergeChains | h/_list.hpp:272-294 | splicing two disjoint chains relinks exactly their nodes into the merge of the two |
| LinkedList.GetMiddle | h/_list.hpp:250-270 | the middle is the last node of the longer first half |
| LinkedList.CutInHalf | h/_list.hpp:239-242 | the cut leaves two chains of the rounded-up and rounded-down half of the nodes, so the recursion terminates |
| LinkedList.MergeSortChain | h/_list.hpp:233-248 | the same nodes, relinked in merge-sort order |
| LinkedList.MergeSortOnData | h/_list.hpp:233-248 | sorting the nodes by their elements sorts the elements |
| LinkedList.List.AddFirst | h/_list.hpp:67-80 | one new node in front, every old node in place behind it |
| LinkedList.List.AddLast | h/_list.hpp:82-99 | one new node at the end, every old node in place before it |
| LinkedList.List.RemoveFirst | h/_list.hpp:101-119 | the first element, or nothing from an empty list; the remaining nodes are unchanged |
| LinkedList.List.PeekFirst | h/_list.hpp:121-125 | the first element, if any |
| LinkedList.List.RemoveLast | h/_list.hpp:127-155 | the last element, or nothing from an empty list; the remaining nodes are unchanged |
| LinkedList.List.PeekLast | h/_list.hpp:183-187 | the last element, if any |
| LinkedList.List.RemoveSpec | h/_list.hpp:157-181 | takes out the node of the first occurrence and no other, and reports whether there was one; null is never found |
| LinkedList.List.InsertSorted | h/_list.hpp:189-216 | one new node before the first element that the comparator does not put ahead of it; null is not inserted |
| LinkedList.List.Sort | h/_list.hpp:218-231 | the same nodes in merge-sort order, with `tail` the last of them |
| LinkedList.List.ForeachWhileRemoving | h/_list.hpp:305-314 | when the callback removes the visited element, each element of the longest satisfying prefix is visited once, in order, and the rest of the list is what remains |
| KernelInvariant.InitialInv | h/_thread.hpp:92-117 | the invariant holds once the main thread exists |
| KernelInvariant.ReleasedKeepsCore | src/_sem.cpp:104-129 | releasing a waiter for any cause keeps the invariant: one place per thread, queue length matching `val`, sleep list sorted |
| KernelInvariant.UnblockReleases | src/_sem.cpp:104-114 | when `val` is negative the queue is not empty, and `unblock` releases the first waiter |
| KernelInvariant.SignalKeepsCore | src/_sem.cpp:95-102 | a signal never meets an empty queue when it must wake somebody, and keeps the invariant |
| KernelInvariant.UnblockAllDrains | src/_sem.cpp:131-135 | deletion ends with no debt and an empty queue; all waiters are at the back of the ready queue in FIFO order, told of the deletion; the sleep list loses exactly the timed ones among them |
| KernelInvariant.CloseKeepsCore | h/_sem.hpp:34-39 | deleting a semaphore leaves no thread that refers to it |
| KernelInvariant.WakeFirst | src/_time.cpp:54-71 | the first sleeper, if it waits with a timeout, is queued on a live semaphore - the null-semaphore branch is unreachable - and its wake-up is a release with TIMEOUT; any other sleeper just moves to the ready queue |
| KernelInvariant.WakeAllMeaning | src/_time.cpp:44-71 | waking moves exactly the due prefix of the sleep list, in order, to the back of the ready queue; each timed waiter among them leaves its queue and gives its unit back; the invariant is kept |
| KernelInvariant.NobodyDueIsLeft | src/_time.cpp:49-52 | because the list is sorted, stopping at the first thread that is not due leaves only threads with wake-up times past the clock |
| KernelDispatch.InsertAsleepKeepsOrder | h/_time.hpp:51-57 | ordered insertion keeps the sleep list in wake-up order, without repeats |
| KernelDispatch.BlockKeepsCore | src/_sem.cpp:56-66 | a blocking wait keeps the invariant up to the dispatch |
| KernelDispatch.TimedBlockKeepsCore | src/_sem.cpp:69-83 | a blocking timed wait, which puts the thread in two lists, keeps the invariant up to the dispatch |
| KernelDispatch.PutToSleepKeepsCore | src/_time.cpp:26-36 | going to sleep keeps the invariant up to the dispatch |
| KernelDispatch.DropDeadMeaning | src/_context.cpp:37-63 | a dispatch discards exactly the maximal finished prefix of the ready queue, deletes those threads, and finds a live thread behind it |
| KernelDispatch.RescheduleKeepsInv | src/_context.cpp:37-44 | selection always succeeds, and the invariant holds once the selected thread has finished the system call it was suspended in |
| KernelDispatch.CreateKeepsCore | h/_thread.hpp:92-117 | a new thread, with or without a body, keeps the invariant |
| KernelDispatch.KillKeepsCore | src/_context.cpp:65-78 | marking a thread finished wherever it waits keeps the invariant |
| KernelDispatch.OnlyParentsKill | src/_context.cpp:65-78 | a kill succeeds exactly on the running thread's own live children, finishes that thread and nothing else; the self-kill branch is unreachable and main cannot be killed |
| KernelDispatch.OpenObeysLaw | h/_sem.hpp:28-32 | a new semaphore obeys the semaphore law exactly when its initial value is below 2^63 |
| KernelDispatch.TryWaitObeysLaw | src/_sem.cpp:137-149 | a try-wait keeps the semaphore law exactly when `val` is at least 1 |
| KernelDispatch.FirstSignalIsDefined | src/_sem.cpp:95-106 | the first signal after opening finds a waiter when it needs one exactly when the initial value is below 2^63 |
| KernelDispatch.TryWaitThenSignal | src/_sem.cpp:137-149 | the answer of a try-wait is right, and the next signal never takes a thread off an empty queue, exactly when `val` was not 0 |
| KernelDispatch.StepKeepsInv | src/_context.cpp:14-78 | every step a caller may make is defined - no list that is read is empty, a next thread is always found - and keeps the whole invariant |
| KernelRuns.InvAlong | src/_context.cpp:14-78 | the invariant holds at every point of every run |
| KernelRuns.RunsNeverStick | src/_scheduler.cpp:8-11 | every run can be continued with every allowed step: the scheduler never comes up empty |
| KernelRuns.RescheduleMeaning | src/_context.cpp:37-39 | the selected thread is the first unfinished one in the ready queue; everything else but the discarded threads is unchanged |
| KernelRuns.StepBringsCloser | src/_time.cpp:8-19 | no step moves a ready thread back, and each tick brings it strictly closer to running |
| KernelRuns.ReadyThreadRuns | src/_context.cpp:22-39 | over any run in which it is not killed, a thread with k others ahead of it in the ready queue runs within 2(k+1) ticks |
| KernelRuns.StepSem | src/_sem.cpp:35-129 | what any step of the kernel but its deletion leaves of a semaphore: unchanged, one unit less, one more, or rid of its timed-out waiters with their units back |
| KernelRuns.StepReleases | src/_sem.cpp:95-135 | a queued thread that is not released is unchanged; only a signal, the deletion of its semaphore or, for a timed wait, a tick releases it, and the answer it is then owed is that cause's |
| KernelRuns.OwedUntilAnswered | src/_sem.cpp:10-33 | a released waiter keeps its answer until it runs, when the wait returns it; it is queued nowhere meanwhile |
| KernelRuns.AnswerMatchesCause | src/_sem.cpp:10-54 | over any run in which the thread is not killed, a blocked wait is released by exactly one step and returns 0 for a signal, -1 for deletion, -2 for a timeout, the last only from a timed wait |
| KernelRuns.StepMovesUp | src/_sem.cpp:95-129 | no step moves a waiter back in its queue; a signal moves it up or releases it |
| KernelRuns.ReleasedInTurn | src/_sem.cpp:95-129 | a waiter with k others ahead of it is released by the (k+1)-st signal at the latest |
| KernelRuns.StepConservesUnits | src/_sem.cpp:35-54 | units left plus waits granted grow by one with a signal and not otherwise |
| KernelRuns.UnitsAreConserved | src/_sem.cpp:95-129 | over any run before deletion, initial units plus signals equal waits granted plus units left |
| KernelRuns.OneHolder | src/_sem.cpp:35-54 | with one initial unit, at every moment at most one granted wait is not yet matched by a signal |
| KernelSteps.DispatchMeaning | src/_context.cpp:22-45 | the caller goes behind everyone in the ready queue, the finished threads in front are deleted, the first live one runs with a fresh slice, and nothing else changes |
| KernelSteps.DispatchYields | src/_context.cpp:22-39 | with a live thread in the ready queue the caller no longer runs and is last in the queue; without one it runs on |
| KernelSteps.ExitMeaning | src/_context.cpp:14-39 | the caller is gone and the first live thread of the ready queue runs; nothing else changes |
| KernelSteps.CreateMeaning | h/_thread.hpp:92-117 | a fresh child of the caller, last in the ready queue with a body and in no list without; the caller can kill it; nothing else changes |
| KernelSteps.CreatedThreadRuns | h/_thread.hpp:100-101 | over any run in which it is not killed, a thread created with a body while k others are ready runs within 2(k+1) ticks |
| KernelSteps.BodylessNeverRuns | h/_thread.hpp:100-101 | over any run, a thread created without a body is in no list and never runs |
| KernelSteps.KillMeaning | src/_context.cpp:65-78 | -10 for a thread that does not exist, -2 for anybody else's child, and otherwise 0 and the thread is finished; nothing else changes |
| KernelSteps.SleepMeaning | src/_time.cpp:26-38 | the caller is on the sleep list behind earlier alarms and ahead of equal and later ones, the first live ready thread runs, and nothing else changes; durations above 2^63 are halved |
| KernelSteps.UnblockedWaitMeaning | src/_sem.cpp:35-49 | with a unit to take, a wait of either kind takes it, answers 1 and runs on; nothing else changes |
| KernelSteps.BlockedWaitMeaning | src/_sem.cpp:56-64 | without one the caller is last in the semaphore's queue, without a deadline, the first live ready thread runs, and nothing else changes |
| KernelSteps.BlockedTimedWaitMeaning | src/_sem.cpp:69-83 | the same for a timed wait, with the caller also on the sleep list at the place of its deadline |
| KernelSteps.OpenMeaning | h/_sem.hpp:28-32 | a fresh semaphore with the given units and nobody waiting; nothing else changes |
| KernelSteps.SignalMeaning | src/_sem.cpp:95-114 | one more unit, or the first waiter told so at the back of the ready queue and off the sleep list; the caller runs on and nothing else changes |
| KernelSteps.CloseMeaning | h/_sem.hpp:34-39 | the semaphore is gone, its waiters are at the back of the ready queue in order, told of the deletion and off the sleep list; nothing else changes |
| KernelSteps.TickMeaning | src/_time.cpp:8-19 | exactly the due sleepers are woken in list order; in the first tick of a slice the thread runs on, and the second sends it behind the woken threads and runs the first live one |
| KernelSteps.SliceLasts | src/_time.cpp:17-18 | over any run, a thread that makes no call giving up the processor keeps it until its second tick |
| KernelSteps.WaitAnswers | src/_sem.cpp:10-54 | over any run in which the caller is not killed, a wait answers 1 exactly when there was a unit; otherwise exactly one step releases it, and it answers 0 for a signal, -1 for deletion, and -2 for a tick, which ends timed waits only |
| KernelSteps.StepKeepsSleepOrder | h/_list.hpp:157-216 | two threads that stay asleep keep their order in the sleep list through every step |
| KernelSteps.LastToSleepIsAhead | h/_time.hpp:38 | over any run, of two sleepers with equal alarms the one that fell asleep later stays ahead, and so wakes first |
| KernelExclusion.StepKeepsUnits | src/_sem.cpp:35-129 | units left plus units held by threads are the same after any step, if a signal is by a holder |
| KernelExclusion.UnitsHeld | src/_sem.cpp:35-129 | over any run of clients that signal only what they hold, the holders and the units left add up to the initial value |
| KernelExclusion.MutualExclusion | src/_sem.cpp:35-129 | with one unit and bracketed use, two threads between grant and signal are the same thread, granted once |
| KernelTime.ReachIsReleaseTick | src/_time.cpp:32-51 | which tick is the first to reach a wake-up time computed in 64 bits, for every clock value and duration |
| KernelTime.RequestedTick | src/_sem.cpp:71 | the release tick is the one asked for exactly when the sum fits the clock or the clock stands at its last value; otherwise it is the first |
| KernelTime.RequestedSleep | h/_sysCalls.hpp:147-155 | the same for a sleep, whose duration must also be one that is not clamped; the clamped duration is always kept in the first half of the clock's range |
| KernelTime.SleepSetsAlarm | h/_sysCalls.hpp:147-155 | a sleep call leaves the live caller asleep, off the processor, with the alarm its clamped duration gives |
| KernelTime.StepAndSleeper | src/_time.cpp:49-71 | only a tick that reaches its wake-up time wakes a sleeper, and such a tick does |
| KernelTime.SleeperIsUp | src/_time.cpp:8-71 | over any run ending with a tick, a sleeper is asleep up to it and up after it exactly when it is the first tick to reach the alarm |
| KernelTime.WakesOnTheTick | src/_time.cpp:8-71 | over any run, a sleeper of d ticks is asleep up to a tick and up after it exactly when that is its release tick, wrapped alarms included |
| KernelTime.SleepLasts | src/_time.cpp:26-71 | from the call on, a sleep ends on its release tick and no other, which is the d-th exactly when d is not clamped and fits the clock, or the clock stands at its last value |
| KernelTime.SleepThenRun | src/_time.cpp:8-71 | a thread that sleeps and is not killed is alive and ready or running right after its release tick, and with k threads then ahead of it runs within 2(k+1) further ticks |
| KernelTime.TimedWaitSetsDeadline | src/_sem.cpp:69-83 | a blocking timed wait leaves the live caller queued, off the processor, with the deadline the clock and the duration give in 64 bits |
| KernelTime.TickAndDeadline | src/_time.cpp:49-62 | a tick ends a timed wait exactly when it reaches the deadline |
| KernelTime.WaitsForTheTick | src/_time.cpp:49-62 | over any run through which it stays queued, a tick ends a timed wait exactly when it is the first to reach the deadline |
| KernelTime.TimerEndsWait | src/_time.cpp:8-71 | the timer ends a timed wait of d ticks on its release tick and no other: on the d-th exactly when the sum fits or the clock stands at its last value, otherwise on the first |
| KernelTime.TimesOutOnTheTick | src/_sem.cpp:46-129 | over any run to the release tick in which the thread is not killed, a timed wait ends by a signal or deletion before it or on exactly that tick, and owes or has returned the answer of that cause |
| KernelTime.TimedWaitLasts | src/_sem.cpp:46-129 | the same from the call on |
| KernelTime.TimePasses | h/_time.hpp:33 | the clock moves with ticks only |
| KernelRuns.FinishedForGood | src/_context.cpp:14-78 | a thread finishes only by a kill of it or its own exit, stays finished, never runs again and keeps its body; it disappears only after it has finished, and what is gone stays gone |
| KernelRuns.LiveUntilKilled | src/_context.cpp:14-78 | over any run, a thread that neither exits nor is killed stays alive |
| Kernel.Kernel.constructor | h/_thread.hpp:106-110 | the kernel starts with the main thread running and the invariant in force |
| Kernel.Kernel.Put | src/_scheduler.cpp:13-16 | the thread is the last of the ready queue |
| Kernel.Kernel.Get | src/_scheduler.cpp:8-11 | the first of the ready queue, which loses it; nothing from an empty one |
| Kernel.Kernel.SetThreadsSemStatus | h/_thread.hpp:160-177 | status and the run state that goes with it; no change for a finished or unknown thread |
| Kernel.Kernel.InsertOrderedAsleep | h/_time.hpp:51-57 | ordered insertion by wake-up time; an unknown thread is not inserted |
| Kernel.Kernel.DeleteFinished | src/_context.cpp:37-63 | the iteration leaves what the specification of dispatch leaves |
| Kernel.Kernel.Continue | src/_sem.cpp:66-93 | the selected thread finishes the system call it was suspended in: answer stored, semaphore, status and wake-up time reset |
| Kernel.Kernel.Dispatch | src/_context.cpp:22-45 | the whole state after a context switch is the one the step theory reasons about |
| Kernel.Kernel.Exit | src/_context.cpp:14-20 | the exit step, with the invariant kept |
| Kernel.Kernel.ThreadDispatch | src/_context.cpp:22-45 | the dispatch step, which yields as `KernelSteps.DispatchYields` says, with the invariant kept |
| Kernel.Kernel.SubtleKill | src/_context.cpp:65-78 | only the parent kills: the code returned and the kill step, with the invariant kept |
| Kernel.Kernel.CreateThread | h/_thread.hpp:92-117 | a fresh identity and the create step of `KernelSteps.CreateMeaning`, with the invariant kept |
| Kernel.Kernel.Unblock | src/_sem.cpp:104-114 | the first waiter, and nothing else, leaves its lists for the ready queue |
| Kernel.Kernel.SemSignal | src/_sem.cpp:95-102 | the signal step, with the invariant kept; 1 exactly when a waiter was woken |
| Kernel.Kernel.UnblockAll | src/_sem.cpp:131-135 | the loop terminates and reaches the drained state |
| Kernel.Kernel.SemClose | h/_sem.hpp:34-39 | the close step, with the invariant kept |
| Kernel.Kernel.SemOpen | h/_sem.hpp:28-32 | the open step for every 64-bit value; the invariant is kept exactly for values below 2^63 |
| Kernel.Kernel.SemWait | src/_sem.cpp:35-67 | the wait step, blocking or not, whose answer is that of `KernelSteps.WaitAnswers`, with the invariant kept |
| Kernel.Kernel.SemTimedWait | src/_sem.cpp:46-93 | the timed-wait step, blocking or not, whose answer is that of `KernelSteps.WaitAnswers`, with the invariant kept |
| Kernel.Kernel.QueueWithDeadline | src/_sem.cpp:69-81 | the running thread in the queue and, in wake-up order, on the sleep list, with the state the step theory reasons about |
| Kernel.Kernel.TimeSleep | src/_time.cpp:26-42 | the sleep step with the clamped duration, with the invariant kept |
| Kernel.Kernel.UnblockedByTime | src/_sem.cpp:116-129 | a timed waiter leaves both lists, the unit returns, and it reads TIMEOUT; nothing happens to any other thread |
| Kernel.Kernel.WakeThreadUp | src/_time.cpp:54-71 | the wake-up of one thread, in each of its branches |
| Kernel.Kernel.WakeAsleepThreadsUp | src/_time.cpp:44-47 | the iteration over the changing sleep list reaches the state the specification describes |
| Kernel.Kernel.TimerInterrupt | src/_time.cpp:8-19 | the tick step, with the invariant kept |
| BoundedBuffer.RingArray.constructor | test/buffer.cpp:3-5 | an empty ring with one slot more than the capacity |
| BoundedBuffer.RingArray.Store | test/buffer.cpp:37 | the value is in the tail's slot and no other slot or position changes |
| BoundedBuffer.RingArray.MoveTail | test/buffer.cpp:38 | the tail is one slot on, round the ring |
| BoundedBuffer.RingArray.Read | test/buffer.cpp:50 | the value in the head's slot |
| BoundedBuffer.RingArray.MoveHead | test/buffer.cpp:51 | the head is one slot on, round the ring |
| BoundedBuffer.RingArray.Count | test/buffer.cpp:66-73 | the number of steps below the ring's size that lead from head to tail, going round |
| BoundedBuffer.DistanceIsCount | test/buffer.cpp:66-73 | a number below the ring's size leads from head to tail exactly when it is the one both branches of `getCnt` compute |
| BoundedBuffer.NextSem | src/_sem.cpp:35-102 | what any step of the kernel does to a semaphore nobody waits on with a timeout |
| BoundedBuffer.CountIsUnread | test/buffer.cpp:66-73 | the computed distance is the number of values stored and not taken, despite wrap-around |
| BoundedBuffer.TailSlotIsFree | test/buffer.cpp:34-38 | with room for one more value, the slot about to be written holds no unread value |
| BoundedBuffer.SupplyAfter | test/buffer.cpp:32-79 | units left plus units held change only with a signal and with the statement that uses a unit up, whatever the kernel does in between |
| BoundedBuffer.AccountsAfter | test/buffer.cpp:32-79 | the accounts of the four semaphores balance after every action: space, items, one holder per mutex |
| BoundedBuffer.OneAtATime | test/buffer.cpp:36-39 | two threads inside the section of one mutex are the same thread |
| BoundedBuffer.ActKeepsInv | test/buffer.cpp:32-79 | every statement of every thread, and every step of the kernel in between, is defined and keeps the buffer's invariant |
| BoundedBuffer.ConstructorEstablishes | test/buffer.cpp:3-10 | the constructor establishes the invariant for an empty buffer, whatever the array held, exactly when the capacity is not negative |
| BoundedBuffer.RefinesFifo | test/buffer.cpp:32-79 | moving the tail enqueues and there is room; moving the head dequeues the oldest value and that is what `get` returns; `getCnt` computes the exact length; nothing else changes the queue |
| BoundedBuffer.UnreadSlotsAreSafe | test/buffer.cpp:37-38 | no action overwrites a slot that holds an unread value |
| BoundedBuffer.EveryRunIsFifo | test/buffer.cpp:32-79 | in every interleaving of any number of threads, the values taken are a prefix of the values stored, neither history is rewritten, and never more than the capacity is unread |
| SharedBuffer.SharedBuffer.constructor | test/buffer.cpp:3-10 | the array and the four semaphores opened in the kernel are the constructed buffer, with the invariant in force |
| SharedBuffer.SharedBuffer.CallPut | test/buffer.cpp:34 | entering `put` is that action, with the invariant kept |
| SharedBuffer.SharedBuffer.CallGet | test/buffer.cpp:46 | entering `get` is that action, with the invariant kept |
| SharedBuffer.SharedBuffer.CallCount | test/buffer.cpp:63 | entering `getCnt` is that action, with the invariant kept |
| SharedBuffer.SharedBuffer.PutOn | test/buffer.cpp:36-41 | each statement of `put` on the array and the kernel is the action the theorems are about, with the invariant kept |
| SharedBuffer.SharedBuffer.GetOn | test/buffer.cpp:48-56 | each statement of `get` is that action; the last one returns the result `BufferCalls` speaks of |
| SharedBuffer.SharedBuffer.CountOn | test/buffer.cpp:64-78 | each statement of `getCnt` is that action; the last one returns the result `BufferCalls` speaks of |
| SharedBuffer.SharedBuffer.Other | test/buffer.cpp:32-79 | whatever else the kernel does in between is that action and keeps the buffer's invariant |
| BufferCalls.EveryStatementCounts | test/buffer.cpp:32-79 | a call of `put` or `get` ends after five statements of the caller's own and a count after four; nothing anybody else does brings it closer or sets it back |
| BufferCalls.PutStoresArgument | test/buffer.cpp:32-38 | over any run from the call on, the first time the caller of `put(v)` moves the tail it is over v |
| BufferCalls.PutTakesEffectOnce | test/buffer.cpp:32-42 | over any run from the call of `put(v)` to its return, exactly one step of the caller enqueues, it enqueues v, and nothing else the caller does touches the queue |
| BufferCalls.GetHandsOut | test/buffer.cpp:50-56 | over any run, a thread that moves the head returns from its `get` with the value that move took, the oldest unread at that step, whatever others do in between |
| BufferCalls.GetTakesEffectOnce | test/buffer.cpp:44-57 | over any run from the call of `get` to its return, exactly one step of the caller dequeues and the result is the value it dequeued |
| BufferCalls.CountIsExactOnce | test/buffer.cpp:59-79 | over any run, `getCnt` changes nothing and returns the exact number of unread values at one moment between its call and its return |
| BufferCalls.StoredComesFromPut | test/buffer.cpp:32-38 | in any run of a new buffer, the k-th value stored is the argument of the call whose caller moved the tail over it |
| BufferCalls.GetReturnsWhatPutWasGiven | test/buffer.cpp:32-57 | in any run of a new buffer, the `get` that takes the k-th value returns the argument of the `put` that stored the k-th |
| BufferProgress.MutexesProgress | test/buffer.cpp:36-76 | if somebody waits for a mutex, some thread inside is queued on none of the four semaphores, because the head mutex is taken before the tail mutex |
| BufferProgress.FreeThreadsRun | test/buffer.cpp:32-79 | a live thread inside that the buffer does not hold up is running or ready, unless it suspended itself elsewhere |
| BufferProgress.NoDeadlock | test/buffer.cpp:32-79 | when every thread inside is queued, nobody waits for a mutex, waiting for space means the buffer is full and waiting for an item means it is empty |
| BufferProgress.ActKeepsScheduled | test/buffer.cpp:32-79 | only threads that the scheduler can select are ever inside |
| BufferProgress.NeverStuck | test/buffer.cpp:32-79 | at every point of every run in which nobody inside was killed or has exited, some thread inside can proceed, or all inside wait for space in a full buffer, or all wait for an item in an empty one, or nobody is inside |

## Left out

- Threads and semaphores are records in maps and their identities are never used twice. That the memory of a deleted thread can be handed out again, and that a parent pointer can dangle, is not modelled; validity by magic number is membership in the map.
- `numOfChildren`, `numOfTimedWaiting`, `numOfThreadsAsleep`, `allSemaphores`, `numOfAllSemaphores`, thread numbers and the count of system threads: statistics that no decision depends on. `numOfTimedWaiting` is also written after a wait resumes, possibly on a deleted semaphore.
- The context switch itself, registers, traps and control registers: their effect is that `running` changes and the selected thread finishes its system call.
- The kernel's lists of threads are sequences with the operations of `ListSpec`; `LinkedList` proves the pointer code of those operations separately, and neither is stored in the word-level heap.
- Node allocation in the list is assumed to succeed, as the source assumes; the memory of removed nodes is not tracked.
- LinkedList.List.ForeachWhileRemoving: stated for the one kind of callback the kernel passes, which removes the visited element, and a condition on elements that does not change meanwhile; `foreach` and other callbacks are not modelled. The two loops in the kernel, whose callbacks also change the threads, are `Kernel.Kernel.DeleteFinished` and `Kernel.Kernel.WakeAsleepThreadsUp`.
- KernelDispatch.TryWaitThenSignal: try-wait is not a step of the runs, because a single one without a unit breaks the semaphore law for good.
- KernelRuns.RunsNeverStick: the main thread is assumed never to block, sleep or exit, as its loop in `src/main.cpp:30-33` does not; every other thread is assumed to use live semaphore handles, and the error codes for null handles and null threads in the system-call wrappers are not modelled.
- KernelRuns.UnitsAreConserved: `val` is an unbounded integer after the constructor's conversion; that 2^63 signals in a row would overflow it is not modelled.
- BoundedBuffer.EveryRunIsFifo: the destructor is left out, and nobody but the buffer's own operations touches its four semaphores. The C++ `int` overflow of `_cap + 1` at the largest `int` is not modelled, and a negative capacity is modelled as an array without slots. `tail = (tail + 1) % cap` and the body of `getCnt` between its waits are one statement each; both are protected by the mutexes they are executed under.
- The console, its threads and rings, the printer, the C and C++ wrappers, periodic threads and the test programs other than the buffer.

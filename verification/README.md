# A verified model of the RT-Thread 3.1.5 kernel core

This project models the scheduling and waiting state machine of the kernel (`scheduler.c`, `thread.c`,
`timer.c`, `clock.c`, `ipc.c`), its three heap managers (`mem.c`, `memheap.c`, `slab.c`), the formatter
`rt_vsnprintf` (`kservice.c`), the flash page splitter of `applications/w25qxx.c`, and the circular lists of
`rtservice.h` on which the kernel is built. Events, message queues and the heap managers are switched off in the
shipped `rtconfig.h`; they are modelled as written.

`dafny verify dfyconfig.toml` checks the whole project.

## How the code is read

- One region that runs with interrupts disabled is one method. A run is any interleaving of methods.
- A call that blocks is cut at `rt_schedule()`. The first part returns `Blocked` or `Waits`; the second part
  (`...Return`, `...Again`) belongs to the same call and is what the thread does when it is scheduled again.
  `resched` means that the caller goes on to `rt_schedule()`.
- Threads, timers, blocks and queue nodes live in classes whose fields the methods update as the C code does.
  Links are maps from addresses to links; the sequence that a ring holds is a ghost view, and `Valid()` ties
  the links to it.
- Sizes, ticks and offsets are mathematical integers. Where the 32-bit, 16-bit or 8-bit width matters the
  wrap-around is written out.
- Memory is offsets. In `mem.c` and `memheap.c` the payload bytes are modelled too: a header write overwrites
  the bytes where it lies, so "no live payload changes" is a statement about every such write.
- Callers' obligations are those of the source's assertions: a pointer given back is live or NULL, a thread
  that is started is in its initial state, a period is below half the tick range. A thread inside a blocked call
  first returns from it.

## Modules

| module | what it holds |
|---|---|
| Words, Lists, Ids | 32-bit rounding; sequences as ring contents; thread ids and error codes |
| Ring, Nodes | `rtservice.h`: the ring links and what each list function does to them; the nodes of threads |
| Bits, ReadyTable | `__rt_ffs` and the one- and two-level ready bitmaps |
| Threads | the scheduler's invariants and what each elementary move keeps of them |
| Locks | semaphores, mutexes, blocked calls, and priority inheritance |
| Kernel, Runs, Cases | the state machine itself; whole runs, round robin, the locked scheduler; runs from the start to the states in which a call misleads |
| Timer | the skip list, starts, stops, expiry, and runs of the clock |
| WaitQueue, Waiting | wait lists, timed waits and deadlines of the queues below |
| TimedWait | a wait list together with the timers of its threads |
| Event, Mailbox, MessageQueue | event objects, mailboxes, message queues |
| Blocking, ObjectCases | calls on these objects together with the scheduler lock; runs to the states in which a call misleads or a wake-up is lost |
| Blocks, SystemHeap, MemHeap | block layouts and memory; `mem.c`; `memheap.c` |
| Pages, Slab | the page allocator and the zone allocator of `slab.c` |
| Format | `print_number` and `rt_vsnprintf` |
| Flash | page program, sector erase, unchecked write, and write |

## Main results

- Every interleaving of scheduler, thread, semaphore and mutex steps, each step doing what `Runs.Taken` says, keeps
  the rings, states, bitmap, masks and timers consistent, up to a call that blocks although its caller is in a wait
  list already; no such call exists in runs in which nobody blocks under a locked scheduler or detaches itself
  (`Runs.Run`, `Cases.RunFromStart`). Under an unlocked scheduler a take that blocked succeeds exactly when it was
  granted, and units of a semaphore are conserved (`Runs.MutexTakeResumed`, `Runs.SemTakeResumed`).
- While no thread takes a second mutex, an owner is at least as urgent as every waiter, and after the last release it
  is back at its own priority, through time-outs, aborts and hand-overs (`Runs.Run`, `Kernel.System.MutexRelease`); a
  release moves nobody in the ready lists but the waiter it wakes and an owner whose priority changes; the scheduler
  therefore never runs a thread less urgent than one that waits for a READY owner's mutex that passes priority on
  (`Kernel.System.Schedule`).
- The skip-list search lands where a linear scan would while nothing is more than 3 ticks overdue, and the
  bound is exact; with a check on every tick timers fire exactly when due, whatever threads do to other timers
  between the ticks, and a timer that no timeout function acts on does what it would do by itself
  (`Timer.TimerList.Run`).
- After every send no waiter of an event is left whose request the event meets, read bit by bit, and every waiter
  woken got what an immediate receive would have got at that moment (`Event.EventObject.Send`). While threads wait on
  a mailbox or a message queue, every word, message, free slot or free node is spoken for by a woken thread that has
  yet to look; every operation keeps that, but for the detach of a woken thread (below). Both are first-in first-out
  across their split critical sections.
- A timed wait on a mailbox or a message queue that nobody serves ends exactly as many ticks after the call as its
  timeout says, through spurious wake-ups and whatever other threads and timers do (`TimedWait.TimedList.WaitOut`,
  `TimedWait.TimedList.InTime`).
- The heap managers keep their two views of the same blocks in agreement, merge maximally, account exactly,
  never hand out live memory nor more of it than they must, and a free undoes an allocation.
- `rt_vsnprintf` stores exactly the prefix that fits of a text in which every conversion reads back as its argument
  (`Format.Vsnprintf`, `Format.PutConversion`), and the flash splitter never crosses a page.

Where the code does not do what its callers would expect, the model keeps the code, gives the input, and states the
exact condition for all inputs:

- a blocking take of an object that is not free goes on at once with a false success if and only if the scheduler
  is locked (`Runs.MutexTakeAtOnce`, `Runs.SemTakeAtOnce`; from the start of the kernel `Cases.LockedMutex`,
  `Cases.LockedSemaphores`);
- a blocking call keeps the kernel valid if and only if its caller is READY, or SUSPENDed in no list
  (`Kernel.System.SemTake`, `Kernel.System.MutexTake`), and the links represent lists if and only if its node was
  in none (`Nodes.RelinkKeepsRings`, input `Nodes.TwoSemaphores`); `rt_critical_level() == 0` before the call is
  enough (`Runs.Run`);
- a thread that waits for a semaphore, a mutex or an event and is resumed from outside reports a false success, and
  under an unlocked scheduler no other thread does (`Runs.MutexTakeResumed`, `Runs.SemTakeResumed`,
  `Event.EventObject.RecvReturn`; inputs `Cases.ForcedMutex`, `ObjectCases.ForcedEvent`);
- a detached thread leaves the mutexes it owns with itself as their owner, in every later state of every run
  (`Kernel.System.Detach`, `Runs.Run`; input `Cases.OrphanedForever`);
- a detached thread takes a wake-up of a mailbox or a message queue with it if and only if it was woken and has not
  looked, others wait behind it, and there are as many items as woken threads (`Mailbox.Box.Detach`,
  `MessageQueue.Queue.Detach`; inputs `ObjectCases.LostMail`, `ObjectCases.LostMessage`);
- a receive or send on an event, a mailbox or a message queue leaves a wait list that is not valid, and on an event
  reports a false success, if and only if it has to wait and the scheduler is locked before the call
  (`Blocking.RecvEvent`, `Blocking.RecvMail` and the three beside it; inputs `ObjectCases.LockedEvent`,
  `ObjectCases.LockedMail`, `ObjectCases.LockedMessages`);
- a round of the timer check leaves the timer that fired flagged active and in no list if and only if it was
  periodic, was neither started nor stopped by its timeout function, and is one-shot when that returns; only a start
  or a stop mends the flag (`Timer.TimerList.FireHead`, `Timer.TimerList.Run`; input `Timer.OneShotInside`);
- the remaining time of a wait is wrong once a thread runs again more than 2^31 ticks after its time-out
  (`Waiting.RemainsExact`);
- `mem.c` skips a block that fits exactly at the very end (`SystemHeap.OnlyExactTailIsMissed`), rounds requests
  of more than 2^32 - 4 bytes to zero (`SystemHeap.RequestHonoured`), and does not end its search on a heap
  smaller than a minimal block (`SystemHeap.TinyHeapSearchNeverStops`);
- `rt_memheap_realloc` tears the heap for sizes above 2^32 - 16 exactly when the wrapped sum lets them grow in place
  (`MemHeap.Heap.Realloc`, input `MemHeap.WrappedGrowth`), and the last three sizes shrink the block
  (`MemHeap.ResizeHonoured`);
- slab blocks whose size is a power of two above the page size are aligned if and only if their zone is, the others
  always (`Slab.Allocator.BlockAligned`, `Slab.Allocator.Malloc`; input `Slab.TwoPagesMisaligned`);
- `rt_vsnprintf` writes outside its buffer exactly when the write position comes around the address space
  (`Format.Vsnprintf`, input `Format.WideFieldWritesBelow`);
- `W25QXX_Write` over a range that is not blank erases sector 0, whatever the sector (`Flash.Chip.Write`,
  `Flash.FirstSectorLost`).

## Model

| member | source | states |
|---|---|---|
| Ring.ListStore.Init | rt-thread/include/rtservice.h:47-50 | The head becomes an empty ring of its own; nothing else changes. |
| Ring.ListStore.InsertAfter | rt-thread/include/rtservice.h:58-65 | Inserting behind position k of a ring yields the ring of the same nodes, in order, with the new node at k + 1; only the three nodes touched change their links. |
| Ring.ListStore.InsertBefore | rt-thread/include/rtservice.h:73-80 | Inserting before position k + 1 yields the same ring as inserting behind position k; before the head is at the end of the list. |
| Ring.ListStore.Remove | rt-thread/include/rtservice.h:86-92 | The node leaves its ring, the others keep their order, and the node is a ring of its own, so that removing it again is harmless. |
| Ring.ListStore.RemoveDetached | rt-thread/include/rtservice.h:86-92 | Removing a node that is in no list changes no link at all. |
| Ring.ListStore.IsEmpty | rt-thread/include/rtservice.h:98-101 | True exactly for the head of a ring without nodes. |
| Ring.ListStore.Len | rt-thread/include/rtservice.h:107-118 | The walk along `next` ends, and counts the nodes of the ring. |
| Ring.LinkAfterRing | rt-thread/include/rtservice.h:58-65 | Four link assignments keep both directions of the ring consistent. |
| Ring.UnlinkRing | rt-thread/include/rtservice.h:86-89 | Two link assignments keep both directions of the remaining ring consistent. |
| Bits.FfsIsLowest | rt-thread/src/kservice.c:1294-1308 | For every 32-bit word the table look-up returns one more than the index of the lowest set bit, and 0 for 0. |
| Bits.BitUpdate | rt-thread/src/scheduler.c:305-308 | Setting or clearing the mask of priority p changes bit p of the ready group and no other bit. |
| Threads.LookupFindsTop | rt-thread/src/scheduler.c:208-220 | If bit p is set exactly for non-empty ready lists, the bitmap look-up finds the list that a linear scan over all priorities finds first. |
| ReadyTable.LookupIsLeast | rt-thread/src/scheduler.c:211-214 | With 256 priorities the two-level look-up yields the least ready priority, as a linear scan would. |
| ReadyTable.Table.Mark | rt-thread/src/scheduler.c:305-308 | After an insertion the two levels represent the ready set with that priority added. |
| ReadyTable.Table.Clear | rt-thread/src/scheduler.c:347-353 | After the last thread of a priority left, the two levels represent the ready set without it; the group bit goes only with the last priority of its byte. |
| ReadyTable.Table.Highest | rt-thread/src/scheduler.c:211-214 | The priority returned is ready and no ready priority is smaller. |
| Kernel.System.constructor | rt-thread/src/scheduler.c:123-182 | The system with only the idle thread satisfies the scheduler, object and call invariants, and every priority-ordered mutex passes priority on. |
| Kernel.System.Insert | rt-thread/src/scheduler.c:275-312 | The thread is READY, at the end of the ready list of its priority, and the bits of its mask are set. |
| Kernel.System.Remove | rt-thread/src/scheduler.c:321-361 | The thread leaves its ring; its mask is cleared from the group exactly when the ready list of its priority became empty. |
| Threads.Enters | rt-thread/src/scheduler.c:275-312 | Inserting an unlinked thread keeps all scheduler invariants: rings and nodes agree, READY threads are in the list of their priority, bit p set iff list p non-empty, masks match priorities, armed timers belong to SUSPENDed threads. |
| Threads.Leaves | rt-thread/src/scheduler.c:321-361 | Removing a READY or SUSPENDed thread and giving it another state keeps the same invariants. |
| Kernel.System.Schedule | rt-thread/src/scheduler.c:194-266 | Unlocked, the thread that runs is READY and the head of the lowest-numbered non-empty ready list, and at least as urgent as every thread that waits for a READY owner's mutex that passes priority on; locked, the current thread stays. |
| Kernel.System.NoInversion | rt-thread/src/scheduler.c:204-227 | When the head of the top list runs, nobody who waits for a READY owner's mutex that passes priority on is more urgent than it: priority inheritance bounds inversion. |
| Kernel.System.EnterCritical | rt-thread/src/scheduler.c:366-381 | The lock nests by one and the invariants hold. |
| Kernel.System.ExitCritical | rt-thread/src/scheduler.c:386-411 | The nest goes down but never below zero; scheduling is requested exactly when it reaches zero. |
| Kernel.System.Init | rt-thread/src/thread.c:135-200 | A new INIT thread at its initial priority joins no list; every invariant and every mutex discipline is kept. |
| Kernel.System.Startup | rt-thread/src/thread.c:266-298 | An INIT thread becomes READY at its initial priority at the end of that list, and scheduling is requested. |
| Kernel.System.Detach | rt-thread/src/thread.c:308-349 | The thread is CLOSEd, leaves whatever list it is in, its timer is stopped, its blocked call is forgotten and a unit it was woken with is lost; a mutex it owns keeps it as its owner. The kernel stays valid if and only if the thread is not the idle thread. |
| Kernel.System.Yield | rt-thread/src/thread.c:455-489 | The current thread, if READY, is last in its ready list afterwards, and nobody else moves; scheduling is asked for iff it was not alone there, otherwise nothing changes. |
| Threads.RoundRobin | rt-thread/src/thread.c:455-489 | After k rotations of a ready list the thread that was at position k is first; after as many as there are threads the order is restored. |
| Runs.TakeTurns | rt-thread/src/thread.c:455-489 | n yields among the n threads of the top priority run each of them once, in list order, and leave the ready lists as they were. |
| Kernel.System.Sleep | rt-thread/src/thread.c:498-527 | A READY caller is SUSPENDed in no list with its timer armed; one SUSPENDed already, its scheduler being locked, only has its timer set anew. The kernel stays valid if and only if the caller is READY or SUSPENDed and not the idle thread. |
| Kernel.System.SleepReturn | rt-thread/src/thread.c:498-527 | A sleep that timed out reports success; another error is left in place; also for a caller that goes on at once under a locked scheduler. |
| Kernel.System.ChangePriority | rt-thread/src/thread.c:636-678 | Priority and mask change together; a READY thread moves to the end of the list of the new priority, any other thread stays where it is. |
| Threads.Shifts | rt-thread/src/thread.c:636-678 | Moving a READY thread between ready lists keeps the bitmap exact in both lists. |
| Kernel.System.Control | rt-thread/src/thread.c:636-678 | The priority change keeps all invariants, and every mutex that the thread neither owns nor waits for keeps passing priority on. |
| Kernel.System.Suspend | rt-thread/src/thread.c:712-745 | Only a READY thread is suspended, else an error is returned and nothing changes; it leaves its ready list, and its timer is stopped. The kernel stays valid if and only if the thread is not the idle thread. |
| Kernel.System.Resume | rt-thread/src/thread.c:754-788 | Only a SUSPENDed thread is resumed, else an error is returned and nothing changes; it becomes READY at the end of the list of its priority and its timer is stopped. Its blocked call is marked as forced if and only if it was in the wait list of that call. |
| Kernel.System.Awaken | rt-thread/src/thread.c:754-788 | The resume that IPC calls make with interrupts already disabled: the thread leaves its wait list for the end of its ready list. |
| Kernel.System.Expire | rt-thread/src/thread.c:796-818 | A thread whose timer expires is SUSPENDed, so the assertion never fails; it leaves its wait list and becomes READY with a timeout error. |
| Kernel.System.ArmedIsSuspended | rt-thread/src/thread.c:796-802 | In every valid state an armed thread timer belongs to a SUSPENDed thread. |
| Kernel.System.Tick | rt-thread/src/clock.c:67-89 | The slice of the current thread counts down on 32-bit words; at zero it is refilled, and the thread yields iff it has peers: if READY it is then last in its ready list, nobody else moving. |
| Kernel.System.ListSuspend | rt-thread/src/ipc.c:83-129 | A caller that can wait is SUSPENDed and linked at the end (FIFO) or before the first waiter of lower urgency (PRIO); all other wait lists stay. |
| Threads.SlotKeepsOrder | rt-thread/src/ipc.c:102-124 | Linking at that slot keeps a priority-ordered wait list ordered. |
| Kernel.System.ListResume | rt-thread/src/ipc.c:140-153 | The first waiter leaves the list and is READY at the end of the list of its priority, its timer stopped. |
| Kernel.System.ResumeAll | rt-thread/src/ipc.c:163-191 | The wait list ends up empty, every thread that was in it is READY with an error, they stand behind the others in the ready lists of their priorities in the order in which they waited, exactly their timers are stopped, and all other wait lists stay. |
| Kernel.System.SemTake | rt-thread/src/ipc.c:326-396 | With a unit there the value goes down and the call succeeds; without, a zero timeout fails and changes nothing, otherwise the caller waits at its place with its timer armed iff the timeout is positive. The kernel stays valid if and only if the caller has not to wait, or is READY or SUSPENDed in no list. |
| Kernel.System.SemTakeReturn | rt-thread/src/ipc.c:398-411 | A caller that neither waits any more nor was resumed by force succeeds exactly if a release gave it a unit; the others succeed without one. The ledger of units goes down exactly with a unit. |
| Kernel.System.SemRelease | rt-thread/src/ipc.c:433-481 | With waiters the first one is woken with the unit and the value stays; without, the value goes up, or the call fails at the maximum. Each success adds one unit to the ledger, unless it goes to a waiter whose call returned already. |
| Kernel.System.SemReset | rt-thread/src/ipc.c:492-524 | All waiters fail with an error and go, in order, to the ends of their ready lists, exactly their timers being stopped, and the value becomes the argument truncated to 16 bits. |
| Kernel.System.MutexTake | rt-thread/src/ipc.c:658-769 | All branches: nested hold up to its maximum, a free mutex taken with the priority recorded, a zero timeout refused, all three without any change to lists and timers, or the owner raised to the priority of the caller and the caller queued, other threads at most changing priority. The kernel stays valid if and only if the caller has not to wait, or is READY or SUSPENDed in no list; an orderly take keeps inheritance. |
| Kernel.System.MutexTakeReturn | rt-thread/src/ipc.c:771-795 | A caller that neither waits any more nor was resumed by force succeeds exactly if it owns the mutex; the others succeed without owning it. |
| Kernel.System.RaiseAndBlock | rt-thread/src/ipc.c:740-769 | Afterwards the owner is at least as urgent as before and as the new waiter, and the waiter is at its slot. An owner that is READY and less urgent goes to the end of the ready list of the new priority, any other owner stays where it is; the caller leaves its ready list, its timer is armed iff the time is bounded, and nobody else moves. |
| Kernel.System.MutexRelease | rt-thread/src/ipc.c:805-912 | Only the owner may release; the last release restores the recorded priority and hands the mutex to the first waiter with that waiter's priority recorded, or frees it. Then a thread whose priority is the recorded one stays where it is in its ready list, a READY one whose priority changes goes to the end of the list of the other; the waiter goes to the end of the ready list of its priority, its timer and no other being stopped; all other threads keep their places. Where inheritance holds, the former owner is back at its own priority and every mutex still passes priority on. |
| Locks.BoostedJoined | rt-thread/src/ipc.c:741-752 | A waiter that joins after the owner was raised leaves the owner at least as urgent as every waiter and the list sorted. |
| Locks.BoostedShrinks | rt-thread/src/thread.c:796-818 | A waiter that times out or is aborted leaves a sorted list and an owner at least as urgent as the rest. |
| Locks.BoostedHanded | rt-thread/src/ipc.c:857-883 | The first waiter is the most urgent one, so after the hand-over the new owner is at least as urgent as every remaining waiter. |
| Locks.InheritsJoined | rt-thread/src/ipc.c:741-769 | A blocking take of one mutex keeps inheritance for every mutex whose contenders contend for no other. |
| Locks.InheritsHanded | rt-thread/src/ipc.c:848-883 | A hand-over of one mutex, its owner back at its own priority, keeps inheritance for every mutex. |
| Locks.OrderlyAll | rt-thread/src/ipc.c:658-720 | A thread that owns no other mutex takes in good order: it is at its own priority or owns this very mutex. |
| Runs.Run | rt-thread/src/ipc.c:658-912 | Whole runs of 21 kinds of steps, each of which is really taken: every state follows from the one before as its step says (Runs.Taken). The kernel is valid in every state up to a call that blocks although its caller cannot wait, and not valid after it. If no call blocks under a locked scheduler and no thread detaches itself there is none, and every waiter is inside its call. In strict runs, where nobody takes a second mutex and priorities are set only for threads involved with none, every mutex passes priority on and a thread without a mutex is at its own priority. A mutex owned by a thread that is CLOSEd and runs no more is owned by it in every later state, so that nobody who waits for it is ever granted it. |
| Timer.DifferenceOrders | rt-thread/src/timer.c:365-377 | The unsigned 32-bit difference orders a new timer against every pending one rightly as long as no pending timer is more than 3 ticks overdue. |
| Timer.DifferenceExpires | rt-thread/src/timer.c:547-547 | The unsigned difference tells expired from pending timers. |
| Timer.TimerList.Remove | rt-thread/src/timer.c:136-144 | The timer leaves every row, the rows stay sorted, and each sparser row stays part of the next. |
| Timer.TimerList.ScanRow | rt-thread/src/timer.c:356-378 | From any node not due later, the row scan stops where a scan of the whole row would stop. |
| Timer.TimerList.Search | rt-thread/src/timer.c:353-381 | The multi-row search lands in each row where a linear scan of that row would, for every number of levels. |
| Timer.PlacedAtCut | rt-thread/src/timer.c:365-378 | Linking at that place equals insertion by linear scan: before the first timer due later, behind those due at the same time. |
| Timer.PlacedAscending | rt-thread/src/timer.c:365-378 | Insertion keeps a row sorted by due time and, for equal due times, by order of start. |
| Timer.ContainedIsSublist | rt-thread/src/timer.c:390-402 | In a skip list each sparser row is a sublist of the next, in the same order. |
| Timer.TimerList.Insert | rt-thread/src/timer.c:387-402 | The timer enters the bottom row and as many sparser rows as the counter has zero digits (Timer.HeightIs), each at its head. |
| Timer.TimerList.Start | rt-thread/src/timer.c:311-424 | The timer, wherever it was, is placed by linear scan in the rows its height selects, flagged active and due at tick plus period modulo 2^32; all other timers and the sorted rows stay. |
| Timer.TimerList.Stop | rt-thread/src/timer.c:433-457 | An inactive timer gives an error and nothing changes; an active one leaves all rows and the temporary list and becomes inactive. |
| Timer.TimerList.SetTime | rt-thread/src/timer.c:483-485 | The new period is stored; a started timer keeps its due time. |
| Timer.TimerList.NextTimeout | rt-thread/src/timer.c:114-134 | The tick returned is the due time of the earliest timer, and no started timer is due before; without timers it is RT_TICK_MAX. |
| Timer.TimerList.FireHead | rt-thread/src/timer.c:540-580 | One round: the earliest timer fires once, and no longer counts as expired, whether its timeout function restarts, stops, re-modes or leaves it alone, and whatever it does to other timers; of every timer, started or not, due time, period, mode and flag afterwards are what taking it out, the operations of the function in order, and a last start iff it is periodic, active and not started make of it. Its active flag is set although it is in no list afterwards if and only if it was periodic, was neither started nor stopped by its function, and is one-shot when that returns. |
| Timer.TimerList.Check | rt-thread/src/timer.c:522-589 | The check ends with no timer expired; what fired had expired and fired in order of due time and start; a timer that no timeout function acts on has fired once if it was due, and is started again for one period if it is periodic and ended if not, and else is as before; the active flag of a timer that nobody starts or stops is wrong afterwards if and only if it was, or the timer was left one-shot by its own function. |
| Timer.TimerList.Tick | rt-thread/src/timer.c:522-589 | With a check on every tick, whatever fires, fires exactly at the tick at which it is due, and a timer that no timeout function acts on fires at that tick, once, or is not due. |
| Timer.TimerList.Run | rt-thread/src/clock.c:67-89 | Over any sequence of ticks and of starts, stops, period and mode changes by threads between them, every timer that no timeout function acts on does exactly what it would do by itself: same due time, period, mode and flag, and the same times of firing, period after period (Timer.Alone). A started timer that nobody else starts, stops or sets fires exactly when due, never early, or is still pending when its time has not come; whatever fires, fires when due. Active flags are right throughout but for timers left one-shot by their own functions. |
| WaitQueue.FindSlot | rt-thread/src/ipc.c:97-124 | The scan stops behind all waiters of the same or higher urgency, or at the end for a FIFO list. |
| Event.ServeMissesNobody | rt-thread/src/ipc.c:1083-1132 | After a pass over the waiters no request is satisfied by what is left of the set, and each woken thread got just the bits of its request in a set that met the request and that the event held at that moment. |
| Event.ServeLosesNobody | rt-thread/src/ipc.c:1083-1132 | Every waiter is either woken or still waits, and never both. |
| Event.ServeClears | rt-thread/src/ipc.c:1122-1124 | A bit consumed by a CLEAR request is received by nobody served after it. |
| Event.ServedSame | rt-thread/src/ipc.c:1097-1124 | What send stores and clears for a waiter is what an immediate receive at that point of the scan would return and clear. |
| Event.SatisfiedGrows | rt-thread/src/ipc.c:1089-1105 | A request met by a set is met by every larger set. |
| Event.EventObject.constructor | rt-thread/src/ipc.c:944-962 | A new event object has no bits, no waiters and no calls. |
| Event.EventObject.Recv | rt-thread/src/ipc.c:1158-1252 | All branches: empty request refused; served at once if and only if, with AND (1), every bit asked for is in the set, or, without AND and with OR (2), some bit is, receiving exactly the bits asked for that are in the set, which CLEAR (4) and nothing else takes out of it; zero timeout refused, others queued at their slot. No waiter's request is ever met by the set. |
| Event.EventObject.RecvReturn | rt-thread/src/ipc.c:1254-1276 | A thread that a send woke succeeds with exactly the bits of its request in the set that the event held then, which met the request (all of them for AND), otherwise it returns its error and no bits. A thread resumed from outside, and one still in the list because the scheduler was locked, succeed with all bits they asked for whatever the event holds. The object stays valid if and only if the thread waits no more. |
| Event.EventObject.Send | rt-thread/src/ipc.c:1054-1143 | The in-place scan with removal computes the pass over all waiters: same set left, same waiters left, same threads woken in the same order, each with its bits stored and the set that the event held recorded, others untouched. Read bit by bit: the bits sent join the set; then, in list order, a waiter who asks with AND for bits that are all in the set, or with OR for one that is, is woken with the bits asked for that are there, which CLEAR takes out for those behind; the others wait on, and none of them is met by what is left. |
| Event.EventObject.Reset | rt-thread/src/ipc.c:1288-1316 | Every waiter fails with an error, the set is empty, other threads keep their errors. |
| Waiting.RemainsExact | rt-thread/src/ipc.c:1560-1566 | For any number of elapsed ticks the remaining time, computed from them modulo 2^32, is right if and only if they lie at most 2^31 behind the timeout modulo 2^32; for less than 2^32 elapsed ticks that is when the thread runs again at most 2^31 ticks after it timed out. |
| Waiting.Side.Enter | rt-thread/src/ipc.c:1507-1547 | A call blocks at its slot, and its deadline is now plus timeout. |
| Waiting.Side.Recheck | rt-thread/src/ipc.c:1556-1566 | A woken call has exactly the time left until its deadline, or 0 past it, unless it is one of the late calls; which calls are late is stated exactly. |
| Waiting.Side.Reenter | rt-thread/src/ipc.c:1507-1547 | Waiting on after a spurious wake-up leaves the deadline where it was. |
| Waiting.Side.WakeFirst | rt-thread/src/ipc.c:1587-1590 | The first waiter, and only it, joins the threads that were woken and have yet to look. |
| Waiting.Side.AbortAll | rt-thread/src/ipc.c:1783-1786 | Every waiter fails with an error. |
| Mailbox.PutLast | rt-thread/src/ipc.c:1569-1574 | Storing at in_offset appends to the ring contents and keeps in_offset = (out_offset + entry) modulo size. |
| Mailbox.TakeFirst | rt-thread/src/ipc.c:1724-1730 | Reading at out_offset removes the first element of the ring contents and keeps the offset equation. |
| Mailbox.Box.constructor | rt-thread/src/ipc.c:1332-1360 | A new mailbox is an empty queue; the size is truncated to 16 bits. |
| Mailbox.Box.Put | rt-thread/src/ipc.c:1569-1603 | With room the word is appended to the queue, the overflow return is never taken, and a waiting receiver is woken; no wake-up is lost. |
| Mailbox.Box.Take | rt-thread/src/ipc.c:1724-1758 | With mail the first word is returned and removed, and a waiting sender is woken; no wake-up is lost. |
| Mailbox.Box.Send | rt-thread/src/ipc.c:1476-1547 | Appends with room and wakes the first receiver; full and without timeout refused unchanged; full otherwise waits at its slot with deadline now plus timeout. If every word is spoken for by a woken receiver while receivers wait, and dually for senders, it is so afterwards. |
| Mailbox.Box.SendAgain | rt-thread/src/ipc.c:1546-1603 | After a wake-up: an error is returned, or the word is appended. A call that finds no room and waits forever waits on, forever; a timed call that does not run again too late waits on if and only if its deadline is still to come, with exactly the time left, and else gives up; which calls run too late is stated exactly. |
| Mailbox.Box.Recv | rt-thread/src/ipc.c:1631-1702 | Takes the oldest word if there is one and wakes the first sender; empty and without timeout refused; otherwise waits at its slot with deadline now plus timeout. No wake-up is lost. |
| Mailbox.Box.RecvAgain | rt-thread/src/ipc.c:1701-1758 | After a wake-up: an error is returned, or the oldest word is taken. A call that finds nothing and waits forever waits on, forever; a timed call that does not run again too late waits on if and only if its deadline is still to come, with exactly the time left, and else gives up; which calls run too late is stated exactly. |
| Mailbox.Box.Reset | rt-thread/src/ipc.c:1770-1802 | The queue is empty and all receivers and senders fail with an error. |
| MessageQueue.Queue.constructor | rt-thread/src/ipc.c:1824-1874 | All nodes are on the free list, which links each of them once; sizes are aligned and truncated to 16 bits. |
| MessageQueue.BuildFree | rt-thread/src/ipc.c:1857-1865 | The loop links the nodes into one list from the last to the first. |
| MessageQueue.LinkLastFits | rt-thread/src/ipc.c:2131-2142 | Head, tail and links describe the queue with the node appended, and free, queued and in-flight nodes still partition the pool. |
| MessageQueue.LinkFirstFits | rt-thread/src/ipc.c:2242-2248 | The same for a node put in front. |
| MessageQueue.TakeHeadFits | rt-thread/src/ipc.c:2391-2398 | The same when the head leaves the queue for the receiver's hands. |
| MessageQueue.ReleaseFits | rt-thread/src/ipc.c:2414-2416 | The same when a drained node goes back to the free list. |
| MessageQueue.Queue.Alloc | rt-thread/src/ipc.c:2118-2122 | A node leaves the free list and is in flight; the queue stays as it is. |
| MessageQueue.Queue.Fill | rt-thread/src/ipc.c:2124-2127 | Filling a node in flight, outside any critical section, changes no pending message. |
| MessageQueue.Queue.LinkLast | rt-thread/src/ipc.c:2129-2171 | The whole message becomes the last one pending, the overflow return is never taken, and a waiting receiver is woken; no wake-up is lost. |
| MessageQueue.Queue.LinkFirst | rt-thread/src/ipc.c:2239-2277 | The whole message becomes the first one pending, the overflow return is never taken, and a waiting receiver is woken. |
| MessageQueue.Queue.TakeHead | rt-thread/src/ipc.c:2391-2407 | The first pending message is in the receiver's hands, the others stay in order. |
| MessageQueue.Queue.CopyOut | rt-thread/src/ipc.c:2409-2410 | The buffer receives the message that was sent, cut to the buffer or followed by what the cell holds. |
| MessageQueue.Queue.Release | rt-thread/src/ipc.c:2412-2438 | The node is free again, no message is touched, and a waiting sender is woken; no wake-up is lost. |
| MessageQueue.Queue.Send | rt-thread/src/ipc.c:2014-2122 | Too long refused; a free node taken; without one and without timeout refused; otherwise waits with deadline now plus timeout. No pending message changes. |
| MessageQueue.Queue.SendAgain | rt-thread/src/ipc.c:2095-2122 | After a wake-up: an error is returned, or a node is taken. A call that finds no node and waits forever waits on, forever; a timed call that does not run again too late waits on if and only if its deadline is still to come, with exactly the time left, and else gives up; which calls run too late is stated exactly. |
| MessageQueue.Queue.Urgent | rt-thread/src/ipc.c:2200-2234 | Too long or no free node refused, else a node is taken; it never waits. |
| MessageQueue.Queue.Recv | rt-thread/src/ipc.c:2292-2407 | Takes the first pending message into flight; empty and without timeout refused; otherwise waits with deadline now plus timeout. |
| MessageQueue.Queue.RecvAgain | rt-thread/src/ipc.c:2368-2407 | After a wake-up: an error is returned, or the first message is taken. A call that finds nothing and waits forever waits on, forever; a timed call that does not run again too late waits on if and only if its deadline is still to come, with exactly the time left, and else gives up; which calls run too late is stated exactly. |
| MessageQueue.Queue.Reset | rt-thread/src/ipc.c:2451-2499 | Nothing is pending, all waiters fail with an error, and a node in flight stays with its thread, so none is lost or doubled. |
| Blocks.ReleaseCoalesced | rt-thread/src/mem.c:156-194 | Giving a block back leaves no two free neighbours. |
| Blocks.ReleaseBytes | rt-thread/src/memheap.c:531-574 | Exact byte accounting of a release: the payload comes back, and one header for each neighbour merged. |
| Blocks.ReleaseUndoesCarve | rt-thread/src/mem.c:329-348 | In a coalesced layout a freed block merges back into exactly the free block it was carved from. |
| Blocks.ShrinkUndoesGrow | rt-thread/src/memheap.c:330-398 | Shrinking back undoes growing in place. |
| SystemHeap.Heap.Init | rt-thread/src/mem.c:204-257 | The initial header pair, its guard and its sizes; the heap is usable iff at least MIN_SIZE bytes remain. |
| SystemHeap.Heap.PlugHoles | rt-thread/src/mem.c:156-194 | A freed block merges with both free neighbours; next and prev offsets still describe the layout, lfree stays, no live payload byte changes. |
| SystemHeap.Heap.Search | rt-thread/src/mem.c:305-311 | The loop finds the lowest-address free block below the bound that fits, or there is none. |
| SystemHeap.Heap.Malloc | rt-thread/src/mem.c:272-410 | Returns the lowest-address fitting block, or NULL, changing nothing, only for size 0, an oversized request, or when no free block below the bound fits. A block found with room for the request, a header and a minimal block is cut: the part handed out has just the bytes needed and the rest is a free block behind it; any other block is handed out as it is. One live block is added, used_mem grows by exactly its bytes, max_mem is a high-water mark, live payloads are untouched. |
| SystemHeap.Heap.Free | rt-thread/src/mem.c:549-612 | The block and its free neighbours become one free block between the others, which stay as they are; NULL and foreign pointers change nothing; used_mem goes down by the bytes of the block; lfree and live payloads are exact. |
| SystemHeap.Heap.Realloc | rt-thread/src/mem.c:420-515 | All paths: oversized refused, zero frees, NULL allocates, foreign pointer returned, same size kept, shrunk in place, moved. The first min(old, new) payload bytes and all other live blocks survive; a failed move leaves everything as it was. |
| SystemHeap.Heap.SplitUsed | rt-thread/src/mem.c:470-503 | Shrinking in place leaves the block with just the bytes asked for and the rest free behind it, one with a free right neighbour; the layout stays tiled and coalesced, lfree lowest, used_mem exact and every live payload. |
| SystemHeap.FreeUndoesMalloc | rt-thread/src/mem.c:549-612 | rt_free after rt_malloc restores layout, used flags and lfree exactly, from any valid state. |
| SystemHeap.OnlyExactTailIsMissed | rt-thread/src/mem.c:305-307 | The strict bound misses only one thing: a last block that fits exactly; every other fitting block is found. |
| SystemHeap.RequestHonoured | rt-thread/src/mem.c:288-300 | The block handed out holds the request if and only if rounding it up does not wrap 32 bits. |
| SystemHeap.TinyHeapSearchNeverStops | rt-thread/src/mem.c:291-307 | On a heap with less than MIN_SIZE bytes, which stays as init left it, the search bound wraps for every request that is not refused, those rounded to 0 included, and the loop never reaches an end. |
| SystemHeap.WalkTilesHeap | rt-thread/src/mem.c:305-309 | Following next from offset 0 visits the blocks in address order and ends at heap_end: headers and layout are the same blocks. |
| MemHeap.Heap.constructor | rt-thread/src/memheap.c:50-121 | One free block on both rings and the accounting of the two headers. The heap is valid if and only if the pool has room for two items and a byte; below 48 bytes available_size wraps to at least the pool size. |
| MemHeap.Heap.Search | rt-thread/src/memheap.c:167-178 | The walk of the free list finds the first listed block that fits, or no free block of the pool fits. |
| MemHeap.Heap.Alloc | rt-thread/src/memheap.c:136-279 | NULL, with nothing changed, if and only if the aligned size is not below available_size or no free block fits; otherwise the first listed fit, cut to just the bytes needed with a free block behind it iff the rest holds an item and a minimal block, else as it is. Both rings describe the same blocks, available_size goes down by exactly what was taken, max_used_size is the high-water mark, live payloads are untouched. |
| MemHeap.Heap.Free | rt-thread/src/memheap.c:491-591 | The block and its free neighbours become one free block between the others, which stay as they are; the free list changes by exactly those blocks; available_size goes up by the payload and one item for each merge; live payloads are untouched. |
| MemHeap.Heap.GrowInPlace | rt-thread/src/memheap.c:330-399 | The block has just the bytes asked for, and the rest of its free right neighbour is free behind it; both rings, the accounting and the high-water mark follow, and every payload that was live survives. |
| MemHeap.Heap.ShrinkInPlace | rt-thread/src/memheap.c:429-488 | The block has just the bytes asked for, and its tail is free, one with a free right neighbour; both rings and the accounting follow. |
| MemHeap.Heap.Move | rt-thread/src/memheap.c:405-413 | Allocate, copy, free: NULL iff the allocation fails, and then nothing changed; else the old bytes are in the new block and all other live blocks survive. |
| MemHeap.Heap.Realloc | rt-thread/src/memheap.c:281-489 | All paths: zero frees, NULL allocates, grow in place, move, split with or without merge, too little to split. The heap stays valid if and only if the wrapped sum does not let an oversized request grow in place; then the first min(old, new) payload bytes and all other live blocks survive on each path, and a failed grow leaves everything as it was. |
| MemHeap.FreeUndoesAlloc | rt-thread/src/memheap.c:491-591 | Freeing what was just allocated restores the block layout exactly. |
| MemHeap.GrowGuardWraps | rt-thread/src/memheap.c:347-347 | The 32-bit comparison that decides about growing in place agrees with the true one if and only if the sum on its right does not wrap, or the space at hand does not even exceed the wrapped sum. |
| MemHeap.WalkTilesPool | rt-thread/src/memheap.c:208-211 | Following next from the start visits the blocks in address order, covers the pool and ends at the closing item. |
| MemHeap.ReleaseIsRejoined | rt-thread/src/memheap.c:536-574 | Merging left before right, as rt_memheap_free does, gives the same layout as right before left, as plug_holes does. |
| Pages.SamePagesSameRuns | rt-thread/src/slab.c:270-320 | A coalesced page list is determined by its set of free pages. |
| Pages.SpanInRun | rt-thread/src/slab.c:234-268 | Free consecutive pages always lie in one run of the list, so first fit over runs misses nothing. |
| Pages.PageList.Alloc | rt-thread/src/slab.c:234-268 | NULL if and only if no run of free pages is long enough (or none is asked for); otherwise the lowest such pages, and exactly these leave the free set; the list stays sorted, disjoint and coalesced. |
| Pages.PageList.Free | rt-thread/src/slab.c:270-320 | Exactly the freed pages join the free set; the list stays sorted, disjoint and maximally coalesced in every one of the merge cases. |
| Pages.FreeUndoesAlloc | rt-thread/src/slab.c:270-320 | Freeing what was allocated gives back the identical list. |
| Slab.ZoneIndexIsBestFit | rt-thread/src/slab.c:399-457 | The zone index is in range, determines the chunk size, and names the smallest size class that holds the request. |
| Slab.ZoneIndexWaste | rt-thread/src/slab.c:399-457 | From 128 bytes on, rounding wastes less than an eighth of the request, and below that less than 8 bytes. |
| Slab.ZoneIndexAgain | rt-thread/src/slab.c:399-457 | Rounding is idempotent: a chunk size maps to its own class. |
| Slab.FreeListHasHead | rt-thread/src/slab.c:554-566 | When no never-used chunk is left, the count promises a chunk on the free list: the head popped is never null. |
| Slab.TakeFits | rt-thread/src/slab.c:537-566 | Taking a chunk keeps z_nfree = (z_nmax - 1 - z_uindex) + free-list length, and the chunk taken was not live before. |
| Slab.GiveFits | rt-thread/src/slab.c:825-837 | Giving a live chunk back keeps the same equation, and only that chunk stops being live. |
| Slab.WholeZoneFree | rt-thread/src/slab.c:849-850 | A zone that counts z_nmax free chunks has no live chunk. |
| Slab.PowerTest | rt-thread/src/slab.c:633-634 | The bit test of rt_malloc holds exactly for the powers of two, which decide the chunk offset. |
| Slab.PowersAligned | rt-thread/src/slab.c:629-636 | In every zone that fits, chunks whose size is a power of two lie at multiples of it within the zone. |
| Slab.NewZoneFits | rt-thread/src/slab.c:623-646 | A fresh zone satisfies the zone invariant, of which it is part that no further chunk would fit, with exactly its first chunk live. |
| Slab.LiveBlocksApart | rt-thread/src/slab.c:476-665 | Live chunks and large blocks of any zones never overlap. |
| Slab.TakeStep | rt-thread/src/slab.c:537-566 | Taking from the head zone keeps the allocator invariant: a zone is in the list of its index iff it has free chunks and is not parked, and live addresses are exactly the live chunks and large blocks. |
| Slab.GiveStep | rt-thread/src/slab.c:817-841 | The same when a chunk is given back. |
| Slab.ParkStep | rt-thread/src/slab.c:849-869 | The same when a zone without live chunks is parked. |
| Slab.Allocator.constructor | rt-thread/src/slab.c:342-393 | Zone size, limit and usage table for any number of pages; no zone, no block live, and exactly the pages behind the usage table are free. |
| Slab.ZoneSizeFor | rt-thread/src/slab.c:372-375 | The loop ends with the zone size that the heap size calls for, between 32 KiB and 128 KiB. |
| Slab.Allocator.Malloc | rt-thread/src/slab.c:476-665 | NULL, with nothing changed, if and only if the size is 0 or no zone of the class has a chunk, none is parked, and no run of pages is long enough. Otherwise one live block of the smallest class that holds the request, or of whole pages and less than a page too large, at an address that was not live, aligned to its size if that is a power of two up to a page. A chunk is the next one of the first zone in the list of the class, else the first of the first parked zone, else the first of a zone in the lowest run of pages that is long enough; large blocks are the lowest such run; just these pages are not free any more, and only that zone moves in its list. used_mem is the size of all live blocks modulo 2^32. |
| Slab.Allocator.Free | rt-thread/src/slab.c:766-899 | Exactly that block stops being live. The pages of a large block, and no others, become free. A zone that gives its last chunk back while its list has another zone leaves the list and is parked, or its pages, and no others, become free when two are parked already; any other zone stays, and is first in its list if it was full. used_mem stays the size of all live blocks modulo 2^32. |
| Slab.Allocator.Park | rt-thread/src/slab.c:849-896 | The zone leaves its list, the others keep their order. Up to two zones stay parked; a third goes straight back to the page allocator, exactly its pages becoming free. |
| Slab.Allocator.NoOverlap | rt-thread/src/slab.c:476-899 | In every valid state two live blocks never overlap. |
| Format.DigitsRoundTrip | rt-thread/src/kservice.c:660-667 | Reading the digits back gives the number, for both bases and both letter cases. |
| Format.DigitsFit | rt-thread/src/kservice.c:618-667 | A number below 10^k has at most k digits, so a 32-bit word never needs more than 10 of the 16 characters of tmp. |
| Format.NumberWidth | rt-thread/src/kservice.c:669-756 | Unless the precision is 0, the text of a number is as long as the field width or what must be shown, whichever is longer. |
| Format.Divide | rt-thread/src/kservice.c:660-667 | The loop leaves the digits of the number in tmp, lowest first. |
| Format.PiecesMakeNumber | rt-thread/src/kservice.c:669-756 | The pieces that print_number emits from its running size make up sign, zeros, digits and padding of the number, for every combination of flags. |
| Format.PrintNumber | rt-thread/src/kservice.c:590-759 | Appends exactly the text of the number, which Format.NumberShows reads back. |
| Format.ParseSpec | rt-thread/src/kservice.c:804-867 | The loops read flags, width, precision and qualifier as the grammar of Format.Parse does. |
| Format.PutConversion | rt-thread/src/kservice.c:872-1009 | Every conversion, unknown ones included, appends a text and continues where the format goes on. The text reads back as the argument: for %d and %i the signed, for %u, %x and %X the unsigned 32-bit value (16-bit after h), in digits of the base and case, with a minus sign iff it is negative, plus or blank iff that flag is set and it is not, zeros up to the precision, and padded with blanks on the left, blanks on the right or zeros behind the sign as the flags say; for %c the character, for %s the characters up to NUL, width and precision, each padded on the side asked for. |
| Format.Vsnprintf | rt-thread/src/kservice.c:761-1024 | Returns the length of the untruncated text as a 32-bit signed number. Nothing outside [buf, buf + size) is written if and only if the write position does not come around the address space; which addresses are written is stated exactly. Without wrap-around the buffer holds exactly the prefix that fits and a NUL if the size is not 0, and no other byte of memory changes (C99 section 7.19.6.12). The text reads back as format and arguments (Format.Reads). |
| Format.SmallerIsPrefix | rt-thread/src/kservice.c:1011-1018 | A smaller buffer receives a prefix of what a larger one receives. |
| Flash.Chip.PageProgram | applications/w25qxx.c:415-461 | More than 256 bytes program nothing; within a page, bits are cleared at the bytes addressed and nowhere else; no program changes another page. |
| Flash.Chip.WriteNoCheck | applications/w25qxx.c:463-494 | The programs tile [addr, addr + size) in order, none leaves its 256-byte page, and memory is ANDed with the data there and unchanged elsewhere. |
| Flash.Chip.Scan | applications/w25qxx.c:515-520 | The loop stops at the first byte of the range that is not blank. |
| Flash.Chip.Write | applications/w25qxx.c:496-556 | All branches. The range reads back the buffer with every other byte unchanged if and only if no sector but the first is dirty, or sector 0 is to be blank and the data only clears bits in the dirty ones; a blank range always does, with programs that tile it. |
| Words.AlignUp | rt-thread/include/rtdef.h:283-283 | Rounds up to the next multiple of 4, except that the last three 32-bit values wrap to 0. |
| Words.AlignDown | rt-thread/include/rtdef.h:292-292 | The largest multiple of 4 that is not larger. |
| Threads.Wakes | rt-thread/src/thread.c:754-788 | A SUSPENDed thread that becomes READY, out of whatever wait list, keeps all scheduler invariants. |
| Threads.Joins | rt-thread/src/ipc.c:83-129 | A SUSPENDed thread that joins a wait list keeps all scheduler invariants. |
| Threads.Retunes | rt-thread/src/thread.c:660-678 | A priority change of a thread that is not READY keeps all scheduler invariants. |
| Threads.Rotates | rt-thread/src/thread.c:455-489 | Relinking a READY thread at the end of its own list keeps all scheduler invariants. |
| Threads.YieldRotates | rt-thread/src/thread.c:455-489 | A yield of the head of a ready list rotates that list and no other. |
| Threads.WithoutKeepsOrder | rt-thread/src/ipc.c:140-153 | A priority-ordered wait list stays ordered when any thread leaves it. |
| Kernel.System.Abort | rt-thread/src/thread.c:796-818 | A waiter woken with an error leaves its list and is READY; its blocked call will fail; mutexes keep passing priority on. |
| Kernel.System.Join | rt-thread/src/ipc.c:97-124 | The scan links the thread at the end or before the first waiter of lower urgency. |
| Kernel.System.Block | rt-thread/src/ipc.c:371-396 | What every blocking call does: error reset, thread at its slot in the wait list, timer armed iff the time is bounded. |
| Kernel.System.HandUnit | rt-thread/src/ipc.c:454-459 | The first waiter is READY, and is owed one unit if it is inside its call. |
| Kernel.System.Reenter | rt-thread/src/ipc.c:685-697 | The hold count of the owner goes up, or the call fails at its maximum. |
| Kernel.System.TakeFree | rt-thread/src/ipc.c:703-714 | The free mutex is owned by the caller with its present priority recorded. |
| Kernel.System.ReleaseTo | rt-thread/src/ipc.c:846-884 | The former owner is at the recorded priority, and moves in the ready lists only if that is another; the first waiter owns the mutex, its own priority recorded, and is READY at the end of its ready list with its timer stopped; every other place in a ready list and every other timer is as before. |
| Kernel.System.ReleaseFree | rt-thread/src/ipc.c:885-901 | The former owner is at the recorded priority, nobody owns the mutex, and the ready lists change only if the priority did, by the former owner alone. |
| Locks.InheritsTaken | rt-thread/src/ipc.c:703-714 | An orderly take of a free mutex keeps inheritance for every mutex. |
| Locks.InheritsFreed | rt-thread/src/ipc.c:885-901 | A release without waiters, the owner back at its own priority, keeps inheritance for every mutex. |
| Timer.TimerList.Withdraw | rt-thread/src/timer.c:325-338 | The timer is in no list and inactive, and its timeout tick is set modulo 2^32. |
| Timer.TimerList.TakeHead | rt-thread/src/timer.c:551-558 | The earliest timer leaves the rows for the temporary list; a one-shot timer becomes inactive. |
| Timer.TimerList.Rearm | rt-thread/src/timer.c:573-580 | A timer still on the temporary list leaves it, and is started again iff it is periodic and active; a one-shot timer keeps its flag. |
| Event.EventObject.Abort | rt-thread/src/thread.c:796-818 | A waiter woken with an error leaves the list and keeps that error. |
| Waiting.Side.Abort | rt-thread/src/thread.c:796-818 | A waiter woken with an error leaves the list and keeps that error. |
| Mailbox.Box.ExpireReceiver | rt-thread/src/thread.c:796-818 | A receiver leaves the list with a timeout error once its time is over, which TimedWait proves it is when its timer fires; no mail is touched. |
| Mailbox.Box.ExpireSender | rt-thread/src/thread.c:796-818 | A sender leaves the list with a timeout error once its time is over; no mail is touched. |
| MessageQueue.Queue.Expire | rt-thread/src/thread.c:796-818 | A waiter of either side leaves its list with a timeout error once its time is over. |
| SystemHeap.Heap.AdvanceLowest | rt-thread/src/mem.c:380-387 | The inner loop stops at the lowest free block, or at heap_end when there is none. |
| SystemHeap.Heap.SplitBlock | rt-thread/src/mem.c:329-348 | The four header writes of a split describe the split layout and overwrite no live payload. |
| SystemHeap.Heap.TakeBlock | rt-thread/src/mem.c:316-372 | The block found is cut to size iff the remainder can hold a minimal block, which then is free and ends where the block found ended; used_mem grows by exactly the bytes handed out, max_mem is the high-water mark. |
| SystemHeap.Heap.Relocate | rt-thread/src/mem.c:508-512 | The bytes copied are in the new block, the old block is released, and all other live payloads survive. |
| MemHeap.Heap.FreeInsert | rt-thread/src/memheap.c:578-582 | The item is the first of the free list; the rest follows in order. |
| MemHeap.Heap.FreeRemove | rt-thread/src/memheap.c:572-573 | The item leaves the free list; the rest keeps its order. |
| MemHeap.Heap.SplitAfter | rt-thread/src/memheap.c:207-211 | The new item is in the block ring behind the one it was cut from. |
| MemHeap.Heap.Absorb | rt-thread/src/memheap.c:568-569 | The right neighbour leaves the block ring, its bytes belonging to the block on its left. |
| MemHeap.Heap.JoinLeft | rt-thread/src/memheap.c:536-553 | A free left neighbour takes the block over and keeps its place in the free list. |
| MemHeap.Heap.JoinRight | rt-thread/src/memheap.c:555-574 | A free right neighbour is taken over and leaves the free list. |
| MemHeap.Heap.Rejoin | rt-thread/src/memheap.c:536-587 | All four merge cases leave both rings describing the merged layout, one header regained per merge. |
| MemHeap.Heap.Occupy | rt-thread/src/memheap.c:183-256 | The block is cut to size iff the remainder can hold an item and a minimal block; rings and accounting follow. |
| Slab.Allocator.TakeChunk | rt-thread/src/slab.c:537-574 | One more live block of the class, the next chunk of the first zone in the list; that zone leaves the list iff it is full then. |
| Slab.Allocator.OpenParked | rt-thread/src/slab.c:588-650 | One more live block, the first chunk of the first parked zone, which is first in the list of the class then. |
| Slab.Allocator.OpenNew | rt-thread/src/slab.c:594-650 | One more live block, the first chunk of a zone in the lowest run of pages that is long enough, which are in use then; NULL, with nothing changed, iff there is none. |
| Slab.Allocator.AllocLarge | rt-thread/src/slab.c:491-502 | The lowest run of as many pages, which are in use then, is one large block; NULL, with nothing changed, iff none are asked for or no run is long enough. |
| Slab.Allocator.FreeLarge | rt-thread/src/slab.c:792-815 | Exactly the large block stops being live and exactly its pages are free again. |
| Slab.Allocator.GiveChunk | rt-thread/src/slab.c:817-841 | Exactly the chunk stops being live and is the next one its zone gives when no chunk is fresh; the zone is first in the list of its index if it was full, else where it was. |
| Slab.Allocator.ReleaseParked | rt-thread/src/slab.c:872-892 | The zone parked last is no zone any more, and exactly its pages become free. |
| Slab.Allocator.UsageOf | rt-thread/src/slab.c:789-822 | The page-usage table tells rightly whether a live address is a chunk, and of which zone, or a large block. |
| Format.SkipAtoi | rt-thread/src/kservice.c:572-579 | Reads the longest run of digits from a position on as a decimal number, and stops behind it. |
| Format.PutString | rt-thread/src/kservice.c:897-927 | Appends the string cut to width and precision, and padded. |
| Format.PutChar | rt-thread/src/kservice.c:874-895 | Appends the character, padded on one side. |
| Format.PutLead | rt-thread/src/kservice.c:677-732 | Appends the leading blanks, the sign and the fill, and leaves in size what is still to pad. |
| Format.Output.Put | rt-thread/src/kservice.c:798-800 | The text grows by one character, stored where the wrapping write position lies below the end; every address holds the last character that landed there. |
| Ring.RelinkTears | rt-thread/include/rtservice.h:73-80 | Linking a node in that stands in a ring already tears that ring: no sequence of nodes hangs on its head any more, wherever the node is linked. |
| Ring.LinkBeforeRing | rt-thread/include/rtservice.h:73-80 | Linking in a node that stands in no ring keeps the ring and touches three nodes only. |
| Ring.ListStore.InsertLinked | rt-thread/include/rtservice.h:73-80 | The assignments themselves, for a node that is linked already: its ring is torn. |
| Nodes.RelinkKeepsRings | rt-thread/src/ipc.c:83-129 | For all links that represent the lists of threads: after rt_ipc_list_suspend linked a thread, the links represent some lists if and only if the thread was in none before. |
| Nodes.JoinsRing | rt-thread/src/ipc.c:83-129 | Linking a thread that is in no list yields links that represent the lists with just that thread added. |
| Nodes.TwoSemaphores | rt-thread/src/ipc.c:367-399 | The input: a thread that hangs on one empty semaphore and takes another under a locked scheduler hangs on the second alone; nothing hangs on the first head. |
| Threads.Tangles | rt-thread/src/ipc.c:83-129 | A node in a wait list, or of a thread that is not SUSPENDed, linked into a wait list breaks the scheduler invariants. |
| Kernel.System.Tangle | rt-thread/src/ipc.c:83-129 | What a blocking call does for a caller that cannot wait: rt_thread_suspend fails unnoticed and the node is linked in once more; the scheduler invariants do not hold afterwards. |
| Runs.MutexTakeAtOnce | rt-thread/src/ipc.c:734-795 | A take of a mutex that another thread owns, then rt_schedule: the caller goes on at once if and only if the scheduler is locked, and then it is told success without owning the mutex. |
| Runs.SemTakeAtOnce | rt-thread/src/ipc.c:361-411 | A take of a semaphore without units, then rt_schedule: the caller goes on at once if and only if the scheduler is locked, and then it is told success without a unit. |
| Runs.MutexTakeResumed | rt-thread/src/ipc.c:771-795 | Under an unlocked scheduler a thread inside a take that runs again is told success if and only if it owns the mutex, or was resumed by force, in which case it does not own it. |
| Runs.SemTakeResumed | rt-thread/src/ipc.c:398-411 | The same for a semaphore and the unit it was woken with. |
| Runs.Do | rt-thread/src/ipc.c:658-912 | One step of a run: what it does to the state, whatever the state, and which property of the state before it keeps. |
| Cases.RunFromStart | rt-thread/src/scheduler.c:157-182 | Runs from the start of the scheduler, step by step as in Runs.Run: valid throughout if no call blocks under a locked scheduler and no thread detaches itself, and in strict runs with inheritance kept. |
| Cases.LockedSemaphores | rt-thread/src/ipc.c:367-399 | From the start of the scheduler: a take of an empty semaphore under lock reports success, and a second one leaves the kernel invalid. |
| Cases.LockedMutex | rt-thread/src/ipc.c:734-795 | From the start of the scheduler: a take under lock of a mutex that another thread owns reports success. |
| Cases.ForcedMutex | rt-thread/src/thread.c:754-788 | From the start of the scheduler: a thread that waits for a mutex and is resumed by its owner reports success, and the owner still owns it. |
| Cases.Orphaned | rt-thread/src/thread.c:308-349 | From the start of the scheduler: a thread that owns a mutex and detaches itself leaves it owned by a CLOSEd thread. |
| Timer.FarApartMisorders | rt-thread/src/timer.c:374-377 | An earlier timer is taken to be later if and only if overdue ticks of the one and period of the other exceed 2^31 + 1 together; with the longest period that is from 4 overdue ticks on. |
| Timer.TimerList.Act | rt-thread/src/timer.c:311-457 | A start, stop, period or mode change by a thread between two ticks lets nothing expire, does to its timer just what it says, and leaves all other timers as they are. |
| Waiting.LeftInTime | rt-thread/src/ipc.c:1556-1566 | A call that runs again at most 2^31 ticks after its time-out has left exactly what remains until its deadline. |
| Waiting.Side.GoOn | rt-thread/src/ipc.c:1546-1568 | A call that goes on under a locked scheduler with its thread still in the wait list ends, and leaves a waiter in no call, or links its node in once more with the time that is left; it waits on if and only if it is not served and has time left, or waits forever. The wait list is not valid afterwards. |
| Mailbox.Box.RecvLocked | rt-thread/src/ipc.c:1701-1722 | The receiver then takes mail if there is any, else gives up if its time is over, else waits twice; the mailbox is not valid afterwards. |
| Mailbox.Box.SendLocked | rt-thread/src/ipc.c:1546-1568 | The sender then stores its word if there is room, else gives up if its time is over, else waits twice; the mailbox is not valid afterwards. |
| MessageQueue.Queue.RecvLocked | rt-thread/src/ipc.c:2368-2390 | The receiver then takes the first message if there is one, else gives up if its time is over, else waits twice; the queue is not valid afterwards. |
| MessageQueue.Queue.SendLocked | rt-thread/src/ipc.c:2095-2117 | The sender then takes a node if one is free, else gives up if its time is over, else waits twice; the queue is not valid afterwards. |
| SystemHeap.Heap.MallocThenFree | rt-thread/src/mem.c:549-612 | rt_malloc and rt_free in a row restore layout, used flags, lfree, used_mem and every live payload. |
| MemHeap.Heap.AllocThenFree | rt-thread/src/memheap.c:491-591 | rt_memheap_alloc and rt_memheap_free in a row restore layout, accounting and every live payload; the block is then the first of the free list and the others keep their order. |
| MemHeap.Heap.GrowAcross | rt-thread/src/memheap.c:347-398 | When newsize + 12 wraps and the grow path is taken, the new item lies across the header and the first bytes of the live block, linked between it and what was behind it, available_size goes up instead of down, the high-water mark follows modulo 2^32, the right neighbour is lost, and no list of blocks describes the items from there on. |
| MemHeap.Heap.TryGrow | rt-thread/src/memheap.c:325-400 | The block grows in place if and only if the right neighbour is free and the 32-bit comparison holds; otherwise nothing changes. |
| MemHeap.WrappingSizes | rt-thread/src/memheap.c:297-300 | The sum in the guard wraps exactly for sizes above 2^32 - 16 up to 2^32 - 4. |
| MemHeap.ResizeHonoured | rt-thread/src/memheap.c:297-300 | A block resized with success holds the request if and only if rounding it up does not wrap; the last three sizes leave a block of 12 bytes. |
| MemHeap.WrappedGrowth | rt-thread/src/memheap.c:347-398 | The input: in a pool of 256 bytes a live block of 16 bytes is resized to 2^32 - 12 bytes; the call reports success and the heap is torn. |
| Slab.AddressAligned | rt-thread/src/slab.c:578-584 | In every zone that fits, a chunk whose size is a power of two has an address that is a multiple of it if and only if the zone starts at one; up to the page size it always does. |
| Slab.TwoPagesMisaligned | rt-thread/src/slab.c:578-584 | The input: on a heap of 64 pages the first rt_malloc(8000) gets a block of 8192 bytes at an address, counted from the start of the heap, that is not a multiple of 8192. |
| Format.AtoiReads | rt-thread/src/kservice.c:572-579 | Reading digit by digit gives the decimal value of the longest run of digits, and the position behind it. |
| Format.FlagsRead | rt-thread/src/kservice.c:804-817 | Each flag is set exactly when its character is among those read. |
| Format.ParseReads | rt-thread/src/kservice.c:804-867 | A specification written with any flags, the digits of a width and the digits of a precision is read back as these. |
| Format.WideField | rt-thread/src/kservice.c:677-688 | "%<w>d" stands for a text of exactly w characters. |
| Format.WideFieldWritesBelow | rt-thread/src/kservice.c:684-686 | The input: with 10 bytes at 0xC0000000, "%1073741825d" writes address 0. |
| Format.PutAll | rt-thread/src/kservice.c:794-1009 | The loop over the format appends exactly the text that format and arguments stand for. |
| Format.Output.Finish | rt-thread/src/kservice.c:1011-1023 | The NUL goes behind the text or to the last byte of the buffer, and nowhere for size 0; which addresses were written in all is stated exactly. |
| Flash.Chip.SectorErase | applications/w25qxx.c:595-631 | The sector in which the byte address lies becomes blank, and nothing else changes. |
| Flash.Chip.Rewrite | applications/w25qxx.c:521-529 | The erase asked for blanks sector 0; the sector meant is programmed over what it holds. |
| Flash.StoredIff | applications/w25qxx.c:513-555 | What a write leaves is the data with all else unchanged if and only if Survives holds of memory and data before the call. |
| Flash.FirstSectorLost | applications/w25qxx.c:521-529 | A write to a dirty sector other than the first loses what sector 0 holds. |
| Waiting.Side.Resume | rt-thread/src/thread.c:754-788 | A waiter resumed from outside leaves the list and has yet to look, like a woken one. |
| Waiting.Side.Detach | rt-thread/src/thread.c:308-349 | The thread leaves the list and its call never returns; if it was woken it does not look any more. |
| Waiting.PromiseDetached | rt-thread/src/thread.c:308-349 | While others wait, every item stays spoken for by a woken thread after a detach, if and only if the thread was not woken, nobody waits, or there are fewer items than woken threads. |
| Mailbox.Box.Resume | rt-thread/src/thread.c:754-788 | A waiter of either side resumed from outside looks again; no mail is touched and no wake-up is lost. |
| Mailbox.Box.Detach | rt-thread/src/thread.c:308-349 | No mail is touched. A wake-up is lost if and only if the thread was woken and has not looked, others of its side wait, and there are as many items as woken threads. |
| MessageQueue.Queue.Resume | rt-thread/src/thread.c:754-788 | A waiter of either side resumed from outside looks again; no message is touched and no wake-up is lost. |
| MessageQueue.Queue.Detach | rt-thread/src/thread.c:308-349 | No message is touched. A wake-up is lost if and only if the thread was woken and has not looked, others of its side wait, and there are as many messages, or free nodes, as woken threads. |
| Event.EventObject.Resume | rt-thread/src/thread.c:754-788 | A waiter resumed from outside leaves the list without an error although the event does not meet its request. |
| Event.EventObject.Detach | rt-thread/src/thread.c:308-349 | The thread leaves the list and its call never returns; nobody left is satisfied by the set. |
| ObjectCases.LostMail | rt-thread/src/thread.c:308-349 | The input: two receivers wait, one word is sent, and the receiver woken for it is detached: the word lies in the mailbox, nobody is woken, and the other receiver waits on. |
| ObjectCases.LostMessage | rt-thread/src/thread.c:308-349 | The same input for a message queue. |
| ObjectCases.ForcedEvent | rt-thread/src/thread.c:754-788 | The input: a receiver that waits for a bit of an empty event and is resumed from outside is told that it received the bit. |
| Blocking.WaitFor | rt-thread/src/thread.c:712-745 | A thread that is suspended by a call and calls rt_schedule goes on at once if and only if the scheduler is locked. It is SUSPENDed in no ready list, with its timer armed if and only if the time is bounded. |
| Blocking.RecvEvent | rt-thread/src/ipc.c:1209-1276 | For every event, request and lock nest: the call is told success with bits that the event does not hold, and leaves a waiter in no call, if and only if it had to wait and the scheduler was locked before the call; it blocks if and only if it had to wait and the scheduler was not locked. |
| Blocking.RecvMail | rt-thread/src/ipc.c:1660-1722 | For every mailbox and lock nest: a receive leaves the mailbox without a valid wait list if and only if it had to wait and the scheduler was locked before the call. |
| Blocking.SendMail | rt-thread/src/ipc.c:1507-1568 | The same for sending to a full mailbox. |
| Blocking.RecvMessage | rt-thread/src/ipc.c:2324-2390 | The same for receiving from an empty message queue. |
| Blocking.SendMessage | rt-thread/src/ipc.c:2049-2117 | The same for sending to a message queue without a free node. |
| ObjectCases.LockedEvent | rt-thread/src/ipc.c:1235-1267 | The input, from the start of the scheduler: under lock, waiting for bit 0 of an empty event is told success with that bit. |
| ObjectCases.LockedMail | rt-thread/src/ipc.c:1660-1702 | The input, from the start of the scheduler: under lock, a receiver of an empty mailbox is in the wait list twice. |
| ObjectCases.LockedMessages | rt-thread/src/ipc.c:2324-2370 | The same for a message queue. |
| Cases.OrphanedForever | rt-thread/src/thread.c:308-349 | From the start of the scheduler: after a thread that owns a mutex detached itself, the mutex is owned by it after every run. |
| Timer.TimerList.Init | rt-thread/src/timer.c:86-112 | A new timer is inactive and in no list. |
| Timer.TimerList.SetMode | rt-thread/src/timer.c:487-493 | The timer becomes one-shot or periodic wherever it is, and nothing else changes. |
| Timer.TimerList.Advance | rt-thread/src/clock.c:67-72 | With no timer expired, one more tick keeps every started timer in the window in which 32-bit comparison is right, and none is overdue. |
| Timer.TimerList.FlagRight | rt-thread/src/timer.c:495-506 | Outside the check the active flag tells whether a timer is started, except for the timers adrift. |
| Timer.OneShotInside | rt-thread/src/timer.c:555-580 | The input: a periodic timer whose timeout function makes it one-shot is active afterwards, and in no list. |
| TimedWait.TimedList.Enter | rt-thread/src/ipc.c:1527-1540 | A call blocks with its timer started, due when its time is over, or not started if it waits forever; other calls and their timers stay. |
| TimedWait.TimedList.Again | rt-thread/src/ipc.c:1546-1568 | A woken call that finds nothing gives up exactly if its deadline has come, else waits on with its timer due at the same deadline; only a call that runs again too late can fail the assertion in rt_timer_start. |
| TimedWait.TimedList.Clock | rt-thread/src/clock.c:67-89 | One tick with its timer check: exactly the waiters whose time ends at this tick leave the list, with a timeout error, whatever other timers and timeout functions do. |
| TimedWait.TimedList.InTime | rt-thread/src/thread.c:796-818 | In every state of every run a timed waiter's deadline is still to come, and a call that timed out did so exactly at its deadline. |
| TimedWait.TimedList.Run | rt-thread/src/ipc.c:1476-1603 | Runs of ticks, timer calls, entering, waking, resuming, detaching and leaving threads in any order, each really taken (TimedWait.Took): a deadline changes only by a new call, and a call that waits or timed out stays so until its thread runs. In every state the timer of a thread is started if and only if the thread waits for a bounded time, so that no wait is ended by the timer of another one. |
| TimedWait.TimedList.WaitOut | rt-thread/src/ipc.c:1527-1568 | A timed wait, whatever happens to others: the thread was woken, or it waits and fewer ticks than its timeout have passed, or it timed out exactly as many ticks after the call as its timeout says. |
| Slab.Allocator.BlockAligned | rt-thread/src/slab.c:578-584 | In every valid state a live block whose size is a power of two is aligned to it up to the page size, and above it if and only if its zone is. |
| Kernel.System.Raise | rt-thread/src/ipc.c:740-746 | An owner that is already as urgent keeps its priority and its place, as does everyone else; a less urgent one takes the priority of the caller, and if READY goes to the end of the ready list of that priority, nobody else moving. |
| Kernel.System.Restore | rt-thread/src/ipc.c:848-855 | A thread that is at the recorded priority already leaves every list as it is; otherwise it takes that priority, and if READY goes to the end of the other list, nobody else moving. |
| Kernel.System.HandMutex | rt-thread/src/ipc.c:857-884 | The first waiter owns the mutex with its own priority recorded, is READY at the end of its ready list, and only its timer is stopped. |
| Threads.MovedRequeued | rt-thread/src/scheduler.c:275-312 | A thread that becomes READY is last in the ready list of its priority and in no other; all other threads keep their order in theirs. |
| Threads.DroppedRequeued | rt-thread/src/scheduler.c:321-361 | A thread that is removed is in no ready list; all other threads keep their order in theirs. |
| Locks.WokenOne | rt-thread/src/ipc.c:163-191 | Waking the waiters one by one puts each behind those of its priority woken before. |
| Event.SatisfiedMeans | rt-thread/src/ipc.c:1089-1108 | The tests of the source mean, bit by bit: with AND every bit asked for is in the set, without AND and with OR some bit is. |
| Event.ReceivedMeans | rt-thread/src/ipc.c:1206-1218 | What is received are exactly the bits asked for that are in the set, and CLEAR takes just these out of it. |
| Event.ServeInTurn | rt-thread/src/ipc.c:1083-1132 | The pass over the waiters, bit by bit: in list order, one whose request the set meets is woken with just the bits it asked for that are in the set, and the next one finds what CLEAR left of it; any other waits on. |
| Blocks.CarveCuts | rt-thread/src/mem.c:316-348 | The block cut has the bytes asked for and is used; the rest is a free block that ends where the block ended; all others stay. |
| Blocks.ClaimTakes | rt-thread/src/mem.c:349-372 | A block taken whole keeps place and size, is used then, and all others stay. |
| Blocks.ReleaseFrees | rt-thread/src/mem.c:156-194 | The block given back and its free neighbours are one free block, from the start of the first to the end of the last; all others stay. |
| Blocks.ShrinkCuts | rt-thread/src/mem.c:470-503 | The block has the bytes asked for; what was cut off is free, up to the end of a free right neighbour if there is one; all others stay. |
| Blocks.GrowShrinks | rt-thread/src/memheap.c:330-399 | The block that grew has the bytes asked for, and what is left of its right neighbour is free behind it. |
| SystemHeap.AllocatedHandsOut | rt-thread/src/mem.c:316-372 | In bytes: cut to size with room for a header and a minimal block left over, else whole. |
| MemHeap.AllocatedHandsOut | rt-thread/src/memheap.c:183-256 | In bytes: cut to size with room for an item and a minimal block left over, else whole. |
| Slab.ZoneIndexIsLeast | rt-thread/src/slab.c:399-457 | No smaller size class holds the request. |
| Slab.FirstOffsetIsLeast | rt-thread/src/slab.c:626-636 | Chunks start at the first multiple of their size behind the header if it is a power of two, else at the first multiple of 8. |
| Slab.GiveThenTake | rt-thread/src/slab.c:547-566 | A chunk that comes back to a full zone is the one taken next, and the zone is as before. |
| Slab.Allocator.BlockEven | rt-thread/src/slab.c:629-636 | In every valid state every live block is 8-byte aligned. |
| Slab.Allocator.MallocThenFree | rt-thread/src/slab.c:476-899 | rt_malloc and rt_free in a row restore the live blocks and used_mem, and for large blocks the runs of free pages. |
| Format.NumberShows | rt-thread/src/kservice.c:590-759 | Every text of a number reads back as it: sign, digits of the base and case without leading zeros, zeros up to the precision, and padding on the side and with the fill that the flags ask for, to just the width. |
| Format.ConvertShows | rt-thread/src/kservice.c:872-1009 | Every conversion of an argument shows that argument: number, character, string or pointer, cut to 32, 16 or 8 bits as its type says. |
| Format.RenderReads | rt-thread/src/kservice.c:794-1009 | The text of every format reads back as it: its own characters as they are, up to a NUL, and for each conversion in turn what shows the next argument. |
| Format.PlainReads | rt-thread/src/kservice.c:804-867 | A specification of flags and qualifier only has no width and no precision, and takes no argument. |
| Format.StarsRead | rt-thread/src/kservice.c:819-848 | Stars take width and precision from the arguments; a negative width is its magnitude with the left flag, a negative precision is 0. |
| Timer.RoundIs | rt-thread/src/timer.c:547-580 | Taking the timer out, running its function and starting it again or not amount to one round of that timer, and to the operations of the function for all others. |
| Timer.HeightIs | rt-thread/src/timer.c:387-402 | A start reaches k rows above the bottom one exactly when the counter is a multiple of the k-th power of the radix. |
| Timer.SettlesOne | rt-thread/src/timer.c:540-580 | A round leaves a timer that no timeout function acts on as it was, or fires it once, being due. |
| Timer.ApartTick | rt-thread/src/clock.c:67-89 | One more tick of a run does to a timer that no timeout function acts on what it would do to it alone. |
| Timer.ApartCall | rt-thread/src/timer.c:311-506 | The same for one more call of a thread. |
| TimedWait.TimedList.Act | rt-thread/src/timer.c:311-506 | A call on another timer does to every timer what it says, and nothing to the waits. |
| TimedWait.TimedList.Wake | rt-thread/src/ipc.c:140-153 | The first waiter and only it is woken, and its timer, and only it, is stopped. |
| TimedWait.TimedList.HeadOff | rt-thread/src/thread.c:190-196 | The timer of a thread is one-shot: once it fired it is not started any more. |
| Flash.ClearedBits | applications/w25qxx.c:415-461 | A bit is set after a program if and only if it was and, within the range, the data has it too. |

## Left out

- Kernel.System.Expire: does not say when a thread timer expires; the kernel keeps only the set of armed thread timers with their ticks. TimedWait puts timers and waits together for mailboxes and message queues; for sleeps, for the takes of the kernel and for events the two are not put together.
- Kernel.System.Tick: covers the time slice only; the `rt_timer_check` that follows is Timer.TimerList.Check, and its effect on threads is a run of Kernel.System.Expire steps.
- Kernel.System.EnterCritical: does not model the 16-bit overflow of the nest counter.
- Kernel.System.Detach: the defunct list and clean-up functions are not modelled.
- Kernel.System.MutexRelease: a last release that drops a raised priority with nobody waiting does not ask for scheduling, as in the source; that the most urgent READY thread runs is claimed at Kernel.System.Schedule only.
- Kernel.System.MutexTake: inheritance is kept for orderly takes of priority-ordered mutexes by threads in no wait list; with nested takes, chains of owners or FIFO mutexes the code neither re-sorts wait lists nor raises further owners. Mutual exclusion and all other invariants cover these too.
- Kernel.System.ListSuspend: for callers that can wait; Kernel.System.Tangle is the same function for the others. Kernel.System.Block and Kernel.System.RaiseAndBlock likewise.
- Kernel.System.Tangle: after the lists are torn the model stops; what later operations make of the torn links is not modelled.
- Kernel.System.constructor: the model starts after `rt_system_scheduler_start` with the idle thread running; priorities above 31 are covered by ReadyTable only.
- Timer.TimerList.Check: a timeout function is a script of starts, stops, period and mode changes; timers that are started by others or periodic have periods of at least one tick.
- Timer.TimerList.Run: `rt_tick_set`, the soft-timer thread and timers with a period of zero ticks are not modelled. Of a timer that timeout functions act on, what becomes of it is stated for each round (Timer.TimerList.FireHead), not for runs.
- Event.EventObject.Recv: one of AND and OR must be given, as the assertion demands; that `rt_event_send` stops half-way at a waiter without either is therefore unreachable.
- Mailbox.Box.RecvAgain: for threads that wait no more; Mailbox.Box.RecvLocked is the same code for a thread still in the wait list, and Blocking.RecvMail says which of the two runs. The same holds for sending and in MessageQueue.
- Mailbox.Box.ExpireReceiver: that the time is over is required here, and proved in TimedWait, where it is the timer that ends the wait. Mailbox.Box.ExpireSender and MessageQueue.Queue.Expire likewise.
- Blocking.WaitFor: in the kernel the thread is then SUSPENDed in no list; the wait list is part of the object.
- TimedWait.TimedList.Clock: rt_thread_timeout is the timeout function of thread timers, and touches no timer; timeout functions that wake threads of the same list are not modelled. Threads of the list that sleep or wait elsewhere are not part of it: the timer of a thread is used by the waits of this list only.
- MessageQueue.Queue.Detach: a node in the hands of the detached thread stays in flight for good, as in the source.
- Waiting.Side.Recheck: calls that ran again more than 2^31 ticks after their time-out are excepted from the deadline claims; which they are is part of the contract.
- Mailbox.Box.Recv: the wait list of a mailbox knows threads by priority only; how a woken thread gets to run is the Kernel module's matter. The same holds for events and message queues.
- MessageQueue.Queue.CopyOut: bytes of the cell behind a shorter message are whatever the cell held.
- SystemHeap.Heap.Init: the heap is valid only if at least MIN_SIZE bytes remain; SystemHeap.TinyHeapSearchNeverStops says what happens below.
- SystemHeap.Heap.Malloc: `heap_end->prev` goes stale by design and is in no invariant.
- MemHeap.Heap.GrowAcross: the item across the live block's header is kept beside that header in the map of items; that its bytes overlap is said of the memory only.
- MemHeap.Heap.Alloc: a header write overwrites its item as a whole; the free links inside an item are not scribbled separately.
- Slab.AddressAligned: addresses count from the start of the heap, which is aligned to a page only.
- Slab.Allocator.constructor: a heap of at least one whole page.
- Slab.Allocator.Malloc: payload bytes are not modelled, free-chunk links are chunk numbers, and the moment in which the heap lock is dropped around the page allocator is one step with its surroundings.
- Format.Vsnprintf: `long long` and the `#` prefix are configured out; a missing argument or one of the wrong kind, undefined in C, reads as 0 or as no string; numbers in the format are not cut to 32 bits. `%o` prints hexadecimal digits, precision 0 prints no digits, and `%s` is cut to the field width, as in the source; none of this is claimed to conform to C.
- Flash.Chip.Write: the 16-bit length and 24-bit addresses of the source; a range past the end of the chip is not modelled.
- Flash.Chip.PageProgram: that the chip programs and erases what it is sent is assumed; HAL commands, modes and waiting are not modelled.
- Regions: `rt_thread_suspend` and `rt_thread_resume` look at the state of the thread before they disable interrupts, `rt_event_recv` resets the error before, and the moving paths of `rt_realloc` and `rt_memheap_realloc` span several critical sections; each is one step here.
- Deleting and detaching semaphores, mutexes, events, mailboxes and message queues: every waiter is woken with an error as in the resets that are modelled.
- `rt_realloc` and `rt_calloc` of `slab.c`, the `rt_malloc` family on top of `memheap.c`, and memory statistics commands: allocate, copy and free on top of what is modelled.
- Context switches, stacks, SMP, interrupt nesting, hooks, logging, assertion handlers, magic numbers, object names and containers.
- `idle.c`, `irq.c`, `device.c`, `components.c`, `mempool.c`, string and memory helpers, `rt_thread_delay_until`, and the build tools.

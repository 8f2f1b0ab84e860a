# JLib Scheduler: verified models

Dafny models of the protocols inside the JLib work-stealing task scheduler, with proofs of what
each protocol is for. `dafny verify dfyconfig.toml` checks everything.

The lock-free protocols are transition systems. A state is a value, a step is one atomic access
(or one critical section of a lock), `Step` takes a state and an event, and `Run` folds a
sequence of events chosen freely, so a statement about `Run(Init(..), events)` is about every
interleaving of any number of threads. Fields marked "history" record what happened and are read
by no step, and what they hold is tied to the caller's events by a fold over the run
(`PushedIsHanded`, `BooksAreTheCalls`, `CountIsTheCalls`). A lemma named `...Alone` follows one
thread with nobody else moving and says what its call achieves; `...NeverStuck` says that something
can always move. The parts of the source that update a structure in place, under a lock or on one
thread, are classes and methods with loops, each proved against a function of the old contents.

| file | component |
|---|---|
| `TaskDeque.dfy` | Chase-Lev deque whose ring is replaced while thieves still read the old one |
| `TaskInbox.dfy` | multi-producer inbox with a recycled stub |
| `Epochs.dfy` | epoch-based reclamation, orphan hand-off included |
| `HuntPark.dfy` | hunt counter, worker park and idle stack |
| `WaitGroup.dfy` | completion protocol of a wait group |
| `FiberEvent.dfy`, `EventList.dfy` | fiber suspend/resume handshake with `Event`; the event's list in place |
| `DagCycle.dfy`, `TaskDag.dfy` | Kahn's cycle check; task graphs being built, extended, cancelled and run |
| `WheelTicks.dfy`, `TimerLists.dfy`, `TimerBits.dfy`, `TimerLedger.dfy`, `TimerQueue.dfy` | timing wheel: arithmetic, slot lists, bitmap, handles and periodic records, the queue itself |
| `SlabLists.dfy`, `SlabPool.dfy` | slab allocator with per-thread magazines |
| `WaitList.dfy`, `Semaphore.dfy` | intrusive waiter queue; the semaphore |
| `ParallelFor.dfy`, `LazyRange.dfy`, `RangePlan.dfy` | splitting an index range: shared cursor, lazy pieces, the probe and the choice |
| `Division.dfy` | arithmetic lemmas |

Steps are sequentially consistent, and indices, versions, epochs, generations and ticks are
unbounded numbers.

## Where the code does not meet a stated intent

- **Timing wheel, `++currentTick` (src/Timer.cpp:452-456).** A fire step that launches nothing
  moves one tick on without cascading. If the only due entries were periodic ones whose instance
  is still in flight, and the new tick is a multiple of 256, every entry waiting in the slot that
  begins there is not looked at for a whole turn of its level. `TimerQueue.BareTickRun` brings a new
  wheel there by its own calls: `Arm`, `StartPeriodic` and two fire steps, after which an entry due
  at tick 300 is next looked at in tick 65792. `TimerQueue.BareTickAllIff` gives the exact condition, and `TimerQueue.Wheel.FireStep` shows that the
  step is harmless whenever no due periodic entry is in flight.
- **Timing wheel, `AdvanceTo(nowTick)` when arming (src/Timer.cpp:629, 699).** This advance is not
  bounded by the next event. `TimerQueue.ArmOverruns` is an instance on a new wheel: an entry is
  armed for tick 5, a second `Arm` reads the clock at tick 6, and the first entry's slot is then
  next looked at in tick 261, 256 ticks late. `TimerQueue.AdvanceTimelyIff` says exactly when the
  advance keeps the wheel's strong invariant: when it overruns no entry of level 0. Levels above 0
  always survive.
- **`WaitFor` on a fiber (src/TaskScheduler.cpp:1690-1700)** returns without `Settle`, although
  tests/verify/waitgroup_model.c settles there. A woken fiber can therefore return while a
  completer still has to write `waking`: `WaitGroup.WokenIsNotSettled` is such a run, and
  `WaitGroup.GoneIffUnmarkedAndUnlocked` is the exact condition under which the group may go. Of
  its two halves, the spin on `waking` (src/WaitGroup.cpp:58) reads the first, and taking `mtx`
  (src/WaitGroup.cpp:59) observes the second: it succeeds only with the lock free, and with the
  lock free `waking == 0` alone decides.
- **`idleCount_` (src/TaskScheduler.cpp:751, 763, 769-770, 798)** is raised only when a node is
  pushed but lowered whenever an arm is taken, so a worker that registers while its node is still
  linked makes it drift below the number of idle workers. `HuntPark.IdleCountBelowZero` is a run
  that ends with -1, in 32 bits 4294967295, and no worker armed; `HuntPark.IdleCountIsShort` says by
  exactly how much the counter falls short in every run, and that, with no access to it still to
  come, it is exact if and only if no registration found its node still linked.
- **`AddDependency` after `Submit` (src/TaskDAG.cpp:156-190; include/TaskDAG.h:34)** is legal, and makes a node wait only if the edge is
  counted before the node is starting, that is before it has fired as completed or a call that will
  fire it so is on its way. `TaskDag.StartsAfterDependencies` proves the wait for every such edge;
  `TaskDag.LateEdgeIsNotAwaited` shows, from any state with such a call pending, that an edge counted
  then is not waited for, and `TaskDag.StartedBeforeDependency` is a run that does it.
- **`Disarm` (src/Timer.cpp:651-669)** tells handles apart by generation alone. A handle that no caller
  was given, naming a periodic entry's own generation, releases that entry and leaves its record
  naming it. `TimerQueue.Wheel.Disarm` says that the books are kept if and only if the handle is not
  of that kind.
- The `continue` for a full search in `NextEventTick` (src/Timer.cpp:335) cannot be reached: the
  level was just found not to be empty.

## Model

| member | source | states |
|---|---|---|
| TaskDeque.StepRefines | include/TaskDeque.h:198-329 | every single access of owner or thief keeps the invariant and acts on the abstract deque as nothing, an append of the batch, a removal at the front or one at the back, thieves with a replaced ring included |
| TaskDeque.Conservation | include/TaskDeque.h:109-329 | in every run pushed = taken + still in the deque, with repetitions |
| TaskDeque.PushedIsHanded | include/TaskDeque.h:198-238 | over every run the deque's books hold exactly the tasks of the accepted calls, in the order of the calls, those of the push under way apart |
| TaskDeque.ReturnedAtMostOnce | include/TaskDeque.h:198-329 | if the tasks handed in by the calls are distinct, each is returned at most once, by one pop or steal, and what was handed in is what was returned, is in the deque, or is on its way in |
| TaskDeque.ClearedFlagMeansEmpty | include/TaskDeque.h:78-101 | the owner clears the work flag only when its deque is empty, so between its calls a cleared flag hides no work |
| TaskDeque.CopyStep | include/TaskDeque.h:132-148 | replacing the ring leaves the abstract deque and every thief's remembered slot intact |
| TaskDeque.Grow | include/TaskDeque.h:140-142 | the copy loop puts every live index in the doubled ring and nothing is overwritten |
| TaskDeque.PushAlone | include/TaskDeque.h:198-238 | push_bottom or the batch call, left alone, ends with its tasks appended in order, whatever it had to grow |
| TaskDeque.PopAlone | include/TaskDeque.h:240-284 | a pop left alone returns the last task, and nothing only from an empty deque |
| TaskDeque.StealAlone | include/TaskDeque.h:286-329 | a steal left alone takes the first task, unless the deque is empty or the predicate declines it |
| TaskInbox.StepInv | include/TaskMPSCQueue.h:22-103 | every step of any producer or of the consumer keeps the chain in order, half-finished pushes included |
| TaskInbox.FifoOrder | include/TaskMPSCQueue.h:50-85 | popped tasks followed by those inside are exactly the pushed tasks in the order of their head exchanges: none lost, doubled or reordered |
| TaskInbox.PushedIsHanded | include/TaskMPSCQueue.h:22-54 | the queue's books are the nodes of the producers' calls, batch by batch in the order of the head exchanges |
| TaskInbox.NoNodeTwice | include/TaskMPSCQueue.h:22-26 | no node, the recycled stub included, is in the chain twice |
| TaskInbox.QuiescentMeansDrained | include/TaskMPSCQueue.h:98-103 | quiescent() answers true only if every push that exchanged the head has been popped |
| TaskInbox.LateLinkIsSafe | include/TaskMPSCQueue.h:24-25 | a producer stopped before its link still owes it to a node that the consumer has not let go of |
| TaskInbox.UndisturbedPop | include/TaskMPSCQueue.h:56-85 | with no half-finished push, pop returns the oldest task, and fails only when there is none |
| TaskInbox.LastTaskPop | include/TaskMPSCQueue.h:73-83 | the last task is popped by appending the stub behind it |
| TaskInbox.PushAlone | include/TaskMPSCQueue.h:22-54 | a push left alone puts its nodes in order at the end, linked |
| TaskInbox.DrainedIsQuiescent | include/TaskMPSCQueue.h:98-103 | quiescent() does answer true once everything has been popped |
| Epochs.StepInv | include/Epochs.h:207-263 | every access of pin, scan, retire, reclaim, hand-off and sweep keeps the epoch bounds and the place of every retired object |
| Epochs.NoUseAfterFree | include/Epochs.h:383-414 | an object reached under a guard that is still open has not been freed, nor has any object linked at some time since the guard opened, so stale links out of held nodes are safe to follow; the pin is a load and a store and the scan reads slots one at a time |
| Epochs.SafeEpochStaysValid | include/Epochs.h:254-263 | a safe epoch computed earlier stays valid while its owner keeps it: no guard has reached or can reach, by a stale link either, what is stamped below it |
| Epochs.NoDoubleFreeNoLoss | include/Epochs.h:64-84 | a retired object is freed at most once, and until then sits exactly once in one bag, detached bag, orphan list or hand |
| Epochs.ScanEpochs | include/Epochs.h:254-263 | one slot read of MinActiveEpoch keeps the running minimum a lower bound for every guard it has passed or that pins later |
| Epochs.StampEpochs | include/Ref.h:102-105 | reading the current epoch after the unlink stamps the object no earlier than any guard that can still reach it |
| Epochs.FreeEpochs | include/Epochs.h:220-227 | freeing what is stamped below the safe epoch keeps every open guard's objects |
| Epochs.HandOffPlaces | src/Reclaimer.cpp:35-39 | an idle gate's hand-off moves the whole bag to the orphan store and loses nothing |
| Epochs.SplitIsPartition | include/Epochs.h:217-230 | the compacting pass keeps in order what is not safe and frees the rest, nothing else |
| Epochs.EpochOrphanStore.Orphan | include/Epochs.h:64-70 | the entries are appended in order and counted |
| Epochs.EpochOrphanStore.Sweep | include/Epochs.h:73-84 | the in-place compaction keeps exactly the entries not below the safe epoch, in order, and returns the others |
| Epochs.LeastPinIsMinimum | include/Epochs.h:254-263 | the safe epoch of a pass left alone is the least of the present epoch and every pin |
| Epochs.AdvanceAlone | include/Epochs.h:306-310 | AdvanceEpoch left alone raises the epoch by one |
| Epochs.PassAlone | include/Epochs.h:207-230 | a reclaim pass left alone frees, in order, exactly the bag's entries below the safe epoch and keeps the others in order |
| Epochs.OrphansAlone | include/Epochs.h:73-84 | the sweep that follows does the same to the orphans and gives the lock back |
| Epochs.SkipEndsPass | include/Epochs.h:232-235 | a pass that leaves the orphans alone ends with its own bag |
| Epochs.GateFreesAll | src/Reclaimer.cpp:21-39 | with no guard open, a gate left alone frees its whole bag and every orphan |
| Epochs.GuardAlone | include/Epochs.h:383-412 | a guard left alone pins the present epoch while it is open and nothing afterwards |
| Epochs.GuardsNest | include/Epochs.h:383-412 | an inner guard neither pins nor unpins |
| Epochs.ReachHolds | include/Epochs.h:383-412 | a published object is linked, and under an open guard it comes into the thread's hands |
| Epochs.RetireAlone | include/Epochs.h:265-285 | a retire left alone puts the object last in the bag, or last among the orphans, stamped with the present epoch |
| Epochs.HandOffAlone | src/Reclaimer.cpp:35-39 | the hand-off leaves the bag empty and its entries behind the orphans, in order |
| HuntPark.StepInv | src/TaskScheduler.cpp:690-806 | every access of the hunt counter, the park word and the idle stack keeps the invariant |
| HuntPark.NoLostHandOff | src/Thread.cpp:1120-1265 | while a worker is blocked on PARKED somebody is hunting, or a leaver is between the decrement that took `searching` to 0 and its notify, or a popper holds a parked worker between pop and notify, or a worker is awake and bound for the hunt; a popper that has decremented nothing and popped nobody does not count |
| HuntPark.SearchingIsExact | src/TaskScheduler.cpp:690-727 | `searching` is the number of workers in the find loop |
| HuntPark.StackIsSimple | src/TaskScheduler.cpp:742-806 | the idle stack links no worker twice and its links spell exactly the workers pushed and not popped |
| HuntPark.ArmedIsReachable | src/TaskScheduler.cpp:742-806 | an armed parked worker is on the stack or held by a popper that will see its arm; one whose arm was taken is held by a popper that will see it parked |
| HuntPark.EmptyStackCover | src/TaskScheduler.cpp:773-783 | when a popper finds the stack empty, every sleeping worker is in the hands of another agent, which will notify it |
| HuntPark.IdleCountIsShort | src/TaskScheduler.cpp:742-806 | in every run `idleCount_`, with the fetch_adds and fetch_subs still to come, is the number of armed workers less the registrations that found their node linked and those under way; with nothing under way or to come, exact if and only if there were none of the former |
| HuntPark.IdleCountBelowZero | src/TaskScheduler.cpp:742-770 | a run of register, unregister, register while linked, unregister ends with `idleCount_` at -1 |
| HuntPark.NewSleeper | src/Thread.cpp:1208-1252 | a worker falls asleep only after its recheck saw somebody hunting |
| HuntPark.KickAlone | src/Thread.cpp:380-392 | NotifyWorker reaches a sleeper, which left alone takes its arm back and hunts again |
| HuntPark.PopAlone | src/TaskScheduler.cpp:773-806 | a pop left alone notifies the first worker from the top of the stack that is armed and parked, if there is one, and takes everything above it off |
| HuntPark.HandOffAlone | src/TaskScheduler.cpp:690-710 | the last hunter that finds a task, and anybody who places work, does that |
| HuntPark.RegisterAlone | src/TaskScheduler.cpp:742-764 | a worker that registers, left alone, is armed, linked and on top of the stack |
| HuntPark.SleepAlone | src/Thread.cpp:1208-1252 | a registered worker that finds nothing sleeps if it sees a hunter and goes back to hunt if it sees none |
| WaitGroup.StepInv | src/WaitGroup.cpp:31-105 | every access of Done, AddWaiter, WakeAll, BlockThread and Settle keeps the invariant |
| WaitGroup.WokenAtMostOnce | src/WaitGroup.cpp:31-84 | each registration was woken once, or is owed exactly one wake and is on the group or in one waker's hands |
| WaitGroup.NoEarlyWake | include/WaitGroup.h:57-66 | no waiter is woken before the count is zero |
| WaitGroup.NoneForgotten | src/WaitGroup.cpp:41-54 | once all completions and registrations have finished, nobody is registered |
| WaitGroup.SettledMeansGone | src/WaitGroup.cpp:56-60 | after Settle returns to a waiter that saw zero, no completer touches the group again |
| WaitGroup.GoneStaysGone | src/WaitGroup.cpp:56-84 | with the count at zero, "no completer inside" is kept by every step |
| WaitGroup.GoneIffUnmarkedAndUnlocked | src/WaitGroup.cpp:56-78 | with the count at zero the completers are gone if and only if no mark is up and the lock is not held by one of them; with the lock free, as Settle finds it, if and only if no mark is up |
| WaitGroup.WokenIsNotSettled | src/TaskScheduler.cpp:1690-1700 | a run in which a task waiter was woken and returned while a completer still has to write `waking` |
| WaitGroup.CountIsTheCalls | include/WaitGroup.h:57-66 | the count is the initial one, one up for every Add and one down for every completion, and every announced completion decrements once |
| WaitGroup.ReturnsAtZero | src/WaitGroup.cpp:31-105 | no wait, of a task or a thread, returns before the count is zero |
| WaitGroup.NeverStuck | src/WaitGroup.cpp:31-105 | while any agent is neither between calls nor asleep with a wake owed to it, some agent has a step to take |
| WaitGroup.DoneAlone | include/WaitGroup.h:58-66 | a completion that is not the last, or that nobody waits for, takes one off the count and leaves no mark |
| WaitGroup.WaitAlone | src/WaitGroup.cpp:31-45 | a task's wait left alone with units outstanding is registered once and suspended |
| WaitGroup.BlockAlone | src/WaitGroup.cpp:86-105 | a thread's wait left alone with units outstanding is registered once and blocks |
| WaitGroup.PollAlone | src/WaitGroup.cpp:56-60 | a waiter that finds the count at zero, no mark up and the lock free returns |
| FiberEvent.StepInv | include/Fiber.h:203-245 | every access of suspend, park step, resume and the event's critical sections keeps the invariant |
| FiberEvent.PlacedExactlyOnce | include/Event.h:45-69 | each linked suspension leads to at most one placement, and while it is not placed it is on a list, in a waker's hands or with its park step |
| FiberEvent.PlacedOnlySwitchedOut | src/Thread.cpp:565-578 | a placement happens only after the fiber has switched out, once for its suspension |
| FiberEvent.ResumeNeverDeclines | include/Fiber.h:222-245 | the task a waker resumes is on its way out or parked, so one of the compare-and-swaps applies and the one from SUSPENDED cannot lose |
| FiberEvent.RestMeansRunningQueuedOrLinked | include/Event.h:29-31 | at rest a task runs, is queued, or is parked on exactly one event's list |
| FiberEvent.CancelKeepsOrder | include/Event.h:95-119 | a token cancel picks tasks at increasing positions of the list, and so does what it leaves |
| FiberEvent.SignalTakesAll | include/Event.h:62-69 | SignalAll takes the whole list in order and touches nothing else |
| FiberEvent.CancelTakesTheToken | include/Event.h:95-119 | in every run a token cancel takes exactly the waiters created with a token within it; the others stay linked; both keep the order, and nothing else is touched |
| FiberEvent.AddLinksLast | include/Event.h:79-88 | AddWaiter links the task last on that event's list and on no other |
| FiberEvent.WaitAlone | include/Fiber.h:203-221 | a fiber that waits, left alone, ends up parked last on the event's list |
| FiberEvent.ParkAlone | src/Thread.cpp:565-578 | a fiber signalled on its way out is placed by its own park step |
| FiberEvent.WakeAlone | include/Event.h:53-60 | a waker left alone wakes every task of its chain, parked or on its way out, and nobody else |
| FiberEvent.RunAlone | include/Fiber.h:203-245 | a placed task runs once for its placement |
| EventList.EventList.AddWaiter | include/Event.h:79-88 | the task is appended |
| EventList.EventList.DetachAll | include/Event.h:62-69 | the whole list comes off as a chain in order |
| EventList.EventList.CancelWaiters | include/Event.h:95-119 | the loop unlinks exactly the tasks inside the token, in order, and leaves the others doubly linked in order |
| EventList.WithinOrdered | include/Event.h:100-116 | both halves of a cancel keep the order of the list |
| DagCycle.HasCycle | src/TaskDAG.cpp:99-126 | the answer is true if and only if the graph has a directed cycle, given counts that are the incoming edges with multiplicity |
| DagCycle.StuckIsCyclic | src/TaskDAG.cpp:113-125 | unprocessed nodes that all have unprocessed predecessors contain a cycle |
| DagCycle.TopologicalIsAcyclic | src/TaskDAG.cpp:113-125 | an order of processing that takes in every node rules a cycle out |
| TaskDag.StepInv | src/TaskDAG.cpp:156-400 | every access of AddDependency, WalkAndSeal, Fire, SignalExternal and Submit keeps edges, counts and pending fires consistent |
| TaskDag.NotifiedOnce | include/TaskDAG.h:127-140 | an edge notifies at most once, and exactly once, with its dependency's outcome, when the dependency has ended and the adder has returned |
| TaskDag.StartsAfterDependencies | src/TaskDAG.cpp:281-308 | an AND node starts, or is about to, only when every dependency has finished as completed whose edge was counted before the node was starting, edges added after Submit included |
| TaskDag.OrStartsAfterOne | src/TaskDAG.cpp:296-305 | an OR node with an edge counted before it was starting starts, or is about to, only when some dependency has finished as completed |
| TaskDag.LateEdgeHoldsNobody | src/TaskDAG.cpp:156-190 | the dependent of an edge counted when it was already starting has fired or is about to, in every run |
| TaskDag.LateEdgeIsNotAwaited | src/TaskDAG.cpp:156-190 | with a completed fire pending, an edge counted now does not keep the node from firing as completed |
| TaskDag.StartedBeforeDependency | src/TaskDAG.cpp:128-190 | a run in which an edge is added between Submit's look for roots and the fire, and the node starts before its dependency |
| TaskDag.EndsOnce | src/TaskDAG.cpp:336-400 | a node's life only moves forward, its outcome is fixed when its walk begins, and the end is final |
| TaskDag.CancellationReaches | src/TaskDAG.cpp:296-300 | every dependent of a cancelled node has fired or is about to, and an AND dependent that was not starting when the edge was counted does not start |
| TaskDag.CancelledDownstream | src/TaskDAG.cpp:336-351 | at rest every AND node downstream of a cancelled one, along edges counted before their dependent was starting, has ended as cancelled |
| TaskDag.CancelledOr | src/TaskDAG.cpp:296-300 | at rest an OR node whose dependencies were all cancelled, one of them counted before it was starting, has ended as cancelled |
| TaskDag.CancelStopsStarts | src/TaskDAG.cpp:318-351 | once the graph is cancelled, a node that has not started never does, in any continuation of the run |
| TaskDag.CancelEndsUnstarted | src/TaskDAG.cpp:318-351 | a node not started when the graph was cancelled has, at rest, ended as cancelled |
| TaskDag.AllEnd | src/TaskDAG.cpp:128-154 | once nothing runs and nothing is pending, every node of an acyclic graph has ended |
| TaskDag.CountsAreIncoming | src/TaskDAG.cpp:156-190 | before Submit, with every AddDependency returned, dependencies_left is what HasCycle demands |
| TaskDag.SubmitAccepts | src/TaskDAG.cpp:128-143 | the check that Submit makes on a built graph accepts exactly the acyclic ones |
| TaskDag.AcceptedGraphEnds | src/TaskDAG.cpp:128-154 | an accepted graph that gets no further edge has, at rest, ended every node |
| TaskDag.BooksAreTheCalls | src/TaskDAG.cpp:156-175 | the edges are those of the AddDependency calls, in order and the right way round; the graph is cancelled, submitted and signalled exactly when the caller said so |
| TaskDag.GraphIsTheCalls | src/TaskDAG.cpp:156-190 | the graph that HasCycle walks has an edge exactly where the caller asked for one |
| TaskDag.CompletedIsEarned | include/TaskDAG.h:38-44 | a node finishes as completed only if its task ran to its end, or its signal came |
| TaskDag.CancelledHasCause | src/TaskDAG.cpp:336-400 | a node finishes as cancelled only if the graph was cancelled, its task was refused or discarded, or a dependency finished as cancelled |
| TaskDag.UndisturbedCompletes | src/TaskDAG.cpp:281-400 | in a run without cancel, refusal or discard no node is ever cancelled, and at rest every node of an acyclic graph has ended as completed |
| TaskDag.TaskEndDecides | include/TaskDAG.h:38-50 | a node whose task ran finishes as completed, one whose task was discarded as cancelled, whatever follows |
| TaskDag.RefusalDecides | src/TaskDAG.cpp:377-399 | a task the scheduler refuses cancels its node for good; one it takes is queued |
| TaskDag.SignalDecides | src/TaskDAG.cpp:81-92 | a signal finishes an external node that waits for it as completed |
| TaskDag.EarlySignalCounts | src/TaskDAG.cpp:360-367 | a signal that came before the node was ready is not lost |
| TaskDag.NeverStuck | src/TaskDAG.cpp:128-400 | in a submitted graph that is not at rest something moves, given the end of a running task or an awaited signal |
| WheelTicks.PlacementTimely | src/Timer.cpp:273-286 | Place puts a deadline where the wheel looks no later than the deadline: the strong invariant |
| WheelTicks.AdvanceTimely | src/Timer.cpp:348-371 | an entry above level 0 that an advance does not pass stays as well placed as it was |
| WheelTicks.PassedIffRoundDue | src/Timer.cpp:354-369 | the slots AdvanceTo visits are exactly those whose round the advance passes |
| WheelTicks.HigherLevelsUnpassed | src/Timer.cpp:356-358 | the loop over levels may stop at the first whose round did not change |
| WheelTicks.DueIffInSlot | src/Timer.cpp:430-438 | among timely entries exactly the due ones are in the current slot of level 0 |
| WheelTicks.BareTickIff | src/Timer.cpp:452-456 | exactly when one entry survives a tick without cascading |
| TimerLists.UnlinkList | src/Timer.cpp:258-271 | unlinking removes one entry from its list and keeps the rest in order |
| TimerBits.NextOccupied | src/Timer.cpp:229-245 | the occupied slot nearest ahead, cyclically; 256 only for an empty level |
| TimerBits.LevelEmpty | src/Timer.cpp:224-227 | true exactly when no slot of the level is occupied |
| TimerLedger.TickForRoundsUp | src/Timer.cpp:487-490 | rounding is never early and late by less than a tick: a deadline is not reached before its time, and is reached once a tick has passed since |
| TimerLedger.TickForIsLeast | src/Timer.cpp:487-490 | TickFor is the first tick that begins no earlier than the time |
| TimerLedger.NowTickIsGreatest | src/Timer.cpp:220 | NowTick is the last tick that has begun |
| TimerLedger.NextPointIsAhead | src/Timer.cpp:496-524 | the next grid point is the first after the clock; this point is launched unless an instance is in flight, and every other one passed is counted as skipped, in both counts |
| TimerLedger.LedgerArm | src/Timer.cpp:631-648 | an armed entry gets a handle never issued before |
| TimerLedger.LedgerSettle | src/Timer.cpp:439-447 | settling keeps every issued handle armed or settled, not both, and nothing fires before its promised time |
| TimerLedger.LedgerRegrid | src/Timer.cpp:496-524 | a due periodic entry stays armed, for its next grid point |
| TimerLedger.LedgerCancel | src/Timer.cpp:526-534 | a cancelled record's entry goes back to the free list |
| TimerLedger.ArmedAndFree | src/Timer.cpp:303-322 | linked and free entries share the table out, and armedCount is the number of linked ones |
| TimerLedger.SettledOnceAndOnTime | src/Timer.cpp:419-467 | a handle is settled at most once, by a fire or a Disarm, and a one-shot with a positive delay fires no earlier than arm time + delay: a consequence of the invariant that LedgerArm, LedgerSettle, LedgerRegrid and LedgerCancel keep |
| TimerQueue.AdvanceKeepsTimely | src/Timer.cpp:348-371 | an advance no later than the next event keeps every entry and the strong invariant, cascades included |
| TimerQueue.AdvanceTimelyIff | src/Timer.cpp:629 | an advance to any tick keeps the strong invariant if and only if it overruns no entry of level 0 |
| TimerQueue.OverrunEntry | src/Timer.cpp:348-371 | an entry due at tick 5 that an advance to tick 6 leaves where it is gets looked at in tick 261 |
| TimerQueue.ArmOverruns | src/Timer.cpp:603-649 | arming for tick 5 and then arming with the clock at tick 6 leaves the first entry armed, not fired, and next looked at in tick 261 |
| TimerQueue.SlotHoldsExactlyTheDue | src/Timer.cpp:430-438 | in a timely wheel the current level-0 slot is exactly the set of entries whose deadline is due |
| TimerQueue.BareTickAllIff | src/Timer.cpp:452-456 | one tick without cascading keeps the strong invariant if and only if it strands no entry |
| TimerQueue.BareTickStrands | src/Timer.cpp:436-456 | from tick 250, with an in-flight periodic entry due at tick 255, the bare tick defers an entry due at tick 300 to tick 65792 |
| TimerQueue.BareTickRun | src/Timer.cpp:419-467 | arming for tick 300, starting a periodic task that fires in tick 155 and is in flight in tick 255, and two fire steps leave the one-shot armed and next looked at in tick 65792 |
| TimerQueue.NotYetDue | src/Timer.cpp:477-479 | no event up to a tick means nothing is due by then |
| TimerQueue.NobodyIsLate | src/Timer.cpp:472-483 | with nothing due, no armed one-shot is a whole tick past its time |
| TimerQueue.Wheel.Link | src/Timer.cpp:247-256 | the entry is first in its slot's list, the bitmap agrees, and no other entry changes |
| TimerQueue.Wheel.Unlink | src/Timer.cpp:258-271 | the entry leaves its list, the bitmap agrees, and no other entry changes |
| TimerQueue.Wheel.Place | src/Timer.cpp:273-286 | the entry is linked where the strong invariant wants it |
| TimerQueue.Wheel.Cascade | src/Timer.cpp:288-300 | every entry of the slot is placed again for the current tick, every other stays |
| TimerQueue.Wheel.NextEventTick | src/Timer.cpp:324-346 | the earliest tick at which any linked entry's slot is looked at, never before now; -1 when nothing is linked |
| TimerQueue.Wheel.AdvanceTo | src/Timer.cpp:348-371 | for any target, entries above level 0 whose round is passed are placed again and timely, all others stay, none is lost |
| TimerQueue.Wheel.Arm | src/Timer.cpp:603-649 | a fresh handle, live, placed for exactly the tick asked for, rounded up; every other entry is carried by the advance alone; the wheel stays timely unless the advance overran an entry |
| TimerQueue.Wheel.Disarm | src/Timer.cpp:651-669 | for every handle: true exactly for an issued one still armed, which it settles, and for one that names a periodic entry; otherwise nothing changes; the invariant is kept if and only if the handle names no periodic entry |
| TimerQueue.Wheel.FireSlot | src/Timer.cpp:430-450 | every due entry reached is dealt with, no other is touched, and the whole slot is reached unless 64 were handled |
| TimerQueue.Wheel.FirePeriodic | src/Timer.cpp:496-524 | the entry moves to its next grid point, after the current tick, and launches unless an instance is in flight |
| TimerQueue.Wheel.FireStep | src/Timer.cpp:419-467 | every entry stays where the advance carried it, or was due and is fired or placed at its next grid point; records move on only that way; something is handled if and only if a due entry is not idling; a timely wheel has nothing due left unless 64 were handled, and stays timely unless the only due entries idle |
| TimerQueue.Wheel.PollFire | src/Timer.cpp:472-483 | nothing fires that the clock has not reached; a poll of a timely wheel that fires nothing leaves no one-shot a whole tick past its time |
| TimerQueue.Wheel.Restart | src/Timer.cpp:388-396 | with nothing armed the wheel restarts at the present |
| TimerQueue.Wheel.StartPeriodic | src/Timer.cpp:692-711 | a new record with its first grid point, of at least one tick's interval, and a free entry placed for it; every other entry is carried by the advance alone |
| TimerQueue.Wheel.CancelPeriodic | src/Timer.cpp:526-534 | the record's entry is released once, whatever the number of calls |
| TimerQueue.Wheel.FinishPeriodic | src/Timer.cpp:538-546 | the instance is over, and cancelled if it asked to stop |
| SlabLists.TakeOk | include/SlabPool.h:255-260 | a slot off the front of a magazine belongs to the caller alone |
| SlabLists.GiveOk | include/SlabPool.h:281-286 | a slot that is on no list goes to the front of one |
| SlabLists.MoveOk | include/SlabPool.h:451-476 | one write moves a batch between lists and every slot stays in one place |
| SlabPool.OnePlace | include/SlabPool.h:118-136 | a slot is on at most one list, once, and its owner says which: a consequence of the invariant that SlabLists.TakeOk, GiveOk and MoveOk keep |
| SlabPool.SlabPool.Alloc | include/SlabPool.h:250-264 | the front slot of the magazine, refilled if empty; it was in no caller's hands and no other slot changes hands; null only with the magazine and the shared list empty and the slab used up, and with growth on only if every extent is full and no memory was had; with growth off the pool does not grow |
| SlabPool.SlabPool.Free | include/SlabPool.h:266-289 | the slot goes to the front of the magazine; one grown past twice the batch keeps its last batch and the rest goes to the front of the shared list |
| SlabPool.SlabPool.Refill | include/SlabPool.h:346-449 | as much of a batch as the shared list has, then as much as the slab has; from an extent only if both gave nothing and growth is on; none of it the caller's |
| SlabPool.SlabPool.Flush | include/SlabPool.h:451-466 | the magazine keeps one batch and the rest goes to the shared list |
| SlabPool.SlabPool.FindExtent | include/SlabPool.h:399-426 | the newest extent with room, all newer ones full, and nothing changes; or, all full and memory granted, a new one of 4096 raw slots behind the others; or none |
| SlabPool.SlabPool.Prefault | include/SlabPool.h:329-342 | as many slots as asked and left move to the shared list |
| SlabPool.SlabPool.ThreadExit | include/SlabPool.h:126-135 | a magazine of this pool comes home whole, in order; one of an earlier pool is dropped |
| SlabPool.SlabPool.GiveBack | include/SlabPool.h:469-476 | the whole magazine goes in front of the shared list |
| SlabPool.SlabPool.Local | include/SlabPool.h:144-152 | a stale magazine is emptied without being walked and takes this pool's generation; a current one, and every other thread's, is untouched |
| WaitList.WaitList.PushBack | include/WaitList.h:44-49 | the node is appended |
| WaitList.WaitList.PopFront | include/WaitList.h:52-60 | the oldest node, unlinked; null only when empty |
| WaitList.WaitList.TakeAll | include/WaitList.h:63-67 | the whole queue comes off as a chain, oldest first |
| WaitList.WaitList.Remove | include/WaitList.h:71-85 | one node is unlinked if and only if it was queued; the others keep their order |
| WaitList.WaitList.TakeIf | include/WaitList.h:88-103 | the queue is split in order into the nodes accepted and the rest |
| WaitList.FilterPositions | include/WaitList.h:87-103 | both halves of the split keep the order |
| Semaphore.Conservation | src/TaskScheduler.cpp:2961-3143 | initial permits + signals not dropped = permits + grants + signals in hand; a positive count means an empty queue; nobody granted or in a signaller's hands came after one still queued; the maximum holds |
| Semaphore.GrantsAreFifo | src/TaskScheduler.cpp:3084-3143 | a waiter granted or being decided on came before everyone still queued, and everyone who came before it is granted, being decided on or refused |
| Semaphore.BooksAreTheCalls | src/TaskScheduler.cpp:2961-3143 | tickets are the Wait calls that had to queue, with what they asked for; permits are taken without queueing by exactly the calls that found one; a signal is dropped only at the maximum; a signaller goes through the lock once for its call and once more for every cancelled waiter it woke |
| Semaphore.DecisionStands | src/TaskScheduler.cpp:3110-3118 | a popped waiter that could be cancelled and was is refused and the signal is in hand again; otherwise it has the permit |
| Semaphore.CancelRefusesExactly | src/TaskScheduler.cpp:3122-3143 | a cancellation refuses exactly the queued waiters whose Wait could be cancelled and carried a token within; the others stay in order |
| Semaphore.NoCancellationNoRefusal | src/TaskScheduler.cpp:3084-3143 | in a run without a cancellation nobody is refused |
| Semaphore.WokenOnce | src/TaskScheduler.cpp:3084-3143 | every waiter that queued is queued, in one signaller's hands, granted or refused, exactly one of these, and only a cancellable one is refused |
| Semaphore.QueuedMeansSpent | src/TaskScheduler.cpp:3094-3099 | with no signal in hand a queued waiter means every permit there was has been taken |
| Semaphore.StepInv | src/TaskScheduler.cpp:2961-3143 | every critical section and every decision of a signaller keeps the invariant |
| Semaphore.PickOrdered | src/TaskScheduler.cpp:3122-3127 | a cancellation leaves the other waiters queued in order |
| CursorRange.CursorExactlyOnce | src/TaskScheduler.cpp:889-917 | when RunCursorRange returns, every index was given to the body exactly once, whatever lanes were refused |
| CursorRange.CursorNeverTwice | src/TaskScheduler.cpp:896-916 | at every moment no index was given to the body twice, and none outside the range |
| CursorRange.CursorNeverStuck | src/TaskScheduler.cpp:896-917 | until the call returns some runner, or the caller, has a step to take |
| CursorRange.SliceSizes | src/TaskScheduler.cpp:899-904 | the body is never given an empty slice, nor one larger than the grain |
| CursorRange.StepInv | src/TaskScheduler.cpp:896-917 | every index the cursor has passed was called for or is in one runner's hands, and the group counts the lanes not finished |
| LazyRange.LazyExactlyOnce | src/TaskScheduler.cpp:1122-1211 | when RunLazyRange returns, every index was given to the body exactly once, whatever was split, seeded or refused |
| LazyRange.CountGuardsWork | src/TaskScheduler.cpp:1118-1121 | the group is not empty while any piece has work left, so nobody returns early |
| LazyRange.LazyNeverStuck | src/TaskScheduler.cpp:1122-1211 | until the call returns some piece, or the caller, has a step to take |
| LazyRange.SplitIsEven | src/TaskScheduler.cpp:1122-1150 | a split leaves two halves that meet, neither below the grain, that differ by at most one |
| LazyRange.BoundsClimb | src/TaskScheduler.cpp:1179-1182 | the seeded ranges are contiguous and run from start to end |
| LazyRange.StepInv | src/TaskScheduler.cpp:1122-1210 | every index was called for, or belongs to one piece, or to a part not seeded yet |
| RangePlan.Probe | src/TaskScheduler.cpp:1038-1064 | the probe gives a prefix of the range to the body, each index once, and stops at the cap or once the body has shown its cost |
| RangePlan.ChoosePlan | src/TaskScheduler.cpp:1006-1116 | what was run in place and what is planned make up the range, for every clock, cost, width and mode; all in place without a pool or below the minimum; a mode the caller chose is kept |
| RangePlan.PieceGrain | src/TaskScheduler.cpp:1101-1108 | the least grain that respects the caller's and the minimum and allows no more pieces than leaves |
| RangePlan.CursorLanes | src/TaskScheduler.cpp:889-890 | as many lanes as there are slices, but no more than workers |
| RangePlan.LazyParts | src/TaskScheduler.cpp:1174-1176 | as many parts as seeds and the caller, but none shorter than a grain, and at least one |
| RangePlan.EveryIndexOnce | src/TaskScheduler.cpp:1006-1211 | the probe, the in-place runs and any completed run of either mode together give every index of the range to the body exactly once |

## Left out

- Weak memory orderings and fences: steps are sequentially consistent.
- Widths: 32-bit index, version, generation and count wrap-around, 64-bit tick overflow, and the overflow of the cursor past `INT_MAX`.
- The deque's fatal ceilings, push-only mode and tag bits; allocation failure while growing it.
- The in-pool main thread: `threadWaiter`, its wait word and its part in the hunt; reserved (K) workers; stopping the pool.
- `size_approx` and every other advisory counter, statistic and retry probe.
- Reuse of a wait group while waiters are still arriving: its count may rise only while it is not zero.
- Hazard pointers, `Drain`, the bag limit and the never-swept warning.
- `CancelToken`: a token is a number and the tokens within another are a set given to the cancelling call.
- `cancelledDirect`, the note a task cancelled on an `Event` wakes up with.
- Coroutines waiting on an `Event`, yielding, `SwitchTo`, dead fibers, context switches, stacks, pins and affinity.
- Disposal and memory of graph nodes, tasks and edge blocks; what happens to the nodes of a graph that `Submit` refuses.
- The injector, placement of tasks on queues, and which worker runs a task.
- The timer thread's sleep, the published gate, the tokens and callbacks of a fired entry, and the launch of periodic instances.
- TimerQueue.Wheel.FinishPeriodic: the wake of a joiner and the freeing of a detached record are not modelled.
- SlabPool.SlabPool.Refill: the link of a batch's last slot is written when the batch is cut off the shared list, not at the end; both happen before anyone else can look.
- The two halves of a slab call are one step: slots that `refill`, `flush` or `giveBack` hold between the thread's own magazine and the locked shared list are never seen half-way. Nobody else reads a thread's magazine or its hands, and the shared part runs under the mutex, so the calls are as if made one after another.
- The slab's live counters, canaries, construction over a second live pool and destruction.
- `SchedulerMutex` and `SchedulerConditionVariable`, which use the same waiter queue.
- The remembered body cost table of `ParallelFor`: it is the parameter `rememberedNs`; the choice of seed targets is their number.
- I/O reactor, streams, futures, coroutine frames, memory heaps and the vendored queues.

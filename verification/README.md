# FlintOS kernel: a verified model

FlintOS is a preemptive two-core RTOS kernel. This project models its hard parts in Dafny and proves what
they promise over every input and every run.

- `AtomicRing.dfy` is the lock-free bounded queue: a transition system with one step per atomic access, any number
  of threads, and spurious failures of the weak compare-and-swap. `RingGuarantees.dfy` states what it promises
  in every run, `BackOff.dfy` exactly when a call has to back off, and `Retries.dfy` exactly when one gives up.
- `Tasks.dfy`, `Inheritance.dfy` and `Waiters.dfy` are the scheduler, the priority-inheritance mutex and the queue
  waiter lists as values and transitions; each transition is one critical section. `Kernel.dfy` puts them
  together as one state machine that both cores step in any interleaving, and shows that each section keeps
  its invariant; `Guarantees.dfy` states what follows for every run from boot.
- `Transitions.dfy`, `MutexOutcomes.dfy` and `SectionOutcomes.dfy` state what each operation and each section does,
  answers and leaves alone, and when it may run, from the states before and after it and with the source's
  numbers written out; `Waking.dfy` follows sleeping and waiting tasks to their deadlines.
- `Scheduler.dfy`, `MutexTable.dfy` and `QueueWaiters.dfy` are the objects the source updates in place, with
  its arrays and loops; every method is proved equal to the transition of the same name.
- `Interference.dfy` and `BlockingObjects.dfy` put semaphores, byte queues and recursive mutexes on top of the
  kernel; `Departures.dfy` and `Machines.dfy` add the deletion of their callers, and `LostWakeups.dfy` and
  `LossyRuns.dfy` settle when a wakeup can be lost. `Balances.dfy` counts what goes in and out of the objects, and
  `Timeouts.dfy` says when a caller may leave. `EventGroups.dfy` and `GroupBits.dfy` do all this for event groups.
  `ByteQueues.dfy` and `DynObjects.dfy` are the objects themselves.
- `Deletion.dfy` is deferred task deletion and its stacks. `StaleEntries.dfy`, `Purging.dfy`, `Stranding.dfy` and
  `ReusedSlots.dfy` are deletion and the waiter lists, and settle when a late purge does harm.
  `DeletionOutcomes.dfy` and `LeavingOutcomes.dfy` state when each step of either may happen and what it does.
- `Isolation.dfy` is the memory geometry of isolated tasks, `Deadlines.dfy` the arithmetic of timeouts.
  `Scenes.dfy` holds the concrete states of the runs that show something can happen; `Wrappers.dfy`,
  `Sequences.dfy`, `Arithmetic.dfy` and `BitMasks.dfy` are helpers.

`dafny verify dfyconfig.toml` checks everything.

Five things in the source turned out different from what its comments say. Each has its exact condition.

- The comments on `take`, `send`, `recv` and `lock` say that no wakeup is lost, because test and enrolment, and unit
  and wake, are one step each (kernel/src/dynobj.rs:203-213, 320-326, 437-441). Four things lose one all the same.
  The calls look at their own deadline only after a wake, before testing again (kernel/src/dynobj.rs:214-223,
  237-246, 333-350, 445-454): a caller woken past its deadline leaves without the unit it was woken for, and wakes
  nobody else. `delete_task` does not refuse a caller that has been woken and not yet tested (1156-1177), and its
  unit is nobody's either. `try_send`, `try_send_to_front` and `try_recv` (119-177), and `send` and `recv` from an
  interrupt (kernel/src/queue.rs:439-448), only test a byte queue: an item put in, or a slot freed, is announced
  to nobody. And a late purge takes a waiter off the list that wakes look at (see the fourth point).
  `LostExactlyWhen`: wakeups are never lost in any run if and only if every timeout is FOREVER, no byte queue is
  called by a bare test, no task inside a blocking call and about to test is deleted, and no slot is filled before
  the id of its former task has been purged. `GiveUpLoses`, `DeleteLoses` and `BareTestLoses` say exactly which
  single steps do the damage.
- `try_send` calls its back-off branch provably unreachable (api/src/queue.rs:118-126). Without spurious failures
  it is reachable, for every capacity, if and only if two threads send and somebody receives
  (`SendBacksOffExactly`), which the type's own use with several producers allows; `try_recv`'s is reachable if
  and only if two threads receive and somebody sends (`RecvBacksOffExactly`). The invariant shows that backing
  off is harmless.
- `MAX_WAKE` is 16 and the comment beside it says that this is the scheduler's task capacity
  (kernel/src/dynobj.rs:605-610), which is 32. Sixteen is enough for another reason: a waiter list holds at
  most sixteen and is served in order (`SetsReachEverybody`).
- `delete_task` and `reap_deleted` empty the slot in one critical section and call `forget_task` after it
  (kernel/src/dynobj.rs:1156-1183, 1515-1538), so that a deleted id cannot be woken once its slot is reused. But the
  slot can be reused in between. Then a wake of the old task's list ends the new task's wait
  (`MisdirectsExactlyWithReuse`), and the purge takes the new task off its own list, so that it is blocked for ever
  (`StrandsExactlyWithReuse`, `StrandedForEver`). Both happen in some run if and only if a slot may be
  filled before its old id has been purged; one purge is harmless exactly when the slot's present owner is in
  no unfinished wait (`PurgeIsHarmlessExactly`).
- `sleep_ms` is said to block until the target tick (kernel/src/timer.rs:5). But `on_tick` takes a target of 0 for
  "no deadline" (kernel/src/scheduler.rs:350-360), and `sleep_ms` does not avoid it as the queue waits do
  (kernel/src/timer.rs:27-32, kernel/src/queue.rs:174-180): `sleep_ms(0)` in tick 0, or a sleep whose target wraps
  to 0, never ends. `SleepHasNoEnd` has the exact condition, and `WakesOnTime` shows that every other sleep ends
  at the first tick at or after its target, and not before.

Modelling choices: `scheduler::with` and the locks nested in it make one atomic step, and a task whose switch was
requested resumes when it is next dispatched. The ready mask is the set of its one bits. The mutex's refusals are
those of a release build, where a wrong `unlock` returns; a debug build panics. Mutex addresses are not 0, which
marks a free entry. Idle tasks never block. `JoinCore` is core 1's two joining sections in one. In
`BlockingObjects.dfy` and `EventGroups.dfy` objects live at distinct addresses from boot to the end, and a task
that calls `RecursiveMutex::lock` passes its own id. A spawn may happen at any moment, from whichever core.

## Model

| member | source | states |
|---|---|---|
| RingGuarantees.RunInv | api/src/queue.rs:83-180 | After any schedule of any number of threads: `head <= tail <= head + N`, each slot in transfer is held by exactly the thread that won it, every queued position is being written by the one producer granted it or carries its message, every claimed position has been or is about to be copied by its one consumer |
| RingGuarantees.Fifo | api/src/queue.rs:83-180 | The k-th claimed position delivers the k-th accepted message, by exactly one consumer; with no consumer mid-copy the deliveries are a prefix of the acceptances |
| RingGuarantees.SlotOwnership | api/src/queue.rs:96-131 | No two threads mid-transfer share a slot; Writing or Reading means somebody holds it; a queued position's slot is never Free; a Ready slot is always a queued position's, even after stale threads have won slots and backed off |
| RingGuarantees.CopiesAreSound | api/src/queue.rs:117-119 | A published payload stays in its cell under every step until the copy-out that delivers it; a producer writes only an empty cell and a consumer reads only a full one |
| RingGuarantees.CommitIsTheOnlyEffect | api/src/queue.rs:112-162 | One access changes the abstract queue exactly when it commits: a send appends, a receive takes the front, which is what it will answer |
| RingGuarantees.FailedCallKeepsContents | api/src/queue.rs:126-131 | No step of a call that is not answered with success changes the abstract queue, whatever the other threads do |
| RingGuarantees.EmptyIsTruthful | api/src/queue.rs:139-143 | `Empty` is answered only at a `tail` load that finds the queue empty |
| RingGuarantees.FullIsTruthful | api/src/queue.rs:91-95 | A send gives up at its `head` load exactly when the queue was full at its `tail` load and nothing has been received since, or when everything queued then and something after it has been received |
| Retries.CallsFinish | api/src/queue.rs:89-90 | Every call ends within `5 (N + 1) + 1` of its own accesses, so within `N + 1` iterations, under any interference and any spurious failures; it goes on after each lost compare-and-swap of its position, and ends at a back-off exactly when it has lost `N + 1` |
| Retries.LosesExactly | api/src/queue.rs:109-116 | The compare-and-swap on a position is lost exactly when the position has moved since its load, or the swap fails for no reason |
| Retries.SendGivesUpExactly | api/src/queue.rs:89-131 | Under any interference `try_send` ends without success at an access exactly when that is its `head` load and finds the queue full, its claim and finds the slot in use, or its back-off after the `N + 1`-st lost swap on `tail`; any other back-off starts again with the same message |
| Retries.RecvGivesUpExactly | api/src/queue.rs:135-180 | Under any interference `try_recv` answers `Contended` exactly at a claim that finds no published message, or at its back-off after the `N + 1`-st lost swap on `head`; `Empty` exactly when `tail` is the `head` it loaded; any other back-off starts again |
| Retries.SendDespiteFailures | api/src/queue.rs:83-132 | While no other thread holds a slot, a lone `try_send` answers as an undisturbed one as long as its swaps fail for no reason at most `N` times, and gives up after one more |
| Retries.RecvDespiteFailures | api/src/queue.rs:135-180 | So does a lone `try_recv`: the oldest message, `Empty` exactly when nothing is queued, and `Contended` only after `N + 1` failures |
| RingGuarantees.UncontendedSend | api/src/queue.rs:83-132 | While no thread holds a slot, the others stalled wherever they like, `try_send` accepts exactly when fewer than N messages are queued, and appends |
| RingGuarantees.UncontendedRecv | api/src/queue.rs:135-180 | While no thread holds a slot, the others stalled wherever they like, `try_recv` delivers the oldest message, or `Empty` exactly when nothing is queued |
| BackOff.SendBacksOffExactly | api/src/queue.rs:109-126 | For every capacity and any threads, without spurious failures: the branch the comment calls unreachable is reached in some run if and only if two threads send and somebody receives |
| BackOff.RecvBacksOffExactly | api/src/queue.rs:160-174 | The consumer's back-off is reached in some run without spurious failures if and only if two threads receive and somebody sends: never with the single consumer the type is meant for |
| Tasks.RecomputeIsExact | kernel/src/scheduler.rs:273-282 | Recomputing one bit makes it exact whatever it was, and touches no other |
| Tasks.SetEffectiveMask | kernel/src/scheduler.rs:554-574 | Moving a task between levels keeps every bit of the mask exact |
| Tasks.TickMask | kernel/src/scheduler.rs:347-409 | A tick keeps every bit of the mask exact |
| Tasks.DispatchMask | kernel/src/armv6m.rs:148-157 | A switch keeps every bit of the mask exact |
| Tasks.TickNeverMissesPreemption | kernel/src/scheduler.rs:385-409 | With an exact mask, `on_tick` never answers false while a Ready task outranks the running one |
| Tasks.SliceEnds | kernel/src/scheduler.rs:395-408 | A running task that keeps a Ready peer at its level is asked to give way by the time its slice is used up |
| Tasks.PickIsMostUrgent | kernel/src/scheduler.rs:459-485 | No eligible task is more urgent than the one `schedule` picks, although it looks only at levels whose bit is set |
| Tasks.ScheduleIsDetermined | kernel/src/scheduler.rs:459-485 | What `schedule` may answer, first by level and then by turn, is one task in every state |
| Tasks.SwitchIsSafe | kernel/src/armv6m.rs:129-166 | With a pinned runnable idle task per core: a switch installs an eligible task with no more urgent one passed over, the panic cannot fire, and no task is then current on two cores |
| Transitions.TickDoes | kernel/src/scheduler.rs:347-405 | A tick makes exactly the sleeping or queue-blocked tasks with a deadline in 1..now Ready, with a full slice and no deadline, charges the core's own task one millisecond of its ten, and touches no other task |
| Transitions.TickAsksExactly | kernel/src/scheduler.rs:385-409 | With an exact mask a tick asks for a switch if and only if a runnable task is then more urgent than the core's own, or the core's own has used its slice up with a Ready task at its level |
| Transitions.UnblockDoes | kernel/src/scheduler.rs:522-551 | A task blocked on a queue, on a mutex or asleep becomes Ready with a full slice, and no other task changes |
| Transitions.YieldDoes | kernel/src/scheduler.rs:429-450 | A task gives its core away if and only if another Ready task that may run there, and that the other core does not run, is at least as urgent, an equal one included |
| Transitions.SwitchDoes | kernel/src/armv6m.rs:129-166 | With an exact mask a switch installs a runnable task that is unpinned or pinned to this core: the most urgent, and of its level the first after the one dispatched last; the task it replaces is Ready again if it was still running, and nothing else changes |
| Transitions.FairIsPick | kernel/src/scheduler.rs:459-485 | The other way round: `schedule` can choose that task |
| Scheduling.Scheduler.AllocId | kernel/src/scheduler.rs:241-252 | Takes the lowest free slot, or finds every slot taken and changes nothing |
| Scheduling.Scheduler.RecomputeReadyBit | kernel/src/scheduler.rs:273-282 | The scanning loop computes `Tasks.RecomputeReadyBit` |
| Scheduling.Scheduler.RecomputeReadyMask | kernel/src/scheduler.rs:264-269 | Rebuilds an exact mask from any mask |
| Scheduling.Scheduler.OnTick | kernel/src/scheduler.rs:347-409 | Computes `Tasks.OnTick`; every due sleep and queue wait is Ready afterwards with a full slice, only the core's own task is charged, and with an exact mask the answer is true exactly when the running task is outranked or its slice is over with a peer waiting |
| Scheduling.Scheduler.Schedule | kernel/src/scheduler.rs:459-485 | The nested scan returns the eligible task first by level and then by cyclic distance from the rotor, recording it, or the current task when there is none |
| Scheduling.Scheduler.YieldCurrent | kernel/src/scheduler.rs:429-450 | Gives up the core exactly when an allowed Ready task at least as urgent exists that no other core runs, and changes nothing but the yielding task's state |
| Scheduling.Scheduler.BlockCurrent | kernel/src/scheduler.rs:496-506 | Computes `Tasks.BlockCurrent` |
| Scheduling.Scheduler.Unblock | kernel/src/scheduler.rs:522-551 | Computes `Tasks.Unblock`: a task blocked in any way is Ready with a full slice |
| Scheduling.Scheduler.SetEffectivePriority | kernel/src/scheduler.rs:554-574 | Computes `Tasks.SetEffectivePriority` |
| Scheduling.Scheduler.BoostPriority | kernel/src/scheduler.rs:578-592 | Computes `Tasks.BoostPriority`: only ever lifts, and the first lift notes where from |
| Scheduling.Scheduler.SetInheritedPriority | kernel/src/scheduler.rs:597-604 | Computes `Tasks.SetInheritedPriority` |
| Scheduling.Scheduler.Switch | kernel/src/armv6m.rs:129-166 | Schedules and dispatches as `Tasks.Dispatch` does, or finds itself in the case where the handler panics |
| Inheritance.EffectivePriorityIsExact | kernel/src/mutex.rs:244-311 | When no boost is missing or left over, an effective priority is the most urgent base priority among the task and all tasks transitively blocked behind it, cycles included |
| Inheritance.EffectivePriorityIsInherited | kernel/src/mutex.rs:293-311 | Equivalently it is the minimum of the base and the effective priorities of all waiters on all mutexes the task owns |
| Inheritance.WalkReachesEveryOwner | kernel/src/mutex.rs:244-264 | Started at an owner, the MAX_MUTEXES-step walk visits exactly the tasks transitively waited for, cyclic or not |
| Inheritance.LockEnqueues | kernel/src/mutex.rs:142-153 | A blocking `lock` lifts exactly the tasks the caller now waits for to its priority, lists it last, blocks it and changes nothing else |
| Inheritance.LockTable | kernel/src/mutex.rs:96-165 | `lock` keeps the table and the task table in step: allocated iff owned, BlockedMutex iff listed once |
| Inheritance.LockPriorities | kernel/src/mutex.rs:130-153 | `lock` keeps every effective priority exact |
| Inheritance.BestWaiter | kernel/src/mutex.rs:268-289 | The most urgent waiter, the earliest among equals |
| Inheritance.MissingIsLeastUrgent | kernel/src/mutex.rs:268-289 | An id whose block is gone counts as less urgent than any task, so it is never handed a mutex before one and boosts nobody |
| Inheritance.UnlockReleases | kernel/src/mutex.rs:209-222 | `unlock` hands over to the best waiter, keeps the order of the others, and moves only the old owner's priority |
| Inheritance.UnlockTable | kernel/src/mutex.rs:175-223 | `unlock` keeps the table and the task table in step |
| Inheritance.UnlockPriority | kernel/src/mutex.rs:209-222 | `unlock` keeps every effective priority exact although it recomputes only one |
| MutexTables.TableOfSlots | kernel/src/mutex.rs:18-43 | The sixteen entries represent one map, which is full exactly when no entry is free |
| MutexTables.MutexTable.FindOrCreate | kernel/src/mutex.rs:49-65 | Finds the entry of an address, or claims a free one, or finds the table full and changes nothing |
| MutexTables.MutexTable.BoostChain | kernel/src/mutex.rs:244-264 | The walk computes `Inheritance.BoostChain` |
| MutexTables.MutexTable.Lock | kernel/src/mutex.rs:96-165 | On the array and the scheduler object, computes `Inheritance.Lock`; refuses, and then changes nothing, exactly in an interrupt, for the owner, behind eight waiters and for a seventeenth mutex; a free mutex becomes the caller's and nothing else changes |
| MutexTables.MutexTable.PopBestWaiter | kernel/src/mutex.rs:268-289 | The scan and the shifting loop take the best waiter out and keep the others in order |
| MutexTables.MutexTable.RecomputeOwnerPriority | kernel/src/mutex.rs:293-311 | The nested loops compute the inherited priority |
| MutexTables.MutexTable.Unlock | kernel/src/mutex.rs:175-223 | On the array and the scheduler object, computes `Inheritance.Unlock`; refuses, and then changes nothing, exactly when the caller does not own the mutex |
| Guarantees.BootInv | kernel/src/boot_rp2040.rs:145-198 | The state after both idle tasks are installed satisfies every invariant |
| Guarantees.StepInv | kernel/src/scheduler.rs:347-604 | Every critical section keeps every invariant: mask, running set, mutex table, inherited priorities, waiter lists |
| Guarantees.RunInv | kernel/src/scheduler.rs:347-604 | So they hold in every state of every run from boot, however the cores interleave |
| Guarantees.InheritanceIsExact | kernel/src/mutex.rs:130-153 | In every reachable state every effective priority is exactly the inherited one, in both forms |
| Guarantees.HoldersAreUrgent | kernel/src/mutex.rs:225-239 | In every reachable state whoever a blocked task transitively waits for is at least as urgent as it |
| Guarantees.MaskIsExact | kernel/src/scheduler.rs:273-295 | In every reachable state bit p is set iff a Ready or Running task has effective priority p |
| Guarantees.TicksPreempt | kernel/src/scheduler.rs:376-393 | No tick of any run answers false while a Ready task outranks the one that was running |
| Guarantees.SwitchesAreSafe | kernel/src/armv6m.rs:129-166 | Every switch of every run installs the most urgent eligible task, current nowhere else, and never panics |
| Guarantees.BoundedBypass | kernel/src/scheduler.rs:465-480 | A task eligible at every dispatch of its level and passed over each time sees fewer than MAX_TASKS of them, whatever else comes and goes |
| Guarantees.LockedUntilUnlock | kernel/src/mutex.rs:155-164 | From a `lock` that answers true until the task's own `unlock`, the task owns the mutex or is still blocked on it; so it owns it whenever it runs |
| Guarantees.MutexTableIsConsistent | kernel/src/mutex.rs:96-223 | In every reachable state an address is allocated iff owned by a live task, and a task is BlockedMutex on it iff listed there, once |
| Guarantees.HandsToMostUrgent | kernel/src/mutex.rs:205-216 | In every run `unlock` hands over to the most urgent waiter, the earliest among equals, and frees an uncontended entry |
| Guarantees.RefusalsChangeNothing | kernel/src/mutex.rs:96-204 | In every run a refused `lock` or `unlock` leaves the whole state as it was; `MutexTable.Lock` shows that the code gets there without boosting anybody first |
| MutexOutcomes.LockAnswers | kernel/src/mutex.rs:96-165 | Every `lock` of every run: refused without effect exactly in an interrupt, by the owner, behind eight waiters or for a seventeenth mutex; a free mutex becomes the caller's and nothing else changes; behind another owner the caller is blocked on it and listed last, and nobody else changes but in priority |
| MutexOutcomes.UnlockAnswers | kernel/src/mutex.rs:175-223 | Every `unlock` of every run: refused without effect exactly when the caller is not the owner; otherwise the first most urgent waiter owns the mutex and is Ready with a full slice, or the entry is free, and nobody else changes but the caller in priority |
| SectionOutcomes.EnrolSection | kernel/src/queue.rs:432-503 | A queue wait arms its deadline, and blocks the caller at the end of the list exactly when fewer than sixteen are on it and there is room for the address; no other task and no other list changes |
| SectionOutcomes.WakeSection | kernel/src/queue.rs:62-85 | A wake takes the first listed task still blocked in that direction off the list and makes it Ready, and changes nothing exactly when there is none |
| SectionOutcomes.ResumeSection | kernel/src/queue.rs:255-267 | A resumed waiter leaves its list if it is still on it, is told which, and touches nothing else |
| SectionOutcomes.SpawnSection | kernel/src/scheduler.rs:156-171 | A new task is Ready with a full slice, the priority and the affinity asked for, no deadline and no boost, and touches nothing else |
| SectionOutcomes.StopSection | kernel/src/timer.rs:27-33 | A sleep arms its target tick and blocks its caller, a suspension stops its caller, and neither touches anything else |
| SectionOutcomes.BootsWithIdleTasks | kernel/src/boot_rp2040.rs:145-198 | After boot there is one Ready idle task per core, pinned to it, at priority 48, and nothing else |
| SectionOutcomes.RunsExactly | kernel/src/scheduler.rs:347-604 | In every reachable state each section may run exactly when its caller is running outside any wait, a switch exactly to the task whose turn it is, a spawn exactly into an empty slot below idle priority |
| SectionOutcomes.StepsDo | kernel/src/scheduler.rs:347-604 | Every step of every run does just what these say, and no more |
| Waking.WakesOnTime | kernel/src/scheduler.rs:353-365 | In every run a task that sleeps until a tick other than 0 is asleep in every state up to the first tick at or after it, whatever is unlocked, woken or switched in between, and that tick makes it Ready |
| Waking.SleepHasNoEnd | kernel/src/timer.rs:27-32 | A `sleep_ms` never ends, in any run, if and only if its target tick is 0, that is at tick 0 for 0 ms, or when the sum wraps to 0 |
| Waking.TimesOutOnTime | kernel/src/scheduler.rs:353-365 | In every run a queue wait that no wake goes to lasts up to the first tick at or after its deadline, which ends it and makes the task Ready; without a deadline it lasts on |
| Guarantees.WakeXorTimeout | kernel/src/queue.rs:248-267 | `block_send` and `block_recv` answer true iff a wake popped the wait and false iff the tick expired it, never both |
| Guarantees.WakesAreFifo | kernel/src/queue.rs:62-85 | A wake goes to the longest waiting task that has not timed out, if there is one |
| Guarantees.ListedAtMostOnce | kernel/src/queue.rs:432-528 | Every task is listed at most once in the whole table, and only while its wait has not been popped |
| Waiters.FirstBlocked | kernel/src/queue.rs:62-85 | The first listed task still blocked in the expected state, if any |
| QueueWaiterTables.Push | kernel/src/queue.rs:39-47 | Appends, or refuses at sixteen |
| QueueWaiterTables.PopFirstBlocked | kernel/src/queue.rs:62-85 | Removes exactly the first waiter still blocked and leaves the stale ones before it in place |
| QueueWaiterTables.Remove | kernel/src/queue.rs:91-98 | Removes one entry and keeps the order of the rest |
| QueueWaiterTables.QueueWaiters.FindOrCreate | kernel/src/queue.rs:115-129 | Finds the lists of an address, or appends an entry, or finds the table full and changes nothing |
| QueueWaiterTables.QueueWaiters.Enrol | kernel/src/queue.rs:473-503 | On the arrays and the scheduler object, computes `Waiters.Enrol`: the deadline is armed even when there is no room |
| QueueWaiterTables.QueueWaiters.WakeOne | kernel/src/queue.rs:565-600 | Computes `Waiters.WakeOne` |
| QueueWaiterTables.QueueWaiters.Resume | kernel/src/queue.rs:255-267 | Computes `Waiters.Resume`: still listed means timed out |
| QueueWaiterTables.QueueWaiters.ForgetTask | kernel/src/queue.rs:609-617 | Takes the id out of every list of the table |
| StaleEntries.WakeCommutes | kernel/src/queue.rs:62-85 | A wake of a list that still holds deleted ids wakes whom it would wake without them, and leaves the same list but for them |
| StaleEntries.EnrolCommutes | kernel/src/queue.rs:473-503 | So does an enrolment, unless the deleted ids fill the list: then it is refused where there would be room |
| Purging.PurgeIsHarmlessExactly | kernel/src/queue.rs:609-617 | Forgetting an id keeps the waiter lists right if and only if the id's present owner, if any, is in no unfinished wait |
| Purging.ClearedInv | kernel/src/dynobj.rs:1156-1182 | Emptying a slot and purging its id in one step would keep every kernel invariant: mask, running set, mutex table, inherited priorities, waiter lists |
| Purging.StepOk | kernel/src/dynobj.rs:1148-1183 | With no slot filled before its id is purged, every section and every half of a deletion keeps the state one that differs from a correct one only by deleted ids in its lists |
| Purging.CleanWaits | kernel/src/queue.rs:62-98 | In such a state every unfinished wait is listed where it waits, and whoever a wake of any list finds is waiting on that list |
| Stranding.StrandedForEver | kernel/src/queue.rs:432-600 | A task blocked on a queue without a deadline and listed nowhere is blocked in every later state of every run, until it is deleted |
| ReusedSlots.ScriptRuns | kernel/src/dynobj.rs:1148-1183 | Twelve steps from boot make a run in which a task is deleted while it waits and its slot is filled before the purge |
| ReusedSlots.StrandsExactlyWithReuse | kernel/src/dynobj.rs:1177-1182 | Some run leaves a task blocked for ever if and only if a slot may be filled before its old id has been purged |
| ReusedSlots.MisdirectsExactlyWithReuse | kernel/src/queue.rs:602-608 | In some run a wake would end the wait of a task that is not waiting on that list, if and only if a slot may be filled before its old id has been purged |
| Interference.BystandersUndisturbed | kernel/src/queue.rs:432-562 | No section changes what a task it is not about is waiting for, except by popping, expiring or resuming it, and none stops a runnable bystander |
| Interference.SectionLists | kernel/src/queue.rs:539-600 | A list nobody on can time out changes only by enrolments and by wakes taking its first entry |
| BlockingObjects.WakeSettles | kernel/src/queue.rs:539-562 | A wake in the same section as a new unit leaves no more units than callers about to test, if anybody sleeps |
| BlockingObjects.GiveUpLoses | kernel/src/dynobj.rs:343-350 | A caller that leaves at its deadline loses a wakeup exactly when somebody sleeps and there is a unit for every caller about to test |
| BlockingObjects.BareTestLoses | kernel/src/queue.rs:439-448 | A bare test, a `try_` call or a turn from an interrupt, loses a wakeup exactly when it gets through to a byte queue with somebody asleep on the other side and a unit there for every caller about to test |
| Departures.DeleteLoses | kernel/src/dynobj.rs:1156-1182 | A deletion loses a wakeup exactly when the task was inside a blocking call and about to test, somebody sleeps for the same side of the same object, and there is a unit for every caller about to test |
| BlockingObjects.ActKeeps | kernel/src/dynobj.rs:193-475 | Every other action on semaphores, byte queues and recursive mutexes, a bare test of a semaphore or a mutex included, and every kernel section, loses none |
| Machines.ActCleans | kernel/src/queue.rs:62-85 | While lists hold deleted ids, every action does what it would do without them, or finds the list filled by them and enrols nobody |
| Machines.DoKeeps | kernel/src/dynobj.rs:193-475 | So every such action keeps the books and loses no wakeup also while deletions are under way |
| Machines.LeaveKeeps | kernel/src/dynobj.rs:1148-1183 | Every section of a deletion, of a self-delete and of a reaping pass keeps the books and loses no wakeup, unless it deletes a caller about to test |
| LostWakeups.NoLostWakeup | kernel/src/dynobj.rs:193-475 | In every run from boot, deletions included, in which calls wait forever, no byte queue is called by a bare test, no caller about to test is deleted and no slot is filled before its purge: while a task is blocked on an object, what is available numbers at most the runnable callers about to test it |
| LossyRuns.ScriptRuns | kernel/src/dynobj.rs:119-352 | Runs from boot in which a unit is left with a task asleep for it: for any finite timeout, by a deletion, by a bare put, and by a slot filled before its purge |
| LossyRuns.LostExactlyWhen | kernel/src/dynobj.rs:193-369 | Wakeups are never lost in any run if and only if the timeout is FOREVER, no byte queue is called by a bare test, no caller about to test is deleted, and no slot is filled before its old id has been purged |
| Balances.SucceedsExactly | kernel/src/dynobj.rs:119-433 | An attempt succeeds if and only if there is a permit, a record, a free slot, or a mutex that is free or the caller's own |
| Balances.Conserved | kernel/src/dynobj.rs:119-369 | In every run, deletions included, a semaphore holds its first permits and those given below the ceiling less those taken, and a byte queue its first records and those put less those got |
| Balances.NestedLocks | kernel/src/dynobj.rs:422-475 | In every run a recursive mutex is a task's exactly while that task has been granted it more often than it has unlocked it; meanwhile everybody else's attempt fails and its own succeeds; afterwards everybody's succeeds |
| Balances.TurnsOfCalls | kernel/src/dynobj.rs:193-255 | A call begins with the deadline of its own timeout; a turn ends it exactly when it succeeds and otherwise enrols the caller on the matching list without a deadline |
| Timeouts.NobodyLeavesEarly | kernel/src/dynobj.rs:211-223 | In every run a call that gives up has tested at least once, was not to wait for ever, and is at or past the tick at which its own timeout was over |
| Timeouts.ActsExactly | kernel/src/dynobj.rs:193-475 | A call may be begun, turned and left, an object given or unlocked, exactly when its caller is running outside any wait and the object has that operation; left only once tested and past its deadline |
| EventGroups.ActOk | kernel/src/dynobj.rs:515-596 | Every action keeps: a satisfied waiter at position i of the list is owed a pop by a `set` with more than i left |
| EventGroups.SetsReachEverybody | kernel/src/dynobj.rs:523-532 | Once all `set` calls on a group have made their pops, nobody asleep in `wait` has all, or any, of the bits it asks for there, in any interleaving and for any timeouts |
| EventGroups.ClearConsumes | kernel/src/dynobj.rs:566-580 | A wait that clears on exit leaves nobody satisfied who needs one of those bits, or has only those to hope for |
| GroupBits.ActBits | kernel/src/dynobj.rs:515-580 | A set adds its bits below the top byte to those that are there; a clear, or a wait that clears on exit, takes exactly its bits away; nothing else changes a bit |
| GroupBits.SetsAddUp | kernel/src/dynobj.rs:515-526 | In every run what a `set` found and what it brought are there together until somebody takes one of those bits away, and a wait for any or all of them is met |
| GroupBits.BitsStay | kernel/src/dynobj.rs:515-540 | In every run a bit that is set stays set until a clear, or a satisfied wait that clears on exit, names it |
| GroupBits.BitsComeFromSets | kernel/src/dynobj.rs:515-526 | In every run no bit appears but by a `set` that names it, and none in the top byte |
| GroupBits.WaitAsks | kernel/src/dynobj.rs:555-565 | A `wait` asks for the usable bits it is called with, any or all as called, with the deadline of its timeout |
| GroupBits.WaitEndsExactly | kernel/src/dynobj.rs:566-596 | A turn of a `wait` ends it exactly when what it asks for is there, and otherwise enrols the caller without a deadline |
| GroupBits.SetPops | kernel/src/dynobj.rs:523-532 | A `set` makes sixteen pops, one at once and fifteen more, of at most one waiter each |
| GroupBits.ActsExactly | kernel/src/dynobj.rs:515-596 | A `wait` for no usable bit is refused; one may be left exactly once it has tested and its deadline has come; sets, pops and clears need nothing but the group |
| ByteQueues.DynQueue.Create | kernel/src/dynobj.rs:71-90 | Refuses a zero dimension, an overflowing product and an empty heap; otherwise an empty queue |
| ByteQueues.DynQueue.TrySend | kernel/src/dynobj.rs:119-128 | Appends one record, or refuses a full queue and changes no byte; `tail == (head + len) % capacity` throughout |
| ByteQueues.DynQueue.TryRecv | kernel/src/dynobj.rs:134-143 | Removes the front record into the caller's buffer and writes nothing past it, or refuses and changes no byte |
| ByteQueues.DynQueue.TrySendToFront | kernel/src/dynobj.rs:164-177 | Prepends one record, or refuses a full queue and changes no byte |
| DynObjects.CountingSemaphore.Create | kernel/src/dynobj.rs:288-296 | Refuses a zero ceiling and more permits than the ceiling |
| DynObjects.CountingSemaphore.TryTake | kernel/src/dynobj.rs:312-318 | Takes one permit exactly when there is one, as `BlockingObjects.Claim` does |
| DynObjects.CountingSemaphore.Return | kernel/src/dynobj.rs:356-369 | One more is available, unless the ceiling is reached |
| DynObjects.OwnedMutex.TryLock | kernel/src/dynobj.rs:422-433 | Held exactly if it was free, then at depth one, or the caller's already, then one level deeper; as `BlockingObjects.Claim` |
| DynObjects.OwnedMutex.Unlock | kernel/src/dynobj.rs:460-475 | Only the owner gets through, and one becomes available exactly when the last level is released |
| DynObjects.EventBits.Set | kernel/src/dynobj.rs:515-526 | The bits that were set still are, the usable bits given are too, and no others; as `EventGroups.With` |
| DynObjects.EventBits.Clear | kernel/src/dynobj.rs:535-540 | Exactly the usable bits given are taken away, and the bits before are answered |
| DynObjects.EventBits.Take | kernel/src/dynobj.rs:566-580 | Answers the bits exactly when all, or any, of those wanted are set, and takes exactly those away if asked to |
| Deadlines.RemainingRestoresDeadline | kernel/src/queue.rs:174-212 | Re-arming with what remains restores an unexpired deadline iff what remains is below `u32::MAX`; otherwise the kernel waits forever |
| Deadlines.DeadlinesAgree | api/src/queue.rs:233-255 | The API's and the kernel's deadline are the same tick iff the sum is neither zero nor overflows |
| Deadlines.KernelDeadline | kernel/src/queue.rs:174-180 | The kernel's deadline is 0 exactly for a wait without end, and otherwise the wrapped sum, never 0 |
| Deadlines.KernelRemaining | kernel/src/queue.rs:203-212 | At any later tick a finite wait has just the rest of it left, and none exactly from its deadline on |
| Deadlines.RemainingIsFinite | api/src/queue.rs:233-255 | What remains of a finite wait is in `1..u32::MAX - 1`, never more than was asked for, and ends at the anchor |
| Deadlines.BlockingCall | api/src/queue.rs:261-326 | The retry loop: however often it is woken for nothing, every deadline it arms lies at the original anchor plus that turn's own delay |
| Isolation.MaskIsRemainder | hal/src/isolation.rs:53-59 | For every power of two, `x & (size - 1)` is the remainder and `x & !(size - 1)` what is left without it |
| Isolation.PowersAreDoublings | hal/src/isolation.rs:54-56 | The sizes accepted as powers of two are exactly the doublings of one |
| Isolation.AlignedIsMultiple | kernel/src/isolation.rs:23-29 | So the alignment mask holds exactly for multiples of the size, and rounding down by mask yields one |
| Isolation.ReserveIsSound | kernel/src/isolation.rs:16-32 | Granted blocks are aligned, disjoint, in order and inside the pool |
| Isolation.ReserveIsExact | kernel/src/isolation.rs:16-32 | If any aligned stack at or above the cursor and data block after it fit, the reservation succeeds, with the lowest of each |
| Isolation.SizeCheckIsExact | kernel/src/isolation.rs:81-83 | The size check `spawn` makes first holds exactly for the allowed sizes |
| Isolation.StackPool.AllocatePrivate | kernel/src/spawn.rs:51-58 | A new grant touches no earlier one; a refusal consumes no memory |
| Isolation.OverlapSharesAByte | hal/src/isolation.rs:103-105 | Two regions overlap iff they share a byte |
| Isolation.NewRegionExactly | hal/src/isolation.rs:53-66 | A region is accepted exactly when its size is a power of two of at least 256, divides its base, and the end does not overflow; each refusal has the error of the first rule broken |
| Isolation.NewStackExactly | hal/src/isolation.rs:70-77 | A stack exactly when it has 1024 bytes besides; its lowest eighth is not usable |
| Isolation.ContainsEveryByte | hal/src/isolation.rs:34-40 | A window contains a range exactly when the range is not empty and all its bytes are in the window |
| Isolation.NewTaskMemoryExactly | hal/src/isolation.rs:118-138 | A domain is accepted exactly when its entry is two bytes of executable code, its stack has a guard, no two regions share a byte and its data is plain memory; each refusal has the source's error |
| Isolation.DomainsAreSeparate | hal/src/isolation.rs:118-137 | Code, stack and data of an accepted domain share no byte, and nothing in it is both writable and executable |
| Isolation.FrameIsInside | hal/src/isolation.rs:151-156 | An exception frame is accepted iff the stack pointer is 8-aligned and all 64 bytes around it lie in the stack above its guard |
| Isolation.SpawnCannotPanic | kernel/src/isolation.rs:84-99 | With the code outside the pool and the entry inside the code, none of the three `expect`s of `spawn` can fire |
| Deletion.StepInv | kernel/src/dynobj.rs:1148-1185 | Spawning, deleting, self-deleting, reaping, freeing, switching, ticking, blocking and waking keep the books of stacks and the running set |
| Deletion.BootRuns | kernel/src/boot_rp2040.rs:145-198 | The state after boot has its books in order, so what follows holds of every run from boot |
| Deletion.FreesAreSafe | kernel/src/dynobj.rs:1182-1184 | Every free in every run gives back a stack that is out, once, and that no live task, so no core's current task, has |
| Deletion.NothingLeaks | kernel/src/dynobj.rs:1148-1185 | Every stack the heap has out is about to be freed or is exactly one live task's |
| Deletion.ClearedOnlyOffCore | kernel/src/dynobj.rs:1160-1170 | A slot is emptied only while the task is not Running and current on no core |
| Deletion.DeletingIsTerminal | kernel/src/dynobj.rs:1470-1494 | A Deleting task stays so until its slot is emptied, and no switch ever picks it |
| Deletion.ReapDeleted | kernel/src/dynobj.rs:1511-1544 | Undisturbed, the loop ends with no off-core Deleting task left, having emptied exactly those slots and freed exactly their heap stacks |
| DeletionOutcomes.StepsDo | kernel/src/dynobj.rs:1148-1185 | Every step of every run: `delete_task` deletes a task whatever it is blocked in, and refuses, changing nothing, exactly an empty slot, a task some core runs and one whose stack is not the heap's, each with its own error; the reaper takes the lowest doomed slot; a free gives one stack back; nothing else touches a stack |
| LeavingOutcomes.EventsExactly | kernel/src/dynobj.rs:1148-1183 | Beside the waiter lists and the callers: each section of a deletion may run exactly when its caller is there and the task runs nowhere; the first empties the slot and ends its call and leaves the lists, the second takes the id off every list and keeps the order of the others |

## Left out

- Wrap-around of the ring's `head` and `tail`, and weak memory order: positions are unbounded and steps sequentially consistent; a stale `tail` below `head` counts as full, as the wrapping subtraction makes it.
- `api::queue::send` and `recv` as waiters: they test outside the kernel lock and then block, so the gap that `test_or_enrol` closes is still there; only their retry arithmetic is modelled.
- `DynQueue::send_from_isr` as one call: its copy and its wake are separate steps, a bare test and a bare wake, and nothing is said about the moment between them.
- Deleting a task that owns a mutex or waits for one: `delete_task` does not look at the mutex table. `Deletion.dfy` has the stacks but no waiter lists, `Purging.dfy` the waiter lists but no stacks.
- A `clear` of an event group on the other core between a test's load and its update (kernel/src/dynobj.rs:535-580), both atomics outside the scheduler lock: the model makes each test and each clear one step. A `wait` from an interrupt, which only tests, is not modelled for event groups.
- The moment in `RecursiveMutex::unlock` between lowering the depth and taking the locks (kernel/src/dynobj.rs:460-475): the model makes it one step.
- Nested depth of a recursive mutex beyond `u32`, and ids and counts beyond their widths, except where an overflow is part of the behaviour (deadlines, addresses, `checked_mul`).
- Pending-switch flags, inter-core notifications, context save and restore, MPU programming, spinlocks, trap entry and the panic handler: an asked-for switch is a step that may happen.
- Which core calls `on_tick`: the model lets either one, and `TicksPreempt`, `SliceEnds` and the other tick properties are about the core that does. In the source that is the timekeeper alone (kernel/src/armv6m.rs:104-126); the other core only looks at its pending flag, so no slice ends there by itself.
- Deletion of tasks in runs of event groups, and a recursive mutex whose owner is deleted, which stays held.
- Sleeps across the wrap of the 64-bit tick, beyond the one that `SleepHasNoEnd` is about, and software timers.
- Round-robin fairness across cores for a pinned task while the other core dispatches at its level: the rotor is shared, and `BoundedBypass` counts only dispatches that could have chosen the task.
- Heap allocator, static stack pool beyond `reserve`, stack painting, diagnostics, drivers, boards and host tools.

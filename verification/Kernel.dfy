/** The kernel as one state machine: scheduler, mutex table and waiter lists together, stepped by
    any interleaving of the critical sections the two cores run. */
module Kernel {
  import opened Wrappers
  import opened Sequences
  import opened Tasks
  import opened Inheritance
  import opened Waiters

  /** One wait of one task, from its enrolment until it has resumed. `popped` and `expired` record
      how it ended, and `ticket` when it began; no step's outcome depends on them. */
  datatype Wait = Wait(addr: nat, send: bool, deadline: nat, ticket: nat, popped: bool, expired: bool)

  datatype State = State(
    s: Sched,
    mutexes: Table,
    lists: WaitTable,
    waits: seq<Option<Wait>>,
    tickets: nat,
    idle: seq<nat>)

  /** The critical sections. `core` is the calling core; a task-context section runs as that core's
      current task. Wakes and ticks may come from interrupts. */
  datatype Label =
    | LockMutex(core: nat, addr: nat, inInterrupt: bool)
    | UnlockMutex(core: nat, addr: nat)
    | EnrolOn(core: nat, addr: nat, send: bool, deadline: nat)
    | ResumeWait(core: nat)
    | WakeWaiter(addr: nat, send: bool)
    | Tick(core: nat, now: nat)
    | Switch(core: nat, next: nat)
    | JoinCore(core: nat)
    | Yield(core: nat)
    | Sleep(core: nat, until: nat)
    | Suspend(core: nat)
    | Spawn(id: nat, affinity: Affinity, priority: nat)

  function Current(k: State, core: nat): nat
    requires core < |k.s.current|
  {
    k.s.current[core]
  }

  /** The current task of `core` is executing, outside any wait, and is not an idle task. */
  predicate InTask(k: State, core: nat) {
    && Caller(k.s, core)
    && Current(k, core) < |k.waits|
    && k.waits[Current(k, core)].None?
    && Current(k, core) !in k.idle
  }

  /** When a section may run: what its callers in the source establish. */
  ghost predicate Enabled(k: State, step: Label)
  {
    && WellFormed(k.s) && |k.waits| == MAX_TASKS
    && (match step
        case LockMutex(core, addr, _) => InTask(k, core) && addr != 0
        case UnlockMutex(core, _) => InTask(k, core)
        case EnrolOn(core, _, _, _) => InTask(k, core)
        case ResumeWait(core) => Caller(k.s, core) && Current(k, core) < |k.waits| && k.waits[Current(k, core)].Some?
        case WakeWaiter(_, _) => true
        case Tick(core, _) => core < MAX_CORES && Live(k.s, Current(k, core))
        case Switch(core, next) =>
          core < MAX_CORES && Schedules(k.s, core, next)
        case JoinCore(core) => core < MAX_CORES && core < |k.idle| && Current(k, core) == NO_TASK
        case Yield(core) => Caller(k.s, core)
        case Sleep(core, _) => InTask(k, core)
        case Suspend(core) => InTask(k, core)
        case Spawn(id, _, priority) =>
          id < MAX_TASKS && k.s.tasks[id].None? && id < |k.waits| && k.waits[id].None? && priority < IDLE_PRIORITY)
  }

  function Expire(k: State, now: nat): seq<Option<Wait>>
    requires |k.s.tasks| == |k.waits|
  {
    seq(|k.waits|, i requires 0 <= i < |k.waits| =>
      if k.waits[i].Some? && k.s.tasks[i].Some? && Expired(k.s.tasks[i].value, now)
      then Some(k.waits[i].value.(expired := true)) else k.waits[i])
  }

  function NewTask(affinity: Affinity, priority: nat): Tcb {
    Tcb(affinity, priority, priority, Init, DEFAULT_QUANTUM_MS, 0, None, None)
  }

  ghost function Apply(k: State, step: Label): State
    requires Enabled(k, step)
  {
    match step
    case LockMutex(core, addr, inInterrupt) =>
      var (s', m', _) := Lock(k.s, k.mutexes, core, addr, inInterrupt);
      k.(s := s', mutexes := m')
    case UnlockMutex(core, addr) =>
      var (s', m', _) := Unlock(k.s, k.mutexes, core, addr);
      k.(s := s', mutexes := m')
    case EnrolOn(core, addr, send, deadline) =>
      var (s', w', ok) := Enrol(k.s, k.lists, core, addr, send, deadline);
      if ok then
        k.(s := s', lists := w', tickets := k.tickets + 1,
           waits := k.waits[Current(k, core) := Some(Wait(addr, send, deadline, k.tickets, false, false))])
      else k.(s := s', lists := w')
    case ResumeWait(core) =>
      var id := Current(k, core);
      var wait := k.waits[id].value;
      k.(lists := Resume(k.lists, wait.addr, wait.send, id).0, waits := k.waits[id := None])
    case WakeWaiter(addr, send) =>
      var (s', w', woken) := WakeOne(k.s, k.lists, addr, send);
      var waits' :=
        if woken.Some? && woken.value < |k.waits| && k.waits[woken.value].Some?
        then k.waits[woken.value := Some(k.waits[woken.value].value.(popped := true))] else k.waits;
      k.(s := s', lists := w', waits := waits')
    case Tick(core, now) => k.(s := OnTick(k.s, core, now), waits := Expire(k, now))
    case Switch(core, next) => k.(s := Dispatch(Rotated(k.s, core, next), core, next))
    case JoinCore(core) => k.(s := SetCurrent(k.s, core, k.idle[core]))
    case Yield(core) => k.(s := YieldCurrent(k.s, core))
    case Sleep(core, until) =>
      var cur := Current(k, core);
      k.(s := BlockCurrent(Put(k.s, cur, Task(k.s, cur).(sleepUntil := until)), core, BlockedSleep))
    case Suspend(core) => k.(s := BlockCurrent(k.s, core, Suspended))
    case Spawn(id, affinity, priority) =>
      k.(s := MakeReady(k.s.(tasks := k.s.tasks[id := Some(NewTask(affinity, priority))]), id))
  }

  // ── The waiter-list invariant ───────────────────────────────────────────────────────────────

  /** Everybody on a list is in an unfinished wait for it, in arrival order and at most once. */
  ghost predicate InOrder(list: seq<nat>, waits: seq<Option<Wait>>, addr: nat, send: bool) {
    && |list| <= MAX_LISTED
    && (forall i :: 0 <= i < |list| ==> list[i] < |waits| && WaitsFor(waits[list[i]], addr, send))
    && (forall i, j :: 0 <= i < j < |list| ==> waits[list[i]].value.ticket < waits[list[j]].value.ticket)
  }

  predicate WaitsFor(wait: Option<Wait>, addr: nat, send: bool) {
    wait.Some? && wait.value.addr == addr && wait.value.send == send && !wait.value.popped
  }

  ghost predicate ListOk(k: State, addr: nat, send: bool) {
    InOrder(ListOf(k.lists, addr, send), k.waits, addr, send)
  }

  /** A task's wait, its state and its listing agree: it is blocked until either a wake pops it or the
      tick expires it, never both; and it is listed exactly until a wake pops it. */
  predicate WaitAgrees(t: Option<Tcb>, w: Option<Wait>, listed: bool, tickets: nat) {
    match w
    case None => t.Some? ==> !t.value.state.BlockedSend? && !t.value.state.BlockedRecv?
    case Some(wait) =>
      && t.Some?
      && (listed <==> !wait.popped)
      && !(wait.popped && wait.expired)
      && wait.ticket < tickets
      && (wait.deadline == 0 ==> !wait.expired)
      && if wait.popped || wait.expired then Active(t.value)
         else t.value.state == BlockedState(wait.send) && t.value.sleepUntil == wait.deadline
  }

  predicate Listed(k: State, id: nat) {
    id < |k.waits| && k.waits[id].Some? && id in ListOf(k.lists, k.waits[id].value.addr, k.waits[id].value.send)
  }

  ghost predicate TaskOkIn(k: State, id: nat)
    requires |k.s.tasks| == |k.waits| == MAX_TASKS && id < MAX_TASKS
  {
    WaitAgrees(k.s.tasks[id], k.waits[id], Listed(k, id), k.tickets)
  }

  ghost predicate WaitsOk(k: State) {
    && |k.s.tasks| == |k.waits| == MAX_TASKS
    && (forall addr: nat, send: bool :: ListOk(k, addr, send))
    && (forall id: nat :: id < MAX_TASKS ==> TaskOkIn(k, id))
  }

  ghost predicate Inv(k: State) {
    && WellFormed(k.s)
    && MaskExact(k.s)
    && CoresOk(k.s, k.idle)
    && TableOk(k.s, k.mutexes)
    && PrioritiesOk(k.s, k.mutexes)
    && WaitsOk(k)
  }

  // ── What a section leaves alone ─────────────────────────────────────────────────────────────

  /** The fields the mutex invariants read. */
  ghost predicate SameInheritance(s: Sched, s': Sched) {
    && |s'.tasks| == |s.tasks|
    && forall i :: 0 <= i < |s.tasks| ==>
         && s'.tasks[i].Some? == s.tasks[i].Some?
         && (s.tasks[i].Some? ==> SameInheritanceOf(s.tasks[i].value, s'.tasks[i].value))
  }

  predicate SameInheritanceOf(t: Tcb, t': Tcb) {
    && t'.basePrio == t.basePrio
    && t'.priority == t.priority
    && t'.boostedFrom == t.boostedFrom
    && t'.blockedOnMutex == t.blockedOnMutex
    && t'.state.BlockedMutex? == t.state.BlockedMutex?
  }

  lemma SameTable(s: Sched, s': Sched, m: Table)
    requires SameInheritance(s, s') && TableOk(s, m)
    ensures TableOk(s', m)
  {
    forall a | a in m ensures EntryOk(s', m, a) { assert EntryOk(s, m, a); }
    forall id: nat ensures WaitOk(s', m, id) { assert WaitOk(s, m, id); }
  }

  lemma SamePriorities(s: Sched, s': Sched, m: Table)
    requires SameInheritance(s, s') && PrioritiesOk(s, m)
    ensures PrioritiesOk(s', m)
  {
    forall x: nat ensures Next(s', m, x) == Next(s, m, x) {}
    forall id: nat ensures BoostOk(s', m, id) {
      assert BoostOk(s, m, id);
      if Live(s, id) {
        var x: nat :| Live(s, x) && Task(s, x).basePrio == Task(s, id).priority && Behind(s, m, x, id);
        SameBehind(s, s', m, x, id);
        assert Task(s', x).basePrio == Task(s', id).priority;
      }
    }
  }

  lemma SameBehind(s: Sched, s': Sched, m: Table, x: nat, id: nat)
    requires forall y: nat :: Next(s', m, y) == Next(s, m, y)
    requires Behind(s, m, x, id)
    ensures Behind(s', m, x, id)
  {
    var k: nat :| Chain(s, m, x, k) == Some(id);
    ChainExtends(s, m, s', m, x, k);
  }

  /** The fields the waiter-list invariant reads: a task outside a wait may change state freely, but
      not into a queue wait, and one inside keeps its blocked state and deadline, or stays runnable. */
  ghost predicate SameWaiting(k: State, s': Sched) {
    && |s'.tasks| == |k.s.tasks| == |k.waits|
    && forall i :: 0 <= i < |k.s.tasks| ==>
         && s'.tasks[i].Some? == k.s.tasks[i].Some?
         && (k.s.tasks[i].Some? ==> WaitingKept(k.waits[i], k.s.tasks[i].value, s'.tasks[i].value))
  }

  predicate WaitingKept(wait: Option<Wait>, t: Tcb, t': Tcb) {
    if wait.None? then
      t'.state == t.state || (!t'.state.BlockedSend? && !t'.state.BlockedRecv?)
    else
      (t'.state == t.state && t'.sleepUntil == t.sleepUntil) || (Active(t) && Active(t'))
  }

  lemma SameWaits(k: State, s': Sched)
    requires WaitsOk(k) && SameWaiting(k, s')
    ensures WaitsOk(k.(s := s'))
  {
    var k' := k.(s := s');
    forall addr: nat, send: bool ensures ListOk(k', addr, send) { assert ListOk(k, addr, send); }
    forall id: nat | id < MAX_TASKS ensures TaskOkIn(k', id) { assert TaskOkIn(k, id); }
  }

  // ── Every section keeps the invariant ───────────────────────────────────────────────────────

  /** A section that changes nothing but the scheduler, and that only as far as the frames allow. */
  lemma SchedulerStep(k: State, s': Sched)
    requires Inv(k) && WellFormed(s') && MaskExact(s')
    requires SameInheritance(k.s, s') && SameRunning(k.s, s', k.idle) && SameWaiting(k, s')
    ensures Inv(k.(s := s'))
  {
    SameTable(k.s, s', k.mutexes);
    SamePriorities(k.s, s', k.mutexes);
    SameCores(k.s, s', k.idle);
    SameWaits(k, s');
  }

  /** The caller's block becomes `t`, and nothing else about any task changes. */
  lemma OwnBlockFrames(k: State, cur: nat, t: Tcb, s': Sched)
    requires WellFormed(k.s) && |k.waits| == MAX_TASKS && Live(k.s, cur)
    requires s'.tasks == k.s.tasks[cur := Some(t)] && s'.current == k.s.current && s'.lastRun == k.s.lastRun
    requires SameInheritanceOf(Task(k.s, cur), t) && RunningKept(Task(k.s, cur), t, cur in k.idle)
    requires WaitingKept(k.waits[cur], Task(k.s, cur), t)
    ensures WellFormed(s') && SameInheritance(k.s, s') && SameRunning(k.s, s', k.idle) && SameWaiting(k, s')
  {
    forall i: nat | i < MAX_TASKS ensures TaskOk(s'.tasks[i]) { assert TaskOk(k.s.tasks[i]); }
  }

  lemma YieldInv(k: State, core: nat)
    requires Inv(k) && Enabled(k, Yield(core))
    ensures Inv(Apply(k, Yield(core)))
  {
    var cur := Current(k, core);
    YieldMask(k.s, core);
    assert |k.waits| == MAX_TASKS && TaskOkIn(k, cur);
    hide Inv, MaskExact, HasPeer, WellFormed;
    if HasPeer(k.s, core) {
      OwnBlockFrames(k, cur, Task(k.s, cur).(state := Ready), YieldCurrent(k.s, core));
      hide YieldCurrent, SameInheritance, SameRunning, SameWaiting;
      SchedulerStep(k, YieldCurrent(k.s, core));
    }
  }

  /** A caller outside any wait that stops running, without joining a queue, keeps the invariant. */
  lemma StopInv(k: State, core: nat, t: Tcb, s': Sched)
    requires Inv(k) && InTask(k, core) && MaskExact(s')
    requires s'.tasks == k.s.tasks[Current(k, core) := Some(t)]
    requires s'.current == k.s.current && s'.lastRun == k.s.lastRun
    requires t == Task(k.s, Current(k, core)).(state := t.state, sleepUntil := t.sleepUntil)
    requires t.state.BlockedSleep? || t.state.Suspended? || t.state.Deleting?
    ensures Inv(k.(s := s'))
  {
    var cur := Current(k, core);
    assert |k.waits| == MAX_TASKS && WaitOk(k.s, k.mutexes, cur);
    assert SameInheritanceOf(Task(k.s, cur), t) && WellFormed(k.s);
    hide Inv, MaskExact;
    OwnBlockFrames(k, cur, t, s');
    hide WellFormed, SameInheritance, SameRunning, SameWaiting;
    SchedulerStep(k, s');
  }

  lemma SleepInv(k: State, core: nat, until: nat)
    requires Inv(k) && Enabled(k, Sleep(core, until))
    ensures Inv(Apply(k, Sleep(core, until)))
  {
    var cur := Current(k, core);
    var armed := Put(k.s, cur, Task(k.s, cur).(sleepUntil := until));
    MaskKept(k.s, armed);
    BlockMask(armed, core, BlockedSleep);
    hide Inv, MaskExact, WellFormed;
    var asleep := Task(k.s, cur).(state := BlockedSleep, sleepUntil := until);
    StopInv(k, core, asleep, BlockCurrent(armed, core, BlockedSleep));
  }

  lemma SuspendInv(k: State, core: nat)
    requires Inv(k) && Enabled(k, Suspend(core))
    ensures Inv(Apply(k, Suspend(core)))
  {
    BlockMask(k.s, core, Suspended);
    hide Inv, MaskExact, WellFormed;
    StopInv(k, core, Task(k.s, Current(k, core)).(state := Suspended), BlockCurrent(k.s, core, Suspended));
  }

  lemma SwitchInv(k: State, core: nat, next: nat)
    requires Inv(k) && Enabled(k, Switch(core, next))
    ensures Inv(Apply(k, Switch(core, next)))
  {
    SwitchIsSafe(k.s, k.idle, core, next);
    var s' := Dispatch(Rotated(k.s, core, next), core, next);
    DispatchFrames(k, core, next);
    hide Dispatch, Rotated, MaskExact, CoresOk, IsPick, SameInheritance, SameWaiting, TableOk, PrioritiesOk, WaitsOk;
    SameTable(k.s, s', k.mutexes);
    SamePriorities(k.s, s', k.mutexes);
    SameWaits(k, s');
  }

  lemma DispatchFrames(k: State, core: nat, next: nat)
    requires WellFormed(k.s) && core < MAX_CORES && IsPick(k.s, core, next) && |k.waits| == MAX_TASKS
    ensures
      var s' := Dispatch(Rotated(k.s, core, next), core, next);
      SameInheritance(k.s, s') && SameWaiting(k, s')
  {
    var rotated := Rotated(k.s, core, next);
    assert rotated.tasks == k.s.tasks && rotated.current == k.s.current;
    DispatchEffect(rotated, core, next);
    assert Live(k.s, next) && Active(Task(k.s, next));
    hide Dispatch, Rotated, WellFormed, IsPick;
  }

  lemma JoinInv(k: State, core: nat)
    requires Inv(k) && Enabled(k, JoinCore(core))
    ensures Inv(Apply(k, JoinCore(core)))
  {
    var idle := k.idle[core];
    assert CoreOk(k.s, k.idle, core) && CoreOk(k.s, k.idle, 1 - core);
    assert TaskOk(k.s.tasks[idle]);
    SetCurrentMask(k.s, core, idle);
    var s' := SetCurrent(k.s, core, idle);
    SameTable(k.s, s', k.mutexes);
    SamePriorities(k.s, s', k.mutexes);
    SameWaits(k, s');
    JoinCores(k, core);
  }

  lemma JoinCores(k: State, core: nat)
    requires Inv(k) && Enabled(k, JoinCore(core))
    ensures var s' := SetCurrent(k.s, core, k.idle[core]); WellFormed(s') && CoresOk(s', k.idle)
  {
    hide MaskExact, TableOk, PrioritiesOk, WaitsOk;
    var idle := k.idle[core];
    var s' := SetCurrent(k.s, core, idle);
    assert CoreOk(k.s, k.idle, core) && CoreOk(k.s, k.idle, 1 - core);
    assert TaskOk(k.s.tasks[idle]);
    assert s'.current[core] == idle && s'.current[1 - core] == k.s.current[1 - core];
    assert CoreOk(s', k.idle, core) && CoreOk(s', k.idle, 1 - core);
    forall id: nat | id < MAX_TASKS ensures RunningOk(s', id) {
      assert RunningOk(k.s, id);
      if id in k.s.current { assert id == k.s.current[1 - core]; }
    }
  }

  lemma LockInv(k: State, core: nat, addr: nat, inInterrupt: bool)
    requires Inv(k) && Enabled(k, LockMutex(core, addr, inInterrupt))
    ensures Inv(Apply(k, LockMutex(core, addr, inInterrupt)))
  {
    var (s', m', outcome) := Lock(k.s, k.mutexes, core, addr, inInterrupt);
    LockTable(k.s, k.mutexes, core, addr, inInterrupt);
    LockPriorities(k.s, k.mutexes, core, addr, inInterrupt);
    if outcome.Enqueued? {
      LockEnqueues(k.s, k.mutexes, core, addr);
      EnqueuedFrames(k, core, addr, s', m');
    } else {
      assert s' == k.s;
    }
    MutexStep(k, s', m');
  }

  /** A section of the mutex: the table invariants are its own business, the others are framed. */
  lemma MutexStep(k: State, s': Sched, m': Table)
    requires Inv(k) && WellFormed(s') && MaskExact(s') && TableOk(s', m') && PrioritiesOk(s', m')
    requires s' == k.s || (SameRunning(k.s, s', k.idle) && SameWaiting(k, s'))
    ensures Inv(k.(s := s', mutexes := m'))
  {
    hide MaskExact, TableOk, PrioritiesOk, TaskOkIn, ListOk;
    if s' != k.s {
      SameCores(k.s, s', k.idle);
      SameWaits(k, s');
    }
    WaitsDependOn(k.(s := s'), k.(s := s', mutexes := m'));
  }

  /** The waiter-list invariant does not look at the mutex table. */
  lemma WaitsDependOn(k: State, k': State)
    requires k'.s == k.s && k'.lists == k.lists && k'.waits == k.waits && k'.tickets == k.tickets
    ensures WaitsOk(k) ==> WaitsOk(k')
  {
    if WaitsOk(k) {
      forall addr: nat, send: bool ensures ListOk(k', addr, send) { assert ListOk(k, addr, send); }
      forall id: nat | id < MAX_TASKS ensures TaskOkIn(k', id) { assert TaskOkIn(k, id); }
    }
  }

  /** What the frames say about one task. */
  predicate TaskFramed(k: State, s': Sched, i: nat) {
    && i < |k.s.tasks| && i < |s'.tasks| && i < |k.waits|
    && TaskOk(s'.tasks[i]) && s'.tasks[i].Some? == k.s.tasks[i].Some?
    && (k.s.tasks[i].Some? ==>
          && RunningKept(k.s.tasks[i].value, s'.tasks[i].value, i in k.idle)
          && WaitingKept(k.waits[i], k.s.tasks[i].value, s'.tasks[i].value))
  }

  lemma TasksFramed(k: State, s': Sched)
    requires WellFormed(k.s) && |k.waits| == |s'.tasks| == MAX_TASKS
    requires s'.current == k.s.current && s'.lastRun == k.s.lastRun
    requires forall i: nat :: i < MAX_TASKS ==> TaskFramed(k, s', i)
    ensures WellFormed(s') && SameRunning(k.s, s', k.idle) && SameWaiting(k, s')
  {
    hide TaskOk, RunningKept, WaitingKept;
    forall i: nat | i < MAX_TASKS
      ensures TaskOk(s'.tasks[i]) && s'.tasks[i].Some? == k.s.tasks[i].Some?
      ensures k.s.tasks[i].Some? ==>
                && RunningKept(k.s.tasks[i].value, s'.tasks[i].value, i in k.idle)
                && WaitingKept(k.waits[i], k.s.tasks[i].value, s'.tasks[i].value)
    {
      assert TaskFramed(k, s', i);
    }
  }

  lemma EnqueuedFrames(k: State, core: nat, addr: nat, s': Sched, m': Table)
    requires Inv(k) && InTask(k, core)
    requires EnqueuedOn(k.s, k.mutexes, Current(k, core), addr, s', m')
    ensures WellFormed(s') && SameRunning(k.s, s', k.idle) && SameWaiting(k, s')
  {
    assert |k.waits| == MAX_TASKS;
    forall i: nat | i < MAX_TASKS ensures TaskFramed(k, s', i) { EnqueuedFrame(k, core, addr, s', m', i); }
    hide Behind, Inv, InTask, TaskFramed;
    TasksFramed(k, s');
  }

  lemma EnqueuedFrame(k: State, core: nat, addr: nat, s': Sched, m': Table, i: nat)
    requires Inv(k) && InTask(k, core) && i < MAX_TASKS
    requires EnqueuedOn(k.s, k.mutexes, Current(k, core), addr, s', m')
    ensures TaskFramed(k, s', i)
  {
    assert |k.waits| == MAX_TASKS && TaskOk(k.s.tasks[i]) && TaskOk(k.s.tasks[Current(k, core)]);
    hide Behind, Inv;
    assert Live(s', i) == Live(k.s, i);
    if Live(k.s, i) { assert Task(s', i) == s'.tasks[i].value; }
  }

  lemma UnlockInv(k: State, core: nat, addr: nat)
    requires Inv(k) && Enabled(k, UnlockMutex(core, addr))
    ensures Inv(Apply(k, UnlockMutex(core, addr)))
  {
    var (s', m', released) := Unlock(k.s, k.mutexes, core, addr);
    var k' := Apply(k, UnlockMutex(core, addr));
    if released {
      var cur := Current(k, core);
      UnlockReleases(k.s, k.mutexes, core, addr);
      UnlockMask(k.s, k.mutexes, core, addr);
      UnlockTable(k.s, k.mutexes, cur, addr, s', m');
      forall id: nat ensures BoostOk(s', m', id) { UnlockPriority(k.s, k.mutexes, cur, addr, s', m', id); }
      assert Inherited(s', m', cur) <= BasePriority(s', cur);
      assert TaskOk(k.s.tasks[cur]);
      ReleasedFrames(k, core, addr, s', m');
      MutexStep(k, s', m');
    } else {
      assert k' == k;
    }
  }

  lemma ReleasedFrames(k: State, core: nat, addr: nat, s': Sched, m': Table)
    requires Inv(k) && InTask(k, core)
    requires ReleasedOn(k.s, k.mutexes, Current(k, core), addr, s', m')
    requires Task(s', Current(k, core)).priority < NUM_PRIORITIES
    ensures WellFormed(s') && SameRunning(k.s, s', k.idle) && SameWaiting(k, s')
  {
    var heir := Heir(k.s, k.mutexes, addr);
    assert |k.waits| == MAX_TASKS;
    if heir.Some? { HeirIsWaiting(k, addr); }
    hide Inherited, Heir, Inv;
    forall i: nat | i < MAX_TASKS ensures TaskFramed(k, s', i) { ReleasedFrame(k, core, addr, s', m', i); }
    hide InTask, TaskFramed;
    TasksFramed(k, s');
  }

  lemma ReleasedFrame(k: State, core: nat, addr: nat, s': Sched, m': Table, i: nat)
    requires WellFormed(k.s) && |k.waits| == MAX_TASKS && InTask(k, core) && i < MAX_TASKS
    requires ReleasedOn(k.s, k.mutexes, Current(k, core), addr, s', m')
    requires Task(s', Current(k, core)).priority < NUM_PRIORITIES
    requires Heir(k.s, k.mutexes, addr) == Some(i) ==> k.waits[i].None?
    ensures TaskFramed(k, s', i)
  {
    var cur := Current(k, core);
    assert TaskOk(k.s.tasks[i]) && Live(s', cur);
    ReleasedBlock(k.s, k.mutexes, cur, addr, s', m', i);
    hide WellFormed, Heir, ReleasedOn;
  }

  /** A release, one block at a time. */
  lemma ReleasedBlock(s: Sched, m: Table, cur: nat, addr: nat, s': Sched, m': Table, i: nat)
    requires ReleasedOn(s, m, cur, addr, s', m') && i < |s.tasks|
    ensures s'.tasks[i].Some? == s.tasks[i].Some?
    ensures s.tasks[i].Some? ==>
              var t, t' := s.tasks[i].value, s'.tasks[i].value;
              if i == cur then
                t' == t.(priority := t'.priority,
                         boostedFrom := if t'.priority >= t.basePrio then None else t.boostedFrom)
              else if Heir(s, m, addr) == Some(i) then
                t' == t.(state := Ready, quantum := DEFAULT_QUANTUM_MS, blockedOnMutex := None)
              else t' == t
  {
    hide Heir;
    assert Live(s', i) == Live(s, i);
    if Live(s, i) { assert Task(s', i) == s'.tasks[i].value; }
  }

  lemma HeirIsWaiting(k: State, addr: nat)
    requires Inv(k) && addr in k.mutexes && Heir(k.s, k.mutexes, addr).Some?
    ensures
      var heir := Heir(k.s, k.mutexes, addr).value;
      heir < MAX_TASKS && Live(k.s, heir) && Task(k.s, heir).state.BlockedMutex? && k.waits[heir].None?
  {
    var heir := Heir(k.s, k.mutexes, addr).value;
    hide PrioritiesOk, MaskExact, CoresOk, BestWaiter;
    assert EntryOk(k.s, k.mutexes, addr) && heir in k.mutexes[addr].waiters;
    assert WaitOk(k.s, k.mutexes, heir) && TaskOkIn(k, heir);
  }

  lemma TickInv(k: State, core: nat, now: nat)
    requires Inv(k) && Enabled(k, Tick(core, now))
    ensures Inv(Apply(k, Tick(core, now)))
  {
    var s' := OnTick(k.s, core, now);
    TickMask(k.s, core, now);
    TickFrames(k.s, k.idle, core, now);
    TickWaits(k, core, now);
    hide MaskExact, TaskOkIn, ListOk, OnTick, SameInheritance, SameRunning, TableOk, PrioritiesOk, CoresOk;
    SameTable(k.s, s', k.mutexes);
    SamePriorities(k.s, s', k.mutexes);
    SameCores(k.s, s', k.idle);
  }

  lemma TickFrames(s: Sched, idle: seq<nat>, core: nat, now: nat)
    requires WellFormed(s) && core < MAX_CORES
    ensures var s' := OnTick(s, core, now); WellFormed(s') && SameInheritance(s, s') && SameRunning(s, s', idle)
  {
    forall i: nat | i < MAX_TASKS ensures TaskOk(OnTick(s, core, now).tasks[i]) { assert TaskOk(s.tasks[i]); }
  }

  lemma TickWaits(k: State, core: nat, now: nat)
    requires WellFormed(k.s) && WaitsOk(k) && core < MAX_CORES
    ensures WaitsOk(k.(s := OnTick(k.s, core, now), waits := Expire(k, now)))
  {
    var k' := k.(s := OnTick(k.s, core, now), waits := Expire(k, now));
    forall addr: nat, send: bool ensures ListOk(k', addr, send) { assert ListOk(k, addr, send); }
    forall id: nat | id < MAX_TASKS ensures TaskOkIn(k', id) { assert TaskOkIn(k, id); }
  }

  lemma SpawnInv(k: State, id: nat, affinity: Affinity, priority: nat)
    requires Inv(k) && Enabled(k, Spawn(id, affinity, priority))
    ensures Inv(Apply(k, Spawn(id, affinity, priority)))
  {
    var k' := Apply(k, Spawn(id, affinity, priority));
    var s' := k'.s;
    var added := k.s.(tasks := k.s.tasks[id := Some(NewTask(affinity, priority))]);
    AddedMask(k.s, id, NewTask(affinity, priority));
    MakeReadyMask(added, id);
    assert forall i: nat :: i < MAX_TASKS && i != id ==> s'.tasks[i] == k.s.tasks[i];
    hide MaskExact, BitExact, ActiveAt;
    forall i: nat | i < MAX_TASKS ensures TaskOk(s'.tasks[i]) && RunningOk(s', i) {
      assert TaskOk(k.s.tasks[i]) && RunningOk(k.s, i);
    }
    forall c: nat | c < MAX_CORES ensures CoreOk(s', k.idle, c) { assert CoreOk(k.s, k.idle, c); }
    SpawnTable(k, s', id);
    SpawnWaits(k, s', id);
  }

  lemma SpawnTable(k: State, s': Sched, id: nat)
    requires Inv(k) && id < MAX_TASKS && k.s.tasks[id].None? && |s'.tasks| == MAX_TASKS && s'.tasks[id].Some?
    requires forall i: nat :: i < MAX_TASKS && i != id ==> s'.tasks[i] == k.s.tasks[i]
    requires
      var t := Task(s', id);
      t.state.Ready? && t.priority == t.basePrio && t.boostedFrom.None? && t.blockedOnMutex.None?
    ensures TableOk(s', k.mutexes) && PrioritiesOk(s', k.mutexes)
  {
    var m := k.mutexes;
    forall a | a in m ensures EntryOk(s', m, a) { assert EntryOk(k.s, m, a); }
    forall x: nat ensures WaitOk(s', m, x) { assert WaitOk(k.s, m, x); }
    forall x: nat ensures Next(s', m, x) == Next(k.s, m, x) { assert WaitOk(k.s, m, x); }
    forall x: nat ensures BoostOk(s', m, x) {
      assert BoostOk(k.s, m, x);
      if x == id {
        assert Chain(s', m, id, 0) == Some(id);
        assert Behind(s', m, id, id);
      } else if Live(k.s, x) {
        var y: nat :| Live(k.s, y) && Task(k.s, y).basePrio == Task(k.s, x).priority && Behind(k.s, m, y, x);
        SameBehind(k.s, s', m, y, x);
        assert WaitOk(k.s, m, x);
        if Next(k.s, m, x).Some? { assert EntryOk(k.s, m, Task(k.s, x).blockedOnMutex.value); }
        assert Task(s', y) == Task(k.s, y);
      }
    }
  }

  lemma SpawnWaits(k: State, s': Sched, id: nat)
    requires WaitsOk(k) && id < MAX_TASKS && k.waits[id].None? && |s'.tasks| == MAX_TASKS && s'.tasks[id].Some?
    requires forall i: nat :: i < MAX_TASKS && i != id ==> s'.tasks[i] == k.s.tasks[i]
    requires Task(s', id).state.Ready?
    ensures WaitsOk(k.(s := s'))
  {
    var k' := k.(s := s');
    forall addr: nat, send: bool ensures ListOk(k', addr, send) { assert ListOk(k, addr, send); }
    forall i: nat | i < MAX_TASKS ensures TaskOkIn(k', i) { assert TaskOkIn(k, i); }
  }

  // ── Waiter lists ────────────────────────────────────────────────────────────────────────────

  lemma EnrolInv(k: State, core: nat, addr: nat, send: bool, deadline: nat)
    requires Inv(k) && Enabled(k, EnrolOn(core, addr, send, deadline))
    ensures Inv(Apply(k, EnrolOn(core, addr, send, deadline)))
  {
    var k' := Apply(k, EnrolOn(core, addr, send, deadline));
    EnrolScheduler(k, core, addr, send, deadline);
    EnrolWaits(k, core, addr, send, deadline);
    hide MaskExact, CoresOk, TableOk, PrioritiesOk, WaitsOk, Enrol;
  }

  lemma EnrolScheduler(k: State, core: nat, addr: nat, send: bool, deadline: nat)
    requires Inv(k) && InTask(k, core)
    ensures
      var s' := Enrol(k.s, k.lists, core, addr, send, deadline).0;
      && WellFormed(s') && MaskExact(s') && CoresOk(s', k.idle)
      && TableOk(s', k.mutexes) && PrioritiesOk(s', k.mutexes)
  {
    var s' := Enrol(k.s, k.lists, core, addr, send, deadline).0;
    EnrolMask(k.s, k.lists, core, addr, send, deadline);
    EnrolFrames(k, core, addr, send, deadline);
    hide MaskExact, WaitsOk, Enrol, InTask, SameInheritance, SameRunning, TableOk, PrioritiesOk, CoresOk;
    SameTable(k.s, s', k.mutexes);
    SamePriorities(k.s, s', k.mutexes);
    SameCores(k.s, s', k.idle);
  }

  lemma EnrolMask(s: Sched, w: WaitTable, core: nat, addr: nat, send: bool, deadline: nat)
    requires MaskExact(s) && core < |s.current| && Live(s, s.current[core])
    ensures MaskExact(Enrol(s, w, core, addr, send, deadline).0)
  {
    var cur := s.current[core];
    var armed := Put(s, cur, Task(s, cur).(sleepUntil := deadline));
    MaskKept(s, armed);
    BlockMask(armed, core, BlockedState(send));
    hide MaskExact, BlockCurrent;
  }

  lemma EnrolFrames(k: State, core: nat, addr: nat, send: bool, deadline: nat)
    requires Inv(k) && InTask(k, core)
    ensures
      var s' := Enrol(k.s, k.lists, core, addr, send, deadline).0;
      WellFormed(s') && SameInheritance(k.s, s') && SameRunning(k.s, s', k.idle)
  {
    var cur := Current(k, core);
    EnrolEffect(k.s, k.lists, core, addr, send, deadline);
    assert TaskOk(k.s.tasks[cur]) && WaitOk(k.s, k.mutexes, cur);
    hide MaskExact, WaitsOk, TableOk, PrioritiesOk, CoresOk, Enrol;
  }

  lemma EnrolWaits(k: State, core: nat, addr: nat, send: bool, deadline: nat)
    requires Inv(k) && Enabled(k, EnrolOn(core, addr, send, deadline))
    ensures WaitsOk(Apply(k, EnrolOn(core, addr, send, deadline)))
  {
    var k' := Apply(k, EnrolOn(core, addr, send, deadline));
    var ok := Enrol(k.s, k.lists, core, addr, send, deadline).2;
    var cur := Current(k, core);
    ListsAfterEnrol(k.s, k.lists, core, addr, send, deadline);
    forall id: nat | id < MAX_TASKS ensures TaskOkIn(k', id) { EnrolTask(k, core, addr, send, deadline, id); }
    assert ok ==> |ListOf(k.lists, addr, send)| < MAX_LISTED;
    hide MaskExact, CoresOk, TableOk, PrioritiesOk, WellFormed, ListOf, InOrder, Enrol, TaskOkIn;
    forall a: nat, dir: bool ensures ListOk(k', a, dir) {
      assert ListOk(k, a, dir);
      if ok { EnrolInOrder(k, cur, addr, send, deadline, a, dir); }
    }
  }

  lemma EnrolTask(k: State, core: nat, addr: nat, send: bool, deadline: nat, id: nat)
    requires Inv(k) && Enabled(k, EnrolOn(core, addr, send, deadline)) && id < MAX_TASKS
    ensures
      var k' := Apply(k, EnrolOn(core, addr, send, deadline));
      |k'.s.tasks| == |k'.waits| == MAX_TASKS && TaskOkIn(k', id)
  {
    var (s', w', ok) := Enrol(k.s, k.lists, core, addr, send, deadline);
    ListsAfterEnrol(k.s, k.lists, core, addr, send, deadline);
    EnrolEffect(k.s, k.lists, core, addr, send, deadline);
    assert TaskOkIn(k, id);
    hide Inv, ListOk, ListOf, Enrol, WellFormed;
  }

  lemma EnrolInOrder(k: State, cur: nat, addr: nat, send: bool, deadline: nat, a: nat, dir: bool)
    requires WaitsOk(k) && cur < MAX_TASKS && k.waits[cur].None?
    requires |ListOf(k.lists, addr, send)| < MAX_LISTED
    ensures
      var waits' := k.waits[cur := Some(Wait(addr, send, deadline, k.tickets, false, false))];
      var list := ListOf(k.lists, a, dir);
      InOrder(if a == addr && dir == send then list + [cur] else list, waits', a, dir)
  {
    var list := ListOf(k.lists, a, dir);
    assert ListOk(k, a, dir);
    assert cur !in list;
    var w := Wait(addr, send, deadline, k.tickets, false, false);
    KeepInOrder(list, k.waits, a, dir, cur, Some(w));
    if a == addr && dir == send {
      forall i | 0 <= i < |list| ensures k.waits[list[i]].Some? && k.waits[list[i]].value.ticket < w.ticket {
        assert TaskOkIn(k, list[i]);
      }
      AppendInOrder(list, k.waits[cur := Some(w)], addr, send, cur);
    }
  }

  lemma AppendInOrder(list: seq<nat>, waits: seq<Option<Wait>>, addr: nat, send: bool, cur: nat)
    requires InOrder(list, waits, addr, send) && |list| < MAX_LISTED
    requires cur < |waits| && WaitsFor(waits[cur], addr, send)
    requires forall i :: 0 <= i < |list| ==> waits[list[i]].value.ticket < waits[cur].value.ticket
    ensures InOrder(list + [cur], waits, addr, send)
  {
  }

  /** Taking one entry out keeps a list in order, whatever becomes of that entry's wait. */
  lemma RemoveInOrder(list: seq<nat>, waits: seq<Option<Wait>>, addr: nat, send: bool, i: nat, w: Option<Wait>)
    requires InOrder(list, waits, addr, send) && i < |list|
    ensures Distinct(list) && InOrder(RemoveAt(list, i), waits[list[i] := w], addr, send)
    ensures forall x :: x in RemoveAt(list, i) <==> x in list && x != list[i]
  {
    assert Distinct(list);
    RemoveAtElements(list, i);
    hide RemoveAt;
  }

  /** A list that does not mention a task does not care about its wait. */
  lemma KeepInOrder(list: seq<nat>, waits: seq<Option<Wait>>, addr: nat, send: bool, id: nat, w: Option<Wait>)
    requires InOrder(list, waits, addr, send) && id < |waits| && id !in list
    ensures InOrder(list, waits[id := w], addr, send)
  {
  }

  lemma ResumeInv(k: State, core: nat)
    requires Inv(k) && Enabled(k, ResumeWait(core))
    ensures Inv(Apply(k, ResumeWait(core)))
  {
    var id := Current(k, core);
    var wait := k.waits[id].value;
    var list := ListOf(k.lists, wait.addr, wait.send);
    var w' := Resume(k.lists, wait.addr, wait.send, id).0;
    assert TaskOkIn(k, id);
    if id in list {
      RemovalKeepsWaits(k, wait.addr, wait.send, IndexOf(list, id), None, k.s);
    } else {
      UnlistedKeepsWaits(k, id);
    }
    hide MaskExact, CoresOk, TableOk, PrioritiesOk, WaitsOk;
  }

  /** An entry leaves its list and its wait becomes `w`; the scheduler may have moved that task on. */
  lemma RemovalKeepsWaits(k: State, addr: nat, send: bool, i: nat, w: Option<Wait>, s': Sched)
    requires WaitsOk(k) && i < |ListOf(k.lists, addr, send)| && addr in k.lists
    requires ListOf(k.lists, addr, send)[i] < MAX_TASKS && |s'.tasks| == MAX_TASKS
    requires forall j: nat :: j < MAX_TASKS && j != ListOf(k.lists, addr, send)[i] ==> s'.tasks[j] == k.s.tasks[j]
    requires WaitAgrees(s'.tasks[ListOf(k.lists, addr, send)[i]], w, false, k.tickets)
    requires w.Some? ==> w.value.addr == addr && w.value.send == send
    ensures
      var list := ListOf(k.lists, addr, send);
      WaitsOk(k.(s := s', lists := WithList(k.lists, addr, send, RemoveAt(list, i)), waits := k.waits[list[i] := w]))
  {
    var list := ListOf(k.lists, addr, send);
    var id := list[i];
    var k' := k.(s := s', lists := WithList(k.lists, addr, send, RemoveAt(list, i)), waits := k.waits[id := w]);
    ListsAfter(k.lists, addr, send, RemoveAt(list, i));
    assert ListOk(k, addr, send);
    RemoveInOrder(list, k.waits, addr, send, i, w);
    hide ListOf, WithList, RemoveAt;
    forall a: nat, dir: bool ensures ListOk(k', a, dir) {
      assert ListOk(k, a, dir);
      if a != addr || dir != send {
        assert id !in ListOf(k.lists, a, dir);
        KeepInOrder(ListOf(k.lists, a, dir), k.waits, a, dir, id, w);
      }
    }
    hide InOrder;
    forall j: nat | j < MAX_TASKS ensures TaskOkIn(k', j) { assert TaskOkIn(k, j); }
  }

  lemma UnlistedKeepsWaits(k: State, id: nat)
    requires WaitsOk(k) && id < MAX_TASKS && k.waits[id].Some? && !Listed(k, id) && Live(k.s, id)
      && Active(Task(k.s, id))
    ensures WaitsOk(k.(waits := k.waits[id := None]))
  {
    var k' := k.(waits := k.waits[id := None]);
    forall a: nat, dir: bool ensures ListOk(k', a, dir) {
      assert ListOk(k, a, dir);
      assert id !in ListOf(k.lists, a, dir);
      KeepInOrder(ListOf(k.lists, a, dir), k.waits, a, dir, id, None);
    }
    hide InOrder, ListOf;
    forall j: nat | j < MAX_TASKS ensures TaskOkIn(k', j) { assert TaskOkIn(k, j); }
  }

  lemma WakeInv(k: State, addr: nat, send: bool)
    requires Inv(k) && Enabled(k, WakeWaiter(addr, send))
    ensures Inv(Apply(k, WakeWaiter(addr, send)))
  {
    WakeScheduler(k, addr, send);
    WakeWaits(k, addr, send);
    hide MaskExact, CoresOk, TableOk, PrioritiesOk, WaitsOk, WakeOne;
  }

  lemma WakeScheduler(k: State, addr: nat, send: bool)
    requires Inv(k) && Enabled(k, WakeWaiter(addr, send))
    ensures
      var s' := WakeOne(k.s, k.lists, addr, send).0;
      && WellFormed(s') && MaskExact(s') && CoresOk(s', k.idle)
      && TableOk(s', k.mutexes) && PrioritiesOk(s', k.mutexes)
  {
    var (s', _, woken) := WakeOne(k.s, k.lists, addr, send);
    if woken.Some? {
      UnblockFrames(k, woken.value);
      UnblockMask(k.s, woken.value);
      hide MaskExact, WaitsOk, WakeOne, SameInheritance, SameRunning, TableOk, PrioritiesOk, CoresOk;
      SameTable(k.s, s', k.mutexes);
      SamePriorities(k.s, s', k.mutexes);
      SameCores(k.s, s', k.idle);
    }
  }

  lemma UnblockFrames(k: State, id: nat)
    requires WellFormed(k.s) && TableOk(k.s, k.mutexes)
    requires Live(k.s, id) && (Task(k.s, id).state.BlockedSend? || Task(k.s, id).state.BlockedRecv?)
    ensures var s' := Unblock(k.s, id); WellFormed(s') && SameInheritance(k.s, s') && SameRunning(k.s, s', k.idle)
  {
    assert TaskOk(k.s.tasks[id]) && WaitOk(k.s, k.mutexes, id);
  }

  lemma WakeWaits(k: State, addr: nat, send: bool)
    requires Inv(k) && Enabled(k, WakeWaiter(addr, send))
    ensures WaitsOk(Apply(k, WakeWaiter(addr, send)))
  {
    hide MaskExact, CoresOk, TableOk, PrioritiesOk;
    var list := ListOf(k.lists, addr, send);
    var i := FirstBlocked(k.s, list, BlockedState(send));
    if i < |list| {
      assert ListOk(k, addr, send) && TaskOkIn(k, list[i]);
      RemovalKeepsWaits(k, addr, send, i, Some(k.waits[list[i]].value.(popped := true)), Unblock(k.s, list[i]));
    }
  }

  // ── Boot ────────────────────────────────────────────────────────────────────────────────────

  function IdleTask(core: nat): Tcb {
    Tcb(Core(core), IDLE_PRIORITY, IDLE_PRIORITY, Ready, DEFAULT_QUANTUM_MS, 0, None, None)
  }

  /** The state the boot core leaves before interrupts are first enabled: the two idle tasks. */
  function Boot(): State {
    State(
      Sched(
        [Some(IdleTask(0)), Some(IdleTask(1))] + seq(MAX_TASKS - 2, _ => None),
        [NO_TASK, NO_TASK], {IDLE_PRIORITY}, seq(NUM_PRIORITIES, _ => 0)),
      map[], map[], seq(MAX_TASKS, _ => None), 0, [0, 1])
  }
}

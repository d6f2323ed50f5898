/** What the kernel promises in every run from boot, whatever the two cores interleave. */
module Guarantees {
  import opened Wrappers
  import opened Sequences
  import opened Tasks
  import opened Inheritance
  import opened Waiters
  import opened Kernel
  import opened Interference

  // ── Runs ────────────────────────────────────────────────────────────────────────────────────

  lemma StepInv(k: State, step: Label)
    requires Inv(k) && Enabled(k, step)
    ensures Inv(Apply(k, step))
  {
    hide Inv, Apply, Enabled;
    match step
    case LockMutex(core, addr, inInterrupt) => LockInv(k, core, addr, inInterrupt);
    case UnlockMutex(core, addr) => UnlockInv(k, core, addr);
    case EnrolOn(core, addr, send, deadline) => EnrolInv(k, core, addr, send, deadline);
    case ResumeWait(core) => ResumeInv(k, core);
    case WakeWaiter(addr, send) => WakeInv(k, addr, send);
    case Tick(core, now) => TickInv(k, core, now);
    case Switch(core, next) => SwitchInv(k, core, next);
    case JoinCore(core) => JoinInv(k, core);
    case Yield(core) => YieldInv(k, core);
    case Sleep(core, until) => SleepInv(k, core, until);
    case Suspend(core) => SuspendInv(k, core);
    case Spawn(id, affinity, priority) => SpawnInv(k, id, affinity, priority);
  }

  lemma BootInv()
    ensures Inv(Boot())
  {
    var k := Boot();
    var s := k.s;
    assert s.tasks[0] == Some(IdleTask(0)) && s.tasks[1] == Some(IdleTask(1));
    forall p: nat ensures BitExact(s, p) {
      if p == IDLE_PRIORITY { assert s.tasks[0].Some? && Active(s.tasks[0].value); }
    }
    forall id: nat ensures BoostOk(s, k.mutexes, id) {
      if Live(s, id) {
        assert Chain(s, k.mutexes, id, 0) == Some(id);
        assert Behind(s, k.mutexes, id, id);
      }
    }
    forall c: nat | c < MAX_CORES ensures CoreOk(s, k.idle, c) {}
    forall id: nat | id < MAX_TASKS ensures TaskOkIn(k, id) {}
  }

  /** A run from boot: each state follows from the one before by an enabled section. */
  ghost predicate IsRun(states: seq<State>, steps: seq<Label>) {
    && |states| == |steps| + 1
    && states[0] == Boot()
    && forall i :: 0 <= i < |steps| ==> Enabled(states[i], steps[i]) && states[i + 1] == Apply(states[i], steps[i])
  }

  /** Every invariant holds in every state of every run. */
  lemma {:induction false} RunInv(states: seq<State>, steps: seq<Label>, i: nat)
    requires IsRun(states, steps) && i < |states|
    ensures Inv(states[i])
  {
    hide Inv, Apply, Enabled, Boot;
    if i == 0 {
      BootInv();
    } else {
      RunInv(states, steps, i - 1);
      StepInv(states[i - 1], steps[i - 1]);
    }
  }

  // ── What follows ────────────────────────────────────────────────────────────────────────────

  /** In every reachable state every task's effective priority is exactly inherited: the minimum of
      its base and its waiters' effective priorities, and equally the most urgent base priority among
      itself and everybody transitively blocked behind it. */
  lemma InheritanceIsExact(states: seq<State>, steps: seq<Label>, i: nat, id: nat)
    requires IsRun(states, steps) && i < |states| && Live(states[i].s, id)
    ensures
      var s, m := states[i].s, states[i].mutexes;
      && Task(s, id).priority == Inherited(s, m, id)
      && (forall x: nat :: Live(s, x) && Behind(s, m, x, id) ==> Task(s, id).priority <= Task(s, x).basePrio)
      && (exists x: nat :: Live(s, x) && Behind(s, m, x, id) && Task(s, id).priority == Task(s, x).basePrio)
  {
    RunInv(states, steps, i);
    EffectivePriorityIsInherited(states[i].s, states[i].mutexes, id);
    EffectivePriorityIsExact(states[i].s, states[i].mutexes, id);
  }

  /** No unbounded inversion: whoever a blocked task transitively waits for is at least as urgent. */
  lemma HoldersAreUrgent(states: seq<State>, steps: seq<Label>, i: nat, waiter: nat, holder: nat)
    requires IsRun(states, steps) && i < |states|
    requires Live(states[i].s, waiter) && Behind(states[i].s, states[i].mutexes, waiter, holder)
    ensures Live(states[i].s, holder) && Task(states[i].s, holder).priority <= Task(states[i].s, waiter).priority
  {
    RunInv(states, steps, i);
    var k: nat :| Chain(states[i].s, states[i].mutexes, waiter, k) == Some(holder);
    BehindIsMoreUrgent(states[i].s, states[i].mutexes, waiter, holder, k);
  }

  /** In every reachable state bit `p` of the ready mask is set exactly when a Ready or Running task
      has effective priority `p`, and every tick that finds a more urgent Ready task asks for a switch. */
  lemma MaskIsExact(states: seq<State>, steps: seq<Label>, i: nat, p: nat)
    requires IsRun(states, steps) && i < |states|
    ensures p in states[i].s.readyMask <==>
              exists id: nat ::
                Live(states[i].s, id) && Active(Task(states[i].s, id)) && Task(states[i].s, id).priority == p
  {
    RunInv(states, steps, i);
    var s := states[i].s;
    assert BitExact(s, p);
    if j :| 0 <= j < |s.tasks| && s.tasks[j].Some? && Active(s.tasks[j].value) && s.tasks[j].value.priority == p {
      assert Live(s, j);
    }
  }

  /** No tick of any run answers "no switch" while a Ready task outranks the one that was running. */
  lemma TicksPreempt(states: seq<State>, steps: seq<Label>, i: nat, id: nat)
    requires IsRun(states, steps) && i < |steps| && steps[i].Tick?
    requires Live(states[i + 1].s, id) && Task(states[i + 1].s, id).state.Ready?
    ensures
      var core := steps[i].core;
      core < |states[i].s.current| &&
      (Task(states[i + 1].s, id).priority < CurrentPriority(states[i].s, core) ==>
         TickSwitches(states[i].s, core, steps[i].now))
  {
    RunInv(states, steps, i);
    var s, core, now := states[i].s, steps[i].core, steps[i].now;
    assert Task(WakeExpired(s, now), id).state == Task(states[i + 1].s, id).state;
    if Task(states[i + 1].s, id).priority < CurrentPriority(s, core) { TickNeverMissesPreemption(s, core, now, id); }
  }

  /** Every switch in every run: the panic cannot fire, and the core ends up running the most urgent
      task it may run, which no other core is running. */
  lemma SwitchesAreSafe(states: seq<State>, steps: seq<Label>, i: nat)
    requires IsRun(states, steps) && i < |steps| && steps[i].Switch?
    ensures
      var core, next := steps[i].core, steps[i].next;
      var s, s' := states[i].s, states[i + 1].s;
      && WellFormed(s) && core < |s.current| && IsPick(s, core, next)
      && !DispatchPanics(Rotated(s, core, next), core, next)
      && (forall j: nat :: Eligible(s, core, j) ==> Task(s, next).priority <= Task(s, j).priority)
      && core < |s'.current| && s'.current[core] == next
      && Live(s', next) && Task(s', next).state.Running? && Allows(Task(s', next).affinity, core)
      && !RunningElsewhere(s', next, core)
  {
    RunInv(states, steps, i);
    var core, next := steps[i].core, steps[i].next;
    var k, k' := states[i], states[i + 1];
    SwitchIsSafe(k.s, k.idle, core, next);
    assert k'.s.current == k.s.current[core := next];
    assert CoreOk(k'.s, k.idle, core);
    hide Dispatch, MaskExact, Inv;
    assert !RunningElsewhere(k.s, next, core);
    assert k'.s.current[1 - core] == k.s.current[1 - core];
  }

  // ── Round robin ─────────────────────────────────────────────────────────────────────────────

  /** Step `i` dispatches a task at priority level `p`. */
  predicate DispatchesAt(states: seq<State>, steps: seq<Label>, i: nat, p: nat)
    requires i < |steps| && i < |states|
  {
    && steps[i].Switch?
    && Live(states[i].s, steps[i].next)
    && Task(states[i].s, steps[i].next).priority == p
  }

  function Dispatches(states: seq<State>, steps: seq<Label>, p: nat, a: nat, b: nat): nat
    requires a <= b <= |steps| < |states|
  {
    if a == b then 0
    else Dispatches(states, steps, p, a, b - 1) + if DispatchesAt(states, steps, b - 1, p) then 1 else 0
  }

  /** If step `i` dispatches at level `p`, it could have chosen `t` and did not. */
  predicate PassesOver(states: seq<State>, steps: seq<Label>, i: nat, p: nat, t: nat)
    requires i < |steps| && i < |states|
  {
    DispatchesAt(states, steps, i, p) ==>
      steps[i].next != t && Eligible(states[i].s, steps[i].core, t) && Task(states[i].s, t).priority == p
  }

  /** Bounded bypass, over runs: while a task at level `p` is eligible for the dispatching core at every
      dispatch of its level and is passed over each time, fewer than MAX_TASKS such dispatches happen,
      whatever other tasks come and go in between. */
  lemma BoundedBypass(states: seq<State>, steps: seq<Label>, p: nat, t: nat, a: nat, b: nat)
    requires IsRun(states, steps) && a <= b <= |steps|
    requires forall i: nat :: a <= i < b ==> PassesOver(states, steps, i, p, t)
    ensures Dispatches(states, steps, p, a, b) < MAX_TASKS
  {
    hide Inv, Enabled, Apply;
    if Dispatches(states, steps, p, a, b) > 0 {
      var i := FirstDispatch(states, steps, p, a, b);
      assert PassesOver(states, steps, i, p, t);
      RunInv(states, steps, a);
      RunInv(states, steps, b);
      RunInv(states, steps, i);
      LevelInRange(states[i], t);
      assert p < NUM_PRIORITIES && t < MAX_TASKS;
      hide PassesOver, DispatchesAt;
      Bypassed(states, steps, p, t, a, b);
      RotorInRange(states[a], p);
      RotorInRange(states[b], p);
    }
  }

  lemma LevelInRange(k: State, t: nat)
    requires Inv(k) && Live(k.s, t)
    ensures t < MAX_TASKS && Task(k.s, t).priority < NUM_PRIORITIES
  {
    assert TaskOk(k.s.tasks[t]);
  }

  lemma RotorInRange(k: State, p: nat)
    requires Inv(k) && p < NUM_PRIORITIES
    ensures |k.s.lastRun| == NUM_PRIORITIES && k.s.lastRun[p] < MAX_TASKS
  {
  }

  lemma {:induction false} FirstDispatch(states: seq<State>, steps: seq<Label>, p: nat, a: nat, b: nat) returns (i: nat)
    requires a <= b <= |steps| < |states| && Dispatches(states, steps, p, a, b) > 0
    ensures a <= i < b && DispatchesAt(states, steps, i, p)
  {
    if DispatchesAt(states, steps, b - 1, p) { i := b - 1; } else { i := FirstDispatch(states, steps, p, a, b - 1); }
  }

  /** Where the rotor of level `p` stands, in slots before `t`. */
  function Gap(k: State, p: nat, t: nat): nat {
    if p < |k.s.lastRun| && k.s.lastRun[p] < MAX_TASKS && t < MAX_TASKS then Distance(k.s.lastRun[p], t) else 0
  }

  /** Each dispatch that passes a task over brings the level's rotor closer to it. */
  lemma {:induction false} Bypassed(states: seq<State>, steps: seq<Label>, p: nat, t: nat, a: nat, b: nat)
    requires IsRun(states, steps) && a <= b <= |steps| && p < NUM_PRIORITIES && t < MAX_TASKS
    requires forall i: nat :: a <= i < b ==> PassesOver(states, steps, i, p, t)
    ensures Gap(states[b], p, t) + Dispatches(states, steps, p, a, b) <= Gap(states[a], p, t)
    decreases b - a
  {
    hide Inv, Enabled, Apply, Boot, Gap, PassesOver, DispatchesAt;
    if a < b {
      Bypassed(states, steps, p, t, a, b - 1);
      RunInv(states, steps, b - 1);
      assert PassesOver(states, steps, b - 1, p, t);
      BypassStep(states, steps, b - 1, p, t);
    }
  }

  lemma BypassStep(states: seq<State>, steps: seq<Label>, i: nat, p: nat, t: nat)
    requires IsRun(states, steps) && i < |steps| && Inv(states[i]) && PassesOver(states, steps, i, p, t)
    requires p < NUM_PRIORITIES && t < MAX_TASKS
    ensures Gap(states[i + 1], p, t) + (if DispatchesAt(states, steps, i, p) then 1 else 0) <= Gap(states[i], p, t)
  {
    var k := states[i];
    RotorStep(k, steps[i], p);
    RotorInRange(k, p);
    if DispatchesAt(states, steps, i, p) { PassedOver(k, steps[i].core, steps[i].next, p, t); }
    hide Inv, Enabled, Apply, IsPick, Eligible;
  }

  lemma PassedOver(k: State, core: nat, next: nat, p: nat, t: nat)
    requires Inv(k) && IsPick(k.s, core, next) && next != t && p < NUM_PRIORITIES && t < MAX_TASKS
    requires Task(k.s, next).priority == p && Eligible(k.s, core, t) && Task(k.s, t).priority == p
    ensures next < MAX_TASKS && Distance(next, t) < Distance(k.s.lastRun[p], t)
  {
    assert BitExact(k.s, p);
    DistanceDrops(k.s.lastRun[p], next, t);
  }

  /** Only a dispatch at level `p` turns that level's rotor, and it turns it to the chosen task. */
  lemma RotorStep(k: State, step: Label, p: nat)
    requires Inv(k) && Enabled(k, step) && p < NUM_PRIORITIES
    ensures Inv(Apply(k, step))
    ensures step.Switch? ==> IsPick(k.s, step.core, step.next)
    ensures Apply(k, step).s.lastRun[p] ==
              if step.Switch? && Task(k.s, step.next).priority == p then step.next else k.s.lastRun[p]
  {
    StepInv(k, step);
    hide MaskExact, PrioritiesOk, WaitsOk, CoresOk;
    if step.Switch? {
      SwitchIsSafe(k.s, k.idle, step.core, step.next);
      DispatchEffect(Rotated(k.s, step.core, step.next), step.core, step.next);
    } else {
      SectionFrame(k, step, 0);
      hide Apply, Inv;
    }
  }

  // ── Mutex handover ──────────────────────────────────────────────────────────────────────────

  /** Task `t` owns `addr`, or is blocked on it and listed once among its waiters. */
  ghost predicate OwnsOrWaits(k: State, t: nat, addr: nat) {
    && addr in k.mutexes
    && Live(k.s, t)
    && (k.mutexes[addr].owner == t || (Task(k.s, t).blockedOnMutex == Some(addr) && t in k.mutexes[addr].waiters))
  }

  lemma OwnsOrWaitsStep(k: State, step: Label, t: nat, addr: nat)
    requires Inv(k) && Enabled(k, step) && OwnsOrWaits(k, t, addr)
    requires !Releases(k, step, t, addr)
    ensures OwnsOrWaits(Apply(k, step), t, addr)
  {
    if step.LockMutex? {
      LockKeepsOwnership(k, step.core, step.addr, step.inInterrupt, t, addr);
    } else if step.UnlockMutex? {
      UnlockKeepsOwnership(k, step.core, step.addr, t, addr);
    } else {
      LevelInRange(k, t);
      SectionFrame(k, step, t);
      hide Apply, Enabled, Inv, Undisturbed;
    }
  }

  lemma LockKeepsOwnership(k: State, core: nat, a: nat, inInterrupt: bool, t: nat, addr: nat)
    requires Inv(k) && Enabled(k, LockMutex(core, a, inInterrupt)) && OwnsOrWaits(k, t, addr)
    ensures OwnsOrWaits(Apply(k, LockMutex(core, a, inInterrupt)), t, addr)
  {
    var (s', m', outcome) := Lock(k.s, k.mutexes, core, a, inInterrupt);
    assert WaitOk(k.s, k.mutexes, Current(k, core));
    if outcome.Enqueued? {
      LockEnqueues(k.s, k.mutexes, core, a);
      hide MaskExact, PrioritiesOk, CoresOk, WaitsOk, TableOk, WellFormed, Lock, Behind;
      EnqueuedKeepsOwnership(k.s, k.mutexes, Current(k, core), a, s', m', t, addr);
    }
  }

  lemma EnqueuedKeepsOwnership(s: Sched, m: Table, cur: nat, a: nat, s': Sched, m': Table, t: nat, addr: nat)
    requires EnqueuedOn(s, m, cur, a, s', m') && Task(s, cur).blockedOnMutex.None?
    requires addr in m && Live(s, t)
    ensures addr in m' && Live(s', t)
    ensures m[addr].owner == t ==> m'[addr].owner == t
    ensures Task(s, t).blockedOnMutex == Some(addr) && t in m[addr].waiters ==>
              Task(s', t).blockedOnMutex == Some(addr) && t in m'[addr].waiters
  {
    hide Behind;
  }

  lemma UnlockKeepsOwnership(k: State, core: nat, a: nat, t: nat, addr: nat)
    requires Inv(k) && Enabled(k, UnlockMutex(core, a)) && OwnsOrWaits(k, t, addr)
    requires !(a == addr && Current(k, core) == t)
    ensures OwnsOrWaits(Apply(k, UnlockMutex(core, a)), t, addr)
  {
    var (s', m', released) := Unlock(k.s, k.mutexes, core, a);
    if released {
      UnlockReleases(k.s, k.mutexes, core, a);
      hide MaskExact, PrioritiesOk, CoresOk, WaitsOk, Unlock;
      OwnsOrWaitsReleased(k, Current(k, core), a, s', m', t, addr);
    }
  }

  lemma OwnsOrWaitsReleased(k: State, cur: nat, a: nat, s': Sched, m': Table, t: nat, addr: nat)
    requires TableOk(k.s, k.mutexes) && OwnsOrWaits(k, t, addr) && !(a == addr && cur == t)
    requires ReleasedOn(k.s, k.mutexes, cur, a, s', m') && Task(k.s, cur).state.Running?
    ensures OwnsOrWaits(k.(s := s', mutexes := m'), t, addr)
  {
    assert EntryOk(k.s, k.mutexes, a) && EntryOk(k.s, k.mutexes, addr) && WaitOk(k.s, k.mutexes, cur);
    hide Inherited, TableOk;
    if Heir(k.s, k.mutexes, a).Some? {
      RemoveAtElements(k.mutexes[a].waiters, BestWaiter(k.s, k.mutexes[a].waiters));
      hide RemoveAt;
    }
  }

  /** Task `t` calls `lock` on `addr` and the call answers true. */
  predicate Grants(k: State, step: Label, t: nat, addr: nat) {
    && step.LockMutex? && step.addr == addr
    && step.core < |k.s.current| && Current(k, step.core) == t
    && !Lock(k.s, k.mutexes, step.core, addr, step.inInterrupt).2.Failed?
  }

  /** Task `t` calls `unlock` on `addr`. */
  predicate Releases(k: State, step: Label, t: nat, addr: nat) {
    step.UnlockMutex? && step.addr == addr && step.core < |k.s.current| && Current(k, step.core) == t
  }

  /** From a `lock` that answers true until the task's own `unlock`, the task owns the mutex or is
      still blocked on it. So whenever it is running again it is the owner: handover is never lost,
      and nobody else can barge in. */
  lemma {:induction false} LockedUntilUnlock(states: seq<State>, steps: seq<Label>, a: nat, b: nat, t: nat, addr: nat)
    requires IsRun(states, steps) && a < b <= |steps|
    requires Grants(states[a], steps[a], t, addr)
    requires forall i: nat :: a < i < b ==> !Releases(states[i], steps[i], t, addr)
    ensures OwnsOrWaits(states[b], t, addr)
    ensures !Task(states[b].s, t).state.BlockedMutex? ==> states[b].mutexes[addr].owner == t
    decreases b - a
  {
    hide Grants, Releases, OwnsOrWaits, Apply, Enabled, Inv, Boot;
    RunInv(states, steps, b - 1);
    RunInv(states, steps, b);
    if b == a + 1 {
      LockGrants(states[a], steps[a], t, addr);
    } else {
      LockedUntilUnlock(states, steps, a, b - 1, t, addr);
      OwnsOrWaitsStep(states[b - 1], steps[b - 1], t, addr);
    }
    RunnableOwns(states[b], t, addr);
  }

  lemma LockGrants(k: State, step: Label, t: nat, addr: nat)
    requires Inv(k) && Enabled(k, step) && Grants(k, step, t, addr)
    ensures OwnsOrWaits(Apply(k, step), t, addr)
  {
    if Lock(k.s, k.mutexes, step.core, addr, step.inInterrupt).2.Enqueued? {
      LockEnqueues(k.s, k.mutexes, step.core, addr);
      hide Lock, Inv;
    }
  }

  lemma RunnableOwns(k: State, t: nat, addr: nat)
    requires Inv(k) && OwnsOrWaits(k, t, addr)
    ensures Live(k.s, t) && addr in k.mutexes
    ensures !Task(k.s, t).state.BlockedMutex? ==> k.mutexes[addr].owner == t
  {
    hide MaskExact, PrioritiesOk, CoresOk, WaitsOk;
    assert WaitOk(k.s, k.mutexes, t);
  }

  /** Waiter `best` has been handed the mutex and is Ready; it is the first of the most urgent. */
  predicate HandedTo(s: Sched, k': State, addr: nat, waiters: seq<nat>, best: nat) {
    && best < |waiters|
    && addr in k'.mutexes && k'.mutexes[addr] == Entry(waiters[best], RemoveAt(waiters, best))
    && Live(k'.s, waiters[best]) && Task(k'.s, waiters[best]).state.Ready?
    && (forall j :: 0 <= j < |waiters| ==> Urgency(s, waiters[best]) <= Urgency(s, waiters[j]))
    && (forall j :: 0 <= j < best ==> Urgency(s, waiters[best]) < Urgency(s, waiters[j]))
  }

  predicate HandedToBest(s: Sched, k': State, addr: nat, waiters: seq<nat>) {
    exists best :: 0 <= best < |waiters| && HandedTo(s, k', addr, waiters, best)
  }

  /** The step unlocks a mutex that its caller holds. */
  predicate UnlocksOwn(k: State, step: Label) {
    && step.UnlockMutex? && step.core < |k.s.current|
    && step.addr in k.mutexes && k.mutexes[step.addr].owner == Current(k, step.core)
  }

  /** `unlock` passes a contended mutex to the most urgent of its waiters, the one that came first among
      equals, which becomes Ready; the others keep their order. An uncontended one becomes free. */
  lemma HandsToMostUrgent(states: seq<State>, steps: seq<Label>, i: nat)
    requires IsRun(states, steps) && i < |steps| && UnlocksOwn(states[i], steps[i])
    ensures
      var addr := steps[i].addr;
      var waiters := states[i].mutexes[addr].waiters;
      if waiters == [] then addr !in states[i + 1].mutexes
      else HandedToBest(states[i].s, states[i + 1], addr, waiters)
  {
    RunInv(states, steps, i);
    assert Enabled(states[i], steps[i]) && states[i + 1] == Apply(states[i], steps[i]);
    hide IsRun, Inv, Enabled, Apply;
    var k, addr := states[i], steps[i].addr;
    var waiters := k.mutexes[addr].waiters;
    UnlockHandsOver(k, steps[i].core, addr);
    hide HandedTo, BestWaiter;
    if waiters != [] { assert HandedTo(k.s, states[i + 1], addr, waiters, BestWaiter(k.s, waiters)); }
  }

  lemma UnlockHandsOver(k: State, core: nat, addr: nat)
    requires Inv(k) && Enabled(k, UnlockMutex(core, addr)) && UnlocksOwn(k, UnlockMutex(core, addr))
    ensures
      var k' := Apply(k, UnlockMutex(core, addr));
      var waiters := k.mutexes[addr].waiters;
      if waiters == [] then addr !in k'.mutexes else HandedTo(k.s, k', addr, waiters, BestWaiter(k.s, waiters))
  {
    UnlockReleases(k.s, k.mutexes, core, addr);
    assert EntryOk(k.s, k.mutexes, addr);
    hide Unlock, Inv, Inherited, BestWaiter;
  }

  /** A refused `lock` or `unlock` changes nothing at all, no priority in particular. */
  lemma RefusalsChangeNothing(states: seq<State>, steps: seq<Label>, i: nat)
    requires IsRun(states, steps) && i < |steps|
    requires
      var k := states[i];
      match steps[i]
      case LockMutex(core, addr, inInterrupt) =>
        core < |k.s.current| && Lock(k.s, k.mutexes, core, addr, inInterrupt).2.Failed?
      case UnlockMutex(core, addr) =>
        core < |k.s.current| && (addr !in k.mutexes || k.mutexes[addr].owner != Current(k, core))
      case _ => false
    ensures states[i + 1] == states[i]
  {
    RunInv(states, steps, i);
  }

  /** In every reachable state an address is allocated exactly while a live task owns it, and a task is
      BlockedMutex on an address exactly when it appears, once, among that address's waiters. */
  lemma MutexTableIsConsistent(states: seq<State>, steps: seq<Label>, i: nat)
    requires IsRun(states, steps) && i < |states|
    ensures
      var s, m := states[i].s, states[i].mutexes;
      && |m| <= MAX_MUTEXES
      && (forall a :: a in m ==>
            a != 0 && Live(s, m[a].owner) && Distinct(m[a].waiters) && |m[a].waiters| <= Inheritance.MAX_WAITERS)
      && (forall id: nat, a: nat :: Live(s, id) ==>
            (Task(s, id).state.BlockedMutex? && Task(s, id).blockedOnMutex == Some(a) <==>
              a in m && id in m[a].waiters))
  {
    RunInv(states, steps, i);
    var s, m := states[i].s, states[i].mutexes;
    hide MaskExact, PrioritiesOk, CoresOk, WaitsOk;
    forall a | a in m
      ensures a != 0 && Live(s, m[a].owner) && Distinct(m[a].waiters) && |m[a].waiters| <= Inheritance.MAX_WAITERS
    { assert EntryOk(s, m, a); }
    forall id: nat, a: nat | Live(s, id)
      ensures Task(s, id).state.BlockedMutex? && Task(s, id).blockedOnMutex == Some(a) <==> a in m && id in m[a].waiters
    {
      assert WaitOk(s, m, id);
      if a in m { assert EntryOk(s, m, a); }
    }
  }

  // ── Queue waits ─────────────────────────────────────────────────────────────────────────────

  /** A resumed waiter learns the truth: `block_send` and `block_recv` answer true exactly when a wake
      popped this wait and false exactly when the tick expired it, and never both happened. */
  lemma WakeXorTimeout(states: seq<State>, steps: seq<Label>, i: nat)
    requires IsRun(states, steps) && i < |steps| && steps[i].ResumeWait?
    ensures
      var k := states[i];
      && steps[i].core < |k.s.current| && Current(k, steps[i].core) < |k.waits|
      && k.waits[Current(k, steps[i].core)].Some?
      && var id := Current(k, steps[i].core);
         var wait := k.waits[id].value;
         var answer := Resume(k.lists, wait.addr, wait.send, id).1;
         (answer <==> wait.popped) && (!answer <==> wait.expired)
  {
    RunInv(states, steps, i);
    assert TaskOkIn(states[i], Current(states[i], steps[i].core));
  }

  /** A wake goes to the task that has waited longest among those still waiting: it never goes to a
      wait the tick has expired, and passes nobody over. */
  lemma WakesAreFifo(states: seq<State>, steps: seq<Label>, i: nat, other: nat)
    requires IsRun(states, steps) && i < |steps| && steps[i].WakeWaiter?
    ensures
      var k := states[i];
      var addr, send := steps[i].addr, steps[i].send;
      var woken := WakeOne(k.s, k.lists, addr, send).2;
      && |k.waits| == MAX_TASKS
      && (woken.Some? ==> woken.value < MAX_TASKS && WaitsFor(k.waits[woken.value], addr, send))
      && (woken.Some? ==> !k.waits[woken.value].value.expired)
      && (other < MAX_TASKS && WaitsFor(k.waits[other], addr, send) && !k.waits[other].value.expired ==>
            woken.Some? && (woken.value == other || k.waits[woken.value].value.ticket < k.waits[other].value.ticket))
  {
    RunInv(states, steps, i);
    WakeIsFifo(states[i], steps[i].addr, steps[i].send, other);
    hide Inv, Enabled, Apply, WakeOne;
  }

  lemma WakeIsFifo(k: State, addr: nat, send: bool, other: nat)
    requires WaitsOk(k)
    ensures
      var woken := WakeOne(k.s, k.lists, addr, send).2;
      && (woken.Some? ==> woken.value < MAX_TASKS && WaitsFor(k.waits[woken.value], addr, send))
      && (woken.Some? ==> !k.waits[woken.value].value.expired)
      && (other < MAX_TASKS && WaitsFor(k.waits[other], addr, send) && !k.waits[other].value.expired ==>
            woken.Some? && (woken.value == other || k.waits[woken.value].value.ticket < k.waits[other].value.ticket))
  {
    var list := ListOf(k.lists, addr, send);
    assert ListOk(k, addr, send);
    var first := FirstBlocked(k.s, list, BlockedState(send));
    if first < |list| { assert TaskOkIn(k, list[first]); }
    if other < MAX_TASKS && WaitsFor(k.waits[other], addr, send) && !k.waits[other].value.expired {
      assert TaskOkIn(k, other);
      var j :| 0 <= j < |list| && list[j] == other;
    }
  }

  /** Each task is listed at most once in the whole table, and only while its wait has not been popped. */
  lemma ListedAtMostOnce(states: seq<State>, steps: seq<Label>, i: nat, id: nat, a: nat, send: bool, a': nat,
      send': bool)
    requires IsRun(states, steps) && i < |states|
    requires id in ListOf(states[i].lists, a, send) && id in ListOf(states[i].lists, a', send')
    ensures a == a' && send == send' && Distinct(ListOf(states[i].lists, a, send))
    ensures id < |states[i].waits| && WaitsFor(states[i].waits[id], a, send)
  {
    RunInv(states, steps, i);
    assert ListOk(states[i], a, send) && ListOk(states[i], a', send');
    hide Inv, WellFormed, ListOf, Boot, Enabled, Apply;
  }
}

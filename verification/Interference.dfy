/** What a section of the kernel does to the tasks it is not about. */
module Interference {
  import opened Wrappers
  import opened Sequences
  import opened Tasks
  import opened Inheritance
  import opened Waiters
  import opened Kernel

  /** `t` is the task the section blocks, enrols or creates. */
  predicate IsAbout(k: State, step: Label, t: nat) {
    match step
    case LockMutex(core, _, _) => core < |k.s.current| && Current(k, core) == t
    case UnlockMutex(core, _) => core < |k.s.current| && Current(k, core) == t
    case Sleep(core, _) => core < |k.s.current| && Current(k, core) == t
    case Suspend(core) => core < |k.s.current| && Current(k, core) == t
    case EnrolOn(core, _, _, _) => core < |k.s.current| && Current(k, core) == t
    case Spawn(id, _, _) => id == t
    case _ => false
  }

  /** A runnable task outside a wait stays so; a wait can only be popped, expired or resumed from. */
  predicate Undisturbed(k: State, k': State, t: nat) {
    && t < |k.waits| && t < |k'.waits|
    && (Live(k.s, t) ==> Live(k'.s, t))
    && match k.waits[t]
       case None => k'.waits[t].None? && (Live(k.s, t) && Active(Task(k.s, t)) ==> Active(Task(k'.s, t)))
       case Some(w) =>
         && Live(k'.s, t)
         && (k'.waits[t].None? ==> Active(Task(k'.s, t)))
         && (k'.waits[t].Some? ==>
               var w' := k'.waits[t].value;
               w'.addr == w.addr && w'.send == w.send && w'.deadline == w.deadline && (w.popped ==> w'.popped))
  }

  /** What every section leaves as it is: the rotors, unless it is a switch; the mutex table and what a
      task is blocked on, unless it is the mutex's; an empty slot, unless it fills it; and the tasks it is
      not about. */
  predicate Frame(k: State, step: Label, k': State, t: nat) {
    && (!step.Switch? ==> k'.s.lastRun == k.s.lastRun)
    && (!step.LockMutex? && !step.UnlockMutex? ==>
      k'.mutexes == k.mutexes && (Live(k.s, t) ==> BlockedAlike(k.s, k'.s, t)))
    && (Live(k'.s, t) ==> Live(k.s, t) || (step.Spawn? && step.id == t))
    && (!IsAbout(k, step, t) ==> Undisturbed(k, k', t))
  }

  predicate BlockedAlike(s: Sched, s': Sched, t: nat)
    requires Live(s, t)
  {
    Live(s', t) && Task(s', t).blockedOnMutex == Task(s, t).blockedOnMutex
  }

  lemma BystandersUndisturbed(k: State, step: Label, t: nat)
    requires Inv(k) && Enabled(k, step) && t < MAX_TASKS && !IsAbout(k, step, t)
    ensures Undisturbed(k, Apply(k, step), t)
  {
    hide Inv, Apply, Enabled, Undisturbed;
    SectionFrame(k, step, t);
  }

  lemma SectionFrame(k: State, step: Label, t: nat)
    requires Inv(k) && Enabled(k, step) && t < MAX_TASKS
    ensures Frame(k, step, Apply(k, step), t)
  {
    hide Inv, Apply, Enabled, Frame;
    match step
    case LockMutex(core, addr, inInterrupt) => LockFrame(k, core, addr, inInterrupt, t);
    case UnlockMutex(core, addr) => UnlockFrame(k, core, addr, t);
    case EnrolOn(core, addr, send, deadline) => EnrolFrame(k, core, addr, send, deadline, t);
    case ResumeWait(core) => ResumeFrame(k, core, t);
    case WakeWaiter(addr, send) => WakeFrame(k, addr, send, t);
    case Tick(core, now) => TickFrame(k, core, now, t);
    case Switch(core, next) => SwitchFrame(k, core, next, t);
    case JoinCore(core) => JoinFrame(k, core, t);
    case Yield(core) => YieldFrame(k, core, t);
    case Sleep(core, until) => SleepFrame(k, core, until, t);
    case Suspend(core) => SuspendFrame(k, core, t);
    case Spawn(id, affinity, priority) => SpawnFrame(k, id, affinity, priority, t);
  }

  lemma LockFrame(k: State, core: nat, addr: nat, inInterrupt: bool, t: nat)
    requires Inv(k) && Enabled(k, LockMutex(core, addr, inInterrupt)) && t < MAX_TASKS
    ensures Frame(k, LockMutex(core, addr, inInterrupt), Apply(k, LockMutex(core, addr, inInterrupt)), t)
  {
    assert TaskOkIn(k, t);
    var (s', m', outcome) := Lock(k.s, k.mutexes, core, addr, inInterrupt);
    if outcome.Enqueued? {
      LockEnqueues(k.s, k.mutexes, core, addr);
      hide Inv, Enabled, Lock;
      EnqueueKeepsActive(k.s, k.mutexes, Current(k, core), addr, s', m', t);
    }
  }

  lemma EnqueueKeepsActive(s: Sched, m: Table, cur: nat, addr: nat, s': Sched, m': Table, t: nat)
    requires EnqueuedOn(s, m, cur, addr, s', m')
    ensures s'.lastRun == s.lastRun && Live(s', t) == Live(s, t)
    ensures t != cur && Live(s, t) && Active(Task(s, t)) ==> Active(Task(s', t))
  {
    hide Behind;
  }

  lemma UnlockFrame(k: State, core: nat, addr: nat, t: nat)
    requires Inv(k) && Enabled(k, UnlockMutex(core, addr)) && t < MAX_TASKS
    ensures Frame(k, UnlockMutex(core, addr), Apply(k, UnlockMutex(core, addr)), t)
  {
    assert TaskOkIn(k, t);
    var (s', m', released) := Unlock(k.s, k.mutexes, core, addr);
    if released {
      UnlockReleases(k.s, k.mutexes, core, addr);
      hide Inv, Enabled, Unlock;
      ReleaseKeepsActive(k.s, k.mutexes, Current(k, core), addr, s', m', t);
    }
  }

  lemma ReleaseKeepsActive(s: Sched, m: Table, cur: nat, addr: nat, s': Sched, m': Table, t: nat)
    requires ReleasedOn(s, m, cur, addr, s', m')
    ensures s'.lastRun == s.lastRun && Live(s', t) == Live(s, t)
    ensures t != cur && Live(s, t) && Active(Task(s, t)) ==> Active(Task(s', t))
  {
    hide Inherited, Heir;
  }

  lemma EnrolFrame(k: State, core: nat, addr: nat, send: bool, deadline: nat, t: nat)
    requires Inv(k) && Enabled(k, EnrolOn(core, addr, send, deadline)) && t < MAX_TASKS
    ensures Frame(k, EnrolOn(core, addr, send, deadline), Apply(k, EnrolOn(core, addr, send, deadline)), t)
  {
    assert TaskOkIn(k, t);
    EnrolEffect(k.s, k.lists, core, addr, send, deadline);
    hide MaskExact, PrioritiesOk, CoresOk, WaitsOk, TableOk, Enrol, ListOf;
  }

  lemma ResumeFrame(k: State, core: nat, t: nat)
    requires Inv(k) && Enabled(k, ResumeWait(core)) && t < MAX_TASKS
    ensures Frame(k, ResumeWait(core), Apply(k, ResumeWait(core)), t)
  {
    assert TaskOkIn(k, t);
    hide MaskExact, PrioritiesOk, CoresOk, WaitsOk, TableOk, Resume, ListOf;
  }

  lemma WakeFrame(k: State, addr: nat, send: bool, t: nat)
    requires Inv(k) && Enabled(k, WakeWaiter(addr, send)) && t < MAX_TASKS
    ensures Frame(k, WakeWaiter(addr, send), Apply(k, WakeWaiter(addr, send)), t)
  {
    assert TaskOkIn(k, t) && WaitOk(k.s, k.mutexes, t) && |k.s.tasks| == |k.waits|;
    WakeEffect(k.s, k.lists, addr, send);
    hide Inv, WakeOne, ListOf, WellFormed, Listed;
    var woken := WakeOne(k.s, k.lists, addr, send).2;
    if woken.Some? { WokenFrame(k, Apply(k, WakeWaiter(addr, send)), addr, send, woken.value, t); }
  }

  lemma WokenFrame(k: State, k': State, addr: nat, send: bool, woken: nat, t: nat)
    requires |k.s.tasks| == |k.waits| == MAX_TASKS && t < MAX_TASKS && TaskOkIn(k, t) && WaitOk(k.s, k.mutexes, t)
    requires Live(k.s, woken) && Task(k.s, woken).state == BlockedState(send)
    requires k'.s.lastRun == k.s.lastRun && k'.mutexes == k.mutexes
    requires
      var ready := Task(k.s, woken).(state := Ready, quantum := DEFAULT_QUANTUM_MS, blockedOnMutex := None);
      k'.s.tasks == k.s.tasks[woken := Some(ready)]
    requires k'.waits ==
      if k.waits[woken].Some? then k.waits[woken := Some(k.waits[woken].value.(popped := true))] else k.waits
    ensures Frame(k, WakeWaiter(addr, send), k', t)
  {
    hide Listed;
  }

  lemma TickFrame(k: State, core: nat, now: nat, t: nat)
    requires Inv(k) && Enabled(k, Tick(core, now)) && t < MAX_TASKS
    ensures Frame(k, Tick(core, now), Apply(k, Tick(core, now)), t)
  {
    assert TaskOkIn(k, t);
    hide Inv, ListOf, WellFormed;
  }

  lemma SwitchFrame(k: State, core: nat, next: nat, t: nat)
    requires Inv(k) && Enabled(k, Switch(core, next)) && t < MAX_TASKS
    ensures Frame(k, Switch(core, next), Apply(k, Switch(core, next)), t)
  {
    assert TaskOkIn(k, t);
    SwitchIsSafe(k.s, k.idle, core, next);
    var rotated := Rotated(k.s, core, next);
    assert rotated.tasks == k.s.tasks && rotated.current == k.s.current;
    assert Live(k.s, next) && Active(Task(k.s, next));
    hide Inv, IsPick, ListOf, Rotated, Schedules, WellFormed, Dispatch;
    DispatchKeeps(rotated, core, next, t);
  }

  /** A dispatch only exchanges Ready and Running. */
  lemma DispatchKeeps(s: Sched, core: nat, next: nat, t: nat)
    requires |s.tasks| == MAX_TASKS && core < |s.current| && Live(s, next) && Active(Task(s, next)) && t < MAX_TASKS
    ensures
      var s' := Dispatch(s, core, next);
      && |s'.tasks| == MAX_TASKS && Live(s', t) == Live(s, t)
      && (Live(s, t) ==> Active(Task(s', t)) == Active(Task(s, t)))
      && (Live(s, t) ==> Task(s', t).blockedOnMutex == Task(s, t).blockedOnMutex)
  {
    DispatchEffect(s, core, next);
    hide Dispatch;
  }

  lemma JoinFrame(k: State, core: nat, t: nat)
    requires Inv(k) && Enabled(k, JoinCore(core)) && t < MAX_TASKS
    ensures Frame(k, JoinCore(core), Apply(k, JoinCore(core)), t)
  {
    assert TaskOkIn(k, t);
    hide MaskExact, PrioritiesOk, WaitsOk, TableOk, ListOf;
  }

  lemma YieldFrame(k: State, core: nat, t: nat)
    requires Inv(k) && Enabled(k, Yield(core)) && t < MAX_TASKS
    ensures Frame(k, Yield(core), Apply(k, Yield(core)), t)
  {
    assert TaskOkIn(k, t);
    hide MaskExact, PrioritiesOk, CoresOk, WaitsOk, TableOk, HasPeer, ListOf;
  }

  lemma SleepFrame(k: State, core: nat, until: nat, t: nat)
    requires Inv(k) && Enabled(k, Sleep(core, until)) && t < MAX_TASKS
    ensures Frame(k, Sleep(core, until), Apply(k, Sleep(core, until)), t)
  {
    assert TaskOkIn(k, t);
    hide MaskExact, PrioritiesOk, CoresOk, WaitsOk, TableOk, ListOf;
  }

  lemma SuspendFrame(k: State, core: nat, t: nat)
    requires Inv(k) && Enabled(k, Suspend(core)) && t < MAX_TASKS
    ensures Frame(k, Suspend(core), Apply(k, Suspend(core)), t)
  {
    assert TaskOkIn(k, t);
    hide MaskExact, PrioritiesOk, CoresOk, WaitsOk, TableOk, ListOf;
  }

  lemma SpawnFrame(k: State, id: nat, affinity: Affinity, priority: nat, t: nat)
    requires Inv(k) && Enabled(k, Spawn(id, affinity, priority)) && t < MAX_TASKS
    ensures Frame(k, Spawn(id, affinity, priority), Apply(k, Spawn(id, affinity, priority)), t)
  {
    assert TaskOkIn(k, t);
    hide MaskExact, PrioritiesOk, CoresOk, WaitsOk, TableOk, ListOf;
  }

  lemma Sized(k: State)
    requires Inv(k)
    ensures WellFormed(k.s) && |k.waits| == MAX_TASKS
  {
  }

  /** Of the sections about a task only an enrolment gives it a wait, and that one is on its address. */
  lemma AboutWait(k: State, step: Label, t: nat)
    requires Inv(k) && Enabled(k, step) && IsAbout(k, step, t) && t < MAX_TASKS && k.waits[t].None?
    ensures
      var k' := Apply(k, step);
      && |k'.waits| == MAX_TASKS
      && (k'.waits[t].Some? ==> step.EnrolOn? && k'.waits[t].value.addr == step.addr)
  {
    hide Lock, Enrol, MakeReady, BlockCurrent;
  }

  /** A section that is not an enrolment on this list leaves it alone, or is a wake of it and takes the
      first entry, provided nobody on it can time out. */
  lemma SectionLists(k: State, step: Label, addr: nat, send: bool)
    requires Inv(k) && Enabled(k, step) && !(step.EnrolOn? && step.addr == addr && step.send == send)
    requires forall t :: t in ListOf(k.lists, addr, send) ==>
      t < |k.waits| && k.waits[t].Some? && k.waits[t].value.deadline == 0
    ensures
      var list := ListOf(k.lists, addr, send);
      ListOf(Apply(k, step).lists, addr, send) ==
        if step == WakeWaiter(addr, send) && list != [] then list[1..] else list
  {
    hide MaskExact, PrioritiesOk, CoresOk, TableOk;
    if step.WakeWaiter? {
      if step == WakeWaiter(addr, send) { NobodyTimesOut(k, addr, send); }
      WakeLists(k, step.addr, step.send, addr, send);
    } else if step.ResumeWait? {
      ResumeLists(k, step.core, addr, send);
    } else if step.EnrolOn? {
      ListsAfterEnrol(k.s, k.lists, step.core, step.addr, step.send, step.deadline);
    }
  }

  lemma NobodyTimesOut(k: State, addr: nat, send: bool)
    requires WaitsOk(k)
    requires forall t :: t in ListOf(k.lists, addr, send) ==>
      t < |k.waits| && k.waits[t].Some? && k.waits[t].value.deadline == 0
    ensures FirstBlocked(k.s, ListOf(k.lists, addr, send), BlockedState(send)) == 0
  {
    var list := ListOf(k.lists, addr, send);
    assert ListOk(k, addr, send);
    if list != [] { assert TaskOkIn(k, list[0]); }
  }

  lemma WakeLists(k: State, a: nat, s: bool, addr: nat, send: bool)
    requires a == addr && s == send && ListOf(k.lists, addr, send) != [] ==>
               FirstBlocked(k.s, ListOf(k.lists, addr, send), BlockedState(send)) == 0
    ensures
      var list := ListOf(k.lists, addr, send);
      ListOf(WakeOne(k.s, k.lists, a, s).1, addr, send) ==
        if a == addr && s == send && list != [] then list[1..] else list
  {
    var list := ListOf(k.lists, a, s);
    var i := FirstBlocked(k.s, list, BlockedState(s));
    hide FirstBlocked, Unblock;
    if i < |list| {
      ListsAfter(k.lists, a, s, RemoveAt(list, i));
      assert i == 0 ==> RemoveAt(list, i) == list[1..];
      hide ListOf, WithList, RemoveAt;
    }
  }

  lemma ResumeLists(k: State, core: nat, addr: nat, send: bool)
    requires Inv(k) && Enabled(k, ResumeWait(core))
    requires forall t :: t in ListOf(k.lists, addr, send) ==>
      t < |k.waits| && k.waits[t].Some? && k.waits[t].value.deadline == 0
    ensures ListOf(Apply(k, ResumeWait(core)).lists, addr, send) == ListOf(k.lists, addr, send)
  {
    hide MaskExact, PrioritiesOk, CoresOk, TableOk;
    var id := Current(k, core);
    var wait := k.waits[id].value;
    var list := ListOf(k.lists, wait.addr, wait.send);
    assert TaskOkIn(k, id);
    if id in list { ListsAfter(k.lists, wait.addr, wait.send, RemoveAt(list, IndexOf(list, id))); }
  }

  /** A failed test enrols the caller, which is then asleep, or finds no room and leaves it running. */
  lemma EnrolledOrRunning(k: State, core: nat, addr: nat, send: bool)
    requires Inv(k) && Enabled(k, EnrolOn(core, addr, send, 0))
    ensures
      var k' := Apply(k, EnrolOn(core, addr, send, 0));
      var me := Current(k, core);
      && |k'.waits| == MAX_TASKS && me < MAX_TASKS && Live(k'.s, me)
      && (forall t: nat :: t < MAX_TASKS && t != me ==> k'.waits[t] == k.waits[t])
      && (k'.waits[me].None? ==> Active(Task(k'.s, me)))
      && (k'.waits[me].Some? ==>
        var w := k'.waits[me].value; w.addr == addr && w.send == send && w.deadline == 0 && !w.popped)
  {
    Sized(k);
    EnrolEffect(k.s, k.lists, core, addr, send, 0);
    hide Inv, Enrol, ListOf;
  }
}

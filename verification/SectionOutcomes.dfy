/** What every other section of the kernel does in every run, stated from the state before and the state after:
    which tasks it moves, to where, and that it moves nothing else. */
module SectionOutcomes {
  import opened Wrappers
  import opened Sequences
  import opened Tasks
  import opened Inheritance
  import opened Waiters
  import opened Kernel
  import opened MutexOutcomes
  import opened Transitions
  import Guarantees

  /** The waiter lists are as they were, except that one of them is now `list`. */
  ghost predicate OnlyList(k: State, k': State, addr: nat, send: bool, list: seq<nat>) {
    forall a: nat, dir: bool ::
      ListOf(k'.lists, a, dir) == if a == addr && dir == send then list else ListOf(k.lists, a, dir)
  }

  // ── Time ────────────────────────────────────────────────────────────────────────────────────

  predicate WaitTicked(t: Option<Tcb>, w: Option<Wait>, w': Option<Wait>, now: nat) {
    w' == if w.Some? && t.Some? && Due(t.value, now) then Some(w.value.(expired := true)) else w
  }

  ghost predicate HasTicked(k: State, k': State, core: nat, now: nat) {
    && k' == k.(s := k'.s, waits := k'.waits) && |k.s.tasks| == |k.waits| == |k'.waits|
    && TickEffect(k.s, k'.s, core, now)
    && forall id: nat :: id < |k.waits| ==> WaitTicked(k.s.tasks[id], k.waits[id], k'.waits[id], now)
  }

  lemma TickSection(k: State, core: nat, now: nat)
    requires Inv(k) && Enabled(k, Tick(core, now))
    ensures
      var k' := Apply(k, Tick(core, now));
      && HasTicked(k, k', core, now)
      && (TickSwitches(k.s, core, now) <==> Outranked(k.s, k'.s, core) || SliceOver(k.s, k'.s, core))
  {
    assert |k.waits| == |k.s.tasks| && core < |k.s.current|;
    var k' := Apply(k, Tick(core, now));
    TickDoes(k.s, core, now);
    TickAsksExactly(k.s, core, now);
    hide Inv, WellFormed, OnTick, WaitTicked, TickEffect, TickSwitches, Outranked, SliceOver;
    forall id: nat | id < |k.waits| ensures WaitTicked(k.s.tasks[id], k.waits[id], k'.waits[id], now) {
      TickWait(k, now, id);
    }
  }

  lemma TickWait(k: State, now: nat, id: nat)
    requires |k.s.tasks| == |k.waits| && id < |k.waits|
    ensures WaitTicked(k.s.tasks[id], k.waits[id], Expire(k, now)[id], now)
  {
  }

  // ── Queue waits ─────────────────────────────────────────────────────────────────────────────

  /** Fewer than sixteen tasks are on the list, and it is in the table or fewer than sixteen addresses are. */
  predicate HasRoom(k: State, addr: nat, send: bool) {
    |ListOf(k.lists, addr, send)| < 16 && (addr in k.lists || |k.lists| < 16)
  }

  /** Task `t` has armed its deadline; with room, it is blocked and listed last, and its wait has begun. */
  ghost predicate HasEnrolled(k: State, k': State, t: nat, addr: nat, send: bool, deadline: nat, answer: bool) {
    && Live(k.s, t) && t < |k.waits| && k'.mutexes == k.mutexes && k'.idle == k.idle
    && answer == HasRoom(k, addr, send)
    && var armed, list := Task(k.s, t).(sleepUntil := deadline), ListOf(k.lists, addr, send);
       if answer then
         && Becomes(k.s, k'.s, t, armed.(state := if send then BlockedSend else BlockedRecv))
         && OnlyList(k, k', addr, send, list + [t]) && k'.tickets == k.tickets + 1
         && k'.waits == k.waits[t := Some(Wait(addr, send, deadline, k.tickets, false, false))]
       else
         && Becomes(k.s, k'.s, t, armed) && OnlyList(k, k', addr, send, list)
         && k'.tickets == k.tickets && k'.waits == k.waits
  }

  lemma EnrolSection(k: State, core: nat, addr: nat, send: bool, deadline: nat)
    requires Inv(k) && Enabled(k, EnrolOn(core, addr, send, deadline))
    ensures HasEnrolled(k, Apply(k, EnrolOn(core, addr, send, deadline)), Current(k, core), addr, send, deadline,
                        Enrol(k.s, k.lists, core, addr, send, deadline).2)
  {
    EnrolEffect(k.s, k.lists, core, addr, send, deadline);
    EnrolLists(k, core, addr, send, deadline);
    assert Current(k, core) < |k.waits|;
    hide Inv, WellFormed, ListOf, Enrol;
    EnrolKeeps(k, core, addr, send, deadline);
  }

  lemma EnrolLists(k: State, core: nat, addr: nat, send: bool, deadline: nat)
    requires core < |k.s.current|
    ensures
      var (_, w', ok) := Enrol(k.s, k.lists, core, addr, send, deadline);
      && ok == HasRoom(k, addr, send)
      && forall a: nat, dir: bool ::
           ListOf(w', a, dir) ==
             if ok && a == addr && dir == send then ListOf(k.lists, a, dir) + [k.s.current[core]]
             else ListOf(k.lists, a, dir)
  {
    hide BlockCurrent;
  }

  lemma EnrolKeeps(k: State, core: nat, addr: nat, send: bool, deadline: nat)
    requires core < |k.s.current|
    ensures
      var s' := Enrol(k.s, k.lists, core, addr, send, deadline).0;
      s' == k.s.(tasks := s'.tasks, readyMask := s'.readyMask)
  {
  }

  /** The first listed task that is still blocked there has been woken, popped and taken off the list; if there
      is none, nothing has changed. */
  ghost predicate HasWoken(k: State, k': State, addr: nat, send: bool, woken: Option<nat>) {
    var list, blocked := ListOf(k.lists, addr, send), if send then BlockedSend else BlockedRecv;
    match woken
    case None => k' == k && forall id :: id in list ==> !(Live(k.s, id) && Task(k.s, id).state == blocked)
    case Some(id) =>
      && id in list && Live(k.s, id) && Task(k.s, id).state == blocked && id < |k.waits| && k.waits[id].Some?
      && Becomes(k.s, k'.s, id, Task(k.s, id).(state := Ready, quantum := 10, blockedOnMutex := None))
      && OnlyList(k, k', addr, send, RemoveAt(list, IndexOf(list, id)))
      && k'.waits == k.waits[id := Some(k.waits[id].value.(popped := true))]
      && k'.mutexes == k.mutexes && k'.tickets == k.tickets && k'.idle == k.idle
      && forall j: nat :: j < IndexOf(list, id) ==> !(Live(k.s, list[j]) && Task(k.s, list[j]).state == blocked)
  }

  lemma WakeSection(k: State, addr: nat, send: bool)
    requires Inv(k) && Enabled(k, WakeWaiter(addr, send))
    ensures HasWoken(k, Apply(k, WakeWaiter(addr, send)), addr, send, WakeOne(k.s, k.lists, addr, send).2)
  {
    var list, blocked := ListOf(k.lists, addr, send), BlockedState(send);
    var i := FirstBlocked(k.s, list, blocked);
    assert ListOk(k, addr, send);
    hide Inv, WellFormed;
    if i < |list| {
      WakeAt(k, addr, send, i);
    } else {
      forall id | id in list ensures !(Live(k.s, id) && Task(k.s, id).state == blocked) {
        var j :| 0 <= j < |list| && list[j] == id;
      }
      hide FirstBlocked;
    }
  }

  lemma WakeAt(k: State, addr: nat, send: bool, i: nat)
    requires ListOk(k, addr, send) && Enabled(k, WakeWaiter(addr, send))
    requires i == FirstBlocked(k.s, ListOf(k.lists, addr, send), BlockedState(send)) < |ListOf(k.lists, addr, send)|
    ensures HasWoken(k, Apply(k, WakeWaiter(addr, send)), addr, send, Some(ListOf(k.lists, addr, send)[i]))
  {
    var list := ListOf(k.lists, addr, send);
    WakeFirst(k, addr, send, i);
    WakeTakes(k, addr, send, i);
    WakeIs(k, addr, send, i);
    UnblockDoes(k.s, list[i]);
    hide ListOk, InOrder, RemoveAt, IndexOf, FirstBlocked, WithList, WellFormed, ListOf, Unblock, Apply, Enabled;
  }

  lemma WakeFirst(k: State, addr: nat, send: bool, i: nat)
    requires ListOk(k, addr, send) && i < |ListOf(k.lists, addr, send)|
    ensures
      var list := ListOf(k.lists, addr, send);
      && list[i] in list && IndexOf(list, list[i]) == i
      && list[i] < |k.waits| && k.waits[list[i]].Some?
  {
    var list := ListOf(k.lists, addr, send);
    assert list[i] !in list[..i];
    IndexIs(list, list[i], i);
  }

  lemma WakeIs(k: State, addr: nat, send: bool, i: nat)
    requires ListOk(k, addr, send) && Enabled(k, WakeWaiter(addr, send)) && addr in k.lists
    requires i == FirstBlocked(k.s, ListOf(k.lists, addr, send), BlockedState(send)) < |ListOf(k.lists, addr, send)|
    ensures
      var list := ListOf(k.lists, addr, send);
      && list[i] < |k.waits| && k.waits[list[i]].Some?
      && Apply(k, WakeWaiter(addr, send)) ==
           k.(s := Unblock(k.s, list[i]), lists := WithList(k.lists, addr, send, RemoveAt(list, i)),
              waits := k.waits[list[i] := Some(k.waits[list[i]].value.(popped := true))])
  {
    hide FirstBlocked, Unblock, WithList, RemoveAt, ListOf, WellFormed;
  }

  lemma WakeTakes(k: State, addr: nat, send: bool, i: nat)
    requires i < |ListOf(k.lists, addr, send)|
    ensures addr in k.lists
    ensures
      var list := ListOf(k.lists, addr, send);
      forall a: nat, dir: bool ::
        ListOf(WithList(k.lists, addr, send, RemoveAt(list, i)), a, dir) ==
          if a == addr && dir == send then RemoveAt(list, i) else ListOf(k.lists, a, dir)
  {
    ListsAfter(k.lists, addr, send, RemoveAt(ListOf(k.lists, addr, send), i));
  }

  /** Task `t` is past its wait and off the list; it is told whether it had already been taken off. */
  ghost predicate HasResumed(k: State, k': State, t: nat, answer: bool) {
    && t < |k.waits| && k.waits[t].Some?
    && var addr, send := k.waits[t].value.addr, k.waits[t].value.send;
       var list := ListOf(k.lists, addr, send);
       && k' == k.(lists := k'.lists, waits := k.waits[t := None])
       && answer == (t !in list)
       && OnlyList(k, k', addr, send, if t in list then RemoveAt(list, IndexOf(list, t)) else list)
  }

  lemma ResumeSection(k: State, core: nat)
    requires Inv(k) && Enabled(k, ResumeWait(core))
    ensures HasResumed(k, Apply(k, ResumeWait(core)), Current(k, core),
                       Resume(k.lists, k.waits[Current(k, core)].value.addr, k.waits[Current(k, core)].value.send,
                              Current(k, core)).1)
  {
    var t := Current(k, core);
    var addr, send := k.waits[t].value.addr, k.waits[t].value.send;
    var list := ListOf(k.lists, addr, send);
    if t in list { ListsAfter(k.lists, addr, send, RemoveAt(list, IndexOf(list, t))); }
    hide Inv, WellFormed, RemoveAt, IndexOf;
  }

  // ── The core's own task ─────────────────────────────────────────────────────────────────────

  lemma YieldSection(k: State, core: nat)
    requires Inv(k) && Enabled(k, Yield(core))
    ensures
      var k' := Apply(k, Yield(core));
      k' == k.(s := k'.s) && YieldEffect(k.s, k'.s, core, HasPeer(k.s, core))
  {
    YieldDoes(k.s, core);
    hide Inv, YieldCurrent, HasPeer;
  }

  lemma SwitchSection(k: State, core: nat, next: nat)
    requires Inv(k) && Enabled(k, Switch(core, next))
    ensures
      var k' := Apply(k, Switch(core, next));
      && k' == k.(s := k'.s) && |k.s.current| == 2 && core < 2
      && ChosenFairly(k.s, core, next) && SwitchEffect(k.s, k'.s, core, next)
      && k'.s.lastRun == k.s.lastRun[Task(k.s, next).priority := next]
  {
    SwitchDoes(k.s, k.idle, core, next);
    hide Inv, Dispatch, Rotated, Schedules, ChosenFairly, SwitchEffect;
  }

  lemma JoinSection(k: State, core: nat)
    requires Inv(k) && Enabled(k, JoinCore(core))
    ensures
      var k' := Apply(k, JoinCore(core));
      k' == k.(s := k'.s) && SwitchEffect(k.s, k'.s, core, k.idle[core]) && Active(Task(k.s, k.idle[core]))
  {
    assert CoreOk(k.s, k.idle, core) && |k.s.tasks| == MAX_TASKS;
    hide Inv, WellFormed;
  }

  lemma StopSection(k: State, core: nat, until: nat)
    requires Inv(k)
    ensures Enabled(k, Sleep(core, until)) ==>
      var k', t := Apply(k, Sleep(core, until)), Current(k, core);
      k' == k.(s := k'.s) && Becomes(k.s, k'.s, t, Task(k.s, t).(state := BlockedSleep, sleepUntil := until))
    ensures Enabled(k, Suspend(core)) ==>
      var k', t := Apply(k, Suspend(core)), Current(k, core);
      k' == k.(s := k'.s) && Becomes(k.s, k'.s, t, Task(k.s, t).(state := Suspended))
  {
    hide Inv, WellFormed;
  }

  lemma SpawnSection(k: State, id: nat, affinity: Affinity, priority: nat)
    requires Inv(k) && Enabled(k, Spawn(id, affinity, priority))
    ensures
      var k' := Apply(k, Spawn(id, affinity, priority));
      && k' == k.(s := k'.s) && k.s.tasks[id].None?
      && Becomes(k.s, k'.s, id, Tcb(affinity, priority, priority, Ready, 10, 0, None, None))
  {
    hide Inv;
  }

  // ── When a section may run ──────────────────────────────────────────────────────────────────

  /** The core's own task is running, in no queue wait, and is not an idle task. */
  predicate Calls(k: State, core: nat) {
    && core < |k.s.current| && Live(k.s, k.s.current[core]) && Task(k.s, k.s.current[core]).state.Running?
    && k.s.current[core] < |k.waits| && k.waits[k.s.current[core]].None? && k.s.current[core] !in k.idle
  }

  /** What has to be the case for a section to run: its caller is there, and a switch makes the fair choice. */
  ghost predicate MayRun(k: State, step: Label) {
    match step
    case LockMutex(core, addr, _) => Calls(k, core) && addr != 0
    case UnlockMutex(core, _) => Calls(k, core)
    case EnrolOn(core, _, _, _) => Calls(k, core)
    case ResumeWait(core) =>
      && core < |k.s.current| && Live(k.s, k.s.current[core]) && Task(k.s, k.s.current[core]).state.Running?
      && k.s.current[core] < |k.waits| && k.waits[k.s.current[core]].Some?
    case WakeWaiter(_, _) => true
    case Tick(core, _) => core < |k.s.current| && Live(k.s, k.s.current[core])
    case Switch(core, next) => |k.s.current| == 2 && core < 2 && ChosenFairly(k.s, core, next)
    case JoinCore(core) => core < |k.s.current| && k.s.current[core] == 0xFFFF_FFFF
    case Yield(core) =>
      core < |k.s.current| && Live(k.s, k.s.current[core]) && Task(k.s, k.s.current[core]).state.Running?
    case Sleep(core, _) => Calls(k, core)
    case Suspend(core) => Calls(k, core)
    case Spawn(id, _, priority) => id < |k.s.tasks| && k.s.tasks[id].None? && priority < 48
  }

  /** A section may run exactly then, whatever the waiter lists hold. */
  lemma RunsExactly(k: State, lists: WaitTable, step: Label)
    requires Inv(k.(lists := lists))
    ensures Enabled(k, step) <==> MayRun(k, step)
  {
    assert WellFormed(k.s) && |k.waits| == MAX_TASKS && |k.idle| == MAX_CORES;
    if step.Switch? {
      SwitchRunsExactly(k, lists, step.core, step.next);
    } else if step.Spawn? && step.id < MAX_TASKS {
      assert TaskOkIn(k.(lists := lists), step.id);
      hide Inv;
    } else {
      hide Inv;
    }
  }

  lemma SwitchRunsExactly(k: State, lists: WaitTable, core: nat, next: nat)
    requires Inv(k.(lists := lists))
    ensures Enabled(k, Switch(core, next)) <==> |k.s.current| == 2 && core < 2 && ChosenFairly(k.s, core, next)
  {
    assert |k.waits| == MAX_TASKS;
    hide TableOk, PrioritiesOk, WaitsOk;
    if Enabled(k, Switch(core, next)) {
      SwitchDoes(k.s, k.idle, core, next);
    } else if core < 2 && ChosenFairly(k.s, core, next) {
      FairIsPick(k.s, core, next);
    }
  }

  /** The kernel boots with one idle task per core, least urgent, pinned and Ready, and nothing else. */
  lemma BootsWithIdleTasks(id: nat)
    ensures
      var k := Boot();
      && |k.s.tasks| == 32 && k.s.current == [0xFFFF_FFFF, 0xFFFF_FFFF] && k.idle == [0, 1]
      && k.mutexes == map[] && k.lists == map[]
      && (id < 2 ==> k.s.tasks[id] == Some(Tcb(Core(id), 48, 48, Ready, 10, 0, None, None)))
      && (2 <= id < 32 ==> k.s.tasks[id] == None)
      && (id < |k.waits| ==> k.waits[id] == None)
  {
  }

  // ── Every section ───────────────────────────────────────────────────────────────────────────

  /** What the section has done, and what its caller was told. */
  ghost predicate Does(k: State, step: Label, k': State)
    requires Enabled(k, step) && |k.s.current| == 2
  {
    match step
    case LockMutex(core, addr, inInterrupt) =>
      Locks(k, k', Current(k, core), addr, inInterrupt, Lock(k.s, k.mutexes, core, addr, inInterrupt).2)
    case UnlockMutex(core, addr) => Unlocks(k, k', Current(k, core), addr, Unlock(k.s, k.mutexes, core, addr).2)
    case EnrolOn(core, addr, send, deadline) =>
      HasEnrolled(k, k', Current(k, core), addr, send, deadline, Enrol(k.s, k.lists, core, addr, send, deadline).2)
    case ResumeWait(core) =>
      var t := Current(k, core);
      HasResumed(k, k', t, Resume(k.lists, k.waits[t].value.addr, k.waits[t].value.send, t).1)
    case WakeWaiter(addr, send) => HasWoken(k, k', addr, send, WakeOne(k.s, k.lists, addr, send).2)
    case Tick(core, now) =>
      && HasTicked(k, k', core, now)
      && (TickSwitches(k.s, core, now) <==> Outranked(k.s, k'.s, core) || SliceOver(k.s, k'.s, core))
    case Switch(core, next) =>
      && k' == k.(s := k'.s) && ChosenFairly(k.s, core, next) && SwitchEffect(k.s, k'.s, core, next)
      && k'.s.lastRun == k.s.lastRun[Task(k.s, next).priority := next]
    case JoinCore(core) =>
      k' == k.(s := k'.s) && SwitchEffect(k.s, k'.s, core, k.idle[core]) && Active(Task(k.s, k.idle[core]))
    case Yield(core) => k' == k.(s := k'.s) && YieldEffect(k.s, k'.s, core, HasPeer(k.s, core))
    case Sleep(core, until) =>
      var t := Current(k, core);
      k' == k.(s := k'.s) && Becomes(k.s, k'.s, t, Task(k.s, t).(state := BlockedSleep, sleepUntil := until))
    case Suspend(core) =>
      var t := Current(k, core);
      k' == k.(s := k'.s) && Becomes(k.s, k'.s, t, Task(k.s, t).(state := Suspended))
    case Spawn(id, affinity, priority) =>
      k' == k.(s := k'.s) && Becomes(k.s, k'.s, id, Tcb(affinity, priority, priority, Ready, 10, 0, None, None))
  }

  lemma SectionDoes(k: State, step: Label)
    requires Inv(k) && Enabled(k, step)
    ensures |k.s.current| == 2 && Does(k, step, Apply(k, step))
  {
    assert |k.s.current| == 2;
    hide Inv, Apply, Locks, Unlocks, HasEnrolled, HasResumed, HasWoken, HasTicked, TickSwitches, SwitchEffect;
    hide ChosenFairly, YieldEffect, HasPeer, Becomes, Outranked, SliceOver, WellFormed, Schedules, Lock, Unlock, Enrol;
    hide Resume;
    match step
    case LockMutex(core, addr, inInterrupt) => LockSection(k, core, addr, inInterrupt);
    case UnlockMutex(core, addr) => UnlockSection(k, core, addr);
    case EnrolOn(core, addr, send, deadline) => EnrolSection(k, core, addr, send, deadline);
    case ResumeWait(core) => ResumeSection(k, core);
    case WakeWaiter(addr, send) => WakeSection(k, addr, send);
    case Tick(core, now) => TickSection(k, core, now);
    case Switch(core, next) => SwitchSection(k, core, next);
    case JoinCore(core) => JoinSection(k, core);
    case Yield(core) => YieldSection(k, core);
    case Sleep(core, until) => StopSection(k, core, until);
    case Suspend(core) => StopSection(k, core, 0);
    case Spawn(id, affinity, priority) => SpawnSection(k, id, affinity, priority);
  }

  /** Every step of every run does just that. */
  lemma StepsDo(states: seq<State>, steps: seq<Label>, i: nat)
    requires Guarantees.IsRun(states, steps) && i < |steps|
    ensures Enabled(states[i], steps[i]) && |states[i].s.current| == 2 && Does(states[i], steps[i], states[i + 1])
  {
    Guarantees.RunInv(states, steps, i);
    hide Inv, Does, Apply;
    SectionDoes(states[i], steps[i]);
  }
}

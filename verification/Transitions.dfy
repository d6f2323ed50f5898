/** What each of the scheduler's operations does, stated from the state before and the state after: which task it
    moves, to where, and that it moves no other. The mask they leave is exact; see `Tasks`. */
module Transitions {
  import opened Wrappers
  import opened Tasks

  /** Task `id` is now `t`. Apart from that only the ready mask may differ. */
  predicate Becomes(s: Sched, s': Sched, id: nat, t: Tcb) {
    s' == s.(tasks := s'.tasks, readyMask := s'.readyMask) && id < |s.tasks| && s'.tasks == s.tasks[id := Some(t)]
  }

  // ── Moving one task ─────────────────────────────────────────────────────────────────────────

  /** A live task is Ready, with a full slice. */
  predicate Readies(s: Sched, s': Sched, id: nat) {
    if Live(s, id) then Becomes(s, s', id, Task(s, id).(state := Ready, quantum := 10)) else s' == s
  }

  /** The core's own task is in the given state. */
  predicate Stops(s: Sched, s': Sched, core: nat, state: TaskState)
    requires core < |s.current|
  {
    var id := s.current[core];
    if Live(s, id) then Becomes(s, s', id, Task(s, id).(state := state)) else s' == s
  }

  predicate StopsOnMutex(s: Sched, s': Sched, core: nat, addr: nat)
    requires core < |s.current|
  {
    var id := s.current[core];
    if Live(s, id) then Becomes(s, s', id, Task(s, id).(state := BlockedMutex, blockedOnMutex := Some(addr)))
    else s' == s
  }

  /** Whatever a task is blocked in, it is Ready with a full slice; any other task is left alone. */
  predicate Unblocks(s: Sched, s': Sched, id: nat) {
    if Live(s, id) && Task(s, id).state in {BlockedSend, BlockedRecv, BlockedMutex, BlockedSleep}
    then Becomes(s, s', id, Task(s, id).(state := Ready, quantum := 10, blockedOnMutex := None))
    else s' == s
  }

  predicate MovesTo(s: Sched, s': Sched, id: nat, priority: nat) {
    if Live(s, id) then Becomes(s, s', id, Task(s, id).(priority := priority)) else s' == s
  }

  /** A boost only ever lifts, and the first one notes where from. */
  predicate Lifts(s: Sched, s': Sched, id: nat, target: nat) {
    if Live(s, id) && target < Task(s, id).priority then
      var t := Task(s, id);
      var noted := if t.boostedFrom == None then Some(t.priority) else t.boostedFrom;
      Becomes(s, s', id, t.(priority := target, boostedFrom := noted))
    else s' == s
  }

  /** At its base priority or below a task is no longer boosted. */
  predicate Inherits(s: Sched, s': Sched, id: nat, priority: nat) {
    if Live(s, id) then
      var t := Task(s, id);
      var noted := if priority >= t.basePrio then None else t.boostedFrom;
      Becomes(s, s', id, t.(priority := priority, boostedFrom := noted))
    else s' == s
  }

  lemma MakeReadyDoes(s: Sched, id: nat)
    ensures Readies(s, MakeReady(s, id), id)
  {
  }

  lemma BlockCurrentDoes(s: Sched, core: nat, state: TaskState)
    requires core < |s.current|
    ensures Stops(s, BlockCurrent(s, core, state), core, state)
  {
  }

  lemma BlockCurrentOnMutexDoes(s: Sched, core: nat, addr: nat)
    requires core < |s.current|
    ensures StopsOnMutex(s, BlockCurrentOnMutex(s, core, addr), core, addr)
  {
  }

  lemma UnblockDoes(s: Sched, id: nat)
    ensures Unblocks(s, Unblock(s, id), id)
  {
  }

  lemma SetEffectivePriorityDoes(s: Sched, id: nat, priority: nat)
    ensures MovesTo(s, SetEffectivePriority(s, id, priority), id, priority)
  {
  }

  lemma BoostPriorityDoes(s: Sched, id: nat, target: nat)
    ensures Lifts(s, BoostPriority(s, id, target), id, target)
  {
  }

  lemma SetInheritedPriorityDoes(s: Sched, id: nat, priority: nat)
    ensures Inherits(s, SetInheritedPriority(s, id, priority), id, priority)
  {
  }

  // ── Time ────────────────────────────────────────────────────────────────────────────────────

  /** A sleep or a finite queue wait whose deadline has come. */
  predicate Due(t: Tcb, now: nat) {
    (t.state.BlockedSleep? || t.state.BlockedSend? || t.state.BlockedRecv?) && 1 <= t.sleepUntil <= now
  }

  /** A task after a tick: a due one is Ready with a full slice and no deadline; the core's own is charged. */
  predicate TaskTicked(t: Tcb, t': Tcb, now: nat, own: bool) {
    var awake := if Due(t, now) then t.(state := Ready, quantum := 10, sleepUntil := 0) else t;
    t' == if !own then awake else awake.(quantum := if awake.quantum <= 1 then 10 else awake.quantum - 1)
  }

  /** A tick does that to every task, and otherwise touches only the ready mask. */
  ghost predicate TickEffect(s: Sched, s': Sched, core: nat, now: nat) {
    && core < |s.current|
    && s' == s.(tasks := s'.tasks, readyMask := s'.readyMask) && |s'.tasks| == |s.tasks|
    && (forall id: nat :: Live(s', id) == Live(s, id))
    && (forall id: nat :: Live(s, id) ==> TaskTicked(Task(s, id), Task(s', id), now, id == s.current[core]))
  }

  lemma TickDoes(s: Sched, core: nat, now: nat)
    requires core < |s.current|
    ensures TickEffect(s, OnTick(s, core, now), core, now)
  {
    TickShape(s, core, now);
    hide OnTick, TaskTicked;
    forall id: nat | Live(s, id)
      ensures TaskTicked(Task(s, id), Task(OnTick(s, core, now), id), now, id == s.current[core])
    {
      TickOne(s, core, now, id);
    }
  }

  lemma TickShape(s: Sched, core: nat, now: nat)
    requires core < |s.current|
    ensures
      var s' := OnTick(s, core, now);
      && s' == s.(tasks := s'.tasks, readyMask := s'.readyMask) && |s'.tasks| == |s.tasks|
      && forall id: nat :: Live(s', id) == Live(s, id)
  {
  }

  lemma TickOne(s: Sched, core: nat, now: nat, id: nat)
    requires core < |s.current| && Live(s, id)
    ensures Live(OnTick(s, core, now), id)
    ensures TaskTicked(Task(s, id), Task(OnTick(s, core, now), id), now, id == s.current[core])
  {
    assert WakeExpired(s, now).tasks[id] == TickTask(s.tasks[id], now);
    hide WakeExpired;
  }

  /** A runnable task is more urgent than the core's own; a core without one counts as idle. */
  ghost predicate Outranked(s: Sched, s': Sched, core: nat)
    requires core < |s.current|
  {
    var top := if Live(s, s.current[core]) then Task(s, s.current[core]).priority else 48;
    exists id: nat :: Live(s', id) && Active(Task(s', id)) && Task(s', id).priority < top
  }

  /** The core's own task, still running, has used its slice up, and a Ready task waits at its level. */
  ghost predicate SliceOver(s: Sched, s': Sched, core: nat)
    requires core < |s.current|
  {
    var cur := s.current[core];
    && Live(s, cur) && Task(s, cur).state.Running? && Task(s, cur).quantum <= 1
    && exists id: nat ::
         id != cur && Live(s', id) && Task(s', id).state.Ready? && Task(s', id).priority == Task(s, cur).priority
  }

  /** With an exact mask, a tick asks for a switch exactly for one of these two reasons. */
  lemma TickAsksExactly(s: Sched, core: nat, now: nat)
    requires MaskExact(s) && core < |s.current|
    ensures var s' := OnTick(s, core, now);
            TickSwitches(s, core, now) <==> Outranked(s, s', core) || SliceOver(s, s', core)
  {
    TickMask(s, core, now);
    hide MaskExact;
    TickOutranks(s, OnTick(s, core, now), core, now);
    TickSlice(s, OnTick(s, core, now), core, now);
    hide OnTick, Outranked, SliceOver, AnotherReadyAt;
  }

  lemma TickOutranks(s: Sched, s': Sched, core: nat, now: nat)
    requires core < |s.current| && s' == OnTick(s, core, now) && MaskExact(s')
    ensures (exists p :: p in WakeExpired(s, now).readyMask && p < CurrentPriority(s, core)) <==> Outranked(s, s', core)
  {
    var mask, top := WakeExpired(s, now).readyMask, CurrentPriority(s, core);
    assert s'.readyMask == mask;
    hide OnTick, WakeExpired;
    if p :| p in mask && p < top {
      assert BitExact(s', p);
      var i :| 0 <= i < |s'.tasks| && s'.tasks[i].Some? && Active(s'.tasks[i].value) && s'.tasks[i].value.priority == p;
      assert Live(s', i);
    }
    if id: nat :| Live(s', id) && Active(Task(s', id)) && Task(s', id).priority < top {
      assert s'.tasks[id].Some?;
      assert BitExact(s', Task(s', id).priority);
    }
  }

  lemma TickSlice(s: Sched, s': Sched, core: nat, now: nat)
    requires core < |s.current| && s' == OnTick(s, core, now)
    ensures
      var woken, cur := WakeExpired(s, now), s.current[core];
      && (SliceOver(s, s', core) <==>
            Live(woken, cur) && Task(woken, cur).quantum <= 1 && Task(woken, cur).state.Running?
              && AnotherReadyAt(woken, Task(woken, cur).priority, cur))
  {
    var woken, cur := WakeExpired(s, now), s.current[core];
    assert cur < |s.tasks| ==> woken.tasks[cur] == TickTask(s.tasks[cur], now);
    forall id: nat | id < |woken.tasks| && id != cur ensures s'.tasks[id] == woken.tasks[id] {}
    hide OnTick, WakeExpired;
    if Live(woken, cur) && AnotherReadyAt(woken, Task(woken, cur).priority, cur) {
      var i :| 0 <= i < |woken.tasks| && i != cur && woken.tasks[i].Some?
        && woken.tasks[i].value.priority == Task(woken, cur).priority && woken.tasks[i].value.state.Ready?;
      assert Live(s', i);
    }
  }

  // ── Who runs next ───────────────────────────────────────────────────────────────────────────

  /** A task may run on this core: it is not pinned, or pinned here. */
  predicate MayRunOn(t: Tcb, core: nat) { t.affinity == Any || t.affinity == Core(core) }

  /** Another Ready task that may run on this core, is at least as urgent, and is not current on the other. */
  predicate CouldTakeOver(s: Sched, core: nat, id: nat)
    requires |s.current| == 2 && core < 2 && Live(s, s.current[core])
  {
    && Live(s, id) && id != s.current[core] && id != s.current[1 - core]
    && Task(s, id).state.Ready? && Task(s, id).priority <= Task(s, s.current[core]).priority
    && MayRunOn(Task(s, id), core)
  }

  ghost predicate YieldEffect(s: Sched, s': Sched, core: nat, yielded: bool) {
    && |s.current| == 2 && core < 2
    && var cur := s.current[core];
       && (yielded <==> Live(s, cur) && exists id: nat :: CouldTakeOver(s, core, id))
       && if yielded then Becomes(s, s', cur, Task(s, cur).(state := Ready)) else s' == s
  }

  lemma YieldDoes(s: Sched, core: nat)
    requires |s.current| == 2 && core < 2
    ensures YieldEffect(s, YieldCurrent(s, core), core, Live(s, s.current[core]) && HasPeer(s, core))
  {
    if Live(s, s.current[core]) {
      forall id: nat | Live(s, id) ensures CouldTakeOver(s, core, id) <==> IsPeer(s, core, id) {}
      if HasPeer(s, core) {
        var i :| 0 <= i < |s.tasks| && IsPeer(s, core, i);
        assert CouldTakeOver(s, core, i);
      }
    }
  }

  /** The core could run the task: it is Ready or Running, allowed there, and not current on the other core. */
  predicate CouldRun(s: Sched, core: nat, id: nat)
    requires |s.current| == 2 && core < 2
  {
    && Live(s, id) && (Task(s, id).state.Ready? || Task(s, id).state.Running?)
    && MayRunOn(Task(s, id), core) && id != s.current[1 - core]
  }

  /** How many slots come before `id`, counting on from the one after `last` and around thirty-two of them. */
  function Turns(last: nat, id: nat): int {
    if last < id then id - last - 1 else 32 - (last - id) - 1
  }

  /** Task `next` is one the core could run; none of those is more urgent, and of those at its level it is the first
      after the one dispatched there last. */
  ghost predicate ChosenFairly(s: Sched, core: nat, next: nat)
    requires |s.current| == 2 && core < 2
  {
    && CouldRun(s, core, next) && Task(s, next).priority < |s.lastRun|
    && var p := Task(s, next).priority;
       forall id: nat :: CouldRun(s, core, id) ==>
         && p <= Task(s, id).priority
         && (Task(s, id).priority == p ==> Turns(s.lastRun[p], next) <= Turns(s.lastRun[p], id))
  }

  lemma PickIsFair(s: Sched, core: nat, next: nat)
    requires WellFormed(s) && MaskExact(s) && core < 2 && IsPick(s, core, next)
    ensures |s.current| == 2 && ChosenFairly(s, core, next)
    ensures Rotated(s, core, next) == s.(lastRun := s.lastRun[Task(s, next).priority := next])
  {
    assert TaskOk(s.tasks[next]);
    forall id: nat | CouldRun(s, core, id) ensures Eligible(s, core, id) && Task(s, id).priority in s.readyMask {
      assert BitExact(s, Task(s, id).priority);
      assert s.tasks[id].Some?;
    }
    hide MaskExact, BitExact, ActiveAt;
  }

  /** The other way round: a fair choice is what the level loop finds. */
  lemma FairIsPick(s: Sched, core: nat, next: nat)
    requires WellFormed(s) && MaskExact(s) && core < 2 && ChosenFairly(s, core, next)
    ensures IsPick(s, core, next)
  {
    assert BitExact(s, Task(s, next).priority);
    assert s.tasks[next].Some?;
    forall id: nat | Eligible(s, core, id) ensures CouldRun(s, core, id) {}
    hide MaskExact, BitExact, ActiveAt;
  }

  /** Task `next` runs on the core; the task it replaces is Ready if it was still running. Both may be one. */
  ghost predicate SwitchEffect(s: Sched, s': Sched, core: nat, next: nat) {
    && core < |s.current| && |s'.tasks| == |s.tasks| && Live(s, next)
    && s'.current == s.current[core := next]
    && s'.tasks[next] == Some(Task(s, next).(state := Running))
    && forall id: nat :: id < |s.tasks| && id != next ==>
         s'.tasks[id] ==
           if id == s.current[core] && s.tasks[id].Some? && Task(s, id).state.Running?
           then Some(Task(s, id).(state := Ready)) else s.tasks[id]
  }

  /** A switch installs the task chosen by turn, whose turn it records. */
  lemma SwitchDoes(s: Sched, idle: seq<nat>, core: nat, next: nat)
    requires WellFormed(s) && MaskExact(s) && CoresOk(s, idle) && core < MAX_CORES && Schedules(s, core, next)
    ensures |s.current| == 2 && ChosenFairly(s, core, next)
    ensures
      var s' := Dispatch(Rotated(s, core, next), core, next);
      SwitchEffect(s, s', core, next) && s'.lastRun == s.lastRun[Task(s, next).priority := next]
  {
    SwitchIsSafe(s, idle, core, next);
    PickIsFair(s, core, next);
    DispatchEffect(Rotated(s, core, next), core, next);
    hide IsPick, Dispatch, Schedules, Eligible, MaskExact, CoresOk, Rotated, ChosenFairly;
  }
}

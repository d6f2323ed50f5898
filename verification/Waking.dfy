/** When sleeping and waiting tasks become runnable again: at the first tick at or after their deadline, and not
    before, whatever else happens. */
module Waking {
  import opened Wrappers
  import opened Sequences
  import opened Tasks
  import opened Inheritance
  import opened Waiters
  import opened Kernel
  import opened Deadlines
  import opened MutexOutcomes
  import opened SectionOutcomes
  import opened Transitions
  import Guarantees

  /** Task `t` sleeps until the given time. */
  predicate SleepsUntil(k: State, t: nat, until: nat) {
    Live(k.s, t) && Task(k.s, t).state.BlockedSleep? && Task(k.s, t).sleepUntil == until
  }

  /** A tick on some core at or after the given time. */
  predicate TicksAfter(step: Label, until: nat) { step.Tick? && step.now >= until }

  /** Nothing but such a tick ends a sleep. */
  lemma SleepKept(k: State, step: Label, k': State, t: nat, until: nat)
    requires Enabled(k, step) && |k.s.current| == 2 && Does(k, step, k')
    requires SleepsUntil(k, t, until) && (until == 0 || !TicksAfter(step, until))
    ensures SleepsUntil(k', t, until)
  {
    hide WellFormed, Schedules, Lock, Unlock, Enrol, Resume, WakeOne, TickSwitches, Outranked, SliceOver;
    hide OnlyList, HasRoom, CouldTakeOver, MustRefuse, Guarantees.HandedToBest;
  }

  /** That tick ends it. */
  lemma SleepEnds(k: State, step: Label, k': State, t: nat, until: nat)
    requires Enabled(k, step) && |k.s.current| == 2 && Does(k, step, k')
    requires SleepsUntil(k, t, until) && TicksAfter(step, until) && until > 0
    ensures Live(k'.s, t) && Task(k'.s, t).state.Ready?
  {
    hide WellFormed, TickSwitches, Outranked, SliceOver;
  }

  /** A task that goes to sleep until some time is asleep in every later state of every run, whatever is unlocked,
      woken or switched in between, up to the first tick at or after that time, which makes it Ready. */
  lemma {:induction false} WakesOnTime(states: seq<State>, steps: seq<Label>, i: nat, j: nat, t: nat)
    requires Guarantees.IsRun(states, steps) && i < j <= |steps| && steps[i].Sleep?
    requires steps[i].core < |states[i].s.current| && t == states[i].s.current[steps[i].core]
    requires forall m: nat :: i < m < j ==> steps[i].until == 0 || !TicksAfter(steps[m], steps[i].until)
    ensures SleepsUntil(states[j], t, steps[i].until)
    ensures j < |steps| && steps[i].until > 0 && TicksAfter(steps[j], steps[i].until) ==>
              Live(states[j + 1].s, t) && Task(states[j + 1].s, t).state.Ready?
    decreases j
  {
    hide Does, Enabled, TicksAfter, SleepsUntil, Boot, Apply;
    var until := steps[i].until;
    if j == i + 1 {
      FallsAsleep(states, steps, i, t);
    } else {
      WakesOnTime(states, steps, i, j - 1, t);
      StepsDo(states, steps, j - 1);
      SleepKept(states[j - 1], steps[j - 1], states[j], t, until);
    }
    if j < |steps| && until > 0 && TicksAfter(steps[j], until) {
      StepsDo(states, steps, j);
      SleepEnds(states[j], steps[j], states[j + 1], t, until);
    }
  }

  lemma FallsAsleep(states: seq<State>, steps: seq<Label>, i: nat, t: nat)
    requires Guarantees.IsRun(states, steps) && i < |steps| && steps[i].Sleep?
    requires steps[i].core < |states[i].s.current| && t == states[i].s.current[steps[i].core]
    ensures SleepsUntil(states[i + 1], t, steps[i].until)
  {
    StepsDo(states, steps, i);
    hide WellFormed, Apply;
  }

  /** `sleep_ms` of some length at some tick has no end exactly when the tick it is to end at is 0, by the wrapping
      sum: then the task is asleep in every later state of every run, whatever the ticks. */
  lemma SleepHasNoEnd(states: seq<State>, steps: seq<Label>, i: nat, j: nat, t: nat, now: Ticks, length: Millis)
    requires Guarantees.IsRun(states, steps) && i < j <= |steps|
    requires steps[i].Sleep? && steps[i].until == WrappingAdd(now, length)
    requires steps[i].core < |states[i].s.current| && t == states[i].s.current[steps[i].core]
    ensures steps[i].until == 0 <==> now + length == 0 || now + length == 0x1_0000_0000_0000_0000
    ensures steps[i].until == 0 ==> SleepsUntil(states[j], t, 0)
  {
    if now + length > U64_MAX { WrapsOnce(now + length - (U64_MAX + 1)); }
    hide WrappingAdd, SleepsUntil, TicksAfter;
    if steps[i].until == 0 { WakesOnTime(states, steps, i, j, t); }
  }

  // ── Queue waits ─────────────────────────────────────────────────────────────────────────────

  /** Task `t` is in the wait that began with this ticket, blocked and neither woken nor timed out. */
  predicate WaitsUntil(k: State, t: nat, deadline: nat, ticket: nat) {
    && Live(k.s, t) && Task(k.s, t).sleepUntil == deadline
    && t < |k.waits| && k.waits[t].Some?
    && var w := k.waits[t].value;
       && w.ticket == ticket && !w.popped && !w.expired && w.deadline == deadline
       && Task(k.s, t).state == if w.send then BlockedSend else BlockedRecv
  }

  /** The section is a wake that goes to task `t`. */
  predicate Wakes(k: State, step: Label, t: nat) {
    step.WakeWaiter? && WakeOne(k.s, k.lists, step.addr, step.send).2 == Some(t)
  }

  lemma WaitKept(k: State, step: Label, k': State, t: nat, deadline: nat, ticket: nat)
    requires Enabled(k, step) && |k.s.current| == 2 && Does(k, step, k')
    requires WaitsUntil(k, t, deadline, ticket) && !Wakes(k, step, t)
    requires deadline == 0 || !TicksAfter(step, deadline)
    ensures WaitsUntil(k', t, deadline, ticket)
  {
    hide WellFormed, Schedules, Lock, Unlock, Enrol, Resume, WakeOne, TickSwitches, Outranked, SliceOver;
    hide OnlyList, HasRoom, CouldTakeOver, MustRefuse, Guarantees.HandedToBest;
  }

  lemma WaitEnds(k: State, step: Label, k': State, t: nat, deadline: nat, ticket: nat)
    requires Enabled(k, step) && |k.s.current| == 2 && Does(k, step, k')
    requires WaitsUntil(k, t, deadline, ticket) && deadline > 0 && TicksAfter(step, deadline)
    ensures Live(k'.s, t) && Task(k'.s, t).state.Ready?
    ensures t < |k'.waits| && k'.waits[t] == Some(k.waits[t].value.(expired := true))
  {
    hide WellFormed, TickSwitches, Outranked, SliceOver;
  }

  /** The step enrols task `t`, and there is room. */
  predicate Enrols(k: State, step: Label, t: nat) {
    && step.EnrolOn? && step.core < |k.s.current| && k.s.current[step.core] == t
    && HasRoom(k, step.addr, step.send)
  }

  lemma WaitBegins(states: seq<State>, steps: seq<Label>, i: nat, t: nat)
    requires Guarantees.IsRun(states, steps) && i < |steps| && Enrols(states[i], steps[i], t)
    ensures WaitsUntil(states[i + 1], t, steps[i].deadline, states[i].tickets)
  {
    StepsDo(states, steps, i);
    hide WellFormed, Apply, OnlyList, Enrol, HasRoom;
  }

  /** A task that enrols in a queue wait stays in it, blocked, in every run, until a wake goes to it or, if its
      deadline is not 0, up to the first tick at or after the deadline. That tick ends the wait and makes the task
      Ready. */
  lemma {:induction false} TimesOutOnTime(states: seq<State>, steps: seq<Label>, i: nat, j: nat, t: nat)
    requires Guarantees.IsRun(states, steps) && i < j < |steps| && Enrols(states[i], steps[i], t)
    requires forall m: nat :: i < m < j ==> !Wakes(states[m], steps[m], t)
    requires forall m: nat :: i < m < j ==> steps[i].deadline == 0 || !TicksAfter(steps[m], steps[i].deadline)
    ensures WaitsUntil(states[j], t, steps[i].deadline, states[i].tickets)
    ensures steps[i].deadline > 0 && TicksAfter(steps[j], steps[i].deadline) ==>
              && Live(states[j + 1].s, t) && Task(states[j + 1].s, t).state.Ready?
              && t < |states[j + 1].waits| && states[j + 1].waits[t].Some? && states[j + 1].waits[t].value.expired
    decreases j
  {
    hide Does, Enabled, TicksAfter, Boot, Apply, Wakes;
    var deadline, ticket := steps[i].deadline, states[i].tickets;
    if j == i + 1 {
      WaitBegins(states, steps, i, t);
    } else {
      TimesOutOnTime(states, steps, i, j - 1, t);
      StepsDo(states, steps, j - 1);
      WaitKept(states[j - 1], steps[j - 1], states[j], t, deadline, ticket);
    }
    if deadline > 0 && TicksAfter(steps[j], deadline) {
      StepsDo(states, steps, j);
      WaitEnds(states[j], steps[j], states[j + 1], t, deadline, ticket);
    }
  }
}

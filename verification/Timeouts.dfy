/** When the calls on blocking objects may give up, in every run: not before they have tested, and not before their
    own timeout is over. */
module Timeouts {
  import opened Wrappers
  import opened Tasks
  import opened Waiters
  import opened Kernel
  import opened Deadlines
  import opened BlockingObjects
  import opened Machines
  import opened LostWakeups
  import Balances
  import Purging
  import SectionOutcomes

  /** The operation is one the object has. */
  predicate Offers(sys: System, addr: nat, op: Operation) {
    && addr in sys.objects
    && match sys.objects[addr]
       case Semaphore(_, _) => op == Take
       case ByteQueue(_, _) => op == Put || op == Get
       case RecursiveMutex(_, _) => op == Acquire
  }

  /** A task inside a call runs no other task-context section, and nobody enrols on an object but through a call. */
  predicate Undivided(sys: System, step: Label) {
    match step
    case LockMutex(core, _, _) => NotCalling(sys, core)
    case UnlockMutex(core, _) => NotCalling(sys, core)
    case Sleep(core, _) => NotCalling(sys, core)
    case Suspend(core) => NotCalling(sys, core)
    case EnrolOn(core, addr, _, _) => NotCalling(sys, core) && addr !in sys.objects
    case Spawn(id, _, _) => id < |sys.calls| && sys.calls[id].None?
    case _ => true
  }

  /** The core's own task is running and inside no call. */
  predicate NotCalling(sys: System, core: nat) {
    SectionOutcomes.Calls(sys.k, core) && Me(sys, core) < |sys.calls| && sys.calls[Me(sys, core)].None?
  }

  /** What has to be the case for a task to begin a call, take a turn of it or leave it, for a bare test, a give and
      an unlock, and for any other section of the kernel. A caller may leave once it has tested and its deadline, if
      it has one, has come. */
  ghost predicate MayAct(sys: System, action: Action) {
    match action
    case Begin(core, addr, op, _, _) =>
      NotCalling(sys, core) && Offers(sys, addr, op)
    case Test(core) => Turning(sys, core)
    case GiveUp(core, now) =>
      && Turning(sys, core)
      && var call := sys.calls[Me(sys, core)].value;
         call.tested && call.deadline != 0 && now >= call.deadline
    case BareTest(addr, op, me) => Offers(sys, addr, op) && me != 0xFFFF_FFFF
    case GivePermit(addr) => addr in sys.objects && sys.objects[addr].Semaphore?
    case UnlockRecursive(addr, me) => addr in sys.objects && sys.objects[addr].RecursiveMutex? && me != 0xFFFF_FFFF
    case Section(step) => SectionOutcomes.MayRun(sys.k, step) && Undivided(sys, step)
  }

  /** The core's own task is running a turn of its call. */
  predicate Turning(sys: System, core: nat) {
    && SectionOutcomes.Calls(sys.k, core)
    && Me(sys, core) < |sys.calls| && sys.calls[Me(sys, core)].Some?
    && Offers(sys, sys.calls[Me(sys, core)].value.addr, sys.calls[Me(sys, core)].value.op)
  }

  /** An action may happen exactly then, whatever the waiter lists hold. */
  lemma ActsExactly(sys: System, lists: WaitTable, action: Action)
    requires Inv(sys.k.(lists := lists))
    ensures Allowed(sys, action) <==> MayAct(sys, action)
  {
    assert WellFormed(sys.k.s) && |sys.k.waits| == MAX_TASKS;
    hide Inv, WellFormed;
    if action.Section? {
      SectionOutcomes.RunsExactly(sys.k, lists, action.step);
      hide Enabled, SectionOutcomes.MayRun;
    }
  }

  predicate BeginsFor(m: Machine, e: Event, t: nat) {
    && e.Do? && e.action.Begin?
    && e.action.core < |m.sys.k.s.current| && m.sys.k.s.current[e.action.core] == t
  }

  predicate TestsFor(m: Machine, e: Event, t: nat) {
    && e.Do? && e.action.Test?
    && e.action.core < |m.sys.k.s.current| && m.sys.k.s.current[e.action.core] == t
  }

  predicate GivesUpFor(m: Machine, e: Event, t: nat) {
    && e.Do? && e.action.GiveUp?
    && e.action.core < |m.sys.k.s.current| && m.sys.k.s.current[e.action.core] == t
  }

  /** Task `t` is inside a call with this deadline. */
  predicate InCallUntil(m: Machine, t: nat, deadline: Ticks, tested: bool) {
    && t < |m.sys.calls| && m.sys.calls[t].Some?
    && m.sys.calls[t].value.deadline == deadline && (m.sys.calls[t].value.tested ==> tested)
  }

  lemma CallBegins(m: Machine, e: Event, reuse: bool, t: nat)
    requires MayHappen(m, e, reuse) && BeginsFor(m, e, t)
    ensures InCallUntil(Happens(m, e, reuse), t, DeadlineFor(e.action.timeout, e.action.now), false)
  {
    Balances.TurnsOfCalls(m.sys, e.action);
    hide WellFormed;
  }

  /** A call keeps its deadline, and is untested until it tests. */
  lemma CallGoesOn(m: Machine, e: Event, reuse: bool, t: nat, deadline: Ticks, tested: bool)
    requires MayHappen(m, e, reuse) && InCallUntil(m, t, deadline, tested)
    requires t < |Happens(m, e, reuse).sys.calls| && Happens(m, e, reuse).sys.calls[t].Some?
    ensures InCallUntil(Happens(m, e, reuse), t, deadline, tested || TestsFor(m, e, t))
  {
    hide WellFormed, Apply, Purging.Act, Purging.Allowed, Separate, Claim;
    if e.Do? { Balances.TurnsOfCalls(m.sys, e.action); }
  }

  lemma LeavesLate(m: Machine, e: Event, reuse: bool, t: nat, deadline: Ticks, tested: bool)
    requires MayHappen(m, e, reuse) && GivesUpFor(m, e, t) && InCallUntil(m, t, deadline, tested)
    ensures tested && RemainingFor(deadline, e.action.now).None?
  {
    hide WellFormed, RemainingFor;
  }

  /** There is an event in between at which the task tests. */
  predicate HasTested(machines: seq<Machine>, events: seq<Event>, t: nat, i: nat, j: nat)
    requires i <= j <= |events| < |machines|
  {
    exists m :: i <= m < j && TestsFor(machines[m], events[m], t)
  }

  lemma {:induction false} CallLasts(machines: seq<Machine>, events: seq<Event>, rules: Rules, i: nat, j: nat, t: nat)
    requires IsMachineRun(machines, events, rules) && i < j <= |events| && BeginsFor(machines[i], events[i], t)
    requires forall m: nat :: i < m <= j ==> t < |machines[m].sys.calls| && machines[m].sys.calls[t].Some?
    ensures InCallUntil(machines[j], t, DeadlineFor(events[i].action.timeout, events[i].action.now),
                        HasTested(machines, events, t, i, j))
    decreases j
  {
    hide MayHappen, Happens, Obeys, Start, TestsFor, DeadlineFor;
    assert Follows(machines[j - 1], events[j - 1], machines[j], rules);
    if j == i + 1 {
      CallBegins(machines[i], events[i], rules.reuse, t);
    } else {
      CallLasts(machines, events, rules, i, j - 1, t);
      CallGoesOn(machines[j - 1], events[j - 1], rules.reuse, t,
                 DeadlineFor(events[i].action.timeout, events[i].action.now), HasTested(machines, events, t, i, j - 1));
    }
  }

  /** Nobody gives up early: in every run, a call that ends without what it asked for has tested at least once, was
      not to wait for ever, and is past the tick at which its timeout was over. */
  lemma NobodyLeavesEarly(machines: seq<Machine>, events: seq<Event>, rules: Rules, i: nat, j: nat, t: nat)
    requires IsMachineRun(machines, events, rules) && i < j < |events|
    requires BeginsFor(machines[i], events[i], t) && GivesUpFor(machines[j], events[j], t)
    requires forall m: nat :: i < m <= j ==> t < |machines[m].sys.calls| && machines[m].sys.calls[t].Some?
    ensures HasTested(machines, events, t, i, j) && events[i].action.timeout != 0xFFFF_FFFF
    ensures
      var over := events[i].action.now + events[i].action.timeout;
      over <= U64_MAX ==> events[j].action.now >= over
  {
    CallLasts(machines, events, rules, i, j, t);
    assert Follows(machines[j], events[j], machines[j + 1], rules);
    var timeout, now := events[i].action.timeout, events[i].action.now;
    hide MayHappen, Happens, Obeys, HasTested, Start, DeadlineFor;
    LeavesLate(machines[j], events[j], rules.reuse, t, DeadlineFor(timeout, now), HasTested(machines, events, t, i, j));
    KernelDeadline(timeout, now);
  }
}

/** What goes into the blocking objects and what comes out, over whole runs: permits and records are conserved,
    and a recursive mutex needs as many unlocks as it has been locked. Each is stated by counting the answers
    the callers got. */
module Balances {
  import opened Wrappers
  import opened Tasks
  import opened Waiters
  import opened Kernel
  import opened Deadlines
  import opened Interference
  import opened BlockingObjects
  import opened Machines
  import opened LostWakeups
  import Purging

  /** Who tries to get what from which object: a turn of a call, or a bare test. */
  datatype Attempt = Attempt(addr: nat, op: Operation, me: nat)

  function AttemptOf(sys: System, e: Event): Option<Attempt> {
    match e
    case Do(BareTest(addr, op, me)) => Some(Attempt(addr, op, me))
    case Do(Test(core)) =>
      if InCall(sys, core)
      then Some(Attempt(sys.calls[Me(sys, core)].value.addr, sys.calls[Me(sys, core)].value.op, Me(sys, core)))
      else None
    case _ => None
  }

  /** The event is an attempt of this kind on the object at `addr`, and it is answered with success. */
  predicate Gets(sys: System, e: Event, addr: nat, op: Operation) {
    match AttemptOf(sys, e)
    case None => false
    case Some(a) =>
      a.addr == addr && a.op == op && addr in sys.objects && Fits(sys.objects[addr], op)
        && Claim(sys.objects[addr], op, a.me).Some?
  }

  /** Such an attempt by `t`. */
  predicate GetsAs(sys: System, e: Event, addr: nat, op: Operation, t: nat) {
    Gets(sys, e, addr, op) && AttemptOf(sys, e).value.me == t
  }

  // ── One event ───────────────────────────────────────────────────────────────────────────────

  /** What an event does to the object at `addr`, which stays what it is: a permit given below the ceiling is
      one more, a permit or record got is one fewer, a record put is one more. */
  predicate Counts(o: Object, o': Object, given: bool, took: bool, put: bool, got: bool) {
    match o
    case Semaphore(count, max) =>
      o'.Semaphore? && o'.max == max
        && o'.count == count + (if given && count < max then 1 else 0) - (if took then 1 else 0)
    case ByteQueue(len, capacity) =>
      o'.ByteQueue? && o'.capacity == capacity && o'.len == len + (if put then 1 else 0) - (if got then 1 else 0)
    case RecursiveMutex(_, _) => o'.RecursiveMutex?
  }

  /** What an event does to a recursive mutex. */
  predicate Locks(o: Object, o': Object, acquired: Option<nat>, unlocked: Option<nat>)
    requires o.RecursiveMutex?
  {
    && o'.RecursiveMutex?
    && match acquired
       case Some(me) => o'.owner == me && o'.depth == (if o.owner == me then o.depth else 0) + 1
       case None =>
         if unlocked == Some(o.owner) && o.depth > 0
         then o' == if o.depth == 1 then RecursiveMutex(NO_TASK, 0) else RecursiveMutex(o.owner, o.depth - 1)
         else o' == o
  }

  function Acquirer(sys: System, e: Event, addr: nat): Option<nat> {
    if Gets(sys, e, addr, Acquire) then Some(AttemptOf(sys, e).value.me) else None
  }

  function Unlocker(e: Event, addr: nat): Option<nat> {
    match e
    case Do(UnlockRecursive(a, me)) => if a == addr then Some(me) else None
    case _ => None
  }

  lemma EventCounts(m: Machine, e: Event, reuse: bool, addr: nat)
    requires MayHappen(m, e, reuse) && addr in m.sys.objects
    ensures
      var sys, objects := m.sys, Happens(m, e, reuse).sys.objects;
      && objects.Keys == sys.objects.Keys
      && Counts(sys.objects[addr], objects[addr], e == Do(GivePermit(addr)), Gets(sys, e, addr, Take),
                Gets(sys, e, addr, Put), Gets(sys, e, addr, Get))
      && (sys.objects[addr].RecursiveMutex? ==>
            Locks(sys.objects[addr], objects[addr], Acquirer(sys, e, addr), Unlocker(e, addr)))
  {
    hide WellFormed, Apply, Enabled, Separate, Attentive, Purging.Act, Purging.Allowed;
  }

  /** An attempt succeeds exactly when there is something to be had. */
  lemma SucceedsExactly(o: Object, op: Operation, me: nat)
    requires Fits(o, op)
    ensures Claim(o, op, me).Some? <==>
              match o
              case Semaphore(count, _) => count > 0
              case ByteQueue(len, capacity) => if op == Put then len != capacity else len > 0
              case RecursiveMutex(owner, _) => owner == NO_TASK || owner == me
  {
  }

  /** A call begins as it was made, and one turn of it ends it exactly when it succeeds; otherwise the caller
      enrols, to be woken by whoever makes what it waits for available. */
  lemma TurnsOfCalls(sys: System, action: Action)
    requires Allowed(sys, action)
    ensures match action
            case Begin(core, addr, op, timeout, now) =>
              && Me(sys, core) < |sys.calls|
              && Act(sys, action) ==
                   sys.(calls := sys.calls[Me(sys, core) := Some(Call(addr, op, DeadlineFor(timeout, now), false))])
            case Test(core) =>
              var me, sys' := Me(sys, core), Act(sys, action);
              var call := sys.calls[me].value;
              if Claim(sys.objects[call.addr], call.op, me).Some? then sys'.calls == sys.calls[me := None]
              else
                && sys'.calls == sys.calls[me := Some(Call(call.addr, call.op, call.deadline, true))]
                && Enabled(sys.k, EnrolOn(core, call.addr, call.op == Put, 0))
                && sys'.k == Apply(sys.k, EnrolOn(core, call.addr, call.op == Put, 0))
            case GiveUp(core, _) => Act(sys, action) == sys.(calls := sys.calls[Me(sys, core) := None])
            case _ => Act(sys, action).calls == sys.calls
  {
    hide Apply, WellFormed, Separate, Schedules;
  }

  // ── Permits and records ─────────────────────────────────────────────────────────────────────

  /** A permit given below the ceiling. */
  predicate Gives(sys: System, e: Event, addr: nat) {
    e == Do(GivePermit(addr)) && addr in sys.objects && sys.objects[addr].Semaphore?
      && sys.objects[addr].count < sys.objects[addr].max
  }

  /** How many permits or records the first `i` events have brought to the object at `addr`. */
  function Brought(machines: seq<Machine>, events: seq<Event>, addr: nat, i: nat): nat
    requires i <= |events| < |machines|
  {
    if i == 0 then 0
    else
      var sys, e := machines[i - 1].sys, events[i - 1];
      Brought(machines, events, addr, i - 1) + if Gives(sys, e, addr) || Gets(sys, e, addr, Put) then 1 else 0
  }

  /** How many they have taken from it. */
  function Taken(machines: seq<Machine>, events: seq<Event>, addr: nat, i: nat): nat
    requires i <= |events| < |machines|
  {
    if i == 0 then 0
    else
      var sys, e := machines[i - 1].sys, events[i - 1];
      Taken(machines, events, addr, i - 1) + if Gets(sys, e, addr, Take) || Gets(sys, e, addr, Get) then 1 else 0
  }

  /** The same object with another number of permits or records. */
  function WithLevel(o: Object, level: int): Option<Object> {
    if level < 0 then None
    else
      match o
      case Semaphore(_, max) => Some(Semaphore(level, max))
      case ByteQueue(_, capacity) => Some(ByteQueue(level, capacity))
      case RecursiveMutex(_, _) => None
  }

  function Level(o: Object): nat {
    match o
    case Semaphore(count, _) => count
    case ByteQueue(len, _) => len
    case RecursiveMutex(_, depth) => depth
  }

  lemma LevelStep(m: Machine, e: Event, reuse: bool, addr: nat)
    requires MayHappen(m, e, reuse) && addr in m.sys.objects && !m.sys.objects[addr].RecursiveMutex?
    ensures
      var sys, objects := m.sys, Happens(m, e, reuse).sys.objects;
      && addr in objects
      && Some(objects[addr]) == WithLevel(sys.objects[addr], Level(sys.objects[addr])
           + (if Gives(sys, e, addr) || Gets(sys, e, addr, Put) then 1 else 0)
           - (if Gets(sys, e, addr, Take) || Gets(sys, e, addr, Get) then 1 else 0))
  {
    EventCounts(m, e, reuse, addr);
    GetsOneKind(m.sys, e, addr);
    var objects := Happens(m, e, reuse).sys.objects;
    assert addr in objects.Keys;
    hide Happens, MayHappen, Gets, Locks;
  }

  lemma GetsOneKind(sys: System, e: Event, addr: nat)
    requires addr in sys.objects
    ensures Gets(sys, e, addr, Take) ==> sys.objects[addr].Semaphore?
    ensures Gets(sys, e, addr, Put) || Gets(sys, e, addr, Get) ==> sys.objects[addr].ByteQueue?
    ensures Gets(sys, e, addr, Take) || Gets(sys, e, addr, Put) || Gets(sys, e, addr, Get) ==> !Gives(sys, e, addr)
    ensures !(Gets(sys, e, addr, Put) && Gets(sys, e, addr, Get))
  {
    hide InCall;
  }

  /** Permits and records are conserved in every run: what a semaphore or a byte queue holds is what it held at
      first and what has been brought, less what has been taken. */
  lemma {:induction false} Conserved(machines: seq<Machine>, events: seq<Event>, rules: Rules, addr: nat, i: nat)
    requires IsMachineRun(machines, events, rules) && i <= |events|
    requires addr in machines[0].sys.objects && !machines[0].sys.objects[addr].RecursiveMutex?
    ensures
      var first := machines[0].sys.objects[addr];
      && addr in machines[i].sys.objects
      && Some(machines[i].sys.objects[addr]) ==
           WithLevel(first, Level(first) + Brought(machines, events, addr, i) - Taken(machines, events, addr, i))
  {
    hide MayHappen, Happens, Gets, Gives, Obeys, Start;
    if i > 0 {
      Conserved(machines, events, rules, addr, i - 1);
      assert Follows(machines[i - 1], events[i - 1], machines[i], rules);
      LevelStep(machines[i - 1], events[i - 1], rules.reuse, addr);
    }
  }

  // ── Nested locks ────────────────────────────────────────────────────────────────────────────

  /** A lock that `t` gets is one more, and an unlock by `t` one fewer if there is one to undo. */
  function NestedAfter(sys: System, e: Event, addr: nat, t: nat, before: nat): nat {
    if GetsAs(sys, e, addr, Acquire, t) then before + 1
    else if e == Do(UnlockRecursive(addr, t)) && before > 0 then before - 1
    else before
  }

  /** How often `t` has locked the recursive mutex at `addr` in the first `i` events, less its unlocks;
      `from` is what `t` starts with. */
  function Nested(machines: seq<Machine>, events: seq<Event>, addr: nat, t: nat, from: nat, i: nat): nat
    requires i <= |events| < |machines|
  {
    if i == 0 then from
    else
      NestedAfter(machines[i - 1].sys, events[i - 1], addr, t, Nested(machines, events, addr, t, from, i - 1))
  }

  /** The mutex is `t`'s with this many locks on it, or somebody else's or nobody's. */
  predicate Owes(o: Object, t: nat, nested: nat) {
    && o.RecursiveMutex? && (o.owner == NO_TASK <==> o.depth == 0)
    && nested == if o.owner == t then o.depth else 0
  }

  lemma NestedStep(m: Machine, e: Event, reuse: bool, addr: nat, t: nat, nested: nat)
    requires MayHappen(m, e, reuse) && addr in m.sys.objects && t != NO_TASK && Owes(m.sys.objects[addr], t, nested)
    ensures
      var objects := Happens(m, e, reuse).sys.objects;
      addr in objects && Owes(objects[addr], t, NestedAfter(m.sys, e, addr, t, nested))
  {
    EventCounts(m, e, reuse, addr);
    var objects := Happens(m, e, reuse).sys.objects;
    assert addr in objects.Keys;
    AcquirerIsTask(m, e, reuse, addr);
    AcquirerWas(m, e, addr);
    hide Happens, MayHappen, Counts, AttemptOf;
  }

  lemma AcquirerIsTask(m: Machine, e: Event, reuse: bool, addr: nat)
    requires MayHappen(m, e, reuse)
    ensures Acquirer(m.sys, e, addr).Some? ==> Acquirer(m.sys, e, addr).value != NO_TASK
  {
    hide Separate, Attentive, Purging.Allowed;
  }

  lemma AcquirerWas(m: Machine, e: Event, addr: nat)
    requires addr in m.sys.objects && m.sys.objects[addr].RecursiveMutex?
    ensures Acquirer(m.sys, e, addr).Some? ==>
      m.sys.objects[addr].owner == NO_TASK || m.sys.objects[addr].owner == Acquirer(m.sys, e, addr).value
    ensures Acquirer(m.sys, e, addr).Some? ==> Unlocker(e, addr).None?
  {
  }

  lemma {:induction false} NestedRun(machines: seq<Machine>, events: seq<Event>, rules: Rules, addr: nat, t: nat,
      i: nat)
    requires IsMachineRun(machines, events, rules) && i <= |events| && t != NO_TASK
    requires addr in machines[0].sys.objects && machines[0].sys.objects[addr].RecursiveMutex?
    ensures
      var first := machines[0].sys.objects[addr];
      var from := if first.owner == t then first.depth else 0;
      && addr in machines[i].sys.objects
      && Owes(machines[i].sys.objects[addr], t, Nested(machines, events, addr, t, from, i))
  {
    hide MayHappen, Happens, NestedAfter, Obeys, Start;
    if i == 0 {
      assert ObjectOk(machines[0].sys.objects[addr]);
    } else {
      hide Owes;
      NestedRun(machines, events, rules, addr, t, i - 1);
      assert Follows(machines[i - 1], events[i - 1], machines[i], rules);
      var first := machines[0].sys.objects[addr];
      var from := if first.owner == t then first.depth else 0;
      NestedStep(machines[i - 1], events[i - 1], rules.reuse, addr, t, Nested(machines, events, addr, t, from, i - 1));
    }
  }

  /** A recursive mutex needs as many unlocks as it has been locked: while `t` has locked it more often than
      unlocked it, in any run, it is `t`'s, and nobody else gets it; and it is nobody's, and there for everybody,
      exactly when no task has. */
  lemma NestedLocks(machines: seq<Machine>, events: seq<Event>, rules: Rules, addr: nat, t: nat, other: nat, i: nat)
    requires IsMachineRun(machines, events, rules) && i <= |events| && t != NO_TASK && other != t
    requires addr in machines[0].sys.objects && machines[0].sys.objects[addr].RecursiveMutex?
    ensures
      var first := machines[0].sys.objects[addr];
      var nested := Nested(machines, events, addr, t, if first.owner == t then first.depth else 0, i);
      && addr in machines[i].sys.objects && machines[i].sys.objects[addr].RecursiveMutex?
      && var o := machines[i].sys.objects[addr];
         && (nested > 0 <==> o.owner == t)
         && (nested > 0 ==> Claim(o, Acquire, other).None? && Claim(o, Acquire, t).Some?)
         && (o.owner == NO_TASK ==> Claim(o, Acquire, other).Some? && Claim(o, Acquire, t).Some?)
  {
    NestedRun(machines, events, rules, addr, t, i);
    hide IsMachineRun, Nested;
  }
}

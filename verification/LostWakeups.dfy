/** When no wakeup is lost: in every run whose callers wait forever, where nobody calls a byte queue barely,
    nobody deletes a task inside a blocking call that is about to test, and no slot is filled before the id
    of its former task has been purged. */
module LostWakeups {
  import opened Wrappers
  import opened Tasks
  import opened Waiters
  import opened Kernel
  import opened Deadlines
  import opened StaleEntries
  import opened BlockingObjects
  import opened Departures
  import opened Machines
  import Guarantees
  import Interference
  import Purging

  // ── Runs ────────────────────────────────────────────────────────────────────────────────────

  /** Boot, with any objects already created. */
  function Start(objects: map<nat, Object>): Machine {
    Machine(System(Boot(), objects, seq(MAX_TASKS, _ => None)), map[], {})
  }

  /** What the tasks and interrupts of a run may do: call with this timeout besides FOREVER; call a byte
      queue by a bare test; delete a task that is inside a blocking call and about to test; fill a slot
      before the id of its former task has been purged. */
  datatype Rules = Rules(timeout: Millis, bare: bool, awake: bool, reuse: bool)

  predicate Obeys(m: Machine, e: Event, rules: Rules) {
    && (e.Do? && e.action.Begin? ==> e.action.timeout == rules.timeout || e.action.timeout == FOREVER)
    && (e.Do? && BareQueueCall(e.action) ==> rules.bare)
    && (DeletesCaller(m, e) ==> rules.awake)
  }

  ghost predicate Follows(m: Machine, e: Event, m': Machine, rules: Rules) {
    MayHappen(m, e, rules.reuse) && Obeys(m, e, rules) && m' == Happens(m, e, rules.reuse)
  }

  ghost predicate IsMachineRun(machines: seq<Machine>, events: seq<Event>, rules: Rules) {
    && |machines| == |events| + 1
    && machines[0] == Start(machines[0].sys.objects)
    && (forall a :: a in machines[0].sys.objects ==> ObjectOk(machines[0].sys.objects[a]))
    && forall i :: 0 <= i < |events| ==> Follows(machines[i], events[i], machines[i + 1], rules)
  }

  /** The rules under which no wakeup is lost. */
  predicate Strict(rules: Rules) { rules.timeout == FOREVER && !rules.bare && !rules.awake && !rules.reuse }

  /** No caller has a deadline of its own. */
  predicate NoDeadlines(sys: System) {
    forall t :: 0 <= t < |sys.calls| && sys.calls[t].Some? ==> sys.calls[t].value.deadline == 0
  }

  lemma StartOk(objects: map<nat, Object>)
    requires forall a :: a in objects ==> ObjectOk(objects[a])
    ensures MachineOk(Start(objects)) && NeverLost(CleanOf(Start(objects))) && NoDeadlines(Start(objects).sys)
  {
    Purging.StartOk();
    var sys := CleanOf(Start(objects));
    hide Inv;
    assert sys.k == Boot() by { assert Purged(map[], {}) == map[]; }
    Guarantees.BootInv();
    forall t: nat | t < MAX_TASKS ensures CallOk(sys, t) {}
    forall a, s: bool | a in objects ensures NothingLost(sys, a, s) {
      forall t: nat ensures !Asleep(sys, t, a, s) {}
    }
  }

  lemma NoDeadlinesKept(m: Machine, e: Event)
    requires MachineOk(m) && MayHappen(m, e, false) && NoDeadlines(m.sys)
    requires e.Do? && e.action.Begin? ==> e.action.timeout == FOREVER
    ensures !(e.Do? && e.action.GiveUp?) && NoDeadlines(Happens(m, e, false).sys)
  {
    hide SystemOk, Purging.WorldOk, Apply, Enabled, Separate, Purging.Act, Purging.Allowed;
  }

  lemma StrictStep(m: Machine, e: Event, rules: Rules)
    requires Strict(rules) && MachineOk(m) && NeverLost(CleanOf(m)) && NoDeadlines(m.sys)
    requires MayHappen(m, e, false) && Obeys(m, e, rules)
    ensures
      var m' := Happens(m, e, false);
      MachineOk(m') && NeverLost(CleanOf(m')) && NoDeadlines(m'.sys)
  {
    hide MachineOk, NeverLost, NoDeadlines, CleanOf, MayHappen, Happens, DeletesCaller;
    NoDeadlinesKept(m, e);
    match e
    case Do(action) => DoKeeps(m, action);
    case Leave(step) => LeaveKeeps(m, step);
  }

  lemma {:induction false} StrictRun(machines: seq<Machine>, events: seq<Event>, rules: Rules, i: nat)
    requires IsMachineRun(machines, events, rules) && i < |machines| && Strict(rules)
    ensures MachineOk(machines[i]) && NeverLost(CleanOf(machines[i])) && NoDeadlines(machines[i].sys)
  {
    hide Happens, MayHappen, MachineOk, NeverLost, NoDeadlines, CleanOf;
    if i == 0 {
      StartOk(machines[0].sys.objects);
    } else {
      StrictRun(machines, events, rules, i - 1);
      assert Follows(machines[i - 1], events[i - 1], machines[i], rules);
      StrictStep(machines[i - 1], events[i - 1], rules);
    }
  }

  /** No lost wakeup: in every run under the strict rules, whenever a task is blocked in a call on an object,
      no more of it is available than there are runnable callers about to test it. So no permit, item, slot
      or lock sits free with every taker asleep. */
  lemma NoLostWakeup(machines: seq<Machine>, events: seq<Event>, rules: Rules, i: nat, sleeper: nat)
    requires IsMachineRun(machines, events, rules) && i < |machines| && Strict(rules)
    requires var sys := machines[i].sys;
             && Live(sys.k.s, sleeper) && sleeper < |sys.calls| && sys.calls[sleeper].Some?
             && Task(sys.k.s, sleeper).state == BlockedState(Sending(sys.calls[sleeper].value.op))
    ensures
      var sys := machines[i].sys;
      var addr, send := sys.calls[sleeper].value.addr, Sending(sys.calls[sleeper].value.op);
      && addr in sys.objects && ObjectOk(sys.objects[addr])
      && Available(sys.objects[addr], send) <= |Pending(sys, addr, send)|
      && (forall t :: t in Pending(sys, addr, send) ==> Live(sys.k.s, t) && Active(Task(sys.k.s, t)))
      && (Available(sys.objects[addr], send) > 0 ==> exists t :: t in Pending(sys, addr, send) && t != sleeper)
  {
    StrictRun(machines, events, rules, i);
    CleanLost(machines[i]);
    SleeperIsServed(machines[i], sleeper);
  }

  lemma SleeperIsServed(m: Machine, sleeper: nat)
    requires MachineOk(m) && NeverLost(m.sys)
    requires Live(m.sys.k.s, sleeper) && sleeper < |m.sys.calls| && m.sys.calls[sleeper].Some?
    requires Task(m.sys.k.s, sleeper).state == BlockedState(Sending(m.sys.calls[sleeper].value.op))
    ensures
      var sys := m.sys;
      var addr, send := sys.calls[sleeper].value.addr, Sending(sys.calls[sleeper].value.op);
      && addr in sys.objects && ObjectOk(sys.objects[addr])
      && Available(sys.objects[addr], send) <= |Pending(sys, addr, send)|
      && (forall t :: t in Pending(sys, addr, send) ==> Live(sys.k.s, t) && Active(Task(sys.k.s, t)))
      && (Available(sys.objects[addr], send) > 0 ==> exists t :: t in Pending(sys, addr, send) && t != sleeper)
  {
    var sys, clean := m.sys, CleanOf(m);
    var addr, send := sys.calls[sleeper].value.addr, Sending(sys.calls[sleeper].value.op);
    Interference.Sized(clean.k);
    assert CallOk(clean, sleeper) && TaskOkIn(clean.k, sleeper);
    assert Asleep(sys, sleeper, addr, send);
    assert NothingLost(sys, addr, send);
    forall t | t in Pending(sys, addr, send) ensures Live(sys.k.s, t) && Active(Task(sys.k.s, t)) {
      assert CallOk(clean, t) && TaskOkIn(clean.k, t);
    }
    hide Inv, Purging.WorldOk, SystemOk;
    if Available(sys.objects[addr], send) > 0 {
      assert Pending(sys, addr, send) != {};
      var t :| t in Pending(sys, addr, send);
    }
  }
}

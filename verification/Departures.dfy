/** What deleting a task does to the callers of the blocking objects, and what a test does that finds no room
    on a list for the sake of deleted ids. */
module Departures {
  import opened Wrappers
  import opened Sequences
  import opened Tasks
  import opened Waiters
  import opened Kernel
  import opened Interference
  import opened BlockingObjects
  import opened StaleEntries
  import Purging

  /** The task is inside a blocking call and about to test: it has been woken, or has not enrolled yet. */
  predicate AwakeCaller(sys: System, id: nat) {
    && id < |sys.calls| && sys.calls[id].Some?
    && IsPending(sys, id, sys.calls[id].value.addr, Sending(sys.calls[id].value.op))
  }

  /** Slot `id` is emptied, its id purged, and the call its task was in is no more. */
  function Removed(sys: System, id: nat, recompute: bool): System
    requires Live(sys.k.s, id) && |sys.k.waits| == |sys.k.s.tasks| && id < |sys.calls|
  {
    sys.(k := Purging.Cleared(sys.k, id, recompute).(lists := Forget(sys.k.lists, id)), calls := sys.calls[id := None])
  }

  lemma RemovedOk(sys: System, id: nat, recompute: bool)
    requires SystemOk(sys) && Purging.Deletable(sys.k, id) && (recompute || Task(sys.k.s, id).state.Deleting?)
    ensures |sys.k.waits| == |sys.k.s.tasks| == |sys.calls| == MAX_TASKS && id < MAX_TASKS
    ensures SystemOk(Removed(sys, id, recompute))
  {
    Sized(sys.k);
    assert |sys.calls| == |sys.k.waits| by { assert CallOk(sys, 0); }
    Purging.ClearedInv(sys.k, id, recompute);
    hide Inv, Forget, Purging.Deletable, Purging.Cleared, WellFormed;
    forall t: nat | t < MAX_TASKS ensures CallOk(Removed(sys, id, recompute), t) {
      assert CallOk(sys, t);
      RemovedCall(sys, id, recompute, t);
    }
    hide CallOk;
  }

  lemma RemovedCall(sys: System, id: nat, recompute: bool, t: nat)
    requires Live(sys.k.s, id) && |sys.k.waits| == |sys.k.s.tasks| == |sys.calls| && CallOk(sys, t)
    ensures CallOk(Removed(sys, id, recompute), t)
  {
    hide ActiveAt, Forget;
  }

  /** Everybody else sleeps on and stays about to test. */
  lemma RemovedCallers(sys: System, id: nat, recompute: bool)
    requires Live(sys.k.s, id) && |sys.k.waits| == |sys.k.s.tasks| == |sys.calls|
    ensures
      var sys' := Removed(sys, id, recompute);
      && (forall t: nat, a: nat, s: bool :: Asleep(sys', t, a, s) == (Asleep(sys, t, a, s) && t != id))
      && (forall t: nat, a: nat, s: bool :: IsPending(sys', t, a, s) == (IsPending(sys, t, a, s) && t != id))
      && (forall a: nat, s: bool :: Pending(sys', a, s) == Pending(sys, a, s) - {id})
  {
    hide Forget;
    var sys' := Removed(sys, id, recompute);
    forall t: nat, a: nat, s: bool ensures Asleep(sys', t, a, s) == (Asleep(sys, t, a, s) && t != id) {}
    forall t: nat, a: nat, s: bool ensures IsPending(sys', t, a, s) == (IsPending(sys, t, a, s) && t != id) {}
    hide Asleep, IsPending, Removed;
    forall a: nat, s: bool ensures Pending(sys', a, s) == Pending(sys, a, s) - {id} {}
  }

  /** A deletion keeps the books, but a unit the task was about to take is nobody's any more: it loses a wakeup
      exactly when the task was about to test, somebody sleeps for the same side of the same object, and there
      is a unit for every caller about to test. */
  lemma DeleteLoses(sys: System, id: nat, recompute: bool, addr: nat, send: bool)
    requires SystemOk(sys) && NeverLost(sys) && Purging.Deletable(sys.k, id) && addr in sys.objects
    requires recompute || Task(sys.k.s, id).state.Deleting?
    ensures |sys.k.waits| == |sys.k.s.tasks| && id < |sys.calls| && ObjectOk(sys.objects[addr])
    ensures SystemOk(Removed(sys, id, recompute))
    ensures NothingLost(Removed(sys, id, recompute), addr, send) <==>
              (IsPending(sys, id, addr, send) && (exists t: nat :: Asleep(sys, t, addr, send)) ==>
                 Available(sys.objects[addr], send) != |Pending(sys, addr, send)|)
  {
    RemovedOk(sys, id, recompute);
    RemovedCallers(sys, id, recompute);
    var sys' := Removed(sys, id, recompute);
    var before, after := Pending(sys, addr, send), Pending(sys', addr, send);
    assert NothingLost(sys, addr, send);
    assert (id in before) == IsPending(sys, id, addr, send);
    assert IsPending(sys, id, addr, send) ==> !Asleep(sys, id, addr, send);
    assert id !in before ==> after == before;
    assert id in before ==> |after| == |before| - 1;
    hide SystemOk, Pending, IsPending, Asleep, Available, Removed, Purging.Deletable;
    if t: nat :| Asleep(sys', t, addr, send) { assert Asleep(sys, t, addr, send); }
    if t: nat :| Asleep(sys, t, addr, send) && IsPending(sys, id, addr, send) { assert Asleep(sys', t, addr, send); }
  }

  /** Deleting a task that sleeps in its call, or is in none, loses nothing. */
  lemma DeleteKeeps(sys: System, id: nat, recompute: bool)
    requires SystemOk(sys) && NeverLost(sys) && Purging.Deletable(sys.k, id) && !AwakeCaller(sys, id)
    requires recompute || Task(sys.k.s, id).state.Deleting?
    ensures |sys.k.waits| == |sys.k.s.tasks| && id < |sys.calls|
    ensures SystemOk(Removed(sys, id, recompute)) && NeverLost(Removed(sys, id, recompute))
  {
    RemovedOk(sys, id, recompute);
    hide SystemOk, Inv, CallOk, Purging.Deletable, Asleep, Removed;
    forall a, s: bool | a in sys.objects ensures NothingLost(Removed(sys, id, recompute), a, s) {
      DeleteLoses(sys, id, recompute, a, s);
      assert !IsPending(sys, id, a, s);
    }
  }

  /** A task that has marked itself Deleting is in no call. */
  lemma DeletingIsNoCaller(sys: System, id: nat)
    requires SystemOk(sys) && Live(sys.k.s, id) && Task(sys.k.s, id).state.Deleting?
    ensures id < |sys.calls| && sys.calls[id].None?
  {
    Sized(sys.k);
    assert CallOk(sys, id) && TaskOkIn(sys.k, id);
  }

  // ── Steps that put nobody to sleep and wake nobody ──────────────────────────────────────────

  /** The waits are as they were, and so are the calls, but for whether a turn has been made. */
  predicate SameCalls(sys: System, sys': System) {
    && sys'.objects == sys.objects && sys'.k.waits == sys.k.waits && |sys'.calls| == |sys.calls|
    && forall t :: 0 <= t < |sys.calls| ==>
         && sys'.calls[t].Some? == sys.calls[t].Some?
         && (sys.calls[t].Some? ==>
               sys'.calls[t].value.addr == sys.calls[t].value.addr && sys'.calls[t].value.op == sys.calls[t].value.op)
  }

  /** Whoever is in a call stays alive, and runnable if it was. */
  predicate CallersKept(sys: System, sys': System) {
    forall t: nat :: t < |sys.calls| && sys.calls[t].Some? && Live(sys.k.s, t) ==>
      Live(sys'.k.s, t) && (Active(Task(sys.k.s, t)) ==> Active(Task(sys'.k.s, t)))
  }

  lemma QuietOk(sys: System, sys': System)
    requires SystemOk(sys) && Inv(sys'.k) && SameCalls(sys, sys') && CallersKept(sys, sys')
    ensures SystemOk(sys')
  {
    hide Inv;
    forall t: nat | t < MAX_TASKS ensures CallOk(sys', t) { assert CallOk(sys, t); }
  }

  /** Who sleeps and who is about to test does not depend on anything else. */
  lemma QuietLost(sys: System, sys': System)
    requires SameCalls(sys, sys')
    ensures NeverLost(sys) <==> NeverLost(sys')
  {
    forall t: nat, a: nat, s: bool ensures Asleep(sys', t, a, s) == Asleep(sys, t, a, s) {}
    forall t: nat, a: nat, s: bool ensures IsPending(sys', t, a, s) == IsPending(sys, t, a, s) {}
    hide Asleep, IsPending, Available;
    forall a: nat, s: bool ensures Pending(sys', a, s) == Pending(sys, a, s) {}
    hide Pending;
    forall a, s: bool | a in sys.objects && ObjectOk(sys.objects[a])
      ensures NothingLost(sys, a, s) <==> NothingLost(sys', a, s)
    {
      if t: nat :| Asleep(sys, t, a, s) { assert Asleep(sys', t, a, s); }
      if t: nat :| Asleep(sys', t, a, s) { assert Asleep(sys, t, a, s); }
    }
  }

  /** An enrolment refused for want of room: the deadline is armed, and the caller goes on. */
  function Refused(sys: System, core: nat, addr: nat, deadline: nat, calls: seq<Option<Call>>): System
    requires core < |sys.k.s.current|
  {
    sys.(k := Purging.Refused(sys.k, core, addr, deadline), calls := calls)
  }

  lemma RefusedKeeps(sys: System, core: nat, addr: nat, deadline: nat, calls: seq<Option<Call>>)
    requires SystemOk(sys) && InTask(sys.k, core) && SameCalls(sys, sys.(calls := calls))
    ensures SystemOk(Refused(sys, core, addr, deadline, calls))
    ensures NeverLost(sys) ==> NeverLost(Refused(sys, core, addr, deadline, calls))
  {
    Purging.RefusedInv(sys.k, core, addr, deadline);
    hide Inv, InTask, NeverLost, SystemOk, Found;
    QuietOk(sys, Refused(sys, core, addr, deadline, calls));
    QuietLost(sys, Refused(sys, core, addr, deadline, calls));
  }

  /** A task outside any call marks itself Deleting. */
  lemma DeleteSelfKeeps(sys: System, core: nat)
    requires SystemOk(sys) && Unoccupied(sys, core)
    ensures
      var sys' := sys.(k := sys.k.(s := BlockCurrent(sys.k.s, core, Deleting)));
      SystemOk(sys') && (NeverLost(sys) ==> NeverLost(sys'))
  {
    var sys' := sys.(k := sys.k.(s := BlockCurrent(sys.k.s, core, Deleting)));
    Purging.DeleteSelfInv(sys.k, core);
    hide Inv, NeverLost, SystemOk, ActiveAt;
    QuietOk(sys, sys');
    QuietLost(sys, sys');
  }
}

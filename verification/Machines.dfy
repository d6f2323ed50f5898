/** The kernel, the blocking objects and the deletion of tasks together. The waiter lists may hold the ids of
    deleted tasks; what callers are promised depends only on the lists without them. */
module Machines {
  import opened Wrappers
  import opened Tasks
  import opened Waiters
  import opened Kernel
  import opened Interference
  import opened BlockingObjects
  import opened StaleEntries
  import opened Departures
  import Purging

  /** A system with its deletions under way; see `Purging.World`. */
  datatype Machine = Machine(sys: System, purging: map<nat, nat>, unpurged: set<nat>)

  /** `Leave` is a section of a deletion. */
  datatype Event = Do(action: Action) | Leave(step: Purging.Step)

  function WorldOf(m: Machine): Purging.World { Purging.World(m.sys.k, m.purging, m.unpurged) }

  /** The system as it would be if every purge were made together with its delete. */
  function CleanOf(m: Machine): System { m.sys.(k := Purging.Clean(WorldOf(m))) }

  /** A task in the middle of a deletion does nothing else. With `reuse` a slot may be filled before its old
      id has been purged. */
  predicate Attentive(m: Machine, action: Action, reuse: bool) {
    match action
    case Begin(core, _, _, _, _) => Purging.Free(WorldOf(m), core)
    case Test(core) => Purging.Free(WorldOf(m), core)
    case GiveUp(core, _) => Purging.Free(WorldOf(m), core)
    case Section(step) => Purging.Separate(WorldOf(m), step, reuse)
    case _ => true
  }

  /** A task deletes, itself or another, outside any blocking call. */
  predicate Outside(m: Machine, step: Purging.Step) {
    match step
    case Delete(core, _) => Unoccupied(m.sys, core)
    case DeleteSelf(core) => Unoccupied(m.sys, core)
    case Section(_) => false
    case _ => true
  }

  ghost predicate MayHappen(m: Machine, e: Event, reuse: bool) {
    match e
    case Do(action) => Allowed(m.sys, action) && Attentive(m, action, reuse)
    case Leave(step) => Outside(m, step) && Purging.Allowed(WorldOf(m), step, reuse)
  }

  /** A task that is gone is in no call. */
  function CallsLeft(calls: seq<Option<Call>>, step: Purging.Step): seq<Option<Call>> {
    match step
    case Delete(_, id) => if id < |calls| then calls[id := None] else calls
    case Reap(_, id) => if id < |calls| then calls[id := None] else calls
    case _ => calls
  }

  ghost function Happens(m: Machine, e: Event, reuse: bool): Machine
    requires MayHappen(m, e, reuse)
  {
    match e
    case Do(action) => m.(sys := Act(m.sys, action))
    case Leave(step) =>
      var w := Purging.Act(WorldOf(m), step, reuse);
      Machine(m.sys.(k := w.k, calls := CallsLeft(m.sys.calls, step)), w.purging, w.unpurged)
  }

  ghost predicate MachineOk(m: Machine) {
    Purging.WorldOk(WorldOf(m)) && SystemOk(CleanOf(m))
  }

  /** Stale entries wake nobody and put nobody to sleep. */
  lemma CleanLost(m: Machine)
    ensures NeverLost(CleanOf(m)) <==> NeverLost(m.sys)
  {
    CleanIs(m);
    hide NeverLost, Purging.Clean;
    QuietLost(CleanOf(m), m.sys);
  }

  lemma CleanIs(m: Machine)
    ensures Purging.Clean(WorldOf(m)) == m.sys.k.(lists := Purged(m.sys.k.lists, m.unpurged))
  {
  }

  // ── Actions ─────────────────────────────────────────────────────────────────────────────────

  /** The section of the kernel that an action makes, if it makes one. */
  ghost function SectionOf(sys: System, action: Action): Option<Label>
    requires Allowed(sys, action)
  {
    match action
    case Test(core) =>
      var call := sys.calls[Me(sys, core)].value;
      (match Claim(sys.objects[call.addr], call.op, Me(sys, core))
       case Some(claimed) => if claimed.ByteQueue? then Some(WakeWaiter(call.addr, !Sending(call.op))) else None
       case None => Some(EnrolOn(core, call.addr, Sending(call.op), 0)))
    case GivePermit(addr) =>
      if sys.objects[addr].count >= sys.objects[addr].max then None else Some(WakeWaiter(addr, false))
    case UnlockRecursive(addr, me) =>
      if sys.objects[addr].owner == me && sys.objects[addr].depth == 1 then Some(WakeWaiter(addr, false)) else None
    case Section(step) => Some(step)
    case _ => None
  }

  /** An action is its section of the kernel and what it does to objects and calls. */
  lemma ActSection(sys: System, action: Action)
    requires Allowed(sys, action)
    ensures match SectionOf(sys, action)
            case None => Act(sys, action).k == sys.k
            case Some(step) => Enabled(sys.k, step) && Act(sys, action).k == Apply(sys.k, step)
  {
    hide WellFormed, Apply, Schedules;
  }

  /** Nothing but the kernel's section looks at the waiter lists. */
  lemma ActOther(sys: System, action: Action, lists: WaitTable)
    requires Allowed(sys, action)
    ensures
      var other := sys.(k := sys.k.(lists := lists));
      && Allowed(other, action)
      && SectionOf(other, action) == SectionOf(sys, action)
      && Act(other, action).objects == Act(sys, action).objects
      && Act(other, action).calls == Act(sys, action).calls
  {
    hide WellFormed, Apply, Schedules;
  }

  /** A turn that enrols changes no object, and no call but by having made a turn. */
  lemma EnrolActs(sys: System, action: Action)
    requires Allowed(sys, action) && SectionOf(sys, action).Some? && SectionOf(sys, action).value.EnrolOn?
    ensures InTask(sys.k, SectionOf(sys, action).value.core)
    ensures Act(sys, action).objects == sys.objects && SameCalls(sys, sys.(calls := Act(sys, action).calls))
  {
    hide WellFormed, Apply;
  }

  /** An action does the same to the clean system, or enrols nobody because stale entries fill the list. */
  lemma ActCleans(m: Machine, action: Action)
    requires MachineOk(m) && Allowed(m.sys, action)
    ensures Allowed(CleanOf(m), action)
    ensures
      var clean, after := CleanOf(m), CleanOf(m.(sys := Act(m.sys, action)));
      || after == Act(clean, action)
      || (exists step :: IsRefusal(clean, step, after))
  {
    var w, clean := WorldOf(m), CleanOf(m);
    var sys' := Act(m.sys, action);
    ActOther(m.sys, action, Purged(m.sys.k.lists, m.unpurged));
    ActSection(m.sys, action);
    ActSection(clean, action);
    var section := SectionOf(m.sys, action);
    if section.Some? {
      var step := section.value;
      Purging.SectionCleans(w, step);
      var after := CleanOf(m.(sys := sys'));
      if after.k != Apply(clean.k, step) {
        EnrolActs(clean, action);
        assert after == Refused(clean, step.core, step.addr, step.deadline, sys'.calls);
        assert IsRefusal(clean, step, after);
      }
    }
    hide SystemOk, Act, Allowed, Apply, Enabled, SectionOf, Purging.WorldOk, Purged;
  }

  /** The step would enrol the caller, and it finds no room. */
  ghost predicate IsRefusal(sys: System, step: Label, sys': System) {
    && step.EnrolOn? && InTask(sys.k, step.core) && SameCalls(sys, sys.(calls := sys'.calls))
    && sys' == Refused(sys, step.core, step.addr, step.deadline, sys'.calls)
  }

  lemma DoWorld(m: Machine, action: Action)
    requires MachineOk(m) && MayHappen(m, Do(action), false)
    ensures Purging.WorldOk(WorldOf(m.(sys := Act(m.sys, action))))
  {
    ActSection(m.sys, action);
    hide Purging.WorldOk, SystemOk, Act, Apply, Enabled;
    match SectionOf(m.sys, action)
    case None =>
    case Some(step) => Purging.SectionOk(WorldOf(m), step);
  }

  lemma DoKeeps(m: Machine, action: Action)
    requires MachineOk(m) && NeverLost(CleanOf(m)) && MayHappen(m, Do(action), false)
    requires !action.GiveUp? && !BareQueueCall(action)
    ensures var m' := Happens(m, Do(action), false); MachineOk(m') && NeverLost(CleanOf(m'))
  {
    var clean, after := CleanOf(m), CleanOf(m.(sys := Act(m.sys, action)));
    DoWorld(m, action);
    ActCleans(m, action);
    hide Purging.WorldOk, SystemOk, NeverLost, Act, Allowed, CleanOf, IsRefusal;
    if after == Act(clean, action) {
      ActKeeps(clean, action);
    } else {
      var step :| IsRefusal(clean, step, after);
      RefusalKeeps(clean, step, after);
    }
  }

  lemma RefusalKeeps(sys: System, step: Label, sys': System)
    requires SystemOk(sys) && NeverLost(sys) && IsRefusal(sys, step, sys')
    ensures SystemOk(sys') && NeverLost(sys')
  {
    hide SystemOk, NeverLost, SameCalls, InTask;
    RefusedKeeps(sys, step.core, step.addr, step.deadline, sys'.calls);
  }

  // ── Deletions ───────────────────────────────────────────────────────────────────────────────

  /** The event deletes a task that is inside a blocking call and about to test. */
  predicate DeletesCaller(m: Machine, e: Event) {
    e.Leave? && e.step.Delete? && AwakeCaller(m.sys, e.step.id)
  }

  lemma RemoveKeeps(m: Machine, me: nat, id: nat, recompute: bool)
    requires MachineOk(m) && NeverLost(CleanOf(m)) && Purging.Deletable(m.sys.k, id)
    requires me in m.sys.k.s.current && me !in m.purging
    requires if recompute then !AwakeCaller(m.sys, id) else Task(m.sys.k.s, id).state.Deleting?
    ensures |m.sys.k.waits| == |m.sys.k.s.tasks| && id < |m.sys.calls|
    ensures
      var w := Purging.Deleted(WorldOf(m), me, id, recompute);
      var m' := Machine(m.sys.(k := w.k, calls := m.sys.calls[id := None]), w.purging, w.unpurged);
      MachineOk(m') && NeverLost(CleanOf(m'))
  {
    var clean := CleanOf(m);
    assert Purging.Deletable(clean.k, id);
    Purging.DeleteOk(WorldOf(m), me, id, recompute);
    if !recompute { DeletingIsNoCaller(clean, id); }
    assert !AwakeCaller(clean, id);
    DeleteKeeps(clean, id, recompute);
    var w := Purging.Deleted(WorldOf(m), me, id, recompute);
    var m' := Machine(m.sys.(k := w.k, calls := m.sys.calls[id := None]), w.purging, w.unpurged);
    hide Purging.WorldOk, Purging.Clean, Purging.Deleted, Purging.Cleared, Purging.Deletable;
    hide SystemOk, NeverLost, Forget;
    CleanIs(m);
    assert CleanOf(m') == Removed(clean, id, recompute);
  }

  lemma LeaveKeeps(m: Machine, step: Purging.Step)
    requires MachineOk(m) && NeverLost(CleanOf(m)) && MayHappen(m, Leave(step), false)
    requires !DeletesCaller(m, Leave(step))
    ensures var m' := Happens(m, Leave(step), false); MachineOk(m') && NeverLost(CleanOf(m'))
  {
    hide Purging.WorldOk, SystemOk, NeverLost, Purging.Clean, Purging.Deletable, Forget;
    match step
    case Delete(core, id) => RemoveKeeps(m, Current(m.sys.k, core), id, true);
    case DeleteSelf(core) => SelfKeeps(m, core);
    case Reap(core, id) => RemoveKeeps(m, Current(m.sys.k, core), id, false);
    case Purge(core) => PurgeKeeps(m, Current(m.sys.k, core));
    case Section(_) =>
  }

  lemma SelfKeeps(m: Machine, core: nat)
    requires MachineOk(m) && NeverLost(CleanOf(m)) && Unoccupied(m.sys, core)
    ensures
      var m' := m.(sys := m.sys.(k := m.sys.k.(s := BlockCurrent(m.sys.k.s, core, Deleting))));
      MachineOk(m') && NeverLost(CleanOf(m'))
  {
    Purging.DeleteSelfOk(WorldOf(m), core);
    assert Unoccupied(CleanOf(m), core);
    hide Purging.WorldOk, SystemOk, NeverLost, Unoccupied, BlockCurrent, Purged;
    DeleteSelfKeeps(CleanOf(m), core);
  }

  lemma PurgeKeeps(m: Machine, me: nat)
    requires MachineOk(m) && NeverLost(CleanOf(m)) && me in m.purging
    ensures
      var w := Purging.PurgedBy(WorldOf(m), me);
      var m' := Machine(m.sys.(k := w.k), w.purging, w.unpurged);
      MachineOk(m') && NeverLost(CleanOf(m'))
  {
    Purging.PurgeOk(WorldOf(m), me);
    hide Purging.WorldOk, SystemOk, NeverLost, Purging.Clean, Forget;
  }
}

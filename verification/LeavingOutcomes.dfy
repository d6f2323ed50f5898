/** When each section of a deletion may run and what it does, beside the waiter lists and beside the callers of
    blocking objects; stated from the state before and the state after. */
module LeavingOutcomes {
  import opened Wrappers
  import opened Sequences
  import opened Tasks
  import opened Inheritance
  import opened Waiters
  import opened Kernel
  import opened Transitions
  import opened SectionOutcomes
  import BlockingObjects
  import Machines
  import Purging
  import Timeouts

  // ── Beside the waiter lists ─────────────────────────────────────────────────────────────────

  /** The core's own task is not between the two sections of a deletion. */
  predicate NotDeleting(w: Purging.World, core: nat) {
    core < |w.k.s.current| ==> w.k.s.current[core] !in w.purging
  }

  /** A task that runs nowhere, is no idle task, and neither owns a mutex nor waits for one, in whatever state. */
  ghost predicate CouldDelete(k: State, id: nat) {
    && Live(k.s, id) && Task(k.s, id).state != Running && id !in k.s.current && id !in k.idle
    && Task(k.s, id).blockedOnMutex == None && forall a :: a in k.mutexes ==> k.mutexes[a].owner != id
  }

  predicate Undivided(w: Purging.World, step: Label, reuse: bool) {
    match step
    case LockMutex(core, _, _) => NotDeleting(w, core)
    case UnlockMutex(core, _) => NotDeleting(w, core)
    case EnrolOn(core, _, _, _) => NotDeleting(w, core)
    case Sleep(core, _) => NotDeleting(w, core)
    case Suspend(core) => NotDeleting(w, core)
    case Spawn(id, _, _) => id in w.unpurged ==> reuse
    case _ => true
  }

  predicate RunsOn(k: State, core: nat) {
    core < |k.s.current| && Live(k.s, k.s.current[core]) && Task(k.s, k.s.current[core]).state.Running?
  }

  /** What has to be the case for a section of a deletion, or any other section beside it. */
  ghost predicate MayStep(w: Purging.World, step: Purging.Step, reuse: bool) {
    match step
    case Delete(core, id) => Calls(w.k, core) && NotDeleting(w, core) && CouldDelete(w.k, id)
    case DeleteSelf(core) => Calls(w.k, core) && NotDeleting(w, core)
    case Reap(core, id) =>
      && RunsOn(w.k, core) && w.k.s.current[core] in w.k.idle && NotDeleting(w, core)
      && CouldDelete(w.k, id) && Task(w.k.s, id).state.Deleting?
    case Purge(core) => RunsOn(w.k, core) && w.k.s.current[core] in w.purging
    case Section(section) => MayRun(w.k, section) && Undivided(w, section, reuse)
  }

  /** Slot `id` is empty and its wait is over; the lists may still name it, and task `me` will purge it. */
  predicate HasEmptied(w: Purging.World, w': Purging.World, me: nat, id: nat) {
    && id < |w.k.s.tasks| && id < |w.k.waits|
    && w'.k.s == w.k.s.(tasks := w.k.s.tasks[id := None], readyMask := w'.k.s.readyMask)
    && w'.k == w.k.(s := w'.k.s, waits := w.k.waits[id := None])
    && w'.purging == (w.purging - {id})[me := id]
    && w'.unpurged == w.unpurged + {id}
  }

  /** The id task `me` deleted is off every list, and the others on it keep their order. */
  ghost predicate HasPurged(w: Purging.World, w': Purging.World, me: nat) {
    && me in w.purging
    && w'.k == w.k.(lists := w'.k.lists)
    && (forall addr: nat, send: bool ::
          var list := ListOf(w.k.lists, addr, send);
          ListOf(w'.k.lists, addr, send) ==
            if w.purging[me] in list then RemoveAt(list, IndexOf(list, w.purging[me])) else list)
    && w'.purging == w.purging - {me}
    && w'.unpurged == w.unpurged - {w.purging[me]}
  }

  ghost predicate StepDone(w: Purging.World, step: Purging.Step, w': Purging.World)
  {
    match step
    case Delete(core, id) => core < |w.k.s.current| && HasEmptied(w, w', w.k.s.current[core], id)
    case DeleteSelf(core) =>
      && core < |w.k.s.current| && Live(w.k.s, w.k.s.current[core]) && w' == w.(k := w.k.(s := w'.k.s))
      && Becomes(w.k.s, w'.k.s, w.k.s.current[core], Task(w.k.s, w.k.s.current[core]).(state := Deleting))
    case Reap(core, id) => core < |w.k.s.current| && HasEmptied(w, w', w.k.s.current[core], id)
    case Purge(core) => core < |w.k.s.current| && HasPurged(w, w', w.k.s.current[core])
    case Section(section) => Enabled(w.k, section) && w' == w.(k := Apply(w.k, section))
  }

  /** Every section of a deletion may run exactly then, and does exactly that. */
  lemma StepsExactly(w: Purging.World, step: Purging.Step, reuse: bool)
    requires Inv(Purging.Clean(w))
    ensures Purging.Allowed(w, step, reuse) <==> MayStep(w, step, reuse)
    ensures Purging.Allowed(w, step, reuse) ==> StepDone(w, step, Purging.Act(w, step, reuse))
  {
    StepsWhen(w, step, reuse);
    hide Inv, MayStep;
    if Purging.Allowed(w, step, reuse) { StepDoes(w, step, reuse); }
  }

  lemma StepsWhen(w: Purging.World, step: Purging.Step, reuse: bool)
    requires Inv(Purging.Clean(w))
    ensures Purging.Allowed(w, step, reuse) <==> MayStep(w, step, reuse)
  {
    assert WellFormed(w.k.s) && |w.k.waits| == MAX_TASKS;
    if step.Section? { RunsExactly(w.k, Purging.Clean(w).lists, step.step); }
    hide Inv, WellFormed, Apply, Enabled, MayRun, Purging.Clean;
  }

  lemma StepDoes(w: Purging.World, step: Purging.Step, reuse: bool)
    requires Purging.Allowed(w, step, reuse)
    ensures StepDone(w, step, Purging.Act(w, step, reuse))
  {
    assert step.Delete? ==> |w.k.waits| == |w.k.s.tasks|;
    hide WellFormed, Apply, Enabled;
    match step
    case DeleteSelf(core) =>
      BlockCurrentDoes(w.k.s, core, Deleting);
      hide BlockCurrent;
    case Purge(core) =>
      PurgesId(w.k.lists, w.purging[w.k.s.current[core]]);
      hide ListOf, Forget;
    case _ =>
  }

  lemma PurgesId(lists: WaitTable, id: nat)
    ensures forall addr: nat, send: bool ::
              var list := ListOf(lists, addr, send);
              ListOf(Forget(lists, id), addr, send) == if id in list then RemoveAt(list, IndexOf(list, id)) else list
  {
    hide RemoveAt, IndexOf;
  }

  // ── Beside the callers ──────────────────────────────────────────────────────────────────────

  /** A task between the two sections of a deletion begins no call and takes no turn of one. */
  predicate Attends(m: Machines.Machine, action: BlockingObjects.Action, reuse: bool) {
    var w := Machines.WorldOf(m);
    match action
    case Begin(core, _, _, _, _) => NotDeleting(w, core)
    case Test(core) => NotDeleting(w, core)
    case GiveUp(core, _) => NotDeleting(w, core)
    case Section(step) => Undivided(w, step, reuse)
    case _ => true
  }

  /** What has to be the case for an event: a deletion is made by a task inside no call. */
  ghost predicate MayHappenNow(m: Machines.Machine, e: Machines.Event, reuse: bool) {
    match e
    case Do(action) => Timeouts.MayAct(m.sys, action) && Attends(m, action, reuse)
    case Leave(step) =>
      && MayStep(Machines.WorldOf(m), step, reuse) && !step.Section?
      && (step.Delete? || step.DeleteSelf? ==> Timeouts.NotCalling(m.sys, step.core))
  }

  /** A deletion changes no object, and ends the call of the task it deletes, if any. */
  ghost predicate HasLeft(m: Machines.Machine, m': Machines.Machine, step: Purging.Step) {
    && StepDone(Machines.WorldOf(m), step, Machines.WorldOf(m'))
    && m'.sys.objects == m.sys.objects
    && m'.sys.calls ==
         if (step.Delete? || step.Reap?) && step.id < |m.sys.calls| then m.sys.calls[step.id := None] else m.sys.calls
  }

  lemma EventsExactly(m: Machines.Machine, e: Machines.Event, reuse: bool)
    requires Inv(Purging.Clean(Machines.WorldOf(m)))
    ensures Machines.MayHappen(m, e, reuse) <==> MayHappenNow(m, e, reuse)
    ensures Machines.MayHappen(m, e, reuse) && e.Leave? ==> HasLeft(m, Machines.Happens(m, e, reuse), e.step)
  {
    assert Purging.Clean(Machines.WorldOf(m)) == m.sys.k.(lists := Purging.Clean(Machines.WorldOf(m)).lists);
    hide Inv, Timeouts.MayAct, MayStep, BlockingObjects.Allowed, StepDone, Purging.Act, Purging.Clean;
    match e
    case Do(action) => Timeouts.ActsExactly(m.sys, Purging.Clean(Machines.WorldOf(m)).lists, action);
    case Leave(step) => StepsExactly(Machines.WorldOf(m), step, reuse);
  }
}

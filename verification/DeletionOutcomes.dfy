/** What deletions answer and do in every run, stated from the state before and the state after. */
module DeletionOutcomes {
  import opened Wrappers
  import opened Tasks
  import opened Transitions
  import opened Deletion

  /** Slot `id` is empty, and its stack, if the heap lent it, waits to be freed. Nothing else has changed but the
      ready mask. */
  predicate HasCleared(d: State, d': State, id: nat) {
    && id < |d.s.tasks| == |d.stacks|
    && d'.s == d.s.(tasks := d.s.tasks[id := None], readyMask := d'.s.readyMask)
    && d'.stacks == d.stacks[id := None] && d'.lent == d.lent && d'.idle == d.idle
    && d'.limbo ==
         if d.stacks[id].Some? && d.stacks[id].value.heap then d.limbo + {d.stacks[id].value.base} else d.limbo
  }

  /** One `delete_task` of another task. It is deleted whatever it is blocked on or doing, unless it is running
      somewhere or its stack is not the heap's. */
  predicate Deletes(d: State, d': State, id: nat, answer: Option<DeleteError>) {
    if id >= |d.s.tasks| || d.s.tasks[id].None? then answer == Some(NoSuchTask) && d' == d
    else if d.s.tasks[id].value.state.Running? || id in d.s.current then answer == Some(StillRunning) && d' == d
    else if id >= |d.stacks| || d.stacks[id].None? || !d.stacks[id].value.heap
      then answer == Some(NotDeletable) && d' == d
    else answer == None && HasCleared(d, d', id)
  }

  /** Marked for deletion, and no core has it as its current task. */
  predicate Doomed(d: State, id: nat) {
    id < |d.s.tasks| && d.s.tasks[id].Some? && d.s.tasks[id].value.state.Deleting? && id !in d.s.current
  }

  /** One pass of the reaper takes the lowest such slot, if there is one. */
  ghost predicate Reaps(d: State, d': State) {
    if exists id: nat :: Doomed(d, id) then
      exists id: nat :: Doomed(d, id) && (forall j: nat :: j < id ==> !Doomed(d, j)) && HasCleared(d, d', id)
    else d' == d
  }

  ghost predicate Does(d: State, step: Step, d': State) {
    match step
    case Delete(_, id) => Deletes(d, d', id, Refusal(d, id))
    case DeleteSelf(core) =>
      && core < |d.s.current| && d.s.current[core] < |d.s.tasks| && d.s.tasks[d.s.current[core]].Some?
      && var me := d.s.current[core];
         d' == d.(s := d.s.(tasks := d.s.tasks[me := Some(d.s.tasks[me].value.(state := Deleting))],
                            readyMask := d'.s.readyMask))
    case ReapOne => Reaps(d, d')
    case Free(base) => d' == d.(limbo := d.limbo - {base}, lent := d.lent - {base})
    case Spawn(id, block, stack) =>
      && id < |d.s.tasks| == |d.stacks| && d.s.tasks[id].None?
      && d'.s == d.s.(tasks := d.s.tasks[id := Some(block.(state := Ready, quantum := 10))],
                      readyMask := d'.s.readyMask)
      && d' == d.(s := d'.s, stacks := d.stacks[id := Some(stack)],
                  lent := if stack.heap then d.lent + {stack.base} else d.lent)
    case Switch(core, next) =>
      && d' == d.(s := d'.s) && |d.s.current| == 2 && core < 2
      && ChosenFairly(d.s, core, next) && SwitchEffect(d.s, d'.s, core, next)
    case Tick(core, now) => d' == d.(s := d'.s) && TickEffect(d.s, d'.s, core, now)
    case Block(core, state) => d' == d.(s := d'.s) && core < |d.s.current| && Stops(d.s, d'.s, core, state)
    case Wake(id) => d' == d.(s := d'.s) && Unblocks(d.s, d'.s, id)
  }

  /** The core's own task is running. */
  predicate RunsOn(d: State, core: nat) {
    core < |d.s.current| && Live(d.s, d.s.current[core]) && Task(d.s, d.s.current[core]).state.Running?
  }

  /** What has to be the case for each step. A task that is deleted or deletes itself may be in any state. */
  ghost predicate MayStep(d: State, step: Step) {
    match step
    case Spawn(id, block, stack) =>
      && id < |d.s.tasks| && d.s.tasks[id].None? && block.state.Init? && block.priority < 49 && block.basePrio < 49
      && (stack.heap ==> stack.base !in d.lent)
    case Delete(core, id) => RunsOn(d, core) && id != d.s.current[core]
    case DeleteSelf(core) => RunsOn(d, core) && d.s.current[core] !in d.idle
    case ReapOne => true
    case Free(base) => base in d.limbo
    case Switch(core, next) => |d.s.current| == 2 && core < 2 && ChosenFairly(d.s, core, next)
    case Tick(core, _) => core < |d.s.current|
    case Block(core, state) =>
      && RunsOn(d, core) && d.s.current[core] !in d.idle
      && state in {BlockedSend, BlockedRecv, BlockedSleep, Suspended}
    case Wake(_) => true
  }

  lemma StepsWhen(d: State, step: Step)
    requires Inv(d)
    ensures WellFormed(d.s) && |d.stacks| == MAX_TASKS && (Enabled(d, step) <==> MayStep(d, step))
  {
    if step.Switch? {
      hide StacksOk, SlotsPaired;
      if Enabled(d, step) {
        SwitchDoes(d.s, d.idle, step.core, step.next);
      } else if step.core < 2 && ChosenFairly(d.s, step.core, step.next) {
        FairIsPick(d.s, step.core, step.next);
      }
    } else {
      hide MaskExact, CoresOk, StacksOk, Schedules;
    }
  }

  lemma StepDoes(d: State, step: Step)
    requires Inv(d) && Enabled(d, step)
    ensures Does(d, step, Apply(d, step))
  {
    match step
    case ReapOne => ReapDoes(d);
    case Switch(core, next) =>
      SwitchDoes(d.s, d.idle, core, next);
      hide Inv, Dispatch, Rotated, Schedules, ChosenFairly, SwitchEffect;
    case Tick(core, now) =>
      TickDoes(d.s, core, now);
      hide Inv, OnTick, TickEffect;
    case Block(core, state) =>
      BlockCurrentDoes(d.s, core, state);
      hide Inv, BlockCurrent, Stops;
    case Wake(id) =>
      UnblockDoes(d.s, id);
      hide Inv, Unblock, Unblocks;
    case _ => hide MaskExact, CoresOk, StacksOk, ActiveAt, WellFormed;
  }

  lemma ReapDoes(d: State)
    requires Inv(d) && Enabled(d, ReapOne)
    ensures Reaps(d, Apply(d, ReapOne))
  {
    hide MaskExact, CoresOk, StacksOk, WellFormed;
    VictimIsFirst(d, 0);
    forall id: nat ensures Doomed(d, id) <==> Reapable(d, id) {}
    hide Reapable, Doomed;
    if Victim(d, 0).Some? {
      var id := Victim(d, 0).value;
      assert Doomed(d, id) && HasCleared(d, Apply(d, ReapOne), id);
    }
  }

  /** Every deletion, reaping pass, free and spawn of every run does just that; no other step touches a stack. */
  lemma StepsDo(states: seq<State>, steps: seq<Step>, i: nat)
    requires IsRun(states, steps) && i < |steps|
    ensures Does(states[i], steps[i], states[i + 1]) && MayStep(states[i], steps[i])
  {
    RunInv(states, steps, i);
    StepsWhen(states[i], steps[i]);
    hide Inv, Does, Apply, Enabled, MayStep;
    assert Follows(states[i], steps[i], states[i + 1]);
    StepDoes(states[i], steps[i]);
  }
}

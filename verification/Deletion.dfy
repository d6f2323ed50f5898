/** Deleting tasks and giving their stacks back.

    A task cannot free the stack it runs on, so a self-delete only marks it Deleting, and the idle task
    reaps it once no core runs it. Clearing a slot and freeing its stack are separate steps: in between
    the stack is in limbo. The tasks here own no mutex and wait on none. */
module Deletion {
  import opened Wrappers
  import opened Sequences
  import opened Tasks
  import Guarantees
  import Kernel

  /** Where a task's stack is, and whether it came from the heap rather than the static pool. */
  datatype Stack = Stack(base: nat, heap: bool)

  /** `lent` are the stacks the heap has handed out and not got back; `limbo` those whose task has
      been cleared and whose `heap::free` is still to come. */
  datatype State = State(s: Sched, stacks: seq<Option<Stack>>, lent: set<nat>, limbo: set<nat>, idle: seq<nat>)

  datatype DeleteError = NoSuchTask | StillRunning | NotDeletable

  datatype Step =
    | Spawn(id: nat, block: Tcb, stack: Stack)
    | Delete(core: nat, id: nat)
    | DeleteSelf(core: nat)
    | ReapOne
    | Free(base: nat)
    | Switch(core: nat, next: nat)
    | Tick(core: nat, now: nat)
    | Block(core: nat, state: TaskState)
    | Wake(id: nat)

  predicate Current(d: State, id: nat) { id in d.s.current }

  /** A task-context step: the core's current task is executing it. */
  predicate Running(d: State, core: nat) {
    core < |d.s.current| && Live(d.s, d.s.current[core]) && Task(d.s, d.s.current[core]).state.Running?
  }

  ghost predicate Enabled(d: State, step: Step)
    requires WellFormed(d.s) && |d.stacks| == MAX_TASKS
  {
    match step
    case Spawn(id, block, stack) =>
      && id < MAX_TASKS && d.s.tasks[id].None? && TaskOk(Some(block)) && block.state.Init?
      && (stack.heap ==> stack.base !in d.lent)
    case Delete(core, id) => Running(d, core) && id != d.s.current[core]
    case DeleteSelf(core) => Running(d, core) && d.s.current[core] !in d.idle
    case ReapOne => true
    case Free(base) => base in d.limbo
    case Switch(core, next) => core < MAX_CORES && Schedules(d.s, core, next)
    case Tick(core, _) => core < MAX_CORES
    case Block(core, state) =>
      && Running(d, core) && d.s.current[core] !in d.idle
      && (state.BlockedSend? || state.BlockedRecv? || state.BlockedSleep? || state.Suspended?)
    case Wake(_) => true
  }

  predicate OnHeap(d: State, i: nat) { i < |d.stacks| && d.stacks[i].Some? && d.stacks[i].value.heap }

  /** The slot is emptied, and a heap stack goes to limbo. */
  function Cleared(d: State, id: nat): State
    requires |d.stacks| == |d.s.tasks| && Live(d.s, id)
  {
    d.(s := d.s.(tasks := d.s.tasks[id := None]), stacks := d.stacks[id := None],
       limbo := if OnHeap(d, id) then d.limbo + {d.stacks[id].value.base} else d.limbo)
  }

  function Freed(d: State, base: nat): State { d.(limbo := d.limbo - {base}, lent := d.lent - {base}) }

  /** What `delete_task` answers for a task other than the caller; None is success. */
  function Refusal(d: State, id: nat): Option<DeleteError>
  {
    if !Live(d.s, id) then Some(NoSuchTask)
    else if Task(d.s, id).state.Running? || Current(d, id) then Some(StillRunning)
    else if !OnHeap(d, id) then Some(NotDeletable)
    else None
  }

  /** The slot one pass of `reap_deleted` takes: Deleting, and not current anywhere. */
  predicate Reapable(d: State, id: nat) { Live(d.s, id) && Task(d.s, id).state.Deleting? && !Current(d, id) }

  function Victim(d: State, from: nat): Option<nat>
    requires from <= |d.s.tasks|
    decreases |d.s.tasks| - from
  {
    if from == |d.s.tasks| then None else if Reapable(d, from) then Some(from) else Victim(d, from + 1)
  }

  lemma {:induction false} VictimIsFirst(d: State, from: nat)
    requires from <= |d.s.tasks|
    ensures Victim(d, from).None? ==> forall i: nat :: from <= i < |d.s.tasks| ==> !Reapable(d, i)
    ensures Victim(d, from).Some? ==>
              var v := Victim(d, from).value;
              from <= v < |d.s.tasks| && Reapable(d, v) && forall i: nat :: from <= i < v ==> !Reapable(d, i)
    decreases |d.s.tasks| - from
  {
    if from < |d.s.tasks| && !Reapable(d, from) { VictimIsFirst(d, from + 1); }
  }

  ghost function Apply(d: State, step: Step): State
    requires WellFormed(d.s) && |d.stacks| == MAX_TASKS && SlotsPaired(d) && Enabled(d, step)
  {
    match step
    case Spawn(id, block, stack) =>
      d.(s := MakeReady(d.s.(tasks := d.s.tasks[id := Some(block)]), id), stacks := d.stacks[id := Some(stack)],
         lent := if stack.heap then d.lent + {stack.base} else d.lent)
    case Delete(_, id) =>
      if Refusal(d, id).Some? then d
      else var cleared := Cleared(d, id); cleared.(s := RecomputeReadyBit(cleared.s, Task(d.s, id).priority))
    case DeleteSelf(core) => d.(s := BlockCurrent(d.s, core, Deleting))
    case ReapOne =>
      var victim := Victim(d, 0);
      VictimIsFirst(d, 0);
      if victim.None? then d else Cleared(d, victim.value)
    case Free(base) => Freed(d, base)
    case Switch(core, next) => d.(s := Dispatch(Rotated(d.s, core, next), core, next))
    case Tick(core, now) => d.(s := OnTick(d.s, core, now))
    case Block(core, state) => d.(s := BlockCurrent(d.s, core, state))
    case Wake(id) => d.(s := Unblock(d.s, id))
  }

  // ── The invariant ───────────────────────────────────────────────────────────────────────────

  predicate SlotPaired(d: State, i: nat) { i < |d.stacks| == |d.s.tasks| && d.stacks[i].Some? == d.s.tasks[i].Some? }

  ghost predicate SlotsPaired(d: State) {
    |d.stacks| == |d.s.tasks| == MAX_TASKS && forall i: nat :: i < MAX_TASKS ==> SlotPaired(d, i)
  }

  predicate StackOk(d: State, i: nat) {
    OnHeap(d, i) ==> d.stacks[i].value.base in d.lent && d.stacks[i].value.base !in d.limbo
  }

  predicate Apart(d: State, i: nat, j: nat) {
    OnHeap(d, i) && OnHeap(d, j) && i != j ==> d.stacks[i].value.base != d.stacks[j].value.base
  }

  /** Every stack the heap has handed out is in limbo or is exactly one live task's. */
  ghost predicate StacksOk(d: State) {
    && (forall i: nat :: StackOk(d, i))
    && (forall i: nat, j: nat :: Apart(d, i, j))
    && d.limbo <= d.lent
    && (forall b :: b in d.lent ==> b in d.limbo || exists i: nat :: OnHeap(d, i) && d.stacks[i].value.base == b)
  }

  ghost predicate Inv(d: State) {
    && WellFormed(d.s) && MaskExact(d.s) && CoresOk(d.s, d.idle)
    && SlotsPaired(d) && StacksOk(d)
    && (forall c :: 0 <= c < MAX_CORES ==> !OnHeap(d, d.idle[c]))
  }

  // ── Preservation ────────────────────────────────────────────────────────────────────────────

  lemma ClearStacks(d: State, d': State, id: nat)
    requires SlotsPaired(d) && StacksOk(d) && Live(d.s, id)
    requires d'.s.tasks == d.s.tasks[id := None] && d'.stacks == d.stacks[id := None] && d'.lent == d.lent
    requires d'.limbo == if OnHeap(d, id) then d.limbo + {d.stacks[id].value.base} else d.limbo
    ensures SlotsPaired(d') && StacksOk(d')
  {
    assert StackOk(d, id) && SlotPaired(d, id);
    forall i: nat ensures StackOk(d', i) { assert StackOk(d, i) && Apart(d, i, id); }
    forall i: nat, j: nat ensures Apart(d', i, j) { assert Apart(d, i, j); }
    forall i: nat | i < MAX_TASKS ensures SlotPaired(d', i) { assert SlotPaired(d, i); }
    forall b | b in d'.lent ensures b in d'.limbo || exists i: nat :: OnHeap(d', i) && d'.stacks[i].value.base == b {
      if b !in d.limbo {
        var i: nat :| OnHeap(d, i) && d.stacks[i].value.base == b;
        if i != id { assert OnHeap(d', i); }
      }
    }
  }

  lemma ClearInv(d: State, d': State, id: nat)
    requires Inv(d) && Live(d.s, id) && id !in d.idle && id !in d.s.current
    requires d'.s.tasks == d.s.tasks[id := None] && d'.s.current == d.s.current && d'.s.lastRun == d.s.lastRun
      && MaskExact(d'.s)
    requires d'.stacks == d.stacks[id := None] && d'.lent == d.lent && d'.idle == d.idle
    requires d'.limbo == if OnHeap(d, id) then d.limbo + {d.stacks[id].value.base} else d.limbo
    ensures Inv(d')
  {
    ClearCores(d.s, d'.s, d.idle, id);
    ClearStacks(d, d', id);
    hide MaskExact, CoresOk, StacksOk, SlotsPaired;
  }

  lemma SpawnInv(d: State, id: nat, block: Tcb, stack: Stack)
    requires Inv(d) && Enabled(d, Spawn(id, block, stack))
    ensures Inv(Apply(d, Spawn(id, block, stack)))
  {
    var d' := Apply(d, Spawn(id, block, stack));
    var added := d.s.(tasks := d.s.tasks[id := Some(block)]);
    AddedMask(d.s, id, block);
    MakeReadyMask(added, id);
    assert forall i: nat :: i < MAX_TASKS && i != id ==> d'.s.tasks[i] == d.s.tasks[i];
    hide MaskExact, BitExact, ActiveAt;
    assert SlotPaired(d, id);
    forall i: nat | i < MAX_TASKS ensures TaskOk(d'.s.tasks[i]) && RunningOk(d'.s, i) && SlotPaired(d', i) {
      assert TaskOk(d.s.tasks[i]) && RunningOk(d.s, i) && SlotPaired(d, i);
    }
    forall c: nat | c < MAX_CORES
      ensures CoreOk(d'.s, d.idle, c) && !OnHeap(d', d.idle[c])
    {
      assert CoreOk(d.s, d.idle, c);
    }
    SpawnStacks(d, d', id, stack);
  }

  lemma SpawnStacks(d: State, d': State, id: nat, stack: Stack)
    requires StacksOk(d) && id < |d.stacks| && d.stacks[id].None? && (stack.heap ==> stack.base !in d.lent)
    requires d'.stacks == d.stacks[id := Some(stack)] && d'.limbo == d.limbo
    requires d'.lent == if stack.heap then d.lent + {stack.base} else d.lent
    ensures StacksOk(d')
  {
    forall i: nat ensures StackOk(d', i) { assert StackOk(d, i); }
    forall i: nat, j: nat ensures Apart(d', i, j) { assert Apart(d, i, j) && StackOk(d, i) && StackOk(d, j); }
    forall b | b in d'.lent ensures b in d'.limbo || exists i: nat :: OnHeap(d', i) && d'.stacks[i].value.base == b {
      if b in d.lent {
        if b !in d.limbo {
          var i: nat :| OnHeap(d, i) && d.stacks[i].value.base == b;
          assert OnHeap(d', i);
        }
      } else {
        assert OnHeap(d', id);
      }
    }
  }

  /** A section that only moves tasks between states leaves the stacks alone. */
  lemma MoveInv(d: State, s': Sched)
    requires Inv(d) && WellFormed(s') && MaskExact(s') && CoresOk(s', d.idle)
    requires forall i: nat :: i < MAX_TASKS ==> s'.tasks[i].Some? == d.s.tasks[i].Some?
    ensures Inv(d.(s := s'))
  {
    var d' := d.(s := s');
    hide MaskExact, CoresOk;
    forall i: nat ensures StackOk(d', i) { assert StackOk(d, i); }
    forall i: nat, j: nat ensures Apart(d', i, j) { assert Apart(d, i, j); }
    forall i: nat | i < MAX_TASKS ensures SlotPaired(d', i) { assert SlotPaired(d, i); }
    forall b | b in d'.lent ensures b in d'.limbo || exists i: nat :: OnHeap(d', i) && d'.stacks[i].value.base == b {
      if b !in d.limbo {
        var i: nat :| OnHeap(d, i) && d.stacks[i].value.base == b;
        assert OnHeap(d', i);
      }
    }
  }

  lemma BlockInv(d: State, core: nat, state: TaskState)
    requires Inv(d) && Running(d, core) && d.s.current[core] !in d.idle && !state.Running?
    ensures Inv(d.(s := BlockCurrent(d.s, core, state)))
  {
    BlockMask(d.s, core, state);
    assert TaskOk(d.s.tasks[d.s.current[core]]);
    hide MaskExact, StacksOk;
    SameCores(d.s, BlockCurrent(d.s, core, state), d.idle);
    MoveInv(d, BlockCurrent(d.s, core, state));
  }

  lemma TickInv(d: State, core: nat, now: nat)
    requires Inv(d) && core < MAX_CORES
    ensures Inv(d.(s := OnTick(d.s, core, now)))
  {
    TickMask(d.s, core, now);
    var s' := OnTick(d.s, core, now);
    forall i: nat | i < MAX_TASKS ensures TaskOk(s'.tasks[i]) { assert TaskOk(d.s.tasks[i]); }
    hide MaskExact, StacksOk;
    SameCores(d.s, s', d.idle);
    MoveInv(d, s');
  }

  lemma WakeInv(d: State, id: nat)
    requires Inv(d)
    ensures Inv(d.(s := Unblock(d.s, id)))
  {
    UnblockMask(d.s, id);
    if id < MAX_TASKS { assert TaskOk(d.s.tasks[id]); }
    hide MaskExact, StacksOk;
    SameCores(d.s, Unblock(d.s, id), d.idle);
    MoveInv(d, Unblock(d.s, id));
  }

  lemma SwitchInv(d: State, core: nat, next: nat)
    requires Inv(d) && Enabled(d, Switch(core, next))
    ensures Inv(Apply(d, Switch(core, next)))
  {
    SwitchIsSafe(d.s, d.idle, core, next);
    DispatchEffect(Rotated(d.s, core, next), core, next);
    hide Dispatch, MaskExact, CoresOk, StacksOk, IsPick;
    MoveInv(d, Apply(d, Switch(core, next)).s);
  }

  lemma DeleteInv(d: State, core: nat, id: nat)
    requires Inv(d) && Enabled(d, Delete(core, id))
    ensures Inv(Apply(d, Delete(core, id)))
  {
    if Refusal(d, id).None? {
      ClearMask(d.s, id);
      ClearInv(d, Apply(d, Delete(core, id)), id);
    }
  }

  lemma ReapInv(d: State, id: nat)
    requires Inv(d) && Reapable(d, id)
    ensures Inv(Cleared(d, id))
  {
    ClearMask(d.s, id);
    IdleIsActive(d);
    ClearInv(d, Cleared(d, id), id);
  }

  lemma IdleIsActive(d: State)
    requires Inv(d)
    ensures forall id :: id in d.idle ==> Live(d.s, id) && Active(Task(d.s, id))
  {
    forall c: nat | c < MAX_CORES
      ensures Live(d.s, d.idle[c]) && Active(Task(d.s, d.idle[c]))
    {
      assert CoreOk(d.s, d.idle, c);
    }
  }

  lemma FreeInv(d: State, base: nat)
    requires Inv(d) && base in d.limbo
    ensures Inv(Apply(d, Free(base)))
  {
    var d' := Apply(d, Free(base));
    hide MaskExact, CoresOk;
    forall i: nat ensures StackOk(d', i) { assert StackOk(d, i); }
    forall i: nat, j: nat ensures Apart(d', i, j) { assert Apart(d, i, j); }
    forall i: nat | i < MAX_TASKS ensures SlotPaired(d', i) { assert SlotPaired(d, i); }
    forall b | b in d'.lent ensures b in d'.limbo || exists i: nat :: OnHeap(d', i) && d'.stacks[i].value.base == b {
      if b !in d.limbo {
        var i: nat :| OnHeap(d, i) && d.stacks[i].value.base == b;
        assert OnHeap(d', i);
      }
    }
  }

  lemma StepInv(d: State, step: Step)
    requires Inv(d) && Enabled(d, step)
    ensures Inv(Apply(d, step))
  {
    hide Inv;
    match step
    case Spawn(id, block, stack) => SpawnInv(d, id, block, stack);
    case Delete(core, id) => DeleteInv(d, core, id);
    case DeleteSelf(core) => BlockInv(d, core, Deleting);
    case ReapOne =>
      VictimIsFirst(d, 0);
      if Victim(d, 0).Some? { ReapInv(d, Victim(d, 0).value); }
    case Free(base) => FreeInv(d, base);
    case Switch(core, next) => SwitchInv(d, core, next);
    case Tick(core, now) => TickInv(d, core, now);
    case Block(core, state) => BlockInv(d, core, state);
    case Wake(id) => WakeInv(d, id);
  }

  // ── Runs ────────────────────────────────────────────────────────────────────────────────────

  /** Boot: the two idle tasks, whose stacks are not the heap's, and nothing handed out. */
  function Fresh(): State {
    State(Kernel.Boot().s, seq(MAX_TASKS, i => if i < 2 then Some(Stack(0, false)) else None), {}, {}, [0, 1])
  }

  lemma FreshInv()
    ensures Inv(Fresh())
  {
    Guarantees.BootInv();
    var d := Fresh();
    forall i: nat | i < MAX_TASKS ensures SlotPaired(d, i) {}
    forall i: nat ensures !OnHeap(d, i) {}
  }

  /** A run from any good state. */
  ghost predicate IsRun(states: seq<State>, steps: seq<Step>) {
    && |states| == |steps| + 1
    && Inv(states[0])
    && forall i :: 0 <= i < |steps| ==> Follows(states[i], steps[i], states[i + 1])
  }

  ghost predicate Follows(d: State, step: Step, d': State) {
    WellFormed(d.s) && SlotsPaired(d) && Enabled(d, step) && d' == Apply(d, step)
  }

  /** A run from boot is one: what follows holds of every reachable state. */
  lemma BootRuns(states: seq<State>, steps: seq<Step>)
    requires |states| == |steps| + 1 && states[0] == Fresh()
    requires forall i :: 0 <= i < |steps| ==> Follows(states[i], steps[i], states[i + 1])
    ensures IsRun(states, steps)
  {
    FreshInv();
  }

  lemma {:induction false} RunInv(states: seq<State>, steps: seq<Step>, i: nat)
    requires IsRun(states, steps) && i < |states|
    ensures Inv(states[i])
  {
    hide Inv, Apply, Enabled, SlotsPaired;
    if i > 0 {
      RunInv(states, steps, i - 1);
      assert Follows(states[i - 1], steps[i - 1], states[i]);
      StepInv(states[i - 1], steps[i - 1]);
    }
  }

  /** Every free in every run gives back a stack the heap has out, and just once before it is handed out
      again; at that moment no live task has it, so no core can be running on it. */
  lemma FreesAreSafe(states: seq<State>, steps: seq<Step>, i: nat)
    requires IsRun(states, steps) && i < |steps| && steps[i].Free?
    ensures
      var d, d', base := states[i], states[i + 1], steps[i].base;
      && base in d.lent && base !in d'.lent
      && (forall id: nat :: OnHeap(d, id) ==> d.stacks[id].value.base != base)
      && (forall c :: 0 <= c < |d.s.current| && Live(d.s, d.s.current[c]) && OnHeap(d, d.s.current[c]) ==>
            d.stacks[d.s.current[c]].value.base != base)
  {
    RunInv(states, steps, i);
    assert Follows(states[i], steps[i], states[i + 1]);
    forall id: nat | OnHeap(states[i], id)
      ensures states[i].stacks[id].value.base != steps[i].base
    {
      assert StackOk(states[i], id);
    }
  }

  /** Nothing leaks: every stack the heap has out belongs to exactly one live task or is about to be freed. */
  lemma NothingLeaks(states: seq<State>, steps: seq<Step>, i: nat, base: nat)
    requires IsRun(states, steps) && i < |states|
    ensures base in states[i].lent <==>
              || base in states[i].limbo
              || exists id: nat :: OnHeap(states[i], id) && states[i].stacks[id].value.base == base
    ensures forall id: nat, other: nat :: OnHeap(states[i], id) && OnHeap(states[i], other) && id != other ==>
              states[i].stacks[id].value.base != states[i].stacks[other].value.base
  {
    RunInv(states, steps, i);
    var d := states[i];
    if id: nat :| OnHeap(d, id) && d.stacks[id].value.base == base { assert StackOk(d, id); }
    forall id: nat, other: nat | OnHeap(d, id) && OnHeap(d, other) && id != other
      ensures d.stacks[id].value.base != d.stacks[other].value.base
    {
      assert Apart(d, id, other);
    }
  }

  /** A slot is emptied only while no core has the task as its current one, so a task that is running,
      or still switching away, keeps its stack. */
  lemma ClearedOnlyOffCore(states: seq<State>, steps: seq<Step>, i: nat, id: nat)
    requires IsRun(states, steps) && i < |steps|
    requires Live(states[i].s, id) && !Live(states[i + 1].s, id)
    ensures id !in states[i].s.current && !Task(states[i].s, id).state.Running?
    ensures OnHeap(states[i], id) ==> states[i].stacks[id].value.base in states[i + 1].limbo
  {
    RunInv(states, steps, i);
    var d, step := states[i], steps[i];
    assert Follows(d, step, states[i + 1]);
    ClearingSteps(d, step, id);
  }

  lemma ClearingSteps(d: State, step: Step, id: nat)
    requires Inv(d) && Enabled(d, step) && Live(d.s, id) && !Live(Apply(d, step).s, id)
    ensures id !in d.s.current && !Task(d.s, id).state.Running?
    ensures OnHeap(d, id) ==> d.stacks[id].value.base in Apply(d, step).limbo
  {
    hide MaskExact, CoresOk, StacksOk;
    if step.ReapOne? { VictimIsFirst(d, 0); }
  }

  /** Deleting is terminal: such a task stays Deleting until its slot is emptied, and no switch of any
      core ever picks it. */
  lemma DeletingIsTerminal(states: seq<State>, steps: seq<Step>, i: nat, id: nat)
    requires IsRun(states, steps) && i < |steps|
    requires Live(states[i].s, id) && Task(states[i].s, id).state.Deleting?
    ensures Live(states[i + 1].s, id) ==> Task(states[i + 1].s, id).state.Deleting?
    ensures steps[i].Switch? ==> steps[i].next != id
  {
    RunInv(states, steps, i);
    assert Follows(states[i], steps[i], states[i + 1]);
    StaysDeleting(states[i], steps[i], id);
  }

  lemma StaysDeleting(d: State, step: Step, id: nat)
    requires Inv(d) && Enabled(d, step) && Live(d.s, id) && Task(d.s, id).state.Deleting?
    ensures Live(Apply(d, step).s, id) ==> Task(Apply(d, step).s, id).state.Deleting?
    ensures step.Switch? ==> step.next != id
  {
    if step.Switch? {
      SwitchIsSafe(d.s, d.idle, step.core, step.next);
      DispatchEffect(Rotated(d.s, step.core, step.next), step.core, step.next);
      hide Dispatch;
    }
    hide MaskExact, CoresOk, StacksOk;
  }

  // ── Reaping to the end ──────────────────────────────────────────────────────────────────────

  function ReapableFrom(d: State, from: nat): nat
    requires from <= |d.s.tasks|
    decreases |d.s.tasks| - from
  {
    if from == |d.s.tasks| then 0 else (if Reapable(d, from) then 1 else 0) + ReapableFrom(d, from + 1)
  }

  lemma {:induction false} OneFewer(d: State, d': State, id: nat, from: nat)
    requires |d'.s.tasks| == |d.s.tasks| && from <= |d.s.tasks| && id < |d.s.tasks|
    requires Reapable(d, id) && !Reapable(d', id)
    requires forall i: nat :: i < |d.s.tasks| && i != id ==> Reapable(d', i) == Reapable(d, i)
    ensures ReapableFrom(d, from) == ReapableFrom(d', from) + if from <= id then 1 else 0
    decreases |d.s.tasks| - from
  {
    hide Reapable;
    if from < |d.s.tasks| { OneFewer(d, d', id, from + 1); }
  }

  /** One whole pass: the slot is emptied, and a heap stack is freed. */
  function Pass(d: State, id: nat): State
    requires |d.stacks| == |d.s.tasks| && Live(d.s, id)
  {
    if OnHeap(d, id) then Freed(Cleared(d, id), d.stacks[id].value.base) else Cleared(d, id)
  }

  /** A slot is as it was, or it was reapable and has been emptied. */
  predicate SlotReaped(d0: State, d: State, id: nat) {
    && id < |d.s.tasks| == |d0.s.tasks| == |d.stacks| == |d0.stacks|
    && ((d.s.tasks[id] == d0.s.tasks[id] && d.stacks[id] == d0.stacks[id])
        || (Reapable(d0, id) && d.s.tasks[id].None? && d.stacks[id].None?))
  }

  /** The task's heap stack was given back when its slot was emptied. */
  predicate GivenBack(d0: State, d: State, id: nat, base: nat) {
    Reapable(d0, id) && !Live(d.s, id) && OnHeap(d0, id) && d0.stacks[id].value.base == base
  }

  ghost predicate PartlyReaped(d0: State, d: State) {
    && d.s.current == d0.s.current && d.s.readyMask == d0.s.readyMask && d.s.lastRun == d0.s.lastRun
    && d.limbo == d0.limbo && d.idle == d0.idle
    && (forall id: nat :: id < MAX_TASKS ==> SlotReaped(d0, d, id))
    && (forall b :: b in d.lent <==> b in d0.lent && !exists id: nat :: GivenBack(d0, d, id, b))
  }

  lemma PassKeeps(d0: State, d: State, id: nat)
    requires Inv(d0) && Inv(d) && PartlyReaped(d0, d) && Reapable(d, id)
    ensures var d' := Pass(d, id); Inv(d') && PartlyReaped(d0, d') && ReapableFrom(d, 0) == ReapableFrom(d', 0) + 1
  {
    var d' := Pass(d, id);
    assert SlotReaped(d0, d, id) && StackOk(d, id);
    ReapInv(d, id);
    if OnHeap(d, id) { FreeInv(Cleared(d, id), d.stacks[id].value.base); }
    OneFewer(d, d', id, 0);
    hide ReapableFrom, WellFormed, MaskExact, CoresOk;
    forall i: nat | i < MAX_TASKS ensures SlotReaped(d0, d', i) { assert SlotReaped(d0, d, i); }
    forall b ensures b in d'.lent <==> b in d0.lent && !exists i: nat :: GivenBack(d0, d', i, b) {
      PassLent(d0, d, id, b);
    }
  }

  lemma PassLent(d0: State, d: State, id: nat, b: nat)
    requires Inv(d0) && Inv(d) && PartlyReaped(d0, d) && Reapable(d, id)
    ensures b in Pass(d, id).lent <==> b in d0.lent && !exists i: nat :: GivenBack(d0, Pass(d, id), i, b)
  {
    hide WellFormed, MaskExact, CoresOk;
    var d' := Pass(d, id);
    assert SlotReaped(d0, d, id);
    if i: nat :| GivenBack(d0, d, i, b) {
      assert SlotReaped(d0, d, i);
      assert GivenBack(d0, d', i, b);
    }
    if i: nat :| GivenBack(d0, d', i, b) {
      assert SlotReaped(d0, d, i) && Apart(d0, i, id);
      if i != id { assert GivenBack(d0, d, i, b); }
    }
    if OnHeap(d, id) && d.stacks[id].value.base == b { assert GivenBack(d0, d', id, b); }
  }

  /** `reap_deleted` with nothing else going on: it ends, having emptied exactly the slots of the Deleting
      tasks no core was running and given back exactly their heap stacks, and nothing else has changed. */
  method ReapDeleted(d0: State) returns (d: State, reaped: nat)
    requires Inv(d0)
    ensures Inv(d) && forall id: nat :: !Reapable(d, id)
    ensures reaped == ReapableFrom(d0, 0)
    ensures d.s.current == d0.s.current && d.s.readyMask == d0.s.readyMask && d.limbo == d0.limbo
    ensures |d.s.tasks| == |d0.s.tasks| == MAX_TASKS
    ensures forall id: nat :: id < MAX_TASKS ==> d.s.tasks[id] == if Reapable(d0, id) then None else d0.s.tasks[id]
    ensures forall b :: b in d.lent <==> b in d0.lent && !exists id: nat :: GivenBack(d0, d, id, b)
  {
    d, reaped := d0, 0;
    while true
      invariant Inv(d) && PartlyReaped(d0, d)
      invariant reaped + ReapableFrom(d, 0) == ReapableFrom(d0, 0)
      decreases ReapableFrom(d, 0)
    {
      VictimIsFirst(d, 0);
      var victim := Victim(d, 0);
      if victim.None? { break; }
      PassKeeps(d0, d, victim.value);
      d := Pass(d, victim.value);
      reaped := reaped + 1;
    }
    NobodyLeft(d, 0);
    forall id: nat | id < MAX_TASKS ensures d.s.tasks[id] == if Reapable(d0, id) then None else d0.s.tasks[id] {
      assert SlotReaped(d0, d, id) && !Reapable(d, id);
    }
  }

  lemma {:induction false} NobodyLeft(d: State, from: nat)
    requires from <= |d.s.tasks| && forall i: nat :: from <= i < |d.s.tasks| ==> !Reapable(d, i)
    ensures ReapableFrom(d, from) == 0
    decreases |d.s.tasks| - from
  {
    if from < |d.s.tasks| { NobodyLeft(d, from + 1); }
  }
}

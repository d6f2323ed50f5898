/** The scheduler object: one array of task blocks, the current task of each core, the ready mask and
    the round-robin rotors, updated in place. Every method is proved equal to the transition of the same
    name in `Tasks.dfy`, where what the scheduler promises is proved. */
module Scheduling {
  import opened Wrappers
  import opened Tasks
  import opened Transitions

  /** Bits of the source's `u64` mask. */
  const MASK_BITS: nat := 64

  lemma DistanceIsOffset(last: nat, k: nat)
    requires last < MAX_TASKS && k < MAX_TASKS
    ensures
      var i := ((last + 1) % MAX_TASKS + k) % MAX_TASKS;
      i < MAX_TASKS && Distance(last, i) == k
  {
  }

  lemma OffsetIsDistance(last: nat, i: nat)
    requires last < MAX_TASKS && i < MAX_TASKS
    ensures Distance(last, i) < MAX_TASKS && ((last + 1) % MAX_TASKS + Distance(last, i)) % MAX_TASKS == i
  {
  }

  lemma NoHigherLevels(s: Sched, q: nat)
    requires WellFormed(s) && q >= NUM_PRIORITIES
    ensures !ActiveAt(s, q)
  {
    forall i | 0 <= i < MAX_TASKS
      ensures !(s.tasks[i].Some? && s.tasks[i].value.priority == q)
    {
      assert TaskOk(s.tasks[i]);
    }
  }

  class Scheduler {
    const tasks: array<Option<Tcb>>
    const current: array<nat>
    var readyMask: set<nat>
    const lastRun: array<nat>

    ghost predicate Valid()
      reads this, tasks, current, lastRun
    {
      && tasks.Length == MAX_TASKS && current.Length == MAX_CORES && lastRun.Length == NUM_PRIORITIES
      && lastRun != current
      && WellFormed(View())
      && (forall p :: p in readyMask ==> p < MASK_BITS)
    }

    ghost function View(): Sched
      reads this, tasks, current, lastRun
    {
      Sched(tasks[..], current[..], readyMask, lastRun[..])
    }

    constructor ()
      ensures Valid() && fresh(tasks) && fresh(current) && fresh(lastRun)
      ensures View() == Sched(seq(MAX_TASKS, _ => None), [NO_TASK, NO_TASK], {}, seq(NUM_PRIORITIES, _ => 0))
    {
      tasks := new Option<Tcb>[MAX_TASKS](_ => None);
      current := new nat[MAX_CORES](_ => NO_TASK);
      readyMask := {};
      lastRun := new nat[NUM_PRIORITIES](_ => 0);
      new;
      assert tasks[..] == seq(MAX_TASKS, _ => None);
      assert current[..] == [NO_TASK, NO_TASK];
      assert lastRun[..] == seq(NUM_PRIORITIES, _ => 0);
    }

    /** Takes the lowest free slot for a new block; nothing changes when all are taken. */
    method AllocId(block: Tcb) returns (id: Option<nat>)
      requires Valid() && TaskOk(Some(block))
      modifies tasks
      ensures Valid()
      ensures id.None? ==> View() == old(View()) && forall i: nat :: i < MAX_TASKS ==> Live(View(), i)
      ensures id.Some? ==>
                && id.value < MAX_TASKS && !Live(old(View()), id.value)
                && (forall i: nat :: i < id.value ==> Live(old(View()), i))
                && View() == old(View()).(tasks := old(View()).tasks[id.value := Some(block)])
    {
      var i := 0;
      while i < MAX_TASKS
        invariant 0 <= i <= MAX_TASKS && Valid() && View() == old(View())
        invariant forall j: nat :: j < i ==> Live(View(), j)
      {
        if tasks[i].None? {
          tasks[i] := Some(block);
          PutOk(old(View()), View(), i);
          return Some(i);
        }
        i := i + 1;
      }
      return None;
    }

    method RecomputeReadyBit(p: nat)
      requires Valid() && p < MASK_BITS
      modifies this`readyMask
      ensures Valid() && View() == Tasks.RecomputeReadyBit(old(View()), p)
    {
      var any := false;
      var i := 0;
      while i < MAX_TASKS
        invariant 0 <= i <= MAX_TASKS
        invariant any <==>
                  exists j :: 0 <= j < i && tasks[j].Some? && Active(tasks[j].value) && tasks[j].value.priority == p
      {
        if tasks[i].Some? && Active(tasks[i].value) && tasks[i].value.priority == p { any := true; }
        i := i + 1;
      }
      assert any <==> ActiveAt(View(), p);
      readyMask := if any then readyMask + {p} else readyMask - {p};
    }

    /** Rebuilds the mask from nothing. */
    method RecomputeReadyMask()
      requires Valid()
      modifies this`readyMask
      ensures Valid() && MaskExact(View()) && View() == old(View()).(readyMask := readyMask)
    {
      readyMask := {};
      var p := 0;
      while p < NUM_PRIORITIES
        invariant 0 <= p <= NUM_PRIORITIES && Valid()
        invariant View() == old(View()).(readyMask := readyMask)
        invariant forall q: nat :: q < p ==> BitExact(View(), q)
        invariant forall q :: q in readyMask ==> q < p
      {
        ghost var before := View();
        RecomputeReadyBit(p);
        RecomputeIsExact(before, p);
        p := p + 1;
      }
      forall q: nat ensures BitExact(View(), q) {
        if q >= NUM_PRIORITIES { NoHigherLevels(View(), q); }
      }
    }

    method MakeReady(id: nat)
      requires Valid() && id < MAX_TASKS
      modifies this`readyMask, tasks
      ensures Valid() && View() == Tasks.MakeReady(old(View()), id)
      ensures Readies(old(View()), View(), id)
    {
      MakeReadyDoes(View(), id);
      hide Readies;
      assert TaskOk(View().tasks[id]);
      if tasks[id].Some? {
        var t := tasks[id].value;
        tasks[id] := Some(t.(state := Ready, quantum := DEFAULT_QUANTUM_MS));
        readyMask := readyMask + {t.priority};
        PutOk(old(View()), View(), id);
      }
    }

    method SetCurrent(core: nat, id: nat)
      requires Valid() && core < MAX_CORES && id < MAX_TASKS
      modifies tasks, current
      ensures Valid() && View() == Tasks.SetCurrent(old(View()), core, id)
    {
      assert TaskOk(View().tasks[id]);
      current[core] := id;
      if tasks[id].Some? {
        tasks[id] := Some(tasks[id].value.(state := Running));
      }
      forall i | 0 <= i < MAX_TASKS ensures TaskOk(tasks[i]) { assert TaskOk(old(View()).tasks[i]); }
    }

    /** The lowest set bit, as `trailing_zeros` gives it. */
    method HighestReadyPriority() returns (best: Option<nat>)
      requires Valid()
      ensures best.None? <==> readyMask == {}
      ensures best.Some? ==> best.value in readyMask && forall p :: p in readyMask ==> best.value <= p
    {
      if readyMask == {} { return None; }
      var p := 0;
      while p < MASK_BITS && p !in readyMask
        invariant 0 <= p <= MASK_BITS
        invariant forall q :: q in readyMask ==> p <= q
      {
        p := p + 1;
      }
      var q :| q in readyMask;
      return Some(p);
    }

    method AnotherReadyAt(p: nat, other: nat) returns (found: bool)
      requires Valid()
      ensures found == Tasks.AnotherReadyAt(View(), p, other)
    {
      found := false;
      var i := 0;
      while i < MAX_TASKS
        invariant 0 <= i <= MAX_TASKS
        invariant found <==>
                  exists j ::
                    && 0 <= j < i && j != other
                    && tasks[j].Some? && tasks[j].value.priority == p && tasks[j].value.state.Ready?
      {
        if i != other && tasks[i].Some? && tasks[i].value.priority == p && tasks[i].value.state.Ready? {
          found := true;
        }
        i := i + 1;
      }
    }

    /** The waking half of a tick. */
    method WakeTimedOut(now: nat, currentPriority: nat) returns (outranked: bool)
      requires Valid()
      modifies this`readyMask, tasks
      ensures Valid() && View() == WakeExpired(old(View()), now)
      ensures outranked ==> exists p :: p in readyMask && p < currentPriority
    {
      ghost var before := View();
      outranked := false;
      var i := 0;
      while i < MAX_TASKS
        invariant 0 <= i <= MAX_TASKS
        invariant current[..] == before.current && lastRun[..] == before.lastRun
        invariant forall j :: 0 <= j < i ==> tasks[j] == TickTask(before.tasks[j], now)
        invariant forall j :: i <= j < MAX_TASKS ==> tasks[j] == before.tasks[j]
        invariant readyMask == before.readyMask +
                    set j | 0 <= j < i && before.tasks[j].Some? && Expired(before.tasks[j].value, now) ::
                      before.tasks[j].value.priority
        invariant outranked ==> exists p :: p in readyMask && p < currentPriority
      {
        if tasks[i].Some? && Expired(tasks[i].value, now) {
          var t := tasks[i].value;
          tasks[i] := Some(Woken(t));
          readyMask := readyMask + {t.priority};
          if t.priority < currentPriority { outranked := true; }
        }
        i := i + 1;
      }
      assert tasks[..] == WakeExpired(before, now).tasks;
      forall j | 0 <= j < MAX_TASKS ensures TaskOk(tasks[j]) { assert TaskOk(before.tasks[j]); }
      forall p | p in readyMask ensures p < MASK_BITS {
        if p !in before.readyMask {
          var j :| 0 <= j < MAX_TASKS && before.tasks[j].Some? && before.tasks[j].value.priority == p;
          assert TaskOk(before.tasks[j]);
        }
      }
    }

    /** The running task's slice: one millisecond less, or a new one. Answers whether it is used up and somebody
        at its level is waiting. */
    method ChargeQuantum(core: nat) returns (over: bool)
      requires Valid() && core < MAX_CORES && current[core] < MAX_TASKS
      modifies tasks
      ensures Valid() && View() == Tasks.ChargeQuantum(old(View()), core)
      ensures
        var s, cur := old(View()), current[core];
        over == (Live(s, cur) && Task(s, cur).quantum <= 1 && Task(s, cur).state.Running?
                 && Tasks.AnotherReadyAt(s, Task(s, cur).priority, cur))
    {
      ghost var before := View();
      var cur := current[core];
      over := false;
      assert TaskOk(View().tasks[cur]);
      if tasks[cur].Some? {
        var t := tasks[cur].value;
        var left := if t.quantum > 0 then t.quantum - 1 else 0;
        tasks[cur] := Some(t.(quantum := if left == 0 then DEFAULT_QUANTUM_MS else left));
        PutOk(before, View(), cur);
        if left == 0 && t.state.Running? {
          over := AnotherReadyAt(t.priority, cur);
          PeersAreOthers(before, View(), t.priority, cur);
        }
      }
    }

    method OnTick(core: nat, now: nat) returns (needSwitch: bool)
      requires Valid() && core < MAX_CORES && current[core] < MAX_TASKS
      modifies this`readyMask, tasks
      ensures Valid() && View() == Tasks.OnTick(old(View()), core, now)
      ensures needSwitch == TickSwitches(old(View()), core, now)
      ensures TickEffect(old(View()), View(), core, now)
      ensures MaskExact(old(View())) ==>
                (needSwitch <==> Outranked(old(View()), View(), core) || SliceOver(old(View()), View(), core))
    {
      ghost var before := View();
      TickDoes(before, core, now);
      if MaskExact(before) { TickAsksExactly(before, core, now); }
      hide TickEffect, MaskExact, Outranked, SliceOver;
      var cur := current[core];
      var currentPriority := if tasks[cur].Some? then tasks[cur].value.priority else IDLE_PRIORITY;
      needSwitch := WakeTimedOut(now, currentPriority);
      assert Live(View(), cur) == Live(before, cur);
      hide WakeExpired, Tasks.AnotherReadyAt;
      var best := HighestReadyPriority();
      if best.Some? && best.value < currentPriority { needSwitch := true; }
      var over := ChargeQuantum(core);
      if over { needSwitch := true; }
    }

    method RunningElsewhere(id: nat, core: nat) returns (elsewhere: bool)
      requires Valid()
      ensures elsewhere == Tasks.RunningElsewhere(View(), id, core)
    {
      elsewhere := false;
      var c := 0;
      while c < MAX_CORES
        invariant 0 <= c <= MAX_CORES
        invariant elsewhere <==> exists d :: 0 <= d < c && d != core && current[d] == id
      {
        if c != core && current[c] == id { elsewhere := true; }
        c := c + 1;
      }
    }

    /** The task the core may run that comes first by level and then by turn. */
    method Schedule(core: nat) returns (next: nat)
      requires Valid() && core < MAX_CORES
      modifies lastRun
      ensures Valid() && Schedules(old(View()), core, next)
      ensures View() == Rotated(old(View()), core, next)
    {
      ghost var s := View();
      var p := 0;
      while p < NUM_PRIORITIES
        invariant 0 <= p <= NUM_PRIORITIES && View() == s
        invariant forall j: nat :: Eligible(s, core, j) && Task(s, j).priority in readyMask ==> p <= Task(s, j).priority
      {
        if p in readyMask {
          var last := lastRun[p];
          var start := (last + 1) % MAX_TASKS;
          var k := 0;
          while k < MAX_TASKS
            invariant 0 <= k <= MAX_TASKS && View() == s
            invariant forall j: nat :: Eligible(s, core, j) && Task(s, j).priority == p ==> k <= Distance(last, j)
          {
            var i := (start + k) % MAX_TASKS;
            DistanceIsOffset(last, k);
            if tasks[i].Some? && tasks[i].value.priority == p && Active(tasks[i].value)
              && Allows(tasks[i].value.affinity, core) {
              var elsewhere := RunningElsewhere(i, core);
              if !elsewhere {
                assert IsPick(s, core, i);
                lastRun[p] := i;
                return i;
              }
            }
            forall j: nat | Eligible(s, core, j) && Task(s, j).priority == p ensures k + 1 <= Distance(last, j) {
              OffsetIsDistance(last, j);
            }
            k := k + 1;
          }
          forall j: nat ensures !(Eligible(s, core, j) && Task(s, j).priority == p) {
            if Eligible(s, core, j) && Task(s, j).priority == p { OffsetIsDistance(last, j); }
          }
        }
        p := p + 1;
      }
      forall j: nat | Eligible(s, core, j) ensures Task(s, j).priority !in readyMask { assert TaskOk(s.tasks[j]); }
      return current[core];
    }

    /** Gives the core away only when it has a real peer to run. */
    method YieldCurrent(core: nat) returns (yielded: bool)
      requires Valid() && core < MAX_CORES && current[core] < MAX_TASKS
      modifies this`readyMask, tasks
      ensures Valid() && View() == Tasks.YieldCurrent(old(View()), core)
      ensures yielded == (Live(old(View()), current[core]) && HasPeer(old(View()), core))
      ensures YieldEffect(old(View()), View(), core, yielded)
    {
      YieldDoes(View(), core);
      hide YieldEffect;
      var cur := current[core];
      if tasks[cur].None? { return false; }
      var priority := tasks[cur].value.priority;
      var hasPeer := false;
      var i := 0;
      while i < MAX_TASKS
        invariant 0 <= i <= MAX_TASKS && Valid() && View() == old(View())
        invariant hasPeer <==> exists j :: 0 <= j < i && IsPeer(View(), core, j)
      {
        if i != cur && tasks[i].Some? && tasks[i].value.state.Ready? && tasks[i].value.priority <= priority
           && Allows(tasks[i].value.affinity, core) {
          var elsewhere := RunningElsewhere(i, core);
          if !elsewhere { hasPeer := true; }
          assert IsPeer(View(), core, i) == !elsewhere;
        } else {
          assert !IsPeer(View(), core, i);
        }
        i := i + 1;
      }
      if !hasPeer { return false; }
      assert TaskOk(View().tasks[cur]);
      tasks[cur] := Some(tasks[cur].value.(state := Ready));
      readyMask := readyMask + {priority};
      PutOk(old(View()), View(), cur);
      return true;
    }

    method BlockCurrent(core: nat, state: TaskState)
      requires Valid() && core < MAX_CORES && current[core] < MAX_TASKS
      modifies this`readyMask, tasks
      ensures Valid() && View() == Tasks.BlockCurrent(old(View()), core, state)
      ensures Stops(old(View()), View(), core, state)
    {
      BlockCurrentDoes(View(), core, state);
      hide Stops;
      var cur := current[core];
      assert TaskOk(View().tasks[cur]);
      if tasks[cur].Some? {
        tasks[cur] := Some(tasks[cur].value.(state := state));
        PutOk(old(View()), View(), cur);
        RecomputeReadyBit(tasks[cur].value.priority);
      }
    }

    method BlockCurrentOnMutex(core: nat, addr: nat)
      requires Valid() && core < MAX_CORES && current[core] < MAX_TASKS
      modifies this`readyMask, tasks
      ensures Valid() && View() == Tasks.BlockCurrentOnMutex(old(View()), core, addr)
      ensures StopsOnMutex(old(View()), View(), core, addr)
    {
      BlockCurrentOnMutexDoes(View(), core, addr);
      hide StopsOnMutex;
      var cur := current[core];
      assert TaskOk(View().tasks[cur]);
      if tasks[cur].Some? {
        tasks[cur] := Some(tasks[cur].value.(state := BlockedMutex, blockedOnMutex := Some(addr)));
        PutOk(old(View()), View(), cur);
        RecomputeReadyBit(tasks[cur].value.priority);
      }
    }

    method Unblock(id: nat)
      requires Valid() && id < MAX_TASKS
      modifies this`readyMask, tasks
      ensures Valid() && View() == Tasks.Unblock(old(View()), id)
      ensures Unblocks(old(View()), View(), id)
    {
      UnblockDoes(View(), id);
      hide Unblocks;
      assert TaskOk(View().tasks[id]);
      if tasks[id].Some? && Blocked(tasks[id].value) {
        var t := tasks[id].value;
        tasks[id] := Some(t.(state := Ready, quantum := DEFAULT_QUANTUM_MS, blockedOnMutex := None));
        readyMask := readyMask + {t.priority};
        PutOk(old(View()), View(), id);
      }
    }

    method SetEffectivePriority(id: nat, priority: nat)
      requires Valid() && id < MAX_TASKS && priority < NUM_PRIORITIES
      modifies this`readyMask, tasks
      ensures Valid() && View() == Tasks.SetEffectivePriority(old(View()), id, priority)
      ensures MovesTo(old(View()), View(), id, priority)
    {
      SetEffectivePriorityDoes(View(), id, priority);
      hide MovesTo;
      assert TaskOk(View().tasks[id]);
      if tasks[id].None? { return; }
      var before := tasks[id].value.priority;
      tasks[id] := Some(tasks[id].value.(priority := priority));
      PutOk(old(View()), View(), id);
      if before != priority {
        RecomputeReadyBit(before);
        if Active(tasks[id].value) { readyMask := readyMask + {priority}; }
      } else {
        assert View().tasks == old(View()).tasks;
      }
    }

    method BoostPriority(id: nat, target: nat)
      requires Valid() && id < MAX_TASKS && target < NUM_PRIORITIES
      modifies this`readyMask, tasks
      ensures Valid() && View() == Tasks.BoostPriority(old(View()), id, target)
      ensures Lifts(old(View()), View(), id, target)
    {
      BoostPriorityDoes(View(), id, target);
      hide Lifts;
      assert TaskOk(View().tasks[id]);
      if tasks[id].None? || target >= tasks[id].value.priority { return; }
      var t := tasks[id].value;
      if t.boostedFrom.None? {
        tasks[id] := Some(t.(boostedFrom := Some(t.priority)));
        PutOk(old(View()), View(), id);
      }
      SetEffectivePriority(id, target);
    }

    method SetInheritedPriority(id: nat, effective: nat)
      requires Valid() && id < MAX_TASKS && effective < NUM_PRIORITIES
      modifies this`readyMask, tasks
      ensures Valid() && View() == Tasks.SetInheritedPriority(old(View()), id, effective)
      ensures Inherits(old(View()), View(), id, effective)
    {
      SetInheritedPriorityDoes(View(), id, effective);
      hide Inherits;
      SetEffectivePriority(id, effective);
      ghost var moved := View();
      assert TaskOk(View().tasks[id]);
      if tasks[id].Some? && effective >= tasks[id].value.basePrio {
        tasks[id] := Some(tasks[id].value.(boostedFrom := None));
        PutOk(moved, View(), id);
      }
    }

    method BasePriority(id: nat) returns (base: nat)
      requires Valid() && id < MAX_TASKS
      ensures base == Tasks.BasePriority(View(), id)
    {
      return if tasks[id].Some? then tasks[id].value.basePrio else IDLE_PRIORITY;
    }

    /** The pending-switch handler: choose, requeue whoever was running, install. None is the panic. */
    method Switch(core: nat) returns (next: Option<nat>)
      requires Valid() && core < MAX_CORES
      modifies this`readyMask, tasks, current, lastRun
      ensures next.Some? ==>
                && Valid() && Schedules(old(View()), core, next.value)
                && !DispatchPanics(Rotated(old(View()), core, next.value), core, next.value)
                && View() == Dispatch(Rotated(old(View()), core, next.value), core, next.value)
      ensures next.None? ==>
                exists r :: Schedules(old(View()), core, r) && DispatchPanics(Rotated(old(View()), core, r), core, r)
    {
      var r := Schedule(core);
      ghost var rotated := View();
      assert Schedules(old(View()), core, r);
      var cur := current[core];
      if r >= MAX_TASKS || tasks[r].None? { return None; }
      if r == cur {
        if !Active(tasks[r].value) { return None; }
        if tasks[r].value.state.Ready? { SetCurrent(core, r); }
      } else {
        if cur < MAX_TASKS && tasks[cur].Some? && tasks[cur].value.state.Running? {
          assert TaskOk(View().tasks[cur]);
          tasks[cur] := Some(tasks[cur].value.(state := Ready));
          readyMask := readyMask + {tasks[cur].value.priority};
          PutOk(rotated, View(), cur);
        }
        SetCurrent(core, r);
      }
      return Some(r);
    }
  }

  lemma PeersAreOthers(s: Sched, s': Sched, p: nat, id: nat)
    requires id < |s.tasks| == |s'.tasks| && s'.tasks == s.tasks[id := s'.tasks[id]]
    ensures Tasks.AnotherReadyAt(s', p, id) == Tasks.AnotherReadyAt(s, p, id)
  {
    assert forall i :: 0 <= i < |s.tasks| && i != id ==> s'.tasks[i] == s.tasks[i];
  }

  /** Replacing one block by one with priorities in range keeps the shapes. */
  lemma PutOk(s: Sched, s': Sched, id: nat)
    requires WellFormed(s) && id < MAX_TASKS && |s'.tasks| == MAX_TASKS && s'.tasks == s.tasks[id := s'.tasks[id]]
    requires TaskOk(s'.tasks[id]) && s'.current == s.current && s'.lastRun == s.lastRun
    ensures WellFormed(s')
  {
    forall i | 0 <= i < MAX_TASKS ensures TaskOk(s'.tasks[i]) { assert TaskOk(s.tasks[i]); }
  }
}

/** The scheduler's state and transitions, as values.

    `Scheduler.dfy` holds the class that updates this state in place; its methods are proved equal
    to the functions here, and what the source promises is proved about the functions. Every
    function is one critical section under the scheduler lock. */
module Tasks {
  import opened Wrappers

  const MAX_TASKS: nat := 32
  const MAX_CORES: nat := 2
  const NUM_PRIORITIES: nat := 49
  const IDLE_PRIORITY: nat := 48
  const DEFAULT_QUANTUM_MS: nat := 10

  /** `u32::MAX`: no task. */
  const NO_TASK: nat := 0xFFFF_FFFF

  datatype TaskState =
    | Init
    | Ready
    | Running
    | BlockedSend
    | BlockedRecv
    | BlockedMutex
    | BlockedSleep
    | Suspended
    | Deleting
    | Faulted

  datatype Affinity = Any | Core(core: nat)

  /** The fields of a task control block that scheduling reads or writes. A lower priority number
      is more urgent. */
  datatype Tcb = Tcb(
    affinity: Affinity,
    basePrio: nat,
    priority: nat,
    state: TaskState,
    quantum: nat,
    sleepUntil: nat,
    boostedFrom: Option<nat>,
    blockedOnMutex: Option<nat>)

  /** `readyMask` is the set of the mask's one bits. */
  datatype Sched = Sched(
    tasks: seq<Option<Tcb>>,
    current: seq<nat>,
    readyMask: set<nat>,
    lastRun: seq<nat>)

  predicate TaskOk(t: Option<Tcb>) {
    t.Some? ==> t.value.priority < NUM_PRIORITIES && t.value.basePrio < NUM_PRIORITIES
  }

  /** The shapes the source's fixed-size arrays and `u8` priorities give. */
  ghost predicate WellFormed(s: Sched) {
    && |s.tasks| == MAX_TASKS
    && |s.current| == MAX_CORES
    && |s.lastRun| == NUM_PRIORITIES
    && (forall i :: 0 <= i < MAX_TASKS ==> TaskOk(s.tasks[i]))
    && (forall c :: 0 <= c < MAX_CORES ==> s.current[c] == NO_TASK || s.current[c] < MAX_TASKS)
    && (forall p :: 0 <= p < NUM_PRIORITIES ==> s.lastRun[p] < MAX_TASKS)
  }

  predicate Live(s: Sched, id: nat) { id < |s.tasks| && s.tasks[id].Some? }

  function Task(s: Sched, id: nat): Tcb
    requires Live(s, id)
  {
    s.tasks[id].value
  }

  function Put(s: Sched, id: nat, t: Tcb): Sched
    requires Live(s, id)
  {
    s.(tasks := s.tasks[id := Some(t)])
  }

  predicate Active(t: Tcb) { t.state.Ready? || t.state.Running? }

  predicate Blocked(t: Tcb) {
    t.state.BlockedSend? || t.state.BlockedRecv? || t.state.BlockedMutex? || t.state.BlockedSleep?
  }

  predicate Allows(a: Affinity, core: nat) { a.Any? || a.core == core }

  predicate ActiveAt(s: Sched, p: nat) {
    exists i :: 0 <= i < |s.tasks| && s.tasks[i].Some? && Active(s.tasks[i].value) && s.tasks[i].value.priority == p
  }

  predicate BitExact(s: Sched, p: nat) { p in s.readyMask <==> ActiveAt(s, p) }

  /** Bit `p` is set exactly when some Ready or Running task has effective priority `p`. */
  ghost predicate MaskExact(s: Sched) {
    forall p: nat :: BitExact(s, p)
  }

  // ── Transitions ─────────────────────────────────────────────────────────────────────────────

  function RecomputeReadyBit(s: Sched, p: nat): Sched {
    s.(readyMask := if ActiveAt(s, p) then s.readyMask + {p} else s.readyMask - {p})
  }

  function MakeReady(s: Sched, id: nat): Sched {
    if !Live(s, id) then s
    else
      var t := Task(s, id);
      Put(s, id, t.(state := Ready, quantum := DEFAULT_QUANTUM_MS)).(readyMask := s.readyMask + {t.priority})
  }

  function SetCurrent(s: Sched, core: nat, id: nat): Sched
    requires core < |s.current|
  {
    var installed := s.(current := s.current[core := id]);
    if Live(s, id) then Put(installed, id, Task(s, id).(state := Running)) else installed
  }

  predicate Expired(t: Tcb, now: nat) {
    (t.state.BlockedSleep? || t.state.BlockedSend? || t.state.BlockedRecv?) && t.sleepUntil != 0 && t.sleepUntil <= now
  }

  function Woken(t: Tcb): Tcb { t.(state := Ready, quantum := DEFAULT_QUANTUM_MS, sleepUntil := 0) }

  function TickTask(t: Option<Tcb>, now: nat): Option<Tcb> {
    if t.Some? && Expired(t.value, now) then Some(Woken(t.value)) else t
  }

  /** The first half of `on_tick`: every expired wait becomes Ready. */
  function WakeExpired(s: Sched, now: nat): Sched {
    s.(tasks := seq(|s.tasks|, i requires 0 <= i < |s.tasks| => TickTask(s.tasks[i], now)),
       readyMask := s.readyMask +
         set i | 0 <= i < |s.tasks| && s.tasks[i].Some? && Expired(s.tasks[i].value, now) :: s.tasks[i].value.priority)
  }

  /** The second half: the running task's time slice. */
  function ChargeQuantum(s: Sched, core: nat): Sched
    requires core < |s.current|
  {
    var cur := s.current[core];
    if !Live(s, cur) then s
    else
      var q := Task(s, cur).quantum;
      Put(s, cur, Task(s, cur).(quantum := if q <= 1 then DEFAULT_QUANTUM_MS else q - 1))
  }

  function OnTick(s: Sched, core: nat, now: nat): Sched
    requires core < |s.current|
  {
    ChargeQuantum(WakeExpired(s, now), core)
  }

  function CurrentPriority(s: Sched, core: nat): nat
    requires core < |s.current|
  {
    if Live(s, s.current[core]) then Task(s, s.current[core]).priority else IDLE_PRIORITY
  }

  predicate AnotherReadyAt(s: Sched, p: nat, other: nat) {
    exists i ::
      && 0 <= i < |s.tasks| && i != other
      && s.tasks[i].Some? && s.tasks[i].value.priority == p && s.tasks[i].value.state.Ready?
  }

  /** Whether `on_tick` asks for a switch: something more urgent than the running task is marked
      ready, or the running task has used its slice and has a Ready peer. */
  predicate TickSwitches(s: Sched, core: nat, now: nat)
    requires core < |s.current|
  {
    var woken := WakeExpired(s, now);
    var cur := s.current[core];
    || (exists p :: p in woken.readyMask && p < CurrentPriority(s, core))
    || (Live(woken, cur) && Task(woken, cur).quantum <= 1 && Task(woken, cur).state.Running?
        && AnotherReadyAt(woken, Task(woken, cur).priority, cur))
  }

  predicate RunningElsewhere(s: Sched, id: nat, core: nat) {
    exists c :: 0 <= c < |s.current| && c != core && s.current[c] == id
  }

  /** A task this core may run now. */
  predicate Eligible(s: Sched, core: nat, id: nat) {
    && Live(s, id)
    && Active(Task(s, id))
    && Allows(Task(s, id).affinity, core)
    && !RunningElsewhere(s, id, core)
  }

  /** How many slots the round-robin scan passes over before it looks at `id`. */
  function Distance(last: nat, id: nat): nat
    requires last < MAX_TASKS && id < MAX_TASKS
  {
    if id > last then id - last - 1 else id + MAX_TASKS - last - 1
  }

  /** `r` is the task `schedule` chooses: eligible, at the most urgent level with an eligible task
      among the levels whose bit is set, and first after the last task dispatched there. */
  ghost predicate IsPick(s: Sched, core: nat, r: nat)
    requires WellFormed(s)
  {
    && Eligible(s, core, r)
    && Task(s, r).priority in s.readyMask
    && forall j: nat :: Eligible(s, core, j) && Task(s, j).priority in s.readyMask ==>
         || Task(s, r).priority < Task(s, j).priority
         || (Task(s, r).priority == Task(s, j).priority &&
             var last := s.lastRun[Task(s, r).priority];
             Distance(last, r) <= Distance(last, j))
  }

  /** The state `schedule` leaves when it answers `r`: a pick is recorded in its level's rotor. */
  ghost function Rotated(s: Sched, core: nat, r: nat): Sched
    requires WellFormed(s)
  {
    if IsPick(s, core, r) then s.(lastRun := s.lastRun[Task(s, r).priority := r]) else s
  }

  /** `schedule` may answer `r`: it is the pick, or there is no candidate and it is the current task. */
  ghost predicate Schedules(s: Sched, core: nat, r: nat)
    requires WellFormed(s) && core < MAX_CORES
  {
    || IsPick(s, core, r)
    || (r == s.current[core] && forall j: nat :: Eligible(s, core, j) ==> Task(s, j).priority !in s.readyMask)
  }

  /** Task `i` could take the core over from its current task. */
  predicate IsPeer(s: Sched, core: nat, i: nat)
    requires core < |s.current| && Live(s, s.current[core])
  {
    && Live(s, i) && i != s.current[core] && Task(s, i).state.Ready?
    && Task(s, i).priority <= Task(s, s.current[core]).priority
    && Allows(Task(s, i).affinity, core)
    && !RunningElsewhere(s, i, core)
  }

  predicate HasPeer(s: Sched, core: nat)
    requires core < |s.current| && Live(s, s.current[core])
  {
    exists i :: 0 <= i < |s.tasks| && IsPeer(s, core, i)
  }

  function YieldCurrent(s: Sched, core: nat): Sched
    requires core < |s.current|
  {
    var cur := s.current[core];
    if Live(s, cur) && HasPeer(s, core)
    then Put(s, cur, Task(s, cur).(state := Ready)).(readyMask := s.readyMask + {Task(s, cur).priority})
    else s
  }

  function BlockCurrent(s: Sched, core: nat, state: TaskState): Sched
    requires core < |s.current|
  {
    var cur := s.current[core];
    if !Live(s, cur) then s
    else RecomputeReadyBit(Put(s, cur, Task(s, cur).(state := state)), Task(s, cur).priority)
  }

  function BlockCurrentOnMutex(s: Sched, core: nat, addr: nat): Sched
    requires core < |s.current|
  {
    var cur := s.current[core];
    if !Live(s, cur) then s
    else
      var blocked := Task(s, cur).(state := BlockedMutex, blockedOnMutex := Some(addr));
      RecomputeReadyBit(Put(s, cur, blocked), Task(s, cur).priority)
  }

  function Unblock(s: Sched, id: nat): Sched {
    if Live(s, id) && Blocked(Task(s, id)) then
      Put(s, id, Task(s, id).(state := Ready, quantum := DEFAULT_QUANTUM_MS, blockedOnMutex := None))
      .(readyMask := s.readyMask + {Task(s, id).priority})
    else s
  }

  function SetEffectivePriority(s: Sched, id: nat, new_prio: nat): Sched {
    if !Live(s, id) || Task(s, id).priority == new_prio then s
    else
      var moved := RecomputeReadyBit(Put(s, id, Task(s, id).(priority := new_prio)), Task(s, id).priority);
      if Active(Task(s, id)) then moved.(readyMask := moved.readyMask + {new_prio}) else moved
  }

  function BoostPriority(s: Sched, id: nat, target: nat): Sched {
    if !Live(s, id) || target >= Task(s, id).priority then s
    else
      var t := Task(s, id);
      var noted := if t.boostedFrom.None? then Put(s, id, t.(boostedFrom := Some(t.priority))) else s;
      SetEffectivePriority(noted, id, target)
  }

  function SetInheritedPriority(s: Sched, id: nat, effective: nat): Sched {
    var moved := SetEffectivePriority(s, id, effective);
    if Live(moved, id) && effective >= Task(moved, id).basePrio
    then Put(moved, id, Task(moved, id).(boostedFrom := None))
    else moved
  }

  function BasePriority(s: Sched, id: nat): nat {
    if Live(s, id) then Task(s, id).basePrio else IDLE_PRIORITY
  }

  /** The dispatch half of a switch, once `schedule` has chosen `next`. */
  function Dispatch(s: Sched, core: nat, next: nat): Sched
    requires core < |s.current|
  {
    var cur := s.current[core];
    if next == cur then
      if Live(s, next) && Task(s, next).state.Ready? then SetCurrent(s, core, next) else s
    else if Live(s, cur) && Task(s, cur).state.Running? then
      var requeued := Put(s, cur, Task(s, cur).(state := Ready)).(readyMask := s.readyMask + {Task(s, cur).priority});
      SetCurrent(requeued, core, next)
    else SetCurrent(s, core, next)
  }

  /** `expect` on a missing block, or the panic "selected a blocked current task". */
  predicate DispatchPanics(s: Sched, core: nat, next: nat)
    requires core < |s.current|
  {
    if next == s.current[core] then !Live(s, next) || !Active(Task(s, next)) else !Live(s, next)
  }

  // ── The ready mask ──────────────────────────────────────────────────────────────────────────

  /** Replacing one block changes only the levels the old and the new block are active at. */
  lemma LevelsKept(s: Sched, s': Sched, id: nat, p: nat)
    requires Live(s, id) && Live(s', id) && s'.tasks == s.tasks[id := s'.tasks[id]]
    requires !(Active(Task(s, id)) && Task(s, id).priority == p)
      && !(Active(Task(s', id)) && Task(s', id).priority == p)
    ensures ActiveAt(s', p) <==> ActiveAt(s, p)
  {
    if i :| 0 <= i < |s.tasks| && s.tasks[i].Some? && Active(s.tasks[i].value) && s.tasks[i].value.priority == p {
      assert s'.tasks[i] == s.tasks[i];
    }
    if i :| 0 <= i < |s'.tasks| && s'.tasks[i].Some? && Active(s'.tasks[i].value) && s'.tasks[i].value.priority == p {
      assert s'.tasks[i] == s.tasks[i];
    }
  }

  lemma MaskAfterPut(s: Sched, s': Sched, id: nat)
    requires MaskExact(s) && Live(s, id)
    requires Live(s', id) && s'.tasks == s.tasks[id := s'.tasks[id]]
    requires forall p: nat :: p != Task(s, id).priority && p != Task(s', id).priority ==>
      (p in s'.readyMask <==> p in s.readyMask)
    requires BitExact(s', Task(s, id).priority) && BitExact(s', Task(s', id).priority)
    ensures MaskExact(s')
  {
    forall p: nat ensures BitExact(s', p) {
      assert BitExact(s, p);
      if p != Task(s, id).priority && p != Task(s', id).priority { LevelsKept(s, s', id, p); }
    }
  }

  /** `recompute_ready_bit` sets one bit to the truth whatever it was before. */
  lemma RecomputeIsExact(s: Sched, p: nat)
    ensures BitExact(RecomputeReadyBit(s, p), p)
    ensures forall q: nat :: q != p ==> (BitExact(RecomputeReadyBit(s, p), q) <==> BitExact(s, q))
  {
    var s' := RecomputeReadyBit(s, p);
    forall q: nat ensures ActiveAt(s', q) <==> ActiveAt(s, q) {}
  }

  lemma MakeReadyMask(s: Sched, id: nat)
    requires MaskExact(s)
    ensures MaskExact(MakeReady(s, id))
  {
    if Live(s, id) {
      var s' := MakeReady(s, id);
      assert s'.tasks[id].Some? && Active(s'.tasks[id].value);
      MaskAfterPut(s, s', id);
    }
  }

  lemma BlockMask(s: Sched, core: nat, state: TaskState)
    requires MaskExact(s) && core < |s.current|
    ensures MaskExact(BlockCurrent(s, core, state))
  {
    var cur := s.current[core];
    if Live(s, cur) {
      var s' := BlockCurrent(s, core, state);
      RecomputeIsExact(Put(s, cur, Task(s, cur).(state := state)), Task(s, cur).priority);
      MaskAfterPut(s, s', cur);
    }
  }

  lemma BlockOnMutexMask(s: Sched, core: nat, addr: nat)
    requires MaskExact(s) && core < |s.current|
    ensures MaskExact(BlockCurrentOnMutex(s, core, addr))
  {
    var cur := s.current[core];
    if Live(s, cur) {
      var s' := BlockCurrentOnMutex(s, core, addr);
      var blocked := Task(s, cur).(state := BlockedMutex, blockedOnMutex := Some(addr));
      RecomputeIsExact(Put(s, cur, blocked), Task(s, cur).priority);
      MaskAfterPut(s, s', cur);
    }
  }

  lemma UnblockMask(s: Sched, id: nat)
    requires MaskExact(s)
    ensures MaskExact(Unblock(s, id))
  {
    if Live(s, id) && Blocked(Task(s, id)) {
      var s' := Unblock(s, id);
      assert s'.tasks[id].Some? && Active(s'.tasks[id].value);
      MaskAfterPut(s, s', id);
    }
  }

  lemma YieldMask(s: Sched, core: nat)
    requires MaskExact(s) && core < |s.current|
    ensures MaskExact(YieldCurrent(s, core))
  {
    var cur := s.current[core];
    if Live(s, cur) && HasPeer(s, core) {
      var s' := YieldCurrent(s, core);
      assert s'.tasks[cur].Some? && Active(s'.tasks[cur].value);
      MaskAfterPut(s, s', cur);
    }
  }

  lemma SetEffectiveMask(s: Sched, id: nat, new_prio: nat)
    requires MaskExact(s)
    ensures MaskExact(SetEffectivePriority(s, id, new_prio))
  {
    if Live(s, id) && Task(s, id).priority != new_prio {
      var put := Put(s, id, Task(s, id).(priority := new_prio));
      var s' := SetEffectivePriority(s, id, new_prio);
      RecomputeIsExact(put, Task(s, id).priority);
      assert BitExact(s, new_prio);
      if Active(Task(s, id)) {
        assert s'.tasks[id].Some? && Active(s'.tasks[id].value);
      } else {
        LevelsKept(s, s', id, new_prio);
      }
      forall p: nat ensures BitExact(s', p) {
        assert BitExact(s, p);
        if p == Task(s, id).priority {
          assert ActiveAt(s', p) <==> ActiveAt(put, p);
        } else if p != new_prio {
          LevelsKept(s, s', id, p);
        }
      }
    }
  }

  /** Only the block's bookkeeping changes, so no level does. */
  lemma MaskKept(s: Sched, s': Sched)
    requires MaskExact(s) && s'.readyMask == s.readyMask && |s'.tasks| == |s.tasks|
    requires forall i :: 0 <= i < |s.tasks| ==> s'.tasks[i].Some? == s.tasks[i].Some?
    requires forall i :: 0 <= i < |s.tasks| && s.tasks[i].Some? ==>
               Active(s'.tasks[i].value) == Active(s.tasks[i].value)
                 && s'.tasks[i].value.priority == s.tasks[i].value.priority
    ensures MaskExact(s')
  {
    forall p: nat ensures BitExact(s', p) {
      assert BitExact(s, p);
      if i :| 0 <= i < |s.tasks| && s.tasks[i].Some? && Active(s.tasks[i].value) && s.tasks[i].value.priority == p {
        assert s'.tasks[i].Some?;
      }
      if i :| 0 <= i < |s'.tasks| && s'.tasks[i].Some? && Active(s'.tasks[i].value) && s'.tasks[i].value.priority == p {
        assert s.tasks[i].Some?;
      }
    }
  }

  lemma BoostMask(s: Sched, id: nat, target: nat)
    requires MaskExact(s)
    ensures MaskExact(BoostPriority(s, id, target))
  {
    if Live(s, id) && target < Task(s, id).priority {
      var t := Task(s, id);
      var noted := if t.boostedFrom.None? then Put(s, id, t.(boostedFrom := Some(t.priority))) else s;
      MaskKept(s, noted);
      SetEffectiveMask(noted, id, target);
    }
  }

  lemma SetInheritedMask(s: Sched, id: nat, effective: nat)
    requires MaskExact(s)
    ensures MaskExact(SetInheritedPriority(s, id, effective))
  {
    SetEffectiveMask(s, id, effective);
    MaskKept(SetEffectivePriority(s, id, effective), SetInheritedPriority(s, id, effective));
  }

  lemma TickMask(s: Sched, core: nat, now: nat)
    requires MaskExact(s) && core < |s.current|
    ensures MaskExact(OnTick(s, core, now))
  {
    var woken := WakeExpired(s, now);
    forall p: nat ensures BitExact(woken, p) {
      assert BitExact(s, p);
      if p in woken.readyMask {
        if p in s.readyMask {
          var i :| 0 <= i < |s.tasks| && s.tasks[i].Some? && Active(s.tasks[i].value) && s.tasks[i].value.priority == p;
          assert woken.tasks[i] == s.tasks[i];
        } else {
          var i :| 0 <= i < |s.tasks| && s.tasks[i].Some? && Expired(s.tasks[i].value, now)
            && s.tasks[i].value.priority == p;
          assert woken.tasks[i].value.state == Ready;
        }
      }
      if ActiveAt(woken, p) {
        var i :| 0 <= i < |s.tasks| && woken.tasks[i].Some? && Active(woken.tasks[i].value)
          && woken.tasks[i].value.priority == p;
        if Expired(s.tasks[i].value, now) { assert p in woken.readyMask; }
      }
    }
    MaskKept(woken, OnTick(s, core, now));
  }

  /** A running or ready task may be installed without touching the mask. */
  lemma SetCurrentMask(s: Sched, core: nat, id: nat)
    requires MaskExact(s) && core < |s.current| && (Live(s, id) ==> Active(Task(s, id)))
    ensures MaskExact(SetCurrent(s, core, id))
  {
    MaskKept(s, SetCurrent(s, core, id));
  }

  lemma DispatchMask(s: Sched, core: nat, next: nat)
    requires MaskExact(s) && core < |s.current| && !DispatchPanics(s, core, next) && Active(Task(s, next))
    ensures MaskExact(Dispatch(s, core, next))
  {
    var cur := s.current[core];
    if next == cur {
      SetCurrentMask(s, core, next);
    } else if Live(s, cur) && Task(s, cur).state.Running? {
      var requeued := Put(s, cur, Task(s, cur).(state := Ready)).(readyMask := s.readyMask + {Task(s, cur).priority});
      assert requeued.tasks[cur].Some? && Active(requeued.tasks[cur].value);
      MaskAfterPut(s, requeued, cur);
      SetCurrentMask(requeued, core, next);
    } else {
      SetCurrentMask(s, core, next);
    }
  }

  /** With an exact mask, `on_tick` never returns false while a Ready task outranks the running one. */
  lemma TickNeverMissesPreemption(s: Sched, core: nat, now: nat, id: nat)
    requires MaskExact(s) && core < |s.current|
    requires var woken := WakeExpired(s, now);
             Live(woken, id) && Task(woken, id).state.Ready? && Task(woken, id).priority < CurrentPriority(s, core)
    ensures TickSwitches(s, core, now)
  {
    var woken := WakeExpired(s, now);
    var p := Task(woken, id).priority;
    assert BitExact(s, p);
    if Expired(s.tasks[id].value, now) {
      assert p in woken.readyMask;
    } else {
      assert Active(s.tasks[id].value);
    }
  }

  /** The state after one tick on `core` at each of the given times. */
  function Ticks(s: Sched, core: nat, nows: seq<nat>): Sched
    requires core < |s.current|
    decreases |nows|
  {
    if nows == [] then s else Ticks(OnTick(s, core, nows[0]), core, nows[1..])
  }

  /** A tick leaves a Running task and a Ready one as they are, but for the slice of the core's own. */
  lemma TickCharges(s: Sched, core: nat, now: nat, id: nat)
    requires core < |s.current| && Live(s, id) && Active(Task(s, id))
    ensures
      var s', q := OnTick(s, core, now), Task(s, id).quantum;
      && s'.current == s.current && Live(s', id)
      && Task(s', id) == Task(s, id).(quantum :=
           if id != s.current[core] then q else if q <= 1 then DEFAULT_QUANTUM_MS else q - 1)
  {
  }

  /** Round robin within a level: a running task that keeps a Ready peer is asked to give way by the time
      its slice is used up, whatever else the ticks wake. */
  lemma {:induction false} SliceEnds(s: Sched, core: nat, nows: seq<nat>, peer: nat)
    requires core < |s.current| && Live(s, s.current[core]) && Task(s, s.current[core]).state.Running?
    requires Live(s, peer) && peer != s.current[core] && Task(s, peer).state.Ready?
    requires Task(s, peer).priority == Task(s, s.current[core]).priority
    requires 1 <= |nows| && Task(s, s.current[core]).quantum <= |nows|
    ensures exists i: nat :: AsksAt(s, core, nows, i)
    decreases |nows|
  {
    var cur := s.current[core];
    TickCharges(s, core, nows[0], cur);
    TickCharges(s, core, nows[0], peer);
    var s' := OnTick(s, core, nows[0]);
    if Task(s, cur).quantum <= 1 {
      var woken := WakeExpired(s, nows[0]);
      assert woken.tasks[cur] == s.tasks[cur] && woken.tasks[peer] == s.tasks[peer];
      assert nows[..0] == [];
      assert AsksAt(s, core, nows, 0);
    } else {
      hide OnTick, TickSwitches;
      SliceEnds(s', core, nows[1..], peer);
      var i: nat :| AsksAt(s', core, nows[1..], i);
      assert nows[..i + 1][1..] == nows[1..][..i];
      assert AsksAt(s, core, nows, i + 1);
    }
  }

  predicate AsksAt(s: Sched, core: nat, nows: seq<nat>, i: nat) {
    i < |nows| && core < |s.current| && core < |Ticks(s, core, nows[..i]).current|
      && TickSwitches(Ticks(s, core, nows[..i]), core, nows[i])
  }

  // ── Who runs ────────────────────────────────────────────────────────────────────────────────

  /** With an exact mask the level loop's shortcut costs nothing: the pick is the most urgent task
      the core may run at all. */
  lemma PickIsMostUrgent(s: Sched, core: nat, r: nat, j: nat)
    requires WellFormed(s) && MaskExact(s) && IsPick(s, core, r) && Eligible(s, core, j)
    ensures Task(s, r).priority <= Task(s, j).priority
  {
    assert BitExact(s, Task(s, j).priority);
    assert s.tasks[j].Some? && Active(s.tasks[j].value);
  }

  /** The scan order is total, so `schedule` has one answer in every state: the pick, or the current task when
      there is no candidate. */
  lemma ScheduleIsDetermined(s: Sched, core: nat, r: nat, r': nat)
    requires WellFormed(s) && core < MAX_CORES && Schedules(s, core, r) && Schedules(s, core, r')
    ensures r == r' && Rotated(s, core, r) == Rotated(s, core, r')
  {
  }

  lemma DistanceDrops(last: nat, r: nat, t: nat)
    requires last < MAX_TASKS && r < MAX_TASKS && t < MAX_TASKS
    requires r != t && Distance(last, r) <= Distance(last, t)
    ensures Distance(r, t) < Distance(last, t) < MAX_TASKS
  {
  }

  /** Each core has an idle task pinned to it that is always runnable, and a core that has joined
      runs a task it is allowed to run. A core with no current task has not joined. */
  predicate CoreOk(s: Sched, idle: seq<nat>, c: nat)
    requires c < |s.current| && c < |idle|
  {
    && Live(s, idle[c])
    && Active(Task(s, idle[c]))
    && Task(s, idle[c]).affinity == Core(c)
    && (s.current[c] != NO_TASK ==> Live(s, s.current[c]) && Allows(Task(s, s.current[c]).affinity, c))
  }

  /** A Running task is some core's current task. */
  predicate RunningOk(s: Sched, id: nat) {
    Live(s, id) && Task(s, id).state.Running? ==> id in s.current
  }

  ghost predicate CoresOk(s: Sched, idle: seq<nat>)
    requires WellFormed(s)
  {
    && |idle| == MAX_CORES
    && (forall c: nat :: c < MAX_CORES ==> CoreOk(s, idle, c))
    && (s.current[0] == NO_TASK || s.current[0] != s.current[1])
    && (forall id: nat :: id < MAX_TASKS ==> RunningOk(s, id))
  }

  /** Every switch on a joined core installs a runnable task allowed there, with no more urgent
      eligible task passed over; the "selected a blocked current task" panic cannot fire, and
      afterwards no task is current on two cores. */
  lemma SwitchIsSafe(s: Sched, idle: seq<nat>, core: nat, next: nat)
    requires WellFormed(s) && MaskExact(s) && CoresOk(s, idle) && core < MAX_CORES
    requires Schedules(s, core, next)
    ensures IsPick(s, core, next)
    ensures forall j: nat :: Eligible(s, core, j) ==> Task(s, next).priority <= Task(s, j).priority
    ensures !DispatchPanics(Rotated(s, core, next), core, next)
    ensures
      var s' := Dispatch(Rotated(s, core, next), core, next);
      && WellFormed(s') && MaskExact(s') && CoresOk(s', idle)
      && s'.current == s.current[core := next]
      && Task(s', next).state == Running
  {
    assert CoreOk(s, idle, core) && CoreOk(s, idle, 1 - core);
    assert Eligible(s, core, idle[core]);
    assert BitExact(s, Task(s, idle[core]).priority);
    var scheduled := Rotated(s, core, next);
    forall j: nat | Eligible(s, core, j) ensures Task(s, next).priority <= Task(s, j).priority {
      PickIsMostUrgent(s, core, next, j);
    }
    forall p: nat ensures BitExact(scheduled, p) { assert BitExact(s, p); }
    DispatchMask(scheduled, core, next);
    DispatchCores(s, idle, core, next, scheduled);
  }

  /** What a dispatch does to the task table. */
  lemma DispatchEffect(s: Sched, core: nat, next: nat)
    requires |s.tasks| == MAX_TASKS && core < |s.current| && Live(s, next) && Active(Task(s, next))
    ensures
      var s' := Dispatch(s, core, next);
      var cur := s.current[core];
      && |s'.tasks| == MAX_TASKS
      && s'.current == s.current[core := next]
      && s'.lastRun == s.lastRun
      && s'.tasks[next] == Some(Task(s, next).(state := Running))
      && (forall id :: 0 <= id < MAX_TASKS && id != next && id != cur ==> s'.tasks[id] == s.tasks[id])
      && (cur != next && cur < MAX_TASKS ==>
            s'.tasks[cur] == if Live(s, cur) && Task(s, cur).state.Running?
                             then Some(Task(s, cur).(state := Ready)) else s.tasks[cur])
  {
  }

  lemma DispatchCores(s: Sched, idle: seq<nat>, core: nat, next: nat, scheduled: Sched)
    requires WellFormed(s) && CoresOk(s, idle) && core < MAX_CORES
    requires IsPick(s, core, next) && scheduled == s.(lastRun := s.lastRun[Task(s, next).priority := next])
    ensures
      var s' := Dispatch(scheduled, core, next);
      && WellFormed(s') && CoresOk(s', idle)
      && s'.current == s.current[core := next]
      && Task(s', next).state == Running
  {
    hide Dispatch;
    DispatchEffect(scheduled, core, next);
    var s' := Dispatch(scheduled, core, next);
    assert s.current[1 - core] != next by { assert !RunningElsewhere(s, next, core); }
    assert Live(s, next) && Active(Task(s, next)) && Allows(Task(s, next).affinity, core);
    hide IsPick, Eligible;
    assert s'.current[core] == next && s'.current[1 - core] == s.current[1 - core];
    forall id: nat | id < MAX_TASKS ensures TaskOk(s'.tasks[id]) { assert TaskOk(s.tasks[id]); }
    forall id: nat | id < MAX_TASKS ensures RunningOk(s', id) { StillCurrent(s, s', core, next, id); }
    forall c: nat | c < MAX_CORES ensures CoreOk(s', idle, c) { assert CoreOk(s, idle, c); }
  }

  /** Whatever still runs after a switch is current on the other core, or has been switched to. */
  lemma StillCurrent(s: Sched, s': Sched, core: nat, next: nat, id: nat)
    requires core < MAX_CORES == |s.current| && |s.tasks| == |s'.tasks| == MAX_TASKS && id < MAX_TASKS
    requires s'.current == s.current[core := next] && RunningOk(s, id)
    requires id != next && id != s.current[core] ==> s'.tasks[id] == s.tasks[id]
    requires id != next && id == s.current[core] ==> !(Live(s', id) && Task(s', id).state.Running?)
    ensures RunningOk(s', id)
  {
    assert s'.current[core] == next && s'.current[1 - core] == s.current[1 - core];
  }

  // ── Frames ──────────────────────────────────────────────────────────────────────────────────

  /** The fields the running-set invariant reads; a task may stop running. */
  ghost predicate SameRunning(s: Sched, s': Sched, idle: seq<nat>) {
    && |s'.tasks| == |s.tasks|
    && s'.current == s.current
    && forall i: nat :: i < |s.tasks| ==>
         && s'.tasks[i].Some? == s.tasks[i].Some?
         && (s.tasks[i].Some? ==> RunningKept(s.tasks[i].value, s'.tasks[i].value, i in idle))
  }

  predicate RunningKept(t: Tcb, t': Tcb, isIdle: bool) {
    && t'.affinity == t.affinity
    && (t'.state.Running? ==> t.state.Running?)
    && (isIdle && Active(t) ==> Active(t'))
  }

  lemma SameCores(s: Sched, s': Sched, idle: seq<nat>)
    requires WellFormed(s) && WellFormed(s') && CoresOk(s, idle) && SameRunning(s, s', idle)
    ensures CoresOk(s', idle)
  {
    forall c: nat | c < MAX_CORES ensures CoreOk(s', idle, c) { assert CoreOk(s, idle, c); }
    forall id: nat | id < MAX_TASKS ensures RunningOk(s', id) { assert RunningOk(s, id); }
  }

  /** A new block that is not yet runnable belongs to no level. */
  lemma AddedMask(s: Sched, id: nat, block: Tcb)
    requires MaskExact(s) && id < |s.tasks| && s.tasks[id].None? && !Active(block)
    ensures MaskExact(s.(tasks := s.tasks[id := Some(block)]))
  {
    var added := s.(tasks := s.tasks[id := Some(block)]);
    forall p: nat ensures BitExact(added, p) {
      assert BitExact(s, p);
      if i :| 0 <= i < |s.tasks| && s.tasks[i].Some? && Active(s.tasks[i].value) && s.tasks[i].value.priority == p {
        assert added.tasks[i] == s.tasks[i];
      }
      if ActiveAt(added, p) {
        var i :| 0 <= i < |added.tasks| && added.tasks[i].Some? && Active(added.tasks[i].value)
                 && added.tasks[i].value.priority == p;
        assert added.tasks[i] == s.tasks[i];
      }
    }
  }

  // ── Emptying a slot ─────────────────────────────────────────────────────────────────────────

  /** Emptying a slot leaves every other level's exactness alone. */
  lemma ClearLevels(s: Sched, id: nat, p: nat)
    requires Live(s, id) && !(Active(Task(s, id)) && Task(s, id).priority == p)
    ensures ActiveAt(s.(tasks := s.tasks[id := None]), p) <==> ActiveAt(s, p)
  {
    var s' := s.(tasks := s.tasks[id := None]);
    if i :| 0 <= i < |s.tasks| && s.tasks[i].Some? && Active(s.tasks[i].value) && s.tasks[i].value.priority == p {
      assert s'.tasks[i] == s.tasks[i];
    }
    if i :| 0 <= i < |s'.tasks| && s'.tasks[i].Some? && Active(s'.tasks[i].value) && s'.tasks[i].value.priority == p {
      assert s'.tasks[i] == s.tasks[i];
    }
  }

  lemma ClearMask(s: Sched, id: nat)
    requires MaskExact(s) && Live(s, id)
    ensures MaskExact(RecomputeReadyBit(s.(tasks := s.tasks[id := None]), Task(s, id).priority))
    ensures !Active(Task(s, id)) ==> MaskExact(s.(tasks := s.tasks[id := None]))
  {
    var s' := s.(tasks := s.tasks[id := None]);
    RecomputeIsExact(s', Task(s, id).priority);
    forall p: nat ensures p != Task(s, id).priority || !Active(Task(s, id)) ==> BitExact(s', p) {
      assert BitExact(s, p);
      if p != Task(s, id).priority || !Active(Task(s, id)) { ClearLevels(s, id, p); }
    }
  }

  /** A task no core runs, other than an idle task, can be taken out of the table. */
  lemma ClearCores(s: Sched, s': Sched, idle: seq<nat>, id: nat)
    requires WellFormed(s) && CoresOk(s, idle) && id < MAX_TASKS && id !in idle && id !in s.current
    requires s'.tasks == s.tasks[id := None] && s'.current == s.current && s'.lastRun == s.lastRun
    ensures WellFormed(s') && CoresOk(s', idle)
  {
    forall i | 0 <= i < MAX_TASKS ensures TaskOk(s'.tasks[i]) && RunningOk(s', i) {
      assert TaskOk(s.tasks[i]) && RunningOk(s, i);
    }
    forall c: nat | c < MAX_CORES ensures CoreOk(s', idle, c) { assert CoreOk(s, idle, c); }
  }
}

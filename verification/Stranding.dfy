/** A task blocked on a queue without a deadline and listed nowhere stays blocked for ever. */
module Stranding {
  import opened Wrappers
  import opened Sequences
  import opened Tasks
  import opened Inheritance
  import opened Waiters
  import opened Kernel
  import opened Purging

  predicate ListedNowhere(k: State, t: nat) {
    forall a :: a in k.lists ==> t !in k.lists[a].send && t !in k.lists[a].recv
  }

  predicate NoMutexWaiter(k: State, t: nat) {
    forall a :: a in k.mutexes ==> t !in k.mutexes[a].waiters
  }

  /** Blocked in a queue wait that no wake, no tick and no unlock can end. */
  predicate Stranded(k: State, t: nat) {
    && Live(k.s, t)
    && (Task(k.s, t).state.BlockedSend? || Task(k.s, t).state.BlockedRecv?)
    && Task(k.s, t).sleepUntil == 0
    && t !in k.s.current && t !in k.idle
    && ListedNowhere(k, t) && NoMutexWaiter(k, t)
  }

  /** The task's block is what it was, but for its priority. */
  predicate SleepsOn(s: Sched, s': Sched, t: nat)
    requires Live(s, t)
  {
    && Live(s', t) && Task(s', t).state == Task(s, t).state && Task(s', t).sleepUntil == Task(s, t).sleepUntil
    && t !in s'.current
  }

  lemma LockStrands(k: State, core: nat, addr: nat, inInterrupt: bool, t: nat)
    requires Stranded(k, t) && Enabled(k, LockMutex(core, addr, inInterrupt))
    ensures Stranded(Apply(k, LockMutex(core, addr, inInterrupt)), t)
  {
    hide WellFormed;
    var s, m := k.s, k.mutexes;
    if addr in m {
      var target := if Live(s, s.current[core]) then Task(s, s.current[core]).priority else IDLE_PRIORITY;
      BoostChainBoosts(s, m, m[addr].owner, target, MAX_MUTEXES);
      hide BoostChain, Visited;
    }
  }

  lemma UnlockStrands(k: State, core: nat, addr: nat, t: nat)
    requires Stranded(k, t) && Enabled(k, UnlockMutex(core, addr))
    ensures Stranded(Apply(k, UnlockMutex(core, addr)), t)
  {
    hide WellFormed;
    var s, m := k.s, k.mutexes;
    var cur := s.current[core];
    if addr in m && m[addr].owner == cur {
      var (handed, m') := Handover(s, m, addr);
      HandoverStrands(s, m, addr, t);
      assert Live(handed, cur);
      SetInheritedEffect(handed, cur, Inherited(handed, m', cur));
      hide Inherited, SetInheritedPriority, Handover;
    }
  }

  lemma HandoverStrands(s: Sched, m: Table, addr: nat, t: nat)
    requires addr in m && Live(s, t) && t !in s.current && forall a :: a in m ==> t !in m[a].waiters
    ensures
      var (handed, m') := Handover(s, m, addr);
      && SleepsOn(s, handed, t) && handed.current == s.current && (forall i: nat :: Live(handed, i) == Live(s, i))
      && (forall a :: a in m' ==> t !in m'[a].waiters)
  {
  }

  lemma SwitchStrands(k: State, core: nat, next: nat, t: nat)
    requires Stranded(k, t) && Enabled(k, Switch(core, next))
    ensures Stranded(Apply(k, Switch(core, next)), t)
  {
    assert next != t;
    hide IsPick, Schedules;
  }

  lemma WakeStrands(k: State, addr: nat, send: bool, t: nat)
    requires Stranded(k, t) && Enabled(k, WakeWaiter(addr, send))
    ensures Stranded(Apply(k, WakeWaiter(addr, send)), t)
  {
    var list := ListOf(k.lists, addr, send);
    assert t !in list;
    hide FirstBlocked, WellFormed;
  }

  lemma EnrolStrands(k: State, core: nat, addr: nat, send: bool, deadline: nat, t: nat)
    requires Stranded(k, t) && Enabled(k, EnrolOn(core, addr, send, deadline))
    ensures Stranded(Apply(k, EnrolOn(core, addr, send, deadline)), t)
  {
    EnrolEffect(k.s, k.lists, core, addr, send, deadline);
    EnrolLists(k, core, addr, send, deadline, t);
    hide WellFormed, Enrol, ListedNowhere;
  }

  lemma EnrolLists(k: State, core: nat, addr: nat, send: bool, deadline: nat, t: nat)
    requires ListedNowhere(k, t) && core < |k.s.current| && t !in k.s.current
    ensures ListedNowhere(k.(lists := Enrol(k.s, k.lists, core, addr, send, deadline).1), t)
  {
    hide BlockCurrent;
  }

  lemma ResumeStrands(k: State, core: nat, t: nat)
    requires Stranded(k, t) && Enabled(k, ResumeWait(core))
    ensures Stranded(Apply(k, ResumeWait(core)), t)
  {
    hide WellFormed;
  }

  lemma SchedulerStrands(k: State, step: Label, t: nat)
    requires Stranded(k, t) && Enabled(k, step)
    requires step.Yield? || step.Sleep? || step.Suspend? || step.Spawn?
    ensures Stranded(Apply(k, step), t)
  {
    assert !step.Spawn? ==> Current(k, step.core) != t;
    hide WellFormed, ActiveAt, HasPeer;
  }

  lemma JoinStrands(k: State, core: nat, t: nat)
    requires Stranded(k, t) && Enabled(k, JoinCore(core))
    ensures Stranded(Apply(k, JoinCore(core)), t)
  {
    assert k.idle[core] != t;
    hide WellFormed;
  }

  lemma TickStrands(k: State, core: nat, now: nat, t: nat)
    requires Stranded(k, t) && Enabled(k, Tick(core, now))
    ensures Stranded(Apply(k, Tick(core, now)), t)
  {
    assert Current(k, core) != t;
    assert WakeExpired(k.s, now).tasks[t] == k.s.tasks[t];
    hide WakeExpired, WellFormed;
  }

  lemma SectionStrands(k: State, step: Label, t: nat)
    requires Stranded(k, t) && Enabled(k, step)
    ensures Stranded(Apply(k, step), t)
  {
    hide Stranded, Enabled, Apply;
    match step
    case LockMutex(core, addr, inInterrupt) => LockStrands(k, core, addr, inInterrupt, t);
    case UnlockMutex(core, addr) => UnlockStrands(k, core, addr, t);
    case EnrolOn(core, addr, send, deadline) => EnrolStrands(k, core, addr, send, deadline, t);
    case ResumeWait(core) => ResumeStrands(k, core, t);
    case WakeWaiter(addr, send) => WakeStrands(k, addr, send, t);
    case Switch(core, next) => SwitchStrands(k, core, next, t);
    case Tick(core, now) => TickStrands(k, core, now, t);
    case JoinCore(core) => JoinStrands(k, core, t);
    case _ => SchedulerStrands(k, step, t);
  }

  lemma PurgeStrands(k: State, id: nat, t: nat)
    requires Stranded(k, t)
    ensures Stranded(k.(lists := Forget(k.lists, id)), t)
  {
  }

  /** No step but its own deletion ends a stranded task's wait. */
  lemma StepStrands(w: World, step: Step, reuse: bool, t: nat)
    requires Stranded(w.k, t) && Allowed(w, step, reuse) && !(step.Delete? && step.id == t)
    ensures Stranded(Act(w, step, reuse).k, t)
  {
    match step
    case Delete(core, id) =>
    case DeleteSelf(core) => assert Current(w.k, core) != t;
    case Reap(core, id) =>
    case Purge(core) => PurgeStrands(w.k, w.purging[Current(w.k, core)], t);
    case Section(section) => SectionStrands(w.k, section, t);
  }

  /** So it is blocked in every later state of the run, until it is deleted. */
  lemma {:induction false} StrandedForEver(worlds: seq<World>, steps: seq<Step>, reuse: bool, i: nat, j: nat, t: nat)
    requires IsRun(worlds, steps, reuse) && i <= j < |worlds| && Stranded(worlds[i].k, t)
    requires forall m :: i <= m < j ==> !(steps[m].Delete? && steps[m].id == t)
    ensures Stranded(worlds[j].k, t) && Live(worlds[j].k.s, t) && !Active(Task(worlds[j].k.s, t))
    decreases j
  {
    hide Act, Allowed;
    if i < j {
      StrandedForEver(worlds, steps, reuse, i, j - 1, t);
      assert Follows(worlds[j - 1], steps[j - 1], worlds[j], reuse);
      StepStrands(worlds[j - 1], steps[j - 1], reuse, t);
    }
  }
}

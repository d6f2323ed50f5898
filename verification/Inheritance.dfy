/** The priority-inheritance mutex, as values.

    The table maps each allocated address to its owner and its waiters in arrival order; an address
    that is not a key is a free slot. `MutexTable.dfy` holds the sixteen-entry array that represents
    it. Every function is one critical section under the scheduler lock. */
module Inheritance {
  import opened Wrappers
  import opened Sequences
  import opened Tasks

  const MAX_MUTEXES: nat := 16
  const MAX_WAITERS: nat := 8

  datatype Entry = Entry(owner: nat, waiters: seq<nat>)

  type Table = map<nat, Entry>

  datatype Outcome = Acquired | Enqueued | Failed

  /** `priority` as the mutex code reads it: a missing block counts as `u8::MAX`. */
  function Urgency(s: Sched, id: nat): nat {
    if Live(s, id) then Task(s, id).priority else 255
  }

  /** The task that `id` is waiting for: the owner of the mutex it is blocked on. */
  function Next(s: Sched, m: Table, id: nat): Option<nat> {
    if Live(s, id) && Task(s, id).blockedOnMutex.Some? && Task(s, id).blockedOnMutex.value in m
    then Some(m[Task(s, id).blockedOnMutex.value].owner)
    else None
  }

  /** `boost_chain`, with `steps` iterations left. */
  function BoostChain(s: Sched, m: Table, id: nat, target: nat, steps: nat): (r: Sched)
    ensures r.current == s.current && |r.tasks| == |s.tasks|
    decreases steps
  {
    if steps == 0 then s
    else
      var boosted := BoostPriority(s, id, target);
      match Next(boosted, m, id)
      case None => boosted
      case Some(owner) => if owner == id then boosted else BoostChain(boosted, m, owner, target, steps - 1)
  }

  function Lock(s: Sched, m: Table, core: nat, addr: nat, inInterrupt: bool): (Sched, Table, Outcome)
    requires core < |s.current|
  {
    var cur := s.current[core];
    if inInterrupt then (s, m, Failed)
    else if addr !in m then
      if |m| < MAX_MUTEXES then (s, m[addr := Entry(cur, [])], Acquired) else (s, m, Failed)
    else if m[addr].owner == cur || |m[addr].waiters| >= MAX_WAITERS then (s, m, Failed)
    else
      var target := if Live(s, cur) then Task(s, cur).priority else IDLE_PRIORITY;
      var boosted := BoostChain(s, m, m[addr].owner, target, MAX_MUTEXES);
      (BlockCurrentOnMutex(boosted, core, addr), m[addr := m[addr].(waiters := m[addr].waiters + [cur])], Enqueued)
  }

  /** Task `t` calls `lock` in an interrupt, or owns the mutex already, or eight tasks wait for it, or the mutex
      is free and sixteen others are not. */
  predicate MustRefuse(m: Table, t: nat, addr: nat, inInterrupt: bool) {
    || inInterrupt
    || (addr in m && (m[addr].owner == t || |m[addr].waiters| >= 8))
    || (addr !in m && |m| >= 16)
  }

  /** A refusal changes nothing; a free mutex is the caller's at once, and nothing else changes. */
  predicate AnswersLock(s: Sched, m: Table, t: nat, addr: nat, inInterrupt: bool, s': Sched, m': Table,
      outcome: Outcome)
  {
    && (outcome.Failed? <==> MustRefuse(m, t, addr, inInterrupt))
    && (outcome.Enqueued? ==> addr in m)
    && (outcome.Acquired? ==> addr !in m && m' == m[addr := Entry(t, [])])
    && (!outcome.Enqueued? ==> s' == s)
    && (outcome.Failed? ==> m' == m)
  }

  lemma LockAnswersExactly(s: Sched, m: Table, core: nat, addr: nat, inInterrupt: bool)
    requires core < |s.current|
    ensures
      var (s', m', outcome) := Lock(s, m, core, addr, inInterrupt);
      AnswersLock(s, m, s.current[core], addr, inInterrupt, s', m', outcome)
  {
  }

  /** The first of the most urgent waiters. */
  function BestWaiter(s: Sched, waiters: seq<nat>): (best: nat)
    requires waiters != []
    ensures best < |waiters|
    ensures forall j :: 0 <= j < |waiters| ==> Urgency(s, waiters[best]) <= Urgency(s, waiters[j])
    ensures forall j :: 0 <= j < best ==> Urgency(s, waiters[best]) < Urgency(s, waiters[j])
  {
    if |waiters| == 1 then 0
    else
      var front := waiters[..|waiters| - 1];
      var best := BestWaiter(s, front);
      assert forall j :: 0 <= j < |front| ==> front[j] == waiters[j];
      if Urgency(s, waiters[|waiters| - 1]) < Urgency(s, waiters[best]) then |waiters| - 1 else best
  }

  /** An id whose block is gone counts as less urgent than any task, and boosts nobody. */
  lemma MissingIsLeastUrgent(s: Sched, gone: nat, id: nat)
    requires WellFormed(s) && !Live(s, gone) && Live(s, id)
    ensures Urgency(s, id) == Task(s, id).priority < Urgency(s, gone)
    ensures BasePriority(s, id) == Task(s, id).basePrio <= BasePriority(s, gone) == 48
  {
    assert TaskOk(s.tasks[id]);
  }

  /** Priorities of the tasks waiting on any mutex `owner` holds. */
  function WaiterUrgencies(s: Sched, m: Table, owner: nat): set<nat> {
    set a, w | a in m && m[a].owner == owner && w in m[a].waiters :: Urgency(s, w)
  }

  ghost function Least(xs: set<nat>): (least: nat)
    requires xs != {}
    ensures least in xs && forall x :: x in xs ==> least <= x
  {
    var x :| x in xs;
    assert forall y :: y in xs ==> y == x || y in xs - {x};
    if xs - {x} == {} then x
    else
      var rest := Least(xs - {x});
      if x < rest then x else rest
  }

  /** The strongest of the owner's base priority and every waiter on every mutex it holds. */
  ghost function Inherited(s: Sched, m: Table, owner: nat): nat {
    Least({BasePriority(s, owner)} + WaiterUrgencies(s, m, owner))
  }

  /** `unlock`, and whether it asks for a switch. A refused unlock changes nothing (debug builds
      panic instead). */
  ghost function Unlock(s: Sched, m: Table, core: nat, addr: nat): (Sched, Table, bool)
    requires core < |s.current|
  {
    var cur := s.current[core];
    if addr !in m || m[addr].owner != cur then (s, m, false)
    else
      var (handed, m') := Handover(s, m, addr);
      (SetInheritedPriority(handed, cur, Inherited(handed, m', cur)), m', true)
  }

  /** The mutex passes to its best waiter, which becomes Ready, or its slot becomes free. */
  function Handover(s: Sched, m: Table, addr: nat): (Sched, Table)
    requires addr in m
  {
    var waiters := m[addr].waiters;
    if waiters == [] then (s, m - {addr})
    else
      var best := BestWaiter(s, waiters);
      (Unblock(s, waiters[best]), m[addr := Entry(waiters[best], RemoveAt(waiters, best))])
  }

  // ── Consistency of the table with the task table ────────────────────────────────────────────

  ghost predicate EntryOk(s: Sched, m: Table, a: nat)
    requires a in m
  {
    && a != 0
    && Live(s, m[a].owner)
    && m[a].owner !in m[a].waiters
    && |m[a].waiters| <= MAX_WAITERS
    && Distinct(m[a].waiters)
    && forall w :: w in m[a].waiters ==> Live(s, w) && Task(s, w).blockedOnMutex == Some(a)
  }

  predicate WaitOk(s: Sched, m: Table, id: nat) {
    Live(s, id) ==>
      && (Task(s, id).state.BlockedMutex? <==> Task(s, id).blockedOnMutex.Some?)
      && (Task(s, id).blockedOnMutex.Some? ==>
            var a := Task(s, id).blockedOnMutex.value; a in m && id in m[a].waiters)
  }

  /** An address is allocated exactly while it is owned, and a task is BlockedMutex on an address
      exactly when it is listed, once, among that address's waiters. */
  ghost predicate TableOk(s: Sched, m: Table) {
    && |m| <= MAX_MUTEXES
    && (forall a :: a in m ==> EntryOk(s, m, a))
    && (forall id: nat :: WaitOk(s, m, id))
  }

  // ── Exactness of the inherited priorities ───────────────────────────────────────────────────

  /** Where `k` steps along the wait chain from `id` lead. */
  function Chain(s: Sched, m: Table, id: nat, k: nat): Option<nat> {
    if k == 0 then Some(id)
    else
      var prev := Chain(s, m, id, k - 1);
      if prev.None? then None else Next(s, m, prev.value)
  }

  /** `x` is `id`, or is blocked behind it, directly or through other owners. */
  ghost predicate Behind(s: Sched, m: Table, x: nat, id: nat) {
    exists k: nat :: Chain(s, m, x, k) == Some(id)
  }

  /** Some task behind `id` (perhaps `id` itself) has exactly `id`'s effective priority as its base. */
  ghost predicate Justified(s: Sched, m: Table, id: nat)
    requires Live(s, id)
  {
    exists x: nat :: Live(s, x) && Task(s, x).basePrio == Task(s, id).priority && Behind(s, m, x, id)
  }

  /** No boost is missing and none is left over. */
  ghost predicate BoostOk(s: Sched, m: Table, id: nat) {
    Live(s, id) ==>
      var t := Task(s, id);
      && t.priority <= t.basePrio
      && (Next(s, m, id).Some? ==> Urgency(s, Next(s, m, id).value) <= t.priority)
      && Justified(s, m, id)
      && t.boostedFrom == if t.priority < t.basePrio then Some(t.basePrio) else None
  }

  ghost predicate PrioritiesOk(s: Sched, m: Table) {
    forall id: nat :: BoostOk(s, m, id)
  }

  lemma {:induction false} BehindIsMoreUrgent(s: Sched, m: Table, x: nat, id: nat, k: nat)
    requires TableOk(s, m) && PrioritiesOk(s, m)
    requires Live(s, x) && Chain(s, m, x, k) == Some(id)
    ensures Live(s, id) && Task(s, id).priority <= Task(s, x).priority <= Task(s, x).basePrio
    decreases k
  {
    assert BoostOk(s, m, x);
    if k > 0 {
      var prev := Chain(s, m, x, k - 1).value;
      BehindIsMoreUrgent(s, m, x, prev, k - 1);
      assert BoostOk(s, m, prev) && WaitOk(s, m, prev);
      assert EntryOk(s, m, Task(s, prev).blockedOnMutex.value);
    }
  }

  /** The closed form: a task's effective priority is the most urgent base priority among itself and
      every task transitively blocked behind it, whether or not the wait graph has cycles. In
      particular the runnable end of a wait chain is at least as urgent as all of them. */
  lemma EffectivePriorityIsExact(s: Sched, m: Table, id: nat)
    requires TableOk(s, m) && PrioritiesOk(s, m) && Live(s, id)
    ensures forall x: nat :: Live(s, x) && Behind(s, m, x, id) ==> Task(s, id).priority <= Task(s, x).basePrio
    ensures exists x: nat :: Live(s, x) && Behind(s, m, x, id) && Task(s, id).priority == Task(s, x).basePrio
  {
    forall x: nat | Live(s, x) && Behind(s, m, x, id) ensures Task(s, id).priority <= Task(s, x).basePrio {
      var k: nat :| Chain(s, m, x, k) == Some(id);
      BehindIsMoreUrgent(s, m, x, id, k);
    }
    assert BoostOk(s, m, id);
  }

  /** The local form, which is what one recompute establishes: the minimum of the base priority and
      the effective priorities of all waiters on all mutexes the task owns. */
  lemma EffectivePriorityIsInherited(s: Sched, m: Table, id: nat)
    requires TableOk(s, m) && PrioritiesOk(s, m) && Live(s, id)
    ensures Task(s, id).priority == Inherited(s, m, id)
  {
    hide Chain, Behind, Justified;
    NoWaiterOutranks(s, m, id);
    PriorityIsOwed(s, m, id);
  }

  lemma NoWaiterOutranks(s: Sched, m: Table, id: nat)
    requires TableOk(s, m) && PrioritiesOk(s, m) && Live(s, id)
    ensures forall q :: q in {BasePriority(s, id)} + WaiterUrgencies(s, m, id) ==> Task(s, id).priority <= q
  {
    hide Chain, Behind, Justified;
    assert BoostOk(s, m, id);
    forall q | q in WaiterUrgencies(s, m, id) ensures Task(s, id).priority <= q {
      var a, w :| a in m && m[a].owner == id && w in m[a].waiters && q == Urgency(s, w);
      assert EntryOk(s, m, a) && BoostOk(s, m, w);
    }
  }

  lemma PriorityIsOwed(s: Sched, m: Table, id: nat)
    requires TableOk(s, m) && PrioritiesOk(s, m) && Live(s, id)
    ensures Task(s, id).priority in {BasePriority(s, id)} + WaiterUrgencies(s, m, id)
  {
    assert BoostOk(s, m, id);
    var x: nat :| Live(s, x) && Task(s, x).basePrio == Task(s, id).priority && Behind(s, m, x, id);
    var k: nat :| Chain(s, m, x, k) == Some(id);
    hide TableOk, PrioritiesOk, Behind, WaiterUrgencies;
    if k > 0 { OwedByWaiter(s, m, x, id, k); }
  }

  /** If the priority comes from somebody else, the last task on the way here waits for this one and has it. */
  lemma OwedByWaiter(s: Sched, m: Table, x: nat, id: nat, k: nat)
    requires TableOk(s, m) && PrioritiesOk(s, m) && Live(s, id) && Live(s, x) && k > 0
    requires Chain(s, m, x, k) == Some(id) && Task(s, x).basePrio == Task(s, id).priority
    ensures Task(s, id).priority in WaiterUrgencies(s, m, id)
  {
    var w := Chain(s, m, x, k - 1).value;
    BehindIsMoreUrgent(s, m, x, w, k - 1);
    assert WaitOk(s, m, w) && BoostOk(s, m, w);
    hide TableOk, PrioritiesOk, WaiterUrgencies, Justified, WaitOk;
    assert Next(s, m, w) == Some(id);
    WaiterIsCounted(s, m, w, id);
  }

  lemma WaiterIsCounted(s: Sched, m: Table, w: nat, id: nat)
    requires Live(s, w) && WaitOk(s, m, w) && Next(s, m, w) == Some(id)
    ensures Urgency(s, w) in WaiterUrgencies(s, m, id)
  {
    var a := Task(s, w).blockedOnMutex.value;
    assert a in m && m[a].owner == id && w in m[a].waiters;
  }

  // ── The bounded walk ────────────────────────────────────────────────────────────────────────

  /** The tasks `boost_chain` visits in `steps` iterations. */
  function Visited(s: Sched, m: Table, id: nat, steps: nat): set<nat>
    decreases steps
  {
    if steps == 0 then {}
    else
      match Next(s, m, id)
      case None => {id}
      case Some(owner) => if owner == id then {id} else {id} + Visited(s, m, owner, steps - 1)
  }

  function Owners(m: Table): set<nat> { set a | a in m :: m[a].owner }

  ghost predicate Closed(s: Sched, m: Table, tasks: set<nat>) {
    forall x :: x in tasks && Next(s, m, x).Some? ==> Next(s, m, x).value in tasks
  }

  lemma {:induction false} VisitedStaysInside(s: Sched, m: Table, id: nat, steps: nat, tasks: set<nat>)
    requires id in tasks && Closed(s, m, tasks)
    ensures Visited(s, m, id, steps) <= tasks
    decreases steps
  {
    if steps > 0 && Next(s, m, id).Some? && Next(s, m, id).value != id {
      VisitedStaysInside(s, m, Next(s, m, id).value, steps - 1, tasks);
    }
  }

  /** Everybody in `seen` waits for somebody in `seen`, or for `id`. */
  ghost predicate LeadsTo(s: Sched, m: Table, seen: set<nat>, id: nat) {
    forall x :: x in seen && Next(s, m, x).Some? ==> Next(s, m, x).value in seen || Next(s, m, x).value == id
  }

  /** Pigeonhole over the owners not seen yet: as long as steps remain for each of them, the walk
      closes whatever has been visited before it. */
  lemma {:induction false} WalkCloses(s: Sched, m: Table, id: nat, steps: nat, seen: set<nat>)
    requires id in Owners(m) && seen <= Owners(m) && |Owners(m) - seen| <= steps
    requires LeadsTo(s, m, seen, id)
    ensures Closed(s, m, seen + Visited(s, m, id, steps))
    ensures id in seen + Visited(s, m, id, steps)
    decreases steps
  {
    hide Next, Owners;
    if id in seen {
      VisitedStaysInside(s, m, id, steps, seen);
      assert seen + Visited(s, m, id, steps) == seen;
    } else {
      OneFewer(Owners(m), seen, id);
      var next := Next(s, m, id);
      if next.Some? && next.value != id {
        NextIsOwner(s, m, id);
        WalkCloses(s, m, next.value, steps - 1, seen + {id});
        assert seen + Visited(s, m, id, steps) == seen + {id} + Visited(s, m, next.value, steps - 1);
      } else {
        assert Visited(s, m, id, steps) == {id};
      }
    }
  }

  lemma NextIsOwner(s: Sched, m: Table, id: nat)
    ensures Next(s, m, id).Some? ==> Next(s, m, id).value in Owners(m)
  {
  }

  lemma OneFewer(all: set<nat>, seen: set<nat>, x: nat)
    requires x in all && x !in seen
    ensures |all - seen| >= 1 && |all - (seen + {x})| == |all - seen| - 1
  {
    assert all - (seen + {x}) == (all - seen) - {x};
  }

  lemma {:induction false} FewOwners(m: Table)
    ensures |Owners(m)| <= |m|
    decreases |m|
  {
    if m != map[] {
      var a :| a in m;
      var rest := m - {a};
      FewOwners(rest);
      forall o | o in Owners(m) ensures o in Owners(rest) + {m[a].owner} {
        var b :| b in m && m[b].owner == o;
        assert b == a || (b in rest && rest[b] == m[b]);
      }
      forall o | o in Owners(rest) ensures o in Owners(m) {
        var b :| b in rest && rest[b].owner == o;
        assert b in m && m[b] == rest[b];
      }
      assert Owners(m) == Owners(rest) + {m[a].owner};
    }
  }

  lemma {:induction false} ChainStaysInside(s: Sched, m: Table, id: nat, k: nat, tasks: set<nat>)
    requires id in tasks && Closed(s, m, tasks)
    ensures Chain(s, m, id, k).Some? ==> Chain(s, m, id, k).value in tasks
  {
    if k > 0 { ChainStaysInside(s, m, id, k - 1, tasks); }
  }

  /** Going one step first and then `k`, or `k + 1` at once. */
  lemma {:induction false} ChainFromNext(s: Sched, m: Table, id: nat, k: nat)
    requires Next(s, m, id).Some?
    ensures Chain(s, m, Next(s, m, id).value, k) == Chain(s, m, id, k + 1)
  {
    if k > 0 { ChainFromNext(s, m, id, k - 1); }
  }

  lemma {:induction false} VisitedIsBehindOf(s: Sched, m: Table, id: nat, steps: nat, t: nat)
    requires t in Visited(s, m, id, steps)
    ensures Behind(s, m, id, t)
    decreases steps
  {
    if t == id {
      assert Chain(s, m, id, 0) == Some(id);
    } else {
      var owner := Next(s, m, id).value;
      VisitedIsBehindOf(s, m, owner, steps - 1, t);
      var k: nat :| Chain(s, m, owner, k) == Some(t);
      ChainFromNext(s, m, id, k);
    }
  }

  /** `boost_chain` walks far enough: started at the owner of a table entry, its MAX_MUTEXES
      iterations visit exactly the tasks transitively waited for, cyclic or not. */
  lemma WalkReachesEveryOwner(s: Sched, m: Table, owner: nat, t: nat)
    requires |m| <= MAX_MUTEXES && owner in Owners(m)
    ensures t in Visited(s, m, owner, MAX_MUTEXES) <==> Behind(s, m, owner, t)
  {
    FewOwners(m);
    assert Owners(m) - {} == Owners(m);
    WalkCloses(s, m, owner, MAX_MUTEXES, {});
    assert {} + Visited(s, m, owner, MAX_MUTEXES) == Visited(s, m, owner, MAX_MUTEXES);
    if t in Visited(s, m, owner, MAX_MUTEXES) {
      VisitedIsBehindOf(s, m, owner, MAX_MUTEXES, t);
    }
    if k: nat :| Chain(s, m, owner, k) == Some(t) {
      ChainStaysInside(s, m, owner, k, Visited(s, m, owner, MAX_MUTEXES));
    }
  }

  function BoostedTask(t: Tcb, target: nat): Tcb {
    if target < t.priority
    then t.(priority := target, boostedFrom := if t.boostedFrom.None? then Some(t.priority) else t.boostedFrom)
    else t
  }

  /** The priorities of `hit` are lifted to `target`; nothing else about any task changes. */
  ghost predicate Boosts(s: Sched, s': Sched, hit: set<nat>, target: nat) {
    && |s'.tasks| == |s.tasks|
    && s'.current == s.current
    && s'.lastRun == s.lastRun
    && forall i :: 0 <= i < |s.tasks| ==>
         s'.tasks[i] == if i in hit && s.tasks[i].Some? then Some(BoostedTask(s.tasks[i].value, target)) else s.tasks[i]
  }

  lemma {:induction false} BoostChainBoosts(s: Sched, m: Table, id: nat, target: nat, steps: nat)
    ensures Boosts(s, BoostChain(s, m, id, target, steps), Visited(s, m, id, steps), target)
    decreases steps
  {
    if steps > 0 {
      var boosted := BoostPriority(s, id, target);
      BoostIsLocal(s, id, target);
      assert SameWaits(s, boosted);
      NextKept(s, boosted, m, id);
      hide BoostPriority, Next;
      if Next(s, m, id).Some? && Next(s, m, id).value != id {
        var owner := Next(s, m, id).value;
        BoostChainBoosts(boosted, m, owner, target, steps - 1);
        VisitedKept(s, boosted, m, owner, steps - 1);
      }
    }
  }

  lemma BoostIsLocal(s: Sched, id: nat, target: nat)
    ensures Boosts(s, BoostPriority(s, id, target), {id}, target)
  {
  }

  lemma {:induction false} BoostChainMask(s: Sched, m: Table, id: nat, target: nat, steps: nat)
    requires MaskExact(s)
    ensures MaskExact(BoostChain(s, m, id, target, steps))
    decreases steps
  {
    if steps > 0 {
      BoostMask(s, id, target);
      var boosted := BoostPriority(s, id, target);
      hide BoostPriority, Next, MaskExact;
      if Next(boosted, m, id).Some? { BoostChainMask(boosted, m, Next(boosted, m, id).value, target, steps - 1); }
    }
  }

  /** The wait chain depends on who is blocked on what, not on priorities. */
  ghost predicate SameWaits(s: Sched, s': Sched) {
    && |s'.tasks| == |s.tasks|
    && forall i :: 0 <= i < |s.tasks| ==>
         && s'.tasks[i].Some? == s.tasks[i].Some?
         && (s.tasks[i].Some? ==> s'.tasks[i].value.blockedOnMutex == s.tasks[i].value.blockedOnMutex)
  }

  lemma NextKept(s: Sched, s': Sched, m: Table, id: nat)
    requires SameWaits(s, s')
    ensures Next(s', m, id) == Next(s, m, id)
  {
  }

  lemma {:induction false} VisitedKept(s: Sched, s': Sched, m: Table, id: nat, steps: nat)
    requires SameWaits(s, s')
    ensures Visited(s', m, id, steps) == Visited(s, m, id, steps)
    decreases steps
  {
    if steps > 0 {
      NextKept(s, s', m, id);
      if Next(s, m, id).Some? { VisitedKept(s, s', m, Next(s, m, id).value, steps - 1); }
    }
  }

  // ── Lock ────────────────────────────────────────────────────────────────────────────────────

  /** The caller of a task-context operation: it is running on the core it calls from. */
  predicate Caller(s: Sched, core: nat) {
    core < |s.current| && Live(s, s.current[core]) && Task(s, s.current[core]).state.Running?
  }

  /** The caller has been enqueued on `addr`: the tasks it now waits for are lifted to its
      priority, it is blocked and listed last, and nothing else has changed. */
  ghost predicate EnqueuedOn(s: Sched, m: Table, cur: nat, addr: nat, s': Sched, m': Table) {
    && Live(s, cur)
    && addr in m && m[addr].owner != cur && |m[addr].waiters| < MAX_WAITERS
    && m' == m[addr := Entry(m[addr].owner, m[addr].waiters + [cur])]
    && |s'.tasks| == |s.tasks| && s'.current == s.current && s'.lastRun == s.lastRun
    && (forall i: nat :: Live(s', i) == Live(s, i))
    && (forall i: nat :: Live(s, i) && i != cur ==>
          Task(s', i) ==
            if Behind(s, m, m[addr].owner, i) then BoostedTask(Task(s, i), Task(s, cur).priority) else Task(s, i))
    && Task(s', cur) == Task(s, cur).(state := BlockedMutex, blockedOnMutex := Some(addr))
  }

  lemma LockEnqueues(s: Sched, m: Table, core: nat, addr: nat)
    requires Caller(s, core) && |m| <= MAX_MUTEXES
    requires Lock(s, m, core, addr, false).2.Enqueued?
    ensures var (s', m', _) := Lock(s, m, core, addr, false); EnqueuedOn(s, m, s.current[core], addr, s', m')
    ensures MaskExact(s) ==> MaskExact(Lock(s, m, core, addr, false).0)
  {
    var cur := s.current[core];
    var owner := m[addr].owner;
    var target := Task(s, cur).priority;
    var boosted := BoostChain(s, m, owner, target, MAX_MUTEXES);
    BoostChainBoosts(s, m, owner, target, MAX_MUTEXES);
    assert owner in Owners(m);
    forall i: nat ensures i in Visited(s, m, owner, MAX_MUTEXES) <==> Behind(s, m, owner, i) {
      WalkReachesEveryOwner(s, m, owner, i);
    }
    if MaskExact(s) {
      BoostChainMask(s, m, owner, target, MAX_MUTEXES);
      BlockOnMutexMask(boosted, core, addr);
    }
  }

  /** `lock` keeps the table and the task table in step. */
  lemma LockTable(s: Sched, m: Table, core: nat, addr: nat, inInterrupt: bool)
    requires TableOk(s, m) && Caller(s, core) && addr != 0
    ensures var (s', m', _) := Lock(s, m, core, addr, inInterrupt); TableOk(s', m')
  {
    var outcome := Lock(s, m, core, addr, inInterrupt).2;
    if outcome.Acquired? {
      LockAcquiredTable(s, m, core, addr);
    } else if outcome.Enqueued? {
      LockEnqueues(s, m, core, addr);
      var (s', m', _) := Lock(s, m, core, addr, false);
      LockEnqueuedTable(s, m, s.current[core], addr, s', m');
    }
  }

  lemma LockAcquiredTable(s: Sched, m: Table, core: nat, addr: nat)
    requires TableOk(s, m) && Caller(s, core) && addr !in m && addr != 0 && |m| < MAX_MUTEXES
    ensures TableOk(s, m[addr := Entry(s.current[core], [])])
  {
    var m' := m[addr := Entry(s.current[core], [])];
    assert m'.Keys == m.Keys + {addr};
    forall a | a in m' ensures EntryOk(s, m', a) {
      if a != addr { assert EntryOk(s, m, a); }
    }
    forall id: nat ensures WaitOk(s, m', id) { assert WaitOk(s, m, id); }
  }

  lemma LockEnqueuedTable(s: Sched, m: Table, cur: nat, addr: nat, s': Sched, m': Table)
    requires TableOk(s, m) && EnqueuedOn(s, m, cur, addr, s', m') && Task(s, cur).state.Running?
    ensures TableOk(s', m')
  {
    hide Behind, EntryOk, WaitOk;
    assert m'.Keys == m.Keys;
    assert |m'| == |m| by { assert |m'.Keys| == |m.Keys|; }
    forall a | a in m' ensures EntryOk(s', m', a) { LockEnqueuedEntry(s, m, cur, addr, s', m', a); }
    forall id: nat ensures WaitOk(s', m', id) { LockEnqueuedWait(s, m, cur, addr, s', m', id); }
  }

  lemma LockEnqueuedWait(s: Sched, m: Table, cur: nat, addr: nat, s': Sched, m': Table, id: nat)
    requires TableOk(s, m) && EnqueuedOn(s, m, cur, addr, s', m') && Task(s, cur).state.Running?
    ensures WaitOk(s', m', id)
  {
    hide Behind, EntryOk;
    assert WaitOk(s, m, id);
  }

  lemma LockEnqueuedEntry(s: Sched, m: Table, cur: nat, addr: nat, s': Sched, m': Table, a: nat)
    requires TableOk(s, m) && EnqueuedOn(s, m, cur, addr, s', m') && Task(s, cur).state.Running? && a in m
    ensures EntryOk(s', m', a)
  {
    hide Behind;
    assert WaitOk(s, m, cur);
    assert EntryOk(s, m, a);
    assert cur !in m[a].waiters;
    forall w | w in m'[a].waiters ensures Live(s', w) && Task(s', w).blockedOnMutex == Some(a) {
      assert w == cur || w in m[a].waiters;
    }
  }

  /** The new wait edge only extends chains. */
  lemma {:induction false} ChainExtends(s: Sched, m: Table, s': Sched, m': Table, x: nat, k: nat)
    requires forall id: nat :: Next(s, m, id).Some? ==> Next(s', m', id) == Next(s, m, id)
    requires Chain(s, m, x, k).Some?
    ensures Chain(s', m', x, k) == Chain(s, m, x, k)
  {
    if k > 0 { ChainExtends(s, m, s', m', x, k - 1); }
  }

  lemma {:induction false} ChainJoins(s: Sched, m: Table, x: nat, j: nat, y: nat, k: nat)
    requires Chain(s, m, x, j) == Some(y)
    ensures Chain(s, m, x, j + k) == Chain(s, m, y, k)
  {
    if k > 0 { ChainJoins(s, m, x, j, y, k - 1); }
  }

  /** `lock` keeps every effective priority exact: the boosted tasks are exactly those the caller
      now waits for, and the caller's own base (or a task behind it) justifies each of them. */
  lemma LockPriorities(s: Sched, m: Table, core: nat, addr: nat, inInterrupt: bool)
    requires TableOk(s, m) && PrioritiesOk(s, m) && Caller(s, core) && addr != 0
    ensures var (s', m', _) := Lock(s, m, core, addr, inInterrupt); PrioritiesOk(s', m')
  {
    var (s', m', outcome) := Lock(s, m, core, addr, inInterrupt);
    if outcome.Acquired? {
      LockAcquiredPriorities(s, m, core, addr);
    } else if outcome.Enqueued? {
      LockEnqueues(s, m, core, addr);
      forall id: nat ensures BoostOk(s', m', id) {
        LockEnqueuedPriority(s, m, s.current[core], addr, s', m', id);
      }
    }
  }

  lemma LockAcquiredPriorities(s: Sched, m: Table, core: nat, addr: nat)
    requires TableOk(s, m) && PrioritiesOk(s, m) && Caller(s, core) && addr !in m
    ensures PrioritiesOk(s, m[addr := Entry(s.current[core], [])])
  {
    var m' := m[addr := Entry(s.current[core], [])];
    forall id: nat ensures Next(s, m', id) == Next(s, m, id) { assert WaitOk(s, m, id); }
    forall id: nat ensures BoostOk(s, m', id) {
      assert BoostOk(s, m, id);
      if Live(s, id) {
        var x: nat :| Live(s, x) && Task(s, x).basePrio == Task(s, id).priority && Behind(s, m, x, id);
        var k: nat :| Chain(s, m, x, k) == Some(id);
        ChainExtends(s, m, s, m', x, k);
      }
    }
  }

  /** After `lock` the caller waits for the owner, and everybody else for whom they waited. */
  lemma EnqueuedNext(s: Sched, m: Table, cur: nat, addr: nat, s': Sched, m': Table, x: nat)
    requires TableOk(s, m) && EnqueuedOn(s, m, cur, addr, s', m') && Task(s, cur).state.Running?
    ensures Next(s', m', x) == if x == cur then Some(m[addr].owner) else Next(s, m, x)
    ensures Next(s, m, cur) == None
  {
    hide Behind;
    assert WaitOk(s, m, cur);
    assert WaitOk(s, m, x);
  }

  lemma LockEnqueuedPriority(s: Sched, m: Table, cur: nat, addr: nat, s': Sched, m': Table, id: nat)
    requires TableOk(s, m) && PrioritiesOk(s, m)
    requires EnqueuedOn(s, m, cur, addr, s', m') && Task(s, cur).state.Running?
    ensures BoostOk(s', m', id)
  {
    if Live(s, id) {
      LockEnqueuedOrder(s, m, cur, addr, s', m', id);
      LockEnqueuedJustified(s, m, cur, addr, s', m', id);
      hide Behind, Justified, Next;
      assert BoostOk(s, m, id);
    }
  }

  /** The task this one waits for is boosted whenever this one is. */
  lemma LockEnqueuedOrder(s: Sched, m: Table, cur: nat, addr: nat, s': Sched, m': Table, id: nat)
    requires TableOk(s, m) && PrioritiesOk(s, m) && Live(s, id)
    requires EnqueuedOn(s, m, cur, addr, s', m') && Task(s, cur).state.Running?
    ensures Next(s', m', id).Some? ==> Urgency(s', Next(s', m', id).value) <= Task(s', id).priority
  {
    var owner := m[addr].owner;
    EnqueuedNext(s, m, cur, addr, s', m', id);
    assert BoostOk(s, m, id) && EntryOk(s, m, addr);
    if id == cur {
      hide Justified;
      assert Chain(s, m, owner, 0) == Some(owner);
      assert Behind(s, m, owner, owner);
    } else if Next(s, m, id).Some? {
      var n := Next(s, m, id).value;
      assert Live(s, n) by { assert EntryOk(s, m, Task(s, id).blockedOnMutex.value); }
      hide Justified, Next;
      if k: nat :| Chain(s, m, owner, k) == Some(id) {
        assert Chain(s, m, owner, k + 1) == Some(n);
        assert Behind(s, m, owner, n);
      }
    }
  }

  /** Whoever was justified stays so, and a boosted task is justified through the caller. */
  lemma LockEnqueuedJustified(s: Sched, m: Table, cur: nat, addr: nat, s': Sched, m': Table, id: nat)
    requires TableOk(s, m) && PrioritiesOk(s, m) && Live(s, id)
    requires EnqueuedOn(s, m, cur, addr, s', m') && Task(s, cur).state.Running?
    ensures Justified(s', m', id)
  {
    forall x: nat ensures Next(s, m, x).Some? ==> Next(s', m', x) == Next(s, m, x) {
      EnqueuedNext(s, m, cur, addr, s', m', x);
    }
    EnqueuedNext(s, m, cur, addr, s', m', cur);
    hide Next, TableOk;
    var boosted := id != cur && Task(s', id).priority < Task(s, id).priority;
    var w := if boosted then cur else id;
    assert BoostOk(s, m, w);
    var x: nat :| Live(s, x) && Task(s, x).basePrio == Task(s, w).priority && Behind(s, m, x, w);
    assert Task(s', x).basePrio == Task(s, x).basePrio;
    BehindExtends(s, m, s', m', x, w);
    if boosted {
      assert Behind(s, m, m[addr].owner, id);
      BehindExtends(s, m, s', m', m[addr].owner, id);
      BehindThrough(s', m', x, cur, id);
    }
  }

  lemma BehindExtends(s: Sched, m: Table, s': Sched, m': Table, x: nat, id: nat)
    requires forall y: nat :: Next(s, m, y).Some? ==> Next(s', m', y) == Next(s, m, y)
    requires Behind(s, m, x, id)
    ensures Behind(s', m', x, id)
  {
    hide Next;
    var k: nat :| Chain(s, m, x, k) == Some(id);
    ChainExtends(s, m, s', m', x, k);
  }

  /** Behind `y`, which waits for an owner that is behind `id`. */
  lemma BehindThrough(s: Sched, m: Table, x: nat, y: nat, id: nat)
    requires Behind(s, m, x, y) && Next(s, m, y).Some? && Behind(s, m, Next(s, m, y).value, id)
    ensures Behind(s, m, x, id)
  {
    hide Next;
    var k: nat :| Chain(s, m, x, k) == Some(y);
    var j: nat :| Chain(s, m, Next(s, m, y).value, j) == Some(id);
    ChainFromNext(s, m, y, j);
    ChainJoins(s, m, x, k, y, j + 1);
    assert Chain(s, m, x, k + (j + 1)) == Some(id);
  }

  // ── Unlock ──────────────────────────────────────────────────────────────────────────────────

  /** The best waiter, or nobody: who owns the mutex next. */
  function Heir(s: Sched, m: Table, addr: nat): Option<nat>
    requires addr in m
  {
    if m[addr].waiters == [] then None else Some(m[addr].waiters[BestWaiter(s, m[addr].waiters)])
  }

  /** The owner `cur` has released `addr`: the heir owns it and is Ready, the remaining waiters keep
      their order, and only the old owner's priority is recomputed. */
  ghost predicate ReleasedOn(s: Sched, m: Table, cur: nat, addr: nat, s': Sched, m': Table) {
    && Live(s, cur)
    && addr in m && m[addr].owner == cur
    && m' == (match Heir(s, m, addr)
              case None => m - {addr}
              case Some(heir) => m[addr := Entry(heir, RemoveAt(m[addr].waiters, BestWaiter(s, m[addr].waiters)))])
    && |s'.tasks| == |s.tasks| && s'.current == s.current && s'.lastRun == s.lastRun
    && (forall i: nat :: Live(s', i) == Live(s, i))
    && (forall i: nat :: Live(s, i) && i != cur ==>
          Task(s', i) == if Heir(s, m, addr) == Some(i)
                         then Task(s, i).(state := Ready, quantum := DEFAULT_QUANTUM_MS, blockedOnMutex := None)
                         else Task(s, i))
    && var t, effective := Task(s, cur), Task(s', cur).priority;
       Task(s', cur) ==
         t.(priority := effective, boostedFrom := if effective >= t.basePrio then None else t.boostedFrom)
  }

  /** The owner's new priority is the one it inherits. */
  ghost predicate Recomputed(s': Sched, m': Table, cur: nat) {
    Live(s', cur) && Task(s', cur).priority == Inherited(s', m', cur)
  }

  /** Priorities of tasks other than the owner decide what it inherits. */
  lemma InheritedKept(s: Sched, s': Sched, m: Table, owner: nat)
    requires forall i: nat :: Live(s', i) == Live(s, i)
    requires Live(s, owner) && Task(s', owner).basePrio == Task(s, owner).basePrio
    requires forall a, w :: a in m && m[a].owner == owner && w in m[a].waiters ==> Urgency(s', w) == Urgency(s, w)
    ensures Inherited(s', m, owner) == Inherited(s, m, owner)
  {
    var xs, xs' := WaiterUrgencies(s, m, owner), WaiterUrgencies(s', m, owner);
    forall q | q in xs ensures q in xs' {
      var a, w :| a in m && m[a].owner == owner && w in m[a].waiters && q == Urgency(s, w);
      assert q == Urgency(s', w);
    }
    forall q | q in xs' ensures q in xs {
      var a, w :| a in m && m[a].owner == owner && w in m[a].waiters && q == Urgency(s', w);
      assert q == Urgency(s, w);
    }
    assert xs == xs';
  }

  lemma UnlockReleases(s: Sched, m: Table, core: nat, addr: nat)
    requires TableOk(s, m) && Caller(s, core) && Unlock(s, m, core, addr).2
    ensures
      var (s', m', _) := Unlock(s, m, core, addr);
      ReleasedOn(s, m, s.current[core], addr, s', m') && Recomputed(s', m', s.current[core])
  {
    var (handed, m') := Handover(s, m, addr);
    HandoverEffect(s, m, s.current[core], addr);
    ReleaseAfterHandover(s, m, s.current[core], addr, handed, m');
  }

  lemma ReleaseAfterHandover(s: Sched, m: Table, cur: nat, addr: nat, handed: Sched, m': Table)
    requires TableOk(s, m) && Live(s, cur) && addr in m && m[addr].owner == cur
    requires HandedOn(s, m, cur, addr, handed, m')
    ensures
      var s' := SetInheritedPriority(handed, cur, Inherited(handed, m', cur));
      ReleasedOn(s, m, cur, addr, s', m') && Recomputed(s', m', cur)
  {
    var effective := Inherited(handed, m', cur);
    SetInheritedEffect(handed, cur, effective);
    var s' := SetInheritedPriority(handed, cur, effective);
    hide Inherited, SetInheritedPriority, Heir;
    assert Inherited(s', m', cur) == effective by {
      forall a, w | a in m' && m'[a].owner == cur && w in m'[a].waiters ensures Urgency(s', w) == Urgency(handed, w) {
        assert EntryOk(s, m, a);
      }
      InheritedKept(handed, s', m', cur);
    }
    hide TableOk;
  }

  /** The first half of `unlock`: `addr` has been passed on and nobody's priority has moved. */
  ghost predicate HandedOn(s: Sched, m: Table, cur: nat, addr: nat, handed: Sched, m': Table)
    requires addr in m
  {
    && m' == (match Heir(s, m, addr)
              case None => m - {addr}
              case Some(heir) => m[addr := Entry(heir, RemoveAt(m[addr].waiters, BestWaiter(s, m[addr].waiters)))])
    && |handed.tasks| == |s.tasks| && handed.current == s.current && handed.lastRun == s.lastRun
    && (forall i: nat :: Live(handed, i) == Live(s, i))
    && (forall i: nat :: Live(s, i) ==>
          Task(handed, i) == if Heir(s, m, addr) == Some(i)
                             then Task(s, i).(state := Ready, quantum := DEFAULT_QUANTUM_MS, blockedOnMutex := None)
                             else Task(s, i))
    && Heir(s, m, addr) != Some(cur)
    && (forall a :: a in m' && m'[a].owner == cur ==> a != addr && a in m && m'[a] == m[a])
  }

  lemma HandoverEffect(s: Sched, m: Table, cur: nat, addr: nat)
    requires TableOk(s, m) && Live(s, cur) && addr in m && m[addr].owner == cur
    ensures var (handed, m') := Handover(s, m, addr); HandedOn(s, m, cur, addr, handed, m')
  {
    assert EntryOk(s, m, addr);
    if Heir(s, m, addr).Some? {
      assert Heir(s, m, addr).value in m[addr].waiters;
      assert WaitOk(s, m, Heir(s, m, addr).value);
    }
  }

  lemma SetInheritedEffect(s: Sched, id: nat, effective: nat)
    requires Live(s, id)
    ensures
      var s' := SetInheritedPriority(s, id, effective);
      var t := Task(s, id);
      && |s'.tasks| == |s.tasks| && s'.current == s.current && s'.lastRun == s.lastRun
      && (forall i: nat :: Live(s', i) == Live(s, i))
      && (forall i: nat :: Live(s, i) && i != id ==> Task(s', i) == Task(s, i))
      && Task(s', id) ==
           t.(priority := effective, boostedFrom := if effective >= t.basePrio then None else t.boostedFrom)
  {
  }

  lemma UnlockMask(s: Sched, m: Table, core: nat, addr: nat)
    requires MaskExact(s) && core < |s.current|
    ensures MaskExact(Unlock(s, m, core, addr).0)
  {
    if Unlock(s, m, core, addr).2 {
      var (handed, m') := Handover(s, m, addr);
      if Heir(s, m, addr).Some? { UnblockMask(s, Heir(s, m, addr).value); }
      SetInheritedMask(handed, s.current[core], Inherited(handed, m', s.current[core]));
    }
  }

  /** `unlock` keeps the table and the task table in step. */
  lemma UnlockTable(s: Sched, m: Table, cur: nat, addr: nat, s': Sched, m': Table)
    requires TableOk(s, m) && ReleasedOn(s, m, cur, addr, s', m') && Task(s, cur).state.Running?
    ensures TableOk(s', m')
  {
    hide EntryOk, WaitOk;
    assert m'.Keys <= m.Keys;
    assert |m'| <= |m| by { SubsetSize(m'.Keys, m.Keys); assert |m'.Keys| == |m'| && |m.Keys| == |m|; }
    forall a | a in m' ensures EntryOk(s', m', a) { UnlockEntry(s, m, cur, addr, s', m', a); }
    forall id: nat ensures WaitOk(s', m', id) { UnlockWait(s, m, cur, addr, s', m', id); }
  }

  lemma UnlockEntry(s: Sched, m: Table, cur: nat, addr: nat, s': Sched, m': Table, a: nat)
    requires TableOk(s, m) && ReleasedOn(s, m, cur, addr, s', m') && Task(s, cur).state.Running? && a in m'
    ensures EntryOk(s', m', a)
  {
    hide Inherited;
    assert EntryOk(s, m, a) && EntryOk(s, m, addr) && WaitOk(s, m, cur);
    if Heir(s, m, addr).Some? {
      RemoveAtElements(m[addr].waiters, BestWaiter(s, m[addr].waiters));
    }
    hide TableOk, BestWaiter, RemoveAt;
  }

  lemma UnlockWait(s: Sched, m: Table, cur: nat, addr: nat, s': Sched, m': Table, id: nat)
    requires TableOk(s, m) && ReleasedOn(s, m, cur, addr, s', m') && Task(s, cur).state.Running?
    ensures WaitOk(s', m', id)
  {
    assert WaitOk(s, m, id) && EntryOk(s, m, addr);
    hide TableOk, EntryOk, Inherited;
    if Heir(s, m, addr) != Some(id) && Live(s, id) && Task(s, id).blockedOnMutex.Some? {
      StillListed(s, m, addr, m', id, Task(s, id).blockedOnMutex.value);
    }
    hide Heir;
  }

  /** A handover takes only the heir off a list. */
  lemma StillListed(s: Sched, m: Table, addr: nat, m': Table, id: nat, a: nat)
    requires addr in m && EntryOk(s, m, addr) && Heir(s, m, addr) != Some(id) && a in m && id in m[a].waiters
    requires m' == (match Heir(s, m, addr)
                    case None => m - {addr}
                    case Some(heir) =>
                      m[addr := Entry(heir, RemoveAt(m[addr].waiters, BestWaiter(s, m[addr].waiters)))])
    ensures a in m' && id in m'[a].waiters
  {
    if Heir(s, m, addr).Some? {
      RemoveAtElements(m[addr].waiters, BestWaiter(s, m[addr].waiters));
    }
    hide BestWaiter, RemoveAt;
  }

  /** Who waits for whom after `unlock`: the heir for nobody, the other waiters for the heir. */
  lemma ReleasedNext(s: Sched, m: Table, cur: nat, addr: nat, s': Sched, m': Table, x: nat)
    requires TableOk(s, m) && ReleasedOn(s, m, cur, addr, s', m') && Task(s, cur).state.Running?
    ensures Next(s, m, cur) == None
    ensures Next(s, m, x) != Some(cur) ==> Next(s', m', x) == Next(s, m, x)
    ensures Next(s', m', x) == Some(cur) ==> Next(s, m, x) == Some(cur) && Live(s, x) && x != cur
    ensures Next(s, m, x) == Some(cur) && Next(s', m', x).Some? && Next(s', m', x) != Some(cur) ==>
              Heir(s, m, addr).Some? && Next(s', m', x) == Heir(s, m, addr) && x in m[addr].waiters
  {
    hide Inherited;
    assert WaitOk(s, m, x) && WaitOk(s, m, cur) && EntryOk(s, m, addr);
    if Live(s, x) && Task(s, x).blockedOnMutex.Some? {
      assert EntryOk(s, m, Task(s, x).blockedOnMutex.value);
    }
    if Heir(s, m, addr).Some? {
      RemoveAtElements(m[addr].waiters, BestWaiter(s, m[addr].waiters));
    }
  }

  /** No chain passes through a task that waits for nobody, so what led elsewhere still does. */
  lemma {:induction false} ChainAvoids(s: Sched, m: Table, s': Sched, m': Table, cur: nat, x: nat, k: nat)
    requires Next(s, m, cur) == None
    requires forall y: nat :: Next(s, m, y) != Some(cur) ==> Next(s', m', y) == Next(s, m, y)
    requires Chain(s, m, x, k).Some? && Chain(s, m, x, k) != Some(cur)
    ensures Chain(s', m', x, k) == Chain(s, m, x, k)
  {
    hide Next;
    if k > 0 { ChainAvoids(s, m, s', m', cur, x, k - 1); }
  }

  lemma UnlockPriority(s: Sched, m: Table, cur: nat, addr: nat, s': Sched, m': Table, id: nat)
    requires TableOk(s, m) && PrioritiesOk(s, m)
    requires ReleasedOn(s, m, cur, addr, s', m') && Recomputed(s', m', cur) && Task(s, cur).state.Running?
    ensures BoostOk(s', m', id)
  {
    if Live(s, id) {
      UnlockOrder(s, m, cur, addr, s', m', id);
      if id == cur {
        UnlockedOwner(s, m, cur, addr, s', m');
      } else {
        UnlockJustified(s, m, cur, addr, s', m', id);
        hide Inherited, Behind, Justified, Next;
        assert BoostOk(s, m, id);
      }
    }
  }

  /** The heir was the most urgent waiter, so it already outranks the ones left behind it; the old
      owner's recompute looks at everybody still waiting for it. */
  lemma UnlockOrder(s: Sched, m: Table, cur: nat, addr: nat, s': Sched, m': Table, id: nat)
    requires TableOk(s, m) && PrioritiesOk(s, m) && Live(s, id)
    requires ReleasedOn(s, m, cur, addr, s', m') && Recomputed(s', m', cur) && Task(s, cur).state.Running?
    ensures Next(s', m', id).Some? ==> Urgency(s', Next(s', m', id).value) <= Task(s', id).priority
  {
    ReleasedNext(s, m, cur, addr, s', m', id);
    assert BoostOk(s, m, id) && WaitOk(s', m', id) by { UnlockWait(s, m, cur, addr, s', m', id); }
    var next := Next(s', m', id);
    if next == Some(cur) {
      var a := Task(s', id).blockedOnMutex.value;
      assert a in m' && m'[a].owner == cur && id in m'[a].waiters;
      assert Urgency(s', id) in WaiterUrgencies(s', m', cur);
    } else if next.Some? {
      hide Inherited, Justified, Chain;
      if Next(s, m, id) == Some(cur) {
        assert EntryOk(s, m, addr);
      }
    }
  }

  lemma UnlockJustified(s: Sched, m: Table, cur: nat, addr: nat, s': Sched, m': Table, id: nat)
    requires TableOk(s, m) && PrioritiesOk(s, m) && Live(s, id) && id != cur
    requires ReleasedOn(s, m, cur, addr, s', m') && Task(s, cur).state.Running?
    ensures Justified(s', m', id)
  {
    hide Inherited;
    ReleasedNext(s, m, cur, addr, s', m', cur);
    forall y: nat ensures Next(s, m, y) != Some(cur) ==> Next(s', m', y) == Next(s, m, y) {
      ReleasedNext(s, m, cur, addr, s', m', y);
    }
    hide Next, TableOk;
    assert BoostOk(s, m, id);
    var x: nat :| Live(s, x) && Task(s, x).basePrio == Task(s, id).priority && Behind(s, m, x, id);
    var k: nat :| Chain(s, m, x, k) == Some(id);
    ChainAvoids(s, m, s', m', cur, x, k);
    assert Behind(s', m', x, id);
    assert Task(s', x).basePrio == Task(s, x).basePrio;
  }

  /** The recomputed priority of the old owner is exact, and it can only have dropped. */
  lemma UnlockedOwner(s: Sched, m: Table, cur: nat, addr: nat, s': Sched, m': Table)
    requires TableOk(s, m) && PrioritiesOk(s, m)
    requires ReleasedOn(s, m, cur, addr, s', m') && Recomputed(s', m', cur) && Task(s, cur).state.Running?
    ensures BoostOk(s', m', cur)
  {
    var effective := Task(s', cur).priority;
    ReleasedNext(s, m, cur, addr, s', m', cur);
    if effective == Task(s, cur).basePrio {
      hide Inherited, Next;
      assert Chain(s', m', cur, 0) == Some(cur);
      assert Behind(s', m', cur, cur);
    } else {
      var a, w :| a in m' && m'[a].owner == cur && w in m'[a].waiters && effective == Urgency(s', w);
      UnlockedOwnerWaiter(s, m, cur, addr, s', m', a, w);
      hide Inherited, Next, Justified;
    }
    hide Inherited, Next, Justified;
    assert BoostOk(s, m, cur);
  }

  lemma UnlockedOwnerWaiter(s: Sched, m: Table, cur: nat, addr: nat, s': Sched, m': Table, a: nat, w: nat)
    requires TableOk(s, m) && PrioritiesOk(s, m)
    requires ReleasedOn(s, m, cur, addr, s', m') && Recomputed(s', m', cur) && Task(s, cur).state.Running?
    requires a in m' && m'[a].owner == cur && w in m'[a].waiters && Task(s', cur).priority == Urgency(s', w)
    ensures Task(s, cur).priority <= Task(s', cur).priority && Justified(s', m', cur)
  {
    hide Inherited;
    UnlockEntry(s, m, cur, addr, s', m', a);
    assert a in m && m[a] == m'[a] && w != cur;
    assert Next(s', m', w) == Some(cur);
    UnlockJustified(s, m, cur, addr, s', m', w);
    JustifiedThrough(s', m', w, cur);
    hide Next, Justified, Behind;
    NoWaiterOutranks(s, m, cur);
    assert EntryOk(s, m, a);
    assert Urgency(s, w) == Urgency(s', w);
    assert Urgency(s, w) in {BasePriority(s, cur)} + WaiterUrgencies(s, m, cur);
  }

  /** What justifies a waiter justifies the owner that has exactly its priority. */
  lemma JustifiedThrough(s: Sched, m: Table, w: nat, owner: nat)
    requires Live(s, w) && Live(s, owner) && Next(s, m, w) == Some(owner)
    requires Task(s, w).priority == Task(s, owner).priority && Justified(s, m, w)
    ensures Justified(s, m, owner)
  {
    hide Next;
    var x: nat :| Live(s, x) && Task(s, x).basePrio == Task(s, w).priority && Behind(s, m, x, w);
    assert Chain(s, m, owner, 0) == Some(owner);
    assert Behind(s, m, owner, owner);
    BehindThrough(s, m, x, w, owner);
  }
}

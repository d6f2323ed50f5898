/** Deleting a task that may be on a waiter list.

    `delete_task` empties the slot in one critical section and purges the id from the waiter lists in a
    later one; so does `reap_deleted`, for a task that has deleted itself. In between the lists may hold a
    stale id, and the slot may be filled again. The tasks deleted here own no mutex and wait for none. */
module Purging {
  import opened Wrappers
  import opened Sequences
  import opened Tasks
  import opened Inheritance
  import opened Waiters
  import opened Kernel
  import opened Interference
  import opened StaleEntries
  import Guarantees

  /** `purging` maps a task between the two sections of a deletion to the id it will purge.
      `unpurged` are the ids deleted and not purged since; a task that is itself deleted in between
      leaves its purge undone. */
  datatype World = World(k: State, purging: map<nat, nat>, unpurged: set<nat>)

  /** The first section of `delete_task`; what `delete_self` leaves; the first section of one pass of
      `reap_deleted`; the second section of either; and any section of the kernel. A task deleting itself
      is on no list, so its own purge has nothing to do. */
  datatype Step =
    | Delete(core: nat, id: nat)
    | DeleteSelf(core: nat)
    | Reap(core: nat, id: nat)
    | Purge(core: nat)
    | Section(step: Label)

  /** The task owns no mutex and waits for none. */
  ghost predicate Uninvolved(k: State, id: nat)
    requires Live(k.s, id)
  {
    Task(k.s, id).blockedOnMutex.None? && forall a :: a in k.mutexes ==> k.mutexes[a].owner != id
  }

  /** What `delete_task` does not refuse, if it has a heap stack: a task that no core is running. */
  ghost predicate Deletable(k: State, id: nat) {
    Live(k.s, id) && !Task(k.s, id).state.Running? && id !in k.s.current && id !in k.idle && Uninvolved(k, id)
  }

  /** The calling core's current task is not in the middle of a deletion. */
  predicate Free(w: World, core: nat) { core < |w.k.s.current| ==> Current(w.k, core) !in w.purging }

  /** A task in the middle of a deletion makes no other task-context section. With `reuse` a task may be spawned
      into a slot whose old id has not been purged. */
  predicate Separate(w: World, step: Label, reuse: bool) {
    match step
    case LockMutex(core, _, _) => Free(w, core)
    case UnlockMutex(core, _) => Free(w, core)
    case EnrolOn(core, _, _, _) => Free(w, core)
    case Sleep(core, _) => Free(w, core)
    case Suspend(core) => Free(w, core)
    case Spawn(id, _, _) => reuse || id !in w.unpurged
    case _ => true
  }

  ghost predicate Allowed(w: World, step: Step, reuse: bool) {
    match step
    case Delete(core, id) =>
      WellFormed(w.k.s) && |w.k.waits| == MAX_TASKS && InTask(w.k, core) && Free(w, core) && Deletable(w.k, id)
    case DeleteSelf(core) => |w.k.waits| == MAX_TASKS && InTask(w.k, core) && Free(w, core)
    case Reap(core, id) =>
      && |w.k.waits| == |w.k.s.tasks| && Caller(w.k.s, core) && Current(w.k, core) in w.k.idle && Free(w, core)
      && Deletable(w.k, id) && Task(w.k.s, id).state.Deleting?
    case Purge(core) => Caller(w.k.s, core) && Current(w.k, core) in w.purging
    case Section(section) => Enabled(w.k, section) && Separate(w, section, reuse)
  }

  /** The slot is emptied; `delete_task` recomputes its level's bit, `reap_deleted` has no need to. */
  function Cleared(k: State, id: nat, recompute: bool): State
    requires Live(k.s, id) && |k.waits| == |k.s.tasks|
  {
    var emptied := k.s.(tasks := k.s.tasks[id := None]);
    k.(s := if recompute then RecomputeReadyBit(emptied, Task(k.s, id).priority) else emptied,
       waits := k.waits[id := None])
  }

  /** Task `me` has emptied slot `id`. */
  function Deleted(w: World, me: nat, id: nat, recompute: bool): World
    requires Live(w.k.s, id) && |w.k.waits| == |w.k.s.tasks|
  {
    World(Cleared(w.k, id, recompute), (w.purging - {id})[me := id], w.unpurged + {id})
  }

  /** Task `me` has purged the id it deleted. */
  function PurgedBy(w: World, me: nat): World
    requires me in w.purging
  {
    World(w.k.(lists := Forget(w.k.lists, w.purging[me])), w.purging - {me}, w.unpurged - {w.purging[me]})
  }

  ghost function Act(w: World, step: Step, reuse: bool): World
    requires Allowed(w, step, reuse)
  {
    match step
    case Delete(core, id) => Deleted(w, Current(w.k, core), id, true)
    case DeleteSelf(core) => w.(k := w.k.(s := BlockCurrent(w.k.s, core, Deleting)))
    case Reap(core, id) => Deleted(w, Current(w.k, core), id, false)
    case Purge(core) => PurgedBy(w, Current(w.k, core))
    case Section(section) => w.(k := Apply(w.k, section))
  }

  // ── What one purge does ─────────────────────────────────────────────────────────────────────

  /** A purge is harmless exactly when the id's present owner, if any, is in no unfinished wait. */
  lemma PurgeIsHarmlessExactly(k: State, id: nat)
    requires WaitsOk(k) && id < MAX_TASKS
    ensures WaitsOk(k.(lists := Forget(k.lists, id))) <==> (k.waits[id].Some? ==> k.waits[id].value.popped)
  {
    var k' := k.(lists := Forget(k.lists, id));
    forall addr: nat, send: bool ensures Distinct(ListOf(k.lists, addr, send)) {
      assert ListOk(k, addr, send);
    }
    assert TaskOkIn(k, id);
    if k.waits[id].Some? && !k.waits[id].value.popped {
      ForgetOnlyDrops(k.lists, id, k.waits[id].value.addr, k.waits[id].value.send);
      assert !TaskOkIn(k', id);
    } else {
      forall addr: nat, send: bool ensures ListOf(k'.lists, addr, send) == ListOf(k.lists, addr, send) {
        assert ListOk(k, addr, send);
        assert id !in ListOf(k.lists, addr, send);
      }
      hide ListOf, Forget, InOrder;
      forall addr: nat, send: bool ensures ListOk(k', addr, send) { assert ListOk(k, addr, send); }
      forall t: nat | t < MAX_TASKS ensures TaskOkIn(k', t) { assert TaskOkIn(k, t); }
    }
  }

  // ── Emptying a slot and purging its id, as if in one step ───────────────────────────────────

  lemma ClearedInv(k: State, id: nat, recompute: bool)
    requires Inv(k) && Deletable(k, id) && (recompute || Task(k.s, id).state.Deleting?)
    ensures id < MAX_TASKS && Inv(Cleared(k, id, recompute).(lists := Forget(k.lists, id)))
  {
    var k' := Cleared(k, id, recompute).(lists := Forget(k.lists, id));
    ClearMask(k.s, id);
    ClearCores(k.s, k'.s, k.idle, id);
    ClearTable(k.s, k'.s, k.mutexes, id);
    ClearWaits(k, k', id);
    hide MaskExact, CoresOk, TableOk, PrioritiesOk, WaitsOk;
  }

  lemma ClearTable(s: Sched, s': Sched, m: Table, id: nat)
    requires TableOk(s, m) && PrioritiesOk(s, m) && Live(s, id) && s'.tasks == s.tasks[id := None]
    requires Task(s, id).blockedOnMutex.None? && forall a :: a in m ==> m[a].owner != id
    ensures TableOk(s', m) && PrioritiesOk(s', m)
  {
    assert forall x: nat :: Live(s', x) == (Live(s, x) && x != id);
    forall a | a in m ensures EntryOk(s', m, a) { assert EntryOk(s, m, a); }
    forall x: nat ensures WaitOk(s', m, x) { assert WaitOk(s, m, x); }
    forall x: nat ensures Next(s', m, x) == Next(s, m, x) {}
    forall x: nat ensures BoostOk(s', m, x) {
      assert BoostOk(s, m, x);
      if Live(s', x) {
        var y: nat :| Live(s, y) && Task(s, y).basePrio == Task(s, x).priority && Behind(s, m, y, x);
        if y == id {
          var k: nat :| Chain(s, m, id, k) == Some(x);
          ChainEndsHere(s, m, id, k);
        }
        SameBehind(s, s', m, y, x);
        assert Task(s', y) == Task(s, y);
        if Next(s, m, x).Some? {
          assert WaitOk(s, m, x) && EntryOk(s, m, Task(s, x).blockedOnMutex.value);
        }
      }
    }
  }

  lemma {:induction false} ChainEndsHere(s: Sched, m: Table, id: nat, k: nat)
    requires Next(s, m, id).None? && Chain(s, m, id, k).Some?
    ensures Chain(s, m, id, k) == Some(id)
  {
    if k > 0 { ChainEndsHere(s, m, id, k - 1); }
  }

  lemma ClearWaits(k: State, k': State, id: nat)
    requires WaitsOk(k) && id < MAX_TASKS
    requires k'.s.tasks == k.s.tasks[id := None] && k'.waits == k.waits[id := None]
    requires k'.lists == Forget(k.lists, id) && k'.tickets == k.tickets
    ensures WaitsOk(k')
  {
    forall addr: nat, send: bool
      ensures ListOk(k', addr, send)
      ensures forall t :: t != id ==> (t in ListOf(k'.lists, addr, send) <==> t in ListOf(k.lists, addr, send))
    {
      ClearList(k, k', id, addr, send);
    }
    hide ListOk, ListOf, Forget;
    forall t: nat | t < MAX_TASKS ensures TaskOkIn(k', t) { assert TaskOkIn(k, t); }
  }

  lemma ClearList(k: State, k': State, id: nat, addr: nat, send: bool)
    requires WaitsOk(k) && id < MAX_TASKS && k'.waits == k.waits[id := None] && k'.lists == Forget(k.lists, id)
    ensures ListOk(k', addr, send)
    ensures forall t :: t != id ==> (t in ListOf(k'.lists, addr, send) <==> t in ListOf(k.lists, addr, send))
  {
    var list := ListOf(k.lists, addr, send);
    assert ListOk(k, addr, send);
    ForgetOnlyDrops(k.lists, id, addr, send);
    assert ListOf(k'.lists, addr, send) == Unlisted(list, id);
    if id in list {
      RemoveInOrder(list, k.waits, addr, send, IndexOf(list, id), None);
    } else {
      KeepInOrder(list, k.waits, addr, send, id, None);
    }
  }

  // ── Without reuse the stale entries never matter ────────────────────────────────────────────

  /** The state as it would be if every purge were made together with its delete. */
  function Clean(w: World): State { w.k.(lists := Purged(w.k.lists, w.unpurged)) }

  /** An unpurged id's slot is empty, and at most one task is about to purge it. */
  ghost predicate PurgesOk(w: World) {
    && (forall id :: id in w.unpurged ==> id < MAX_TASKS && !Live(w.k.s, id))
    && (forall d :: d in w.purging ==> w.purging[d] in w.unpurged)
    && (forall d, e :: d in w.purging && e in w.purging && w.purging[d] == w.purging[e] ==> d == e)
  }

  ghost predicate WorldOk(w: World) {
    Inv(Clean(w)) && ListsDistinct(w.k.lists) && PurgesOk(w)
  }

  lemma DeleteOk(w: World, me: nat, id: nat, recompute: bool)
    requires WorldOk(w) && Deletable(w.k, id) && me in w.k.s.current && me !in w.purging
    requires recompute || Task(w.k.s, id).state.Deleting?
    ensures |w.k.waits| == |w.k.s.tasks| && WorldOk(Deleted(w, me, id, recompute))
    ensures Clean(Deleted(w, me, id, recompute)) ==
              Cleared(Clean(w), id, recompute).(lists := Forget(Clean(w).lists, id))
  {
    Sized(Clean(w));
    DeletedPurges(w, me, id, recompute);
    ClearedInv(Clean(w), id, recompute);
    PurgedMore(w.k.lists, w.unpurged, id);
    hide Inv, Purged, Forget, ListsDistinct, Deletable, RecomputeReadyBit, PurgesOk;
    assert Clean(Deleted(w, me, id, recompute)) ==
           Cleared(Clean(w), id, recompute).(lists := Forget(Clean(w).lists, id));
  }

  lemma DeletedPurges(w: World, me: nat, id: nat, recompute: bool)
    requires PurgesOk(w) && Live(w.k.s, id) && id < MAX_TASKS && |w.k.waits| == |w.k.s.tasks|
    requires me != id && me !in w.purging
    ensures PurgesOk(Deleted(w, me, id, recompute))
  {
    var w' := Deleted(w, me, id, recompute);
    assert forall x: nat :: Live(w'.k.s, x) == (Live(w.k.s, x) && x != id);
    assert forall d :: d in w.purging ==> w.purging[d] != id;
    hide Cleared, Live;
  }

  /** A task outside any wait may mark itself Deleting. */
  lemma DeleteSelfInv(k: State, core: nat)
    requires Inv(k) && InTask(k, core)
    ensures Inv(k.(s := BlockCurrent(k.s, core, Deleting)))
  {
    var s' := BlockCurrent(k.s, core, Deleting);
    var t := Task(k.s, Current(k, core)).(state := Deleting);
    BlockMask(k.s, core, Deleting);
    assert s'.tasks == k.s.tasks[Current(k, core) := Some(t)];
    hide Inv, MaskExact, BlockCurrent;
    StopInv(k, core, t, s');
  }

  lemma DeleteSelfOk(w: World, core: nat)
    requires WorldOk(w) && InTask(w.k, core)
    ensures WorldOk(w.(k := w.k.(s := BlockCurrent(w.k.s, core, Deleting))))
  {
    DeleteSelfInv(Clean(w), core);
    hide Inv, Purged, ListsDistinct, ActiveAt;
    assert forall x: nat :: Live(BlockCurrent(w.k.s, core, Deleting), x) == Live(w.k.s, x);
  }

  lemma PurgeOk(w: World, me: nat)
    requires WorldOk(w) && me in w.purging
    ensures WorldOk(PurgedBy(w, me)) && Clean(PurgedBy(w, me)) == Clean(w)
  {
    var id := w.purging[me];
    PurgedMore(w.k.lists, w.unpurged - {id}, id);
    PurgedPurges(w, me);
    assert w.unpurged - {id} + {id} == w.unpurged;
    hide Inv, Purged, Forget, ListsDistinct, PurgesOk;
    assert Clean(PurgedBy(w, me)) == Clean(w);
  }

  lemma PurgedPurges(w: World, me: nat)
    requires PurgesOk(w) && me in w.purging
    ensures PurgesOk(PurgedBy(w, me)) && w.purging[me] in w.unpurged
  {
    hide Live, Forget;
  }

  /** A section that does not look at the waiter lists. */
  predicate IgnoresLists(step: Label) { !step.EnrolOn? && !step.ResumeWait? && !step.WakeWaiter? }

  lemma OtherCleans(k: State, step: Label, lists: WaitTable)
    requires Enabled(k, step) && IgnoresLists(step)
    ensures Enabled(k.(lists := lists), step)
    ensures Apply(k, step).lists == k.lists
    ensures Apply(k.(lists := lists), step) == Apply(k, step).(lists := lists)
  {
    hide WellFormed, Schedules, Caller, OnTick, Dispatch, Rotated, Lock, Unlock, YieldCurrent, BlockCurrent;
  }

  lemma WakeCleans(w: World, addr: nat, send: bool)
    requires WorldOk(w) && Enabled(w.k, WakeWaiter(addr, send))
    ensures
      var k' := Apply(w.k, WakeWaiter(addr, send));
      && Enabled(Clean(w), WakeWaiter(addr, send)) && ListsDistinct(k'.lists)
      && Apply(Clean(w), WakeWaiter(addr, send)) == k'.(lists := Purged(k'.lists, w.unpurged))
  {
    WakeCommutes(w.k.s, w.k.lists, w.unpurged, addr, send);
    hide WakeOne, Purged, ListsDistinct, Inv;
  }

  lemma ResumeCleans(w: World, core: nat)
    requires WorldOk(w) && Enabled(w.k, ResumeWait(core))
    ensures
      var k' := Apply(w.k, ResumeWait(core));
      && Enabled(Clean(w), ResumeWait(core)) && ListsDistinct(k'.lists)
      && Apply(Clean(w), ResumeWait(core)) == k'.(lists := Purged(k'.lists, w.unpurged))
  {
    var id := Current(w.k, core);
    var wait := w.k.waits[id].value;
    ResumeCommutes(w.k.lists, w.unpurged, wait.addr, wait.send, id);
    hide Resume, Purged, ListsDistinct, Inv;
  }

  /** The enrolment is refused for the sake of stale entries: only the deadline is armed. */
  function Refused(k: State, core: nat, addr: nat, deadline: nat): State
    requires core < |k.s.current|
  {
    k.(s := Armed(k.s, core, deadline), lists := Found(k.lists, addr))
  }

  lemma EnrolCleans(w: World, core: nat, addr: nat, send: bool, deadline: nat)
    requires WorldOk(w) && Enabled(w.k, EnrolOn(core, addr, send, deadline))
    ensures
      var k' := Apply(w.k, EnrolOn(core, addr, send, deadline));
      var clean' := k'.(lists := Purged(k'.lists, w.unpurged));
      && Enabled(Clean(w), EnrolOn(core, addr, send, deadline)) && ListsDistinct(k'.lists)
      && (Apply(Clean(w), EnrolOn(core, addr, send, deadline)) == clean'
        || Refused(Clean(w), core, addr, deadline) == clean')
  {
    EnrolCommutes(w.k.s, w.k.lists, w.unpurged, core, addr, send, deadline);
    EnrolDistinct(w, core, addr, send, deadline);
    hide WorldOk, Inv, PurgesOk, ListsDistinct, Purged, Enrol, WellFormed, InTask, HasRoom, Armed, Found;
    EnrolOnOther(w.k, Purged(w.k.lists, w.unpurged), core, addr, send, deadline);
    hide Apply;
  }

  /** What an enrolment does beside the lists depends on the lists only through its outcome. */
  lemma EnrolOnOther(k: State, lists: WaitTable, core: nat, addr: nat, send: bool, deadline: nat)
    requires Enabled(k, EnrolOn(core, addr, send, deadline))
    ensures
      var step := EnrolOn(core, addr, send, deadline);
      var (s', w', ok) := Enrol(k.s, k.lists, core, addr, send, deadline);
      var (s2, w2, ok2) := Enrol(k.s, lists, core, addr, send, deadline);
      && Enabled(k.(lists := lists), step)
      && Apply(k, step).lists == w' && (!ok ==> Apply(k, step) == k.(s := s', lists := w'))
      && (s2 == s' && ok2 == ok ==> Apply(k.(lists := lists), step) == Apply(k, step).(lists := w2))
  {
    hide Enrol, WellFormed;
  }

  lemma EnrolDistinct(w: World, core: nat, addr: nat, send: bool, deadline: nat)
    requires WorldOk(w) && InTask(w.k, core)
    ensures Current(w.k, core) !in w.unpurged
    ensures ListsDistinct(Enrol(w.k.s, w.k.lists, core, addr, send, deadline).1)
  {
    var cur := Current(w.k, core);
    ListsAfterEnrol(w.k.s, w.k.lists, core, addr, send, deadline);
    var lists' := Enrol(w.k.s, w.k.lists, core, addr, send, deadline).1;
    forall a: nat, dir: bool ensures Distinct(ListOf(lists', a, dir)) {
      assert Distinct(ListOf(w.k.lists, a, dir));
      NotListed(w, cur, a, dir);
      hide ListOf, Enrol, WorldOk, Inv;
    }
  }

  /** A task in no wait is on no list. */
  lemma NotListed(w: World, id: nat, addr: nat, send: bool)
    requires WorldOk(w) && id < |w.k.waits| && Live(w.k.s, id) && w.k.waits[id].None?
    ensures id !in ListOf(w.k.lists, addr, send)
  {
    var list := ListOf(w.k.lists, addr, send);
    PurgedList(w.k.lists, w.unpurged, addr, send);
    KeptElements(list, w.unpurged);
    assert ListOk(Clean(w), addr, send);
  }

  lemma RefusedInv(k: State, core: nat, addr: nat, deadline: nat)
    requires Inv(k) && InTask(k, core)
    ensures Inv(Refused(k, core, addr, deadline))
  {
    var armed := Armed(k.s, core, deadline);
    MaskKept(k.s, armed);
    assert TaskOk(k.s.tasks[Current(k, core)]);
    ArmedFrames(k, core, deadline);
    SchedulerStep(k, armed);
    FoundCommutes(k.lists, {}, addr);
    SameListsWaits(k.(s := armed), Refused(k, core, addr, deadline));
    hide MaskExact, CoresOk, TableOk, PrioritiesOk, WaitsOk;
  }

  lemma ArmedFrames(k: State, core: nat, deadline: nat)
    requires WellFormed(k.s) && |k.waits| == MAX_TASKS && InTask(k, core)
    ensures
      var armed := Armed(k.s, core, deadline);
      WellFormed(armed) && SameInheritance(k.s, armed) && SameRunning(k.s, armed, k.idle) && SameWaiting(k, armed)
  {
    assert TaskOk(k.s.tasks[Current(k, core)]);
  }

  /** The waiter-list invariant looks at the lists, not at which addresses have empty ones. */
  lemma SameListsWaits(k: State, k': State)
    requires WaitsOk(k) && k'.s == k.s && k'.waits == k.waits && k'.tickets == k.tickets
    requires forall a: nat, dir: bool :: ListOf(k'.lists, a, dir) == ListOf(k.lists, a, dir)
    ensures WaitsOk(k')
  {
    hide ListOf;
    forall addr: nat, send: bool ensures ListOk(k', addr, send) { assert ListOk(k, addr, send); }
    forall id: nat | id < MAX_TASKS ensures TaskOkIn(k', id) { assert TaskOkIn(k, id); }
  }

  /** What a section does to the clean state: the same, or an enrolment is refused for stale entries. */
  lemma SectionCleans(w: World, step: Label)
    requires WorldOk(w) && Enabled(w.k, step)
    ensures Enabled(Clean(w), step)
    ensures
      var k' := Apply(w.k, step);
      var clean' := k'.(lists := Purged(k'.lists, w.unpurged));
      && ListsDistinct(k'.lists)
      && (Apply(Clean(w), step) == clean' ||
            (step.EnrolOn? && step.core < |w.k.s.current|
              && Refused(Clean(w), step.core, step.addr, step.deadline) == clean'))
  {
    hide Inv, Apply, Enabled, Purged, PurgesOk;
    match step
    case WakeWaiter(addr, send) => WakeCleans(w, addr, send);
    case ResumeWait(core) => ResumeCleans(w, core);
    case EnrolOn(core, addr, send, deadline) => EnrolCleans(w, core, addr, send, deadline); EnrolsOnCore(w.k, step);
    case _ => OtherCleans(w.k, step, Purged(w.k.lists, w.unpurged));
  }

  lemma EnrolsOnCore(k: State, step: Label)
    requires Enabled(k, step) && step.EnrolOn?
    ensures InTask(k, step.core) && step.core < |k.s.current|
  {
  }

  lemma SectionOk(w: World, step: Label)
    requires WorldOk(w) && Enabled(w.k, step) && (step.Spawn? ==> step.id !in w.unpurged)
    ensures WorldOk(w.(k := Apply(w.k, step)))
  {
    SectionCleans(w, step);
    var clean, k' := Clean(w), Apply(w.k, step);
    if Apply(clean, step) == k'.(lists := Purged(k'.lists, w.unpurged)) {
      Guarantees.StepInv(clean, step);
      forall id | id in w.unpurged ensures !Live(k'.s, id) { SectionFrame(clean, step, id); }
    } else {
      EnrolsOnCore(clean, step);
      RefusedInv(clean, step.core, step.addr, step.deadline);
    }
    hide Inv, Apply, Enabled, Purged, ListsDistinct;
  }

  lemma StepOk(w: World, step: Step)
    requires WorldOk(w) && Allowed(w, step, false)
    ensures WorldOk(Act(w, step, false))
  {
    hide WorldOk, Apply, Enabled, Deletable, Cleared;
    match step
    case Delete(core, id) => DeleteOk(w, Current(w.k, core), id, true);
    case DeleteSelf(core) => DeleteSelfOk(w, core);
    case Reap(core, id) => DeleteOk(w, Current(w.k, core), id, false);
    case Purge(core) => PurgeOk(w, Current(w.k, core));
    case Section(section) => SectionOk(w, section);
  }

  // ── Runs ────────────────────────────────────────────────────────────────────────────────────

  function Start(): World { World(Boot(), map[], {}) }

  ghost predicate Follows(w: World, step: Step, w': World, reuse: bool) {
    Allowed(w, step, reuse) && w' == Act(w, step, reuse)
  }

  ghost predicate IsRun(worlds: seq<World>, steps: seq<Step>, reuse: bool) {
    && |worlds| == |steps| + 1 && worlds[0] == Start()
    && forall i :: 0 <= i < |steps| ==> Follows(worlds[i], steps[i], worlds[i + 1], reuse)
  }

  lemma StartOk()
    ensures WorldOk(Start())
  {
    Guarantees.BootInv();
    assert Purged(map[], {}) == map[];
    hide Inv;
  }

  lemma {:induction false} RunOk(worlds: seq<World>, steps: seq<Step>, i: nat)
    requires IsRun(worlds, steps, false) && i < |worlds|
    ensures WorldOk(worlds[i])
  {
    hide WorldOk, Act, Allowed, Start;
    if i == 0 {
      StartOk();
    } else {
      RunOk(worlds, steps, i - 1);
      assert Follows(worlds[i - 1], steps[i - 1], worlds[i], false);
      StepOk(worlds[i - 1], steps[i - 1]);
    }
  }

  /** Without reuse every wait is still listed until it is popped, and every wake goes to a task that is
      waiting on that very list. */
  lemma CleanWaits(w: World)
    requires WorldOk(w)
    ensures |w.k.waits| == MAX_TASKS
    ensures forall t: nat :: t < MAX_TASKS && w.k.waits[t].Some? && !w.k.waits[t].value.popped ==>
              var wait := w.k.waits[t].value; t in ListOf(w.k.lists, wait.addr, wait.send)
    ensures forall addr: nat, send: bool :: Directed(w.k, addr, send)
  {
    var clean := Clean(w);
    forall t: nat | t < MAX_TASKS && w.k.waits[t].Some? && !w.k.waits[t].value.popped
      ensures var wait := w.k.waits[t].value; t in ListOf(w.k.lists, wait.addr, wait.send)
    {
      var wait := w.k.waits[t].value;
      assert TaskOkIn(clean, t);
      PurgedList(w.k.lists, w.unpurged, wait.addr, wait.send);
      KeptElements(ListOf(w.k.lists, wait.addr, wait.send), w.unpurged);
    }
    forall addr: nat, send: bool ensures Directed(w.k, addr, send) {
      WakeCommutes(w.k.s, w.k.lists, w.unpurged, addr, send);
      Guarantees.WakeIsFifo(clean, addr, send, 0);
      hide WakeOne, Inv, Purged, ListsDistinct, PurgesOk;
    }
  }

  /** Whoever a wake of this list finds is waiting on it. */
  predicate Directed(k: State, addr: nat, send: bool) {
    var woken := WakeOne(k.s, k.lists, addr, send).2;
    woken.Some? ==> woken.value < |k.waits| && WaitsFor(k.waits[woken.value], addr, send)
  }
}

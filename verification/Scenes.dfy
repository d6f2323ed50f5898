/** Concrete kernel states, for the runs that show what can happen: the two idle tasks and at most three
    workers of one priority, all on core 0. */
module Scenes {
  import opened Wrappers
  import opened Sequences
  import opened Tasks
  import opened Waiters
  import opened Kernel
  import Purging

  const LEVEL: nat := 10
  const BOTH: set<nat> := {LEVEL, IDLE_PRIORITY}

  /** `idle` is core 0's idle task's state; slots 2 to 4 are the workers', of whom the last never waits. */
  datatype Scene = Scene(
    idle: TaskState, t2: Option<Tcb>, t3: Option<Tcb>, t4: Option<Tcb>, current: nat, mask: set<nat>, rotor: nat,
    lists: WaitTable, w2: Option<Wait>, w3: Option<Wait>, tickets: nat)

  /** Slots 2 to 4 hold the workers' entries, and every later slot is empty. */
  predicate Holds<T(==)>(slots: seq<Option<T>>, x2: Option<T>, x3: Option<T>, x4: Option<T>) {
    && |slots| == MAX_TASKS && slots[2] == x2 && slots[3] == x3 && slots[4] == x4
    && forall j :: 5 <= j < MAX_TASKS ==> slots[j] == None
  }

  ghost predicate SchedShows(s: Sched, scene: Scene) {
    && Holds(s.tasks, scene.t2, scene.t3, scene.t4)
    && s.tasks[0] == Some(IdleTask(0).(state := scene.idle)) && s.tasks[1] == Some(IdleTask(1))
    && s.current == [scene.current, NO_TASK] && s.readyMask == scene.mask
    && |s.lastRun| == NUM_PRIORITIES && s.lastRun[LEVEL] == scene.rotor
    && (forall p :: 0 <= p < NUM_PRIORITIES ==> s.lastRun[p] < MAX_TASKS)
  }

  ghost predicate Shows(k: State, scene: Scene) {
    && SchedShows(k.s, scene)
    && k.lists == scene.lists && k.tickets == scene.tickets && k.idle == [0, 1]
    && Holds(k.waits, scene.w2, scene.w3, None) && k.waits[0] == None && k.waits[1] == None
    && k.mutexes == map[]
  }

  /** The section can run, and leads from a state to the scene. */
  ghost predicate Leads(k: State, step: Label, scene: Scene) {
    Enabled(k, step) && Shows(Apply(k, step), scene)
  }

  function Worker(state: TaskState): Option<Tcb> { Some(NewTask(Any, LEVEL).(state := state)) }

  function Waiting(addr: nat, ticket: nat, popped: bool): Option<Wait> {
    Some(Wait(addr, false, 0, ticket, popped, false))
  }

  /** The block of a worker, or none. */
  function BlockOf(scene: Scene, id: nat): Option<Tcb> {
    if id == 2 then scene.t2 else if id == 3 then scene.t3 else scene.t4
  }

  function WaitOf(scene: Scene, id: nat): Option<Wait> {
    if id == 2 then scene.w2 else if id == 3 then scene.w3 else None
  }

  function WithBlock(scene: Scene, id: nat, t: Option<Tcb>): Scene {
    if id == 2 then scene.(t2 := t) else if id == 3 then scene.(t3 := t) else scene.(t4 := t)
  }

  function WithWait(scene: Scene, id: nat, w: Option<Wait>): Scene {
    if id == 2 then scene.(w2 := w) else if id == 3 then scene.(w3 := w) else scene
  }

  predicate InRange(scene: Scene) {
    && TaskOk(scene.t2) && TaskOk(scene.t3) && TaskOk(scene.t4)
    && (scene.current < MAX_TASKS || scene.current == NO_TASK)
  }

  const START: Scene := Scene(Ready, None, None, None, NO_TASK, {IDLE_PRIORITY}, 0, map[], None, None, 0)

  lemma BootShows()
    ensures Shows(Boot(), START)
  {
  }

  lemma ShownSizes(k: State, scene: Scene)
    requires Shows(k, scene) && InRange(scene)
    ensures WellFormed(k.s) && |k.waits| == MAX_TASKS
  {
    assert forall i :: 0 <= i < MAX_TASKS ==> TaskOk(k.s.tasks[i]);
  }

  lemma Joins(k: State, scene: Scene)
    requires Shows(k, scene) && scene == START
    ensures Leads(k, JoinCore(0), scene.(idle := Running, current := 0))
  {
    ShownSizes(k, scene);
  }

  lemma Spawns(k: State, scene: Scene, id: nat)
    requires Shows(k, scene) && InRange(scene) && 2 <= id <= 4
    requires BlockOf(scene, id) == None && WaitOf(scene, id) == None
    ensures Leads(k, Spawn(id, Any, LEVEL), Spawned(scene, id))
  {
    ShownSizes(k, scene);
    var added := k.s.(tasks := k.s.tasks[id := Worker(Init)]);
    assert MakeReady(added, id).tasks == k.s.tasks[id := Worker(Ready)];
    assert MakeReady(added, id).readyMask == k.s.readyMask + {LEVEL};
    hide MakeReady, WellFormed;
  }

  function Spawned(scene: Scene, id: nat): Scene {
    WithBlock(scene, id, Worker(Ready)).(mask := scene.mask + {LEVEL})
  }

  /** Worker `next` is Ready, and nobody is in front of it. */
  predicate MayDispatch(scene: Scene, next: nat) {
    && scene.mask == BOTH && scene.rotor < MAX_TASKS && scene.current in {0, 2, 3, 4}
    && 2 <= next <= 4 && next != scene.current
    && scene.idle == (if scene.current == 0 then Running else Ready)
    && BlockOf(scene, next) == Worker(Ready)
    && (next != 2 ==> GivesWay(scene, 2)) && (next != 3 ==> GivesWay(scene, 3)) && (next != 4 ==> GivesWay(scene, 4))
  }

  /** Not there, asleep, or running and last in turn. */
  predicate GivesWay(scene: Scene, id: nat) {
    || BlockOf(scene, id) == None || BlockOf(scene, id) == Worker(BlockedRecv)
    || (BlockOf(scene, id) == Worker(Running) && scene.current == scene.rotor == id)
  }

  /** Whoever was running is Ready again. */
  function Requeued(scene: Scene): Scene {
    if scene.current == 0 then scene.(idle := Ready)
    else if BlockOf(scene, scene.current) == Worker(Running) then WithBlock(scene, scene.current, Worker(Ready))
    else scene
  }

  function Dispatched(scene: Scene, next: nat): Scene {
    WithBlock(Requeued(scene), next, Worker(Running)).(current := next, rotor := next)
  }

  lemma Dispatches(k: State, scene: Scene, next: nat)
    requires Shows(k, scene) && MayDispatch(scene, next)
    ensures Leads(k, Switch(0, next), Dispatched(scene, next))
  {
    Picks(k.s, scene, next);
    hide IsPick, Eligible, Dispatch, SchedShows, MayDispatch, Dispatched;
    var rotated := Rotated(k.s, 0, next);
    assert rotated == k.s.(lastRun := k.s.lastRun[LEVEL := next]);
    DispatchShows(k.s, rotated, scene, next);
  }

  lemma Picks(s: Sched, scene: Scene, next: nat)
    requires SchedShows(s, scene) && MayDispatch(scene, next)
    ensures WellFormed(s) && IsPick(s, 0, next) && Task(s, next).priority == LEVEL
  {
    assert forall i :: 0 <= i < MAX_TASKS ==> TaskOk(s.tasks[i]);
    assert forall j: nat :: Live(s, j) ==> j < 5;
  }

  lemma DispatchShows(s: Sched, rotated: Sched, scene: Scene, next: nat)
    requires SchedShows(s, scene) && MayDispatch(scene, next) && rotated == s.(lastRun := s.lastRun[LEVEL := next])
    ensures SchedShows(Dispatch(rotated, 0, next), Dispatched(scene, next))
  {
    var cur := scene.current;
    var turned := scene.(rotor := next);
    assert SchedShows(rotated, turned) && MayRequeue(turned);
    RequeueShows(rotated, turned);
    hide SchedShows, MayDispatch;
    InstallShows(RequeuedSched(rotated), Requeued(turned), next);
    assert rotated.current[0] == cur by { CurrentIs(rotated, turned); }
    assert Dispatch(rotated, 0, next) == SetCurrent(RequeuedSched(rotated), 0, next);
  }

  predicate MayRequeue(scene: Scene) {
    scene.mask == BOTH && scene.current in {0, 2, 3, 4} && scene.idle == (if scene.current == 0 then Running else Ready)
  }

  lemma CurrentIs(s: Sched, scene: Scene)
    requires SchedShows(s, scene)
    ensures s.current == [scene.current, NO_TASK]
  {
  }

  /** The first half of a dispatch. */
  function RequeuedSched(s: Sched): Sched
    requires |s.current| > 0
  {
    var cur := s.current[0];
    if Live(s, cur) && Task(s, cur).state.Running?
    then Put(s, cur, Task(s, cur).(state := Ready)).(readyMask := s.readyMask + {Task(s, cur).priority}) else s
  }

  lemma RequeueShows(s: Sched, scene: Scene)
    requires SchedShows(s, scene) && MayRequeue(scene)
    requires scene.current >= 2 ==> BlockOf(scene, scene.current) in {None, Worker(Running), Worker(BlockedRecv)}
    ensures |s.current| > 0 && SchedShows(RequeuedSched(s), Requeued(scene))
  {
    assert BOTH + {LEVEL} == BOTH && BOTH + {IDLE_PRIORITY} == BOTH;
  }

  lemma InstallShows(s: Sched, scene: Scene, next: nat)
    requires SchedShows(s, scene) && 2 <= next <= 4 && BlockOf(scene, next) == Worker(Ready)
    ensures |s.current| > 0
    ensures SchedShows(SetCurrent(s, 0, next), WithBlock(scene, next, Worker(Running)).(current := next))
  {
    assert Task(s, next) == Worker(Ready).value;
  }

  /** The running worker enrols on the receivers' list of `addr`, to wait forever. */
  predicate MayEnrol(scene: Scene, addr: nat) {
    && InRange(scene) && 2 <= scene.current <= 3 && scene.mask == BOTH && scene.t4 == None
    && BlockOf(scene, scene.current) == Worker(Running) && WaitOf(scene, scene.current) == None
    && BlockOf(scene, 5 - scene.current) in {None, Worker(BlockedRecv), Worker(Ready)}
    && FindOrCreate(scene.lists, addr).Some? && |ListOf(scene.lists, addr, false)| < MAX_LISTED
  }

  function Enrolled(scene: Scene, addr: nat): Scene
    requires MayEnrol(scene, addr)
  {
    var me, found := scene.current, FindOrCreate(scene.lists, addr).value;
    var blocked := WithWait(WithBlock(scene, me, Worker(BlockedRecv)), me, Waiting(addr, scene.tickets, false));
    blocked.(lists := WithList(found, addr, false, ListOf(found, addr, false) + [me]),
             mask := if BlockOf(scene, 5 - me) == Worker(Ready) then BOTH else {IDLE_PRIORITY},
             tickets := scene.tickets + 1)
  }

  lemma Enrols(k: State, scene: Scene, addr: nat)
    requires Shows(k, scene) && MayEnrol(scene, addr)
    ensures Leads(k, EnrolOn(0, addr, false, 0), Enrolled(scene, addr))
  {
    ShownSizes(k, scene);
    Executing(k, scene);
    EnrolShows(k.s, scene, addr);
    hide Enrol, SchedShows, FindOrCreate, ListOf, WithList, WellFormed, MayEnrol, InTask;
    WaitShows(k, scene, Enrolled(scene, addr));
  }

  /** The waits after the running worker has joined a list. */
  lemma WaitShows(k: State, scene: Scene, scene': Scene)
    requires Holds(k.waits, scene.w2, scene.w3, None) && 2 <= scene.current <= 3
    requires scene'.w2 == (if scene.current == 2 then WaitOf(scene', 2) else scene.w2)
    requires scene'.w3 == (if scene.current == 3 then WaitOf(scene', 3) else scene.w3)
    ensures Holds(k.waits[scene.current := WaitOf(scene', scene.current)], scene'.w2, scene'.w3, None)
  {
  }

  /** A running worker outside a wait may make any task-context section. */
  lemma Executing(k: State, scene: Scene)
    requires Shows(k, scene) && 2 <= scene.current <= 4
    requires BlockOf(scene, scene.current) == Worker(Running) && WaitOf(scene, scene.current) == None
    ensures InTask(k, 0) && Current(k, 0) == scene.current
  {
    assert Live(k.s, scene.current);
  }

  lemma EnrolShows(s: Sched, scene: Scene, addr: nat)
    requires SchedShows(s, scene) && MayEnrol(scene, addr)
    ensures
      var (s', w', ok) := Enrol(s, scene.lists, 0, addr, false, 0);
      SchedShows(s', Enrolled(scene, addr)) && w' == Enrolled(scene, addr).lists && ok
  {
    var me := scene.current;
    BlockShows(s, scene, addr);
    assert Put(s, me, Task(s, me).(sleepUntil := 0)) == s by {
      assert s.tasks[me := Some(Task(s, me).(sleepUntil := 0))] == s.tasks;
    }
    hide SchedShows, BlockCurrent, FindOrCreate, ListOf, WithList;
  }

  lemma BlockShows(s: Sched, scene: Scene, addr: nat)
    requires SchedShows(s, scene) && MayEnrol(scene, addr)
    ensures s.current == [scene.current, NO_TASK] && Live(s, scene.current)
    ensures SchedShows(BlockCurrent(s, 0, BlockedRecv), Enrolled(scene, addr))
  {
    var me := scene.current;
    var put := Put(s, me, Task(s, me).(state := BlockedRecv));
    assert ActiveAt(put, LEVEL) <==> BlockOf(scene, 5 - me) == Worker(Ready) by {
      assert put.tasks[5 - me] == BlockOf(scene, 5 - me);
    }
    assert BlockCurrent(s, 0, BlockedRecv) == RecomputeReadyBit(put, LEVEL);
    assert BOTH - {LEVEL} == {IDLE_PRIORITY} && BOTH + {LEVEL} == BOTH;
    hide ActiveAt, FindOrCreate, ListOf, WithList;
  }

  /** A wake of the receivers' list of `addr`, whose first entry is a worker asleep there. */
  predicate MayWake(scene: Scene, addr: nat, id: nat) {
    && InRange(scene) && 2 <= id <= 3 && addr in scene.lists
    && ListOf(scene.lists, addr, false) != [] && ListOf(scene.lists, addr, false)[0] == id
    && BlockOf(scene, id) == Worker(BlockedRecv) && WaitOf(scene, id).Some?
  }

  function Woke(scene: Scene, addr: nat, id: nat): Scene
    requires MayWake(scene, addr, id)
  {
    var ready := WithBlock(scene, id, Worker(Ready));
    WithWait(ready, id, Some(WaitOf(scene, id).value.(popped := true)))
    .(lists := WithList(scene.lists, addr, false, ListOf(scene.lists, addr, false)[1..]), mask := scene.mask + {LEVEL})
  }

  lemma Wakes(k: State, scene: Scene, addr: nat, id: nat)
    requires Shows(k, scene) && MayWake(scene, addr, id)
    ensures Leads(k, WakeWaiter(addr, false), Woke(scene, addr, id))
  {
    ShownSizes(k, scene);
    WakeShows(k.s, scene, addr, id);
    hide WakeOne, SchedShows, WellFormed, MayWake, ListOf, WithList;
  }

  lemma WakeShows(s: Sched, scene: Scene, addr: nat, id: nat)
    requires SchedShows(s, scene) && MayWake(scene, addr, id)
    ensures
      var (s', w', woken) := WakeOne(s, scene.lists, addr, false);
      SchedShows(s', Woke(scene, addr, id)) && w' == Woke(scene, addr, id).lists && woken == Some(id)
  {
    var list := ListOf(scene.lists, addr, false);
    assert Live(s, id) && Task(s, id) == Worker(BlockedRecv).value;
    assert FirstBlocked(s, list, BlockedRecv) == 0;
    assert RemoveAt(list, 0) == list[1..];
    hide FirstBlocked, RemoveAt, ListOf, WithList;
  }

  /** A wake of a list that is empty, or not there. */
  lemma WakesNobody(k: State, scene: Scene, addr: nat)
    requires Shows(k, scene) && InRange(scene) && ListOf(scene.lists, addr, false) == []
    ensures Leads(k, WakeWaiter(addr, false), scene)
  {
    ShownSizes(k, scene);
    hide SchedShows, WellFormed;
  }

  /** The running worker deletes another. */
  predicate MayDelete(scene: Scene, id: nat) {
    && InRange(scene) && 2 <= scene.current <= 4 && 2 <= id <= 4 && id != scene.current && scene.mask == BOTH
    && BlockOf(scene, scene.current) == Worker(Running) && WaitOf(scene, scene.current) == None
    && BlockOf(scene, id) in {Worker(Ready), Worker(BlockedRecv)}
  }

  function Without(scene: Scene, id: nat): Scene { WithWait(WithBlock(scene, id, None), id, None) }

  lemma Deletes(k: State, scene: Scene, id: nat)
    requires Shows(k, scene) && MayDelete(scene, id)
    ensures WellFormed(k.s) && |k.waits| == MAX_TASKS && InTask(k, 0) && Purging.Deletable(k, id)
    ensures Shows(Purging.Cleared(k, id, true), Without(scene, id))
  {
    ShownSizes(k, scene);
    Executing(k, scene);
    MayClear(k, scene, id);
    ClearShows(k.s, scene, id);
    hide SchedShows, InTask, WellFormed, RecomputeReadyBit, Purging.Deletable;
    assert Holds(k.waits[id := None], Without(scene, id).w2, Without(scene, id).w3, None);
  }

  lemma MayClear(k: State, scene: Scene, id: nat)
    requires Shows(k, scene) && MayDelete(scene, id)
    ensures Purging.Deletable(k, id) && Task(k.s, id).priority == LEVEL
  {
  }

  lemma ClearShows(s: Sched, scene: Scene, id: nat)
    requires SchedShows(s, scene) && MayDelete(scene, id)
    ensures SchedShows(RecomputeReadyBit(s.(tasks := s.tasks[id := None]), LEVEL), Without(scene, id))
  {
    var s' := s.(tasks := s.tasks[id := None]);
    assert s'.tasks[scene.current] == Worker(Running);
    assert ActiveAt(s', LEVEL);
    assert BOTH + {LEVEL} == BOTH;
    hide ActiveAt;
  }
}

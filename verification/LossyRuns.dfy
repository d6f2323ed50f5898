/** The four ways a wakeup is lost, each with its run, and that there is no fifth.

    A caller with a deadline of its own is woken for a unit, finds that its time is up, and returns without
    taking it while another caller sleeps on. A caller woken for a unit is deleted before it takes it. A bare
    test gets through to a byte queue, which wakes nobody. And a slot is filled before the id of its former
    task has been purged: the purge takes its new task off the list that a wake looks at. */
module LossyRuns {
  import opened Wrappers
  import opened Tasks
  import opened Waiters
  import opened Kernel
  import opened Deadlines
  import opened Scenes
  import opened BlockingObjects
  import opened Departures
  import opened Machines
  import opened LostWakeups
  import Purging

  const ADDR: nat := 0x2000_1000

  /** One object at ADDR, the workers' calls, and the purge that a worker still has to make. */
  datatype Setting = Setting(
    scene: Scene, thing: Object, c2: Option<Call>, c3: Option<Call>, purging: map<nat, nat>, unpurged: set<nat>)

  ghost predicate Depicts(m: Machine, setting: Setting) {
    && Shows(m.sys.k, setting.scene)
    && m.sys.objects == map[ADDR := setting.thing]
    && Holds(m.sys.calls, setting.c2, setting.c3, None) && m.sys.calls[0] == None && m.sys.calls[1] == None
    && m.purging == setting.purging && m.unpurged == setting.unpurged
  }

  /** The event can happen, and leads to the setting. */
  ghost predicate Reaches(m: Machine, e: Event, setting: Setting, rules: Rules) {
    MayHappen(m, e, rules.reuse) && Obeys(m, e, rules) && Depicts(Happens(m, e, rules.reuse), setting)
  }

  /** Which run: somebody's deadline passes, an awake caller is deleted, a bare test puts an item into a byte
      queue, or a slot is filled too early. */
  datatype Plan = Expiring(timeout: Millis) | Departing | Bare | Reusing

  function RulesOf(plan: Plan): Rules {
    Rules(if plan.Expiring? then plan.timeout else FOREVER, plan.Bare?, plan.Departing?, plan.Reusing?)
  }

  function Op(plan: Plan): Operation { if plan.Bare? then Get else Take }

  function Thing(plan: Plan, units: nat): Object {
    if plan.Bare? then ByteQueue(units, 1) else Semaphore(units, 1)
  }

  function Calling(plan: Plan, timeout: Millis, tested: bool): Option<Call> {
    Some(Call(ADDR, Op(plan), DeadlineFor(timeout, 0), tested))
  }

  function Queued(waiters: seq<nat>): WaitTable { map[ADDR := Lists([], waiters)] }

  function Length(plan: Plan): nat { if plan.Bare? then 6 else if plan.Reusing? then 12 else 13 }

  /** Tasks 2 and 3 call and sleep, one permit is given, which wakes task 2; and then task 2 resumes after its
      deadline and leaves, or task 4 has given the permit and deletes task 2. Or only task 2 calls, and an
      item is put into the queue barely. */
  function SleepersScript(plan: Plan, i: nat): Event {
    match i
    case 0 => Do(Section(JoinCore(0)))
    case 1 => Do(Section(Spawn(2, Any, LEVEL)))
    case 2 => Do(Section(Switch(0, 2)))
    case 3 => Do(Begin(0, ADDR, Op(plan), RulesOf(plan).timeout, 0))
    case 4 => Do(Test(0))
    case 5 => if plan.Bare? then Do(BareTest(ADDR, Operation.Put, 0)) else Do(Section(Spawn(3, Any, LEVEL)))
    case 6 => Do(Section(Switch(0, 3)))
    case 7 => Do(Begin(0, ADDR, Op(plan), FOREVER, 0))
    case 8 => Do(Test(0))
    case 9 => if plan.Departing? then Do(Section(Spawn(4, Any, LEVEL))) else Do(GivePermit(ADDR))
    case 10 => if plan.Departing? then Do(Section(Switch(0, 4))) else Do(Section(Switch(0, 2)))
    case 11 => if plan.Departing? then Do(GivePermit(ADDR)) else Do(Section(ResumeWait(0)))
    case _ =>
      if plan.Departing? then Leave(Purging.Delete(0, 2))
      else Do(GiveUp(0, DeadlineFor(RulesOf(plan).timeout, 0)))
  }

  /** Task 2 deletes task 3; before it has purged the id a new task is spawned into slot 3, calls and sleeps;
      then task 2 purges, and one permit is given. */
  function ReuseScript(i: nat): Event {
    match i
    case 0 => Do(Section(JoinCore(0)))
    case 1 => Do(Section(Spawn(2, Any, LEVEL)))
    case 2 => Do(Section(Switch(0, 2)))
    case 3 => Do(Section(Spawn(3, Any, LEVEL)))
    case 4 => Leave(Purging.Delete(0, 3))
    case 5 => Do(Section(Spawn(3, Any, LEVEL)))
    case 6 => Do(Section(Switch(0, 3)))
    case 7 => Do(Begin(0, ADDR, Take, FOREVER, 0))
    case 8 => Do(Test(0))
    case 9 => Do(Section(Switch(0, 2)))
    case 10 => Leave(Purging.Purge(0))
    case _ => Do(GivePermit(ADDR))
  }

  function Script(plan: Plan, i: nat): Event {
    if plan.Reusing? then ReuseScript(i) else SleepersScript(plan, i)
  }

  /** The scene before event `i` of the script, and after the last one. */
  function SleepersStage(plan: Plan, i: nat): Scene {
    var up := Worker(Ready);
    var on := Worker(Running);
    var off := Worker(BlockedRecv);
    var first, woken, second := Waiting(ADDR, 0, false), Waiting(ADDR, 0, true), Waiting(ADDR, 1, false);
    var none: set<nat> := {IDLE_PRIORITY};
    match i
    case 0 => START
    case 1 => Scene(Running, None, None, None, 0, none, 0, map[], None, None, 0)
    case 2 => Scene(Running, up, None, None, 0, BOTH, 0, map[], None, None, 0)
    case 3 => Scene(Ready, on, None, None, 2, BOTH, 2, map[], None, None, 0)
    case 4 => Scene(Ready, on, None, None, 2, BOTH, 2, map[], None, None, 0)
    case 5 => Scene(Ready, off, None, None, 2, none, 2, Queued([2]), first, None, 1)
    case 6 =>
      if plan.Bare? then Scene(Ready, off, None, None, 2, none, 2, Queued([2]), first, None, 1)
      else Scene(Ready, off, up, None, 2, BOTH, 2, Queued([2]), first, None, 1)
    case 7 => Scene(Ready, off, on, None, 3, BOTH, 3, Queued([2]), first, None, 1)
    case 8 => Scene(Ready, off, on, None, 3, BOTH, 3, Queued([2]), first, None, 1)
    case 9 => Scene(Ready, off, off, None, 3, none, 3, Queued([2, 3]), first, second, 2)
    case 10 =>
      if plan.Departing? then Scene(Ready, off, off, up, 3, BOTH, 3, Queued([2, 3]), first, second, 2)
      else Scene(Ready, up, off, None, 3, BOTH, 3, Queued([3]), woken, second, 2)
    case 11 =>
      if plan.Departing? then Scene(Ready, off, off, on, 4, BOTH, 4, Queued([2, 3]), first, second, 2)
      else Scene(Ready, on, off, None, 2, BOTH, 2, Queued([3]), woken, second, 2)
    case 12 =>
      if plan.Departing? then Scene(Ready, up, off, on, 4, BOTH, 4, Queued([3]), woken, second, 2)
      else Scene(Ready, on, off, None, 2, BOTH, 2, Queued([3]), None, second, 2)
    case _ =>
      if plan.Departing? then Scene(Ready, None, off, on, 4, BOTH, 4, Queued([3]), None, second, 2)
      else Scene(Ready, on, off, None, 2, BOTH, 2, Queued([3]), None, second, 2)
  }

  function ReuseStage(i: nat): Scene {
    var up := Worker(Ready);
    var on := Worker(Running);
    var off := Worker(BlockedRecv);
    var wait := Waiting(ADDR, 0, false);
    match i
    case 0 => START
    case 1 => Scene(Running, None, None, None, 0, {IDLE_PRIORITY}, 0, map[], None, None, 0)
    case 2 => Scene(Running, up, None, None, 0, BOTH, 0, map[], None, None, 0)
    case 3 => Scene(Ready, on, None, None, 2, BOTH, 2, map[], None, None, 0)
    case 4 => Scene(Ready, on, up, None, 2, BOTH, 2, map[], None, None, 0)
    case 5 => Scene(Ready, on, None, None, 2, BOTH, 2, map[], None, None, 0)
    case 6 => Scene(Ready, on, up, None, 2, BOTH, 2, map[], None, None, 0)
    case 7 => Scene(Ready, up, on, None, 3, BOTH, 3, map[], None, None, 0)
    case 8 => Scene(Ready, up, on, None, 3, BOTH, 3, map[], None, None, 0)
    case 9 => Scene(Ready, up, off, None, 3, BOTH, 3, Queued([3]), None, wait, 1)
    case 10 => Scene(Ready, on, off, None, 2, BOTH, 2, Queued([3]), None, wait, 1)
    case _ => Scene(Ready, on, off, None, 2, BOTH, 2, Queued([]), None, wait, 1)
  }

  function Stage(plan: Plan, i: nat): Scene {
    if plan.Reusing? then ReuseStage(i) else SleepersStage(plan, i)
  }

  /** Units of the object: none until the permit is given or the item is put. */
  function Units(plan: Plan, i: nat): nat {
    match plan
    case Expiring(_) => if i >= 10 then 1 else 0
    case Departing => if i >= 12 then 1 else 0
    case Bare => if i >= 6 then 1 else 0
    case Reusing => if i >= 12 then 1 else 0
  }

  function FirstCall(plan: Plan, i: nat): Option<Call> {
    if plan.Reusing? || i < 4 || i >= 13 then None else Calling(plan, RulesOf(plan).timeout, i > 4)
  }

  function SecondCall(plan: Plan, i: nat): Option<Call> {
    if plan.Bare? || i < 8 then None else Calling(plan, FOREVER, i > 8)
  }

  /** The purge under way: the deleting task and the id. */
  function PurgeDue(plan: Plan, i: nat): (map<nat, nat>, set<nat>) {
    if plan.Reusing? && 5 <= i <= 10 then (map[2 := 3], {3})
    else if plan.Departing? && i >= 13 then (map[4 := 2], {2})
    else (map[], {})
  }

  function StageSetting(plan: Plan, i: nat): Setting {
    Setting(Stage(plan, i), Thing(plan, Units(plan, i)), FirstCall(plan, i), SecondCall(plan, i),
            PurgeDue(plan, i).0, PurgeDue(plan, i).1)
  }

  // ── Single events ───────────────────────────────────────────────────────────────────────────

  lemma SectionHappens(m: Machine, step: Label, rules: Rules)
    requires WellFormed(m.sys.k.s) && |m.sys.k.waits| == MAX_TASKS && Enabled(m.sys.k, step)
    requires Separate(m.sys, step) && Purging.Separate(WorldOf(m), step, rules.reuse)
    ensures MayHappen(m, Do(Section(step)), rules.reuse) && Obeys(m, Do(Section(step)), rules)
    ensures Happens(m, Do(Section(step)), rules.reuse) == m.(sys := m.sys.(k := Apply(m.sys.k, step)))
  {
    hide WellFormed, Enabled, Separate, Purging.Separate, Apply;
  }

  /** A section of the kernel that no call is part of. */
  lemma SectionReaches(m: Machine, setting: Setting, step: Label, scene: Scene, rules: Rules)
    requires Depicts(m, setting) && InRange(setting.scene) && Leads(m.sys.k, step, scene)
    requires Separate(m.sys, step) && Purging.Separate(WorldOf(m), step, rules.reuse)
    ensures Reaches(m, Do(Section(step)), setting.(scene := scene), rules)
  {
    ShownSizes(m.sys.k, setting.scene);
    SectionHappens(m, step, rules);
    hide Shows, Enabled, Apply, Separate, Purging.Separate, WellFormed, Holds, MayHappen, Happens, Obeys;
  }

  lemma JoinReaches(m: Machine, setting: Setting, rules: Rules)
    requires Depicts(m, setting) && setting.scene == START
    ensures Reaches(m, Do(Section(JoinCore(0))), setting.(scene := START.(idle := Running, current := 0)), rules)
  {
    Joins(m.sys.k, START);
    hide Leads;
    SectionReaches(m, setting, JoinCore(0), START.(idle := Running, current := 0), rules);
  }

  lemma SpawnReaches(m: Machine, setting: Setting, id: nat, rules: Rules)
    requires Depicts(m, setting) && InRange(setting.scene) && 2 <= id <= 4
    requires BlockOf(setting.scene, id) == None && WaitOf(setting.scene, id) == None && CallOf(setting, id) == None
    requires rules.reuse || id !in setting.unpurged
    ensures Reaches(m, Do(Section(Spawn(id, Any, LEVEL))), setting.(scene := Spawned(setting.scene, id)), rules)
  {
    Spawns(m.sys.k, setting.scene, id);
    hide Leads, Spawned, Shows;
    SectionReaches(m, setting, Spawn(id, Any, LEVEL), Spawned(setting.scene, id), rules);
  }

  lemma SwitchReaches(m: Machine, setting: Setting, next: nat, rules: Rules)
    requires Depicts(m, setting) && InRange(setting.scene) && MayDispatch(setting.scene, next)
    ensures Reaches(m, Do(Section(Switch(0, next))), setting.(scene := Dispatched(setting.scene, next)), rules)
  {
    Dispatches(m.sys.k, setting.scene, next);
    hide Leads, MayDispatch, Dispatched, Shows;
    SectionReaches(m, setting, Switch(0, next), Dispatched(setting.scene, next), rules);
  }

  function WithCall(setting: Setting, id: nat, call: Option<Call>): Setting {
    if id == 2 then setting.(c2 := call) else setting.(c3 := call)
  }

  function CallOf(setting: Setting, id: nat): Option<Call> {
    if id == 2 then setting.c2 else if id == 3 then setting.c3 else None
  }

  /** The running worker is not in a wait, in this call or in none, and not in the middle of a deletion. */
  predicate IsCalling(setting: Setting, call: Option<Call>) {
    && InRange(setting.scene) && 2 <= setting.scene.current <= 3 && setting.scene.current !in setting.purging
    && BlockOf(setting.scene, setting.scene.current) == Worker(Running)
    && WaitOf(setting.scene, setting.scene.current) == None
    && CallOf(setting, setting.scene.current) == call
  }

  /** What the setting says about the running worker. */
  lemma CallerIs(m: Machine, setting: Setting, call: Option<Call>)
    requires Depicts(m, setting) && IsCalling(setting, call)
    ensures WellFormed(m.sys.k.s) && |m.sys.k.waits| == |m.sys.calls| == MAX_TASKS
    ensures InTask(m.sys.k, 0) && Me(m.sys, 0) == setting.scene.current && m.sys.calls[setting.scene.current] == call
    ensures Purging.Free(WorldOf(m), 0)
  {
    ShownSizes(m.sys.k, setting.scene);
    Executing(m.sys.k, setting.scene);
    hide Shows, InTask, WellFormed;
  }

  lemma CallsHold(calls: seq<Option<Call>>, setting: Setting, id: nat, call: Option<Call>)
    requires Holds(calls, setting.c2, setting.c3, None) && 2 <= id <= 3
    ensures
      var setting' := WithCall(setting, id, call);
      Holds(calls[id := call], setting'.c2, setting'.c3, None)
  {
  }

  lemma BeginHappens(m: Machine, op: Operation, timeout: Millis, me: nat, reuse: bool)
    requires WellFormed(m.sys.k.s) && |m.sys.k.waits| == |m.sys.calls| == MAX_TASKS
    requires InTask(m.sys.k, 0) && Me(m.sys, 0) == me < MAX_TASKS && m.sys.calls[me] == None
    requires Purging.Free(WorldOf(m), 0) && ADDR in m.sys.objects && Fits(m.sys.objects[ADDR], op)
    ensures MayHappen(m, Do(Begin(0, ADDR, op, timeout, 0)), reuse)
    ensures
      var call := Some(Call(ADDR, op, DeadlineFor(timeout, 0), false));
      Happens(m, Do(Begin(0, ADDR, op, timeout, 0)), reuse) ==
        m.(sys := m.sys.(calls := m.sys.calls[me := call]))
  {
    hide WellFormed, InTask, Purging.Free, DeadlineFor;
  }

  lemma BeginReaches(m: Machine, setting: Setting, op: Operation, timeout: Millis, rules: Rules)
    requires Depicts(m, setting) && IsCalling(setting, None) && Fits(setting.thing, op)
    requires timeout == rules.timeout || timeout == FOREVER
    ensures
      var call := Some(Call(ADDR, op, DeadlineFor(timeout, 0), false));
      Reaches(m, Do(Begin(0, ADDR, op, timeout, 0)), WithCall(setting, setting.scene.current, call), rules)
  {
    CallerIs(m, setting, None);
    BeginHappens(m, op, timeout, setting.scene.current, rules.reuse);
    CallsHold(m.sys.calls, setting, setting.scene.current, Some(Call(ADDR, op, DeadlineFor(timeout, 0), false)));
    hide Shows, InTask, WellFormed, Holds, MayHappen, Happens, Fits;
  }

  lemma TestHappens(m: Machine, call: Call, me: nat, reuse: bool)
    requires WellFormed(m.sys.k.s) && |m.sys.k.waits| == |m.sys.calls| == MAX_TASKS
    requires InTask(m.sys.k, 0) && Me(m.sys, 0) == me < MAX_TASKS && m.sys.calls[me] == Some(call)
    requires Purging.Free(WorldOf(m), 0) && call.addr in m.sys.objects && Fits(m.sys.objects[call.addr], call.op)
    requires Claim(m.sys.objects[call.addr], call.op, me).None? && !Sending(call.op)
    ensures MayHappen(m, Do(Test(0)), reuse) && Enabled(m.sys.k, EnrolOn(0, call.addr, false, 0))
    ensures
      var tested := Some(call.(tested := true));
      Happens(m, Do(Test(0)), reuse) ==
        m.(sys := m.sys.(k := Apply(m.sys.k, EnrolOn(0, call.addr, false, 0)), calls := m.sys.calls[me := tested]))
  {
    hide WellFormed, InTask, Purging.Free, Claim, Apply, Fits;
  }

  /** The test fails, and the caller goes to sleep. */
  lemma TestReaches(m: Machine, setting: Setting, call: Call, rules: Rules)
    requires Depicts(m, setting) && IsCalling(setting, Some(call)) && MayEnrol(setting.scene, ADDR)
    requires call.addr == ADDR && Fits(setting.thing, call.op) && !Sending(call.op)
    requires Claim(setting.thing, call.op, setting.scene.current).None?
    ensures Reaches(m, Do(Test(0)), WithCall(setting, setting.scene.current, Some(call.(tested := true)))
                                    .(scene := Enrolled(setting.scene, ADDR)), rules)
  {
    CallerIs(m, setting, Some(call));
    TestHappens(m, call, setting.scene.current, rules.reuse);
    Enrols(m.sys.k, setting.scene, ADDR);
    CallsHold(m.sys.calls, setting, setting.scene.current, Some(call.(tested := true)));
    hide Shows, InTask, WellFormed, MayEnrol, Enrolled, Claim, Apply, Enabled, Holds, MayHappen, Happens, Fits;
  }

  lemma GiveActs(sys: System)
    requires WellFormed(sys.k.s) && |sys.k.waits| == MAX_TASKS && sys.objects == map[ADDR := Semaphore(0, 1)]
    ensures Enabled(sys.k, WakeWaiter(ADDR, false)) && Allowed(sys, GivePermit(ADDR))
    ensures Act(sys, GivePermit(ADDR)) ==
              sys.(k := Apply(sys.k, WakeWaiter(ADDR, false)), objects := map[ADDR := Semaphore(1, 1)])
  {
    assert sys.objects[ADDR] == Semaphore(0, 1);
    assert sys.objects[ADDR := Semaphore(1, 1)] == map[ADDR := Semaphore(1, 1)];
    hide WellFormed, Apply;
  }

  /** A permit is given, and the wake leads to the scene. */
  lemma GiveReaches(m: Machine, setting: Setting, scene: Scene, rules: Rules)
    requires Depicts(m, setting) && InRange(setting.scene) && setting.thing == Semaphore(0, 1)
    requires Leads(m.sys.k, WakeWaiter(ADDR, false), scene)
    ensures Reaches(m, Do(GivePermit(ADDR)), setting.(scene := scene, thing := Semaphore(1, 1)), rules)
  {
    ShownSizes(m.sys.k, setting.scene);
    GiveActs(m.sys);
    hide Shows, Enabled, Apply, WellFormed, Holds, Allowed, Act;
  }

  /** Task 2 is woken, whoever gives the permit. */
  lemma GivesToFirst(m: Machine, plan: Plan, i: nat, rules: Rules)
    requires (plan.Expiring? && i == 9) || (plan.Departing? && i == 11)
    requires Depicts(m, StageSetting(plan, i))
    ensures Reaches(m, Do(GivePermit(ADDR)), StageSetting(plan, i + 1), rules)
  {
    FirstWoken(plan, i);
    assert Shows(m.sys.k, Stage(plan, i));
    hide Depicts, Reaches, Leads, Stage, Shows, MayWake, Woke;
    Wakes(m.sys.k, Stage(plan, i), ADDR, 2);
    GiveReaches(m, StageSetting(plan, i), Stage(plan, i + 1), rules);
  }

  lemma FirstWoken(plan: Plan, i: nat)
    requires (plan.Expiring? && i == 9) || (plan.Departing? && i == 11)
    ensures InRange(Stage(plan, i)) && MayWake(Stage(plan, i), ADDR, 2)
    ensures Woke(Stage(plan, i), ADDR, 2) == Stage(plan, i + 1)
  {
    var now := Stage(plan, i);
    assert ListOf(now.lists, ADDR, false) == [2, 3] && [2, 3][1..] == [3];
    assert WithList(now.lists, ADDR, false, [3]) == Queued([3]);
    assert {IDLE_PRIORITY} + {LEVEL} == BOTH && BOTH + {LEVEL} == BOTH;
  }

  lemma GivesToNobody(m: Machine, rules: Rules)
    requires Depicts(m, StageSetting(Reusing, 11))
    ensures Reaches(m, Do(GivePermit(ADDR)), StageSetting(Reusing, 12), rules)
  {
    assert Shows(m.sys.k, ReuseStage(11));
    WakesNobody(m.sys.k, ReuseStage(11), ADDR);
    hide Depicts, Reaches, Leads;
    GiveReaches(m, StageSetting(Reusing, 11), ReuseStage(11), rules);
  }

  lemma Resumes(m: Machine, plan: Plan)
    requires Depicts(m, StageSetting(plan, 11)) && plan.Expiring?
    ensures Reaches(m, Do(Section(ResumeWait(0))), StageSetting(plan, 12), RulesOf(plan))
  {
    ShownSizes(m.sys.k, Stage(plan, 11));
    ResumeLeads(m.sys.k, plan);
    hide Leads, Shows;
    SectionReaches(m, StageSetting(plan, 11), ResumeWait(0), Stage(plan, 12), RulesOf(plan));
  }

  lemma ResumeLeads(k: State, plan: Plan)
    requires Shows(k, Stage(plan, 11)) && plan.Expiring?
    ensures Leads(k, ResumeWait(0), Stage(plan, 12))
  {
    ShownSizes(k, Stage(plan, 11));
    assert Live(k.s, 2);
    hide SchedShows, WellFormed;
  }

  lemma Leaves(m: Machine, plan: Plan)
    requires Depicts(m, StageSetting(plan, 12)) && plan.Expiring? && plan.timeout != FOREVER
    ensures Reaches(m, Do(GiveUp(0, DeadlineFor(plan.timeout, 0))), StageSetting(plan, 13), RulesOf(plan))
  {
    ShownSizes(m.sys.k, Stage(plan, 12));
    Executing(m.sys.k, Stage(plan, 12));
    hide Shows, InTask, WellFormed;
  }

  lemma PutsBarely(m: Machine, plan: Plan)
    requires Depicts(m, StageSetting(plan, 5)) && plan.Bare?
    ensures Reaches(m, Do(BareTest(ADDR, Operation.Put, 0)), StageSetting(plan, 6), RulesOf(plan))
  {
    ShownSizes(m.sys.k, Stage(plan, 5));
    hide Shows, WellFormed;
  }

  lemma DeleteHappens(m: Machine, me: nat, id: nat, reuse: bool)
    requires WellFormed(m.sys.k.s) && |m.sys.k.waits| == |m.sys.calls| == MAX_TASKS
    requires InTask(m.sys.k, 0) && Me(m.sys, 0) == me < MAX_TASKS && m.sys.calls[me] == None
    requires Purging.Deletable(m.sys.k, id) && id < MAX_TASKS && m.purging == map[] && m.unpurged == {}
    ensures MayHappen(m, Leave(Purging.Delete(0, id)), reuse)
    ensures
      Happens(m, Leave(Purging.Delete(0, id)), reuse) ==
        Machine(m.sys.(k := Purging.Cleared(m.sys.k, id, true), calls := m.sys.calls[id := None]), map[me := id], {id})
  {
    assert map[][me := id] == map[me := id];
    assert m.purging - {id} == map[];
    hide WellFormed, InTask, Purging.Deletable, Purging.Cleared;
  }

  /** The running worker, in no call, deletes another. */
  lemma DeleteReaches(m: Machine, setting: Setting, id: nat, rules: Rules)
    requires Depicts(m, setting) && MayDelete(setting.scene, id) && 2 <= id <= 3
    requires setting.purging == map[] && setting.unpurged == {}
    requires CallOf(setting, setting.scene.current) == None && (rules.awake || CallOf(setting, id) == None)
    ensures Reaches(m, Leave(Purging.Delete(0, id)),
                    WithCall(setting, id, None).(scene := Without(setting.scene, id),
                                                 purging := map[setting.scene.current := id], unpurged := {id}), rules)
  {
    Deletes(m.sys.k, setting.scene, id);
    Executing(m.sys.k, setting.scene);
    assert m.sys.calls[setting.scene.current] == None;
    assert m.sys.calls[id] == CallOf(setting, id);
    DeleteHappens(m, setting.scene.current, id, rules.reuse);
    CallsHold(m.sys.calls, setting, id, None);
    hide Shows, InTask, WellFormed, MayDelete, Without, Purging.Cleared, Purging.Deletable, IsPending, Holds;
    hide MayHappen, Happens;
  }

  lemma Purges(m: Machine)
    requires Depicts(m, StageSetting(Reusing, 10))
    ensures Reaches(m, Leave(Purging.Purge(0)), StageSetting(Reusing, 11), RulesOf(Reusing))
  {
    Executing(m.sys.k, ReuseStage(10));
    ForgotInQueue();
    assert map[2 := 3] - {2} == map[];
    hide Forget, SchedShows;
  }

  lemma ForgotInQueue()
    ensures Forget(Queued([3]), 3) == Queued([])
  {
    assert [3][1..] == [];
    assert Unlisted([], 3) == [] && Unlisted([3], 3) == [];
  }

  lemma FirstSleeps(m: Machine, plan: Plan)
    requires Depicts(m, StageSetting(plan, 4)) && !plan.Reusing?
    ensures Reaches(m, Do(Test(0)), StageSetting(plan, 5), RulesOf(plan))
  {
    hide Depicts, Reaches;
    assert FindOrCreate(map[], ADDR) == Some(Queued([]));
    assert ListOf(Queued([]), ADDR, false) + [2] == [2];
    assert WithList(Queued([]), ADDR, false, [2]) == Queued([2]);
    TestReaches(m, StageSetting(plan, 4), Calling(plan, RulesOf(plan).timeout, false).value, RulesOf(plan));
  }

  lemma SecondSleeps(m: Machine, plan: Plan)
    requires Depicts(m, StageSetting(plan, 8)) && (plan.Expiring? || plan.Departing?)
    ensures Reaches(m, Do(Test(0)), StageSetting(plan, 9), RulesOf(plan))
  {
    hide Depicts, Reaches;
    assert FindOrCreate(Queued([2]), ADDR) == Some(Queued([2]));
    assert ListOf(Queued([2]), ADDR, false) + [3] == [2, 3];
    assert WithList(Queued([2]), ADDR, false, [2, 3]) == Queued([2, 3]);
    TestReaches(m, StageSetting(plan, 8), Calling(plan, FOREVER, false).value, RulesOf(plan));
  }

  lemma NewcomerSleeps(m: Machine)
    requires Depicts(m, StageSetting(Reusing, 8))
    ensures Reaches(m, Do(Test(0)), StageSetting(Reusing, 9), RulesOf(Reusing))
  {
    hide Depicts, Reaches;
    assert FindOrCreate(map[], ADDR) == Some(Queued([]));
    assert ListOf(Queued([]), ADDR, false) + [3] == [3];
    assert WithList(Queued([]), ADDR, false, [3]) == Queued([3]);
    TestReaches(m, StageSetting(Reusing, 8), Calling(Reusing, FOREVER, false).value, RulesOf(Reusing));
  }

  // ── The runs ────────────────────────────────────────────────────────────────────────────────

  predicate Possible(plan: Plan) { plan.Expiring? ==> plan.timeout != FOREVER }

  lemma SleepersLead(m: Machine, plan: Plan, i: nat)
    requires Possible(plan) && !plan.Reusing? && i < Length(plan) && Depicts(m, StageSetting(plan, i))
    ensures Reaches(m, SleepersScript(plan, i), StageSetting(plan, i + 1), RulesOf(plan))
  {
    hide Depicts, Reaches;
    var now, rules := StageSetting(plan, i), RulesOf(plan);
    assert {IDLE_PRIORITY} + {LEVEL} == BOTH && BOTH + {LEVEL} == BOTH;
    match i
    case 0 => JoinReaches(m, now, rules);
    case 1 => SpawnReaches(m, now, 2, rules);
    case 2 => SwitchReaches(m, now, 2, rules);
    case 3 => BeginReaches(m, now, Op(plan), rules.timeout, rules);
    case 4 => FirstSleeps(m, plan);
    case 5 => if plan.Bare? { PutsBarely(m, plan); } else { SpawnReaches(m, now, 3, rules); }
    case 6 => SwitchReaches(m, now, 3, rules);
    case 7 => BeginReaches(m, now, Op(plan), FOREVER, rules);
    case 8 => SecondSleeps(m, plan);
    case 9 => if plan.Departing? { SpawnReaches(m, now, 4, rules); } else { GivesToFirst(m, plan, 9, rules); }
    case 10 => if plan.Departing? { SwitchReaches(m, now, 4, rules); } else { SwitchReaches(m, now, 2, rules); }
    case 11 => if plan.Departing? { GivesToFirst(m, plan, 11, rules); } else { Resumes(m, plan); }
    case _ => if plan.Departing? { DeleteReaches(m, now, 2, rules); } else { Leaves(m, plan); }
  }

  lemma ReuseLeads(m: Machine, i: nat)
    requires i < 12 && Depicts(m, StageSetting(Reusing, i))
    ensures Reaches(m, ReuseScript(i), StageSetting(Reusing, i + 1), RulesOf(Reusing))
  {
    hide Depicts, Reaches;
    var now, rules := StageSetting(Reusing, i), RulesOf(Reusing);
    assert {IDLE_PRIORITY} + {LEVEL} == BOTH && BOTH + {LEVEL} == BOTH;
    match i
    case 0 => JoinReaches(m, now, rules);
    case 1 => SpawnReaches(m, now, 2, rules);
    case 2 => SwitchReaches(m, now, 2, rules);
    case 3 => SpawnReaches(m, now, 3, rules);
    case 4 => DeleteReaches(m, now, 3, rules);
    case 5 => SpawnReaches(m, now, 3, rules);
    case 6 => SwitchReaches(m, now, 3, rules);
    case 7 => BeginReaches(m, now, Take, FOREVER, rules);
    case 8 => NewcomerSleeps(m);
    case 9 => SwitchReaches(m, now, 2, rules);
    case 10 => Purges(m);
    case _ => GivesToNobody(m, rules);
  }

  /** A unit is there, a task sleeps for it, and nobody is about to take it. */
  lemma UnitIsLost(m: Machine, plan: Plan)
    requires Depicts(m, StageSetting(plan, Length(plan)))
    ensures !NeverLost(m.sys)
  {
    assert Asleep(m.sys, if plan.Bare? then 2 else 3, ADDR, false);
    assert Pending(m.sys, ADDR, false) == {};
    assert !NothingLost(m.sys, ADDR, false);
  }

  lemma Starts(plan: Plan)
    ensures Depicts(Start(map[ADDR := Thing(plan, 0)]), StageSetting(plan, 0))
  {
    BootShows();
  }

  /** The first `n` events of the script make a run. */
  lemma {:induction false} ScriptRuns(plan: Plan, n: nat) returns (machines: seq<Machine>, events: seq<Event>)
    requires Possible(plan) && n <= Length(plan)
    ensures IsMachineRun(machines, events, RulesOf(plan)) && |events| == n
    ensures Depicts(machines[n], StageSetting(plan, n))
  {
    hide Depicts, Reaches, StageSetting, Happens, MayHappen, Start;
    if n == 0 {
      var objects := map[ADDR := Thing(plan, 0)];
      Starts(plan);
      StartObjects(objects);
      machines, events := [Start(objects)], [];
    } else {
      var prefix, done := ScriptRuns(plan, n - 1);
      var last, event := prefix[n - 1], Script(plan, n - 1);
      if plan.Reusing? { ReuseLeads(last, n - 1); } else { SleepersLead(last, plan, n - 1); }
      LeadsFollows(last, event, StageSetting(plan, n), RulesOf(plan));
      machines, events := prefix + [Happens(last, event, RulesOf(plan).reuse)], done + [event];
      forall i | 0 <= i < n ensures Follows(machines[i], events[i], machines[i + 1], RulesOf(plan)) {
        if i < n - 1 { assert Follows(prefix[i], done[i], prefix[i + 1], RulesOf(plan)); }
      }
      assert machines[0] == prefix[0];
    }
  }

  lemma StartObjects(objects: map<nat, Object>)
    ensures Start(objects).sys.objects == objects
  {
  }

  lemma LeadsFollows(m: Machine, e: Event, setting: Setting, rules: Rules)
    requires Reaches(m, e, setting, rules)
    ensures MayHappen(m, e, rules.reuse)
    ensures Follows(m, e, Happens(m, e, rules.reuse), rules) && Depicts(Happens(m, e, rules.reuse), setting)
  {
  }

  // ── Exactly when ────────────────────────────────────────────────────────────────────────────

  /** No run under the rules ever loses a wakeup. */
  ghost predicate NeverLoses(rules: Rules) {
    forall machines: seq<Machine>, events: seq<Event>, i: nat ::
      IsMachineRun(machines, events, rules) && i < |machines| ==> NeverLost(machines[i].sys)
  }

  /** Wakeups are never lost exactly when every call waits forever, nobody calls a byte queue barely, no task
      inside a blocking call and about to test is deleted, and no slot is filled before its former id has been
      purged. */
  lemma LostExactlyWhen(rules: Rules)
    ensures NeverLoses(rules) <==> rules.timeout == FOREVER && !rules.bare && !rules.awake && !rules.reuse
  {
    hide NeverLost, IsMachineRun, MachineOk;
    if Strict(rules) {
      forall machines: seq<Machine>, events: seq<Event>, i: nat
        | IsMachineRun(machines, events, rules) && i < |machines|
        ensures NeverLost(machines[i].sys)
      {
        StrictRun(machines, events, rules, i);
        CleanLost(machines[i]);
      }
    } else {
      var plan :=
        if rules.timeout != FOREVER then Expiring(rules.timeout)
        else if rules.bare then Bare else if rules.awake then Departing else Reusing;
      var machines, events := ScriptRuns(plan, Length(plan));
      RunLength(machines, events, RulesOf(plan));
      UnitIsLost(machines[Length(plan)], plan);
      LooserRules(machines, events, RulesOf(plan), rules);
    }
  }

  /** What one set of rules allows, a looser one does. */
  predicate Looser(rules: Rules, looser: Rules) {
    && (looser.timeout == rules.timeout || rules.timeout == FOREVER)
    && (rules.bare ==> looser.bare) && (rules.awake ==> looser.awake) && (rules.reuse ==> looser.reuse)
  }

  lemma LooserRules(machines: seq<Machine>, events: seq<Event>, rules: Rules, looser: Rules)
    requires IsMachineRun(machines, events, rules) && Looser(rules, looser)
    ensures IsMachineRun(machines, events, looser)
  {
    hide Allowed, Act, Purging.Allowed, Purging.Act, Outside, DeletesCaller;
    forall i | 0 <= i < |events| ensures Follows(machines[i], events[i], machines[i + 1], looser) {
      assert Follows(machines[i], events[i], machines[i + 1], rules);
      LooserStep(machines[i], events[i], machines[i + 1], rules, looser);
    }
  }

  lemma LooserStep(m: Machine, e: Event, m': Machine, rules: Rules, looser: Rules)
    requires Follows(m, e, m', rules) && Looser(rules, looser)
    ensures Follows(m, e, m', looser)
  {
    hide Allowed, Act, DeletesCaller, Enabled, Apply, Purging.Deletable, InTask;
  }

  lemma RunLength(machines: seq<Machine>, events: seq<Event>, rules: Rules)
    requires IsMachineRun(machines, events, rules)
    ensures |machines| == |events| + 1
  {
  }
}

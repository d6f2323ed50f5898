/** What a slot reused before its old id has been purged does: a wake meant for the old task's list finds
    the new one, and the purge leaves the new one blocked for ever. Nothing else can do either. */
module ReusedSlots {
  import opened Wrappers
  import opened Sequences
  import opened Tasks
  import opened Inheritance
  import opened Waiters
  import opened Kernel
  import opened Scenes
  import opened Purging
  import opened Stranding

  const FORMER: nat := 0x2000_1000
  const LATTER: nat := 0x2000_2000

  /** Task 3 sleeps on one queue and is deleted by task 2; before task 2 has purged the id, a new task is
      spawned into slot 3 and sleeps on another queue; then task 2 purges. */
  function Script(i: nat): Step {
    match i
    case 0 => Section(JoinCore(0))
    case 1 => Section(Spawn(3, Any, LEVEL))
    case 2 => Section(Switch(0, 3))
    case 3 => Section(EnrolOn(0, FORMER, false, 0))
    case 4 => Section(Spawn(2, Any, LEVEL))
    case 5 => Section(Switch(0, 2))
    case 6 => Delete(0, 3)
    case 7 => Section(Spawn(3, Any, LEVEL))
    case 8 => Section(Switch(0, 3))
    case 9 => Section(EnrolOn(0, LATTER, false, 0))
    case 10 => Section(Switch(0, 2))
    case _ => Purge(0)
  }

  function Receivers(first: seq<nat>): WaitTable { map[FORMER := Lists([], first)] }

  function AllReceivers(first: seq<nat>, second: seq<nat>): WaitTable {
    map[FORMER := Lists([], first), LATTER := Lists([], second)]
  }

  /** The scene before step `i` of the script, and after the last one. */
  function Stage(i: nat): Scene {
    var up := Worker(Ready);
    var on := Worker(Running);
    var off := Worker(BlockedRecv);
    var none: set<nat> := {IDLE_PRIORITY};
    match i
    case 0 => START
    case 1 => Scene(Running, None, None, None, 0, none, 0, map[], None, None, 0)
    case 2 => Scene(Running, None, up, None, 0, BOTH, 0, map[], None, None, 0)
    case 3 => Scene(Ready, None, on, None, 3, BOTH, 3, map[], None, None, 0)
    case 4 => Scene(Ready, None, off, None, 3, none, 3, Receivers([3]), None, Waiting(FORMER, 0, false), 1)
    case 5 => Scene(Ready, up, off, None, 3, BOTH, 3, Receivers([3]), None, Waiting(FORMER, 0, false), 1)
    case 6 => Scene(Ready, on, off, None, 2, BOTH, 2, Receivers([3]), None, Waiting(FORMER, 0, false), 1)
    case 7 => Scene(Ready, on, None, None, 2, BOTH, 2, Receivers([3]), None, None, 1)
    case 8 => Scene(Ready, on, up, None, 2, BOTH, 2, Receivers([3]), None, None, 1)
    case 9 => Scene(Ready, up, on, None, 3, BOTH, 3, Receivers([3]), None, None, 1)
    case 10 => Scene(Ready, up, off, None, 3, BOTH, 3, AllReceivers([3], [3]), None, Waiting(LATTER, 1, false), 2)
    case 11 => Scene(Ready, on, off, None, 2, BOTH, 2, AllReceivers([3], [3]), None, Waiting(LATTER, 1, false), 2)
    case _ => Scene(Ready, on, off, None, 2, BOTH, 2, AllReceivers([], []), None, Waiting(LATTER, 1, false), 2)
  }

  /** Task 2 is inside `delete_task`, between its two sections. */
  predicate Between(i: nat) { 7 <= i <= 11 }

  ghost predicate Depicts(w: World, i: nat) {
    && Shows(w.k, Stage(i))
    && w.purging == (if Between(i) then map[2 := 3] else map[])
    && w.unpurged == (if Between(i) then {3} else {})
  }

  ghost predicate Reaches(w: World, step: Step, i: nat) {
    Allowed(w, step, true) && Depicts(Act(w, step, true), i)
  }

  lemma SectionReaches(w: World, step: Label, i: nat)
    requires Depicts(w, i) && Leads(w.k, step, Stage(i + 1)) && Between(i) == Between(i + 1)
    requires step.JoinCore? || step.Spawn? || step.Switch? || (step.EnrolOn? && Free(w, step.core))
    ensures Reaches(w, Section(step), i + 1)
  {
    hide Shows, Stage, Enrol, Dispatch, Rotated, SetCurrent, MakeReady;
  }

  lemma SpawnReaches(w: World, i: nat, id: nat)
    requires Depicts(w, i) && InRange(Stage(i)) && 2 <= id <= 3 && Between(i) == Between(i + 1)
    requires BlockOf(Stage(i), id) == None && WaitOf(Stage(i), id) == None && Stage(i + 1) == Spawned(Stage(i), id)
    ensures Reaches(w, Section(Spawn(id, Any, LEVEL)), i + 1)
  {
    Spawns(w.k, Stage(i), id);
    hide Leads, Stage, Spawned;
    SectionReaches(w, Spawn(id, Any, LEVEL), i);
  }

  lemma SwitchReaches(w: World, i: nat, next: nat)
    requires Depicts(w, i) && MayDispatch(Stage(i), next) && Between(i) == Between(i + 1)
    requires Stage(i + 1) == Dispatched(Stage(i), next)
    ensures Reaches(w, Section(Switch(0, next)), i + 1)
  {
    Dispatches(w.k, Stage(i), next);
    hide Leads, Stage, MayDispatch, Dispatched;
    SectionReaches(w, Switch(0, next), i);
  }

  lemma EnrolReaches(w: World, i: nat, addr: nat)
    requires Depicts(w, i) && MayEnrol(Stage(i), addr) && Between(i) == Between(i + 1)
    requires Stage(i + 1) == Enrolled(Stage(i), addr) && Stage(i).current == 3
    ensures Reaches(w, Section(EnrolOn(0, addr, false, 0)), i + 1)
  {
    Enrols(w.k, Stage(i), addr);
    assert w.k.s.current == [3, NO_TASK];
    hide Leads, Stage, MayEnrol, Enrolled, Shows;
    SectionReaches(w, EnrolOn(0, addr, false, 0), i);
  }

  lemma FirstEnrols(w: World)
    requires Depicts(w, 3)
    ensures Reaches(w, Section(EnrolOn(0, FORMER, false, 0)), 4)
  {
    assert FindOrCreate(map[], FORMER) == Some(Receivers([]));
    assert ListOf(Receivers([]), FORMER, false) + [3] == [3];
    assert WithList(Receivers([]), FORMER, false, [3]) == Receivers([3]);
    EnrolReaches(w, 3, FORMER);
  }

  lemma SecondEnrols(w: World)
    requires Depicts(w, 9)
    ensures Reaches(w, Section(EnrolOn(0, LATTER, false, 0)), 10)
  {
    assert FindOrCreate(Receivers([3]), LATTER) == Some(AllReceivers([3], []));
    assert ListOf(AllReceivers([3], []), LATTER, false) + [3] == [3];
    assert WithList(AllReceivers([3], []), LATTER, false, [3]) == AllReceivers([3], [3]);
    EnrolReaches(w, 9, LATTER);
  }

  lemma DeleteReaches(w: World)
    requires Depicts(w, 6)
    ensures Reaches(w, Delete(0, 3), 7)
  {
    Deletes(w.k, Stage(6), 3);
    hide Shows, InTask, Deletable, Cleared, WellFormed;
  }

  lemma Purges(w: World)
    requires Depicts(w, 11)
    ensures Reaches(w, Purge(0), 12)
  {
    Executing(w.k, Stage(11));
    assert [3][1..] == [];
    assert Waiters.Unlisted([], 3) == [] && Waiters.Unlisted([3], 3) == [];
    assert Forget(AllReceivers([3], [3]), 3) == AllReceivers([], []);
    hide Forget, SchedShows;
  }

  lemma ScriptLeads(w: World, i: nat)
    requires i < 12 && Depicts(w, i)
    ensures Reaches(w, Script(i), i + 1)
  {
    hide Depicts, Reaches;
    assert {IDLE_PRIORITY} + {LEVEL} == BOTH && BOTH + {LEVEL} == BOTH;
    match i
    case 0 => BootJoins(w);
    case 1 => SpawnReaches(w, 1, 3);
    case 2 => SwitchReaches(w, 2, 3);
    case 3 => FirstEnrols(w);
    case 4 => SpawnReaches(w, 4, 2);
    case 5 => SwitchReaches(w, 5, 2);
    case 6 => DeleteReaches(w);
    case 7 => SpawnReaches(w, 7, 3);
    case 8 => SwitchReaches(w, 8, 3);
    case 9 => SecondEnrols(w);
    case 10 => SwitchReaches(w, 10, 2);
    case _ => Purges(w);
  }

  lemma BootJoins(w: World)
    requires Depicts(w, 0)
    ensures Reaches(w, Section(JoinCore(0)), 1)
  {
    Joins(w.k, START);
    hide Leads;
    SectionReaches(w, JoinCore(0), 0);
  }

  /** The first `n` steps of the script make a run. */
  lemma {:induction false} ScriptRuns(n: nat) returns (worlds: seq<World>, steps: seq<Step>)
    requires n <= 12
    ensures IsRun(worlds, steps, true) && |steps| == n
    ensures forall i: nat :: i <= n ==> Depicts(worlds[i], i)
  {
    hide Depicts, Act, Allowed, Purging.Start;
    if n == 0 {
      StartDepicts();
      worlds, steps := [Purging.Start()], [];
    } else {
      var prefix, done := ScriptRuns(n - 1);
      var last, step := prefix[n - 1], Script(n - 1);
      ScriptLeads(last, n - 1);
      worlds, steps := prefix + [Act(last, step, true)], done + [step];
      forall i | 0 <= i < n ensures Follows(worlds[i], steps[i], worlds[i + 1], true) {
        if i < n - 1 { assert Follows(prefix[i], done[i], prefix[i + 1], true); }
      }
      forall i: nat | i <= n ensures Depicts(worlds[i], i) {
        if i < n { assert worlds[i] == prefix[i]; }
      }
    }
  }

  lemma StartDepicts()
    ensures Depicts(Purging.Start(), 0)
  {
    BootShows();
  }

  // ── Exactly when ────────────────────────────────────────────────────────────────────────────

  /** In no run is a task ever blocked for good by a purge. */
  ghost predicate NeverStrands(reuse: bool) {
    forall worlds: seq<World>, steps: seq<Step>, i: nat, t: nat ::
      IsRun(worlds, steps, reuse) && i < |worlds| ==> !Stranded(worlds[i].k, t)
  }

  /** In every state of every run, whoever a wake of any list would find is waiting on that list. */
  ghost predicate NeverMisdirects(reuse: bool) {
    forall worlds: seq<World>, steps: seq<Step>, i: nat, addr: nat, send: bool ::
      IsRun(worlds, steps, reuse) && i < |worlds| ==> Directed(worlds[i].k, addr, send)
  }

  lemma WaitsBecauseBlocked(w: World, t: nat)
    requires WorldOk(w) && Live(w.k.s, t) && (Task(w.k.s, t).state.BlockedSend? || Task(w.k.s, t).state.BlockedRecv?)
    ensures t < MAX_TASKS == |w.k.waits| && w.k.waits[t].Some? && !w.k.waits[t].value.popped
  {
    assert |Clean(w).s.tasks| == MAX_TASKS;
    assert TaskOkIn(Clean(w), t);
  }

  /** Without reuse a blocked task is listed where it waits. */
  lemma BlockedIsListed(w: World, t: nat)
    requires WorldOk(w) && Live(w.k.s, t) && (Task(w.k.s, t).state.BlockedSend? || Task(w.k.s, t).state.BlockedRecv?)
    ensures !ListedNowhere(w.k, t)
  {
    CleanWaits(w);
    WaitsBecauseBlocked(w, t);
    var wait := w.k.waits[t].value;
    assert t in ListOf(w.k.lists, wait.addr, wait.send);
  }

  lemma CleanNeverStrands(w: World, t: nat)
    requires WorldOk(w)
    ensures !Stranded(w.k, t)
  {
    if Live(w.k.s, t) && (Task(w.k.s, t).state.BlockedSend? || Task(w.k.s, t).state.BlockedRecv?) {
      BlockedIsListed(w, t);
    }
  }

  lemma StrandedAtTheEnd(w: World)
    requires Depicts(w, 12)
    ensures Stranded(w.k, 3)
  {
    assert w.k.s.tasks[3] == Worker(BlockedRecv);
  }

  lemma MisdirectedWake(w: World)
    requires Depicts(w, 10)
    ensures !Directed(w.k, FORMER, false)
  {
    assert w.k.s.tasks[3] == Worker(BlockedRecv);
    assert ListOf(w.k.lists, FORMER, false) == [3];
    assert FirstBlocked(w.k.s, [3], BlockedRecv) == 0;
  }

  /** A task is left blocked for ever, by a purge meant for the slot's former owner, exactly if slots may
      be reused before their old id has been purged. */
  lemma StrandsExactlyWithReuse(reuse: bool)
    ensures NeverStrands(reuse) <==> !reuse
  {
    hide Stranded, WorldOk, Depicts, IsRun;
    if reuse {
      var worlds, steps := ScriptRuns(12);
      RunLength(worlds, steps, true);
      StrandedAtTheEnd(worlds[12]);
    } else {
      forall worlds: seq<World>, steps: seq<Step>, i: nat, t: nat | IsRun(worlds, steps, false) && i < |worlds|
        ensures !Stranded(worlds[i].k, t)
      {
        RunOk(worlds, steps, i);
        CleanNeverStrands(worlds[i], t);
      }
    }
  }

  /** A wake ends the wait of a task that was never on the list it takes from, exactly then too. */
  lemma MisdirectsExactlyWithReuse(reuse: bool)
    ensures NeverMisdirects(reuse) <==> !reuse
  {
    hide Directed, WorldOk, Depicts, IsRun;
    if reuse {
      var worlds, steps := ScriptRuns(10);
      RunLength(worlds, steps, true);
      MisdirectedWake(worlds[10]);
    } else {
      forall worlds: seq<World>, steps: seq<Step>, i: nat, addr: nat, send: bool
        | IsRun(worlds, steps, false) && i < |worlds|
        ensures Directed(worlds[i].k, addr, send)
      {
        RunOk(worlds, steps, i);
        CleanWaits(worlds[i]);
      }
    }
  }

  lemma RunLength(worlds: seq<World>, steps: seq<Step>, reuse: bool)
    requires IsRun(worlds, steps, reuse)
    ensures |worlds| == |steps| + 1
  {
  }
}

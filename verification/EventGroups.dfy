/** Event groups: tasks waiting for any or all of a set of bits, and `set` calls that wake a whole
    waiter list one pop at a time.

    `set` ORs its bits in and pops the first waiter in one critical section, then makes MAX_WAKE - 1
    further pops, each its own section. In between anything may happen: other sets, clears, and woken
    waiters that find themselves unsatisfied and enrol again. */
module EventGroups {
  import opened BitMasks
  import opened Wrappers
  import opened Sequences
  import opened Tasks
  import opened Inheritance
  import opened Waiters
  import opened Kernel
  import opened Deadlines
  import opened Interference
  import Guarantees

  const EVENT_BITS_MASK: bv32 := 0x00FF_FFFF

  const MAX_WAKE: nat := 16

  /** A `wait` call in progress. */
  datatype Waiting = Waiting(addr: nat, bits: bv32, all: bool, clearOnExit: bool, deadline: Ticks, tested: bool)

  /** A `set` call in progress, with the pops it still has to make. */
  datatype Setting = Setting(addr: nat, left: nat)

  /** `groups` maps a group's address to its bits. */
  datatype System = System(k: State, groups: map<nat, bv32>, calls: seq<Option<Waiting>>, settings: seq<Setting>)

  datatype Action =
    | BeginWait(core: nat, addr: nat, bits: bv32, all: bool, clearOnExit: bool, timeout: Millis, now: Ticks)
    | TestBits(core: nat)
    | LeaveWait(core: nat, now: Ticks)
    | BeginSet(addr: nat, bits: bv32)
    | PopNext(setting: nat)
    | Clear(addr: nat, bits: bv32)
    | Section(step: Label)

  predicate Satisfied(current: bv32, bits: bv32, all: bool) {
    if all then current & bits == bits else current & bits != 0
  }

  /** The top byte is reserved: bits there are ignored. */
  function Usable(bits: bv32): bv32 { bits & EVENT_BITS_MASK }

  function With(current: bv32, bits: bv32): bv32 { current | bits }

  function Without(current: bv32, bits: bv32): bv32 { current & !bits }

  lemma SatisfiedMeets(current: bv32, bits: bv32, all: bool)
    ensures Satisfied(current, bits, all) <==> Meets(current, bits, all)
  {
  }

  function Me(sys: System, core: nat): nat
    requires core < |sys.k.s.current|
  {
    Current(sys.k, core)
  }

  predicate Unoccupied(sys: System, core: nat) {
    InTask(sys.k, core) && Me(sys, core) < |sys.calls| && sys.calls[Me(sys, core)].None?
  }

  predicate InWait(sys: System, core: nat) {
    && InTask(sys.k, core) && Me(sys, core) < |sys.calls| && sys.calls[Me(sys, core)].Some?
    && sys.calls[Me(sys, core)].value.addr in sys.groups
  }

  /** A kernel section that is not part of a `wait` call. */
  predicate Separate(sys: System, step: Label) {
    match step
    case LockMutex(core, _, _) => Unoccupied(sys, core)
    case UnlockMutex(core, _) => Unoccupied(sys, core)
    case Sleep(core, _) => Unoccupied(sys, core)
    case Suspend(core) => Unoccupied(sys, core)
    case EnrolOn(core, addr, _, _) => Unoccupied(sys, core) && addr !in sys.groups
    case Spawn(id, _, _) => id < |sys.calls| && sys.calls[id].None?
    case _ => true
  }

  ghost predicate Allowed(sys: System, action: Action)
  {
    && WellFormed(sys.k.s) && |sys.k.waits| == MAX_TASKS
    && (match action
        case BeginWait(core, addr, bits, _, _, _, _) => Unoccupied(sys, core) && addr in sys.groups && Usable(bits) != 0
        case TestBits(core) => InWait(sys, core)
        case LeaveWait(core, now) =>
          InWait(sys, core) && sys.calls[Me(sys, core)].value.tested
            && RemainingFor(sys.calls[Me(sys, core)].value.deadline, now).None?
        case BeginSet(addr, _) => addr in sys.groups
        case PopNext(j) => j < |sys.settings| && sys.settings[j].left > 0 && sys.settings[j].addr in sys.groups
        case Clear(addr, _) => addr in sys.groups
        case Section(step) => Enabled(sys.k, step) && Separate(sys, step))
  }

  ghost function After(sys: System, step: Label): System
    requires Enabled(sys.k, step)
  {
    sys.(k := Apply(sys.k, step))
  }

  function WithCall(sys: System, t: nat, call: Option<Waiting>): System
    requires t < |sys.calls|
  {
    sys.(calls := sys.calls[t := call])
  }

  ghost function Act(sys: System, action: Action): System
    requires Allowed(sys, action)
  {
    match action
    case BeginWait(core, addr, bits, all, clearOnExit, timeout, now) =>
      WithCall(sys, Me(sys, core),
               Some(Waiting(addr, Usable(bits), all, clearOnExit, DeadlineFor(timeout, now), false)))
    case TestBits(core) =>
      var me := Me(sys, core);
      var call := sys.calls[me].value;
      var current := sys.groups[call.addr];
      if Satisfied(current, call.bits, call.all) then
        WithCall(sys, me, None)
        .(groups := if call.clearOnExit then sys.groups[call.addr := Without(current, call.bits)] else sys.groups)
      else After(WithCall(sys, me, Some(call.(tested := true))), EnrolOn(core, call.addr, false, 0))
    case LeaveWait(core, _) => WithCall(sys, Me(sys, core), None)
    case BeginSet(addr, bits) =>
      After(sys.(groups := sys.groups[addr := With(sys.groups[addr], Usable(bits))],
                 settings := sys.settings + [Setting(addr, MAX_WAKE - 1)]), WakeWaiter(addr, false))
    case PopNext(j) =>
      var setting := sys.settings[j];
      After(sys.(settings := sys.settings[j := setting.(left := setting.left - 1)]), WakeWaiter(setting.addr, false))
    case Clear(addr, bits) => sys.(groups := sys.groups[addr := Without(sys.groups[addr], Usable(bits))])
    case Section(step) => After(sys, step)
  }

  // ── The invariant ───────────────────────────────────────────────────────────────────────────

  /** A set in progress will still reach position `i` of the list. */
  predicate Owed(sys: System, addr: nat, i: nat) {
    exists j :: 0 <= j < |sys.settings| && sys.settings[j].addr == addr && sys.settings[j].left > i
  }

  function List(sys: System, addr: nat): seq<nat> { ListOf(sys.k.lists, addr, false) }

  predicate Content(current: bv32, call: Waiting) { Satisfied(current, call.bits, call.all) }

  /** The `i`-th waiter is in a call on the group; if it is satisfied its wake is on the way. */
  predicate PlaceOk(sys: System, addr: nat, i: nat)
    requires addr in sys.groups && i < |List(sys, addr)|
  {
    var t := List(sys, addr)[i];
    && t < |sys.calls| && sys.calls[t].Some? && sys.calls[t].value.addr == addr
    && (Content(sys.groups[addr], sys.calls[t].value) ==> Owed(sys, addr, i))
  }

  ghost predicate GroupOk(sys: System, addr: nat)
    requires addr in sys.groups
  {
    forall i: nat :: i < |List(sys, addr)| ==> PlaceOk(sys, addr, i)
  }

  /** A wait on a group belongs to a call for it, and can only end by being popped. */
  predicate CallOk(sys: System, t: nat) {
    && |sys.calls| == |sys.k.waits| && t < |sys.calls|
    && (sys.calls[t].Some? ==> sys.calls[t].value.addr in sys.groups)
    && (sys.k.waits[t].Some? && (sys.k.waits[t].value.addr in sys.groups || sys.calls[t].Some?) ==>
          var wait := sys.k.waits[t].value;
          sys.calls[t].Some? && wait.addr == sys.calls[t].value.addr && !wait.send && wait.deadline == 0)
  }

  ghost predicate SystemOk(sys: System) {
    && Inv(sys.k)
    && (forall t: nat :: t < MAX_TASKS ==> CallOk(sys, t))
    && (forall a :: a in sys.groups ==> GroupOk(sys, a))
  }

  lemma WaitersCannotExpire(sys: System, addr: nat)
    requires SystemOk(sys) && addr in sys.groups
    ensures |List(sys, addr)| <= MAX_LISTED
    ensures forall t :: t in List(sys, addr) ==>
      t < |sys.k.waits| && sys.k.waits[t].Some? && sys.k.waits[t].value.deadline == 0
  {
    hide MaskExact, PrioritiesOk, CoresOk, TableOk;
    assert ListOk(sys.k, addr, false);
    forall t | t in List(sys, addr)
      ensures t < |sys.k.waits| && sys.k.waits[t].Some? && sys.k.waits[t].value.deadline == 0
    {
      assert CallOk(sys, t);
    }
  }

  /** More bits never come from a clear. */
  lemma ClearSatisfiesNobody(current: bv32, cleared: bv32, bits: bv32, all: bool)
    ensures Satisfied(Without(current, cleared), bits, all) ==> Satisfied(current, bits, all)
  {
  }

  /** Clearing on exit consumes: whoever needs one of those bits, or can be content with nothing else,
      is no longer satisfied. */
  lemma ClearConsumes(current: bv32, taken: bv32, bits: bv32, all: bool)
    requires if all then bits & taken != 0 else bits & !taken == 0
    ensures !Satisfied(Without(current, taken), bits, all)
  {
    assert ((current & !taken) & bits) & taken == 0;
    assert (current & !taken) & bits == current & (bits & !taken);
  }

  // ── Preservation ────────────────────────────────────────────────────────────────────────────

  lemma SectionCall(sys: System, step: Label, t: nat)
    requires Inv(sys.k) && CallOk(sys, t) && Enabled(sys.k, step) && Separate(sys, step) && t < MAX_TASKS
    ensures CallOk(After(sys, step), t)
  {
    hide Inv, Apply;
    Sized(sys.k);
    Guarantees.StepInv(sys.k, step);
    Sized(Apply(sys.k, step));
    if IsAbout(sys.k, step, t) {
      assert sys.calls[t].None? && sys.k.waits[t].None?;
      AboutWait(sys.k, step, t);
      hide Enabled;
    } else {
      hide Separate, Enabled;
      BystandersUndisturbed(sys.k, step, t);
    }
  }

  /** A kernel section takes at most the first entry of a group's list. */
  lemma SectionList(sys: System, step: Label, addr: nat)
    requires SystemOk(sys) && Enabled(sys.k, step) && Separate(sys, step) && addr in sys.groups
    ensures
      var list := List(sys, addr);
      List(After(sys, step), addr) == if step == WakeWaiter(addr, false) && list != [] then list[1..] else list
  {
    WaitersCannotExpire(sys, addr);
    hide Inv, Apply, CallOk;
    Sized(sys.k);
    SectionLists(sys.k, step, addr, false);
  }

  /** What a section takes out of a list brings everybody else closer, so nobody is owed less. */
  lemma SectionOk(sys: System, step: Label)
    requires SystemOk(sys) && Enabled(sys.k, step) && Separate(sys, step)
    ensures SystemOk(After(sys, step))
  {
    hide Inv, Enabled, Apply, CallOk, Separate, List;
    Sized(sys.k);
    Guarantees.StepInv(sys.k, step);
    var sys' := After(sys, step);
    forall t: nat | t < MAX_TASKS ensures CallOk(sys', t) { SectionCall(sys, step, t); }
    forall a | a in sys'.groups ensures GroupOk(sys', a) {
      SectionList(sys, step, a);
      Shifted(sys, sys', a);
    }
  }

  lemma Shifted(sys: System, sys': System, a: nat)
    requires a in sys.groups && GroupOk(sys, a) && sys'.groups == sys.groups && sys'.calls == sys.calls
      && sys'.settings == sys.settings
    requires List(sys', a) == List(sys, a) || (List(sys, a) != [] && List(sys', a) == List(sys, a)[1..])
    ensures GroupOk(sys', a)
  {
    hide List, Content;
    forall i: nat | i < |List(sys', a)| ensures PlaceOk(sys', a, i) {
      assert PlaceOk(sys, a, i);
      if List(sys', a) != List(sys, a) { assert PlaceOk(sys, a, i + 1); }
    }
  }

  /** The wake a `set` makes, at its start or later: the list loses its first entry, and either the set
      still has a pop for every position left, or it has one fewer for lists one shorter. */
  lemma WakeOk(sys: System, groups: map<nat, bv32>, settings: seq<Setting>, addr: nat)
    requires SystemOk(sys) && addr in sys.groups && groups.Keys == sys.groups.Keys
    requires forall a :: a in sys.groups && a != addr ==> groups[a] == sys.groups[a]
    requires |settings| >= |sys.settings|
    requires forall j :: 0 <= j < |sys.settings| ==>
               && settings[j].addr == sys.settings[j].addr
               && settings[j].left >= sys.settings[j].left - (if sys.settings[j].addr == addr then 1 else 0)
    requires (groups[addr] == sys.groups[addr])
          || exists j :: 0 <= j < |settings| && settings[j] == Setting(addr, MAX_WAKE - 1)
    ensures SystemOk(After(sys.(groups := groups, settings := settings), WakeWaiter(addr, false)))
  {
    hide Inv, Apply, CallOk, List, Content, Satisfied;
    var step := WakeWaiter(addr, false);
    Sized(sys.k);
    Guarantees.StepInv(sys.k, step);
    var sys1 := sys.(groups := groups, settings := settings);
    var sys' := After(sys1, step);
    forall t: nat | t < MAX_TASKS ensures CallOk(sys', t) {
      assert CallOk(sys, t);
      DataCall(sys, sys1, t);
      SectionCall(sys1, step, t);
    }
    forall a | a in sys'.groups ensures GroupOk(sys', a) {
      SectionList(sys, step, a);
      ListsDependOnKernel(sys, sys1, step, a);
      WaitersCannotExpire(sys, a);
      assert GroupOk(sys, a);
      Served(sys, sys', addr, a);
    }
  }

  lemma DataCall(sys: System, sys1: System, t: nat)
    requires CallOk(sys, t) && sys1.k == sys.k && sys1.calls == sys.calls && sys1.groups.Keys == sys.groups.Keys
    ensures CallOk(sys1, t)
  {
    assert forall a :: a in sys1.groups <==> a in sys1.groups.Keys;
    assert forall a :: a in sys.groups <==> a in sys.groups.Keys;
  }

  lemma ListsDependOnKernel(sys: System, sys1: System, step: Label, a: nat)
    requires Inv(sys.k) && Enabled(sys.k, step) && sys1.k == sys.k
    ensures List(After(sys1, step), a) == List(After(sys, step), a)
  {
  }

  lemma Served(sys: System, sys': System, addr: nat, a: nat)
    requires a in sys.groups && GroupOk(sys, a) && a in sys'.groups && sys'.calls == sys.calls
    requires |List(sys, a)| <= MAX_LISTED
    requires List(sys', a) == if a == addr && List(sys, a) != [] then List(sys, a)[1..] else List(sys, a)
    requires |sys'.settings| >= |sys.settings|
    requires forall j :: 0 <= j < |sys.settings| ==>
               && sys'.settings[j].addr == sys.settings[j].addr
               && sys'.settings[j].left >= sys.settings[j].left - (if sys.settings[j].addr == addr then 1 else 0)
    requires sys'.groups[a] == sys.groups[a]
          || (a == addr && exists j :: 0 <= j < |sys'.settings| && sys'.settings[j] == Setting(addr, MAX_WAKE - 1))
    ensures GroupOk(sys', a)
  {
    hide List, Content;
    var shift := if a == addr && List(sys, a) != [] then 1 else 0;
    forall i: nat | i < |List(sys', a)| ensures PlaceOk(sys', a, i) {
      assert PlaceOk(sys, a, i + shift);
      assert List(sys', a)[i] == List(sys, a)[i + shift];
      if sys'.groups[a] == sys.groups[a] {
        if j :| 0 <= j < |sys.settings| && sys.settings[j].addr == a && sys.settings[j].left > i + shift {
          assert sys'.settings[j].addr == a && sys'.settings[j].left > i;
        }
      } else {
        var j :| 0 <= j < |sys'.settings| && sys'.settings[j] == Setting(addr, MAX_WAKE - 1);
        assert sys'.settings[j].left > i;
      }
    }
  }

  /** Bits may go and callers outside the lists may come and go: nobody new is satisfied. */
  lemma DataOk(sys: System, groups: map<nat, bv32>, calls: seq<Option<Waiting>>)
    requires SystemOk(sys) && groups.Keys == sys.groups.Keys && |calls| == |sys.calls| == |sys.k.waits|
    requires forall t: nat :: t < |calls| && calls[t] != sys.calls[t] ==>
               sys.k.waits[t].None? && (calls[t].Some? ==> calls[t].value.addr in groups)
    requires forall a, call: Waiting :: a in sys.groups && Content(groups[a], call) ==> Content(sys.groups[a], call)
    ensures SystemOk(sys.(groups := groups, calls := calls))
  {
    hide Inv, Content;
    var sys' := sys.(groups := groups, calls := calls);
    assert forall a :: a in groups <==> a in groups.Keys;
    assert forall a :: a in sys.groups <==> a in sys.groups.Keys;
    forall t: nat | t < MAX_TASKS ensures CallOk(sys', t) { assert CallOk(sys, t); }
    forall a | a in groups ensures GroupOk(sys', a) {
      WaitersCannotExpire(sys, a);
      assert GroupOk(sys, a);
      hide CallOk;
      forall i: nat | i < |List(sys', a)| ensures PlaceOk(sys', a, i) {
        assert PlaceOk(sys, a, i);
        assert List(sys, a)[i] in List(sys, a);
      }
    }
  }

  lemma BeginWaitOk(sys: System, action: Action)
    requires SystemOk(sys) && Allowed(sys, action) && (action.BeginWait? || action.LeaveWait?)
    ensures SystemOk(Act(sys, action))
  {
    assert |sys.calls| == |sys.k.waits| by { assert CallOk(sys, 0); }
    Sized(sys.k);
    hide Inv, CallOk, Content;
    DataOk(sys, sys.groups, Act(sys, action).calls);
  }

  /** Taking bits out of one group satisfies nobody new anywhere. */
  lemma ClearedContent(groups: map<nat, bv32>, addr: nat, mask: bv32, a: nat, call: Waiting)
    requires addr in groups && a in groups && Content(groups[addr := Without(groups[addr], mask)][a], call)
    ensures Content(groups[a], call)
  {
    ClearSatisfiesNobody(groups[addr], mask, call.bits, call.all);
  }

  lemma ClearOk(sys: System, addr: nat, mask: bv32)
    requires SystemOk(sys) && addr in sys.groups
    ensures SystemOk(sys.(groups := sys.groups[addr := Without(sys.groups[addr], mask)]))
  {
    assert |sys.calls| == |sys.k.waits| by { assert CallOk(sys, 0); }
    hide Inv, CallOk, Content, SystemOk, Without;
    var groups := sys.groups[addr := Without(sys.groups[addr], mask)];
    assert groups.Keys == sys.groups.Keys;
    forall a, call: Waiting | a in sys.groups && Content(groups[a], call) ensures Content(sys.groups[a], call) {
      ClearedContent(sys.groups, addr, mask, a, call);
    }
    DataOk(sys, groups, sys.calls);
  }

  /** A satisfied test: the caller leaves, with or without the bits. */
  lemma PassOk(sys: System, core: nat)
    requires SystemOk(sys) && InWait(sys, core)
    requires var call := sys.calls[Me(sys, core)].value; Satisfied(sys.groups[call.addr], call.bits, call.all)
    ensures SystemOk(Act(sys, TestBits(core)))
  {
    var me := Me(sys, core);
    var call := sys.calls[me].value;
    assert |sys.calls| == |sys.k.waits| by { assert CallOk(sys, 0); }
    Sized(sys.k);
    var left := WithCall(sys, me, None);
    hide Inv, CallOk, Satisfied, Content, Without;
    DataOk(sys, sys.groups, left.calls);
    if call.clearOnExit { ClearOk(left, call.addr, call.bits); }
  }

  /** A test that fails: an unsatisfied caller joins the end of the list. */
  lemma BlockOk(sys: System, core: nat)
    requires SystemOk(sys) && InWait(sys, core)
    requires var call := sys.calls[Me(sys, core)].value; !Satisfied(sys.groups[call.addr], call.bits, call.all)
    ensures SystemOk(Act(sys, TestBits(core)))
  {
    var me := Me(sys, core);
    var call := sys.calls[me].value;
    var step := EnrolOn(core, call.addr, false, 0);
    hide Satisfied, Without;
    Sized(sys.k);
    Guarantees.StepInv(sys.k, step);
    var sys' := Act(sys, TestBits(core));
    assert sys'.groups == sys.groups && sys'.settings == sys.settings
      && sys'.calls == sys.calls[me := Some(call.(tested := true))];
    forall a | a in sys.groups ensures GroupOk(sys', a) {
      BlockLists(sys, core, a);
      WaitersCannotExpire(sys, a);
      assert GroupOk(sys, a);
      hide SystemOk, Inv, CallOk, List, Apply, Enabled, InWait;
      Extended(sys, sys', me, a);
    }
    forall t: nat | t < MAX_TASKS ensures CallOk(sys', t) { BlockCall(sys, core, t); }
    hide Inv, Enabled, Apply, CallOk, GroupOk;
  }

  lemma BlockLists(sys: System, core: nat, a: nat)
    requires SystemOk(sys) && InWait(sys, core)
    requires var call := sys.calls[Me(sys, core)].value; !Satisfied(sys.groups[call.addr], call.bits, call.all)
    ensures
      var list, list' := List(sys, a), List(Act(sys, TestBits(core)), a);
      list' == list || (a == sys.calls[Me(sys, core)].value.addr && list' == list + [Me(sys, core)])
  {
    hide Satisfied, Without;
    ListsAfterEnrol(sys.k.s, sys.k.lists, core, sys.calls[Me(sys, core)].value.addr, false, 0);
    hide Enrol;
  }

  lemma Extended(sys: System, sys': System, me: nat, a: nat)
    requires a in sys.groups && GroupOk(sys, a) && sys'.groups == sys.groups && sys'.settings == sys.settings
    requires me < |sys.calls| && sys.calls[me].Some?
      && sys'.calls == sys.calls[me := Some(sys.calls[me].value.(tested := true))]
    requires List(sys', a) == List(sys, a) || (a == sys.calls[me].value.addr && List(sys', a) == List(sys, a) + [me])
    requires a == sys.calls[me].value.addr ==> !Content(sys.groups[a], sys.calls[me].value)
    ensures GroupOk(sys', a)
  {
    hide List, Satisfied;
    forall i: nat | i < |List(sys', a)| ensures PlaceOk(sys', a, i) {
      if i < |List(sys, a)| { assert PlaceOk(sys, a, i); }
    }
  }

  lemma BlockCall(sys: System, core: nat, t: nat)
    requires SystemOk(sys) && InWait(sys, core) && t < MAX_TASKS
    requires var call := sys.calls[Me(sys, core)].value; !Satisfied(sys.groups[call.addr], call.bits, call.all)
    ensures CallOk(Act(sys, TestBits(core)), t)
  {
    var me := Me(sys, core);
    var call := sys.calls[me].value;
    var step := EnrolOn(core, call.addr, false, 0);
    hide Apply;
    Sized(sys.k);
    Guarantees.StepInv(sys.k, step);
    Sized(Apply(sys.k, step));
    EnrolledOrRunning(sys.k, core, call.addr, false);
    assert CallOk(sys, t);
    if t != me { BystandersUndisturbed(sys.k, step, t); }
    hide Inv, Enabled, Satisfied;
  }

  lemma ActOk(sys: System, action: Action)
    requires SystemOk(sys) && Allowed(sys, action)
    ensures SystemOk(Act(sys, action))
  {
    hide Inv, Apply, SystemOk, Satisfied, Enabled, With, Without, Usable;
    match action
    case BeginWait(_, _, _, _, _, _, _) => BeginWaitOk(sys, action);
    case LeaveWait(_, _) => BeginWaitOk(sys, action);
    case TestBits(core) =>
      var call := sys.calls[Me(sys, core)].value;
      if Satisfied(sys.groups[call.addr], call.bits, call.all) { PassOk(sys, core); } else { BlockOk(sys, core); }
    case BeginSet(addr, bits) => BeginSetOk(sys, addr, With(sys.groups[addr], Usable(bits)));
    case PopNext(j) => PopNextOk(sys, j);
    case Clear(addr, bits) => ClearOk(sys, addr, Usable(bits));
    case Section(step) => SectionOk(sys, step);
  }

  lemma BeginSetOk(sys: System, addr: nat, current: bv32)
    requires SystemOk(sys) && addr in sys.groups
    ensures
      var sys1 := sys.(groups := sys.groups[addr := current], settings := sys.settings + [Setting(addr, MAX_WAKE - 1)]);
      SystemOk(After(sys1, WakeWaiter(addr, false)))
  {
    Sized(sys.k);
    hide Inv, Apply, SystemOk;
    var settings := sys.settings + [Setting(addr, MAX_WAKE - 1)];
    assert settings[|sys.settings|] == Setting(addr, MAX_WAKE - 1);
    WakeOk(sys, sys.groups[addr := current], settings, addr);
  }

  lemma PopNextOk(sys: System, j: nat)
    requires SystemOk(sys) && Allowed(sys, PopNext(j))
    ensures SystemOk(Act(sys, PopNext(j)))
  {
    hide Inv, Apply, CallOk, Satisfied;
    Sized(sys.k);
    var setting := sys.settings[j];
    WakeOk(sys, sys.groups, sys.settings[j := setting.(left := setting.left - 1)], setting.addr);
  }

  // ── Runs ────────────────────────────────────────────────────────────────────────────────────

  function Start(groups: map<nat, bv32>): System {
    System(Boot(), groups, seq(MAX_TASKS, _ => None), [])
  }

  ghost predicate Follows(sys: System, action: Action, sys': System) {
    Allowed(sys, action) && sys' == Act(sys, action)
  }

  ghost predicate IsSystemRun(systems: seq<System>, actions: seq<Action>) {
    && |systems| == |actions| + 1
    && systems[0] == Start(systems[0].groups)
    && forall i :: 0 <= i < |actions| ==> Follows(systems[i], actions[i], systems[i + 1])
  }

  lemma StartOk(groups: map<nat, bv32>)
    ensures SystemOk(Start(groups))
  {
    Guarantees.BootInv();
    hide Inv;
    var sys := Start(groups);
    forall t: nat | t < MAX_TASKS ensures CallOk(sys, t) {}
    forall a | a in groups ensures GroupOk(sys, a) { assert List(sys, a) == []; }
  }

  lemma {:induction false} RunOk(systems: seq<System>, actions: seq<Action>, i: nat)
    requires IsSystemRun(systems, actions) && i < |systems|
    ensures SystemOk(systems[i])
  {
    hide Act, Allowed, SystemOk;
    if i == 0 {
      StartOk(systems[0].groups);
    } else {
      RunOk(systems, actions, i - 1);
      assert Follows(systems[i - 1], actions[i - 1], systems[i]);
      ActOk(systems[i - 1], actions[i - 1]);
    }
  }

  /** Once every `set` call on a group has made all its pops, no task blocked in a `wait` on that group
      has its condition met, however the sets, clears and waits interleaved, and whatever timeouts the
      waiters have. Sixteen pops are enough because lists are served in order and hold at most sixteen. */
  lemma SetsReachEverybody(systems: seq<System>, actions: seq<Action>, i: nat, sleeper: nat)
    requires IsSystemRun(systems, actions) && i < |systems|
    requires var sys := systems[i];
             && sleeper < |sys.calls| && sys.calls[sleeper].Some?
             && Live(sys.k.s, sleeper) && Task(sys.k.s, sleeper).state.BlockedRecv?
             && (forall j :: 0 <= j < |sys.settings| && sys.settings[j].addr == sys.calls[sleeper].value.addr ==>
               sys.settings[j].left == 0)
    ensures
      var sys := systems[i];
      var call := sys.calls[sleeper].value;
      call.addr in sys.groups && !Meets(sys.groups[call.addr], call.bits, call.all)
  {
    RunOk(systems, actions, i);
    var sys := systems[i];
    var call := sys.calls[sleeper].value;
    assert CallOk(sys, sleeper) && TaskOkIn(sys.k, sleeper);
    var place :| 0 <= place < |List(sys, call.addr)| && List(sys, call.addr)[place] == sleeper;
    assert GroupOk(sys, call.addr) && PlaceOk(sys, call.addr, place);
    hide Satisfied, Meets, Inv;
    SatisfiedMeets(sys.groups[call.addr], call.bits, call.all);
  }
}

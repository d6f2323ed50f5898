/** What happens to the bits of an event group in every run: a set adds its bits to those that are there, and
    a bit goes only when a clear, or a wait that clears on exit, names it. */
module GroupBits {
  import opened BitMasks
  import opened Wrappers
  import opened Tasks
  import opened Kernel
  import opened Deadlines
  import opened EventGroups
  import SectionOutcomes

  /** The action is a turn of a `wait` on the group that is met and clears on exit. */
  predicate Consumes(sys: System, action: Action, addr: nat) {
    && action.TestBits? && InWait(sys, action.core) && addr in sys.groups
    && var call := sys.calls[Me(sys, action.core)].value;
       call.addr == addr && call.clearOnExit && Meets(sys.groups[addr], call.bits, call.all)
  }

  /** The bits of one group before and after one action. */
  predicate BitsAct(sys: System, action: Action, addr: nat, after: bv32)
    requires addr in sys.groups
  {
    var before := sys.groups[addr];
    if action.BeginSet? && action.addr == addr then SetsBits(before, Low(action.bits), after)
    else if action.Clear? && action.addr == addr then TakesBits(before, Low(action.bits), after)
    else if Consumes(sys, action, addr) then TakesBits(before, sys.calls[Me(sys, action.core)].value.bits, after)
    else after == before
  }

  lemma WithSets(before: bv32, bits: bv32)
    ensures SetsBits(before, Low(bits), With(before, Usable(bits)))
  {
    OrSets(before, Low(bits));
    hide SetsBits;
  }

  lemma WithoutTakes(before: bv32, bits: bv32)
    ensures TakesBits(before, bits, Without(before, bits))
    ensures TakesBits(before, Low(bits), Without(before, Usable(bits)))
  {
    AndNotTakes(before, bits);
    AndNotTakes(before, Low(bits));
    hide TakesBits;
  }

  lemma ActBits(sys: System, action: Action, addr: nat)
    requires Allowed(sys, action) && addr in sys.groups
    ensures addr in Act(sys, action).groups && BitsAct(sys, action, addr, Act(sys, action).groups[addr])
  {
    hide With, Without, Usable, Satisfied, Low, Meets, SetsBits, TakesBits, Apply, Enabled, WellFormed;
    var before := sys.groups[addr];
    match action
    case BeginSet(_, bits) => WithSets(before, bits);
    case Clear(_, bits) => WithoutTakes(before, bits);
    case TestBits(core) =>
      var call := sys.calls[Me(sys, core)].value;
      WithoutTakes(before, call.bits);
      SatisfiedMeets(sys.groups[call.addr], call.bits, call.all);
    case _ =>
  }

  // ── Waits ───────────────────────────────────────────────────────────────────────────────────

  /** A `wait` asks for the usable bits it was called with, in the way it was called. */
  lemma WaitAsks(sys: System, core: nat, addr: nat, bits: bv32, all: bool, clearOnExit: bool, timeout: Millis,
      now: Ticks)
    requires Allowed(sys, BeginWait(core, addr, bits, all, clearOnExit, timeout, now))
    ensures
      var sys' := Act(sys, BeginWait(core, addr, bits, all, clearOnExit, timeout, now));
      var me := sys.k.s.current[core];
      && !Lacks(Low(bits), Low(bits)) && me < |sys.calls|
      && sys' == sys.(calls := sys.calls[me :=
        Some(Waiting(addr, Low(bits), all, clearOnExit, DeadlineFor(timeout, now), false))])
  {
    hide WellFormed, Enabled, Low;
    LowIsUsable(bits);
  }

  lemma LowIsUsable(bits: bv32)
    ensures Usable(bits) == Low(bits)
    ensures Usable(bits) != 0 <==> !Lacks(Low(bits), Low(bits))
  {
  }

  /** One turn of a `wait` ends it exactly when what it asks for is there; otherwise the caller enrols. */
  lemma WaitEndsExactly(sys: System, core: nat)
    requires Allowed(sys, TestBits(core))
    ensures
      var sys', me := Act(sys, TestBits(core)), sys.k.s.current[core];
      var call := sys.calls[me].value;
      && me < |sys'.calls|
      && if Meets(sys.groups[call.addr], call.bits, call.all) then sys'.calls[me].None? && sys'.k == sys.k
         else
           && sys'.calls[me] == Some(call.(tested := true)) && sys'.groups == sys.groups
           && Enabled(sys.k, EnrolOn(core, call.addr, false, 0))
           && sys'.k == Apply(sys.k, EnrolOn(core, call.addr, false, 0))
  {
    var call := sys.calls[Me(sys, core)].value;
    hide Apply, WellFormed, Satisfied, Meets, Without;
    SatisfiedMeets(sys.groups[call.addr], call.bits, call.all);
  }

  /** A `set` pops at most one waiter at once and has fifteen more pops to make; each of them pops at most one
      and leaves one fewer. */
  lemma SetPops(sys: System, action: Action)
    requires Allowed(sys, action) && (action.BeginSet? || action.PopNext?)
    ensures
      var sys' := Act(sys, action);
      var addr := if action.BeginSet? then action.addr else sys.settings[action.setting].addr;
      && Enabled(sys.k, WakeWaiter(addr, false)) && sys'.k == Apply(sys.k, WakeWaiter(addr, false))
      && sys'.calls == sys.calls
      && sys'.settings ==
           if action.BeginSet? then sys.settings + [Setting(addr, 15)]
           else sys.settings[action.setting := Setting(addr, sys.settings[action.setting].left - 1)]
  {
    hide Apply, WellFormed, With, Usable;
  }

  /** A task inside a `wait` runs no other task-context section, and nobody enrols on a group but through a `wait`. */
  predicate Undivided(sys: System, step: Label) {
    match step
    case LockMutex(core, _, _) => NotWaiting(sys, core)
    case UnlockMutex(core, _) => NotWaiting(sys, core)
    case Sleep(core, _) => NotWaiting(sys, core)
    case Suspend(core) => NotWaiting(sys, core)
    case EnrolOn(core, addr, _, _) => NotWaiting(sys, core) && addr !in sys.groups
    case Spawn(id, _, _) => id < |sys.calls| && sys.calls[id].None?
    case _ => true
  }

  /** The core's own task is running and inside no `wait`. */
  predicate NotWaiting(sys: System, core: nat) {
    SectionOutcomes.Calls(sys.k, core) && Me(sys, core) < |sys.calls| && sys.calls[Me(sys, core)].None?
  }

  /** What has to be the case for a task to begin a `wait`, take a turn of it or leave it, for a set, a pop and a
      clear, and for any other section of the kernel. A `wait` for no usable bit is refused, and one may be left once
      it has been tested and its deadline, if it has one, has come. */
  ghost predicate MayAct(sys: System, action: Action) {
    match action
    case BeginWait(core, addr, bits, _, _, _, _) =>
      NotWaiting(sys, core) && addr in sys.groups && !Lacks(Low(bits), Low(bits))
    case TestBits(core) => Turning(sys, core)
    case LeaveWait(core, now) =>
      && Turning(sys, core)
      && var call := sys.calls[Me(sys, core)].value;
         call.tested && call.deadline != 0 && now >= call.deadline
    case BeginSet(addr, _) => addr in sys.groups
    case PopNext(j) => j < |sys.settings| && sys.settings[j].left > 0 && sys.settings[j].addr in sys.groups
    case Clear(addr, _) => addr in sys.groups
    case Section(step) => SectionOutcomes.MayRun(sys.k, step) && Undivided(sys, step)
  }

  /** The core's own task is running a turn of its `wait`. */
  predicate Turning(sys: System, core: nat) {
    && SectionOutcomes.Calls(sys.k, core) && Me(sys, core) < |sys.calls| && sys.calls[Me(sys, core)].Some?
    && sys.calls[Me(sys, core)].value.addr in sys.groups
  }

  lemma ActsExactly(sys: System, action: Action)
    requires Inv(sys.k)
    ensures Allowed(sys, action) <==> MayAct(sys, action)
  {
    assert WellFormed(sys.k.s) && |sys.k.waits| == MAX_TASKS;
    hide Inv, WellFormed, Usable, Low, Lacks;
    if action.Section? {
      SectionOutcomes.RunsExactly(sys.k, sys.k.lists, action.step);
      hide Enabled, SectionOutcomes.MayRun;
    }
    if action.BeginWait? { LowIsUsable(action.bits); }
  }

  // ── In runs ─────────────────────────────────────────────────────────────────────────────────

  /** The action names some of the given bits of the group and takes them away. */
  predicate TakesAway(sys: System, action: Action, addr: nat, some: bv32) {
    || (action.Clear? && action.addr == addr && !Lacks(Low(action.bits), some))
    || (Consumes(sys, action, addr) && !Lacks(sys.calls[Me(sys, action.core)].value.bits, some))
  }

  lemma BitsKept(sys: System, action: Action, addr: nat, after: bv32, some: bv32)
    requires addr in sys.groups && BitsAct(sys, action, addr, after) && !TakesAway(sys, action, addr, some)
    requires Holds(sys.groups[addr], some)
    ensures Holds(after, some)
  {
    hide Holds, Lacks, Low, SetsBits, TakesBits, Meets, With, Without, Usable, Satisfied;
    var before := sys.groups[addr];
    if action.BeginSet? && action.addr == addr {
      SetKeeps(before, Low(action.bits), after, some);
    } else if action.Clear? && action.addr == addr {
      TakenKeeps(before, Low(action.bits), after, some);
    } else if Consumes(sys, action, addr) {
      TakenKeeps(before, sys.calls[Me(sys, action.core)].value.bits, after, some);
    }
  }

  /** Bits that are set stay set until somebody names one of them to take it away. */
  lemma {:induction false} BitsStay(systems: seq<System>, actions: seq<Action>, i: nat, j: nat, addr: nat, some: bv32)
    requires IsSystemRun(systems, actions) && i <= j < |systems|
    requires addr in systems[i].groups && Holds(systems[i].groups[addr], some)
    requires forall m: nat :: i <= m < j ==> !TakesAway(systems[m], actions[m], addr, some)
    ensures addr in systems[j].groups && Holds(systems[j].groups[addr], some)
    decreases j
  {
    hide Act, Allowed, BitsAct, TakesAway, Holds, Start;
    if i < j {
      BitsStay(systems, actions, i, j - 1, addr, some);
      assert Follows(systems[j - 1], actions[j - 1], systems[j]);
      ActBits(systems[j - 1], actions[j - 1], addr);
      BitsKept(systems[j - 1], actions[j - 1], addr, systems[j].groups[addr], some);
    }
  }

  /** So sets add up: what a `set` found there and what it brought are there together for as long as nobody
      takes any of it away, and whoever waits for bits among them is met. */
  lemma SetsAddUp(systems: seq<System>, actions: seq<Action>, i: nat, j: nat, bits: bv32, all: bool)
    requires IsSystemRun(systems, actions) && i < j < |systems|
    requires actions[i].BeginSet? && actions[i].addr in systems[i].groups
    requires
      var addr := actions[i].addr;
      var more := Both(systems[i].groups[addr], Low(actions[i].bits));
      forall m: nat :: i < m < j ==> !TakesAway(systems[m], actions[m], addr, more)
    ensures
      var addr := actions[i].addr;
      var more := Both(systems[i].groups[addr], Low(actions[i].bits));
      && addr in systems[j].groups && Holds(systems[j].groups[addr], more)
      && (Meets(more, bits, all) ==> Meets(systems[j].groups[addr], bits, all))
  {
    hide Act, Allowed, BitsAct, TakesAway, Holds, Both, Low, Meets, Start;
    var addr := actions[i].addr;
    var more := Both(systems[i].groups[addr], Low(actions[i].bits));
    assert Follows(systems[i], actions[i], systems[i + 1]);
    ActBits(systems[i], actions[i], addr);
    SetBoth(systems[i], actions[i], addr, systems[i + 1].groups[addr]);
    BitsStay(systems, actions, i + 1, j, addr, more);
    if Meets(more, bits, all) { MoreMeets(more, systems[j].groups[addr], bits, all); }
  }

  lemma SetBoth(sys: System, action: Action, addr: nat, after: bv32)
    requires addr in sys.groups && action.BeginSet? && action.addr == addr && BitsAct(sys, action, addr, after)
    ensures Holds(after, Both(sys.groups[addr], Low(action.bits)))
  {
    hide SetsBits, Holds, Both, Low;
    BothSet(sys.groups[addr], Low(action.bits), after);
  }

  /** A `set` of this group that brings one of the given bits. */
  predicate Brings(action: Action, addr: nat, some: bv32) {
    action.BeginSet? && action.addr == addr && !Lacks(Low(action.bits), some)
  }

  lemma NothingBrought(sys: System, action: Action, addr: nat, after: bv32, some: bv32)
    requires addr in sys.groups && BitsAct(sys, action, addr, after) && !Brings(action, addr, some)
    requires Lacks(sys.groups[addr], some)
    ensures Lacks(after, some)
  {
    hide Lacks, Low, SetsBits, TakesBits, Meets, With, Without, Usable, Satisfied;
    if action.BeginSet? && action.addr == addr {
      SetAddsNone(sys.groups[addr], Low(action.bits), after, some);
    } else {
      NothingElse(sys, action, addr, after, some);
    }
  }

  lemma NothingElse(sys: System, action: Action, addr: nat, after: bv32, some: bv32)
    requires addr in sys.groups && BitsAct(sys, action, addr, after) && !(action.BeginSet? && action.addr == addr)
    requires Lacks(sys.groups[addr], some)
    ensures Lacks(after, some)
  {
    hide Lacks, Low, SetsBits, TakesBits, Meets, With, Without, Usable, Satisfied;
    if action.Clear? && action.addr == addr {
      TakenAddsNone(sys.groups[addr], Low(action.bits), after, some);
    } else if Consumes(sys, action, addr) {
      TakenAddsNone(sys.groups[addr], sys.calls[Me(sys, action.core)].value.bits, after, some);
    }
  }

  /** No bit appears but by a `set` that names it; the top byte never does. */
  lemma {:induction false} BitsComeFromSets(systems: seq<System>, actions: seq<Action>, i: nat, j: nat, addr: nat,
      some: bv32)
    requires IsSystemRun(systems, actions) && i <= j < |systems|
    requires addr in systems[i].groups && Lacks(systems[i].groups[addr], some)
    requires forall m: nat :: i <= m < j ==> !Brings(actions[m], addr, some)
    ensures addr in systems[j].groups && Lacks(systems[j].groups[addr], some)
    decreases j
  {
    hide Act, Allowed, BitsAct, Brings, Lacks, Start;
    if i < j {
      BitsComeFromSets(systems, actions, i, j - 1, addr, some);
      assert Follows(systems[j - 1], actions[j - 1], systems[j]);
      ActBits(systems[j - 1], actions[j - 1], addr);
      NothingBrought(systems[j - 1], actions[j - 1], addr, systems[j].groups[addr], some);
    }
  }
}

/** The blocking objects of `dynobj` on top of the kernel: semaphores, byte queues (their lengths;
    `ByteQueues.dfy` has the bytes) and recursive mutexes, and the calls that wait for them.

    Every call is a retry loop. One turn tests the object and, if that fails, enrols on its waiter
    list, in one critical section; a task that has been woken tests again, unless its own deadline has
    passed, in which case it gives up. The kernel is always asked to wait forever. A bare test, which is
    a `try_` call or a turn made from an interrupt, neither enrols nor wakes anybody. */
module BlockingObjects {
  import opened Wrappers
  import opened Sequences
  import opened Tasks
  import opened Inheritance
  import opened Waiters
  import opened Kernel
  import opened Deadlines
  import opened Interference
  import Guarantees

  /** `owner` is NO_TASK for a mutex nobody holds. */
  datatype Object =
    | Semaphore(count: nat, max: nat)
    | ByteQueue(len: nat, capacity: nat)
    | RecursiveMutex(owner: nat, depth: nat)

  datatype Operation = Take | Put | Get | Acquire

  /** A blocking call in progress: `deadline` is the caller's own, `tested` that a turn has been made. */
  datatype Call = Call(addr: nat, op: Operation, deadline: Ticks, tested: bool)

  datatype System = System(k: State, objects: map<nat, Object>, calls: seq<Option<Call>>)

  datatype Action =
    | Begin(core: nat, addr: nat, op: Operation, timeout: Millis, now: Ticks)
    | Test(core: nat)
    | GiveUp(core: nat, now: Ticks)
    | BareTest(addr: nat, op: Operation, me: nat)
    | GivePermit(addr: nat)
    | UnlockRecursive(addr: nat, me: nat)
    | Section(step: Label)

  predicate Sending(op: Operation) { op.Put? }

  predicate Fits(o: Object, op: Operation) {
    match o
    case Semaphore(_, _) => op.Take?
    case ByteQueue(_, _) => op.Put? || op.Get?
    case RecursiveMutex(_, _) => op.Acquire?
  }

  predicate ObjectOk(o: Object) {
    match o
    case Semaphore(count, max) => count <= max
    case ByteQueue(len, capacity) => len <= capacity
    case RecursiveMutex(owner, depth) => owner == NO_TASK <==> depth == 0
  }

  /** The test of one turn: the object after `me` has got what it asked for, if it can. */
  function Claim(o: Object, op: Operation, me: nat): Option<Object>
    requires Fits(o, op)
  {
    match o
    case Semaphore(count, max) => if count > 0 then Some(Semaphore(count - 1, max)) else None
    case ByteQueue(len, capacity) =>
      if op.Put? then if len != capacity then Some(ByteQueue(len + 1, capacity)) else None
      else if len > 0 then Some(ByteQueue(len - 1, capacity)) else None
    case RecursiveMutex(owner, depth) =>
      if owner == NO_TASK then Some(RecursiveMutex(me, 1))
      else if owner == me then Some(RecursiveMutex(owner, depth + 1))
      else None
  }

  /** How many takers (or, when `send`, senders) the object could satisfy right now. */
  function Available(o: Object, send: bool): nat
    requires ObjectOk(o)
  {
    match o
    case Semaphore(count, _) => if send then 0 else count
    case ByteQueue(len, capacity) => if send then capacity - len else len
    case RecursiveMutex(owner, _) => if send || owner != NO_TASK then 0 else 1
  }

  function Me(sys: System, core: nat): nat
    requires core < |sys.k.s.current|
  {
    Current(sys.k, core)
  }

  /** The current task of `core` is executing and is inside no blocking call. */
  predicate Unoccupied(sys: System, core: nat) {
    InTask(sys.k, core) && Me(sys, core) < |sys.calls| && sys.calls[Me(sys, core)].None?
  }

  /** The current task of `core` is executing one turn of its blocking call. */
  predicate InCall(sys: System, core: nat) {
    && InTask(sys.k, core) && Me(sys, core) < |sys.calls| && sys.calls[Me(sys, core)].Some?
    && var call := sys.calls[Me(sys, core)].value;
       call.addr in sys.objects && Fits(sys.objects[call.addr], call.op)
  }

  /** A section of the kernel that is not part of a blocking call: a task inside one runs no other
      task-context section, and nobody enrols on an object except through a call. A bare wake is
      allowed on any address. */
  predicate Separate(sys: System, step: Label) {
    match step
    case LockMutex(core, _, _) => Unoccupied(sys, core)
    case UnlockMutex(core, _) => Unoccupied(sys, core)
    case Sleep(core, _) => Unoccupied(sys, core)
    case Suspend(core) => Unoccupied(sys, core)
    case EnrolOn(core, addr, _, _) => Unoccupied(sys, core) && addr !in sys.objects
    case Spawn(id, _, _) => id < |sys.calls| && sys.calls[id].None?
    case _ => true
  }

  ghost predicate Allowed(sys: System, action: Action)
  {
    && WellFormed(sys.k.s) && |sys.k.waits| == MAX_TASKS
    && (match action
        case Begin(core, addr, op, _, _) => Unoccupied(sys, core) && addr in sys.objects && Fits(sys.objects[addr], op)
        case Test(core) => InCall(sys, core)
        case GiveUp(core, now) =>
          InCall(sys, core) && sys.calls[Me(sys, core)].value.tested
            && RemainingFor(sys.calls[Me(sys, core)].value.deadline, now).None?
        case BareTest(addr, op, me) => addr in sys.objects && Fits(sys.objects[addr], op) && me != NO_TASK
        case GivePermit(addr) => addr in sys.objects && sys.objects[addr].Semaphore?
        case UnlockRecursive(addr, me) => addr in sys.objects && sys.objects[addr].RecursiveMutex? && me != NO_TASK
        case Section(step) => Enabled(sys.k, step) && Separate(sys, step))
  }

  function EndCall(sys: System, core: nat): System
    requires core < |sys.k.s.current| && Me(sys, core) < |sys.calls|
  {
    sys.(calls := sys.calls[Me(sys, core) := None])
  }

  /** The current task of `core` ends its call, and the object it called becomes `o`. */
  function Served(sys: System, core: nat, o: Object): System
    requires InCall(sys, core)
  {
    EndCall(sys, core).(objects := sys.objects[sys.calls[Me(sys, core)].value.addr := o])
  }

  ghost function After(sys: System, step: Label): System
    requires Enabled(sys.k, step)
  {
    sys.(k := Apply(sys.k, step))
  }

  /** One turn of the current task's call: it gets what it asked for, or enrols. */
  ghost function Tested(sys: System, core: nat): System
    requires WellFormed(sys.k.s) && |sys.k.waits| == MAX_TASKS && InCall(sys, core)
  {
    var me := Me(sys, core);
    var call := sys.calls[me].value;
    match Claim(sys.objects[call.addr], call.op, me)
    case Some(claimed) =>
      var done := Served(sys, core, claimed);
      if claimed.ByteQueue? then After(done, WakeWaiter(call.addr, !Sending(call.op))) else done
    case None =>
      After(sys.(calls := sys.calls[me := Some(call.(tested := true))]), EnrolOn(core, call.addr, Sending(call.op), 0))
  }

  /** One bare test on behalf of `me`: a claim if it can be made, and nothing else. */
  function Tried(sys: System, addr: nat, op: Operation, me: nat): System
    requires addr in sys.objects && Fits(sys.objects[addr], op)
  {
    match Claim(sys.objects[addr], op, me)
    case Some(claimed) => sys.(objects := sys.objects[addr := claimed])
    case None => sys
  }

  ghost function Given(sys: System, addr: nat): System
    requires WellFormed(sys.k.s) && |sys.k.waits| == MAX_TASKS && addr in sys.objects && sys.objects[addr].Semaphore?
  {
    var o := sys.objects[addr];
    if o.count >= o.max then sys
    else After(sys.(objects := sys.objects[addr := Semaphore(o.count + 1, o.max)]), WakeWaiter(addr, false))
  }

  ghost function Unlocked(sys: System, me: nat, addr: nat): System
    requires WellFormed(sys.k.s) && |sys.k.waits| == MAX_TASKS && addr in sys.objects
      && sys.objects[addr].RecursiveMutex?
  {
    var o := sys.objects[addr];
    if o.owner != me || o.depth == 0 then sys
    else if o.depth > 1 then sys.(objects := sys.objects[addr := RecursiveMutex(o.owner, o.depth - 1)])
    else After(sys.(objects := sys.objects[addr := RecursiveMutex(NO_TASK, 0)]), WakeWaiter(addr, false))
  }

  ghost function Act(sys: System, action: Action): System
    requires Allowed(sys, action)
  {
    match action
    case Begin(core, addr, op, timeout, now) =>
      sys.(calls := sys.calls[Me(sys, core) := Some(Call(addr, op, DeadlineFor(timeout, now), false))])
    case Test(core) => Tested(sys, core)
    case GiveUp(core, _) => EndCall(sys, core)
    case BareTest(addr, op, me) => Tried(sys, addr, op, me)
    case GivePermit(addr) => Given(sys, addr)
    case UnlockRecursive(addr, me) => Unlocked(sys, me, addr)
    case Section(step) => After(sys, step)
  }

  // ── The invariant ───────────────────────────────────────────────────────────────────────────

  predicate Asleep(sys: System, t: nat, addr: nat, send: bool) {
    t < |sys.k.waits| && WaitsFor(sys.k.waits[t], addr, send)
  }

  predicate IsPending(sys: System, t: nat, addr: nat, send: bool) {
    && t < |sys.calls| && sys.calls[t].Some?
    && sys.calls[t].value.addr == addr && Sending(sys.calls[t].value.op) == send
    && !Asleep(sys, t, addr, send)
  }

  /** The callers about to test the object: woken, or not yet enrolled. */
  function Pending(sys: System, addr: nat, send: bool): set<nat> {
    set t | 0 <= t < |sys.calls| && IsPending(sys, t, addr, send)
  }

  /** If anybody is asleep waiting for the object, no more of it is available than there are callers
      about to test it. */
  ghost predicate NothingLost(sys: System, addr: nat, send: bool)
    requires addr in sys.objects && ObjectOk(sys.objects[addr])
  {
    (exists t: nat :: Asleep(sys, t, addr, send)) ==> Available(sys.objects[addr], send) <= |Pending(sys, addr, send)|
  }

  /** A wait on an object belongs to a call for it, which asked the kernel to wait forever; a caller
      that is in no wait is running or about to. */
  predicate CallOk(sys: System, t: nat) {
    && |sys.calls| == |sys.k.waits| && t < |sys.calls|
    && (sys.k.waits[t].Some? && sys.k.waits[t].value.addr in sys.objects ==> sys.calls[t].Some?)
    && (sys.calls[t].Some? ==>
          var call := sys.calls[t].value;
          && call.addr in sys.objects && Fits(sys.objects[call.addr], call.op)
          && Live(sys.k.s, t)
          && match sys.k.waits[t]
             case None => Active(Task(sys.k.s, t))
             case Some(wait) => wait.addr == call.addr && wait.send == Sending(call.op) && wait.deadline == 0)
  }

  /** Everything but the absence of lost wakeups, which needs callers that do not give up. */
  ghost predicate SystemOk(sys: System) {
    && Inv(sys.k)
    && (forall a :: a in sys.objects ==> ObjectOk(sys.objects[a]))
    && (forall t: nat :: t < MAX_TASKS ==> CallOk(sys, t))
  }

  ghost predicate NeverLost(sys: System) {
    forall a, send: bool :: a in sys.objects && ObjectOk(sys.objects[a]) ==> NothingLost(sys, a, send)
  }

  // ── Every action keeps calls and waits in step ──────────────────────────────────────────────

  lemma SectionCall(sys: System, step: Label, t: nat)
    requires SystemOk(sys) && Enabled(sys.k, step) && Separate(sys, step) && t < MAX_TASKS
    ensures CallOk(After(sys, step), t)
  {
    hide Inv, Apply;
    Sized(sys.k);
    Guarantees.StepInv(sys.k, step);
    Sized(Apply(sys.k, step));
    assert CallOk(sys, t);
    if IsAbout(sys.k, step, t) {
      assert sys.calls[t].None? && sys.k.waits[t].None?;
      AboutWait(sys.k, step, t);
      hide Enabled;
    } else {
      hide Separate, Enabled;
      BystandersUndisturbed(sys.k, step, t);
      hide CallOk;
      CallCarries(sys, Apply(sys.k, step), t);
    }
  }

  lemma CallCarries(sys: System, k': State, t: nat)
    requires CallOk(sys, t) && Undisturbed(sys.k, k', t) && |k'.waits| == |sys.k.waits|
    ensures CallOk(sys.(k := k'), t)
  {
  }

  lemma SectionOk(sys: System, step: Label)
    requires SystemOk(sys) && Enabled(sys.k, step) && Separate(sys, step)
    ensures SystemOk(After(sys, step))
  {
    hide Inv, Enabled, Apply, CallOk, Separate;
    Sized(sys.k);
    Guarantees.StepInv(sys.k, step);
    forall t: nat | t < MAX_TASKS ensures CallOk(After(sys, step), t) { SectionCall(sys, step, t); }
  }

  /** A failed turn: the caller is listed and asleep, or there was no room and it is still running. */
  lemma EnrolOk(sys: System, core: nat)
    requires SystemOk(sys) && InCall(sys, core)
    requires var call := sys.calls[Me(sys, core)].value; Claim(sys.objects[call.addr], call.op, Me(sys, core)).None?
    ensures SystemOk(Tested(sys, core))
  {
    var call := sys.calls[Me(sys, core)].value;
    Guarantees.StepInv(sys.k, EnrolOn(core, call.addr, Sending(call.op), 0));
    forall t: nat | t < MAX_TASKS ensures CallOk(Tested(sys, core), t) { EnrolCallOk(sys, core, t); }
    hide Inv, Enabled, Apply, CallOk;
  }

  lemma EnrolCallOk(sys: System, core: nat, t: nat)
    requires SystemOk(sys) && InCall(sys, core) && t < MAX_TASKS
    requires var call := sys.calls[Me(sys, core)].value; Claim(sys.objects[call.addr], call.op, Me(sys, core)).None?
    ensures CallOk(Tested(sys, core), t)
  {
    var me := Me(sys, core);
    var call := sys.calls[me].value;
    Sized(sys.k);
    EnrolledOrRunning(sys.k, core, call.addr, Sending(call.op));
    assert CallOk(sys, t);
    if t != me { BystandersUndisturbed(sys.k, EnrolOn(core, call.addr, Sending(call.op), 0), t); }
    hide Inv, Apply, Claim, Caller;
  }

  /** Steps that only change the object and who is in a call. */
  lemma DataOk(sys: System, objects: map<nat, Object>, calls: seq<Option<Call>>)
    requires SystemOk(sys) && objects.Keys == sys.objects.Keys
    requires forall a :: a in objects ==>
               ObjectOk(objects[a]) && forall op :: Fits(sys.objects[a], op) ==> Fits(objects[a], op)
    requires |calls| == |sys.calls| == |sys.k.waits|
    requires forall t: nat :: t < |calls| && calls[t] != sys.calls[t] ==>
               && sys.k.waits[t].None?
               && (calls[t].Some? ==>
                     && Live(sys.k.s, t) && Active(Task(sys.k.s, t))
                     && calls[t].value.addr in objects && Fits(objects[calls[t].value.addr], calls[t].value.op))
    ensures SystemOk(sys.(objects := objects, calls := calls))
  {
    hide Inv;
    forall t: nat | t < MAX_TASKS ensures CallOk(sys.(objects := objects, calls := calls), t) { assert CallOk(sys, t); }
  }

  // ── No action loses a wakeup, except giving up ──────────────────────────────────────────────

  /** One more of the object has become available than the callers about to test it account for. */
  ghost predicate OwesOne(sys: System, addr: nat, send: bool)
    requires addr in sys.objects && ObjectOk(sys.objects[addr])
  {
    (exists t: nat :: Asleep(sys, t, addr, send)) ==>
      Available(sys.objects[addr], send) <= |Pending(sys, addr, send)| + 1
  }

  /** Nobody falls asleep, nobody stops being about to test, and no more becomes available. */
  lemma StillNothingLost(sys: System, sys': System, addr: nat, send: bool)
    requires addr in sys.objects && ObjectOk(sys.objects[addr]) && addr in sys'.objects && ObjectOk(sys'.objects[addr])
    requires NothingLost(sys, addr, send)
    requires forall t: nat :: Asleep(sys', t, addr, send) ==> Asleep(sys, t, addr, send)
    requires forall t: nat :: IsPending(sys, t, addr, send) ==> IsPending(sys', t, addr, send)
    requires Available(sys'.objects[addr], send) <= Available(sys.objects[addr], send)
    ensures NothingLost(sys', addr, send)
  {
    hide Asleep, Available;
    assert Pending(sys, addr, send) <= Pending(sys', addr, send);
    SubsetSize(Pending(sys, addr, send), Pending(sys', addr, send));
    if t: nat :| Asleep(sys', t, addr, send) { assert Asleep(sys, t, addr, send); }
  }

  lemma SectionKeepsSleepers(sys: System, step: Label, addr: nat, send: bool, t: nat)
    requires SystemOk(sys) && Enabled(sys.k, step) && Separate(sys, step) && addr in sys.objects
    ensures Asleep(After(sys, step), t, addr, send) ==> Asleep(sys, t, addr, send)
  {
    hide Inv, Apply;
    Sized(sys.k);
    Guarantees.StepInv(sys.k, step);
    Sized(Apply(sys.k, step));
    if t < MAX_TASKS {
      if IsAbout(sys.k, step, t) {
        assert sys.k.waits[t].None?;
        AboutWait(sys.k, step, t);
      } else {
        hide Separate, Enabled;
        BystandersUndisturbed(sys.k, step, t);
      }
    }
  }

  lemma SectionLosesNothing(sys: System, step: Label, addr: nat, send: bool)
    requires SystemOk(sys) && Enabled(sys.k, step) && Separate(sys, step)
    requires addr in sys.objects && NothingLost(sys, addr, send)
    ensures addr in After(sys, step).objects && NothingLost(After(sys, step), addr, send)
  {
    hide Inv, Enabled, Apply, CallOk, Separate, Asleep, WaitsFor;
    Sized(sys.k);
    forall t: nat ensures Asleep(After(sys, step), t, addr, send) ==> Asleep(sys, t, addr, send) {
      SectionKeepsSleepers(sys, step, addr, send, t);
    }
    StillNothingLost(sys, After(sys, step), addr, send);
  }

  /** A wake finds somebody whenever somebody is asleep, and takes nobody else's place. */
  lemma WakePops(sys: System, addr: nat, send: bool, sleeper: nat) returns (woken: nat)
    requires SystemOk(sys) && addr in sys.objects && Asleep(sys, sleeper, addr, send)
    ensures Asleep(sys, woken, addr, send)
    ensures
      var popped := Some(sys.k.waits[woken].value.(popped := true));
      After(sys, WakeWaiter(addr, send)).k.waits == sys.k.waits[woken := popped]
  {
    hide MaskExact, PrioritiesOk, CoresOk, TableOk;
    assert CallOk(sys, sleeper) && TaskOkIn(sys.k, sleeper);
    Guarantees.WakeIsFifo(sys.k, addr, send, sleeper);
    woken := WakeOne(sys.k.s, sys.k.lists, addr, send).2.value;
  }

  /** Waking one waiter settles what one new unit owes. */
  lemma WakeSettles(sys: System, addr: nat, send: bool)
    requires SystemOk(sys) && addr in sys.objects && OwesOne(sys, addr, send)
    ensures addr in After(sys, WakeWaiter(addr, send)).objects
      && NothingLost(After(sys, WakeWaiter(addr, send)), addr, send)
  {
    hide Inv, Apply, Available;
    Sized(sys.k);
    var sys' := After(sys, WakeWaiter(addr, send));
    var before, after := Pending(sys, addr, send), Pending(sys', addr, send);
    if sleeper: nat :| Asleep(sys', sleeper, addr, send) {
      SectionKeepsSleepers(sys, WakeWaiter(addr, send), addr, send, sleeper);
      var woken := WakePops(sys, addr, send, sleeper);
      assert CallOk(sys, woken);
      assert woken !in before && woken in after;
      forall t | t in before ensures t in after { assert IsPending(sys', t, addr, send); }
      SubsetSize(before + {woken}, after);
    }
  }

  /** The wake of one object's list cannot lose anything anywhere. */
  lemma WakeKeepsNeverLost(sys: System, addr: nat, send: bool)
    requires SystemOk(sys) && addr in sys.objects && OwesOne(sys, addr, send)
    requires forall a, s: bool :: a in sys.objects && (a != addr || s != send) ==> NothingLost(sys, a, s)
    ensures SystemOk(After(sys, WakeWaiter(addr, send))) && NeverLost(After(sys, WakeWaiter(addr, send)))
  {
    hide Inv, Apply, Asleep, Pending, Available, CallOk;
    Sized(sys.k);
    SectionOk(sys, WakeWaiter(addr, send));
    WakeSettles(sys, addr, send);
    forall a, s: bool | a in sys.objects && (a != addr || s != send)
      ensures NothingLost(After(sys, WakeWaiter(addr, send)), a, s)
    {
      SectionLosesNothing(sys, WakeWaiter(addr, send), a, s);
    }
  }

  /** A caller that has been served leaves as many callers fewer as it takes units. */
  lemma ServedOwes(sys: System, core: nat)
    requires SystemOk(sys) && NeverLost(sys) && InCall(sys, core)
    requires var call := sys.calls[Me(sys, core)].value; Claim(sys.objects[call.addr], call.op, Me(sys, core)).Some?
    ensures
      var call := sys.calls[Me(sys, core)].value;
      var sys' := Served(sys, core, Claim(sys.objects[call.addr], call.op, Me(sys, core)).value);
      && SystemOk(sys')
      && OwesOne(sys', call.addr, !Sending(call.op))
      && (forall a, s: bool :: a in sys'.objects && (a != call.addr || s == Sending(call.op)) ==>
        NothingLost(sys', a, s))
      && (!sys.objects[call.addr].ByteQueue? ==> NothingLost(sys', call.addr, !Sending(call.op)))
  {
    var me := Me(sys, core);
    var call := sys.calls[me].value;
    var o := Claim(sys.objects[call.addr], call.op, me).value;
    var sys' := Served(sys, core, o);
    ServedOk(sys, core);
    hide Inv, CallOk;
    var mine, mine' := Pending(sys, call.addr, Sending(call.op)), Pending(sys', call.addr, Sending(call.op));
    assert mine' == mine - {me} && me in mine;
    assert NothingLost(sys, call.addr, Sending(call.op));
    var others, others' := Pending(sys, call.addr, !Sending(call.op)), Pending(sys', call.addr, !Sending(call.op));
    assert others' == others;
    assert NothingLost(sys, call.addr, !Sending(call.op));
    forall t: nat, s: bool ensures Asleep(sys', t, call.addr, s) == Asleep(sys, t, call.addr, s) {}
    forall a, s: bool | a in sys'.objects && a != call.addr ensures NothingLost(sys', a, s) {
      StillNothingLost(sys, sys', a, s);
    }
  }

  lemma ServedOk(sys: System, core: nat)
    requires SystemOk(sys) && InCall(sys, core)
    requires var call := sys.calls[Me(sys, core)].value; Claim(sys.objects[call.addr], call.op, Me(sys, core)).Some?
    ensures
      var call := sys.calls[Me(sys, core)].value;
      SystemOk(Served(sys, core, Claim(sys.objects[call.addr], call.op, Me(sys, core)).value))
  {
    var me := Me(sys, core);
    var call := sys.calls[me].value;
    Sized(sys.k);
    assert CallOk(sys, me);
    hide Inv, CallOk;
    var o := Claim(sys.objects[call.addr], call.op, me).value;
    DataOk(sys, sys.objects[call.addr := o], sys.calls[me := None]);
  }

  /** One successful turn of a call. */
  lemma ServedLosesNothing(sys: System, core: nat)
    requires SystemOk(sys) && NeverLost(sys) && InCall(sys, core)
    requires var call := sys.calls[Me(sys, core)].value; Claim(sys.objects[call.addr], call.op, Me(sys, core)).Some?
    ensures SystemOk(Tested(sys, core)) && NeverLost(Tested(sys, core))
  {
    var call := sys.calls[Me(sys, core)].value;
    var o := Claim(sys.objects[call.addr], call.op, Me(sys, core)).value;
    ServedOwes(sys, core);
    hide Inv, Apply, CallOk, NothingLost, OwesOne, InCall;
    if o.ByteQueue? { WakeKeepsNeverLost(Served(sys, core, o), call.addr, !Sending(call.op)); }
  }

  /** One failed turn: nothing was available on that side. */
  lemma EnrolLosesNothing(sys: System, core: nat)
    requires SystemOk(sys) && NeverLost(sys) && InCall(sys, core)
    requires var call := sys.calls[Me(sys, core)].value; Claim(sys.objects[call.addr], call.op, Me(sys, core)).None?
    ensures SystemOk(Tested(sys, core)) && NeverLost(Tested(sys, core))
  {
    var me := Me(sys, core);
    var call := sys.calls[me].value;
    EnrolOk(sys, core);
    EnrolledOrRunning(sys.k, core, call.addr, Sending(call.op));
    var sys' := Tested(sys, core);
    assert sys'.objects == sys.objects && sys'.calls == sys.calls[me := Some(call.(tested := true))];
    assert Available(sys.objects[call.addr], Sending(call.op)) == 0;
    assert |sys.k.waits| == |sys'.k.waits| == |sys.calls| by { assert CallOk(sys, 0) && CallOk(sys', 0); }
    hide SystemOk, Apply, Enabled, CallOk, Available, Claim;
    forall a, s: bool | a in sys.objects ensures NothingLost(sys', a, s) {
      if a != call.addr || s != Sending(call.op) {
        assert NothingLost(sys, a, s);
        EnrolElsewhere(sys, sys', me, a, s);
      }
    }
  }

  lemma EnrolElsewhere(sys: System, sys': System, me: nat, a: nat, s: bool)
    requires me < |sys.calls| && sys.calls[me].Some?
      && sys'.calls == sys.calls[me := Some(sys.calls[me].value.(tested := true))]
    requires a != sys.calls[me].value.addr || s != Sending(sys.calls[me].value.op)
    requires |sys.k.waits| == |sys'.k.waits| == |sys.calls| == MAX_TASKS
    requires forall t: nat :: t < MAX_TASKS && t != me ==> sys'.k.waits[t] == sys.k.waits[t]
    requires sys'.k.waits[me].Some? ==>
               sys'.k.waits[me].value.addr == sys.calls[me].value.addr
                 && sys'.k.waits[me].value.send == Sending(sys.calls[me].value.op)
    requires sys'.objects == sys.objects && a in sys.objects && ObjectOk(sys.objects[a]) && NothingLost(sys, a, s)
    ensures NothingLost(sys', a, s)
  {
    hide Available;
    StillNothingLost(sys, sys', a, s);
  }

  /** A new unit appears and one waiter is woken for it, in one step. */
  lemma ReplenishLosesNothing(sys: System, addr: nat, o: Object)
    requires SystemOk(sys) && NeverLost(sys) && addr in sys.objects && ObjectOk(o)
    requires forall op :: Fits(sys.objects[addr], op) ==> Fits(o, op)
    requires Available(o, false) <= Available(sys.objects[addr], false) + 1
    requires Available(o, true) <= Available(sys.objects[addr], true)
    ensures
      var sys' := After(sys.(objects := sys.objects[addr := o]), WakeWaiter(addr, false));
      SystemOk(sys') && NeverLost(sys')
  {
    var sys1 := sys.(objects := sys.objects[addr := o]);
    Sized(sys.k);
    assert |sys.calls| == |sys.k.waits| by { assert CallOk(sys, 0); }
    DataOk(sys, sys1.objects, sys.calls);
    hide Inv, Apply, CallOk, Available;
    assert OwesOne(sys1, addr, false) by {
      assert NothingLost(sys, addr, false);
      assert Pending(sys1, addr, false) == Pending(sys, addr, false);
      if t: nat :| Asleep(sys1, t, addr, false) { assert Asleep(sys, t, addr, false); }
    }
    forall a, s: bool | a in sys.objects && (a != addr || s) ensures NothingLost(sys1, a, s) {
      StillNothingLost(sys, sys1, a, s);
    }
    WakeKeepsNeverLost(sys1, addr, false);
  }

  /** An object changes with nothing becoming available. */
  lemma DataLosesNothing(sys: System, objects: map<nat, Object>, calls: seq<Option<Call>>)
    requires SystemOk(sys) && NeverLost(sys) && objects.Keys == sys.objects.Keys
    requires var sys' := sys.(objects := objects, calls := calls); SystemOk(sys')
    requires forall a, s: bool :: a in objects && ObjectOk(objects[a]) ==>
      Available(objects[a], s) <= Available(sys.objects[a], s)
    requires forall a: nat, s: bool, t: nat :: IsPending(sys, t, a, s) ==>
      IsPending(sys.(objects := objects, calls := calls), t, a, s)
    ensures NeverLost(sys.(objects := objects, calls := calls))
  {
    var sys' := sys.(objects := objects, calls := calls);
    hide Inv, CallOk, Available;
    forall a, s: bool | a in objects ensures NothingLost(sys', a, s) { StillNothingLost(sys, sys', a, s); }
  }

  lemma BeginKeeps(sys: System, core: nat, addr: nat, op: Operation, timeout: Millis, now: Ticks)
    requires SystemOk(sys) && Allowed(sys, Begin(core, addr, op, timeout, now))
    ensures SystemOk(Act(sys, Begin(core, addr, op, timeout, now)))
    ensures NeverLost(sys) ==> NeverLost(Act(sys, Begin(core, addr, op, timeout, now)))
  {
    var me := Me(sys, core);
    assert CallOk(sys, me);
    Sized(sys.k);
    hide Inv, CallOk;
    var calls := sys.calls[me := Some(Call(addr, op, DeadlineFor(timeout, now), false))];
    DataOk(sys, sys.objects, calls);
    if NeverLost(sys) { DataLosesNothing(sys, sys.objects, calls); }
  }

  lemma GivePermitKeeps(sys: System, addr: nat)
    requires SystemOk(sys) && NeverLost(sys) && WellFormed(sys.k.s) && |sys.k.waits| == MAX_TASKS
    requires addr in sys.objects && sys.objects[addr].Semaphore?
    ensures SystemOk(Given(sys, addr)) && NeverLost(Given(sys, addr))
  {
    var o := sys.objects[addr];
    assert ObjectOk(o);
    hide SystemOk, NeverLost, Apply;
    if o.count < o.max { ReplenishLosesNothing(sys, addr, Semaphore(o.count + 1, o.max)); }
  }

  lemma UnlockKeeps(sys: System, me: nat, addr: nat)
    requires SystemOk(sys) && NeverLost(sys) && WellFormed(sys.k.s) && |sys.k.waits| == MAX_TASKS
    requires addr in sys.objects && sys.objects[addr].RecursiveMutex?
    ensures SystemOk(Unlocked(sys, me, addr)) && NeverLost(Unlocked(sys, me, addr))
  {
    var o := sys.objects[addr];
    assert |sys.calls| == |sys.k.waits| by { assert CallOk(sys, 0); }
    assert ObjectOk(o);
    hide Inv, CallOk, NothingLost, Apply;
    if o.owner == me && o.depth == 1 {
      ReplenishLosesNothing(sys, addr, RecursiveMutex(NO_TASK, 0));
    } else if o.owner == me && o.depth > 1 {
      var objects := sys.objects[addr := RecursiveMutex(o.owner, o.depth - 1)];
      DataOk(sys, objects, sys.calls);
      DataLosesNothing(sys, objects, sys.calls);
    }
  }

  /** Giving up keeps the books, but the unit the caller was woken for is nobody's any more: it loses a
      wakeup exactly when somebody is asleep for the object and there is a unit for every caller about
      to test it. */
  lemma GiveUpLoses(sys: System, core: nat, now: Ticks)
    requires SystemOk(sys) && NeverLost(sys) && Allowed(sys, GiveUp(core, now))
    ensures
      var call := sys.calls[Me(sys, core)].value;
      var sys' := Act(sys, GiveUp(core, now));
      && SystemOk(sys')
      && (forall a, s: bool :: a in sys'.objects && (a != call.addr || s != Sending(call.op)) ==>
        NothingLost(sys', a, s))
      && (NothingLost(sys', call.addr, Sending(call.op)) <==>
            (exists t: nat :: Asleep(sys, t, call.addr, Sending(call.op))) ==>
               Available(sys.objects[call.addr], Sending(call.op)) != |Pending(sys, call.addr, Sending(call.op))|)
  {
    var me := Me(sys, core);
    var call := sys.calls[me].value;
    var sys' := Act(sys, GiveUp(core, now));
    assert CallOk(sys, me);
    Sized(sys.k);
    hide Inv, CallOk;
    DataOk(sys, sys.objects, sys.calls[me := None]);
    var mine, mine' := Pending(sys, call.addr, Sending(call.op)), Pending(sys', call.addr, Sending(call.op));
    assert mine' == mine - {me} && me in mine;
    forall t: nat, a: nat, s: bool ensures Asleep(sys', t, a, s) == Asleep(sys, t, a, s) {}
    assert NothingLost(sys, call.addr, Sending(call.op));
    hide Available, Asleep, Pending;
    forall a, s: bool | a in sys'.objects && (a != call.addr || s != Sending(call.op)) ensures NothingLost(sys', a, s) {
      GiveUpElsewhere(sys, core, now, a, s);
    }
  }

  lemma GiveUpElsewhere(sys: System, core: nat, now: Ticks, a: nat, s: bool)
    requires SystemOk(sys) && NeverLost(sys) && Allowed(sys, GiveUp(core, now)) && a in sys.objects
    requires var call := sys.calls[Me(sys, core)].value; a != call.addr || s != Sending(call.op)
    ensures NothingLost(Act(sys, GiveUp(core, now)), a, s)
  {
    StillNothingLost(sys, Act(sys, GiveUp(core, now)), a, s);
  }

  /** A byte queue is sent to or received from by a bare test. */
  predicate BareQueueCall(action: Action) { action.BareTest? && (action.op.Put? || action.op.Get?) }

  /** A bare test keeps the books too, but the unit it makes for the other side is announced
      to nobody: it loses a wakeup exactly when it gets through to a byte queue with somebody asleep on the
      other side and a unit there for every caller about to test. */
  lemma BareTestLoses(sys: System, addr: nat, op: Operation, me: nat)
    requires SystemOk(sys) && NeverLost(sys) && addr in sys.objects && Fits(sys.objects[addr], op) && me != NO_TASK
    ensures
      var o, other := sys.objects[addr], !Sending(op);
      var sys' := Tried(sys, addr, op, me);
      && SystemOk(sys')
      && (forall a, s: bool :: a in sys'.objects && (a != addr || s != other) ==> NothingLost(sys', a, s))
      && (NothingLost(sys', addr, other) <==>
            (o.ByteQueue? && Claim(o, op, me).Some? && (exists t: nat :: Asleep(sys, t, addr, other)) ==>
               Available(o, other) != |Pending(sys, addr, other)|))
  {
    var other := !Sending(op);
    var sys' := Tried(sys, addr, op, me);
    BareTestOk(sys, addr, op, me);
    if Claim(sys.objects[addr], op, me).Some? { ClaimUnits(sys.objects[addr], op, me); }
    SameCallers(sys, sys');
    assert NothingLost(sys, addr, other);
    hide SystemOk, CallOk, Inv, Asleep, Pending, IsPending, Available, Claim;
    if t: nat :| Asleep(sys, t, addr, other) { assert Asleep(sys', t, addr, other); }
    if t: nat :| Asleep(sys', t, addr, other) { assert Asleep(sys, t, addr, other); }
    forall a, s: bool | a in sys'.objects && (a != addr || s != other) ensures NothingLost(sys', a, s) {
      StillNothingLost(sys, sys', a, s);
    }
  }

  /** A claim takes a unit from its own side, or finds itself served already, and on a byte queue makes one
      for the other. */
  lemma ClaimUnits(o: Object, op: Operation, me: nat)
    requires ObjectOk(o) && Fits(o, op) && me != NO_TASK && Claim(o, op, me).Some?
    ensures
      var o' := Claim(o, op, me).value;
      && ObjectOk(o') && (forall p :: Fits(o, p) <==> Fits(o', p))
      && Available(o', Sending(op)) <= Available(o, Sending(op))
      && Available(o', !Sending(op)) == Available(o, !Sending(op)) + if o.ByteQueue? then 1 else 0
  {
  }

  /** Only the objects differ, so the same tasks are asleep and the same are about to test. */
  lemma SameCallers(sys: System, sys': System)
    requires sys'.k == sys.k && sys'.calls == sys.calls
    ensures forall t: nat, a: nat, s: bool :: Asleep(sys', t, a, s) == Asleep(sys, t, a, s)
    ensures forall t: nat, a: nat, s: bool :: IsPending(sys', t, a, s) == IsPending(sys, t, a, s)
    ensures forall a: nat, s: bool :: Pending(sys', a, s) == Pending(sys, a, s)
  {
    forall t: nat, a: nat, s: bool ensures Asleep(sys', t, a, s) == Asleep(sys, t, a, s) {}
    forall t: nat, a: nat, s: bool ensures IsPending(sys', t, a, s) == IsPending(sys, t, a, s) {}
    hide Asleep, IsPending;
    forall a: nat, s: bool ensures Pending(sys', a, s) == Pending(sys, a, s) {}
  }

  lemma BareTestOk(sys: System, addr: nat, op: Operation, me: nat)
    requires SystemOk(sys) && addr in sys.objects && Fits(sys.objects[addr], op) && me != NO_TASK
    ensures SystemOk(Tried(sys, addr, op, me)) && ObjectOk(sys.objects[addr])
  {
    var o := sys.objects[addr];
    assert |sys.calls| == |sys.k.waits| by { Sized(sys.k); assert CallOk(sys, 0); }
    hide Inv, CallOk;
    if Claim(o, op, me).Some? {
      ClaimUnits(o, op, me);
      hide Claim;
      DataOk(sys, sys.objects[addr := Claim(o, op, me).value], sys.calls);
    }
  }

  /** A semaphore or a mutex has no other side, so a bare test of one loses nothing. */
  lemma BareTestKeeps(sys: System, addr: nat, op: Operation, me: nat)
    requires SystemOk(sys) && NeverLost(sys) && addr in sys.objects && Fits(sys.objects[addr], op) && me != NO_TASK
    requires !op.Put? && !op.Get?
    ensures SystemOk(Tried(sys, addr, op, me)) && NeverLost(Tried(sys, addr, op, me))
  {
    BareTestLoses(sys, addr, op, me);
    hide SystemOk, NothingLost;
    assert !sys.objects[addr].ByteQueue?;
  }

  lemma TestKeeps(sys: System, core: nat)
    requires SystemOk(sys) && NeverLost(sys) && InCall(sys, core)
    ensures SystemOk(Tested(sys, core)) && NeverLost(Tested(sys, core))
  {
    Sized(sys.k);
    hide SystemOk, NeverLost, Act, Apply;
    var call := sys.calls[Me(sys, core)].value;
    if Claim(sys.objects[call.addr], call.op, Me(sys, core)).Some? {
      ServedLosesNothing(sys, core);
    } else {
      EnrolLosesNothing(sys, core);
    }
  }

  /** Every action but giving up and a bare byte-queue call keeps the promise. */
  lemma ActKeeps(sys: System, action: Action)
    requires SystemOk(sys) && Allowed(sys, action) && NeverLost(sys) && !action.GiveUp? && !BareQueueCall(action)
    ensures SystemOk(Act(sys, action)) && NeverLost(Act(sys, action))
  {
    Sized(sys.k);
    hide SystemOk, Apply, NothingLost, NeverLost, Enabled, Inv;
    match action
    case Begin(core, addr, op, timeout, now) => BeginKeeps(sys, core, addr, op, timeout, now);
    case Test(core) => TestKeeps(sys, core);
    case BareTest(addr, op, me) => BareTestKeeps(sys, addr, op, me);
    case GivePermit(addr) => GivePermitKeeps(sys, addr);
    case UnlockRecursive(addr, me) => UnlockKeeps(sys, me, addr);
    case Section(step) => SectionKeeps(sys, step);
  }

  lemma SectionKeeps(sys: System, step: Label)
    requires SystemOk(sys) && NeverLost(sys) && Enabled(sys.k, step) && Separate(sys, step)
    ensures SystemOk(After(sys, step)) && NeverLost(After(sys, step))
  {
    Sized(sys.k);
    hide Inv, Enabled, Apply, Separate, NothingLost, CallOk;
    SectionOk(sys, step);
    forall a, s: bool | a in sys.objects ensures NothingLost(After(sys, step), a, s) {
      SectionLosesNothing(sys, step, a, s);
    }
  }
}

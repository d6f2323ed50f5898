/** Queue waiter lists, as values: who is blocked on which address, in arrival order.

    The table maps a queue's address to its two lists; addresses are never removed. A task that the
    tick has timed out stays listed until it resumes and finds itself there. Every function is one
    critical section under the scheduler lock and the table's own. */
module Waiters {
  import opened Wrappers
  import opened Sequences
  import opened Tasks

  const MAX_LISTED: nat := 16
  const MAX_QUEUES: nat := 16

  datatype Lists = Lists(send: seq<nat>, recv: seq<nat>)

  type WaitTable = map<nat, Lists>

  function BlockedState(send: bool): TaskState { if send then BlockedSend else BlockedRecv }

  function ListOf(w: WaitTable, addr: nat, send: bool): seq<nat> {
    if addr !in w then [] else if send then w[addr].send else w[addr].recv
  }

  function WithList(w: WaitTable, addr: nat, send: bool, list: seq<nat>): WaitTable
    requires addr in w
  {
    w[addr := if send then w[addr].(send := list) else w[addr].(recv := list)]
  }

  /** `find_or_create`, or nothing when the table is full. */
  function FindOrCreate(w: WaitTable, addr: nat): Option<WaitTable> {
    if addr in w then Some(w)
    else if |w| < MAX_QUEUES then Some(w[addr := Lists([], [])])
    else None
  }

  /** The position of the first listed task still blocked in `expected`, or the list's length. */
  function FirstBlocked(s: Sched, list: seq<nat>, expected: TaskState): (i: nat)
    ensures i <= |list|
    ensures i < |list| ==> Live(s, list[i]) && Task(s, list[i]).state == expected
    ensures forall j :: 0 <= j < i ==> !(Live(s, list[j]) && Task(s, list[j]).state == expected)
  {
    if list == [] then 0
    else if Live(s, list[0]) && Task(s, list[0]).state == expected then 0
    else
      var rest := FirstBlocked(s, list[1..], expected);
      assert forall j :: 1 <= j < 1 + rest ==> list[j] == list[1..][j - 1];
      1 + rest
  }

  lemma FirstIs(s: Sched, ids: seq<nat>, expected: TaskState, i: nat)
    requires i <= |ids|
    requires forall j :: 0 <= j < i ==> !(Live(s, ids[j]) && Task(s, ids[j]).state == expected)
    requires i < |ids| ==> Live(s, ids[i]) && Task(s, ids[i]).state == expected
    ensures FirstBlocked(s, ids, expected) == i
  {
    var first := FirstBlocked(s, ids, expected);
    hide FirstBlocked;
  }

  /** Enrol the running task of `core` and block it. The deadline is stored even when there is no
      room to wait, in which case the third result is false and the task keeps running. */
  function Enrol(s: Sched, w: WaitTable, core: nat, addr: nat, send: bool, deadline: nat): (Sched, WaitTable, bool)
    requires core < |s.current|
  {
    var cur := s.current[core];
    var armed := if Live(s, cur) then Put(s, cur, Task(s, cur).(sleepUntil := deadline)) else s;
    match FindOrCreate(w, addr)
    case None => (armed, w, false)
    case Some(found) =>
      if |ListOf(found, addr, send)| < MAX_LISTED then
        (BlockCurrent(armed, core, BlockedState(send)),
         WithList(found, addr, send, ListOf(found, addr, send) + [cur]), true)
      else (armed, found, false)
  }

  /** Wake the first waiter of one list that is still blocked: the body of `wake_one_receiver`,
      `wake_one_sender` and the second half of `produce_and_wake`. */
  function WakeOne(s: Sched, w: WaitTable, addr: nat, send: bool): (Sched, WaitTable, Option<nat>) {
    var list := ListOf(w, addr, send);
    var i := FirstBlocked(s, list, BlockedState(send));
    if i == |list| then (s, w, None)
    else (Unblock(s, list[i]), WithList(w, addr, send, RemoveAt(list, i)), Some(list[i]))
  }

  /** The end of `block_send` and `block_recv`: still listed means timed out, and the entry is
      removed; not listed means woken. */
  function Resume(w: WaitTable, addr: nat, send: bool, id: nat): (WaitTable, bool) {
    var list := ListOf(w, addr, send);
    if id in list then (WithList(w, addr, send, RemoveAt(list, IndexOf(list, id))), false) else (w, true)
  }

  /** Rewriting one list leaves every other list alone. */
  lemma ListsAfter(w: WaitTable, addr: nat, send: bool, list: seq<nat>)
    requires addr in w
    ensures forall a: nat, dir: bool ::
              ListOf(WithList(w, addr, send, list), a, dir) ==
                if a == addr && dir == send then list else ListOf(w, a, dir)
  {
  }

  /** What one enrolment does to the lists: the caller joins the end of one of them, or none changes. */
  lemma ListsAfterEnrol(s: Sched, w: WaitTable, core: nat, addr: nat, send: bool, deadline: nat)
    requires core < |s.current|
    ensures
      var (_, w', ok) := Enrol(s, w, core, addr, send, deadline);
      forall a: nat, dir: bool ::
        ListOf(w', a, dir) ==
          if ok && a == addr && dir == send then ListOf(w, a, dir) + [s.current[core]] else ListOf(w, a, dir)
  {
  }

  /** What an enrolment does to the tasks: the caller's deadline is armed, and it blocks if there was room. */
  lemma EnrolEffect(s: Sched, w: WaitTable, core: nat, addr: nat, send: bool, deadline: nat)
    requires core < |s.current| && Live(s, s.current[core])
    ensures
      var (s', w', ok) := Enrol(s, w, core, addr, send, deadline);
      var t := Task(s, s.current[core]).(sleepUntil := deadline);
      && s'.current == s.current && s'.lastRun == s.lastRun
      && s'.tasks == s.tasks[s.current[core] := Some(if ok then t.(state := BlockedState(send)) else t)]
  {
  }

  /** What a wake does to the tasks: the woken one becomes Ready. */
  lemma WakeEffect(s: Sched, w: WaitTable, addr: nat, send: bool)
    ensures
      var (s', w', woken) := WakeOne(s, w, addr, send);
      && s'.current == s.current && s'.lastRun == s.lastRun
      && match woken
         case None => s' == s && w' == w
         case Some(id) =>
           && Live(s, id) && Task(s, id).state == BlockedState(send)
           && var ready := Task(s, id).(state := Ready, quantum := DEFAULT_QUANTUM_MS, blockedOnMutex := None);
              s'.tasks == s.tasks[id := Some(ready)]
  {
  }

  // ── Forgetting a deleted task ───────────────────────────────────────────────────────────────

  function Unlisted(list: seq<nat>, id: nat): seq<nat> {
    if id in list then RemoveAt(list, IndexOf(list, id)) else list
  }

  function UnlistedEverywhere(l: Lists, id: nat): Lists { Lists(Unlisted(l.send, id), Unlisted(l.recv, id)) }

  /** `forget_task`: the id leaves every list. */
  function Forget(w: WaitTable, id: nat): WaitTable {
    map a | a in w :: UnlistedEverywhere(w[a], id)
  }

  lemma ForgetOnlyDrops(w: WaitTable, id: nat, addr: nat, send: bool)
    requires Distinct(ListOf(w, addr, send))
    ensures id !in ListOf(Forget(w, id), addr, send) && Distinct(ListOf(Forget(w, id), addr, send))
    ensures forall x :: x != id ==> (x in ListOf(Forget(w, id), addr, send) <==> x in ListOf(w, addr, send))
  {
    var list := ListOf(w, addr, send);
    if id in list { RemoveAtElements(list, IndexOf(list, id)); }
  }
}

/** The waiter table, updated in place: the first `count` entries of a fixed array, each an address with
    its two fixed-size lists. It represents the map of `Waiters.dfy`, and its methods are proved equal to
    the sections there. */
module QueueWaiterTables {
  import opened Wrappers
  import opened Sequences
  import opened Tasks
  import opened Waiters
  import opened Scheduling

  /** A list in a fixed-size buffer: the first `count` slots are in use. */
  datatype IdList = IdList(slots: seq<nat>, count: nat)

  datatype WaiterEntry = WaiterEntry(addr: nat, send: IdList, recv: IdList)

  const EMPTY: IdList := IdList(seq(MAX_LISTED, _ => NO_TASK), 0)

  predicate IdListOk(list: IdList) {
    && |list.slots| == MAX_LISTED && list.count <= MAX_LISTED
    && forall k :: 0 <= k < list.count ==> list.slots[k] < MAX_TASKS
  }

  function Ids(list: IdList): seq<nat> {
    if list.count <= |list.slots| then list.slots[..list.count] else list.slots
  }

  // ── One list ────────────────────────────────────────────────────────────────────────────────

  method Push(list: IdList, id: nat) returns (pushed: IdList, ok: bool)
    requires IdListOk(list) && id < MAX_TASKS
    ensures IdListOk(pushed) && ok == (|Ids(list)| < MAX_LISTED)
    ensures Ids(pushed) == if ok then Ids(list) + [id] else Ids(list)
  {
    if list.count < MAX_LISTED {
      return list.(slots := list.slots[list.count := id], count := list.count + 1), true;
    }
    return list, false;
  }

  /** Closes the gap at `pos`, keeping the order of the rest. */
  method Shift(list: IdList, pos: nat) returns (shorter: IdList)
    requires IdListOk(list) && pos < list.count
    ensures IdListOk(shorter) && Ids(shorter) == RemoveAt(Ids(list), pos)
  {
    shorter := list;
    var k := pos + 1;
    while k < list.count
      invariant pos + 1 <= k <= list.count && shorter.count == list.count
      invariant Shifted(list.slots, shorter.slots, pos, k - 1)
    {
      shorter := shorter.(slots := shorter.slots[k - 1 := shorter.slots[k]]);
      k := k + 1;
    }
    shorter := shorter.(count := list.count - 1);
    ShiftRemoves(list.slots, shorter.slots, list.count, pos);
  }

  /** Removes the first waiter still blocked in `expected`; waiters the tick has timed out stay. */
  method PopFirstBlocked(sched: Scheduler, list: IdList, expected: TaskState) returns (popped: IdList, id: Option<nat>)
    requires sched.Valid() && IdListOk(list)
    ensures IdListOk(popped)
    ensures
      var i := FirstBlocked(sched.View(), Ids(list), expected);
      if i == |Ids(list)| then id == None && popped == list
      else id == Some(Ids(list)[i]) && Ids(popped) == RemoveAt(Ids(list), i)
  {
    ghost var s := sched.View();
    var i := 0;
    while i < list.count
      invariant 0 <= i <= list.count
      invariant forall j :: 0 <= j < i ==> !(Live(s, Ids(list)[j]) && Task(s, Ids(list)[j]).state == expected)
    {
      var candidate := list.slots[i];
      assert Ids(list)[i] == candidate;
      if sched.tasks[candidate].Some? && sched.tasks[candidate].value.state == expected {
        FirstIs(s, Ids(list), expected, i);
        popped := Shift(list, i);
        return popped, Some(candidate);
      }
      i := i + 1;
    }
    FirstIs(s, Ids(list), expected, i);
    return list, None;
  }

  method Position(list: IdList, id: nat) returns (pos: Option<nat>)
    requires IdListOk(list)
    ensures pos.Some? <==> id in Ids(list)
    ensures pos.Some? ==> pos.value == IndexOf(Ids(list), id)
  {
    var i := 0;
    while i < list.count
      invariant 0 <= i <= list.count && id !in Ids(list)[..i]
    {
      if list.slots[i] == id {
        IndexIs(Ids(list), id, i);
        return Some(i);
      }
      i := i + 1;
    }
    assert Ids(list)[..i] == Ids(list);
    return None;
  }

  /** Drops `id` if it is listed. */
  method Remove(list: IdList, id: nat) returns (rest: IdList)
    requires IdListOk(list)
    ensures IdListOk(rest)
    ensures Ids(rest) == Unlisted(Ids(list), id)
  {
    var pos := Position(list, id);
    if pos.Some? { rest := Shift(list, pos.value); } else { rest := list; }
  }

  // ── The table ───────────────────────────────────────────────────────────────────────────────

  function ListsOf(e: WaiterEntry): Lists { Lists(Ids(e.send), Ids(e.recv)) }

  predicate EntryOk(e: WaiterEntry) { IdListOk(e.send) && IdListOk(e.recv) }

  ghost predicate EntriesOk(entries: seq<WaiterEntry>, n: nat) {
    && n <= |entries|
    && (forall i :: 0 <= i < n ==> EntryOk(entries[i]))
    && (forall i, j :: 0 <= i < j < n ==> entries[i].addr != entries[j].addr)
  }

  /** The map the first `n` entries represent. */
  function TableUpTo(entries: seq<WaiterEntry>, n: nat): WaitTable
    requires n <= |entries|
  {
    if n == 0 then map[] else TableUpTo(entries, n - 1)[entries[n - 1].addr := ListsOf(entries[n - 1])]
  }

  lemma {:induction false} TableOfEntries(entries: seq<WaiterEntry>, n: nat)
    requires EntriesOk(entries, n)
    ensures forall i :: 0 <= i < n ==>
      entries[i].addr in TableUpTo(entries, n) && TableUpTo(entries, n)[entries[i].addr] == ListsOf(entries[i])
    ensures forall a: nat :: a in TableUpTo(entries, n) ==> exists i: nat :: i < n && entries[i].addr == a
    ensures |TableUpTo(entries, n)| == n
  {
    hide ListsOf;
    if n > 0 {
      TableOfEntries(entries, n - 1);
      var rest := TableUpTo(entries, n - 1);
      assert entries[n - 1].addr !in rest;
      assert |rest[entries[n - 1].addr := ListsOf(entries[n - 1])]| == |rest| + 1;
    }
  }

  lemma {:induction false} UnusedEntries(entries: seq<WaiterEntry>, n: nat, i: nat, e: WaiterEntry)
    requires n <= i < |entries|
    ensures TableUpTo(entries[i := e], n) == TableUpTo(entries, n)
  {
    if n > 0 { UnusedEntries(entries, n - 1, i, e); }
  }

  /** Rewriting one entry's lists rewrites them in the map. */
  lemma {:induction false} TableAfterWrite(entries: seq<WaiterEntry>, n: nat, i: nat, e: WaiterEntry)
    requires EntriesOk(entries, n) && i < n && EntryOk(e) && e.addr == entries[i].addr
    ensures EntriesOk(entries[i := e], n)
    ensures TableUpTo(entries[i := e], n) == TableUpTo(entries, n)[e.addr := ListsOf(e)]
  {
    hide ListsOf, EntryOk;
    if i == n - 1 {
      UnusedEntries(entries, n - 1, i, e);
    } else {
      TableAfterWrite(entries, n - 1, i, e);
    }
  }

  lemma UsedEntry(entries: seq<WaiterEntry>, n: nat, i: nat)
    requires EntriesOk(entries, n) && i < n
    ensures entries[i].addr in TableUpTo(entries, n) && TableUpTo(entries, n)[entries[i].addr] == ListsOf(entries[i])
  {
    TableOfEntries(entries, n);
  }

  lemma NoEntry(entries: seq<WaiterEntry>, n: nat, addr: nat)
    requires EntriesOk(entries, n) && forall i :: 0 <= i < n ==> entries[i].addr != addr
    ensures addr !in TableUpTo(entries, n)
  {
    TableOfEntries(entries, n);
  }

  lemma TableSize(entries: seq<WaiterEntry>, n: nat)
    requires EntriesOk(entries, n)
    ensures |TableUpTo(entries, n)| == n
  {
    TableOfEntries(entries, n);
  }

  lemma EmptyLists(addr: nat)
    ensures ListsOf(WaiterEntry(addr, EMPTY, EMPTY)) == Lists([], [])
  {
  }

  lemma TableAfterAppend(entries: seq<WaiterEntry>, n: nat, e: WaiterEntry)
    requires EntriesOk(entries, n) && n < |entries| && EntryOk(e)
    requires forall i :: 0 <= i < n ==> entries[i].addr != e.addr
    ensures EntriesOk(entries[n := e], n + 1)
    ensures TableUpTo(entries[n := e], n + 1) == TableUpTo(entries, n)[e.addr := ListsOf(e)]
  {
    UnusedEntries(entries, n, n, e);
  }

  /** Forgetting entry by entry forgets in the map. */
  lemma {:induction false} TableAfterForget(entries: seq<WaiterEntry>, after: seq<WaiterEntry>, n: nat, id: nat)
    requires n <= |entries| == |after| && EntriesOk(entries, n)
    requires forall i :: 0 <= i < n ==>
      after[i].addr == entries[i].addr && ListsOf(after[i]) == UnlistedEverywhere(ListsOf(entries[i]), id)
    ensures TableUpTo(after, n) == Forget(TableUpTo(entries, n), id)
  {
    hide ListsOf, UnlistedEverywhere;
    if n > 0 { TableAfterForget(entries, after, n - 1, id); }
  }

  class QueueWaiters {
    const entries: array<WaiterEntry>
    var count: nat

    ghost predicate Valid()
      reads this, entries
    {
      entries.Length == MAX_QUEUES && count <= MAX_QUEUES && EntriesOk(entries[..], count)
    }

    ghost function View(): WaitTable
      reads this, entries
      requires Valid()
    {
      TableUpTo(entries[..], count)
    }

    constructor ()
      ensures Valid() && fresh(entries) && View() == map[]
    {
      entries := new WaiterEntry[MAX_QUEUES](_ => WaiterEntry(0, EMPTY, EMPTY));
      count := 0;
    }

    method Find(addr: nat) returns (idx: Option<nat>)
      requires Valid()
      ensures idx.Some? ==>
        idx.value < count && entries[idx.value].addr == addr && addr in View()
          && View()[addr] == ListsOf(entries[idx.value])
      ensures idx.None? ==> addr !in View() && forall i :: 0 <= i < count ==> entries[i].addr != addr
    {
      hide TableUpTo, EntriesOk, ListsOf;
      var i := 0;
      while i < count
        invariant 0 <= i <= count
        invariant forall j :: 0 <= j < i ==> entries[j].addr != addr
      {
        if entries[i].addr == addr {
          UsedEntry(entries[..], count, i);
          return Some(i);
        }
        i := i + 1;
      }
      NoEntry(entries[..], count, addr);
      return None;
    }

    method FindOrCreate(addr: nat) returns (idx: Option<nat>)
      requires Valid()
      modifies this`count, entries
      ensures Valid()
      ensures match Waiters.FindOrCreate(old(View()), addr)
              case None => idx.None? && View() == old(View())
              case Some(w) =>
                && idx.Some? && View() == w && addr in w && idx.value < count
                && entries[idx.value].addr == addr && w[addr] == ListsOf(entries[idx.value])
    {
      hide TableUpTo, EntriesOk, ListsOf;
      TableSize(entries[..], count);
      idx := Find(addr);
      if idx.Some? { return; }
      if count < MAX_QUEUES {
        var e := WaiterEntry(addr, EMPTY, EMPTY);
        TableAfterAppend(entries[..], count, e);
        entries[count] := e;
        assert entries[..] == old(entries[..])[count := e];
        count := count + 1;
        EmptyLists(addr);
        return Some(count - 1);
      }
      return None;
    }

    method WriteList(idx: nat, send: bool, list: IdList)
      requires Valid() && idx < count && IdListOk(list)
      modifies entries
      ensures Valid() && entries[idx].addr == old(entries[idx].addr)
      ensures old(entries[idx].addr) in old(View())
      ensures View() == WithList(old(View()), old(entries[idx].addr), send, Ids(list))
    {
      TableOfEntries(entries[..], count);
      ghost var before := entries[..];
      var e := if send then entries[idx].(send := list) else entries[idx].(recv := list);
      TableAfterWrite(before, count, idx, e);
      entries[idx] := e;
      assert entries[..] == before[idx := e];
    }

    /** The blocking half of `block_send`, `block_recv` and `test_or_enrol`. */
    method Enrol(sched: Scheduler, core: nat, addr: nat, send: bool, deadline: nat) returns (ok: bool)
      requires Valid() && sched.Valid() && core < MAX_CORES && sched.current[core] < MAX_TASKS
      modifies this`count, entries, sched`readyMask, sched.tasks
      ensures Valid() && sched.Valid()
      ensures (sched.View(), View(), ok) == Waiters.Enrol(old(sched.View()), old(View()), core, addr, send, deadline)
    {
      hide TableUpTo, Tasks.BlockCurrent, Waiters.FindOrCreate;
      var cur := sched.current[core];
      assert TaskOk(sched.View().tasks[cur]);
      if sched.tasks[cur].Some? {
        sched.tasks[cur] := Some(sched.tasks[cur].value.(sleepUntil := deadline));
        PutOk(old(sched.View()), sched.View(), cur);
      }
      var idx := FindOrCreate(addr);
      if idx.None? { return false; }
      var list := if send then entries[idx.value].send else entries[idx.value].recv;
      assert EntryOk(entries[..][idx.value]);
      var pushed, room := Push(list, cur);
      if !room { return false; }
      WriteList(idx.value, send, pushed);
      sched.BlockCurrent(core, BlockedState(send));
      return true;
    }

    method WakeOne(sched: Scheduler, addr: nat, send: bool) returns (woken: Option<nat>)
      requires Valid() && sched.Valid()
      modifies entries, sched`readyMask, sched.tasks
      ensures Valid() && sched.Valid()
      ensures (sched.View(), View(), woken) == Waiters.WakeOne(old(sched.View()), old(View()), addr, send)
    {
      hide TableUpTo, Tasks.Unblock, FirstBlocked;
      var idx := Find(addr);
      if idx.None? {
        FirstIs(sched.View(), [], BlockedState(send), 0);
        return None;
      }
      var list := if send then entries[idx.value].send else entries[idx.value].recv;
      assert EntryOk(entries[..][idx.value]);
      var rest, id := PopFirstBlocked(sched, list, BlockedState(send));
      if id.None? { return None; }
      WriteList(idx.value, send, rest);
      sched.Unblock(id.value);
      return id;
    }

    /** A resumed waiter: still listed means timed out, and the entry goes. */
    method Resume(addr: nat, send: bool, id: nat) returns (woken: bool)
      requires Valid()
      modifies entries
      ensures Valid() && (View(), woken) == Waiters.Resume(old(View()), addr, send, id)
    {
      hide TableUpTo;
      var idx := Find(addr);
      if idx.None? { return true; }
      var list := if send then entries[idx.value].send else entries[idx.value].recv;
      assert EntryOk(entries[..][idx.value]);
      var pos := Position(list, id);
      if pos.None? { return true; }
      var rest := Remove(list, id);
      WriteList(idx.value, send, rest);
      return false;
    }

    method ForgetTask(id: nat)
      requires Valid()
      modifies entries
      ensures Valid() && View() == Forget(old(View()), id)
    {
      ghost var before := entries[..];
      var i := 0;
      while i < count
        invariant 0 <= i <= count && Valid()
        invariant forall j :: i <= j < MAX_QUEUES ==> entries[j] == before[j]
        invariant forall j :: 0 <= j < MAX_QUEUES ==> entries[j].addr == before[j].addr
        invariant forall j :: 0 <= j < i ==> ListsOf(entries[j]) == UnlistedEverywhere(ListsOf(before[j]), id)
      {
        assert EntryOk(entries[..][i]);
        var send := Remove(entries[i].send, id);
        var recv := Remove(entries[i].recv, id);
        entries[i] := WaiterEntry(entries[i].addr, send, recv);
        i := i + 1;
      }
      TableAfterForget(before, entries[..], count, id);
    }
  }
}

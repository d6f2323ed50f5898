/** The sixteen-entry mutex table, updated in place. An entry with address 0 is free; an entry's first
    `count` waiters are its list. The table represents the map of `Inheritance.dfy`, and its methods are
    proved equal to the sections there. */
module MutexTables {
  import opened Wrappers
  import opened Sequences
  import opened Tasks
  import opened Inheritance
  import opened Scheduling

  datatype Slot = Slot(addr: nat, owner: nat, waiters: seq<nat>, count: nat)

  const FREE: Slot := Slot(0, NO_TASK, seq(MAX_WAITERS, _ => NO_TASK), 0)

  predicate SlotOk(e: Slot) {
    && |e.waiters| == MAX_WAITERS && e.count <= MAX_WAITERS
    && (e.addr != 0 ==> e.owner < MAX_TASKS)
    && forall k :: 0 <= k < e.count ==> e.waiters[k] < MAX_TASKS
  }

  ghost predicate SlotsOk(slots: seq<Slot>) {
    && (forall i :: 0 <= i < |slots| ==> SlotOk(slots[i]))
    && (forall i, j :: 0 <= i < j < |slots| && slots[i].addr == slots[j].addr ==> slots[i].addr == 0)
  }

  function EntryOf(e: Slot): Entry {
    Entry(e.owner, if e.count <= |e.waiters| then e.waiters[..e.count] else e.waiters)
  }

  /** The map the first `n` entries represent. */
  function TableUpTo(slots: seq<Slot>, n: nat): Table
    requires n <= |slots|
  {
    if n == 0 then map[]
    else
      var rest := TableUpTo(slots, n - 1);
      if slots[n - 1].addr == 0 then rest else rest[slots[n - 1].addr := EntryOf(slots[n - 1])]
  }

  function TableOf(slots: seq<Slot>): Table { TableUpTo(slots, |slots|) }

  predicate Uses(slots: seq<Slot>, i: nat, a: nat) { i < |slots| && slots[i].addr == a }

  lemma {:induction false} KeysUpTo(slots: seq<Slot>, n: nat, a: nat)
    requires n <= |slots|
    ensures a in TableUpTo(slots, n) <==> a != 0 && exists i: nat :: i < n && Uses(slots, i, a)
  {
    if n > 0 {
      KeysUpTo(slots, n - 1, a);
      if a in TableUpTo(slots, n) && a !in TableUpTo(slots, n - 1) { assert Uses(slots, n - 1, a); }
    }
  }

  lemma {:induction false} EntryUpTo(slots: seq<Slot>, n: nat, i: nat)
    requires SlotsOk(slots) && i < n <= |slots| && slots[i].addr != 0
    ensures slots[i].addr in TableUpTo(slots, n) && TableUpTo(slots, n)[slots[i].addr] == EntryOf(slots[i])
  {
    if i < n - 1 { EntryUpTo(slots, n - 1, i); }
  }

  lemma {:induction false} SizeUpTo(slots: seq<Slot>, n: nat)
    requires SlotsOk(slots) && n <= |slots|
    ensures |TableUpTo(slots, n)| <= n
    ensures |TableUpTo(slots, n)| == n <==> forall i :: 0 <= i < n ==> slots[i].addr != 0
  {
    if n > 0 {
      SizeUpTo(slots, n - 1);
      if slots[n - 1].addr != 0 {
        KeysUpTo(slots, n - 1, slots[n - 1].addr);
        var rest := TableUpTo(slots, n - 1);
        assert slots[n - 1].addr !in rest;
        assert |rest[slots[n - 1].addr := EntryOf(slots[n - 1])]| == |rest| + 1;
      }
    }
  }

  /** Each address in use is mapped to its one entry, and the map is full when no entry is free. */
  lemma TableOfSlots(slots: seq<Slot>)
    requires SlotsOk(slots)
    ensures forall i :: 0 <= i < |slots| && slots[i].addr != 0 ==>
              slots[i].addr in TableOf(slots) && TableOf(slots)[slots[i].addr] == EntryOf(slots[i])
    ensures forall a: nat :: a in TableOf(slots) ==> a != 0 && exists i: nat :: Uses(slots, i, a)
    ensures |TableOf(slots)| <= |slots|
    ensures |TableOf(slots)| == |slots| <==> forall i :: 0 <= i < |slots| ==> slots[i].addr != 0
  {
    hide EntryOf, TableUpTo;
    SizeUpTo(slots, |slots|);
    forall i | 0 <= i < |slots| && slots[i].addr != 0
      ensures slots[i].addr in TableOf(slots) && TableOf(slots)[slots[i].addr] == EntryOf(slots[i])
    {
      EntryUpTo(slots, |slots|, i);
    }
    forall a: nat | a in TableOf(slots)
      ensures a != 0 && exists i: nat :: Uses(slots, i, a)
    {
      KeysUpTo(slots, |slots|, a);
    }
  }

  /** An entry may be rewritten if its address is kept, freed, or set where there was none. */
  ghost predicate MayWrite(slots: seq<Slot>, idx: nat, e: Slot) {
    && SlotsOk(slots) && idx < |slots| && SlotsOk(slots[idx := e])
    && (slots[idx].addr == 0 || e.addr == 0 || e.addr == slots[idx].addr)
  }

  function Rewritten(m: Table, was: nat, e: Slot): Table {
    if e.addr == 0 then m - {was} else m[e.addr := EntryOf(e)]
  }

  lemma KeyAfterWrite(slots: seq<Slot>, idx: nat, e: Slot, a: nat)
    requires MayWrite(slots, idx, e)
    ensures a in TableOf(slots[idx := e]) <==> a in Rewritten(TableOf(slots), slots[idx].addr, e)
  {
    hide TableUpTo, EntryOf;
    var after := slots[idx := e];
    KeysUpTo(slots, |slots|, a);
    KeysUpTo(after, |slots|, a);
    if i: nat :| i < |slots| && Uses(after, i, a) {
      if i != idx { assert Uses(slots, i, a); }
    }
    if i: nat :| i < |slots| && Uses(slots, i, a) {
      if i != idx { assert Uses(after, i, a); }
    }
    if a == e.addr { assert Uses(after, idx, a); }
  }

  lemma EntryAfterWrite(slots: seq<Slot>, idx: nat, e: Slot, a: nat)
    requires MayWrite(slots, idx, e) && a in TableOf(slots[idx := e])
    ensures
      var expected := Rewritten(TableOf(slots), slots[idx].addr, e);
      a in expected && expected[a] == TableOf(slots[idx := e])[a]
  {
    hide TableUpTo, EntryOf;
    var after := slots[idx := e];
    KeyAfterWrite(slots, idx, e, a);
    KeysUpTo(after, |slots|, a);
    var i: nat :| i < |slots| && Uses(after, i, a);
    EntryUpTo(after, |slots|, i);
    if i != idx {
      assert after[i] == slots[i] && after[idx] == e;
      assert a != e.addr && a != slots[idx].addr;
      EntryUpTo(slots, |slots|, i);
    }
  }

  /** What rewriting one entry does to the map. */
  lemma TableAfterWrite(slots: seq<Slot>, idx: nat, e: Slot)
    requires MayWrite(slots, idx, e)
    ensures TableOf(slots[idx := e]) == Rewritten(TableOf(slots), slots[idx].addr, e)
  {
    hide TableOf, Rewritten;
    var after, expected := TableOf(slots[idx := e]), Rewritten(TableOf(slots), slots[idx].addr, e);
    forall a: nat ensures a in after <==> a in expected { KeyAfterWrite(slots, idx, e, a); }
    forall a: nat | a in after ensures a in expected && expected[a] == after[a] { EntryAfterWrite(slots, idx, e, a); }
    assert after == expected;
  }

  class MutexTable {
    const slots: array<Slot>

    ghost predicate Valid()
      reads this, slots
    {
      slots.Length == MAX_MUTEXES && SlotsOk(slots[..])
    }

    ghost function View(): Table
      reads this, slots
      requires Valid()
    {
      TableOf(slots[..])
    }

    constructor ()
      ensures Valid() && fresh(slots) && View() == map[]
    {
      slots := new Slot[MAX_MUTEXES](_ => FREE);
      new;
      TableOfSlots(slots[..]);
    }

    method Find(addr: nat) returns (idx: Option<nat>)
      requires Valid() && addr != 0
      ensures idx.Some? ==>
        idx.value < MAX_MUTEXES && slots[idx.value].addr == addr && addr in View()
          && View()[addr] == EntryOf(slots[idx.value])
      ensures idx.None? ==> addr !in View() && forall i :: 0 <= i < MAX_MUTEXES ==> slots[i].addr != addr
    {
      TableOfSlots(slots[..]);
      var i := 0;
      while i < MAX_MUTEXES
        invariant 0 <= i <= MAX_MUTEXES
        invariant forall j :: 0 <= j < i ==> slots[j].addr != addr
      {
        if slots[i].addr == addr { return Some(i); }
        i := i + 1;
      }
      return None;
    }

    /** The entry for `addr`, a free one claimed for it (with no owner yet), or nothing. */
    method FindOrCreate(addr: nat) returns (idx: Option<nat>)
      requires Valid() && addr != 0
      modifies slots
      ensures addr in old(View()) ==>
                && idx.Some? && idx.value < MAX_MUTEXES && slots[..] == old(slots[..])
                && slots[idx.value].addr == addr && EntryOf(slots[idx.value]) == old(View())[addr]
      ensures addr !in old(View()) && |old(View())| < MAX_MUTEXES ==>
                && idx.Some? && idx.value < MAX_MUTEXES && old(slots[..])[idx.value].addr == 0
                && (var claimed := old(slots[..])[idx.value].(addr := addr, owner := NO_TASK, count := 0);
                    slots[..] == old(slots[..])[idx.value := claimed])
                && forall i :: 0 <= i < MAX_MUTEXES && i != idx.value ==> slots[i].addr != addr
      ensures addr !in old(View()) && |old(View())| == MAX_MUTEXES ==> idx.None? && slots[..] == old(slots[..])
      ensures |old(View())| <= MAX_MUTEXES
    {
      TableOfSlots(slots[..]);
      idx := Find(addr);
      if idx.Some? { return; }
      var i := 0;
      while i < MAX_MUTEXES
        invariant 0 <= i <= MAX_MUTEXES && slots[..] == old(slots[..])
        invariant forall j :: 0 <= j < i ==> slots[j].addr != 0
      {
        if slots[i].addr == 0 {
          slots[i] := slots[i].(addr := addr, owner := NO_TASK, count := 0);
          return Some(i);
        }
        i := i + 1;
      }
      return None;
    }

    /** As `Find`, for an address that may be 0, which no held mutex has. */
    method FindAny(addr: nat) returns (idx: Option<nat>)
      requires Valid()
      ensures idx.Some? ==>
        idx.value < MAX_MUTEXES && slots[idx.value].addr == addr && addr in View()
          && View()[addr] == EntryOf(slots[idx.value])
      ensures idx.Some? ==> slots[idx.value].owner < MAX_TASKS
      ensures idx.None? ==> addr !in View()
    {
      TableOfSlots(slots[..]);
      if addr == 0 { return None; }
      idx := Find(addr);
      assert idx.Some? ==> SlotOk(slots[..][idx.value]);
    }

    /** Boost `owner`, and whoever it is waiting for, as far as the table is deep. */
    method BoostChain(sched: Scheduler, owner: nat, target: nat)
      requires Valid() && sched.Valid() && owner < MAX_TASKS && target < NUM_PRIORITIES
      modifies sched`readyMask, sched.tasks
      ensures sched.Valid() && slots[..] == old(slots[..])
      ensures sched.View() == Inheritance.BoostChain(old(sched.View()), View(), owner, target, MAX_MUTEXES)
    {
      hide TableOf, Tasks.BoostPriority;
      var id: nat := owner;
      var left := MAX_MUTEXES;
      while left > 0
        invariant 0 <= left <= MAX_MUTEXES && id < MAX_TASKS && sched.Valid() && slots[..] == old(slots[..])
        invariant Inheritance.BoostChain(old(sched.View()), View(), owner, target, MAX_MUTEXES) ==
                  Inheritance.BoostChain(sched.View(), View(), id, target, left)
      {
        sched.BoostPriority(id, target);
        if sched.tasks[id].None? { return; }
        var waitingOn := sched.tasks[id].value.blockedOnMutex;
        if waitingOn.None? { return; }
        var idx := FindAny(waitingOn.value);
        if idx.None? { return; }
        var next: nat := slots[idx.value].owner;
        if next == id { return; }
        id := next;
        left := left - 1;
      }
    }

    /** The caller joins the end of an entry's waiters. */
    method AddWaiter(idx: nat, id: nat)
      requires Valid() && idx < MAX_MUTEXES && slots[idx].addr != 0 && slots[idx].count < MAX_WAITERS && id < MAX_TASKS
      modifies slots
      ensures Valid()
      ensures
        var e := old(slots[idx]);
        View() == old(View())[e.addr := Entry(e.owner, EntryOf(e).waiters + [id])]
    {
      hide TableOf;
      ghost var before := slots[..];
      var e := slots[idx];
      assert SlotOk(before[idx]);
      slots[idx] := e.(waiters := e.waiters[e.count := id], count := e.count + 1);
      assert slots[..] == before[idx := slots[idx]];
      TableAfterWrite(before, idx, slots[idx]);
      assert EntryOf(slots[idx]).waiters == EntryOf(e).waiters + [id];
    }

    method Lock(sched: Scheduler, core: nat, addr: nat, inInterrupt: bool) returns (outcome: Outcome)
      requires Valid() && sched.Valid() && core < MAX_CORES && sched.current[core] < MAX_TASKS && addr != 0
      modifies sched`readyMask, sched.tasks, slots
      ensures Valid() && sched.Valid()
      ensures (sched.View(), View(), outcome) ==
                Inheritance.Lock(old(sched.View()), old(View()), core, addr, inInterrupt)
      ensures AnswersLock(old(sched.View()), old(View()), sched.current[core], addr, inInterrupt, sched.View(), View(),
                          outcome)
    {
      LockAnswersExactly(sched.View(), View(), core, addr, inInterrupt);
      hide TableOf, Inheritance.BoostChain, Tasks.BlockCurrentOnMutex, AnswersLock;
      if inInterrupt { return Failed; }
      var cur := sched.current[core];
      var found := FindOrCreate(addr);
      if found.None? { return Failed; }
      var idx := found.value;
      ghost var before := old(slots[..]);
      if slots[idx].owner == NO_TASK {
        slots[idx] := slots[idx].(owner := cur);
        assert slots[..] == before[idx := slots[idx]];
        TableAfterWrite(before, idx, slots[idx]);
        return Acquired;
      }
      if slots[idx].owner == cur { return Failed; }
      if slots[idx].count >= MAX_WAITERS { return Failed; }
      var target := if sched.tasks[cur].Some? then sched.tasks[cur].value.priority else IDLE_PRIORITY;
      assert TaskOk(sched.View().tasks[cur]);
      BoostChain(sched, slots[idx].owner, target);
      AddWaiter(idx, cur);
      sched.BlockCurrentOnMutex(core, addr);
      return Enqueued;
    }

    /** The shifting loop: closes the gap at `pos`, keeping the others in order. */
    method RemoveWaiter(idx: nat, pos: nat)
      requires Valid() && idx < MAX_MUTEXES && pos < slots[idx].count
      modifies slots
      ensures Valid() && slots[..] == old(slots[..])[idx := slots[idx]]
      ensures slots[idx].addr == old(slots[idx].addr) && slots[idx].owner == old(slots[idx].owner)
      ensures EntryOf(slots[idx]).waiters == RemoveAt(EntryOf(old(slots[idx])).waiters, pos)
    {
      ghost var before := slots[..];
      var e := slots[idx];
      assert SlotOk(before[idx]);
      hide SlotsOk, EntryOf, RemoveAt;
      var i := pos + 1;
      while i < e.count
        invariant pos + 1 <= i <= e.count
        invariant slots[idx] == e.(waiters := slots[idx].waiters)
        invariant forall n :: 0 <= n < MAX_MUTEXES && n != idx ==> slots[n] == before[n]
        invariant Shifted(e.waiters, slots[idx].waiters, pos, i - 1)
      {
        var w := slots[idx].waiters;
        slots[idx] := slots[idx].(waiters := w[i - 1 := w[i]]);
        i := i + 1;
      }
      slots[idx] := slots[idx].(count := e.count - 1);
      ShiftRemoves(e.waiters, slots[idx].waiters, e.count, pos);
      RemovalOk(e, slots[idx], pos);
      WriteKeeps(before, idx, slots[idx]);
      assert slots[..] == before[idx := slots[idx]];
    }

    /** Takes the first of the most urgent waiters out of the list. */
    method PopBestWaiter(sched: Scheduler, idx: nat) returns (chosen: nat)
      requires Valid() && sched.Valid() && idx < MAX_MUTEXES && slots[idx].addr != 0 && slots[idx].count > 0
      modifies slots
      ensures Valid() && chosen < MAX_TASKS
      ensures slots[..] == old(slots[..])[idx := slots[idx]]
      ensures slots[idx].addr == old(slots[idx].addr) && slots[idx].owner == old(slots[idx].owner)
      ensures
        var waiters := EntryOf(old(slots[idx])).waiters;
        var best := BestWaiter(sched.View(), waiters);
        chosen == waiters[best] && EntryOf(slots[idx]).waiters == RemoveAt(waiters, best)
    {
      hide BestWaiter;
      assert SlotOk(slots[..][idx]);
      var best := ScanWaiters(sched, idx);
      chosen := slots[idx].waiters[best];
      RemoveWaiter(idx, best);
    }

    method ScanWaiters(sched: Scheduler, idx: nat) returns (best: nat)
      requires Valid() && sched.Valid() && idx < MAX_MUTEXES && slots[idx].count > 0
      ensures best < slots[idx].count && best == BestWaiter(sched.View(), EntryOf(slots[idx]).waiters)
    {
      ghost var waiters := EntryOf(slots[idx]).waiters;
      ghost var s := sched.View();
      assert SlotOk(slots[..][idx]);
      best := 0;
      var bestPriority := 255;
      var i := 0;
      while i < slots[idx].count
        invariant 0 <= i <= slots[idx].count && best < slots[idx].count && bestPriority <= 255
        invariant forall j :: 0 <= j < i ==> bestPriority <= Urgency(s, waiters[j])
        invariant bestPriority < 255 ==> Urgency(s, waiters[best]) == bestPriority
        invariant bestPriority < 255 ==> forall j :: 0 <= j < best ==> bestPriority < Urgency(s, waiters[j])
        invariant bestPriority == 255 ==> best == 0
      {
        var id := slots[idx].waiters[i];
        var priority := if sched.tasks[id].Some? then sched.tasks[id].value.priority else 255;
        assert waiters[i] == id && priority == Urgency(s, id);
        if priority < bestPriority {
          bestPriority := priority;
          best := i;
        }
        i := i + 1;
      }
      assert forall j :: 0 <= j < |waiters| ==> Urgency(s, waiters[j]) <= 255 by {
        forall j | 0 <= j < |waiters| ensures Urgency(s, waiters[j]) <= 255 { UrgencyBound(s, waiters[j]); }
      }
      BestIsUnique(s, waiters, best);
    }

    /** The strongest of `effective` and one entry's waiters. */
    method StrongestWaiter(sched: Scheduler, idx: nat, effective: nat) returns (strongest: nat)
      requires Valid() && sched.Valid() && idx < MAX_MUTEXES
      ensures strongest <= effective
      ensures forall k :: 0 <= k < slots[idx].count ==> strongest <= Urgency(sched.View(), slots[idx].waiters[k])
      ensures || strongest == effective
              || exists k :: 0 <= k < slots[idx].count && strongest == Urgency(sched.View(), slots[idx].waiters[k])
    {
      strongest := effective;
      assert SlotOk(slots[..][idx]);
      ghost var s := sched.View();
      var e := slots[idx];
      var j := 0;
      while j < e.count
        invariant 0 <= j <= e.count && strongest <= effective
        invariant forall k :: 0 <= k < j ==> strongest <= Urgency(s, e.waiters[k])
        invariant strongest == effective || exists k :: 0 <= k < j && strongest == Urgency(s, e.waiters[k])
      {
        var id := e.waiters[j];
        var priority := if sched.tasks[id].Some? then sched.tasks[id].value.priority else 255;
        assert priority == Urgency(s, id);
        if priority < strongest { strongest := priority; }
        j := j + 1;
      }
    }

    /** The owner falls back to the strongest priority it is still owed. */
    method RecomputeOwnerPriority(sched: Scheduler, owner: nat)
      requires Valid() && sched.Valid() && owner < MAX_TASKS
      modifies sched`readyMask, sched.tasks
      ensures sched.Valid() && slots[..] == old(slots[..])
      ensures sched.View() ==
                Tasks.SetInheritedPriority(old(sched.View()), owner, Inherited(old(sched.View()), View(), owner))
    {
      hide Tasks.SetInheritedPriority, TableUpTo, Urgency;
      ghost var s := sched.View();
      var base := sched.BasePriority(owner);
      assert TaskOk(s.tasks[owner]);
      var effective: nat := base;
      var i := 0;
      while i < MAX_MUTEXES
        invariant 0 <= i <= MAX_MUTEXES && effective <= base && sched.Valid() && sched.View() == s
          && slots[..] == old(slots[..])
        invariant effective == base || OwedBy(s, slots[..], owner, effective)
        invariant forall a: nat, k: nat :: a < i && Owes(slots[..], a, k, owner) ==>
          effective <= Urgency(s, slots[a].waiters[k])
      {
        assert SlotOk(slots[..][i]);
        if slots[i].addr != 0 && slots[i].owner == owner {
          var strongest := StrongestWaiter(sched, i, effective);
          if strongest != effective {
            ghost var k :| 0 <= k < slots[i].count && strongest == Urgency(s, slots[i].waiters[k]);
            assert Owes(slots[..], i, k, owner);
          }
          effective := strongest;
        }
        i := i + 1;
      }
      InheritedFromSlots(s, slots[..], owner, effective);
      sched.SetInheritedPriority(owner, effective);
    }

    method Unlock(sched: Scheduler, core: nat, addr: nat) returns (switched: bool)
      requires Valid() && sched.Valid() && core < MAX_CORES && sched.current[core] < MAX_TASKS && addr != 0
      modifies sched`readyMask, sched.tasks, slots
      ensures Valid() && sched.Valid()
      ensures (sched.View(), View(), switched) == Inheritance.Unlock(old(sched.View()), old(View()), core, addr)
      ensures switched <==> addr in old(View()) && old(View())[addr].owner == sched.current[core]
      ensures !switched ==> sched.View() == old(sched.View()) && View() == old(View())
    {
      hide TableOf, Tasks.Unblock, Tasks.SetInheritedPriority, Inherited, BestWaiter;
      var found := Find(addr);
      if found.None? { return false; }
      var idx := found.value;
      var cur := sched.current[core];
      if slots[idx].owner != cur { return false; }
      ghost var before := slots[..];
      if slots[idx].count > 0 {
        var next := PopBestWaiter(sched, idx);
        slots[idx] := slots[idx].(owner := next);
        assert slots[..] == before[idx := slots[idx]];
        TableAfterWrite(before, idx, slots[idx]);
        sched.Unblock(next);
      } else {
        slots[idx] := slots[idx].(owner := NO_TASK, addr := 0);
        assert slots[..] == before[idx := slots[idx]];
        TableAfterWrite(before, idx, slots[idx]);
      }
      RecomputeOwnerPriority(sched, cur);
      return true;
    }
  }

  /** The `k`-th waiter of entry `a` waits for `owner`. */
  predicate Owes(slots: seq<Slot>, a: nat, k: nat, owner: nat) {
    a < |slots| && slots[a].addr != 0 && slots[a].owner == owner && k < slots[a].count && k < |slots[a].waiters|
  }

  lemma RemovalOk(e: Slot, e': Slot, pos: nat)
    requires SlotOk(e) && pos < e.count && e' == e.(waiters := e'.waiters, count := e.count - 1)
      && |e'.waiters| == |e.waiters|
    requires e'.waiters[..e'.count] == RemoveAt(e.waiters[..e.count], pos)
    ensures SlotOk(e') && EntryOf(e').waiters == RemoveAt(EntryOf(e).waiters, pos)
  {
    assert forall k :: 0 <= k < e'.count ==> e'.waiters[k] == e'.waiters[..e'.count][k];
  }

  ghost predicate OwedBy(s: Sched, slots: seq<Slot>, owner: nat, q: nat) {
    exists a: nat, k: nat :: Owes(slots, a, k, owner) && q == Urgency(s, slots[a].waiters[k])
  }

  /** The smallest priority found among the entries is the inherited one of the map. */
  lemma InheritedFromSlots(s: Sched, slots: seq<Slot>, owner: nat, effective: nat)
    requires SlotsOk(slots) && (effective == Tasks.BasePriority(s, owner) || OwedBy(s, slots, owner, effective))
    requires effective <= Tasks.BasePriority(s, owner)
    requires forall a: nat, k: nat :: Owes(slots, a, k, owner) ==> effective <= Urgency(s, slots[a].waiters[k])
    ensures effective == Inherited(s, TableOf(slots), owner)
  {
    hide TableOf, Urgency;
    var m := TableOf(slots);
    var all := WaiterUrgencies(s, m, owner);
    TableOfSlots(slots);
    forall q | q in all ensures effective <= q {
      var a, w :| a in m && m[a].owner == owner && w in m[a].waiters && q == Urgency(s, w);
      var at: nat :| Uses(slots, at, a);
      var k :| 0 <= k < |m[a].waiters| && m[a].waiters[k] == w;
      assert Owes(slots, at, k, owner);
    }
    if effective != Tasks.BasePriority(s, owner) {
      var a: nat, k: nat :| Owes(slots, a, k, owner) && effective == Urgency(s, slots[a].waiters[k]);
      assert m[slots[a].addr].waiters[k] == slots[a].waiters[k];
      assert effective in all;
    }
    LeastIs({Tasks.BasePriority(s, owner)} + all, effective);
  }

  /** Rewriting an entry under its own address keeps the table in order. */
  lemma WriteKeeps(slots: seq<Slot>, idx: nat, e: Slot)
    requires SlotsOk(slots) && idx < |slots| && SlotOk(e) && e.addr == slots[idx].addr
    ensures SlotsOk(slots[idx := e])
  {
  }

  lemma UrgencyBound(s: Sched, id: nat)
    requires WellFormed(s)
    ensures Urgency(s, id) <= 255
  {
    if Live(s, id) { assert TaskOk(s.tasks[id]); }
  }

  lemma BestIsUnique(s: Sched, waiters: seq<nat>, best: nat)
    requires best < |waiters|
    requires forall j :: 0 <= j < |waiters| ==> Urgency(s, waiters[best]) <= Urgency(s, waiters[j])
    requires forall j :: 0 <= j < best ==> Urgency(s, waiters[best]) < Urgency(s, waiters[j])
    ensures best == BestWaiter(s, waiters)
  {
    var b := BestWaiter(s, waiters);
    hide BestWaiter;
  }

  lemma LeastIs(xs: set<nat>, x: nat)
    requires x in xs && forall y :: y in xs ==> x <= y
    ensures Least(xs) == x
  {
  }
}

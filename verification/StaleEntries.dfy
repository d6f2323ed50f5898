/** Waiter lists that still hold entries of deleted tasks: what every section does to such a list is what
    it would do to the list without them. */
module StaleEntries {
  import opened Wrappers
  import opened Sequences
  import opened Tasks
  import opened Waiters

  /** The list without the entries of the tasks in `gone`. */
  function Kept(list: seq<nat>, gone: set<nat>): seq<nat> {
    if list == [] then []
    else
      var last := list[|list| - 1];
      Kept(list[..|list| - 1], gone) + if last in gone then [] else [last]
  }

  /** Every list without the entries of the tasks in `gone`. */
  function Purged(w: WaitTable, gone: set<nat>): WaitTable {
    map a | a in w :: Lists(Kept(w[a].send, gone), Kept(w[a].recv, gone))
  }

  lemma PurgedList(w: WaitTable, gone: set<nat>, addr: nat, send: bool)
    ensures ListOf(Purged(w, gone), addr, send) == Kept(ListOf(w, addr, send), gone)
    ensures addr in Purged(w, gone) <==> addr in w
  {
  }

  lemma {:induction false} KeptElements(list: seq<nat>, gone: set<nat>)
    ensures |Kept(list, gone)| <= |list|
    ensures forall x :: x in Kept(list, gone) <==> x in list && x !in gone
    ensures Distinct(list) ==> Distinct(Kept(list, gone))
  {
    if list != [] {
      var front := list[..|list| - 1];
      assert list == front + [list[|list| - 1]];
      KeptElements(front, gone);
    }
  }

  lemma KeptAppend(list: seq<nat>, gone: set<nat>, x: nat)
    ensures Kept(list + [x], gone) == Kept(list, gone) + if x in gone then [] else [x]
  {
    assert (list + [x])[..|list|] == list;
  }

  lemma {:induction false} KeptConcat(front: seq<nat>, back: seq<nat>, gone: set<nat>)
    ensures Kept(front + back, gone) == Kept(front, gone) + Kept(back, gone)
  {
    if back == [] {
      assert front + back == front;
    } else {
      var shorter, last := back[..|back| - 1], back[|back| - 1];
      assert (front + back)[..|front + back| - 1] == front + shorter;
      KeptConcat(front, shorter, gone);
    }
  }

  lemma {:induction false} KeptWhole(list: seq<nat>, gone: set<nat>)
    requires forall x :: x in list ==> x !in gone
    ensures Kept(list, gone) == list
  {
    if list != [] { KeptWhole(list[..|list| - 1], gone); }
  }

  /** Leaving out in two rounds is leaving out at once. */
  lemma {:induction false} KeptTwice(list: seq<nat>, gone: set<nat>, more: set<nat>)
    ensures Kept(Kept(list, gone), more) == Kept(list, gone + more)
  {
    if list != [] {
      var front, last := list[..|list| - 1], list[|list| - 1];
      KeptTwice(front, gone, more);
      KeptAppend(Kept(front, gone), more, last);
      if last in gone { assert Kept(front, gone) + [] == Kept(front, gone); }
    }
  }

  lemma SplitAround(list: seq<nat>, at: nat)
    requires Distinct(list) && at < |list|
    ensures list == (list[..at] + [list[at]]) + list[at + 1..]
    ensures list[at] !in list[..at] && list[at] !in list[at + 1..]
  {
    var back := list[at + 1..];
    forall i | 0 <= i < |back| ensures back[i] != list[at] { assert back[i] == list[at + 1 + i]; }
  }

  /** On a list without repetitions, taking one id off is leaving one task out. */
  lemma UnlistedIsKept(list: seq<nat>, x: nat)
    requires Distinct(list)
    ensures Unlisted(list, x) == Kept(list, {x})
  {
    if x in list {
      var at := IndexOf(list, x);
      var front, back := list[..at], list[at + 1..];
      SplitAround(list, at);
      assert Unlisted(list, x) == front + back;
      hide Distinct, IndexOf, Unlisted, RemoveAt, Kept;
      KeptConcat(front + [x], back, {x});
      KeptAppend(front, {x}, x);
      KeptWhole(front, {x});
      KeptWhole(back, {x});
      assert Kept(front + [x], {x}) == front;
    } else {
      KeptWhole(list, {x});
    }
  }

  /** Taking an id off a list and leaving stale entries out of it commute. */
  lemma KeptUnlisted(list: seq<nat>, gone: set<nat>, x: nat)
    requires Distinct(list)
    ensures Kept(Unlisted(list, x), gone) == Unlisted(Kept(list, gone), x) == Kept(list, gone + {x})
  {
    KeptElements(list, gone);
    UnlistedIsKept(list, x);
    UnlistedIsKept(Kept(list, gone), x);
    KeptTwice(list, gone, {x});
    KeptTwice(list, {x}, gone);
    assert {x} + gone == gone + {x};
    hide Kept, Unlisted;
  }

  predicate AllGone(s: Sched, gone: set<nat>) {
    forall x :: x in gone ==> !Live(s, x)
  }

  /** A wake passes stale entries over. */
  lemma {:induction false} FirstOfKept(s: Sched, list: seq<nat>, gone: set<nat>, expected: TaskState)
    requires AllGone(s, gone)
    ensures
      var i, i' := FirstBlocked(s, list, expected), FirstBlocked(s, Kept(list, gone), expected);
      (i == |list| <==> i' == |Kept(list, gone)|) && (i < |list| ==> Kept(list, gone)[i'] == list[i])
  {
    if list != [] {
      var front, last := list[..|list| - 1], list[|list| - 1];
      assert list == front + [last];
      FirstOfKept(s, front, gone, expected);
      FirstOfAppend(s, front, last, expected);
      KeptAppend(front, gone, last);
      if last in gone {
        assert Kept(list, gone) == Kept(front, gone);
      } else {
        FirstOfAppend(s, Kept(front, gone), last, expected);
      }
      hide FirstBlocked, Kept;
    }
  }

  lemma FirstOfAppend(s: Sched, list: seq<nat>, last: nat, expected: TaskState)
    ensures
      var i := FirstBlocked(s, list, expected);
      FirstBlocked(s, list + [last], expected) ==
        if i < |list| then i
        else if Live(s, last) && Task(s, last).state == expected then |list| else |list| + 1
  {
    var i := FirstBlocked(s, list, expected);
    var longer := list + [last];
    hide FirstBlocked;
    assert forall j :: 0 <= j < |list| ==> longer[j] == list[j];
    if i < |list| {
      FirstIs(s, longer, expected, i);
    } else if Live(s, last) && Task(s, last).state == expected {
      FirstIs(s, longer, expected, |list|);
    } else {
      FirstIs(s, longer, expected, |list| + 1);
    }
  }

  // ── The sections on the table ───────────────────────────────────────────────────────────────

  ghost predicate ListsDistinct(w: WaitTable) {
    forall a: nat, dir: bool :: Distinct(ListOf(w, a, dir))
  }

  lemma PurgedWith(w: WaitTable, gone: set<nat>, addr: nat, send: bool, list: seq<nat>)
    requires addr in w
    ensures addr in Purged(w, gone)
    ensures Purged(WithList(w, addr, send, list), gone) == WithList(Purged(w, gone), addr, send, Kept(list, gone))
  {
  }

  /** Taking the same task off both lists. */
  lemma RemoveCommutes(list: seq<nat>, gone: set<nat>, i: nat, i': nat)
    requires Distinct(list) && i < |list| && i' < |Kept(list, gone)| && Kept(list, gone)[i'] == list[i]
    ensures RemoveAt(Kept(list, gone), i') == Kept(RemoveAt(list, i), gone) && Distinct(RemoveAt(list, i))
  {
    KeptElements(list, gone);
    SplitAround(list, i);
    SplitAround(Kept(list, gone), i');
    IndexIs(list, list[i], i);
    IndexIs(Kept(list, gone), list[i], i');
    KeptUnlisted(list, gone, list[i]);
    RemoveAtElements(list, i);
    hide Kept, Distinct, RemoveAt, IndexOf;
  }

  lemma WakeCommutes(s: Sched, w: WaitTable, gone: set<nat>, addr: nat, send: bool)
    requires AllGone(s, gone) && ListsDistinct(w)
    ensures
      var (s', w', woken) := WakeOne(s, w, addr, send);
      WakeOne(s, Purged(w, gone), addr, send) == (s', Purged(w', gone), woken) && ListsDistinct(w')
  {
    var list := ListOf(w, addr, send);
    PurgedList(w, gone, addr, send);
    assert Distinct(list);
    FirstOfKept(s, list, gone, BlockedState(send));
    var i, i' := FirstBlocked(s, list, BlockedState(send)), FirstBlocked(s, Kept(list, gone), BlockedState(send));
    assert i < |list| ==> addr in w;
    hide FirstBlocked, Unblock, Kept, Purged, Distinct, AllGone, ListOf;
    if i < |list| {
      RemoveCommutes(list, gone, i, i');
      ListsAfter(w, addr, send, RemoveAt(list, i));
      PurgedWith(w, gone, addr, send, RemoveAt(list, i));
      hide WithList, RemoveAt;
    }
  }

  lemma ResumeCommutes(w: WaitTable, gone: set<nat>, addr: nat, send: bool, id: nat)
    requires ListsDistinct(w) && id !in gone
    ensures
      var (w', woken) := Resume(w, addr, send, id);
      Resume(Purged(w, gone), addr, send, id) == (Purged(w', gone), woken) && ListsDistinct(w')
  {
    var list := ListOf(w, addr, send);
    PurgedList(w, gone, addr, send);
    assert Distinct(list);
    KeptElements(list, gone);
    KeptUnlisted(list, gone, id);
    if id in list {
      RemoveAtElements(list, IndexOf(list, id));
      ListsAfter(w, addr, send, RemoveAt(list, IndexOf(list, id)));
      PurgedWith(w, gone, addr, send, RemoveAt(list, IndexOf(list, id)));
      hide ListOf, WithList, RemoveAt, Purged, Kept, IndexOf;
    }
  }

  /** The table after `find_or_create`, whether or not it found room for the address. */
  function Found(w: WaitTable, addr: nat): WaitTable {
    if FindOrCreate(w, addr).Some? then FindOrCreate(w, addr).value else w
  }

  /** There is room for one more on the list, stale entries included. */
  predicate HasRoom(w: WaitTable, addr: nat, send: bool) {
    FindOrCreate(w, addr).Some? && |ListOf(w, addr, send)| < MAX_LISTED
  }

  /** The caller's deadline is armed before room is looked for. */
  function Armed(s: Sched, core: nat, deadline: nat): Sched
    requires core < |s.current|
  {
    var cur := s.current[core];
    if Live(s, cur) then Put(s, cur, Task(s, cur).(sleepUntil := deadline)) else s
  }

  lemma EnrolParts(s: Sched, w: WaitTable, core: nat, addr: nat, send: bool, deadline: nat)
    requires core < |s.current|
    ensures HasRoom(w, addr, send) ==> addr in Found(w, addr)
    ensures
      var armed := Armed(s, core, deadline);
      Enrol(s, w, core, addr, send, deadline) ==
        if HasRoom(w, addr, send) then
          (BlockCurrent(armed, core, BlockedState(send)),
           WithList(Found(w, addr), addr, send, ListOf(w, addr, send) + [s.current[core]]), true)
        else (armed, Found(w, addr), false)
  {
    hide BlockCurrent;
  }

  lemma FoundCommutes(w: WaitTable, gone: set<nat>, addr: nat)
    ensures FindOrCreate(Purged(w, gone), addr).Some? == FindOrCreate(w, addr).Some?
    ensures Found(Purged(w, gone), addr) == Purged(Found(w, addr), gone)
    ensures forall a: nat, dir: bool :: ListOf(Found(w, addr), a, dir) == ListOf(w, a, dir)
  {
    assert Purged(w, gone).Keys == w.Keys;
    assert |Purged(w, gone)| == |Purged(w, gone).Keys| == |w.Keys| == |w|;
    if addr !in w {
      assert Purged(w[addr := Lists([], [])], gone) == Purged(w, gone)[addr := Lists([], [])];
    }
  }

  /** An enrolment does the same to a list with and without its stale entries, unless they fill the list:
      then it is refused, where it would find room without them. */
  lemma EnrolCommutes(s: Sched, w: WaitTable, gone: set<nat>, core: nat, addr: nat, send: bool, deadline: nat)
    requires core < |s.current| && s.current[core] !in gone
    ensures HasRoom(w, addr, send) ==> HasRoom(Purged(w, gone), addr, send)
    ensures
      var (s', w', ok) := Enrol(s, w, core, addr, send, deadline);
      if HasRoom(w, addr, send) == HasRoom(Purged(w, gone), addr, send)
      then Enrol(s, Purged(w, gone), core, addr, send, deadline) == (s', Purged(w', gone), ok)
      else s' == Armed(s, core, deadline) && Purged(w', gone) == Found(Purged(w, gone), addr) && !ok
  {
    var list := ListOf(w, addr, send);
    FoundCommutes(w, gone, addr);
    EnrolParts(s, w, core, addr, send, deadline);
    EnrolParts(s, Purged(w, gone), core, addr, send, deadline);
    PurgedList(w, gone, addr, send);
    KeptElements(list, gone);
    KeptAppend(list, gone, s.current[core]);
    hide Purged, Kept, ListOf, Enrol, Armed, BlockCurrent, FindOrCreate, Found;
    if HasRoom(w, addr, send) { PurgedWith(Found(w, addr), gone, addr, send, list + [s.current[core]]); }
    hide WithList;
  }

  /** A task more gone, and an id forgotten. */
  lemma PurgedMore(w: WaitTable, gone: set<nat>, x: nat)
    requires ListsDistinct(w)
    ensures Purged(w, gone + {x}) == Forget(Purged(w, gone), x)
    ensures Purged(Forget(w, x), gone) == Forget(Purged(w, gone), x)
    ensures ListsDistinct(Forget(w, x))
  {
    forall a | a in w
      ensures Purged(w, gone + {x})[a] == Forget(Purged(w, gone), x)[a] == Purged(Forget(w, x), gone)[a]
    {
      assert Distinct(ListOf(w, a, true)) && Distinct(ListOf(w, a, false));
      KeptUnlisted(w[a].send, gone, x);
      KeptUnlisted(w[a].recv, gone, x);
      hide Kept, Unlisted;
    }
    forall a: nat, dir: bool ensures Distinct(ListOf(Forget(w, x), a, dir)) {
      assert Distinct(ListOf(w, a, dir));
      ForgetOnlyDrops(w, x, a, dir);
    }
  }
}

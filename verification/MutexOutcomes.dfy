/** What `lock` and `unlock` answer and do in every run, stated from the state before and the state after. */
module MutexOutcomes {
  import opened Wrappers
  import opened Sequences
  import opened Tasks
  import opened Inheritance
  import opened Waiters
  import opened Kernel
  import Guarantees

  /** Everything but the task table, the ready mask and the mutex table is as it was. */
  ghost predicate OnlyMutexes(k: State, k': State) {
    && k' == k.(s := k'.s, mutexes := k'.mutexes)
    && k'.s.current == k.s.current && k'.s.lastRun == k.s.lastRun && |k'.s.tasks| == |k.s.tasks|
    && forall id: nat :: Live(k'.s, id) == Live(k.s, id)
  }

  /** A task's effective priority may have moved; nothing else about it has. */
  predicate OnlyPriority(t: Tcb, t': Tcb) {
    t' == t.(priority := t'.priority, boostedFrom := t'.boostedFrom)
  }

  // ── lock ────────────────────────────────────────────────────────────────────────────────────

  /** Task `t` has been blocked on the mutex and listed last; it and those it waits for may have been boosted. */
  ghost predicate HasBlocked(k: State, k': State, t: nat, addr: nat)
    requires addr in k.mutexes
  {
    var e := k.mutexes[addr];
    && OnlyMutexes(k, k')
    && k'.mutexes == k.mutexes[addr := Entry(e.owner, e.waiters + [t])]
    && Live(k.s, t) && Task(k'.s, t) == Task(k.s, t).(state := BlockedMutex, blockedOnMutex := Some(addr))
    && forall id: nat :: Live(k.s, id) && id != t ==> OnlyPriority(Task(k.s, id), Task(k'.s, id))
  }

  /** The answer and the effect of one `lock` by task `t`. */
  ghost predicate Locks(k: State, k': State, t: nat, addr: nat, inInterrupt: bool, outcome: Outcome) {
    if MustRefuse(k.mutexes, t, addr, inInterrupt) then outcome == Failed && k' == k
    else if addr !in k.mutexes then outcome == Acquired && k' == k.(mutexes := k.mutexes[addr := Entry(t, [])])
    else outcome == Enqueued && HasBlocked(k, k', t, addr)
  }

  lemma LockSection(k: State, core: nat, addr: nat, inInterrupt: bool)
    requires Inv(k) && Enabled(k, LockMutex(core, addr, inInterrupt))
    ensures Locks(k, Apply(k, LockMutex(core, addr, inInterrupt)), Current(k, core), addr, inInterrupt,
                  Lock(k.s, k.mutexes, core, addr, inInterrupt).2)
  {
    LockAnswersExactly(k.s, k.mutexes, core, addr, inInterrupt);
    if Lock(k.s, k.mutexes, core, addr, inInterrupt).2.Enqueued? {
      LockEnqueues(k.s, k.mutexes, core, addr);
      hide Inv, Lock, EnqueuedOn;
      EnqueuesAs(k, Apply(k, LockMutex(core, addr, inInterrupt)), Current(k, core), addr);
    } else {
      hide Inv, Lock;
    }
  }

  lemma EnqueuesAs(k: State, k': State, t: nat, addr: nat)
    requires EnqueuedOn(k.s, k.mutexes, t, addr, k'.s, k'.mutexes) && k' == k.(s := k'.s, mutexes := k'.mutexes)
    ensures HasBlocked(k, k', t, addr) && |k.mutexes[addr].waiters| < 8 && k.mutexes[addr].owner != t
  {
    hide Behind;
  }

  /** Every `lock` of every run: it is refused, without any effect, exactly in an interrupt, by the owner, behind
      eight waiters, and for a seventeenth mutex; it gets a free mutex, which changes nothing else; and behind
      another owner it blocks the caller on the mutex and lists it last. */
  lemma LockAnswers(states: seq<State>, steps: seq<Label>, i: nat)
    requires Guarantees.IsRun(states, steps) && i < |steps| && steps[i].LockMutex?
    ensures
      var core, addr, inInterrupt := steps[i].core, steps[i].addr, steps[i].inInterrupt;
      && core < |states[i].s.current|
      && Locks(states[i], states[i + 1], states[i].s.current[core], addr, inInterrupt,
               Lock(states[i].s, states[i].mutexes, core, addr, inInterrupt).2)
  {
    Guarantees.RunInv(states, steps, i);
    LockSection(states[i], steps[i].core, steps[i].addr, steps[i].inInterrupt);
    hide Inv, Locks, Lock, Apply;
  }

  // ── unlock ──────────────────────────────────────────────────────────────────────────────────

  /** Task `t` has passed the mutex on: to its first most urgent waiter, which is Ready with a full slice, or to
      nobody. Nobody else has moved, except that `t` may have lost a boost. */
  ghost predicate HasReleased(k: State, k': State, t: nat, addr: nat)
    requires addr in k.mutexes
  {
    var waiters := k.mutexes[addr].waiters;
    && OnlyMutexes(k, k') && Live(k.s, t) && OnlyPriority(Task(k.s, t), Task(k'.s, t))
    && (waiters == [] ==> k'.mutexes == k.mutexes - {addr})
    && (waiters != [] ==>
          && addr in k'.mutexes && k'.mutexes == k.mutexes[addr := k'.mutexes[addr]]
          && Guarantees.HandedToBest(k.s, k', addr, waiters)
          && var heir := k'.mutexes[addr].owner;
             && Live(k.s, heir) && Task(k.s, heir).state.BlockedMutex?
             && Task(k'.s, heir) == Task(k.s, heir).(state := Ready, quantum := 10, blockedOnMutex := None))
    && forall id: nat :: Live(k.s, id) && id != t && !(addr in k'.mutexes && id == k'.mutexes[addr].owner) ==>
      Task(k'.s, id) == Task(k.s, id)
  }

  ghost predicate Unlocks(k: State, k': State, t: nat, addr: nat, answer: bool) {
    if addr !in k.mutexes || k.mutexes[addr].owner != t then !answer && k' == k
    else answer && HasReleased(k, k', t, addr)
  }

  lemma UnlockSection(k: State, core: nat, addr: nat)
    requires Inv(k) && Enabled(k, UnlockMutex(core, addr))
    ensures Unlocks(k, Apply(k, UnlockMutex(core, addr)), Current(k, core), addr,
                    Unlock(k.s, k.mutexes, core, addr).2)
  {
    var k' := Apply(k, UnlockMutex(core, addr));
    if Unlock(k.s, k.mutexes, core, addr).2 {
      UnlockReleases(k.s, k.mutexes, core, addr);
      Guarantees.UnlockHandsOver(k, core, addr);
      ReleasesAs(k, k', Current(k, core), addr);
      hide Inv, Unlock;
    } else {
      hide Inv;
    }
  }

  lemma ReleasesAs(k: State, k': State, t: nat, addr: nat)
    requires ReleasedOn(k.s, k.mutexes, t, addr, k'.s, k'.mutexes) && k' == k.(s := k'.s, mutexes := k'.mutexes)
    requires TableOk(k.s, k.mutexes)
    requires
      var waiters := k.mutexes[addr].waiters;
      waiters != [] ==> Guarantees.HandedTo(k.s, k', addr, waiters, BestWaiter(k.s, waiters))
    ensures HasReleased(k, k', t, addr)
  {
    assert EntryOk(k.s, k.mutexes, addr);
    var waiters := k.mutexes[addr].waiters;
    if waiters != [] { assert WaitOk(k.s, k.mutexes, waiters[BestWaiter(k.s, waiters)]); }
    hide TableOk, BestWaiter, RemoveAt;
  }

  /** Every `unlock` of every run: it is refused, without any effect, exactly when the caller does not own the
      mutex, and otherwise releases it and touches nothing but the heir and the caller's own boost. */
  lemma UnlockAnswers(states: seq<State>, steps: seq<Label>, i: nat)
    requires Guarantees.IsRun(states, steps) && i < |steps| && steps[i].UnlockMutex?
    ensures
      var core, addr := steps[i].core, steps[i].addr;
      && core < |states[i].s.current|
      && Unlocks(states[i], states[i + 1], states[i].s.current[core], addr,
                 Unlock(states[i].s, states[i].mutexes, core, addr).2)
  {
    Guarantees.RunInv(states, steps, i);
    UnlockSection(states[i], steps[i].core, steps[i].addr);
    hide Inv, Unlocks, Unlock, Apply;
  }
}

/** What the lock-free queue promises in every run, whatever the threads interleave. */
module RingGuarantees {
  import opened Wrappers
  import opened AtomicRing

  // ── What holds in every run ─────────────────────────────────────────────────────────────────

  lemma {:induction false} RunInv(n: nat, threads: nat, schedule: seq<(nat, Choice)>)
    requires n >= 1
    ensures Inv(Run(Init(n, threads), schedule))
  {
    if schedule == [] {
      InitInv(n, threads);
    } else {
      RunInv(n, threads, schedule[..|schedule| - 1]);
      var (i, choice) := schedule[|schedule| - 1];
      StepInv(Run(Init(n, threads), schedule[..|schedule| - 1]), i, choice);
    }
  }

  /** FIFO over every run: the k-th claimed position delivers the k-th accepted message. A claimed
      position whose message is not out yet is being copied by exactly one consumer, so once no
      consumer is mid-copy the deliveries are a prefix of the acceptances: nothing lost, duplicated,
      reordered or invented. */
  lemma Fifo(n: nat, threads: nat, schedule: seq<(nat, Choice)>)
    requires n >= 1
    ensures
      var s := Run(Init(n, threads), schedule);
      && |s.delivered| == s.head <= s.tail == |s.accepted| <= s.head + n
      && (forall p: nat :: p < s.head && s.delivered[p].Some? ==> s.delivered[p].value == s.accepted[p])
      && (forall p: nat :: p < s.head && s.delivered[p].None? ==> exists i: nat :: OnlyReader(s, i, p))
      && ((forall i: nat :: i < |s.threads| ==> !s.threads[i].RecvRead?) ==>
            s.delivered == seq(s.head, (p: nat) requires p < |s.accepted| => Some(s.accepted[p])))
  {
    RunInv(n, threads, schedule);
    var s := Run(Init(n, threads), schedule);
    hide Run, Init, ThreadOk, SlotOk, QueuedOk, ClaimedOk;
    forall p: nat | p < s.head
      ensures s.delivered[p].Some? ==> s.delivered[p].value == s.accepted[p]
      ensures s.delivered[p].None? ==> exists i: nat :: OnlyReader(s, i, p)
    {
      ClaimedHasOneReader(s, p);
    }
    forall p: nat, i: nat | p < s.head && OnlyReader(s, i, p) ensures s.threads[i].RecvRead? {}
  }

  /** Thread `i`, and no other, is about to copy the message at position `p` out. */
  ghost predicate OnlyReader(s: State, i: nat, p: nat) {
    && i < |s.threads| && s.threads[i] == RecvRead(p)
    && forall j: nat :: j < |s.threads| && s.threads[j] == RecvRead(p) ==> j == i
  }

  lemma ClaimedHasOneReader(s: State, p: nat)
    requires Inv(s) && p < s.head
    ensures s.delivered[p].Some? ==> s.delivered[p].value == s.accepted[p]
    ensures s.delivered[p].None? ==> exists i: nat :: OnlyReader(s, i, p)
  {
    hide Slot, QueuedOk;
    assert ClaimedOk(s, p);
    if s.delivered[p].None? {
      var i := s.holder[Slot(s.n, p)].value;
      forall j: nat | j < |s.threads| && s.threads[j] == RecvRead(p) ensures j == i { assert ThreadOk(s, j); }
      assert OnlyReader(s, i, p);
    }
  }

  lemma QueuedNotFree(s: State, p: nat)
    requires Inv(s) && s.head <= p < s.tail
    ensures s.slot[Slot(s.n, p)] != Free
  {
    hide Slot;
    assert QueuedOk(s, p) && SlotOk(s, Slot(s.n, p));
  }

  /** Every slot in transfer has exactly one holder, every queued position a slot that is not Free,
      and no two threads mid-transfer share a slot, even when a stale thread has won one. */
  lemma SlotOwnership(n: nat, threads: nat, schedule: seq<(nat, Choice)>)
    requires n >= 1
    ensures
      var s := Run(Init(n, threads), schedule);
      && (forall i: nat, j: nat :: i < j < |s.threads| && Held(s.threads[i]).Some? && Held(s.threads[j]).Some? ==>
            Slot(n, Held(s.threads[i]).value) != Slot(n, Held(s.threads[j]).value))
      && (forall k: nat :: k < n ==>
            (s.slot[k] == Writing || s.slot[k] == Reading <==>
              exists i: nat :: i < |s.threads| && Held(s.threads[i]).Some? && Slot(n, Held(s.threads[i]).value) == k))
      && (forall p: nat :: s.head <= p < s.tail ==> s.slot[Slot(n, p)] != Free)
      && (forall k: nat :: k < n && s.slot[k] == ReadySlot ==> Occupied(s, k))
  {
    RunInv(n, threads, schedule);
    var s := Run(Init(n, threads), schedule);
    hide Slot;
    forall i: nat, j: nat | i < j < |s.threads| && Held(s.threads[i]).Some? && Held(s.threads[j]).Some?
      ensures Slot(n, Held(s.threads[i]).value) != Slot(n, Held(s.threads[j]).value)
    {
      assert ThreadOk(s, i) && ThreadOk(s, j);
    }
    forall k: nat | k < n
      ensures s.slot[k] == Writing || s.slot[k] == Reading <==>
        exists i: nat :: i < |s.threads| && Held(s.threads[i]).Some? && Slot(n, Held(s.threads[i]).value) == k
      ensures s.slot[k] == ReadySlot ==> Occupied(s, k)
    {
      assert SlotOk(s, k);
      forall i: nat | i < |s.threads| && Held(s.threads[i]).Some? && Slot(n, Held(s.threads[i]).value) == k
        ensures s.slot[k] == Writing || s.slot[k] == Reading
      {
        assert ThreadOk(s, i);
      }
    }
    forall p: nat | s.head <= p < s.tail ensures s.slot[Slot(n, p)] != Free {
      assert QueuedOk(s, p) && SlotOk(s, Slot(n, p));
    }
  }

  /** Position `p` has been published and its message has not been copied out yet. */
  predicate Published(s: State, p: nat)
    requires Bounds(s)
  {
    if p < s.head then s.delivered[p].None?
    else p < s.tail && (s.slot[Slot(s.n, p)] == ReadySlot || s.slot[Slot(s.n, p)] == Reading)
  }

  /** Between publication and copy-out a payload stays in its cell whatever any thread does, and
      the copy-out delivers exactly that payload. A producer only ever writes an empty cell. */
  lemma CopiesAreSound(s: State, i: nat, choice: Choice, p: nat)
    requires Inv(s) && Published(s, p)
    ensures s.cell[Slot(s.n, p)] == Some(s.accepted[p])
    ensures Inv(Step(s, i, choice))
    ensures
      var s' := Step(s, i, choice);
      || Published(s', p)
      || (p < s'.head && s'.delivered[p] == Some(s.accepted[p]) && i < |s.threads| && s.threads[i] == RecvRead(p))
    ensures i < |s.threads| && s.threads[i].SendWrite? ==> s.cell[Slot(s.n, s.threads[i].tail)] == None
    ensures i < |s.threads| && s.threads[i].RecvRead? ==> s.cell[Slot(s.n, s.threads[i].head)].Some?
  {
    StepInv(s, i, choice);
    PublishedCell(s, p);
    hide Slot;
    if i < |s.threads| {
      assert ThreadOk(s, i);
      hide Inv;
      if choice.Access? {
        if InSend(s.threads[i]) {
          SendKeepsPublished(s, i, choice.spurious, p);
        } else {
          RecvKeepsPublished(s, i, choice.spurious, p);
        }
      }
    }
  }

  lemma SendKeepsPublished(s: State, i: nat, spurious: bool, p: nat)
    requires Inv(s) && Published(s, p) && i < |s.threads| && InSend(s.threads[i]) && Inv(SendStep(s, i, spurious))
    ensures Published(SendStep(s, i, spurious), p)
  {
    hide Slot;
    assert ThreadOk(s, i);
    if p < s.head { assert ClaimedOk(s, p); } else { assert QueuedOk(s, p); }
    hide Inv;
  }

  lemma RecvKeepsPublished(s: State, i: nat, spurious: bool, p: nat)
    requires Inv(s) && Published(s, p) && i < |s.threads| && !InSend(s.threads[i]) && Inv(RecvStep(s, i, spurious))
    ensures
      var s' := RecvStep(s, i, spurious);
      Published(s', p) || (p < s'.head && s'.delivered[p] == Some(s.accepted[p]) && s.threads[i] == RecvRead(p))
  {
    hide Slot;
    assert ThreadOk(s, i);
    if p < s.head { assert ClaimedOk(s, p); } else { assert QueuedOk(s, p); }
    hide Inv;
  }

  lemma PublishedCell(s: State, p: nat)
    requires Inv(s) && Published(s, p)
    ensures s.cell[Slot(s.n, p)] == Some(s.accepted[p])
  {
    hide Slot;
    var k := Slot(s.n, p);
    assert SlotOk(s, k);
    if p < s.head {
      assert ClaimedOk(s, p);
      assert ThreadOk(s, s.holder[k].value);
    } else {
      assert QueuedOk(s, p);
    }
  }

  // ── What one call does ──────────────────────────────────────────────────────────────────────

  /** The call this thread is in (or has just finished) has won its position. */
  predicate Committed(pc: Pc) {
    || pc.SendWrite? || pc.SendPublish? || (pc.SendDone? && pc.ok)
    || pc.RecvRead? || pc.RecvRelease? || (pc.RecvDone? && pc.result.Ok?)
  }

  /** What one access of thread `i` means for the queue: its contents change exactly when the call
      commits; a send then appends its own message, and a receive takes the front. */
  predicate Effect(s: State, s': State, i: nat)
    requires Bounds(s) && Bounds(s') && i < |s.threads| == |s'.threads|
  {
    var pc, pc' := s.threads[i], s'.threads[i];
    && (Committed(pc) ==> Committed(pc'))
    && Contents(s') ==
         (if Committed(pc) || !Committed(pc') then Contents(s)
          else if InSend(pc) then Contents(s) + [pc.msg]
          else Contents(s)[if Contents(s) == [] then 0 else 1..])
    && (!Committed(pc) && Committed(pc') && !InSend(pc) ==>
          Contents(s) != [] && pc' == RecvRead(s.head) && s.accepted[s.head] == Contents(s)[0])
    && (pc.RecvRelease? ==> pc' == RecvDone(Ok(pc.msg)) && pc.head < s.head && pc.msg == s.accepted[pc.head])
  }

  /** The queue's contents change exactly when a call commits: a send appends its own message, a
      receive takes the front, which is what it will deliver. Nothing undoes a commit. */
  lemma CommitIsTheOnlyEffect(s: State, i: nat, choice: Choice)
    requires Inv(s) && i < |s.threads|
    ensures Inv(Step(s, i, choice))
    ensures if choice.Access? then Effect(s, Step(s, i, choice), i) else Contents(Step(s, i, choice)) == Contents(s)
  {
    StepInv(s, i, choice);
    hide Slot, SlotOk, QueuedOk, ClaimedOk;
    assert ThreadOk(s, i);
    if choice.Access? {
      if InSend(s.threads[i]) { SendEffect(s, i, choice.spurious); } else { RecvEffect(s, i, choice.spurious); }
    }
  }

  lemma SendEffect(s: State, i: nat, spurious: bool)
    requires Inv(s) && i < |s.threads| && InSend(s.threads[i]) && Bounds(SendStep(s, i, spurious))
    ensures Effect(s, SendStep(s, i, spurious), i)
  {
    hide Slot, SlotOk, QueuedOk, ClaimedOk;
    assert ThreadOk(s, i);
    hide Inv;
  }

  lemma RecvEffect(s: State, i: nat, spurious: bool)
    requires Inv(s) && i < |s.threads| && !InSend(s.threads[i]) && Bounds(RecvStep(s, i, spurious))
    ensures Effect(s, RecvStep(s, i, spurious), i)
  {
    assert ThreadOk(s, i);
    hide Inv, Slot, SlotOk, QueuedOk, ClaimedOk;
    var pc := s.threads[i];
    if pc.RecvCommit? {
      RecvCommitEffect(s, i, spurious);
    } else {
      var s' := RecvStep(s, i, spurious);
      assert Contents(s') == Contents(s);
      assert Committed(s'.threads[i]) == Committed(pc);
    }
  }

  lemma RecvCommitEffect(s: State, i: nat, spurious: bool)
    requires Bounds(s) && i < |s.threads| && ThreadOk(s, i) && s.threads[i].RecvCommit?
      && Bounds(RecvStep(s, i, spurious))
    ensures Effect(s, RecvStep(s, i, spurious), i)
  {
    hide Slot;
    if s.head == s.threads[i].head && !spurious { assert s.accepted[s.head..][1..] == s.accepted[s.head + 1..]; }
  }

  /** No schedule entry starts a new call of thread `i`. */
  ghost predicate NoBegin(schedule: seq<(nat, Choice)>, i: nat) {
    forall k :: 0 <= k < |schedule| && schedule[k].0 == i ==> schedule[k].1.Access?
  }

  lemma {:induction false} RunKeepsInv(s: State, schedule: seq<(nat, Choice)>)
    requires Inv(s)
    ensures Inv(Run(s, schedule)) && |Run(s, schedule).threads| == |s.threads|
  {
    if schedule != [] {
      var prefix := schedule[..|schedule| - 1];
      RunKeepsInv(s, prefix);
      var (i, choice) := schedule[|schedule| - 1];
      StepInv(Run(s, prefix), i, choice);
    }
  }

  lemma {:induction false} CommittedStays(s: State, schedule: seq<(nat, Choice)>, i: nat, k: nat)
    requires Inv(s) && i < |s.threads| && NoBegin(schedule, i) && k <= |schedule|
    ensures |Run(s, schedule[..k]).threads| == |Run(s, schedule).threads| == |s.threads|
    ensures Committed(Run(s, schedule[..k]).threads[i]) ==> Committed(Run(s, schedule).threads[i])
  {
    RunKeepsInv(s, schedule[..k]);
    RunKeepsInv(s, schedule);
    if k < |schedule| {
      var prefix := schedule[..|schedule| - 1];
      assert prefix[..k] == schedule[..k];
      CommittedStays(s, prefix, i, k);
      RunKeepsInv(s, prefix);
      var (j, choice) := schedule[|schedule| - 1];
      if j == i { CommitIsTheOnlyEffect(Run(s, prefix), i, choice); }
    } else {
      assert schedule[..k] == schedule;
    }
  }

  /** A call that is not answered with success has changed nothing, whatever the other threads do:
      none of its own steps alters the queue's contents. */
  lemma FailedCallKeepsContents(s: State, schedule: seq<(nat, Choice)>, i: nat, k: nat)
    requires Inv(s) && i < |s.threads| && NoBegin(schedule, i)
    requires k < |schedule| && schedule[k].0 == i
    requires |Run(s, schedule).threads| == |s.threads| ==> !Committed(Run(s, schedule).threads[i])
    ensures Inv(Run(s, schedule[..k])) && Inv(Run(s, schedule[..k + 1]))
    ensures Contents(Run(s, schedule[..k + 1])) == Contents(Run(s, schedule[..k]))
  {
    RunKeepsInv(s, schedule);
    RunKeepsInv(s, schedule[..k]);
    RunKeepsInv(s, schedule[..k + 1]);
    assert schedule[..k + 1][..k] == schedule[..k];
    CommittedStays(s, schedule, i, k + 1);
    CommitIsTheOnlyEffect(Run(s, schedule[..k]), i, schedule[k].1);
  }

  /** `Empty` is answered only at a `tail` load that finds the queue truly empty. */
  lemma EmptyIsTruthful(s: State, i: nat, choice: Choice)
    requires Inv(s) && i < |s.threads| && choice.Access? && !s.threads[i].RecvDone?
    requires Step(s, i, choice).threads[i] == RecvDone(Empty)
    ensures s.threads[i].RecvLoadTail? && Contents(s) == []
  {
    assert ThreadOk(s, i);
  }

  /** While thread `i` is not scheduled its locals stay and the head only moves on. */
  lemma {:induction false} OthersRun(s: State, schedule: seq<(nat, Choice)>, i: nat)
    requires WellSized(s) && i < |s.threads| && (forall k :: 0 <= k < |schedule| ==> schedule[k].0 != i)
    ensures
      var r := Run(s, schedule);
      |r.threads| == |s.threads| && r.threads[i] == s.threads[i] && s.head <= r.head
  {
    hide Slot;
    if schedule != [] { OthersRun(s, schedule[..|schedule| - 1], i); }
  }

  /** A send loads `tail`, others run, and it loads `head`. It gives up there exactly when the queue
      was full at the first load and nothing has been received since, or when everything queued at
      the first load, and something after it, has been received since. */
  lemma FullIsTruthful(s: State, schedule: seq<(nat, Choice)>, i: nat, first: bool, second: bool)
    requires Inv(s) && i < |s.threads| && s.threads[i].SendLoadTail?
    requires forall k :: 0 <= k < |schedule| ==> schedule[k].0 != i
    ensures
      var later := Run(Step(s, i, Access(first)), schedule);
      && |later.threads| == |Step(later, i, Access(second)).threads| == |s.threads|
      && (Step(later, i, Access(second)).threads[i] == SendDone(false) <==>
            (|Contents(s)| == s.n && later.head == s.head) || s.tail < later.head)
  {
    hide Slot, Run, ThreadOk, SlotOk, QueuedOk, ClaimedOk;
    OthersRun(Step(s, i, Access(first)), schedule, i);
  }

  /** An upper bound on the accesses a call still has to make: five per failed loop iteration, six
      for one that commits. */
  function Remaining(pc: Pc): int {
    match pc
    case SendLoadTail(_, left) => 5 * left + 1
    case SendLoadHead(_, left, _) => 5 * left
    case SendClaim(_, left, _) => 5 * left - 1
    case SendCommit(_, left, _) => 5 * left - 2
    case SendBackOff(_, left, _) => 5 * left - 3
    case SendWrite(_, _) => 2
    case SendPublish(_) => 1
    case RecvLoadHead(left) => 5 * left + 1
    case RecvLoadTail(left, _) => 5 * left
    case RecvClaim(left, _) => 5 * left - 1
    case RecvCommit(left, _) => 5 * left - 2
    case RecvBackOff(left, _) => 5 * left - 3
    case RecvRead(_) => 2
    case RecvRelease(_, _) => 1
    case _ => 0
  }

  function Accesses(schedule: seq<(nat, Choice)>, i: nat): nat {
    if schedule == [] then 0
    else Accesses(schedule[..|schedule| - 1], i) + if schedule[|schedule| - 1].0 == i then 1 else 0
  }

  lemma SendProgress(s: State, i: nat, spurious: bool)
    requires Inv(s) && i < |s.threads| && InSend(s.threads[i])
    ensures Remaining(SendStep(s, i, spurious).threads[i]) < Remaining(s.threads[i]) <= 5 * (s.n + 1) + 1
  {
    hide Slot, SlotOk, QueuedOk, ClaimedOk;
    assert ThreadOk(s, i);
  }

  lemma RecvProgress(s: State, i: nat, spurious: bool)
    requires Inv(s) && i < |s.threads| && !InSend(s.threads[i]) && !Resting(s.threads[i])
    ensures Remaining(RecvStep(s, i, spurious).threads[i]) < Remaining(s.threads[i]) <= 5 * (s.n + 1) + 1
  {
    hide Slot, SlotOk, QueuedOk, ClaimedOk;
    assert ThreadOk(s, i);
  }

  lemma AccessProgress(s: State, i: nat, choice: Choice)
    requires Inv(s) && i < |s.threads| && choice.Access?
    ensures
      var pc' := Step(s, i, choice).threads[i];
      if Resting(s.threads[i]) then pc' == s.threads[i] else Remaining(pc') < Remaining(s.threads[i])
    ensures Remaining(s.threads[i]) <= 5 * (s.n + 1) + 1
  {
    if InSend(s.threads[i]) {
      SendProgress(s, i, choice.spurious);
    } else if !Resting(s.threads[i]) {
      RecvProgress(s, i, choice.spurious);
    }
  }

  /** Every access brings the call closer to its end, wherever it stands. */
  lemma {:induction false} CallsAdvance(s: State, schedule: seq<(nat, Choice)>, i: nat)
    requires Inv(s) && i < |s.threads| && NoBegin(schedule, i)
    ensures |Run(s, schedule).threads| == |s.threads|
    ensures Resting(Run(s, schedule).threads[i]) ||
            Remaining(Run(s, schedule).threads[i]) + Accesses(schedule, i) <= Remaining(s.threads[i])
    ensures Accesses(schedule, i) >= 5 * (s.n + 1) + 1 ==> Resting(Run(s, schedule).threads[i])
  {
    RunKeepsInv(s, schedule);
    AccessProgress(s, i, Access(false));
    if schedule != [] {
      var prefix := schedule[..|schedule| - 1];
      CallsAdvance(s, prefix, i);
      RunKeepsInv(s, prefix);
      var (j, choice) := schedule[|schedule| - 1];
      if j == i { AccessProgress(Run(s, prefix), i, choice); }
    }
    assert Resting(Run(s, schedule).threads[i]) || Remaining(Run(s, schedule).threads[i]) >= 1 by {
      assert ThreadOk(Run(s, schedule), i);
    }
  }

  // ── Against a plain bounded FIFO ────────────────────────────────────────────────────────────

  /** Thread `i` makes `k` accesses with nobody interfering and no spurious failure. */
  function Alone(s: State, i: nat, k: nat): (r: State)
    requires WellSized(s)
    ensures WellSized(r)
    decreases k
  {
    if k == 0 then s else Alone(Step(s, i, Access(false)), i, k - 1)
  }

  /** No thread is mid-transfer: each is between calls, or stalled before winning a slot. */
  predicate Quiet(s: State) {
    forall j: nat :: j < |s.threads| ==> Held(s.threads[j]).None?
  }

  lemma QuietSlots(s: State, k: nat)
    requires Inv(s) && k < s.n && Quiet(s)
    ensures s.slot[k] == if Occupied(s, k) then ReadySlot else Free
    ensures s.holder[k] == None
  {
    hide Slot;
    assert SlotOk(s, k);
    if p: nat :| s.head <= p < s.tail && Slot(s.n, p) == k {
      assert QueuedOk(s, p);
    }
  }

  /** The slot `tail` points at is Free in a quiet queue that is not full. */
  lemma QuietTail(s: State)
    requires Inv(s) && Quiet(s) && s.tail < s.head + s.n
    ensures s.slot[Slot(s.n, s.tail)] == Free
  {
    hide Slot;
    var k := Slot(s.n, s.tail);
    QuietSlots(s, k);
    if p: nat :| s.head <= p < s.tail && Slot(s.n, p) == k { SameSlot(s.n, p, s.tail); }
  }

  /** The slot `head` points at carries the oldest message in a quiet queue that is not empty. */
  lemma QuietHead(s: State)
    requires Inv(s) && Quiet(s) && s.head < s.tail
    ensures s.slot[Slot(s.n, s.head)] == ReadySlot && s.cell[Slot(s.n, s.head)] == Some(s.accepted[s.head])
  {
    hide Slot;
    QuietSlots(s, Slot(s.n, s.head));
    assert Occupied(s, Slot(s.n, s.head));
    assert QueuedOk(s, s.head);
  }

  /** From the claim on: the slot is won, the position is granted, the message goes in. */
  lemma ClaimToSent(s: State, i: nat)
    requires Bounds(s) && i < |s.threads| && s.threads[i].SendClaim? && s.threads[i].tail == s.tail
    requires s.slot[Slot(s.n, s.tail)] == Free
    ensures
      var r := Alone(s, i, 4);
      && r.threads == s.threads[i := SendDone(true)]
      && r.head == s.head && r.accepted == s.accepted + [s.threads[i].msg]
  {
    hide Slot;
    var a1 := Step(s, i, Access(false));
    assert a1.threads[i] == SendCommit(s.threads[i].msg, s.threads[i].left, s.tail);
    var a2 := Step(a1, i, Access(false));
    assert a2.threads[i] == SendWrite(s.threads[i].msg, s.tail);
    var a3 := Step(a2, i, Access(false));
    var a4 := Step(a3, i, Access(false));
    assert Alone(s, i, 4) == Alone(a1, i, 3) == Alone(a2, i, 2) == Alone(a3, i, 1) == a4;
  }

  /** From the claim on: the slot is won, the position is granted, the message comes out. */
  lemma ClaimToReceived(s: State, i: nat, msg: Msg)
    requires Bounds(s) && i < |s.threads| && s.threads[i].RecvClaim? && s.threads[i].head == s.head
    requires s.slot[Slot(s.n, s.head)] == ReadySlot && s.cell[Slot(s.n, s.head)] == Some(msg)
    ensures
      var r := Alone(s, i, 4);
      && r.threads == s.threads[i := RecvDone(Ok(msg))]
      && r.head == s.head + 1 && r.accepted == s.accepted
  {
    hide Slot;
    var a1 := Step(s, i, Access(false));
    assert a1.threads[i] == RecvCommit(s.threads[i].left, s.head);
    var a2 := Step(a1, i, Access(false));
    assert a2.threads[i] == RecvRead(s.head);
    var a3 := Step(a2, i, Access(false));
    assert a3.threads[i] == RecvRelease(s.head, msg);
    var a4 := Step(a3, i, Access(false));
    assert Alone(s, i, 4) == Alone(a1, i, 3) == Alone(a2, i, 2) == Alone(a3, i, 1) == a4;
  }

  /** While no thread holds a slot, `try_send` accepts exactly when fewer than N messages are
      queued, and then appends. The other threads may be stalled at any access of their own. */
  lemma UncontendedSend(s: State, i: nat, msg: Msg)
    requires Inv(s) && i < |s.threads| && Resting(s.threads[i]) && Quiet(s)
    ensures
      var r := Alone(Step(s, i, Begin(Send(msg))), i, 6);
      && Inv(r)
      && r.threads == s.threads[i := SendDone(|Contents(s)| < s.n)]
      && r.head == s.head
      && r.accepted == (if |Contents(s)| < s.n then s.accepted + [msg] else s.accepted)
      && Contents(r) == (if |Contents(s)| < s.n then Contents(s) + [msg] else Contents(s))
  {
    hide Slot, ThreadOk, SlotOk, QueuedOk, ClaimedOk;
    var a0 := Step(s, i, Begin(Send(msg)));
    var a1 := Step(a0, i, Access(false));
    var a2 := Step(a1, i, Access(false));
    StepInv(s, i, Begin(Send(msg)));
    AloneInv(a0, i, 6);
    if |Contents(s)| < s.n {
      QuietTail(s);
      assert a2.threads[i] == SendClaim(msg, s.n + 1, s.tail);
      ClaimToSent(a2, i);
    } else {
      assert a2.threads[i] == SendDone(false);
      DoneStays(a2, i, 4);
    }
    assert Alone(a0, i, 6) == Alone(a1, i, 5) == Alone(a2, i, 4);
  }

  /** While no thread holds a slot, `try_recv` delivers the oldest message, or reports an empty
      queue exactly when nothing is queued. */
  lemma UncontendedRecv(s: State, i: nat)
    requires Inv(s) && i < |s.threads| && Resting(s.threads[i]) && Quiet(s)
    ensures
      var r := Alone(Step(s, i, Begin(Recv)), i, 6);
      && Inv(r)
      && r.threads == s.threads[i := RecvDone(if Contents(s) == [] then Empty else Ok(Contents(s)[0]))]
      && r.accepted == s.accepted
      && r.head == (if Contents(s) == [] then s.head else s.head + 1)
      && Contents(r) == Contents(s)[if Contents(s) == [] then 0 else 1..]
  {
    hide Slot, ThreadOk, SlotOk, QueuedOk, ClaimedOk;
    var a0 := Step(s, i, Begin(Recv));
    var a1 := Step(a0, i, Access(false));
    var a2 := Step(a1, i, Access(false));
    StepInv(s, i, Begin(Recv));
    AloneInv(a0, i, 6);
    if Contents(s) != [] {
      QuietHead(s);
      assert a2.threads[i] == RecvClaim(s.n + 1, s.head);
      ClaimToReceived(a2, i, s.accepted[s.head]);
    } else {
      assert a2.threads[i] == RecvDone(Empty);
      DoneStays(a2, i, 4);
    }
    assert Alone(a0, i, 6) == Alone(a1, i, 5) == Alone(a2, i, 4);
  }

  lemma {:induction false} AloneInv(s: State, i: nat, k: nat)
    requires Inv(s)
    ensures Inv(Alone(s, i, k))
    decreases k
  {
    if k > 0 {
      StepInv(s, i, Access(false));
      AloneInv(Step(s, i, Access(false)), i, k - 1);
    }
  }

  lemma {:induction false} DoneStays(s: State, i: nat, k: nat)
    requires WellSized(s) && i < |s.threads| && Resting(s.threads[i])
    ensures Alone(s, i, k) == s
    decreases k
  {
    if k > 0 {
      assert Step(s, i, Access(false)) == s;
      DoneStays(s, i, k - 1);
    }
  }
}

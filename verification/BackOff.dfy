/** When a call can win a slot and then lose the position, so that it has to back off, if no
    compare-and-swap fails spuriously: exactly when two threads may compete for the same end of the
    queue and somebody uses the other end. */
module BackOff {
  import opened Wrappers
  import opened AtomicRing
  import opened RingGuarantees

  /** Which threads call `try_send` and which call `try_recv`; a thread may do both. */
  datatype Roles = Roles(threads: nat, senders: set<nat>, receivers: set<nat>)

  predicate RolesOk(r: Roles) {
    && (forall i :: i in r.senders ==> i < r.threads)
    && (forall i :: i in r.receivers ==> i < r.threads)
  }

  /** A thread makes only the calls it is there for, and no compare-and-swap fails spuriously. */
  predicate Plays(r: Roles, i: nat, choice: Choice) {
    match choice
    case Begin(Send(_)) => i in r.senders
    case Begin(Recv) => i in r.receivers
    case Access(spurious) => !spurious
  }

  predicate Respects(schedule: seq<(nat, Choice)>, r: Roles) {
    forall k :: 0 <= k < |schedule| ==> Plays(r, schedule[k].0, schedule[k].1)
  }

  /** Some schedule in which every thread keeps to its roles ends in `s`. */
  ghost predicate Reachable(n: nat, r: Roles, s: State)
    requires n >= 1
  {
    exists schedule: seq<(nat, Choice)> :: Respects(schedule, r) && Run(Init(n, r.threads), schedule) == s
  }

  ghost predicate SendBacksOff(n: nat, r: Roles)
    requires n >= 1
  {
    exists s: State, i: nat :: Reachable(n, r, s) && i < |s.threads| && s.threads[i].SendBackOff?
  }

  ghost predicate RecvBacksOff(n: nat, r: Roles)
    requires n >= 1
  {
    exists s: State, i: nat :: Reachable(n, r, s) && i < |s.threads| && s.threads[i].RecvBackOff?
  }

  // ── Building runs ───────────────────────────────────────────────────────────────────────────

  lemma StartReachable(n: nat, r: Roles)
    requires n >= 1
    ensures Reachable(n, r, Init(n, r.threads))
  {
    assert Respects([], r) && Run(Init(n, r.threads), []) == Init(n, r.threads);
  }

  lemma ReachStep(n: nat, r: Roles, s: State, i: nat, choice: Choice)
    requires n >= 1 && Reachable(n, r, s) && Plays(r, i, choice)
    ensures WellSized(s) && Reachable(n, r, Step(s, i, choice))
  {
    hide Step;
    var schedule: seq<(nat, Choice)> :| Respects(schedule, r) && Run(Init(n, r.threads), schedule) == s;
    var longer := schedule + [(i, choice)];
    assert longer[..|schedule|] == schedule;
    assert Respects(longer, r);
  }

  lemma {:induction false} ReachAlone(n: nat, r: Roles, s: State, i: nat, k: nat)
    requires n >= 1 && Reachable(n, r, s)
    ensures WellSized(s) && Reachable(n, r, Alone(s, i, k))
    decreases k
  {
    hide Step;
    ReachStep(n, r, s, i, Access(false));
    if k > 0 { ReachAlone(n, r, Step(s, i, Access(false)), i, k - 1); }
  }

  /** Every reachable state satisfies the ring's invariant. */
  lemma ReachableInv(n: nat, r: Roles, s: State)
    requires n >= 1 && Reachable(n, r, s)
    ensures Inv(s) && s.n == n && |s.threads| == r.threads
  {
    hide Inv;
    var schedule: seq<(nat, Choice)> :| Respects(schedule, r) && Run(Init(n, r.threads), schedule) == s;
    RunInv(n, r.threads, schedule);
    InitInv(n, r.threads);
    RunKeepsInv(Init(n, r.threads), schedule);
  }

  /** Thread `i` sends while nobody is mid-transfer. */
  function Sent(s: State, i: nat, msg: Msg): State
    requires WellSized(s)
  {
    Alone(Step(s, i, Begin(Send(msg))), i, 6)
  }

  /** Thread `i` receives while nobody is mid-transfer. */
  function Received(s: State, i: nat): State
    requires WellSized(s)
  {
    Alone(Step(s, i, Begin(Recv)), i, 6)
  }

  lemma ReachSent(n: nat, r: Roles, s: State, i: nat, msg: Msg)
    requires n >= 1 && Reachable(n, r, s) && i in r.senders && i < r.threads
    requires Quiet(s) && |s.threads| == r.threads && Resting(s.threads[i]) && s.tail < s.head + n
    ensures WellSized(s) && Reachable(n, r, Sent(s, i, msg)) && Quiet(Sent(s, i, msg))
    ensures
      var s' := Sent(s, i, msg);
      s'.threads == s.threads[i := SendDone(true)] && s'.head == s.head && s'.tail == s.tail + 1
  {
    hide Inv, Step;
    ReachableInv(n, r, s);
    ReachStep(n, r, s, i, Begin(Send(msg)));
    ReachAlone(n, r, Step(s, i, Begin(Send(msg))), i, 6);
    InvBounds(s);
    UncontendedSend(s, i, msg);
    InvBounds(Sent(s, i, msg));
  }

  lemma ReachReceived(n: nat, r: Roles, s: State, i: nat)
    requires n >= 1 && Reachable(n, r, s) && i in r.receivers && i < r.threads
    requires Quiet(s) && |s.threads| == r.threads && Resting(s.threads[i]) && s.head < s.tail
    ensures WellSized(s) && Reachable(n, r, Received(s, i)) && Quiet(Received(s, i))
    ensures
      var s' := Received(s, i);
      && |s'.threads| == |s.threads| && Resting(s'.threads[i])
      && (forall j: nat :: j < |s.threads| && j != i ==> s'.threads[j] == s.threads[j])
      && s'.head == s.head + 1 && s'.tail == s.tail
  {
    hide Inv, Step;
    ReachableInv(n, r, s);
    ReachStep(n, r, s, i, Begin(Recv));
    ReachAlone(n, r, Step(s, i, Begin(Recv)), i, 6);
    InvBounds(s);
    UncontendedRecv(s, i);
    InvBounds(Received(s, i));
  }

  lemma InvBounds(s: State)
    requires Inv(s)
    ensures Bounds(s)
  {
  }

  /** Thread `i` has loaded `tail` and `head` and is about to claim position 0. */
  lemma StaleSender(n: nat, r: Roles, i: nat, msg: Msg)
    requires n >= 1 && RolesOk(r) && i in r.senders
    ensures Reachable(n, r, Init(n, r.threads).(threads := Init(n, r.threads).threads[i := SendClaim(msg, n + 1, 0)]))
  {
    var s := Init(n, r.threads);
    StartReachable(n, r);
    ReachStep(n, r, s, i, Begin(Send(msg)));
    ReachAlone(n, r, Step(s, i, Begin(Send(msg))), i, 2);
    var s1 := Step(s, i, Begin(Send(msg)));
    var s2 := Step(s1, i, Access(false));
    assert Alone(s1, i, 2) == Alone(s2, i, 1) == Step(s2, i, Access(false));
    assert Step(s2, i, Access(false)) == s.(threads := s.threads[i := SendClaim(msg, n + 1, 0)]);
  }

  /** Thread `x` stalls before its claim of position 0, `y` sends, `z` receives, and `x` goes on:
      it wins the slot, which is Free again, and loses the position, which is gone. */
  lemma TwoSendersBackOff(n: nat, r: Roles, x: nat, y: nat, z: nat, msg: Msg)
    requires n >= 1 && RolesOk(r) && x in r.senders && y in r.senders && z in r.receivers && x != y && x != z
    ensures SendBacksOff(n, r)
  {
    hide Step, Inv, Sent, Received;
    var s0 := Init(n, r.threads).(threads := Init(n, r.threads).threads[x := SendClaim(msg, n + 1, 0)]);
    StaleSender(n, r, x, msg);
    ReachSent(n, r, s0, y, msg);
    var s1 := Sent(s0, y, msg);
    ReachReceived(n, r, s1, z);
    var s2 := Received(s1, z);
    ReachableInv(n, r, s2);
    QuietTailless(s2);
    ReachStep(n, r, s2, x, Access(false));
    ReachStep(n, r, Step(s2, x, Access(false)), x, Access(false));
    LateSender(s2, x);
  }

  /** In a quiet queue with nothing queued every slot is Free. */
  lemma QuietTailless(s: State)
    requires Inv(s) && Quiet(s) && s.head == s.tail
    ensures s.slot[0] == Free
  {
    hide Slot;
    QuietSlots(s, 0);
  }

  lemma LateSender(s: State, x: nat)
    requires WellSized(s) && x < |s.threads| && s.threads[x].SendClaim? && s.threads[x].tail == 0 < s.tail
    requires s.slot[0] == Free
    ensures Step(Step(s, x, Access(false)), x, Access(false)).threads[x].SendBackOff?
  {
    assert Slot(s.n, 0) == 0;
    hide Slot;
    assert Step(s, x, Access(false)).threads[x].SendCommit?;
  }

  /** `z` fills the queue up, one message after another. */
  lemma {:induction false} FillUp(n: nat, r: Roles, s: State, z: nat, msg: Msg) returns (full: State)
    requires n >= 1 && Reachable(n, r, s) && z in r.senders && z < r.threads
    requires Quiet(s) && |s.threads| == r.threads && Resting(s.threads[z]) && s.tail <= s.head + n
    ensures Reachable(n, r, full) && Quiet(full) && |full.threads| == r.threads
    ensures forall j: nat :: j < r.threads && j != z ==> full.threads[j] == s.threads[j]
    ensures full.head == s.head && full.tail == s.head + n
    decreases s.head + n - s.tail
  {
    hide Inv, Step, Reachable;
    full := s;
    if s.tail < s.head + n {
      ReachSent(n, r, s, z, msg);
      full := FillUp(n, r, Sent(s, z, msg), z, msg);
    }
  }

  /** `z` sends, `x` stalls before its claim of position 0, `y` receives the message, `z` fills the
      queue up, and `x` goes on: it wins the slot, Ready again for the position one lap later, and
      loses the position. */
  lemma TwoReceiversBackOff(n: nat, r: Roles, x: nat, y: nat, z: nat, msg: Msg)
    requires n >= 1 && RolesOk(r) && x in r.receivers && y in r.receivers && z in r.senders && x != y && x != z
    ensures RecvBacksOff(n, r)
  {
    hide Step, Inv, Sent, Received, Reachable;
    StartReachable(n, r);
    ReachSent(n, r, Init(n, r.threads), z, msg);
    var s0 := Sent(Init(n, r.threads), z, msg);
    ReachStep(n, r, s0, x, Begin(Recv));
    ReachAlone(n, r, Step(s0, x, Begin(Recv)), x, 2);
    StaleReceiver(s0, x);
    var s1 := Alone(Step(s0, x, Begin(Recv)), x, 2);
    ReachReceived(n, r, s1, y);
    var s2 := FillUp(n, r, Received(s1, y), z, msg);
    ReachableInv(n, r, s2);
    QuietLap(s2);
    ReachStep(n, r, s2, x, Access(false));
    ReachStep(n, r, Step(s2, x, Access(false)), x, Access(false));
    LateReceiver(s2, x);
  }

  lemma StaleReceiver(s: State, x: nat)
    requires WellSized(s) && x < |s.threads| && Resting(s.threads[x]) && s.head == 0 < s.tail
    ensures Alone(Step(s, x, Begin(Recv)), x, 2) == s.(threads := s.threads[x := RecvClaim(s.n + 1, 0)])
  {
    var s1 := Step(s, x, Begin(Recv));
    var s2 := Step(s1, x, Access(false));
    assert Alone(s1, x, 2) == Alone(s2, x, 1) == Step(s2, x, Access(false));
  }

  /** The slot of position 0 is Ready again once position N is queued. */
  lemma QuietLap(s: State)
    requires Inv(s) && Quiet(s) && s.head <= s.n < s.tail
    ensures s.slot[0] == ReadySlot
  {
    assert Slot(s.n, s.n) == 0;
    hide Slot;
    assert Occupied(s, 0);
    QuietSlots(s, 0);
  }

  lemma LateReceiver(s: State, x: nat)
    requires WellSized(s) && x < |s.threads| && s.threads[x].RecvClaim? && s.threads[x].head == 0 < s.head
    requires s.slot[0] == ReadySlot
    ensures Step(Step(s, x, Access(false)), x, Access(false)).threads[x].RecvBackOff?
  {
    assert Slot(s.n, 0) == 0;
    hide Slot;
    assert Step(s, x, Access(false)).threads[x].RecvCommit?;
  }

  // ── What keeps a call from having to back off ───────────────────────────────────────────────

  predicate InRecv(pc: Pc) {
    || pc.RecvLoadHead? || pc.RecvLoadTail? || pc.RecvClaim? || pc.RecvCommit? || pc.RecvBackOff?
    || pc.RecvRead? || pc.RecvRelease?
  }

  /** Only `p` sends, so the `tail` it has loaded is still the queue's. */
  predicate LoneSender(s: State, p: nat) {
    forall i: nat :: i < |s.threads| ==>
      && (InSend(s.threads[i]) ==> i == p)
      && (s.threads[i].SendLoadHead? || s.threads[i].SendClaim? || s.threads[i].SendCommit? ==>
            s.threads[i].tail == s.tail)
      && !s.threads[i].SendBackOff?
  }

  /** Only `p` receives, so the `head` it has loaded is still the queue's. */
  predicate LoneReceiver(s: State, p: nat) {
    forall i: nat :: i < |s.threads| ==>
      && (InRecv(s.threads[i]) ==> i == p)
      && (s.threads[i].RecvLoadTail? || s.threads[i].RecvClaim? || s.threads[i].RecvCommit? ==>
            s.threads[i].head == s.head)
      && !s.threads[i].RecvBackOff?
  }

  /** Nobody receives, so a slot once used is never Free again and a stale claim of it fails. */
  predicate NoReceiver(s: State) {
    && s.head == 0
    && forall i: nat :: i < |s.threads| ==>
         && !InRecv(s.threads[i])
         && (s.threads[i].SendCommit? ==> s.threads[i].tail == s.tail)
         && !s.threads[i].SendBackOff?
  }

  /** Nobody sends, so every receive finds the queue empty. */
  predicate NoSender(s: State) {
    && s.tail == 0
    && forall i: nat :: i < |s.threads| ==>
         && !InSend(s.threads[i])
         && !s.threads[i].RecvClaim? && !s.threads[i].RecvCommit? && !s.threads[i].RecvBackOff?
  }

  /** An access of `try_send` moves nobody else, leaves `head` alone and stays out of `try_recv`. */
  lemma SendSide(s: State, i: nat, spurious: bool)
    requires WellSized(s) && i < |s.threads| && InSend(s.threads[i])
    ensures
      var s' := SendStep(s, i, spurious);
      && s'.threads == s.threads[i := s'.threads[i]] && s'.head == s.head && !InRecv(s'.threads[i])
      && (s.threads[i].SendCommit? || s'.tail == s.tail)
  {
    hide Slot;
  }

  /** An access of `try_recv` moves nobody else, leaves `tail` alone and stays out of `try_send`. */
  lemma RecvSide(s: State, i: nat, spurious: bool)
    requires WellSized(s) && i < |s.threads| && !InSend(s.threads[i])
    ensures
      var s' := RecvStep(s, i, spurious);
      && s'.threads == s.threads[i := s'.threads[i]] && s'.tail == s.tail && !InSend(s'.threads[i])
      && (s.threads[i].RecvCommit? || s'.head == s.head)
  {
    hide Slot;
  }

  lemma LoneSenderStep(r: Roles, s: State, p: nat, i: nat, choice: Choice)
    requires WellSized(s) && LoneSender(s, p) && r.senders <= {p} && Plays(r, i, choice)
    ensures LoneSender(Step(s, i, choice), p)
  {
    if i < |s.threads| && choice.Access? {
      if InSend(s.threads[i]) {
        SendSide(s, i, false);
        SentTail(s, i);
      } else {
        RecvSide(s, i, false);
      }
      hide SendStep, RecvStep;
    }
  }

  /** Without a spurious failure an access leaves its own thread with the `tail` it should have. */
  lemma SentTail(s: State, i: nat)
    requires WellSized(s) && i < |s.threads| && InSend(s.threads[i]) && !s.threads[i].SendBackOff?
    requires s.threads[i].SendLoadHead? || s.threads[i].SendClaim? || s.threads[i].SendCommit? ==>
      s.threads[i].tail == s.tail
    ensures
      var s' := SendStep(s, i, false);
      && !s'.threads[i].SendBackOff?
      && (s'.threads[i].SendLoadHead? || s'.threads[i].SendClaim? || s'.threads[i].SendCommit? ==>
            s'.threads[i].tail == s'.tail)
  {
    hide Slot;
  }

  lemma LoneReceiverStep(r: Roles, s: State, p: nat, i: nat, choice: Choice)
    requires WellSized(s) && LoneReceiver(s, p) && r.receivers <= {p} && Plays(r, i, choice)
    ensures LoneReceiver(Step(s, i, choice), p)
  {
    if i < |s.threads| && choice.Access? {
      if InSend(s.threads[i]) {
        SendSide(s, i, false);
      } else {
        RecvSide(s, i, false);
        ReceivedHead(s, i);
      }
      hide SendStep, RecvStep;
    }
  }

  /** Without a spurious failure an access leaves its own thread with the `head` it should have. */
  lemma ReceivedHead(s: State, i: nat)
    requires WellSized(s) && i < |s.threads| && !InSend(s.threads[i]) && !s.threads[i].RecvBackOff?
    requires s.threads[i].RecvLoadTail? || s.threads[i].RecvClaim? || s.threads[i].RecvCommit? ==>
      s.threads[i].head == s.head
    ensures
      var s' := RecvStep(s, i, false);
      && !s'.threads[i].RecvBackOff?
      && (s'.threads[i].RecvLoadTail? || s'.threads[i].RecvClaim? || s'.threads[i].RecvCommit? ==>
            s'.threads[i].head == s'.head)
      && (!InRecv(s.threads[i]) ==> s' == s)
  {
    hide Slot;
  }

  /** A slot won at position `tail` belongs to nobody else. */
  lemma OneCommit(s: State, i: nat, j: nat)
    requires Inv(s) && i < |s.threads| && j < |s.threads|
    requires s.threads[i].SendCommit? && s.threads[j].SendCommit? && s.threads[i].tail == s.threads[j].tail
    ensures i == j
  {
    hide Slot;
    assert ThreadOk(s, i) && ThreadOk(s, j);
  }

  /** A Free slot carries no queued position, so with nothing received a claim of it is not stale. */
  lemma FreshClaim(s: State, i: nat)
    requires Inv(s) && i < |s.threads| && s.threads[i].SendClaim? && s.head == 0
    requires s.slot[Slot(s.n, s.threads[i].tail)] == Free
    ensures s.threads[i].tail == s.tail
  {
    hide Slot;
    assert ThreadOk(s, i);
    var t := s.threads[i].tail;
    if t < s.tail { QueuedNotFree(s, t); }
  }

  lemma NoReceiverStep(r: Roles, s: State, i: nat, choice: Choice)
    requires Inv(s) && NoReceiver(s) && r.receivers == {} && Plays(r, i, choice)
    ensures NoReceiver(Step(s, i, choice))
  {
    hide Slot, ThreadOk, SlotOk, QueuedOk, ClaimedOk;
    if i < |s.threads| && choice.Access? {
      var pc := s.threads[i];
      if pc.SendClaim? && s.slot[Slot(s.n, pc.tail)] == Free { FreshClaim(s, i); }
      if pc.SendCommit? {
        forall j: nat | j < |s.threads| && s.threads[j].SendCommit? ensures j == i { OneCommit(s, i, j); }
      }
    }
  }

  lemma NoSenderStep(r: Roles, s: State, i: nat, choice: Choice)
    requires Inv(s) && NoSender(s) && r.senders == {} && Plays(r, i, choice)
    ensures NoSender(Step(s, i, choice))
  {
    hide Slot, SlotOk, QueuedOk, ClaimedOk;
    if i < |s.threads| { assert ThreadOk(s, i); }
  }

  /** What each shortage of callers keeps true. */
  predicate Short(r: Roles, s: State, p: nat) {
    && (r.senders <= {p} ==> LoneSender(s, p))
    && (r.receivers <= {p} ==> LoneReceiver(s, p))
    && (r.receivers == {} ==> NoReceiver(s))
    && (r.senders == {} ==> NoSender(s))
  }

  lemma {:induction false} RunShort(n: nat, r: Roles, schedule: seq<(nat, Choice)>, p: nat)
    requires n >= 1 && Respects(schedule, r)
    ensures Short(r, Run(Init(n, r.threads), schedule), p)
  {
    if schedule != [] {
      hide LoneSender, LoneReceiver, NoReceiver, NoSender, Step, Inv, Plays;
      var prefix := schedule[..|schedule| - 1];
      RunShort(n, r, prefix, p);
      RunInv(n, r.threads, prefix);
      var s := Run(Init(n, r.threads), prefix);
      var (i, choice) := schedule[|schedule| - 1];
      if r.senders <= {p} { LoneSenderStep(r, s, p, i, choice); }
      if r.receivers <= {p} { LoneReceiverStep(r, s, p, i, choice); }
      if r.receivers == {} { NoReceiverStep(r, s, i, choice); }
      if r.senders == {} { NoSenderStep(r, s, i, choice); }
    }
  }

  lemma ReachableShort(n: nat, r: Roles, s: State, p: nat)
    requires n >= 1 && Reachable(n, r, s)
    ensures Short(r, s, p)
  {
    hide Short, Run;
    var schedule: seq<(nat, Choice)> :| Respects(schedule, r) && Run(Init(n, r.threads), schedule) == s;
    RunShort(n, r, schedule, p);
  }

  // ── Exactly when ────────────────────────────────────────────────────────────────────────────

  lemma TwoDifferent(xs: set<nat>)
    ensures |xs| >= 2 <==> exists x, y :: x in xs && y in xs && x != y
  {
    if x, y :| x in xs && y in xs && x != y {
      assert {x, y} <= xs;
      assert |xs| == |xs - {x, y}| + 2;
    }
    if |xs| >= 2 {
      var x :| x in xs;
      assert |xs - {x}| >= 1;
      var y :| y in xs - {x};
    }
  }

  lemma FewerThanTwo(xs: set<nat>) returns (p: nat)
    requires |xs| < 2
    ensures xs <= {p}
  {
    TwoDifferent(xs);
    p := if x :| x in xs then x else 0;
  }

  /** `try_send` has to back off in some run without spurious failures if and only if two threads
      send and somebody receives. So "provably unreachable" holds of a single producer, for every
      capacity and any number of consumers, and of a queue nobody reads; nothing else. */
  lemma SendBacksOffExactly(n: nat, r: Roles, msg: Msg)
    requires n >= 1 && RolesOk(r)
    ensures SendBacksOff(n, r) <==> |r.senders| >= 2 && r.receivers != {}
  {
    hide Reachable;
    if SendBacksOff(n, r) {
      var s: State, i: nat :| Reachable(n, r, s) && i < |s.threads| && s.threads[i].SendBackOff?;
      if |r.senders| < 2 {
        var p := FewerThanTwo(r.senders);
        ReachableShort(n, r, s, p);
      }
      ReachableShort(n, r, s, 0);
    }
    if |r.senders| >= 2 && r.receivers != {} {
      hide SendBacksOff;
      TwoDifferent(r.senders);
      var x, y :| x in r.senders && y in r.senders && x != y;
      var z :| z in r.receivers;
      if z == x { TwoSendersBackOff(n, r, y, x, z, msg); } else { TwoSendersBackOff(n, r, x, y, z, msg); }
    }
  }

  /** `try_recv` has to back off in some run without spurious failures if and only if two threads
      receive and somebody sends: never with the single consumer the type is meant for. */
  lemma RecvBacksOffExactly(n: nat, r: Roles, msg: Msg)
    requires n >= 1 && RolesOk(r)
    ensures RecvBacksOff(n, r) <==> |r.receivers| >= 2 && r.senders != {}
  {
    hide Reachable;
    if RecvBacksOff(n, r) {
      var s: State, i: nat :| Reachable(n, r, s) && i < |s.threads| && s.threads[i].RecvBackOff?;
      if |r.receivers| < 2 {
        var p := FewerThanTwo(r.receivers);
        ReachableShort(n, r, s, p);
      }
      ReachableShort(n, r, s, 0);
    }
    if |r.receivers| >= 2 && r.senders != {} {
      hide RecvBacksOff;
      TwoDifferent(r.receivers);
      var x, y :| x in r.receivers && y in r.receivers && x != y;
      var z :| z in r.senders;
      if z == x { TwoReceiversBackOff(n, r, y, x, z, msg); } else { TwoReceiversBackOff(n, r, x, y, z, msg); }
    }
  }
}

/** A lost compare-and-swap is retried: a call of the lock-free queue gives up only for a reason it can name,
    or after losing the position N + 1 times. */
module Retries {
  import opened Wrappers
  import opened AtomicRing
  import opened RingGuarantees

  predicate Committing(pc: Pc) { pc.SendCommit? || pc.RecvCommit? }

  predicate BackingOff(pc: Pc) { pc.SendBackOff? || pc.RecvBackOff? }

  /** Thread `i` makes its compare-and-swap on `tail` or `head`, and the position does not move. */
  predicate Loses(s: State, i: nat, choice: Choice)
    requires WellSized(s)
  {
    && i < |s.threads| && choice.Access? && Committing(s.threads[i])
    && Step(s, i, choice).tail == s.tail && Step(s, i, choice).head == s.head
  }

  /** How often thread `i` loses its compare-and-swap along a schedule. */
  function Losses(s: State, schedule: seq<(nat, Choice)>, i: nat): nat
    requires WellSized(s)
  {
    if schedule == [] then 0
    else
      var prefix := schedule[..|schedule| - 1];
      var (j, choice) := schedule[|schedule| - 1];
      Losses(s, prefix, i) + if j == i && Loses(Run(s, prefix), i, choice) then 1 else 0
  }

  /** A call's access loses exactly when the position has moved since its load, or the swap fails for no reason. */
  lemma LosesExactly(s: State, i: nat, spurious: bool)
    requires WellSized(s) && i < |s.threads|
    ensures s.threads[i].SendCommit? ==> (Loses(s, i, Access(spurious)) <==> s.tail != s.threads[i].tail || spurious)
    ensures s.threads[i].RecvCommit? ==> (Loses(s, i, Access(spurious)) <==> s.head != s.threads[i].head || spurious)
  {
  }

  // ── Counting ────────────────────────────────────────────────────────────────────────────────

  /** After `lost` lost swaps, a `try_send` of `msg` that is still going on has N + 1 of them less that many
      to spare, and still carries its message. */
  predicate SendGoes(n: nat, pc: Pc, msg: Msg, lost: nat) {
    && lost <= n + 1
    && match pc
       case SendLoadTail(m, left) => m == msg && left + lost == n + 1
       case SendLoadHead(m, left, _) => m == msg && left + lost == n + 1
       case SendClaim(m, left, _) => m == msg && left + lost == n + 1
       case SendCommit(m, left, _) => m == msg && left + lost == n + 1
       case SendBackOff(m, left, _) => m == msg && left + lost == n + 2
       case SendWrite(_, _) => lost <= n
       case SendPublish(_) => lost <= n
       case SendDone(ok) => ok ==> lost <= n
       case _ => false
  }

  predicate RecvGoes(n: nat, pc: Pc, lost: nat) {
    && lost <= n + 1
    && match pc
       case RecvLoadHead(left) => left + lost == n + 1
       case RecvLoadTail(left, _) => left + lost == n + 1
       case RecvClaim(left, _) => left + lost == n + 1
       case RecvCommit(left, _) => left + lost == n + 1
       case RecvBackOff(left, _) => left + lost == n + 2
       case RecvRead(_) => lost <= n
       case RecvRelease(_, _) => lost <= n
       case RecvDone(result) => result.Ok? ==> lost <= n
       case _ => false
  }

  lemma SendGoesOn(s: State, i: nat, spurious: bool, msg: Msg, lost: nat)
    requires Inv(s) && i < |s.threads| && SendGoes(s.n, s.threads[i], msg, lost)
    ensures SendGoes(s.n, Step(s, i, Access(spurious)).threads[i], msg,
                     lost + if Loses(s, i, Access(spurious)) then 1 else 0)
  {
    assert ThreadOk(s, i);
    hide Inv, Slot;
  }

  lemma RecvGoesOn(s: State, i: nat, spurious: bool, lost: nat)
    requires Inv(s) && i < |s.threads| && RecvGoes(s.n, s.threads[i], lost)
    ensures RecvGoes(s.n, Step(s, i, Access(spurious)).threads[i],
                     lost + if Loses(s, i, Access(spurious)) then 1 else 0)
  {
    assert ThreadOk(s, i);
    hide Inv, Slot;
  }

  lemma StaysPut(s: State, j: nat, choice: Choice, i: nat)
    requires WellSized(s) && i < |s.threads| && j != i
    ensures Step(s, j, choice).threads[i] == s.threads[i]
  {
    hide Slot;
  }

  lemma SendCountsOne(s: State, i: nat, msg: Msg, lost: nat, j: nat, choice: Choice)
    requires Inv(s) && i < |s.threads| && SendGoes(s.n, s.threads[i], msg, lost) && (j == i ==> choice.Access?)
    ensures
      && WellSized(s) && |Step(s, j, choice).threads| == |s.threads|
      && SendGoes(s.n, Step(s, j, choice).threads[i], msg, lost + if j == i && Loses(s, i, choice) then 1 else 0)
  {
    assert WellSized(s);
    hide Inv, SendGoes, Loses, Step;
    if j == i { SendGoesOn(s, i, choice.spurious, msg, lost); } else { StaysPut(s, j, choice, i); }
  }

  lemma {:induction false} SendCounts(s: State, schedule: seq<(nat, Choice)>, i: nat, msg: Msg, lost: nat)
    requires Inv(s) && WellSized(s) && i < |s.threads| && SendGoes(s.n, s.threads[i], msg, lost)
      && NoBegin(schedule, i)
    ensures
      var r := Run(s, schedule);
      && Inv(r) && r.n == s.n && |r.threads| == |s.threads|
      && SendGoes(s.n, r.threads[i], msg, lost + Losses(s, schedule, i))
  {
    hide Inv, SendGoes, Loses, Step, WellSized;
    RunKeepsInv(s, schedule);
    if schedule != [] {
      var prefix := schedule[..|schedule| - 1];
      var (j, choice) := schedule[|schedule| - 1];
      SendCounts(s, prefix, i, msg, lost);
      SendCountsOne(Run(s, prefix), i, msg, lost + Losses(s, prefix, i), j, choice);
    }
  }

  lemma RecvCountsOne(s: State, i: nat, lost: nat, j: nat, choice: Choice)
    requires Inv(s) && i < |s.threads| && RecvGoes(s.n, s.threads[i], lost) && (j == i ==> choice.Access?)
    ensures
      && WellSized(s) && |Step(s, j, choice).threads| == |s.threads|
      && RecvGoes(s.n, Step(s, j, choice).threads[i], lost + if j == i && Loses(s, i, choice) then 1 else 0)
  {
    assert WellSized(s);
    hide Inv, RecvGoes, Loses, Step;
    if j == i { RecvGoesOn(s, i, choice.spurious, lost); } else { StaysPut(s, j, choice, i); }
  }

  lemma {:induction false} RecvCounts(s: State, schedule: seq<(nat, Choice)>, i: nat, lost: nat)
    requires Inv(s) && WellSized(s) && i < |s.threads| && RecvGoes(s.n, s.threads[i], lost)
      && NoBegin(schedule, i)
    ensures
      var r := Run(s, schedule);
      && Inv(r) && r.n == s.n && |r.threads| == |s.threads|
      && RecvGoes(s.n, r.threads[i], lost + Losses(s, schedule, i))
  {
    hide Inv, RecvGoes, Loses, Step, WellSized;
    RunKeepsInv(s, schedule);
    if schedule != [] {
      var prefix := schedule[..|schedule| - 1];
      var (j, choice) := schedule[|schedule| - 1];
      RecvCounts(s, prefix, i, lost);
      RecvCountsOne(Run(s, prefix), i, lost + Losses(s, prefix, i), j, choice);
    }
  }

  // ── Giving up ───────────────────────────────────────────────────────────────────────────────

  /** A call of thread `i` has begun in `s`, and `before` is a later moment of it. */
  lemma BeginInv(s: State, i: nat, call: Call)
    requires Inv(s) && i < |s.threads| && Resting(s.threads[i])
    ensures
      var begun := Step(s, i, Begin(call));
      && Inv(begun) && WellSized(begun) && begun.n == s.n && |begun.threads| == |s.threads|
      && match call
         case Send(msg) => SendGoes(s.n, begun.threads[i], msg, 0)
         case Recv => RecvGoes(s.n, begun.threads[i], 0)
  {
    StepInv(s, i, Begin(call));
    hide Inv;
  }

  /** Why a `try_send` may end without success at its next access. */
  predicate MayRefuse(s: State, pc: Pc, losses: nat)
    requires s.n >= 1 && |s.slot| == s.n
  {
    || (pc.SendLoadHead? && !(s.head <= pc.tail < s.head + s.n))
    || (pc.SendClaim? && s.slot[pc.tail % s.n] != Free)
    || (pc.SendBackOff? && losses == s.n + 1)
  }

  lemma SendEnds(s: State, i: nat, msg: Msg, lost: nat, spurious: bool)
    requires Inv(s) && i < |s.threads| && SendGoes(s.n, s.threads[i], msg, lost)
    ensures
      && WellSized(s) && lost <= s.n + 1
      && var pc, pc' := s.threads[i], Step(s, i, Access(spurious)).threads[i];
         && (pc.SendDone? || InSend(pc))
         && (InSend(pc) ==> (pc' == SendDone(false) <==> MayRefuse(s, pc, lost)))
         && (pc.SendBackOff? && lost <= s.n ==> pc'.SendLoadTail? && pc'.msg == msg)
  {
    assert ThreadOk(s, i);
    hide Inv, Slot, ThreadOk;
  }

  /** A `try_send` ends without success at an access exactly when that is its `head` load and finds the queue
      full, or its claim and finds the slot in use, or its back-off after losing its swap on `tail` for the
      N + 1-st time since it began. Any other back-off starts again, with the same message. */
  lemma SendGivesUpExactly(s: State, i: nat, msg: Msg, schedule: seq<(nat, Choice)>, spurious: bool)
    requires Inv(s) && i < |s.threads| && Resting(s.threads[i]) && NoBegin(schedule, i)
    ensures
      var begun := Step(s, i, Begin(Send(msg)));
      var before := Run(begun, schedule);
      && before.n == s.n && |before.threads| == |s.threads|
      && Losses(begun, schedule, i) <= s.n + 1
      && var pc, pc' := before.threads[i], Step(before, i, Access(spurious)).threads[i];
         && (pc.SendDone? || InSend(pc))
         && (InSend(pc) ==> (pc' == SendDone(false) <==> MayRefuse(before, pc, Losses(begun, schedule, i))))
         && (pc.SendBackOff? && Losses(begun, schedule, i) <= s.n ==> pc'.SendLoadTail? && pc'.msg == msg)
  {
    hide ThreadOk, SlotOk, QueuedOk, ClaimedOk, Run, Losses, NoBegin, Step, MayRefuse, SendGoes, InSend;
    assert WellSized(s);
    hide Inv;
    BeginInv(s, i, Send(msg));
    var begun := Step(s, i, Begin(Send(msg)));
    SendCounts(begun, schedule, i, msg, 0);
    SendEnds(Run(begun, schedule), i, msg, Losses(begun, schedule, i), spurious);
  }

  predicate MayContend(s: State, pc: Pc, losses: nat)
    requires s.n >= 1 && |s.slot| == s.n
  {
    || (pc.RecvClaim? && s.slot[pc.head % s.n] != ReadySlot)
    || (pc.RecvBackOff? && losses == s.n + 1)
  }

  lemma RecvEnds(s: State, i: nat, lost: nat, spurious: bool)
    requires Inv(s) && i < |s.threads| && RecvGoes(s.n, s.threads[i], lost)
    ensures
      && WellSized(s) && lost <= s.n + 1
      && var pc, pc' := s.threads[i], Step(s, i, Access(spurious)).threads[i];
         && !InSend(pc)
         && (!Resting(pc) ==> (pc' == RecvDone(Contended) <==> MayContend(s, pc, lost)))
         && (!Resting(pc) ==> (pc' == RecvDone(Empty) <==> pc.RecvLoadTail? && pc.head == s.tail))
         && (pc.RecvBackOff? && lost <= s.n ==> pc'.RecvLoadHead?)
  {
    assert ThreadOk(s, i);
    hide Inv, Slot, ThreadOk;
  }

  /** A `try_recv` answers `Contended` at an access exactly when that is its claim and finds no published message
      in the slot, or its back-off after losing its swap on `head` for the N + 1-st time since it began; and
      `Empty` exactly at a `tail` load that finds the `head` it has loaded. Any other back-off starts again. */
  lemma RecvGivesUpExactly(s: State, i: nat, schedule: seq<(nat, Choice)>, spurious: bool)
    requires Inv(s) && i < |s.threads| && Resting(s.threads[i]) && NoBegin(schedule, i)
    ensures
      var begun := Step(s, i, Begin(Recv));
      var before := Run(begun, schedule);
      && before.n == s.n && |before.threads| == |s.threads|
      && Losses(begun, schedule, i) <= s.n + 1
      && var pc, pc' := before.threads[i], Step(before, i, Access(spurious)).threads[i];
         && !InSend(pc)
         && (!Resting(pc) ==> (pc' == RecvDone(Contended) <==> MayContend(before, pc, Losses(begun, schedule, i))))
         && (!Resting(pc) ==> (pc' == RecvDone(Empty) <==> pc.RecvLoadTail? && pc.head == before.tail))
         && (pc.RecvBackOff? && Losses(begun, schedule, i) <= s.n ==> pc'.RecvLoadHead?)
  {
    hide ThreadOk, SlotOk, QueuedOk, ClaimedOk, Run, Losses, NoBegin, Step, MayContend, RecvGoes, InSend, Resting;
    assert WellSized(s);
    hide Inv;
    BeginInv(s, i, Recv);
    var begun := Step(s, i, Begin(Recv));
    RecvCounts(begun, schedule, i, 0);
    RecvEnds(Run(begun, schedule), i, Losses(begun, schedule, i), spurious);
  }

  /** Every call finishes within `5 * (N + 1) + 1` of its own accesses, so within N + 1 loop iterations, under
      any interference and any spurious failures; and it backs off into another iteration until it has lost
      its swap N + 1 times. */
  lemma CallsFinish(s: State, i: nat, call: Call, schedule: seq<(nat, Choice)>, spurious: bool)
    requires Inv(s) && i < |s.threads| && Resting(s.threads[i]) && NoBegin(schedule, i)
    ensures
      var begun := Step(s, i, Begin(call));
      var r := Run(begun, schedule);
      && |r.threads| == |s.threads| && Losses(begun, schedule, i) <= s.n + 1
      && (Accesses(schedule, i) >= 5 * (s.n + 1) + 1 ==> Resting(r.threads[i]))
      && (BackingOff(r.threads[i]) ==>
            (Resting(Step(r, i, Access(spurious)).threads[i]) <==> Losses(begun, schedule, i) == s.n + 1))
  {
    hide ThreadOk, SlotOk, QueuedOk, ClaimedOk, Run, Losses, NoBegin, Step, Accesses;
    assert WellSized(s);
    hide Inv;
    BeginInv(s, i, call);
    CallsAdvance(Step(s, i, Begin(call)), schedule, i);
    match call
    case Send(msg) => SendGivesUpExactly(s, i, msg, schedule, spurious);
    case Recv => RecvGivesUpExactly(s, i, schedule, spurious);
  }

  // ── A lone caller ───────────────────────────────────────────────────────────────────────────

  /** Only thread `i` is scheduled, and its swaps may fail for no reason. */
  predicate OnlyAccesses(schedule: seq<(nat, Choice)>, i: nat) {
    forall k :: 0 <= k < |schedule| ==> schedule[k].0 == i && schedule[k].1.Access?
  }

  lemma LastAccess(s: State, schedule: seq<(nat, Choice)>, i: nat)
    requires WellSized(s) && schedule != [] && OnlyAccesses(schedule, i)
    ensures
      var prefix, spurious := schedule[..|schedule| - 1], schedule[|schedule| - 1].1.spurious;
      && OnlyAccesses(prefix, i)
      && Run(s, schedule) == Step(Run(s, prefix), i, Access(spurious))
      && Losses(s, schedule, i) ==
           Losses(s, prefix, i) + if Loses(Run(s, prefix), i, Access(spurious)) then 1 else 0
  {
    hide Step, Loses;
  }

  /** Where a lone `try_send` has taken the queue from `s`, after `lost` lost swaps. */
  predicate SendsAlone(s: State, i: nat, msg: Msg, lost: nat, r: State)
    requires Bounds(s) && i < |s.threads|
  {
    && |r.threads| == |s.threads|
    && var pc, room := r.threads[i], s.tail < s.head + s.n;
       match pc
       case SendLoadTail(_, _) => r == Goto(s, i, pc)
       case SendLoadHead(_, _, tail) => r == Goto(s, i, pc) && tail == s.tail
       case SendClaim(_, _, tail) => r == Goto(s, i, pc) && tail == s.tail && room
       case SendCommit(_, _, tail) => r == Acquire(s, i, Slot(s.n, tail), Writing, pc) && tail == s.tail && room
       case SendBackOff(_, _, tail) => r == Acquire(s, i, Slot(s.n, tail), Writing, pc) && tail == s.tail && room
       case SendWrite(_, _) => Grew(s, r, i, msg) && room
       case SendPublish(_) => Grew(s, r, i, msg) && room
       case SendDone(ok) => if ok then Grew(s, r, i, msg) && room else r == Goto(s, i, pc) && (room ==> lost == s.n + 1)
       case _ => false
  }

  predicate Grew(s: State, r: State, i: nat, msg: Msg)
    requires i < |s.threads|
  {
    && |r.threads| == |s.threads| && r.threads == s.threads[i := r.threads[i]]
    && r.n == s.n && r.head == s.head && r.tail == s.tail + 1 && r.accepted == s.accepted + [msg]
    && r.delivered == s.delivered
  }

  lemma SendsOnAlone(s: State, i: nat, msg: Msg, lost: nat, r: State, spurious: bool)
    requires Inv(s) && Quiet(s) && i < |s.threads| && Inv(r)
    requires SendsAlone(s, i, msg, lost, r) && SendGoes(s.n, r.threads[i], msg, lost)
    ensures SendsAlone(s, i, msg, lost + if Loses(r, i, Access(spurious)) then 1 else 0, Step(r, i, Access(spurious)))
  {
    if s.tail < s.head + s.n {
      QuietTail(s);
      QuietSlots(s, Slot(s.n, s.tail));
    }
    assert ThreadOk(r, i);
    hide Inv, Slot, Quiet, ThreadOk;
  }

  lemma {:induction false} SendAloneRun(s: State, i: nat, msg: Msg, begun: State, schedule: seq<(nat, Choice)>)
    requires Inv(s) && Quiet(s) && i < |s.threads| && OnlyAccesses(schedule, i)
    requires Inv(begun) && WellSized(begun) && begun.n == s.n && |begun.threads| == |s.threads| && Bounds(s)
    requires SendsAlone(s, i, msg, 0, begun) && SendGoes(s.n, begun.threads[i], msg, 0)
    ensures
      var r, lost := Run(begun, schedule), Losses(begun, schedule, i);
      && Inv(r) && |r.threads| == |s.threads|
      && SendsAlone(s, i, msg, lost, r) && SendGoes(s.n, r.threads[i], msg, lost)
  {
    hide Inv, SendGoes, SendsAlone, Step, Loses, Quiet, WellSized, Bounds;
    SendCounts(begun, schedule, i, msg, 0);
    if schedule != [] {
      var prefix := schedule[..|schedule| - 1];
      LastAccess(begun, schedule, i);
      SendAloneRun(s, i, msg, begun, prefix);
      SendsOnAlone(s, i, msg, Losses(begun, prefix, i), Run(begun, prefix), schedule[|schedule| - 1].1.spurious);
    }
  }

  /** A lone `try_send` whose swaps fail spuriously up to N times answers as it does undisturbed: it accepts
      exactly when fewer than N messages are queued, and appends. With one failure more it gives up. */
  lemma SendDespiteFailures(s: State, i: nat, msg: Msg, schedule: seq<(nat, Choice)>)
    requires Inv(s) && i < |s.threads| && Resting(s.threads[i]) && Quiet(s) && OnlyAccesses(schedule, i)
    requires |Run(Step(s, i, Begin(Send(msg))), schedule).threads| == |s.threads|
    requires Resting(Run(Step(s, i, Begin(Send(msg))), schedule).threads[i])
    ensures
      var begun := Step(s, i, Begin(Send(msg)));
      var r := Run(begun, schedule);
      var accepted := |Contents(s)| < s.n && Losses(begun, schedule, i) <= s.n;
      && Bounds(r) && Losses(begun, schedule, i) <= s.n + 1
      && r.threads == s.threads[i := SendDone(accepted)]
      && Contents(r) == if accepted then Contents(s) + [msg] else Contents(s)
  {
    BeginInv(s, i, Send(msg));
    SendAloneRun(s, i, msg, Step(s, i, Begin(Send(msg))), schedule);
    hide Inv, Run, Losses, Slot, OnlyAccesses, Quiet;
  }

  /** Where a lone `try_recv` has taken the queue from `s`, after `lost` lost swaps. */
  predicate RecvsAlone(s: State, i: nat, lost: nat, r: State)
    requires Bounds(s) && i < |s.threads|
  {
    && |r.threads| == |s.threads|
    && var pc, some := r.threads[i], s.head < s.tail;
       match pc
       case RecvLoadHead(_) => r == Goto(s, i, pc)
       case RecvLoadTail(_, head) => r == Goto(s, i, pc) && head == s.head
       case RecvClaim(_, head) => r == Goto(s, i, pc) && head == s.head && some
       case RecvCommit(_, head) => r == Acquire(s, i, Slot(s.n, head), Reading, pc) && head == s.head && some
       case RecvBackOff(_, head) => r == Acquire(s, i, Slot(s.n, head), Reading, pc) && head == s.head && some
       case RecvRead(head) => Shrank(s, r, i) && some && head == s.head
       case RecvRelease(head, msg) => Shrank(s, r, i) && some && msg == s.accepted[s.head]
       case RecvDone(result) =>
         (match result
          case Ok(msg) => Shrank(s, r, i) && some && msg == s.accepted[s.head]
          case Empty => r == Goto(s, i, pc) && !some
          case Contended => r == Goto(s, i, pc) && some && lost == s.n + 1)
       case _ => false
  }

  predicate Shrank(s: State, r: State, i: nat)
    requires i < |s.threads|
  {
    && |r.threads| == |s.threads| && r.threads == s.threads[i := r.threads[i]]
    && r.n == s.n && r.head == s.head + 1 && r.tail == s.tail && r.accepted == s.accepted
  }

  lemma RecvsOnAlone(s: State, i: nat, lost: nat, r: State, spurious: bool)
    requires Inv(s) && Quiet(s) && i < |s.threads| && Inv(r)
    requires RecvsAlone(s, i, lost, r) && RecvGoes(s.n, r.threads[i], lost)
    ensures RecvsAlone(s, i, lost + if Loses(r, i, Access(spurious)) then 1 else 0, Step(r, i, Access(spurious)))
  {
    var pc := r.threads[i];
    assert ThreadOk(r, i);
    if s.head < s.tail {
      QuietHead(s);
      QuietSlots(s, Slot(s.n, s.head));
    }
    hide Inv, Slot, Quiet, ThreadOk, Occupied;
    if pc.RecvRead? || pc.RecvRelease? || pc.RecvDone? {
      RecvTakesAlone(s, i, lost, r, spurious);
    } else {
      hide Shrank;
      if pc.RecvCommit? { RecvCommitsAlone(s, i, lost, r, spurious); }
    }
  }

  lemma RecvCommitsAlone(s: State, i: nat, lost: nat, r: State, spurious: bool)
    requires Bounds(s) && i < |s.threads| && RecvsAlone(s, i, lost, r) && r.threads[i].RecvCommit? && WellSized(r)
    ensures RecvsAlone(s, i, lost + if Loses(r, i, Access(spurious)) then 1 else 0, Step(r, i, Access(spurious)))
  {
    hide Slot;
  }

  lemma RecvTakesAlone(s: State, i: nat, lost: nat, r: State, spurious: bool)
    requires Bounds(s) && i < |s.threads| && RecvsAlone(s, i, lost, r) && Bounds(r) && ThreadOk(r, i)
    requires r.threads[i].RecvRead? || r.threads[i].RecvRelease? || r.threads[i].RecvDone?
    ensures RecvsAlone(s, i, lost + if Loses(r, i, Access(spurious)) then 1 else 0, Step(r, i, Access(spurious)))
  {
    hide Slot;
  }

  lemma {:induction false} RecvAloneRun(s: State, i: nat, begun: State, schedule: seq<(nat, Choice)>)
    requires Inv(s) && Quiet(s) && i < |s.threads| && OnlyAccesses(schedule, i)
    requires Inv(begun) && WellSized(begun) && begun.n == s.n && |begun.threads| == |s.threads| && Bounds(s)
    requires RecvsAlone(s, i, 0, begun) && RecvGoes(s.n, begun.threads[i], 0)
    ensures
      var r, lost := Run(begun, schedule), Losses(begun, schedule, i);
      && Inv(r) && |r.threads| == |s.threads|
      && RecvsAlone(s, i, lost, r) && RecvGoes(s.n, r.threads[i], lost)
  {
    hide Inv, RecvGoes, RecvsAlone, Step, Loses, Quiet, WellSized, Bounds;
    RecvCounts(begun, schedule, i, 0);
    if schedule != [] {
      var prefix := schedule[..|schedule| - 1];
      LastAccess(begun, schedule, i);
      RecvAloneRun(s, i, begun, prefix);
      RecvsOnAlone(s, i, Losses(begun, prefix, i), Run(begun, prefix), schedule[|schedule| - 1].1.spurious);
    }
  }

  lemma RecvEndsAlone(s: State, i: nat, lost: nat, r: State)
    requires Bounds(s) && Bounds(r) && i < |s.threads| && RecvsAlone(s, i, lost, r)
    requires RecvGoes(s.n, r.threads[i], lost) && Resting(r.threads[i])
    ensures
      var taken := Contents(s) != [] && lost <= s.n;
      && r.threads == s.threads[i := RecvDone(
        if Contents(s) == [] then Empty else if taken then Ok(Contents(s)[0]) else Contended)]
      && Contents(r) == if taken then Contents(s)[1..] else Contents(s)
  {
    hide Slot;
    assert s.head < s.tail ==> Contents(s)[1..] == s.accepted[s.head + 1..] && Contents(s)[0] == s.accepted[s.head];
  }

  /** A lone `try_recv` whose swaps fail spuriously up to N times answers as it does undisturbed: the oldest
      message, or `Empty` exactly when nothing is queued. With one failure more it reports contention. */
  lemma RecvDespiteFailures(s: State, i: nat, schedule: seq<(nat, Choice)>)
    requires Inv(s) && i < |s.threads| && Resting(s.threads[i]) && Quiet(s) && OnlyAccesses(schedule, i)
    requires |Run(Step(s, i, Begin(Recv)), schedule).threads| == |s.threads|
    requires Resting(Run(Step(s, i, Begin(Recv)), schedule).threads[i])
    ensures
      var begun := Step(s, i, Begin(Recv));
      var r := Run(begun, schedule);
      var taken := Contents(s) != [] && Losses(begun, schedule, i) <= s.n;
      && Bounds(r) && Losses(begun, schedule, i) <= s.n + 1
      && r.threads == s.threads[i := RecvDone(
        if Contents(s) == [] then Empty else if taken then Ok(Contents(s)[0]) else Contended)]
      && Contents(r) == if taken then Contents(s)[1..] else Contents(s)
  {
    BeginInv(s, i, Recv);
    var begun := Step(s, i, Begin(Recv));
    RecvAloneRun(s, i, begun, schedule);
    RecvEndsAlone(s, i, Losses(begun, schedule, i), Run(begun, schedule));
    hide Inv, Run, Losses, Slot, OnlyAccesses, Quiet, RecvsAlone;
  }
}

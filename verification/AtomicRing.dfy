/** The lock-free bounded queue `Queue<T, N>`, as a transition system.

    One step of the system is one atomic access made by one thread: a load of `tail` or `head`,
    a compare-and-swap on a slot's state or on a position, a payload copy, or a store of a slot's
    state. Any number of threads may send and receive, and they interleave freely. Positions are
    unbounded naturals and steps are sequentially consistent.

    Three components of a state are history, never read by a step's guard: `accepted` (the
    messages in the order their `tail` compare-and-swap succeeded), `delivered` (what the consumer
    of each claimed position copied out) and `holder` (who holds a slot mid-transfer). */
module AtomicRing {
  import opened Wrappers

  type Msg(==, !new)

  datatype SlotState = Free | Writing | ReadySlot | Reading

  datatype RecvResult = Ok(msg: Msg) | Empty | Contended

  /** Where a thread is inside `try_send` or `try_recv`: the constructor names the next atomic
      access, the fields are the locals still live. `left` is `retries_left`. */
  datatype Pc =
    | Idle
    | SendLoadTail(msg: Msg, left: nat)
    | SendLoadHead(msg: Msg, left: nat, tail: nat)
    | SendClaim(msg: Msg, left: nat, tail: nat)
    | SendCommit(msg: Msg, left: nat, tail: nat)
    | SendBackOff(msg: Msg, left: nat, tail: nat)
    | SendWrite(msg: Msg, tail: nat)
    | SendPublish(tail: nat)
    | SendDone(ok: bool)
    | RecvLoadHead(left: nat)
    | RecvLoadTail(left: nat, head: nat)
    | RecvClaim(left: nat, head: nat)
    | RecvCommit(left: nat, head: nat)
    | RecvBackOff(left: nat, head: nat)
    | RecvRead(head: nat)
    | RecvRelease(head: nat, msg: Msg)
    | RecvDone(result: RecvResult)

  datatype State = State(
    n: nat,
    head: nat,
    tail: nat,
    slot: seq<SlotState>,
    cell: seq<Option<Msg>>,
    threads: seq<Pc>,
    accepted: seq<Msg>,
    delivered: seq<Option<Msg>>,
    holder: seq<Option<nat>>)

  datatype Call = Send(msg: Msg) | Recv

  /** What a scheduled thread does: begin a call when it is between calls, or take the next atomic
      access of the call it is in. A weak compare-and-swap may fail although the value matched. */
  datatype Choice = Begin(call: Call) | Access(spurious: bool)

  function Init(n: nat, threads: nat): State
    requires n >= 1
  {
    State(n, 0, 0, seq(n, _ => Free), seq(n, _ => None), seq(threads, _ => Idle), [], [], seq(n, _ => None))
  }

  predicate Resting(pc: Pc) { pc.Idle? || pc.SendDone? || pc.RecvDone? }

  predicate WellSized(s: State) {
    && s.n >= 1
    && |s.slot| == |s.cell| == |s.holder| == s.n
  }

  function Slot(n: nat, pos: nat): (k: nat)
    requires n >= 1
    ensures k < n
  {
    pos % n
  }

  function Goto(s: State, i: nat, pc: Pc): State
    requires i < |s.threads|
  {
    s.(threads := s.threads[i := pc])
  }

  /** Thread `i` moves slot `k` into transfer state `to` and now holds it. */
  function Acquire(s: State, i: nat, k: nat, to: SlotState, pc: Pc): State
    requires WellSized(s) && i < |s.threads| && k < s.n
  {
    Goto(s, i, pc).(slot := s.slot[k := to], holder := s.holder[k := Some(i)])
  }

  /** Thread `i` stores state `to` into slot `k` and lets go of it. */
  function Release(s: State, i: nat, k: nat, to: SlotState, pc: Pc): State
    requires WellSized(s) && i < |s.threads| && k < s.n
  {
    Goto(s, i, pc).(slot := s.slot[k := to], holder := s.holder[k := None])
  }

  function Begun(n: nat, call: Call): Pc {
    match call
    case Send(msg) => SendLoadTail(msg, n + 1)
    case Recv => RecvLoadHead(n + 1)
  }

  /** One atomic access by thread `i`, or the start of its next call. */
  function Step(s: State, i: nat, choice: Choice): (r: State)
    requires WellSized(s)
    ensures WellSized(r) && r.n == s.n && |r.threads| == |s.threads|
  {
    if i >= |s.threads| then s
    else match choice
      case Begin(call) => if Resting(s.threads[i]) then Goto(s, i, Begun(s.n, call)) else s
      case Access(spurious) => if InSend(s.threads[i]) then SendStep(s, i, spurious) else RecvStep(s, i, spurious)
  }

  predicate InSend(pc: Pc) {
    || pc.SendLoadTail? || pc.SendLoadHead? || pc.SendClaim? || pc.SendCommit? || pc.SendBackOff?
    || pc.SendWrite? || pc.SendPublish?
  }

  /** One atomic access of `try_send`. */
  function SendStep(s: State, i: nat, spurious: bool): State
    requires WellSized(s) && i < |s.threads| && InSend(s.threads[i])
  {
    match s.threads[i]
    case SendLoadTail(msg, left) => Goto(s, i, SendLoadHead(msg, left, s.tail))
    case SendLoadHead(msg, left, tail) =>
      // `tail.wrapping_sub(head) >= N`: a tail loaded before the head overtook it wraps to a
      // huge difference, so it counts as full as well.
      if tail < s.head || tail - s.head >= s.n then Goto(s, i, SendDone(false))
      else Goto(s, i, SendClaim(msg, left, tail))
    case SendClaim(msg, left, tail) =>
      var k := Slot(s.n, tail);
      if s.slot[k] != Free then Goto(s, i, SendDone(false))
      else Acquire(s, i, k, Writing, SendCommit(msg, left, tail))
    case SendCommit(msg, left, tail) =>
      if s.tail == tail && !spurious then
        Goto(s, i, SendWrite(msg, tail)).(tail := tail + 1, accepted := s.accepted + [msg])
      else Goto(s, i, SendBackOff(msg, left, tail))
    case SendBackOff(msg, left, tail) =>
      var next := if left <= 1 then SendDone(false) else SendLoadTail(msg, left - 1);
      Release(s, i, Slot(s.n, tail), Free, next)
    case SendWrite(msg, tail) =>
      Goto(s, i, SendPublish(tail)).(cell := s.cell[Slot(s.n, tail) := Some(msg)])
    case SendPublish(tail) => Release(s, i, Slot(s.n, tail), ReadySlot, SendDone(true))
  }

  /** One atomic access of `try_recv`; a thread between calls stays where it is. */
  function RecvStep(s: State, i: nat, spurious: bool): State
    requires WellSized(s) && i < |s.threads|
  {
    match s.threads[i]
    case RecvLoadHead(left) => Goto(s, i, RecvLoadTail(left, s.head))
    case RecvLoadTail(left, head) =>
      if head == s.tail then Goto(s, i, RecvDone(Empty)) else Goto(s, i, RecvClaim(left, head))
    case RecvClaim(left, head) =>
      var k := Slot(s.n, head);
      if s.slot[k] != ReadySlot then Goto(s, i, RecvDone(Contended))
      else Acquire(s, i, k, Reading, RecvCommit(left, head))
    case RecvCommit(left, head) =>
      if s.head == head && !spurious then
        Goto(s, i, RecvRead(head)).(head := head + 1, delivered := s.delivered + [None])
      else Goto(s, i, RecvBackOff(left, head))
    case RecvBackOff(left, head) =>
      var next := if left <= 1 then RecvDone(Contended) else RecvLoadHead(left - 1);
      Release(s, i, Slot(s.n, head), ReadySlot, next)
    case RecvRead(head) =>
      // The payload is moved out. Reading an unwritten cell would be undefined in the source;
      // here the thread would stay where it is, and `CopiesAreSound` shows it never happens.
      var k := Slot(s.n, head);
      if s.cell[k].None? || head >= |s.delivered| then s
      else Goto(s, i, RecvRelease(head, s.cell[k].value))
           .(cell := s.cell[k := None], delivered := s.delivered[head := s.cell[k]])
    case RecvRelease(head, msg) => Release(s, i, Slot(s.n, head), Free, RecvDone(Ok(msg)))
    case _ => s
  }

  /** A run: the state after an arbitrary schedule of threads and choices. */
  function Run(s: State, schedule: seq<(nat, Choice)>): (r: State)
    requires WellSized(s)
    ensures WellSized(r) && r.n == s.n
  {
    if schedule == [] then s
    else
      var prev := Run(s, schedule[..|schedule| - 1]);
      var (i, choice) := schedule[|schedule| - 1];
      Step(prev, i, choice)
  }

  /** The abstract queue: what has been accepted and not yet claimed by a consumer. */
  function Contents(s: State): seq<Msg>
    requires s.head <= s.tail == |s.accepted|
  {
    s.accepted[s.head..]
  }

  // ── The slot-ownership invariant ────────────────────────────────────────────────────────────

  /** The slot position a thread holds exclusively, if it is mid-transfer. */
  function Held(pc: Pc): Option<nat> {
    match pc
    case SendCommit(_, _, tail) => Some(tail)
    case SendBackOff(_, _, tail) => Some(tail)
    case SendWrite(_, tail) => Some(tail)
    case SendPublish(tail) => Some(tail)
    case RecvCommit(_, head) => Some(head)
    case RecvBackOff(_, head) => Some(head)
    case RecvRead(head) => Some(head)
    case RecvRelease(head, _) => Some(head)
    case _ => None
  }

  predicate HoldsForSend(pc: Pc) { pc.SendCommit? || pc.SendBackOff? || pc.SendWrite? || pc.SendPublish? }

  /** What a thread's locals say about the shared state. */
  predicate LocalOk(s: State, pc: Pc)
    requires WellSized(s) && s.head <= s.tail == |s.accepted| && |s.delivered| == s.head
  {
    match pc
    case SendLoadTail(_, left) => 1 <= left <= s.n + 1
    case SendLoadHead(_, left, tail) => 1 <= left <= s.n + 1 && tail <= s.tail
    case SendClaim(_, left, tail) => 1 <= left <= s.n + 1 && tail <= s.tail && tail < s.head + s.n
    case SendCommit(_, left, tail) =>
      1 <= left <= s.n + 1 && tail <= s.tail && tail < s.head + s.n && s.cell[Slot(s.n, tail)] == None
    case SendBackOff(_, left, tail) =>
      1 <= left <= s.n + 1 && tail <= s.tail && s.cell[Slot(s.n, tail)] == None
    case SendWrite(msg, tail) =>
      s.head <= tail < s.tail && s.accepted[tail] == msg && s.cell[Slot(s.n, tail)] == None
    case SendPublish(tail) =>
      s.head <= tail < s.tail && s.cell[Slot(s.n, tail)] == Some(s.accepted[tail])
    case RecvLoadHead(left) => 1 <= left <= s.n + 1
    case RecvLoadTail(left, head) => 1 <= left <= s.n + 1 && head <= s.head
    case RecvClaim(left, head) => 1 <= left <= s.n + 1 && head <= s.head && head < s.tail
    case RecvCommit(left, head) => 1 <= left <= s.n + 1 && head <= s.head && head < s.tail
    case RecvBackOff(left, head) => 1 <= left <= s.n + 1 && head <= s.head && head < s.tail
    case RecvRead(head) =>
      head < s.head && s.delivered[head] == None && s.cell[Slot(s.n, head)] == Some(s.accepted[head])
    case RecvRelease(head, msg) =>
      head < s.head && s.delivered[head] == Some(msg) == Some(s.accepted[head]) && s.cell[Slot(s.n, head)] == None
    case RecvDone(Ok(msg)) => msg in s.accepted
    case _ => true
  }

  predicate Bounds(s: State) {
    && WellSized(s)
    && s.head <= s.tail <= s.head + s.n
    && |s.accepted| == s.tail
    && |s.delivered| == s.head
  }

  /** A thread's locals are right, and a slot it is transferring is recorded as its own. */
  predicate ThreadOk(s: State, i: nat)
    requires Bounds(s) && i < |s.threads|
  {
    && LocalOk(s, s.threads[i])
    && (Held(s.threads[i]).Some? ==> s.holder[Slot(s.n, Held(s.threads[i]).value)] == Some(i))
  }

  /** Slot `k` belongs to a queued position. */
  ghost predicate Occupied(s: State, k: nat)
    requires s.n >= 1
  {
    exists p: nat :: s.head <= p < s.tail && Slot(s.n, p) == k
  }

  /** A slot in transfer is held by exactly the thread `holder` names, in the matching direction;
      a slot not in transfer is Free and carries nothing, or is Ready and belongs to a queued
      position. */
  ghost predicate SlotOk(s: State, k: nat)
    requires Bounds(s) && k < s.n
  {
    match s.holder[k]
    case None => (s.slot[k] == Free && s.cell[k] == None) || (s.slot[k] == ReadySlot && Occupied(s, k))
    case Some(i) =>
      && i < |s.threads|
      && Held(s.threads[i]).Some?
      && Slot(s.n, Held(s.threads[i]).value) == k
      && (s.slot[k] == if HoldsForSend(s.threads[i]) then Writing else Reading)
      && (s.threads[i].RecvCommit? || s.threads[i].RecvBackOff? ==> Occupied(s, k))
  }

  /** A queued position's slot is never Free. It is being written by the one producer granted the
      position, or it carries exactly the accepted message. */
  predicate QueuedOk(s: State, p: nat)
    requires Bounds(s) && p < s.tail
  {
    var k := Slot(s.n, p);
    match s.holder[k]
    case None => s.slot[k] == ReadySlot && s.cell[k] == Some(s.accepted[p])
    case Some(i) =>
      && i < |s.threads|
      && var pc := s.threads[i];
         || ((pc.SendWrite? || pc.SendPublish?) && pc.tail == p)
         || ((pc.RecvCommit? || pc.RecvBackOff?) && s.cell[k] == Some(s.accepted[p]))
  }

  /** A claimed position has been copied out, or its one consumer is about to copy it. */
  predicate ClaimedOk(s: State, p: nat)
    requires Bounds(s) && p < s.head
  {
    if s.delivered[p].Some? then s.delivered[p] == Some(s.accepted[p])
    else
      var h := s.holder[Slot(s.n, p)];
      h.Some? && h.value < |s.threads| && s.threads[h.value] == RecvRead(p)
  }

  ghost predicate Inv(s: State) {
    && Bounds(s)
    && (forall i: nat :: i < |s.threads| ==> ThreadOk(s, i))
    && (forall k: nat :: k < s.n ==> SlotOk(s, k))
    && (forall p: nat :: s.head <= p < s.tail ==> QueuedOk(s, p))
    && (forall p: nat :: p < s.head ==> ClaimedOk(s, p))
  }

  /** Two positions less than a lap apart that share a slot are the same position. */
  lemma SameSlot(n: nat, p: nat, q: nat)
    requires n >= 1 && Slot(n, p) == Slot(n, q) && p < q + n && q < p + n
    ensures p == q
  {
    var laps: int := q / n - p / n;
    assert q - p == n * laps by {
      assert p == n * (p / n) + p % n;
      assert q == n * (q / n) + q % n;
    }
    assert laps >= 1 ==> n * laps >= n;
    assert laps <= -1 ==> n * laps <= 0 - n;
  }

  lemma InitInv(n: nat, threads: nat)
    requires n >= 1
    ensures Inv(Init(n, threads))
  {
  }

  /** A step that only moves thread `i` on, neither taking nor dropping a slot. */
  lemma GotoInv(s: State, i: nat, pc: Pc)
    requires Inv(s) && i < |s.threads| && Held(s.threads[i]).None? && Held(pc).None? && LocalOk(s, pc)
    ensures Inv(Goto(s, i, pc))
  {
    hide Slot;
    var s' := Goto(s, i, pc);
    forall j: nat | j < |s'.threads| ensures ThreadOk(s', j) { assert ThreadOk(s, j); }
    forall k: nat | k < s.n ensures SlotOk(s', k) { assert SlotOk(s, k); }
    forall p: nat | s.head <= p < s.tail ensures QueuedOk(s', p) { assert QueuedOk(s, p); }
    forall p: nat | p < s.head ensures ClaimedOk(s', p) { assert ClaimedOk(s, p); }
  }

  /** Winning a slot that nobody holds. */
  lemma AcquireInv(s: State, i: nat, pos: nat, to: SlotState, pc: Pc)
    requires Inv(s) && i < |s.threads| && Held(s.threads[i]).None? && Held(pc) == Some(pos)
    requires (to == Writing && pc.SendCommit? && s.slot[Slot(s.n, pos)] == Free)
          || (to == Reading && pc.RecvCommit? && s.slot[Slot(s.n, pos)] == ReadySlot)
    requires s.cell[Slot(s.n, pos)] == None || pc.RecvCommit? ==> LocalOk(s, pc)
    ensures Inv(Acquire(s, i, Slot(s.n, pos), to, pc))
  {
    hide Slot;
    var k0 := Slot(s.n, pos);
    var s' := Acquire(s, i, k0, to, pc);
    assert SlotOk(s, k0);
    forall j: nat | j < |s'.threads| ensures ThreadOk(s', j) { assert ThreadOk(s, j); }
    forall k: nat | k < s.n ensures SlotOk(s', k) { assert SlotOk(s, k); }
    forall p: nat | s.head <= p < s.tail ensures QueuedOk(s', p) { assert QueuedOk(s, p); }
    forall p: nat | p < s.head ensures ClaimedOk(s', p) { assert ClaimedOk(s, p); }
  }

  /** Storing a slot's resting state and letting go of it. */
  lemma ReleaseInv(s: State, i: nat, pos: nat, to: SlotState, pc: Pc)
    requires Inv(s) && i < |s.threads| && Held(s.threads[i]) == Some(pos) && Held(pc) == None && LocalOk(s, pc)
    requires to == (if s.threads[i].SendPublish? || s.threads[i].RecvBackOff? then ReadySlot else Free)
    requires !s.threads[i].SendCommit? && !s.threads[i].SendWrite? && !s.threads[i].RecvCommit?
      && !s.threads[i].RecvRead?
    ensures Inv(Release(s, i, Slot(s.n, pos), to, pc))
  {
    hide Slot;
    var k0 := Slot(s.n, pos);
    var s' := Release(s, i, k0, to, pc);
    assert ThreadOk(s, i);
    forall j: nat | j < |s'.threads| ensures ThreadOk(s', j) { assert ThreadOk(s, j); }
    forall k: nat | k < s.n ensures SlotOk(s', k) { assert SlotOk(s, k); }
    forall p: nat | s.head <= p < s.tail ensures QueuedOk(s', p) {
      assert QueuedOk(s, p) && SlotOk(s, Slot(s.n, p));
    }
    forall p: nat | p < s.head ensures ClaimedOk(s', p) { assert ClaimedOk(s, p); }
  }

  /** The producer's commit: `tail` moves on, and the held slot becomes the new position's. */
  lemma SendCommitInv(s: State, i: nat)
    requires Inv(s) && i < |s.threads| && s.threads[i].SendCommit? && s.threads[i].tail == s.tail
    ensures Inv(SendStep(s, i, false))
  {
    hide Slot;
    var t := s.tail;
    var s' := SendStep(s, i, false);
    assert ThreadOk(s, i);
    forall j: nat | j < |s'.threads| ensures ThreadOk(s', j) { assert ThreadOk(s, j); }
    forall k: nat | k < s.n ensures SlotOk(s', k) { assert SlotOk(s, k); }
    forall p: nat | s.head <= p < s'.tail ensures QueuedOk(s', p) {
      if p < t { assert QueuedOk(s, p); }
    }
    forall p: nat | p < s.head ensures ClaimedOk(s', p) { assert ClaimedOk(s, p); }
  }

  /** The consumer's commit: `head` moves on, and the held slot leaves the queue. */
  lemma RecvCommitInv(s: State, i: nat)
    requires Inv(s) && i < |s.threads| && s.threads[i].RecvCommit? && s.threads[i].head == s.head
    ensures Inv(RecvStep(s, i, false))
  {
    hide Slot;
    var h := s.head;
    var s' := RecvStep(s, i, false);
    assert ThreadOk(s, i) && QueuedOk(s, h);
    forall j: nat | j < |s'.threads| ensures ThreadOk(s', j) { assert ThreadOk(s, j); }
    forall k: nat | k < s.n ensures SlotOk(s', k) { assert SlotOk(s, k); }
    forall p: nat | s'.head <= p < s.tail ensures QueuedOk(s', p) {
      assert QueuedOk(s, p) && SlotOk(s, Slot(s.n, p));
      if Slot(s.n, p) == Slot(s.n, h) { SameSlot(s.n, p, h); }
    }
    forall p: nat | p < s'.head ensures ClaimedOk(s', p) {
      if p < h { assert ClaimedOk(s, p); }
    }
  }

  /** A lost or spuriously failed commit: the slot is still held, for the back-off. */
  lemma BackOffInv(s: State, i: nat)
    requires Inv(s) && i < |s.threads|
    requires s.threads[i].SendCommit? || s.threads[i].RecvCommit?
    ensures
      var pc := s.threads[i];
      Inv(Goto(s, i, if pc.SendCommit? then SendBackOff(pc.msg, pc.left, pc.tail) else RecvBackOff(pc.left, pc.head)))
  {
    hide Slot;
    var pc := s.threads[i];
    var held := if pc.SendCommit? then SendBackOff(pc.msg, pc.left, pc.tail) else RecvBackOff(pc.left, pc.head);
    var s' := Goto(s, i, held);
    assert ThreadOk(s, i);
    forall j: nat | j < |s'.threads| ensures ThreadOk(s', j) { assert ThreadOk(s, j); }
    forall k: nat | k < s.n ensures SlotOk(s', k) { assert SlotOk(s, k); }
    forall p: nat | s.head <= p < s.tail ensures QueuedOk(s', p) { assert QueuedOk(s, p); }
    forall p: nat | p < s.head ensures ClaimedOk(s', p) { assert ClaimedOk(s, p); }
  }

  /** The payload copied in, under exclusive hold of the slot. */
  lemma CopyInInv(s: State, i: nat, spurious: bool)
    requires Inv(s) && i < |s.threads| && s.threads[i].SendWrite?
    ensures Inv(SendStep(s, i, spurious))
  {
    hide Slot;
    var s' := SendStep(s, i, spurious);
    assert ThreadOk(s, i);
    forall j: nat | j < |s'.threads| ensures ThreadOk(s', j) { assert ThreadOk(s, j); }
    forall k: nat | k < s.n ensures SlotOk(s', k) { assert SlotOk(s, k); }
    forall p: nat | s.head <= p < s.tail ensures QueuedOk(s', p) { assert QueuedOk(s, p); }
    forall p: nat | p < s.head ensures ClaimedOk(s', p) { assert ClaimedOk(s, p); }
  }

  /** The payload moved out, under exclusive hold of the slot. */
  lemma CopyOutInv(s: State, i: nat, spurious: bool)
    requires Inv(s) && i < |s.threads| && s.threads[i].RecvRead?
    ensures Inv(RecvStep(s, i, spurious))
  {
    hide Slot;
    var s' := RecvStep(s, i, spurious);
    assert ThreadOk(s, i);
    forall j: nat | j < |s'.threads| ensures ThreadOk(s', j) { assert ThreadOk(s, j); }
    forall k: nat | k < s.n ensures SlotOk(s', k) { assert SlotOk(s, k); }
    forall p: nat | s.head <= p < s.tail ensures QueuedOk(s', p) { assert QueuedOk(s, p); }
    forall p: nat | p < s.head ensures ClaimedOk(s', p) { assert ClaimedOk(s, p); }
  }

  lemma SendStepInv(s: State, i: nat, spurious: bool)
    requires Inv(s) && i < |s.threads| && InSend(s.threads[i])
    ensures Inv(SendStep(s, i, spurious))
  {
    hide Slot, QueuedOk, ClaimedOk;
    assert ThreadOk(s, i);
    var pc := s.threads[i];
    match pc
    case SendLoadTail(msg, left) => GotoInv(s, i, SendLoadHead(msg, left, s.tail));
    case SendLoadHead(_, _, _) => GotoInv(s, i, SendStep(s, i, spurious).threads[i]);
    case SendClaim(msg, left, tail) =>
      assert SlotOk(s, Slot(s.n, tail));
      if s.slot[Slot(s.n, tail)] == Free {
        AcquireInv(s, i, tail, Writing, SendCommit(msg, left, tail));
      } else {
        GotoInv(s, i, SendDone(false));
      }
    case SendCommit(_, _, tail) =>
      if s.tail == tail && !spurious { SendCommitInv(s, i); } else { BackOffInv(s, i); }
    case SendBackOff(_, _, tail) => ReleaseInv(s, i, tail, Free, SendStep(s, i, spurious).threads[i]);
    case SendWrite(_, _) => CopyInInv(s, i, spurious);
    case SendPublish(tail) => ReleaseInv(s, i, tail, ReadySlot, SendDone(true));
  }

  lemma RecvStepInv(s: State, i: nat, spurious: bool)
    requires Inv(s) && i < |s.threads| && !InSend(s.threads[i])
    ensures Inv(RecvStep(s, i, spurious))
  {
    hide Slot, QueuedOk, ClaimedOk;
    assert ThreadOk(s, i);
    var pc := s.threads[i];
    match pc
    case RecvLoadHead(left) => GotoInv(s, i, RecvLoadTail(left, s.head));
    case RecvLoadTail(_, _) => GotoInv(s, i, RecvStep(s, i, spurious).threads[i]);
    case RecvClaim(left, head) =>
      assert SlotOk(s, Slot(s.n, head));
      if s.slot[Slot(s.n, head)] == ReadySlot {
        AcquireInv(s, i, head, Reading, RecvCommit(left, head));
      } else {
        GotoInv(s, i, RecvDone(Contended));
      }
    case RecvCommit(_, head) =>
      if s.head == head && !spurious { RecvCommitInv(s, i); } else { BackOffInv(s, i); }
    case RecvBackOff(_, head) => ReleaseInv(s, i, head, ReadySlot, RecvStep(s, i, spurious).threads[i]);
    case RecvRead(_) => CopyOutInv(s, i, spurious);
    case RecvRelease(head, msg) => ReleaseInv(s, i, head, Free, RecvDone(Ok(msg)));
    case _ =>
  }

  lemma StepInv(s: State, i: nat, choice: Choice)
    requires Inv(s)
    ensures Inv(Step(s, i, choice))
  {
    hide SlotOk, QueuedOk, ClaimedOk;
    if i < |s.threads| {
      match choice
      case Begin(call) =>
        if Resting(s.threads[i]) { GotoInv(s, i, Begun(s.n, call)); }
      case Access(spurious) =>
        if InSend(s.threads[i]) { SendStepInv(s, i, spurious); } else { RecvStepInv(s, i, spurious); }
    }
  }
}

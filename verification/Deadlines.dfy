/** The arithmetic of timeouts: `Deadline` of the queue API, which saturates, and the kernel's
    `deadline_for` and `remaining_for`, which wrap. Ticks are `u64` milliseconds, timeouts `u32`;
    `u32::MAX` asks to wait forever, and the kernel writes "forever" as deadline 0. */
module Deadlines {
  import opened Wrappers

  const U32_MAX: nat := 0xFFFF_FFFF
  const U64_MAX: nat := 0xFFFF_FFFF_FFFF_FFFF
  const FOREVER: Millis := U32_MAX

  type Millis = n: nat | n <= U32_MAX
  type Ticks = n: nat | n <= U64_MAX

  function WrappingAdd(a: Ticks, b: Ticks): Ticks { (a + b) % (U64_MAX + 1) }

  function SaturatingAdd(a: Ticks, b: Ticks): Ticks { if a + b > U64_MAX then U64_MAX else a + b }

  function Clamp(ticks: Ticks): Millis { if ticks < U32_MAX then ticks else U32_MAX }

  // ── Kernel side ─────────────────────────────────────────────────────────────────────────────

  function DeadlineFor(timeout: Millis, now: Ticks): Ticks {
    if timeout == FOREVER then 0
    else
      var at := WrappingAdd(now, timeout);
      if at > 1 then at else 1
  }

  function RemainingFor(deadline: Ticks, now: Ticks): Option<Millis> {
    if deadline == 0 then Some(FOREVER)
    else if now >= deadline then None
    else Some(Clamp(deadline - now))
  }

  // ── API side ────────────────────────────────────────────────────────────────────────────────

  /** `at` is None for "wait forever". */
  datatype Deadline = Deadline(at: Option<Ticks>)

  function NewDeadline(timeout: Millis, now: Ticks): Deadline {
    if timeout == FOREVER then Deadline(None) else Deadline(Some(SaturatingAdd(now, timeout)))
  }

  function RemainingMs(d: Deadline, now: Ticks): Option<Millis> {
    match d.at
    case None => Some(FOREVER)
    case Some(at) => if now >= at then None else Some(Clamp(at - now))
  }

  // ── What they promise ───────────────────────────────────────────────────────────────────────

  /** Re-arming with what is left restores an unexpired deadline, exactly when what is left fits below
      the "forever" sentinel; otherwise the kernel is asked to wait forever. */
  lemma RemainingRestoresDeadline(at: Ticks, now: Ticks)
    requires now < at
    ensures RemainingFor(at, now).Some?
    ensures DeadlineFor(RemainingFor(at, now).value, now) == at <==> at - now < U32_MAX
    ensures at - now >= U32_MAX ==> DeadlineFor(RemainingFor(at, now).value, now) == 0
  {
    var left := RemainingFor(at, now).value;
    if left < U32_MAX { assert WrappingAdd(now, left) == at; }
  }

  /** What the kernel arms: nothing for a wait without end, otherwise the tick at which the timeout is over,
      wrapped around where it does not fit, and never 0. */
  lemma KernelDeadline(timeout: Millis, now: Ticks)
    ensures DeadlineFor(timeout, now) == 0 <==> timeout == 0xFFFF_FFFF
    ensures timeout != 0xFFFF_FFFF ==>
              var at := now + timeout;
              DeadlineFor(timeout, now) ==
                if at == 0 then 1 else if at < 0x1_0000_0000_0000_0000 then at
                else if at == 0x1_0000_0000_0000_0000 then 1 else at - 0x1_0000_0000_0000_0000
  {
    if now + timeout > U64_MAX { WrapsOnce(now + timeout - (U64_MAX + 1)); }
  }

  lemma WrapsOnce(over: nat)
    requires over <= U64_MAX
    ensures (over + (U64_MAX + 1)) % (U64_MAX + 1) == over
  {
    assert (over + (U64_MAX + 1)) % (U64_MAX + 1) == over % (U64_MAX + 1);
  }

  /** In the kernel too a finite wait has at any later reading just what is left of it, and is over exactly from
      its deadline on; a wait without end never is. */
  lemma KernelRemaining(timeout: Millis, start: Ticks, now: Ticks)
    requires start <= now && start + timeout <= U64_MAX
    ensures
      var left := RemainingFor(DeadlineFor(timeout, start), now);
      if timeout == 0xFFFF_FFFF then left == Some(0xFFFF_FFFF)
      else if start + timeout == 0 then left == if now >= 1 then None else Some(1)
      else left == if now >= start + timeout then None else Some(start + timeout - now)
  {
    KernelDeadline(timeout, start);
    hide WrappingAdd;
  }

  /** The two deadlines for one finite timeout are the same tick exactly when the sum neither is zero
      nor overflows. Past the overflow the API waits on and the kernel has already expired. */
  lemma DeadlinesAgree(timeout: Millis, now: Ticks)
    requires timeout != FOREVER
    ensures NewDeadline(timeout, now).at == Some(DeadlineFor(timeout, now)) <==> 0 < now + timeout <= U64_MAX
    ensures now + timeout > U64_MAX && now >= U32_MAX ==> RemainingFor(DeadlineFor(timeout, now), now) == None
  {
    if now + timeout > U64_MAX {
      var over := now + timeout - (U64_MAX + 1);
      WrapsOnce(over);
      assert WrappingAdd(now, timeout) == over;
    }
  }

  /** At any later reading a finite wait has between 1 and `u32::MAX - 1` milliseconds left, never
      more than was asked for, and expires exactly at its anchor: it cannot turn into "forever". */
  lemma RemainingIsFinite(timeout: Millis, start: Ticks, now: Ticks)
    requires timeout != FOREVER && start <= now
    ensures
      var left := RemainingMs(NewDeadline(timeout, start), now);
      var anchor := if start + timeout < 0x1_0000_0000_0000_0000 then start + timeout else 0xFFFF_FFFF_FFFF_FFFF;
      && (left.None? <==> now >= anchor)
      && (left.Some? ==> 1 <= left.value < U32_MAX && left.value <= timeout)
      && (left.Some? ==> now + left.value == anchor)
  {
  }

  /** What one turn arms: the original anchor, shifted by the delay between reading the clock and arming. */
  lemma RearmsAtAnchor(timeout: Millis, start: Ticks, read: Ticks, armedAt: Ticks)
    requires timeout != FOREVER && start <= read <= armedAt && armedAt + timeout <= U64_MAX
    ensures
      var left := RemainingMs(NewDeadline(timeout, start), read);
      && (left.None? <==> read >= start + timeout)
      && (left.Some? ==> DeadlineFor(left.value, armedAt) == start + timeout + (armedAt - read))
  {
  }

  lemma ForeverStaysForever(start: Ticks, read: Ticks, armedAt: Ticks)
    ensures RemainingMs(NewDeadline(FOREVER, start), read) == Some(FOREVER) && DeadlineFor(FOREVER, armedAt) == 0
  {
  }

  /** One turn of the retry loop, as the environment decides it: the clock when the remaining time is
      taken, the clock when the kernel arms the wait, whether the wait was woken, and whether the retry
      then succeeded. */
  datatype Turn = Turn(read: Ticks, armedAt: Ticks, woken: bool, succeeded: bool)

  /** The clock never runs backwards. */
  predicate Monotone(start: Ticks, turns: seq<Turn>) {
    && (forall i :: 0 <= i < |turns| ==> start <= turns[i].read <= turns[i].armedAt)
    && (forall i, j :: 0 <= i < j < |turns| ==> turns[i].armedAt <= turns[j].read)
  }

  /** `send` and `recv`: `immediate` says whether the first try succeeded. `armed` collects the
      deadlines the kernel is given; the call answers None when it is still waiting after the given
      turns. However often the wait is woken for nothing, every deadline lies at the original anchor,
      plus only the delay between reading the clock and arming that one wait. */
  method BlockingCall(immediate: bool, timeout: Millis, start: Ticks, turns: seq<Turn>)
    returns (answer: Option<bool>, armed: seq<Ticks>)
    requires Monotone(start, turns)
    requires timeout != FOREVER ==> forall i :: 0 <= i < |turns| ==> turns[i].armedAt + timeout <= U64_MAX
    ensures |armed| <= |turns|
    ensures immediate ==> answer == Some(true) && armed == []
    ensures !immediate && timeout == 0 ==> answer == Some(false) && armed == []
    ensures timeout == FOREVER ==> forall i :: 0 <= i < |armed| ==> armed[i] == 0
    ensures timeout != FOREVER ==> forall i :: 0 <= i < |armed| ==>
              turns[i].read < start + timeout && armed[i] == start + timeout + (turns[i].armedAt - turns[i].read)
    ensures answer == Some(true) && !immediate ==>
      |armed| > 0 && turns[|armed| - 1].woken && turns[|armed| - 1].succeeded
    ensures answer == Some(false) && timeout != 0 ==>
              || (|armed| > 0 && !turns[|armed| - 1].woken)
              || (timeout != FOREVER && |armed| < |turns| && turns[|armed|].read >= start + timeout)
    ensures answer == None ==>
              |armed| == |turns| && forall i :: 0 <= i < |armed| ==> turns[i].woken && !turns[i].succeeded
    ensures forall i :: 0 <= i < |armed| - 1 ==> turns[i].woken && !turns[i].succeeded
  {
    hide DeadlineFor, WrappingAdd, SaturatingAdd;
    if immediate { return Some(true), []; }
    if timeout == 0 { return Some(false), []; }
    var deadline := NewDeadline(timeout, start);
    armed := [];
    var n := 0;
    while n < |turns|
      invariant 0 <= n <= |turns| && |armed| == n
      invariant timeout == FOREVER ==> forall i :: 0 <= i < n ==> armed[i] == 0
      invariant timeout != FOREVER ==> forall i :: 0 <= i < n ==>
                  turns[i].read < start + timeout && armed[i] == start + timeout + (turns[i].armedAt - turns[i].read)
      invariant forall i :: 0 <= i < n ==> turns[i].woken && !turns[i].succeeded
    {
      var turn := turns[n];
      if timeout == FOREVER {
        ForeverStaysForever(start, turn.read, turn.armedAt);
      } else {
        RearmsAtAnchor(timeout, start, turn.read, turn.armedAt);
      }
      var left := RemainingMs(deadline, turn.read);
      if left.None? { return Some(false), armed; }
      armed := armed + [DeadlineFor(left.value, turn.armedAt)];
      if !turn.woken { return Some(false), armed; }
      if turn.succeeded { return Some(true), armed; }
      n := n + 1;
    }
    return None, armed;
  }
}

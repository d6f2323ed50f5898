/** The objects of `dynobj` that are updated in place, and the part of each operation that runs inside
    the critical section. What these updates mean for the callers that wait is proved in `BlockingObjects.dfy`
    and `EventGroups.dfy`; the bytes of a queue are in `ByteQueues.dfy`. */
module DynObjects {
  import opened Wrappers
  import opened Tasks
  import opened BitMasks
  import opened BlockingObjects
  import EventGroups
  import GroupBits

  class CountingSemaphore {
    var count: nat
    const max: nat

    ghost predicate Valid()
      reads this
    {
      ObjectOk(View())
    }

    ghost function View(): Object
      reads this
    {
      Semaphore(count, max)
    }

    constructor (max: nat, initial: nat)
      requires initial <= max
      ensures Valid() && View() == Semaphore(initial, max)
    {
      count, this.max := initial, max;
    }

    static method Create(max: nat, initial: nat) returns (s: Option<CountingSemaphore>)
      ensures s.None? <==> max == 0 || initial > max
      ensures s.Some? ==> fresh(s.value) && s.value.Valid() && s.value.View() == Semaphore(initial, max)
    {
      if max == 0 || initial > max { return None; }
      var made := new CountingSemaphore(max, initial);
      return Some(made);
    }

    /** `try_take`, and the test of `take`. */
    method TryTake(me: nat) returns (got: bool)
      requires Valid()
      modifies this`count
      ensures Valid()
      ensures Claim(old(View()), Take, me) == if got then Some(View()) else None
      ensures got <==> old(count) > 0
      ensures count == old(count) - if got then 1 else 0
    {
      if count == 0 { return false; }
      count := count - 1;
      return true;
    }

    /** The increment of `give`; refused at the ceiling. */
    method Return() returns (made: bool)
      requires Valid()
      modifies this`count
      ensures Valid() && made == (old(count) < max) && count == old(count) + if made then 1 else 0
      ensures Available(View(), false) == Available(old(View()), false) + if made then 1 else 0
    {
      if count >= max { return false; }
      count := count + 1;
      return true;
    }
  }

  class OwnedMutex {
    var owner: nat
    var depth: nat

    ghost predicate Valid()
      reads this
    {
      ObjectOk(View())
    }

    ghost function View(): Object
      reads this
    {
      RecursiveMutex(owner, depth)
    }

    constructor ()
      ensures Valid() && View() == RecursiveMutex(NO_TASK, 0)
    {
      owner, depth := NO_TASK, 0;
    }

    method TryLock(me: nat) returns (held: bool)
      requires Valid() && me < MAX_TASKS
      modifies this
      ensures Valid()
      ensures Claim(old(View()), Acquire, me) == if held then Some(View()) else None
      ensures held <==> old(owner) == NO_TASK || old(owner) == me
      ensures held ==> owner == me && depth == if old(owner) == me then old(depth) + 1 else 1
      ensures !held ==> View() == old(View())
    {
      if owner == NO_TASK {
        owner := me;
        depth := 1;
        return true;
      }
      if owner == me {
        depth := depth + 1;
        return true;
      }
      return false;
    }

    /** One level less; `released` when that frees the mutex, which is when a waiter must be woken. */
    method Unlock(me: nat) returns (ok: bool, released: bool)
      requires Valid() && me < MAX_TASKS
      modifies this
      ensures Valid() && ok == (old(owner) == me)
      ensures !ok ==> View() == old(View()) && !released
      ensures ok ==> depth == old(depth) - 1 && released == (depth == 0)
      ensures ok ==> owner == if released then NO_TASK else me
      ensures Available(View(), false) == Available(old(View()), false) + if released then 1 else 0
    {
      if owner != me || depth == 0 { return false, false; }
      depth := depth - 1;
      if depth == 0 {
        owner := NO_TASK;
        return true, true;
      }
      return true, false;
    }
  }

  class EventBits {
    var bits: bv32

    constructor ()
      ensures bits == 0
    {
      bits := 0;
    }

    /** The update of `set`: the given bits are there afterwards besides those that were, and no others. */
    method Set(more: bv32) returns (after: bv32)
      modifies this
      ensures after == bits == EventGroups.With(old(bits), EventGroups.Usable(more))
      ensures SetsBits(old(bits), Low(more), bits)
    {
      hide EventGroups.With, EventGroups.Usable, SetsBits, Low;
      GroupBits.WithSets(bits, more);
      bits := EventGroups.With(bits, EventGroups.Usable(more));
      return bits;
    }

    /** The update of `clear`: exactly the given bits go. */
    method Clear(fewer: bv32) returns (before: bv32)
      modifies this
      ensures before == old(bits) && bits == EventGroups.Without(old(bits), EventGroups.Usable(fewer))
      ensures TakesBits(old(bits), Low(fewer), bits)
    {
      hide EventGroups.Without, EventGroups.Usable, TakesBits, Low;
      GroupBits.WithoutTakes(bits, fewer);
      before := bits;
      bits := EventGroups.Without(bits, EventGroups.Usable(fewer));
    }

    /** The test of `wait`: the bits it was satisfied by, taken away if the caller asked for that. */
    method Take(wanted: bv32, all: bool, clearOnExit: bool) returns (got: Option<bv32>)
      modifies this
      ensures got == if EventGroups.Satisfied(old(bits), wanted, all) then Some(old(bits)) else None
      ensures bits == if got.Some? && clearOnExit then EventGroups.Without(old(bits), wanted) else old(bits)
      ensures got == if Meets(old(bits), wanted, all) then Some(old(bits)) else None
      ensures if got.Some? && clearOnExit then TakesBits(old(bits), wanted, bits) else bits == old(bits)
    {
      hide EventGroups.Satisfied, EventGroups.Without, Meets, TakesBits;
      EventGroups.SatisfiedMeets(bits, wanted, all);
      GroupBits.WithoutTakes(bits, wanted);
      if !EventGroups.Satisfied(bits, wanted, all) { return None; }
      got := Some(bits);
      if clearOnExit { bits := EventGroups.Without(bits, wanted); }
    }
  }
}

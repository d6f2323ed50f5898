/** `DynQueue`: a ring of `capacity` records of `itemSize` opaque bytes each, in one flat buffer. It
    is a bounded double-ended sequence of byte strings. */
module ByteQueues {
  import opened Arithmetic
  import opened Wrappers

  /** `usize` of the 32-bit targets, where `checked_mul` overflows. */
  const USIZE_MAX: nat := 0xFFFF_FFFF

  /** Where the slot `offset` places after `slot` lies in a ring of `capacity` slots. */
  function Around(slot: nat, offset: nat, capacity: nat): nat
    requires slot < capacity && offset <= capacity
  {
    if slot + offset < capacity then slot + offset else slot + offset - capacity
  }

  lemma AroundIsMod(slot: nat, offset: nat, capacity: nat)
    requires slot < capacity && offset <= capacity
    ensures Around(slot, offset, capacity) == (slot + offset) % capacity
  {
    if slot + offset < capacity {
      DivUnique(slot + offset, capacity, 0, slot + offset);
    } else {
      DivUnique(slot + offset, capacity, 1, slot + offset - capacity);
    }
  }

  /** The flat range of one slot lies in the buffer. */
  lemma SlotInside(slot: nat, capacity: nat, itemSize: nat)
    requires slot < capacity
    ensures slot * itemSize + itemSize <= capacity * itemSize
  {
    assert (slot + 1) * itemSize <= capacity * itemSize;
  }

  /** Two slots share no byte. */
  lemma SlotsApart(a: nat, b: nat, itemSize: nat)
    requires a < b
    ensures a * itemSize + itemSize <= b * itemSize
  {
    assert (a + 1) * itemSize <= b * itemSize;
  }

  /** The record in one slot. */
  function Record(bytes: seq<bv8>, slot: nat, capacity: nat, itemSize: nat): seq<bv8>
    requires slot < capacity && |bytes| == capacity * itemSize
  {
    SlotInside(slot, capacity, itemSize);
    bytes[slot * itemSize..slot * itemSize + itemSize]
  }

  /** The records from the head on. */
  function Records(bytes: seq<bv8>, head: nat, len: nat, capacity: nat, itemSize: nat): (r: seq<seq<bv8>>)
    requires head < capacity && len <= capacity && |bytes| == capacity * itemSize
    ensures |r| == len
  {
    seq(len, i requires 0 <= i < len => Record(bytes, Around(head, i, capacity), capacity, itemSize))
  }

  /** Writing one slot changes that slot's record and no other. */
  ghost predicate Wrote(before: seq<bv8>, after: seq<bv8>, slot: nat, capacity: nat, itemSize: nat, item: seq<bv8>)
    requires slot < capacity && |before| == |after| == capacity * itemSize && |item| == itemSize
  {
    && Record(after, slot, capacity, itemSize) == item
    && forall other: nat :: other < capacity && other != slot ==>
         Record(after, other, capacity, itemSize) == Record(before, other, capacity, itemSize)
  }

  lemma WroteOneSlot(before: seq<bv8>, after: seq<bv8>, slot: nat, capacity: nat, itemSize: nat, item: seq<bv8>)
    requires slot < capacity && |before| == |after| == capacity * itemSize && |item| == itemSize
    requires slot * itemSize + itemSize <= |before|
    requires after == before[..slot * itemSize] + item + before[slot * itemSize + itemSize..]
    ensures Wrote(before, after, slot, capacity, itemSize, item)
  {
    forall other: nat | other < capacity && other != slot
      ensures Record(after, other, capacity, itemSize) == Record(before, other, capacity, itemSize)
    {
      SlotInside(other, capacity, itemSize);
      if other < slot { SlotsApart(other, slot, itemSize); } else { SlotsApart(slot, other, itemSize); }
    }
  }

  lemma RecordsAfterAppend(before: seq<bv8>, after: seq<bv8>, head: nat, len: nat, capacity: nat, itemSize: nat,
      item: seq<bv8>)
    requires head < capacity && len < capacity && |before| == |after| == capacity * itemSize && |item| == itemSize
    requires Wrote(before, after, Around(head, len, capacity), capacity, itemSize, item)
    ensures Records(after, head, len + 1, capacity, itemSize) == Records(before, head, len, capacity, itemSize) + [item]
  {
    hide Record;
    forall i: nat | i < len
      ensures Records(after, head, len + 1, capacity, itemSize)[i] == Records(before, head, len, capacity, itemSize)[i]
    {
      assert Around(head, i, capacity) != Around(head, len, capacity);
    }
  }

  lemma RecordsAfterPrepend(before: seq<bv8>, after: seq<bv8>, head: nat, len: nat, capacity: nat, itemSize: nat,
      item: seq<bv8>)
    requires head < capacity && len < capacity && |before| == |after| == capacity * itemSize && |item| == itemSize
    requires
      var front := if head == 0 then capacity - 1 else head - 1;
      Wrote(before, after, front, capacity, itemSize, item)
    ensures
      var front := if head == 0 then capacity - 1 else head - 1;
      Records(after, front, len + 1, capacity, itemSize) == [item] + Records(before, head, len, capacity, itemSize)
  {
    hide Record;
    var front := if head == 0 then capacity - 1 else head - 1;
    forall i: nat | i < len
      ensures Records(after, front, len + 1, capacity, itemSize)[i + 1] ==
                Records(before, head, len, capacity, itemSize)[i]
    {
      assert Around(front, i + 1, capacity) == Around(head, i, capacity) != front;
    }
  }

  lemma RecordsAfterRemove(bytes: seq<bv8>, head: nat, len: nat, capacity: nat, itemSize: nat)
    requires head < capacity && 0 < len <= capacity && |bytes| == capacity * itemSize
    ensures Records(bytes, Around(head, 1, capacity), len - 1, capacity, itemSize) ==
              Records(bytes, head, len, capacity, itemSize)[1..]
    ensures Records(bytes, head, len, capacity, itemSize)[0] == Record(bytes, head, capacity, itemSize)
  {
    hide Record;
    forall i: nat | i < len - 1
      ensures Around(Around(head, 1, capacity), i, capacity) == Around(head, i + 1, capacity) {}
  }

  class DynQueue {
    const buf: array<bv8>
    const capacity: nat
    const itemSize: nat
    var head: nat
    var tail: nat
    var len: nat

    ghost predicate Valid()
      reads this
    {
      && capacity > 0 && itemSize > 0
      && buf.Length == capacity * itemSize
      && head < capacity && tail < capacity && len <= capacity
      && tail == (head + len) % capacity
    }

    /** The queue's contents, oldest first. */
    ghost function Items(): seq<seq<bv8>>
      reads this, buf
      requires Valid()
    {
      Records(buf[..], head, len, capacity, itemSize)
    }

    constructor (capacity: nat, itemSize: nat, buf: array<bv8>)
      requires capacity > 0 && itemSize > 0 && buf.Length == capacity * itemSize
      ensures Valid() && Items() == [] && this.capacity == capacity && this.itemSize == itemSize && this.buf == buf
    {
      this.buf, this.capacity, this.itemSize := buf, capacity, itemSize;
      head, tail, len := 0, 0, 0;
    }

    /** `heapHas` says whether the heap can supply the storage. */
    static method Create(capacity: nat, itemSize: nat, heapHas: bool) returns (q: Option<DynQueue>)
      ensures q.None? <==> capacity == 0 || itemSize == 0 || capacity * itemSize > USIZE_MAX || !heapHas
      ensures q.Some? ==> fresh(q.value) && fresh(q.value.buf) && q.value.Valid() && q.value.Items() == []
      ensures q.Some? ==> q.value.capacity == capacity && q.value.itemSize == itemSize
    {
      if capacity == 0 || itemSize == 0 || capacity * itemSize > USIZE_MAX || !heapHas { return None; }
      assert capacity * itemSize >= 0;
      var storage := new bv8[capacity * itemSize];
      var queue := new DynQueue(capacity, itemSize, storage);
      return Some(queue);
    }

    /** `copy_nonoverlapping` of one record into a slot. */
    method CopyIn(slot: nat, item: seq<bv8>)
      requires buf.Length == capacity * itemSize && slot < capacity && |item| >= itemSize
      modifies buf
      ensures Wrote(old(buf[..]), buf[..], slot, capacity, itemSize, item[..itemSize])
    {
      SlotInside(slot, capacity, itemSize);
      var base := slot * itemSize;
      forall i | 0 <= i < itemSize { buf[base + i] := item[i]; }
      assert buf[..] == old(buf[..base]) + item[..itemSize] + old(buf[base + itemSize..]);
      WroteOneSlot(old(buf[..]), buf[..], slot, capacity, itemSize, item[..itemSize]);
    }

    /** Appends one record, or refuses and changes no byte. */
    method TrySend(item: seq<bv8>) returns (ok: bool)
      requires Valid() && |item| >= itemSize
      modifies this, buf
      ensures Valid()
      ensures ok == (|old(Items())| < capacity)
      ensures ok ==> Items() == old(Items()) + [item[..itemSize]]
      ensures !ok ==> head == old(head) && len == old(len) && buf[..] == old(buf[..])
    {
      if len == capacity { return false; }
      AroundIsMod(head, len, capacity);
      AroundIsMod(head, len + 1, capacity);
      AroundIsMod(tail, 1, capacity);
      CopyIn(tail, item);
      RecordsAfterAppend(old(buf[..]), buf[..], head, len, capacity, itemSize, item[..itemSize]);
      tail := (tail + 1) % capacity;
      len := len + 1;
      return true;
    }

    /** `copy_nonoverlapping` of one record out of a slot. */
    method CopyOut(slot: nat, out: array<bv8>)
      requires buf.Length == capacity * itemSize && slot < capacity && out != buf && out.Length >= itemSize
      modifies out
      ensures out[..itemSize] == Record(buf[..], slot, capacity, itemSize)
      ensures out[itemSize..] == old(out[itemSize..])
    {
      SlotInside(slot, capacity, itemSize);
      var base := slot * itemSize;
      forall i | 0 <= i < itemSize { out[i] := buf[base + i]; }
      assert out[..itemSize] == Record(buf[..], slot, capacity, itemSize);
    }

    /** Removes the front record into `out`, or refuses and changes nothing. */
    method TryRecv(out: array<bv8>) returns (ok: bool)
      requires Valid() && out != buf && out.Length >= itemSize
      modifies this, out
      ensures Valid() && buf[..] == old(buf[..])
      ensures ok == (old(Items()) != [])
      ensures ok ==> Items() == old(Items())[1..] && out[..itemSize] == old(Items())[0]
      ensures out[itemSize..] == old(out[itemSize..])
      ensures !ok ==> head == old(head) && len == old(len) && out[..] == old(out[..])
    {
      if len == 0 { return false; }
      AroundIsMod(head, len, capacity);
      AroundIsMod(head, 1, capacity);
      RecordsAfterRemove(buf[..], head, len, capacity, itemSize);
      CopyOut(head, out);
      hide Record;
      head := (head + 1) % capacity;
      len := len - 1;
      AroundIsMod(head, len, capacity);
      return true;
    }

    /** Prepends one record, or refuses and changes no byte. */
    method TrySendToFront(item: seq<bv8>) returns (ok: bool)
      requires Valid() && |item| >= itemSize
      modifies this, buf
      ensures Valid()
      ensures ok == (|old(Items())| < capacity)
      ensures ok ==> Items() == [item[..itemSize]] + old(Items())
      ensures !ok ==> head == old(head) && len == old(len) && buf[..] == old(buf[..])
    {
      if len == capacity { return false; }
      AroundIsMod(head, len, capacity);
      ghost var was := head;
      head := if head == 0 then capacity - 1 else head - 1;
      AroundIsMod(head, len + 1, capacity);
      CopyIn(head, item);
      RecordsAfterPrepend(old(buf[..]), buf[..], was, len, capacity, itemSize, item[..itemSize]);
      len := len + 1;
      return true;
    }
  }
}

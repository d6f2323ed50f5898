/** The geometry of isolated tasks: which memory a task is granted, and which stack pointers its
    exception frames may have.

    A `u32` is a natural number below 2^32, every addition is either checked or shown not to overflow, and
    a mask is taken bit by bit. */
module Isolation {
  import opened Arithmetic
  import opened Wrappers

  const WORD_MAX: nat := 0xFFFF_FFFF

  type Word = n: nat | n <= WORD_MAX

  predicate PowerOfTwo(x: nat) { x == 1 || (x > 1 && x % 2 == 0 && PowerOfTwo(x / 2)) }

  /** Two multiplied by itself `k` times. */
  function Doubled(k: nat): nat { if k == 0 then 1 else 2 * Doubled(k - 1) }

  lemma {:induction false} PowersAreDoublings(x: nat)
    ensures PowerOfTwo(x) <==> exists k: nat :: x == Doubled(k)
  {
    if k: nat :| x == Doubled(k) { DoublingIsPower(k); }
    if PowerOfTwo(x) {
      if x == 1 {
        assert x == Doubled(0);
      } else {
        PowersAreDoublings(x / 2);
        var k: nat :| x / 2 == Doubled(k);
        assert x == Doubled(k + 1);
      }
    }
  }

  lemma {:induction false} DoublingIsPower(k: nat)
    ensures Doubled(k) >= 1 && PowerOfTwo(Doubled(k))
  {
    if k > 0 { DoublingIsPower(k - 1); }
  }

  /** `x & m`. */
  function And(x: nat, m: nat): nat {
    if x == 0 then 0 else 2 * And(x / 2, m / 2) + if x % 2 == 1 && m % 2 == 1 then 1 else 0
  }

  /** `x & !m`. */
  function AndNot(x: nat, m: nat): (r: nat)
    ensures r <= x
  {
    if x == 0 then 0 else 2 * AndNot(x / 2, m / 2) + if x % 2 == 1 && m % 2 == 0 then 1 else 0
  }

  predicate Aligned(x: Word, size: nat)
    requires size > 0
  {
    And(x, size - 1) == 0
  }

  function RoundDown(x: Word, size: nat): Word
    requires size > 0
  {
    AndNot(x, size - 1)
  }

  lemma {:induction false} EmptyMask(x: nat)
    ensures And(x, 0) == 0 && AndNot(x, 0) == x
  {
    if x > 0 { EmptyMask(x / 2); }
  }

  /** Below a power of two the mask keeps the remainder, and its complement keeps the rest. */
  lemma {:induction false} MaskIsRemainder(x: nat, size: nat)
    requires PowerOfTwo(size)
    ensures And(x, size - 1) == x % size && AndNot(x, size - 1) == x - x % size
    decreases size
  {
    if size == 1 {
      EmptyMask(x);
    } else {
      MaskIsRemainder(x / 2, size / 2);
      HalfRemainder(x, size / 2);
      assert (size - 1) / 2 == size / 2 - 1 && (size - 1) % 2 == 1;
    }
  }

  /** Aligned means divisible, and rounding down is to the next multiple. */
  lemma AlignedIsMultiple(x: Word, size: nat)
    requires PowerOfTwo(size)
    ensures Aligned(x, size) <==> x % size == 0
    ensures RoundDown(x, size) == x - x % size && Aligned(RoundDown(x, size), size)
  {
    assert size > 0;
    hide And, AndNot, PowerOfTwo;
    MaskIsRemainder(x, size);
    DivRest(x, size);
    MaskIsRemainder(RoundDown(x, size), size);
  }

  lemma {:induction false} PowersDivide(a: nat, b: nat)
    requires PowerOfTwo(a) && PowerOfTwo(b) && a <= b
    ensures b % a == 0
  {
    if a > 1 {
      PowersDivide(a / 2, b / 2);
      var q := b / 2 / (a / 2);
      assert b / 2 == (a / 2) * q;
      assert b == a * q;
      Multiple(a, q);
    }
  }

  // ── Reservation ─────────────────────────────────────────────────────────────────────────────

  predicate StackSizeOk(stack: Word) { 1024 <= stack <= 16384 && PowerOfTwo(stack) }

  predicate DataSizeOk(data: Word) { data == 0 || (256 <= data <= 4096 && PowerOfTwo(data)) }

  /** A half-open range of addresses. */
  datatype Block = Block(base: Word, end: Word)

  predicate Disjoint(a: Block, b: Block) { a.end <= b.base || b.end <= a.base }

  /** Rounds up, then adds the size; None is a checked addition that overflowed. */
  function Place(from: Word, size: Word): Option<Block>
    requires size > 0
  {
    if from + (size - 1) > WORD_MAX then None
    else
      var base := RoundDown(from + (size - 1), size);
      if base + size > WORD_MAX then None else Some(Block(base, base + size))
  }

  datatype Grant = Grant(stackBase: Word, dataBase: Word, next: Word)

  function Reserve(cursor: Word, end: Word, stack: Word, data: Word): Option<Grant> {
    if !StackSizeOk(stack) || !DataSizeOk(data) then None
    else
      match Place(cursor, stack)
      case None => None
      case Some(first) =>
        var second := if data == 0 then Some(Block(0, first.end)) else Place(first.end, data);
        if second.Some? && second.value.end <= end
        then Some(Grant(first.base, second.value.base, second.value.end)) else None
  }

  /** A placed block is aligned and at or above where the search began. */
  lemma PlaceIsSound(from: Word, size: Word)
    requires PowerOfTwo(size) && Place(from, size).Some?
    ensures var b := Place(from, size).value; from <= b.base && Aligned(b.base, size) && b.end == b.base + size
  {
    var top := from + (size - 1);
    AlignedIsMultiple(top, size);
    DivRest(top, size);
    hide Aligned, RoundDown, PowerOfTwo;
  }

  /** If any aligned block fits at or above the start, one is placed, and it is the lowest. */
  lemma PlaceIsLowest(from: Word, size: Word, other: Word)
    requires PowerOfTwo(size) && from <= other && Aligned(other, size) && other + size <= WORD_MAX
    ensures Place(from, size).Some? && Place(from, size).value.base <= other
  {
    var top := from + (size - 1);
    AlignedIsMultiple(top, size);
    AlignedIsMultiple(other, size);
    LowestMultiple(top, size, other);
    hide Aligned, RoundDown, PowerOfTwo;
  }

  lemma LowestMultiple(top: nat, size: nat, other: nat)
    requires size > 0 && other % size == 0 && top < other + size
    ensures top - top % size <= other
  {
    var p, q := other / size, top / size;
    DivRest(other, size);
    DivRest(top, size);
    if q >= p + 1 { TooFar(size, p, q); } else { Below(size, p, q); }
  }

  lemma Below(size: nat, p: nat, q: nat)
    requires q <= p
    ensures size * q <= size * p
  {
  }

  lemma TooFar(size: nat, p: nat, q: nat)
    requires q >= p + 1
    ensures size * q >= size * p + size
  {
    assert size * (p + 1) <= size * q;
  }

  /** Where one grant's blocks are: aligned, disjoint, within the pool, in order. */
  lemma ReserveIsSound(cursor: Word, end: Word, stack: Word, data: Word)
    ensures match Reserve(cursor, end, stack, data)
            case None => true
            case Some(g) => GrantOk(cursor, end, stack, data, g)
  {
    hide PowerOfTwo, Place, Aligned;
    if Reserve(cursor, end, stack, data).Some? {
      PlaceIsSound(cursor, stack);
      if data != 0 { PlaceIsSound(Place(cursor, stack).value.end, data); }
    }
  }

  predicate GrantOk(cursor: Word, end: Word, stack: Word, data: Word, g: Grant) {
    && StackSizeOk(stack) && DataSizeOk(data)
    && cursor <= g.stackBase && Aligned(g.stackBase, stack) && g.stackBase + stack <= g.next <= end
    && (data == 0 ==> g.next == g.stackBase + stack)
    && (data != 0 ==> g.stackBase + stack <= g.dataBase && Aligned(g.dataBase, data) && g.dataBase + data == g.next)
  }

  /** A reservation succeeds exactly when its sizes are allowed and some aligned stack at or above the
      cursor, followed by some aligned data block, fits; and then each block is the lowest there is. */
  lemma ReserveIsExact(cursor: Word, end: Word, stack: Word, data: Word, stackBase: Word, dataBase: Word)
    requires StackSizeOk(stack) && DataSizeOk(data)
    requires cursor <= stackBase && Aligned(stackBase, stack) && stackBase + stack <= end
    requires data != 0 ==> stackBase + stack <= dataBase && Aligned(dataBase, data) && dataBase + data <= end
    ensures Reserve(cursor, end, stack, data).Some?
    ensures
      var g := Reserve(cursor, end, stack, data).value;
      g.stackBase <= stackBase && (data != 0 ==> g.dataBase <= dataBase)
  {
    hide PowerOfTwo, Place, Aligned;
    PlaceIsLowest(cursor, stack, stackBase);
    PlaceIsSound(cursor, stack);
    if data != 0 {
      PlaceIsLowest(Place(cursor, stack).value.end, data, dataBase);
      PlaceIsSound(Place(cursor, stack).value.end, data);
    }
  }

  /** The size check that `spawn` makes first is exactly the size rule. */
  lemma SizeCheckIsExact(stack: Word, data: Word)
    ensures Reserve(0, WORD_MAX, stack, data).Some? <==>
              && 1024 <= stack <= 16384 && PowerOfTwo(stack)
              && (data == 0 || (256 <= data <= 4096 && PowerOfTwo(data)))
  {
    if StackSizeOk(stack) && DataSizeOk(data) {
      assert PowerOfTwo(0x8000);
      if data != 0 {
        PowersDivide(data, 0x8000);
        AlignedIsMultiple(0x8000, data);
      }
      assert Aligned(0, stack);
      hide PowerOfTwo, Reserve, Aligned;
      ReserveIsExact(0, WORD_MAX, stack, data, 0, 0x8000);
    }
  }

  /** The blocks lie between two addresses and none touches another. */
  ghost predicate Packed(blocks: seq<Block>, low: nat, high: nat) {
    && (forall i :: 0 <= i < |blocks| ==> low <= blocks[i].base < blocks[i].end <= high)
    && (forall i, j :: 0 <= i < j < |blocks| ==> Disjoint(blocks[i], blocks[j]))
  }

  /** One more block above all the others. */
  lemma PackedGrows(blocks: seq<Block>, low: nat, middle: nat, b: Block, high: nat)
    requires Packed(blocks, low, middle) && low <= middle <= b.base < b.end <= high
    ensures Packed(blocks + [b], low, high)
  {
  }

  /** The blocks of a grant. */
  function Blocks(stack: Word, data: Word, stackBase: Word, dataBase: Word): seq<Block>
    requires stackBase + stack <= WORD_MAX && (data != 0 ==> dataBase + data <= WORD_MAX)
  {
    [Block(stackBase, stackBase + stack)] + if data == 0 then [] else [Block(dataBase, dataBase + data)]
  }

  /** A grant's blocks lie above everything granted before. */
  lemma GrantPacks(blocks: seq<Block>, low: nat, cursor: Word, end: Word, stack: Word, data: Word, g: Grant)
    requires Packed(blocks, low, cursor) && low <= cursor && GrantOk(cursor, end, stack, data, g)
    ensures Packed(blocks + Blocks(stack, data, g.stackBase, g.dataBase), low, g.next)
  {
    var first := Block(g.stackBase, g.stackBase + stack);
    var one := blocks + [first];
    PackedGrows(blocks, low, cursor, first, first.end);
    if data == 0 {
      assert blocks + Blocks(stack, data, g.stackBase, g.dataBase) == one;
    } else {
      var second := Block(g.dataBase, g.dataBase + data);
      PackedGrows(one, low, first.end, second, second.end);
      assert blocks + Blocks(stack, data, g.stackBase, g.dataBase) == one + [second];
    }
  }

  /** The pool private stacks and data come from: a bump cursor, and every block ever granted. */
  class StackPool {
    const start: Word
    const end: Word
    var offset: nat
    ghost var granted: seq<Block>

    ghost predicate Valid()
      reads this
    {
      start + offset <= end && Packed(granted, start, start + offset)
    }

    constructor (start: Word, end: Word)
      requires start <= end
      ensures Valid() && this.start == start && this.end == end && granted == [] && offset == 0
    {
      this.start, this.end := start, end;
      offset, granted := 0, [];
    }

    /** Two blocks that no earlier grant touches, or nothing and no memory consumed. */
    method AllocatePrivate(stack: Word, data: Word) returns (blocks: Option<(Word, Word)>)
      requires Valid()
      modifies this
      ensures Valid()
      ensures blocks.Some? <==> Reserve(start + old(offset), end, stack, data).Some?
      ensures blocks.None? ==> offset == old(offset) && granted == old(granted)
      ensures blocks.Some? ==>
                && StackSizeOk(stack) && DataSizeOk(data)
                && var (stackBase, dataBase) := blocks.value;
                   && stackBase + stack <= end && Aligned(stackBase, stack)
                   && (data != 0 ==> dataBase + data <= end && Aligned(dataBase, data))
                   && granted == old(granted) + Blocks(stack, data, stackBase, dataBase)
    {
      hide Reserve, Aligned, Packed, PowerOfTwo;
      var g := Reserve(start + offset, end, stack, data);
      if g.None? { return None; }
      ReserveIsSound(start + offset, end, stack, data);
      GrantPacks(granted, start, start + offset, end, stack, data, g.value);
      granted := granted + Blocks(stack, data, g.value.stackBase, g.value.dataBase);
      offset := g.value.next - start;
      return Some((g.value.stackBase, g.value.dataBase));
    }
  }

  // ── Regions ─────────────────────────────────────────────────────────────────────────────────

  datatype Access = ReadOnly | ReadWrite | ReadExecute

  datatype Error = Size | Alignment | Overflow | Overlap | Entry

  datatype Result<T> = Ok(value: T) | Err(error: Error)

  datatype Window = Window(start: Word, end: Word)

  predicate Contains(w: Window, address: Word, bytes: Word) {
    bytes != 0 && address >= w.start && address + bytes <= WORD_MAX && address + bytes <= w.end
  }

  datatype Region = Region(base: Word, size: Word, access: Access, guard: bool)

  function NewRegion(base: Word, size: Word, access: Access): Result<Region> {
    if size < 256 || !PowerOfTwo(size) then Err(Size)
    else if !Aligned(base, size) then Err(Alignment)
    else if base + size > WORD_MAX then Err(Overflow)
    else Ok(Region(base, size, access, false))
  }

  function NewStack(base: Word, size: Word): Result<Region> {
    match NewRegion(base, size, ReadWrite)
    case Err(e) => Err(e)
    case Ok(region) => if size < 1024 then Err(Size) else Ok(region.(guard := true))
  }

  /** What only the constructors can make. */
  predicate RegionOk(r: Region) {
    256 <= r.size && PowerOfTwo(r.size) && Aligned(r.base, r.size) && r.base + r.size <= WORD_MAX
  }

  function Usable(r: Region): Window
    requires RegionOk(r)
  {
    Window(r.base + (if r.guard then r.size / 8 else 0), r.base + r.size)
  }

  predicate Overlaps(a: Region, b: Region)
    requires RegionOk(a) && RegionOk(b)
  {
    a.base < b.base + b.size && b.base < a.base + a.size
  }

  datatype TaskMemory = TaskMemory(code: Region, stack: Region, data: Option<Region>)

  function ClearThumb(entry: Word): Word { AndNot(entry, 1) }

  function NewTaskMemory(code: Region, stack: Region, data: Option<Region>, entry: Word): Result<TaskMemory>
    requires RegionOk(code) && RegionOk(stack) && (data.Some? ==> RegionOk(data.value))
  {
    if code.access != ReadExecute || code.guard || !stack.guard then Err(Entry)
    else if !Contains(Usable(code), ClearThumb(entry), 2) then Err(Entry)
    else if Overlaps(code, stack)
      || (data.Some? && (Overlaps(data.value, code) || Overlaps(data.value, stack))) then Err(Overlap)
    else if data.Some? && (data.value.access != ReadWrite || data.value.guard) then Err(Entry)
    else Ok(TaskMemory(code, stack, data))
  }

  predicate ExceptionFrame(m: TaskMemory, psp: Word)
    requires RegionOk(m.stack)
  {
    And(psp, 7) == 0 && psp >= 32 && Contains(Usable(m.stack), psp - 32, 64)
  }

  /** A region is accepted exactly when its size is a power of two of at least 256 bytes that divides its base and
      it ends inside the address space; otherwise the first of these that fails is the error. */
  lemma NewRegionExactly(base: Word, size: Word, access: Access)
    ensures match NewRegion(base, size, access)
            case Ok(r) =>
              && 256 <= size && PowerOfTwo(size) && base % size == 0 && base + size <= 0xFFFF_FFFF
              && r == Region(base, size, access, false) && RegionOk(r) && Usable(r) == Window(base, base + size)
            case Err(e) =>
              if size < 256 || !PowerOfTwo(size) then e == Size
              else if base % size != 0 then e == Alignment
              else e == Overflow && base + size > 0xFFFF_FFFF
  {
    if 256 <= size && PowerOfTwo(size) { AlignedIsMultiple(base, size); }
    hide PowerOfTwo, Aligned;
  }

  /** A stack is accepted exactly when it has 1024 bytes besides, and its lowest eighth is a guard. */
  lemma NewStackExactly(base: Word, size: Word)
    ensures NewStack(base, size).Ok? <==>
              1024 <= size && PowerOfTwo(size) && base % size == 0 && base + size <= 0xFFFF_FFFF
    ensures NewStack(base, size).Ok? ==>
              && NewStack(base, size).value == Region(base, size, ReadWrite, true)
              && RegionOk(NewStack(base, size).value)
              && Usable(NewStack(base, size).value) == Window(base + size / 8, base + size)
    ensures NewStack(base, size).Err? ==>
              NewStack(base, size).error ==
                if size < 256 || !PowerOfTwo(size) then Size
                else if base % size != 0 then Alignment
                else if base + size > 0xFFFF_FFFF then Overflow
                else Size
  {
    NewRegionExactly(base, size, ReadWrite);
    hide PowerOfTwo, Aligned, NewRegion;
  }

  predicate InWindow(w: Window, x: int) { w.start <= x < w.end }

  /** A window contains a range exactly when the range is not empty and every byte of it is in the window. */
  lemma ContainsEveryByte(w: Window, address: Word, bytes: Word)
    ensures Contains(w, address, bytes) <==>
              bytes != 0 && forall x: int :: address <= x < address + bytes ==> InWindow(w, x)
  {
    if bytes != 0 && forall x: int :: address <= x < address + bytes ==> InWindow(w, x) {
      assert InWindow(w, address) && InWindow(w, address + bytes - 1);
    }
  }

  ghost predicate SharesAByte(a: Region, b: Region) { exists x: nat :: InRegion(a, x) && InRegion(b, x) }

  /** Overlap is exactly sharing a byte. */
  lemma OverlapSharesAByte(a: Region, b: Region)
    requires RegionOk(a) && RegionOk(b)
    ensures Overlaps(a, b) <==> SharesAByte(a, b)
  {
    hide PowerOfTwo;
    if Overlaps(a, b) {
      var x := if a.base < b.base then b.base else a.base;
      assert InRegion(a, x) && InRegion(b, x);
    }
  }

  predicate InRegion(r: Region, x: nat) { r.base <= x < r.base + r.size }

  /** The entry, with its Thumb bit cleared, is the first of two executable bytes of the code. */
  predicate EntersCode(code: Region, entry: Word) {
    && code.access == ReadExecute && !code.guard
    && InRegion(code, entry - entry % 2) && InRegion(code, entry - entry % 2 + 1)
  }

  ghost predicate Apart(code: Region, stack: Region, data: Option<Region>) {
    && !SharesAByte(code, stack)
    && (data.Some? ==> !SharesAByte(data.value, code) && !SharesAByte(data.value, stack))
  }

  predicate PlainData(data: Option<Region>) { data.Some? ==> data.value.access == ReadWrite && !data.value.guard }

  /** A domain is accepted exactly when the entry is in executable code, the stack has a guard, no two of the
      regions share a byte, and the data is plain memory. Sharing is its own error; anything else is the entry's. */
  lemma NewTaskMemoryExactly(code: Region, stack: Region, data: Option<Region>, entry: Word)
    requires RegionOk(code) && RegionOk(stack) && (data.Some? ==> RegionOk(data.value))
    ensures match NewTaskMemory(code, stack, data, entry)
            case Ok(m) =>
              && EntersCode(code, entry) && stack.guard && Apart(code, stack, data) && PlainData(data)
              && m == TaskMemory(code, stack, data)
            case Err(e) =>
              if !EntersCode(code, entry) || !stack.guard then e == Entry
              else if !Apart(code, stack, data) then e == Overlap
              else e == Entry && !PlainData(data)
  {
    OverlapSharesAByte(code, stack);
    if data.Some? {
      OverlapSharesAByte(data.value, code);
      OverlapSharesAByte(data.value, stack);
    }
    ThumbBit(entry);
    hide PowerOfTwo, Aligned, Overlaps, AndNot, SharesAByte;
  }

  lemma ThumbBit(entry: Word)
    ensures ClearThumb(entry) == entry - entry % 2
  {
    assert PowerOfTwo(2);
    MaskIsRemainder(entry, 2);
    hide AndNot, And;
  }

  /** A task's memory never shares a byte between its code, its stack and its data, only code can be
      executed, and it cannot be written. */
  lemma DomainsAreSeparate(code: Region, stack: Region, data: Option<Region>, entry: Word, x: nat)
    requires RegionOk(code) && RegionOk(stack) && (data.Some? ==> RegionOk(data.value))
    requires NewTaskMemory(code, stack, data, entry).Ok?
    ensures !(InRegion(code, x) && InRegion(stack, x))
    ensures data.Some? ==>
      !(InRegion(data.value, x) && InRegion(code, x)) && !(InRegion(data.value, x) && InRegion(stack, x))
    ensures code.access == ReadExecute && stack.guard && (data.Some? ==> data.value.access == ReadWrite)
    ensures InRegion(code, ClearThumb(entry)) && InRegion(code, ClearThumb(entry) + 1)
  {
    hide PowerOfTwo;
  }

  /** The bytes an exception frame needs: 32 that the hardware has pushed at the stack pointer, and 32
      to be saved below it. */
  predicate InFrame(psp: Word, x: int) { psp - 32 <= x < psp + 32 }

  predicate AboveGuard(stack: Region, x: int) { stack.base + stack.size / 8 <= x < stack.base + stack.size }

  /** A frame is accepted exactly when the stack pointer is 8-aligned and every byte of the frame lies in
      the stack and above its guard. */
  lemma FrameIsInside(m: TaskMemory, psp: Word)
    requires RegionOk(m.stack) && m.stack.guard
    ensures ExceptionFrame(m, psp) <==> psp % 8 == 0 && forall x: int :: InFrame(psp, x) ==> AboveGuard(m.stack, x)
  {
    assert PowerOfTwo(8);
    MaskIsRemainder(psp, 8);
    hide PowerOfTwo, Aligned, And;
    if forall x: int :: InFrame(psp, x) ==> AboveGuard(m.stack, x) {
      assert InFrame(psp, psp - 32) && InFrame(psp, psp + 31);
    }
  }

  /** What `spawn` builds once its checks have passed: none of the three constructors it unwraps can
      fail, whatever the reservation granted, given a code region outside the pool. */
  lemma SpawnCannotPanic(code: Region, entry: Word, cursor: Word, end: Word, stack: Word, data: Word)
    requires RegionOk(code) && code.access == ReadExecute && !code.guard
    requires Contains(Usable(code), ClearThumb(entry), 2)
    requires code.base + code.size <= cursor || end <= code.base
    ensures match Reserve(cursor, end, stack, data)
            case None => true
            case Some(g) => SpawnBuilds(code, entry, stack, data, g)
  {
    ReserveIsSound(cursor, end, stack, data);
    hide PowerOfTwo, Reserve;
  }

  /** The stack region, the data region if any, and the domain made of them are all accepted. */
  predicate SpawnBuilds(code: Region, entry: Word, stack: Word, data: Word, g: Grant)
    requires RegionOk(code)
  {
    var stackRegion := NewStack(g.stackBase, stack);
    var dataRegion := NewRegion(g.dataBase, data, ReadWrite);
    && stackRegion.Ok? && RegionOk(stackRegion.value)
    && (data != 0 ==> dataRegion.Ok? && RegionOk(dataRegion.value))
    && NewTaskMemory(code, stackRegion.value, if data == 0 then None else Some(dataRegion.value), entry).Ok?
  }
}

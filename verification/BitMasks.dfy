/** What setting and taking bits of a 32-bit word does, in the operators of the machine. */
module BitMasks {
  predicate Holds(word: bv32, bits: bv32) { word & bits == bits }

  predicate Lacks(word: bv32, bits: bv32) { word & bits == 0 }

  /** All but the top byte. */
  function Low(bits: bv32): bv32 { bits & 0x00FF_FFFF }

  function Both(a: bv32, b: bv32): bv32 { a | b }

  /** These bits are put in; none is dropped, and no other is added. */
  predicate SetsBits(before: bv32, bits: bv32, after: bv32) {
    && after & before == before
    && after & bits == bits
    && after & !(before | bits) == 0
  }

  /** Exactly these bits go. */
  predicate TakesBits(before: bv32, bits: bv32, after: bv32) {
    && after & bits == 0
    && after & !bits == before & !bits
  }

  /** What is asked for is there: all of the bits, or any of them. */
  predicate Meets(current: bv32, bits: bv32, all: bool) {
    if all then current & bits == bits else current & bits != 0
  }

  lemma OrSets(before: bv32, bits: bv32)
    ensures SetsBits(before, bits, before | bits)
  {
    OrHolds(before, bits);
    OrHolds(bits, before);
    NoneOutside(before | bits);
  }

  lemma OrHolds(before: bv32, bits: bv32)
    ensures (before | bits) & before == before && (bits | before) & before == before
  {
  }

  lemma NoneOutside(word: bv32)
    ensures word & !word == 0
  {
  }

  lemma AndNotTakes(before: bv32, bits: bv32)
    ensures TakesBits(before, bits, before & !bits)
  {
  }

  lemma TakenKeeps(before: bv32, taken: bv32, after: bv32, some: bv32)
    requires Holds(before, some) && Lacks(taken, some) && TakesBits(before, taken, after)
    ensures Holds(after, some)
  {
  }

  lemma SetKeeps(before: bv32, bits: bv32, after: bv32, some: bv32)
    requires Holds(before, some) && SetsBits(before, bits, after)
    ensures Holds(after, some)
  {
  }

  lemma BothSet(before: bv32, bits: bv32, after: bv32)
    requires SetsBits(before, bits, after)
    ensures Holds(after, Both(before, bits))
  {
  }

  lemma SetAddsNone(before: bv32, bits: bv32, after: bv32, some: bv32)
    requires Lacks(before, some) && Lacks(bits, some) && SetsBits(before, bits, after)
    ensures Lacks(after, some)
  {
  }

  lemma TakenAddsNone(before: bv32, taken: bv32, after: bv32, some: bv32)
    requires Lacks(before, some) && TakesBits(before, taken, after)
    ensures Lacks(after, some)
  {
  }

  lemma MoreMeets(less: bv32, more: bv32, bits: bv32, all: bool)
    requires Holds(more, less) && Meets(less, bits, all)
    ensures Meets(more, bits, all)
  {
  }
}

/** Bytes and their alignment. */
module Memory {
  type Byte = bv8

  /** LONGALIGN: round up to a multiple of four. */
  function LongAlign(n: nat): nat {
    (n + 3) / 4 * 4
  }

  lemma LongAlignRounds(n: nat)
    ensures n <= LongAlign(n) < n + 4 && LongAlign(n) % 4 == 0
  {
  }

  /** Why nesting the alignment, as the sizing pass does, costs nothing. */
  lemma LongAlignShift(n: nat, multiple: nat)
    requires multiple % 4 == 0
    ensures LongAlign(n + multiple) == LongAlign(n) + multiple
  {
  }
}

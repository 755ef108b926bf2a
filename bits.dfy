/** Bit access shared by the byte- and word-level models. */
module Bits {

  /** Bit i of the byte x is set. */
  predicate Bit(x: bv8, i: nat)
    requires i < 8
  {
    (x >> i) & 1 == 1
  }

  /** Bit i of the 16-bit word x is set. */
  predicate Bit16(x: bv16, i: nat)
    requires i < 16
  {
    (x >> i) & 1 == 1
  }
}

/** The pseudo-random generator: a 16-bit linear congruential step on
    `random_seed` (unsigned, so every operation wraps modulo 2^16), whose
    result byte is bits 5..12 of the new seed. */
module Prng {
  import opened Bits

  /** The seed update, written as the firmware computes 5 * seed without a
      multiplier: (seed << 2) + seed. */
  function NextSeed(seed: bv16): (r: bv16)
    ensures r == seed * 5 + 12345
  {
    (seed << 2) + seed + 12345
  }

  /** The inverse step: 52429 is the inverse of 5 modulo 2^16. */
  function PrevSeed(seed: bv16): (prev: bv16)
  {
    (seed - 12345) * 52429
  }

  /** The step is a permutation of the 65536 seeds: no two seeds lead to the
      same next seed, and every seed has a predecessor. */
  lemma NextPrev(seed: bv16)
    ensures PrevSeed(NextSeed(seed)) == seed
    ensures NextSeed(PrevSeed(seed)) == seed
  {
  }

  /** The byte `rand` returns for a new seed: the seed shifted right by 5,
      truncated to uint8, i.e. bits 5..12 of the seed. */
  function Output(seed: bv16): (r: bv8)
    ensures forall i: nat :: i < 8 ==> (Bit(r, i) <==> Bit16(seed, i + 5))
  {
    ((seed >> 5) & 0xff) as bv8
  }

  /** The global `random_seed`. */
  class Rng {
    var seed: bv16

    /** Power-on: a global without an initialiser starts at 0. */
    constructor ()
      ensures seed == 0
    {
      seed := 0;
    }

    /** `rand`: advance the seed one step and return its byte. */
    method Rand() returns (r: bv8)
      modifies this
      ensures seed == NextSeed(old(seed)) && r == Output(seed)
    {
      seed := (seed << 2) + seed + 12345;
      r := ((seed >> 5) & 0xff) as bv8;
    }
  }

  /** The first four bytes drawn from seed 0. */
  lemma DrawsFromZero()
    ensures NextSeed(0) == 12345 && Output(12345) == 129
    ensures NextSeed(12345) == 8534 && Output(8534) == 10
    ensures NextSeed(8534) == 55015 && Output(55015) == 183
    ensures NextSeed(55015) == 25276 && Output(25276) == 21
  {
  }
}

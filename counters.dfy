/**
 * The shared progress counters are `u32` atomics (system_progress.cpp lines 15-18).
 * Producers add to them; the server subtracts with `-=`, which wraps around modulo 2^32.
 */
module Counters {
  const U32_LIMIT: int := 0x1_0000_0000

  type u32 = x: int | 0 <= x < U32_LIMIT

  /** Unsigned 32-bit addition, as a producer's `+=` on a counter. */
  function WrapAdd(a: u32, b: u32): (r: u32)
    ensures a + b < U32_LIMIT ==> r == a + b
    ensures a + b >= U32_LIMIT ==> r == a + b - U32_LIMIT
  {
    (a + b) % U32_LIMIT
  }

  /** Unsigned 32-bit subtraction, as the server's `-=` on a counter. */
  function WrapSub(a: u32, b: u32): (r: u32)
    ensures WrapAdd(r, b) == a
    ensures b <= a ==> r == a - b
    ensures b > a ==> r > a
  {
    if b <= a then a - b else a - b + U32_LIMIT
  }

  /**
   * Subtracting what one session contributed leaves exactly what the others
   * contributed, even when the shared counter wrapped around in between.
   */
  lemma SubtractOwnContribution(own: u32, others: u32)
    ensures WrapSub(WrapAdd(others, own), own) == others
  {
  }
}

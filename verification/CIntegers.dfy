/** The unsigned integers of the firmware, and the facts about their division that the
    arithmetic of several components rests on. */
module CIntegers {

  const UINT32: nat := 0x1_0000_0000
  const UINT64: nat := 0x1_0000_0000_0000_0000

  type uint32 = n: nat | n < UINT32

  lemma DivideBounds(x: nat, d: nat)
    requires d > 0
    ensures x / d * d <= x < x / d * d + d
  {
  }

  lemma SmallRemainder(x: nat, m: nat)
    requires x < m
    ensures x % m == x
  {
  }

  /** If x lies at or above a multiples of d, and below b + 1 of them, then a is at most b. */
  lemma BelowMultiple(a: int, b: int, d: nat, x: int)
    requires d > 0 && a * d <= x < b * d + d
    ensures a <= b
  {
    assert a * d < (b + 1) * d;
  }
}

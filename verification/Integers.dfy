/** Go's 64-bit integers. */
module Integers {
  const TWO63: int := 0x8000_0000_0000_0000

  const TWO64: int := 0x1_0000_0000_0000_0000

  const MAX_INT64: int := TWO63 - 1

  const MIN_INT64: int := -TWO63

  predicate IsInt64(x: int) { MIN_INT64 <= x <= MAX_INT64 }

  /** What a sum, a difference or a quotient of two of them, or a uint64, wraps to. */
  function Wrap(x: int): (r: int)
    ensures -TWO64 <= x < TWO64 ==> IsInt64(r)
    ensures IsInt64(x) ==> r == x
  {
    if x > MAX_INT64 then x - TWO64 else if x < MIN_INT64 then x + TWO64 else x
  }
}

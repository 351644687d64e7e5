/**
 * The machine integers of the source: `u64` and `usize` (a 64-bit target is assumed),
 * with the two library operations whose overflow behaviour matters here.
 */
module Primitives {

  const U64_MAX: int := 0xFFFF_FFFF_FFFF_FFFF
  const USIZE_MAX: int := 0xFFFF_FFFF_FFFF_FFFF

  newtype U64 = x: int | 0 <= x <= 0xFFFF_FFFF_FFFF_FFFF
  newtype Usize = x: int | 0 <= x <= 0xFFFF_FFFF_FFFF_FFFF
  newtype Byte = x: int | 0 <= x < 256

  /** The identifier of a user account (an `i64` in the source's user model). */
  type UserId = int

  /**
   * `usize::saturating_add`: the exact sum when it fits, `usize::MAX` otherwise.
   * The result never wraps below either operand.
   */
  function SaturatingAdd(a: Usize, b: Usize): (r: Usize)
    ensures a <= r && b <= r
    ensures r as int == a as int + b as int <==> a as int + b as int <= USIZE_MAX
    ensures r as int < a as int + b as int ==> r as int == USIZE_MAX
  {
    if a as int + b as int <= USIZE_MAX then a + b else USIZE_MAX as Usize
  }

  /**
   * `u64` subtraction as a release build performs it (overflow checks off): the
   * difference modulo 2^64, i.e. the one `r` with `r + b == a` in wrapping arithmetic.
   */
  function WrappingSub(a: U64, b: U64): (r: U64)
    ensures (r as int + b as int) % (U64_MAX + 1) == a as int
    ensures b <= a ==> r == a - b
  {
    if b <= a then a - b else (a as int - b as int + U64_MAX + 1) as U64
  }
}

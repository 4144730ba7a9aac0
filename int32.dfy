/**
 * The `x|0` coercion that the timeline applies to every frame number:
 * the value is reduced modulo 2^32 into the signed 32-bit range.
 */
module Int32 {

  const TWO_32: int := 0x1_0000_0000
  const MIN: int := -0x8000_0000
  const MAX: int := 0x7FFF_FFFF

  predicate InRange(x: int) {
    MIN <= x <= MAX
  }

  /** `x|0` for an integral number `x`. */
  function ToInt32(x: int): (r: int)
    ensures InRange(r)
    ensures (r - x) % TWO_32 == 0
    ensures InRange(x) ==> r == x
  {
    var m := (x - MIN) % TWO_32;
    m + MIN
  }
}

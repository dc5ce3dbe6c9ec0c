/** Java `int` bounds and `Math.max` / `Math.min`. */
module Ints {
  /** `Integer.MIN_VALUE`. */
  const IntMin: int := -0x8000_0000
  /** `Integer.MAX_VALUE`. */
  const IntMax: int := 0x7fff_ffff

  function Max(a: int, b: int): (m: int)
    ensures m >= a && m >= b && (m == a || m == b)
  {
    if a >= b then a else b
  }

  function Min(a: int, b: int): (m: int)
    ensures m <= a && m <= b && (m == a || m == b)
  {
    if a <= b then a else b
  }

  /** `Math.max(lo, Math.min(x, hi))`: `x` pulled into the range `lo..hi`. */
  function Clamp(x: int, lo: int, hi: int): (r: int)
    requires lo <= hi
    ensures lo <= r <= hi
    ensures lo <= x <= hi ==> r == x
    ensures x < lo ==> r == lo
    ensures x > hi ==> r == hi
  {
    Max(lo, Min(x, hi))
  }
}

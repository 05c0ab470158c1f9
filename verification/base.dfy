/** Values shared by every module: an optional value (Kotlin's nullable
    types), and the Kotlin `Int` conversions that the screens apply to prices
    and sums. */
module Base {

  /** A Kotlin nullable value: `None` stands for `null`. */
  datatype Option<+T> = None | Some(value: T)

  /** Bounds of Kotlin's 32-bit `Int`. */
  const INT_MIN: int := -0x8000_0000
  const INT_MAX: int := 0x7fff_ffff

  /** Kotlin `Int` addition wraps around modulo 2^32; a sum of `Int`s is the
      exact sum brought back into [INT_MIN, INT_MAX]. */
  function Wrap32(x: int): (r: int)
    ensures INT_MIN <= r <= INT_MAX
    ensures (r - x) % 0x1_0000_0000 == 0
    ensures INT_MIN <= x <= INT_MAX ==> r == x
  {
    (x - INT_MIN) % 0x1_0000_0000 + INT_MIN
  }

  /** Rounding toward zero. */
  function Truncate(x: real): (r: int)
    ensures 0.0 <= x ==> 0 <= r && r as real <= x < r as real + 1.0
    ensures x < 0.0 ==> r <= 0 && r as real - 1.0 < x <= r as real
  {
    if x >= 0.0 then x.Floor else -((-x).Floor)
  }

  /** Kotlin `Double.toInt()`: rounds toward zero and saturates at the
      bounds of `Int`. */
  function DoubleToInt(x: real): (r: int)
    ensures INT_MIN <= r <= INT_MAX
    ensures INT_MIN as real <= x <= INT_MAX as real ==> r == Truncate(x)
    ensures x >= INT_MAX as real ==> r == INT_MAX
    ensures x <= INT_MIN as real ==> r == INT_MIN
  {
    if x >= INT_MAX as real then INT_MAX
    else if x <= INT_MIN as real then INT_MIN
    else Truncate(x)
  }
}

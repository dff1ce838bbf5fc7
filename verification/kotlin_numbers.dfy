/** Kotlin's 32-bit `Int` range and the `Float.toInt()` conversion, over reals
    (float rounding of the operand is not modelled). */
module KotlinNumbers {

  const INT_MIN: int := -0x8000_0000
  const INT_MAX: int := 0x7FFF_FFFF

  /** `Float.toInt()`: rounds toward zero and saturates at the ends of the `Int` range. */
  function FloatToInt(x: real): (r: int)
    ensures INT_MIN <= r <= INT_MAX
    ensures 0.0 <= x < INT_MAX as real ==> r as real <= x < r as real + 1.0
    ensures INT_MIN as real < x < 0.0 ==> r as real - 1.0 < x <= r as real
    ensures INT_MAX as real <= x ==> r == INT_MAX
    ensures x <= INT_MIN as real ==> r == INT_MIN
  {
    if x >= INT_MAX as real then INT_MAX
    else if x <= INT_MIN as real then INT_MIN
    else if x >= 0.0 then x.Floor
    else -((-x).Floor)
  }

  /** Converting an `Int` to a float and back changes nothing. */
  lemma FloatToIntOfInt(n: int)
    requires INT_MIN <= n <= INT_MAX
    ensures FloatToInt(n as real) == n
  {
  }

  /** Truncation toward zero is monotone. */
  lemma FloatToIntMonotone(x: real, y: real)
    requires x <= y
    ensures FloatToInt(x) <= FloatToInt(y)
  {
  }
}

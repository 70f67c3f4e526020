/**
 Java's 32-bit `int` and the two numeric conversions the mover relies on:
 the narrowing cast `(int) d` of a double and the wrap-around of `int`
 subtraction. Doubles are modelled by `real` (no rounding, no NaN).
 */
module JavaNum {

  const MinInt: int := -0x8000_0000
  const MaxInt: int := 0x7fff_ffff
  const Modulus: int := 0x1_0000_0000

  /** A value of Java's `int` type. */
  type Int32 = i: int | MinInt <= i <= MaxInt

  /** Rounding toward zero: the integer part of `x`, whatever its sign. */
  function Trunc(x: real): (t: int)
    ensures 0.0 <= x ==> t as real <= x < t as real + 1.0
    ensures x < 0.0 ==> t as real - 1.0 < x <= t as real
  {
    if x >= 0.0 then x.Floor else -((-x).Floor)
  }

  /** Java's `(int) x` for a finite double: truncate toward zero, then
      saturate at the bounds of `int` (section 5.1.3 of the Java Language
      Specification). */
  function DoubleToInt(x: real): (r: Int32)
    ensures MinInt as real - 1.0 < x < MaxInt as real + 1.0 ==> r == Trunc(x)
    ensures MaxInt as real + 1.0 <= x ==> r == MaxInt
    ensures x <= MinInt as real - 1.0 ==> r == MinInt
  {
    var t := Trunc(x);
    if t > MaxInt then MaxInt else if t < MinInt then MinInt else t
  }

  /** Two's-complement wrap-around of an exact integer result into `int`. */
  function Wrap32(i: int): (r: Int32)
    ensures (r - i) % Modulus == 0
    ensures MinInt <= i <= MaxInt ==> r == i
  {
    (i - MinInt) % Modulus + MinInt
  }

  /** Truncation is the unique integer on the zero side of `x` within
      distance one: any such integer is `Trunc(x)`. */
  lemma TruncUnique(x: real, t: int)
    requires 0.0 <= x ==> t as real <= x < t as real + 1.0
    requires x < 0.0 ==> t as real - 1.0 < x <= t as real
    ensures Trunc(x) == t
  {
  }

  /** Widening an `int` to a double and casting back is the identity. */
  lemma IntRoundTrip(i: Int32)
    ensures DoubleToInt(i as real) == i
  {
    TruncUnique(i as real, i);
  }

  /** A double inside `[0, limit)` for an `int` limit casts into
      `[0, limit - 1]`. */
  lemma CastInside(x: real, limit: int)
    requires limit <= MaxInt
    requires 0.0 <= x < limit as real
    ensures 0 <= DoubleToInt(x) <= limit - 1
    ensures DoubleToInt(x) as real <= x < DoubleToInt(x) as real + 1.0
  {
  }
}

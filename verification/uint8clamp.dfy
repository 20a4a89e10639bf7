/** The conversion a store into a `Uint8ClampedArray` applies: ToUint8Clamp,
    section 7.1.12 of ECMA-262, on exact real values. */
module Uint8Clamp {

  /** One element of a `Uint8ClampedArray`. */
  type byte = x: int | 0 <= x < 256

  const MaxByte: byte := 255

  /** `n` is `x` rounded to the nearest integer, a tie going to the even neighbour. */
  predicate RoundsHalfEven(x: real, n: int)
  {
    && n as real - 0.5 <= x <= n as real + 0.5
    && ((x == n as real - 0.5 || x == n as real + 0.5) ==> n % 2 == 0)
  }

  /** ToUint8Clamp: non-positive values become 0, values of 255 or more become
      255, everything else is rounded half to even. */
  function ToUint8Clamp(x: real): (r: byte)
    ensures x <= 0.0 ==> r == 0
    ensures x >= 255.0 ==> r == MaxByte
    ensures 0.0 <= x <= 255.0 ==> RoundsHalfEven(x, r)
  {
    if x <= 0.0 then 0
    else if x >= 255.0 then MaxByte
    else
      var f := x.Floor;
      if f as real + 0.5 < x then f + 1
      else if x < f as real + 0.5 then f
      else if f % 2 == 1 then f + 1
      else f
  }

  /** At most one integer rounds `x` half to even. */
  lemma RoundsHalfEvenUnique(x: real, m: int, n: int)
    requires RoundsHalfEven(x, m) && RoundsHalfEven(x, n)
    ensures m == n
  {
  }

  /** Inside [0, 255] the clamp is exactly round-half-to-even: any integer that
      rounds `x` that way is the value stored. */
  lemma ToUint8ClampIsRounding(x: real, n: int)
    requires 0.0 <= x <= 255.0
    requires RoundsHalfEven(x, n)
    ensures ToUint8Clamp(x) == n
  {
    RoundsHalfEvenUnique(x, ToUint8Clamp(x), n);
  }

  /** A JavaScript number as far as the clamped store cares: a finite value,
      or NaN (what `undefined * 255` gives). */
  datatype Number = Finite(x: real) | NaN

  /** ToUint8Clamp on a JavaScript number: NaN stores 0 (step 2 of the
      conversion), a finite value is clamped and rounded. */
  function ToUint8ClampNumber(v: Number): byte
  {
    match v
    case NaN => 0
    case Finite(x) => ToUint8Clamp(x)
  }

  /** A larger input never stores a smaller byte. */
  lemma ToUint8ClampMonotone(x: real, y: real)
    requires x <= y
    ensures ToUint8Clamp(x) <= ToUint8Clamp(y)
  {
  }

  /** The byte stored for intensity `v`: the assignment `data[i] * 255` into a
      clamped array. */
  function ToByte(v: real): (b: byte)
    ensures v <= 0.0 ==> b == 0
    ensures v >= 1.0 ==> b == MaxByte
    ensures 0.0 <= v <= 1.0 ==> RoundsHalfEven(v * 255.0, b)
  {
    ToUint8Clamp(v * 255.0)
  }
}

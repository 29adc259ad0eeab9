/** The C++ `int32_t` type and the implicit conversion from `double` to it,
    which drops the fractional part (truncation toward zero). */
module Int32Conversion {

  /** The values of a 32-bit two's-complement `int32_t`. */
  newtype int32 = x: int | -0x8000_0000 <= x < 0x8000_0000

  /** `r` is `x` with its fractional part dropped: the integer next to `x`
      on the side of zero. */
  predicate TruncatesTo(x: real, r: int)
  {
    if x >= 0.0 then r as real <= x < r as real + 1.0
    else r as real - 1.0 < x <= r as real
  }

  /** A floating-to-integer conversion into `int32_t` is defined only when the
      truncated value is representable; anything else is undefined behaviour. */
  predicate FitsInt32(x: real)
  {
    -2147483649.0 < x < 2147483648.0
  }

  /** Truncation toward zero over the reals. */
  function Trunc(x: real): (r: int)
    ensures TruncatesTo(x, r)
    ensures -1.0 < x < 1.0 ==> r == 0
  {
    if x >= 0.0 then x.Floor else -((-x).Floor)
  }

  /** The implicit `double` to `int32_t` conversion of a return statement. */
  function ToInt32(x: real): (r: int32)
    requires FitsInt32(x)
    ensures TruncatesTo(x, r as int)
    ensures x >= 0.0 ==> r >= 0
    ensures x <= 0.0 ==> r <= 0
  {
    Trunc(x) as int32
  }

  /** The truncation of a value is unique: `TruncatesTo` is a specification
      that determines its result. */
  lemma TruncUnique(x: real, r1: int, r2: int)
    requires TruncatesTo(x, r1) && TruncatesTo(x, r2)
    ensures r1 == r2
  {
    if x >= 0.0 {
      assert r1 as real < r2 as real + 1.0 && r2 as real < r1 as real + 1.0;
    } else {
      assert r1 as real - 1.0 < r2 as real && r2 as real - 1.0 < r1 as real;
    }
  }

  /** Truncation never decreases when its argument grows. */
  lemma TruncMonotone(x: real, y: real)
    requires x <= y
    ensures Trunc(x) <= Trunc(y)
  {
    if x < 0.0 && y >= 0.0 {
      assert Trunc(x) <= 0 <= Trunc(y);
    } else if x < 0.0 {
      assert (-y).Floor <= (-x).Floor;
    }
  }

  /** The same, stated of any two truncations rather than of `Trunc`. */
  lemma TruncatesToMonotone(x: real, y: real, rx: int, ry: int)
    requires x <= y && TruncatesTo(x, rx) && TruncatesTo(y, ry)
    ensures rx <= ry
  {
    TruncMonotone(x, y);
    TruncUnique(x, rx, Trunc(x));
    TruncUnique(y, ry, Trunc(y));
  }

  /** Truncation is symmetric about zero: `Trunc(-x) == -Trunc(x)`. */
  lemma TruncOdd(x: real)
    ensures Trunc(-x) == -Trunc(x)
  {
    if x == 0.0 {
      assert -x == 0.0;
    }
  }

  /** The same, stated of any two truncations rather than of `Trunc`. */
  lemma TruncatesToOdd(x: real, rx: int, rn: int)
    requires TruncatesTo(x, rx) && TruncatesTo(-x, rn)
    ensures rn == -rx
  {
    TruncOdd(x);
    TruncUnique(x, rx, Trunc(x));
    TruncUnique(-x, rn, Trunc(-x));
  }
}

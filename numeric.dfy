/** Integer and real helpers standing in for C# numeric conversions.
    Single and double precision floats are modelled as reals; the `(int)` cast
    truncates toward zero; `int` division in C# truncates toward zero as well. */
module Numeric {

  function Min(a: int, b: int): int { if a <= b then a else b }
  function Max(a: int, b: int): int { if a >= b then a else b }
  function Abs(a: int): nat { if a < 0 then -a else a }

  /** The C# cast `(int)r` of a float or double: truncation toward zero. */
  function Trunc(r: real): int {
    if r >= 0.0 then r.Floor else -((-r).Floor)
  }

  /** The product of two non-negative reals is non-negative. */
  lemma ProductNonNegative(a: real, b: real)
    requires a >= 0.0 && b >= 0.0
    ensures a * b >= 0.0
  {
  }

  /** Truncation drops the fractional part, toward zero. */
  lemma TruncBounds(r: real)
    ensures r >= 0.0 ==> Trunc(r) >= 0 && Trunc(r) as real <= r < Trunc(r) as real + 1.0
    ensures r < 0.0 ==> Trunc(r) <= 0 && Trunc(r) as real - 1.0 < r <= Trunc(r) as real
  {
  }

  /** `(int)(v * s)` for an integer coordinate v and a float factor s. */
  function ScaleCoord(v: int, s: real): int {
    Trunc(v as real * s)
  }

  /** Truncating an integral value gives the integer back. */
  lemma TruncOfInt(n: int)
    ensures Trunc(n as real) == n
  {
  }

  /** Truncation is monotone. */
  lemma TruncMonotone(a: real, b: real)
    requires a <= b
    ensures Trunc(a) <= Trunc(b)
  {
    TruncBounds(a);
    TruncBounds(b);
  }

  /** An integer bound below or above a real survives truncation. */
  lemma TruncBetween(lo: int, r: real, hi: int)
    requires lo as real <= r <= hi as real
    ensures lo <= Trunc(r) <= hi
  {
    TruncOfInt(lo);
    TruncOfInt(hi);
    TruncMonotone(lo as real, r);
    TruncMonotone(r, hi as real);
  }

  /** Scaling by an integral factor is exact. */
  lemma ScaleCoordByInteger(v: int, k: int)
    ensures ScaleCoord(v, k as real) == v * k
  {
    assert v as real * k as real == (v * k) as real;
    TruncOfInt(v * k);
  }

  /** A non-negative factor keeps two coordinates in order. */
  lemma ScaleCoordMonotone(a: int, b: int, s: real)
    requires a <= b && s >= 0.0
    ensures ScaleCoord(a, s) <= ScaleCoord(b, s)
  {
    assert a as real * s <= b as real * s by {
      assert (b - a) as real * s >= 0.0;
    }
    TruncMonotone(a as real * s, b as real * s);
  }

  /** Euclidean division splits a number into quotient and remainder. */
  lemma DivModSplit(x: int, d: int)
    requires d > 0
    ensures x == (x / d) * d + x % d && 0 <= x % d < d
  {
  }

  /** A quotient and remainder in range are the Euclidean ones. */
  lemma DivModUnique(x: int, d: int, q: int, r: int)
    requires d > 0 && 0 <= r < d && x == q * d + r
    ensures x / d == q && x % d == r
  {
    var q', r' := x / d, x % d;
    assert x == q' * d + r';
    if q' > q {
      assert (q' - q) * d >= d by { MulAtLeast(q' - q, d); }
      assert false;
    } else if q' < q {
      assert (q - q') * d >= d by { MulAtLeast(q - q', d); }
      assert false;
    }
  }

  lemma MulAtLeast(k: int, d: int)
    requires k >= 1 && d > 0
    ensures k * d >= d
  {
  }

  /** Products of non-negative factors are monotone. */
  lemma MulMonotone(a: int, b: int, c: int, d: int)
    requires 0 <= a <= c && 0 <= b <= d
    ensures a * b <= c * d
  {
    assert a * b <= c * b by {
      assert (c - a) * b >= 0;
    }
    assert c * b <= c * d by {
      assert c * (d - b) >= 0;
    }
  }

  /** A quotient of reals 0 <= x <= y with y positive lies in [0, 1]. */
  lemma RatioInUnit(x: real, y: real)
    requires 0.0 <= x <= y && y > 0.0
    ensures 0.0 <= x / y <= 1.0
  {
    assert x / y * y == x;
  }

  /** C# `a / b` on `int`: the quotient truncated toward zero
      (Dafny's own `/` is Euclidean). */
  function CsDiv(a: int, b: int): (q: int)
    requires b != 0
    ensures a >= 0 && b > 0 ==> q == a / b
  {
    var q := Abs(a) / Abs(b);
    if (a < 0) != (b < 0) then -q else q
  }

  /** The decimal digits of a natural number, most significant first. */
  function NatDigits(n: nat): (s: string)
    ensures |s| >= 1
    ensures forall i :: 0 <= i < |s| ==> '0' <= s[i] <= '9'
    decreases n
  {
    if n < 10 then [DigitChar(n)] else NatDigits(n / 10) + [DigitChar(n % 10)]
  }

  function DigitChar(d: nat): (c: char)
    requires d < 10
    ensures '0' <= c <= '9'
  {
    ('0' as int + d) as char
  }

  /** C# `int.ToString()` with the invariant culture. */
  function IntToString(n: int): (s: string)
    ensures |s| >= 1
    ensures n < 0 <==> s[0] == '-'
  {
    if n < 0 then "-" + NatDigits(-n) else NatDigits(n)
  }
}

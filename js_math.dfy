/**
 * The few JavaScript number operations the wheel's arithmetic uses, written
 * over exact reals and unbounded integers.  JavaScript's `%` keeps the sign
 * of the dividend (it truncates the quotient toward zero), which differs
 * from Dafny's Euclidean `%`; `Math.round` rounds halves toward +infinity.
 */
module JsMath {

  /** `Math.abs` on an integer-valued number. */
  function Abs(x: int): (r: nat)
    ensures r == x || r == -x
  {
    if x < 0 then -x else x
  }

  /** `Math.floor`: the greatest integer not above `x`. */
  function Floor(x: real): (r: int)
    ensures r as real <= x < r as real + 1.0
  {
    x.Floor
  }

  /** Truncation toward zero, the quotient rounding JavaScript's `%` uses. */
  function Trunc(x: real): (r: int)
    ensures x >= 0.0 ==> r >= 0 && r as real <= x < r as real + 1.0
    ensures x < 0.0 ==> r <= 0 && r as real - 1.0 < x <= r as real
  {
    if x >= 0.0 then Floor(x) else -Floor(-x)
  }

  /** `Math.round`: the nearest integer, halves going toward +infinity. */
  function Round(x: real): (r: int)
    ensures r as real - 0.5 <= x < r as real + 0.5
  {
    Floor(x + 0.5)
  }

  /** JavaScript's `x % m` on numbers, for a positive modulus: the result
      differs from `x` by a whole number of moduli and takes the sign of `x`. */
  function Rem(x: real, m: real): (r: real)
    requires m > 0.0
    ensures x >= 0.0 ==> 0.0 <= r < m
    ensures x < 0.0 ==> -m < r <= 0.0
    ensures Floor((x - r) / m) as real == (x - r) / m
  {
    TruncScaled(x, m);
    x - Trunc(x / m) as real * m
  }

  /** The truncated quotient, multiplied back by the divisor, brackets `x`. */
  lemma TruncScaled(x: real, m: real)
    requires m > 0.0
    ensures var p := Trunc(x / m) as real * m;
      && (x >= 0.0 ==> p <= x < p + m)
      && (x < 0.0 ==> p - m < x <= p)
      && p / m == Trunc(x / m) as real
  {
    var y := x / m;
    assert y * m == x;
    if x >= 0.0 {
      if y < 0.0 { MulStrict(y, 0.0, m); }
      Bracket(x, m, y, Trunc(y) as real, Trunc(y) as real + 1.0);
    } else {
      if y >= 0.0 { MulMonotone(0.0, y, m); }
      Bracket(x, m, y, Trunc(y) as real - 1.0, Trunc(y) as real);
    }
  }

  /** Bounds `lo <= y < hi` on the quotient `y = x / m` become bounds on `x`. */
  lemma Bracket(x: real, m: real, y: real, lo: real, hi: real)
    requires m > 0.0 && y * m == x
    ensures lo <= y ==> lo * m <= x
    ensures lo < y ==> lo * m < x
    ensures y < hi ==> x < hi * m
    ensures y <= hi ==> x <= hi * m
  {
    if lo <= y { MulMonotone(lo, y, m); }
    if lo < y { MulStrict(lo, y, m); }
    if y < hi { MulStrict(y, hi, m); }
    if y <= hi { MulMonotone(y, hi, m); }
  }

  /** Scaling by a positive factor keeps a non-strict order. */
  lemma MulMonotone(a: real, b: real, m: real)
    requires m > 0.0 && a <= b
    ensures a * m <= b * m
  {
  }

  /** Scaling by a positive factor keeps a strict order. */
  lemma MulStrict(a: real, b: real, m: real)
    requires m > 0.0 && a < b
    ensures a * m < b * m
  {
  }

  /** Euclidean remainder is determined by any quotient/remainder split. */
  lemma DivModUnique(a: int, p: int, q: int, r: int)
    requires p > 0 && 0 <= r < p && a == q * p + r
    ensures a % p == r && a / p == q
  {
    var q', r' := a / p, a % p;
    assert a == q' * p + r';
    assert (q - q') * p == r' - r;
    SmallMultiple(q - q', p);
  }

  /** The only multiple of p strictly between -p and p is 0. */
  lemma SmallMultiple(k: int, p: int)
    requires p > 0 && -p < k * p < p
    ensures k == 0
  {
  }

  /** JavaScript's `a % m` on integer-valued numbers, for a positive modulus. */
  function RemInt(a: int, m: int): (r: int)
    requires m > 0
    ensures a >= 0 ==> 0 <= r < m
    ensures a < 0 ==> -m < r <= 0
    ensures Abs(r) == Abs(a) % m
  {
    if a >= 0 then a % m else -((-a) % m)
  }
}

/** The parts of JavaScript number semantics the monitor depends on: NaN in
    comparisons, `Math.floor`, and the remainder operator `%`, which truncates
    toward zero rather than flooring. Integer-valued doubles are modelled as
    exact reals; rounding of binary floating point is not modelled. */
module JsMath {

  /** A JavaScript number: a finite value or NaN (what `parseInt` and
      `parseFloat` give back when they find no digits). */
  datatype Number = Finite(value: real) | NaN

  /** `x >= t` in JavaScript: every comparison with NaN is false. */
  predicate AtLeast(x: Number, t: real)
  {
    x.Finite? && x.value >= t
  }

  /** Rounding toward zero, as `Math.trunc`: the whole number next to `x`
      on the side of 0. */
  function Trunc(x: real): (n: int)
    ensures 0.0 <= x ==> n as real <= x < n as real + 1.0
    ensures x < 0.0 ==> n as real - 1.0 < x <= n as real
  {
    if x >= 0.0 then x.Floor else -((-x).Floor)
  }

  function Abs(d: real): real
  {
    if d < 0.0 then -d else d
  }

  /** JavaScript's `x % d`: the remainder takes the sign of the dividend and
      is smaller than the divisor in magnitude. */
  function Rem(x: real, d: real): (r: real)
    requires d != 0.0
    ensures 0.0 <= x ==> 0.0 <= r < Abs(d)
    ensures x <= 0.0 ==> -Abs(d) < r <= 0.0
  {
    RemBounds(x, d);
    x - d * (Trunc(x / d) as real)
  }

  lemma RemBounds(x: real, d: real)
    requires d != 0.0
    ensures var r := x - d * (Trunc(x / d) as real);
      (0.0 <= x ==> 0.0 <= r < Abs(d)) && (x <= 0.0 ==> -Abs(d) < r <= 0.0)
  {
    var q := x / d;
    var n := Trunc(q) as real;
    QuotientSign(x, d);
    FractionScaled(x, d, n);
    ScaledFraction(x - d * n, q - n, d);
    if x == 0.0 {
      assert n == 0.0;
    }
  }

  /** The quotient is positive when dividend and divisor have the same sign,
      and negative when they differ. */
  lemma QuotientSign(x: real, d: real)
    requires d != 0.0
    ensures x == 0.0 ==> x / d == 0.0
    ensures x != 0.0 && (x > 0.0) == (d > 0.0) ==> x / d > 0.0
    ensures x != 0.0 && (x > 0.0) != (d > 0.0) ==> x / d < 0.0
  {
  }

  /** `x - d*n` is the fractional part of `x / d` scaled by `d`. */
  lemma FractionScaled(x: real, d: real, n: real)
    requires d != 0.0
    ensures x - d * n == (x / d - n) * d
  {
  }

  /** A fraction `f` of `d` lies between 0 and `d`, on the side of `f`'s sign. */
  lemma ScaledFraction(r: real, f: real, d: real)
    requires d != 0.0 && r == f * d
    ensures 0.0 <= f < 1.0 && d > 0.0 ==> 0.0 <= r < d
    ensures 0.0 <= f < 1.0 && d < 0.0 ==> d < r <= 0.0
    ensures -1.0 < f <= 0.0 && d > 0.0 ==> -d < r <= 0.0
    ensures -1.0 < f <= 0.0 && d < 0.0 ==> 0.0 <= r < -d
  {
    if 0.0 <= f < 1.0 && d > 0.0 {
      FractionOfPositive(r, f, d);
    } else if 0.0 <= f < 1.0 && d < 0.0 {
      FractionOfPositive(-r, f, -d);
    } else if -1.0 < f <= 0.0 && d > 0.0 {
      FractionOfPositive(-r, -f, d);
    } else if -1.0 < f <= 0.0 && d < 0.0 {
      FractionOfPositive(r, -f, -d);
    }
  }

  lemma FractionOfPositive(r: real, f: real, d: real)
    requires d > 0.0 && 0.0 <= f < 1.0 && r == f * d
    ensures 0.0 <= r < d
  {
    ProductSigns(f, d);
    ProductSigns(1.0 - f, d);
    assert (1.0 - f) * d == d - f * d;
  }

  /** The sign of `a * e` for a positive `e`. */
  lemma ProductSigns(a: real, e: real)
    requires e > 0.0
    ensures a >= 0.0 ==> a * e >= 0.0
    ensures a > 0.0 ==> a * e > 0.0
  {
  }

  /** For a non-negative dividend, `Math.floor(x / n)` only depends on the
      whole part of `x`. */
  lemma FloorOfQuotient(x: real, n: int)
    requires x >= 0.0 && n > 0
    ensures (x / n as real).Floor == x.Floor / n
  {
    var f := x.Floor;
    var q, r := f / n, f % n;
    assert f == q * n + r && 0 <= r < n;
    var y := x / n as real;
    assert y * n as real == x;
    assert (q * n) as real <= x;
    assert x < ((q + 1) * n) as real by {
      assert f + 1 <= (q + 1) * n;
    }
    ScaleBounds(y, q, n);
  }

  /** If `q*n <= y*n < (q+1)*n` with `n > 0`, then `q` is the floor of `y`. */
  lemma ScaleBounds(y: real, q: int, n: int)
    requires n > 0
    requires (q * n) as real <= y * n as real < ((q + 1) * n) as real
    ensures y.Floor == q
  {
    assert (q * n) as real == q as real * n as real;
    assert ((q + 1) * n) as real == (q + 1) as real * n as real;
    if y < q as real {
      assert false;
    }
    if y >= (q + 1) as real {
      assert false;
    }
  }

  /** For a non-negative dividend, `x % n` is non-negative and its whole part
      is the integer remainder of the whole part of `x`. */
  lemma FloorOfRemainder(x: real, n: int)
    requires x >= 0.0 && n > 0
    ensures Rem(x, n as real) >= 0.0
    ensures Rem(x, n as real).Floor == x.Floor % n
  {
    FloorOfQuotient(x, n);
    var q := x.Floor / n;
    assert Trunc(x / n as real) == q;
    assert Rem(x, n as real) == x - (q * n) as real;
    assert x.Floor == q * n + x.Floor % n;
  }

  /** `Math.floor((x % m) / n)` on a non-negative `x` is the integer
      `(floor(x) % m) / n`. */
  lemma FloorOfRemainderQuotient(x: real, m: int, n: int)
    requires x >= 0.0 && m > 0 && n > 0
    ensures (Rem(x, m as real) / n as real).Floor == (x.Floor % m) / n
  {
    FloorOfRemainder(x, m);
    FloorOfQuotient(Rem(x, m as real), n);
  }

  /** Days, hours, minutes and seconds of a whole number of seconds, by
      integer division and remainder: each field is below its modulus and the
      weighted sum gives the seconds back. */
  lemma SplitSeconds(f: int)
    requires f >= 0
    ensures (f % 86400) / 3600 < 24 && (f % 3600) / 60 < 60 && f % 60 < 60
    ensures (f / 86400) * 86400 + ((f % 86400) / 3600) * 3600 + ((f % 3600) / 60) * 60 + f % 60 == f
  {
    HoursOfDayRemainder(f);
    MinutesOfHourRemainder(f);
    var r := f % 86400;
    assert f == 86400 * (f / 86400) + r;
    assert r == 3600 * (r / 3600) + r % 3600;
    var r' := f % 3600;
    assert r' == 60 * (r' / 60) + r' % 60;
  }

  /** A day is a whole number of hours: the remainder by 86400 has the same
      remainder by 3600. */
  lemma HoursOfDayRemainder(f: int)
    requires f >= 0
    ensures (f % 86400) % 3600 == f % 3600
  {
    var q, r := f / 86400, f % 86400;
    var q', r' := r / 3600, r % 3600;
    assert f == 86400 * q + r && r == 3600 * q' + r' && 0 <= r' < 3600;
    var h := f / 3600;
    assert f == 3600 * h + f % 3600 && 0 <= f % 3600 < 3600;
    assert h == 24 * q + q';
  }

  /** An hour is a whole number of minutes. */
  lemma MinutesOfHourRemainder(f: int)
    requires f >= 0
    ensures (f % 3600) % 60 == f % 60
  {
    var q, r := f / 3600, f % 3600;
    var q', r' := r / 60, r % 60;
    assert f == 3600 * q + r && r == 60 * q' + r' && 0 <= r' < 60;
    var m := f / 60;
    assert f == 60 * m + f % 60 && 0 <= f % 60 < 60;
    assert m == 60 * q + q';
  }

  /** `Math.floor` of `x / 86400`, `(x % 86400) / 3600`, `(x % 3600) / 60`
      and `x % 60`, on a non-negative `x`, are the integer day, hour, minute
      and second fields of `floor(x)`. */
  lemma FlooredDayFields(seconds: real)
    requires seconds >= 0.0
    ensures (seconds / 86400 as real).Floor == seconds.Floor / 86400
    ensures (Rem(seconds, 86400 as real) / 3600 as real).Floor == (seconds.Floor % 86400) / 3600
    ensures (Rem(seconds, 3600 as real) / 60 as real).Floor == (seconds.Floor % 3600) / 60
    ensures Rem(seconds, 60 as real).Floor == seconds.Floor % 60
    ensures (seconds.Floor % 86400) / 3600 < 24 && (seconds.Floor % 3600) / 60 < 60 && seconds.Floor % 60 < 60
    ensures (seconds.Floor / 86400) * 86400 + ((seconds.Floor % 86400) / 3600) * 3600
            + ((seconds.Floor % 3600) / 60) * 60 + seconds.Floor % 60 == seconds.Floor
  {
    FloorOfQuotient(seconds, 86400);
    FloorOfRemainderQuotient(seconds, 86400, 3600);
    FloorOfRemainderQuotient(seconds, 3600, 60);
    FloorOfRemainder(seconds, 60);
    SplitSeconds(seconds.Floor);
  }
}

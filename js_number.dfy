/**
 * The few JavaScript `Math` operations and operators the renderer uses,
 * written over exact reals: `Math.ceil`, `Math.round` and the remainder
 * operator `%`, which truncates toward zero (unlike Dafny's Euclidean `%`).
 */
module JsNumber {

  /** `Math.ceil`: the least integer not below `x`. */
  function Ceil(x: real): (n: int)
    ensures x <= n as real < x + 1.0
  {
    -((-x).Floor)
  }

  /** Truncation toward zero, the quotient rule of JavaScript's `%`. */
  function Trunc(x: real): (n: int)
    ensures 0.0 <= x ==> n as real <= x < n as real + 1.0
    ensures x < 0.0 ==> x <= n as real < x + 1.0
  {
    if x >= 0.0 then x.Floor else -((-x).Floor)
  }

  /** `Math.round`: rounds half-way cases toward +infinity. */
  function Round(x: real): (n: int)
    ensures x - 0.5 < n as real <= x + 0.5
  {
    (x + 0.5).Floor
  }

  /** JavaScript's `x % m` on numbers: the sign follows the dividend. */
  function JsRemainder(x: real, m: real): real
    requires m != 0.0
  {
    x - m * (Trunc(x / m) as real)
  }

  /** For a non-negative dividend and a positive divisor, `%` lands in `[0, m)`. */
  lemma RemainderInPeriod(x: real, m: real)
    requires 0.0 <= x && 0.0 < m
    ensures 0.0 <= JsRemainder(x, m) < m
  {
    var q := x / m;
    var k := Trunc(q);
    assert q * m == x;
    MulMono(k as real, q, m);
    MulMonoStrict(q, k as real + 1.0, m);
    calc {
      x;
    ==
      q * m;
    <
      (k as real + 1.0) * m;
    ==
      k as real * m + m;
    }
    assert JsRemainder(x, m) == x - k as real * m;
  }

  /** A dividend already inside `[0, m)` is its own remainder. */
  lemma RemainderOfSmall(x: real, m: real)
    requires 0.0 <= x < m
    ensures JsRemainder(x, m) == x
  {
    var q := x / m;
    assert q * m == x;
    if q >= 1.0 {
      MulMono(1.0, q, m);
      assert false;
    }
    assert Trunc(q) == 0;
  }

  /** Adding one period to a non-negative dividend leaves the remainder
      unchanged. */
  lemma RemainderShift(x: real, m: real)
    requires 0.0 <= x && 0.0 < m
    ensures JsRemainder(x + m, m) == JsRemainder(x, m)
  {
    var q := x / m;
    var q1 := (x + m) / m;
    assert q1 == q + 1.0 by {
      assert q * m == x && q1 * m == x + m;
      assert (q1 - q - 1.0) * m == 0.0;
      if q1 - q - 1.0 > 0.0 {
        MulMonoStrict(0.0, q1 - q - 1.0, m);
      } else if q1 - q - 1.0 < 0.0 {
        MulMonoStrict(q1 - q - 1.0, 0.0, m);
      }
    }
    var k := Trunc(q);
    assert Trunc(q1) == k + 1;
    assert m * ((k + 1) as real) == m * (k as real) + m;
  }

  /** A dividend less than one step past the period, with a step no longer
      than the period, wraps exactly once. */
  lemma RemainderPastPeriod(d: real, m: real, step: real)
    requires 0.0 < m && step <= m && m <= d < m + step
    ensures JsRemainder(d, m) == d - m
  {
    RemainderOfSmall(d - m, m);
    RemainderShift(d - m, m);
    assert d - m + m == d;
  }

  lemma ScaleDiv(a: real, f: real, s: real)
    requires f != 0.0
    ensures (a / f) * s == a * ((1.0 / f) * s)
  {
  }

  lemma NonNegProduct(a: real, b: real)
    requires 0.0 <= a && 0.0 <= b
    ensures 0.0 <= a * b
  {
  }

  lemma MulMono(a: real, b: real, m: real)
    requires a <= b && 0.0 <= m
    ensures a * m <= b * m
  {
    assert b * m - a * m == (b - a) * m;
  }

  lemma MulMonoStrict(a: real, b: real, m: real)
    requires a < b && 0.0 < m
    ensures a * m < b * m
  {
    assert b * m - a * m == (b - a) * m;
  }
}

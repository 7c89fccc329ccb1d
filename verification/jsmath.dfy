/** The pieces of JavaScript number arithmetic the engine relies on, stated
    over exact reals: `Math.min`/`Math.max`, `Math.PI`, the truncating `%`
    operator and rounding toward zero. */
module JsMath {

  /** `Math.PI`, written out to the digits JavaScript prints for it. */
  const Pi: real := 3.141592653589793

  function Min(a: real, b: real): (r: real)
    ensures r <= a && r <= b
    ensures r == a || r == b
  {
    if a <= b then a else b
  }

  function Max(a: real, b: real): (r: real)
    ensures a <= r && b <= r
    ensures r == a || r == b
  {
    if a <= b then b else a
  }

  /** Rounding toward zero, the integer part JavaScript's `%` divides
      out. */
  function Trunc(x: real): (r: int)
    ensures 0.0 <= x ==> 0 <= r && r as real <= x < r as real + 1.0
    ensures x < 0.0 ==> r <= 0 && r as real - 1.0 < x <= r as real
  {
    if 0.0 <= x then x.Floor else -((-x).Floor)
  }

  /** Rounding up: the number of naturals `i` with `i < x`, for `x > 0`. */
  function Ceil(x: real): (r: int)
    ensures x <= r as real < x + 1.0
  {
    if x == x.Floor as real then x.Floor else x.Floor + 1
  }

  /** JavaScript's `a % b` for a positive divisor: the remainder keeps the
      sign of the dividend (unlike Dafny's Euclidean `%`). */
  function Rem(a: real, b: real): (r: real)
    requires 0.0 < b
    ensures 0.0 <= a ==> 0.0 <= r < b
    ensures a < 0.0 ==> -b < r <= 0.0
    ensures 0.0 <= a < b ==> r == a
    ensures -b < a <= 0.0 ==> r == a
    ensures a - r == b * Trunc(a / b) as real
  {
    var x := a / b;
    var q := Trunc(x);
    assert a == b * x;
    RemainderBounds(a, b, x, q, x - q as real);
    a - b * q as real
  }

  /** With `q` the truncation of `x = a / b`, the remainder `a - b * q` is
      `b` times the fractional part `t` of `x`, so it lies within one
      divisor of zero on the dividend's side; when `a` is already within
      one divisor of zero the quotient is zero. */
  lemma RemainderBounds(a: real, b: real, x: real, q: int, t: real)
    requires 0.0 < b && a == b * x && t == x - q as real
    requires 0.0 <= x ==> 0.0 <= t < 1.0 && 0 <= q
    requires x < 0.0 ==> -1.0 < t <= 0.0 && q <= 0
    ensures 0.0 <= a ==> 0.0 <= a - b * q as real < b
    ensures a < 0.0 ==> -b < a - b * q as real <= 0.0
    ensures -b < a < b ==> q == 0
  {
    var r := a - b * q as real;
    assert r == b * t by { Factor(b, x, q as real); }
    assert 0.0 <= a <==> 0.0 <= x by { MulLeMono(b, 0.0, x); }
    assert a < b ==> x < 1.0 by { MulLtMono(b, x, 1.0); }
    assert -b < a ==> -1.0 < x by { MulLtMono(b, -1.0, x); }
    if 0.0 <= x {
      ScaleFraction(b, t, r);
    } else {
      ScaleFraction(b, -t, -r);
    }
  }

  lemma Factor(b: real, x: real, y: real)
    ensures b * x - b * y == b * (x - y)
  {
  }

  lemma ScaleFraction(b: real, t: real, r: real)
    requires 0.0 < b && 0.0 <= t < 1.0 && r == b * t
    ensures 0.0 <= r < b
  {
    MulLeMono(b, 0.0, t);
    MulLtMono(b, t, 1.0);
  }

  lemma MulLeMono(k: real, x: real, y: real)
    requires 0.0 < k
    ensures x <= y <==> k * x <= k * y
  {
    assert k * y - k * x == k * (y - x);
  }

  lemma MulLtMono(k: real, x: real, y: real)
    requires 0.0 < k
    ensures x < y <==> k * x < k * y
  {
    assert k * y - k * x == k * (y - x);
  }

  /** A whole number of turns of 360 degrees. */
  predicate WholeTurns(x: real) {
    x / 360.0 == (x / 360.0).Floor as real
  }

  /** `a % 360` differs from `a` by whole turns. */
  lemma RemTurns(a: real)
    ensures WholeTurns(a - Rem(a, 360.0))
  {
    assert (a - Rem(a, 360.0)) / 360.0 == Trunc(a / 360.0) as real;
  }

  /** `a + u * (b - a)` for a `Math.random()` draw `u`: a point between
      `a` and `b`, whichever is larger. */
  function Lerp(a: real, b: real, u: real): (r: real)
    requires 0.0 <= u <= 1.0
    ensures Min(a, b) <= r <= Max(a, b)
  {
    var d := b - a;
    LerpBounds(a, b, u, d, u * d);
    a + u * d
  }

  lemma LerpBounds(a: real, b: real, u: real, d: real, p: real)
    requires 0.0 <= u <= 1.0 && d == b - a && p == u * d
    ensures Min(a, b) <= a + p <= Max(a, b)
  {
    if 0.0 <= d {
      ScaleBetween(u, 0.0, 1.0, d, p);
      assert 0.0 <= p <= d;
      assert Min(a, b) == a && Max(a, b) == b;
    } else {
      ScaleBetween(u, 0.0, 1.0, -d, -p);
      assert d <= p <= 0.0;
      assert Min(a, b) == b && Max(a, b) == a;
    }
  }

  lemma ScaleUnit(u: real, d: real)
    requires 0.0 <= u <= 1.0
    ensures 0.0 <= d ==> 0.0 <= u * d <= d
    ensures d <= 0.0 ==> d <= u * d <= 0.0
  {
    if d > 0.0 {
      MulLeMono(d, 0.0, u);
      MulLeMono(d, u, 1.0);
    } else if d < 0.0 {
      MulLeMono(-d, 0.0, u);
      MulLeMono(-d, u, 1.0);
    }
  }

  /** `Math.sin` and `Math.cos` are parameters of the model; all that is
      relied on is that their values lie in [-1, 1]. */
  ghost predicate IsWave(f: real -> real) {
    forall x :: -1.0 <= f(x) <= 1.0
  }

  /** A wave value scaled by a non-negative amplitude stays within it. */
  lemma WaveScale(w: real, k: real)
    requires -1.0 <= w <= 1.0 && 0.0 <= k
    ensures -k <= w * k <= k
  {
    if k > 0.0 {
      MulLeMono(k, -1.0, w);
      MulLeMono(k, w, 1.0);
    }
  }

  /** A factor between `lo` and `hi` times a non-negative amount lies
      between `lo` and `hi` times that amount. */
  lemma ScaleBetween(f: real, lo: real, hi: real, m: real, r: real)
    requires lo <= f <= hi && 0.0 <= m && r == f * m
    ensures lo * m <= r <= hi * m
  {
    if 0.0 < m {
      MulLeMono(m, lo, f);
      MulLeMono(m, f, hi);
    }
  }
}

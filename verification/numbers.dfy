/** Exact integer and rational helpers standing for the Python numerics the
    builders use: `round` on a float, `int(...)` on a float, and `gcd`. */
module Numbers {

  /** True when `x` has no fractional part (Python: `x == int(x)`). */
  predicate IsIntegral(x: real) {
    x == x.Floor as real
  }

  /** Python's built-in `round` with no digits: nearest integer, ties to even. */
  function RoundHalfEven(x: real): (r: int)
    ensures x - 0.5 <= r as real <= x + 0.5
    ensures IsIntegral(x) ==> r as real == x && r == x.Floor
    ensures r as real - x == 0.5 || x - r as real == 0.5 ==> r % 2 == 0
  {
    var f := x.Floor;
    var d := x - f as real;
    if d < 0.5 then f
    else if d > 0.5 then f + 1
    else if f % 2 == 0 then f
    else f + 1
  }

  /** No integer is strictly closer to `x` than its rounding. */
  lemma RoundIsNearest(x: real, k: int)
    ensures Abs(x - RoundHalfEven(x) as real) <= Abs(x - k as real)
  {
    var f := x.Floor;
    assert f as real <= x < f as real + 1.0;
    if k <= f - 1 {
    } else if k >= f + 2 {
    }
  }

  function Abs(x: real): real {
    if x < 0.0 then -x else x
  }

  /** Python's `int(...)` on a float: truncation toward zero. */
  function Trunc(x: real): (r: int)
    ensures 0.0 <= x ==> 0 <= r && r as real <= x < r as real + 1.0
    ensures x < 0.0 ==> r <= 0 && r as real - 1.0 < x <= r as real
    ensures IsIntegral(x) ==> r as real == x
  {
    if x >= 0.0 then
      var f := x.Floor;
      assert f as real <= x < f as real + 1.0;
      assert IsIntegral(x) ==> f as real == x;
      f
    else
      var f := (-x).Floor;
      assert f as real <= -x < f as real + 1.0;
      assert IsIntegral(x) ==> x.Floor == -f;
      -f
  }

  function IntAbs(a: int): nat {
    if a < 0 then -a else a
  }

  /** Euclid's algorithm on naturals. */
  function NatGcd(a: nat, b: nat): nat
    decreases b
  {
    if b == 0 then a else NatGcd(b, a % b)
  }

  /** `math.gcd` / `numpy.gcd` on integers: the non-negative gcd of the
      magnitudes, with gcd(0, 0) == 0. */
  function Gcd(a: int, b: int): nat {
    NatGcd(IntAbs(a), IntAbs(b))
  }

  /** `d` divides `n`; 0 divides only 0. */
  predicate Divides(d: nat, n: int) {
    if d == 0 then n == 0 else n % d == 0
  }

  lemma MulMod(d: int, k: int)
    requires d > 0
    ensures (d * k) % d == 0
    ensures (d * k) / d == k
  {
    var q, r := (d * k) / d, (d * k) % d;
    assert d * k == d * q + r && 0 <= r < d;
    assert d * (k - q) == r;
    MulSign(d, k - q);
  }

  /** A positive multiple of `d` is at least `d` in magnitude. */
  lemma MulSign(d: int, m: int)
    requires d > 0
    ensures m >= 1 ==> d * m >= d
    ensures m <= -1 ==> d * m <= -d
  {
    if m >= 1 {
      assert d * m == d * (m - 1) + d;
    } else if m <= -1 {
      assert d * m == -(d * (-m - 1)) - d;
    }
  }

  /** Divisibility is closed under `x*q + y`. */
  lemma DividesCombination(d: nat, x: int, y: int, q: int)
    requires Divides(d, x) && Divides(d, y)
    ensures Divides(d, x * q + y)
  {
    if d > 0 {
      var kx, ky := x / d, y / d;
      assert x == d * kx;
      assert y == d * ky;
      assert x * q + y == d * (kx * q + ky);
      MulMod(d, kx * q + ky);
    }
  }

  lemma DividesNegation(d: nat, x: int)
    requires Divides(d, x)
    ensures Divides(d, -x)
  {
    DividesCombination(d, x, 0, -1);
  }

  lemma {:induction false} NatGcdDividesBoth(a: nat, b: nat)
    ensures Divides(NatGcd(a, b), a) && Divides(NatGcd(a, b), b)
    decreases b
  {
    if b != 0 {
      var g := NatGcd(b, a % b);
      NatGcdDividesBoth(b, a % b);
      assert a == b * (a / b) + a % b;
      DividesCombination(g, b, a % b, a / b);
    }
  }

  lemma {:induction false} NatGcdGreatest(a: nat, b: nat, d: nat)
    requires Divides(d, a) && Divides(d, b)
    ensures Divides(d, NatGcd(a, b))
    decreases b
  {
    if b != 0 {
      assert a % b == a + b * -(a / b);
      DividesCombination(d, b, a, -(a / b));
      NatGcdGreatest(b, a % b, d);
    }
  }

  lemma {:induction false} NatGcdZero(a: nat, b: nat)
    ensures NatGcd(a, b) == 0 <==> a == 0 && b == 0
    decreases b
  {
    if b != 0 {
      NatGcdZero(b, a % b);
    }
  }

  lemma DividesAbs(d: nat, n: int)
    ensures Divides(d, IntAbs(n)) <==> Divides(d, n)
  {
    if n < 0 {
      if Divides(d, n) { DividesNegation(d, n); }
      if Divides(d, -n) { DividesNegation(d, -n); }
    }
  }

  /** The gcd used for an order's increments divides both sides, is a
      multiple of every common divisor, and is 0 only for two zeros. */
  lemma GcdIsGreatestCommonDivisor(a: int, b: int)
    ensures Divides(Gcd(a, b), a) && Divides(Gcd(a, b), b)
    ensures forall d: nat :: Divides(d, a) && Divides(d, b) ==> Divides(d, Gcd(a, b))
    ensures Gcd(a, b) == 0 <==> a == 0 && b == 0
  {
    NatGcdDividesBoth(IntAbs(a), IntAbs(b));
    DividesAbs(Gcd(a, b), a);
    DividesAbs(Gcd(a, b), b);
    NatGcdZero(IntAbs(a), IntAbs(b));
    forall d: nat | Divides(d, a) && Divides(d, b)
      ensures Divides(d, Gcd(a, b))
    {
      DividesAbs(d, a);
      DividesAbs(d, b);
      NatGcdGreatest(IntAbs(a), IntAbs(b), d);
    }
  }

  /** Exact division by a divisor: the quotient times the divisor gives
      back the dividend. */
  lemma ExactQuotient(d: nat, n: int)
    requires d > 0 && Divides(d, n)
    ensures (n / d) * d == n
    ensures (n as real) / (d as real) == (n / d) as real
  {
    assert n == d * (n / d) + n % d;
  }
}

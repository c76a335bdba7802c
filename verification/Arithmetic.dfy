/** Facts about products, quotients and remainders of integers. */
module Arithmetic {
  /** The largest safe integer of JavaScript, 2^53 - 1. */
  const MAX_SAFE: nat := 0x1F_FFFF_FFFF_FFFF

  function Min(a: int, b: int): int { if a <= b then a else b }

  function Pow2(n: nat): (p: nat)
    ensures p >= 1
  {
    if n == 0 then 1 else 2 * Pow2(n - 1)
  }

  lemma Positive(a: int, b: int)
    requires a >= 1 && b >= 1
    ensures a * b >= 1
  {}

  lemma Monotone(a: int, b: int, c: int)
    requires a <= b && c >= 0
    ensures a * c <= b * c
  {}

  /** Division with remainder determines quotient and remainder. */
  lemma DivUnique(a: int, m: int, q: int, r: int)
    requires m >= 1 && a == q * m + r && 0 <= r < m
    ensures a / m == q && a % m == r
  {
    var q', r' := a / m, a % m;
    assert a == q' * m + r';
    assert (q - q') * m == r' - r && (q' - q) * m == r - r';
    if q > q' { Monotone(1, q - q', m); }
    if q < q' { Monotone(1, q' - q, m); }
  }

  lemma DivAddMultiple(a: int, k: int, m: int)
    requires m >= 1
    ensures (a + k * m) / m == a / m + k
  {
    assert a + k * m == (a / m + k) * m + a % m;
    DivUnique(a + k * m, m, a / m + k, a % m);
  }

  /** Floors of numbers that lie `b` apart lie at least the floor of `b` apart. */
  lemma FloorDifference(a: int, b: int, m: int)
    requires m >= 1
    ensures (a + b) / m >= a / m + b / m
  {
    var r := a % m + b % m;
    assert a + b == r + (a / m + b / m) * m;
    DivAddMultiple(r, a / m + b / m, m);
  }

  lemma QuotientAtLeast(c: int, n: int, k: int)
    requires n >= 1 && c >= k * n
    ensures c / n >= k
  {
    assert c == (c - k * n) + k * n;
    DivAddMultiple(c - k * n, k, n);
  }

  /** Two digits of bases `p` and `q` make a number below `p * q`. */
  lemma TwoDigits(p: int, q: int, low: int, high: int)
    requires 0 <= low < p && 0 <= high < q
    ensures 0 <= high * p + low < p * q
    ensures (high * p + low) / p == high && (high * p + low) % p == low
  {
    Monotone(high, q - 1, p);
    Monotone(0, high, p);
    assert (q - 1) * p == p * q - p;
    DivUnique(high * p + low, p, high, low);
  }

  lemma DigitsOf(a: int, p: int, q: int)
    requires p >= 1 && 0 <= a < p * q
    ensures 0 <= a / p < q && 0 <= a % p < p && a == (a / p) * p + a % p
  {
    if a / p >= q { Monotone(q, a / p, p); }
  }

  lemma MulAssoc(a: int, b: int, c: int)
    ensures a * (b * c) == (a * b) * c
  {}

  lemma Distribute(a: int, b: int, c: int)
    ensures (a + b) * c == a * c + b * c
  {}

  /** `v` is `x` with the digit `a` of base `p` behind it; one more digit `d` of base `f` follows. */
  lemma PushOn(v: int, x: int, p: int, a: int, f: int, d: int)
    requires v == x * p + a && 0 <= a < p && 0 <= d < f
    ensures v * f + d == x * (p * f) + (a * f + d) && 0 <= a * f + d < p * f
  {
    Distribute(x * p, a, f);
    MulAssoc(x, p, f);
    Monotone(a + 1, p, f);
    Monotone(0, a, f);
    Distribute(a, 1, f);
  }

  /** The digit `a` of base `t * l` behind `x`, split into one of base `t` and one of base `l`. */
  lemma TakeOff(x: int, t: int, l: int, a: int)
    requires t >= 1 && l >= 1 && 0 <= a < t * l
    ensures 0 <= a / l < t && 0 <= a % l < l && x * (t * l) + a == (x * t + a / l) * l + a % l
  {
    DigitsOf(a, l, t);
    Distribute(x * t, a / l, l);
    MulAssoc(x, t, l);
  }

  /** `n * k` as a sum, for statements in which the solver need not multiply. */
  function Times(n: nat, k: nat): nat { if n == 0 then 0 else Times(n - 1, k) + k }

  lemma {:induction false} TimesIs(n: nat, k: nat)
    ensures Times(n, k) == n * k
  {
    if n > 0 {
      TimesIs(n - 1, k);
      Distribute(n - 1, 1, k);
    }
  }

  lemma {:induction false} TimesMonotone(m: nat, n: nat, k: nat)
    requires m <= n
    ensures Times(m, k) <= Times(n, k)
    decreases n
  {
    if m < n { TimesMonotone(m, n - 1, k); }
  }

  lemma {:induction false} TimesStrict(n: nat, k: nat, m: nat)
    requires k < m
    ensures Times(n, k) + n <= Times(n, m)
  {
    if n > 0 { TimesStrict(n - 1, k, m); }
  }
}

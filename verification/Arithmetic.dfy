/** Small facts about products and quotients, used across the project. */
module Arithmetic {

  // ----- 64-bit integers ------------------------------------------------------

  const MAX_INT64 := 0x7fff_ffff_ffff_ffff
  const TWO_TO_64 := 0x1_0000_0000_0000_0000

  /** Two's complement wrap-around of a 64-bit signed result. */
  function Wrap64(x: int): (w: int)
    ensures -MAX_INT64 - 1 <= w <= MAX_INT64
    ensures -MAX_INT64 - 1 <= x <= MAX_INT64 ==> w == x
  {
    (x + MAX_INT64 + 1) % TWO_TO_64 - MAX_INT64 - 1
  }

  // ----- products and quotients -----------------------------------------------

  lemma {:induction false} MulMono(a: int, b: int, k: int)
    requires a <= b && 0 <= k
    ensures a * k <= b * k
  {
  }

  /** A quotient is determined by its bounds. */
  lemma {:induction false} QuotientIs(x: int, k: int, q: int)
    requires 0 < k && q * k <= x < (q + 1) * k
    ensures x / k == q
  {
    var d := x / k;
    assert d * k <= x < (d + 1) * k;
    if d < q {
      MulMono(d + 1, q, k);
    } else if q < d {
      MulMono(q + 1, d, k);
    }
  }

  function Pow2(k: nat): (p: nat)
    ensures p >= 1
  {
    if k == 0 then 1 else 2 * Pow2(k - 1)
  }

  lemma {:induction false} Pow2Splits(j: nat, k: nat)
    ensures Pow2(j + k) == Pow2(j) * Pow2(k)
  {
    if j == 0 {
    } else {
      Pow2Splits(j - 1, k);
      assert 2 * (Pow2(j - 1) * Pow2(k)) == 2 * Pow2(j - 1) * Pow2(k);
    }
  }

  /** Dividing by a product is dividing twice. */
  lemma {:induction false} DivideTwice(x: int, s: int, k: int)
    requires 0 <= x && 0 < s && 0 < k
    ensures s * k > 0 && x / (s * k) == (x / s) / k
  {
    var d := x / s;
    var q := d / k;
    assert q * k <= d < (q + 1) * k;
    MulMono(q * k, d, s);
    MulMono(d + 1, (q + 1) * k, s);
    assert q * (s * k) == q * k * s && (q + 1) * (s * k) == (q + 1) * k * s;
    QuotientIs(x, s * k, q);
  }

  /** The largest multiple of s up to x. */
  function Floor(x: nat, s: nat): (f: nat)
    requires s >= 1
    ensures f <= x < f + s
  {
    var q := x / s;
    assert x == q * s + x % s;
    MulMono(0, q, s);
    q * s
  }

  lemma {:induction false} SameQuotient(x: nat, y: nat, s: nat)
    requires s >= 1
    ensures x / s == y / s <==> Floor(y, s) <= x < Floor(y, s) + s
    ensures Floor(y, s) / s == y / s
  {
    var q := y / s;
    assert Floor(y, s) == q * s && (q + 1) * s == q * s + s;
    QuotientIs(q * s, s, q);
    if q * s <= x < q * s + s {
      QuotientIs(x, s, q);
    }
  }

  /** Multiples of s do not straddle a multiple of s. */
  lemma {:induction false} FloorFits(x: nat, s: nat, n: nat)
    requires s >= 1 && x < n * s
    ensures Floor(x, s) + s <= n * s
  {
    var q := x / s;
    assert q < n by {
      if q >= n { MulMono(n, q, s); }
    }
    MulMono(q + 1, n, s);
    assert (q + 1) * s == q * s + s;
  }

  /** Quotient and remainder. */
  function DivMod(n: nat, p: nat): (nat, nat)
    requires p >= 1
  {
    (n / p, n % p)
  }

  lemma {:induction false} DivModSplits(n: nat, p: nat)
    requires p >= 1
    ensures n == DivMod(n, p).0 * p + DivMod(n, p).1 && DivMod(n, p).1 < p
  {
  }

  /** Integer division that truncates toward zero, as Go's does, for a positive divisor. */
  function TruncDiv(n: int, k: int): int
    requires k > 0
  {
    if n >= 0 then n / k else -((-n) / k)
  }
}

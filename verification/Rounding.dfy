/** Rounding of exact rationals, as Go's math.Round and decimal printing do it. */
module Rounding {

  function Abs(x: real): (a: real)
    ensures a >= 0.0 && (a == x || a == -x)
  {
    if x < 0.0 then -x else x
  }

  function AbsInt(n: int): nat {
    if n < 0 then -n else n
  }

  /** The nearest integer; a tie goes away from zero. */
  function Round(x: real): int {
    if x >= 0.0 then (x + 0.5).Floor else -(-x + 0.5).Floor
  }

  /** Round picks a nearest integer, and of two nearest ones that farther from zero. */
  lemma {:induction false} RoundIsNearest(x: real, k: int)
    ensures Abs(x - Round(x) as real) <= 0.5
    ensures Abs(x - Round(x) as real) <= Abs(x - k as real)
    ensures k != Round(x) && Abs(x - k as real) == Abs(x - Round(x) as real) ==> AbsInt(k) < AbsInt(Round(x))
  {
    var r := Round(x);
    assert x >= 0.0 ==> r as real <= x + 0.5 < r as real + 1.0;
    assert x < 0.0 ==> r as real - 1.0 < x - 0.5 <= r as real;
    if k < r {
      assert k as real <= r as real - 1.0;
    } else if k > r {
      assert k as real >= r as real + 1.0;
    }
  }

  /** An integer closer than one half is the rounded value. */
  lemma {:induction false} RoundIs(x: real, k: int)
    requires Abs(x - k as real) < 0.5
    ensures Round(x) == k
  {
    RoundIsNearest(x, k);
  }

  lemma {:induction false} RoundOfInt(k: int)
    ensures Round(k as real) == k
  {
    RoundIs(k as real, k);
  }

  lemma {:induction false} RoundIsMonotone(x: real, y: real)
    requires x <= y
    ensures Round(x) <= Round(y)
  {
    RoundIsNearest(x, 0);
    RoundIsNearest(y, 0);
  }

  /** The nearest integer; a tie goes to the even one. */
  function RoundEven(x: real): (n: nat)
    requires x >= 0.0
    ensures Abs(x - n as real) <= 0.5
    ensures Abs(x - n as real) == 0.5 ==> n % 2 == 0
  {
    var f := x.Floor;
    var rest := x - f as real;
    if rest < 0.5 || (rest == 0.5 && f % 2 == 0) then f else f + 1
  }

  // ----- products -------------------------------------------------------------

  lemma {:induction false} MulOrder(a: real, b: real, s: real)
    requires s > 0.0
    ensures a <= b <==> a * s <= b * s
    ensures a < b <==> a * s < b * s
  {
    var d := b - a;
    assert d * s == b * s - a * s;
    assert d > 0.0 ==> d * s > 0.0;
    assert d < 0.0 ==> d * s < 0.0;
  }

  lemma {:induction false} AbsTimes(a: real, s: real)
    requires s > 0.0
    ensures Abs(a * s) == Abs(a) * s && (a * s < 0.0 <==> a < 0.0)
  {
    MulOrder(a, 0.0, s);
    assert -a * s == -(a * s);
  }

  lemma {:induction false} AbsAsReal(j: int)
    ensures Abs(j as real) == AbsInt(j) as real
  {
  }

  lemma {:induction false} TimesOver(a: real, s: real)
    requires s > 0.0
    ensures a * s / s == a && a / s * s == a
  {
  }

  lemma {:induction false} Regroup(a: real, s: real, p: real)
    ensures a * s * p == a * (s * p)
  {
  }

  lemma {:induction false} MulSub(a: real, b: real, s: real)
    ensures (a - b) * s == a * s - b * s
  {
  }

  // ----- distances on a scale -------------------------------------------------

  // Proofs about distances hide this product.
  function Scale(x: real, step: real): real {
    x * step
  }

  lemma {:induction false} ScaleOrder(a: real, b: real, step: real)
    requires step > 0.0
    ensures a <= b <==> Scale(a, step) <= Scale(b, step)
  {
    MulOrder(a, b, step);
  }

  /** Rounding in steps keeps the order of distances. */
  lemma {:induction false} ScaledDistances(near: real, far: real, step: real)
    requires step > 0.0 && near <= 0.5 && near <= far
    ensures Scale(near, step) <= Scale(0.5, step) && Scale(near, step) <= Scale(far, step)
    ensures Scale(far, step) == Scale(near, step) ==> near == far
  {
    MulOrder(near, 0.5, step);
    MulOrder(near, far, step);
    MulOrder(far, near, step);
  }

  lemma {:induction false} ScaledDistance(value: real, step: real, j: int)
    requires step > 0.0
    ensures Abs(value - Scale(j as real, step)) == Scale(Abs(value / step - j as real), step)
  {
    var d := value / step - j as real;
    TimesOver(value, step);
    MulSub(value / step, j as real, step);
    AbsTimes(d, step);
  }

  /** A part of s, for a fraction between 0 and 1. */
  lemma {:induction false} PartIsInside(fraction: real, s: real)
    requires 0.0 <= fraction <= 1.0
    ensures s >= 0.0 ==> 0.0 <= Scale(fraction, s) <= s
    ensures s < 0.0 ==> s <= Scale(fraction, s) <= 0.0
  {
    hide Scale;
    ScaleEnds(s);
    ScaleEnds(-s);
    ScaleNegates(fraction, s);
    if s > 0.0 {
      ScaleOrder(0.0, fraction, s);
      ScaleOrder(fraction, 1.0, s);
    } else if s < 0.0 {
      ScaleOrder(0.0, fraction, -s);
      ScaleOrder(fraction, 1.0, -s);
    } else {
      NothingOf(fraction);
    }
  }

  lemma {:induction false} ScaleEnds(s: real)
    ensures Scale(0.0, s) == 0.0 && Scale(1.0, s) == s
  {
  }

  lemma {:induction false} ScaleNegates(x: real, s: real)
    ensures Scale(x, -s) == -Scale(x, s)
  {
  }

  lemma {:induction false} NothingOf(x: real)
    ensures Scale(x, 0.0) == 0.0
  {
  }

  lemma {:induction false} HundredthsOf(percent: real, s: real)
    ensures 100.0 * Scale(percent / 100.0, s) == percent * s
  {
    var f := percent / 100.0;
    assert percent == 100.0 * f;
    Regroup(100.0, f, s);
  }
}

/**
 Capped exponential backoff in 64-bit durations (pkg/yxc/events.go,
 internal/cli/ynca_watch.go).
*/
module Backoff {
  import opened Arithmetic

  /** Doubles cur up to max, overflow included. */
  function NextBackoff(cur: int, max: int): int {
    var next := Wrap64(cur * 2);
    if next > max then max
    else if next <= 0 then max
    else next
  }

  /** The wait after k doublings of min, capped at max. */
  function Capped(min: int, max: int, k: nat): int {
    if min * Pow2(k) < max then min * Pow2(k) else max
  }

  /** Wrap-around never shows: the code's step is doubling, capped. */
  lemma {:induction false} NextBackoffDoubles(cur: int, max: int)
    requires 0 < cur <= max <= MAX_INT64
    ensures NextBackoff(cur, max) == (if 2 * cur < max then 2 * cur else max)
    ensures cur <= NextBackoff(cur, max) <= max
  {
    if 2 * cur > MAX_INT64 {
      assert 2 * cur + MAX_INT64 + 1 == 1 * TWO_TO_64 + (2 * cur - MAX_INT64 - 1);
    }
  }

  lemma {:induction false} CappedStep(min: int, max: int, k: nat)
    requires 0 < min <= max <= MAX_INT64
    ensures 0 < Capped(min, max, k) <= max
    ensures NextBackoff(Capped(min, max, k), max) == Capped(min, max, k + 1)
  {
    var p := min * Pow2(k);
    assert min * Pow2(k + 1) == 2 * p;
    assert p > 0 by { assert min * Pow2(k) >= min * 1; }
    NextBackoffDoubles(Capped(min, max, k), max);
  }
}

/**
 Volume arithmetic: the wire integer, decibels and percent (pkg/yxc/scale.go,
 internal/cli/volume.go, internal/cli/status.go).

 Decibels and percentages are exact rationals; wire integers are 64 bits wide.
*/
module Volume {

  import opened Arithmetic
  import opened Options
  import opened Rounding

  const MIN_INT64 := -MAX_INT64 - 1

  predicate IsInt64(n: int) {
    MIN_INT64 <= n <= MAX_INT64
  }

  // ----- decibels -------------------------------------------------------------

  datatype DbRange = DbRange(min: real, max: real, step: real)

  datatype VolumeScale = VolumeScale(baseline: real, step: real, exact: bool)

  /** The device's own scale, or that of the RX-V receivers. */
  function DbScale(range: Option<DbRange>): (s: VolumeScale)
    ensures s.step > 0.0
    ensures s.exact <==> range.Some? && range.value.step > 0.0
  {
    if range.Some? && range.value.step > 0.0 then VolumeScale(range.value.min, range.value.step, true)
    else VolumeScale(-80.5, 0.5, false)
  }

  /** Wire volume 0 is the lowest level the device reports, and each unit one step; a device
      that reports no range has the -80.5 dB and half decibels of the RX-V receivers. */
  lemma {:induction false} LevelsOfTheScale(range: Option<DbRange>, n: int)
    ensures var s := DbScale(range);
      && (range.Some? && range.value.step > 0.0 ==>
           && IntToDb(s, 0) == range.value.min
           && IntToDb(s, n + 1) - IntToDb(s, n) == range.value.step)
      && (range.None? || range.value.step <= 0.0 ==>
           && IntToDb(s, 0) == -80.5
           && IntToDb(s, n + 1) - IntToDb(s, n) == 0.5
           && IntToDb(s, 161) == 0.0)
  {
    var s := DbScale(range);
    MulSub(n as real + 1.0, n as real, s.step);
  }

  function IntToDb(s: VolumeScale, n: int): real {
    s.baseline + Scale(n as real, s.step)
  }

  /** The wire volume nearest to a level, however far outside the device's range. */
  function Level(s: VolumeScale, db: real): int
    requires s.step > 0.0
  {
    Round((db - s.baseline) / s.step)
  }

  function Saturating(n: int): int {
    if n >= MAX_INT64 then MAX_INT64 else if n <= MIN_INT64 then MIN_INT64 else n
  }

  function DbToInt(s: VolumeScale, db: real): int
    requires s.step > 0.0
  {
    Saturating(Level(s, db))
  }

  lemma {:induction false} LevelOfInt(s: VolumeScale, n: int)
    requires s.step > 0.0
    ensures (IntToDb(s, n) - s.baseline) / s.step == n as real && Level(s, IntToDb(s, n)) == n
  {
    hide Round, Scale;
    OverScale(n as real, s.step);
    assert IntToDb(s, n) - s.baseline == Scale(n as real, s.step);
    RoundOfInt(n);
  }

  lemma {:induction false} OverScale(x: real, step: real)
    requires step > 0.0
    ensures Scale(x, step) / step == x
  {
    TimesOver(x, step);
  }

  /** Decibels to wire integer inverts wire integer to decibels. */
  lemma {:induction false} DbToIntInvertsIntToDb(s: VolumeScale, n: int)
    requires s.step > 0.0 && IsInt64(n)
    ensures DbToInt(s, IntToDb(s, n)) == n
  {
    hide Level;
    LevelOfInt(s, n);
  }

  /** The other way round the error is at most half a step. */
  lemma {:induction false} IntToDbIsClose(s: VolumeScale, db: real)
    requires s.step > 0.0
    ensures Abs(db - IntToDb(s, Level(s, db))) <= Scale(0.5, s.step)
    ensures IsInt64(Level(s, db)) ==> DbToInt(s, db) == Level(s, db)
    ensures Level(s, db) >= 0x8000_0000_0000_0000 ==> DbToInt(s, db) == 0x7fff_ffff_ffff_ffff
    ensures Level(s, db) < -0x8000_0000_0000_0000 ==> DbToInt(s, db) == -0x8000_0000_0000_0000
  {
    hide Round, Abs, Scale;
    var above, n := db - s.baseline, Level(s, db);
    RoundIsNearest(above / s.step, n);
    ScaledDistance(above, s.step, n);
    ScaleOrder(Abs(above / s.step - n as real), 0.5, s.step);
    assert db - IntToDb(s, n) == above - Scale(n as real, s.step);
  }

  lemma {:induction false} LevelIsMonotone(s: VolumeScale, a: real, b: real)
    requires s.step > 0.0 && a <= b
    ensures Level(s, a) <= Level(s, b)
  {
    hide Round;
    TimesOver(a - s.baseline, s.step);
    TimesOver(b - s.baseline, s.step);
    MulOrder((a - s.baseline) / s.step, (b - s.baseline) / s.step, s.step);
    RoundIsMonotone((a - s.baseline) / s.step, (b - s.baseline) / s.step);
  }

  lemma {:induction false} IntToDbIsMonotone(s: VolumeScale, m: int, n: int)
    requires s.step > 0.0
    ensures m <= n <==> IntToDb(s, m) <= IntToDb(s, n)
  {
    hide Scale;
    ScaleOrder(m as real, n as real, s.step);
  }

  function Clamp(n: int, lo: int, hi: int): int {
    if n < lo then lo else if n > hi then hi else n
  }

  function MinReal(a: real, b: real): real {
    if a < b then a else b
  }

  function MaxReal(a: real, b: real): real {
    if a > b then a else b
  }

  /** A level given in decibels, clamped before it is rounded. On a proper range that
      is the rounded level clamped. */
  method VolumeFromDb(s: VolumeScale, min: int, max: int, db: real) returns (n: int)
    requires s.step > 0.0 && IsInt64(min) && IsInt64(max)
    ensures min <= max ==> n == Clamp(Level(s, db), min, max)
    ensures min > max ==> n == max
  {
    var f := MaxReal(IntToDb(s, min), MinReal(db, IntToDb(s, max)));
    n := DbToInt(s, f);
    n := Clamp(n, min, max);
    ClampedLevel(s, min, max, db);
  }

  lemma {:induction false} ClampedLevel(s: VolumeScale, min: int, max: int, db: real)
    requires s.step > 0.0
    ensures
      var f := MaxReal(IntToDb(s, min), MinReal(db, IntToDb(s, max)));
      Level(s, f) == if min <= max then Clamp(Level(s, db), min, max) else min
  {
    hide Level, IntToDb;
    LevelOfInt(s, min);
    LevelOfInt(s, max);
    IntToDbIsMonotone(s, min, max);
    if db <= IntToDb(s, min) {
      LevelIsMonotone(s, db, IntToDb(s, min));
    } else {
      LevelIsMonotone(s, IntToDb(s, min), db);
    }
    if db <= IntToDb(s, max) {
      LevelIsMonotone(s, db, IntToDb(s, max));
    } else {
      LevelIsMonotone(s, IntToDb(s, max), db);
    }
  }

  /** Clamping before rounding and rounding before clamping agree exactly unless the
      range is upside down and the level below it. */
  lemma {:induction false} ClampingCommutesExactlyWhen(s: VolumeScale, min: int, max: int, db: real)
    requires s.step > 0.0
    ensures
      var f := MaxReal(IntToDb(s, min), MinReal(db, IntToDb(s, max)));
      Clamp(Level(s, f), min, max) == Clamp(Level(s, db), min, max) <==> min <= max || Level(s, db) >= min
  {
    hide Level, IntToDb;
    ClampedLevel(s, min, max, db);
  }

  // ----- percent --------------------------------------------------------------

  /** A percentage of a range, rounded to the nearest wire integer. */
  function Share(percent: real, span: int): int {
    Round(Scale(percent / 100.0, span as real))
  }

  lemma {:induction false} ShareIsInside(percent: real, span: int)
    requires 0.0 <= percent <= 100.0
    ensures span >= 0 ==> 0 <= Share(percent, span) <= span
    ensures span < 0 ==> span <= Share(percent, span) <= 0
  {
    hide Round, Scale;
    var x := Scale(percent / 100.0, span as real);
    PartIsInside(percent / 100.0, span as real);
    RoundOfInt(0);
    RoundOfInt(span);
    if span >= 0 {
      RoundIsMonotone(0.0, x);
      RoundIsMonotone(x, span as real);
    } else {
      RoundIsMonotone(x, 0.0);
      RoundIsMonotone(span as real, x);
    }
  }

  method VolumeFromPercent(min: int, max: int, percent: real) returns (r: Option<int>)
    ensures r.Some? <==> 0.0 <= percent <= 100.0
    ensures r.Some? && min <= max ==> r.value == min + Share(percent, max - min)
    ensures r.Some? && min > max ==> r.value == min
  {
    if percent < 0.0 || percent > 100.0 {
      return None;
    }
    ShareIsInside(percent, max - min);
    var v := min + Share(percent, max - min);
    var n := min;
    if v >= max {
      n := max;
    } else if v > min {
      n := v;
    }
    return Some(Clamp(n, min, max));
  }

  datatype IntRange = IntRange(min: int, max: int)

  /** The percentage shown for a wire volume, in 64-bit arithmetic: the truncated share,
      0 below the range and 100 above it, as long as nothing wraps around. A range whose
      span does not fit shows 0. */
  method VolumePercent(range: Option<IntRange>, n: int) returns (pct: int)
    ensures 0 <= pct <= 100
    ensures var r := if range.Some? && range.value.min < range.value.max then range.value else IntRange(0, 161);
      IsInt64(r.max - r.min) && IsInt64(100 * (n - r.min)) ==>
        pct == if n < r.min then 0 else if n > r.max then 100 else 100 * (n - r.min) / (r.max - r.min)
    ensures range.Some? && IsInt64(range.value.min) && IsInt64(range.value.max) ==>
      range.value.max - range.value.min > MAX_INT64 ==> pct == 0
  {
    hide Wrap64, TruncDiv;
    var mn, mx := 0, 161;
    if range.Some? && range.value.max > range.value.min {
      mn, mx := range.value.min, range.value.max;
    }
    var span := Wrap64(mx - mn);
    if MAX_INT64 < mx - mn < TWO_TO_64 {
      WrapsNegative(mx - mn);
    }
    if span <= 0 {
      return 0;
    }
    pct := TruncDiv(Wrap64(100 * Wrap64(n - mn)), span);
    if IsInt64(100 * (n - mn)) {
      ShareOfSpan(n - mn, span);
    }
    if pct < 0 {
      pct := 0;
    }
    if pct > 100 {
      pct := 100;
    }
  }

  lemma {:induction false} WrapsNegative(x: int)
    requires MAX_INT64 < x < TWO_TO_64
    ensures Wrap64(x) < 0
  {
    assert x + MAX_INT64 + 1 == 1 * TWO_TO_64 + (x - MAX_INT64 - 1);
  }

  lemma {:induction false} ShareOfSpan(d: int, span: int)
    requires span > 0
    ensures d < 0 ==> TruncDiv(100 * d, span) <= 0
    ensures 0 <= d <= span ==> 0 <= TruncDiv(100 * d, span) == 100 * d / span <= 100
    ensures d > span ==> TruncDiv(100 * d, span) >= 100
  {
    var m := if d < 0 then -100 * d else 100 * d;
    var q := m / span;
    assert q * span <= m < (q + 1) * span;
    if q < 0 {
      MulMono(q + 1, 0, span);
    }
    if d <= span && q > 100 {
      MulMono(101, q, span);
    } else if d > span && q < 100 {
      MulMono(q + 1, 100, span);
    }
  }

  /** What a range of this span reads back after p percent was set. */
  function ReadBack(p: int, span: int): int
    requires span > 0
  {
    100 * Share(p as real, span) / span
  }

  /** Setting a whole percentage and reading it back. */
  method SetAndReadBack(min: int, max: int, p: int) returns (pct: int)
    requires min < max && 0 <= p <= 100 && 100 * (max - min) <= MAX_INT64
    ensures pct == ReadBack(p, max - min)
  {
    ShareIsInside(p as real, max - min);
    var n := VolumeFromPercent(min, max, p as real);
    pct := VolumePercent(Some(IntRange(min, max)), n.value);
  }

  /** On a range of more than 50 steps p percent reads back as p, or as p - 1 when
      the level was rounded down. */
  lemma {:induction false} PercentReadsBack(p: int, span: int)
    requires 0 <= p <= 100 && span > 50
    ensures ReadBack(p, span) == if 100 * Share(p as real, span) >= p * span then p else p - 1
  {
    var r := Share(p as real, span);
    ShareIsClose(p, span);
    if 100 * r >= p * span {
      QuotientIs(100 * r, span, p);
    } else {
      QuotientIs(100 * r, span, p - 1);
    }
  }

  lemma {:induction false} ShareIsClose(p: int, span: int)
    requires span > 0
    ensures -50 <= 100 * Share(p as real, span) - p * span <= 50
  {
    hide Round, Scale;
    var x := Scale(p as real / 100.0, span as real);
    var r := Share(p as real, span);
    RoundIsNearest(x, 0);
    HundredthsOf(p as real, span as real);
    assert 100.0 * x == (p * span) as real;
    assert 100.0 * x - 50.0 <= (100 * r) as real <= 100.0 * x + 50.0;
  }

  /** On any shorter range some percentage reads back higher than it was set: the
      bound of 50 steps is exact. */
  lemma {:induction false} ReadBackIsCloseExactlyAbove50(span: int)
    requires span > 0
    ensures (forall p | 0 <= p <= 100 :: p - 1 <= ReadBack(p, span) <= p) <==> span > 50
  {
    if span > 50 {
      forall p | 0 <= p <= 100 ensures p - 1 <= ReadBack(p, span) <= p {
        PercentReadsBack(p, span);
      }
    } else {
      var p := Witness(span);
      WitnessReadsHigh(span);
      assert ReadBack(p, span) > p;
    }
  }

  /** A percentage that is rounded up the most. */
  function Witness(span: int): (p: int)
    ensures 0 <= p <= 100
  {
    if span % 2 == 1 then 50
    else if span % 4 == 2 then 25
    else match span
      case 4 => 13  case 8 => 7   case 12 => 5  case 16 => 4  case 20 => 3  case 24 => 3
      case 28 => 2  case 32 => 2  case 36 => 7  case 40 => 4  case 44 => 8  case 48 => 24
      case _ => 0
  }

  /** When the exact share lies between r - 1/2 and r + 1/2, it is rounded to r. */
  lemma {:induction false} ShareIs(p: int, span: int, r: int)
    requires 0 <= p && 0 < span && 100 * r - 50 <= p * span < 100 * r + 50
    ensures Share(p as real, span) == r
  {
    hide Scale;
    var x := Scale(p as real / 100.0, span as real);
    MulMono(0, p, span);
    HundredthsOf(p as real, span as real);
    assert 100.0 * x == (p * span) as real;
    assert r as real <= x + 0.5 < r as real + 1.0;
  }

  lemma {:induction false} WitnessReadsHigh(span: int)
    requires 0 < span <= 50
    ensures ReadBack(Witness(span), span) > Witness(span)
  {
    hide ReadBack;
    if span % 2 == 1 {
      assert 50 * span == 100 * (span / 2) + 50;
      ReadsHigh(50, span, span / 2 + 1);
    } else if span % 4 == 2 {
      assert 25 * span == 100 * (span / 4) + 50;
      ReadsHigh(25, span, span / 4 + 1);
    } else {
      var p := Witness(span);
      ReadsHigh(p, span, (p * span + 50) / 100);
    }
  }

  lemma {:induction false} ReadsHigh(p: int, span: int, r: int)
    requires 0 <= p && 0 < span && 100 * r - 50 <= p * span < 100 * r + 50
    requires (p + 1) * span <= 100 * r
    ensures ReadBack(p, span) > p
  {
    hide Share;
    ShareIs(p, span, r);
    ReadsAtLeast(span, r, p + 1);
  }

  lemma {:induction false} ReadsAtLeast(span: int, r: int, q: int)
    requires 0 < span && q * span <= 100 * r
    ensures 100 * r / span >= q
  {
    var d := 100 * r / span;
    if d < q {
      MulMono(d + 1, q, span);
    }
  }
}

/**
 The stepped-number codec of YNCA (pkg/ynca/codec.go): volume and tone on the 0.5 dB
 grid, FM frequencies on the 0.2 MHz grid, AM frequencies on the 10 kHz grid.

 Numbers are exact rationals. Every such grid has a step that is a whole number of
 units of its last printed decimal.
*/
module SteppedCodec {

  import opened Arithmetic
  import opened Options
  import opened Rounding
  import opened Text

  // ----- digits ---------------------------------------------------------------

  predicate IsDigit(c: char) {
    '0' <= c <= '9'
  }

  predicate AllDigits(s: string) {
    forall i | 0 <= i < |s| :: IsDigit(s[i])
  }

  function Digit(n: nat): (c: char)
    requires n < 10
    ensures IsDigit(c) && c as int - '0' as int == n
  {
    n as char + '0'
  }

  function Pow10(k: nat): (p: nat)
    ensures p >= 1
  {
    if k == 0 then 1 else 10 * Pow10(k - 1)
  }

  function Value(s: string): nat
    requires AllDigits(s)
  {
    if s == "" then 0 else 10 * Value(s[..|s| - 1]) + (s[|s| - 1] as int - '0' as int)
  }

  /** The decimal digits of n, without leading zeros. */
  function Digits(n: nat): (s: string)
    ensures s != "" && AllDigits(s) && Value(s) == n
  {
    if n < 10 then
      var s := [Digit(n)];
      assert s[..0] == "";
      s
    else
      var front := Digits(n / 10);
      var s := front + [Digit(n % 10)];
      assert s[..|s| - 1] == front;
      s
  }

  /** The last k decimal digits of n. */
  function Pad(n: nat, k: nat): (s: string)
    ensures |s| == k && AllDigits(s)
    ensures n < Pow10(k) ==> Value(s) == n
  {
    if k == 0 then ""
    else
      var front := Pad(n / 10, k - 1);
      var s := front + [Digit(n % 10)];
      assert s[..|s| - 1] == front;
      s
  }

  // ----- printing -------------------------------------------------------------

  function WithDecimals(whole: nat, rest: nat, k: nat): string {
    if k == 0 then Digits(whole) else Digits(whole) + "." + Pad(rest, k)
  }

  /** n units of the last of k decimals. */
  function Fixed(n: nat, k: nat): string {
    var (whole, rest) := DivMod(n, Pow10(k));
    WithDecimals(whole, rest, k)
  }

  /** x in units of the last of k decimals. */
  function Units(x: real, k: nat): nat {
    RoundEven(Abs(x) * Pow10(k) as real)
  }

  /** Fixed-point printing: the sign of x, and its digits rounded to k decimals. */
  function FormatFixed(x: real, k: nat): string {
    (if x < 0.0 then "-" else "") + Fixed(Units(x, k), k)
  }

  /** The grid point nearest to a value, counted in steps. */
  function Nearest(value: real, step: real): int
    requires step > 0.0
  {
    Round(value / step)
  }

  function GridPoint(j: int, step: real): real {
    Scale(j as real, step)
  }

  /** A step that is not positive disables rounding. */
  function Rounded(value: real, step: real): real {
    if step > 0.0 then GridPoint(Nearest(value, step), step) else value
  }

  function FormatStepped(value: real, decimals: nat, step: real): string {
    FormatFixed(Rounded(value, step), decimals)
  }

  function FormatVolume(db: real): string {
    FormatStepped(db, 1, 0.5)
  }

  // ----- parsing --------------------------------------------------------------

  /** The number with n units of the last of k decimals. */
  function Decimal(n: nat, k: nat): real {
    n as real / Pow10(k) as real
  }

  /** A number in fixed-point notation. */
  function ParseFixed(s: string): Option<real> {
    var dot := IndexOf(s, '.');
    var whole, fraction := if dot < 0 then s else s[..dot], if dot < 0 then "" else s[dot + 1..];
    if AllDigits(whole) && AllDigits(fraction) && whole + fraction != ""
    then Some(Value(whole) as real + Decimal(Value(fraction), |fraction|))
    else None
  }

  function Signed(negative: bool, n: Option<real>): Option<real> {
    if n.Some? && negative then Some(-n.value) else n
  }

  function ParseSigned(s: string): Option<real> {
    if s != "" && (s[0] == '-' || s[0] == '+') then Signed(s[0] == '-', ParseFixed(s[1..])) else ParseFixed(s)
  }

  /** Tolerates white space around the number. */
  function ParseNumber(text: string): Option<real> {
    ParseSigned(TrimSpace(text))
  }

  lemma {:induction false} ParseWithPoint(whole: string, fraction: string)
    requires AllDigits(whole) && AllDigits(fraction) && whole != ""
    ensures ParseFixed(whole) == Some(Value(whole) as real)
    ensures ParseFixed(whole + "." + fraction) == Some(Value(whole) as real + Decimal(Value(fraction), |fraction|))
  {
    assert IndexOf(whole, '.') == -1 && whole + "" == whole;
    var s := whole + "." + fraction;
    IndexIs(s, '.', |whole|);
    assert s[..|whole|] == whole && s[|whole| + 1..] == fraction;
  }

  lemma {:induction false} WholeAndFraction(n: nat, k: nat)
    ensures
      var (q, r) := DivMod(n, Pow10(k));
      r < Pow10(k) && Decimal(n, k) == q as real + Decimal(r, k)
  {
    var p := Pow10(k);
    var (q, r) := DivMod(n, p);
    DivModSplits(n, p);
    SplitQuotient(q, r, p);
  }

  lemma {:induction false} ParseInvertsDecimals(whole: nat, rest: nat, k: nat)
    requires rest < Pow10(k)
    ensures ParseFixed(WithDecimals(whole, rest, k)) == Some(whole as real + Decimal(rest, k))
  {
    hide ParseFixed;
    ParseWithPoint(Digits(whole), Pad(rest, k));
    if k == 0 {
      assert Decimal(rest, k) == 0.0;
    } else {
      assert WithDecimals(whole, rest, k) == Digits(whole) + "." + Pad(rest, k);
    }
  }

  lemma {:induction false} ParseInvertsFixed(n: nat, k: nat)
    ensures ParseFixed(Fixed(n, k)) == Some(Decimal(n, k))
  {
    hide DivMod, Pow10, ParseFixed, WithDecimals, Decimal;
    var (q, r) := DivMod(n, Pow10(k));
    WholeAndFraction(n, k);
    ParseInvertsDecimals(q, r, k);
  }

  lemma {:induction false} SplitQuotient(q: nat, r: nat, p: nat)
    requires p >= 1
    ensures (q * p + r) as real / p as real == q as real + r as real / p as real
  {
    var x, y := q as real, p as real;
    assert (q * p) as real == x * y;
    assert (x * y) / y == x;
  }

  /** Printed text has no white space around it. */
  lemma {:induction false} PrintedTextIsTrimmed(x: real, k: nat)
    ensures TrimSpace(FormatFixed(x, k)) == FormatFixed(x, k)
  {
    hide Units, Fixed, IsSpace, TrimSpace, Pow10;
    var s := FormatFixed(x, k);
    FixedStartsWithADigit(Units(x, k), k);
    FixedEndsInADigit(Units(x, k), k);
    NoSpace(s[0]);
    NoSpace(s[|s| - 1]);
    TrimSpaceOfPadded("", s, "");
    assert "" + s + "" == s;
  }

  lemma {:induction false} NoSpace(c: char)
    requires IsDigit(c) || c == '-'
    ensures !IsSpace(c)
  {
  }

  lemma {:induction false} FixedEndsInADigit(n: nat, k: nat)
    ensures Fixed(n, k) != "" && IsDigit(Fixed(n, k)[|Fixed(n, k)| - 1])
  {
    hide Pow10, DivMod;
    var (q, r) := DivMod(n, Pow10(k));
    if k > 0 {
      var pad := Pad(r, k);
      assert Fixed(n, k) == Digits(q) + "." + pad && IsDigit(pad[k - 1]);
    }
  }

  lemma {:induction false} ParseSign(negative: bool, s: string)
    requires s != "" && IsDigit(s[0])
    ensures ParseSigned((if negative then "-" else "") + s) == Signed(negative, ParseFixed(s))
  {
    assert ("-" + s)[1..] == s && "" + s == s;
  }

  lemma {:induction false} FixedStartsWithADigit(n: nat, k: nat)
    ensures Fixed(n, k) != "" && IsDigit(Fixed(n, k)[0])
  {
  }

  /** Parsing a printed number gives it back, to the last printed decimal. */
  lemma {:induction false} ParseInvertsFormat(x: real, k: nat)
    ensures ParseNumber(FormatFixed(x, k)) == Signed(x < 0.0, Some(Decimal(Units(x, k), k)))
  {
    hide Fixed, Units, Decimal, ParseFixed, TrimSpace, ParseSigned;
    PrintedTextIsTrimmed(x, k);
    ParseInvertsFixed(Units(x, k), k);
    FixedStartsWithADigit(Units(x, k), k);
    ParseSign(x < 0.0, Fixed(Units(x, k), k));
  }

  // ----- the grids ------------------------------------------------------------

  /** A step of `units` units of the last of k decimals. */
  predicate OnGrid(step: real, k: nat, units: nat) {
    step > 0.0 && units >= 1 && step * Pow10(k) as real == units as real
  }

  lemma {:induction false} YncaGrids()
    ensures OnGrid(0.5, 1, 5) && OnGrid(0.2, 2, 20) && OnGrid(10.0, 0, 10)
  {
    assert Pow10(1) == 10 && Pow10(2) == 100;
  }

  /** A grid point is a whole number of units of the last decimal. */
  lemma {:induction false} UnitsOfGridPoint(j: int, step: real, k: nat, units: nat)
    requires OnGrid(step, k, units)
    ensures Abs(GridPoint(j, step)) * Pow10(k) as real == (AbsInt(j) * units) as real
    ensures Units(GridPoint(j, step), k) == AbsInt(j) * units
  {
    hide Abs, AbsInt, Pow10;
    AbsTimes(j as real, step);
    AbsAsReal(j);
    WholeUnits(AbsInt(j), step, Pow10(k) as real, units);
  }

  lemma {:induction false} WholeUnits(n: nat, step: real, unit: real, units: nat)
    requires step * unit == units as real
    ensures n as real * step * unit == (n * units) as real
  {
    Regroup(n as real, step, unit);
    assert n as real * units as real == (n * units) as real;
  }

  /** So it is what its printed text says. */
  lemma {:induction false} GridPointIsPrinted(j: int, step: real, k: nat, units: nat)
    requires OnGrid(step, k, units)
    ensures
      var x := GridPoint(j, step);
      Signed(x < 0.0, Some(Decimal(Units(x, k), k))) == Some(x)
  {
    hide Pow10, Units, GridPoint;
    var x := GridPoint(j, step);
    UnitsOfGridPoint(j, step, k, units);
    TimesOver(Abs(x), Pow10(k) as real);
    assert Units(x, k) as real == Abs(x) * Pow10(k) as real;
    assert Decimal(Units(x, k), k) == Abs(x);
  }

  /** Grid point g is at most half a step away, no farther than grid point j, and
      farther from zero than j if both are equally near. */
  predicate Beats(value: real, step: real, g: int, j: int) {
    var near, far := Abs(value - GridPoint(g, step)), Abs(value - GridPoint(j, step));
    near <= Scale(0.5, step) && near <= far && (j != g && far == near ==> AbsInt(j) < AbsInt(g))
  }

  lemma {:induction false} NearestIsNearest(value: real, step: real, j: int)
    requires step > 0.0
    ensures Beats(value, step, Nearest(value, step), j)
  {
    hide Abs, Round, AbsInt, Scale;
    var g := Nearest(value, step);
    RoundIsNearest(value / step, j);
    ScaledDistance(value, step, g);
    ScaledDistance(value, step, j);
    ScaledDistances(Abs(value / step - g as real), Abs(value / step - j as real), step);
  }

  lemma {:induction false} ParseGivesTheGridPoint(value: real, step: real, k: nat, units: nat)
    requires OnGrid(step, k, units)
    ensures ParseNumber(FormatStepped(value, k, step)) == Some(Rounded(value, step))
  {
    hide ParseNumber, FormatFixed, Units, Decimal, Nearest, GridPoint;
    ParseInvertsFormat(Rounded(value, step), k);
    GridPointIsPrinted(Nearest(value, step), step, k, units);
  }

  /** Parsing a formatted value gives the nearest grid point, ties away from zero. */
  lemma {:induction false} ParseInvertsFormatStepped(value: real, step: real, k: nat, units: nat, j: int)
    requires OnGrid(step, k, units)
    ensures ParseNumber(FormatStepped(value, k, step)) == Some(GridPoint(Nearest(value, step), step))
    ensures Beats(value, step, Nearest(value, step), j)
  {
    hide ParseNumber, FormatStepped, Beats, Nearest, GridPoint;
    ParseGivesTheGridPoint(value, step, k, units);
    NearestIsNearest(value, step, j);
  }

  /** A volume is sent as a multiple of half a decibel, within a quarter of a decibel. */
  lemma {:induction false} VolumeIsSentCloseBy(db: real) returns (halves: int)
    ensures ParseNumber(FormatVolume(db)) == Some(halves as real / 2.0)
    ensures Abs(db - halves as real / 2.0) <= 0.25
  {
    hide ParseNumber, FormatStepped, Nearest, GridPoint;
    YncaGrids();
    ParseInvertsFormatStepped(db, 0.5, 1, 5, 0);
    halves := Nearest(db, 0.5);
    HalfSteps(halves);
  }

  lemma {:induction false} HalfSteps(j: int)
    ensures GridPoint(j, 0.5) == j as real / 2.0
  {
  }

  /** White space around a number does not matter, nor does a plus sign before it. */
  lemma {:induction false} ParseNumberIsTolerant(left: string, s: string, right: string)
    requires forall c | c in left || c in right :: IsSpace(c)
    requires s != "" && IsDigit(s[0]) && !IsSpace(s[|s| - 1])
    ensures ParseNumber(left + s + right) == ParseFixed(s)
    ensures ParseNumber(left + ("+" + s) + right) == ParseFixed(s)
  {
    hide ParseFixed, TrimSpace;
    var signed := "+" + s;
    assert signed[1..] == s && signed[|signed| - 1] == s[|s| - 1];
    TrimSpaceOfPadded(left, s, right);
    TrimSpaceOfPadded(left, signed, right);
  }

  lemma {:induction false} RoundedTwice(value: real, step: real)
    requires step > 0.0
    ensures Rounded(Rounded(value, step), step) == Rounded(value, step)
  {
    hide Round;
    var g := Nearest(value, step);
    TimesOver(g as real, step);
    assert GridPoint(g, step) / step == g as real;
    RoundOfInt(g);
    assert Nearest(GridPoint(g, step), step) == g;
  }

  /** Formatting what was parsed gives the same text. */
  lemma {:induction false} FormattingIsIdempotent(value: real, step: real, k: nat, units: nat)
    requires OnGrid(step, k, units)
    ensures ParseNumber(FormatStepped(value, k, step)).Some?
    ensures FormatStepped(ParseNumber(FormatStepped(value, k, step)).value, k, step) == FormatStepped(value, k, step)
  {
    hide ParseNumber, FormatFixed, Rounded;
    ParseGivesTheGridPoint(value, step, k, units);
    RoundedTwice(value, step);
  }

  lemma {:induction false} RoundedIsMonotone(v: real, w: real, step: real)
    requires step > 0.0 && v <= w
    ensures Rounded(v, step) <= Rounded(w, step)
  {
    hide Round;
    TimesOver(v, step);
    TimesOver(w, step);
    MulOrder(v / step, w / step, step);
    RoundIsMonotone(v / step, w / step);
    MulOrder(Nearest(v, step) as real, Nearest(w, step) as real, step);
  }

  /** A larger value is never formatted as a smaller number. */
  lemma {:induction false} FormattingIsMonotone(v: real, w: real, step: real, k: nat, units: nat)
    requires OnGrid(step, k, units) && v <= w
    ensures ParseNumber(FormatStepped(v, k, step)).Some? && ParseNumber(FormatStepped(w, k, step)).Some?
    ensures ParseNumber(FormatStepped(v, k, step)).value <= ParseNumber(FormatStepped(w, k, step)).value
  {
    hide ParseNumber, FormatStepped, Rounded;
    ParseGivesTheGridPoint(v, step, k, units);
    ParseGivesTheGridPoint(w, step, k, units);
    RoundedIsMonotone(v, w, step);
  }

  // ----- negative zero --------------------------------------------------------

  predicate IsNegativeZero(text: string) {
    "-" <= text && ParseFixed(text[1..]) == Some(0.0)
  }

  lemma {:induction false} NothingPrintsAsZero(n: nat, k: nat)
    ensures Decimal(n, k) == 0.0 <==> n == 0
  {
    hide Pow10;
    TimesOver(n as real, Pow10(k) as real);
  }

  lemma {:induction false} SignIsPrinted(x: real, k: nat)
    ensures IsNegativeZero(FormatFixed(x, k)) <==> x < 0.0 && Units(x, k) == 0
  {
    hide Fixed, Units, Decimal, ParseFixed;
    var s := Fixed(Units(x, k), k);
    ParseInvertsFixed(Units(x, k), k);
    NothingPrintsAsZero(Units(x, k), k);
    FixedStartsWithADigit(Units(x, k), k);
    assert ("-" + s)[1..] == s && "" + s == s;
  }

  /** The text is a negative zero exactly when the rounded value is negative and no
      more than half a unit of the last decimal from zero. */
  lemma {:induction false} NegativeZeroExactlyWhen(value: real, k: nat, step: real)
    ensures IsNegativeZero(FormatStepped(value, k, step)) <==>
      Rounded(value, step) < 0.0 && Abs(Rounded(value, step)) * Pow10(k) as real <= 0.5
  {
    hide IsNegativeZero, FormatFixed, Units, Rounded, Abs;
    SignIsPrinted(Rounded(value, step), k);
    NoUnits(Rounded(value, step), k);
  }

  lemma {:induction false} NoUnits(x: real, k: nat)
    ensures Units(x, k) == 0 <==> Abs(x) * Pow10(k) as real <= 0.5
  {
    hide Pow10;
  }

  /** So on a grid it never is. */
  lemma {:induction false} NoNegativeZeroOnAGrid(value: real, step: real, k: nat, units: nat)
    requires OnGrid(step, k, units)
    ensures !IsNegativeZero(FormatStepped(value, k, step))
  {
    hide IsNegativeZero, FormatStepped, Abs, Pow10, Round, Units;
    var g := Nearest(value, step);
    NegativeZeroExactlyWhen(value, k, step);
    UnitsOfGridPoint(g, step, k, units);
    AbsTimes(g as real, step);
    MulMono(1, if g < 0 then -g else 1, units);
  }

  /** Without a step it can be, though the comment on formatStepped promises otherwise.
      No caller in the program passes such a step. */
  lemma {:induction false} NegativeZeroWithoutAStep()
    ensures IsNegativeZero(FormatStepped(-0.04, 1, 0.0))
  {
    assert Pow10(1) == 10;
    NegativeZeroExactlyWhen(-0.04, 1, 0.0);
  }
}

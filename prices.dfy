/**
 * Price bars, calendar dates and the numeric helpers shared by the
 * aggregation, the ticker and the chart: rounding to cents as
 * `parseFloat(x.toFixed(2))` does, and `Math.max`/`Math.min` over a series.
 * Prices are exact reals; binary floating point is not modelled.
 */
module Prices {

  /** The largest year a JavaScript `Date` can hold. */
  const MaxYear: int := 275760

  /** A calendar day as read by `getFullYear()`, `getMonth() + 1` and `getDate()`. */
  datatype Date = Date(year: int, month: int, day: int)

  predicate IsLeapYear(y: int)
  {
    y % 4 == 0 && (y % 100 != 0 || y % 400 == 0)
  }

  function DaysInMonth(y: int, m: int): (n: int)
    requires 1 <= m <= 12
    ensures 28 <= n <= 31
  {
    if m == 2 then (if IsLeapYear(y) then 29 else 28)
    else if m == 4 || m == 6 || m == 9 || m == 11 then 30
    else 31
  }

  /** A day a `Date` of the application can denote (years before 0 are not modelled). */
  predicate ValidDate(d: Date)
  {
    0 <= d.year <= MaxYear && 1 <= d.month <= 12 && 1 <= d.day <= DaysInMonth(d.year, d.month)
  }

  /**
   * The ranges the getters return: a year from 0 to `MaxYear`, a month
   * from 1 to 12 and a day from 1 to 31. Every valid day is in them.
   */
  predicate InCalendar(d: Date)
  {
    0 <= d.year <= MaxYear && 1 <= d.month <= 12 && 1 <= d.day <= 31
  }

  /** One OHLC bar; `D` is how its date is represented (text from the API, a `Date` once parsed). */
  datatype Bar<D> = Bar(date: D, open: real, high: real, low: real, close: real)

  function Opens<D>(bars: seq<Bar<D>>): (r: seq<real>)
    ensures |r| == |bars| && forall i :: 0 <= i < |bars| ==> r[i] == bars[i].open
  {
    seq(|bars|, i requires 0 <= i < |bars| => bars[i].open)
  }

  function Closes<D>(bars: seq<Bar<D>>): (r: seq<real>)
    ensures |r| == |bars| && forall i :: 0 <= i < |bars| ==> r[i] == bars[i].close
  {
    seq(|bars|, i requires 0 <= i < |bars| => bars[i].close)
  }

  function Highs<D>(bars: seq<Bar<D>>): (r: seq<real>)
    ensures |r| == |bars| && forall i :: 0 <= i < |bars| ==> r[i] == bars[i].high
  {
    seq(|bars|, i requires 0 <= i < |bars| => bars[i].high)
  }

  function Lows<D>(bars: seq<Bar<D>>): (r: seq<real>)
    ensures |r| == |bars| && forall i :: 0 <= i < |bars| ==> r[i] == bars[i].low
  {
    seq(|bars|, i requires 0 <= i < |bars| => bars[i].low)
  }

  // ---------------------------------------------------------------------
  // Rounding

  /** Half-up rounding of a non-negative amount to a whole number of cents. */
  function RoundCents(x: real): (r: real)
    requires x >= 0.0
    ensures (r * 100.0).Floor as real == r * 100.0
    ensures r - 0.005 <= x < r + 0.005
  {
    var k := (x * 100.0 + 0.5).Floor;
    assert k as real * 100.0 / 100.0 == k as real * 100.0 / 100.0;
    (k as real) / 100.0
  }

  /**
   * `parseFloat(x.toFixed(2))` on an exact real: the nearest multiple of
   * 0.01, ties rounded away from zero. The result is never more than half a
   * cent away and never has the opposite sign.
   */
  function Round2(x: real): (r: real)
    ensures (r * 100.0).Floor as real == r * 100.0
    ensures x >= 0.0 ==> r - 0.005 <= x < r + 0.005
    ensures x < 0.0 ==> r - 0.005 < x <= r + 0.005
    ensures -0.005 <= r - x <= 0.005
    ensures r > 0.0 ==> x > 0.0
    ensures r < 0.0 ==> x < 0.0
    ensures x >= 0.005 ==> r > 0.0
    ensures x <= -0.005 ==> r < 0.0
  {
    if x >= 0.0 then RoundCents(x)
    else
      var c := RoundCents(-x);
      var k := (c * 100.0).Floor;
      assert c * 100.0 == k as real;
      assert (-c) * 100.0 == (-k) as real;
      assert ((-c) * 100.0).Floor == -k;
      -c
  }

  /** Rounding a value between two bounds stays within half a cent of them. */
  lemma Round2Between(x: real, lo: real, hi: real)
    requires lo <= x <= hi
    ensures lo - 0.005 <= Round2(x) <= hi + 0.005
  {
  }

  /** Amounts already in whole cents are left as they are. */
  lemma Round2OfCents(k: int)
    ensures Round2(k as real / 100.0) == k as real / 100.0
  {
    var x := k as real / 100.0;
    if k >= 0 {
      assert x * 100.0 + 0.5 == k as real + 0.5;
      assert (x * 100.0 + 0.5).Floor == k;
    } else {
      assert -x * 100.0 + 0.5 == (-k) as real + 0.5;
      assert (-x * 100.0 + 0.5).Floor == -k;
    }
  }

  /**
   * `parseFloat((((to - from) / from) * 100).toFixed(2))`: the move from
   * `from` to `to` in percent, rounded to cents. From a positive price a
   * positive result means the price rose, a negative one that it fell.
   */
  function PercentChange(from: real, to: real): (r: real)
    requires from != 0.0
    ensures from > 0.0 ==> (r > 0.0 ==> to > from) && (r < 0.0 ==> to < from)
    ensures to == from ==> r == 0.0
  {
    var x := (to - from) / from * 100.0;
    assert from > 0.0 && x > 0.0 ==> to - from > 0.0;
    assert from > 0.0 && x < 0.0 ==> to - from < 0.0;
    Round2(x)
  }

  // ---------------------------------------------------------------------
  // Math.max / Math.min over a non-empty series

  /** `Math.max(...s)`: an element of `s` that no element exceeds. */
  function MaxOf(s: seq<real>): (m: real)
    requires s != []
    ensures m in s
    ensures forall i :: 0 <= i < |s| ==> s[i] <= m
  {
    if |s| == 1 then s[0]
    else
      var rest := MaxOf(s[1..]);
      assert forall i :: 1 <= i < |s| ==> s[i] == s[1..][i - 1];
      if s[0] >= rest then s[0] else rest
  }

  /** `Math.min(...s)`: an element of `s` that no element undercuts. */
  function MinOf(s: seq<real>): (m: real)
    requires s != []
    ensures m in s
    ensures forall i :: 0 <= i < |s| ==> m <= s[i]
  {
    if |s| == 1 then s[0]
    else
      var rest := MinOf(s[1..]);
      assert forall i :: 1 <= i < |s| ==> s[i] == s[1..][i - 1];
      if s[0] <= rest then s[0] else rest
  }
}

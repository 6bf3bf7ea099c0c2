/**
 * The heatmap of the trend rows: each row's name is read back into a year
 * and a row number, the rows are placed in a grid `organized[number][year]`,
 * the year and row axes are deduplicated and sorted, every cell is coloured
 * by its percentage band, and every year gets a total: the mean percentage of
 * its cells and the sum of their dollar changes.
 */
module Heatmap {
  import opened Wrappers
  import opened Seqs
  import opened Text
  import opened Prices
  import opened Trends

  // ---------------------------------------------------------------------
  // Reading period names back

  /** What a period name is split into: the year text and the row number (`None` for NaN). */
  datatype ParsedName = ParsedName(year: string, index: Option<nat>)

  /**
   * The row number read from the part after the dash: none (or an empty
   * one) is row 0; one starting with `Q` or `W` is `parseInt` of the rest;
   * any other is `parseInt` of the whole part.
   */
  function IndexPart(part: Option<string>): Option<nat>
  {
    if part.None? || part.value == "" then Some(0)
    else if part.value[0] == 'Q' || part.value[0] == 'W' then ParseInt(part.value[1..])
    else ParseInt(part.value)
  }

  /** `item.period.split('-')`: the year is the first part, the row number comes from the second. */
  function ParsePeriod(name: string): ParsedName
  {
    ParsedName(SplitFirst(name, '-'), IndexPart(SplitSecond(name, '-')))
  }

  /** The text after the dash of a weekly, monthly or quarterly name reads back as its index. */
  lemma IndexTextParses(tf: Timeframe, i: nat)
    requires tf != Yearly
    ensures IndexPart(Some(IndexText(tf, i))) == Some(i)
  {
    var n := NatToString(i);
    var t := IndexText(tf, i);
    ParseIntOfNatToString(i);
    if tf == Monthly {
      assert AllDigits(t) && t != [];
      assert t[0] != 'Q' && t[0] != 'W';
      assert IndexPart(Some(t)) == ParseInt(t);
    } else {
      assert t == [t[0]] + n && (t[0] == 'Q' || t[0] == 'W');
      assert t[1..] == n;
      assert IndexPart(Some(t)) == ParseInt(n);
    }
  }

  /** Reading a period name gives back the year and the period index it was built from. */
  lemma ParsePeriodOfKey(tf: Timeframe, d: Date)
    requires InCalendar(d)
    ensures ParsePeriod(PeriodKey(tf, d)) == ParsedName(NatToString(d.year), Some(PeriodIndex(tf, d)))
  {
    if tf == Yearly {
      NoDashInNumeral(d.year);
      SplitJoin(NatToString(d.year), "", '-');
    } else {
      KeySplit(tf, d);
      IndexTextParses(tf, PeriodIndex(tf, d));
    }
  }

  /** Rows with different names from one grouping land in different cells: nothing is overwritten. */
  lemma DistinctKeysDistinctCells(tf: Timeframe, d1: Date, d2: Date)
    requires InCalendar(d1) && InCalendar(d2)
    requires PeriodKey(tf, d1) != PeriodKey(tf, d2)
    ensures ParsePeriod(PeriodKey(tf, d1)) != ParsePeriod(PeriodKey(tf, d2))
  {
    ParsePeriodOfKey(tf, d1);
    ParsePeriodOfKey(tf, d2);
    SameKeySamePeriod(tf, d1, d2);
    if NatToString(d1.year) == NatToString(d2.year) {
      NatToStringInjective(d1.year, d2.year);
    }
  }

  /**
   * The timeframe the heatmap assumes, read from the first row's name: no
   * dash means yearly, else a `Q` quarterly, else a `W` weekly, else monthly.
   */
  function DetectTimeframe(first: string): Timeframe
  {
    if '-' !in first then Yearly
    else if Includes(first, "Q") then Quarterly
    else if Includes(first, "W") then Weekly
    else Monthly
  }

  /** A name holds a dash unless it is yearly, a `Q` only if quarterly and a `W` only if weekly. */
  lemma KeyLetters(tf: Timeframe, d: Date)
    requires InCalendar(d)
    ensures '-' in PeriodKey(tf, d) <==> tf != Yearly
    ensures 'Q' in PeriodKey(tf, d) <==> tf == Quarterly
    ensures 'W' in PeriodKey(tf, d) <==> tf == Weekly
  {
    var y := NatToString(d.year);
    assert AllDigits(y);
    assert '-' !in y && 'Q' !in y && 'W' !in y;
    if tf != Yearly {
      var t := IndexText(tf, PeriodIndex(tf, d));
      var n := NatToString(PeriodIndex(tf, d));
      assert AllDigits(n);
      assert PeriodKey(tf, d) == y + ['-'] + t;
      match tf
      case Monthly =>
        assert AllDigits(t);
        assert 'Q' !in t && 'W' !in t;
      case Weekly =>
        assert t == ['W'] + n;
      case Quarterly =>
        assert t == ['Q'] + n;
    }
  }

  /** The detection recognises the timeframe every name of the grouping was built with. */
  lemma DetectTimeframeOfKey(tf: Timeframe, d: Date)
    requires InCalendar(d)
    ensures DetectTimeframe(PeriodKey(tf, d)) == tf
  {
    KeyLetters(tf, d);
    IncludesChar(PeriodKey(tf, d), 'Q');
    IncludesChar(PeriodKey(tf, d), 'W');
    assert "Q" == ['Q'] && "W" == ['W'];
  }

  // ---------------------------------------------------------------------
  // organizeData

  /** `organized[periodNum][year]`: the row number, then the year text, gives the row placed there. */
  type Grid = map<nat, map<string, Period>>

  /** Every name reads as a number (none is NaN). */
  predicate Indexed(data: seq<Period>)
  {
    forall i :: 0 <= i < |data| ==> ParsePeriod(data[i].period).index.Some?
  }

  /** `organized[periodNum][year] = item`, creating the row first when it is missing. */
  function Place(g: Grid, item: Period): Grid
    requires ParsePeriod(item.period).index.Some?
  {
    var p := ParsePeriod(item.period);
    WithCell(g, p.index.value, p.year, item)
  }

  /** The grid with `item` in cell (`n`, `year`), the row created when missing. */
  function WithCell(g: Grid, n: nat, year: string, item: Period): (r: Grid)
    ensures r.Keys == g.Keys + {n}
    ensures r[n] == (if n in g then g[n] else map[])[year := item]
    ensures forall m :: m in g && m != n ==> r[m] == g[m]
  {
    var row := if n in g then g[n] else map[];
    g[n := row[year := item]]
  }

  /** `if (!organized[n]) organized[n] = {}; organized[n][year] = item`. */
  method SetCell(g: Grid, n: nat, year: string, item: Period) returns (r: Grid)
    ensures r == WithCell(g, n, year, item)
  {
    r := g;
    if n !in r {
      r := r[n := map[]];
    }
    r := r[n := r[n][year := item]];
  }

  /** The grid after placing the rows in order; a later row for the same cell replaces an earlier one. */
  function Organize(data: seq<Period>): Grid
    requires Indexed(data)
  {
    if data == [] then map[] else Place(Organize(data[..|data| - 1]), data[|data| - 1])
  }

  /** `organized[period]?.[year]`. */
  function Cell(g: Grid, n: nat, year: string): Option<Period>
  {
    if n in g && year in g[n] then Some(g[n][year]) else None
  }

  /** The row reads as this year and this number. */
  predicate PlacedAt(item: Period, n: nat, year: string)
  {
    ParsePeriod(item.period) == ParsedName(year, Some(n))
  }

  /** Placing a row fills its own cell and leaves every other cell as it was. */
  lemma PlaceCell(g: Grid, item: Period, n: nat, year: string)
    requires ParsePeriod(item.period).index.Some?
    ensures Cell(Place(g, item), n, year) == if PlacedAt(item, n, year) then Some(item) else Cell(g, n, year)
  {
  }

  lemma PlacedInPrefix(data: seq<Period>, m: nat, n: nat, year: string)
    requires m == |data| - 1 && !PlacedAt(data[m], n, year)
    ensures forall i :: 0 <= i < |data| ==> (PlacedAt(data[i], n, year) <==> i < m && PlacedAt(data[..m][i], n, year))
  {
    forall i | 0 <= i < |data|
      ensures PlacedAt(data[i], n, year) <==> i < m && PlacedAt(data[..m][i], n, year)
    {
      if i < m {
        assert data[i] == data[..m][i];
      }
    }
  }

  /**
   * A cell is empty exactly when no row reads as its year and number;
   * otherwise it holds the last such row.
   */
  lemma {:induction false} OrganizeCell(data: seq<Period>, n: nat, year: string)
    requires Indexed(data)
    ensures Cell(Organize(data), n, year).None? <==> forall i :: 0 <= i < |data| ==> !PlacedAt(data[i], n, year)
    ensures Cell(Organize(data), n, year).Some? ==>
              exists i :: 0 <= i < |data| && data[i] == Cell(Organize(data), n, year).value && PlacedAt(data[i], n, year)
                          && forall t :: i < t < |data| ==> !PlacedAt(data[t], n, year)
  {
    if data != [] {
      var m := |data| - 1;
      var prefix := data[..m];
      assert Indexed(prefix);
      var c := Cell(Organize(data), n, year);
      PlaceCell(Organize(prefix), data[m], n, year);
      assert c == if PlacedAt(data[m], n, year) then Some(data[m]) else Cell(Organize(prefix), n, year);
      if PlacedAt(data[m], n, year) {
        assert data[m] == c.value;
      } else {
        OrganizeCell(prefix, n, year);
        PlacedInPrefix(data, m, n, year);
        if c.Some? {
          var i :| 0 <= i < m && prefix[i] == c.value && PlacedAt(prefix[i], n, year)
                   && forall t :: i < t < m ==> !PlacedAt(prefix[t], n, year);
          assert data[i] == c.value;
        }
      }
    }
  }

  /** The year text of each row. */
  function YearList(data: seq<Period>): (r: seq<string>)
    ensures |r| == |data| && forall i :: 0 <= i < |data| ==> r[i] == ParsePeriod(data[i].period).year
  {
    seq(|data|, i requires 0 <= i < |data| => ParsePeriod(data[i].period).year)
  }

  /** The row number of each row. */
  function IndexList(data: seq<Period>): (r: seq<nat>)
    requires Indexed(data)
    ensures |r| == |data| && forall i :: 0 <= i < |data| ==> r[i] == ParsePeriod(data[i].period).index.value
  {
    seq(|data|, i requires 0 <= i < |data| && Indexed(data) => ParsePeriod(data[i].period).index.value)
  }

  /** The comparator `(a, b) => a - b`. */
  predicate NatLess(a: nat, b: nat)
  {
    a < b
  }

  lemma NatLessIsStrictWeakOrder()
    ensures StrictWeakOrder(NatLess)
  {
  }

  /** After the rows `done`: the grid, and the years and numbers in first-seen order. */
  ghost predicate Collected(done: seq<Period>, organized: Grid, yearSet: seq<string>, periodSet: seq<nat>)
    requires Indexed(done)
  {
    && organized == Organize(done)
    && yearSet == Dedup(YearList(done))
    && periodSet == Dedup(IndexList(done))
  }

  /** Taking one more row adds its year and its number to the sets when they are new, and fills its cell. */
  lemma OrganizeStep(data: seq<Period>, i: nat, organized: Grid, yearSet: seq<string>, periodSet: seq<nat>, p: ParsedName)
    requires Indexed(data) && i < |data| && Indexed(data[..i]) && Collected(data[..i], organized, yearSet, periodSet)
    requires p == ParsePeriod(data[i].period)
    ensures p.index.Some? && Indexed(data[..i + 1])
    ensures Collected(data[..i + 1],
                      WithCell(organized, p.index.value, p.year, data[i]),
                      if p.year in yearSet then yearSet else yearSet + [p.year],
                      if p.index.value in periodSet then periodSet else periodSet + [p.index.value])
  {
    var prefix := data[..i + 1];
    ListsSnoc(data, i);
    DedupSnoc(YearList(data[..i]), p.year);
    DedupSnoc(IndexList(data[..i]), p.index.value);
    OrganizeSnoc(data, i);
    CollectedIntro(prefix, WithCell(organized, p.index.value, p.year, data[i]),
                   if p.year in yearSet then yearSet else yearSet + [p.year],
                   if p.index.value in periodSet then periodSet else periodSet + [p.index.value]);
  }

  lemma ListsSnoc(data: seq<Period>, i: nat)
    requires Indexed(data) && i < |data|
    ensures Indexed(data[..i]) && Indexed(data[..i + 1])
    ensures YearList(data[..i + 1]) == YearList(data[..i]) + [ParsePeriod(data[i].period).year]
    ensures IndexList(data[..i + 1]) == IndexList(data[..i]) + [ParsePeriod(data[i].period).index.value]
  {
  }

  lemma OrganizeSnoc(data: seq<Period>, i: nat)
    requires Indexed(data) && i < |data|
    ensures Indexed(data[..i]) && Indexed(data[..i + 1])
    ensures Organize(data[..i + 1]) == Place(Organize(data[..i]), data[i])
  {
    assert data[..i + 1][..i] == data[..i];
  }

  lemma CollectedIntro(done: seq<Period>, organized: Grid, yearSet: seq<string>, periodSet: seq<nat>)
    requires Indexed(done)
    requires organized == Organize(done)
    requires yearSet == Dedup(YearList(done))
    requires periodSet == Dedup(IndexList(done))
    ensures Collected(done, organized, yearSet, periodSet)
  {
  }

  /**
   * `organizeData`: one pass placing every row in the grid and collecting
   * its year and its number in two insertion-ordered sets, then the years
   * sorted as text and the numbers sorted numerically.
   */
  method OrganizeData(data: seq<Period>) returns (organized: Grid, years: seq<string>, periods: seq<nat>)
    requires Indexed(data)
    ensures organized == Organize(data)
    ensures years == Sort(Dedup(YearList(data)), LexLess)
    ensures periods == Sort(Dedup(IndexList(data)), NatLess)
  {
    organized := map[];
    var yearSet: seq<string> := [];
    var periodSet: seq<nat> := [];
    CollectedIntro([], organized, yearSet, periodSet);
    for i := 0 to |data|
      invariant Indexed(data[..i]) && Collected(data[..i], organized, yearSet, periodSet)
    {
      var parsed := ParsePeriod(data[i].period);
      OrganizeStep(data, i, organized, yearSet, periodSet, parsed);
      var year := parsed.year;
      yearSet := SetAdd(yearSet, year);
      var periodNum := parsed.index.value;
      periodSet := SetAdd(periodSet, periodNum);
      organized := SetCell(organized, periodNum, year, data[i]);
    }
    assert data[..|data|] == data;
    years := Sort(yearSet, LexLess);
    periods := Sort(periodSet, NatLess);
  }

  /** The year axis is strictly ascending as text and holds exactly the rows' years. */
  lemma YearAxis(data: seq<Period>)
    ensures var years := Sort(Dedup(YearList(data)), LexLess);
            && (forall i, j :: 0 <= i < j < |years| ==> LexLess(years[i], years[j]))
            && (forall y :: y in years <==> exists i :: 0 <= i < |data| && ParsePeriod(data[i].period).year == y)
  {
    var ys := YearList(data);
    LexLessIsStrictWeakOrder();
    forall a, b | a != b
      ensures LexLess(a, b) || LexLess(b, a)
    {
      LexLessTotal(a, b);
    }
    SortDedupAscending(ys, LexLess);
    forall y | y in ys
      ensures exists i :: 0 <= i < |data| && ParsePeriod(data[i].period).year == y
    {
      var i :| 0 <= i < |ys| && ys[i] == y;
    }
  }

  /** The row axis is strictly ascending and holds exactly the rows' numbers. */
  lemma PeriodAxis(data: seq<Period>)
    requires Indexed(data)
    ensures var periods := Sort(Dedup(IndexList(data)), NatLess);
            && (forall i, j :: 0 <= i < j < |periods| ==> periods[i] < periods[j])
            && (forall n :: n in periods <==> exists i :: 0 <= i < |data| && ParsePeriod(data[i].period).index == Some(n))
  {
    var ns := IndexList(data);
    NatLessIsStrictWeakOrder();
    SortDedupAscending(ns, NatLess);
    forall n | n in ns
      ensures exists i :: 0 <= i < |data| && ParsePeriod(data[i].period).index == Some(n)
    {
      var i :| 0 <= i < |ns| && ns[i] == n;
    }
  }

  // ---------------------------------------------------------------------
  // Colours

  /** The band limits, from the top: 10%, 5%, 0%, -5%, -10%. */
  const Thresholds: seq<real> := [10.0, 5.0, 0.0, -5.0, -10.0]

  const CellPalette: seq<string> := ["bg-green-700", "bg-green-600", "bg-green-400", "bg-red-400", "bg-red-600", "bg-red-700"]

  const TotalPalette: seq<string> := ["bg-green-200", "bg-green-100", "bg-green-50", "bg-red-50", "bg-red-100", "bg-red-200"]

  function Above(v: real): real -> bool
  {
    (limit: real) => v < limit
  }

  /** The band of a percentage: how many limits lie above it (0 for 10% or more, 5 below -10%). */
  function Tier(v: real): nat
  {
    Count(Thresholds, Above(v))
  }

  lemma TierValue(v: real)
    ensures Tier(v) == if v >= 10.0 then 0 else if v >= 5.0 then 1 else if v >= 0.0 then 2
                       else if v >= -5.0 then 3 else if v >= -10.0 then 4 else 5
  {
    var s := Thresholds;
    assert s[1..] == [5.0, 0.0, -5.0, -10.0];
    assert s[1..][1..] == [0.0, -5.0, -10.0];
    assert s[1..][1..][1..] == [-5.0, -10.0];
    assert s[1..][1..][1..][1..] == [-10.0];
    assert s[1..][1..][1..][1..][1..] == [];
  }

  /** A higher percentage never falls in a lower band. */
  lemma TierMonotone(v: real, w: real)
    requires v <= w
    ensures Tier(w) <= Tier(v)
  {
    CountMonotone(Thresholds, Above(w), Above(v));
  }

  /** `getColor`: a missing percentage is grey, otherwise the cell colour of its band. */
  function GetColor(percentChange: Option<real>): (c: string)
    ensures percentChange.None? <==> c == "bg-gray-100"
  {
    match percentChange
    case None => "bg-gray-100"
    case Some(value) =>
      if value >= 10.0 then "bg-green-700"
      else if value >= 5.0 then "bg-green-600"
      else if value >= 0.0 then "bg-green-400"
      else if value >= -5.0 then "bg-red-400"
      else if value >= -10.0 then "bg-red-600"
      else "bg-red-700"
  }

  /** `getTotalColor`: the paler colour of the same band; a missing value is yellow. */
  function GetTotalColor(percentChange: Option<real>): (c: string)
    ensures percentChange.None? <==> c == "bg-yellow-100"
  {
    match percentChange
    case None => "bg-yellow-100"
    case Some(value) =>
      if value >= 10.0 then "bg-green-200"
      else if value >= 5.0 then "bg-green-100"
      else if value >= 0.0 then "bg-green-50"
      else if value >= -5.0 then "bg-red-50"
      else if value >= -10.0 then "bg-red-100"
      else "bg-red-200"
  }

  /** `getTotalTextColor`: green text for a non-negative value, red for a negative one. */
  function GetTotalTextColor(percentChange: Option<real>): (c: string)
    ensures percentChange.None? ==> c == "text-gray-800"
    ensures percentChange.Some? ==> (c == "text-green-700" <==> percentChange.value >= 0.0)
    ensures percentChange.Some? ==> (c == "text-red-700" <==> percentChange.value < 0.0)
  {
    match percentChange
    case None => "text-gray-800"
    case Some(value) => if value >= 0.0 then "text-green-700" else "text-red-700"
  }

  /**
   * The cell colour and the total colour of a value are the entries of the
   * two palettes for its band, and the total's text is green exactly in the
   * three upper (non-negative) bands.
   */
  lemma ColoursFollowBand(v: real)
    ensures GetColor(Some(v)) == CellPalette[Tier(v)]
    ensures GetTotalColor(Some(v)) == TotalPalette[Tier(v)]
    ensures GetTotalTextColor(Some(v)) == "text-green-700" <==> Tier(v) <= 2
  {
    TierValue(v);
  }

  // ---------------------------------------------------------------------
  // Row labels

  const MonthNames: seq<string> := ["", "Jan", "Feb", "Mar", "Apr", "May", "Jun", "Jul", "Aug", "Sep", "Oct", "Nov", "Dec"]

  /**
   * `getPeriodName`: `Year` for yearly rows, `Q`/`W` and the number for
   * quarters and weeks, the month's short name for 1 to 12 and otherwise the
   * number itself (the empty name at index 0 is falsy).
   */
  function GetPeriodName(n: nat, tf: Timeframe): string
  {
    if tf == Yearly then "Year"
    else if tf == Quarterly then "Q" + NatToString(n)
    else if tf == Weekly then "W" + NatToString(n)
    else if 1 <= n <= 12 then MonthNames[n]
    else NatToString(n)
  }

  /** Outside the yearly view, different rows get different labels. */
  lemma PeriodNamesDistinct(tf: Timeframe, n: nat, m: nat)
    requires tf != Yearly && n != m
    ensures GetPeriodName(n, tf) != GetPeriodName(m, tf)
  {
    if tf == Quarterly || tf == Weekly {
      if GetPeriodName(n, tf) == GetPeriodName(m, tf) {
        assert NatToString(n) == GetPeriodName(n, tf)[1..];
        NatToStringInjective(n, m);
      }
    } else {
      var a, b := NatToString(n), NatToString(m);
      assert IsDigit(a[0]) && IsDigit(b[0]);
      if 1 <= n <= 12 && 1 <= m <= 12 {
        assert MonthNames[n] != MonthNames[m];
      } else if 1 <= n <= 12 {
        assert !IsDigit(MonthNames[n][0]);
      } else if 1 <= m <= 12 {
        assert !IsDigit(MonthNames[m][0]);
      } else if a == b {
        NatToStringInjective(n, m);
      }
    }
  }

  // ---------------------------------------------------------------------
  // Year totals

  /** The filled cells of `year`, top row first. */
  function YearCells(g: Grid, periods: seq<nat>, year: string): seq<Period>
  {
    if periods == [] then []
    else
      var rest := YearCells(g, periods[..|periods| - 1], year);
      match Cell(g, periods[|periods| - 1], year)
      case None => rest
      case Some(p) => rest + [p]
  }

  /** The filled cells of a year are exactly the cells of its column. */
  lemma {:induction false} YearCellsMembers(g: Grid, periods: seq<nat>, year: string, p: Period)
    ensures p in YearCells(g, periods, year) <==> exists j :: 0 <= j < |periods| && Cell(g, periods[j], year) == Some(p)
  {
    if periods != [] {
      var m := |periods| - 1;
      YearCellsMembers(g, periods[..m], year, p);
      if exists j :: 0 <= j < |periods| && Cell(g, periods[j], year) == Some(p) {
        var j :| 0 <= j < |periods| && Cell(g, periods[j], year) == Some(p);
        if j < m {
          assert periods[..m][j] == periods[j];
        }
      }
    }
  }

  function SumChange(s: seq<Period>): real
  {
    if s == [] then 0.0 else SumChange(s[..|s| - 1]) + s[|s| - 1].change
  }

  /** The mean percentage shown for a column: rounded to cents, 0 for an empty column. */
  function AveragePercent(cells: seq<Period>): real
  {
    if |cells| > 0 then Round2(MeanPercent(cells)) else 0.0
  }

  /**
   * The total of one year: the `forEach` over the sorted row numbers adding
   * the percentage and the dollar change of every filled cell and counting
   * them.
   */
  method YearTotal(organized: Grid, periods: seq<nat>, year: string) returns (avgPercent: real, totalDollar: real, count: nat)
    ensures count == |YearCells(organized, periods, year)|
    ensures totalDollar == SumChange(YearCells(organized, periods, year))
    ensures avgPercent == AveragePercent(YearCells(organized, periods, year))
  {
    var totalPercent := 0.0;
    totalDollar := 0.0;
    count := 0;
    for j := 0 to |periods|
      invariant count == |YearCells(organized, periods[..j], year)|
      invariant totalPercent == SumPercent(YearCells(organized, periods[..j], year))
      invariant totalDollar == SumChange(YearCells(organized, periods[..j], year))
    {
      assert periods[..j + 1][..j] == periods[..j];
      var item := Cell(organized, periods[j], year);
      if item.Some? {
        totalPercent := totalPercent + item.value.changePercent;
        totalDollar := totalDollar + item.value.change;
        count := count + 1;
      }
    }
    assert periods[..|periods|] == periods;
    avgPercent := if count > 0 then Round2(totalPercent / count as real) else 0.0;
  }

  /** A year's mean lies between its worst and its best cell, up to the half cent of rounding. */
  lemma YearAverageBounds(cells: seq<Period>)
    requires cells != []
    ensures cells[WorstIndex(cells)].changePercent - 0.005 <= AveragePercent(cells)
    ensures AveragePercent(cells) <= cells[BestIndex(cells)].changePercent + 0.005
  {
    RoundedMeanBounds(cells);
  }

  // ---------------------------------------------------------------------
  // The component

  datatype YearTotalView = YearTotalView(year: string, avgPercent: real, totalDollar: real, count: nat)

  datatype HeatmapView = HeatmapView(
    timeframe: Timeframe,
    organized: Grid,
    years: seq<string>,
    periods: seq<nat>,
    totals: seq<YearTotalView>)

  /** One total per year, in the order of `years`, each summing that year's row of the grid. */
  predicate TotalsFor(organized: Grid, periods: seq<nat>, years: seq<string>, totals: seq<YearTotalView>)
  {
    && |totals| == |years|
    && forall j :: 0 <= j < |years| ==>
         var cells := YearCells(organized, periods, years[j]);
         totals[j] == YearTotalView(years[j], AveragePercent(cells), SumChange(cells), |cells|)
  }

  /** The footer's loop over the year axis. */
  method YearTotals(organized: Grid, periods: seq<nat>, years: seq<string>) returns (totals: seq<YearTotalView>)
    ensures TotalsFor(organized, periods, years, totals)
  {
    totals := [];
    for j := 0 to |years|
      invariant |totals| == j
      invariant forall t :: 0 <= t < j ==>
                  var cells := YearCells(organized, periods, years[t]);
                  totals[t] == YearTotalView(years[t], AveragePercent(cells), SumChange(cells), |cells|)
    {
      var avgPercent, totalDollar, count := YearTotal(organized, periods, years[j]);
      totals := totals + [YearTotalView(years[j], avgPercent, totalDollar, count)];
    }
  }

  /**
   * The component: nothing for missing or empty data; otherwise the
   * timeframe read from the first row, the grid and its axes, and one total
   * per year in the order of the year axis.
   */
  method RenderHeatmap(data: seq<Period>) returns (view: Option<HeatmapView>)
    requires Indexed(data)
    ensures view.None? <==> data == []
    ensures view.Some? ==>
              && view.value.timeframe == DetectTimeframe(data[0].period)
              && view.value.organized == Organize(data)
              && view.value.years == Sort(Dedup(YearList(data)), LexLess)
              && view.value.periods == Sort(Dedup(IndexList(data)), NatLess)
              && TotalsFor(view.value.organized, view.value.periods, view.value.years, view.value.totals)
  {
    if data == [] {
      return None;
    }
    var organized, years, periods := OrganizeData(data);
    var totals := YearTotals(organized, periods, years);
    view := Some(HeatmapView(DetectTimeframe(data[0].period), organized, years, periods, totals));
  }
}

/**
 * The trend table of the home page: monthly bars are bucketed into weekly,
 * monthly, quarterly or yearly periods, each period summarised by its first
 * open and last close, the periods restricted to a trailing window of years,
 * and the insight figures (bullish and bearish counts, mean, best, worst and
 * total return) computed over what is left.
 *
 * The bars' dates are the calendar days `new Date(item.date)` denotes in
 * local time; the current moment and the parsing of a period name back into a
 * moment are parameters.
 */
module Trends {
  import opened Wrappers
  import opened Seqs
  import opened Text
  import opened Prices

  datatype Timeframe = Weekly | Monthly | Quarterly | Yearly

  /** `Math.ceil(day / 7)`: the week of the month, counted from 1. */
  function WeekOfMonth(day: int): (w: int)
    requires 1 <= day <= 31
    ensures 1 <= w <= 5
    ensures 7 * (w - 1) < day <= 7 * w
  {
    (day + 6) / 7
  }

  /** `Math.floor(getMonth() / 3) + 1` with `getMonth()` counting from 0. */
  function QuarterOf(month: int): (q: int)
    requires 1 <= month <= 12
    ensures 1 <= q <= 4
    ensures 3 * (q - 1) < month <= 3 * q
  {
    (month - 1) / 3 + 1
  }

  /** Which period of its year a day falls in: week, month or quarter number; 0 for a whole year. */
  function PeriodIndex(tf: Timeframe, d: Date): nat
    requires InCalendar(d)
  {
    match tf
    case Weekly => WeekOfMonth(d.day)
    case Monthly => d.month
    case Quarterly => QuarterOf(d.month)
    case Yearly => 0
  }

  /** The part of a period name after the year and the dash. */
  function IndexText(tf: Timeframe, i: nat): string
  {
    match tf
    case Weekly => "W" + NatToString(i)
    case Monthly => PadStart2(NatToString(i))
    case Quarterly => "Q" + NatToString(i)
    case Yearly => ""
  }

  /** The name of the period a day is filed under: `2024-W3`, `2024-03`, `2024-Q1` or `2024`. */
  function PeriodKey(tf: Timeframe, d: Date): string
    requires InCalendar(d)
  {
    if tf == Yearly then NatToString(d.year)
    else NatToString(d.year) + "-" + IndexText(tf, PeriodIndex(tf, d))
  }

  lemma NoDashInNumeral(n: nat)
    ensures '-' !in NatToString(n)
  {
    var s := NatToString(n);
    assert forall i :: 0 <= i < |s| ==> s[i] != '-';
  }

  lemma {:induction false} IndexTextInjective(tf: Timeframe, i: nat, j: nat)
    requires tf != Yearly && IndexText(tf, i) == IndexText(tf, j)
    ensures i == j
  {
    match tf
    case Weekly =>
      assert NatToString(i) == IndexText(tf, i)[1..];
      NatToStringInjective(i, j);
    case Quarterly =>
      assert NatToString(i) == IndexText(tf, i)[1..];
      NatToStringInjective(i, j);
    case Monthly =>
      ParseIntOfNatToString(i);
      ParseIntOfNatToString(j);
  }

  /** The part after the dash never holds a dash itself. */
  lemma NoDashInIndexText(tf: Timeframe, i: nat)
    ensures '-' !in IndexText(tf, i)
  {
    var n := NatToString(i);
    var t := IndexText(tf, i);
    NoDashInNumeral(i);
    match tf
    case Monthly =>
      assert AllDigits(t);
      assert forall j :: 0 <= j < |t| ==> t[j] != '-';
    case Weekly =>
      assert t == ['W'] + n;
    case Quarterly =>
      assert t == ['Q'] + n;
    case Yearly =>
  }

  /** `key.split('-')` of a weekly, monthly or quarterly name gives back the year text and the index text. */
  lemma KeySplit(tf: Timeframe, d: Date)
    requires InCalendar(d) && tf != Yearly
    ensures SplitFirst(PeriodKey(tf, d), '-') == NatToString(d.year)
    ensures SplitSecond(PeriodKey(tf, d), '-') == Some(IndexText(tf, PeriodIndex(tf, d)))
  {
    var y := NatToString(d.year);
    var t := IndexText(tf, PeriodIndex(tf, d));
    NoDashInNumeral(d.year);
    NoDashInIndexText(tf, PeriodIndex(tf, d));
    assert PeriodKey(tf, d) == y + ['-'] + t;
    SplitJoin(y, t, '-');
  }

  /** Two days share a period name exactly when they share the year and the period within it. */
  lemma SameKeySamePeriod(tf: Timeframe, d1: Date, d2: Date)
    requires InCalendar(d1) && InCalendar(d2)
    ensures PeriodKey(tf, d1) == PeriodKey(tf, d2) <==>
              d1.year == d2.year && PeriodIndex(tf, d1) == PeriodIndex(tf, d2)
  {
    if PeriodKey(tf, d1) == PeriodKey(tf, d2) {
      if tf == Yearly {
        NatToStringInjective(d1.year, d2.year);
      } else {
        KeySplit(tf, d1);
        KeySplit(tf, d2);
        NatToStringInjective(d1.year, d2.year);
        IndexTextInjective(tf, PeriodIndex(tf, d1), PeriodIndex(tf, d2));
      }
    }
  }

  // ---------------------------------------------------------------------
  // Grouping

  /** One row of the trend table. */
  datatype Period = Period(period: string, open: real, close: real, change: real, changePercent: real)

  /** Every date is in the ranges the calendar getters return. */
  predicate ParsedBars(bars: seq<Bar<Date>>)
  {
    forall i :: 0 <= i < |bars| ==> InCalendar(bars[i].date)
  }

  /** The period name of each bar, in data order. */
  function KeyList(tf: Timeframe, bars: seq<Bar<Date>>): (ks: seq<string>)
    requires ParsedBars(bars)
    ensures |ks| == |bars| && forall i :: 0 <= i < |bars| ==> ks[i] == PeriodKey(tf, bars[i].date)
  {
    seq(|bars|, i requires 0 <= i < |bars| && ParsedBars(bars) => PeriodKey(tf, bars[i].date))
  }

  /** The period names in the order the grouping object first receives them. */
  function Keys(tf: Timeframe, bars: seq<Bar<Date>>): seq<string>
    requires ParsedBars(bars)
  {
    Dedup(KeyList(tf, bars))
  }

  /** The bar is filed under `k`: its day is in range and its period name is `k`. */
  function HasKey(tf: Timeframe, k: string): Bar<Date> -> bool
  {
    (b: Bar<Date>) => InCalendar(b.date) && PeriodKey(tf, b.date) == k
  }

  /** The bars filed under `k`, in the order they were pushed. */
  function Bucket(tf: Timeframe, bars: seq<Bar<Date>>, k: string): seq<Bar<Date>>
  {
    Filter(bars, HasKey(tf, k))
  }

  /**
   * The first bar filed under each name has a non-zero open. A row's
   * percentage divides by that open alone, so this is what makes every
   * percentage a number; the other bars' opens are never divided by.
   */
  ghost predicate FirstOpensNonZero(tf: Timeframe, bars: seq<Bar<Date>>)
  {
    forall k :: Bucket(tf, bars, k) != [] ==> Bucket(tf, bars, k)[0].open != 0.0
  }

  /** A period name is used exactly when some bar is filed under it. */
  lemma BucketNonEmpty(tf: Timeframe, bars: seq<Bar<Date>>, k: string)
    requires ParsedBars(bars)
    ensures Bucket(tf, bars, k) != [] <==> k in KeyList(tf, bars)
  {
    var b := Bucket(tf, bars, k);
    if k in KeyList(tf, bars) {
      var i :| 0 <= i < |bars| && KeyList(tf, bars)[i] == k;
      assert HasKey(tf, k)(bars[i]);
      assert bars[i] in b;
    }
    if b != [] {
      assert b[0] in bars && HasKey(tf, k)(b[0]);
      var i :| 0 <= i < |bars| && bars[i] == b[0];
      assert KeyList(tf, bars)[i] == k;
    }
  }

  /** Bar `i` opens its period: no earlier bar has its name. */
  predicate FirstOfPeriod(tf: Timeframe, bars: seq<Bar<Date>>, i: nat)
    requires ParsedBars(bars) && i < |bars|
  {
    forall j :: 0 <= j < i ==> KeyList(tf, bars)[j] != KeyList(tf, bars)[i]
  }

  /** The bucket of a name starts with the bar that opens its period. */
  lemma BucketHeadIsFirst(tf: Timeframe, bars: seq<Bar<Date>>, i: nat)
    requires ParsedBars(bars) && i < |bars|
    ensures var k := KeyList(tf, bars)[i];
            Bucket(tf, bars, k) != [] && (Bucket(tf, bars, k)[0] == bars[i] <== FirstOfPeriod(tf, bars, i))
  {
    var ks := KeyList(tf, bars);
    var k := ks[i];
    assert HasKey(tf, k)(bars[i]);
    assert bars[i] in Bucket(tf, bars, k);
    if FirstOfPeriod(tf, bars, i) {
      FilterHead(bars, HasKey(tf, k));
      var f :| 0 <= f < |bars| && Bucket(tf, bars, k)[0] == bars[f] && HasKey(tf, k)(bars[f])
               && forall t :: 0 <= t < f ==> !HasKey(tf, k)(bars[t]);
      assert ks[f] == ks[i];
      assert f == i;
    }
  }

  /** The head of a non-empty bucket is a bar that opens its period. */
  lemma BucketHeadOpens(tf: Timeframe, bars: seq<Bar<Date>>, k: string)
    requires ParsedBars(bars) && Bucket(tf, bars, k) != []
    ensures exists f :: 0 <= f < |bars| && FirstOfPeriod(tf, bars, f) && Bucket(tf, bars, k)[0] == bars[f]
  {
    var ks := KeyList(tf, bars);
    FilterHead(bars, HasKey(tf, k));
    var f :| 0 <= f < |bars| && Bucket(tf, bars, k)[0] == bars[f] && HasKey(tf, k)(bars[f])
             && forall t :: 0 <= t < f ==> !HasKey(tf, k)(bars[t]);
    forall j | 0 <= j < f
      ensures ks[j] != ks[f]
    {
      assert !HasKey(tf, k)(bars[j]);
    }
    assert FirstOfPeriod(tf, bars, f);
  }

  /** Told bar by bar, the requirement is a non-zero open on each bar that opens its period. */
  lemma FirstOpensOfBars(tf: Timeframe, bars: seq<Bar<Date>>)
    requires ParsedBars(bars)
    ensures FirstOpensNonZero(tf, bars) <==>
              forall i :: 0 <= i < |bars| && FirstOfPeriod(tf, bars, i) ==> bars[i].open != 0.0
  {
    if FirstOpensNonZero(tf, bars) {
      forall i | 0 <= i < |bars| && FirstOfPeriod(tf, bars, i)
        ensures bars[i].open != 0.0
      {
        BucketHeadIsFirst(tf, bars, i);
      }
    }
    if forall i :: 0 <= i < |bars| && FirstOfPeriod(tf, bars, i) ==> bars[i].open != 0.0 {
      forall k | Bucket(tf, bars, k) != []
        ensures Bucket(tf, bars, k)[0].open != 0.0
      {
        BucketHeadOpens(tf, bars, k);
      }
    }
  }

  /** Every used period has a first bar, and its open is non-zero. */
  lemma BucketsSummarizable(tf: Timeframe, bars: seq<Bar<Date>>)
    requires ParsedBars(bars) && FirstOpensNonZero(tf, bars)
    ensures forall k :: k in Keys(tf, bars) ==> Bucket(tf, bars, k) != [] && Bucket(tf, bars, k)[0].open != 0.0
  {
    forall k | k in Keys(tf, bars)
      ensures Bucket(tf, bars, k) != [] && Bucket(tf, bars, k)[0].open != 0.0
    {
      BucketNonEmpty(tf, bars, k);
      var b := Bucket(tf, bars, k);
      assert b[0] in bars;
    }
  }

  /** The row for one period: first open, last close, their difference and the rounded percentage. */
  function Summarize(k: string, items: seq<Bar<Date>>): Period
    requires items != [] && items[0].open != 0.0
  {
    var first := items[0];
    var last := items[|items| - 1];
    Period(k, first.open, last.close, last.close - first.open, PercentChange(first.open, last.close))
  }

  // ---------------------------------------------------------------------
  // The order of Object.entries

  /** A canonical array index: a key `Object.entries` lists before all others, in numeric order. */
  predicate IsArrayIndex(k: string)
  {
    k != [] && AllDigits(k) && (k[0] == '0' ==> k == "0") && DigitsValue(k) < 4294967295
  }

  predicate IsNamedKey(k: string)
  {
    !IsArrayIndex(k)
  }

  function IndexValue(k: string): nat
  {
    if IsArrayIndex(k) then DigitsValue(k) else 0
  }

  predicate IndexLess(a: string, b: string)
  {
    IndexValue(a) < IndexValue(b)
  }

  lemma IndexLessIsStrictWeakOrder()
    ensures StrictWeakOrder(IndexLess)
  {
  }

  /**
   * The order in which `Object.entries` lists the keys of an object that
   * received `keys` in this order: array indices ascending, then the other
   * keys in insertion order. It is a permutation of `keys`.
   */
  function EntriesOrder(keys: seq<string>): (r: seq<string>)
    ensures multiset(r) == multiset(keys)
    ensures |r| == |keys|
  {
    FilterPartition(keys, IsArrayIndex, IsNamedKey);
    var r := Sort(Filter(keys, IsArrayIndex), IndexLess) + Filter(keys, IsNamedKey);
    assert |multiset(r)| == |r| && |multiset(keys)| == |keys|;
    r
  }

  /** Without array-index keys, insertion order is kept. */
  lemma EntriesOrderOfNamedKeys(keys: seq<string>)
    requires forall k :: k in keys ==> IsNamedKey(k)
    ensures EntriesOrder(keys) == keys
  {
    FilterNone(keys, IsArrayIndex);
    FilterAll(keys, IsNamedKey);
  }

  /** With array-index keys only, the keys come out in ascending numeric order. */
  lemma EntriesOrderOfIndexKeys(keys: seq<string>)
    requires forall k :: k in keys ==> IsArrayIndex(k)
    ensures Sorted(EntriesOrder(keys), IndexLess)
  {
    FilterAll(keys, IsArrayIndex);
    FilterNone(keys, IsNamedKey);
    IndexLessIsStrictWeakOrder();
    SortIsSorted(keys, IndexLess);
  }

  // ---------------------------------------------------------------------
  // groupByTimeframe

  /** What grouping yields: one row per period, in `Object.entries` order. */
  function GroupSpec(tf: Timeframe, bars: seq<Bar<Date>>): (periods: seq<Period>)
    requires ParsedBars(bars) && FirstOpensNonZero(tf, bars)
    ensures |periods| == |Keys(tf, bars)|
  {
    BucketsSummarizable(tf, bars);
    var order := EntriesOrder(Keys(tf, bars));
    seq(|order|, i requires 0 <= i < |order| =>
      assert order[i] in multiset(Keys(tf, bars));
      Summarize(order[i], Bucket(tf, bars, order[i])))
  }

  /** The period names of the rows. */
  function Names(periods: seq<Period>): (r: seq<string>)
    ensures |r| == |periods| && forall i :: 0 <= i < |periods| ==> r[i] == periods[i].period
  {
    seq(|periods|, i requires 0 <= i < |periods| => periods[i].period)
  }

  lemma NamesOfGroupSpec(tf: Timeframe, bars: seq<Bar<Date>>)
    requires ParsedBars(bars) && FirstOpensNonZero(tf, bars)
    ensures Names(GroupSpec(tf, bars)) == EntriesOrder(Keys(tf, bars))
  {
  }

  /** Row `j` summarises the bucket of the `j`-th name in entries order, a name some bar has. */
  lemma GroupSpecAt(tf: Timeframe, bars: seq<Bar<Date>>, j: nat)
    requires ParsedBars(bars) && FirstOpensNonZero(tf, bars) && j < |GroupSpec(tf, bars)|
    ensures var k := EntriesOrder(Keys(tf, bars))[j];
            && k in Keys(tf, bars)
            && Bucket(tf, bars, k) != [] && Bucket(tf, bars, k)[0].open != 0.0
            && GroupSpec(tf, bars)[j] == Summarize(k, Bucket(tf, bars, k))
  {
    var k := EntriesOrder(Keys(tf, bars))[j];
    assert k in multiset(Keys(tf, bars));
    BucketsSummarizable(tf, bars);
  }

  lemma KeyInKeys(tf: Timeframe, bars: seq<Bar<Date>>, i: nat)
    requires ParsedBars(bars) && i < |bars|
    ensures PeriodKey(tf, bars[i].date) in Keys(tf, bars)
  {
    assert KeyList(tf, bars)[i] == PeriodKey(tf, bars[i].date);
  }

  lemma KeysFromBars(tf: Timeframe, bars: seq<Bar<Date>>, k: string)
    requires ParsedBars(bars) && k in Keys(tf, bars)
    ensures exists i :: 0 <= i < |bars| && PeriodKey(tf, bars[i].date) == k
  {
    var i :| 0 <= i < |bars| && KeyList(tf, bars)[i] == k;
  }

  /**
   * The rows partition the bars: no period name occurs twice, the names are
   * a permutation of the names of the bars' periods, and so every bar
   * belongs to exactly one row.
   */
  lemma GroupPartitions(tf: Timeframe, bars: seq<Bar<Date>>)
    requires ParsedBars(bars) && FirstOpensNonZero(tf, bars)
    ensures var names := Names(GroupSpec(tf, bars));
            && Distinct(names)
            && multiset(names) == multiset(Keys(tf, bars))
            && (forall i :: 0 <= i < |bars| ==> PeriodKey(tf, bars[i].date) in names)
            && (forall k :: k in names ==> exists i :: 0 <= i < |bars| && PeriodKey(tf, bars[i].date) == k)
  {
    NamesOfGroupSpec(tf, bars);
    var keys := Keys(tf, bars);
    var names := Names(GroupSpec(tf, bars));
    DistinctPermutation(keys, names);
    forall i | 0 <= i < |bars|
      ensures PeriodKey(tf, bars[i].date) in names
    {
      KeyInKeys(tf, bars, i);
      assert PeriodKey(tf, bars[i].date) in multiset(keys);
    }
    forall k | k in names
      ensures exists i :: 0 <= i < |bars| && PeriodKey(tf, bars[i].date) == k
    {
      assert k in multiset(keys);
      KeysFromBars(tf, bars, k);
    }
  }

  /** The bars filed under the names `ks`, put together. */
  function Gathered(tf: Timeframe, bars: seq<Bar<Date>>, ks: seq<string>): multiset<Bar<Date>>
  {
    if ks == [] then multiset{}
    else Gathered(tf, bars, ks[..|ks| - 1]) + multiset(Bucket(tf, bars, ks[|ks| - 1]))
  }

  /** The total length of the buckets named `ks`. */
  function BucketSizes(tf: Timeframe, bars: seq<Bar<Date>>, ks: seq<string>): nat
  {
    if ks == [] then 0
    else BucketSizes(tf, bars, ks[..|ks| - 1]) + |Bucket(tf, bars, ks[|ks| - 1])|
  }

  /** One more bar adds itself to the gathered buckets exactly when its name is among `ks`. */
  lemma {:induction false} GatheredStep(tf: Timeframe, bars: seq<Bar<Date>>, i: nat, ks: seq<string>)
    requires ParsedBars(bars) && i < |bars| && Distinct(ks)
    ensures Gathered(tf, bars[..i + 1], ks) ==
              Gathered(tf, bars[..i], ks) + if PeriodKey(tf, bars[i].date) in ks then multiset{bars[i]} else multiset{}
  {
    if ks != [] {
      var init, k := ks[..|ks| - 1], ks[|ks| - 1];
      assert ks == init + [k];
      GatheredStep(tf, bars, i, init);
      BucketStep(tf, bars, i, k);
      assert k !in init;
    }
  }

  /** A new name's bucket holds just the bar that brought it. */
  lemma NewKeyBucket(tf: Timeframe, bars: seq<Bar<Date>>, j: nat)
    requires ParsedBars(bars) && j < |bars|
    requires PeriodKey(tf, bars[j].date) !in Keys(tf, bars[..j])
    ensures Bucket(tf, bars[..j + 1], PeriodKey(tf, bars[j].date)) == [bars[j]]
  {
    var key := PeriodKey(tf, bars[j].date);
    assert ParsedBars(bars[..j]);
    BucketNonEmpty(tf, bars[..j], key);
    BucketStep(tf, bars, j, key);
  }

  /** A bar with a new name adds its own bucket, holding just that bar. */
  lemma GatheredNewKey(tf: Timeframe, bars: seq<Bar<Date>>, j: nat)
    requires ParsedBars(bars) && j < |bars| && ParsedBars(bars[..j])
    requires PeriodKey(tf, bars[j].date) !in Keys(tf, bars[..j])
    ensures var keys := Keys(tf, bars[..j]);
            Gathered(tf, bars[..j + 1], keys + [PeriodKey(tf, bars[j].date)])
              == Gathered(tf, bars[..j], keys) + multiset{bars[j]}
  {
    var key := PeriodKey(tf, bars[j].date);
    var keys := Keys(tf, bars[..j]);
    GatheredStep(tf, bars, j, keys);
    NewKeyBucket(tf, bars, j);
    assert (keys + [key])[..|keys|] == keys;
  }

  /** Filing one more bar keeps the buckets equal to the bars filed so far. */
  lemma GatheredGrow(tf: Timeframe, bars: seq<Bar<Date>>, j: nat)
    requires ParsedBars(bars) && j < |bars| && ParsedBars(bars[..j]) && ParsedBars(bars[..j + 1])
    requires Gathered(tf, bars[..j], Keys(tf, bars[..j])) == multiset(bars[..j])
    ensures Gathered(tf, bars[..j + 1], Keys(tf, bars[..j + 1])) == multiset(bars[..j + 1])
  {
    var key := PeriodKey(tf, bars[j].date);
    var keys := Keys(tf, bars[..j]);
    KeysStep(tf, bars, j);
    PrefixMultisetStep(bars, j);
    if key in keys {
      GatheredStep(tf, bars, j, keys);
    } else {
      GatheredNewKey(tf, bars, j);
    }
  }

  /** The buckets of the first `i` bars hold exactly those bars. */
  lemma {:induction false} GatheredPrefix(tf: Timeframe, bars: seq<Bar<Date>>, i: nat)
    requires ParsedBars(bars) && i <= |bars|
    ensures ParsedBars(bars[..i])
    ensures Gathered(tf, bars[..i], Keys(tf, bars[..i])) == multiset(bars[..i])
  {
    assert ParsedBars(bars[..i]);
    if i > 0 {
      GatheredPrefix(tf, bars, i - 1);
      GatheredGrow(tf, bars, i - 1);
    }
  }

  /** The gathered buckets have as many bars as the buckets' lengths add up to. */
  lemma {:induction false} GatheredSize(tf: Timeframe, bars: seq<Bar<Date>>, ks: seq<string>)
    ensures |Gathered(tf, bars, ks)| == BucketSizes(tf, bars, ks)
  {
    if ks != [] {
      GatheredSize(tf, bars, ks[..|ks| - 1]);
    }
  }

  /**
   * Every bar is pushed into exactly one bucket: together the buckets of
   * the period names hold each bar as often as the data does, and their
   * lengths add up to the number of bars.
   */
  lemma BucketsConserveBars(tf: Timeframe, bars: seq<Bar<Date>>)
    requires ParsedBars(bars)
    ensures Gathered(tf, bars, Keys(tf, bars)) == multiset(bars)
    ensures BucketSizes(tf, bars, Keys(tf, bars)) == |bars|
  {
    GatheredPrefix(tf, bars, |bars|);
    assert bars[..|bars|] == bars;
    GatheredSize(tf, bars, Keys(tf, bars));
  }

  /** The first and the last bar of a non-empty bucket, located in the data. */
  lemma BucketEnds(tf: Timeframe, bars: seq<Bar<Date>>, k: string)
    requires Bucket(tf, bars, k) != []
    ensures var b := Bucket(tf, bars, k);
            && (exists f :: 0 <= f < |bars| && HasKey(tf, k)(bars[f]) && b[0] == bars[f]
                            && forall t :: 0 <= t < f ==> !HasKey(tf, k)(bars[t]))
            && (exists l :: 0 <= l < |bars| && HasKey(tf, k)(bars[l]) && b[|b| - 1] == bars[l]
                            && forall t :: l < t < |bars| ==> !HasKey(tf, k)(bars[t]))
  {
    FilterHead(bars, HasKey(tf, k));
    FilterLast(bars, HasKey(tf, k));
  }

  /**
   * Each row opens at the open of the first bar of its period and closes at
   * the close of the last one; the change and the rounded percentage follow.
   */
  lemma GroupOpenClose(tf: Timeframe, bars: seq<Bar<Date>>, j: nat)
    requires ParsedBars(bars) && FirstOpensNonZero(tf, bars)
    requires j < |GroupSpec(tf, bars)|
    ensures var p := GroupSpec(tf, bars)[j];
            && (exists f :: 0 <= f < |bars| && HasKey(tf, p.period)(bars[f]) && p.open == bars[f].open
                            && forall t :: 0 <= t < f ==> !HasKey(tf, p.period)(bars[t]))
            && (exists l :: 0 <= l < |bars| && HasKey(tf, p.period)(bars[l]) && p.close == bars[l].close
                            && forall t :: l < t < |bars| ==> !HasKey(tf, p.period)(bars[t]))
            && p.change == p.close - p.open
            && p.changePercent == PercentChange(p.open, p.close)
  {
    GroupSpecAt(tf, bars, j);
    var k := EntriesOrder(Keys(tf, bars))[j];
    BucketEnds(tf, bars, k);
  }

  lemma NamedPeriodKeys(tf: Timeframe, bars: seq<Bar<Date>>)
    requires ParsedBars(bars) && tf != Yearly
    ensures forall k :: k in Keys(tf, bars) ==> IsNamedKey(k)
  {
    forall k | k in Keys(tf, bars)
      ensures IsNamedKey(k)
    {
      KeysFromBars(tf, bars, k);
      var i :| 0 <= i < |bars| && PeriodKey(tf, bars[i].date) == k;
      var y := NatToString(bars[i].date.year);
      assert k[|y|] == '-';
      assert !IsDigit(k[|y|]);
    }
  }

  lemma YearKeyValue(y: nat)
    requires y <= MaxYear
    ensures IsArrayIndex(NatToString(y)) && IndexValue(NatToString(y)) == y
  {
    NatToStringRoundTrip(y);
  }

  /** Weekly, monthly and quarterly rows come in the order their periods first occur in the data. */
  lemma GroupOrderFirstSeen(tf: Timeframe, bars: seq<Bar<Date>>)
    requires ParsedBars(bars) && FirstOpensNonZero(tf, bars) && tf != Yearly
    ensures Names(GroupSpec(tf, bars)) == Keys(tf, bars)
  {
    NamesOfGroupSpec(tf, bars);
    NamedPeriodKeys(tf, bars);
    EntriesOrderOfNamedKeys(Keys(tf, bars));
  }

  /** A yearly name is the numeral of a bar's year, and reads back as that year. */
  lemma YearlyKey(bars: seq<Bar<Date>>, k: string)
    requires ParsedBars(bars) && k in Keys(Yearly, bars)
    ensures exists i :: 0 <= i < |bars| && k == NatToString(bars[i].date.year)
    ensures IsArrayIndex(k) && NatToString(IndexValue(k)) == k
  {
    KeysFromBars(Yearly, bars, k);
    var i :| 0 <= i < |bars| && PeriodKey(Yearly, bars[i].date) == k;
    YearKeyValue(bars[i].date.year);
  }

  /**
   * Yearly names are integer-like keys, so `Object.entries` lists them in
   * ascending numeric order whatever the order of the data: every row is the
   * year of some bar, and the years strictly increase down the table.
   */
  lemma GroupOrderYearly(bars: seq<Bar<Date>>)
    requires ParsedBars(bars) && FirstOpensNonZero(Yearly, bars)
    ensures var periods := GroupSpec(Yearly, bars);
            && (forall j :: 0 <= j < |periods| ==>
                  exists i :: 0 <= i < |bars| && periods[j].period == NatToString(bars[i].date.year))
            && (forall i, j :: 0 <= i < j < |periods| ==> IndexValue(periods[i].period) < IndexValue(periods[j].period))
  {
    var periods := GroupSpec(Yearly, bars);
    var names := Names(periods);
    YearlyNames(bars);
    forall j | 0 <= j < |periods|
      ensures exists i :: 0 <= i < |bars| && periods[j].period == NatToString(bars[i].date.year)
    {
      assert names[j] in names;
    }
    AscendingNumerals(names);
  }

  /** The yearly row names: distinct numerals of the bars' years, sorted by value. */
  lemma YearlyNames(bars: seq<Bar<Date>>)
    requires ParsedBars(bars) && FirstOpensNonZero(Yearly, bars)
    ensures var names := Names(GroupSpec(Yearly, bars));
            && Sorted(names, IndexLess) && Distinct(names)
            && forall k :: k in names ==>
                 NatToString(IndexValue(k)) == k && exists i :: 0 <= i < |bars| && k == NatToString(bars[i].date.year)
  {
    var keys := Keys(Yearly, bars);
    var names := Names(GroupSpec(Yearly, bars));
    NamesOfGroupSpec(Yearly, bars);
    DistinctPermutation(keys, names);
    forall k | k in keys
      ensures IsArrayIndex(k)
    {
      YearlyKey(bars, k);
    }
    EntriesOrderOfIndexKeys(keys);
    forall k | k in names
      ensures NatToString(IndexValue(k)) == k && exists i :: 0 <= i < |bars| && k == NatToString(bars[i].date.year)
    {
      assert k in multiset(keys);
      YearlyKey(bars, k);
    }
  }

  /** Distinct numerals sorted by value are strictly ascending. */
  lemma AscendingNumerals(names: seq<string>)
    requires Sorted(names, IndexLess) && Distinct(names)
    requires forall k :: k in names ==> NatToString(IndexValue(k)) == k
    ensures forall i, j :: 0 <= i < j < |names| ==> IndexValue(names[i]) < IndexValue(names[j])
  {
    forall i, j | 0 <= i < j < |names|
      ensures IndexValue(names[i]) < IndexValue(names[j])
    {
      assert !IndexLess(names[j], names[i]);
      assert names[i] in names && names[j] in names;
    }
  }

  /** One more bar extends the first-seen name list by its name when that name is new. */
  lemma KeysStep(tf: Timeframe, bars: seq<Bar<Date>>, i: nat)
    requires ParsedBars(bars) && i < |bars|
    ensures var key := PeriodKey(tf, bars[i].date);
            Keys(tf, bars[..i + 1]) == if key in Keys(tf, bars[..i]) then Keys(tf, bars[..i]) else Keys(tf, bars[..i]) + [key]
  {
    KeyListSnoc(tf, bars, i);
    DedupSnoc(KeyList(tf, bars[..i]), PeriodKey(tf, bars[i].date));
  }

  /** One more bar appends its name to the name list. */
  lemma KeyListSnoc(tf: Timeframe, bars: seq<Bar<Date>>, i: nat)
    requires ParsedBars(bars) && i < |bars|
    ensures ParsedBars(bars[..i]) && ParsedBars(bars[..i + 1])
    ensures KeyList(tf, bars[..i + 1]) == KeyList(tf, bars[..i]) + [PeriodKey(tf, bars[i].date)]
  {
    assert ParsedBars(bars[..i]) && ParsedBars(bars[..i + 1]);
  }

  /** One more bar is appended to its own bucket and to no other. */
  lemma BucketStep(tf: Timeframe, bars: seq<Bar<Date>>, i: nat, k: string)
    requires ParsedBars(bars) && i < |bars|
    ensures Bucket(tf, bars[..i + 1], k) ==
              Bucket(tf, bars[..i], k) + (if PeriodKey(tf, bars[i].date) == k then [bars[i]] else [])
  {
    assert bars[..i + 1] == bars[..i] + [bars[i]];
    FilterSnoc(bars[..i], bars[i], HasKey(tf, k));
  }

  /** Once every bar is filed, row `j` is the summary of the `j`-th filed bucket in entries order. */
  lemma SummarizeGrouped(tf: Timeframe, bars: seq<Bar<Date>>, grouped: map<string, seq<Bar<Date>>>, j: nat)
    requires ParsedBars(bars) && FirstOpensNonZero(tf, bars) && j < |Keys(tf, bars)|
    requires Filed(tf, bars, grouped, Keys(tf, bars))
    ensures var k := EntriesOrder(Keys(tf, bars))[j];
            && k in grouped && grouped[k] != [] && grouped[k][0].open != 0.0
            && GroupSpec(tf, bars)[j] == Summarize(k, grouped[k])
  {
    GroupSpecAt(tf, bars, j);
  }

  /** `groupByTimeframe`: the bars are filed by period name in one pass, then summarised. */
  method GroupByTimeframe(tf: Timeframe, bars: seq<Bar<Date>>) returns (periods: seq<Period>)
    requires ParsedBars(bars) && FirstOpensNonZero(tf, bars)
    ensures periods == GroupSpec(tf, bars)
  {
    var grouped: map<string, seq<Bar<Date>>>, keyOrder: seq<string> := FileBars(tf, bars);
    var entries := EntriesOrder(keyOrder);
    EntriesReady(tf, bars, grouped, keyOrder);
    periods := SummarizeEntries(grouped, entries);
    SummariesAreGroupSpec(tf, bars, grouped, periods);
  }

  /** `grouped` and `keyOrder` hold the bars of `bars` filed by period name. */
  ghost predicate Filed(tf: Timeframe, bars: seq<Bar<Date>>, grouped: map<string, seq<Bar<Date>>>, keyOrder: seq<string>)
    requires ParsedBars(bars)
  {
    && keyOrder == Keys(tf, bars)
    && (forall k :: k in grouped <==> k in keyOrder)
    && (forall k :: k in grouped ==> grouped[k] == Bucket(tf, bars, k))
  }

  /**
   * The object after filing `bar` under `key`: a new name gets an empty
   * array first, then the bar is pushed onto the name's array.
   */
  function Pushed(grouped: map<string, seq<Bar<Date>>>, key: string, bar: Bar<Date>): (g: map<string, seq<Bar<Date>>>)
    ensures g.Keys == grouped.Keys + {key}
    ensures g[key] == (if key in grouped then grouped[key] else []) + [bar]
    ensures forall k :: k in grouped && k != key ==> g[k] == grouped[k]
  {
    var g := if key in grouped then grouped else grouped[key := []];
    g[key := g[key] + [bar]]
  }

  /**
   * `if (!grouped[key]) grouped[key] = []; grouped[key].push(item)`, with
   * `keyOrder` recording the order in which the object received its keys.
   */
  method Push(grouped: map<string, seq<Bar<Date>>>, keyOrder: seq<string>, key: string, bar: Bar<Date>)
    returns (grouped': map<string, seq<Bar<Date>>>, keyOrder': seq<string>)
    ensures grouped' == Pushed(grouped, key, bar)
    ensures keyOrder' == if key in grouped then keyOrder else keyOrder + [key]
  {
    grouped', keyOrder' := grouped, keyOrder;
    if key !in grouped' {
      grouped' := grouped'[key := []];
      keyOrder' := keyOrder' + [key];
    }
    grouped' := grouped'[key := grouped'[key] + [bar]];
  }

  /** The key order gains the name exactly when the object did not hold it yet. */
  lemma KeyOrderStep(tf: Timeframe, bars: seq<Bar<Date>>, i: nat, key: string, known: bool, keyOrder: seq<string>, keyOrder': seq<string>)
    requires ParsedBars(bars) && i < |bars| && key == PeriodKey(tf, bars[i].date)
    requires keyOrder == Keys(tf, bars[..i]) && (known <==> key in keyOrder)
    requires keyOrder' == if known then keyOrder else keyOrder + [key]
    ensures keyOrder' == Keys(tf, bars[..i + 1])
  {
    KeysStep(tf, bars, i);
  }

  /** Pushing the bar onto its name's array keeps every array equal to its bucket. */
  lemma BucketsStep(tf: Timeframe, bars: seq<Bar<Date>>, i: nat, key: string, grouped: map<string, seq<Bar<Date>>>)
    requires ParsedBars(bars) && i < |bars| && key == PeriodKey(tf, bars[i].date)
    requires forall k :: k in grouped ==> grouped[k] == Bucket(tf, bars[..i], k)
    requires key !in grouped ==> Bucket(tf, bars[..i], key) == []
    ensures var g := Pushed(grouped, key, bars[i]);
            forall k :: k in g ==> g[k] == Bucket(tf, bars[..i + 1], k)
  {
    var g := Pushed(grouped, key, bars[i]);
    forall k | k in g
      ensures g[k] == Bucket(tf, bars[..i + 1], k)
    {
      BucketStep(tf, bars, i, k);
    }
  }

  /** Filing one more bar keeps the object and its key order in step with the bars filed so far. */
  lemma FileStep(tf: Timeframe, bars: seq<Bar<Date>>, i: nat, grouped: map<string, seq<Bar<Date>>>, keyOrder: seq<string>)
    requires ParsedBars(bars) && i < |bars| && Filed(tf, bars[..i], grouped, keyOrder)
    ensures var key := PeriodKey(tf, bars[i].date);
            Filed(tf, bars[..i + 1], Pushed(grouped, key, bars[i]), if key in grouped then keyOrder else keyOrder + [key])
  {
    var key := PeriodKey(tf, bars[i].date);
    var g := Pushed(grouped, key, bars[i]);
    var o := if key in grouped then keyOrder else keyOrder + [key];
    assert ParsedBars(bars[..i]) && ParsedBars(bars[..i + 1]);
    assert key !in grouped ==> Bucket(tf, bars[..i], key) == [] by {
      if key !in grouped {
        BucketNonEmpty(tf, bars[..i], key);
      }
    }
    assert o == Keys(tf, bars[..i + 1]) by {
      KeyOrderStep(tf, bars, i, key, key in grouped, keyOrder, o);
    }
    assert forall k :: k in g ==> g[k] == Bucket(tf, bars[..i + 1], k) by {
      BucketsStep(tf, bars, i, key, grouped);
    }
    assert forall k :: k in g <==> k in o;
    FiledIntro(tf, bars[..i + 1], g, o);
  }

  lemma FiledIntro(tf: Timeframe, bars: seq<Bar<Date>>, grouped: map<string, seq<Bar<Date>>>, keyOrder: seq<string>)
    requires ParsedBars(bars) && keyOrder == Keys(tf, bars)
    requires forall k :: k in grouped <==> k in keyOrder
    requires forall k :: k in grouped ==> grouped[k] == Bucket(tf, bars, k)
    ensures Filed(tf, bars, grouped, keyOrder)
  {
  }

  /**
   * The `forEach` pass: each bar is pushed onto the array of its period
   * name, the array created when the name is first met. `keyOrder` records
   * the order in which the object received its keys.
   */
  method FileBars(tf: Timeframe, bars: seq<Bar<Date>>) returns (grouped: map<string, seq<Bar<Date>>>, keyOrder: seq<string>)
    requires ParsedBars(bars)
    ensures Filed(tf, bars, grouped, keyOrder)
  {
    grouped := map[];
    keyOrder := [];
    for i := 0 to |bars|
      invariant Filed(tf, bars[..i], grouped, keyOrder)
    {
      var key := PeriodKey(tf, bars[i].date);
      FileStep(tf, bars, i, grouped, keyOrder);
      grouped, keyOrder := Push(grouped, keyOrder, key, bars[i]);
    }
    assert bars[..|bars|] == bars;
  }

  /** Every name in entries order has a filed, non-empty array whose first open is non-zero. */
  lemma EntriesReady(tf: Timeframe, bars: seq<Bar<Date>>, grouped: map<string, seq<Bar<Date>>>, keyOrder: seq<string>)
    requires ParsedBars(bars) && FirstOpensNonZero(tf, bars) && Filed(tf, bars, grouped, keyOrder)
    ensures forall k :: k in EntriesOrder(keyOrder) ==> k in grouped && grouped[k] != [] && grouped[k][0].open != 0.0
  {
    forall k | k in EntriesOrder(keyOrder)
      ensures k in grouped && grouped[k] != [] && grouped[k][0].open != 0.0
    {
      assert k in multiset(keyOrder);
      BucketsSummarizable(tf, bars);
    }
  }

  /**
   * The `Object.entries(grouped).map(…)` step: the filed arrays, listed in
   * entries order, each turned into its row.
   */
  method SummarizeEntries(grouped: map<string, seq<Bar<Date>>>, entries: seq<string>) returns (periods: seq<Period>)
    requires forall k :: k in entries ==> k in grouped && grouped[k] != [] && grouped[k][0].open != 0.0
    ensures |periods| == |entries|
    ensures forall t :: 0 <= t < |entries| ==> periods[t] == Summarize(entries[t], grouped[entries[t]])
  {
    periods := [];
    for j := 0 to |entries|
      invariant |periods| == j
      invariant forall t :: 0 <= t < j ==> periods[t] == Summarize(entries[t], grouped[entries[t]])
    {
      var k := entries[j];
      periods := periods + [Summarize(k, grouped[k])];
    }
  }

  lemma SummariesAreGroupSpec(tf: Timeframe, bars: seq<Bar<Date>>, grouped: map<string, seq<Bar<Date>>>, periods: seq<Period>)
    requires ParsedBars(bars) && FirstOpensNonZero(tf, bars)
    requires Filed(tf, bars, grouped, Keys(tf, bars))
    requires forall k :: k in EntriesOrder(Keys(tf, bars)) ==> k in grouped && grouped[k] != [] && grouped[k][0].open != 0.0
    requires var entries := EntriesOrder(Keys(tf, bars));
             && |periods| == |entries|
             && forall t :: 0 <= t < |entries| ==> entries[t] in grouped && periods[t] == Summarize(entries[t], grouped[entries[t]])
    ensures periods == GroupSpec(tf, bars)
  {
    var spec := GroupSpec(tf, bars);
    forall t | 0 <= t < |periods|
      ensures periods[t] == spec[t]
    {
      SummarizeGrouped(tf, bars, grouped, t);
    }
  }

  // ---------------------------------------------------------------------
  // filterByDateRange

  /** A moment in local time: a calendar day and the milliseconds since its midnight. */
  datatype Instant = Instant(date: Date, millis: nat)

  /** `a >= b` on moments. */
  predicate NotBefore(a: Instant, b: Instant)
  {
    || a.date.year > b.date.year
    || (a.date.year == b.date.year && a.date.month > b.date.month)
    || (a.date.year == b.date.year && a.date.month == b.date.month && a.date.day > b.date.day)
    || (a.date == b.date && a.millis >= b.millis)
  }

  lemma NotBeforeTransitive(x: Instant, y: Instant, z: Instant)
    requires NotBefore(x, y) && NotBefore(y, z)
    ensures NotBefore(x, z)
  {
  }

  /** The trailing window a range selector stands for, in years; `None` keeps everything. */
  function RangeYears(range: string): (r: Option<nat>)
    ensures r.Some? <==> range in {"1y", "3y", "5y", "10y"}
    ensures r.Some? ==> r.value in {1, 3, 5, 10}
  {
    if range == "1y" then Some(1)
    else if range == "3y" then Some(3)
    else if range == "5y" then Some(5)
    else if range == "10y" then Some(10)
    else None
  }

  /**
   * `d.setFullYear(d.getFullYear() - n)`: the same month, day and time `n`
   * years earlier; a 29 February that year lacks rolls over to 1 March.
   */
  function YearsBefore(now: Instant, n: nat): (r: Instant)
    requires ValidDate(now.date)
    ensures r.date.year == now.date.year - n && r.millis == now.millis
    ensures now.date.month == 2 && now.date.day == 29 && !IsLeapYear(now.date.year - n) ==>
              r.date == Date(now.date.year - n, 3, 1)
    ensures !(now.date.month == 2 && now.date.day == 29 && !IsLeapYear(now.date.year - n)) ==>
              r.date == Date(now.date.year - n, now.date.month, now.date.day)
    ensures n <= now.date.year ==> ValidDate(r.date)
    ensures NotBefore(now, r)
  {
    var y := now.date.year - n;
    if now.date.month == 2 && now.date.day == 29 && !IsLeapYear(y) then Instant(Date(y, 3, 1), now.millis)
    else Instant(Date(y, now.date.month, now.date.day), now.millis)
  }

  /** A row is kept when its name parses to a moment at or after the cutoff. */
  function OnOrAfter(cutoff: Instant, parse: string -> Option<Instant>): Period -> bool
  {
    (p: Period) => parse(p.period).Some? && NotBefore(parse(p.period).value, cutoff)
  }

  /**
   * `filterByDateRange`: for a window range, the rows whose name `new Date`
   * reads as a moment no earlier than `now` minus the window, in order; a
   * name that does not parse (an Invalid Date) compares false and is
   * dropped. Any other range keeps every row.
   */
  function FilterByDateRange(data: seq<Period>, range: string, now: Instant, parse: string -> Option<Instant>): (r: seq<Period>)
    requires ValidDate(now.date)
    ensures RangeYears(range).None? ==> r == data
    ensures RangeYears(range).Some? ==>
              forall p :: p in r <==>
                p in data && parse(p.period).Some?
                && NotBefore(parse(p.period).value, YearsBefore(now, RangeYears(range).value))
    ensures RangeYears(range).Some? ==> |r| == Count(data, OnOrAfter(YearsBefore(now, RangeYears(range).value), parse))
    ensures IsSubsequence(r, data)
  {
    match RangeYears(range)
    case None =>
      PrefixIsSubsequence(data, |data|);
      assert data[..|data|] == data;
      data
    case Some(n) =>
      var keep := OnOrAfter(YearsBefore(now, n), parse);
      FilterIsSubsequence(data, keep);
      Filter(data, keep)
  }

  /** A longer window keeps everything a shorter one keeps, in the same order. */
  lemma WindowsNest(data: seq<Period>, short: string, long: string, now: Instant, parse: string -> Option<Instant>)
    requires ValidDate(now.date)
    requires RangeYears(short).Some? && RangeYears(long).Some?
    requires RangeYears(short).value <= RangeYears(long).value
    ensures IsSubsequence(FilterByDateRange(data, short, now, parse), FilterByDateRange(data, long, now, parse))
  {
    var a := YearsBefore(now, RangeYears(short).value);
    var b := YearsBefore(now, RangeYears(long).value);
    forall p: Period | OnOrAfter(a, parse)(p)
      ensures OnOrAfter(b, parse)(p)
    {
      NotBeforeTransitive(parse(p.period).value, a, b);
    }
    FilterNarrower(data, OnOrAfter(a, parse), OnOrAfter(b, parse));
  }

  // ---------------------------------------------------------------------
  // calculateInsights

  predicate IsBullish(p: Period)
  {
    p.changePercent > 0.0
  }

  predicate IsBearish(p: Period)
  {
    p.changePercent < 0.0
  }

  /** The running sum of the percentages, left to right as `reduce` adds them. */
  function SumPercent(s: seq<Period>): real
  {
    if s == [] then 0.0 else SumPercent(s[..|s| - 1]) + s[|s| - 1].changePercent
  }

  /** The unrounded mean percentage of a non-empty list. */
  function MeanPercent(s: seq<Period>): real
    requires s != []
  {
    SumPercent(s) / |s| as real
  }

  /** Position `i` holds a largest percentage and no earlier position does. */
  predicate FirstBest(s: seq<Period>, i: int)
  {
    && 0 <= i < |s|
    && (forall j :: 0 <= j < |s| ==> s[j].changePercent <= s[i].changePercent)
    && (forall j :: 0 <= j < i ==> s[j].changePercent < s[i].changePercent)
  }

  /** Position `i` holds a smallest percentage and no earlier position does. */
  predicate FirstWorst(s: seq<Period>, i: int)
  {
    && 0 <= i < |s|
    && (forall j :: 0 <= j < |s| ==> s[i].changePercent <= s[j].changePercent)
    && (forall j :: 0 <= j < i ==> s[i].changePercent < s[j].changePercent)
  }

  /**
   * `reduce((max, d) => d.changePercent > max.changePercent ? d : max)`:
   * the position of a largest percentage, the first one on ties.
   */
  function BestIndex(s: seq<Period>): (i: nat)
    requires s != []
    ensures FirstBest(s, i)
  {
    if |s| == 1 then 0
    else
      var m := BestIndex(s[..|s| - 1]);
      if s[|s| - 1].changePercent > s[m].changePercent then |s| - 1 else m
  }

  /** The `reduce` picking a smallest percentage, the first one on ties. */
  function WorstIndex(s: seq<Period>): (i: nat)
    requires s != []
    ensures FirstWorst(s, i)
  {
    if |s| == 1 then 0
    else
      var m := WorstIndex(s[..|s| - 1]);
      if s[|s| - 1].changePercent < s[m].changePercent then |s| - 1 else m
  }

  datatype Insights = Insights(bullish: nat, bearish: nat, avgReturn: real, best: Period, worst: Period, totalReturn: real)

  /**
   * `calculateInsights`: nothing for an empty table; otherwise the counts of
   * rising and falling rows, the mean percentage and the total return from
   * the first open to the last close, both rounded to cents, and the best
   * and worst rows.
   */
  function CalculateInsights(trend: seq<Period>): (r: Option<Insights>)
    requires trend != [] ==> trend[0].open != 0.0
    ensures r.None? <==> trend == []
    ensures r.Some? ==> r.value.bullish + r.value.bearish <= |trend|
    ensures r.Some? ==> r.value.best in trend && r.value.worst in trend
    ensures r.Some? ==> r.value.worst.changePercent <= r.value.best.changePercent
    ensures r.Some? ==> r.value.bullish == Count(trend, IsBullish) && r.value.bearish == Count(trend, IsBearish)
    ensures r.Some? ==> exists i :: FirstBest(trend, i) && r.value.best == trend[i]
    ensures r.Some? ==> exists i :: FirstWorst(trend, i) && r.value.worst == trend[i]
    ensures r.Some? ==> r.value.avgReturn == Round2(MeanPercent(trend))
    ensures r.Some? ==> r.value.totalReturn == PercentChange(trend[0].open, trend[|trend| - 1].close)
  {
    if trend == [] then None
    else
      CountDisjoint(trend, IsBullish, IsBearish);
      var n := |trend|;
      var bi := BestIndex(trend);
      var wi := WorstIndex(trend);
      var best := trend[bi];
      var worst := trend[wi];
      assert FirstBest(trend, bi) && FirstWorst(trend, wi);
      Some(Insights(
        Count(trend, IsBullish),
        Count(trend, IsBearish),
        Round2(MeanPercent(trend)),
        best,
        worst,
        PercentChange(trend[0].open, trend[n - 1].close)))
  }

  lemma {:induction false} SumPercentBounds(s: seq<Period>, lo: real, hi: real)
    requires forall j :: 0 <= j < |s| ==> lo <= s[j].changePercent <= hi
    ensures |s| as real * lo <= SumPercent(s) <= |s| as real * hi
  {
    if s != [] {
      SumPercentBounds(s[..|s| - 1], lo, hi);
    }
  }

  /** The mean return lies between the worst and the best row, up to the half cent of rounding. */
  lemma AverageBetweenWorstAndBest(trend: seq<Period>)
    requires trend != [] && trend[0].open != 0.0
    ensures var ins := CalculateInsights(trend).value;
            ins.worst.changePercent - 0.005 <= ins.avgReturn <= ins.best.changePercent + 0.005
  {
    var ins := CalculateInsights(trend).value;
    assert ins.best == trend[BestIndex(trend)] && ins.worst == trend[WorstIndex(trend)];
    assert ins.avgReturn == Round2(MeanPercent(trend));
    RoundedMeanBounds(trend);
  }

  /** The rounded mean percentage of a non-empty list lies between its extremes, up to half a cent. */
  lemma RoundedMeanBounds(s: seq<Period>)
    requires s != []
    ensures s[WorstIndex(s)].changePercent - 0.005 <= Round2(MeanPercent(s))
    ensures Round2(MeanPercent(s)) <= s[BestIndex(s)].changePercent + 0.005
  {
    var lo := s[WorstIndex(s)].changePercent;
    var hi := s[BestIndex(s)].changePercent;
    var n := |s| as real;
    SumPercentBounds(s, lo, hi);
    MeanBetween(SumPercent(s), n, lo, hi);
    Round2Between(MeanPercent(s), lo, hi);
  }

  lemma MeanBetween(sum: real, n: real, lo: real, hi: real)
    requires n > 0.0 && n * lo <= sum <= n * hi
    ensures lo <= sum / n <= hi
  {
    var m := sum / n;
    assert m * n == sum;
    assert (m - lo) * n == sum - n * lo;
    assert (hi - m) * n == n * hi - sum;
  }

  /** The trend column of the table: BULLISH for a non-negative percentage, else BEARISH. */
  function TrendLabel(p: Period): (shown: string)
    ensures shown == "BULLISH" || shown == "BEARISH"
    ensures shown == "BULLISH" <==> !IsBearish(p)
  {
    if p.changePercent >= 0.0 then "BULLISH" else "BEARISH"
  }

  predicate LabelledBullish(p: Period)
  {
    TrendLabel(p) == "BULLISH"
  }

  /**
   * The labels and the insight counts agree: the BULLISH rows are exactly
   * the rows not counted bearish, so they include every row counted bullish
   * (and, beyond them, the unchanged rows).
   */
  lemma LabelsAgreeWithCounts(trend: seq<Period>)
    requires trend != [] && trend[0].open != 0.0
    ensures var ins := CalculateInsights(trend).value;
            && Count(trend, LabelledBullish) == |trend| - ins.bearish
            && ins.bullish <= Count(trend, LabelledBullish)
  {
    CountComplement(trend, IsBearish, LabelledBullish);
    CountMonotone(trend, IsBullish, LabelledBullish);
  }

  /** `trendData`: the grouped rows of the loaded series restricted to the selected range. */
  method TrendData(stockData: Option<seq<Bar<Date>>>, tf: Timeframe, range: string, now: Instant, parse: string -> Option<Instant>)
    returns (trend: seq<Period>)
    requires stockData.Some? ==> ParsedBars(stockData.value) && FirstOpensNonZero(tf, stockData.value)
    requires ValidDate(now.date)
    ensures stockData.None? ==> trend == []
    ensures stockData.Some? ==> trend == FilterByDateRange(GroupSpec(tf, stockData.value), range, now, parse)
  {
    var grouped: seq<Period> := [];
    if stockData.Some? {
      grouped := GroupByTimeframe(tf, stockData.value);
    }
    trend := FilterByDateRange(grouped, range, now, parse);
    if stockData.None? {
      assert IsSubsequence(trend, []);
    }
  }
}

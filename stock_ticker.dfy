/**
 * The ticker strip above the chart: the latest close, the price it is
 * compared with, the change in dollars and percent, and the highest high,
 * the lowest low and the range between them over all bars shown.
 */
module StockTicker {
  import opened Wrappers
  import opened Prices

  datatype TickerView = TickerView(
    latestPrice: real,
    previousPrice: real,
    change: real,
    changePercent: Option<real>,
    high: real,
    low: real,
    range: real,
    isPositive: bool)

  /**
   * `data[data.length - 2]?.close || data[0].open`: the close before the
   * last, unless there is none or it is 0 (falsy), in which case the first
   * bar's open.
   */
  function PreviousPrice<D>(data: seq<Bar<D>>): (p: real)
    requires data != []
    ensures |data| >= 2 && data[|data| - 2].close != 0.0 ==> p == data[|data| - 2].close
    ensures |data| < 2 || data[|data| - 2].close == 0.0 ==> p == data[0].open
  {
    if |data| >= 2 && data[|data| - 2].close != 0.0 then data[|data| - 2].close else data[0].open
  }

  /**
   * The component: nothing without bars; otherwise the derived figures. The
   * percentage is `None` when the previous price is 0, where the page would
   * print `Infinity` or `NaN`.
   */
  function Ticker<D>(data: Option<seq<Bar<D>>>): (v: Option<TickerView>)
    ensures v.None? <==> data.None? || data.value == []
    ensures v.Some? ==>
              var bars := data.value;
              && v.value.latestPrice == bars[|bars| - 1].close
              && v.value.previousPrice == PreviousPrice(bars)
              && v.value.change == v.value.latestPrice - v.value.previousPrice
              && (v.value.changePercent.Some? <==> v.value.previousPrice != 0.0)
              && (v.value.changePercent.Some? ==>
                    v.value.changePercent.value == PercentChange(v.value.previousPrice, v.value.latestPrice))
              && (v.value.isPositive <==> v.value.latestPrice >= v.value.previousPrice)
              && v.value.high in Highs(bars) && (forall i :: 0 <= i < |bars| ==> bars[i].high <= v.value.high)
              && v.value.low in Lows(bars) && (forall i :: 0 <= i < |bars| ==> v.value.low <= bars[i].low)
              && v.value.range == v.value.high - v.value.low
  {
    if data.None? || data.value == [] then None
    else
      var bars := data.value;
      var latestPrice := bars[|bars| - 1].close;
      var previousPrice := PreviousPrice(bars);
      var change := latestPrice - previousPrice;
      var changePercent := if previousPrice != 0.0 then Some(PercentChange(previousPrice, latestPrice)) else None;
      var high := MaxOf(Highs(bars));
      var low := MinOf(Lows(bars));
      Some(TickerView(latestPrice, previousPrice, change, changePercent, high, low, high - low, change >= 0.0))
  }

  /** Bars whose low never exceeds their high give a range that is not negative. */
  lemma RangeNotNegative<D>(bars: seq<Bar<D>>)
    requires bars != []
    requires forall i :: 0 <= i < |bars| ==> bars[i].low <= bars[i].high
    ensures Ticker(Some(bars)).value.range >= 0.0
  {
    var v := Ticker(Some(bars)).value;
    var j :| 0 <= j < |bars| && Highs(bars)[j] == v.high;
    assert v.low <= bars[j].low <= bars[j].high == v.high;
  }

  /**
   * With a positive previous price, the rounded percentage never contradicts
   * the colour: a rise shown as positive is a rise, a fall shown as
   * negative is a fall.
   */
  lemma PercentAgreesWithColour<D>(bars: seq<Bar<D>>)
    requires bars != []
    ensures var v := Ticker(Some(bars)).value;
            v.previousPrice > 0.0 ==>
              (v.changePercent.value > 0.0 ==> v.isPositive) && (v.changePercent.value < 0.0 ==> !v.isPositive)
  {
  }
}

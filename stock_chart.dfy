/**
 * The price chart: the points it plots, the vertical domain padded 5%
 * below the lowest close and 5% above the highest, the spacing of the date
 * ticks, and the four figures under the chart (latest close, highest and
 * lowest close, change since the first open).
 */
module StockChart {
  import opened Wrappers
  import opened Prices
  import StockTicker

  /** One plotted point: the bar without its open. */
  datatype ChartPoint<D> = ChartPoint(date: D, close: real, high: real, low: real)

  datatype ChartView<D> = ChartView(
    chartData: seq<ChartPoint<D>>,
    minPrice: real,
    maxPrice: real,
    interval: nat,
    latest: real,
    high: real,
    low: real,
    changePercent: Option<real>,
    changeUp: bool)

  /** `data.map(item => ({ date, close, high, low }))`. */
  function ChartData<D>(data: seq<Bar<D>>): (points: seq<ChartPoint<D>>)
    ensures |points| == |data|
    ensures forall i :: 0 <= i < |data| ==>
              points[i] == ChartPoint(data[i].date, data[i].close, data[i].high, data[i].low)
  {
    seq(|data|, i requires 0 <= i < |data| => ChartPoint(data[i].date, data[i].close, data[i].high, data[i].low))
  }

  /** `Math.floor(n / 6)`: one labelled tick every this many points, about six labels in all. */
  function TickInterval(n: nat): (k: nat)
    ensures 6 * k <= n < 6 * (k + 1)
  {
    n / 6
  }

  /**
   * The sign the change figure is coloured by, `raw >= 0` on the unrounded
   * percentage. A zero first open makes the quotient `Infinity` (green) when
   * the last close is positive and `-Infinity` or `NaN` (red) otherwise.
   */
  function ChangeUp(first: real, last: real): (up: bool)
    ensures first > 0.0 ==> (up <==> last >= first)
  {
    if first != 0.0 then (last - first) / first * 100.0 >= 0.0 else last > 0.0
  }

  /** The component: nothing without bars; otherwise the plot and the figures under it. */
  function Chart<D>(data: Option<seq<Bar<D>>>): (v: Option<ChartView<D>>)
    ensures v.None? <==> data.None? || data.value == []
    ensures v.Some? ==>
              var bars := data.value;
              var closes := Closes(bars);
              && v.value.chartData == ChartData(bars)
              && v.value.interval == TickInterval(|bars|)
              && v.value.latest == bars[|bars| - 1].close
              && v.value.high in closes && (forall i :: 0 <= i < |bars| ==> bars[i].close <= v.value.high)
              && v.value.low in closes && (forall i :: 0 <= i < |bars| ==> v.value.low <= bars[i].close)
              && v.value.minPrice == v.value.low * 0.95 && v.value.maxPrice == v.value.high * 1.05
              && (v.value.changePercent.Some? <==> bars[0].open != 0.0)
              && (v.value.changePercent.Some? ==> v.value.changePercent.value == PercentChange(bars[0].open, v.value.latest))
              && v.value.changeUp == ChangeUp(bars[0].open, v.value.latest)
  {
    if data.None? || data.value == [] then None
    else
      var bars := data.value;
      var prices := Closes(bars);
      var high := MaxOf(prices);
      var low := MinOf(prices);
      var first := bars[0].open;
      var latest := bars[|bars| - 1].close;
      assert forall i :: 0 <= i < |bars| ==> low <= bars[i].close <= high by {
        assert forall i :: 0 <= i < |bars| ==> prices[i] == bars[i].close;
      }
      Some(ChartView(
        ChartData(bars), low * 0.95, high * 1.05, TickInterval(|bars|), latest, high, low,
        if first != 0.0 then Some(PercentChange(first, latest)) else None,
        ChangeUp(first, latest)))
  }

  /** With prices that are not negative, every plotted close lies inside the padded domain. */
  lemma DomainContainsCloses<D>(bars: seq<Bar<D>>)
    requires bars != []
    requires forall i :: 0 <= i < |bars| ==> bars[i].close >= 0.0
    ensures var v := Chart(Some(bars)).value;
            forall i :: 0 <= i < |bars| ==> v.minPrice <= bars[i].close <= v.maxPrice
  {
    var v := Chart(Some(bars)).value;
    var j :| 0 <= j < |bars| && Closes(bars)[j] == v.low;
    assert v.low >= 0.0;
  }

  /** The latest close lies between the lowest and the highest close shown beside it. */
  lemma LatestBetweenLowAndHigh<D>(bars: seq<Bar<D>>)
    requires bars != []
    ensures var v := Chart(Some(bars)).value;
            v.low <= v.latest <= v.high
  {
    var v := Chart(Some(bars)).value;
    assert v.latest == bars[|bars| - 1].close;
  }

  /**
   * With a positive first open, the colour of the change figure agrees with
   * the sign of the rounded percentage printed in it.
   */
  lemma ChangeColourAgreesWithFigure<D>(bars: seq<Bar<D>>)
    requires bars != [] && bars[0].open > 0.0
    ensures var v := Chart(Some(bars)).value;
            (v.changePercent.value > 0.0 ==> v.changeUp) && (v.changePercent.value < 0.0 ==> !v.changeUp)
  {
  }

  /**
   * The ticker and the chart describe the same bars consistently: the same
   * latest close, and, for bars whose close lies between their low and high,
   * the ticker's low and high enclose the chart's lowest and highest close.
   */
  lemma TickerEnclosesChart<D>(bars: seq<Bar<D>>)
    requires bars != []
    requires forall i :: 0 <= i < |bars| ==> bars[i].low <= bars[i].close <= bars[i].high
    ensures var t := StockTicker.Ticker(Some(bars)).value;
            var c := Chart(Some(bars)).value;
            t.latestPrice == c.latest && t.low <= c.low && c.high <= t.high
  {
    var t := StockTicker.Ticker(Some(bars)).value;
    var c := Chart(Some(bars)).value;
    var j :| 0 <= j < |bars| && Closes(bars)[j] == c.low;
    assert t.low <= bars[j].low;
    var k :| 0 <= k < |bars| && Closes(bars)[k] == c.high;
    assert bars[k].high <= t.high;
  }
}

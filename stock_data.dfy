/**
 * The `/api/stock-data` handler: it validates the `symbol` query parameter,
 * asks Alpha Vantage for the monthly series, decides the HTTP status and
 * turns the provider's `Monthly Time Series` object into an array of bars,
 * oldest first. The network call is a parameter: `fetch(symbol)` is what
 * `fetch(url)` followed by `response.json()` produced, or the message of the
 * error either of them threw.
 */
module StockData {
  import opened Wrappers
  import opened Seqs
  import opened Text
  import opened Prices

  const OpenLabel: string := "1. open"
  const HighLabel: string := "2. high"
  const LowLabel: string := "3. low"
  const CloseLabel: string := "4. close"

  /** One `"YYYY-MM-DD": { "1. open": …, … }` member of the series, its fields read as numbers. */
  datatype SeriesEntry = SeriesEntry(date: string, fields: map<string, real>)

  predicate HasPriceFields(e: SeriesEntry)
  {
    OpenLabel in e.fields && HighLabel in e.fields && LowLabel in e.fields && CloseLabel in e.fields
  }

  /**
   * The parts of the provider's JSON reply the handler looks at: the
   * `Error Message` member and the `Monthly Time Series` object, whose
   * members are listed in the reply's order.
   */
  datatype Payload = Payload(errorMessage: Option<string>, monthlySeries: Option<seq<SeriesEntry>>)

  datatype FetchOutcome = Received(payload: Payload) | Threw(message: string)

  /** Every series entry carries the four price fields. */
  predicate WellFormed(outcome: FetchOutcome)
  {
    outcome.Received? && outcome.payload.monthlySeries.Some? ==>
      forall e :: e in outcome.payload.monthlySeries.value ==> HasPriceFields(e)
  }

  datatype Body =
    | ErrorBody(error: string)
    | SeriesBody(symbol: string, data: seq<Bar<string>>, dataPoints: nat)

  datatype Response = Response(status: nat, body: Body)

  /** A JavaScript string is truthy when it is not empty. */
  predicate Truthy(s: Option<string>)
  {
    s.Some? && s.value != ""
  }

  /** The bar for one series entry: the date is the member's key, the prices its labelled fields. */
  function ToBar(e: SeriesEntry): (b: Bar<string>)
    requires HasPriceFields(e)
    ensures b.date == e.date
    ensures b.open == e.fields[OpenLabel] && b.high == e.fields[HighLabel]
    ensures b.low == e.fields[LowLabel] && b.close == e.fields[CloseLabel]
  {
    Bar(e.date, e.fields[OpenLabel], e.fields[HighLabel], e.fields[LowLabel], e.fields[CloseLabel])
  }

  /** `Object.entries(timeSeries).map(…).reverse()`: one bar per entry, last entry first. */
  function NormalizeSeries(entries: seq<SeriesEntry>): (bars: seq<Bar<string>>)
    requires forall e :: e in entries ==> HasPriceFields(e)
    ensures |bars| == |entries|
    ensures forall i :: 0 <= i < |bars| ==> bars[i] == ToBar(entries[|entries| - 1 - i])
  {
    Reverse(seq(|entries|, i requires 0 <= i < |entries| => ToBar(entries[i])))
  }

  /** What the handler sends once the provider has answered (or failed to). */
  function Respond(symbol: string, outcome: FetchOutcome): (r: Response)
    requires WellFormed(outcome)
    ensures r.status in {200, 404, 500}
    ensures outcome.Threw? ==> r == Response(500, ErrorBody(outcome.message))
    ensures r.status == 404 <==> outcome.Received? && Truthy(outcome.payload.errorMessage)
    ensures r.status == 404 ==> r.body == ErrorBody("Stock '" + symbol + "' not found")
    ensures r.status == 200 <==>
              outcome.Received? && !Truthy(outcome.payload.errorMessage) && outcome.payload.monthlySeries.Some?
    ensures outcome.Received? && !Truthy(outcome.payload.errorMessage) && outcome.payload.monthlySeries.None? ==>
              r == Response(500, ErrorBody("No data available"))
    ensures r.status == 200 ==>
              && r.body.SeriesBody?
              && r.body.symbol == symbol
              && r.body.data == NormalizeSeries(outcome.payload.monthlySeries.value)
              && r.body.dataPoints == |r.body.data| == |outcome.payload.monthlySeries.value|
  {
    match outcome
    case Threw(message) => Response(500, ErrorBody(message))
    case Received(payload) =>
      if Truthy(payload.errorMessage) then
        Response(404, ErrorBody("Stock '" + symbol + "' not found"))
      else if payload.monthlySeries.None? then
        Response(500, ErrorBody("No data available"))
      else
        var data := NormalizeSeries(payload.monthlySeries.value);
        Response(200, SeriesBody(symbol, data, |data|))
  }

  /** The query parameter is missing or empty. */
  predicate MissingSymbol(query: Option<string>)
  {
    query.None? || query.value == ""
  }

  /** The whole handler: 400 before any fetch when the symbol is missing, else `Respond`. */
  function Handle(query: Option<string>, fetch: string -> FetchOutcome): (r: Response)
    requires !MissingSymbol(query) ==> WellFormed(fetch(query.value))
    ensures r.status in {200, 400, 404, 500}
    ensures r.status == 400 <==> MissingSymbol(query)
    ensures MissingSymbol(query) ==> r.body == ErrorBody("Symbol is required")
    ensures !MissingSymbol(query) ==> r == Respond(query.value, fetch(query.value))
  {
    if MissingSymbol(query) then Response(400, ErrorBody("Symbol is required"))
    else Respond(query.value, fetch(query.value))
  }

  /** Without a symbol the reply does not depend on the provider at all: nothing is fetched. */
  lemma MissingSymbolIgnoresProvider(query: Option<string>, f: string -> FetchOutcome, g: string -> FetchOutcome)
    requires MissingSymbol(query)
    ensures Handle(query, f) == Handle(query, g) == Response(400, ErrorBody("Symbol is required"))
  {
  }

  /** The error check comes first: an error message wins even when a series is present. */
  lemma ErrorMessageBeforeSeries(symbol: string, message: string, series: seq<SeriesEntry>)
    requires message != ""
    requires forall e :: e in series ==> HasPriceFields(e)
    ensures Respond(symbol, Received(Payload(Some(message), Some(series)))).status == 404
  {
  }

  /**
   * Alpha Vantage lists the newest month first; after the reversal the bars
   * are oldest first. ISO dates compare as text the way they compare in time.
   */
  lemma NewestFirstBecomesOldestFirst(entries: seq<SeriesEntry>)
    requires forall e :: e in entries ==> HasPriceFields(e)
    requires forall i, j :: 0 <= i < j < |entries| ==> LexLess(entries[j].date, entries[i].date)
    ensures var bars := NormalizeSeries(entries);
            forall i, j :: 0 <= i < j < |bars| ==> LexLess(bars[i].date, bars[j].date)
  {
    var bars := NormalizeSeries(entries);
    var n := |entries|;
    forall i, j | 0 <= i < j < |bars|
      ensures LexLess(bars[i].date, bars[j].date)
    {
      assert bars[i].date == entries[n - 1 - i].date;
      assert bars[j].date == entries[n - 1 - j].date;
    }
  }
}

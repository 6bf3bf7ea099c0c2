/**
 * The ticker search box: typing upper-cases the input and offers the
 * stocks of a fixed table whose symbol or upper-cased name contains it (at
 * most ten, in table order); the arrow keys move a highlight through the
 * offered list with wrap-around; Enter picks the highlighted stock or
 * submits the search; Escape hides the list. The table is an input, and
 * the parent's search handler is reported as an outcome rather than called.
 */
module Autocomplete {
  import opened Seqs
  import opened Text

  /** One entry of the stock table. */
  datatype Stock = Stock(symbol: string, name: string, exchange: string, country: string)

  /** The dropdown never offers more than this many stocks. */
  const MaxSuggestions: nat := 10

  /** The symbol contains the typed text, or the upper-cased name does. */
  function Matches(value: string): Stock -> bool
  {
    (stock: Stock) => Includes(stock.symbol, value) || Includes(ToUpper(stock.name), value)
  }

  /**
   * `STOCKS_DATABASE.filter(matches).slice(0, 10)`: matching entries in
   * table order, at most ten of them, and every match when fewer than ten
   * are offered.
   */
  function Suggest(table: seq<Stock>, value: string): (r: seq<Stock>)
    ensures |r| == if Count(table, Matches(value)) < MaxSuggestions then Count(table, Matches(value)) else MaxSuggestions
    ensures r == Filter(table, Matches(value))[..|r|]
    ensures IsSubsequence(r, table)
    ensures forall s :: s in r ==> s in table && Matches(value)(s)
    ensures |r| < MaxSuggestions ==> forall s :: s in table && Matches(value)(s) ==> s in r
  {
    var matches := Filter(table, Matches(value));
    FilterIsSubsequence(table, Matches(value));
    var r := if |matches| <= MaxSuggestions then matches else matches[..MaxSuggestions];
    PrefixIsSubsequence(matches, |r|);
    assert matches[..|r|] == r;
    SubsequenceTrans(r, matches, table);
    SubsequenceMembers(r, table);
    r
  }

  /** The first offered stock is the first match in the table. */
  lemma SuggestFirst(table: seq<Stock>, value: string)
    requires Suggest(table, value) != []
    ensures exists f :: 0 <= f < |table| && Suggest(table, value)[0] == table[f] && Matches(value)(table[f])
                        && forall j :: 0 <= j < f ==> !Matches(value)(table[j])
  {
    FilterHead(table, Matches(value));
  }

  // ---------------------------------------------------------------------
  // The state of the search box

  /** `symbol` (owned by the page), `suggestions`, `showSuggestions` and `highlightedIndex`. */
  datatype SearchState = SearchState(symbol: string, suggestions: seq<Stock>, showSuggestions: bool, highlightedIndex: int)

  /** The keys `handleKeyDown` tells apart. */
  datatype Key = ArrowDown | ArrowUp | Enter | Escape | OtherKey

  /**
   * What a key press asks of the page besides the state change: nothing, an
   * immediate search, or the selection of a stock (which sets the symbol and
   * schedules a search).
   */
  datatype Outcome = NoAction | Search | Select(stock: Stock)

  datatype Reaction = Reaction(state: SearchState, outcome: Outcome)

  /** The state on mount: the page's symbol, no suggestions, the list hidden and nothing highlighted. */
  function Initial(symbol: string): SearchState
  {
    SearchState(symbol, [], false, -1)
  }

  /**
   * What every handler keeps: the list holds at most ten table entries and
   * the highlight is -1 or an index into it.
   */
  predicate Consistent(table: seq<Stock>, st: SearchState)
  {
    && |st.suggestions| <= MaxSuggestions
    && (forall s :: s in st.suggestions ==> s in table)
    && -1 <= st.highlightedIndex < |st.suggestions|
  }

  lemma InitialConsistent(table: seq<Stock>, symbol: string)
    ensures Consistent(table, Initial(symbol))
  {
  }

  /** `prev < len - 1 ? prev + 1 : 0`. */
  function MoveDown(prev: int, len: nat): (next: int)
    requires 0 < len && -1 <= prev < len
    ensures 0 <= next < len
    ensures next == (prev + 1) % len
    ensures next == 0 <==> prev == -1 || prev == len - 1
  {
    if prev < len - 1 then prev + 1 else 0
  }

  /** `prev > 0 ? prev - 1 : len - 1`. */
  function MoveUp(prev: int, len: nat): (next: int)
    requires 0 < len && -1 <= prev < len
    ensures 0 <= next < len
    ensures prev >= 0 ==> next == (prev + len - 1) % len
    ensures next == len - 1 <==> prev <= 0
  {
    if prev > 0 then prev - 1 else len - 1
  }

  /** On a highlighted row, the two arrows undo each other, wrap-around included. */
  lemma ArrowsInverse(h: int, len: nat)
    requires 0 <= h < len
    ensures MoveUp(MoveDown(h, len), len) == h
    ensures MoveDown(MoveUp(h, len), len) == h
  {
  }

  /** From no highlight, Down goes to the first row and Up to the last. */
  lemma ArrowsFromNothing(len: nat)
    requires len > 0
    ensures MoveDown(-1, len) == 0 && MoveUp(-1, len) == len - 1
  {
  }

  /**
   * `handleInputChange`: the symbol becomes the upper-cased input and the
   * highlight is reset; a non-empty value shows its suggestions, an empty
   * one clears and hides them.
   */
  function InputChanged(table: seq<Stock>, st: SearchState, input: string): (r: SearchState)
    ensures r.symbol == ToUpper(input) && r.highlightedIndex == -1
    ensures r.showSuggestions <==> input != []
    ensures input != [] ==> r.suggestions == Suggest(table, ToUpper(input))
    ensures input == [] ==> r.suggestions == []
    ensures Consistent(table, r)
  {
    var value := ToUpper(input);
    if |value| > 0 then SearchState(value, Suggest(table, value), true, -1)
    else SearchState(value, [], false, -1)
  }

  /** `selectStock`: the stock's symbol, no suggestions, the list hidden and nothing highlighted. */
  function Selected(stock: Stock): (r: SearchState)
    ensures r.symbol == stock.symbol && r.suggestions == [] && !r.showSuggestions && r.highlightedIndex == -1
  {
    SearchState(stock.symbol, [], false, -1)
  }

  /**
   * `handleKeyDown`. With the list hidden or empty only Enter does anything
   * (it searches). Otherwise the arrows move the highlight, Enter selects
   * the highlighted stock or, with none highlighted and a non-empty symbol,
   * searches, and Escape hides the list.
   */
  function KeyDown(table: seq<Stock>, st: SearchState, key: Key): (r: Reaction)
    requires Consistent(table, st)
    ensures Consistent(table, r.state)
    ensures r.outcome.Search? <==>
              key == Enter && (!st.showSuggestions || st.suggestions == [] || (st.highlightedIndex < 0 && st.symbol != []))
    ensures r.outcome.Select? <==> key == Enter && st.showSuggestions && st.suggestions != [] && st.highlightedIndex >= 0
    ensures r.outcome.Select? ==> r.outcome.stock == st.suggestions[st.highlightedIndex] && r.outcome.stock in table
                                  && r.state == Selected(r.outcome.stock)
    ensures !r.outcome.Select? ==> r.state.symbol == st.symbol && r.state.suggestions == st.suggestions
    ensures r.state.showSuggestions != st.showSuggestions ==>
              key == Enter || (key == Escape && st.showSuggestions && st.suggestions != [])
    ensures r.state.highlightedIndex != st.highlightedIndex ==>
              (key == ArrowDown || key == ArrowUp || key == Enter) && st.showSuggestions && st.suggestions != []
    ensures st.showSuggestions && st.suggestions != [] && key == ArrowDown ==>
              r == Reaction(st.(highlightedIndex := MoveDown(st.highlightedIndex, |st.suggestions|)), NoAction)
    ensures st.showSuggestions && st.suggestions != [] && key == ArrowUp ==>
              r == Reaction(st.(highlightedIndex := MoveUp(st.highlightedIndex, |st.suggestions|)), NoAction)
    ensures key == Enter && !r.outcome.Select? ==> r.state == st
    ensures key == Escape ==> r == Reaction(if st.suggestions != [] then st.(showSuggestions := false) else st, NoAction)
    ensures key == OtherKey ==> r == Reaction(st, NoAction)
  {
    if !st.showSuggestions || |st.suggestions| == 0 then
      Reaction(st, if key == Enter then Search else NoAction)
    else
      match key
      case ArrowDown => Reaction(st.(highlightedIndex := MoveDown(st.highlightedIndex, |st.suggestions|)), NoAction)
      case ArrowUp => Reaction(st.(highlightedIndex := MoveUp(st.highlightedIndex, |st.suggestions|)), NoAction)
      case Enter =>
        if st.highlightedIndex >= 0 then
          var stock := st.suggestions[st.highlightedIndex];
          Reaction(Selected(stock), Select(stock))
        else if |st.symbol| > 0 then Reaction(st, Search)
        else Reaction(st, NoAction)
      case Escape => Reaction(st.(showSuggestions := false), NoAction)
      case OtherKey => Reaction(st, NoAction)
  }

  /** The input's `onFocus`: a non-empty symbol shows the list again; nothing else changes. */
  function Focused(st: SearchState): (r: SearchState)
    ensures r.showSuggestions <==> st.showSuggestions || st.symbol != []
    ensures r.(showSuggestions := st.showSuggestions) == st
  {
    if |st.symbol| > 0 then st.(showSuggestions := true) else st
  }

  /** Focus keeps the state consistent. */
  lemma FocusConsistent(table: seq<Stock>, st: SearchState)
    requires Consistent(table, st)
    ensures Consistent(table, Focused(st))
  {
  }

  /**
   * After typing a non-empty value, ArrowDown then Enter picks the first
   * offered stock, which is a table entry matching the value.
   */
  lemma DownEnterPicksFirst(table: seq<Stock>, st: SearchState, input: string)
    requires input != [] && Suggest(table, ToUpper(input)) != []
    ensures var typed := InputChanged(table, st, input);
            var down := KeyDown(table, typed, ArrowDown);
            var enter := KeyDown(table, down.state, Enter);
            && enter.outcome == Select(typed.suggestions[0])
            && enter.state.symbol == typed.suggestions[0].symbol
            && Matches(ToUpper(input))(typed.suggestions[0])
  {
    var typed := InputChanged(table, st, input);
    assert typed.suggestions[0] in typed.suggestions;
  }

  /** Typing and then pressing Escape keeps the symbol and the list but hides it. */
  lemma EscapeOnlyHides(table: seq<Stock>, st: SearchState)
    requires Consistent(table, st) && st.showSuggestions && st.suggestions != []
    ensures KeyDown(table, st, Escape) == Reaction(st.(showSuggestions := false), NoAction)
  {
  }

  // ---------------------------------------------------------------------
  // The component

  /**
   * The search box's state. `symbol` belongs to the page and reaches the
   * component as a prop with its setter; the other three fields are the
   * component's own state hooks.
   */
  class SearchBar {
    const table: seq<Stock>
    var symbol: string
    var suggestions: seq<Stock>
    var showSuggestions: bool
    var highlightedIndex: int

    function State(): SearchState
      reads this
    {
      SearchState(symbol, suggestions, showSuggestions, highlightedIndex)
    }

    ghost predicate Valid()
      reads this
    {
      Consistent(table, State())
    }

    /** Mounting the box; `initialSymbol` is the page's current symbol, passed as a prop. */
    constructor (stocks: seq<Stock>, initialSymbol: string)
      ensures table == stocks && State() == Initial(initialSymbol) && Valid()
    {
      table := stocks;
      symbol := initialSymbol;
      suggestions := [];
      showSuggestions := false;
      highlightedIndex := -1;
    }

    method HandleInputChange(input: string)
      requires Valid()
      modifies this
      ensures Valid() && State() == InputChanged(table, old(State()), input)
    {
      var value := ToUpper(input);
      symbol := value;
      highlightedIndex := -1;
      if |value| > 0 {
        var filtered := Suggest(table, value);
        suggestions := filtered;
        showSuggestions := true;
      } else {
        suggestions := [];
        showSuggestions := false;
      }
    }

    method SelectStock(stock: Stock)
      modifies this
      ensures State() == Selected(stock)
    {
      symbol := stock.symbol;
      suggestions := [];
      showSuggestions := false;
      highlightedIndex := -1;
    }

    method HandleKeyDown(key: Key) returns (outcome: Outcome)
      requires Valid()
      modifies this
      ensures Valid() && Reaction(State(), outcome) == KeyDown(table, old(State()), key)
    {
      if !showSuggestions || |suggestions| == 0 {
        outcome := if key == Enter then Search else NoAction;
        return;
      }
      outcome := NoAction;
      match key {
        case ArrowDown =>
          highlightedIndex := if highlightedIndex < |suggestions| - 1 then highlightedIndex + 1 else 0;
        case ArrowUp =>
          highlightedIndex := if highlightedIndex > 0 then highlightedIndex - 1 else |suggestions| - 1;
        case Enter =>
          if highlightedIndex >= 0 {
            var stock := suggestions[highlightedIndex];
            SelectStock(stock);
            outcome := Select(stock);
          } else if |symbol| > 0 {
            outcome := Search;
          }
        case Escape =>
          showSuggestions := false;
        case OtherKey =>
      }
    }

    method HandleFocus()
      requires Valid()
      modifies this
      ensures Valid() && State() == Focused(old(State()))
    {
      if |symbol| > 0 {
        showSuggestions := true;
      }
    }
  }
}

/**
 * How the page turns the quote service's response into the rows it shows:
 * unwrap an optional `body` envelope, coerce the payload into a list, and
 * resolve each displayed field through a chain of alternate names.
 */
module QuoteView {
  import opened Wrappers
  import opened Js

  // ------------------------------------------------------ field chains

  /** The alternate names tried for each displayed field, in order. */
  const SymbolNames: seq<string> := ["symbol", "Symbol", "ticker"]
  const PriceNames: seq<string> := ["price", "Price", "currentPrice", "last"]
  const ChangeNames: seq<string> := ["change", "Change", "changePercent", "pctChange"]
  const VolumeNames: seq<string> := ["volume", "Volume", "totalVolume"]

  /** The text shown for a field none of whose names holds a truthy value. */
  const NotAvailable: Value := Str("N/A")

  /**
   * `stock.a || stock.b || ... || 'N/A'`: the first truthy candidate, else
   * the N/A marker. A field holding `0`, `""` or `null` counts as absent.
   * The marker is itself a non-empty string, so the result is always truthy.
   */
  function FirstTruthy(stock: Value, names: seq<string>): (r: Value)
    requires !Nullish(stock)
    ensures Truthy(r)
    ensures (forall i :: 0 <= i < |names| ==> !Truthy(Prop(stock, names[i]))) ==> r == NotAvailable
    ensures (exists i :: 0 <= i < |names| && Truthy(Prop(stock, names[i]))) ==>
      exists i :: 0 <= i < |names| && r == Prop(stock, names[i])
        && forall j :: 0 <= j < i ==> !Truthy(Prop(stock, names[j]))
  {
    if |names| == 0 then NotAvailable
    else
      var v := Prop(stock, names[0]);
      if Truthy(v) then v
      else
        assert forall k :: 0 <= k < |names| - 1 ==> names[1..][k] == names[k + 1];
        FirstTruthy(stock, names[1..])
  }

  /** The four values one stock element displays. */
  datatype Row = Row(symbol: Value, price: Value, change: Value, volume: Value)

  /**
   * `createStockElement(stock)`, reduced to the values it interpolates.
   * Reading a field of `null` or `undefined` throws, which is `None` here.
   */
  function StockRow(stock: Value): (r: Option<Row>)
    ensures r.None? <==> Nullish(stock)
    ensures r.Some? ==> Displayable(r.value)
    ensures r.Some? ==> r.value == Row(FirstTruthy(stock, SymbolNames), FirstTruthy(stock, PriceNames),
                                       FirstTruthy(stock, ChangeNames), FirstTruthy(stock, VolumeNames))
  {
    if Nullish(stock) then None
    else Some(Row(FirstTruthy(stock, SymbolNames), FirstTruthy(stock, PriceNames),
                  FirstTruthy(stock, ChangeNames), FirstTruthy(stock, VolumeNames)))
  }

  /** A row none of whose fields shows a falsy value such as `0`, `""` or `null`. */
  predicate Displayable(row: Row) {
    Truthy(row.symbol) && Truthy(row.price) && Truthy(row.change) && Truthy(row.volume)
  }

  /** The element for each stock, or `None` when one of them throws and `forEach` stops. */
  function Rows(stocks: seq<Value>): (r: Option<seq<Row>>)
    ensures r.None? <==> exists i :: 0 <= i < |stocks| && Nullish(stocks[i])
    ensures r.Some? ==> |r.value| == |stocks|
    ensures r.Some? ==> forall i :: 0 <= i < |stocks| ==> StockRow(stocks[i]) == Some(r.value[i])
  {
    if exists i :: 0 <= i < |stocks| && Nullish(stocks[i]) then None
    else Some(seq(|stocks|, i requires 0 <= i < |stocks| => StockRow(stocks[i]).value))
  }

  /** What the stock list container ends up holding. */
  datatype Listing = NoData | Listed(rows: seq<Row>)

  /** `displayStocks(stocks)`: the "no stock data" line for an empty list, else one element per stock. */
  function Display(stocks: seq<Value>): (r: Option<Listing>)
    ensures r.None? <==> exists i :: 0 <= i < |stocks| && Nullish(stocks[i])
    ensures |stocks| == 0 ==> r == Some(NoData)
    ensures |stocks| > 0 && r.Some? ==> Rows(stocks).Some? && r == Some(Listed(Rows(stocks).value))
    ensures |stocks| > 0 && r.Some? ==>
      r.value.Listed? && |r.value.rows| == |stocks|
      && forall i :: 0 <= i < |stocks| ==> StockRow(stocks[i]) == Some(r.value.rows[i])
  {
    if |stocks| == 0 then Some(NoData)
    else match Rows(stocks)
      case None => None
      case Some(rows) => Some(Listed(rows))
  }

  // ---------------------------------------------------- normalisation

  function SampleQuote(symbol: string, price: real, change: real, volume: int): Value {
    Obj(map["symbol" := Str(symbol), "price" := Num(price), "change" := Num(change), "volume" := Num(volume as real)])
  }

  /** The list shown when the payload is neither an array nor an object. */
  const SampleStocks: seq<Value> := [
    SampleQuote("GOOGL", 150.25, 2.5, 1000000),
    SampleQuote("AAPL", 175.50, -1.2, 2000000),
    SampleQuote("MSFT", 380.75, 0.8, 1500000)
  ]

  /** The list shown after a failure while loading. */
  const FallbackStocks: seq<Value> := [
    SampleQuote("GOOGL", 150.25, 2.5, 1000000),
    SampleQuote("AAPL", 175.50, -1.2, 2000000)
  ]

  /** The payload inside the response: a truthy `body`, parsed when it parses, else the response itself. */
  function Unwrap(raw: Value, parse: Parser): (r: Value)
    requires !Nullish(raw)
    ensures !Truthy(Prop(raw, "body")) ==> r == raw
    ensures Truthy(Prop(raw, "body")) ==> parse(Prop(raw, "body")) == Parsed(r) || r == Prop(raw, "body")
    ensures Truthy(Prop(raw, "body")) && parse(Prop(raw, "body")).SyntaxError? ==> r == Prop(raw, "body")
  {
    var body := Prop(raw, "body");
    if Truthy(body) then
      match parse(body)
      case Parsed(v) => v
      case SyntaxError(_) => body
    else raw
  }

  /** An array as itself, another object as a one-element list, anything else as the sample list. */
  function AsList(stocks: Value): (r: seq<Value>)
    ensures stocks.Arr? ==> r == stocks.items
    ensures stocks.Obj? ==> r == [stocks]
    ensures !stocks.Arr? && !stocks.Obj? ==> r == SampleStocks
  {
    match stocks
    case Arr(items) => items
    case Obj(_) => [stocks]
    case _ => SampleStocks
  }

  /** The list `loadStockData` hands to `displayStocks`; reading `body` of a nullish response throws. */
  function StockList(raw: Value, parse: Parser): (r: Option<seq<Value>>)
    ensures r.None? <==> Nullish(raw)
    ensures !Nullish(raw) && !Truthy(Prop(raw, "body")) ==> r == Some(AsList(raw))
    ensures !Nullish(raw) && Truthy(Prop(raw, "body")) && parse(Prop(raw, "body")).Parsed? ==>
      r == Some(AsList(parse(Prop(raw, "body")).value))
  {
    if Nullish(raw) then None else Some(AsList(Unwrap(raw, parse)))
  }

  /** What the fetch and `response.json()` produced: nothing usable, or a JSON value. */
  datatype Fetched = Unavailable | Received(raw: Value)

  /** The final listing and the error notice shown, if any. */
  datatype Loaded = Loaded(listing: Listing, notice: Option<string>)

  const LoadErrorText: string := "Failed to load stock data. Using sample data."

  /** A sample quote is shown with exactly its own four values when none of them is falsy. */
  lemma SampleRow(symbol: string, price: real, change: real, volume: int)
    requires symbol != "" && price != 0.0 && change != 0.0 && volume != 0
    ensures StockRow(SampleQuote(symbol, price, change, volume))
      == Some(Row(Str(symbol), Num(price), Num(change), Num(volume as real)))
  {
    var stock := SampleQuote(symbol, price, change, volume);
    assert Prop(stock, SymbolNames[0]) == Str(symbol);
    assert Prop(stock, PriceNames[0]) == Num(price);
    assert Prop(stock, ChangeNames[0]) == Num(change);
    assert Prop(stock, VolumeNames[0]) == Num(volume as real);
  }

  /** What `displayStocks` makes of the fallback list: the two sample rows, GOOGL then AAPL. */
  function FallbackListing(): (l: Listing)
    ensures Display(FallbackStocks) == Some(l)
    ensures l.Listed? && |l.rows| == 2
    ensures l.rows[0] == Row(Str("GOOGL"), Num(150.25), Num(2.5), Num(1000000.0))
    ensures l.rows[1] == Row(Str("AAPL"), Num(175.50), Num(-1.2), Num(2000000.0))
  {
    var stocks := FallbackStocks;
    assert forall i :: 0 <= i < |stocks| ==> stocks[i].Obj?;
    SampleRow("GOOGL", 150.25, 2.5, 1000000);
    SampleRow("AAPL", 175.50, -1.2, 2000000);
    assert StockRow(stocks[0]) == Some(Row(Str("GOOGL"), Num(150.25), Num(2.5), Num(1000000.0)));
    assert StockRow(stocks[1]) == Some(Row(Str("AAPL"), Num(175.50), Num(-1.2), Num(2000000.0)));
    Display(stocks).value
  }

  /** `loadStockData()`: any failure shows the error notice and the two-stock fallback list. */
  function LoadStockData(fetched: Fetched, parse: Parser): (r: Loaded)
    ensures r.notice == None || r.notice == Some(LoadErrorText)
    ensures fetched.Unavailable? ==> r == Loaded(FallbackListing(), Some(LoadErrorText))
    ensures r.notice.None? ==>
      fetched.Received? && StockList(fetched.raw, parse).Some?
      && Display(StockList(fetched.raw, parse).value) == Some(r.listing)
  {
    var shown :=
      match fetched
      case Unavailable => None
      case Received(raw) =>
        match StockList(raw, parse)
        case None => None
        case Some(stocks) => Display(stocks);
    match shown
    case Some(listing) => Loaded(listing, None)
    case None => Loaded(FallbackListing(), Some(LoadErrorText))
  }

  // ------------------------------------------------------------ lemmas

  /**
   * Loading shows the error notice exactly when something failed: no usable
   * response, a nullish response, or a nullish element in the list; then the
   * fallback list is shown. Otherwise the normalised list is displayed.
   */
  lemma LoadOutcome(fetched: Fetched, parse: Parser)
    ensures var r := LoadStockData(fetched, parse);
      r.notice.Some? <==>
        (fetched.Unavailable? || Nullish(fetched.raw)
         || exists i :: 0 <= i < |StockList(fetched.raw, parse).value| && Nullish(StockList(fetched.raw, parse).value[i]))
    ensures var r := LoadStockData(fetched, parse);
      r.notice.Some? ==> r.notice == Some(LoadErrorText) && Some(r.listing) == Display(FallbackStocks)
    ensures var r := LoadStockData(fetched, parse);
      r.notice.None? ==> Some(r.listing) == Display(StockList(fetched.raw, parse).value)
  {
  }

  /**
   * One level of envelope is transparent: a response whose truthy `body`
   * parses to a payload without a truthy `body` of its own lists the same
   * stocks as that payload sent bare.
   */
  lemma EnvelopeIsTransparent(raw: Value, payload: Value, parse: Parser)
    requires !Nullish(raw) && Truthy(Prop(raw, "body")) && parse(Prop(raw, "body")) == Parsed(payload)
    requires !Nullish(payload) && !Truthy(Prop(payload, "body"))
    ensures StockList(raw, parse) == StockList(payload, parse)
  {
  }

  /** A body that does not parse is used as the payload itself. */
  lemma UnparsableBodyIsPayload(raw: Value, parse: Parser)
    requires !Nullish(raw) && Truthy(Prop(raw, "body")) && parse(Prop(raw, "body")).SyntaxError?
    ensures StockList(raw, parse) == Some(AsList(Prop(raw, "body")))
  {
  }

  /** Normalising an already normalised list changes nothing. */
  lemma NormaliseIsIdempotent(raw: Value, parse: Parser)
    requires !Nullish(raw)
    ensures StockList(Arr(StockList(raw, parse).value), parse) == StockList(raw, parse)
  {
  }

  /** A payload that is neither array nor object is replaced by the three sample stocks. */
  lemma UnexpectedPayloadUsesSamples(raw: Value, parse: Parser)
    requires !Nullish(raw)
    requires var u := Unwrap(raw, parse); !u.Arr? && !u.Obj?
    ensures StockList(raw, parse) == Some(SampleStocks) && |SampleStocks| == 3
    ensures LoadStockData(Received(raw), parse).notice.None?
  {
    assert StockList(raw, parse) == Some(SampleStocks);
    assert Display(SampleStocks).Some? by {
      var gs := SampleStocks;
      assert forall i :: 0 <= i < |gs| ==> gs[i].Obj?;
    }
  }

  /** No field the page shows is falsy: a missing, zero or empty value has been replaced by the N/A marker. */
  lemma ShownFieldsAreTruthy(fetched: Fetched, parse: Parser)
    ensures var l := LoadStockData(fetched, parse).listing;
      l.Listed? ==> forall i :: 0 <= i < |l.rows| ==> Displayable(l.rows[i])
  {
    var l := LoadStockData(fetched, parse).listing;
    if l.Listed? {
      var stocks := if LoadStockData(fetched, parse).notice.Some? then FallbackStocks
                    else StockList(fetched.raw, parse).value;
      assert Display(stocks) == Some(l);
      forall i | 0 <= i < |l.rows| ensures Displayable(l.rows[i]) {
        assert StockRow(stocks[i]) == Some(l.rows[i]);
      }
    }
  }

  /** A price of 0 is shown as N/A when no later price name holds a truthy value. */
  lemma ZeroPriceShowsNotAvailable(stock: Value)
    requires !Nullish(stock) && Prop(stock, "price") == Num(0.0)
    requires forall i :: 1 <= i < |PriceNames| ==> !Truthy(Prop(stock, PriceNames[i]))
    ensures StockRow(stock).value.price == NotAvailable
  {
    assert forall i :: 0 <= i < |PriceNames| ==> !Truthy(Prop(stock, PriceNames[i]));
  }
}

/**
 * The quote-lookup handler: answer the CORS preflight, read `symbol` from the
 * request body (defaulting to `UNKNOWN`), fetch that key from the quote table
 * and answer 200 with the quote, 404, or 500. The table is a lookup parameter;
 * the keys actually read are returned so that "no store access" can be stated.
 */
module StockChecker {
  import opened Wrappers
  import opened Js
  import opened JsText
  import opened Lambda

  /** A stored attribute value: a string (`S`), a number as text (`N`), or another type. */
  datatype Attr = S(text: string) | N(text: string) | OtherType

  type Item = map<string, Attr>

  /** What `GetItem` produces for one key. */
  datatype Lookup = Missing | Found(item: Item) | Fails(message: string)

  type Store = Value -> Lookup

  /** The `data` object of a successful answer; an `Undefined` field is left out of the JSON text. */
  datatype StockInfo = StockInfo(symbol: Value, name: Value, price: Value, change: Value, volume: Value)

  datatype Payload =
    | Preflight(message: string)                 // { message }
    | NotFound(symbol: Value)                    // { success: false, message: `Stock ${symbol} not found in database.` }
    | Quote(data: StockInfo)                     // { success: true, data }
    | ServerError(message: string, cause: Cause) // { success: false, message, error }

  const PreflightText: string := "CORS preflight successful"
  const ServerErrorText: string := "Internal Server Error"
  const DefaultSymbol: Value := Str("UNKNOWN")

  const PreflightHeaders: seq<Header> :=
    [JsonContent, AllowAnyOrigin, AllowHeaders, ("Access-Control-Allow-Methods", "GET,POST,OPTIONS")]
  const AnswerHeaders: seq<Header> := [JsonContent, AllowAnyOrigin]

  /** The response and the keys read from the table. */
  datatype Outcome = Outcome(response: Response<Payload>, lookups: seq<Value>)

  /** The `success` flag of a payload; the preflight answer carries none. */
  function SuccessFlag(p: Payload): Option<bool> {
    match p
    case Preflight(_) => None
    case Quote(_) => Some(true)
    case _ => Some(false)
  }

  /** A string body is parsed; any other body is used as it is. Reading `symbol` of a nullish body throws. */
  function RequestBody(event: Event, parse: Parser): (r: Result<Value, Cause>)
    ensures r.Success? ==> !Nullish(r.value)
    ensures !event.body.Str? && !Nullish(event.body) ==> r == Success(event.body)
    ensures event.body.Str? && parse(event.body).Parsed? && !Nullish(parse(event.body).value) ==>
      r == Success(parse(event.body).value)
    ensures r.Failure? <==>
      (Nullish(event.body) || (event.body.Str? && (parse(event.body).SyntaxError? || Nullish(parse(event.body).value))))
  {
    var parsed := if event.body.Str? then parse(event.body) else Parsed(event.body);
    match parsed
    case SyntaxError(m) => Failure(BodyNotJson(m))
    case Parsed(b) => if Nullish(b) then Failure(TypeError("symbol")) else Success(b)
  }

  /** `body.symbol || 'UNKNOWN'`. */
  function KeyOf(body: Value): (key: Value)
    requires !Nullish(body)
    ensures Truthy(key)
    ensures Truthy(Prop(body, "symbol")) ==> key == Prop(body, "symbol")
  {
    var s := Prop(body, "symbol");
    if Truthy(s) then s else DefaultSymbol
  }

  /** `attr.S`. */
  function StringOf(a: Attr): Value {
    if a.S? then Str(a.text) else Undefined
  }

  /** The text `parseFloat`/`parseInt` see for `attr.N`: `String(undefined)` when it is not a number attribute. */
  function NumberText(a: Attr): string {
    if a.N? then a.text else "undefined"
  }

  /** `parseInt(text)` as a number value. */
  function IntValue(text: string): Value {
    match ParseInt(text)
    case Some(n) => Num(n as real)
    case None => NaN
  }

  /** The item has every attribute `stockInfo` reads. */
  predicate Complete(item: Item) {
    "symbol" in item && "name" in item && "price" in item && "change" in item && "volume" in item
  }

  /** Building `stockInfo`: reading `.S` or `.N` of a missing attribute throws. */
  function InfoOf(item: Item): (r: Result<StockInfo, Cause>)
    ensures r.Success? <==> Complete(item)
    ensures r.Failure? ==> r.error.TypeError?
  {
    if "symbol" !in item || "name" !in item then Failure(TypeError("S"))
    else if "price" !in item || "change" !in item || "volume" !in item then Failure(TypeError("N"))
    else
      Success(StockInfo(
        StringOf(item["symbol"]), StringOf(item["name"]),
        ParseFloat(NumberText(item["price"])), ParseFloat(NumberText(item["change"])),
        IntValue(NumberText(item["volume"]))))
  }

  function Answer(status: int, payload: Payload): Response<Payload> {
    Response(status, AnswerHeaders, payload)
  }

  /** `handler(event)` against the quote table `store`. */
  function Handle(event: Event, parse: Parser, store: Store): (r: Outcome)
    ensures event.httpMethod == "OPTIONS" <==> r.response.payload.Preflight?
    ensures r.response.payload.Preflight? ==>
      r.response == Response(200, PreflightHeaders, Preflight(PreflightText)) && r.lookups == []
    ensures |r.lookups| <= 1
    ensures r.response.statusCode in {200, 404, 500}
    ensures r.response.statusCode == 500 <==> r.response.payload.ServerError?
    ensures r.response.statusCode == 200 ==> r.response.payload.Preflight? || r.response.payload.Quote?
    ensures r.response.payload.ServerError? ==> r.response.payload.message == ServerErrorText
    ensures event.httpMethod != "OPTIONS" && RequestBody(event, parse).Failure? ==>
      r.response.statusCode == 500 && r.response.payload.cause == RequestBody(event, parse).error && r.lookups == []
    ensures r.response.statusCode == 404 <==>
      event.httpMethod != "OPTIONS" && RequestBody(event, parse).Success?
      && store(KeyOf(RequestBody(event, parse).value)) == Missing
    ensures r.response.statusCode == 404 ==>
      r.response.payload == NotFound(KeyOf(RequestBody(event, parse).value))
    ensures r.response.payload.Quote? <==>
      event.httpMethod != "OPTIONS" && RequestBody(event, parse).Success?
      && var found := store(KeyOf(RequestBody(event, parse).value));
         found.Found? && InfoOf(found.item).Success?
    ensures r.response.payload.Quote? ==> r.response.statusCode == 200 && SuccessFlag(r.response.payload) == Some(true)
    ensures r.response.statusCode != 200 ==> SuccessFlag(r.response.payload) == Some(false)
    ensures |r.lookups| == 1 ==>
      RequestBody(event, parse).Success? && r.lookups == [KeyOf(RequestBody(event, parse).value)]
  {
    if event.httpMethod == "OPTIONS" then
      Outcome(Response(200, PreflightHeaders, Preflight(PreflightText)), [])
    else
      match RequestBody(event, parse)
      case Failure(cause) => Outcome(Answer(500, ServerError(ServerErrorText, cause)), [])
      case Success(body) =>
        var key := KeyOf(body);
        match store(key)
        case Fails(m) => Outcome(Answer(500, ServerError(ServerErrorText, StoreFault(m))), [key])
        case Missing => Outcome(Answer(404, NotFound(key)), [key])
        case Found(item) =>
          match InfoOf(item)
          case Failure(cause) => Outcome(Answer(500, ServerError(ServerErrorText, cause)), [key])
          case Success(info) => Outcome(Answer(200, Quote(info)), [key])
  }

  /** The preflight answer reads nothing and depends neither on the body nor on the table. */
  lemma PreflightIgnoresStore(event: Event, parse1: Parser, parse2: Parser, store1: Store, store2: Store)
    requires event.httpMethod == "OPTIONS"
    ensures Handle(event, parse1, store1) == Handle(event, parse2, store2)
    ensures Handle(event, parse1, store1).lookups == []
  {
  }

  /**
   * Every exception inside the handler is answered 500: an unreadable body,
   * a failing table call, and an item missing one of the attributes read.
   */
  lemma ThrownErrorsAnswer500(event: Event, parse: Parser, store: Store)
    requires event.httpMethod != "OPTIONS"
    requires || RequestBody(event, parse).Failure?
             || store(KeyOf(RequestBody(event, parse).value)).Fails?
             || (store(KeyOf(RequestBody(event, parse).value)).Found?
                 && !Complete(store(KeyOf(RequestBody(event, parse).value)).item))
    ensures Handle(event, parse, store).response.statusCode == 500
    ensures Handle(event, parse, store).response.payload.message == ServerErrorText
  {
  }

  /** A body without a truthy `symbol` is looked up under `UNKNOWN`. */
  lemma MissingSymbolDefaults(event: Event, parse: Parser, store: Store)
    requires event.httpMethod != "OPTIONS" && RequestBody(event, parse).Success?
    requires !Truthy(Prop(RequestBody(event, parse).value, "symbol"))
    ensures Handle(event, parse, store).lookups == [Str("UNKNOWN")]
  {
  }

  /** The answer depends on the table only through the one key it reads. */
  lemma AnswerDependsOnKeyOnly(event: Event, parse: Parser, store1: Store, store2: Store)
    requires forall k :: k in Handle(event, parse, store1).lookups ==> store1(k) == store2(k)
    ensures Handle(event, parse, store1) == Handle(event, parse, store2)
  {
    if event.httpMethod != "OPTIONS" && RequestBody(event, parse).Success? {
      var key := KeyOf(RequestBody(event, parse).value);
      assert key in Handle(event, parse, store1).lookups;
    }
  }

  /**
   * A found item holding its five attributes with the expected types is
   * answered with exactly those values: the strings as stored, the numbers
   * read from their text.
   */
  lemma FoundItemIsQuoted(event: Event, parse: Parser, store: Store, item: Item)
    requires event.httpMethod != "OPTIONS" && RequestBody(event, parse).Success?
    requires store(KeyOf(RequestBody(event, parse).value)) == Found(item)
    requires Complete(item)
    requires item["symbol"].S? && item["name"].S? && item["price"].N? && item["change"].N? && item["volume"].N?
    ensures Handle(event, parse, store).response == Response(200, AnswerHeaders, Quote(StockInfo(
      Str(item["symbol"].text), Str(item["name"].text),
      ParseFloat(item["price"].text), ParseFloat(item["change"].text), IntValue(item["volume"].text))))
  {
  }

  /** The text of the `message` field of a not-found answer, when the key's string form is modelled. */
  function NotFoundText(symbol: Value): Option<string> {
    match ToText(symbol)
    case Some(t) => Some("Stock " + t + " not found in database.")
    case None => None
  }

  /** A string key that is not in the table is named in the not-found message. */
  lemma NotFoundNamesSymbol(event: Event, parse: Parser, store: Store, symbol: string)
    requires event.httpMethod != "OPTIONS" && RequestBody(event, parse).Success?
    requires KeyOf(RequestBody(event, parse).value) == Str(symbol) && store(Str(symbol)) == Missing
    ensures Handle(event, parse, store).response.statusCode == 404
    ensures NotFoundText(Handle(event, parse, store).response.payload.symbol)
      == Some("Stock " + symbol + " not found in database.")
  {
  }
}

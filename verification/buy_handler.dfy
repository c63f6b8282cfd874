/**
 * The buy-order handler: validate `symbol` and `quantity`, insert one BUY row
 * into the transactions table, and answer 200, 400 or 500. The table is an
 * append-only log; where the secret fetch or database calls throw is a
 * parameter.
 */
module BuyHandler {
  import opened Wrappers
  import opened Js
  import opened JsText
  import opened Lambda

  /** One row of the transactions table; `transaction_time` is set by the database clock. */
  datatype TxRow = TxRow(symbol: Value, quantity: Value, transactionType: string)

  /** Where, if anywhere, the calls after validation throw. */
  datatype Fault =
    | NoFault
    | BeforeInsert(message: string)  // secret fetch, secret parse, connect or the INSERT itself
    | AfterInsert(message: string)   // closing the connection, once the row is written

  datatype Payload =
    | Message(message: string)                   // { message }
    | Placed(quantity: Value, symbol: Value)     // { message: `Buy order placed for ${quantity} shares of ${symbol}` }
    | ServerError(message: string, cause: Cause) // { message, error }

  const MissingFieldsText: string := "Missing symbol or quantity"
  const ServerErrorText: string := "Internal server error"

  /** The response and the transactions table after the call. */
  datatype Outcome = Outcome(response: Response<Payload>, log: seq<TxRow>)

  /** The parsed request body, or why parsing or destructuring it throws. */
  function RequestBody(event: Event, parse: Parser): (r: Result<Value, Cause>)
    ensures r.Success? ==> !Nullish(r.value)
    ensures r.Success? <==> parse(event.body).Parsed? && !Nullish(parse(event.body).value)
    ensures r.Success? ==> r.value == parse(event.body).value
  {
    match parse(event.body)
    case SyntaxError(m) => Failure(BodyNotJson(m))
    case Parsed(b) => if Nullish(b) then Failure(TypeError("symbol")) else Success(b)
  }

  /** Whether the body carries a truthy `symbol` and a truthy `quantity`. */
  predicate HasFields(body: Value)
    requires !Nullish(body)
  {
    Truthy(Prop(body, "symbol")) && Truthy(Prop(body, "quantity"))
  }

  /** The row a valid body inserts. */
  function RowFor(body: Value): TxRow
    requires !Nullish(body)
  {
    TxRow(Prop(body, "symbol"), Prop(body, "quantity"), "BUY")
  }

  function Reply(status: int, payload: Payload): Response<Payload> {
    Response(status, [AllowAnyOrigin], payload)
  }

  /** `handler(event)` run against the transactions table `log`. */
  function Handle(event: Event, parse: Parser, fault: Fault, log: seq<TxRow>): (r: Outcome)
    ensures r.response.headers == [AllowAnyOrigin]
    ensures r.response.statusCode == 400 <==>
      RequestBody(event, parse).Success? && !HasFields(RequestBody(event, parse).value)
    ensures r.response.statusCode == 200 <==>
      RequestBody(event, parse).Success? && HasFields(RequestBody(event, parse).value) && fault == NoFault
    ensures r.response.statusCode != 200 && r.response.statusCode != 400 ==>
      r.response.statusCode == 500 && r.response.payload.ServerError? && r.response.payload.message == ServerErrorText
    ensures r.response.statusCode == 400 ==> r.response.payload == Message(MissingFieldsText)
    ensures r.log == log || (|r.log| == |log| + 1 && r.log[..|log|] == log)
    ensures |r.log| == |log| + 1 <==>
      RequestBody(event, parse).Success? && HasFields(RequestBody(event, parse).value) && !fault.BeforeInsert?
  {
    match RequestBody(event, parse)
    case Failure(cause) => Outcome(Reply(500, ServerError(ServerErrorText, cause)), log)
    case Success(body) =>
      if !HasFields(body) then Outcome(Reply(400, Message(MissingFieldsText)), log)
      else
        var row := RowFor(body);
        match fault
        case BeforeInsert(m) => Outcome(Reply(500, ServerError(ServerErrorText, StoreFault(m))), log)
        case AfterInsert(m) => Outcome(Reply(500, ServerError(ServerErrorText, StoreFault(m))), log + [row])
        case NoFault =>
          Outcome(Reply(200, Placed(Prop(body, "quantity"), Prop(body, "symbol"))), log + [row])
  }

  /**
   * A request without a truthy symbol or quantity is answered 400 before any
   * database work: nothing is written, and where the database would have
   * failed makes no difference.
   */
  lemma ValidationFailureWritesNothing(event: Event, parse: Parser, f1: Fault, f2: Fault, log: seq<TxRow>)
    requires Handle(event, parse, f1, log).response.statusCode == 400
    ensures Handle(event, parse, f1, log).log == log
    ensures Handle(event, parse, f1, log) == Handle(event, parse, f2, log)
  {
  }

  /**
   * A successful call appends exactly one BUY row carrying the request's
   * symbol and quantity, and echoes both in its message.
   */
  lemma SuccessWritesOneRow(event: Event, parse: Parser, fault: Fault, log: seq<TxRow>)
    requires Handle(event, parse, fault, log).response.statusCode == 200
    ensures var body := RequestBody(event, parse).value;
      var r := Handle(event, parse, fault, log);
      r.log == log + [TxRow(Prop(body, "symbol"), Prop(body, "quantity"), "BUY")]
      && r.response.payload == Placed(Prop(body, "quantity"), Prop(body, "symbol"))
  {
  }

  /**
   * A fault after the INSERT still answers 500 although the row is written,
   * so the caller cannot tell whether the order was recorded.
   */
  lemma LateFaultStillWrites(event: Event, parse: Parser, message: string, log: seq<TxRow>)
    requires RequestBody(event, parse).Success? && HasFields(RequestBody(event, parse).value)
    ensures var r := Handle(event, parse, AfterInsert(message), log);
      r.response.statusCode == 500 && r.log == log + [RowFor(RequestBody(event, parse).value)]
      && r.response.statusCode == Handle(event, parse, BeforeInsert(message), log).response.statusCode
      && Handle(event, parse, BeforeInsert(message), log).log == log
  {
  }

  /** The text of the `message` field, when JavaScript's string form of the interpolated values is modelled. */
  function MessageText(p: Payload): Option<string> {
    match p
    case Message(m) => Some(m)
    case ServerError(m, _) => Some(m)
    case Placed(q, s) =>
      if ToText(q).Some? && ToText(s).Some? then
        Some("Buy order placed for " + ToText(q).value + " shares of " + ToText(s).value)
      else None
  }

  /** For a string symbol and an integer quantity, the confirmation is the template filled with both. */
  lemma PlacedMessage(quantity: int, symbol: string)
    requires -1000000000000000000000 < quantity < 1000000000000000000000
    ensures MessageText(Placed(Num(quantity as real), Str(symbol)))
      == Some("Buy order placed for " + IntToString(quantity) + " shares of " + symbol)
  {
    var n := quantity as real;
    assert n.Floor == quantity;
    assert PrintsAsInteger(n);
    assert ToText(Num(n)) == Some(IntToString(quantity));
    assert ToText(Str(symbol)) == Some(symbol);
  }
}

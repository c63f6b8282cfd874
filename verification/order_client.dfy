/**
 * The page's order commands (`handleBuyOrder`, `handleSellOrder`) as
 * functions over an explicit session value: read the form, guard, send at
 * most one request, and on a confirmed reply update, save and show the
 * holdings. The network reply is a parameter.
 */
module OrderClient {
  import opened Wrappers
  import opened JsText
  import opened Portfolio

  /** The single message the page shows; a new one replaces the old. */
  datatype Notice = SuccessNotice(text: string) | ErrorNotice(text: string)

  /** The page state: holdings in memory, the last saved copy, the notice on screen. */
  datatype Session = Session(holdings: Holdings, saved: Option<Holdings>, notice: Option<Notice>)

  /** The JSON body posted to `/buy` or `/sell` (its client timestamp is not modelled). */
  datatype OrderRequest = OrderRequest(path: string, symbol: string, quantity: int, action: string)

  /**
   * How the request ended: a 2xx answer with a JSON body, a non-2xx answer
   * with its body text, or an exception from `fetch` or `response.json()`.
   */
  datatype Reply = Confirmed | HttpError(status: int, text: string) | Thrown(message: string)

  /** The session after the command, the request sent if any, and whether the form was reset. */
  datatype Submitted = Submitted(session: Session, request: Option<OrderRequest>, formCleared: bool)

  const InvalidInputText: string := "Please enter valid stock symbol and quantity"

  /** The form passes `!symbol || !quantity || quantity <= 0`: a non-empty symbol and a positive parsed quantity. */
  predicate ValidOrder(symbolField: string, quantityField: string) {
    symbolField != "" && ParseInt(quantityField).Some? && ParseInt(quantityField).value > 0
  }

  /** `holding && !(holding.quantity < quantity)` for the first entry of the symbol. */
  predicate CanSell(p: Holdings, symbol: string, quantity: int) {
    match Find(p, symbol)
    case None => false
    case Some(i) => p[i].quantity >= quantity
  }

  function Path(side: Side): string {
    if side == Buy then "/buy" else "/sell"
  }

  function Action(side: Side): string {
    if side == Buy then "buy" else "sell"
  }

  function PastTense(side: Side): string {
    if side == Buy then "bought" else "sold"
  }

  function ReplyText(reply: Reply): string {
    match reply
    case Confirmed => ""
    case HttpError(status, text) => "HTTP " + IntToString(status) + ": " + text
    case Thrown(message) => message
  }

  function ShortText(symbol: string): string {
    "You don't have enough shares of " + symbol + " to sell"
  }

  /**
   * `handleBuyOrder()` (side `Buy`) and `handleSellOrder()` (side `Sell`):
   * reject bad input and, for a sell, a missing or too small holding without
   * a request; otherwise send one request and, once it is confirmed, update
   * the holdings, save them, show the success notice and reset the form.
   */
  function Submit(s: Session, side: Side, symbolField: string, quantityField: string, reply: Reply): (r: Submitted)
    ensures r.request.None? <==>
      !ValidOrder(symbolField, quantityField)
      || (side == Sell && !CanSell(s.holdings, Upper(symbolField), ParseInt(quantityField).value))
    ensures r.request.None? ==>
      r.session.holdings == s.holdings && r.session.saved == s.saved
      && r.session.notice.Some? && r.session.notice.value.ErrorNotice? && !r.formCleared
    ensures r.request.Some? ==>
      r.request.value == OrderRequest(Path(side), Upper(symbolField), ParseInt(quantityField).value, Action(side))
      && r.request.value.quantity > 0
    ensures r.request.Some? && reply == Confirmed ==>
      r.session.holdings == Update(s.holdings, Upper(symbolField), ParseInt(quantityField).value, side)
      && r.session.saved == Some(r.session.holdings)
      && r.session.notice.Some? && r.session.notice.value.SuccessNotice? && r.formCleared
    ensures reply != Confirmed ==>
      r.session.holdings == s.holdings && r.session.saved == s.saved
      && r.session.notice.Some? && r.session.notice.value.ErrorNotice? && !r.formCleared
  {
    if !ValidOrder(symbolField, quantityField) then
      Submitted(s.(notice := Some(ErrorNotice(InvalidInputText))), None, false)
    else
      var quantity := ParseInt(quantityField).value;
      var symbol := Upper(symbolField);
      if side == Sell && !CanSell(s.holdings, symbol, quantity) then
        Submitted(s.(notice := Some(ErrorNotice(ShortText(symbol)))), None, false)
      else
        var request := OrderRequest(Path(side), symbol, quantity, Action(side));
        if reply == Confirmed then
          var p := Update(s.holdings, symbol, quantity, side);
          var text := "Successfully " + PastTense(side) + " " + IntToString(quantity) + " shares of " + symbol;
          Submitted(Session(p, Some(p), Some(SuccessNotice(text))), Some(request), true)
        else
          var text := "Failed to place " + Action(side) + " order: " + ReplyText(reply);
          Submitted(s.(notice := Some(ErrorNotice(text))), Some(request), false)
  }

  /** A sell of a symbol with no holding is refused locally with the not-enough-shares notice. */
  lemma SellWithoutHoldingIsRefused(s: Session, symbolField: string, quantityField: string, reply: Reply)
    requires ValidOrder(symbolField, quantityField)
    requires Find(s.holdings, Upper(symbolField)).None?
    ensures var r := Submit(s, Sell, symbolField, quantityField, reply);
      r.request.None? && r.session.notice == Some(ErrorNotice(ShortText(Upper(symbolField))))
      && r.session.holdings == s.holdings
  {
  }

  /**
   * A sell that passes the guard never asks for more than is held, so the
   * ledger entry afterwards is what was held minus what was sold, or gone
   * when that is zero.
   */
  lemma AcceptedSellNeverOverdraws(s: Session, symbolField: string, quantityField: string)
    requires Submit(s, Sell, symbolField, quantityField, Confirmed).request.Some?
    ensures var symbol := Upper(symbolField);
      var quantity := ParseInt(quantityField).value;
      var after := Ledger(Submit(s, Sell, symbolField, quantityField, Confirmed).session.holdings);
      symbol in Ledger(s.holdings) && Ledger(s.holdings)[symbol] >= quantity
      && (Ledger(s.holdings)[symbol] == quantity ==> symbol !in after)
      && (Ledger(s.holdings)[symbol] > quantity ==> symbol in after && after[symbol] == Ledger(s.holdings)[symbol] - quantity)
  {
    var symbol := Upper(symbolField);
    var quantity := ParseInt(quantityField).value;
    LedgerIsFirstMatch(s.holdings, symbol);
    UpdateLedger(s.holdings, symbol, quantity, Sell);
  }

  /** Every command keeps the holdings free of duplicate symbols and of entries without shares. */
  lemma CommandsKeepWellFormed(s: Session, side: Side, symbolField: string, quantityField: string, reply: Reply)
    requires WellFormed(s.holdings)
    ensures WellFormed(Submit(s, side, symbolField, quantityField, reply).session.holdings)
  {
    var r := Submit(s, side, symbolField, quantityField, reply);
    if r.request.Some? && reply == Confirmed {
      var symbol := Upper(symbolField);
      var quantity := ParseInt(quantityField).value;
      UpdateKeepsUnique(s.holdings, symbol, quantity, side);
      UpdateKeepsPositive(s.holdings, symbol, quantity, side);
    }
  }

  /**
   * Buying some shares of a symbol not yet held and then selling the same
   * number, typed in any letter case, goes through and leaves the holdings,
   * and their saved copy, as they were before the buy.
   */
  lemma BuyThenSellRestoresHoldings(s: Session, buyField: string, sellField: string, quantityField: string)
    requires ValidOrder(buyField, quantityField) && sellField != ""
    requires Upper(buyField) == Upper(sellField)
    requires Find(s.holdings, Upper(buyField)).None?
    ensures var bought := Submit(s, Buy, buyField, quantityField, Confirmed).session;
      var sold := Submit(bought, Sell, sellField, quantityField, Confirmed);
      sold.request.Some? && sold.session.holdings == s.holdings && sold.session.saved == Some(s.holdings)
  {
    var symbol := Upper(buyField);
    var quantity := ParseInt(quantityField).value;
    var h := Holding(symbol, quantity);
    FindAppend(s.holdings, h, symbol);
    assert (s.holdings + [h])[|s.holdings|] == h;
    BuyThenSellRestores(s.holdings, symbol, quantity);
  }
}

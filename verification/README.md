# Stock-trading demo: a Dafny model of its decision logic

The system is a small stock-trading demo. A browser page lists quotes and places simulated buy and sell orders. Three
serverless request handlers sit behind it. This project models the parts of it that make decisions:

- the page's **holdings ledger** (`updatePortfolio`), a list of `{symbol, quantity}` entries that behaves as a map from symbol to shares;
- the page's **order commands** (`handleBuyOrder`, `handleSellOrder`): input guards, the at-most-one request, and the update, save and notice that follow a confirmed reply;
- the page's **quote normalisation** (`loadStockData`, `displayStocks`, `createStockElement`): unwrapping a `body` envelope, coercing the payload into a list, falling back to built-in sample lists, and resolving each field through alternate names with `'N/A'` as the last resort;
- the **buy handler**: validation, one `INSERT` into an append-only transactions log, and the choice between 200, 400 and 500;
- the **quote-lookup handler**: the CORS preflight, defaulting the symbol to `UNKNOWN`, and the choice between found, not found and internal error.

The JavaScript primitives these depend on are modelled as well. That covers truthiness, `parseInt`, `parseFloat`,
`toUpperCase`, and the text a template literal makes of a value.

Modules, one per component: `Wrappers` (Option, Result), `Js` (JSON-like values), `JsText` (string and number
primitives), `Portfolio`, `OrderClient`, `QuoteView`, `Lambda` (event and response shapes), `BuyHandler` and
`StockChecker`.

Everything outside the code is a parameter:

- `JSON.parse` is a `Parser` function. It returns a value or a syntax error.
- The transactions table is a `seq<TxRow>` log. A `Fault` says whether a call throws before or after the insert.
- The quote table is a `Store` function from key to item, missing item, or thrown error.
- The network reply to an order is a `Reply`.
- The result of `fetch` plus `response.json()` for quotes is a `Fetched`.

The quote handler returns the keys it looked up. So "no store access" can be stated as an empty list and as independence from the store.

Behaviour of the code worth knowing:
- The buy handler rejects with 400 when `symbol` or `quantity` is falsy. So a quantity of `0` is rejected, while the string `"0"`, a negative number or a non-numeric string passes validation and is sent to the `INSERT`.
- The page accepts any quantity field that `parseInt` reads as a positive number. So `"3.7"` orders 3 shares and `"5abc"` orders 5.
- The preflight answer of the quote handler carries the message `CORS preflight successful`.
- A quote list that contains `null` or `undefined` makes `createStockElement` throw. The page then shows the error notice and the two-stock fallback list.

## Model

| member | source | states |
|---|---|---|
| Portfolio.Find | frontend/script.js:264 | `find` returns the first entry with the symbol, and returns nothing exactly when no entry has it |
| Portfolio.Update | frontend/script.js:263-279 | after a buy the symbol is always found, and the list grew by one exactly when it was not held before; a sell never grows the list |
| Portfolio.Without | frontend/script.js:276 | the filter keeps exactly the entries of other symbols and never grows the list |
| Portfolio.WithoutAppend | frontend/script.js:276 | the filter works entry by entry: filtering a concatenation is the concatenation of the filtered parts, so order and repeats of the kept entries are preserved |
| Portfolio.WithoutSingle | frontend/script.js:276 | a single entry survives the filter exactly when its symbol differs |
| Portfolio.LedgerIsFirstMatch | frontend/script.js:178 | the map view of the list holds a symbol exactly when `find` finds it, with the quantity of the entry found |
| Portfolio.UpdateLedger | frontend/script.js:263-279 | `updatePortfolio` updates the map view: a buy adds to what is held (0 if nothing); a sell subtracts and drops the key at zero or below; a sell of an unheld symbol changes nothing |
| Portfolio.BuyLedger | frontend/script.js:266-271 | a buy sets the symbol's map entry to the old holding plus the quantity and leaves every other key alone |
| Portfolio.SellLedger | frontend/script.js:272-278 | a sell leaves the map alone when the symbol is not held; otherwise it removes the key when nothing positive remains, or else lowers the value |
| Portfolio.LedgerWithout | frontend/script.js:276 | filtering out a symbol removes exactly that key from the map view |
| Portfolio.UpdateKeepsOthers | frontend/script.js:264-278 | entries of every other symbol keep their values and their relative order, under both buy and sell |
| Portfolio.UpdateKeepsUnique | frontend/script.js:264-278 | if no two entries share a symbol before an update, none do after it, because the list is only appended to when `find` found nothing |
| Portfolio.UpdateKeepsPositive | frontend/script.js:266-278 | with a positive buy quantity, every entry keeps a positive number of shares, because a sell that reaches 0 or below deletes the entry |
| Portfolio.BuyNewAppends | frontend/script.js:269-271 | buying an unheld symbol appends `{symbol, quantity}` at the end |
| Portfolio.BuyHeldAdds | frontend/script.js:267-268 | buying a held symbol adds to the first entry; the length and every other entry stay the same |
| Portfolio.SellHeld | frontend/script.js:273-277 | selling a held symbol lowers its first entry, or removes every entry of the symbol once the result is 0 or below |
| Portfolio.SellAbsentKeeps | frontend/script.js:272-278 | selling an unheld symbol leaves the list unchanged |
| Portfolio.BuyThenSellRestores | frontend/script.js:264-278 | buying q of an unheld symbol and then selling q gives back the original list |
| OrderClient.Submit | frontend/script.js:123-216 | no request is sent exactly when the symbol is empty, the parsed quantity is NaN or not positive, or (for a sell) the holding of the upper-cased symbol is missing or smaller; a rejected or failed order changes neither holdings nor saved copy and shows an error; a confirmed order applies `updatePortfolio` to the upper-cased symbol, saves the whole list, shows success and resets the form |
| OrderClient.SellWithoutHoldingIsRefused | frontend/script.js:177-182 | a sell of an unheld symbol sends nothing and shows the not-enough-shares notice |
| OrderClient.AcceptedSellNeverOverdraws | frontend/script.js:178-182 | a sell that gets past the guard asks for no more than is held; the holding afterwards is the difference, or is gone when that difference is 0 |
| OrderClient.CommandsKeepWellFormed | frontend/script.js:128-182 | every order command keeps the holdings free of duplicate symbols and of entries with zero or fewer shares |
| OrderClient.BuyThenSellRestoresHoldings | frontend/script.js:158 | buying a new symbol and selling the same quantity, typed in any letter case, succeeds and restores both holdings and saved copy |
| QuoteView.FirstTruthy | frontend/script.js:243-246 | a displayed field is the first candidate name holding a truthy value, with every earlier candidate falsy; it is `'N/A'` when all are falsy |
| QuoteView.StockRow | frontend/script.js:238-246 | building a stock element throws exactly on `null`/`undefined`; otherwise each of symbol, price, change and volume is resolved through its own chain of alternate names, and no field shown is falsy |
| QuoteView.SampleRow | frontend/script.js:73-95 | a sample stock with a non-empty symbol and non-zero numbers shows exactly its own symbol, price, change and volume |
| QuoteView.Rows | frontend/script.js:227-232 | the listing has one row per stock, each the element of that stock, unless some stock is nullish |
| QuoteView.Display | frontend/script.js:218-236 | `displayStocks` throws exactly when some stock is nullish; an empty list shows the no-data line; otherwise one row per stock, in order, each the element of that stock |
| QuoteView.Unwrap | frontend/script.js:56-65 | a response without a truthy `body` is the payload itself; a truthy body is replaced by what it parses to, or kept as is when parsing throws |
| QuoteView.AsList | frontend/script.js:67-95 | an array payload is the list, a single object becomes a one-stock list, anything else becomes the three-stock sample list |
| QuoteView.StockList | frontend/script.js:56-95 | reading `body` throws exactly for a nullish response; without a truthy body the response itself is coerced into the list, and a body that parses is coerced in its place |
| QuoteView.FallbackListing | frontend/script.js:105-119 | the error path shows two rows: GOOGL at 150.25, change 2.5, volume 1000000, then AAPL at 175.50, change -1.2, volume 2000000 |
| QuoteView.LoadStockData | frontend/script.js:34-120 | the only notice ever shown is the load-error text; a failed fetch shows it with the two-stock fallback; without a notice the listing is what `displayStocks` makes of the normalised list |
| QuoteView.LoadOutcome | frontend/script.js:34-120 | loading shows the error notice exactly when the fetch failed, the response was nullish or a listed stock was nullish; the fallback list is shown then, and the normalised list otherwise |
| QuoteView.EnvelopeIsTransparent | frontend/script.js:56-65 | a response whose truthy `body` parses to a payload lists the same stocks as that payload sent bare (one level of envelope) |
| QuoteView.UnparsableBodyIsPayload | frontend/script.js:57-62 | a body that fails to parse is used as the payload itself |
| QuoteView.NormaliseIsIdempotent | frontend/script.js:67-71 | normalising the list that normalisation produced gives the same list: an array passes through |
| QuoteView.UnexpectedPayloadUsesSamples | frontend/script.js:67-95 | a payload that is neither array nor object becomes the fixed three-stock sample list, without an error notice |
| QuoteView.ShownFieldsAreTruthy | frontend/script.js:238-253 | no field of any row shown is falsy: a missing, zero or empty value has been replaced by `'N/A'` |
| QuoteView.ZeroPriceShowsNotAvailable | frontend/script.js:244 | any stock whose `price` is 0 and whose other price names are all falsy shows its price as `'N/A'` |
| JsText.TrimStart | frontend/script.js:126 | the white space `parseInt` skips is exactly a leading run of ECMAScript white-space characters |
| JsText.DigitPrefix | frontend/script.js:126 | the digits `parseInt` reads are the longest run of radix digits at the start |
| JsText.NatToString | functions/buy-function/index.js:43 | integers print as digit strings without leading zeros |
| JsText.ParseInt | frontend/script.js:126 | `parseInt` gives a number only if the text contains one of the characters 0-9, a-f, A-F |
| JsText.ParseIntNaN | frontend/script.js:126-128 | `parseInt` is NaN exactly when, after white space and a sign, no decimal digit follows, or no hexadecimal digit follows a `0x` prefix; the guard then refuses the order |
| JsText.ParseIntReadsDecimal | frontend/script.js:126 | `parseInt` reads back any integer's decimal text and stops at the first character that cannot continue it (`"5abc"` is 5, `"3.7"` is 3) |
| JsText.ParseIntRoundTrip | frontend/script.js:170 | the decimal text of an integer parses back to that integer |
| JsText.ParseFloatReadsInteger | functions/stock-checker/index.js:53-54 | `parseFloat` reads back an integer's decimal text when it is followed by something that cannot continue a literal |
| JsText.ParseFloat | functions/stock-checker/index.js:53-54 | `parseFloat` yields a finite number, NaN or an infinity |
| JsText.ParseFloatReadsDecimal | functions/stock-checker/index.js:53-54 | `parseFloat` of a signed decimal fraction is the digits on both sides of the point read as one integer, divided by 10 to the number of fraction digits and negated after a minus; a tail that cannot continue the literal is ignored |
| JsText.FractionIsQuotient | functions/stock-checker/index.js:53-54 | a literal with k fraction digits denotes its digits divided by 10^k |
| JsText.StoredPriceReadsBack | functions/stock-checker/index.js:53 | a stored price `"150.25"` is read as the number 150.25 |
| JsText.Upper | frontend/script.js:178 | `toUpperCase` shifts each lower-case ASCII letter to its capital and leaves every other character where it is |
| JsText.UpperIsCanonical | frontend/script.js:178 | upper-casing leaves no lower-case ASCII letter, is idempotent, and keeps the length and emptiness of its input |
| JsText.ToText | functions/buy-function/index.js:43 | a string is interpolated as itself and an integral number below 10^21 as its decimal digits |
| JsText.IntegerTextReadsBack | functions/buy-function/index.js:43 | the text an integer-valued number prints as parses back to that number |
| BuyHandler.RequestBody | functions/buy-function/index.js:8-9 | the body is read exactly when `JSON.parse` yields a value that is not `null` or `undefined` (destructuring those throws), and it is then that value |
| BuyHandler.Handle | functions/buy-function/index.js:6-54 | 400 exactly when the body is readable but `symbol` or `quantity` is falsy; 200 exactly when both are truthy and nothing throws; otherwise 500 with `Internal server error`; the log only grows, by one row exactly when the insert ran |
| BuyHandler.ValidationFailureWritesNothing | functions/buy-function/index.js:11-17 | a 400 writes nothing and does not depend on how the database would have behaved |
| BuyHandler.SuccessWritesOneRow | functions/buy-function/index.js:32-44 | a 200 appends exactly one `BUY` row with the request's symbol and quantity, and its message echoes both |
| BuyHandler.LateFaultStillWrites | functions/buy-function/index.js:37-52 | a failure after the insert answers 500 like one before it, but the row is written |
| BuyHandler.PlacedMessage | functions/buy-function/index.js:43 | for a string symbol and an integer quantity the message is `Buy order placed for <quantity> shares of <symbol>` |
| StockChecker.RequestBody | functions/stock-checker/index.js:24-25 | a string body that parses to a non-nullish value is that value; any other non-nullish body is used as is; reading throws exactly for a nullish body or a string that fails to parse or parses to `null` |
| StockChecker.KeyOf | functions/stock-checker/index.js:25 | the key looked up is always truthy; it is `body.symbol` whenever that is truthy |
| StockChecker.InfoOf | functions/stock-checker/index.js:50-56 | building the quote succeeds exactly when the item has all five attributes, and otherwise throws a TypeError |
| StockChecker.Handle | functions/stock-checker/index.js:6-85 | OPTIONS gets the fixed preflight answer with no lookup; 404 exactly when the key is missing from the table, naming the key; 200 with `success: true` exactly when the item is found and complete; every other answer is 500 with `Internal Server Error`, and an unreadable body is 500 carrying its error with no lookup; 200 only for the preflight or a quote; at most one key is read |
| StockChecker.ThrownErrorsAnswer500 | functions/stock-checker/index.js:70-84 | an unreadable body, a failing table call and an item missing an attribute are all answered 500 with `Internal Server Error` |
| StockChecker.PreflightIgnoresStore | functions/stock-checker/index.js:10-21 | the preflight answer reads nothing and does not depend on the body or the table |
| StockChecker.MissingSymbolDefaults | functions/stock-checker/index.js:25 | a body without a truthy `symbol` is looked up under `UNKNOWN` |
| StockChecker.AnswerDependsOnKeyOnly | functions/stock-checker/index.js:27-34 | the answer depends on the table only through the one key read |
| StockChecker.FoundItemIsQuoted | functions/stock-checker/index.js:50-68 | a found item with the expected attribute types is answered 200 with exactly its symbol, name, parsed price, parsed change and parsed volume |
| StockChecker.NotFoundNamesSymbol | functions/stock-checker/index.js:36-48 | a string key absent from the table gets 404 with `Stock <symbol> not found in database.` |

## Left out

- The sell handler (`functions/sell-function/index.js`) is not part of this model. It relies on `Math.random` defaults, `crypto.randomBytes` ids and floating-point `toFixed` arithmetic.
- `frontend/config.js` is not part of this model. It holds constant URLs only.
- HTML building, `toFixed(2)` and `toLocaleString` formatting, and the inline `onclick` form fillers are not modelled. They are DOM, floating-point and locale work. The model stops at the values each stock element interpolates.
- The 5-second self-dismissal of notices and the injected CSS are not modelled. A notice is the session's single `notice` field, and a new notice replaces the old one.
- `fetch`, `async` and the interleaving of overlapping submissions are not modelled. Commands run one at a time, and the network outcome is a parameter.
- `localStorage` is modelled only as the `saved` copy, which is set to the whole list after each confirmed order. Reading it at start-up (`loadPortfolio`) and a failing `setItem` are not modelled.
- The unused `balance` field and the request's client `timestamp` are not modelled.
- AWS Secrets Manager, mysql2 and DynamoDB calls are not modelled. They are the log-plus-`Fault` and `Store` parameters, and the thrown error's text is the message carried by `Cause`. The database clock (`NOW()`) is not modelled.
- The grammar of `JSON.parse` and `JSON.stringify`'s handling of `NaN` and `undefined` fields are not modelled. A payload datatype stands for the object that is stringified.
- Numbers are exact reals. Binary64 rounding, the precision loss of `parseInt` above 2^53 and overflow to `Infinity` are not modelled.
- JsText.Upper: covers ASCII letters only. Other Unicode case mappings of `toUpperCase` are not modelled.
- JsText.ToText: gives no text for non-integral numbers, integers of 10^21 and above, and arrays. JavaScript's shortest-round-trip number printing and `Array.prototype.join` are not modelled.
- Js.Prop: covers the plain data keys the code reads. Properties inherited from object, string or array prototypes are not modelled.

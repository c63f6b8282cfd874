/**
 * The page's holdings ledger: an ordered list of `{symbol, quantity}`
 * entries, updated after every confirmed buy or sell order.
 */
module Portfolio {
  import opened Wrappers

  datatype Holding = Holding(symbol: string, quantity: int)

  type Holdings = seq<Holding>

  /** The two actions `updatePortfolio` is called with. */
  datatype Side = Buy | Sell

  /** No two entries share a symbol. */
  predicate Unique(p: Holdings) {
    forall i, j :: 0 <= i < j < |p| ==> p[i].symbol != p[j].symbol
  }

  /** Every entry holds at least one share. */
  predicate Positive(p: Holdings) {
    forall i :: 0 <= i < |p| ==> p[i].quantity > 0
  }

  /** The ledger invariant every confirmed order keeps. */
  predicate WellFormed(p: Holdings) {
    Unique(p) && Positive(p)
  }

  /** `portfolio.find(stock => stock.symbol === symbol)`, as the index of the first match. */
  function Find(p: Holdings, symbol: string): (r: Option<nat>)
    ensures r.None? <==> forall i :: 0 <= i < |p| ==> p[i].symbol != symbol
    ensures r.Some? ==> r.value < |p| && p[r.value].symbol == symbol
    ensures r.Some? ==> forall j :: 0 <= j < r.value ==> p[j].symbol != symbol
  {
    if |p| == 0 then None
    else if p[0].symbol == symbol then Some(0)
    else match Find(p[1..], symbol)
      case None => None
      case Some(i) => Some(i + 1)
  }

  /** `portfolio.filter(stock => stock.symbol !== symbol)`. */
  function Without(p: Holdings, symbol: string): (r: Holdings)
    ensures forall h :: h in r <==> h in p && h.symbol != symbol
    ensures |r| <= |p|
  {
    if |p| == 0 then []
    else if p[0].symbol == symbol then Without(p[1..], symbol)
    else [p[0]] + Without(p[1..], symbol)
  }

  /**
   * `updatePortfolio(symbol, quantity, action)`: a buy adds to the first
   * entry for the symbol or appends a new one; a sell subtracts from the
   * first entry and, once that drops to zero or below, removes every entry
   * for the symbol; a sell of a symbol not held changes nothing.
   */
  function Update(p: Holdings, symbol: string, quantity: int, side: Side): (r: Holdings)
    ensures side == Buy ==> Find(r, symbol).Some?
    ensures side == Buy ==> |r| == |p| + (if Find(p, symbol).None? then 1 else 0)
    ensures side == Sell ==> |r| <= |p|
  {
    match Find(p, symbol)
    case None =>
      if side == Buy then
        var r := p + [Holding(symbol, quantity)];
        assert r[|p|].symbol == symbol;
        r
      else p
    case Some(i) =>
      if side == Buy then
        var r := p[i := Holding(symbol, p[i].quantity + quantity)];
        assert r[i].symbol == symbol;
        r
      else if p[i].quantity - quantity <= 0 then Without(p, symbol)
      else p[i := Holding(symbol, p[i].quantity - quantity)]
  }

  /** Filtering a concatenation filters each part: the kept entries stay in order, each copy kept. */
  lemma {:induction false} WithoutAppend(p: Holdings, q: Holdings, symbol: string)
    ensures Without(p + q, symbol) == Without(p, symbol) + Without(q, symbol)
  {
    if |p| > 0 {
      assert (p + q)[0] == p[0] && (p + q)[1..] == p[1..] + q;
      WithoutAppend(p[1..], q, symbol);
      if p[0].symbol != symbol {
        var head := [p[0]];
        assert head + (Without(p[1..], symbol) + Without(q, symbol))
            == (head + Without(p[1..], symbol)) + Without(q, symbol);
      }
    } else {
      assert p + q == q;
    }
  }

  /** One entry is kept exactly when its symbol differs. */
  lemma WithoutSingle(h: Holding, symbol: string)
    ensures Without([h], symbol) == if h.symbol == symbol then [] else [h]
  {
  }

  // ------------------------------------------------------- the map view

  /**
   * The symbol-to-quantity map a list stands for, as the page reads it:
   * the first entry for a symbol is the one `find` returns.
   */
  function Ledger(p: Holdings): map<string, int> {
    if |p| == 0 then map[]
    else Ledger(p[1..])[p[0].symbol := p[0].quantity]
  }

  /** The ledger's entry for a symbol is the quantity of the entry `find` returns. */
  lemma {:induction false} LedgerIsFirstMatch(p: Holdings, symbol: string)
    ensures symbol in Ledger(p) <==> Find(p, symbol).Some?
    ensures symbol in Ledger(p) ==> Ledger(p)[symbol] == p[Find(p, symbol).value].quantity
  {
    if |p| > 0 && p[0].symbol != symbol {
      LedgerIsFirstMatch(p[1..], symbol);
    }
  }

  /** Shares held of `symbol`, 0 when there is no entry. */
  function Held(p: Holdings, symbol: string): int {
    var m := Ledger(p);
    if symbol in m then m[symbol] else 0
  }

  // ------------------------------------------------------------ lemmas

  /** Lists with the same symbols position by position find the same index. */
  lemma FindSameSymbols(p: Holdings, q: Holdings, symbol: string)
    requires |p| == |q|
    requires forall k :: 0 <= k < |p| ==> p[k].symbol == q[k].symbol
    ensures Find(p, symbol) == Find(q, symbol)
  {
    match Find(p, symbol)
    case None =>
    case Some(i) =>
      assert q[i].symbol == symbol;
  }

  /** Appending an entry does not move the first match of any symbol already present. */
  lemma FindAppend(p: Holdings, h: Holding, symbol: string)
    ensures Find(p + [h], symbol) ==
      if Find(p, symbol).Some? then Find(p, symbol)
      else if h.symbol == symbol then Some(|p|)
      else None
  {
    var r := p + [h];
    match Find(p, symbol)
    case Some(i) =>
      assert r[i].symbol == symbol;
    case None =>
      if h.symbol == symbol {
        assert r[|p|].symbol == symbol;
      }
  }

  /** Removing a symbol removes exactly that key from the map view. */
  lemma {:induction false} LedgerWithout(p: Holdings, symbol: string)
    ensures Ledger(Without(p, symbol)) == Ledger(p) - {symbol}
  {
    if |p| > 0 {
      LedgerWithout(p[1..], symbol);
      if p[0].symbol != symbol {
        var w := Without(p[1..], symbol);
        assert ([p[0]] + w)[1..] == w;
        assert ([p[0]] + w)[0] == p[0];
      }
    }
  }

  /**
   * `updatePortfolio` is a map update of the ledger view: a buy adds the
   * quantity to what is held (starting from 0); a sell of a held symbol
   * subtracts it and drops the key once nothing positive is left; a sell of
   * a symbol not held changes nothing.
   */
  lemma UpdateLedger(p: Holdings, symbol: string, quantity: int, side: Side)
    ensures side == Buy ==>
      Ledger(Update(p, symbol, quantity, side)) == Ledger(p)[symbol := Held(p, symbol) + quantity]
    ensures side == Sell && symbol !in Ledger(p) ==>
      Ledger(Update(p, symbol, quantity, side)) == Ledger(p)
    ensures side == Sell && symbol in Ledger(p) && Ledger(p)[symbol] - quantity <= 0 ==>
      Ledger(Update(p, symbol, quantity, side)) == Ledger(p) - {symbol}
    ensures side == Sell && symbol in Ledger(p) && Ledger(p)[symbol] - quantity > 0 ==>
      Ledger(Update(p, symbol, quantity, side)) == Ledger(p)[symbol := Ledger(p)[symbol] - quantity]
  {
    LedgerIsFirstMatch(p, symbol);
    if side == Buy {
      BuyLedger(p, symbol, quantity);
    } else {
      SellLedger(p, symbol, quantity);
    }
  }

  lemma BuyLedger(p: Holdings, symbol: string, quantity: int)
    ensures Ledger(Update(p, symbol, quantity, Buy)) == Ledger(p)[symbol := Held(p, symbol) + quantity]
  {
    var r := Update(p, symbol, quantity, Buy);
    LedgerIsFirstMatch(p, symbol);
    match Find(p, symbol)
    case None =>
      assert r == p + [Holding(symbol, quantity)];
      assert Held(p, symbol) == 0;
      BuyNewLedger(p, symbol, quantity);
    case Some(i) =>
      assert r == p[i := Holding(symbol, p[i].quantity + quantity)];
      assert Held(p, symbol) == p[i].quantity;
      ReplaceLedger(p, i, p[i].quantity + quantity);
  }

  lemma SellLedger(p: Holdings, symbol: string, quantity: int)
    ensures symbol !in Ledger(p) ==> Ledger(Update(p, symbol, quantity, Sell)) == Ledger(p)
    ensures symbol in Ledger(p) && Ledger(p)[symbol] - quantity <= 0 ==>
      Ledger(Update(p, symbol, quantity, Sell)) == Ledger(p) - {symbol}
    ensures symbol in Ledger(p) && Ledger(p)[symbol] - quantity > 0 ==>
      Ledger(Update(p, symbol, quantity, Sell)) == Ledger(p)[symbol := Ledger(p)[symbol] - quantity]
  {
    var r := Update(p, symbol, quantity, Sell);
    LedgerIsFirstMatch(p, symbol);
    match Find(p, symbol)
    case None =>
      assert r == p;
    case Some(i) =>
      if p[i].quantity - quantity <= 0 {
        assert r == Without(p, symbol);
        LedgerWithout(p, symbol);
      } else {
        assert r == p[i := Holding(symbol, p[i].quantity - quantity)];
        ReplaceLedger(p, i, p[i].quantity - quantity);
      }
  }

  /** Appending an entry for a new symbol adds that one key. */
  lemma BuyNewLedger(p: Holdings, symbol: string, quantity: int)
    requires Find(p, symbol).None?
    ensures Ledger(p + [Holding(symbol, quantity)]) == Ledger(p)[symbol := quantity]
  {
    var h := Holding(symbol, quantity);
    var r := p + [h];
    var m := Ledger(p)[symbol := quantity];
    forall s ensures s in Ledger(r) <==> s in m
      ensures s in m ==> Ledger(r)[s] == m[s]
    {
      FindAppend(p, h, s);
      LedgerIsFirstMatch(p, s);
      LedgerIsFirstMatch(r, s);
      if s != symbol && s in m {
        assert r[Find(p, s).value] == p[Find(p, s).value];
      }
    }
  }

  /** Changing the quantity of the first entry for its symbol changes that one key. */
  lemma ReplaceLedger(p: Holdings, i: nat, v: int)
    requires i < |p| && Find(p, p[i].symbol) == Some(i)
    ensures Ledger(p[i := Holding(p[i].symbol, v)]) == Ledger(p)[p[i].symbol := v]
  {
    var symbol := p[i].symbol;
    var r := p[i := Holding(symbol, v)];
    var m := Ledger(p)[symbol := v];
    forall s ensures s in Ledger(r) <==> s in m
      ensures s in m ==> Ledger(r)[s] == m[s]
    {
      FindSameSymbols(p, r, s);
      LedgerIsFirstMatch(p, s);
      LedgerIsFirstMatch(r, s);
    }
  }

  /** Entries for every other symbol keep their values and their relative order. */
  lemma UpdateKeepsOthers(p: Holdings, symbol: string, quantity: int, side: Side)
    ensures Without(Update(p, symbol, quantity, side), symbol) == Without(p, symbol)
  {
    var r := Update(p, symbol, quantity, side);
    match Find(p, symbol)
    case None =>
      if side == Buy {
        assert r == p + [Holding(symbol, quantity)];
        WithoutAppendSame(p, Holding(symbol, quantity), symbol);
      }
    case Some(i) =>
      if side == Sell && p[i].quantity - quantity <= 0 {
        assert r == Without(p, symbol);
        WithoutTwice(p, symbol);
      } else {
        var v := if side == Buy then p[i].quantity + quantity else p[i].quantity - quantity;
        assert r == p[i := Holding(symbol, v)];
        WithoutReplaceSame(p, i, v, symbol);
      }
  }

  lemma {:induction false} WithoutAppendSame(p: Holdings, h: Holding, symbol: string)
    requires h.symbol == symbol
    ensures Without(p + [h], symbol) == Without(p, symbol)
  {
    if |p| == 0 {
      assert [h][1..] == [];
    } else {
      assert (p + [h])[1..] == p[1..] + [h];
      WithoutAppendSame(p[1..], h, symbol);
    }
  }

  lemma {:induction false} WithoutReplaceSame(p: Holdings, i: nat, v: int, symbol: string)
    requires i < |p| && p[i].symbol == symbol
    ensures Without(p[i := Holding(symbol, v)], symbol) == Without(p, symbol)
  {
    if i > 0 {
      assert p[i := Holding(symbol, v)][1..] == p[1..][i - 1 := Holding(symbol, v)];
      WithoutReplaceSame(p[1..], i - 1, v, symbol);
    } else {
      assert p[i := Holding(symbol, v)][1..] == p[1..];
    }
  }

  lemma {:induction false} WithoutTwice(p: Holdings, symbol: string)
    ensures Without(Without(p, symbol), symbol) == Without(p, symbol)
  {
    if |p| > 0 {
      WithoutTwice(p[1..], symbol);
      if p[0].symbol != symbol {
        var w := Without(p[1..], symbol);
        assert ([p[0]] + w)[1..] == w;
      }
    }
  }

  /** Filtering keeps the entries it keeps in order, so it keeps symbols unique. */
  lemma {:induction false} WithoutKeepsUnique(p: Holdings, symbol: string)
    requires Unique(p)
    ensures Unique(Without(p, symbol))
  {
    if |p| > 0 {
      assert Unique(p[1..]);
      WithoutKeepsUnique(p[1..], symbol);
      if p[0].symbol != symbol {
        var w := Without(p[1..], symbol);
        forall h | h in w ensures h.symbol != p[0].symbol {
          var k :| 0 <= k < |p[1..]| && p[1..][k] == h;
          assert p[k + 1] == h;
        }
        var r := [p[0]] + w;
        forall i, j | 0 <= i < j < |r| ensures r[i].symbol != r[j].symbol {
          if i == 0 {
            assert r[j] == w[j - 1] && r[j] in w;
          } else {
            assert r[i] == w[i - 1] && r[j] == w[j - 1];
          }
        }
      }
    }
  }

  /** `updatePortfolio` never creates a second entry for a symbol. */
  lemma UpdateKeepsUnique(p: Holdings, symbol: string, quantity: int, side: Side)
    requires Unique(p)
    ensures Unique(Update(p, symbol, quantity, side))
  {
    match Find(p, symbol)
    case None =>
    case Some(i) =>
      if side == Sell && p[i].quantity - quantity <= 0 {
        WithoutKeepsUnique(p, symbol);
      }
  }

  /**
   * A buy of a positive quantity, and any sell, leave only entries with a
   * positive number of shares.
   */
  lemma UpdateKeepsPositive(p: Holdings, symbol: string, quantity: int, side: Side)
    requires Positive(p)
    requires side == Buy ==> quantity > 0
    ensures Positive(Update(p, symbol, quantity, side))
  {
    var r := Update(p, symbol, quantity, side);
    match Find(p, symbol)
    case None =>
    case Some(i) =>
      if side == Sell && p[i].quantity - quantity <= 0 {
        assert r == Without(p, symbol);
        forall k | 0 <= k < |r| ensures r[k].quantity > 0 {
          assert r[k] in r;
          var j :| 0 <= j < |p| && p[j] == r[k];
        }
      }
  }

  /** Buying a symbol not yet held appends one entry at the end. */
  lemma BuyNewAppends(p: Holdings, symbol: string, quantity: int)
    requires Find(p, symbol).None?
    ensures Update(p, symbol, quantity, Buy) == p + [Holding(symbol, quantity)]
  {
  }

  /** Buying a held symbol adds to its first entry and keeps the list length and every other entry. */
  lemma BuyHeldAdds(p: Holdings, symbol: string, quantity: int)
    requires Find(p, symbol).Some?
    ensures var r := Update(p, symbol, quantity, Buy);
      var i := Find(p, symbol).value;
      |r| == |p| && r[i] == Holding(symbol, p[i].quantity + quantity)
      && forall k :: 0 <= k < |p| && k != i ==> r[k] == p[k]
  {
  }

  /**
   * Selling a held symbol either keeps the list shape with the first entry
   * reduced, or, once that reaches zero or below, drops every entry for it.
   */
  lemma SellHeld(p: Holdings, symbol: string, quantity: int)
    requires Find(p, symbol).Some?
    ensures var r := Update(p, symbol, quantity, Sell);
      var i := Find(p, symbol).value;
      if p[i].quantity - quantity <= 0 then
        r == Without(p, symbol) && forall k :: 0 <= k < |r| ==> r[k].symbol != symbol
      else
        |r| == |p| && r[i] == Holding(symbol, p[i].quantity - quantity)
        && forall k :: 0 <= k < |p| && k != i ==> r[k] == p[k]
  {
    var r := Update(p, symbol, quantity, Sell);
    var i := Find(p, symbol).value;
    if p[i].quantity - quantity <= 0 {
      forall k | 0 <= k < |r| ensures r[k].symbol != symbol {
        assert r[k] in r;
      }
    }
  }

  /** Selling a symbol that is not held leaves the list as it was. */
  lemma SellAbsentKeeps(p: Holdings, symbol: string, quantity: int)
    requires Find(p, symbol).None?
    ensures Update(p, symbol, quantity, Sell) == p
  {
  }

  lemma {:induction false} WithoutAbsent(p: Holdings, symbol: string)
    requires forall k :: 0 <= k < |p| ==> p[k].symbol != symbol
    ensures Without(p, symbol) == p
  {
    if |p| > 0 {
      WithoutAbsent(p[1..], symbol);
      assert [p[0]] + p[1..] == p;
    }
  }

  /** Buying some shares of a symbol not yet held and then selling the same number restores the list. */
  lemma BuyThenSellRestores(p: Holdings, symbol: string, quantity: int)
    requires Find(p, symbol).None?
    ensures Update(Update(p, symbol, quantity, Buy), symbol, quantity, Sell) == p
  {
    var h := Holding(symbol, quantity);
    var b := p + [h];
    FindAppend(p, h, symbol);
    WithoutAppendSame(p, h, symbol);
    WithoutAbsent(p, symbol);
  }
}

/** The issuer's request to settle a whole asset at a price of its choosing. */
module GlobalSettlement {
  import opened Wrappers
  import opened Prices
  import opened Books
  import opened MarketRules
  import opened MarketSpecs
  import opened Markets
  import opened ForceSettlement

  /**
    The check of the request takes it for granted that an asset with a supply has a position.
    That is so exactly as long as the asset has not been settled.
   */
  lemma PositionExists(b: Books, m: AssetId)
    requires Core(b) && m in b.bitassets && b.Supply(m) > 0
    ensures (exists i <- b.calls :: b.calls[i].DebtType() == m) <==> b.bitassets[m].settlement.None?
  {
    assert BitassetOk(b, m);
    if b.bitassets[m].settlement.None? {
      if forall i <- b.calls :: b.calls[i].DebtType() != m {
        NoCallsNoDebt(b, m);
      }
    } else {
      forall i | i in b.calls
        ensures b.calls[i].DebtType() != m
      {
        assert CallOk(b, i);
      }
    }
  }

  /** The asset has a supply, and its least collateralised position can pay the price. */
  ghost predicate MayGloballySettle(b: Books, m: AssetId, price: Price) {
    && m in b.bitassets && b.Supply(m) > 0
    && LeastOf(b, m).Some? && CanPay(b.calls[LeastOf(b, m).value], price)
  }

  predicate CanPay(c: CallOrder, price: Price) {
    var pays := Times(Asset(c.debt, c.DebtType()), price);
    pays.Some? && pays.value.amount <= c.collateral
  }

  /** Its collateral covers its debt's worth at the price, rounded down. */
  lemma CanPayMeans(c: CallOrder, price: Price)
    requires price.base.id == c.DebtType() && price.base.id != price.quote.id && c.collateral <= MAX_SHARE_SUPPLY
    ensures CanPay(c, price) <==> c.debt * price.quote.amount < (c.collateral + 1) * price.base.amount
  {
    ConversionRounds(Asset(c.debt, c.DebtType()), price);
    var x, b: nat := c.debt * price.quote.amount, price.base.amount;
    if b > 0 {
      FloorIsGreatest(x, b, c.collateral + 1);
      FloorIsGreatest(x, b, MAX_SHARE_SUPPLY + 1);
    }
  }

  ghost function GlobalSettlementOf(b: Books, m: AssetId, price: Price): Option<Books> {
    if MayGloballySettle(b, m, price) then GloballySettled(b, m, price) else None
  }

  /** Settles the asset; a second settlement is refused, as no position is left to check. */
  method GlobalSettle(k: Market, m: AssetId, price: Price) returns (ok: bool)
    requires k.Valid() && (m in k.books.bitassets ==> PriceOf(price, m, k.books.bitassets[m].backing))
    modifies k`books
    ensures GlobalSettlementOf(old(k.books), m, price) == if ok then Some(k.books) else None
    ensures ok ==> k.Valid() && SameGaps(old(k.books), k.books) && k.books.limits == old(k.books).limits
    ensures ok ==> SettledAt(old(k.books), k.books, m, price) && k.books.Supply(m) == old(k.books).Supply(m)
  {
    hide Core, Gap, GloballySettled, CanPay;
    if m !in k.books.bitassets || k.books.Supply(m) <= 0 {
      return false;
    }
    PositionExists(k.books, m);
    var call := LeastCollateralised(k, m);
    if call.None? || !CanPay(k.books.calls[call.value], price) {
      return false;
    }
    ok := k.GloballySettle(m, price);
  }
}

/** When the settling of an order ends, when it throws, and so what a turn of the loop does. */
module SettlementTurns {
  import opened Wrappers
  import opened Prices
  import opened Books
  import opened MarketRules
  import opened MarketSpecs
  import opened Payments
  import opened ForceSettlement
  import opened SettlementPayments

  // ----- one match --------------------------------------------------------------------------

  /** What the position would have to pay for all that it can take is all its collateral or more. */
  predicate CannotPay(c: CallOrder, price: Price, order: nat, volume: nat) {
    var all, q := c.collateral * price.base.amount, price.quote.amount;
    all <= order * q && all <= volume * q && all <= c.debt * q
  }

  lemma LeastExists(b: Books, m: AssetId, id: OrderId)
    requires Core(b) && id in b.calls && b.calls[id].DebtType() == m
    ensures LeastOf(b, m).Some?
  {
    hide Core, Less;
    var keys := map i | i in b.calls && b.calls[i].DebtType() == m :: b.calls[i].Collateralization().Inverse();
    CollateralKeys(b, m, keys);
    assert id in keys;
    var best := FirstExists(keys);
    forall i | i in b.calls && i != best && b.calls[i].DebtType() == m
      ensures Ahead(b.calls[best].Collateralization().Inverse(), best, b.calls[i].Collateralization().Inverse(), i)
    {
      assert i in keys;
    }
    LeastOfIs(b, m, best);
  }

  /** A match throws exactly for a position without collateral, and finds a swan exactly if it cannot pay. */
  lemma MatchMeans(rules: FeeRules, b: Books, call: OrderId, id: OrderId, price: Price, volume: nat)
    requires call in b.calls && b.calls[call].debt > 0 && id in b.settlements && price.base.id != price.quote.id
    requires 0 < b.settlements[id].balance.amount <= price.base.amount && price.quote.amount <= MAX_SHARE_SUPPLY
    ensures var r, c := MatchOf(rules, b, call, id, price, volume), b.calls[call];
      && (r.MatchThrows? <==> c.collateral == 0)
      && (r.MatchSwan? <==> c.collateral > 0 && CannotPay(c, price, b.settlements[id].balance.amount, volume))
  {
    hide Matched;
    var c, order := b.calls[call], b.settlements[id].balance.amount;
    var n, q := MatchAmount(order, volume, c.debt), price.quote.amount;
    ScaleRounds(n, q, price.base.amount);
    WithinMaximum(n, q, price.base.amount);
    FloorIsGreatest(n * q, price.base.amount, c.collateral);
    MulMonotone(n, order, q);
    MulMonotone(n, volume, q);
    MulMonotone(n, c.debt, q);
  }

  lemma WithinMaximum(n: nat, q: nat, base: nat)
    requires n <= base && base > 0 && q <= MAX_SHARE_SUPPLY
    ensures n * q < (MAX_SHARE_SUPPLY + 1) * base
  {
    MulMonotone(n, base, q);
    MulMonotone(q, MAX_SHARE_SUPPLY, base);
    Commutes(base, q);
  }

  // ----- one order --------------------------------------------------------------------------

  ghost predicate AllBacked(b: Books, m: AssetId) {
    forall i <- b.calls :: b.calls[i].DebtType() == m ==> b.calls[i].collateral > 0
  }

  /** The least collateralised position cannot pay for what is left of the order and of the volume. */
  ghost predicate FindsSwan(b: Books, m: AssetId, price: Price, left: nat, volume: nat) {
    exists call :: IsLeastCollateralised(b, m, call) && CannotPay(b.calls[call], price, left, volume)
  }

  /** Settling ends with the volume used, the order taken, or a black swan, which removes the order. */
  ghost predicate EndsFor(b: Books, m: AssetId, id: OrderId, price: Price, left: nat, volume: nat) {
    && (volume == 0 || left == 0 || FindsSwan(b, m, price, left, volume))
    && (id in b.settlements <==> left > 0 && volume == 0)
  }

  /** As long as every position has collateral an order is settled to one of these ends. */
  lemma {:induction false} SettlesToAnEnd(
      rules: FeeRules, start: Books, b: Books, m: AssetId, id: OrderId, price: Price, cap: nat, settled: nat)
    requires SettlingUnderWay(start, b, m, id, settled) && start.bitassets[m].settlement.None?
    requires start.Supply(m) >= 0 && settled <= cap == Cap(start, m)
    requires id in b.settlements && b.settlements[id].balance.id == m
    requires 0 < b.settlements[id].balance.amount <= price.base.amount && price.quote.amount <= MAX_SHARE_SUPPLY
    requires price.base.id != price.quote.id && AllBacked(b, m)
    ensures var r := SettledUpTo(rules, b, m, id, price, cap, settled);
      && r.Some? && settled <= r.value.1 <= cap && r.value.1 - settled <= b.settlements[id].balance.amount
      && EndsFor(r.value.0, m, id, price, b.settlements[id].balance.amount - (r.value.1 - settled), cap - r.value.1)
    decreases cap - settled
  {
    hide SettlingUnderWay, SettledUpTo, MatchOf, CancelSettlement, Matched, Cap, CannotPay, IsLeastCollateralised;
    if settled == cap {
      SettledUpToEnds(rules, b, m, id, price, cap, settled);
    } else {
      var call := CallToMatch(start, b, m, settled, id);
      var volume := cap - settled;
      MatchMeans(rules, b, call, id, price, volume);
      SettledUpToUnfolds(rules, b, m, id, price, cap, settled);
      var r := StepOf(rules, b, m, id, price, volume);
      if r.MatchSwan? {
        Cancels(b, m, id, price, volume, call);
      } else {
        GoesOn(rules, start, b, m, settled, call, id, price, volume);
        if id in r.books.settlements {
          SettlesToAnEnd(rules, start, r.books, m, id, price, cap, settled + r.receives);
        } else {
          SettledUpToEnds(rules, r.books, m, id, price, cap, settled + r.receives);
        }
      }
    }
  }

  lemma CallToMatch(start: Books, b: Books, m: AssetId, settled: nat, id: OrderId) returns (call: OrderId)
    requires SettlingUnderWay(start, b, m, id, settled) && start.bitassets[m].settlement.None?
    requires start.Supply(m) >= 0 && settled < Cap(start, m)
    ensures IsLeastCollateralised(b, m, call) && LeastOf(b, m) == Some(call) && b.calls[call].debt > 0
  {
    AlwaysACall(start, b, m, settled, id);
    var i :| i in b.calls && b.calls[i].DebtType() == m;
    LeastExists(b, m, i);
    call := LeastOf(b, m).value;
    assert CallOk(b, call);
  }

  lemma Cancels(b: Books, m: AssetId, id: OrderId, price: Price, volume: nat, call: OrderId)
    requires id in b.settlements && IsLeastCollateralised(b, m, call) && volume > 0
    requires CannotPay(b.calls[call], price, b.settlements[id].balance.amount, volume)
    ensures EndsFor(CancelSettlement(b, id), m, id, price, b.settlements[id].balance.amount, volume)
  {
    hide CannotPay;
    var b' := CancelSettlement(b, id);
    CancelSettlementPays(b, id);
    assert b'.calls == b.calls;
    assert IsLeastCollateralised(b', m, call);
  }

  /** A match that fills goes on with what is left, and every position still has collateral. */
  lemma GoesOn(
      rules: FeeRules, start: Books, b: Books, m: AssetId, settled: nat, call: OrderId, id: OrderId, price: Price,
      volume: nat)
    requires SettlingUnderWay(start, b, m, id, settled) && AllBacked(b, m)
    requires call in b.calls && b.calls[call].DebtType() == m && id in b.settlements
    requires b.settlements[id].balance.id == m && MatchOf(rules, b, call, id, price, volume).MatchFills?
    ensures var r, s := MatchOf(rules, b, call, id, price, volume), b.settlements[id];
      && SettlingUnderWay(start, r.books, m, id, settled + r.receives) && AllBacked(r.books, m)
      && r.receives <= s.balance.amount && (id in r.books.settlements <==> r.receives < s.balance.amount)
      && (id in r.books.settlements ==>
            r.books.settlements[id].balance == Asset(s.balance.amount - r.receives, s.balance.id))
  {
    hide SettlingUnderWay, Matched, Times;
    FillsGoOn(rules, start, b, m, settled, call, id, price, volume);
    var n := MatchAmount(b.settlements[id].balance.amount, volume, b.calls[call].debt);
    var paid := Times(Asset(n, price.base.id), price).value.amount;
    MatchedOrder(rules, b, call, id, paid, n);
    MatchedCalls(rules, b, call, id, paid, n);
  }

  lemma MatchedCalls(rules: FeeRules, b: Books, call: OrderId, id: OrderId, paid: nat, receives: nat)
    requires call in b.calls && id in b.settlements && paid <= b.calls[call].collateral
    requires receives <= b.calls[call].debt && receives <= b.settlements[id].balance.amount
    ensures var c, calls := b.calls[call], Matched(rules, b, call, id, paid, receives).calls;
      calls == if receives == c.debt then b.calls - {call}
               else b.calls[call := c.(debt := c.debt - receives, collateral := c.collateral - paid)]
  {
    hide FillCall, FillSettlement;
    FillCallFrame(b, call, paid, receives);
    FillCallLeaves(b, call, paid, receives);
    FillSettlementFrame(rules, FillCall(b, call, paid, receives), id, receives,
      Asset(paid, b.calls[call].CollateralType()));
  }

  /** A position without collateral is the least collateralised one, and the first match throws. */
  lemma BareThrows(
      rules: FeeRules, b: Books, m: AssetId, id: OrderId, price: Price, cap: nat, settled: nat, bare: OrderId)
    requires Core(b) && bare in b.calls && b.calls[bare].DebtType() == m && b.calls[bare].collateral == 0
    requires id in b.settlements && b.settlements[id].balance.amount > 0 && settled < cap
    ensures SettledUpTo(rules, b, m, id, price, cap, settled).None?
  {
    hide CancelSettlement, Matched, Times;
    LeastExists(b, m, bare);
    var call := LeastOf(b, m).value;
    LeastIsLowest(b, m, call);
    assert CallOk(b, bare);
    if b.calls[call].collateral > 0 {
      MulMonotone(1, b.calls[call].collateral, b.calls[bare].debt);
    }
    SettledUpToUnfolds(rules, b, m, id, price, cap, settled);
  }

  // ----- one turn ---------------------------------------------------------------------------

  /** The order is due, and its asset has a feed and volume left to settle it. */
  ghost predicate IsOpen(b: Books, id: OrderId, now: nat)
    requires id in b.settlements && b.settlements[id].balance.id in b.bitassets
  {
    var m := b.settlements[id].balance.id;
    var x := b.bitassets[m];
    b.settlements[id].date <= now && x.settlement.None? && x.feed.Some? && x.forceSettled < Cap(b, m)
  }

  /** The settling of an order throws for a worth above the maximum supply, and for a position without collateral. */
  ghost predicate CannotSettle(b: Books, s: Settlement)
    requires s.balance.id in b.bitassets && b.bitassets[s.balance.id].feed.Some?
  {
    var feed := b.bitassets[s.balance.id].feed.value.settlementPrice;
    || s.balance.amount * feed.quote.amount >= (MAX_SHARE_SUPPLY + 1) * feed.base.amount
    || !AllBacked(b, s.balance.id)
  }

  /** An order that waits is not due or has no volume; one in a settled asset or due without a feed is paid back. */
  lemma WaitsOrIsPaidBack(rules: FeeRules, b: Books, id: OrderId, now: nat)
    requires id in b.settlements && b.settlements[id].balance.id in b.bitassets
    ensures var turn, s := TurnOf(rules, b, id, now), b.settlements[id]; var x := b.bitassets[s.balance.id];
      && (turn.Waits? <==> x.settlement.None? && !IsOpen(b, id, now) && (x.feed.Some? || s.date > now))
      && (x.settlement.Some? || (x.feed.None? && s.date <= now) ==>
            && turn.Acted? && turn.books.settlements == b.settlements - {id}
            && turn.books == b.(balances := turn.books.balances, settlements := turn.books.settlements)
            && forall y, a :: turn.books.Balance(y, a) ==
                              b.Balance(y, a) + At(y, a, s.owner, s.balance.id, s.balance.amount))
  {
    hide SettledAtFeed, CancelSettlement;
    CancelSettlementPays(b, id);
  }

  /**
    Any other order is settled at the feed's price less the offset, to its end; every balance
    gains exactly what its matches bring. The turn throws exactly if it cannot be settled.
   */
  lemma OpenOrderSettles(rules: FeeRules, b: Books, id: OrderId, now: nat) returns (fills: seq<Fill>)
    requires Core(b) && id in b.settlements && b.settlements[id].balance.amount > 0
    requires b.settlements[id].balance.id in b.bitassets && IsOpen(b, id, now)
    ensures TurnOf(rules, b, id, now).Threw? <==> CannotSettle(b, b.settlements[id])
    ensures !TurnOf(rules, b, id, now).Threw? ==>
      var turn, order := TurnOf(rules, b, id, now), b.settlements[id].balance;
      var x, cap := b.bitassets[order.id], Cap(b, order.id);
      && turn.Acted? && SettlementPrice(x, order).Some? && order.id in turn.books.bitassets
      && var price, b', taken := SettlementPrice(x, order).value, turn.books, Received(fills);
      && b'.bitassets[order.id].forceSettled == x.forceSettled + taken <= cap && taken <= order.amount
      && SettlesBy(rules, b, b', id, price, fills)
      && EndsFor(b', order.id, id, price, order.amount - taken, cap - x.forceSettled - taken)
  {
    hide SettledUpTo, SettlesBy, EndsFor, Core, Received, SettlementPrice, Stored, SettlingUnderWay;
    var order := b.settlements[id].balance;
    var m, x, cap := order.id, b.bitassets[order.id], Cap(b, order.id);
    fills := [];
    PriceMeans(b, m, order);
    SupplyNonNegative(b, m);
    SettlingStarts(b, m, id);
    var price := SettlementPrice(x, order);
    if price.Some? {
      if AllBacked(b, m) {
        SettlesToAnEnd(rules, b, b, m, id, price.value, cap, x.forceSettled);
        fills := SettledAtFeedPays(rules, b, id, cap);
        SettledIsNoted(rules, b, id, cap);
        var r := SettledUpTo(rules, b, m, id, price.value, cap, x.forceSettled).value;
        StoredEnds(r.0, m, r.1, id, price.value, order.amount - (r.1 - x.forceSettled), cap - r.1);
      } else {
        var bare :| bare in b.calls && b.calls[bare].DebtType() == m && b.calls[bare].collateral == 0;
        BareThrows(rules, b, m, id, price.value, cap, x.forceSettled, bare);
      }
    }
  }

  /** The price exists exactly if the order's worth is within the maximum supply. */
  lemma PriceMeans(b: Books, m: AssetId, order: Asset)
    requires Core(b) && m in b.bitassets && b.bitassets[m].feed.Some? && order.id == m
    ensures var feed, price := b.bitassets[m].feed.value.settlementPrice, SettlementPrice(b.bitassets[m], order);
      && (price.Some? <==> order.amount * feed.quote.amount < (MAX_SHARE_SUPPLY + 1) * feed.base.amount)
      && (price.Some? ==> price.value.base == order && price.value.quote.id != m
                          && price.value.quote.amount <= MAX_SHARE_SUPPLY)
  {
    assert BitassetOk(b, m);
    var x := b.bitassets[m];
    ConversionRounds(order, x.feed.value.settlementPrice);
    if SettlementPrice(x, order).Some? {
      OffsetIsCut(x, order);
    }
  }

  /** Noting the volume changes nothing of how the settling ended. */
  lemma StoredEnds(b: Books, m: AssetId, settled: nat, id: OrderId, price: Price, left: nat, volume: nat)
    requires m in b.bitassets && EndsFor(b, m, id, price, left, volume)
    ensures m in Stored(b, m, settled).bitassets && Stored(b, m, settled).bitassets[m].forceSettled == settled
    ensures EndsFor(Stored(b, m, settled), m, id, price, left, volume)
  {
    hide CannotPay;
    var b' := Stored(b, m, settled);
    assert b'.calls == b.calls && b'.settlements == b.settlements;
    if FindsSwan(b, m, price, left, volume) {
      var call :| IsLeastCollateralised(b, m, call) && CannotPay(b.calls[call], price, left, volume);
      assert IsLeastCollateralised(b', m, call);
    }
  }
}

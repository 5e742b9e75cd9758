/**
  Who is paid what: the change of every balance by fills, cancellations and trades, and from
  those by whole rounds of matching, margin calls and global settlement.
 */
module Payments {
  import opened Wrappers
  import opened Prices
  import opened Sums
  import opened Books
  import opened MarketRules
  import opened MarketSpecs

  // ----- single steps -----------------------------------------------------------------------

  /** The amount, where this balance is the one that it belongs to. */
  function At(x: AccountId, a: AssetId, account: AccountId, id: AssetId, amount: int): int {
    if x == account && a == id then amount else 0
  }

  lemma CreditPays(b: Books, account: AccountId, id: AssetId, delta: int)
    requires b.Balance(account, id) + delta >= 0
    ensures forall x, a :: Credit(b, account, id, delta).Balance(x, a) == b.Balance(x, a) + At(x, a, account, id, delta)
  {}

  /** A cancelled order gives back what it still offers, and its fee. */
  lemma CancelLimitPays(b: Books, id: OrderId)
    requires id in b.limits
    ensures var o := b.limits[id];
      forall x, a :: CancelLimit(b, id).Balance(x, a) ==
        b.Balance(x, a) + At(x, a, o.seller, o.price.base.id, o.forSale) + At(x, a, o.seller, CORE, o.deferredFee)
    ensures var b' := CancelLimit(b, id);
      b'.limits == b.limits - {id} && b' == b.(balances := b'.balances, limits := b'.limits)
  {}

  /**
    Whatever a limit order receives goes to its seller, less the market fee. If what is left of
    it is culled that goes back to the seller too; nobody else is paid anything.
   */
  lemma FillLimitPays(rules: FeeRules, b: Books, id: OrderId, pays: nat, receives: nat, cull: bool)
    requires id in b.limits && pays <= b.limits[id].forSale && b.limits[id].price.Positive()
    ensures var o, b' := b.limits[id], FillLimit(rules, b, id, pays, receives, cull);
      var fee, left := MarketFee(rules, o.price.quote.id, receives), o.forSale - pays;
      var culled := cull && left * o.price.quote.amount < o.price.base.amount;
      && (forall x, a :: b'.Balance(x, a) ==
            b.Balance(x, a) + At(x, a, o.seller, o.price.quote.id, receives - fee)
            + At(x, a, o.seller, o.price.base.id, if culled then left else 0))
      && (forall a :: b'.Fees(a) == b.Fees(a) + (if a == o.price.quote.id then fee else 0))
      && b'.pendingFees == b.pendingFees + o.deferredFee
    ensures var o, left := b.limits[id], b.limits[id].forSale - pays;
      FillLimit(rules, b, id, pays, receives, cull).limits ==
      if left == 0 || (cull && left * o.price.quote.amount < o.price.base.amount) then b.limits - {id}
      else b.limits[id := o.(forSale := left, deferredFee := 0)]
  {
    hide PayFromLimit, CullIfSmall, Receive;
    var o := b.limits[id];
    var b1 := Receive(rules, b, o.seller, o.price.quote.id, receives);
    ReceivePays(rules, b, o.seller, o.price.quote.id, receives);
    var b2 := PayFromLimit(b1, id, pays);
    FeeFallsDue(b1, id, pays);
    if cull {
      CullPaysBack(b2, id);
    }
  }

  /** Taking out what was paid touches no balance; the deferred fee becomes a pending one. */
  lemma FeeFallsDue(b: Books, id: OrderId, pays: nat)
    requires id in b.limits && pays <= b.limits[id].forSale
    ensures var o, b' := b.limits[id], PayFromLimit(b, id, pays);
      && b'.balances == b.balances && b'.fees == b.fees && b'.pendingFees == b.pendingFees + o.deferredFee
      && b'.limits == (if pays == o.forSale then b.limits - {id}
                       else b.limits[id := o.(forSale := o.forSale - pays, deferredFee := 0)])
  {
    var o := b.limits[id];
    if pays == o.forSale {
      assert PayFromLimit(b, id, pays).limits == b.limits - {id};
    } else {
      assert PayFromLimit(b, id, pays).limits[id] == o.(forSale := o.forSale - pays, deferredFee := 0);
    }
  }

  predicate AsksForNothing(o: LimitOrder) {
    o.forSale * o.price.quote.amount < o.price.base.amount
  }

  /** A cull pays back a remainder that asks for nothing, with the fee that it still carries. */
  lemma CullPaysBack(b: Books, id: OrderId)
    requires id in b.limits ==> b.limits[id].price.Positive()
    ensures var b' := CullIfSmall(b, id);
      && b'.fees == b.fees && b'.pendingFees == b.pendingFees
      && if id in b.limits && AsksForNothing(b.limits[id]) then
           var o := b.limits[id];
           forall x, a :: b'.Balance(x, a) ==
             b.Balance(x, a) + At(x, a, o.seller, o.price.base.id, o.forSale) + At(x, a, o.seller, CORE, o.deferredFee)
         else b' == b
    ensures CullIfSmall(b, id).limits ==
            if id in b.limits && AsksForNothing(b.limits[id]) then b.limits - {id} else b.limits
  {
    hide CancelLimit;
    if id in b.limits {
      WorthNothing(b.limits[id].forSale, b.limits[id].price);
      CancelLimitPays(b, id);
      CancelLimitFees(b, id);
    }
  }

  lemma CancelLimitFees(b: Books, id: OrderId)
    requires id in b.limits
    ensures CancelLimit(b, id).fees == b.fees && CancelLimit(b, id).pendingFees == b.pendingFees
  {}

  lemma WorthNothing(amount: nat, price: Price)
    requires price.Positive()
    ensures amount * price.quote.amount / price.base.amount == 0 <==> amount * price.quote.amount < price.base.amount
  {
    FloorIsGreatest(amount * price.quote.amount, price.base.amount, 1);
  }

  lemma ReceivePays(rules: FeeRules, b: Books, account: AccountId, id: AssetId, amount: nat)
    ensures var fee, b' := MarketFee(rules, id, amount), Receive(rules, b, account, id, amount);
      && (forall x, a :: b'.Balance(x, a) == b.Balance(x, a) + At(x, a, account, id, amount - fee))
      && (forall a :: b'.Fees(a) == b.Fees(a) + (if a == id then fee else 0))
      && b' == b.(balances := b'.balances, fees := b'.fees)
  {}

  /** A position without debt is closed: the collateral that is left goes back to the borrower. */
  lemma FillCallPays(b: Books, id: OrderId, pays: nat, receives: nat)
    requires id in b.calls && pays <= b.calls[id].collateral && receives <= b.calls[id].debt
    ensures var c := b.calls[id];
      var freed := if receives == c.debt then c.collateral - pays else 0;
      forall x, a :: FillCall(b, id, pays, receives).Balance(x, a) ==
        b.Balance(x, a) + At(x, a, c.borrower, c.CollateralType(), freed)
  {
    var c, b1 := b.calls[id], AddSupply(b, b.calls[id].DebtType(), 0 - receives);
    assert b1.calls == b.calls && b1.balances == b.balances;
    if receives == c.debt {
      CreditPays(b1, c.borrower, c.CollateralType(), c.collateral - pays);
    }
  }

  /** It takes what it pays off the collateral and what it receives off debt and supply, and nothing else. */
  lemma FillCallLeaves(b: Books, id: OrderId, pays: nat, receives: nat)
    requires id in b.calls && pays <= b.calls[id].collateral && receives <= b.calls[id].debt
    ensures var c, b' := b.calls[id], FillCall(b, id, pays, receives);
      && b'.calls == (if receives == c.debt then b.calls - {id}
                      else b.calls[id := c.(debt := c.debt - receives, collateral := c.collateral - pays)])
      && (forall a :: b'.Supply(a) == b.Supply(a) - (if a == c.DebtType() then receives else 0))
      && b' == b.(balances := b'.balances, calls := b'.calls, supply := b'.supply)
  {
    hide Credit;
    var c, b1 := b.calls[id], AddSupply(b, b.calls[id].DebtType(), 0 - receives);
    var b' := FillCall(b, id, pays, receives);
    assert b1 == b.(supply := b1.supply);
    if receives == c.debt {
      var b2 := Credit(b1, c.borrower, c.CollateralType(), c.collateral - pays);
      CreditTouchesBalances(b1, c.borrower, c.CollateralType(), c.collateral - pays);
      assert b' == b2.(calls := b.calls - {id});
    } else {
      assert b' == b1.(calls := b.calls[id := c.(debt := c.debt - receives, collateral := c.collateral - pays)]);
    }
  }

  lemma CreditTouchesBalances(b: Books, account: AccountId, id: AssetId, delta: int)
    requires b.Balance(account, id) + delta >= 0
    ensures Credit(b, account, id, delta) == b.(balances := Credit(b, account, id, delta).balances)
  {}

  /** What a settlement order receives goes to its owner, less the market fee. */
  lemma FillSettlementPays(rules: FeeRules, b: Books, id: OrderId, pays: nat, receives: Asset)
    requires id in b.settlements
    ensures var s, fee := b.settlements[id], MarketFee(rules, receives.id, receives.amount);
      forall x, a :: FillSettlement(rules, b, id, pays, receives).Balance(x, a) ==
        b.Balance(x, a) + At(x, a, s.owner, receives.id, receives.amount - fee)
  {
    ReceivePays(rules, b, b.settlements[id].owner, receives.id, receives.amount);
  }

  /** It takes what it pays off its balance, and adds its market fee to the fees, and nothing else. */
  lemma FillSettlementLeaves(rules: FeeRules, b: Books, id: OrderId, pays: nat, receives: Asset)
    requires id in b.settlements && pays <= b.settlements[id].balance.amount
    ensures var s, b' := b.settlements[id], FillSettlement(rules, b, id, pays, receives);
      var fee, left: nat := MarketFee(rules, receives.id, receives.amount), s.balance.amount - pays;
      && (forall a :: b'.Fees(a) == b.Fees(a) + (if a == receives.id then fee else 0))
      && b'.settlements == (if left == 0 then b.settlements - {id}
                            else b.settlements[id := s.(balance := Asset(left, s.balance.id))])
      && b' == b.(balances := b'.balances, fees := b'.fees, settlements := b'.settlements)
  {
    hide Receive, MarketFee;
    var s, b' := b.settlements[id], FillSettlement(rules, b, id, pays, receives);
    var b1 := Receive(rules, b, s.owner, receives.id, receives.amount);
    ReceivePays(rules, b, s.owner, receives.id, receives.amount);
    if pays < s.balance.amount {
      assert b' == b1.(settlements := b.settlements[id := s.(balance := Asset(s.balance.amount - pays, s.balance.id))]);
    } else {
      assert b' == b1.(settlements := b.settlements - {id});
    }
  }

  lemma CancelSettlementPays(b: Books, id: OrderId)
    requires id in b.settlements
    ensures var s := b.settlements[id];
      forall x, a :: CancelSettlement(b, id).Balance(x, a) ==
        b.Balance(x, a) + At(x, a, s.owner, s.balance.id, s.balance.amount)
    ensures var b' := CancelSettlement(b, id);
      b'.settlements == b.settlements - {id} && b' == b.(balances := b'.balances, settlements := b'.settlements)
  {}

  lemma CancelBidPays(b: Books, id: OrderId)
    requires id in b.bids
    ensures var bid := b.bids[id];
      forall x, a :: CancelBid(b, id).Balance(x, a) ==
        b.Balance(x, a) + At(x, a, bid.bidder, bid.invSwanPrice.base.id, bid.invSwanPrice.base.amount)
    ensures var b' := CancelBid(b, id); b'.bids == b.bids - {id} && b' == b.(balances := b'.balances, bids := b'.bids)
  {}

  /** An order enters if its seller has both the fee and, besides, what it offers; both leave the seller. */
  lemma EnteredPays(b: Books, o: LimitOrder, id: OrderId)
    ensures CanEnter(b, o) <==>
      && o.deferredFee <= b.Balance(o.seller, CORE)
      && o.forSale + (if o.price.base.id == CORE then o.deferredFee else 0) <= b.Balance(o.seller, o.price.base.id)
    ensures CanEnter(b, o) ==>
      forall x, a :: Entered(b, o, id).Balance(x, a) ==
        b.Balance(x, a) - At(x, a, o.seller, CORE, o.deferredFee) - At(x, a, o.seller, o.price.base.id, o.forSale)
    ensures CanEnter(b, o) ==>
      var b' := Entered(b, o, id);
      b'.limits == b.limits[id := o] && b' == b.(balances := b'.balances, limits := b'.limits)
  {}

  // ----- lists of receipts --------------------------------------------------------------------

  datatype Receipt = Receipt(account: AccountId, asset: AssetId, amount: nat)

  /** What a balance gains by the receipts. */
  ghost function Gained(receipts: seq<Receipt>, x: AccountId, a: AssetId): nat {
    if receipts == [] then 0
    else
      var r := receipts[0];
      (if r.account == x && r.asset == a then r.amount else 0) + Gained(receipts[1..], x, a)
  }

  lemma {:induction false} GainedByBoth(s: seq<Receipt>, t: seq<Receipt>, x: AccountId, a: AssetId)
    ensures Gained(s + t, x, a) == Gained(s, x, a) + Gained(t, x, a)
  {
    if s == [] {
      assert s + t == t;
    } else {
      assert (s + t)[0] == s[0] && (s + t)[1..] == s[1..] + t;
      GainedByBoth(s[1..], t, x, a);
    }
  }

  /** From `b` to `b'` the balances gain exactly these receipts. */
  ghost predicate Pays(b: Books, b': Books, receipts: seq<Receipt>) {
    forall x, a :: b'.Balance(x, a) == b.Balance(x, a) + Gained(receipts, x, a)
  }

  lemma PaysBoth(b: Books, b1: Books, b2: Books, s: seq<Receipt>, t: seq<Receipt>)
    requires Pays(b, b1, s) && Pays(b1, b2, t)
    ensures Pays(b, b2, s + t)
  {
    forall x, a
      ensures b2.Balance(x, a) == b.Balance(x, a) + Gained(s + t, x, a)
    {
      GainedByBoth(s, t, x, a);
    }
  }

  lemma PaysNothing(b: Books)
    ensures Pays(b, b, [])
  {}

  lemma GainedByOne(r: Receipt, x: AccountId, a: AssetId)
    ensures Gained([r], x, a) == At(x, a, r.account, r.asset, r.amount)
  {
    assert [r][1..] == [];
  }

  lemma GainedByTwo(r: Receipt, s: Receipt, x: AccountId, a: AssetId)
    ensures Gained([r, s], x, a) == At(x, a, r.account, r.asset, r.amount) + At(x, a, s.account, s.asset, s.amount)
  {
    assert [r, s][1..] == [s];
    GainedByOne(s, x, a);
  }

  // ----- trades -------------------------------------------------------------------------------

  /** What the seller of a limit order gains by a fill. */
  function FillReceipts(rules: FeeRules, o: LimitOrder, pays: nat, receives: nat, cull: bool): seq<Receipt>
    requires pays <= o.forSale
  {
    var left := o.forSale - pays;
    [Receipt(o.seller, o.price.quote.id, receives - MarketFee(rules, o.price.quote.id, receives)),
     Receipt(o.seller, o.price.base.id, if cull && left * o.price.quote.amount < o.price.base.amount then left else 0)]
  }

  lemma FillLimitGains(rules: FeeRules, b: Books, id: OrderId, pays: nat, receives: nat, cull: bool)
    requires id in b.limits && pays <= b.limits[id].forSale && b.limits[id].price.Positive()
    ensures
      Pays(b, FillLimit(rules, b, id, pays, receives, cull), FillReceipts(rules, b.limits[id], pays, receives, cull))
  {
    hide FillLimit;
    FillLimitPays(rules, b, id, pays, receives, cull);
    var receipts := FillReceipts(rules, b.limits[id], pays, receives, cull);
    forall x, a {
      GainedByTwo(receipts[0], receipts[1], x, a);
    }
  }

  /** Taker and maker each gain what the other pays, and the maker what is culled of its order. */
  function TradeReceipts(rules: FeeRules, taker: LimitOrder, maker: LimitOrder, t: Trade): seq<Receipt>
    requires t.pays <= taker.forSale && t.receives <= maker.forSale
  {
    FillReceipts(rules, taker, t.pays, t.receives, false) + FillReceipts(rules, maker, t.receives, t.pays, true)
  }

  lemma TradedPays(rules: FeeRules, b: Books, taker: OrderId, maker: OrderId, t: Trade)
    requires LimitsOk(b.limits) && taker in b.limits && maker in b.limits && taker != maker
    requires t.pays <= b.limits[taker].forSale && t.receives <= b.limits[maker].forSale
    ensures Pays(b, Traded(rules, b, taker, maker, t), TradeReceipts(rules, b.limits[taker], b.limits[maker], t))
  {
    hide FillLimit, Pays;
    var b1 := FillLimit(rules, b, taker, t.pays, t.receives, false);
    FillLimitBook(rules, b, taker, t.pays, t.receives, false);
    FillLimitGains(rules, b, taker, t.pays, t.receives, false);
    FillLimitGains(rules, b1, maker, t.receives, t.pays, true);
    PaysBoth(b, b1, Traded(rules, b, taker, maker, t), FillReceipts(rules, b.limits[taker], t.pays, t.receives, false),
      FillReceipts(rules, b.limits[maker], t.receives, t.pays, true));
  }

  /** What the borrower of a position gains when it is filled. */
  function FreedReceipts(c: CallOrder, pays: nat, receives: nat): seq<Receipt>
    requires pays <= c.collateral
  {
    [Receipt(c.borrower, c.CollateralType(), if receives == c.debt then c.collateral - pays else 0)]
  }

  lemma FillCallGains(b: Books, id: OrderId, pays: nat, receives: nat)
    requires id in b.calls && pays <= b.calls[id].collateral && receives <= b.calls[id].debt
    ensures Pays(b, FillCall(b, id, pays, receives), FreedReceipts(b.calls[id], pays, receives))
  {
    hide FillCall;
    FillCallPays(b, id, pays, receives);
    forall x, a {
      GainedByOne(FreedReceipts(b.calls[id], pays, receives)[0], x, a);
    }
  }

  /** The seller gains what a called position pays, and the borrower what is left once it has no debt. */
  function CallReceipts(rules: FeeRules, c: CallOrder, o: LimitOrder, t: Trade): seq<Receipt>
    requires t.pays <= c.collateral && t.receives <= o.forSale
  {
    FreedReceipts(c, t.pays, t.receives) + FillReceipts(rules, o, t.receives, t.pays, true)
  }

  lemma CalledPays(rules: FeeRules, b: Books, call: OrderId, limit: OrderId, t: Trade)
    requires call in b.calls && t.pays <= b.calls[call].collateral && t.receives <= b.calls[call].debt
    requires LimitsOk(b.limits) && limit in b.limits && t.receives <= b.limits[limit].forSale
    ensures
      Pays(b, Called(rules, b, call, limit, t.pays, t.receives), CallReceipts(rules, b.calls[call], b.limits[limit], t))
  {
    hide FillCall, FillLimit, Pays;
    var b1 := FillCall(b, call, t.pays, t.receives);
    FillCallFrame(b, call, t.pays, t.receives);
    FillCallGains(b, call, t.pays, t.receives);
    FillLimitGains(rules, b1, limit, t.receives, t.pays, true);
    PaysBoth(b, b1, Called(rules, b, call, limit, t.pays, t.receives), FreedReceipts(b.calls[call], t.pays, t.receives),
      FillReceipts(rules, b.limits[limit], t.receives, t.pays, true));
  }

  // ----- global settlement --------------------------------------------------------------------

  /**
    A position that is closed at a price pays the worth of its debt, rounded down, or all its
    collateral if that is less.
   */
  lemma ClosingPaymentIsTheWorth(c: CallOrder, p: Price)
    requires c.DebtType() == p.base.id && p.base.id != p.quote.id && ClosingPayment(c, p).Some?
    ensures var pays := ClosingPayment(c, p).value;
      && pays <= c.collateral && pays * p.base.amount <= c.debt * p.quote.amount
      && (pays == c.collateral || c.debt * p.quote.amount < (pays + 1) * p.base.amount)
  {
    ConversionRounds(Asset(c.debt, c.DebtType()), p);
    var worth := Times(Asset(c.debt, c.DebtType()), p).value.amount;
    if worth > c.collateral {
      MulMonotone(c.collateral, worth, p.base.amount);
    }
  }

  /** What the borrowers gain when all positions of the asset are closed, first in the index first. */
  ghost function SettlementReceipts(b: Books, m: AssetId, p: Price): seq<Receipt>
    decreases b.calls.Keys
  {
    var id := FirstCallOf(b, m);
    if id.None? || ClosingPayment(b.calls[id.value], p).None? then []
    else
      var c := b.calls[id.value];
      var pays := ClosingPayment(c, p).value;
      ClosedCall(b, id.value, pays);
      FreedReceipts(c, pays, c.debt) + SettlementReceipts(FillCall(b, id.value, pays, c.debt), m, p)
  }

  lemma {:induction false} CloseAllPays(b: Books, m: AssetId, p: Price, gathered: nat)
    requires CloseAll(b, m, p, gathered).Some?
    ensures Pays(b, CloseAll(b, m, p, gathered).value.0, SettlementReceipts(b, m, p))
    decreases b.calls.Keys
  {
    hide FillCall, Pays, ClosingPayment;
    var id := FirstCallOf(b, m);
    if id.None? {
      PaysNothing(b);
    } else {
      var c := b.calls[id.value];
      var pays := ClosingPayment(c, p).value;
      PaymentWithinCollateral(c, p);
      ClosedCall(b, id.value, pays);
      var b1 := FillCall(b, id.value, pays, c.debt);
      FillCallGains(b, id.value, pays, c.debt);
      CloseAllPays(b1, m, p, gathered + pays);
      PaysBoth(b, b1, CloseAll(b1, m, p, gathered + pays).value.0, FreedReceipts(c, pays, c.debt),
        SettlementReceipts(b1, m, p));
    }
  }

  /** What closing one position of the asset frees for this balance. */
  ghost function FreedIn(m: AssetId, p: Price, x: AccountId, a: AssetId): (OrderId, CallOrder) -> int {
    (id: OrderId, c: CallOrder) =>
      if c.DebtType() == m && c.borrower == x && c.CollateralType() == a && ClosingPayment(c, p).Some?
      then c.collateral - ClosingPayment(c, p).value else 0
  }

  lemma {:induction false} SettlementFrees(b: Books, m: AssetId, p: Price, x: AccountId, a: AssetId)
    requires Core(b) && CloseAll(b, m, p, 0).Some?
    ensures Gained(SettlementReceipts(b, m, p), x, a) == SumBy(b.calls, FreedIn(m, p, x, a))
    decreases b.calls.Keys
  {
    hide Core, FillCall, ClosingPayment, SumBy;
    ClosesUnlessOneThrows(b, m, p, 0);
    var id := FirstCallOf(b, m);
    if id.None? {
      forall i | i in b.calls
        ensures b.calls[i].DebtType() != m
      {
        if b.calls[i].DebtType() == m {
          FirstCallExists(b, m, i);
        }
      }
      SumZero(b.calls, FreedIn(m, p, x, a));
    } else {
      var c := b.calls[id.value];
      var pays := ClosingPayment(c, p).value;
      PaymentWithinCollateral(c, p);
      ClosedCall(b, id.value, pays);
      FillCallKeepsCore(b, id.value, pays, c.debt);
      var b1 := FillCall(b, id.value, pays, c.debt);
      StillCloses(b, b1, m, p, id.value);
      SettlementFrees(b1, m, p, x, a);
      SumWithout(b.calls, FreedIn(m, p, x, a), id.value);
      GainedByBoth(FreedReceipts(c, pays, c.debt), SettlementReceipts(b1, m, p), x, a);
      GainedByOne(FreedReceipts(c, pays, c.debt)[0], x, a);
    }
  }

  lemma StillCloses(b: Books, b1: Books, m: AssetId, p: Price, id: OrderId)
    requires Core(b) && Core(b1) && CloseAll(b, m, p, 0).Some? && id in b.calls && b1.calls == b.calls - {id}
    ensures CloseAll(b1, m, p, 0).Some?
  {
    hide Core, FillCall, ClosingPayment, CloseAll;
    ClosesUnlessOneThrows(b, m, p, 0);
    ClosesUnlessOneThrows(b1, m, p, 0);
  }

  lemma SettlingPays(b: Books, m: AssetId, p: Price)
    requires m in b.bitassets && GloballySettled(b, m, p).Some?
    ensures Pays(b, GloballySettled(b, m, p).value, SettlementReceipts(b, m, p))
  {
    hide CloseAll, SettlementReceipts;
    CloseAllPays(b, m, p, 0);
  }

  /** A settlement pays every borrower the collateral that the closing of its positions leaves, and nobody else. */
  lemma SettledPays(b: Books, m: AssetId, p: Price)
    requires Core(b) && m in b.bitassets && GloballySettled(b, m, p).Some?
    ensures Pays(b, GloballySettled(b, m, p).value, SettlementReceipts(b, m, p))
    ensures forall x, a :: GloballySettled(b, m, p).value.Balance(x, a) ==
              b.Balance(x, a) + SumBy(b.calls, FreedIn(m, p, x, a))
  {
    hide Core, CloseAll, SumBy, FreedIn;
    SettlingPays(b, m, p);
    forall x, a
      ensures Gained(SettlementReceipts(b, m, p), x, a) == SumBy(b.calls, FreedIn(m, p, x, a))
    {
      SettlementFrees(b, m, p, x, a);
    }
  }

  // ----- matching -----------------------------------------------------------------------------

  /** What all trades of an order with the makers that it meets pay. */
  ghost function MatchReceipts(rules: FeeRules, b: Books, id: OrderId): seq<Receipt>
    requires LimitsOk(b.limits)
    decreases b.limits.Keys
  {
    if exists maker :: IsBestMaker(b, id, maker) then
      var maker :| IsBestMaker(b, id, maker);
      var o, other, b' := b.limits[id], b.limits[maker], BestTrade(rules, b, id, maker);
      if b'.None? then []
      else
        MatchIsSound(o.forSale, other.forSale, other.price, o.price);
        TradeReceipts(rules, o, other, MatchTrade(o.forSale, other.forSale, other.price).value) +
        (if id in b'.value.limits && maker !in b'.value.limits then MatchReceipts(rules, b'.value, id) else [])
    else []
  }

  lemma {:induction false} MatchAllPays(rules: FeeRules, b: Books, id: OrderId)
    requires LimitsOk(b.limits) && MatchAll(rules, b, id).Some?
    ensures Pays(b, MatchAll(rules, b, id).value, MatchReceipts(rules, b, id))
    decreases b.limits.Keys
  {
    hide Pays, Traded, IsBestMaker, MatchAll, TradeReceipts;
    if exists maker :: IsBestMaker(b, id, maker) {
      var maker := MatchReceiptsUnfold(rules, b, id);
      MatchAllTrades(rules, b, id, maker);
      var b1 := BestTrade(rules, b, id, maker).value;
      var first := BestTradePays(rules, b, id, maker);
      if id in b1.limits && maker !in b1.limits {
        MatchAllPays(rules, b1, id);
        PaysBoth(b, b1, MatchAll(rules, b1, id).value, first, MatchReceipts(rules, b1, id));
      } else {
        assert first + [] == first;
      }
    } else {
      NoMakerLeft(rules, b, id);
      PaysNothing(b);
    }
  }

  lemma NoMakerLeft(rules: FeeRules, b: Books, id: OrderId)
    requires LimitsOk(b.limits) && !exists maker :: IsBestMaker(b, id, maker)
    ensures MatchAll(rules, b, id) == Some(b) && MatchReceipts(rules, b, id) == []
  {}

  /** The receipts of the trade with the best maker come first. */
  lemma MatchReceiptsUnfold(rules: FeeRules, b: Books, id: OrderId) returns (maker: OrderId)
    requires LimitsOk(b.limits) && exists maker :: IsBestMaker(b, id, maker)
    ensures IsBestMaker(b, id, maker)
    ensures var o, other, b' := b.limits[id], b.limits[maker], BestTrade(rules, b, id, maker);
      b'.Some? ==>
        var t := MatchTrade(o.forSale, other.forSale, other.price);
        && t.Some? && t.value.pays <= o.forSale && t.value.receives <= other.forSale
        && MatchReceipts(rules, b, id) == TradeReceipts(rules, o, other, t.value) +
           if id in b'.value.limits && maker !in b'.value.limits then MatchReceipts(rules, b'.value, id) else []
  {
    maker :| IsBestMaker(b, id, maker);
    forall other | IsBestMaker(b, id, other)
      ensures other == maker
    {
      BestMakerIsUnique(b, id, maker, other);
    }
    var o, other := b.limits[id], b.limits[maker];
    if BestTrade(rules, b, id, maker).Some? {
      MatchIsSound(o.forSale, other.forSale, other.price, o.price);
    }
  }

  lemma BestTradePays(rules: FeeRules, b: Books, id: OrderId, maker: OrderId) returns (receipts: seq<Receipt>)
    requires LimitsOk(b.limits) && IsBestMaker(b, id, maker) && BestTrade(rules, b, id, maker).Some?
    ensures var o, other := b.limits[id], b.limits[maker];
      var t := MatchTrade(o.forSale, other.forSale, other.price);
      && t.Some? && t.value.pays <= o.forSale && t.value.receives <= other.forSale
      && receipts == TradeReceipts(rules, o, other, t.value)
    ensures Pays(b, BestTrade(rules, b, id, maker).value, receipts)
  {
    hide Traded, Pays, TradeReceipts;
    var o, other := b.limits[id], b.limits[maker];
    var t := MatchTrade(o.forSale, other.forSale, other.price).value;
    MatchIsSound(o.forSale, other.forSale, other.price, o.price);
    TradedPays(rules, b, id, maker, t);
    receipts := TradeReceipts(rules, o, other, t);
  }

  // ----- margin calls -------------------------------------------------------------------------

  /**
    A called position buys all that the seller offers, or all its debt if that is less, and pays
    the seller's price for it, rounded down.
   */
  lemma CallTradeIsAtSellersPrice(debt: nat, forSale: nat, price: Price)
    requires price.Positive() && CallTrade(debt, forSale, price).Some?
    ensures var t := CallTrade(debt, forSale, price).value;
      && (debt >= forSale ==> t.receives == forSale) && (debt < forSale ==> t.receives == debt)
      && RoundsDown(t.pays, t.receives * price.quote.amount, price.base.amount)
  {
    ConversionRounds(Asset(if debt >= forSale then forSale else debt, price.base.id), price);
  }

  /** What one turn of the margin calls pays. */
  ghost function TurnReceipts(rules: FeeRules, b: Books, m: AssetId, enable: bool, sellers: set<OrderId>): seq<Receipt>
    requires LimitsOk(b.limits) && m in b.bitassets && b.bitassets[m].feed.Some?
  {
    match MarginTurn(rules, b, m, enable, sellers)
    case Throws => []
    case Stops => []
    case Settles(_) => SettlementReceipts(b, m, b.bitassets[m].feed.value.settlementPrice)
    case Trades(_, seller, _) =>
      var c, o := b.calls[FirstCallOf(b, m).value], b.limits[seller];
      CallReceipts(rules, c, o, CallTrade(c.debt, o.forSale, o.price).value)
  }

  lemma TurnPays(rules: FeeRules, b: Books, m: AssetId, enable: bool, sellers: set<OrderId>)
    requires LimitsOk(b.limits) && m in b.bitassets && b.bitassets[m].feed.Some?
    ensures var t := MarginTurn(rules, b, m, enable, sellers);
      t.Trades? || t.Settles? ==> Pays(b, t.books, TurnReceipts(rules, b, m, enable, sellers))
  {
    hide Pays, Called, CallReceipts, MarginTurn, GloballySettled, SettlementReceipts, CallTrade;
    var t := MarginTurn(rules, b, m, enable, sellers);
    if t.Trades? {
      TradingTurn(rules, b, m, enable, sellers);
      var c, o := b.calls[FirstCallOf(b, m).value], b.limits[t.seller];
      CalledPays(rules, b, FirstCallOf(b, m).value, t.seller, CallTrade(c.debt, o.forSale, o.price).value);
    } else if t.Settles? {
      SettlingTurn(rules, b, m, enable, sellers);
      SettlingPays(b, m, b.bitassets[m].feed.value.settlementPrice);
    }
  }

  lemma TradingTurn(rules: FeeRules, b: Books, m: AssetId, enable: bool, sellers: set<OrderId>)
    requires LimitsOk(b.limits) && m in b.bitassets && b.bitassets[m].feed.Some?
    requires MarginTurn(rules, b, m, enable, sellers).Trades?
    ensures var t := MarginTurn(rules, b, m, enable, sellers);
      && FirstCallOf(b, m).Some? && FirstCallOf(b, m).value in b.calls && t.seller in b.limits
      && var c, o := b.calls[FirstCallOf(b, m).value], b.limits[t.seller];
      var trade := CallTrade(c.debt, o.forSale, o.price);
      && trade.Some? && trade.value.pays <= c.collateral && trade.value.receives <= c.debt
      && trade.value.receives <= o.forSale
      && t.books == Called(rules, b, FirstCallOf(b, m).value, t.seller, trade.value.pays, trade.value.receives)
  {
    hide Called, Due, IsBestSeller, Shrunk, Swanned, GloballySettled, LimitsOk, Times;
  }

  lemma SettlingTurn(rules: FeeRules, b: Books, m: AssetId, enable: bool, sellers: set<OrderId>)
    requires LimitsOk(b.limits) && m in b.bitassets && b.bitassets[m].feed.Some?
    requires MarginTurn(rules, b, m, enable, sellers).Settles?
    ensures GloballySettled(b, m, b.bitassets[m].feed.value.settlementPrice) ==
            Some(MarginTurn(rules, b, m, enable, sellers).books)
  {
    hide Called, Due, IsFirstCall, IsBestSeller, Shrunk, GloballySettled, TurnKeeps, LimitsOk, Times;
  }

  /** What the settlement of a black swan pays, if there is one. */
  ghost function SwanReceipts(b: Books, m: AssetId): seq<Receipt> {
    if Unsettled(b, m) && IsBlackSwan(b, m) then
      SettlementReceipts(b, m, b.calls[FirstCallOf(b, m).value].Collateralization().Inverse())
    else []
  }

  lemma SwannedPays(b: Books, m: AssetId, enable: bool)
    requires Swanned(b, m, enable).Some?
    ensures Pays(b, Swanned(b, m, enable).value.0, SwanReceipts(b, m))
  {
    hide Pays, GloballySettled, SettlementReceipts;
    PaysNothing(b);
    if Unsettled(b, m) && IsBlackSwan(b, m) {
      SettlingPays(b, m, b.calls[FirstCallOf(b, m).value].Collateralization().Inverse());
    }
  }

  /** What all turns of the margin calls pay. */
  ghost function RoundReceipts(
      rules: FeeRules, b: Books, m: AssetId, enable: bool, sellers: set<OrderId>, filled: bool): seq<Receipt>
    requires LimitsOk(b.limits) && m in b.bitassets && b.bitassets[m].feed.Some?
    decreases b.calls.Keys, sellers
  {
    hide Swanned, MarginTurn, LimitsOk, StillAhead, TurnKeeps, TurnReceipts, SwanReceipts;
    var swan, t := Swanned(b, m, enable), MarginTurn(rules, b, m, enable, sellers);
    if swan.None? then []
    else if swan.value.1 then SwanReceipts(b, m)
    else if t.Trades? then
      TurnIsProgress(b, m, sellers, t, filled || t.exhausted);
      TurnReceipts(rules, b, m, enable, sellers) +
      RoundReceipts(rules, t.books, m, enable, StillAhead(sellers, t.books.limits, t.seller, filled || t.exhausted),
        filled || t.exhausted)
    else TurnReceipts(rules, b, m, enable, sellers)
  }

  lemma {:induction false} CalledAllPays(
      rules: FeeRules, b: Books, m: AssetId, enable: bool, sellers: set<OrderId>, filled: bool, called: bool)
    requires LimitsOk(b.limits) && m in b.bitassets && b.bitassets[m].feed.Some?
    requires CalledAll(rules, b, m, enable, sellers, filled, called).Some?
    ensures Pays(b, CalledAll(rules, b, m, enable, sellers, filled, called).value.0,
              RoundReceipts(rules, b, m, enable, sellers, filled))
    decreases b.calls.Keys, sellers
  {
    hide Pays, Swanned, MarginTurn, LimitsOk, StillAhead, CalledAll, SwanReceipts;
    var swan, t := Swanned(b, m, enable), MarginTurn(rules, b, m, enable, sellers);
    CalledAllUnfolds(rules, b, m, enable, sellers, filled, called);
    TurnPays(rules, b, m, enable, sellers);
    PaysNothing(b);
    if swan.value.1 {
      SwannedPays(b, m, enable);
    } else if t.Trades? {
      TurnIsProgress(b, m, sellers, t, filled || t.exhausted);
      var rest := StillAhead(sellers, t.books.limits, t.seller, filled || t.exhausted);
      CalledAllPays(rules, t.books, m, enable, rest, filled || t.exhausted, true);
      PaysBoth(b, t.books, CalledAll(rules, t.books, m, enable, rest, filled || t.exhausted, true).value.0,
        TurnReceipts(rules, b, m, enable, sellers),
        RoundReceipts(rules, t.books, m, enable, rest, filled || t.exhausted));
    }
  }

  /** What the check of an asset's call orders pays. */
  ghost function CheckReceipts(rules: FeeRules, b: Books, m: AssetId, enable: bool): seq<Receipt>
    requires LimitsOk(b.limits)
  {
    var swan := Swanned(b, m, enable);
    if swan.None? then []
    else if swan.value.1 || m !in b.bitassets || b.bitassets[m].isPredictionMarket || b.bitassets[m].feed.None? then
      SwanReceipts(b, m)
    else
      var sellers := SellersAt(b, m, b.bitassets[m].backing, b.bitassets[m].feed.value.squeezePrice);
      RoundReceipts(rules, b, m, enable, sellers, false)
  }

  lemma CheckedPays(rules: FeeRules, b: Books, m: AssetId, enable: bool)
    requires LimitsOk(b.limits) && CheckedCalls(rules, b, m, enable).Some?
    ensures Pays(b, CheckedCalls(rules, b, m, enable).value.0, CheckReceipts(rules, b, m, enable))
  {
    hide Pays, CalledAll, RoundReceipts, Swanned, SwanReceipts;
    var swan := Swanned(b, m, enable);
    SwannedPays(b, m, enable);
    if !swan.value.1 && m in b.bitassets && !b.bitassets[m].isPredictionMarket && b.bitassets[m].feed.Some? {
      var sellers := SellersAt(b, m, b.bitassets[m].backing, b.bitassets[m].feed.value.squeezePrice);
      CalledAllPays(rules, b, m, enable, sellers, false, false);
    }
  }

  /** What the checks of both assets of a market pay, one after the other. */
  ghost function BothReceipts(rules: FeeRules, b: Books, price: Price, enable: bool): seq<Receipt>
    requires LimitsOk(b.limits)
  {
    var first := CheckedCalls(rules, b, price.base.id, enable);
    CheckReceipts(rules, b, price.base.id, enable) +
    if first.None? then [] else CheckReceipts(rules, first.value.0, price.quote.id, enable)
  }

  lemma BothPay(rules: FeeRules, b: Books, price: Price, enable: bool)
    requires LimitsOk(b.limits) && CheckedBoth(rules, b, price.base.id, price.quote.id, enable).Some?
    ensures Pays(b, CheckedBoth(rules, b, price.base.id, price.quote.id, enable).value.0,
              BothReceipts(rules, b, price, enable))
  {
    hide Pays, CheckedCalls, CheckReceipts;
    var b1 := CheckedCalls(rules, b, price.base.id, enable).value.0;
    CheckedPays(rules, b, price.base.id, enable);
    CheckedPays(rules, b1, price.quote.id, enable);
    PaysBoth(b, b1, CheckedCalls(rules, b1, price.quote.id, enable).value.0,
      CheckReceipts(rules, b, price.base.id, enable), CheckReceipts(rules, b1, price.quote.id, enable));
  }

  // ----- operations on limit orders -------------------------------------------------------------

  /** What a cull pays back to the seller of a remainder that asks for nothing. */
  function CullReceipts(b: Books, id: OrderId): seq<Receipt> {
    if id in b.limits && AsksForNothing(b.limits[id]) then
      [Receipt(b.limits[id].seller, b.limits[id].price.base.id, b.limits[id].forSale),
       Receipt(b.limits[id].seller, CORE, b.limits[id].deferredFee)]
    else []
  }

  lemma CullPays(b: Books, id: OrderId)
    requires id in b.limits ==> b.limits[id].price.Positive()
    ensures Pays(b, CullIfSmall(b, id), CullReceipts(b, id))
  {
    hide CullIfSmall;
    PaysNothing(b);
    CullPaysBack(b, id);
    if CullReceipts(b, id) != [] {
      forall x, a {
        GainedByTwo(CullReceipts(b, id)[0], CullReceipts(b, id)[1], x, a);
      }
    }
  }

  /** What applying an order pays: margin calls, its own trades, margin calls again, and its cull. */
  ghost function ApplyReceipts(rules: FeeRules, b: Books, id: OrderId, enable: bool): seq<Receipt>
    requires LimitsOk(b.limits) && id in b.limits
  {
    var price := b.limits[id].price;
    var called := CheckedBoth(rules, b, price.base.id, price.quote.id, enable);
    BothReceipts(rules, b, price, enable) +
    if called.None? || (called.value.1 && id !in called.value.0.limits) then []
    else
      var matched := MatchAll(rules, called.value.0, id);
      MatchReceipts(rules, called.value.0, id) +
      if matched.None? then [] else EndReceipts(rules, matched.value, id, price, enable)
  }

  ghost function EndReceipts(rules: FeeRules, b: Books, id: OrderId, price: Price, enable: bool): seq<Receipt>
    requires LimitsOk(b.limits)
  {
    var called := CheckedBoth(rules, b, price.base.id, price.quote.id, enable);
    BothReceipts(rules, b, price, enable) + if called.None? then [] else CullReceipts(called.value.0, id)
  }

  lemma EndPays(rules: FeeRules, b: Books, id: OrderId, price: Price, enable: bool)
    requires LimitsOk(b.limits) && Culled(rules, b, id, price, enable).Some?
    ensures Pays(b, Culled(rules, b, id, price, enable).value, EndReceipts(rules, b, id, price, enable))
  {
    hide Pays, CheckedBoth, BothReceipts, CullIfSmall, CullReceipts;
    var b1 := CheckedBoth(rules, b, price.base.id, price.quote.id, enable).value.0;
    BothPay(rules, b, price, enable);
    CullPays(b1, id);
    PaysBoth(b, b1, CullIfSmall(b1, id), BothReceipts(rules, b, price, enable), CullReceipts(b1, id));
  }

  /** Applying an order pays exactly this, to the sellers of orders and the borrowers of positions. */
  lemma AppliedPays(rules: FeeRules, b: Books, id: OrderId, enable: bool)
    requires LimitsOk(b.limits) && id in b.limits && Applied(rules, b, id, enable).Some?
    ensures Pays(b, Applied(rules, b, id, enable).value, ApplyReceipts(rules, b, id, enable))
  {
    hide Pays, CheckedBoth, BothReceipts, MatchAll, MatchReceipts, Culled, EndReceipts, LimitsOk;
    var price := b.limits[id].price;
    var called := CheckedBoth(rules, b, price.base.id, price.quote.id, enable).value;
    BothPay(rules, b, price, enable);
    var first := BothReceipts(rules, b, price, enable);
    if called.1 && id !in called.0.limits {
      assert first + [] == first;
    } else {
      var matched := MatchAll(rules, called.0, id).value;
      MatchAllPays(rules, called.0, id);
      EndPays(rules, matched, id, price, enable);
      var b' := Culled(rules, matched, id, price, enable).value;
      var trades, end := MatchReceipts(rules, called.0, id), EndReceipts(rules, matched, id, price, enable);
      PaysBoth(called.0, matched, b', trades, end);
      PaysBoth(b, called.0, b', first, trades + end);
    }
  }

  /** So no balance ever falls, whatever orders meet. */
  lemma NoneLosesByAnOrder(rules: FeeRules, b: Books, id: OrderId, enable: bool, x: AccountId, a: AssetId)
    requires LimitsOk(b.limits) && id in b.limits && Applied(rules, b, id, enable).Some?
    ensures Applied(rules, b, id, enable).value.Balance(x, a) >= b.Balance(x, a)
  {
    hide Applied, ApplyReceipts;
    AppliedPays(rules, b, id, enable);
  }

  /** A new order takes its offer and its fee from its seller; what it then gains is what its application pays. */
  lemma CreatedPays(rules: FeeRules, b: Books, o: LimitOrder, id: OrderId, fillOrKill: bool)
    requires LimitsOk(b.limits) && o.forSale > 0 && o.price.Positive()
    requires Created(rules, b, o, id, fillOrKill).Some?
    ensures CanEnter(b, o) && LimitsOk(Entered(b, o, id).limits) && id in Entered(b, o, id).limits
    ensures forall x, a :: Created(rules, b, o, id, fillOrKill).value.Balance(x, a) ==
              b.Balance(x, a) - At(x, a, o.seller, CORE, o.deferredFee) - At(x, a, o.seller, o.price.base.id, o.forSale)
              + Gained(ApplyReceipts(rules, Entered(b, o, id), id, true), x, a)
  {
    hide Applied, ApplyReceipts, Gained, Entered;
    EnteredPays(b, o, id);
    EnteredLimits(b, o, id);
    AppliedPays(rules, Entered(b, o, id), id, true);
  }

  lemma EnteredLimits(b: Books, o: LimitOrder, id: OrderId)
    requires CanEnter(b, o)
    ensures Entered(b, o, id).limits == b.limits[id := o]
  {}

  /** A cancelled order goes back to its seller, and what the margin calls then pay comes on top. */
  lemma CancelledPays(rules: FeeRules, b: Books, id: OrderId)
    requires LimitsOk(b.limits) && id in b.limits && Cancelled(rules, b, id).Some?
    ensures var o := b.limits[id];
      forall x, a :: Cancelled(rules, b, id).value.Balance(x, a) ==
        b.Balance(x, a) + At(x, a, o.seller, o.price.base.id, o.forSale) + At(x, a, o.seller, CORE, o.deferredFee)
        + Gained(BothReceipts(rules, CancelLimit(b, id), o.price, true), x, a)
  {
    hide CheckedBoth, BothReceipts, Gained;
    CancelLimitPays(b, id);
    BothPay(rules, CancelLimit(b, id), b.limits[id].price, true);
  }
}

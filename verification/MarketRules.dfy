/** The invariants of the market's books, and which of them each elementary step keeps. */
module MarketRules {
  import opened Wrappers
  import opened Prices
  import opened Sums
  import opened Books

  // ----- the limit book -----------------------------------------------------------------

  ghost predicate LimitsOk(limits: map<OrderId, LimitOrder>) {
    forall id <- limits :: limits[id].forSale > 0 && limits[id].price.Positive()
  }

  ghost predicate NoDust(limits: map<OrderId, LimitOrder>)
    requires LimitsOk(limits)
  {
    forall id <- limits :: limits[id].Worth() > 0
  }

  ghost predicate Uncrossed(limits: map<OrderId, LimitOrder>) {
    forall i, j :: i in limits && j in limits ==> !Crosses(limits[i].price, limits[j].price)
  }

  /** What may rest in the book between operations. */
  ghost predicate RestingBook(limits: map<OrderId, LimitOrder>) {
    LimitsOk(limits) && NoDust(limits) && Uncrossed(limits)
  }

  /** An order that is left at its price with less for sale. */
  ghost predicate Lessened(o: LimitOrder, o': LimitOrder) {
    o'.price == o.price && 0 < o'.forSale <= o.forSale
  }

  /** Orders only disappear or shrink, and a shrunk one is worth something, except `taker`'s. */
  ghost predicate Shrunk(limits: map<OrderId, LimitOrder>, limits': map<OrderId, LimitOrder>, taker: Option<OrderId>) {
    forall id <- limits' ::
      && id in limits && Lessened(limits[id], limits'[id])
      && (limits'[id] == limits[id] || taker == Some(id)
          || (limits'[id].price.Positive() && limits'[id].Worth() > 0))
  }

  lemma ShrunkTransitive(
      x: map<OrderId, LimitOrder>, y: map<OrderId, LimitOrder>, z: map<OrderId, LimitOrder>, taker: Option<OrderId>)
    requires Shrunk(x, y, taker) && Shrunk(y, z, taker)
    ensures Shrunk(x, z, taker)
  {}

  lemma SelfShrunk(limits: map<OrderId, LimitOrder>)
    requires LimitsOk(limits)
    ensures Shrunk(limits, limits, None)
  {}

  lemma ShrunkStaysResting(limits: map<OrderId, LimitOrder>, limits': map<OrderId, LimitOrder>)
    requires RestingBook(limits) && Shrunk(limits, limits', None)
    ensures RestingBook(limits')
  {}

  /** The book after one fill: the order is gone or has less for sale, the others are as before. */
  function Reduced(limits: map<OrderId, LimitOrder>, id: OrderId, pays: nat, cull: bool): map<OrderId, LimitOrder>
    requires id in limits && pays <= limits[id].forSale && limits[id].price.Positive()
  {
    var o' := limits[id].(forSale := limits[id].forSale - pays, deferredFee := 0);
    if o'.forSale == 0 || (cull && o'.Worth() == 0) then limits - {id} else limits[id := o']
  }

  lemma ReducedIsShrunk(limits: map<OrderId, LimitOrder>, id: OrderId, pays: nat, cull: bool)
    requires LimitsOk(limits) && id in limits && pays <= limits[id].forSale
    ensures LimitsOk(Reduced(limits, id, pays, cull))
    ensures Shrunk(limits, Reduced(limits, id, pays, cull), if cull then None else Some(id))
  {}

  lemma FillLimitBook(rules: FeeRules, b: Books, id: OrderId, pays: nat, receives: nat, cull: bool)
    requires id in b.limits && pays <= b.limits[id].forSale && b.limits[id].price.Positive()
    ensures FillLimit(rules, b, id, pays, receives, cull).limits == Reduced(b.limits, id, pays, cull)
  {
    var o := b.limits[id];
    var b1 := Receive(rules, b, o.seller, o.price.quote.id, receives);
    assert b1.limits == b.limits;
    PayFromLimitBook(b1, id, pays);
    CullBook(PayFromLimit(b1, id, pays), id);
  }

  lemma PayFromLimitBook(b: Books, id: OrderId, pays: nat)
    requires id in b.limits && pays <= b.limits[id].forSale && b.limits[id].price.Positive()
    ensures PayFromLimit(b, id, pays).limits == Reduced(b.limits, id, pays, false)
  {}

  lemma CullBook(b: Books, id: OrderId)
    requires id in b.limits ==> b.limits[id].price.Positive()
    ensures CullIfSmall(b, id).limits ==
            if id in b.limits && b.limits[id].Worth() == 0 then b.limits - {id} else b.limits
  {}

  /** No resting order crosses this one. */
  ghost predicate ClearOf(limits: map<OrderId, LimitOrder>, id: OrderId) {
    id in limits ==> forall i <- limits :: !Crosses(limits[i].price, limits[id].price)
  }

  lemma ShrunkStaysClear(
      limits: map<OrderId, LimitOrder>, limits': map<OrderId, LimitOrder>, id: OrderId, taker: Option<OrderId>)
    requires ClearOf(limits, id) && Shrunk(limits, limits', taker)
    ensures ClearOf(limits', id)
  {}

  lemma ShrunkWeaken(limits: map<OrderId, LimitOrder>, limits': map<OrderId, LimitOrder>, taker: Option<OrderId>)
    requires Shrunk(limits, limits', None)
    ensures Shrunk(limits, limits', taker)
  {}

  /** A new order that no longer crosses anything and is worth something may rest. */
  lemma NewOrderRests(limits: map<OrderId, LimitOrder>, limits': map<OrderId, LimitOrder>, id: OrderId)
    requires RestingBook(limits - {id}) && LimitsOk(limits') && Shrunk(limits, limits', Some(id))
    requires ClearOf(limits', id) && (id in limits' ==> limits'[id].Worth() > 0)
    ensures RestingBook(limits')
  {
    forall i | i in limits'
      ensures limits'[i].Worth() > 0
    {
      assert Lessened(limits[i], limits'[i]);
      if i != id {
        assert i in limits - {id};
        assert (limits - {id})[i].Worth() > 0;
      }
    }
    forall i, j | i in limits' && j in limits'
      ensures !Crosses(limits'[i].price, limits'[j].price)
    {
      assert Lessened(limits[i], limits'[i]) && Lessened(limits[j], limits'[j]);
      if i != id && j != id {
        assert i in limits - {id} && j in limits - {id};
        assert !Crosses((limits - {id})[i].price, (limits - {id})[j].price);
      } else if i == id {
        if Crosses(limits'[i].price, limits'[j].price) {
          CrossingIsRange(limits'[i].price, limits'[j].price);
        }
      }
    }
  }

  // ----- bitassets, debt and funds --------------------------------------------------------

  predicate PriceOf(p: Price, m: AssetId, backing: AssetId) {
    p.base.id == m && p.quote.id == backing
  }

  predicate FeedOk(m: AssetId, x: Bitasset) {
    x.feed.Some? ==>
      && PriceOf(x.feed.value.settlementPrice, m, x.backing) && x.feed.value.settlementPrice.Positive()
      && PriceOf(x.feed.value.squeezePrice, m, x.backing) && x.feed.value.squeezePrice.Positive()
  }

  /** The fund pays every holder at the settlement price, and is empty when no one is left. */
  ghost predicate Solvent(x: Bitasset, supply: int) {
    x.settlement.Some? ==>
      var p := x.settlement.value;
      && supply >= 0 && p.base.amount > 0
      && x.fund * p.base.amount >= supply * p.quote.amount
      && (supply == 0 ==> x.fund == 0)
  }

  ghost predicate BitassetOk(b: Books, m: AssetId) {
    m in b.bitassets ==>
      var x := b.bitassets[m];
      && m != CORE && x.backing != m && FeedOk(m, x)
      && (x.settlement.None? ==> x.fund == 0 && Debt(b, m) == b.Supply(m))
      && (x.settlement.Some? ==> PriceOf(x.settlement.value, m, x.backing) && Solvent(x, b.Supply(m)))
  }

  ghost predicate CallOk(b: Books, id: OrderId) {
    id in b.calls ==>
      var c := b.calls[id];
      && c.debt > 0 && c.callPrice.Positive()
      && c.DebtType() in b.bitassets
      && var x := b.bitassets[c.DebtType()];
      && c.CollateralType() == x.backing && x.settlement.None?
  }

  ghost predicate SettlementOk(b: Books, id: OrderId) {
    id in b.settlements ==> b.settlements[id].balance.id in b.bitassets
  }

  ghost predicate BidOk(b: Books, id: OrderId) {
    id in b.bids ==>
      var p := b.bids[id].invSwanPrice;
      && p.quote.id in b.bitassets && p.quote.amount > 0
      && var x := b.bitassets[p.quote.id];
      && p.base.id == x.backing && p.base.amount > 0 && x.settlement.Some?
  }

  ghost predicate Core(b: Books) {
    && (forall m :: BitassetOk(b, m))
    && (forall id :: CallOk(b, id))
    && (forall id :: SettlementOk(b, id))
    && (forall id :: BidOk(b, id))
  }

  /** No more of any asset is held than its supply. */
  ghost predicate Covered(b: Books) {
    forall a :: Gap(b, a) <= 0
  }

  /** Steps that leave these parts alone keep the core invariant. */
  ghost predicate SameCore(b: Books, b': Books) {
    && b'.bitassets == b.bitassets && b'.calls == b.calls && b'.settlements == b.settlements
    && b'.bids == b.bids && b'.supply == b.supply
  }

  lemma FillLimitKeepsCore(rules: FeeRules, b: Books, id: OrderId, pays: nat, receives: nat, cull: bool)
    requires id in b.limits && pays <= b.limits[id].forSale && b.limits[id].price.Positive()
    ensures SameCore(b, FillLimit(rules, b, id, pays, receives, cull))
  {
    var o := b.limits[id];
    var b1 := Receive(rules, b, o.seller, o.price.quote.id, receives);
    PayFromLimitKeepsCore(b1, id, pays);
    CullKeepsCore(PayFromLimit(b1, id, pays), id);
  }

  lemma PayFromLimitKeepsCore(b: Books, id: OrderId, pays: nat)
    requires id in b.limits && pays <= b.limits[id].forSale
    ensures SameCore(b, PayFromLimit(b, id, pays))
  {
    if pays == b.limits[id].forSale {
    } else {
    }
  }

  lemma CullKeepsCore(b: Books, id: OrderId)
    requires id in b.limits ==> b.limits[id].price.Positive()
    ensures SameCore(b, CullIfSmall(b, id))
  {}

  lemma SameCoreKeepsCore(b: Books, b': Books)
    requires Core(b) && SameCore(b, b')
    ensures Core(b')
  {
    forall m
      ensures BitassetOk(b', m)
    {
      assert BitassetOk(b, m);
    }
    forall id
      ensures CallOk(b', id)
    {
      assert CallOk(b, id);
    }
    forall id
      ensures BidOk(b', id)
    {
      assert BidOk(b, id);
    }
    forall id
      ensures SettlementOk(b', id)
    {
      assert SettlementOk(b, id);
    }
  }

  /** Each call of `calls'` comes from one of `calls` with some debt left. */
  ghost predicate CallsReduced(calls: map<OrderId, CallOrder>, calls': map<OrderId, CallOrder>) {
    forall id <- calls' ::
      id in calls && calls'[id].callPrice == calls[id].callPrice && 0 < calls'[id].debt <= calls[id].debt
  }

  /** Calls and supply may fall together as long as no settled asset is touched. */
  lemma ReducedCallsKeepCore(b: Books, b': Books)
    requires Core(b) && b'.bitassets == b.bitassets && b'.settlements == b.settlements && b'.bids == b.bids
    requires CallsReduced(b.calls, b'.calls) && SameDebtGaps(b, b')
    requires forall m <- b.bitassets :: b.bitassets[m].settlement.Some? ==> b'.Supply(m) == b.Supply(m)
    ensures Core(b')
  {
    forall m
      ensures BitassetOk(b', m)
    {
      assert BitassetOk(b, m);
      assert Debt(b', m) - b'.Supply(m) == Debt(b, m) - b.Supply(m);
    }
    forall i
      ensures CallOk(b', i)
    {
      assert CallOk(b, i);
    }
    forall i
      ensures BidOk(b', i)
    {
      assert BidOk(b, i);
    }
    forall i
      ensures SettlementOk(b', i)
    {
      assert SettlementOk(b, i);
    }
  }

  /** A fill of a call order keeps debt equal to supply. */
  lemma FillCallKeepsCore(b: Books, id: OrderId, pays: nat, receives: nat)
    requires Core(b) && id in b.calls && pays <= b.calls[id].collateral && receives <= b.calls[id].debt
    ensures Core(FillCall(b, id, pays, receives))
  {
    FillCallShifts(b, id, pays, receives);
    forall i | i in b.calls
      ensures b.calls[i].debt > 0
    {
      assert CallOk(b, i);
    }
    assert CallOk(b, id);
    FillCallReduces(b, id, pays, receives);
    FillCallFrame(b, id, pays, receives);
    ReducedCallsKeepCore(b, FillCall(b, id, pays, receives));
  }

  lemma FillCallReduces(b: Books, id: OrderId, pays: nat, receives: nat)
    requires id in b.calls && pays <= b.calls[id].collateral && receives <= b.calls[id].debt
    requires forall i <- b.calls :: b.calls[i].debt > 0
    ensures CallsReduced(b.calls, FillCall(b, id, pays, receives).calls)
    ensures forall a :: a != b.calls[id].DebtType() ==> FillCall(b, id, pays, receives).Supply(a) == b.Supply(a)
  {
    hide FillCall;
    FillCallCalls(b, id, pays, receives);
    FillCallSupply(b, id, pays, receives);
  }

  lemma FillCallCalls(b: Books, id: OrderId, pays: nat, receives: nat)
    requires id in b.calls && pays <= b.calls[id].collateral && receives <= b.calls[id].debt
    ensures FillCall(b, id, pays, receives).calls ==
            if receives == b.calls[id].debt then b.calls - {id}
            else
              var c := b.calls[id];
              b.calls[id := c.(debt := c.debt - receives, collateral := c.collateral - pays)]
  {}

  lemma FillCallSupply(b: Books, id: OrderId, pays: nat, receives: nat)
    requires id in b.calls && pays <= b.calls[id].collateral && receives <= b.calls[id].debt
    ensures forall n :: FillCall(b, id, pays, receives).Supply(n) ==
                        b.Supply(n) - (if n == b.calls[id].DebtType() then receives else 0)
  {}

  lemma FillCallFrame(b: Books, id: OrderId, pays: nat, receives: nat)
    requires id in b.calls && pays <= b.calls[id].collateral && receives <= b.calls[id].debt
    ensures FillCall(b, id, pays, receives).bitassets == b.bitassets
    ensures FillCall(b, id, pays, receives).settlements == b.settlements
    ensures FillCall(b, id, pays, receives).bids == b.bids
    ensures FillCall(b, id, pays, receives).limits == b.limits
  {
    if receives == b.calls[id].debt {
    } else {
    }
  }

  // ----- conservation ---------------------------------------------------------------------

  /** What every market operation keeps: the gap of every asset. */
  lemma GapsTransitive(b: Books, b1: Books, b2: Books)
    requires SameGaps(b, b1) && SameGaps(b1, b2)
    ensures SameGaps(b, b2)
  {}

  /** Two fills that pay each other leave every gap as it was. */
  lemma SwapKeepsGaps(b: Books, b1: Books, b2: Books, x: Asset, y: Asset)
    requires Shifts(b, b1, x, y) && Shifts(b1, b2, y, x)
    ensures SameGaps(b, b2)
  {}

  /** From `b` to `b'` the gap of one asset moves by `delta`. */
  ghost predicate Moves(b: Books, b': Books, id: AssetId, delta: int) {
    forall a :: Gap(b', a) == Gap(b, a) + (if a == id then delta else 0)
  }

  lemma CreditMoves(b: Books, account: AccountId, id: AssetId, delta: int)
    requires b.Balance(account, id) + delta >= 0
    ensures Moves(b, Credit(b, account, id, delta), id, delta)
  {
    CreditShifts(b, account, id, delta);
  }

  lemma FundMoves(b: Books, m: AssetId, pays: nat)
    requires m in b.bitassets && pays <= b.bitassets[m].fund
    ensures var x := b.bitassets[m];
      Moves(b, b.(bitassets := b.bitassets[m := x.(fund := x.fund - pays)]), x.backing, 0 - pays)
  {
    PutBitasset(b, m, b.bitassets[m].(fund := b.bitassets[m].fund - pays));
  }

  lemma SupplyMoves(b: Books, m: AssetId, delta: int)
    ensures Moves(b, AddSupply(b, m, delta), m, 0 - delta)
  {}

  /** Where no more of an asset is held than its supply, the supply bounds every single holding. */
  lemma HoldingsWithinSupply(b: Books, a: AssetId, account: AccountId)
    requires Gap(b, a) <= 0
    ensures b.Balance(account, a) <= b.Supply(a)
    ensures forall id <- b.settlements ::
      b.settlements[id].balance.id == a ==> b.settlements[id].balance.amount <= b.Supply(a)
  {
    SumNonNegative(b.balances, BalanceIn(a));
    SumNonNegative(b.limits, SellingIn(a));
    SumNonNegative(b.calls, CollateralIn(a));
    SumNonNegative(b.settlements, SettlingIn(a));
    SumNonNegative(b.bids, BiddingIn(a));
    SumNonNegative(b.bitassets, FundIn(a));
    if (account, a) in b.balances {
      assert BalanceIn(a)((account, a), b.balances[(account, a)]) == b.Balance(account, a);
    }
    forall id | id in b.settlements && b.settlements[id].balance.id == a
      ensures b.settlements[id].balance.amount <= b.Supply(a)
    {
      assert SettlingIn(a)(id, b.settlements[id]) == b.settlements[id].balance.amount;
    }
  }

  // ----- matching -------------------------------------------------------------------------

  /** Taker and maker fill each other with the amounts of one trade. */
  function Traded(rules: FeeRules, b: Books, taker: OrderId, maker: OrderId, t: Trade): Books
    requires LimitsOk(b.limits) && taker in b.limits && maker in b.limits && taker != maker
    requires t.pays <= b.limits[taker].forSale && t.receives <= b.limits[maker].forSale
  {
    FillLimitBook(rules, b, taker, t.pays, t.receives, false);
    FillLimit(rules, FillLimit(rules, b, taker, t.pays, t.receives, false), maker, t.receives, t.pays, true)
  }

  lemma TradedKeepsGaps(rules: FeeRules, b: Books, taker: OrderId, maker: OrderId, t: Trade)
    requires LimitsOk(b.limits) && taker in b.limits && maker in b.limits && taker != maker
    requires t.pays <= b.limits[taker].forSale && t.receives <= b.limits[maker].forSale
    requires b.limits[taker].price.base.id == b.limits[maker].price.quote.id
    requires b.limits[taker].price.quote.id == b.limits[maker].price.base.id
    ensures SameGaps(b, Traded(rules, b, taker, maker, t))
  {
    var b1 := FillLimit(rules, b, taker, t.pays, t.receives, false);
    var p := b.limits[taker].price;
    FillLimitBook(rules, b, taker, t.pays, t.receives, false);
    FillLimitShifts(rules, b, taker, t.pays, t.receives, false);
    FillLimitShifts(rules, b1, maker, t.receives, t.pays, true);
    SwapKeepsGaps(b, b1, Traded(rules, b, taker, maker, t), Asset(t.pays, p.base.id), Asset(t.receives, p.quote.id));
  }

  lemma TradedBook(rules: FeeRules, b: Books, taker: OrderId, maker: OrderId, t: Trade)
    requires LimitsOk(b.limits) && taker in b.limits && maker in b.limits && taker != maker
    requires t.pays <= b.limits[taker].forSale && t.receives <= b.limits[maker].forSale
    ensures SameCore(b, Traded(rules, b, taker, maker, t))
    ensures var limits1 := Reduced(b.limits, taker, t.pays, false);
      maker in limits1 && limits1[maker] == b.limits[maker] &&
      Traded(rules, b, taker, maker, t).limits == Reduced(limits1, maker, t.receives, true)
  {
    var b1 := FillLimit(rules, b, taker, t.pays, t.receives, false);
    FillLimitBook(rules, b, taker, t.pays, t.receives, false);
    FillLimitBook(rules, b1, maker, t.receives, t.pays, true);
    FillLimitKeepsCore(rules, b, taker, t.pays, t.receives, false);
    FillLimitKeepsCore(rules, b1, maker, t.receives, t.pays, true);
  }

  /** A trade shrinks the book, and exhausts the taker's order or the maker's. */
  lemma TradedShrinks(rules: FeeRules, b: Books, taker: OrderId, maker: OrderId, t: Trade)
    requires LimitsOk(b.limits) && taker in b.limits && maker in b.limits && taker != maker
    requires t.pays <= b.limits[taker].forSale && t.receives <= b.limits[maker].forSale
    requires t.pays == b.limits[taker].forSale || t.receives == b.limits[maker].forSale
    ensures var b' := Traded(rules, b, taker, maker, t);
      && LimitsOk(b'.limits) && Shrunk(b.limits, b'.limits, Some(taker))
      && (taker !in b'.limits || maker !in b'.limits)
      && b.limits.Keys - {taker, maker} <= b'.limits.Keys
  {
    TradedBook(rules, b, taker, maker, t);
    var limits1 := Reduced(b.limits, taker, t.pays, false);
    ReducedIsShrunk(b.limits, taker, t.pays, false);
    ReducedIsShrunk(limits1, maker, t.receives, true);
    assert Shrunk(limits1, Reduced(limits1, maker, t.receives, true), Some(taker));
    ShrunkTransitive(b.limits, limits1, Reduced(limits1, maker, t.receives, true), Some(taker));
  }

  /** Everything a match of two crossing orders keeps. */
  lemma MatchKeeps(rules: FeeRules, b: Books, taker: OrderId, maker: OrderId, t: Trade)
    requires Core(b) && LimitsOk(b.limits) && taker in b.limits && maker in b.limits && taker != maker
    requires Crosses(b.limits[maker].price, b.limits[taker].price)
    requires MatchTrade(b.limits[taker].forSale, b.limits[maker].forSale, b.limits[maker].price) == Some(t)
    ensures t.pays <= b.limits[taker].forSale && t.receives <= b.limits[maker].forSale
    ensures var b' := Traded(rules, b, taker, maker, t);
      && Core(b') && LimitsOk(b'.limits) && SameGaps(b, b') && SameCore(b, b')
      && Shrunk(b.limits, b'.limits, Some(taker))
      && (taker !in b'.limits || maker !in b'.limits)
      && b.limits.Keys - {taker, maker} <= b'.limits.Keys
  {
    MatchIsSound(b.limits[taker].forSale, b.limits[maker].forSale, b.limits[maker].price, b.limits[taker].price);
    TradedKeepsGaps(rules, b, taker, maker, t);
    TradedShrinks(rules, b, taker, maker, t);
    TradedBook(rules, b, taker, maker, t);
    SameCoreKeepsCore(b, Traded(rules, b, taker, maker, t));
  }

  // ----- global settlement ----------------------------------------------------------------

  lemma ShiftsCompose(b: Books, b1: Books, b2: Books, p: AssetId, x: nat, x': nat, q: AssetId, y: nat, y': nat)
    requires Shifts(b, b1, Asset(x, p), Asset(y, q)) && Shifts(b1, b2, Asset(x', p), Asset(y', q))
    ensures Shifts(b, b2, Asset(x + x', p), Asset(y + y', q))
  {}

  lemma DebtOfCalls(b: Books, m: AssetId)
    ensures Debt(b, m) >= 0
    ensures forall id <- b.calls :: b.calls[id].DebtType() == m ==> b.calls[id].debt <= Debt(b, m)
  {
    SumNonNegative(b.calls, DebtIn(m));
    forall id | id in b.calls && b.calls[id].DebtType() == m
      ensures b.calls[id].debt <= Debt(b, m)
    {
      assert DebtIn(m)(id, b.calls[id]) == b.calls[id].debt;
    }
  }

  lemma SupplyNonNegative(b: Books, m: AssetId)
    requires Core(b) && m in b.bitassets
    ensures b.Supply(m) >= 0
  {
    assert BitassetOk(b, m);
    DebtOfCalls(b, m);
  }

  lemma NoCallsNoDebt(b: Books, m: AssetId)
    requires forall id <- b.calls :: b.calls[id].DebtType() != m
    ensures Debt(b, m) == 0
  {
    SumZero(b.calls, DebtIn(m));
  }

  /** What a call order pays when it is closed at the price: never more than its collateral. */
  function ClosingPayment(c: CallOrder, p: Price): Option<nat> {
    var pays := Times(Asset(c.debt, c.DebtType()), p);
    if pays.None? then None else Some(if pays.value.amount > c.collateral then c.collateral else pays.value.amount)
  }

  function ClosingIn(m: AssetId, p: Price): (OrderId, CallOrder) -> int {
    (id: OrderId, c: CallOrder) =>
      if c.DebtType() == m && ClosingPayment(c, p).Some? then ClosingPayment(c, p).value else 0
  }

  /** Closing call orders touches balances, calls and supply, and nothing else. */
  ghost predicate OnlyCallsTouched(b: Books, b': Books) {
    && b'.limits == b.limits && b'.settlements == b.settlements
    && b'.bids == b.bids && b'.bitassets == b.bitassets
  }

  /** How far the closing of the asset's calls has come since the books were `b`. */
  ghost predicate ClosingUnderWay(b: Books, b1: Books, m: AssetId, p: Price, gathered: nat) {
    && OnlyCallsTouched(b, b1) && m in b.bitassets && Core(b1) && b1.Supply(m) <= b.Supply(m)
    && Shifts(b, b1, Asset(gathered, b.bitassets[m].backing), Asset(b.Supply(m) - b1.Supply(m), m))
    && gathered + SumBy(b1.calls, ClosingIn(m, p)) == SumBy(b.calls, ClosingIn(m, p))
  }

  lemma ClosingStarts(b: Books, m: AssetId, p: Price)
    requires Core(b) && m in b.bitassets
    ensures ClosingUnderWay(b, b, m, p, 0)
  {}

  lemma ClosingGoesOn(b: Books, b1: Books, m: AssetId, p: Price, gathered: nat, id: OrderId)
    requires ClosingUnderWay(b, b1, m, p, gathered)
    requires id in b1.calls && b1.calls[id].DebtType() == m && ClosingPayment(b1.calls[id], p).Some?
    ensures var pays := ClosingPayment(b1.calls[id], p).value;
      ClosingUnderWay(b, FillCall(b1, id, pays, b1.calls[id].debt), m, p, gathered + pays)
    ensures FillCall(b1, id, ClosingPayment(b1.calls[id], p).value, b1.calls[id].debt).calls == b1.calls - {id}
  {
    var c := b1.calls[id];
    var pays := ClosingPayment(c, p).value;
    assert CallOk(b1, id);
    FillCallKeepsCore(b1, id, pays, c.debt);
    FillCallFrame(b1, id, pays, c.debt);
    FillCallShifts(b1, id, pays, c.debt);
    ClosedCall(b1, id, pays);
    ShiftsCompose(b, b1, FillCall(b1, id, pays, c.debt), b.bitassets[m].backing, gathered, pays,
      m, b.Supply(m) - b1.Supply(m), c.debt);
    ClosingSum(b1.calls, id, m, p);
  }

  lemma ClosedCall(b: Books, id: OrderId, pays: nat)
    requires id in b.calls && pays <= b.calls[id].collateral
    ensures var c := b.calls[id]; var b' := FillCall(b, id, pays, c.debt);
      b'.calls == b.calls - {id} && b'.Supply(c.DebtType()) == b.Supply(c.DebtType()) - c.debt
  {}

  lemma ClosingSum(calls: map<OrderId, CallOrder>, id: OrderId, m: AssetId, p: Price)
    requires id in calls && calls[id].DebtType() == m && ClosingPayment(calls[id], p).Some?
    ensures SumBy(calls, ClosingIn(m, p)) == ClosingPayment(calls[id], p).value + SumBy(calls - {id}, ClosingIn(m, p))
  {
    SumWithout(calls, ClosingIn(m, p), id);
  }

  /** Puts what was gathered into the fund and restores the supply. */
  function Settled(b: Books, m: AssetId, supply: nat, gathered: nat): Books
    requires m in b.bitassets
  {
    var x := b.bitassets[m];
    var p := Price(Asset(supply, m), Asset(gathered, x.backing));
    b.(bitassets := b.bitassets[m := x.(settlement := Some(p), fund := gathered)], supply := b.supply[m := supply])
  }

  lemma SettledKeepsGaps(b: Books, b1: Books, m: AssetId, supply: nat, gathered: nat)
    requires m in b1.bitassets && b1.bitassets[m].fund == 0 && b1.bitassets[m].backing != m && b1.Supply(m) == 0
    requires Shifts(b, b1, Asset(gathered, b1.bitassets[m].backing), Asset(supply, m))
    ensures SameGaps(b, Settled(b1, m, supply, gathered))
  {
    hide Gap;
    var x := b1.bitassets[m];
    var x' := x.(settlement := Some(Price(Asset(supply, m), Asset(gathered, x.backing))), fund := gathered);
    var b2 := b1.(bitassets := b1.bitassets[m := x']);
    PutBitasset(b1, m, x');
    SupplyMoves(b2, m, supply);
    assert Settled(b1, m, supply, gathered) == AddSupply(b2, m, supply);
    forall a
      ensures Gap(Settled(b1, m, supply, gathered), a) == Gap(b, a)
    {
      assert Gap(b2, a) == Gap(b1, a) - FundIn(a)(m, x) + FundIn(a)(m, x');
    }
  }

  lemma SettledKeepsCore(b: Books, m: AssetId, supply: nat, gathered: nat)
    requires Core(b) && m in b.bitassets && b.bitassets[m].settlement.None? && supply > 0
    requires forall id <- b.calls :: b.calls[id].DebtType() != m
    ensures Core(Settled(b, m, supply, gathered))
  {
    var b' := Settled(b, m, supply, gathered);
    forall n
      ensures BitassetOk(b', n)
    {
      assert BitassetOk(b, n);
      assert Debt(b', n) == Debt(b, n);
    }
    forall i
      ensures CallOk(b', i)
    {
      assert CallOk(b, i);
    }
    forall i
      ensures BidOk(b', i)
    {
      assert BidOk(b, i);
    }
    forall i
      ensures SettlementOk(b', i)
    {
      assert SettlementOk(b, i);
    }
  }

  lemma ClosingEnds(b: Books, b1: Books, m: AssetId, p: Price, gathered: nat)
    requires Core(b) && ClosingUnderWay(b, b1, m, p, gathered) && b.bitassets[m].settlement.None?
    requires b.Supply(m) > 0 && forall id <- b1.calls :: b1.calls[id].DebtType() != m
    ensures gathered == SumBy(b.calls, ClosingIn(m, p)) && OnlyCallsTouched(b, b1) && m in b.bitassets
    ensures Core(Settled(b1, m, b.Supply(m), gathered)) && SameGaps(b, Settled(b1, m, b.Supply(m), gathered))
  {
    NoCallsNoDebt(b1, m);
    SumZero(b1.calls, ClosingIn(m, p));
    assert BitassetOk(b1, m);
    SettledKeepsGaps(b, b1, m, b.Supply(m), gathered);
    SettledKeepsCore(b1, m, b.Supply(m), gathered);
  }

  // ----- margin calls ---------------------------------------------------------------------

  /** A call order buys `receives` of its debt from a limit order for `pays` of its collateral. */
  function Called(rules: FeeRules, b: Books, call: OrderId, limit: OrderId, pays: nat, receives: nat): Books
    requires call in b.calls && pays <= b.calls[call].collateral && receives <= b.calls[call].debt
    requires LimitsOk(b.limits) && limit in b.limits && receives <= b.limits[limit].forSale
  {
    FillCallFrame(b, call, pays, receives);
    FillLimit(rules, FillCall(b, call, pays, receives), limit, receives, pays, true)
  }

  lemma CalledKeeps(rules: FeeRules, b: Books, call: OrderId, limit: OrderId, pays: nat, receives: nat)
    requires call in b.calls && pays <= b.calls[call].collateral && receives <= b.calls[call].debt
    requires LimitsOk(b.limits) && limit in b.limits && receives <= b.limits[limit].forSale
    requires Core(b) && PriceOf(b.limits[limit].price, b.calls[call].DebtType(), b.calls[call].CollateralType())
    ensures var b' := Called(rules, b, call, limit, pays, receives);
      && Core(b') && SameGaps(b, b') && b'.bitassets == b.bitassets
      && b'.settlements == b.settlements && b'.bids == b.bids
      && LimitsOk(b'.limits) && Shrunk(b.limits, b'.limits, None)
    ensures var b' := Called(rules, b, call, limit, pays, receives);
      && (receives == b.limits[limit].forSale ==> limit !in b'.limits)
      && b'.calls.Keys == (if receives == b.calls[call].debt then b.calls.Keys - {call} else b.calls.Keys)
  {
    var b1 := FillCall(b, call, pays, receives);
    var p := b.limits[limit].price;
    FillCallFrame(b, call, pays, receives);
    FillCallKeepsCore(b, call, pays, receives);
    FillCallShifts(b, call, pays, receives);
    FillLimitShifts(rules, b1, limit, receives, pays, true);
    SwapKeepsGaps(b, b1, Called(rules, b, call, limit, pays, receives), Asset(pays, p.quote.id),
      Asset(receives, p.base.id));
    FillLimitKeepsCore(rules, b1, limit, receives, pays, true);
    SameCoreKeepsCore(b1, Called(rules, b, call, limit, pays, receives));
    FillLimitBook(rules, b1, limit, receives, pays, true);
    ReducedIsShrunk(b.limits, limit, receives, true);
    FillCallKeys(b, call, pays, receives);
  }

  lemma FillCallKeys(b: Books, id: OrderId, pays: nat, receives: nat)
    requires id in b.calls && pays <= b.calls[id].collateral && receives <= b.calls[id].debt
    ensures FillCall(b, id, pays, receives).calls.Keys ==
            if receives == b.calls[id].debt then b.calls.Keys - {id} else b.calls.Keys
  {}

  /** An asset with a call order has a supply: its debt. */
  lemma CalledAssetHasSupply(b: Books, id: OrderId)
    requires Core(b) && id in b.calls
    ensures b.calls[id].DebtType() in b.bitassets && b.Supply(b.calls[id].DebtType()) > 0
    ensures b.calls[id].CollateralType() == b.bitassets[b.calls[id].DebtType()].backing
  {
    assert CallOk(b, id);
    assert BitassetOk(b, b.calls[id].DebtType());
    DebtOfCalls(b, b.calls[id].DebtType());
  }

  // ----- cancellations --------------------------------------------------------------------

  lemma CullKeeps(b: Books, id: OrderId)
    requires Core(b) && LimitsOk(b.limits) && id in b.limits
    ensures var b' := CullIfSmall(b, id);
      && Core(b') && LimitsOk(b'.limits) && SameGaps(b, b') && SameCore(b, b')
      && Shrunk(b.limits, b'.limits, None) && (id in b'.limits ==> b'.limits[id].Worth() > 0)
  {
    CullKeepsCore(b, id);
    SameCoreKeepsCore(b, CullIfSmall(b, id));
    CullBook(b, id);
    CancelLimitKeepsGaps(b, id);
  }

  lemma CancelLimitKeeps(b: Books, id: OrderId)
    requires Core(b) && LimitsOk(b.limits) && id in b.limits
    ensures var b' := CancelLimit(b, id);
      && Core(b') && LimitsOk(b'.limits) && SameGaps(b, b') && SameCore(b, b') && b'.limits == b.limits - {id}
  {
    CancelLimitKeepsGaps(b, id);
    assert SameCore(b, CancelLimit(b, id));
    SameCoreKeepsCore(b, CancelLimit(b, id));
  }

  /** The seller's balances cover the fee and then the offer. */
  predicate CanEnter(b: Books, o: LimitOrder) {
    && b.Balance(o.seller, CORE) >= o.deferredFee
    && Credit(b, o.seller, CORE, 0 - o.deferredFee).Balance(o.seller, o.price.base.id) >= o.forSale
  }

  function Entered(b: Books, o: LimitOrder, id: OrderId): Books
    requires CanEnter(b, o)
  {
    var b2 := Credit(Credit(b, o.seller, CORE, 0 - o.deferredFee), o.seller, o.price.base.id, 0 - o.forSale);
    b2.(limits := b2.limits[id := o])
  }

  /** Entering an order moves what it offers, and its fee, from the balances into the book. */
  lemma EnterKeeps(b: Books, o: LimitOrder, id: OrderId)
    requires Core(b) && LimitsOk(b.limits) && id !in b.limits && CanEnter(b, o)
    requires o.forSale > 0 && o.price.Positive()
    ensures var b' := Entered(b, o, id);
      && Core(b') && LimitsOk(b'.limits) && SameGaps(b, b') && SameCore(b, b') && b'.limits == b.limits[id := o]
  {
    hide Gap, Core;
    var b1 := Credit(b, o.seller, CORE, 0 - o.deferredFee);
    CreditShifts(b, o.seller, CORE, 0 - o.deferredFee);
    CreditShifts(b1, o.seller, o.price.base.id, 0 - o.forSale);
    PutLimit(Credit(b1, o.seller, o.price.base.id, 0 - o.forSale), id, o);
    assert SameCore(b, Entered(b, o, id));
    SameCoreKeepsCore(b, Entered(b, o, id));
  }
}

/**
  The objects the market works on, what is held of each asset, and the elementary fills and
  cancellations as functions: what each one does to holdings, to supply and to debt.
 */
module Books {
  import opened Commons
  import opened Wrappers
  import opened Prices
  import opened Sums

  type AccountId = nat
  type OrderId = nat

  const CORE: AssetId := 0

  datatype LimitOrder = LimitOrder(seller: AccountId, forSale: nat, price: Price, deferredFee: nat) {
    /** What the order still asks for, rounded down. */
    function Worth(): nat
      requires price.Positive()
    {
      forSale * price.quote.amount / price.base.amount
    }
  }

  /** The ids of the call price name the collateral (base) and the debt (quote). */
  datatype CallOrder = CallOrder(borrower: AccountId, collateral: nat, debt: nat, callPrice: Price) {
    function CollateralType(): AssetId {
      callPrice.base.id
    }

    function DebtType(): AssetId {
      callPrice.quote.id
    }

    function Collateralization(): Price {
      Price(Asset(collateral, CollateralType()), Asset(debt, DebtType()))
    }
  }

  datatype Settlement = Settlement(owner: AccountId, balance: Asset, date: nat)

  /** `invSwanPrice` is additional collateral over debt covered. */
  datatype Bid = Bid(bidder: AccountId, invSwanPrice: Price)

  /** The median feed; `squeezePrice` is its max short squeeze price. */
  datatype Feed = Feed(settlementPrice: Price, squeezePrice: Price, maintenanceRatio: nat)

  datatype Bitasset = Bitasset(
    backing: AssetId,
    isPredictionMarket: bool,
    canForceSettle: bool,
    feed: Option<Feed>,
    settlement: Option<Price>,
    fund: nat,
    forceSettled: nat,
    offsetPercent: Percent,
    maxVolumePercent: Percent)

  type Percent = p: nat | p <= HUNDRED_PERCENT

  /** An asset that charges no fees has percent 0. */
  datatype FeeRule = FeeRule(percent: Percent, max: nat)

  type FeeRules = AssetId -> FeeRule

  datatype Books = Books(
    balances: map<(AccountId, AssetId), nat>,
    limits: map<OrderId, LimitOrder>,
    calls: map<OrderId, CallOrder>,
    settlements: map<OrderId, Settlement>,
    bids: map<OrderId, Bid>,
    supply: map<AssetId, int>,
    fees: map<AssetId, nat>,
    bitassets: map<AssetId, Bitasset>,
    pendingFees: nat)
  {
    function Balance(account: AccountId, id: AssetId): nat {
      if (account, id) in balances then balances[(account, id)] else 0
    }

    function Supply(id: AssetId): int {
      if id in supply then supply[id] else 0
    }

    function Fees(id: AssetId): nat {
      if id in fees then fees[id] else 0
    }
  }

  // ----- holdings -----------------------------------------------------------------------

  function BalanceIn(a: AssetId): ((AccountId, AssetId), nat) -> int {
    (k: (AccountId, AssetId), v: nat) => if k.1 == a then v else 0
  }

  function SellingIn(a: AssetId): (OrderId, LimitOrder) -> int {
    (id: OrderId, o: LimitOrder) =>
      (if o.price.base.id == a then o.forSale else 0) + (if a == CORE then o.deferredFee else 0)
  }

  function CollateralIn(a: AssetId): (OrderId, CallOrder) -> int {
    (id: OrderId, c: CallOrder) => if c.CollateralType() == a then c.collateral else 0
  }

  function DebtIn(a: AssetId): (OrderId, CallOrder) -> int {
    (id: OrderId, c: CallOrder) => if c.DebtType() == a then c.debt else 0
  }

  function SettlingIn(a: AssetId): (OrderId, Settlement) -> int {
    (id: OrderId, s: Settlement) => if s.balance.id == a then s.balance.amount else 0
  }

  function BiddingIn(a: AssetId): (OrderId, Bid) -> int {
    (id: OrderId, b: Bid) => if b.invSwanPrice.base.id == a then b.invSwanPrice.base.amount else 0
  }

  function FundIn(a: AssetId): (AssetId, Bitasset) -> int {
    (id: AssetId, b: Bitasset) => if b.backing == a then b.fund else 0
  }

  /** Everything of the asset that someone or some fund holds. */
  ghost function Held(b: Books, a: AssetId): int {
    SumBy(b.balances, BalanceIn(a)) + SumBy(b.limits, SellingIn(a)) + SumBy(b.calls, CollateralIn(a))
    + SumBy(b.settlements, SettlingIn(a)) + SumBy(b.bids, BiddingIn(a)) + SumBy(b.bitassets, FundIn(a))
    + b.Fees(a) + (if a == CORE then b.pendingFees else 0)
  }

  /** Holdings minus supply: zero where nothing else holds the asset. */
  ghost function Gap(b: Books, a: AssetId): int {
    Held(b, a) - b.Supply(a)
  }

  ghost function Debt(b: Books, a: AssetId): int {
    SumBy(b.calls, DebtIn(a))
  }

  /** From `b` to `b'`, `out` of one asset left the books and `into` of another came in. */
  ghost predicate Shifts(b: Books, b': Books, out: Asset, into: Asset) {
    forall a :: Gap(b', a) == Gap(b, a)
                - (if a == out.id then out.amount else 0) + (if a == into.id then into.amount else 0)
  }

  ghost predicate SameGaps(b: Books, b': Books) {
    forall a :: Gap(b', a) == Gap(b, a)
  }

  ghost predicate SameDebtGaps(b: Books, b': Books) {
    forall a :: Debt(b', a) - b'.Supply(a) == Debt(b, a) - b.Supply(a)
  }

  // ----- elementary steps ---------------------------------------------------------------

  function Credit(b: Books, account: AccountId, id: AssetId, delta: int): Books
    requires b.Balance(account, id) + delta >= 0
  {
    b.(balances := b.balances[(account, id) := b.Balance(account, id) + delta])
  }

  lemma CreditShifts(b: Books, account: AccountId, id: AssetId, delta: int)
    requires b.Balance(account, id) + delta >= 0
    ensures forall a :: Gap(Credit(b, account, id, delta), a) == Gap(b, a) + (if a == id then delta else 0)
  {
    var balance: nat := b.Balance(account, id) + delta;
    forall a
      ensures Gap(Credit(b, account, id, delta), a) == Gap(b, a) + (if a == id then delta else 0)
    {
      SumPut(b.balances, BalanceIn(a), (account, id), balance);
    }
  }

  // How one object put into the books or dropped from them moves the gaps.

  lemma PutLimit(b: Books, id: OrderId, o: LimitOrder)
    ensures forall a :: Gap(b.(limits := b.limits[id := o]), a) ==
              Gap(b, a) - (if id in b.limits then SellingIn(a)(id, b.limits[id]) else 0) + SellingIn(a)(id, o)
  {
    forall a {
      SumPut(b.limits, SellingIn(a), id, o);
    }
  }

  lemma DropLimit(b: Books, id: OrderId)
    requires id in b.limits
    ensures forall a :: Gap(b.(limits := b.limits - {id}), a) == Gap(b, a) - SellingIn(a)(id, b.limits[id])
  {
    forall a {
      SumWithout(b.limits, SellingIn(a), id);
    }
  }

  lemma PutCall(b: Books, id: OrderId, c: CallOrder)
    ensures forall a :: Gap(b.(calls := b.calls[id := c]), a) ==
              Gap(b, a) - (if id in b.calls then CollateralIn(a)(id, b.calls[id]) else 0) + CollateralIn(a)(id, c)
    ensures forall a :: Debt(b.(calls := b.calls[id := c]), a) ==
              Debt(b, a) - (if id in b.calls then DebtIn(a)(id, b.calls[id]) else 0) + DebtIn(a)(id, c)
  {
    forall a {
      SumPut(b.calls, CollateralIn(a), id, c);
    }
    forall a {
      SumPut(b.calls, DebtIn(a), id, c);
    }
  }

  lemma DropCall(b: Books, id: OrderId)
    requires id in b.calls
    ensures forall a :: Gap(b.(calls := b.calls - {id}), a) == Gap(b, a) - CollateralIn(a)(id, b.calls[id])
    ensures forall a :: Debt(b.(calls := b.calls - {id}), a) == Debt(b, a) - DebtIn(a)(id, b.calls[id])
  {
    DropCollateral(b, id);
    DropDebt(b, id);
  }

  lemma DropCollateral(b: Books, id: OrderId)
    requires id in b.calls
    ensures forall a :: Gap(b.(calls := b.calls - {id}), a) == Gap(b, a) - CollateralIn(a)(id, b.calls[id])
  {
    forall a {
      SumWithout(b.calls, CollateralIn(a), id);
    }
  }

  lemma DropDebt(b: Books, id: OrderId)
    requires id in b.calls
    ensures forall a :: Debt(b.(calls := b.calls - {id}), a) == Debt(b, a) - DebtIn(a)(id, b.calls[id])
  {
    forall a {
      SumWithout(b.calls, DebtIn(a), id);
    }
  }

  lemma PutSettlement(b: Books, id: OrderId, s: Settlement)
    ensures forall a :: Gap(b.(settlements := b.settlements[id := s]), a) ==
              Gap(b, a) - (if id in b.settlements then SettlingIn(a)(id, b.settlements[id]) else 0)
              + SettlingIn(a)(id, s)
  {
    forall a {
      SumPut(b.settlements, SettlingIn(a), id, s);
    }
  }

  lemma DropSettlement(b: Books, id: OrderId)
    requires id in b.settlements
    ensures forall a ::
      Gap(b.(settlements := b.settlements - {id}), a) == Gap(b, a) - SettlingIn(a)(id, b.settlements[id])
  {
    forall a {
      SumWithout(b.settlements, SettlingIn(a), id);
    }
  }

  lemma PutBid(b: Books, id: OrderId, bid: Bid)
    ensures forall a :: Gap(b.(bids := b.bids[id := bid]), a) ==
              Gap(b, a) - (if id in b.bids then BiddingIn(a)(id, b.bids[id]) else 0) + BiddingIn(a)(id, bid)
  {
    forall a {
      SumPut(b.bids, BiddingIn(a), id, bid);
    }
  }

  lemma DropBid(b: Books, id: OrderId)
    requires id in b.bids
    ensures forall a :: Gap(b.(bids := b.bids - {id}), a) == Gap(b, a) - BiddingIn(a)(id, b.bids[id])
  {
    forall a {
      SumWithout(b.bids, BiddingIn(a), id);
    }
  }

  lemma PutBitasset(b: Books, id: AssetId, m: Bitasset)
    ensures forall a :: Gap(b.(bitassets := b.bitassets[id := m]), a) ==
              Gap(b, a) - (if id in b.bitassets then FundIn(a)(id, b.bitassets[id]) else 0) + FundIn(a)(id, m)
  {
    forall a {
      SumPut(b.bitassets, FundIn(a), id, m);
    }
  }

  /** The fee is the asset's percentage, rounded down, but never more than its maximum. */
  function MarketFee(rules: FeeRules, id: AssetId, amount: nat): (fee: nat)
    ensures fee <= amount && fee <= rules(id).max
    ensures fee * HUNDRED_PERCENT <= amount * rules(id).percent
    ensures fee < rules(id).max ==> amount * rules(id).percent < (fee + 1) * HUNDRED_PERCENT
  {
    var r := rules(id);
    var percentFee := amount * r.percent / HUNDRED_PERCENT;
    PercentIsPart(amount, r.percent);
    if percentFee > r.max then r.max else percentFee
  }

  lemma PercentIsPart(amount: nat, percent: Percent)
    ensures 0 <= amount * percent / HUNDRED_PERCENT <= amount
  {}

  function CancelLimit(b: Books, id: OrderId): Books
    requires id in b.limits
  {
    var o := b.limits[id];
    var b1 := Credit(b, o.seller, o.price.base.id, o.forSale);
    var b2 := Credit(b1, o.seller, CORE, o.deferredFee);
    b2.(limits := b2.limits - {id})
  }

  lemma CancelLimitKeepsGaps(b: Books, id: OrderId)
    requires id in b.limits
    ensures SameGaps(b, CancelLimit(b, id))
  {
    var o := b.limits[id];
    CreditShifts(b, o.seller, o.price.base.id, o.forSale);
    var b1 := Credit(b, o.seller, o.price.base.id, o.forSale);
    CreditShifts(b1, o.seller, CORE, o.deferredFee);
    DropLimit(Credit(b1, o.seller, CORE, o.deferredFee), id);
  }

  function CollectFee(b: Books, id: AssetId, fee: nat): Books {
    b.(fees := b.fees[id := b.Fees(id) + fee])
  }

  /** Market fees on what is received, the rest to the account. */
  function Receive(rules: FeeRules, b: Books, account: AccountId, id: AssetId, amount: nat): Books {
    var fee := MarketFee(rules, id, amount);
    Credit(CollectFee(b, id, fee), account, id, amount - fee)
  }

  lemma ReceiveShifts(rules: FeeRules, b: Books, account: AccountId, id: AssetId, amount: nat)
    ensures forall a :: Gap(Receive(rules, b, account, id, amount), a) == Gap(b, a) + (if a == id then amount else 0)
  {
    var fee := MarketFee(rules, id, amount);
    var b1 := CollectFee(b, id, fee);
    forall a
      ensures Gap(b1, a) == Gap(b, a) + (if a == id then fee else 0)
    {}
    CreditShifts(b1, account, id, amount - fee);
  }

  /** Takes what was paid out of the order; its deferred fee becomes a pending fee. */
  function PayFromLimit(b: Books, id: OrderId, pays: nat): Books
    requires id in b.limits && pays <= b.limits[id].forSale
  {
    var o := b.limits[id];
    var b1 := b.(pendingFees := b.pendingFees + o.deferredFee);
    if pays == o.forSale then b1.(limits := b.limits - {id})
    else b1.(limits := b.limits[id := o.(forSale := o.forSale - pays, deferredFee := 0)])
  }

  lemma PayFromLimitShifts(b: Books, id: OrderId, pays: nat)
    requires id in b.limits && pays <= b.limits[id].forSale
    ensures forall a ::
      Gap(PayFromLimit(b, id, pays), a) == Gap(b, a) - (if a == b.limits[id].price.base.id then pays else 0)
  {
    forall a
      ensures Gap(PayFromLimit(b, id, pays), a) == Gap(b, a) - (if a == b.limits[id].price.base.id then pays else 0)
    {
      if pays == b.limits[id].forSale {
        PayAllFromLimit(b, id, a);
      } else {
        PayPartFromLimit(b, id, pays, a);
      }
    }
  }

  lemma PayAllFromLimit(b: Books, id: OrderId, a: AssetId)
    requires id in b.limits
    ensures var o := b.limits[id];
      Gap(PayFromLimit(b, id, o.forSale), a) == Gap(b, a) - (if a == o.price.base.id then o.forSale else 0)
  {
    SumWithout(b.limits, SellingIn(a), id);
  }

  lemma PayPartFromLimit(b: Books, id: OrderId, pays: nat, a: AssetId)
    requires id in b.limits && pays < b.limits[id].forSale
    ensures var o := b.limits[id];
      Gap(PayFromLimit(b, id, pays), a) == Gap(b, a) - (if a == o.price.base.id then pays else 0)
  {
    var o := b.limits[id];
    SumPut(b.limits, SellingIn(a), id, o.(forSale := o.forSale - pays, deferredFee := 0));
  }

  /** Refunds an order whose remainder asks for nothing. */
  function CullIfSmall(b: Books, id: OrderId): Books
    requires id in b.limits ==> b.limits[id].price.Positive()
  {
    if id in b.limits && b.limits[id].Worth() == 0 then CancelLimit(b, id) else b
  }

  function FillLimit(rules: FeeRules, b: Books, id: OrderId, pays: nat, receives: nat, cull: bool): Books
    requires id in b.limits && pays <= b.limits[id].forSale && b.limits[id].price.Positive()
  {
    var o := b.limits[id];
    var b' := PayFromLimit(Receive(rules, b, o.seller, o.price.quote.id, receives), id, pays);
    if cull then CullIfSmall(b', id) else b'
  }

  lemma FillLimitShifts(rules: FeeRules, b: Books, id: OrderId, pays: nat, receives: nat, cull: bool)
    requires id in b.limits && pays <= b.limits[id].forSale && b.limits[id].price.Positive()
    ensures var p := b.limits[id].price;
      Shifts(b, FillLimit(rules, b, id, pays, receives, cull), Asset(pays, p.base.id), Asset(receives, p.quote.id))
  {
    var o := b.limits[id];
    var b1 := Receive(rules, b, o.seller, o.price.quote.id, receives);
    ReceiveShifts(rules, b, o.seller, o.price.quote.id, receives);
    PayFromLimitShifts(b1, id, pays);
    var b2 := PayFromLimit(b1, id, pays);
    if id in b2.limits {
      CancelLimitKeepsGaps(b2, id);
    }
  }

  /** Takes debt and collateral off the call order; one without debt is closed. */
  function PayFromCall(b: Books, id: OrderId, pays: nat, receives: nat): Books
    requires id in b.calls && pays <= b.calls[id].collateral && receives <= b.calls[id].debt
  {
    var c := b.calls[id];
    var c' := c.(debt := c.debt - receives, collateral := c.collateral - pays);
    if c'.debt == 0 then
      Credit(b, c.borrower, c.CollateralType(), c'.collateral).(calls := b.calls - {id})
    else b.(calls := b.calls[id := c'])
  }

  lemma PayFromCallShifts(b: Books, id: OrderId, pays: nat, receives: nat)
    requires id in b.calls && pays <= b.calls[id].collateral && receives <= b.calls[id].debt
    ensures var c := b.calls[id]; var b' := PayFromCall(b, id, pays, receives);
      && (forall a :: Gap(b', a) == Gap(b, a) - (if a == c.CollateralType() then pays else 0))
      && (forall a :: Debt(b', a) == Debt(b, a) - (if a == c.DebtType() then receives else 0))
  {
    var c := b.calls[id];
    var c' := c.(debt := c.debt - receives, collateral := c.collateral - pays);
    if c'.debt == 0 {
      CreditShifts(b, c.borrower, c.CollateralType(), c'.collateral);
      DropCall(Credit(b, c.borrower, c.CollateralType(), c'.collateral), id);
    } else {
      PutCall(b, id, c');
    }
  }

  function AddSupply(b: Books, id: AssetId, delta: int): Books {
    b.(supply := b.supply[id := b.Supply(id) + delta])
  }

  function FillCall(b: Books, id: OrderId, pays: nat, receives: nat): Books
    requires id in b.calls && pays <= b.calls[id].collateral && receives <= b.calls[id].debt
  {
    PayFromCall(AddSupply(b, b.calls[id].DebtType(), 0 - receives), id, pays, receives)
  }

  lemma FillCallShifts(b: Books, id: OrderId, pays: nat, receives: nat)
    requires id in b.calls && pays <= b.calls[id].collateral && receives <= b.calls[id].debt
    ensures var c := b.calls[id]; var b' := FillCall(b, id, pays, receives);
      Shifts(b, b', Asset(pays, c.CollateralType()), Asset(receives, c.DebtType()))
    ensures SameDebtGaps(b, FillCall(b, id, pays, receives))
  {
    hide Gap, Debt;
    var b1 := AddSupply(b, b.calls[id].DebtType(), 0 - receives);
    AddSupplyShifts(b, b.calls[id].DebtType(), 0 - receives);
    PayFromCallShifts(b1, id, pays, receives);
    PayFromCallSupply(b1, id, pays, receives);
  }

  lemma AddSupplyShifts(b: Books, id: AssetId, delta: int)
    ensures forall a :: Gap(AddSupply(b, id, delta), a) == Gap(b, a) - (if a == id then delta else 0)
    ensures forall a :: Debt(AddSupply(b, id, delta), a) == Debt(b, a)
  {}

  lemma PayFromCallSupply(b: Books, id: OrderId, pays: nat, receives: nat)
    requires id in b.calls && pays <= b.calls[id].collateral && receives <= b.calls[id].debt
    ensures PayFromCall(b, id, pays, receives).supply == b.supply
  {
    if receives == b.calls[id].debt {
    } else {
    }
  }

  function FillSettlement(rules: FeeRules, b: Books, id: OrderId, pays: nat, receives: Asset): Books
    requires id in b.settlements
  {
    var s := b.settlements[id];
    var b1 := Receive(rules, b, s.owner, receives.id, receives.amount);
    if pays < s.balance.amount then
      b1.(settlements := b.settlements[id := s.(balance := Asset(s.balance.amount - pays, s.balance.id))])
    else b1.(settlements := b.settlements - {id})
  }

  lemma FillSettlementShifts(rules: FeeRules, b: Books, id: OrderId, pays: nat, receives: Asset)
    requires id in b.settlements && pays <= b.settlements[id].balance.amount
    ensures Shifts(b, FillSettlement(rules, b, id, pays, receives), Asset(pays, b.settlements[id].balance.id), receives)
  {
    var s := b.settlements[id];
    ReceiveShifts(rules, b, s.owner, receives.id, receives.amount);
    var b1 := Receive(rules, b, s.owner, receives.id, receives.amount);
    if pays < s.balance.amount {
      PutSettlement(b1, id, s.(balance := Asset(s.balance.amount - pays, s.balance.id)));
    } else {
      DropSettlement(b1, id);
    }
  }

  function CancelSettlement(b: Books, id: OrderId): Books
    requires id in b.settlements
  {
    var s := b.settlements[id];
    Credit(b, s.owner, s.balance.id, s.balance.amount).(settlements := b.settlements - {id})
  }

  lemma CancelSettlementKeepsGaps(b: Books, id: OrderId)
    requires id in b.settlements
    ensures SameGaps(b, CancelSettlement(b, id))
  {
    var s := b.settlements[id];
    CreditShifts(b, s.owner, s.balance.id, s.balance.amount);
    DropSettlement(Credit(b, s.owner, s.balance.id, s.balance.amount), id);
  }

  function CancelBid(b: Books, id: OrderId): Books
    requires id in b.bids
  {
    var bid := b.bids[id];
    Credit(b, bid.bidder, bid.invSwanPrice.base.id, bid.invSwanPrice.base.amount).(bids := b.bids - {id})
  }

  lemma CancelBidKeepsGaps(b: Books, id: OrderId)
    requires id in b.bids
    ensures SameGaps(b, CancelBid(b, id))
  {
    var bid := b.bids[id];
    var base := bid.invSwanPrice.base;
    CreditShifts(b, bid.bidder, base.id, base.amount);
    DropBid(Credit(b, bid.bidder, base.id, base.amount), id);
  }
}

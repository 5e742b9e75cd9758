/**
  The settlement of due settlement orders at the end of a block: asset by asset, each order
  against the least collateralised positions, until the volume allowed for the asset is used.
 */
module ForceSettlement {
  import opened Commons
  import opened Wrappers
  import opened Prices
  import opened Books
  import opened MarketRules
  import opened Markets

  // ----- the volume that may be settled ---------------------------------------------------

  function MaxVolume(x: Bitasset, supply: nat): nat {
    if x.maxVolumePercent == 0 then 0
    else if x.maxVolumePercent == HUNDRED_PERCENT then supply + x.forceSettled
    else (supply + x.forceSettled) * x.maxVolumePercent / HUNDRED_PERCENT
  }

  ghost function Cap(b: Books, m: AssetId): nat
    requires m in b.bitassets
  {
    if b.Supply(m) >= 0 then MaxVolume(b.bitassets[m], b.Supply(m)) else 0
  }

  /** The volume allowed is the percentage of what there was to settle, rounded down. */
  lemma VolumeIsThePercentage(x: Bitasset, supply: nat)
    ensures RoundsDown(MaxVolume(x, supply), (supply + x.forceSettled) * x.maxVolumePercent, HUNDRED_PERCENT)
  {
    FloorBounds((supply + x.forceSettled) * x.maxVolumePercent, HUNDRED_PERCENT);
  }

  /** The volume allowed is part of what there was to settle. */
  lemma CapWithinVolume(x: Bitasset, supply: nat)
    ensures MaxVolume(x, supply) <= supply + x.forceSettled
  {}

  /** Settlements move an asset's supply to its settled volume, which leaves the cap as it was. */
  ghost predicate Advanced(b: Books, b': Books, m: AssetId) {
    m in b.bitassets ==>
      && m in b'.bitassets
      && var x, x' := b.bitassets[m], b'.bitassets[m];
      && x' == x.(forceSettled := x'.forceSettled)
      && b'.Supply(m) + x'.forceSettled == b.Supply(m) + x.forceSettled
      && x.forceSettled <= x'.forceSettled
      && (x'.forceSettled == x.forceSettled || x'.forceSettled <= Cap(b, m))
      && 0 <= b'.Supply(m)
  }

  lemma CapStays(b: Books, b': Books, m: AssetId)
    requires Advanced(b, b', m) && m in b.bitassets && b.Supply(m) >= 0
    ensures Cap(b', m) == Cap(b, m)
  {}

  lemma AdvancedTransitive(b: Books, b1: Books, b2: Books, m: AssetId)
    requires Advanced(b, b1, m) && Advanced(b1, b2, m) && (m in b.bitassets ==> b.Supply(m) >= 0)
    ensures Advanced(b, b2, m)
  {}

  // ----- the order of the settlement index ------------------------------------------------

  predicate Before(s: Settlement, i: OrderId, t: Settlement, j: OrderId) {
    if s.balance.id != t.balance.id then s.balance.id < t.balance.id
    else if s.date != t.date then s.date < t.date
    else i < j
  }

  ghost predicate IsFirst(settlements: map<OrderId, Settlement>, id: OrderId, from: AssetId) {
    && id in settlements && settlements[id].balance.id >= from
    && forall j <- settlements :: settlements[j].balance.id >= from && j != id ==>
         Before(settlements[id], id, settlements[j], j)
  }

  lemma FirstIsUnique(settlements: map<OrderId, Settlement>, from: AssetId, id: OrderId, other: OrderId)
    requires IsFirst(settlements, id, from) && IsFirst(settlements, other, from)
    ensures id == other
  {}

  ghost function FirstOf(settlements: map<OrderId, Settlement>, from: AssetId): (first: Option<OrderId>)
    ensures first.Some? ==> IsFirst(settlements, first.value, from)
    ensures first.None? ==> forall i :: !IsFirst(settlements, i, from)
  {
    if exists i :: IsFirst(settlements, i, from) then
      var i :| IsFirst(settlements, i, from);
      Some(i)
    else None
  }

  lemma FirstOfIs(settlements: map<OrderId, Settlement>, from: AssetId, id: OrderId)
    requires IsFirst(settlements, id, from)
    ensures FirstOf(settlements, from) == Some(id)
  {
    FirstIsUnique(settlements, from, id, FirstOf(settlements, from).value);
  }

  /** The first settlement order of this asset or a later one. */
  method FirstFrom(settlements: map<OrderId, Settlement>, from: AssetId) returns (first: Option<OrderId>)
    ensures first == FirstOf(settlements, from)
    ensures first.None? <==> forall i <- settlements :: settlements[i].balance.id < from
    ensures first.Some? ==> IsFirst(settlements, first.value, from)
  {
    var keys := set i | i in settlements && settlements[i].balance.id >= from;
    if keys == {} {
      forall i | i in settlements
        ensures settlements[i].balance.id < from
      {
        assert i !in keys;
      }
      return None;
    }
    var best :| best in keys;
    var todo := keys - {best};
    while todo != {}
      invariant best in keys && todo <= keys
      invariant forall j <- keys :: j !in todo && j != best ==> Before(settlements[best], best, settlements[j], j)
    {
      var i :| i in todo;
      todo := todo - {i};
      if Before(settlements[i], i, settlements[best], best) {
        best := i;
      }
    }
    forall j | j in settlements && settlements[j].balance.id >= from && j != best
      ensures Before(settlements[best], best, settlements[j], j)
    {
      assert j in keys;
    }
    FirstOfIs(settlements, from, best);
    return Some(best);
  }

  /** The next asset after this one that has settlement orders. */
  method NextAsset(settlements: map<OrderId, Settlement>, current: AssetId) returns (next: Option<AssetId>)
    ensures next == var first := FirstOf(settlements, current + 1);
      if first.None? then None else Some(settlements[first.value].balance.id)
    ensures next.None? <==> forall i <- settlements :: settlements[i].balance.id <= current
    ensures next.Some? ==> next.value > current && exists i <- settlements :: settlements[i].balance.id == next.value
    ensures next.Some? ==>
      forall i <- settlements :: settlements[i].balance.id > current ==> settlements[i].balance.id >= next.value
  {
    var bound := FirstFrom(settlements, current + 1);
    next := if bound.None? then None else Some(settlements[bound.value].balance.id);
  }

  /** The position with the least collateral for its debt, and the oldest of these. */
  ghost predicate IsLeastCollateralised(b: Books, m: AssetId, call: OrderId) {
    && call in b.calls && b.calls[call].DebtType() == m
    && forall i <- b.calls :: i != call && b.calls[i].DebtType() == m ==>
         Ahead(b.calls[call].Collateralization().Inverse(), call, b.calls[i].Collateralization().Inverse(), i)
  }

  lemma LeastIsUnique(b: Books, m: AssetId, call: OrderId, other: OrderId)
    requires IsLeastCollateralised(b, m, call) && IsLeastCollateralised(b, m, other)
    ensures call == other
  {}

  ghost function LeastOf(b: Books, m: AssetId): (call: Option<OrderId>)
    ensures call.Some? ==> IsLeastCollateralised(b, m, call.value)
    ensures call.None? ==> forall i :: !IsLeastCollateralised(b, m, i)
  {
    if exists i :: IsLeastCollateralised(b, m, i) then
      var i :| IsLeastCollateralised(b, m, i);
      Some(i)
    else None
  }

  lemma LeastOfIs(b: Books, m: AssetId, call: OrderId)
    requires IsLeastCollateralised(b, m, call)
    ensures LeastOf(b, m) == Some(call)
  {
    LeastIsUnique(b, m, call, LeastOf(b, m).value);
  }

  /** The position with the least collateral for its debt. */
  method LeastCollateralised(k: Market, m: AssetId) returns (call: Option<OrderId>)
    requires Core(k.books)
    ensures call == LeastOf(k.books, m)
    ensures call.None? <==> forall i <- k.books.calls :: k.books.calls[i].DebtType() != m
    ensures call.Some? ==> IsLeastCollateralised(k.books, m, call.value)
  {
    hide Core, Less;
    var b := k.books;
    var keys := map i | i in b.calls && b.calls[i].DebtType() == m :: b.calls[i].Collateralization().Inverse();
    if keys == map[] {
      assert forall i <- b.calls :: b.calls[i].DebtType() == m ==> i in keys;
      return None;
    }
    CollateralKeys(b, m, keys);
    var best := First(keys);
    assert best in keys;
    forall i | i in b.calls && i != best && b.calls[i].DebtType() == m
      ensures Ahead(b.calls[best].Collateralization().Inverse(), best, b.calls[i].Collateralization().Inverse(), i)
    {
      assert i in keys;
    }
    LeastOfIs(b, m, best);
    return Some(best);
  }

  lemma CollateralKeys(b: Books, m: AssetId, keys: map<OrderId, Price>)
    requires Core(b)
    requires forall i <- keys ::
      i in b.calls && b.calls[i].DebtType() == m && keys[i] == b.calls[i].Collateralization().Inverse()
    ensures forall i <- keys :: Ranked(keys[i])
    ensures forall i, j :: i in keys && j in keys ==> SameMarket(keys[i], keys[j])
  {
    forall i | i in keys
      ensures Ranked(keys[i]) && m in b.bitassets && keys[i].quote.id == b.bitassets[m].backing
    {
      assert CallOk(b, i);
    }
  }

  /** No position of the asset has less collateral for its debt than that one. */
  lemma LeastIsLowest(b: Books, m: AssetId, call: OrderId)
    requires Core(b) && IsLeastCollateralised(b, m, call)
    ensures forall i <- b.calls :: b.calls[i].DebtType() == m ==>
              b.calls[call].collateral * b.calls[i].debt <= b.calls[i].collateral * b.calls[call].debt
  {
    forall i | i in b.calls && b.calls[i].DebtType() == m
      ensures b.calls[call].collateral * b.calls[i].debt <= b.calls[i].collateral * b.calls[call].debt
    {
      assert CallOk(b, i) && CallOk(b, call);
    }
  }

  // ----- one settlement order -------------------------------------------------------------

  /** How far the settling of one order of the asset has come since the books were `b`. */
  ghost predicate SettlingUnderWay(b: Books, b': Books, m: AssetId, id: OrderId, settled: nat) {
    && Core(b') && SameGaps(b, b') && b'.limits == b.limits && b'.bids == b.bids && b'.bitassets == b.bitassets
    && m in b.bitassets && b'.Supply(m) + settled == b.Supply(m) + b.bitassets[m].forceSettled
    && b.bitassets[m].forceSettled <= settled && b'.calls.Keys <= b.calls.Keys
    && (forall n :: n != m ==> b'.Supply(n) == b.Supply(n))
    && OrderShrinks(b.settlements, b'.settlements, id)
  }

  /** The one settlement order may shrink or go; the others stay. */
  ghost predicate OrderShrinks(s: map<OrderId, Settlement>, s': map<OrderId, Settlement>, id: OrderId) {
    && id in s && s' - {id} == s - {id}
    && (id in s' ==> s'[id] == s[id].(balance := s'[id].balance)
                     && s'[id].balance.id == s[id].balance.id && s'[id].balance.amount <= s[id].balance.amount)
  }

  function Matched(rules: FeeRules, b: Books, call: OrderId, id: OrderId, pays: nat, receives: nat): Books
    requires call in b.calls && id in b.settlements && pays <= b.calls[call].collateral
    requires receives <= b.calls[call].debt && receives <= b.settlements[id].balance.amount
  {
    FillCallFrame(b, call, pays, receives);
    FillSettlement(rules, FillCall(b, call, pays, receives), id, receives, Asset(pays, b.calls[call].CollateralType()))
  }

  lemma MatchedKeepsGaps(rules: FeeRules, b: Books, call: OrderId, id: OrderId, pays: nat, receives: nat)
    requires call in b.calls && id in b.settlements && pays <= b.calls[call].collateral
    requires receives <= b.calls[call].debt && receives <= b.settlements[id].balance.amount
    requires b.settlements[id].balance.id == b.calls[call].DebtType()
    ensures SameGaps(b, Matched(rules, b, call, id, pays, receives))
  {
    var c := b.calls[call];
    var b1 := FillCall(b, call, pays, receives);
    var paid := Asset(pays, c.CollateralType());
    FillCallFrame(b, call, pays, receives);
    FillCallShifts(b, call, pays, receives);
    FillSettlementShifts(rules, b1, id, receives, paid);
    SwapKeepsGaps(b, b1, Matched(rules, b, call, id, pays, receives), paid, Asset(receives, c.DebtType()));
  }

  lemma ReceiveFrame(rules: FeeRules, b: Books, account: AccountId, id: AssetId, amount: nat)
    ensures SameCore(b, Receive(rules, b, account, id, amount))
    ensures Receive(rules, b, account, id, amount).limits == b.limits
  {}

  lemma FillSettlementFrame(rules: FeeRules, b: Books, id: OrderId, pays: nat, receives: Asset)
    requires id in b.settlements && pays <= b.settlements[id].balance.amount
    ensures var b' := FillSettlement(rules, b, id, pays, receives);
      && b'.limits == b.limits && b'.bids == b.bids && b'.bitassets == b.bitassets
      && b'.calls == b.calls && b'.supply == b.supply
    ensures OrderShrinks(b.settlements, FillSettlement(rules, b, id, pays, receives).settlements, id)
  {
    hide Receive;
    ReceiveFrame(rules, b, b.settlements[id].owner, receives.id, receives.amount);
    if pays < b.settlements[id].balance.amount {
    } else {
    }
  }

  /** A settlement order that shrinks or goes leaves the core invariant alone. */
  lemma ShrunkOrderKeepsCore(b: Books, b': Books, id: OrderId)
    requires Core(b) && b'.bitassets == b.bitassets && b'.calls == b.calls && b'.supply == b.supply && b'.bids == b.bids
    requires OrderShrinks(b.settlements, b'.settlements, id)
    ensures Core(b')
  {
    forall n
      ensures BitassetOk(b', n)
    {
      assert BitassetOk(b, n);
      assert Debt(b', n) == Debt(b, n);
    }
    forall i
      ensures CallOk(b', i) && SettlementOk(b', i) && BidOk(b', i)
    {
      assert CallOk(b, i) && SettlementOk(b, i) && BidOk(b, i);
      assert i in b'.settlements && i != id ==> i in b'.settlements - {id};
    }
  }

  lemma MatchedKeepsCore(rules: FeeRules, b: Books, call: OrderId, id: OrderId, pays: nat, receives: nat)
    requires Core(b) && call in b.calls && id in b.settlements && pays <= b.calls[call].collateral
    requires receives <= b.calls[call].debt && receives <= b.settlements[id].balance.amount
    ensures var b' := Matched(rules, b, call, id, pays, receives);
      && Core(b') && b'.limits == b.limits && b'.bids == b.bids && b'.bitassets == b.bitassets
      && b'.calls.Keys <= b.calls.Keys && OrderShrinks(b.settlements, b'.settlements, id)
    ensures forall n :: Matched(rules, b, call, id, pays, receives).Supply(n) ==
                        b.Supply(n) - (if n == b.calls[call].DebtType() then receives else 0)
  {
    var b1 := FillCall(b, call, pays, receives);
    var paid := Asset(pays, b.calls[call].CollateralType());
    FillCallKeepsCore(b, call, pays, receives);
    FillCallFrame(b, call, pays, receives);
    FillCallKeys(b, call, pays, receives);
    FillSettlementFrame(rules, b1, id, receives, paid);
    FillCallSupply(b, call, pays, receives);
    ShrunkOrderKeepsCore(b1, Matched(rules, b, call, id, pays, receives), id);
  }

  lemma MatchedFrame(rules: FeeRules, b: Books, call: OrderId, id: OrderId, pays: nat, receives: nat)
    requires call in b.calls && id in b.settlements && pays <= b.calls[call].collateral
    requires receives <= b.calls[call].debt && receives <= b.settlements[id].balance.amount
    ensures Matched(rules, b, call, id, pays, receives).bitassets == b.bitassets
  {
    hide FillCall, FillSettlement;
    FillCallFrame(b, call, pays, receives);
    FillSettlementFrame(rules, FillCall(b, call, pays, receives), id, receives,
      Asset(pays, b.calls[call].CollateralType()));
  }

  lemma OrderShrinksTransitive(
      s: map<OrderId, Settlement>, s1: map<OrderId, Settlement>, s2: map<OrderId, Settlement>, id: OrderId)
    requires OrderShrinks(s, s1, id) && OrderShrinks(s1, s2, id)
    ensures OrderShrinks(s, s2, id)
  {}

  lemma SettlingGoesOn(
      rules: FeeRules, b: Books, b1: Books, m: AssetId, settled: nat, call: OrderId, id: OrderId, pays: nat,
      receives: nat)
    requires SettlingUnderWay(b, b1, m, id, settled)
    requires call in b1.calls && id in b1.settlements && pays <= b1.calls[call].collateral
    requires receives <= b1.calls[call].debt && receives <= b1.settlements[id].balance.amount
    requires b1.settlements[id].balance.id == m == b1.calls[call].DebtType()
    ensures SettlingUnderWay(b, Matched(rules, b1, call, id, pays, receives), m, id, settled + receives)
  {
    var b2 := Matched(rules, b1, call, id, pays, receives);
    MatchedKeepsGaps(rules, b1, call, id, pays, receives);
    MatchedKeepsCore(rules, b1, call, id, pays, receives);
    GapsTransitive(b, b1, b2);
    OrderShrinksTransitive(b.settlements, b1.settlements, b2.settlements, id);
  }

  lemma SettlingCancelled(b: Books, b1: Books, m: AssetId, settled: nat, id: OrderId)
    requires SettlingUnderWay(b, b1, m, id, settled) && id in b1.settlements
    ensures SettlingUnderWay(b, CancelSettlement(b1, id), m, id, settled)
    ensures id !in CancelSettlement(b1, id).settlements
  {
    var b2 := CancelSettlement(b1, id);
    CancelSettlementKeepsGaps(b1, id);
    GapsTransitive(b, b1, b2);
    ShrunkOrderKeepsCore(b1, b2, id);
    OrderShrinksTransitive(b.settlements, b1.settlements, b2.settlements, id);
  }

  /** While the cap is not reached there is supply left, so there is a position to settle with. */
  lemma AlwaysACall(b: Books, b1: Books, m: AssetId, settled: nat, id: OrderId)
    requires SettlingUnderWay(b, b1, m, id, settled) && b.bitassets[m].settlement.None?
    requires b.Supply(m) >= 0 && settled < Cap(b, m)
    ensures exists i <- b1.calls :: b1.calls[i].DebtType() == m
  {
    CapWithinVolume(b.bitassets[m], b.Supply(m));
    assert BitassetOk(b1, m);
    if forall i <- b1.calls :: b1.calls[i].DebtType() != m {
      NoCallsNoDebt(b1, m);
    }
  }

  /** Notes the settled volume in the asset. */
  function Stored(b: Books, m: AssetId, settled: nat): Books
    requires m in b.bitassets
  {
    b.(bitassets := b.bitassets[m := b.bitassets[m].(forceSettled := settled)])
  }

  lemma StoredKeeps(b: Books, m: AssetId, settled: nat)
    requires Core(b) && m in b.bitassets
    ensures Core(Stored(b, m, settled)) && SameGaps(b, Stored(b, m, settled))
  {
    var b' := Stored(b, m, settled);
    PutBitasset(b, m, b.bitassets[m].(forceSettled := settled));
    forall n
      ensures BitassetOk(b', n)
    {
      assert BitassetOk(b, n);
      assert Debt(b', n) == Debt(b, n);
    }
    forall i
      ensures CallOk(b', i) && SettlementOk(b', i) && BidOk(b', i)
    {
      assert CallOk(b, i) && SettlementOk(b, i) && BidOk(b, i);
    }
  }

  lemma StoredAdvances(b: Books, b1: Books, m: AssetId, settled: nat, id: OrderId)
    requires SettlingUnderWay(b, b1, m, id, settled) && b.bitassets[m].settlement.None? && Core(b)
    requires settled <= Cap(b, m)
    ensures forall n :: Advanced(b, Stored(b1, m, settled), n)
    ensures b.Supply(m) >= 0
  {
    forall n | n in b.bitassets
      ensures Advanced(b, Stored(b1, m, settled), n)
    {
      SupplyNonNegative(b, n);
      SupplyNonNegative(b1, n);
    }
    SupplyNonNegative(b, m);
  }

  /** Cancelling settlement orders touches nothing that the cap depends on. */
  lemma CancelAdvances(b: Books, id: OrderId)
    requires Core(b) && id in b.settlements
    ensures Core(CancelSettlement(b, id)) && SameGaps(b, CancelSettlement(b, id))
    ensures forall n :: Advanced(b, CancelSettlement(b, id), n)
  {
    var b' := CancelSettlement(b, id);
    CancelSettlementKeepsGaps(b, id);
    assert OrderShrinks(b.settlements, b'.settlements, id);
    ShrunkOrderKeepsCore(b, b', id);
    forall n | n in b.bitassets
      ensures Advanced(b, b', n)
    {
      SupplyNonNegative(b, n);
    }
  }

  /** The order pays, its owner receives less the market fees; an order paid in full is gone. */
  method FillSettlementOrder(k: Market, id: OrderId, pays: nat, receives: Asset)
    requires id in k.books.settlements
    modifies k`books
    ensures k.books == FillSettlement(k.feeRules, old(k.books), id, pays, receives)
  {
    var s := k.books.settlements[id];
    var fee := k.PayMarketFees(receives.id, receives.amount);
    var paid := k.AdjustBalance(s.owner, receives.id, receives.amount - fee);
    if pays < s.balance.amount {
      k.books := k.books.(settlements := k.books.settlements[id := s.(balance := Asset(s.balance.amount - pays,
        s.balance.id))]);
    } else {
      k.books := k.books.(settlements := k.books.settlements - {id});
    }
  }

  /** What a position buys from a settlement order. */
  function MatchAmount(order: nat, maxSettlement: nat, debt: nat): nat {
    Min(Min(order, maxSettlement), debt)
  }

  /** As much as order, volume and debt all leave: one of the three is used up. */
  lemma MatchUsesOneUp(order: nat, maxSettlement: nat, debt: nat)
    ensures var n := MatchAmount(order, maxSettlement, debt);
      n <= order && n <= maxSettlement && n <= debt && (n == order || n == maxSettlement || n == debt)
  {}

  /** What a match does: it throws, it finds a black swan, or the position buys so much of the order. */
  datatype Match = MatchThrows | MatchSwan | MatchFills(books: Books, receives: nat)

  /** A position that cannot pay the price with less than all its collateral is a black swan. */
  function MatchOf(rules: FeeRules, b: Books, call: OrderId, id: OrderId, price: Price, maxSettlement: nat): (r: Match)
    requires call in b.calls && id in b.settlements
    ensures r.MatchFills? && maxSettlement > 0 ==> 0 < r.receives <= maxSettlement
    ensures r.MatchFills? ==> r.books.bitassets == b.bitassets
  {
    var c, order := b.calls[call], b.settlements[id].balance;
    var receives := MatchAmount(order.amount, maxSettlement, c.debt);
    var paid := Times(Asset(receives, price.base.id), price);
    if c.debt == 0 || c.collateral == 0 || order.amount == 0 || paid.None? then MatchThrows
    else if paid.value.amount >= c.collateral then MatchSwan
    else
      MatchedFrame(rules, b, call, id, paid.value.amount, receives);
      MatchFills(Matched(rules, b, call, id, paid.value.amount, receives), receives)
  }

  method MatchSettlement(k: Market, call: OrderId, id: OrderId, price: Price, maxSettlement: nat) returns (r: Match)
    requires call in k.books.calls && id in k.books.settlements && price.base.id != price.quote.id && maxSettlement > 0
    requires k.books.calls[call].CollateralType() == price.quote.id
    modifies k`books
    ensures r == MatchOf(k.feeRules, old(k.books), call, id, price, maxSettlement)
    ensures k.books == if r.MatchFills? then r.books else old(k.books)
  {
    hide FillCall, FillSettlement;
    var c, s := k.books.calls[call], k.books.settlements[id];
    if c.debt == 0 || c.collateral == 0 || s.balance.amount == 0 {
      return MatchThrows;
    }
    var receives := MatchAmount(s.balance.amount, maxSettlement, c.debt);
    var paid := Times(Asset(receives, price.base.id), price);
    if paid.None? {
      return MatchThrows;
    }
    if paid.value.amount >= c.collateral {
      return MatchSwan;
    }
    FillCallFrame(k.books, call, paid.value.amount, receives);
    var filled := k.FillCallOrder(call, paid.value.amount, receives);
    FillSettlementOrder(k, id, receives, paid.value);
    return MatchFills(k.books, receives);
  }

  // ----- one asset's order ------------------------------------------------------------------

  /** The feed's price of the order less the offset, per unit of the order. */
  function SettlementPrice(x: Bitasset, balance: Asset): Option<Price>
    requires x.feed.Some?
  {
    var worth := Times(balance, x.feed.value.settlementPrice);
    if worth.None? then None
    else
      var cut := worth.value.amount * (HUNDRED_PERCENT - x.offsetPercent) / HUNDRED_PERCENT;
      Some(Price(balance, Asset(cut, worth.value.id)))
  }

  /**
    For the whole order the price gives the feed's worth of it, rounded down, less the offset's
    percentage of that, rounded down again.
   */
  lemma PriceIsTheWorthLessTheOffset(x: Bitasset, balance: Asset) returns (worth: nat)
    requires x.feed.Some? && x.feed.value.settlementPrice.base.id == balance.id
    requires x.feed.value.settlementPrice.quote.id != balance.id && SettlementPrice(x, balance).Some?
    ensures var feed, price := x.feed.value.settlementPrice, SettlementPrice(x, balance).value;
      && price.base == balance && price.quote.id == feed.quote.id
      && RoundsDown(worth, balance.amount * feed.quote.amount, feed.base.amount)
      && RoundsDown(price.quote.amount, worth * (HUNDRED_PERCENT - x.offsetPercent), HUNDRED_PERCENT)
  {
    ConversionRounds(balance, x.feed.value.settlementPrice);
    worth := Times(balance, x.feed.value.settlementPrice).value.amount;
    FloorBounds(worth * (HUNDRED_PERCENT - x.offsetPercent), HUNDRED_PERCENT);
  }

  /** The offset never favours the one who settles. */
  lemma OffsetIsCut(x: Bitasset, balance: Asset)
    requires x.feed.Some? && SettlementPrice(x, balance).Some?
    ensures Times(balance, x.feed.value.settlementPrice).Some?
    ensures SettlementPrice(x, balance).value.quote.amount <= Times(balance, x.feed.value.settlementPrice).value.amount
  {}

  /** One match with the least collateralised position; an order for nothing is a swan as well. */
  ghost function StepOf(
      rules: FeeRules, b: Books, m: AssetId, id: OrderId, price: Price, maxSettlement: nat): (r: Match)
    requires id in b.settlements
    ensures r.MatchFills? && maxSettlement > 0 ==> 0 < r.receives <= maxSettlement
    ensures r.MatchFills? ==> r.books.bitassets == b.bitassets
  {
    var call := LeastOf(b, m);
    if b.settlements[id].balance.amount == 0 then MatchSwan
    else if call.None? then MatchThrows
    else MatchOf(rules, b, call.value, id, price, maxSettlement)
  }

  /** Match after match until the order is gone or the cap is reached; a black swan cancels it. */
  ghost function SettledUpTo(
      rules: FeeRules, b: Books, m: AssetId, id: OrderId, price: Price, cap: nat,
      settled: nat): (r: Option<(Books, nat)>)
    ensures r.Some? ==> r.value.0.bitassets == b.bitassets
    decreases cap - settled
  {
    if settled >= cap || id !in b.settlements then Some((b, settled))
    else
      match StepOf(rules, b, m, id, price, cap - settled)
      case MatchThrows => None
      case MatchSwan => Some((CancelSettlement(b, id), settled))
      case MatchFills(b', receives) => SettledUpTo(rules, b', m, id, price, cap, settled + receives)
  }

  /** The order settled at its price, and the volume noted in its asset. */
  ghost function SettledAtFeed(rules: FeeRules, b: Books, id: OrderId, cap: nat): Option<Books>
    requires id in b.settlements && b.settlements[id].balance.id in b.bitassets
    requires b.bitassets[b.settlements[id].balance.id].feed.Some?
  {
    var order := b.settlements[id].balance;
    var price := SettlementPrice(b.bitassets[order.id], order);
    if price.None? then None
    else
      var r := SettledUpTo(rules, b, order.id, id, price.value, cap, b.bitassets[order.id].forceSettled);
      if r.None? then None else Some(Stored(r.value.0, order.id, r.value.1))
  }

  /**
    Settles a due order against one position after the other until it is gone or the volume
    allowed is used. There always is a position to match; `ok` is false where a match throws.
   */
  method SettleOrder(k: Market, id: OrderId, cap: nat) returns (ok: bool)
    requires k.Valid() && id in k.books.settlements && k.books.settlements[id].balance.id in k.books.bitassets
    requires var x := k.books.bitassets[k.books.settlements[id].balance.id];
      x.settlement.None? && x.feed.Some? && x.forceSettled < cap
    requires cap == Cap(k.books, k.books.settlements[id].balance.id)
    modifies k`books
    ensures SettledAtFeed(k.feeRules, old(k.books), id, cap) == if ok then Some(k.books) else None
    ensures ok ==> k.Valid() && SameGaps(old(k.books), k.books) && k.books.limits == old(k.books).limits
    ensures ok ==> OrderShrinks(old(k.books).settlements, k.books.settlements, id)
    ensures ok ==> forall n :: Advanced(old(k.books), k.books, n)
    ensures ok ==> k.books.bitassets.Keys == old(k.books).bitassets.Keys
    ensures ok ==> forall n <- old(k.books).bitassets :: n != old(k.books).settlements[id].balance.id ==>
              k.books.bitassets[n] == old(k.books).bitassets[n]
    ensures ok && id in k.books.settlements ==>
      k.books.bitassets[old(k.books).settlements[id].balance.id].forceSettled == cap
  {
    hide Gap, SettledUpTo, MaxVolume;
    ghost var start := k.books;
    var order := k.books.settlements[id];
    var m := order.balance.id;
    var x := k.books.bitassets[m];
    var price := SettlementPrice(x, order.balance);
    if price.None? {
      return false;
    }
    assert BitassetOk(start, m);
    SupplyNonNegative(start, m);
    var settled;
    ok, settled := MatchOrder(k, id, m, price.value, cap);
    if !ok {
      return;
    }
    StoredAdvances(start, k.books, m, settled, id);
    StoredKeeps(k.books, m, settled);
    GapsTransitive(start, k.books, Stored(k.books, m, settled));
    OrderShrinksKeys(start.settlements, k.books.settlements, id);
    k.books := Stored(k.books, m, settled);
    return true;
  }

  /** Matches the order until it is gone or the cap is reached. */
  method MatchOrder(k: Market, id: OrderId, m: AssetId, price: Price, cap: nat) returns (ok: bool, settled: nat)
    requires k.Valid() && id in k.books.settlements && k.books.settlements[id].balance.id == m && m in k.books.bitassets
    requires k.books.bitassets[m].settlement.None? && k.books.bitassets[m].forceSettled < cap == Cap(k.books, m)
    requires PriceOf(price, m, k.books.bitassets[m].backing)
    modifies k`books
    ensures SettledUpTo(k.feeRules, old(k.books), m, id, price, cap, old(k.books).bitassets[m].forceSettled)
            == if ok then Some((k.books, settled)) else None
    ensures ok ==> SettlingUnderWay(old(k.books), k.books, m, id, settled) && settled <= cap
    ensures ok ==> settled == cap || id !in k.books.settlements
  {
    hide Core, Gap, StepOf, SettledUpTo;
    SupplyNonNegative(k.books, m);
    SettlingStarts(k.books, m, id);
    settled := k.books.bitassets[m].forceSettled;
    while settled < cap && id in k.books.settlements
      invariant SettlingUnderWay(old(k.books), k.books, m, id, settled) && settled <= cap
      invariant SettledUpTo(k.feeRules, old(k.books), m, id, price, cap, old(k.books).bitassets[m].forceSettled)
                == SettledUpTo(k.feeRules, k.books, m, id, price, cap, settled)
      decreases cap - settled, id in k.books.settlements
    {
      SettledUpToUnfolds(k.feeRules, k.books, m, id, price, cap, settled);
      var r := SettleStep(k, id, m, price, cap - settled, old(k.books), settled);
      match r {
        case MatchThrows => return false, settled;
        case MatchSwan =>
          return true, settled;
        case MatchFills(b', receives) => settled := settled + receives;
      }
    }
    SettledUpToEnds(k.feeRules, k.books, m, id, price, cap, settled);
    return true, settled;
  }

  lemma SettlingStarts(b: Books, m: AssetId, id: OrderId)
    requires Core(b) && m in b.bitassets && id in b.settlements && b.settlements[id].balance.id == m
    ensures SettlingUnderWay(b, b, m, id, b.bitassets[m].forceSettled)
  {}

  lemma SettledUpToUnfolds(rules: FeeRules, b: Books, m: AssetId, id: OrderId, price: Price, cap: nat, settled: nat)
    requires settled < cap && id in b.settlements
    ensures var r := StepOf(rules, b, m, id, price, cap - settled);
      SettledUpTo(rules, b, m, id, price, cap, settled) ==
      if r.MatchThrows? then None
      else if r.MatchSwan? then Some((CancelSettlement(b, id), settled))
      else SettledUpTo(rules, r.books, m, id, price, cap, settled + r.receives)
  {
    hide StepOf, CancelSettlement;
  }

  lemma SettledUpToEnds(rules: FeeRules, b: Books, m: AssetId, id: OrderId, price: Price, cap: nat, settled: nat)
    requires settled >= cap || id !in b.settlements
    ensures SettledUpTo(rules, b, m, id, price, cap, settled) == Some((b, settled))
  {}

  lemma OrderShrinksKeys(s: map<OrderId, Settlement>, s': map<OrderId, Settlement>, id: OrderId)
    requires OrderShrinks(s, s', id)
    ensures s'.Keys <= s.Keys
  {
    forall i | i in s'
      ensures i in s
    {
      assert i != id ==> i in s' - {id};
    }
  }

  /** One match with the least collateralised position; a black swan, or nothing to settle, cancels. */
  method SettleStep(
      k: Market, id: OrderId, m: AssetId, price: Price, maxSettlement: nat, ghost start: Books, ghost settled: nat)
    returns (r: Match)
    requires SettlingUnderWay(start, k.books, m, id, settled) && id in k.books.settlements && maxSettlement > 0
    requires start.bitassets[m].settlement.None? && start.Supply(m) >= 0 && settled + maxSettlement == Cap(start, m)
    requires k.books.settlements[id].balance.id == m && PriceOf(price, m, k.books.bitassets[m].backing)
    modifies k`books
    ensures r == StepOf(k.feeRules, old(k.books), m, id, price, maxSettlement)
    ensures r.MatchFills? ==> k.books == r.books && SettlingUnderWay(start, k.books, m, id, settled + r.receives)
    ensures r.MatchSwan? ==> k.books == CancelSettlement(old(k.books), id) && id !in k.books.settlements
    ensures r.MatchSwan? ==> SettlingUnderWay(start, k.books, m, id, settled)
  {
    hide Gap, Matched, LeastOf;
    AlwaysACall(start, k.books, m, settled, id);
    var call := LeastCollateralised(k, m);
    ghost var before := k.books;
    r := MatchSwan;
    if k.books.settlements[id].balance.amount > 0 {
      assert CallOk(k.books, call.value) && BitassetOk(k.books, m);
      r := MatchSettlement(k, call.value, id, price, maxSettlement);
      if r.MatchFills? {
        FillsGoOn(k.feeRules, start, before, m, settled, call.value, id, price, maxSettlement);
      }
    }
    if r.MatchSwan? {
      SettlingCancelled(start, before, m, settled, id);
      CancelSettlementOrder(k, id);
    }
  }

  lemma FillsGoOn(
      rules: FeeRules, b: Books, b1: Books, m: AssetId, settled: nat, call: OrderId, id: OrderId, price: Price,
      maxSettlement: nat)
    requires SettlingUnderWay(b, b1, m, id, settled) && call in b1.calls && id in b1.settlements
    requires b1.settlements[id].balance.id == m == b1.calls[call].DebtType()
    requires MatchOf(rules, b1, call, id, price, maxSettlement).MatchFills?
    ensures var r := MatchOf(rules, b1, call, id, price, maxSettlement);
      SettlingUnderWay(b, r.books, m, id, settled + r.receives)
  {
    hide Matched, SettlingUnderWay;
    var receives := MatchAmount(b1.settlements[id].balance.amount, maxSettlement, b1.calls[call].debt);
    var paid := Times(Asset(receives, price.base.id), price);
    SettlingGoesOn(rules, b, b1, m, settled, call, id, paid.value.amount, receives);
  }

  method CancelSettlementOrder(k: Market, id: OrderId)
    requires id in k.books.settlements
    modifies k`books
    ensures k.books == CancelSettlement(old(k.books), id)
  {
    var s := k.books.settlements[id];
    var paid := k.AdjustBalance(s.owner, s.balance.id, s.balance.amount);
    k.books := k.books.(settlements := k.books.settlements - {id});
  }

  // ----- the loop over assets ---------------------------------------------------------------

  /** An order that the loop leaves alone: not due yet, or its asset's volume is used. */
  ghost predicate Waiting(b: Books, id: OrderId, now: nat)
    requires id in b.settlements
  {
    var m := b.settlements[id].balance.id;
    && m in b.bitassets && b.bitassets[m].settlement.None?
    && (b.settlements[id].date > now || b.bitassets[m].forceSettled >= Cap(b, m))
  }

  /** Every order of an earlier asset waits. */
  ghost predicate Behind(b: Books, current: AssetId, now: nat) {
    forall id <- b.settlements :: b.settlements[id].balance.id < current ==> Waiting(b, id, now)
  }

  ghost function OrdersFrom(b: Books, current: AssetId): set<OrderId> {
    set id | id in b.settlements && b.settlements[id].balance.id >= current
  }

  ghost function UncappedFrom(b: Books, current: AssetId): set<AssetId> {
    set m | m in b.bitassets && m >= current && b.bitassets[m].forceSettled < Cap(b, m)
  }

  /** Progress since `b`: what every turn of the loop keeps. */
  ghost predicate Onward(b: Books, b': Books) {
    && SameGaps(b, b') && b'.limits == b.limits && b'.settlements.Keys <= b.settlements.Keys
    && b'.bitassets.Keys == b.bitassets.Keys
    && forall n :: Advanced(b, b', n)
  }

  lemma OnwardTransitive(b: Books, b1: Books, b2: Books)
    requires Core(b) && Onward(b, b1) && Onward(b1, b2)
    ensures Onward(b, b2)
  {
    GapsTransitive(b, b1, b2);
    forall n
      ensures Advanced(b, b2, n)
    {
      if n in b.bitassets {
        SupplyNonNegative(b, n);
      }
      AdvancedTransitive(b, b1, b2, n);
    }
  }

  /** No order lies between the asset and that of the first order. */
  lemma NothingBetween(b: Books, id: OrderId, current: AssetId, now: nat)
    requires IsFirst(b.settlements, id, current) && Behind(b, current, now)
    ensures Behind(b, b.settlements[id].balance.id, now)
    ensures forall j <- b.settlements :: b.settlements[j].balance.id >= current ==>
              b.settlements[j].balance.id >= b.settlements[id].balance.id
  {}

  lemma SelfOnward(b: Books)
    requires Core(b)
    ensures Onward(b, b)
  {
    NothingMoved(b);
  }

  /** If the first order of an asset waits, all its orders do. */
  lemma AssetWaits(b: Books, id: OrderId, current: AssetId, now: nat)
    requires IsFirst(b.settlements, id, current) && Behind(b, current, now) && Waiting(b, id, now)
    ensures Behind(b, b.settlements[id].balance.id + 1, now)
  {}

  /** A turn on an order of asset `m` leaves the orders of earlier assets waiting. */
  lemma StaysBehind(b: Books, b': Books, id: OrderId, m: AssetId, now: nat)
    requires Behind(b, m, now) && Onward(b, b') && OrderShrinks(b.settlements, b'.settlements, id)
    requires b.settlements[id].balance.id == m
    requires forall n <- b.bitassets :: n != m ==> b'.bitassets[n] == b.bitassets[n]
    ensures Behind(b', m, now)
  {
    forall j | j in b'.settlements && b'.settlements[j].balance.id < m
      ensures Waiting(b', j, now)
    {
      assert j != id;
      assert j in b'.settlements - {id};
      assert Waiting(b, j, now) && b'.settlements[j] == b.settlements[j];
      assert Advanced(b, b', b.settlements[j].balance.id);
    }
  }

  /** What becomes of the order whose turn it is. */
  datatype Turn = Threw | Waits | Acted(books: Books)

  /** An order in a settled asset, or one due without a feed, is cancelled; one due is settled. */
  ghost function TurnOf(rules: FeeRules, b: Books, id: OrderId, now: nat): Turn
    requires id in b.settlements
  {
    var order := b.settlements[id];
    var m := order.balance.id;
    if m !in b.bitassets then Threw
    else if b.bitassets[m].settlement.Some? then Acted(CancelSettlement(b, id))
    else if order.date > now then Waits
    else if b.bitassets[m].feed.None? then Acted(CancelSettlement(b, id))
    else if b.bitassets[m].forceSettled >= Cap(b, m) then Waits
    else
      var r := SettledAtFeed(rules, b, id, Cap(b, m));
      if r.None? then Threw else Acted(r.value)
  }

  /** How far the loop has come: the books, and the asset whose orders come next. */
  datatype Place = Place(books: Books, current: AssetId)

  /** One turn of the loop, on the first order of the current asset or a later one. */
  ghost function Onwards(rules: FeeRules, p: Place, now: nat): Option<Place> {
    var first := FirstOf(p.books.settlements, p.current);
    if first.None? then Some(p)
    else
      var m := p.books.settlements[first.value].balance.id;
      match TurnOf(rules, p.books, first.value, now)
      case Threw => None
      case Acted(b') => Some(Place(b', m))
      case Waits =>
        var next := FirstOf(p.books.settlements, m + 1);
        Some(Place(p.books, if next.None? then m + 1 else p.books.settlements[next.value].balance.id))
  }

  ghost function AfterTurns(rules: FeeRules, b: Books, now: nat, turns: nat): Option<Place> {
    if turns == 0 then Some(Place(b, 0))
    else
      var p := AfterTurns(rules, b, now, turns - 1);
      if p.None? then None else Onwards(rules, p.value, now)
  }

  lemma OnceStarted(rules: FeeRules, b: Books, now: nat)
    ensures AfterTurns(rules, b, now, 0) == Some(Place(b, 0))
    ensures MemoOk(b, CapMemo(CORE, 0)) && Behind(b, 0, now)
  {}

  lemma OneMoreTurn(rules: FeeRules, b: Books, now: nat, turns: nat, p: Place, id: OrderId)
    requires AfterTurns(rules, b, now, turns) == Some(p) && FirstOf(p.books.settlements, p.current) == Some(id)
    ensures var turn, m := TurnOf(rules, p.books, id, now), p.books.settlements[id].balance.id;
      var next := FirstOf(p.books.settlements, m + 1);
      AfterTurns(rules, b, now, turns + 1) ==
      if turn.Threw? then None
      else if turn.Acted? then Some(Place(turn.books, m))
      else Some(Place(p.books, if next.None? then m + 1 else p.books.settlements[next.value].balance.id))
  {}

  /** So many turns clear the books, up to where no order comes next. */
  ghost predicate Clears(rules: FeeRules, b: Books, b': Books, now: nat, turns: nat) {
    var p := AfterTurns(rules, b, now, turns);
    p.Some? && p.value.books == b' && FirstOf(b'.settlements, p.value.current).None?
  }

  /** The cap is computed when the asset changes and kept for all its orders. */
  datatype CapMemo = CapMemo(id: AssetId, cap: nat)

  ghost predicate MemoOk(b: Books, memo: CapMemo) {
    memo.id == CORE || (memo.id in b.bitassets && memo.cap == Cap(b, memo.id))
  }

  /** Deals with the first order: it is cancelled, settled as far as possible, or left waiting. */
  method TakeTurn(k: Market, id: OrderId, now: nat, memo: CapMemo) returns (turn: Turn, memo': CapMemo)
    requires k.Valid() && id in k.books.settlements && MemoOk(k.books, memo)
    modifies k`books
    ensures turn == TurnOf(k.feeRules, old(k.books), id, now) && (turn.Acted? ==> k.books == turn.books)
    ensures turn.Waits? ==> k.books == old(k.books) && Waiting(k.books, id, now)
    ensures !turn.Threw? ==> k.Valid() && Onward(old(k.books), k.books) && MemoOk(k.books, memo')
    ensures !turn.Threw? ==> OrderShrinks(old(k.books).settlements, k.books.settlements, id)
    ensures !turn.Threw? ==> forall n <- old(k.books).bitassets :: n != old(k.books).settlements[id].balance.id ==>
              k.books.bitassets[n] == old(k.books).bitassets[n]
    ensures turn.Acted? && id in k.books.settlements ==> var m := old(k.books).settlements[id].balance.id;
      && m in k.books.bitassets && old(k.books).bitassets[m].forceSettled < Cap(old(k.books), m)
      && k.books.bitassets[m].forceSettled >= Cap(k.books, m)
  {
    hide Gap, SettledAtFeed;
    assert SettlementOk(k.books, id);
    var order := k.books.settlements[id];
    var m := order.balance.id;
    var x := k.books.bitassets[m];
    memo' := memo;
    assert BitassetOk(k.books, m);
    SupplyNonNegative(k.books, m);
    NothingMoved(k.books);
    if x.settlement.Some? {
      CancelTurn(k, id, memo);
      return Acted(k.books), memo';
    }
    if order.date > now {
      return Waits, memo';
    }
    if x.feed.None? {
      CancelTurn(k, id, memo);
      return Acted(k.books), memo';
    }
    if memo.id != m {
      memo' := CapMemo(m, MaxVolume(x, k.books.Supply(m)));
    }
    if x.forceSettled >= memo'.cap {
      return Waits, memo';
    }
    var ok := SettleOrder(k, id, memo'.cap);
    if !ok {
      return Threw, memo';
    }
    assert Advanced(old(k.books), k.books, m);
    CapStays(old(k.books), k.books, m);
    OrderShrinksKeys(old(k.books).settlements, k.books.settlements, id);
    return Acted(k.books), memo';
  }

  lemma NothingMoved(b: Books)
    requires Core(b)
    ensures forall n :: Advanced(b, b, n)
  {
    forall n | n in b.bitassets
      ensures Advanced(b, b, n)
    {
      SupplyNonNegative(b, n);
    }
  }

  method CancelTurn(k: Market, id: OrderId, ghost memo: CapMemo)
    requires k.Valid() && id in k.books.settlements && MemoOk(k.books, memo)
    modifies k`books
    ensures k.Valid() && Onward(old(k.books), k.books) && MemoOk(k.books, memo) && id !in k.books.settlements
    ensures OrderShrinks(old(k.books).settlements, k.books.settlements, id)
    ensures k.books.bitassets == old(k.books).bitassets
    ensures k.books == CancelSettlement(old(k.books), id)
  {
    CancelAdvances(k.books, id);
    CancelSettlementOrder(k, id);
  }

  /**
    Walks the settlement orders asset by asset. It ends with every order that is left waiting:
    none of them is due in an asset that still has volume, and none is in a settled asset. An
    asset's settled volume only grows up to its cap, which the settlements do not change.
   */
  method ClearExpiredSettlements(k: Market, now: nat) returns (ok: bool)
    requires k.Valid()
    modifies k`books
    ensures if ok then exists turns: nat :: Clears(k.feeRules, old(k.books), k.books, now, turns)
            else exists turns: nat :: AfterTurns(k.feeRules, old(k.books), now, turns).None?
    ensures ok ==> k.Valid() && Onward(old(k.books), k.books)
    ensures ok ==> forall id <- k.books.settlements :: Waiting(k.books, id, now)
  {
    hide Core, Gap, Cap, Advanced, Before, Waiting, OrdersFrom, UncappedFrom;
    hide TurnOf, AfterTurns, Onwards, FirstOf, Onward, OrderShrinks, MemoOk;
    OnceStarted(k.feeRules, k.books, now);
    SelfOnward(k.books);
    var current: AssetId := 0;
    var memo := CapMemo(CORE, 0);
    ghost var turns := 0;
    while true
      invariant k.Valid() && Onward(old(k.books), k.books) && MemoOk(k.books, memo)
      invariant Behind(k.books, current, now)
      invariant AfterTurns(k.feeRules, old(k.books), now, turns) == Some(Place(k.books, current))
      decreases k.books.settlements.Keys, OrdersFrom(k.books, current), UncappedFrom(k.books, current)
    {
      var first := FirstFrom(k.books.settlements, current);
      if first.None? {
        assert Clears(k.feeRules, old(k.books), k.books, now, turns);
        return true;
      }
      ghost var before := k.books;
      OneMoreTurn(k.feeRules, old(k.books), now, turns, Place(k.books, current), first.value);
      var m := k.books.settlements[first.value].balance.id;
      NothingBetween(before, first.value, current, now);
      var turn;
      turn, memo := TakeTurn(k, first.value, now, memo);
      turns := turns + 1;
      match turn {
        case Threw =>
          assert AfterTurns(k.feeRules, old(k.books), now, turns).None?;
          return false;
        case Acted(b') =>
          OnwardTransitive(old(k.books), before, k.books);
          StaysBehind(before, k.books, first.value, m, now);
          Acting(before, k.books, first.value, current, m);
          current := m;
        case Waits =>
          AssetWaits(before, first.value, current, now);
          var next := NextAsset(k.books.settlements, m);
          if next.None? {
            assert Clears(k.feeRules, old(k.books), k.books, now, turns);
            return true;
          }
          MovingOn(k.books, first.value, current, next.value);
          current := next.value;
      }
    }
  }

  /** A turn that acts takes an order away or uses the volume of its asset. */
  lemma Acting(b: Books, b': Books, id: OrderId, current: AssetId, m: AssetId)
    requires id in b.settlements && b.settlements[id].balance.id == m && current <= m
    requires OrderShrinks(b.settlements, b'.settlements, id) && Core(b) && Onward(b, b')
    requires forall j <- b.settlements :: b.settlements[j].balance.id >= current ==> b.settlements[j].balance.id >= m
    requires forall n <- b.bitassets :: n != m ==> b'.bitassets[n] == b.bitassets[n]
    requires id in b'.settlements ==> m in b'.bitassets && b.bitassets[m].forceSettled < Cap(b, m)
                                      && b'.bitassets[m].forceSettled >= Cap(b', m)
    ensures b'.settlements.Keys < b.settlements.Keys
         || (b'.settlements.Keys == b.settlements.Keys
             && OrdersFrom(b', m) == OrdersFrom(b, current) && UncappedFrom(b', m) < UncappedFrom(b, current))
  {
    if id in b'.settlements {
      forall j | j in b.settlements
        ensures j in b'.settlements && b'.settlements[j].balance.id == b.settlements[j].balance.id
      {
        assert j != id ==> j in b.settlements - {id};
      }
      forall n | n in UncappedFrom(b', m)
        ensures n in UncappedFrom(b, current)
      {
        assert Advanced(b, b', n);
        SupplyNonNegative(b, n);
        CapStays(b, b', n);
      }
      assert m in UncappedFrom(b, current) && m !in UncappedFrom(b', m);
    }
  }

  lemma MovingOn(b: Books, id: OrderId, current: AssetId, next: AssetId)
    requires id in b.settlements && current <= b.settlements[id].balance.id < next
    ensures OrdersFrom(b, next) < OrdersFrom(b, current)
  {
    assert id in OrdersFrom(b, current) && id !in OrdersFrom(b, next);
  }
}

/**
  What the market engine computes: matching, margin calls and global settlement as functions
  from the books before to the books after. `None` stands for an operation that throws.
 */
module MarketSpecs {
  import opened Wrappers
  import opened Prices
  import opened Sums
  import opened Books
  import opened MarketRules

  // ----- what matching a new order does ---------------------------------------------------

  /** The resting order that a new order meets first: the best price, and the oldest at that price. */
  ghost predicate IsBestMaker(b: Books, id: OrderId, maker: OrderId) {
    && id in b.limits && maker in b.limits && Crosses(b.limits[maker].price, b.limits[id].price)
    && forall i <- b.limits :: i != maker && Crosses(b.limits[i].price, b.limits[id].price) ==>
         Ahead(b.limits[maker].price, maker, b.limits[i].price, i)
  }

  lemma BestMakerIsUnique(b: Books, id: OrderId, maker: OrderId, other: OrderId)
    requires IsBestMaker(b, id, maker) && IsBestMaker(b, id, other)
    ensures maker == other
  {}

  /** The trade of the order with its best maker, as far as the conversions do not throw. */
  ghost function BestTrade(rules: FeeRules, b: Books, id: OrderId, maker: OrderId): (r: Option<Books>)
    requires LimitsOk(b.limits) && IsBestMaker(b, id, maker)
    ensures r.Some? ==> LimitsOk(r.value.limits) && r.value.bitassets == b.bitassets
    ensures r.Some? && maker !in r.value.limits ==> r.value.limits.Keys < b.limits.Keys
  {
    var t := MatchTrade(b.limits[id].forSale, b.limits[maker].forSale, b.limits[maker].price);
    if t.None? then None
    else
      MatchIsSound(b.limits[id].forSale, b.limits[maker].forSale, b.limits[maker].price, b.limits[id].price);
      TradedShrinks(rules, b, id, maker, t.value);
      TradedBook(rules, b, id, maker, t.value);
      Some(Traded(rules, b, id, maker, t.value))
  }

  /** Trades with one best maker after the other, until the order is gone or meets no price. */
  ghost function MatchAll(rules: FeeRules, b: Books, id: OrderId): (r: Option<Books>)
    requires LimitsOk(b.limits)
    ensures r.Some? ==> LimitsOk(r.value.limits) && r.value.bitassets == b.bitassets
    decreases b.limits.Keys
  {
    if exists maker :: IsBestMaker(b, id, maker) then
      var maker :| IsBestMaker(b, id, maker);
      var b' := BestTrade(rules, b, id, maker);
      if b'.None? then None
      else if id in b'.value.limits && maker !in b'.value.limits then MatchAll(rules, b'.value, id)
      else b'
    else Some(b)
  }

  ghost predicate PlainMarket(b: Books, price: Price) {
    price.base.id !in b.bitassets && price.quote.id !in b.bitassets
  }

  lemma MatchAllTrades(rules: FeeRules, b: Books, id: OrderId, maker: OrderId)
    requires LimitsOk(b.limits) && IsBestMaker(b, id, maker)
    ensures MatchAll(rules, b, id) ==
      var b' := BestTrade(rules, b, id, maker);
      if b'.Some? && id in b'.value.limits && maker !in b'.value.limits then MatchAll(rules, b'.value, id) else b'
  {
    hide BestTrade;
    var best :| IsBestMaker(b, id, best);
    BestMakerIsUnique(b, id, maker, best);
    forall other | IsBestMaker(b, id, other)
      ensures other == maker
    {
      BestMakerIsUnique(b, id, maker, other);
    }
  }

  lemma MatchAllRests(rules: FeeRules, b: Books, id: OrderId)
    requires LimitsOk(b.limits)
    requires (id in b.limits ==> forall i <- b.limits :: !Crosses(b.limits[i].price, b.limits[id].price))
    ensures MatchAll(rules, b, id) == Some(b)
  {}

  // ----- what a margin call does ------------------------------------------------------------

  /** The call order with the lowest call price, and the oldest at that price. */
  ghost predicate IsFirstCall(b: Books, m: AssetId, id: OrderId) {
    && id in b.calls && b.calls[id].DebtType() == m
    && forall i <- b.calls :: i != id && b.calls[i].DebtType() == m ==>
         Ahead(b.calls[id].callPrice.Inverse(), id, b.calls[i].callPrice.Inverse(), i)
  }

  /** The limit order with the highest price, and the oldest at that price. */
  ghost predicate IsBestSeller(b: Books, ids: set<OrderId>, seller: OrderId) {
    && ids <= b.limits.Keys && seller in ids
    && forall i <- ids :: i != seller ==> Ahead(b.limits[seller].price, seller, b.limits[i].price, i)
  }

  /** Limit orders that sell the asset for its backing asset, at `floor` or better. */
  function SellersAt(b: Books, m: AssetId, backing: AssetId, floor: Price): set<OrderId> {
    set i | i in b.limits && b.limits[i].price.base.id == m && b.limits[i].price.quote.id == backing
              && !Less(b.limits[i].price, floor)
  }

  /** The first call order would have to sell its collateral below the feed and below all sellers. */
  ghost predicate IsBlackSwan(b: Books, m: AssetId) {
    && m in b.bitassets && b.bitassets[m].feed.Some?
    && exists call :: IsFirstCall(b, m, call) && Underwater(b, m, b.calls[call].Collateralization().Inverse())
  }

  ghost predicate Underwater(b: Books, m: AssetId, worst: Price)
    requires m in b.bitassets && b.bitassets[m].feed.Some?
  {
    var backing := b.bitassets[m].backing;
    && !Less(worst, b.bitassets[m].feed.value.settlementPrice)
    && forall i <- SellersAt(b, m, backing, MinPrice(m, backing)) :: !Less(worst, b.limits[i].price)
  }

  /** The fund holds what closing every call order at the price paid. */
  ghost predicate SettledAt(b: Books, b': Books, m: AssetId, price: Price) {
    m in b'.bitassets && b'.bitassets[m].settlement.Some? && b'.bitassets[m].fund == SumBy(b.calls, ClosingIn(m, price))
  }

  predicate Unsettled(b: Books, m: AssetId) {
    m in b.bitassets && b.bitassets[m].settlement.None?
  }

  /** Settled at the collateralization of the first call order. */
  ghost predicate SettledAtFirstCall(b: Books, b': Books, m: AssetId) {
    exists call :: IsFirstCall(b, m, call) && SettledAt(b, b', m, b.calls[call].Collateralization().Inverse())
  }

  /** A call is due when neither the feed nor the seller beats the call price. */
  predicate Due(c: CallOrder, feed: Price, price: Price) {
    !Less(c.callPrice.Inverse(), feed) && !Less(c.callPrice.Inverse(), price)
  }

  /** The debt of the call price is worth its collateral or more, at the feed and at the seller's price. */
  lemma DueMeans(c: CallOrder, feed: Price, price: Price)
    requires SameMarket(c.callPrice.Inverse(), feed) && SameMarket(c.callPrice.Inverse(), price)
    ensures Due(c, feed, price) <==>
      && c.callPrice.base.amount * feed.base.amount <= c.callPrice.quote.amount * feed.quote.amount
      && c.callPrice.base.amount * price.base.amount <= c.callPrice.quote.amount * price.quote.amount
  {}

  /**
    The debt is worth all the collateral or more, at the feed and to every seller of the market
    whose price asks for amounts that there can be.
   */
  lemma UnderwaterMeans(b: Books, m: AssetId, c: CallOrder)
    requires m in b.bitassets && FeedOk(m, b.bitassets[m]) && b.bitassets[m].feed.Some? && LimitsOk(b.limits)
    requires c.DebtType() == m && c.CollateralType() == b.bitassets[m].backing
    ensures var feed, backing := b.bitassets[m].feed.value.settlementPrice, b.bitassets[m].backing;
      Underwater(b, m, c.Collateralization().Inverse()) <==>
      && c.collateral * feed.base.amount <= c.debt * feed.quote.amount
      && forall i <- b.limits :: Sells(b.limits[i], m, backing) ==>
           c.collateral * b.limits[i].price.base.amount <= c.debt * b.limits[i].price.quote.amount
  {
    var sellers := SellersAt(b, m, b.bitassets[m].backing, MinPrice(m, b.bitassets[m].backing));
    forall i | i in b.limits
      ensures i in sellers <==> Sells(b.limits[i], m, b.bitassets[m].backing)
    {
      SellsAtMinPrice(b.limits[i], m, b.bitassets[m].backing);
    }
  }

  predicate Sells(o: LimitOrder, m: AssetId, backing: AssetId) {
    && o.price.base.id == m && o.price.quote.id == backing
    && o.price.quote.amount <= MAX_SHARE_SUPPLY * o.price.base.amount
  }

  lemma SellsAtMinPrice(o: LimitOrder, m: AssetId, backing: AssetId)
    requires o.price.Positive()
    ensures Sells(o, m, backing) <==>
      o.price.base.id == m && o.price.quote.id == backing && !Less(o.price, MinPrice(m, backing))
  {
    if o.price.base.id == m && o.price.quote.id == backing {
      NothingIsBelowMinPrice(o.price);
    }
  }

  /** A black swan is a first position under water. */
  lemma SwanIsUnderwater(b: Books, m: AssetId, call: OrderId)
    requires m in b.bitassets && b.bitassets[m].feed.Some? && IsFirstCall(b, m, call)
    ensures IsBlackSwan(b, m) <==> Underwater(b, m, b.calls[call].Collateralization().Inverse())
  {
    hide Underwater;
    if IsBlackSwan(b, m) {
      var other :| IsFirstCall(b, m, other) && Underwater(b, m, b.calls[other].Collateralization().Inverse());
      FirstCallIsUnique(b, m, call, other);
    }
  }

  /** What a margin call trades: all the limit order sells, or all the debt if that is less. */
  function CallTrade(debt: nat, forSale: nat, price: Price): Option<Trade> {
    var receives := if debt >= forSale then forSale else debt;
    var pays := Times(Asset(receives, price.base.id), price);
    if pays.None? then None else Some(Trade(pays.value.amount, receives))
  }

  /** No turn is possible: there is no call order, no seller, or no call is due. */
  ghost predicate NothingDue(b: Books, m: AssetId, feed: Price, ids: set<OrderId>)
    requires ids <= b.limits.Keys
  {
    forall call, seller :: IsFirstCall(b, m, call) && IsBestSeller(b, ids, seller) ==>
      !Due(b.calls[call], feed, b.limits[seller].price)
  }

  // ----- the order of a price index ---------------------------------------------------------

  /** The ids of an index, in the order in which a walk from the highest price down meets them. */
  ghost predicate InOrder(keys: map<OrderId, Price>, ids: seq<OrderId>) {
    && (forall i :: i in ids <==> i in keys)
    && forall j, k :: 0 <= j < k < |ids| ==> Ahead(keys[ids[j]], ids[j], keys[ids[k]], ids[k])
  }

  ghost predicate OneMarket(keys: map<OrderId, Price>) {
    && (forall i <- keys :: Ranked(keys[i]))
    && forall i, j :: i in keys && j in keys ==> SameMarket(keys[i], keys[j])
  }

  lemma {:induction false} FirstExists(keys: map<OrderId, Price>) returns (first: OrderId)
    requires keys != map[] && OneMarket(keys)
    ensures first in keys
    ensures forall j <- keys :: j != first ==> Ahead(keys[first], first, keys[j], j)
    decreases keys.Keys
  {
    var i :| i in keys;
    if keys - {i} == map[] {
      assert forall j <- keys :: j != i ==> j in keys - {i};
      return i;
    }
    var best := FirstExists(keys - {i});
    assert forall j <- keys :: j != i ==> j in keys - {i};
    if Ahead(keys[i], i, keys[best], best) {
      forall j | j in keys && j != i
        ensures Ahead(keys[i], i, keys[j], j)
      {
        if j != best {
          AheadIsTransitive(keys[i], i, keys[best], best, keys[j], j);
        }
      }
      return i;
    }
    return best;
  }

  lemma {:induction false} IndexHasOrder(keys: map<OrderId, Price>) returns (ids: seq<OrderId>)
    requires OneMarket(keys)
    ensures InOrder(keys, ids)
    decreases keys.Keys
  {
    ids := [];
    if keys != map[] {
      var first := FirstExists(keys);
      var rest := IndexHasOrder(keys - {first});
      ids := [first] + rest;
      forall i
        ensures i in ids <==> i in keys
      {
        assert i in rest <==> i in keys - {first};
      }
      forall j, k | 0 <= j < k < |ids|
        ensures Ahead(keys[ids[j]], ids[j], keys[ids[k]], ids[k])
      {
        assert ids[k] == rest[k - 1] && rest[k - 1] in rest;
        if j > 0 {
          assert ids[j] == rest[j - 1] && rest[j - 1] in rest;
        }
      }
    }
  }

  /** The asset's call orders by call price, the lowest of which is the highest inverse. */
  ghost function CallIndex(b: Books, m: AssetId): map<OrderId, Price> {
    map i | i in b.calls && b.calls[i].DebtType() == m :: b.calls[i].callPrice.Inverse()
  }

  ghost function SellerIndex(b: Books, sellers: set<OrderId>): map<OrderId, Price> {
    map i | i in sellers && i in b.limits :: b.limits[i].price
  }

  lemma CallsOfOneMarket(b: Books, m: AssetId)
    requires Core(b)
    ensures OneMarket(CallIndex(b, m))
    ensures m in b.bitassets ==> forall i <- CallIndex(b, m) :: PriceOf(CallIndex(b, m)[i], m, b.bitassets[m].backing)
  {
    forall i | i in CallIndex(b, m)
      ensures m in b.bitassets && CallIndex(b, m)[i].Positive()
      ensures PriceOf(CallIndex(b, m)[i], m, b.bitassets[m].backing)
    {
      assert CallOk(b, i);
    }
  }

  lemma FirstCallExists(b: Books, m: AssetId, id: OrderId)
    requires Core(b) && id in b.calls && b.calls[id].DebtType() == m
    ensures FirstCallOf(b, m).Some?
  {
    CallsOfOneMarket(b, m);
    assert id in CallIndex(b, m);
    var first := FirstExists(CallIndex(b, m));
    forall i | i in b.calls && i != first && b.calls[i].DebtType() == m
      ensures Ahead(b.calls[first].callPrice.Inverse(), first, b.calls[i].callPrice.Inverse(), i)
    {
      assert i in CallIndex(b, m);
    }
    assert IsFirstCall(b, m, first);
  }

  // ----- global settlement ------------------------------------------------------------------

  lemma FirstCallIsUnique(b: Books, m: AssetId, id: OrderId, other: OrderId)
    requires IsFirstCall(b, m, id) && IsFirstCall(b, m, other)
    ensures id == other
  {}

  ghost function FirstCallOf(b: Books, m: AssetId): (id: Option<OrderId>)
    ensures id.Some? ==> IsFirstCall(b, m, id.value)
    ensures id.None? ==> forall i :: !IsFirstCall(b, m, i)
  {
    if exists i :: IsFirstCall(b, m, i) then
      var i :| IsFirstCall(b, m, i);
      Some(i)
    else None
  }

  lemma FirstCallOfIs(b: Books, m: AssetId, id: OrderId)
    requires IsFirstCall(b, m, id)
    ensures FirstCallOf(b, m) == Some(id)
  {
    FirstCallIsUnique(b, m, id, FirstCallOf(b, m).value);
  }

  /** Closes the asset's call orders, first in the index first, and gathers what they pay. */
  ghost function CloseAll(b: Books, m: AssetId, p: Price, gathered: nat): (r: Option<(Books, nat)>)
    ensures r.Some? ==> OnlyCallsTouched(b, r.value.0)
    decreases b.calls.Keys
  {
    var id := FirstCallOf(b, m);
    if id.None? then Some((b, gathered))
    else
      var pays := ClosingPayment(b.calls[id.value], p);
      if pays.None? then None
      else
        ClosedCall(b, id.value, pays.value);
        FillCallFrame(b, id.value, pays.value, b.calls[id.value].debt);
        CloseAll(FillCall(b, id.value, pays.value, b.calls[id.value].debt), m, p, gathered + pays.value)
  }

  /** The closing throws exactly where the debt of some position does not convert. */
  lemma {:induction false} ClosesUnlessOneThrows(b: Books, m: AssetId, p: Price, gathered: nat)
    requires Core(b)
    ensures CloseAll(b, m, p, gathered).Some? <==>
            forall i <- b.calls :: b.calls[i].DebtType() == m ==> ClosingPayment(b.calls[i], p).Some?
    decreases b.calls.Keys
  {
    hide Core, FillCall, ClosingPayment;
    forall i | i in b.calls && b.calls[i].DebtType() == m
      ensures FirstCallOf(b, m).Some?
    {
      FirstCallExists(b, m, i);
    }
    var id := FirstCallOf(b, m);
    if id.Some? && ClosingPayment(b.calls[id.value], p).Some? {
      var pays, debt := ClosingPayment(b.calls[id.value], p).value, b.calls[id.value].debt;
      PaymentWithinCollateral(b.calls[id.value], p);
      ClosedCall(b, id.value, pays);
      FillCallKeepsCore(b, id.value, pays, debt);
      var b' := FillCall(b, id.value, pays, debt);
      ClosesUnlessOneThrows(b', m, p, gathered + pays);
      forall i | i in b.calls && i != id.value
        ensures i in b'.calls && b'.calls[i] == b.calls[i]
      {
        assert i in b.calls - {id.value};
      }
    }
  }

  lemma PaymentWithinCollateral(c: CallOrder, p: Price)
    requires ClosingPayment(c, p).Some?
    ensures ClosingPayment(c, p).value <= c.collateral
  {}

  /** All positions are closed at the price, their payments are the fund, the supply is restored. */
  ghost function GloballySettled(b: Books, m: AssetId, p: Price): (r: Option<Books>)
    requires m in b.bitassets
    ensures r.Some? ==> r.value.limits == b.limits && m in r.value.bitassets && r.value.bitassets[m].settlement.Some?
  {
    var closed := CloseAll(b, m, p, 0);
    if b.bitassets[m].settlement.Some? || b.Supply(m) <= 0 || closed.None? then None
    else Some(Settled(closed.value.0, m, b.Supply(m), closed.value.1))
  }

  /** Whether the asset is settled after the check, which settles it in a black swan. */
  ghost function Swanned(b: Books, m: AssetId, enable: bool): (r: Option<(Books, bool)>)
    ensures r.Some? ==> r.value.0.limits == b.limits && (!r.value.1 ==> r.value.0 == b)
    ensures r.Some? ==> (r.value.1 <==> m in r.value.0.bitassets && r.value.0.bitassets[m].settlement.Some?)
  {
    if !Unsettled(b, m) then Some((b, m in b.bitassets))
    else if !IsBlackSwan(b, m) then Some((b, false))
    else if !enable then None
    else
      var settled := GloballySettled(b, m, b.calls[FirstCallOf(b, m).value].Collateralization().Inverse());
      if settled.None? then None else Some((settled.value, true))
  }

  // ----- margin calls -----------------------------------------------------------------------

  lemma BestSellerIsUnique(b: Books, ids: set<OrderId>, seller: OrderId, other: OrderId)
    requires IsBestSeller(b, ids, seller) && IsBestSeller(b, ids, other)
    ensures seller == other
  {}

  ghost function BestSellerOf(b: Books, ids: set<OrderId>): (seller: Option<OrderId>)
    ensures seller.Some? ==> IsBestSeller(b, ids, seller.value)
    ensures seller.None? ==> forall i :: !IsBestSeller(b, ids, i)
  {
    if exists i :: IsBestSeller(b, ids, i) then
      var i :| IsBestSeller(b, ids, i);
      Some(i)
    else None
  }

  lemma BestSellerOfIs(b: Books, ids: set<OrderId>, seller: OrderId)
    requires IsBestSeller(b, ids, seller)
    ensures BestSellerOf(b, ids) == Some(seller)
  {
    BestSellerIsUnique(b, ids, seller, BestSellerOf(b, ids).value);
  }

  /** One turn of the margin calls; `exhausted` says whether the seller had nothing left. */
  datatype CallTurn = Throws | Stops | Settles(books: Books) | Trades(books: Books, seller: OrderId, exhausted: bool)

  ghost predicate TurnKeeps(b: Books, m: AssetId, t: CallTurn) {
    && (t.Settles? ==> t.books.limits == b.limits && m in t.books.bitassets && t.books.bitassets[m].settlement.Some?)
    && (t.Trades? ==> LimitsOk(t.books.limits) && Shrunk(b.limits, t.books.limits, None)
                      && t.books.bitassets == b.bitassets && t.seller in b.limits
                      && t.books.calls.Keys <= b.calls.Keys
                      && (t.exhausted ==> t.seller !in t.books.limits)
                      && (t.books.calls.Keys == b.calls.Keys ==> t.exhausted))
  }

  /** The call order that is due buys from the seller, or the asset is settled at the feed. */
  ghost function DueTurn(
      rules: FeeRules, b: Books, m: AssetId, enable: bool, call: OrderId, seller: OrderId): (t: CallTurn)
    requires LimitsOk(b.limits) && m in b.bitassets && b.bitassets[m].feed.Some?
    requires call in b.calls && b.calls[call].DebtType() == m && seller in b.limits
    ensures TurnKeeps(b, m, t) && !t.Stops? && (t.Trades? ==> t.seller == seller)
  {
    var c, o := b.calls[call], b.limits[seller];
    var worth, t := Times(Asset(c.debt, m), o.price), CallTrade(c.debt, o.forSale, o.price);
    if worth.None? then Throws
    else if worth.value.amount > c.collateral then
      var settled := GloballySettled(b, m, b.bitassets[m].feed.value.settlementPrice);
      if !enable || settled.None? then Throws else Settles(settled.value)
    else if t.None? || t.value.pays > c.collateral then Throws
    else
      CalledShrinks(rules, b, call, seller, t.value.pays, t.value.receives);
      Trades(Called(rules, b, call, seller, t.value.pays, t.value.receives), seller, c.debt >= o.forSale)
  }

  /** The first call order against the best of the sellers, if it is due. */
  ghost function MarginTurn(rules: FeeRules, b: Books, m: AssetId, enable: bool, sellers: set<OrderId>): (t: CallTurn)
    requires LimitsOk(b.limits) && m in b.bitassets && b.bitassets[m].feed.Some?
    ensures TurnKeeps(b, m, t) && (t.Trades? ==> t.seller in sellers)
  {
    var call, seller := FirstCallOf(b, m), BestSellerOf(b, sellers);
    if call.None? || seller.None?
       || !Due(b.calls[call.value], b.bitassets[m].feed.value.settlementPrice, b.limits[seller.value].price) then Stops
    else DueTurn(rules, b, m, enable, call.value, seller.value)
  }

  /**
    A due position trades exactly if its whole debt is worth no more than its collateral at the
    seller's price, rounded down. Otherwise the asset is settled if that is allowed.
   */
  lemma TurnMeans(
      rules: FeeRules, b: Books, m: AssetId, enable: bool, sellers: set<OrderId>, call: OrderId, seller: OrderId)
    requires LimitsOk(b.limits) && m in b.bitassets && b.bitassets[m].feed.Some?
    requires IsFirstCall(b, m, call) && IsBestSeller(b, sellers, seller) && b.limits[seller].price.base.id == m
    ensures var t, c, o := MarginTurn(rules, b, m, enable, sellers), b.calls[call], b.limits[seller];
      var feed := b.bitassets[m].feed.value.settlementPrice;
      var worth, unit := c.debt * o.price.quote.amount, o.price.base.amount;
      && (t.Stops? <==> !Due(c, feed, o.price))
      && (t.Trades? <==> Due(c, feed, o.price)
                         && worth < (c.collateral + 1) * unit && worth < (MAX_SHARE_SUPPLY + 1) * unit)
      && (t.Trades? ==> t.seller == seller && (t.exhausted <==> c.debt >= o.forSale))
      && (t.Settles? <==> Due(c, feed, o.price) && enable && GloballySettled(b, m, feed).Some?
                          && (c.collateral + 1) * unit <= worth < (MAX_SHARE_SUPPLY + 1) * unit)
  {
    hide Due, GloballySettled, Called, Shrunk, CallTrade, Times, TurnKeeps;
    var c, o := b.calls[call], b.limits[seller];
    FirstCallOfIs(b, m, call);
    BestSellerOfIs(b, sellers, seller);
    WorthMeans(c.debt, c.collateral, o.price);
    TradeIsWithin(c.debt, o.forSale, c.collateral, o.price);
  }

  lemma WorthMeans(debt: nat, collateral: nat, price: Price)
    requires price.Positive()
    ensures var r := Times(Asset(debt, price.base.id), price);
      && (r.Some? <==> debt * price.quote.amount < (MAX_SHARE_SUPPLY + 1) * price.base.amount)
      && (r.Some? ==> (r.value.amount > collateral <==>
                       (collateral + 1) * price.base.amount <= debt * price.quote.amount))
  {
    ScaleRounds(debt, price.quote.amount, price.base.amount);
    FloorIsGreatest(debt * price.quote.amount, price.base.amount, collateral + 1);
  }

  /** What is traded for part of the debt is within what the whole debt is worth. */
  lemma TradeIsWithin(debt: nat, forSale: nat, collateral: nat, price: Price)
    requires price.Positive()
    ensures var worth, t := Times(Asset(debt, price.base.id), price), CallTrade(debt, forSale, price);
      worth.Some? && worth.value.amount <= collateral ==> t.Some? && t.value.pays <= collateral
  {
    var receives := if debt >= forSale then forSale else debt;
    MulMonotone(receives, debt, price.quote.amount);
    WorthMeans(debt, collateral, price);
    WorthMeans(receives, collateral, price);
  }

  lemma CalledShrinks(rules: FeeRules, b: Books, call: OrderId, limit: OrderId, pays: nat, receives: nat)
    requires call in b.calls && pays <= b.calls[call].collateral && receives <= b.calls[call].debt
    requires LimitsOk(b.limits) && limit in b.limits && receives <= b.limits[limit].forSale
    ensures var b' := Called(rules, b, call, limit, pays, receives);
      && b'.limits == Reduced(b.limits, limit, receives, true) && b'.calls == FillCall(b, call, pays, receives).calls
      && b'.calls.Keys == (if receives == b.calls[call].debt then b.calls.Keys - {call} else b.calls.Keys)
      && b'.bitassets == b.bitassets && LimitsOk(b'.limits) && Shrunk(b.limits, b'.limits, None)
      && (receives == b.limits[limit].forSale ==> limit !in b'.limits)
  {
    hide FillCall, FillLimit;
    FillCallFrame(b, call, pays, receives);
    FillCallKeys(b, call, pays, receives);
    var b1 := FillCall(b, call, pays, receives);
    FillLimitKeepsCore(rules, b1, limit, receives, pays, true);
    FillLimitBook(rules, b1, limit, receives, pays, true);
    ReducedIsShrunk(b.limits, limit, receives, true);
  }

  /**
    The seller stays the next one although it is gone, exactly when no seller was exhausted so
    far, the call takes less than it sells, and what is left asks for nothing.
   */
  lemma CulledInPlace(rules: FeeRules, b: Books, m: AssetId, enable: bool, sellers: set<OrderId>, filled: bool)
    requires LimitsOk(b.limits) && m in b.bitassets && b.bitassets[m].feed.Some?
    requires MarginTurn(rules, b, m, enable, sellers).Trades?
    ensures var t := MarginTurn(rules, b, m, enable, sellers);
      && FirstCallOf(b, m).Some? && t.seller in b.limits
      && var debt, o := b.calls[FirstCallOf(b, m).value].debt, b.limits[t.seller];
      (!(filled || t.exhausted) && t.seller !in t.books.limits)
      <==> !filled && debt < o.forSale && o.(forSale := o.forSale - debt).Worth() == 0
  {
    hide Called, Due, IsBestSeller, Shrunk;
    var t := MarginTurn(rules, b, m, enable, sellers);
    var call := FirstCallOf(b, m).value;
    var trade := CallTrade(b.calls[call].debt, b.limits[t.seller].forSale, b.limits[t.seller].price).value;
    CalledShrinks(rules, b, call, t.seller, trade.pays, trade.receives);
  }

  /** A trade takes away a position or a seller. */
  lemma TurnIsProgress(b: Books, m: AssetId, sellers: set<OrderId>, t: CallTurn, filled: bool)
    requires TurnKeeps(b, m, t) && t.Trades? && t.seller in sellers && (t.exhausted ==> filled)
    ensures LimitsOk(t.books.limits) && t.books.bitassets == b.bitassets
    ensures var rest := StillAhead(sellers, t.books.limits, t.seller, filled);
      t.books.calls.Keys < b.calls.Keys || (t.books.calls.Keys == b.calls.Keys && rest < sellers)
  {
    hide Shrunk;
    StillAheadShrinks(sellers, b.limits, t.books.limits, t.seller, filled);
  }

  /**
    All turns of the margin calls. A seller stays the next one until it is gone, but once one
    seller was exhausted (`filled`) every later one is left behind after its turn.
   */
  ghost function CalledAll(
      rules: FeeRules, b: Books, m: AssetId, enable: bool, sellers: set<OrderId>, filled: bool,
      called: bool): (r: Option<(Books, bool)>)
    requires LimitsOk(b.limits) && m in b.bitassets && b.bitassets[m].feed.Some?
    ensures r.Some? ==> LimitsOk(r.value.0.limits)
    decreases b.calls.Keys, sellers
  {
    hide Swanned, MarginTurn, LimitsOk, StillAhead, TurnKeeps;
    var swan := Swanned(b, m, enable);
    if swan.None? then None
    else if swan.value.1 then Some((swan.value.0, called))
    else
      match MarginTurn(rules, b, m, enable, sellers)
      case Throws => None
      case Stops => Some((b, called))
      case Settles(b') => Some((b', true))
      case Trades(b', seller, exhausted) =>
        TurnIsProgress(b, m, sellers, MarginTurn(rules, b, m, enable, sellers), filled || exhausted);
        CalledAll(rules, b', m, enable, StillAhead(sellers, b'.limits, seller, filled || exhausted),
          filled || exhausted, true)
  }

  function StillAhead(
      sellers: set<OrderId>, limits: map<OrderId, LimitOrder>, seller: OrderId, filled: bool): set<OrderId> {
    (if filled then sellers - {seller} else sellers) * limits.Keys
  }

  lemma CalledAllUnfolds(
      rules: FeeRules, b: Books, m: AssetId, enable: bool, sellers: set<OrderId>, filled: bool, called: bool)
    requires LimitsOk(b.limits) && m in b.bitassets && b.bitassets[m].feed.Some?
    ensures CalledAll(rules, b, m, enable, sellers, filled, called) ==
      var swan, t := Swanned(b, m, enable), MarginTurn(rules, b, m, enable, sellers);
      if swan.None? then None
      else if swan.value.1 then Some((swan.value.0, called))
      else if t.Throws? then None
      else if t.Stops? then Some((b, called))
      else if t.Settles? then Some((t.books, true))
      else CalledAll(rules, t.books, m, enable,
             StillAhead(sellers, t.books.limits, t.seller, filled || t.exhausted), filled || t.exhausted, true)
  {}

  lemma StillAheadShrinks(
      sellers: set<OrderId>, limits: map<OrderId, LimitOrder>, limits': map<OrderId, LimitOrder>,
      seller: OrderId, filled: bool)
    ensures var rest := StillAhead(sellers, limits', seller, filled);
      rest <= sellers && rest <= limits'.Keys && (filled && seller in sellers ==> rest < sellers)
  {}

  /** The check of an asset's call orders; the flag says whether one was called. */
  ghost function CheckedCalls(rules: FeeRules, b: Books, m: AssetId, enable: bool): (r: Option<(Books, bool)>)
    requires LimitsOk(b.limits)
    ensures r.Some? ==> LimitsOk(r.value.0.limits)
  {
    var swan := Swanned(b, m, enable);
    if swan.None? then None
    else if swan.value.1 || m !in b.bitassets || b.bitassets[m].isPredictionMarket || b.bitassets[m].feed.None? then
      Some((swan.value.0, false))
    else
      var sellers := SellersAt(b, m, b.bitassets[m].backing, b.bitassets[m].feed.value.squeezePrice);
      CalledAll(rules, b, m, enable, sellers, false, false)
  }

  ghost function CheckedBoth(
      rules: FeeRules, b: Books, sell: AssetId, receive: AssetId, enable: bool): (r: Option<(Books, bool)>)
    requires LimitsOk(b.limits)
    ensures r.Some? ==> LimitsOk(r.value.0.limits)
  {
    var first := CheckedCalls(rules, b, sell, enable);
    if first.None? then None
    else
      var second := CheckedCalls(rules, first.value.0, receive, enable);
      if second.None? then None else Some((second.value.0, first.value.1 || second.value.1))
  }

  // ----- operations on limit orders ---------------------------------------------------------

  /** Margin calls, matching, margin calls again, and the refund of a remainder that asks for nothing. */
  ghost function Applied(rules: FeeRules, b: Books, id: OrderId, enable: bool): Option<Books>
    requires LimitsOk(b.limits) && id in b.limits
  {
    var price := b.limits[id].price;
    var called := CheckedBoth(rules, b, price.base.id, price.quote.id, enable);
    if called.None? then None
    else if called.value.1 && id !in called.value.0.limits then Some(called.value.0)
    else
      var matched := MatchAll(rules, called.value.0, id);
      if matched.None? then None else Culled(rules, matched.value, id, price, enable)
  }

  ghost function Culled(rules: FeeRules, b: Books, id: OrderId, price: Price, enable: bool): Option<Books>
    requires LimitsOk(b.limits)
  {
    var called := CheckedBoth(rules, b, price.base.id, price.quote.id, enable);
    if called.None? then None else Some(CullIfSmall(called.value.0, id))
  }

  /** Offer and fee leave the seller's balances, and the order is applied; one to fill or kill must be gone. */
  ghost function Created(rules: FeeRules, b: Books, o: LimitOrder, id: OrderId, fillOrKill: bool): Option<Books>
    requires LimitsOk(b.limits) && o.forSale > 0 && o.price.Positive()
  {
    if !CanEnter(b, o) || o.price.quote.amount > MAX_SHARE_SUPPLY then None
    else
      var b' := Applied(rules, Entered(b, o, id), id, true);
      if b'.None? || (fillOrKill && id in b'.value.limits) then None else b'
  }

  ghost function Cancelled(rules: FeeRules, b: Books, id: OrderId): Option<Books>
    requires LimitsOk(b.limits) && id in b.limits
  {
    var price := b.limits[id].price;
    var b' := CheckedBoth(rules, CancelLimit(b, id), price.base.id, price.quote.id, true);
    if b'.None? then None else Some(b'.value.0)
  }

  /** Where no bitasset is involved the order is matched, and its remainder refunded if it asks for nothing. */
  lemma PlainMarketOnlyMatches(rules: FeeRules, b: Books, id: OrderId, enable: bool)
    requires LimitsOk(b.limits) && id in b.limits && PlainMarket(b, b.limits[id].price)
    ensures Applied(rules, b, id, enable) ==
      var matched := MatchAll(rules, b, id); if matched.None? then None else Some(CullIfSmall(matched.value, id))
  {}
}

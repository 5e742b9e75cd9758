/**
  When margin calls leave a position that is due unserved. Once one limit order has been
  exhausted, every later one is left behind after one trade, even with something left to
  sell. This says of the orders before the call whether a due position misses them.
 */
module MarginCalls {
  import opened Wrappers
  import opened Prices
  import opened Sums
  import opened Books
  import opened MarketRules
  import opened MarketSpecs

  /** What a position owes, and the highest price at which a call of it is due. */
  datatype Owing = Owing(debt: nat, price: Price)

  datatype Offer = Offer(forSale: nat, price: Price) {
    /** Nothing is left, or what is left asks for nothing. */
    predicate Over() {
      forSale == 0 || price.base.amount == 0 || forSale * price.quote.amount / price.base.amount == 0
    }
  }

  predicate DueAt(owing: Owing, feed: Price, price: Price) {
    !Less(owing.price, feed) && !Less(owing.price, price)
  }

  /** What the first position still owes after it met an offer. */
  function StillOwing(owed: seq<Owing>, forSale: nat): seq<Owing>
    requires |owed| > 0
  {
    if owed[0].debt <= forSale then owed[1..] else [Owing(owed[0].debt - forSale, owed[0].price)] + owed[1..]
  }

  /**
    Positions and offers meet in the order of their indexes. `filled` tells that an offer was
    exhausted, `behind` the price of the first offer left behind. A position starves when it
    is due there and no offer lies ahead any more.
   */
  predicate Starves(owed: seq<Owing>, offers: seq<Offer>, feed: Price, filled: bool, behind: Option<Price>)
    decreases |owed| + |offers|
  {
    if owed == [] then false
    else if offers == [] then behind.Some? && DueAt(owed[0], feed, behind.value)
    else if !DueAt(owed[0], feed, offers[0].price) then false
    else
      var debt, offer := owed[0].debt, offers[0];
      var left := Offer(if debt >= offer.forSale then 0 else offer.forSale - debt, offer.price);
      var owed', filled' := StillOwing(owed, offer.forSale), filled || debt >= offer.forSale;
      if left.Over() then Starves(owed', offers[1..], feed, filled', behind)
      else if filled' then
        Starves(owed', offers[1..], feed, filled', if behind.None? then Some(offer.price) else behind)
      else Starves(owed', [left] + offers[1..], feed, filled', behind)
  }

  ghost function Owed(b: Books, ids: seq<OrderId>): seq<Owing>
    requires forall i :: i in ids ==> i in b.calls
  {
    seq(|ids|, k requires 0 <= k < |ids| =>
      assert ids[k] in ids; Owing(b.calls[ids[k]].debt, b.calls[ids[k]].callPrice.Inverse()))
  }

  ghost function Offers(b: Books, ids: seq<OrderId>): seq<Offer>
    requires forall i :: i in ids ==> i in b.limits
  {
    seq(|ids|, k requires 0 <= k < |ids| =>
      assert ids[k] in ids; Offer(b.limits[ids[k]].forSale, b.limits[ids[k]].price))
  }

  /** The calls and the sellers of the asset, each in the order of its index. */
  ghost predicate Lists(b: Books, m: AssetId, sellers: set<OrderId>, calls: seq<OrderId>, asks: seq<OrderId>) {
    sellers <= b.limits.Keys && InOrder(CallIndex(b, m), calls) && InOrder(SellerIndex(b, sellers), asks)
  }

  /**
    The middle of the walk over the sellers in `range`: those still ahead, whether one was
    exhausted, the first one left behind, and the lists of the calls and of the sellers ahead.
   */
  datatype Walk = Walk(
      books: Books, sellers: set<OrderId>, filled: bool, left: Option<OrderId>, calls: seq<OrderId>,
      asks: seq<OrderId>)

  ghost predicate Listed(w: Walk) {
    && (forall i :: i in w.calls ==> i in w.books.calls) && (forall i :: i in w.asks ==> i in w.books.limits)
    && (w.left.Some? ==> w.left.value in w.books.limits)
  }

  ghost predicate Walking(w: Walk, m: AssetId, feed: Price, range: set<OrderId>) {
    OnMarket(w.books, m, feed, range) && LeftIsBest(w, range) && Lists(w.books, m, w.sellers, w.calls, w.asks)
  }

  ghost predicate OnMarket(b: Books, m: AssetId, feed: Price, range: set<OrderId>) {
    && Core(b) && LimitsOk(b.limits) && Unsettled(b, m)
    && b.bitassets[m].feed.Some? && b.bitassets[m].feed.value.settlementPrice == feed
    && forall i <- range :: i in b.limits ==> PriceOf(b.limits[i].price, m, b.bitassets[m].backing)
  }

  /** Sellers left behind come before those ahead, and there are none before one was exhausted. */
  ghost predicate LeftIsBest(w: Walk, range: set<OrderId>) {
    var resting := range * w.books.limits.Keys;
    && w.sellers <= resting && (!w.filled ==> w.left.None?) && (w.left.None? ==> w.sellers == resting)
    && (w.left.Some? ==> w.left.value !in w.sellers && IsBestSeller(w.books, resting, w.left.value))
  }

  ghost predicate Starving(w: Walk, feed: Price)
    requires Listed(w)
  {
    var behind := if w.left.None? then None else Some(w.books.limits[w.left.value].price);
    Starves(Owed(w.books, w.calls), Offers(w.books, w.asks), feed, w.filled, behind)
  }

  lemma WalkIsListed(w: Walk, m: AssetId, feed: Price, range: set<OrderId>)
    requires Walking(w, m, feed, range)
    ensures Listed(w) && w.sellers <= w.books.limits.Keys
    ensures LimitsOk(w.books.limits) && Unsettled(w.books, m)
    ensures w.books.bitassets[m].feed.Some? && w.books.bitassets[m].feed.value.settlementPrice == feed
  {
    hide InOrder, Core;
    CallsAreListed(w.books, m, w.calls);
    SellersAreListed(w.books, w.sellers, w.asks);
  }

  lemma HeadIsFirstCall(b: Books, m: AssetId, calls: seq<OrderId>)
    requires InOrder(CallIndex(b, m), calls)
    ensures FirstCallOf(b, m) == if calls == [] then None else Some(calls[0])
  {
    if calls != [] {
      assert calls[0] in calls;
      forall i | i in b.calls && i != calls[0] && b.calls[i].DebtType() == m
        ensures Ahead(b.calls[calls[0]].callPrice.Inverse(), calls[0], b.calls[i].callPrice.Inverse(), i)
      {
        assert i in CallIndex(b, m);
        var k :| 0 <= k < |calls| && calls[k] == i;
      }
      FirstCallOfIs(b, m, calls[0]);
    } else {
      forall i | i in b.calls
        ensures b.calls[i].DebtType() != m
      {
        assert i !in CallIndex(b, m);
      }
    }
  }

  lemma HeadIsBestSeller(b: Books, sellers: set<OrderId>, asks: seq<OrderId>)
    requires sellers <= b.limits.Keys && InOrder(SellerIndex(b, sellers), asks)
    ensures BestSellerOf(b, sellers) == if asks == [] then None else Some(asks[0])
  {
    if asks != [] {
      assert asks[0] in asks;
      forall i | i in sellers && i != asks[0]
        ensures Ahead(b.limits[asks[0]].price, asks[0], b.limits[i].price, i)
      {
        assert i in SellerIndex(b, sellers);
        var k :| 0 <= k < |asks| && asks[k] == i;
      }
      BestSellerOfIs(b, sellers, asks[0]);
    } else {
      forall i | i in b.limits
        ensures i !in sellers
      {
        assert i !in SellerIndex(b, sellers);
      }
    }
  }

  // ----- one turn ---------------------------------------------------------------------------

  /** The rest of an index is in the order of what is left of it. */
  lemma RestInOrder(keys: map<OrderId, Price>, ids: seq<OrderId>)
    requires InOrder(keys, ids) && ids != []
    ensures InOrder(keys - {ids[0]}, ids[1..])
  {
    forall i
      ensures i in ids[1..] <==> i in keys - {ids[0]}
    {
      if i in ids[1..] {
        var k :| 0 <= k < |ids| - 1 && ids[1..][k] == i;
        assert ids[k + 1] == i && ids[k + 1] in ids && ids[0] in ids;
      }
    }
    forall j, k | 0 <= j < k < |ids| - 1
      ensures Ahead((keys - {ids[0]})[ids[1..][j]], ids[1..][j], (keys - {ids[0]})[ids[1..][k]], ids[1..][k])
    {
      assert ids[1..][j] in ids[1..] && ids[1..][k] in ids[1..];
      assert Ahead(keys[ids[j + 1]], ids[j + 1], keys[ids[k + 1]], ids[k + 1]);
    }
  }

  predicate StillOwes(b: Books, b': Books, id: OrderId, receives: nat) {
    && id in b.calls && id in b'.calls && b'.calls[id].debt == b.calls[id].debt - receives
    && b'.calls[id].callPrice == b.calls[id].callPrice
  }

  /** The first position after it bought: closed, or with less debt at the same place. */
  lemma CallsAfter(b: Books, b': Books, m: AssetId, calls: seq<OrderId>, pays: nat, receives: nat)
    requires InOrder(CallIndex(b, m), calls) && calls != []
    requires calls[0] in b.calls && pays <= b.calls[calls[0]].collateral && receives <= b.calls[calls[0]].debt
    requires b'.calls == FillCall(b, calls[0], pays, receives).calls
    ensures var calls' := if receives == b.calls[calls[0]].debt then calls[1..] else calls;
      && InOrder(CallIndex(b', m), calls') && (forall i :: i in calls' ==> i in b.calls && i in b'.calls)
      && (forall i :: i in calls' && i != calls[0] ==> b'.calls[i] == b.calls[i])
      && (calls[0] in calls' ==> StillOwes(b, b', calls[0], receives))
  {
    hide FillCall;
    FillCallCalls(b, calls[0], pays, receives);
    RestInOrder(CallIndex(b, m), calls);
    if receives == b.calls[calls[0]].debt {
      assert CallIndex(b', m) == CallIndex(b, m) - {calls[0]};
    } else {
      assert CallIndex(b', m) == CallIndex(b, m);
    }
  }

  /** No id comes twice in an index. */
  lemma HeadOnce(keys: map<OrderId, Price>, ids: seq<OrderId>)
    requires InOrder(keys, ids) && ids != []
    ensures ids[0] !in ids[1..]
  {
    RestInOrder(keys, ids);
  }

  lemma OwedAfter(b: Books, b': Books, m: AssetId, calls: seq<OrderId>, pays: nat, receives: nat, forSale: nat)
    requires InOrder(CallIndex(b, m), calls) && calls != []
    requires calls[0] in b.calls && pays <= b.calls[calls[0]].collateral
    requires receives == if b.calls[calls[0]].debt >= forSale then forSale else b.calls[calls[0]].debt
    requires b'.calls == FillCall(b, calls[0], pays, receives).calls
    ensures var calls' := if receives == b.calls[calls[0]].debt then calls[1..] else calls;
      && InOrder(CallIndex(b', m), calls')
      && (forall i :: i in calls ==> i in b.calls) && (forall i :: i in calls' ==> i in b'.calls)
      && Owed(b', calls') == StillOwing(Owed(b, calls), forSale)
  {
    hide FillCall, InOrder;
    CallsAfter(b, b', m, calls, pays, receives);
    HeadOnce(CallIndex(b, m), calls);
    CallsAreListed(b, m, calls);
    OwedFollows(b, b', calls, receives, forSale);
  }

  lemma CallsAreListed(b: Books, m: AssetId, calls: seq<OrderId>)
    requires InOrder(CallIndex(b, m), calls)
    ensures forall i :: i in calls ==> i in b.calls && b.calls[i].DebtType() == m
  {
    forall i | i in calls
      ensures i in b.calls && b.calls[i].DebtType() == m
    {
      assert i in CallIndex(b, m);
    }
  }

  lemma OwedFollows(b: Books, b': Books, calls: seq<OrderId>, receives: nat, forSale: nat)
    requires calls != [] && calls[0] !in calls[1..] && forall i :: i in calls ==> i in b.calls
    requires receives == if b.calls[calls[0]].debt >= forSale then forSale else b.calls[calls[0]].debt
    requires forall i :: i in calls[1..] ==> i in b'.calls && b'.calls[i] == b.calls[i]
    requires receives < b.calls[calls[0]].debt ==> StillOwes(b, b', calls[0], receives)
    ensures var calls' := if receives == b.calls[calls[0]].debt then calls[1..] else calls;
      && (forall i :: i in calls' ==> i in b'.calls)
      && Owed(b', calls') == StillOwing(Owed(b, calls), forSale)
  {
    var owed := Owed(b, calls);
    assert owed[0].debt == b.calls[calls[0]].debt;
    assert Owed(b', calls[1..]) == owed[1..] by {
      forall k | 0 <= k < |calls| - 1
        ensures Owed(b', calls[1..])[k] == owed[k + 1]
      {
        assert calls[1..][k] in calls[1..] && calls[k + 1] in calls;
      }
    }
    if receives < b.calls[calls[0]].debt {
      assert calls == [calls[0]] + calls[1..];
      assert Owed(b', calls) == [Owing(owed[0].debt - forSale, owed[0].price)] + Owed(b', calls[1..]);
    }
  }

  lemma SellersAreListed(b: Books, sellers: set<OrderId>, asks: seq<OrderId>)
    requires sellers <= b.limits.Keys && InOrder(SellerIndex(b, sellers), asks)
    ensures forall i :: i in asks <==> i in sellers
  {
    forall i
      ensures i in asks <==> i in sellers
    {
      assert i in asks <==> i in SellerIndex(b, sellers);
    }
  }

  /** The sellers that are still ahead after the first one sold. */
  lemma SellersAfter(b: Books, b': Books, sellers: set<OrderId>, asks: seq<OrderId>, receives: nat, filled: bool)
    requires LimitsOk(b.limits) && sellers <= b.limits.Keys && InOrder(SellerIndex(b, sellers), asks) && asks != []
    requires asks[0] in b.limits && receives <= b.limits[asks[0]].forSale
    requires b'.limits == Reduced(b.limits, asks[0], receives, true)
    ensures var sellers' := StillAhead(sellers, b'.limits, asks[0], filled);
      var asks' := if filled || asks[0] !in b'.limits then asks[1..] else asks;
      && InOrder(SellerIndex(b', sellers'), asks') && (forall i :: i in asks' ==> i in b'.limits)
      && sellers' <= b'.limits.Keys
  {
    var sellers' := StillAhead(sellers, b'.limits, asks[0], filled);
    SellersAreListed(b, sellers, asks);
    RestInOrder(SellerIndex(b, sellers), asks);
    if filled || asks[0] !in b'.limits {
      assert SellerIndex(b', sellers') == SellerIndex(b, sellers) - {asks[0]};
      SellersAreListed(b', sellers', asks[1..]);
    } else {
      assert SellerIndex(b', sellers') == SellerIndex(b, sellers);
      SellersAreListed(b', sellers', asks);
    }
  }

  /** The first offer is over, or left with less to sell; the others are as they were. */
  ghost predicate OffersFollow(b: Books, b': Books, asks: seq<OrderId>, receives: nat)
    requires asks != [] && forall i :: i in asks ==> i in b.limits
  {
    && asks[0] in b.limits && receives <= b.limits[asks[0]].forSale
    && var left := Offer(b.limits[asks[0]].forSale - receives, b.limits[asks[0]].price);
    && (asks[0] !in b'.limits <==> left.Over())
    && (forall i :: i in asks[1..] ==> i in b'.limits)
    && Offers(b', asks[1..]) == Offers(b, asks)[1..]
    && (asks[0] in b'.limits ==>
          (forall i :: i in asks ==> i in b'.limits) && Offers(b', asks) == [left] + Offers(b, asks)[1..])
  }

  lemma OffersAfter(b: Books, b': Books, asks: seq<OrderId>, receives: nat)
    requires LimitsOk(b.limits) && asks != [] && asks[0] !in asks[1..] && forall i :: i in asks ==> i in b.limits
    requires receives <= b.limits[asks[0]].forSale && b'.limits == Reduced(b.limits, asks[0], receives, true)
    ensures OffersFollow(b, b', asks, receives)
  {
    forall k | 0 <= k < |asks| - 1
      ensures asks[1..][k] in b'.limits && b'.limits[asks[1..][k]] == b.limits[asks[k + 1]]
    {
      assert asks[1..][k] in asks[1..] && asks[k + 1] in asks;
    }
  }

  /** A trade of the first call order, which is due, with the first of the sellers. */
  ghost predicate IsTrade(
      rules: FeeRules, b: Books, b': Books, m: AssetId, feed: Price, call: OrderId, seller: OrderId, pays: nat,
      receives: nat) {
    && LimitsOk(b.limits) && call in b.calls && seller in b.limits && b.calls[call].DebtType() == m
    && Due(b.calls[call], feed, b.limits[seller].price)
    && receives ==
       (if b.calls[call].debt >= b.limits[seller].forSale then b.limits[seller].forSale else b.calls[call].debt)
    && pays <= b.calls[call].collateral && b' == Called(rules, b, call, seller, pays, receives)
  }

  lemma TradeOfHeads(
      rules: FeeRules, b: Books, m: AssetId, enable: bool, sellers: set<OrderId>, calls: seq<OrderId>,
      asks: seq<OrderId>)
      returns (pays: nat, receives: nat)
    requires LimitsOk(b.limits) && m in b.bitassets && b.bitassets[m].feed.Some? && Lists(b, m, sellers, calls, asks)
    requires MarginTurn(rules, b, m, enable, sellers).Trades?
    ensures var t := MarginTurn(rules, b, m, enable, sellers);
      && calls != [] && asks != [] && calls[0] in b.calls && asks[0] in b.limits
      && t.seller == asks[0] && t.exhausted == (b.calls[calls[0]].debt >= b.limits[asks[0]].forSale)
      && IsTrade(rules, b, t.books, m, b.bitassets[m].feed.value.settlementPrice, calls[0], asks[0], pays, receives)
  {
    hide InOrder, Called, Due, FirstCallOf, BestSellerOf;
    HeadIsFirstCall(b, m, calls);
    HeadIsBestSeller(b, sellers, asks);
    var c, o := b.calls[calls[0]], b.limits[asks[0]];
    var t := CallTrade(c.debt, o.forSale, o.price);
    return t.value.pays, t.value.receives;
  }

  /** The walk after the trade of its first call order with its first seller. */
  function Next(w: Walk, b': Books, receives: nat): Walk
    requires w.calls != [] && w.asks != [] && w.calls[0] in w.books.calls && w.asks[0] in w.books.limits
  {
    var seller, debt := w.asks[0], w.books.calls[w.calls[0]].debt;
    var filled := w.filled || debt >= w.books.limits[seller].forSale;
    Walk(b', StillAhead(w.sellers, b'.limits, seller, filled), filled,
         if w.left.None? && filled && seller in b'.limits then Some(seller) else w.left,
         if receives == debt then w.calls[1..] else w.calls,
         if filled || seller !in b'.limits then w.asks[1..] else w.asks)
  }

  /** A trade of the walk's heads. */
  ghost predicate TradesHeads(rules: FeeRules, w: Walk, b': Books, m: AssetId, feed: Price, pays: nat, receives: nat) {
    && w.calls != [] && w.asks != []
    && IsTrade(rules, w.books, b', m, feed, w.calls[0], w.asks[0], pays, receives)
  }

  lemma TradeKeepsMarket(
      rules: FeeRules, w: Walk, b': Books, m: AssetId, feed: Price, range: set<OrderId>, pays: nat, receives: nat)
    requires OnMarket(w.books, m, feed, range)
    requires TradesHeads(rules, w, b', m, feed, pays, receives) && w.asks[0] in range
    ensures OnMarket(b', m, feed, range)
  {
    hide Core, Called, Shrunk, Ahead, Due;
    CallIsOk(w.books, w.calls[0]);
    CalledKeeps(rules, w.books, w.calls[0], w.asks[0], pays, receives);
    CalledShrinks(rules, w.books, w.calls[0], w.asks[0], pays, receives);
    SamePrices(w.books.limits, b'.limits, w.asks[0], receives);
  }

  lemma CallIsOk(b: Books, call: OrderId)
    requires Core(b)
    ensures CallOk(b, call)
  {}

  lemma SamePrices(limits: map<OrderId, LimitOrder>, limits': map<OrderId, LimitOrder>, seller: OrderId, receives: nat)
    requires LimitsOk(limits) && seller in limits && receives <= limits[seller].forSale
    requires limits' == Reduced(limits, seller, receives, true)
    ensures limits'.Keys == limits.Keys || limits'.Keys == limits.Keys - {seller}
    ensures forall i <- limits' :: limits'[i].price == limits[i].price
  {}

  lemma TradeKeepsLeft(
      rules: FeeRules, w: Walk, b': Books, m: AssetId, feed: Price, range: set<OrderId>, pays: nat, receives: nat)
    requires LeftIsBest(w, range) && TradesHeads(rules, w, b', m, feed, pays, receives)
    requires IsBestSeller(w.books, w.sellers, w.asks[0])
    ensures LeftIsBest(Next(w, b', receives), range)
  {
    hide Called, Shrunk, Ahead, Due, FillCall, Reduced;
    CalledShrinks(rules, w.books, w.calls[0], w.asks[0], pays, receives);
    SamePrices(w.books.limits, b'.limits, w.asks[0], receives);
  }

  /** One turn takes the lists to those of the next turn. */
  lemma TradeKeepsLists(rules: FeeRules, w: Walk, b': Books, m: AssetId, feed: Price, pays: nat, receives: nat)
    requires Lists(w.books, m, w.sellers, w.calls, w.asks) && TradesHeads(rules, w, b', m, feed, pays, receives)
    ensures var w' := Next(w, b', receives); Lists(b', m, w'.sellers, w'.calls, w'.asks)
  {
    hide InOrder, Called, Due, FillCall;
    CalledShrinks(rules, w.books, w.calls[0], w.asks[0], pays, receives);
    CallsAfter(w.books, b', m, w.calls, pays, receives);
    SellersAfter(w.books, b', w.sellers, w.asks, receives, Next(w, b', receives).filled);
  }

  /** Starving before the turn is starving after it. */
  ghost predicate StarveAlike(w: Walk, w': Walk, feed: Price) {
    Listed(w) && Listed(w') && Starving(w, feed) == Starving(w', feed)
  }

  lemma TradeKeepsStarving(
      rules: FeeRules, w: Walk, b': Books, m: AssetId, feed: Price, range: set<OrderId>, pays: nat, receives: nat)
    requires Walking(w, m, feed, range) && TradesHeads(rules, w, b', m, feed, pays, receives)
    requires Walking(Next(w, b', receives), m, feed, range)
    ensures StarveAlike(w, Next(w, b', receives), feed)
  {
    hide InOrder, Called, FillCall, StillOwing, Less, Core, Ahead, Shrunk, Reduced;
    var b, w', forSale := w.books, Next(w, b', receives), w.books.limits[w.asks[0]].forSale;
    WalkIsListed(w, m, feed, range);
    WalkIsListed(w', m, feed, range);
    CalledShrinks(rules, b, w.calls[0], w.asks[0], pays, receives);
    SamePrices(b.limits, b'.limits, w.asks[0], receives);
    OwedAfter(b, b', m, w.calls, pays, receives, forSale);
    HeadOnce(SellerIndex(b, w.sellers), w.asks);
    OffersAfter(b, b', w.asks, receives);
    SellersAreListed(b, w.sellers, w.asks);
    assert w.asks[0] in w.asks;
    StarvingFollows(w, b', feed, receives);
  }

  lemma StarvingFollows(w: Walk, b': Books, feed: Price, receives: nat)
    requires w.calls != [] && w.asks != [] && w.calls[0] in w.books.calls && w.asks[0] in w.books.limits
    requires Listed(w) && Listed(Next(w, b', receives)) && (w.left.Some? ==> w.asks[0] != w.left.value)
    requires var debt, forSale := w.books.calls[w.calls[0]].debt, w.books.limits[w.asks[0]].forSale;
      && receives == (if debt >= forSale then forSale else debt)
      && Owed(b', Next(w, b', receives).calls) == StillOwing(Owed(w.books, w.calls), forSale)
    requires Due(w.books.calls[w.calls[0]], feed, w.books.limits[w.asks[0]].price)
    requires forall i <- b'.limits :: i in w.books.limits && b'.limits[i].price == w.books.limits[i].price
    requires OffersFollow(w.books, b', w.asks, receives)
    ensures Starving(w, feed) == Starving(Next(w, b', receives), feed)
  {
    hide StillOwing, Less;
    assert Owed(w.books, w.calls)[0] == Owing(w.books.calls[w.calls[0]].debt,
      w.books.calls[w.calls[0]].callPrice.Inverse());
    assert Offers(w.books, w.asks)[0] == Offer(w.books.limits[w.asks[0]].forSale, w.books.limits[w.asks[0]].price);
  }

  // ----- the whole walk -----------------------------------------------------------------------

  ghost predicate HeadsNotDue(w: Walk, feed: Price) {
    w.calls == [] || w.asks == []
    || (w.calls[0] in w.books.calls && w.asks[0] in w.books.limits
        && !Due(w.books.calls[w.calls[0]], feed, w.books.limits[w.asks[0]].price))
  }

  /** Where the walk stops, a position is due only against an offer left behind. */
  lemma StopServes(w: Walk, m: AssetId, feed: Price, range: set<OrderId>)
    requires Walking(w, m, feed, range) && HeadsNotDue(w, feed)
    ensures Listed(w) && (NothingDue(w.books, m, feed, range * w.books.limits.Keys) <==> !Starving(w, feed))
  {
    hide Core, InOrder, Ahead, Less, IsFirstCall, IsBestSeller;
    var b := w.books;
    WalkIsListed(w, m, feed, range);
    HeadIsFirstCall(b, m, w.calls);
    HeadIsBestSeller(b, w.sellers, w.asks);
    if w.left.Some? {
      BestSellerOfIs(b, range * b.limits.Keys, w.left.value);
    }
    DueOfFirst(b, m, feed, range * b.limits.Keys);
    if w.calls != [] && w.asks != [] && w.left.Some? {
      StopsForAll(w, m, feed, range, w.calls[0], w.asks[0]);
    }
  }

  lemma DueOfFirst(b: Books, m: AssetId, feed: Price, ids: set<OrderId>)
    requires ids <= b.limits.Keys
    ensures var call, seller := FirstCallOf(b, m), BestSellerOf(b, ids);
      NothingDue(b, m, feed, ids) <==>
      call.None? || seller.None? || !Due(b.calls[call.value], feed, b.limits[seller.value].price)
  {
    var call, seller := FirstCallOf(b, m), BestSellerOf(b, ids);
    if call.Some? && seller.Some? && !Due(b.calls[call.value], feed, b.limits[seller.value].price) {
      forall c, s | IsFirstCall(b, m, c) && IsBestSeller(b, ids, s)
        ensures !Due(b.calls[c], feed, b.limits[s].price)
      {
        FirstCallIsUnique(b, m, call.value, c);
        BestSellerIsUnique(b, ids, seller.value, s);
      }
    }
  }

  /** A call that is not due against a seller is not due against one left behind before it. */
  lemma StopsForAll(w: Walk, m: AssetId, feed: Price, range: set<OrderId>, call: OrderId, seller: OrderId)
    requires OnMarket(w.books, m, feed, range) && LeftIsBest(w, range) && w.left.Some?
    requires IsFirstCall(w.books, m, call) && IsBestSeller(w.books, w.sellers, seller)
    requires !Due(w.books.calls[call], feed, w.books.limits[seller].price)
    ensures !Due(w.books.calls[call], feed, w.books.limits[w.left.value].price)
  {
    hide Core;
    var b := w.books;
    CallIsOk(b, call);
    if Due(b.calls[call], feed, b.limits[w.left.value].price) {
      NotBelowTransitive(b.calls[call].callPrice.Inverse(), b.limits[w.left.value].price, b.limits[seller].price);
    }
  }

  /** One turn takes everything the walk relies on to the next turn. */
  lemma TradeCarriesOver(rules: FeeRules, w: Walk, m: AssetId, enable: bool, feed: Price, range: set<OrderId>)
    returns (w': Walk)
    requires Walking(w, m, feed, range) && Runs(w, m) && MarginTurn(rules, w.books, m, enable, w.sellers).Trades?
    ensures var t := MarginTurn(rules, w.books, m, enable, w.sellers);
      && Walking(w', m, feed, range) && w'.books == t.books && w'.filled == (w.filled || t.exhausted)
      && w'.sellers == StillAhead(w.sellers, t.books.limits, t.seller, w'.filled)
    ensures StarveAlike(w, w', feed)
  {
    hide InOrder, Called, Ahead, Less, MarginTurn, IsFirstCall, Core, StillAhead, IsTrade, LimitsOk, Listed;
    WalkIsListed(w, m, feed, range);
    var pays, receives := TradeOfHeads(rules, w.books, m, enable, w.sellers, w.calls, w.asks);
    var b' := MarginTurn(rules, w.books, m, enable, w.sellers).books;
    HeadIsBestSeller(w.books, w.sellers, w.asks);
    w' := Next(w, b', receives);
    TradeKeepsMarket(rules, w, b', m, feed, range, pays, receives);
    TradeKeepsLeft(rules, w, b', m, feed, range, pays, receives);
    TradeKeepsLists(rules, w, b', m, feed, pays, receives);
    TradeKeepsStarving(rules, w, b', m, feed, range, pays, receives);
  }

  ghost predicate Runs(w: Walk, m: AssetId) {
    LimitsOk(w.books.limits) && m in w.books.bitassets && w.books.bitassets[m].feed.Some?
  }

  lemma {:induction false} WalkServes(
      rules: FeeRules, w: Walk, m: AssetId, enable: bool, feed: Price, range: set<OrderId>, called: bool)
    requires Walking(w, m, feed, range) && Runs(w, m)
    requires CalledAll(rules, w.books, m, enable, w.sellers, w.filled, called).Some?
    requires Unsettled(CalledAll(rules, w.books, m, enable, w.sellers, w.filled, called).value.0, m)
    ensures Listed(w)
    ensures var b' := CalledAll(rules, w.books, m, enable, w.sellers, w.filled, called).value.0;
      && Shrunk(w.books.limits, b'.limits, None) && b'.bitassets == w.books.bitassets
      && (NothingDue(b', m, feed, range * b'.limits.Keys) <==> !Starving(w, feed))
    decreases w.books.calls.Keys, w.sellers
  {
    hide InOrder, NothingDue, Starving, Shrunk, Swanned, MarginTurn, StillAhead;
    hide CalledAll, LimitsOk, HeadsNotDue, Walking, Listed;
    var b := w.books;
    WalkIsListed(w, m, feed, range);
    var t := MarginTurn(rules, b, m, enable, w.sellers);
    CalledAllUnfolds(rules, b, m, enable, w.sellers, w.filled, called);
    if t.Stops? {
      SelfShrunk(b.limits);
      StopsAtHeads(rules, w, m, enable, feed, range);
      StopServes(w, m, feed, range);
    } else if t.Trades? {
      var w' := TradeCarriesOver(rules, w, m, enable, feed, range);
      StillAheadShrinks(w.sellers, b.limits, t.books.limits, t.seller, w'.filled);
      WalkServes(rules, w', m, enable, feed, range, true);
      ShrunkTransitive(b.limits, t.books.limits,
        CalledAll(rules, b, m, enable, w.sellers, w.filled, called).value.0.limits, None);
    }
  }

  lemma StopsAtHeads(rules: FeeRules, w: Walk, m: AssetId, enable: bool, feed: Price, range: set<OrderId>)
    requires Walking(w, m, feed, range) && Runs(w, m) && MarginTurn(rules, w.books, m, enable, w.sellers).Stops?
    ensures HeadsNotDue(w, feed)
  {
    hide InOrder, Called, Due, DueTurn, Core;
    HeadIsFirstCall(w.books, m, w.calls);
    HeadIsBestSeller(w.books, w.sellers, w.asks);
  }

  // ----- what the call leaves -----------------------------------------------------------------

  /** The asset's feed lets its call orders be called. */
  predicate Callable(b: Books, m: AssetId) {
    Unsettled(b, m) && !b.bitassets[m].isPredictionMarket && b.bitassets[m].feed.Some?
  }

  /** The sellers that a margin call may buy from. */
  function InRange(b: Books, m: AssetId): set<OrderId>
    requires Callable(b, m)
  {
    SellersAt(b, m, b.bitassets[m].backing, b.bitassets[m].feed.value.squeezePrice)
  }

  /** No call order is due against the best seller in range. */
  ghost predicate Served(b: Books, m: AssetId)
    requires Callable(b, m)
  {
    NothingDue(b, m, b.bitassets[m].feed.value.settlementPrice, InRange(b, m))
  }

  lemma ListsExist(b: Books, m: AssetId) returns (calls: seq<OrderId>, asks: seq<OrderId>)
    requires Core(b) && LimitsOk(b.limits) && Callable(b, m)
    ensures Lists(b, m, InRange(b, m), calls, asks)
  {
    CallsOfOneMarket(b, m);
    calls := IndexHasOrder(CallIndex(b, m));
    asks := IndexHasOrder(SellerIndex(b, InRange(b, m)));
  }

  /**
    After the margin calls of an asset that they do not settle no call order is due against any
    seller in range, if and only if the amounts and prices before the call let none starve.
   */
  lemma ServedUnlessStarved(
      rules: FeeRules, b: Books, m: AssetId, enable: bool, calls: seq<OrderId>, asks: seq<OrderId>)
    requires Core(b) && LimitsOk(b.limits) && Callable(b, m) && Lists(b, m, InRange(b, m), calls, asks)
    requires CheckedCalls(rules, b, m, enable).Some? && Unsettled(CheckedCalls(rules, b, m, enable).value.0, m)
    ensures (forall i :: i in calls ==> i in b.calls) && forall i :: i in asks ==> i in b.limits
    ensures var b' := CheckedCalls(rules, b, m, enable).value.0;
      && Callable(b', m)
      && var feed := b.bitassets[m].feed.value.settlementPrice;
      (Served(b', m) <==> !Starves(Owed(b, calls), Offers(b, asks), feed, false, None))
  {
    hide Core, InOrder, NothingDue, Swanned, CalledAll, Starves, Less;
    var feed, range := b.bitassets[m].feed.value.settlementPrice, InRange(b, m);
    WalkServes(rules, Walk(b, range, false, None, calls, asks), m, enable, feed, range, false);
    var b' := CheckedCalls(rules, b, m, enable).value.0;
    assert InRange(b', m) == range * b'.limits.Keys;
  }

  /** It takes two positions and two offers for one to starve. */
  lemma StarvingTakesTwo(owed: seq<Owing>, offers: seq<Offer>, feed: Price)
    requires Starves(owed, offers, feed, false, None)
    ensures |owed| >= 2 && |offers| >= 2
  {
    if |owed| == 1 {
      OneIsServed(owed, offers, feed, false);
    } else if |offers| == 1 {
      OneOfferServes(owed, offers, feed);
    }
  }

  lemma {:induction false} OneIsServed(owed: seq<Owing>, offers: seq<Offer>, feed: Price, filled: bool)
    requires |owed| <= 1
    ensures !Starves(owed, offers, feed, filled, None)
    decreases |owed| + |offers|
  {
    if owed != [] && offers != [] && DueAt(owed[0], feed, offers[0].price) {
      if owed[0].debt >= offers[0].forSale {
        OneIsServed(StillOwing(owed, offers[0].forSale), offers[1..], feed, true);
      } else {
        assert StillOwing(owed, offers[0].forSale) == [];
      }
    }
  }

  lemma {:induction false} OneOfferServes(owed: seq<Owing>, offers: seq<Offer>, feed: Price)
    requires |offers| <= 1
    ensures !Starves(owed, offers, feed, false, None)
    decreases |owed| + |offers|
  {
    if owed != [] && offers != [] && DueAt(owed[0], feed, offers[0].price) {
      if owed[0].debt < offers[0].forSale {
        var left := Offer(offers[0].forSale - owed[0].debt, offers[0].price);
        OneOfferServes(owed[1..], [left] + offers[1..], feed);
      }
    }
  }

  // ----- books that leave a position unserved ---------------------------------------------------

  const FEED := Price(Asset(1, 1), Asset(1, CORE))

  const CALL_PRICE := Price(Asset(4, CORE), Asset(5, 1))

  const OFFER_PRICE := Price(Asset(10, 1), Asset(10, CORE))

  const CALLED_ASSET :=
    Bitasset(CORE, false, true, Some(Feed(FEED, Price(Asset(1, 1), Asset(2, CORE)), 1750)), None, 0, 0, 0, 0)

  const SAFE := CallOrder(10, 70, 10, Price(Asset(4, CORE), Asset(1, 1)))

  /**
    Positions 3 and 4 owe 15 and 5 of asset 1, and are due at its feed; orders 1 and 2 sell
    10 and 12 of it for as much core. Position 5 is not due.
   */
  function StarvingBooks(): Books {
    BooksWith(LimitOrder(7, 10, OFFER_PRICE, 0))
  }

  /** The same with another first offer. */
  function BooksWith(first: LimitOrder): Books {
    Books(map[], map[1 := first, 2 := LimitOrder(7, 12, OFFER_PRICE, 0)],
          map[3 := CallOrder(8, 21, 15, CALL_PRICE), 4 := CallOrder(9, 7, 5, CALL_PRICE), 5 := SAFE],
          map[], map[], map[CORE := 100, 1 := 30], map[], map[1 := CALLED_ASSET], 0)
  }

  lemma SumOfTwo<V(!new)>(m: map<OrderId, V>, f: (OrderId, V) -> int, i: OrderId, j: OrderId)
    requires i != j && m.Keys == {i, j}
    ensures SumBy(m, f) == f(i, m[i]) + f(j, m[j])
  {
    SumWithout(m, f, i);
    SumWithout(m - {i}, f, j);
    assert m - {i} - {j} == map[];
  }

  lemma SumOfThree<V(!new)>(m: map<OrderId, V>, f: (OrderId, V) -> int, i: OrderId, j: OrderId, k: OrderId)
    requires i != j && i != k && j != k && m.Keys == {i, j, k}
    ensures SumBy(m, f) == f(i, m[i]) + f(j, m[j]) + f(k, m[k])
  {
    SumWithout(m, f, i);
    assert (m - {i}).Keys == {j, k};
    SumOfTwo(m - {i}, f, j, k);
  }

  /** An offer that may stand first: for core, and with order 2 no more than there is. */
  predicate MayStandFirst(o: LimitOrder) {
    && 0 < o.forSale <= 18 && o.deferredFee == 0 && o.price.Positive()
    && o.price.base.id == 1 && o.price.quote.id == CORE && o.Worth() > 0
  }

  lemma DebtWith(first: LimitOrder)
    ensures Debt(BooksWith(first), 1) == 30
  {
    SumOfThree(BooksWith(first).calls, DebtIn(1), 3, 4, 5);
  }

  /** Of asset 1 at most 30 are in offers, and of core 98 in collateral. */
  lemma GapsWith(first: LimitOrder)
    requires MayStandFirst(first)
    ensures Covered(BooksWith(first))
  {
    var b := BooksWith(first);
    forall a
      ensures Gap(b, a) <= 0
    {
      SumOfTwo(b.limits, SellingIn(a), 1, 2);
      SumOfThree(b.calls, CollateralIn(a), 3, 4, 5);
      SumZero(b.bitassets, FundIn(a));
    }
  }

  /** Nothing is wrong with such books: they keep every invariant of books at rest. */
  lemma BooksAreValid(first: LimitOrder)
    requires MayStandFirst(first)
    ensures var b := BooksWith(first);
      Core(b) && RestingBook(b.limits) && Covered(b) && Callable(b, 1)
  {
    hide Debt, Covered;
    DebtWith(first);
    GapsWith(first);
  }

  lemma StarvingBooksAreValid()
    ensures Core(StarvingBooks()) && RestingBook(StarvingBooks().limits) && Covered(StarvingBooks())
    ensures Callable(StarvingBooks(), 1) && InRange(StarvingBooks(), 1) == {1, 2}
  {
    hide Core, RestingBook, Covered;
    BooksAreValid(LimitOrder(7, 10, OFFER_PRICE, 0));
  }

  /** A turn without a black swan, in which the first call order buys from the best seller. */
  lemma TurnTrades(
      rules: FeeRules, b: Books, m: AssetId, enable: bool, sellers: set<OrderId>, filled: bool, called: bool,
      call: OrderId, seller: OrderId, t: Trade)
    requires LimitsOk(b.limits) && Unsettled(b, m) && b.bitassets[m].feed.Some?
    requires IsFirstCall(b, m, call) && IsBestSeller(b, sellers, seller)
    requires var feed := b.bitassets[m].feed.value.settlementPrice;
      Less(b.calls[call].Collateralization().Inverse(), feed) && Due(b.calls[call], feed, b.limits[seller].price)
    requires var worth := Times(Asset(b.calls[call].debt, m), b.limits[seller].price);
      worth.Some? && worth.value.amount <= b.calls[call].collateral
    requires CallTrade(b.calls[call].debt, b.limits[seller].forSale, b.limits[seller].price) == Some(t)
    requires t.pays <= b.calls[call].collateral
    ensures var b' := Called(rules, b, call, seller, t.pays, t.receives);
      var filled' := filled || b.calls[call].debt >= b.limits[seller].forSale;
      && LimitsOk(b'.limits) && b'.bitassets == b.bitassets
      && CalledAll(rules, b, m, enable, sellers, filled, called) ==
         CalledAll(rules, b', m, enable, StillAhead(sellers, b'.limits, seller, filled'), filled', true)
  {
    hide Called, Less, Due, CalledAll, Shrunk, LimitsOk, Swanned, GloballySettled, StillAhead;
    FirstCallOfIs(b, m, call);
    BestSellerOfIs(b, sellers, seller);
    NoSwan(b, m, enable, call);
    CalledShrinks(rules, b, call, seller, t.pays, t.receives);
    CalledAllUnfolds(rules, b, m, enable, sellers, filled, called);
  }

  lemma NoSwan(b: Books, m: AssetId, enable: bool, call: OrderId)
    requires Unsettled(b, m) && b.bitassets[m].feed.Some? && IsFirstCall(b, m, call)
    requires Less(b.calls[call].Collateralization().Inverse(), b.bitassets[m].feed.value.settlementPrice)
    ensures Swanned(b, m, enable) == Some((b, false))
  {
    forall other | IsFirstCall(b, m, other)
      ensures other == call
    {
      FirstCallIsUnique(b, m, call, other);
    }
  }

  /** The books after some turns: these calls and these limit orders, and the asset as it was. */
  ghost predicate After(b: Books, calls: map<OrderId, CallOrder>, limits: map<OrderId, LimitOrder>) {
    && b.calls == calls && b.limits == limits && b.bitassets == map[1 := CALLED_ASSET]
  }

  const LEFT_CALLS: map<OrderId, CallOrder> := map[4 := CallOrder(9, 7, 5, CALL_PRICE), 5 := SAFE]

  const LEFT_LIMITS: map<OrderId, LimitOrder> := map[2 := LimitOrder(7, 7, OFFER_PRICE, 0)]

  ghost predicate AfterFirst(b1: Books) {
    After(b1, map[3 := CallOrder(8, 11, 5, CALL_PRICE), 4 := CallOrder(9, 7, 5, CALL_PRICE), 5 := SAFE],
      map[2 := LimitOrder(7, 12, OFFER_PRICE, 0)])
  }

  lemma FirstPair(b: Books)
    requires b == StarvingBooks()
    ensures IsFirstCall(b, 1, 3) && IsBestSeller(b, {1, 2}, 1)
  {}

  lemma SecondPair(b1: Books)
    requires AfterFirst(b1)
    ensures IsFirstCall(b1, 1, 3) && IsBestSeller(b1, {2}, 2)
  {}

  lemma WhollySold(b: Books)
    requires b == StarvingBooks()
    ensures LimitsOk(b.limits) && Reduced(b.limits, 1, 10, true) == map[2 := LimitOrder(7, 12, OFFER_PRICE, 0)]
  {}

  /** Position 3 buys all of order 1. */
  lemma FirstTurn(rules: FeeRules, enable: bool) returns (b1: Books)
    ensures AfterFirst(b1)
    ensures LimitsOk(StarvingBooks().limits) && LimitsOk(b1.limits)
    ensures CalledAll(rules, StarvingBooks(), 1, enable, {1, 2}, false, false) ==
            CalledAll(rules, b1, 1, enable, {2}, true, true)
  {
    hide Called, CalledAll, FillCall, IsFirstCall, IsBestSeller, Reduced, Shrunk, LimitsOk;
    var b := StarvingBooks();
    WhollySold(b);
    FirstPair(b);
    TurnTrades(rules, b, 1, enable, {1, 2}, false, false, 3, 1, Trade(10, 10));
    b1 := Called(rules, b, 3, 1, 10, 10);
    CalledShrinks(rules, b, 3, 1, 10, 10);
    FillCallCalls(b, 3, 10, 10);
    assert StillAhead({1, 2}, b1.limits, 1, true) == {2};
  }

  lemma SecondTrade(rules: FeeRules, b1: Books)
    requires AfterFirst(b1)
    ensures After(Called(rules, b1, 3, 2, 5, 5), LEFT_CALLS, LEFT_LIMITS)
    ensures LimitsOk(b1.limits) && StillAhead({2}, LEFT_LIMITS, 2, true) == {}
  {
    hide Called, FillCall, Reduced, Shrunk, LimitsOk;
    HalfSold(b1);
    CalledShrinks(rules, b1, 3, 2, 5, 5);
    FillCallCalls(b1, 3, 5, 5);
  }

  lemma HalfSold(b1: Books)
    requires AfterFirst(b1)
    ensures LimitsOk(b1.limits) && Reduced(b1.limits, 2, 5, true) == LEFT_LIMITS && b1.calls - {3} == LEFT_CALLS
  {
    assert LimitOrder(7, 7, OFFER_PRICE, 0).Worth() == 7;
  }

  /** What it still owes it buys from order 2, which is left behind with the rest. */
  lemma SecondTurn(rules: FeeRules, enable: bool, b1: Books) returns (b2: Books)
    requires AfterFirst(b1)
    ensures After(b2, LEFT_CALLS, LEFT_LIMITS) && LimitsOk(b1.limits) && LimitsOk(b2.limits)
    ensures CalledAll(rules, b1, 1, enable, {2}, true, true) == CalledAll(rules, b2, 1, enable, {}, true, true)
  {
    hide Called, CalledAll, IsFirstCall, IsBestSeller, StillAhead;
    SecondPair(b1);
    SecondTrade(rules, b1);
    TurnTrades(rules, b1, 1, enable, {2}, true, true, 3, 2, Trade(5, 5));
    b2 := Called(rules, b1, 3, 2, 5, 5);
  }

  /** No seller is ahead any more, so position 4 gets no turn. */
  lemma LastTurn(rules: FeeRules, enable: bool, b2: Books)
    requires After(b2, LEFT_CALLS, LEFT_LIMITS)
    ensures LimitsOk(b2.limits) && CalledAll(rules, b2, 1, enable, {}, true, true) == Some((b2, true))
  {
    hide CalledAll;
    assert IsFirstCall(b2, 1, 4);
    NoSwan(b2, 1, enable, 4);
    CalledAllUnfolds(rules, b2, 1, enable, {}, true, true);
    assert BestSellerOf(b2, {}).None?;
  }

  /** From these books a call order stays due although a seller in range still sells. */
  lemma StarvingHappens(rules: FeeRules, enable: bool)
    ensures Core(StarvingBooks()) && RestingBook(StarvingBooks().limits) && Covered(StarvingBooks())
    ensures Callable(StarvingBooks(), 1)
    ensures var r := CheckedCalls(rules, StarvingBooks(), 1, enable);
      && r.Some? && Callable(r.value.0, 1) && !Served(r.value.0, 1)
      && r.value.0.calls.Keys == {4, 5} && r.value.0.limits.Keys == {2}
      && r.value.0.limits[2].forSale > r.value.0.calls[4].debt
  {
    hide Core, CalledAll, FillCall, Less;
    StarvingBooksAreValid();
    var b := StarvingBooks();
    var b1 := FirstTurn(rules, enable);
    var b2 := SecondTurn(rules, enable, b1);
    LastTurn(rules, enable, b2);
    NoSwanAtFirst(enable);
    assert CheckedCalls(rules, b, 1, enable) == Some((b2, true));
    StaysDue(b2);
  }

  lemma NoSwanAtFirst(enable: bool)
    ensures Swanned(StarvingBooks(), 1, enable) == Some((StarvingBooks(), false))
  {
    assert IsFirstCall(StarvingBooks(), 1, 3);
    NoSwan(StarvingBooks(), 1, enable, 3);
  }

  lemma StaysDue(b2: Books)
    requires After(b2, LEFT_CALLS, LEFT_LIMITS)
    ensures Callable(b2, 1) && !Served(b2, 1)
  {
    assert InRange(b2, 1) == {2};
    assert IsFirstCall(b2, 1, 4) && IsBestSeller(b2, {2}, 2);
    assert Due(b2.calls[4], FEED, b2.limits[2].price);
  }

  // ----- books that leave nothing to go on with ---------------------------------------------------

  const CHEAP_OFFER := LimitOrder(7, 16, Price(Asset(5, 1), Asset(4, CORE)), 0)

  /**
    Here position 3 takes 15 of the 16 that order 1 sells, and the one that is left asks for
    nothing: the order is gone, no order was exhausted, and position 4 is still to be called.
   */
  lemma CulledInPlaceHappens(rules: FeeRules, enable: bool)
    ensures var b := BooksWith(CHEAP_OFFER);
      && Core(b) && RestingBook(b.limits) && Covered(b) && Callable(b, 1) && InRange(b, 1) == {1, 2}
      && var t := MarginTurn(rules, b, 1, enable, InRange(b, 1));
      && t.Trades? && !t.exhausted && t.seller == 1 && 1 !in t.books.limits
      && 4 in t.books.calls && Due(t.books.calls[4], FEED, OFFER_PRICE) && 2 in t.books.limits
  {
    hide Core, RestingBook, Covered, Called, FillCall, IsFirstCall, IsBestSeller;
    var b := BooksWith(CHEAP_OFFER);
    BooksAreValid(CHEAP_OFFER);
    CheapPair(b);
    FirstCallOfIs(b, 1, 3);
    BestSellerOfIs(b, {1, 2}, 1);
    CalledShrinks(rules, b, 3, 1, 12, 15);
    FillCallCalls(b, 3, 12, 15);
  }

  lemma CheapPair(b: Books)
    requires b == BooksWith(CHEAP_OFFER)
    ensures IsFirstCall(b, 1, 3) && IsBestSeller(b, {1, 2}, 1)
    ensures Callable(b, 1) && InRange(b, 1) == {1, 2}
    ensures CallTrade(15, 16, CHEAP_OFFER.price) == Some(Trade(12, 15))
  {}
}

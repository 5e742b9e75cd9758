/**
  The market engine in place: filling, matching and cancelling orders, margin calls and
  global settlement. A method whose `ok` comes back false has thrown: the transaction it
  runs in is undone, and nothing is promised about the books until then.
 */
module Markets {
  import opened Wrappers
  import opened Prices
  import opened Sums
  import opened Books
  import opened MarketRules
  import opened MarketSpecs

  /** The entry that a walk of a price index, highest price first, meets first. */
  method First(keys: map<OrderId, Price>) returns (best: OrderId)
    requires keys != map[]
    requires forall i <- keys :: Ranked(keys[i])
    requires forall i, j :: i in keys && j in keys ==> SameMarket(keys[i], keys[j])
    ensures best in keys
    ensures forall j <- keys :: j != best ==> Ahead(keys[best], best, keys[j], j)
  {
    best :| best in keys;
    var todo := keys.Keys - {best};
    while todo != {}
      invariant best in keys && todo <= keys.Keys
      invariant forall j <- keys :: j !in todo && j != best ==> Ahead(keys[best], best, keys[j], j)
    {
      var i :| i in todo;
      todo := todo - {i};
      if Ahead(keys[i], i, keys[best], best) {
        forall j | j in keys && j !in todo && j != i && j != best
          ensures Ahead(keys[i], i, keys[j], j)
        {
          AheadIsTransitive(keys[i], i, keys[best], best, keys[j], j);
        }
        best := i;
      }
    }
  }

  class Market {
    const feeRules: FeeRules
    var books: Books
    var nextId: OrderId

    constructor (feeRules: FeeRules, books: Books, nextId: OrderId)
      requires Core(books) && RestingBook(books.limits) && IdsBelow(books, nextId)
      ensures Valid() && RestingBook(this.books.limits) && this.books == books
    {
      this.feeRules, this.books, this.nextId := feeRules, books, nextId;
    }

    static ghost predicate IdsBelow(b: Books, n: OrderId) {
      && (forall id <- b.limits :: id < n) && (forall id <- b.calls :: id < n)
      && (forall id <- b.settlements :: id < n) && (forall id <- b.bids :: id < n)
    }

    /** The invariant of every state; between operations `RestingBook` holds as well. */
    ghost predicate Valid()
      reads this
    {
      Core(books) && LimitsOk(books.limits) && IdsBelow(books, nextId)
    }

    // ----- balances, fees, cancellations ------------------------------------------------

    method AdjustBalance(account: AccountId, id: AssetId, delta: int) returns (ok: bool)
      modifies `books
      ensures ok <==> old(books).Balance(account, id) + delta >= 0
      ensures books == if ok then Credit(old(books), account, id, delta) else old(books)
    {
      if books.Balance(account, id) + delta < 0 {
        return false;
      }
      books := Credit(books, account, id, delta);
      return true;
    }

    method PayMarketFees(id: AssetId, amount: nat) returns (fee: nat)
      modifies `books
      ensures fee == MarketFee(feeRules, id, amount)
      ensures books == CollectFee(old(books), id, fee)
    {
      fee := MarketFee(feeRules, id, amount);
      books := CollectFee(books, id, fee);
    }

    method CancelLimitOrder(id: OrderId)
      requires id in books.limits
      modifies `books
      ensures books == CancelLimit(old(books), id)
    {
      var o := books.limits[id];
      var ok := AdjustBalance(o.seller, o.price.base.id, o.forSale);
      ok := AdjustBalance(o.seller, CORE, o.deferredFee);
      books := books.(limits := books.limits - {id});
    }

    method MaybeCullSmallOrder(id: OrderId) returns (culled: bool)
      requires id in books.limits && books.limits[id].price.Positive()
      modifies `books
      ensures books == CullIfSmall(old(books), id)
      ensures culled == (id !in books.limits)
    {
      if books.limits[id].Worth() == 0 {
        CancelLimitOrder(id);
        return true;
      }
      return false;
    }

    // ----- fills ------------------------------------------------------------------------

    method FillLimitOrder(id: OrderId, pays: nat, receives: nat, cullIfSmall: bool) returns (filled: bool)
      requires id in books.limits && pays <= books.limits[id].forSale && books.limits[id].price.Positive()
      modifies `books
      ensures books == FillLimit(feeRules, old(books), id, pays, receives, cullIfSmall)
      ensures filled == (id !in books.limits)
    {
      var o := books.limits[id];
      var fee := PayMarketFees(o.price.quote.id, receives);
      var ok := AdjustBalance(o.seller, o.price.quote.id, receives - fee);
      filled := TakeFromOrder(id, pays);
      if !filled && cullIfSmall {
        filled := MaybeCullSmallOrder(id);
      }
    }

    /** The deferred fee becomes due; an order with nothing left for sale is removed. */
    method TakeFromOrder(id: OrderId, pays: nat) returns (filled: bool)
      requires id in books.limits && pays <= books.limits[id].forSale
      modifies `books
      ensures books == PayFromLimit(old(books), id, pays)
      ensures filled == (pays == old(books).limits[id].forSale)
    {
      var o := books.limits[id];
      books := books.(pendingFees := books.pendingFees + o.deferredFee);
      filled := pays == o.forSale;
      if filled {
        books := books.(limits := books.limits - {id});
      } else {
        books := books.(limits := books.limits[id := o.(forSale := o.forSale - pays, deferredFee := 0)]);
      }
    }

    method FillCallOrder(id: OrderId, pays: nat, receives: nat) returns (ok: bool)
      requires id in books.calls && receives <= books.calls[id].debt
      modifies `books
      ensures ok == (old(books).calls[id].collateral >= pays)
      ensures books == if ok then FillCall(old(books), id, pays, receives) else old(books)
    {
      var c := books.calls[id];
      if c.collateral < pays {
        return false;
      }
      books := AddSupply(books, c.DebtType(), 0 - receives);
      if c.debt == receives {
        var freed := AdjustBalance(c.borrower, c.CollateralType(), c.collateral - pays);
        books := books.(calls := books.calls - {id});
      } else {
        books := books.(calls := books.calls[id := c.(debt := c.debt - receives, collateral := c.collateral - pays)]);
      }
      return true;
    }


    // ----- matching limit orders --------------------------------------------------------

    /** The amounts of a match at the maker's price; a conversion out of range throws. */
    method QuoteTrade(taker: nat, maker: nat, price: Price) returns (t: Option<Trade>)
      requires price.base.id != price.quote.id
      ensures t == MatchTrade(taker, maker, price)
    {
      var worth := Times(Asset(maker, price.base.id), price);
      if worth.None? {
        return None;
      }
      if taker <= worth.value.amount {
        var receives := Times(Asset(taker, price.quote.id), price);
        if receives.None? {
          return None;
        }
        return Some(Trade(taker, receives.value.amount));
      }
      return Some(Trade(worth.value.amount, maker));
    }

    /**
      Matches a new order with a resting one at the resting order's price. The result is a
      bit field: 1 when the taker's order is gone, 2 when the maker's is; it is never 0.
     */
    method Match(taker: OrderId, maker: OrderId) returns (ok: bool, result: nat)
      requires Valid() && taker in books.limits && maker in books.limits && taker != maker
      requires Crosses(books.limits[maker].price, books.limits[taker].price)
      modifies `books
      ensures var sold, made := old(books).limits[taker], old(books).limits[maker];
        var t := MatchTrade(sold.forSale, made.forSale, made.price);
        && ok == t.Some?
        && (ok ==> t.value.pays <= sold.forSale && t.value.receives <= made.forSale
                   && books == Traded(feeRules, old(books), taker, maker, t.value))
      ensures ok ==> result == (if taker in books.limits then 0 else 1) + (if maker in books.limits then 0 else 2)
      ensures ok ==> 1 <= result <= 3
      ensures ok ==> Valid() && SameGaps(old(books), books) && Shrunk(old(books).limits, books.limits, Some(taker))
      ensures ok ==> old(books).limits.Keys - {taker, maker} <= books.limits.Keys
      ensures ok ==> books.bitassets == old(books).bitassets
    {
      hide Core, Gap, Uncrossed;
      var t := QuoteTrade(books.limits[taker].forSale, books.limits[maker].forSale, books.limits[maker].price);
      if t.None? {
        return false, 0;
      }
      MatchKeeps(feeRules, books, taker, maker, t.value);
      var takerFilled, makerFilled := FillBoth(taker, maker, t.value);
      return true, (if takerFilled then 1 else 0) + (if makerFilled then 2 else 0);
    }

    method FillBoth(taker: OrderId, maker: OrderId, t: Trade) returns (takerFilled: bool, makerFilled: bool)
      requires LimitsOk(books.limits) && taker in books.limits && maker in books.limits && taker != maker
      requires t.pays <= books.limits[taker].forSale && t.receives <= books.limits[maker].forSale
      modifies `books
      ensures books == Traded(feeRules, old(books), taker, maker, t)
      ensures takerFilled == (taker !in books.limits) && makerFilled == (maker !in books.limits)
    {
      FillLimitBook(feeRules, books, taker, t.pays, t.receives, false);
      takerFilled := FillLimitOrder(taker, t.pays, t.receives, false);
      FillLimitBook(feeRules, books, maker, t.receives, t.pays, true);
      makerFilled := FillLimitOrder(maker, t.receives, t.pays, true);
    }

    // ----- global settlement ------------------------------------------------------------

    /** The call orders that borrowed the asset. */
    ghost function CallsOf(m: AssetId): set<OrderId>
      reads this
    {
      set id | id in books.calls && books.calls[id].DebtType() == m
    }

    /**
      Closes every call order at the price and puts what they pay into the fund. The supply,
      which the closing took down to zero, is restored: the holders are paid from the fund.
     */
    method GloballySettle(m: AssetId, price: Price) returns (ok: bool)
      requires Valid() && m in books.bitassets && PriceOf(price, m, books.bitassets[m].backing)
      requires books.Supply(m) > 0
      modifies `books
      ensures GloballySettled(old(books), m, price) == if ok then Some(books) else None
      ensures ok ==> Valid() && SameGaps(old(books), books) && books.limits == old(books).limits
      ensures ok ==> m in books.bitassets && CallsOf(m) == {} && books.Supply(m) == old(books).Supply(m)
      ensures ok ==> books.bitassets[m].fund == SumBy(old(books).calls, ClosingIn(m, price))
      ensures ok ==> books.bitassets[m].settlement == Some(
        Price(Asset(books.Supply(m), m), Asset(books.bitassets[m].fund, books.bitassets[m].backing)))
    {
      hide Core, Gap, SumBy, ClosingUnderWay, LimitsOk, CallsOf, CloseAll;
      if books.bitassets[m].settlement.Some? {
        return false;
      }
      ghost var start := books;
      var supply: nat := books.Supply(m);
      var gathered;
      ok, gathered := CloseCalls(m, price);
      if ok {
        NoneLeft(m);
        ClosingEnds(start, books, m, price, gathered);
        books := Settled(books, m, supply, gathered);
        NoneLeft(m);
      }
    }

    lemma NoneLeft(m: AssetId)
      ensures CallsOf(m) == {} <==> forall id <- books.calls :: books.calls[id].DebtType() != m
    {
      if CallsOf(m) == {} {
        forall id | id in books.calls
          ensures books.calls[id].DebtType() != m
        {
          assert id !in CallsOf(m);
        }
      }
    }

    /** Closes the asset's call orders one by one, in the order of the index, and gathers what they pay. */
    method CloseCalls(m: AssetId, price: Price) returns (ok: bool, gathered: nat)
      requires Valid() && m in books.bitassets
      modifies `books
      ensures CloseAll(old(books), m, price, 0) == if ok then Some((books, gathered)) else None
      ensures ok ==> CallsOf(m) == {} && ClosingUnderWay(old(books), books, m, price, gathered)
      ensures ok ==> books.calls.Keys <= old(books).calls.Keys
    {
      hide Core, Gap, SumBy, CloseAll, ClosingUnderWay, IsFirstCall, FirstCallOf;
      gathered := 0;
      ClosingStarts(books, m, price);
      var next := FirstCall(m);
      while next.Some?
        invariant next == FirstCallOf(books, m)
        invariant next.None? ==> CallsOf(m) == {}
        invariant next.Some? ==> next.value in books.calls && books.calls[next.value].DebtType() == m
        invariant ClosingUnderWay(old(books), books, m, price, gathered)
        invariant CloseAll(old(books), m, price, 0) == CloseAll(books, m, price, gathered)
        invariant books.calls.Keys <= old(books).calls.Keys
        decreases books.calls.Keys
      {
        CloseAllGoesOn(books, m, price, gathered, next.value);
        var pays := CloseCall(next.value, price, old(books), m, gathered);
        if pays.None? {
          return false, gathered;
        }
        gathered := gathered + pays.value;
        UnderWayIsCore(old(books), books, m, price, gathered);
        next := FirstCall(m);
      }
      CloseAllEnds(books, m, price, gathered);
      return true, gathered;
    }

    method CloseCall(id: OrderId, price: Price, ghost start: Books, ghost m: AssetId, ghost gathered: nat)
      returns (pays: Option<nat>)
      requires ClosingUnderWay(start, books, m, price, gathered)
      requires id in books.calls && books.calls[id].DebtType() == m
      modifies `books
      ensures pays == ClosingPayment(old(books).calls[id], price)
      ensures pays.Some? ==> ClosingUnderWay(start, books, m, price, gathered + pays.value)
      ensures pays.Some? ==> books == FillCall(old(books), id, pays.value, old(books).calls[id].debt)
      ensures pays.Some? ==> books.calls == old(books).calls - {id}
    {
      pays := ClosingPayment(books.calls[id], price);
      if pays.Some? {
        ClosingGoesOn(start, books, m, price, gathered, id);
        var ok := FillCallOrder(id, pays.value, books.calls[id].debt);
      }
    }

    static lemma UnderWayIsCore(b: Books, b1: Books, m: AssetId, p: Price, gathered: nat)
      requires ClosingUnderWay(b, b1, m, p, gathered)
      ensures Core(b1)
    {}

    static lemma CloseAllGoesOn(b: Books, m: AssetId, p: Price, gathered: nat, id: OrderId)
      requires FirstCallOf(b, m) == Some(id)
      ensures CloseAll(b, m, p, gathered) ==
        var pays := ClosingPayment(b.calls[id], p);
        if pays.None? then None
        else CloseAll(FillCall(b, id, pays.value, b.calls[id].debt), m, p, gathered + pays.value)
    {}

    static lemma CloseAllEnds(b: Books, m: AssetId, p: Price, gathered: nat)
      requires FirstCallOf(b, m).None?
      ensures CloseAll(b, m, p, gathered) == Some((b, gathered))
    {}

    // ----- margin calls -----------------------------------------------------------------

    /** The call order with the lowest call price, and the oldest at that price. */
    method FirstCall(m: AssetId) returns (id: Option<OrderId>)
      requires Core(books)
      ensures id == FirstCallOf(books, m)
      ensures id.None? <==> forall i <- books.calls :: books.calls[i].DebtType() != m
      ensures id.Some? ==> IsFirstCall(books, m, id.value)
      ensures id.None? <==> CallsOf(m) == {}
    {
      NoneLeft(m);
      var keys := map i | i in books.calls && books.calls[i].DebtType() == m :: books.calls[i].callPrice.Inverse();
      if keys == map[] {
        assert forall i <- books.calls :: books.calls[i].DebtType() == m ==> i in keys;
        return None;
      }
      forall i | i in keys
        ensures keys[i].Positive() && m in books.bitassets && keys[i].quote.id == books.bitassets[m].backing
      {
        assert CallOk(books, i);
      }
      var best := First(keys);
      assert best in keys;
      forall i | i in books.calls && i != best && books.calls[i].DebtType() == m
        ensures Ahead(books.calls[best].callPrice.Inverse(), best, books.calls[i].callPrice.Inverse(), i)
      {
        assert i in keys;
      }
      FirstCallOfIs(books, m, best);
      return Some(best);
    }

    method FirstSeller(ids: set<OrderId>, ghost m: AssetId, ghost backing: AssetId) returns (best: OrderId)
      requires LimitsOk(books.limits) && ids != {} && ids <= books.limits.Keys
      requires forall i <- ids :: PriceOf(books.limits[i].price, m, backing)
      ensures IsBestSeller(books, ids, best) && BestSellerOf(books, ids) == Some(best)
    {
      var keys := map i | i in ids :: books.limits[i].price;
      assert keys.Keys == ids;
      best := First(keys);
      BestSellerOfIs(books, ids, best);
    }

    /** The feed's price, or that of the best seller if it is not below. */
    method HighestPrice(m: AssetId, ghost worst: Price) returns (highest: Price)
      requires Valid() && m in books.bitassets && books.bitassets[m].feed.Some?
      requires FeedOk(m, books.bitassets[m]) && PriceOf(worst, m, books.bitassets[m].backing)
      ensures !Less(worst, highest) <==> Underwater(books, m, worst)
    {
      hide Core, Less;
      var x := books.bitassets[m];
      highest := x.feed.value.settlementPrice;
      var sellers := SellersAt(books, m, x.backing, MinPrice(m, x.backing));
      if sellers != {} {
        var best := FirstSeller(sellers, m, x.backing);
        BestIsHighest(books, m, sellers, best, worst);
        if !Less(books.limits[best].price, highest) {
          highest := books.limits[best].price;
        }
      }
    }

    /** Nothing is below the best seller and not below the others, nor below a price in between. */
    static lemma BestIsHighest(b: Books, m: AssetId, sellers: set<OrderId>, best: OrderId, worst: Price)
      requires LimitsOk(b.limits) && m in b.bitassets && b.bitassets[m].feed.Some? && FeedOk(m, b.bitassets[m])
      requires IsBestSeller(b, sellers, best) && PriceOf(worst, m, b.bitassets[m].backing)
      requires sellers == SellersAt(b, m, b.bitassets[m].backing, MinPrice(m, b.bitassets[m].backing))
      ensures var feed := b.bitassets[m].feed.value.settlementPrice; var top := b.limits[best].price;
        Underwater(b, m, worst) <==> if Less(top, feed) then !Less(worst, feed) else !Less(worst, top)
    {
      var feed, top := b.bitassets[m].feed.value.settlementPrice, b.limits[best].price;
      forall i | i in sellers && !Less(worst, top)
        ensures !Less(worst, b.limits[i].price)
      {
        NotBelowTransitive(worst, top, b.limits[i].price);
      }
      if Less(top, feed) && !Less(worst, feed) {
        NotBelowTransitive(worst, feed, top);
      }
      if !Less(top, feed) && !Less(worst, top) {
        NotBelowTransitive(worst, top, feed);
      }
    }

    static lemma FeedIsSound(b: Books, m: AssetId)
      requires Core(b) && m in b.bitassets
      ensures FeedOk(m, b.bitassets[m])
    {
      assert BitassetOk(b, m);
    }

    static lemma SwanOfFirstCall(b: Books, m: AssetId, call: OrderId)
      requires m in b.bitassets && b.bitassets[m].feed.Some? && IsFirstCall(b, m, call)
      ensures IsBlackSwan(b, m) <==> Underwater(b, m, b.calls[call].Collateralization().Inverse())
    {}

    /**
      A black swan: not even the highest bid or the feed, whichever is higher, would let the
      first call order buy back its debt. It triggers a global settlement.
     */
    method CheckForBlackSwan(m: AssetId, enableBlackSwan: bool) returns (ok: bool, swan: bool)
      requires Valid()
      modifies `books
      ensures Swanned(old(books), m, enableBlackSwan) == if ok then Some((books, swan)) else None
      ensures ok ==> Valid() && SameGaps(old(books), books) && books.limits == old(books).limits
      ensures ok && swan && Unsettled(old(books), m) ==> SettledAtFirstCall(old(books), books, m)
    {
      hide Core, Gap, Less, Underwater, GloballySettled;
      if m !in books.bitassets {
        return true, false;
      }
      var x := books.bitassets[m];
      if x.settlement.Some? {
        return true, true;
      }
      if x.feed.None? {
        return true, false;
      }
      var call := FirstCall(m);
      if call.None? {
        return true, false;
      }
      var least := books.calls[call.value].Collateralization();
      CalledAssetHasSupply(books, call.value);
      FeedIsSound(books, m);
      var highest := HighestPrice(m, least.Inverse());
      SwanOfFirstCall(books, m, call.value);
      if Less(least.Inverse(), highest) {
        return true, false;
      }
      if !enableBlackSwan {
        return false, false;
      }
      ok := GloballySettle(m, least.Inverse());
      return ok, true;
    }

    /** One margin call; `ok` is false where a conversion or the collateral check throws. */
    method FillMarginCall(call: OrderId, limit: OrderId) returns (ok: bool)
      requires Valid() && call in books.calls && limit in books.limits
      requires PriceOf(books.limits[limit].price, books.calls[call].DebtType(), books.calls[call].CollateralType())
      modifies `books
      ensures var c, o := old(books).calls[call], old(books).limits[limit];
        var t := CallTrade(c.debt, o.forSale, o.price);
        && ok == (t.Some? && t.value.pays <= c.collateral)
        && (ok ==> books == Called(feeRules, old(books), call, limit, t.value.pays, t.value.receives))
      ensures ok ==> Valid() && SameGaps(old(books), books)
    {
      hide Core, Gap, Called, Shrunk;
      var price := books.limits[limit].price;
      var t := CallTrade(books.calls[call].debt, books.limits[limit].forSale, price);
      if t.None? || t.value.pays > books.calls[call].collateral {
        return false;
      }
      CalledKeeps(feeRules, books, call, limit, t.value.pays, t.value.receives);
      BuyBack(call, limit, t.value);
      return true;
    }

    method BuyBack(call: OrderId, limit: OrderId, t: Trade)
      requires LimitsOk(books.limits) && call in books.calls && limit in books.limits
      requires t.pays <= books.calls[call].collateral && t.receives <= books.calls[call].debt
      requires t.receives <= books.limits[limit].forSale
      modifies `books
      ensures books == Called(feeRules, old(books), call, limit, t.pays, t.receives)
    {
      hide FillCall, FillLimit, PayFromCall;
      FillCallFrame(books, call, t.pays, t.receives);
      var ok := FillCallOrder(call, t.pays, t.receives);
      var filled := FillLimitOrder(limit, t.receives, t.pays, true);
    }

    /** The first call order against the best of the sellers, if it is due. */
    method MarginCall(m: AssetId, enableBlackSwan: bool, sellers: set<OrderId>) returns (t: CallTurn)
      requires Valid() && m in books.bitassets && books.bitassets[m].feed.Some? && sellers <= books.limits.Keys
      requires forall i <- sellers :: PriceOf(books.limits[i].price, m, books.bitassets[m].backing)
      modifies `books
      ensures t == MarginTurn(feeRules, old(books), m, enableBlackSwan, sellers)
      ensures t.Stops? ==> books == old(books)
      ensures t.Settles? || t.Trades? ==> books == t.books && Valid() && SameGaps(old(books), books)
    {
      hide Core, Gap, Less, IsFirstCall, IsBestSeller, FirstCallOf, BestSellerOf, DueTurn;
      var call := FirstCall(m);
      if sellers == {} {
        NoBestSeller(books, sellers);
        return Stops;
      }
      var seller := FirstSeller(sellers, m, books.bitassets[m].backing);
      if call.None?
         || !Due(books.calls[call.value], books.bitassets[m].feed.value.settlementPrice, books.limits[seller].price) {
        return Stops;
      }
      t := CallDue(m, enableBlackSwan, call.value, seller);
    }

    static lemma NoBestSeller(b: Books, sellers: set<OrderId>)
      requires sellers == {}
      ensures BestSellerOf(b, sellers).None?
    {}

    /** The call order that is due buys from the seller; one that cannot afford it settles the asset. */
    method CallDue(m: AssetId, enableBlackSwan: bool, call: OrderId, seller: OrderId) returns (t: CallTurn)
      requires Valid() && m in books.bitassets && books.bitassets[m].feed.Some?
      requires call in books.calls && books.calls[call].DebtType() == m && seller in books.limits
      requires PriceOf(books.limits[seller].price, m, books.bitassets[m].backing)
      modifies `books
      ensures t == DueTurn(feeRules, old(books), m, enableBlackSwan, call, seller)
      ensures t.Settles? || t.Trades? ==> books == t.books && Valid() && SameGaps(old(books), books)
    {
      hide Core, Gap, Less, GloballySettled, Called, Shrunk;
      CalledAssetHasSupply(books, call);
      FeedIsSound(books, m);
      var c, o := books.calls[call], books.limits[seller];
      var worth := Times(Asset(c.debt, m), o.price);
      if worth.None? {
        return Throws;
      }
      if worth.value.amount > c.collateral {
        if !enableBlackSwan {
          return Throws;
        }
        var settled := GloballySettle(m, books.bitassets[m].feed.value.settlementPrice);
        return if settled then Settles(books) else Throws;
      }
      var filled := FillMarginCall(call, seller);
      return if filled then Trades(books, seller, c.debt >= o.forSale) else Throws;
    }

    /**
      Walks the limit orders that sell the asset at the squeeze price or better and the call
      orders from the lowest call price up, and lets the calls buy back their debt.
     */
    method CheckCallOrders(m: AssetId, enableBlackSwan: bool) returns (ok: bool, called: bool)
      requires Valid()
      modifies `books
      ensures CheckedCalls(feeRules, old(books), m, enableBlackSwan) == if ok then Some((books, called)) else None
      ensures ok ==> Valid() && SameGaps(old(books), books) && Shrunk(old(books).limits, books.limits, None)
      ensures ok && !called ==> books.limits == old(books).limits
      ensures ok && !called && !enableBlackSwan ==> books == old(books)
      ensures m !in old(books).bitassets ==> ok && !called && books == old(books)
    {
      hide Core, Gap, Shrunk, CalledAll, IsBlackSwan, GloballySettled;
      SelfShrunk(books.limits);
      if m !in books.bitassets {
        return true, false;
      }
      ghost var before := books;
      var swan;
      ok, swan := CheckForBlackSwan(m, enableBlackSwan);
      if !ok || swan {
        SettledOnlyIfEnabled(before, m, enableBlackSwan);
        return ok, false;
      }
      var x := books.bitassets[m];
      if x.isPredictionMarket || x.feed.None? {
        return true, false;
      }
      var sellers := SellersAt(books, m, x.backing, x.feed.value.squeezePrice);
      if sellers == {} {
        NoSellersNoCalls(feeRules, books, m, enableBlackSwan, sellers);
        return true, false;
      }
      ok, called := LoopMarginCalls(m, enableBlackSwan, sellers);
    }

    static lemma SettledOnlyIfEnabled(b: Books, m: AssetId, enable: bool)
      ensures !enable && Swanned(b, m, enable).Some? ==> Swanned(b, m, enable).value.0 == b
    {}

    static lemma NoSellersNoCalls(rules: FeeRules, b: Books, m: AssetId, enable: bool, sellers: set<OrderId>)
      requires LimitsOk(b.limits) && m in b.bitassets && b.bitassets[m].feed.Some?
      requires Swanned(b, m, enable) == Some((b, false)) && sellers == {}
      ensures CalledAll(rules, b, m, enable, sellers, false, false) == Some((b, false))
    {
      NoBestSeller(b, sellers);
    }

    /**
      Turn after turn of margin calls. Once one limit order has been filled the walk leaves
      every later order behind after one trade, as the flag for that is never cleared.
     */
    method LoopMarginCalls(m: AssetId, enableBlackSwan: bool, range: set<OrderId>) returns (ok: bool, called: bool)
      requires Valid() && m in books.bitassets && books.bitassets[m].feed.Some? && range <= books.limits.Keys
      requires forall i <- range :: PriceOf(books.limits[i].price, m, books.bitassets[m].backing)
      modifies `books
      ensures CalledAll(feeRules, old(books), m, enableBlackSwan, range, false, false) ==
        if ok then Some((books, called)) else None
      ensures ok ==> Valid() && SameGaps(old(books), books) && Shrunk(old(books).limits, books.limits, None)
      ensures ok && !called ==> books.limits == old(books).limits
      ensures ok && !called && !enableBlackSwan ==> books == old(books)
    {
      hide Core, Gap, Shrunk, CalledAll, MarginTurn, IsBlackSwan, LimitsOk, RestingBook, Swanned, StillAhead;
      var sellers, filled := range, false;
      called := false;
      SelfShrunk(books.limits);
      while true
        invariant Valid() && SameGaps(old(books), books) && Shrunk(old(books).limits, books.limits, None)
        invariant m in books.bitassets && books.bitassets[m] == old(books).bitassets[m]
        invariant sellers <= books.limits.Keys && sellers <= range
        invariant !called ==> books == old(books)
        invariant CalledAll(feeRules, old(books), m, enableBlackSwan, range, false, false)
                  == CalledAll(feeRules, books, m, enableBlackSwan, sellers, filled, called)
        decreases books.calls.Keys, sellers
      {
        ghost var before := books;
        SameMarketStays(old(books).limits, books.limits, sellers, m, books.bitassets[m].backing);
        CalledAllUnfolds(feeRules, books, m, enableBlackSwan, sellers, filled, called);
        var swan;
        ok, swan := CheckForBlackSwan(m, enableBlackSwan);
        if !ok || swan {
          if ok {
            GapsTransitive(old(books), before, books);
            SettledOnlyIfEnabled(before, m, enableBlackSwan);
          }
          return;
        }
        assert books == before;
        var t := MarginCall(m, enableBlackSwan, sellers);
        if t.Throws? || t.Stops? {
          return t.Stops?, called;
        }
        GapsTransitive(old(books), before, books);
        TurnShrinks(before, m, t);
        ShrunkTransitive(old(books).limits, before.limits, books.limits, None);
        called := true;
        if t.Settles? {
          return true, called;
        }
        filled := filled || t.exhausted;
        StillAheadShrinks(sellers, before.limits, books.limits, t.seller, filled);
        sellers := StillAhead(sellers, books.limits, t.seller, filled);
      }
    }

    static lemma TurnShrinks(b: Books, m: AssetId, t: CallTurn)
      requires LimitsOk(b.limits) && TurnKeeps(b, m, t) && (t.Settles? || t.Trades?)
      ensures Shrunk(b.limits, t.books.limits, None)
    {}

    static lemma SameMarketStays(
        limits: map<OrderId, LimitOrder>, limits': map<OrderId, LimitOrder>, ids: set<OrderId>, m: AssetId,
        backing: AssetId)
      requires Shrunk(limits, limits', None) && ids <= limits'.Keys
      requires forall i <- ids :: i in limits ==> PriceOf(limits[i].price, m, backing)
      ensures forall i <- ids :: PriceOf(limits'[i].price, m, backing)
    {}

    // ----- the limit order book ---------------------------------------------------------

    /** The resting orders still to be matched: all that cross the price. */
    ghost predicate Crossing(makers: set<OrderId>, price: Price)
      reads this
    {
      forall i :: i in makers <==> i in books.limits && Crosses(books.limits[i].price, price)
    }

    /**
      Matches the new order with resting orders, best price first and oldest first at one
      price, until it is gone or crosses nothing any more.
     */
    method MatchBook(id: OrderId) returns (ok: bool)
      requires Valid() && id in books.limits
      modifies `books
      ensures ok ==> Valid() && SameGaps(old(books), books) && Shrunk(old(books).limits, books.limits, Some(id))
      ensures ok ==> ClearOf(books.limits, id)
      ensures MatchAll(feeRules, old(books), id) == if ok then Some(books) else None
    {
      hide Core, Gap, Crosses, IsBestMaker, MatchAll, BestTrade;
      var price := books.limits[id].price;
      var makers := set i | i in books.limits && Crosses(books.limits[i].price, price);
      var finished := false;
      while !finished && makers != {}
        invariant Valid() && SameGaps(old(books), books) && Shrunk(old(books).limits, books.limits, Some(id))
        invariant finished <==> id !in books.limits
        invariant !finished ==> Crossing(makers, price) && books.limits[id].price == price
        invariant MatchAll(feeRules, old(books), id) == MatchAll(feeRules, books, id)
        decreases makers
      {
        ghost var before := books;
        ok, finished, makers := MatchBest(id, makers, price);
        if !ok {
          return;
        }
        GapsTransitive(old(books), before, books);
        ShrunkTransitive(old(books).limits, before.limits, books.limits, Some(id));
      }
      MatchAllRests(feeRules, books, id);
      return true;
    }

    /** Matches the best maker; matching goes on only when that maker alone was filled. */
    method MatchBest(id: OrderId, makers: set<OrderId>, price: Price)
      returns (ok: bool, finished: bool, rest: set<OrderId>)
      requires Valid() && id in books.limits && books.limits[id].price == price
      requires makers != {} && Crossing(makers, price)
      modifies `books
      ensures ok ==> Valid() && SameGaps(old(books), books) && Shrunk(old(books).limits, books.limits, Some(id))
      ensures ok ==> (finished <==> id !in books.limits) && rest < makers
      ensures ok && !finished ==> Crossing(rest, price) && books.limits[id].price == price
      ensures MatchAll(feeRules, old(books), id) == if ok then MatchAll(feeRules, books, id) else None
    {
      hide Core, Gap, MatchAll;
      var maker := FirstSeller(makers, price.quote.id, price.base.id);
      ghost var before := books;
      assert IsBestMaker(before, id, maker);
      var result;
      ok, result := Match(id, maker);
      finished, rest := result != 2, makers - {maker};
      MatchAllTrades(feeRules, before, id, maker);
      if ok {
        if finished {
          MatchAllRests(feeRules, books, id);
        } else {
          assert Lessened(before.limits[id], books.limits[id]);
          MakersStay(before.limits, books.limits, makers, maker, id, price);
        }
      }
    }

    /** Match removed no maker but the one it filled, and no price changed. */
    static lemma MakersStay(limits: map<OrderId, LimitOrder>, limits': map<OrderId, LimitOrder>,
        makers: set<OrderId>, maker: OrderId, id: OrderId, price: Price)
      requires Shrunk(limits, limits', Some(id)) && limits.Keys - {id, maker} <= limits'.Keys
      requires forall i :: i in makers <==> i in limits && Crosses(limits[i].price, price)
      requires maker !in limits' && id in limits'
      ensures forall i :: i in makers - {maker} <==> i in limits' && Crosses(limits'[i].price, price)
    {}

    /**
      Enters a new order into the book: margin calls with the new order as their counterpart,
      then matching, then margin calls again, and a remainder too small for its price is
      refunded. Afterwards the whole book is at rest again.
     */
    method ApplyOrder(id: OrderId, allowBlackSwan: bool) returns (ok: bool, gone: bool)
      requires Valid() && id in books.limits && RestingBook(books.limits - {id})
      modifies `books
      ensures Applied(feeRules, old(books), id, allowBlackSwan) == if ok then Some(books) else None
      ensures ok ==> Valid() && SameGaps(old(books), books) && RestingBook(books.limits)
      ensures ok ==> Shrunk(old(books).limits, books.limits, Some(id)) && gone == (id !in books.limits)
    {
      hide Core, Gap, MatchAll, CheckedBoth, Culled, RestingBook, LimitsOk, Shrunk;
      var price := books.limits[id].price;
      var called;
      ok, called := CheckBothAssets(price.base.id, price.quote.id, allowBlackSwan);
      if !ok {
        return false, false;
      }
      ShrunkWeaken(old(books).limits, books.limits, Some(id));
      if id !in books.limits {
        GoneRests(old(books).limits, books.limits, id);
        MatchAllGone(feeRules, books, id);
        if called {
          return true, true;
        }
      }
      ghost var before := books;
      ok := MatchBook(id);
      if !ok {
        return false, false;
      }
      GapsTransitive(old(books), before, books);
      ShrunkTransitive(old(books).limits, before.limits, books.limits, Some(id));
      ok := SettleBook(id, price, allowBlackSwan, old(books));
      gone := id !in books.limits;
    }

    /** The margin calls after matching, and the deferred cull of the new order. */
    method SettleBook(id: OrderId, price: Price, allowBlackSwan: bool, ghost start: Books) returns (ok: bool)
      requires Valid() && ClearOf(books.limits, id) && RestingBook(start.limits - {id})
      requires SameGaps(start, books) && Shrunk(start.limits, books.limits, Some(id))
      modifies `books
      ensures Culled(feeRules, old(books), id, price, allowBlackSwan) == if ok then Some(books) else None
      ensures ok ==> Valid() && RestingBook(books.limits)
      ensures ok ==> SameGaps(start, books) && Shrunk(start.limits, books.limits, Some(id))
    {
      hide Core, Gap, CheckedBoth, RestingBook, Shrunk, CullIfSmall;
      ghost var before := books;
      var called;
      ok, called := CheckBothAssets(price.base.id, price.quote.id, allowBlackSwan);
      if !ok {
        return;
      }
      GapsTransitive(start, before, books);
      ShrunkWeaken(before.limits, books.limits, Some(id));
      ShrunkTransitive(start.limits, before.limits, books.limits, Some(id));
      ShrunkStaysClear(before.limits, books.limits, id, Some(id));
      CullRests(start, books, id);
      if id in books.limits {
        var culled := MaybeCullSmallOrder(id);
      }
    }

    /** What a match has left of the new order rests once it is culled if it is too small. */
    static lemma CullRests(start: Books, b: Books, id: OrderId)
      requires Core(b) && LimitsOk(b.limits) && ClearOf(b.limits, id) && RestingBook(start.limits - {id})
      requires SameGaps(start, b) && Shrunk(start.limits, b.limits, Some(id))
      ensures var b' := CullIfSmall(b, id);
        && Core(b') && LimitsOk(b'.limits) && SameGaps(start, b') && SameCore(b, b')
        && RestingBook(b'.limits) && Shrunk(start.limits, b'.limits, Some(id)) && b'.limits.Keys <= b.limits.Keys
      ensures id !in b.limits ==> CullIfSmall(b, id) == b
    {
      hide Core, Gap, RestingBook, CullIfSmall;
      if id in b.limits {
        CullKeeps(b, id);
        var b' := CullIfSmall(b, id);
        GapsTransitive(start, b, b');
        ShrunkWeaken(b.limits, b'.limits, Some(id));
        ShrunkTransitive(start.limits, b.limits, b'.limits, Some(id));
        ShrunkStaysClear(b.limits, b'.limits, id, Some(id));
        NewOrderRests(start.limits, b'.limits, id);
      } else {
        NoCull(b, id);
        NewOrderRests(start.limits, b.limits, id);
      }
    }

    static lemma NoCull(b: Books, id: OrderId)
      requires id !in b.limits
      ensures CullIfSmall(b, id) == b
    {}

    static lemma GoneRests(limits: map<OrderId, LimitOrder>, limits': map<OrderId, LimitOrder>, id: OrderId)
      requires RestingBook(limits - {id}) && LimitsOk(limits') && Shrunk(limits, limits', Some(id)) && id !in limits'
      ensures RestingBook(limits')
    {
      NewOrderRests(limits, limits', id);
    }

    static lemma MatchAllGone(rules: FeeRules, b: Books, id: OrderId)
      requires LimitsOk(b.limits) && id !in b.limits
      ensures MatchAll(rules, b, id) == Some(b)
    {}

    method CheckBothAssets(sell: AssetId, receive: AssetId, allowBlackSwan: bool) returns (ok: bool, called: bool)
      requires Valid()
      modifies `books
      ensures CheckedBoth(feeRules, old(books), sell, receive, allowBlackSwan) ==
        if ok then Some((books, called)) else None
      ensures ok ==> Valid() && SameGaps(old(books), books) && Shrunk(old(books).limits, books.limits, None)
      ensures ok && !called ==> books.limits == old(books).limits
    {
      hide Core, Gap, CheckedCalls, Shrunk;
      ok, called := CheckCallOrders(sell, allowBlackSwan);
      if !ok {
        return;
      }
      ghost var before := books;
      var calledToo;
      ok, calledToo := CheckCallOrders(receive, allowBlackSwan);
      called := called || calledToo;
      if ok {
        GapsTransitive(old(books), before, books);
        ShrunkTransitive(old(books).limits, before.limits, books.limits, None);
      }
    }

    // ----- operations on limit orders ---------------------------------------------------

    /** What the seller offers leaves its balance, along with the fee that is deferred. */
    method CreateLimitOrder(seller: AccountId, sell: Asset, receive: Asset, fee: nat, fillOrKill: bool)
      returns (ok: bool, id: OrderId)
      requires Valid() && RestingBook(books.limits)
      requires sell.amount > 0 && receive.amount > 0 && sell.id != receive.id
      modifies this
      ensures var o := LimitOrder(seller, sell.amount, Price(sell, receive), fee);
        Created(feeRules, old(books), o, id, fillOrKill) == if ok then Some(books) else None
      ensures ok ==> Valid() && RestingBook(books.limits) && SameGaps(old(books), books)
      ensures id == old(nextId) && (ok ==> id !in old(books).limits)
      ensures ok && id in books.limits ==> books.limits[id].price == Price(sell, receive) && !fillOrKill
    {
      hide Core, Gap, Applied, RestingBook;
      ok, id := EnterOrder(LimitOrder(seller, sell.amount, Price(sell, receive), fee));
      if !ok {
        return;
      }
      ghost var entered := books;
      var gone;
      ok, gone := ApplyOrder(id, true);
      if ok {
        GapsTransitive(old(books), entered, books);
        if !gone {
          assert Lessened(entered.limits[id], books.limits[id]);
        }
      }
      ok := ok && (!fillOrKill || gone);
    }

    method EnterOrder(o: LimitOrder) returns (ok: bool, id: OrderId)
      requires Valid() && RestingBook(books.limits) && o.forSale > 0 && o.price.Positive()
      modifies this
      ensures id == old(nextId) && id !in old(books).limits
      ensures ok <==> CanEnter(old(books), o) && o.price.quote.amount <= MAX_SHARE_SUPPLY
      ensures ok ==> books == Entered(old(books), o, id) && books.limits == old(books).limits[id := o]
      ensures ok ==> Valid() && SameGaps(old(books), books) && RestingBook(books.limits - {id})
    {
      id := nextId;
      ok := TakeOffer(o, id);
      if !ok || o.price.quote.amount > MAX_SHARE_SUPPLY {
        return false, id;
      }
      EnterKeeps(old(books), o, id);
      nextId := nextId + 1;
      assert books.limits - {id} == old(books).limits;
    }

    /** Moves the fee and what is offered from the seller's balances into a new order. */
    method TakeOffer(o: LimitOrder, id: OrderId) returns (ok: bool)
      modifies `books
      ensures ok <==> CanEnter(old(books), o)
      ensures ok ==> books == Entered(old(books), o, id)
    {
      ok := AdjustBalance(o.seller, CORE, 0 - o.deferredFee);
      if ok {
        ok := AdjustBalance(o.seller, o.price.base.id, 0 - o.forSale);
        books := books.(limits := books.limits[id := o]);
      }
    }

    method CancelOrderOperation(id: OrderId) returns (ok: bool)
      requires Valid() && RestingBook(books.limits) && id in books.limits
      modifies `books
      ensures Cancelled(feeRules, old(books), id) == if ok then Some(books) else None
      ensures ok ==> Valid() && RestingBook(books.limits) && SameGaps(old(books), books)
      ensures ok ==> id !in books.limits
    {
      hide Core, Gap, CheckedBoth, CancelLimit, RestingBook;
      var price := books.limits[id].price;
      CancelLimitKeeps(books, id);
      CancelLimitOrder(id);
      ghost var before := books;
      CancelledRests(old(books).limits, books.limits, id);
      var called;
      ok, called := CheckBothAssets(price.base.id, price.quote.id, true);
      if ok {
        GapsTransitive(old(books), before, books);
        ShrunkStaysResting(before.limits, books.limits);
      }
    }

    static lemma CancelledRests(limits: map<OrderId, LimitOrder>, limits': map<OrderId, LimitOrder>, id: OrderId)
      requires RestingBook(limits) && limits' == limits - {id}
      ensures RestingBook(limits')
    {}
  }
}

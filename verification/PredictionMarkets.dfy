/**
  Prediction markets are never margin called or settled by force. What keeps them sound is that
  every position has exactly as much collateral as debt, from one state of a run to the next.
 */
module PredictionMarkets {
  import opened Wrappers
  import opened Prices
  import opened Books
  import opened MarketRules
  import opened MarketSpecs
  import opened Payments
  import opened Positions
  import opened Bids
  import opened Refunds
  import opened ForceSettlement
  import opened SettlementTurns
  import GlobalSettlement
  import Runs = MarketRuns

  predicate IsPrediction(b: Books, m: AssetId) {
    m in b.bitassets && b.bitassets[m].isPredictionMarket
  }

  /**
    Every position in a prediction market has as much collateral as debt, and no settlement order
    waits in one. No asset backs itself.
   */
  ghost predicate PaidUp(b: Books) {
    && (forall m <- b.bitassets :: b.bitassets[m].backing != m)
    && (forall i <- b.calls :: IsPrediction(b, b.calls[i].DebtType()) ==> b.calls[i].collateral == b.calls[i].debt)
    && (forall i <- b.settlements :: !IsPrediction(b, b.settlements[i].balance.id))
  }

  /** No prediction market comes or goes, and what is new or changed is paid up or not in one. */
  ghost predicate StaysPaidUp(b: Books, b': Books) {
    && (forall m :: IsPrediction(b', m) <==> IsPrediction(b, m))
    && (forall m <- b'.bitassets :: m in b.bitassets && b'.bitassets[m].backing == b.bitassets[m].backing)
    && (forall i <- b'.calls ::
          || (i in b.calls && b'.calls[i] == b.calls[i])
          || b'.calls[i].collateral == b'.calls[i].debt || !IsPrediction(b, b'.calls[i].DebtType()))
    && (forall i <- b'.settlements ::
          || (i in b.settlements && b'.settlements[i].balance.id == b.settlements[i].balance.id)
          || !IsPrediction(b, b'.settlements[i].balance.id))
  }

  lemma StillPaidUp(b: Books, b': Books)
    requires PaidUp(b) && StaysPaidUp(b, b')
    ensures PaidUp(b')
  {}

  lemma StaysTransitive(b: Books, b1: Books, b2: Books)
    requires StaysPaidUp(b, b1) && StaysPaidUp(b1, b2)
    ensures StaysPaidUp(b, b2)
  {
    hide IsPrediction;
  }

  lemma SameStays(b: Books, b': Books)
    requires b'.bitassets == b.bitassets && b'.calls == b.calls && b'.settlements == b.settlements
    ensures StaysPaidUp(b, b')
  {}

  // ----- limit orders -------------------------------------------------------------------------

  lemma {:induction false} MatchAllStays(rules: FeeRules, b: Books, id: OrderId)
    requires LimitsOk(b.limits) && MatchAll(rules, b, id).Some?
    ensures StaysPaidUp(b, MatchAll(rules, b, id).value)
    decreases b.limits.Keys
  {
    hide StaysPaidUp, Traded, MatchAll, IsBestMaker;
    if exists maker :: IsBestMaker(b, id, maker) {
      var maker :| IsBestMaker(b, id, maker);
      MatchAllTrades(rules, b, id, maker);
      var b1 := BestTrade(rules, b, id, maker).value;
      BestTradeStays(rules, b, id, maker);
      if id in b1.limits && maker !in b1.limits {
        MatchAllStays(rules, b1, id);
        StaysTransitive(b, b1, MatchAll(rules, b1, id).value);
      }
    } else {
      NoMakerLeft(rules, b, id);
      SameStays(b, b);
    }
  }

  lemma BestTradeStays(rules: FeeRules, b: Books, id: OrderId, maker: OrderId)
    requires LimitsOk(b.limits) && IsBestMaker(b, id, maker) && BestTrade(rules, b, id, maker).Some?
    ensures StaysPaidUp(b, BestTrade(rules, b, id, maker).value)
  {
    hide Traded, StaysPaidUp;
    var o, other := b.limits[id], b.limits[maker];
    var t := MatchTrade(o.forSale, other.forSale, other.price).value;
    MatchIsSound(o.forSale, other.forSale, other.price, o.price);
    TradedBook(rules, b, id, maker, t);
    SameStays(b, Traded(rules, b, id, maker, t));
  }

  // ----- global settlement and margin calls -----------------------------------------------------

  lemma {:induction false} CloseAllOnlyCloses(b: Books, m: AssetId, p: Price, gathered: nat)
    requires CloseAll(b, m, p, gathered).Some?
    ensures var b' := CloseAll(b, m, p, gathered).value.0;
      forall i <- b'.calls :: i in b.calls && b'.calls[i] == b.calls[i]
    decreases b.calls.Keys
  {
    hide FillCall, ClosingPayment;
    var id := FirstCallOf(b, m);
    if id.Some? {
      var c := b.calls[id.value];
      var pays := ClosingPayment(c, p).value;
      PaymentWithinCollateral(c, p);
      ClosedCall(b, id.value, pays);
      CloseAllOnlyCloses(FillCall(b, id.value, pays, c.debt), m, p, gathered + pays);
    }
  }

  lemma SettledStays(b: Books, m: AssetId, p: Price)
    requires m in b.bitassets && GloballySettled(b, m, p).Some?
    ensures StaysPaidUp(b, GloballySettled(b, m, p).value)
  {
    hide CloseAll;
    CloseAllOnlyCloses(b, m, p, 0);
  }

  lemma SwannedStays(b: Books, m: AssetId, enable: bool)
    requires Swanned(b, m, enable).Some?
    ensures StaysPaidUp(b, Swanned(b, m, enable).value.0)
  {
    hide StaysPaidUp, GloballySettled;
    SameStays(b, b);
    if Unsettled(b, m) && IsBlackSwan(b, m) {
      SettledStays(b, m, b.calls[FirstCallOf(b, m).value].Collateralization().Inverse());
    }
  }

  /** A called position is not in a prediction market. */
  lemma CalledStays(rules: FeeRules, b: Books, call: OrderId, limit: OrderId, t: Trade)
    requires call in b.calls && t.pays <= b.calls[call].collateral && t.receives <= b.calls[call].debt
    requires LimitsOk(b.limits) && limit in b.limits && t.receives <= b.limits[limit].forSale
    requires !IsPrediction(b, b.calls[call].DebtType())
    ensures StaysPaidUp(b, Called(rules, b, call, limit, t.pays, t.receives))
  {
    hide FillCall, FillLimit;
    FillCallFrame(b, call, t.pays, t.receives);
    FillCallLeaves(b, call, t.pays, t.receives);
    FillLimitKeepsCore(rules, FillCall(b, call, t.pays, t.receives), limit, t.receives, t.pays, true);
  }

  lemma TurnStays(rules: FeeRules, b: Books, m: AssetId, enable: bool, sellers: set<OrderId>)
    requires LimitsOk(b.limits) && m in b.bitassets && b.bitassets[m].feed.Some? && !IsPrediction(b, m)
    ensures var t := MarginTurn(rules, b, m, enable, sellers); t.Trades? || t.Settles? ==> StaysPaidUp(b, t.books)
  {
    hide StaysPaidUp, Called, MarginTurn, GloballySettled, CallTrade;
    var t := MarginTurn(rules, b, m, enable, sellers);
    if t.Trades? {
      TradingTurn(rules, b, m, enable, sellers);
      var call := FirstCallOf(b, m).value;
      var c, o := b.calls[call], b.limits[t.seller];
      CalledStays(rules, b, call, t.seller, CallTrade(c.debt, o.forSale, o.price).value);
    } else if t.Settles? {
      SettlingTurn(rules, b, m, enable, sellers);
      SettledStays(b, m, b.bitassets[m].feed.value.settlementPrice);
    }
  }

  lemma {:induction false} CalledAllStays(
      rules: FeeRules, b: Books, m: AssetId, enable: bool, sellers: set<OrderId>, filled: bool, called: bool)
    requires LimitsOk(b.limits) && m in b.bitassets && b.bitassets[m].feed.Some? && !IsPrediction(b, m)
    requires CalledAll(rules, b, m, enable, sellers, filled, called).Some?
    ensures StaysPaidUp(b, CalledAll(rules, b, m, enable, sellers, filled, called).value.0)
    decreases b.calls.Keys, sellers
  {
    hide StaysPaidUp, Swanned, MarginTurn, LimitsOk, StillAhead, CalledAll;
    var swan, t := Swanned(b, m, enable), MarginTurn(rules, b, m, enable, sellers);
    CalledAllUnfolds(rules, b, m, enable, sellers, filled, called);
    TurnStays(rules, b, m, enable, sellers);
    SameStays(b, b);
    if swan.value.1 {
      SwannedStays(b, m, enable);
    } else if t.Trades? {
      TurnIsProgress(b, m, sellers, t, filled || t.exhausted);
      var rest := StillAhead(sellers, t.books.limits, t.seller, filled || t.exhausted);
      CalledAllStays(rules, t.books, m, enable, rest, filled || t.exhausted, true);
      StaysTransitive(b, t.books, CalledAll(rules, t.books, m, enable, rest, filled || t.exhausted, true).value.0);
    }
  }

  /** Margin calls pass prediction markets by. */
  lemma CheckedStays(rules: FeeRules, b: Books, m: AssetId, enable: bool)
    requires LimitsOk(b.limits) && CheckedCalls(rules, b, m, enable).Some?
    ensures StaysPaidUp(b, CheckedCalls(rules, b, m, enable).value.0)
  {
    hide StaysPaidUp, CalledAll, Swanned;
    var swan := Swanned(b, m, enable);
    SwannedStays(b, m, enable);
    if !swan.value.1 && m in b.bitassets && !b.bitassets[m].isPredictionMarket && b.bitassets[m].feed.Some? {
      var sellers := SellersAt(b, m, b.bitassets[m].backing, b.bitassets[m].feed.value.squeezePrice);
      CalledAllStays(rules, b, m, enable, sellers, false, false);
    }
  }

  lemma BothStay(rules: FeeRules, b: Books, price: Price, enable: bool)
    requires LimitsOk(b.limits) && CheckedBoth(rules, b, price.base.id, price.quote.id, enable).Some?
    ensures StaysPaidUp(b, CheckedBoth(rules, b, price.base.id, price.quote.id, enable).value.0)
  {
    hide StaysPaidUp, CheckedCalls;
    var b1 := CheckedCalls(rules, b, price.base.id, enable).value.0;
    CheckedStays(rules, b, price.base.id, enable);
    CheckedStays(rules, b1, price.quote.id, enable);
    StaysTransitive(b, b1, CheckedCalls(rules, b1, price.quote.id, enable).value.0);
  }

  lemma AppliedStays(rules: FeeRules, b: Books, id: OrderId, enable: bool)
    requires LimitsOk(b.limits) && id in b.limits && Applied(rules, b, id, enable).Some?
    ensures StaysPaidUp(b, Applied(rules, b, id, enable).value)
  {
    hide StaysPaidUp, CheckedBoth, MatchAll, CullIfSmall;
    var price := b.limits[id].price;
    var called := CheckedBoth(rules, b, price.base.id, price.quote.id, enable).value;
    BothStay(rules, b, price, enable);
    if !called.1 || id in called.0.limits {
      var matched := MatchAll(rules, called.0, id).value;
      MatchAllStays(rules, called.0, id);
      StaysTransitive(b, called.0, matched);
      BothStay(rules, matched, price, enable);
      var last := CheckedBoth(rules, matched, price.base.id, price.quote.id, enable).value.0;
      StaysTransitive(b, matched, last);
      CullStays(last, id);
      StaysTransitive(b, last, CullIfSmall(last, id));
    }
  }

  lemma CullStays(b: Books, id: OrderId)
    requires LimitsOk(b.limits)
    ensures StaysPaidUp(b, CullIfSmall(b, id))
  {
    hide CullIfSmall;
    CullKeepsCore(b, id);
  }

  // ----- positions --------------------------------------------------------------------------

  lemma RepositionedStays(b: Books, u: Update, id: OrderId, pricing: CallPricing)
    requires PaidUp(b) && MayUpdate(b, u) && InMarket(b, u, id) && PricesCalls(pricing, u.m, u.backing)
    requires Repositioned(b, u, id, pricing).Some?
    ensures StaysPaidUp(b, Repositioned(b, u, id, pricing).value)
  {
    hide Positioned, Closed;
    var c := Standing(b, u, id);
    var debt, collateral := c.debt + u.debt, c.collateral + u.collateral;
    if id in b.calls && debt == 0 && collateral == 0 {
      ClosedPays(b, u.account, id);
    } else {
      var c' := c.(debt := debt, collateral := collateral, callPrice := pricing(debt, collateral));
      PositionedPays(b, u.account, id, c', u.debt, u.collateral);
    }
  }

  lemma UpdatedStays(rules: FeeRules, b: Books, u: Update, id: OrderId, pricing: CallPricing)
    requires PaidUp(b) && LimitsOk(b.limits) && (MayUpdate(b, u) ==> InMarket(b, u, id))
    requires PricesCalls(pricing, u.m, u.backing) && Updated(rules, b, u, id, pricing).Some?
    ensures StaysPaidUp(b, Updated(rules, b, u, id, pricing).value)
  {
    hide PaidUp, StaysPaidUp, Repositioned, CheckedCalls, PricesCalls;
    var b1 := Repositioned(b, u, id, pricing).value;
    RepositionedStays(b, u, id, pricing);
    if !b.bitassets[u.m].isPredictionMarket && id in b1.calls {
      CheckedStays(rules, b1, u.m, false);
      StaysTransitive(b, b1, CheckedCalls(rules, b1, u.m, false).value.0);
    }
  }

  // ----- settling -----------------------------------------------------------------------------

  lemma DidSettleStays(b: Books, n: OrderId, account: AccountId, amount: Asset, due: nat, b': Books)
    requires Runs.DidSettle(b, n, account, amount, due, true, b')
    ensures StaysPaidUp(b, b')
  {
    hide Repaid, Scheduled;
    if b.bitassets[amount.id].settlement.Some? {
      var paid :| PaidOut(b, account, amount, paid) && b' == Repaid(b, account, amount, paid.amount);
      PaidIsInFund(b, account, amount, paid);
      RepaidPays(b, account, amount, paid.amount);
    } else {
      ScheduledPays(b, Settlement(account, amount, due), n);
    }
  }

  lemma PaidIsInFund(b: Books, account: AccountId, amount: Asset, paid: Asset)
    requires PaidOut(b, account, amount, paid)
    ensures amount.id in b.bitassets && paid.amount <= b.bitassets[amount.id].fund
  {}

  lemma MatchedStays(rules: FeeRules, b: Books, call: OrderId, id: OrderId, paid: nat, receives: nat)
    requires call in b.calls && id in b.settlements && paid <= b.calls[call].collateral
    requires receives <= b.calls[call].debt && receives <= b.settlements[id].balance.amount
    requires !IsPrediction(b, b.calls[call].DebtType())
    ensures StaysPaidUp(b, Matched(rules, b, call, id, paid, receives))
  {
    hide FillCall, FillSettlement;
    FillCallFrame(b, call, paid, receives);
    FillCallLeaves(b, call, paid, receives);
    FillSettlementLeaves(rules, FillCall(b, call, paid, receives), id, receives,
      Asset(paid, b.calls[call].CollateralType()));
  }

  lemma CancelStays(b: Books, id: OrderId)
    requires id in b.settlements
    ensures StaysPaidUp(b, CancelSettlement(b, id))
  {
    hide CancelSettlement;
    CancelSettlementPays(b, id);
  }

  lemma {:induction false} SettledUpToStays(
      rules: FeeRules, b: Books, m: AssetId, id: OrderId, price: Price, cap: nat, settled: nat)
    requires SettledUpTo(rules, b, m, id, price, cap, settled).Some? && !IsPrediction(b, m)
    ensures StaysPaidUp(b, SettledUpTo(rules, b, m, id, price, cap, settled).value.0)
    decreases cap - settled
  {
    hide StaysPaidUp, Matched, StepOf, SettledUpTo, CancelSettlement;
    if settled >= cap || id !in b.settlements {
      SettledUpToEnds(rules, b, m, id, price, cap, settled);
      SameStays(b, b);
    } else {
      var r := StepOf(rules, b, m, id, price, cap - settled);
      SettledUpToUnfolds(rules, b, m, id, price, cap, settled);
      if r.MatchSwan? {
        CancelStays(b, id);
      } else {
        StepStays(rules, b, m, id, price, cap - settled);
        SettledUpToStays(rules, r.books, m, id, price, cap, settled + r.receives);
        StaysTransitive(b, r.books, SettledUpTo(rules, r.books, m, id, price, cap, settled + r.receives).value.0);
      }
    }
  }

  lemma StepStays(rules: FeeRules, b: Books, m: AssetId, id: OrderId, price: Price, volume: nat)
    requires id in b.settlements && StepOf(rules, b, m, id, price, volume).MatchFills? && !IsPrediction(b, m)
    ensures StaysPaidUp(b, StepOf(rules, b, m, id, price, volume).books)
  {
    hide StaysPaidUp, Matched, Times;
    var call := LeastOf(b, m).value;
    var n := MatchAmount(b.settlements[id].balance.amount, volume, b.calls[call].debt);
    MatchedStays(rules, b, call, id, Times(Asset(n, price.base.id), price).value.amount, n);
  }

  lemma TurnOfStays(rules: FeeRules, b: Books, id: OrderId, now: nat)
    requires PaidUp(b) && id in b.settlements && TurnOf(rules, b, id, now).Acted?
    ensures StaysPaidUp(b, TurnOf(rules, b, id, now).books)
  {
    hide StaysPaidUp, SettledUpTo, SettlementPrice, CancelSettlement, Stored;
    var order := b.settlements[id].balance;
    var x := b.bitassets[order.id];
    CancelStays(b, id);
    if IsOpen(b, id, now) {
      var price := SettlementPrice(x, order).value;
      var r := SettledUpTo(rules, b, order.id, id, price, Cap(b, order.id), x.forceSettled).value;
      SettledUpToStays(rules, b, order.id, id, price, Cap(b, order.id), x.forceSettled);
      StoredStays(r.0, order.id, r.1);
      StaysTransitive(b, r.0, Stored(r.0, order.id, r.1));
    }
  }

  lemma StoredStays(b: Books, m: AssetId, settled: nat)
    requires m in b.bitassets
    ensures StaysPaidUp(b, Stored(b, m, settled))
  {}

  lemma {:induction false} TurnsStay(rules: FeeRules, b: Books, now: nat, turns: nat)
    requires PaidUp(b) && AfterTurns(rules, b, now, turns).Some?
    ensures StaysPaidUp(b, AfterTurns(rules, b, now, turns).value.books)
  {
    hide StaysPaidUp, TurnOf, PaidUp;
    SameStays(b, b);
    if turns > 0 {
      var p := AfterTurns(rules, b, now, turns - 1).value;
      TurnsStay(rules, b, now, turns - 1);
      StillPaidUp(b, p.books);
      var first := FirstOf(p.books.settlements, p.current);
      if first.Some? && TurnOf(rules, p.books, first.value, now).Acted? {
        TurnOfStays(rules, p.books, first.value, now);
        StaysTransitive(b, p.books, TurnOf(rules, p.books, first.value, now).books);
      }
    }
  }

  // ----- revivals -----------------------------------------------------------------------------

  lemma RebidStays(b: Books, own: Option<OrderId>, bid: Bid, id: OrderId)
    requires own.Some? ==> own.value in b.bids
    requires Rebid(b, own, bid, id).Some?
    ensures StaysPaidUp(b, Rebid(b, own, bid, id).value)
  {}

  lemma FeedStays(b: Books, m: AssetId, feed: Option<Feed>)
    requires m in b.bitassets
    ensures StaysPaidUp(b, WithFeed(b, m, feed))
  {}

  lemma TakenOverStays(b: Books, m: AssetId, issuer: AccountId, pricing: CallPricing, id: OrderId)
    requires m in b.bitassets && b.Supply(m) >= 0 && !IsPrediction(b, m)
    requires PricesCalls(pricing, m, b.bitassets[m].backing) && (b.Supply(m) > 0 ==> b.bitassets[m].fund > 0)
    ensures StaysPaidUp(b, TakenOver(b, m, issuer, pricing, id))
    ensures TakenOver(b, m, issuer, pricing, id).limits == b.limits
  {
    TakenOverIs(b, m, issuer, pricing, id);
  }

  lemma PublishedStays(rules: FeeRules, b: Books, m: AssetId, feed: Option<Feed>, issuer: AccountId,
      pricing: RatedPricing, id: OrderId)
    requires LimitsOk(b.limits) && m in b.bitassets && b.Supply(m) >= 0
    requires PricesCalls(PricingOf(pricing, feed), m, b.bitassets[m].backing)
    requires Published(rules, b, m, feed, issuer, pricing, id).Some?
    ensures StaysPaidUp(b, Published(rules, b, m, feed, issuer, pricing, id).value)
  {
    hide StaysPaidUp, CheckedCalls, TakenOver, PricingOf, PricesCalls, LimitsOk;
    SameStays(b, b);
    var b1 := WithFeed(b, m, feed);
    if feed != b.bitassets[m].feed {
      FeedStays(b, m, feed);
      var called := PricingOf(pricing, feed);
      var b2 := if CanRevive(b1.bitassets[m], b1.Supply(m), called) then TakenOver(b1, m, issuer, called, id) else b1;
      if CanRevive(b1.bitassets[m], b1.Supply(m), called) {
        TakenOverStays(b1, m, issuer, called, id);
        StaysTransitive(b, b1, b2);
      }
      CheckedStays(rules, b2, m, true);
      StaysTransitive(b, b2, CheckedCalls(rules, b2, m, true).value.0);
    }
  }

  lemma ExpiredStays(rules: FeeRules, b: Books, m: AssetId, feed: Option<Feed>)
    requires LimitsOk(b.limits) && m in b.bitassets && Expired(rules, b, m, feed).Some?
    ensures StaysPaidUp(b, Expired(rules, b, m, feed).value)
  {
    hide StaysPaidUp, CheckedCalls;
    var b1 := WithFeed(b, m, feed);
    FeedStays(b, m, feed);
    if feed.Some? {
      CheckedStays(rules, b1, m, true);
      StaysTransitive(b, b1, CheckedCalls(rules, b1, m, true).value.0);
    }
  }

  /** What bids revive is not a prediction market. */
  lemma RevivedStays(b: Books, b': Books, m: AssetId, first: OrderId, chosen: seq<OrderId>, pricing: CallPricing)
    requires m in b.bitassets && b.bitassets[m].settlement.Some? && !IsPrediction(b, m)
    requires PricesCalls(pricing, m, b.bitassets[m].backing) && RevivedBy(b, b', m, first, chosen, pricing)
    ensures StaysPaidUp(b, b')
  {
    hide JustCovers, ShareIn, Refund, Bidders;
    var r := RevivalOf(b, m, chosen, pricing);
    forall c | c in b'.calls && c !in b.calls
      ensures b'.calls[c].DebtType() == m
    {
      assert Took(b.bids, b'.calls, first + (c - first), chosen[c - first], ShareIn(r, c - first), pricing);
      ShareIsPositive(b, r, c - first);
    }
    assert b'.settlements == b.settlements;
  }

  lemma ShareIsPositive(b: Books, r: Revival, i: nat)
    requires RevivalOk(b, r) && i < |r.chosen|
    ensures ShareIn(r, i).debt > 0 && ShareIn(r, i).collateral >= 0
    ensures b.bids[r.chosen[i]].invSwanPrice.base.amount > 0
  {
    FairShares(r.p, r.amounts, r.supply, r.fund, i);
  }

  lemma MaintainStays(b: Books, n: OrderId, m: AssetId, pricing: Runs.Pricing, b': Books)
    requires PaidUp(b) && Runs.SoundPricing(pricing) && Runs.DidMaintain(b, n, m, pricing, true, b')
    ensures StaysPaidUp(b, b')
  {
    hide StaysPaidUp, RevivedBy, Runs.SoundPricing, PricesCalls, Chooses;
    var noted := Stored(b, m, 0);
    StoredStays(b, m, 0);
    if b.bitassets[m].settlement.Some? {
      var backing := b.bitassets[m].backing;
      Runs.PricingIsSound(pricing, m, backing, b.bitassets[m].feed);
      var called := Runs.PricingNow(b, m, backing, pricing);
      var outcome: Outcome :| !outcome.Threw? && Runs.BidsDecide(noted, b', m, n, outcome, called);
      if outcome.Revived? {
        RevivedStays(noted, b', m, n, outcome.chosen, called);
        StaysTransitive(b, noted, b');
      }
    }
  }

  // ----- runs ---------------------------------------------------------------------------------

  lemma LimitStays(rules: FeeRules, b: Books, o: LimitOrder, n: OrderId, fillOrKill: bool)
    requires LimitsOk(b.limits) && o.forSale > 0 && o.price.Positive() && Created(rules, b, o, n, fillOrKill).Some?
    ensures StaysPaidUp(b, Created(rules, b, o, n, fillOrKill).value)
  {
    hide StaysPaidUp, Applied, Entered;
    EnteredPays(b, o, n);
    SameStays(b, Entered(b, o, n));
    AppliedStays(rules, Entered(b, o, n), n, true);
    StaysTransitive(b, Entered(b, o, n), Applied(rules, Entered(b, o, n), n, true).value);
  }

  lemma CancelledStays(rules: FeeRules, b: Books, id: OrderId)
    requires LimitsOk(b.limits) && id in b.limits && Cancelled(rules, b, id).Some?
    ensures StaysPaidUp(b, Cancelled(rules, b, id).value)
  {
    hide StaysPaidUp, CheckedBoth, CancelLimit;
    CancelLimitPays(b, id);
    SameStays(b, CancelLimit(b, id));
    BothStay(rules, CancelLimit(b, id), b.limits[id].price, true);
    StaysTransitive(b, CancelLimit(b, id), Cancelled(rules, b, id).value);
  }

  lemma AdjustStays(rules: FeeRules, b: Books, n: OrderId, u: Update, pricing: Runs.Pricing, b': Books)
    requires LimitsOk(b.limits) && Runs.SoundPricing(pricing) && PaidUp(b) && u.m != u.backing
    requires PricesCalls(Runs.PricingNow(b, u.m, u.backing, pricing), u.m, u.backing)
    requires Runs.DidAdjust(rules, b, n, u, Runs.PricingNow(b, u.m, u.backing, pricing), true, b')
    ensures StaysPaidUp(b, b')
  {
    hide StaysPaidUp, PaidUp, Runs.SoundPricing, PricesCalls, Updated, IsPosition, LimitsOk;
    var called := Runs.PricingNow(b, u.m, u.backing, pricing);
    var id :| IsPosition(b, u, id, n) && (MayUpdate(b, u) ==> InMarket(b, u, id))
              && Runs.Yields(Updated(rules, b, u, id, called), true, b');
    UpdatedStays(rules, b, u, id, called);
  }

  /** Whatever is done, positions in prediction markets stay paid up. */
  lemma OperationStays(rules: FeeRules, b: Books, n: OrderId, op: Runs.Operation, pricing: Runs.Pricing, b': Books)
    requires Runs.Usable(b) && Runs.SoundPricing(pricing) && PaidUp(b) && Runs.Did(rules, b, n, op, pricing, true, b')
    ensures StaysPaidUp(b, b')
  {
    hide StaysPaidUp, PaidUp, Runs.SoundPricing, PricesCalls, LimitsOk, FeedOk, PriceOf;
    hide Created, Cancelled, Runs.DidSettle, Runs.DidAdjust, Rebid, Published, Expired, Runs.DidMaintain;
    hide AfterTurns, GloballySettled;
    match op
    case Limit(seller, sell, receive, fee, fillOrKill) =>
      LimitStays(rules, b, LimitOrder(seller, sell.amount, Price(sell, receive), fee), n, fillOrKill);
    case CancelLimit(id) => CancelledStays(rules, b, id);
    case Settle(account, amount, due) => DidSettleStays(b, n, account, amount, due, b');
    case Adjust(u) =>
      Runs.PricingIsSound(pricing, u.m, u.backing, if u.m in b.bitassets then b.bitassets[u.m].feed else None);
      AdjustStays(rules, b, n, u, pricing, b');
    case Offer(bid) =>
      var own :| IsReplaced(b, bid, own) && Runs.Yields(Rebid(b, own, bid, n), true, b');
      RebidStays(b, own, bid, n);
    case Publish(m, feed, issuer) =>
      NoneBacksItself(b, m);
      Runs.PricingIsSound(pricing, m, b.bitassets[m].backing, feed);
      PublishedStays(rules, b, m, feed, issuer, pricing(m, b.bitassets[m].backing), n + 1);
    case SettleAll(m, price) => SettledStays(b, m, price);
    case EndBlock(now) =>
      var turns: nat :| ForceSettlement.Clears(rules, b, b', now, turns);
      TurnsStay(rules, b, now, turns);
    case Expire(m, feed) => ExpiredStays(rules, b, m, feed);
    case Maintain(m) => MaintainStays(b, n, m, pricing, b');
  }

  lemma NoneBacksItself(b: Books, m: AssetId)
    requires PaidUp(b) && m in b.bitassets
    ensures b.bitassets[m].backing != m
  {}

  /** So over every run all positions in prediction markets have as much collateral as debt. */
  lemma {:induction false} PaidUpForEver(
      rules: FeeRules, trace: seq<Runs.State>, ops: seq<Runs.Operation>, pricing: Runs.Pricing, i: nat)
    requires Runs.SoundPricing(pricing) && Runs.IsTrace(rules, trace, ops, pricing) && PaidUp(trace[0].books)
    requires i <= |ops|
    ensures PaidUp(trace[i].books)
  {
    hide PaidUp, Runs.Did, Runs.SoundPricing, Runs.Usable;
    if i > 0 {
      PaidUpForEver(rules, trace, ops, pricing, i - 1);
      var s, t := trace[i - 1], trace[i];
      assert Runs.StepsTo(rules, s, ops[i - 1], pricing, t);
      if Runs.Did(rules, s.books, s.nextId, ops[i - 1], pricing, true, t.books) {
        OperationStays(rules, s.books, s.nextId, ops[i - 1], pricing, t.books);
        StillPaidUp(s.books, t.books);
      }
    }
  }

  /** At a price of at most one such a position always pays the worth of its whole debt, never less. */
  lemma OutcomeIsPaid(c: CallOrder, p: Price)
    requires c.collateral == c.debt && c.DebtType() == p.base.id && p.base.id != p.quote.id
    requires p.quote.amount <= p.base.amount && ClosingPayment(c, p).Some?
    ensures RoundsDown(ClosingPayment(c, p).value, c.debt * p.quote.amount, p.base.amount)
  {
    ClosingPaymentIsTheWorth(c, p);
    MulMonotone(p.quote.amount, p.base.amount, c.debt);
    ConversionRounds(Asset(c.debt, p.base.id), p);
  }
}

/** Runs of the market: any sequence of operations, blocks and maintenances, failed ones undone. */
module MarketRuns {
  import opened Wrappers
  import opened Prices
  import opened Books
  import opened MarketRules
  import opened MarketSpecs
  import opened Markets
  import opened Positions
  import opened Bids
  import ForceSettlement
  import GlobalSettlement

  datatype Operation =
    | Limit(seller: AccountId, sell: Asset, receive: Asset, fee: nat, fillOrKill: bool)
    | CancelLimit(id: OrderId)
    | Settle(account: AccountId, amount: Asset, due: nat)
    | Adjust(update: Update)
    | Offer(bid: Bid)
    | Publish(m: AssetId, feed: Option<Feed>, issuer: AccountId)
    | SettleAll(m: AssetId, price: Price)
    | EndBlock(now: nat)
    | Expire(m: AssetId, feed: Option<Feed>)
    | Maintain(m: AssetId)

  /** The call prices of any debt asset and its backing asset, at any maintenance ratio. */
  type Pricing = (AssetId, AssetId) -> RatedPricing

  ghost predicate SoundPricing(pricing: Pricing) {
    forall m, backing, ratio | m != backing :: PricesCalls(pricing(m, backing)(ratio), m, backing)
  }

  /** Those at the maintenance ratio of the asset's current feed. */
  function PricingNow(b: Books, m: AssetId, backing: AssetId, pricing: Pricing): CallPricing {
    PricingOf(pricing(m, backing), if m in b.bitassets then b.bitassets[m].feed else None)
  }

  lemma PricingIsSound(pricing: Pricing, m: AssetId, backing: AssetId, feed: Option<Feed>)
    requires SoundPricing(pricing) && m != backing
    ensures PricesCalls(PricingOf(pricing(m, backing), feed), m, backing)
  {
    hide PricesCalls;
  }

  /** What a state between operations satisfies. */
  ghost predicate AtRest(k: Market)
    reads k
  {
    k.Valid() && RestingBook(k.books.limits) && Covered(k.books)
  }

  lemma StaysCovered(b: Books, b': Books)
    requires Covered(b) && SameGaps(b, b')
    ensures Covered(b')
  {}

  // ----- what each operation does -----------------------------------------------------------

  /** The books that an operation succeeds with, if it does. */
  predicate Yields(r: Option<Books>, ok: bool, b': Books) {
    if ok then r == Some(b') else r.None?
  }

  /** A settlement is refused, paid from the fund, or queued. */
  ghost predicate DidSettle(b: Books, n: OrderId, account: AccountId, amount: Asset, due: nat, ok: bool, b': Books) {
    && ok == CanSettle(b, account, amount)
    && (ok && b.bitassets[amount.id].settlement.Some? ==>
          exists paid :: PaidOut(b, account, amount, paid) && b' == Repaid(b, account, amount, paid.amount))
    && (ok && b.bitassets[amount.id].settlement.None? ==> b' == Scheduled(b, Settlement(account, amount, due), n))
  }

  ghost predicate DidAdjust(
      rules: FeeRules, b: Books, n: OrderId, u: Update, pricing: CallPricing, ok: bool, b': Books)
    requires LimitsOk(b.limits) && PricesCalls(pricing, u.m, u.backing)
  {
    exists id ::
      && IsPosition(b, u, id, n) && (MayUpdate(b, u) ==> InMarket(b, u, id))
      && Yields(Updated(rules, b, u, id, pricing), ok, b')
  }

  ghost predicate DidOffer(b: Books, n: OrderId, bid: Bid, ok: bool, b': Books) {
    exists own :: IsReplaced(b, bid, own) && Yields(Rebid(b, own, bid, n), ok, b')
  }

  ghost predicate DidEndBlock(rules: FeeRules, b: Books, now: nat, ok: bool, b': Books) {
    if ok then exists turns: nat :: ForceSettlement.Clears(rules, b, b', now, turns)
    else exists turns: nat :: ForceSettlement.AfterTurns(rules, b, now, turns).None?
  }

  ghost predicate DidMaintain(b: Books, n: OrderId, m: AssetId, pricing: Pricing, ok: bool, b': Books) {
    if m !in b.bitassets then !ok
    else
      var noted := ForceSettlement.Stored(b, m, 0);
      if b.bitassets[m].settlement.None? then ok && b' == noted
      else BidsTaken(noted, b', m, n, ok, PricingNow(b, m, b.bitassets[m].backing, pricing))
  }

  /** Books on which operations act: what is for sale has a price, and no supply is negative. */
  ghost predicate Usable(b: Books) {
    LimitsOk(b.limits) && forall m <- b.bitassets :: b.Supply(m) >= 0
  }

  /** Whether the operation succeeds on these books, with `n` as the next id, and the books after it. */
  ghost predicate Did(
      rules: FeeRules, b: Books, n: OrderId, op: Operation, pricing: Pricing, ok: bool, b': Books)
    requires Usable(b) && SoundPricing(pricing)
  {
    match op
    case Limit(seller, sell, receive, fee, fillOrKill) =>
      if sell.amount == 0 || receive.amount == 0 || sell.id == receive.id then !ok
      else
        Yields(Created(rules, b, LimitOrder(seller, sell.amount, Price(sell, receive), fee), n, fillOrKill), ok, b')
    case CancelLimit(id) => if id !in b.limits then !ok else Yields(Cancelled(rules, b, id), ok, b')
    case Settle(account, amount, due) => DidSettle(b, n, account, amount, due, ok, b')
    case Adjust(u) =>
      if u.m == u.backing then !ok
      else DidAdjust(rules, b, n, u, PricingNow(b, u.m, u.backing, pricing), ok, b')
    case Offer(bid) => DidOffer(b, n, bid, ok, b')
    case Publish(m, feed, issuer) =>
      if m !in b.bitassets || !FeedOk(m, b.bitassets[m].(feed := feed)) then !ok
      else Yields(Published(rules, b, m, feed, issuer, pricing(m, b.bitassets[m].backing), n + 1), ok, b')
    case SettleAll(m, price) =>
      if m in b.bitassets && !PriceOf(price, m, b.bitassets[m].backing) then !ok
      else Yields(GlobalSettlement.GlobalSettlementOf(b, m, price), ok, b')
    case EndBlock(now) => DidEndBlock(rules, b, now, ok, b')
    case Expire(m, feed) =>
      if m !in b.bitassets || !FeedOk(m, b.bitassets[m].(feed := feed)) then !ok
      else Yields(Expired(rules, b, m, feed), ok, b')
    case Maintain(m) => DidMaintain(b, n, m, pricing, ok, b')
  }

  lemma AtRestIsUsable(k: Market)
    requires AtRest(k)
    ensures Usable(k.books)
  {
    forall m | m in k.books.bitassets
      ensures k.books.Supply(m) >= 0
    {
      SupplyNonNegative(k.books, m);
    }
  }

  method Apply(k: Market, op: Operation, pricing: Pricing) returns (ok: bool)
    requires AtRest(k) && SoundPricing(pricing)
    modifies k
    ensures Usable(old(k.books)) && Did(k.feeRules, old(k.books), old(k.nextId), op, pricing, ok, k.books)
    ensures ok ==> k.Valid() && RestingBook(k.books.limits) && SameGaps(old(k.books), k.books)
  {
    hide Core, Gap, RestingBook, LimitsOk, SoundPricing, PricesCalls, PricingOf;
    hide Created, Cancelled, Updated, Rebid, Published, Expired, BidsTaken;
    AtRestIsUsable(k);
    match op
    case Limit(seller, sell, receive, fee, fillOrKill) =>
      if sell.amount == 0 || receive.amount == 0 || sell.id == receive.id {
        return false;
      }
      var id;
      ok, id := k.CreateLimitOrder(seller, sell, receive, fee, fillOrKill);
    case CancelLimit(id) =>
      if id !in k.books.limits {
        return false;
      }
      ok := k.CancelOrderOperation(id);
    case Settle(account, amount, due) =>
      var r := SettleAsset(k, account, amount, due);
      ok := !r.Refused?;
    case Adjust(u) =>
      if u.m == u.backing {
        return false;
      }
      PricingIsSound(pricing, u.m, u.backing, if u.m in k.books.bitassets then k.books.bitassets[u.m].feed else None);
      var id;
      ok, id := UpdateCall(k, u, PricingNow(k.books, u.m, u.backing, pricing));
    case Offer(bid) =>
      ghost var own;
      ok, own := BidCollateral(k, bid);
    case Publish(m, feed, issuer) =>
      if m !in k.books.bitassets || !FeedOk(m, k.books.bitassets[m].(feed := feed)) {
        return false;
      }
      BackingDiffers(k.books, m);
      PricingIsSound(pricing, m, k.books.bitassets[m].backing, feed);
      ok := PublishFeed(k, m, feed, issuer, pricing(m, k.books.bitassets[m].backing));
    case SettleAll(m, price) =>
      if m in k.books.bitassets && !PriceOf(price, m, k.books.bitassets[m].backing) {
        return false;
      }
      ok := GlobalSettlement.GlobalSettle(k, m, price);
    case EndBlock(now) => ok := ForceSettlement.ClearExpiredSettlements(k, now);
    case Expire(m, feed) =>
      if m !in k.books.bitassets || !FeedOk(m, k.books.bitassets[m].(feed := feed)) {
        return false;
      }
      ok := ExpireFeed(k, m, feed);
    case Maintain(m) =>
      if m !in k.books.bitassets {
        return false;
      }
      ok := MaintainBitasset(k, m, pricing);
  }

  /** A maintenance forgets the settled volume of the asset and looks at the bids for it. */
  method MaintainBitasset(k: Market, m: AssetId, pricing: Pricing) returns (ok: bool)
    requires k.Valid() && m in k.books.bitassets && SoundPricing(pricing)
    modifies k
    ensures ok ==> k.Valid() && SameGaps(old(k.books), k.books) && k.books.limits == old(k.books).limits
    ensures old(k.books).bitassets[m].settlement.None? ==> ok && k.books == ForceSettlement.Stored(old(k.books), m, 0)
    ensures old(k.books).bitassets[m].settlement.Some? ==>
              BidsTaken(ForceSettlement.Stored(old(k.books), m, 0), k.books, m, old(k.nextId), ok,
                PricingNow(old(k.books), m, old(k.books).bitassets[m].backing, pricing))
  {
    hide Core, Gap, SoundPricing, RevivedBy, Maintains, PricingOf, PricesCalls;
    ghost var start := k.books;
    ForceSettlement.StoredKeeps(k.books, m, 0);
    k.books := ForceSettlement.Stored(k.books, m, 0);
    if k.books.bitassets[m].settlement.None? {
      return true;
    }
    ghost var before := k.books;
    BackingDiffers(k.books, m);
    PricingIsSound(pricing, m, k.books.bitassets[m].backing, k.books.bitassets[m].feed);
    var callPricing := PricingNow(k.books, m, k.books.bitassets[m].backing, pricing);
    var outcome := ProcessBids(k, m, callPricing);
    ok := !outcome.Threw?;
    if ok {
      GapsTransitive(start, before, k.books);
    }
    assert BidsDecide(before, k.books, m, old(k.nextId), outcome, callPricing);
  }

  /** The maintenance fails exactly when the bids make it throw; otherwise they revive the asset or nothing happens. */
  ghost predicate BidsTaken(b: Books, b': Books, m: AssetId, first: OrderId, ok: bool, pricing: CallPricing) {
    && m in b.bitassets && b.bitassets[m].settlement.Some?
    && exists outcome: Outcome :: ok == !outcome.Threw? && BidsDecide(b, b', m, first, outcome, pricing)
  }

  ghost predicate BidsDecide(b: Books, b': Books, m: AssetId, first: OrderId, outcome: Outcome, pricing: CallPricing)
    requires m in b.bitassets && b.bitassets[m].settlement.Some?
  {
    && Maintains(b, m, pricing, outcome)
    && match outcome
       case Threw => true
       case NotCovered => b' == b
       case Revived(chosen) => RevivedBy(b, b', m, first, chosen, pricing)
  }

  lemma BackingDiffers(b: Books, m: AssetId)
    requires Core(b) && m in b.bitassets
    ensures b.bitassets[m].backing != m
  {
    assert BitassetOk(b, m);
  }

  /** The books between operations, with the id that comes next. */
  datatype State = State(books: Books, nextId: OrderId)

  /** The operation succeeds and leads from one state to the next, or it fails and is undone. */
  ghost predicate StepsTo(rules: FeeRules, s: State, op: Operation, pricing: Pricing, t: State)
    requires SoundPricing(pricing)
  {
    && Usable(s.books)
    && (Did(rules, s.books, s.nextId, op, pricing, true, t.books)
        || (t == s && exists b' :: Did(rules, s.books, s.nextId, op, pricing, false, b')))
  }

  ghost predicate IsTrace(rules: FeeRules, trace: seq<State>, ops: seq<Operation>, pricing: Pricing)
    requires SoundPricing(pricing)
  {
    && |trace| == |ops| + 1
    && forall i :: 0 <= i < |ops| ==> StepsTo(rules, trace[i], ops[i], pricing, trace[i + 1])
  }

  lemma LongerTrace(rules: FeeRules, trace: seq<State>, ops: seq<Operation>, pricing: Pricing, op: Operation, t: State)
    requires SoundPricing(pricing) && IsTrace(rules, trace, ops, pricing)
    requires StepsTo(rules, trace[|ops|], op, pricing, t)
    ensures IsTrace(rules, trace + [t], ops + [op], pricing)
  {
    hide StepsTo, SoundPricing;
  }

  /**
    Whatever is done in whatever order, and whatever fails and is undone: the book is never
    crossed at rest, debt equals supply, funds stay solvent, and every asset's holdings differ
    from its supply by the same amount as at the start. The trace holds the books in between.
   */
  method Run(k: Market, ops: seq<Operation>, pricing: Pricing) returns (ghost trace: seq<State>)
    requires AtRest(k) && SoundPricing(pricing)
    modifies k
    ensures AtRest(k) && SameGaps(old(k.books), k.books)
    ensures IsTrace(k.feeRules, trace, ops, pricing)
    ensures trace[0] == State(old(k.books), old(k.nextId)) && trace[|ops|] == State(k.books, k.nextId)
  {
    hide Core, Gap, RestingBook, LimitsOk, SoundPricing, Covered, Did, IsTrace, Usable;
    trace := [State(k.books, k.nextId)];
    NoOps(k.feeRules, trace, pricing);
    for i := 0 to |ops|
      invariant AtRest(k) && SameGaps(old(k.books), k.books)
      invariant |trace| == i + 1 && IsTrace(k.feeRules, trace, ops[..i], pricing)
      invariant trace[0] == State(old(k.books), old(k.nextId)) && trace[i] == State(k.books, k.nextId)
    {
      var books, nextId := k.books, k.nextId;
      var ok := Apply(k, ops[i], pricing);
      if ok {
        StaysCovered(books, k.books);
        GapsTransitive(old(k.books), books, k.books);
      } else {
        k.books, k.nextId := books, nextId;
      }
      LongerTrace(k.feeRules, trace, ops[..i], pricing, ops[i], State(k.books, k.nextId));
      assert ops[..i + 1] == ops[..i] + [ops[i]];
      trace := trace + [State(k.books, k.nextId)];
    }
    assert ops[..|ops|] == ops;
  }

  lemma NoOps(rules: FeeRules, trace: seq<State>, pricing: Pricing)
    requires SoundPricing(pricing) && |trace| == 1
    ensures IsTrace(rules, trace, [], pricing)
  {}
}

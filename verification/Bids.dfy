/**
  Bids of collateral for a globally settled asset, and its revival: the best bids take over
  the supply as their debt and share the settlement fund.
 */
module Bids {
  import opened Commons
  import opened Wrappers
  import opened Prices
  import opened Books
  import opened MarketRules
  import opened MarketSpecs
  import opened Markets
  import opened Payments
  import opened Positions
  import opened Refunds

  // ----- sharing the fund out ---------------------------------------------------------------

  /** What an executed bid takes over. */
  datatype Share = Share(debt: int, collateral: int)

  /** The part of the fund that an amount of the settled asset stands for. */
  function Part(p: Price, amount: nat): nat
    requires p.base.amount > 0
  {
    amount * p.quote.amount / p.base.amount
  }

  function Parts(p: Price, amounts: seq<nat>): nat
    requires p.base.amount > 0
  {
    if amounts == [] then 0 else Parts(p, amounts[..|amounts| - 1]) + Part(p, amounts[|amounts| - 1])
  }

  /** All amounts cover the supply, and all but the last do not. */
  ghost predicate JustCovers(amounts: seq<nat>, supply: int) {
    && Total(amounts) >= supply
    && (amounts != [] ==> Total(amounts[..|amounts| - 1]) < supply)
  }

  /** Every bid gets what it covers at the settlement price, the last one all that is left. */
  function ShareOf(p: Price, amounts: seq<nat>, supply: nat, fund: nat, i: nat): Share
    requires p.base.amount > 0 && i < |amounts|
  {
    if i < |amounts| - 1 then Share(amounts[i], Part(p, amounts[i]))
    else Share(supply - Total(amounts[..i]), fund - Parts(p, amounts[..i]))
  }

  ghost function TotalDebt(p: Price, amounts: seq<nat>, supply: nat, fund: nat, n: nat): int
    requires p.base.amount > 0 && n <= |amounts|
  {
    if n == 0 then 0 else TotalDebt(p, amounts, supply, fund, n - 1) + ShareOf(p, amounts, supply, fund, n - 1).debt
  }

  ghost function TotalCollateral(p: Price, amounts: seq<nat>, supply: nat, fund: nat, n: nat): int
    requires p.base.amount > 0 && n <= |amounts|
  {
    if n == 0 then 0
    else TotalCollateral(p, amounts, supply, fund, n - 1) + ShareOf(p, amounts, supply, fund, n - 1).collateral
  }

  /** The parts of amounts that stay within the supply stay within the fund. */
  lemma {:induction false} PartsWithinFund(p: Price, amounts: seq<nat>)
    requires p.base.amount > 0
    ensures Parts(p, amounts) * p.base.amount <= Total(amounts) * p.quote.amount
  {
    if amounts != [] {
      var n := |amounts| - 1;
      PartsWithinFund(p, amounts[..n]);
      FloorBounds(amounts[n] * p.quote.amount, p.base.amount);
      Distribute(Parts(p, amounts[..n]), Part(p, amounts[n]), p.base.amount);
      Distribute(Total(amounts[..n]), amounts[n], p.quote.amount);
    }
  }

  lemma Distribute(x: nat, y: nat, z: nat)
    ensures (x + y) * z == x * z + y * z
  {}

  lemma {:induction false} PrefixTotals(amounts: seq<nat>, n: nat, k: nat)
    requires k <= n <= |amounts|
    ensures Total(amounts[..k]) <= Total(amounts[..n])
    decreases n
  {
    if k < n {
      PrefixTotals(amounts, n - 1, k);
      assert amounts[..n][..n - 1] == amounts[..n - 1];
    }
  }

  lemma {:induction false} SharesBeforeLast(p: Price, amounts: seq<nat>, supply: nat, fund: nat, n: nat)
    requires p.base.amount > 0 && n < |amounts|
    ensures TotalDebt(p, amounts, supply, fund, n) == Total(amounts[..n])
    ensures TotalCollateral(p, amounts, supply, fund, n) == Parts(p, amounts[..n])
  {
    if n > 0 {
      SharesBeforeLast(p, amounts, supply, fund, n - 1);
      assert amounts[..n][..n - 1] == amounts[..n - 1];
    }
  }

  /** The collateral is the debt's worth at the settlement price, rounded down, or more. */
  predicate IsWorthItsDebt(p: Price, share: Share) {
    share.debt * p.quote.amount < (share.collateral + 1) * p.base.amount
  }

  predicate IsAtPrice(p: Price, share: Share) {
    RoundsDown(share.collateral, share.debt * p.quote.amount, p.base.amount)
  }

  lemma PartIsAtPrice(p: Price, amount: nat, collateral: int)
    requires p.base.amount > 0
    ensures IsAtPrice(p, Share(amount, Part(p, amount)))
    ensures collateral >= Part(p, amount) ==> IsWorthItsDebt(p, Share(amount, collateral))
  {
    FloorBounds(amount * p.quote.amount, p.base.amount);
    if collateral >= Part(p, amount) {
      MulMonotone(Part(p, amount) + 1, collateral + 1, p.base.amount);
    }
  }

  /**
    Whenever the chosen bids just cover the supply and the fund is solvent, the shares are
    exact: the debts add up to the supply and the collateral to the fund, only the last bid is
    cut, and each share is worth at least what the settlement price gives for its debt.
   */
  lemma AllocationIsExact(p: Price, amounts: seq<nat>, supply: nat, fund: nat)
    requires p.base.amount > 0 && fund * p.base.amount >= supply * p.quote.amount
    requires amounts != [] && JustCovers(amounts, supply) && forall i :: 0 <= i < |amounts| ==> amounts[i] > 0
    ensures TotalDebt(p, amounts, supply, fund, |amounts|) == supply
    ensures TotalCollateral(p, amounts, supply, fund, |amounts|) == fund
    ensures forall i :: 0 <= i < |amounts| ==> 0 < ShareOf(p, amounts, supply, fund, i).debt <= amounts[i]
    ensures forall i :: 0 <= i < |amounts| - 1 ==> ShareOf(p, amounts, supply, fund, i).debt == amounts[i]
    ensures forall i :: 0 <= i < |amounts| ==> IsWorthItsDebt(p, ShareOf(p, amounts, supply, fund, i))
    ensures forall i :: 0 <= i < |amounts| - 1 ==> IsAtPrice(p, ShareOf(p, amounts, supply, fund, i))
  {
    var n := |amounts| - 1;
    SharesBeforeLast(p, amounts, supply, fund, n);
    LastShareIsWorthIt(p, amounts[..n], supply, fund);
    forall i | 0 <= i <= n
      ensures IsWorthItsDebt(p, ShareOf(p, amounts, supply, fund, i))
      ensures i < n ==> IsAtPrice(p, ShareOf(p, amounts, supply, fund, i))
    {
      var share := ShareOf(p, amounts, supply, fund, i);
      PartIsAtPrice(p, share.debt, share.collateral);
    }
  }

  lemma LastShareIsWorthIt(p: Price, before: seq<nat>, supply: nat, fund: nat)
    requires p.base.amount > 0 && fund * p.base.amount >= supply * p.quote.amount && Total(before) < supply
    ensures fund - Parts(p, before) >= Part(p, supply - Total(before))
  {
    var rest: nat := supply - Total(before);
    PartsWithinFund(p, before);
    FloorBounds(rest * p.quote.amount, p.base.amount);
    Distribute(Total(before), rest, p.quote.amount);
    Distribute(Parts(p, before), Part(p, rest), p.base.amount);
    Cancel(Parts(p, before) + Part(p, rest), fund, p.base.amount);
  }

  // ----- the books while an asset is revived ------------------------------------------------

  /** The bid becomes a call order with its own collateral and its share of the fund. */
  function Executed(b: Books, id: OrderId, call: OrderId, debt: nat, collateral: nat, callPrice: Price): Books
    requires id in b.bids
  {
    var bid := b.bids[id];
    var c := CallOrder(bid.bidder, bid.invSwanPrice.base.amount + collateral, debt, callPrice);
    b.(calls := b.calls[call := c], bids := b.bids - {id})
  }

  lemma ExecutedMoves(b: Books, id: OrderId, call: OrderId, debt: nat, collateral: nat, callPrice: Price)
    requires id in b.bids && call !in b.calls && callPrice.base.id == b.bids[id].invSwanPrice.base.id
    ensures Moves(b, Executed(b, id, call, debt, collateral, callPrice), callPrice.base.id, collateral)
    ensures forall a :: Debt(Executed(b, id, call, debt, collateral, callPrice), a) ==
                        Debt(b, a) + (if a == callPrice.quote.id then debt else 0)
  {
    hide Gap, Debt;
    var bid := b.bids[id];
    var c := CallOrder(bid.bidder, bid.invSwanPrice.base.amount + collateral, debt, callPrice);
    var b1 := b.(bids := b.bids - {id});
    DropBid(b, id);
    SameCallsSameDebt(b, b1);
    PutCall(b1, call, c);
    assert Executed(b, id, call, debt, collateral, callPrice) == b1.(calls := b1.calls[call := c]);
  }

  lemma SameCallsSameDebt(b: Books, b': Books)
    requires b'.calls == b.calls
    ensures forall a :: Debt(b', a) == Debt(b, a)
  {}

  /** A call order that is sound, or will be as soon as asset `m` is no longer settled. */
  ghost predicate RevivedCallOk(b: Books, id: OrderId, m: AssetId) {
    id in b.calls ==>
      var c := b.calls[id];
      && c.debt > 0 && c.callPrice.Positive()
      && c.DebtType() in b.bitassets
      && var x := b.bitassets[c.DebtType()];
      && c.CollateralType() == x.backing && (x.settlement.None? || c.DebtType() == m)
  }

  /** How far the revival of `m` has come since the books were `b`. */
  ghost predicate Reviving(b: Books, b': Books, m: AssetId, toCover: int, remaining: int) {
    && m in b.bitassets && b.bitassets[m].settlement.Some?
    && b'.bitassets == b.bitassets && b'.supply == b.supply
    && b'.settlements == b.settlements && b'.limits == b.limits
    && Moves(b, b', b.bitassets[m].backing, b.bitassets[m].fund - remaining)
    && (forall a :: Debt(b', a) == Debt(b, a) + (if a == m then b.Supply(m) - toCover else 0))
    && (forall id :: RevivedCallOk(b', id, m))
    && (forall id :: BidOk(b', id))
  }

  lemma RevivingStarts(b: Books, m: AssetId)
    requires Core(b) && m in b.bitassets && b.bitassets[m].settlement.Some?
    ensures Reviving(b, b, m, b.Supply(m), b.bitassets[m].fund)
  {
    hide Gap, Debt;
    forall id
      ensures RevivedCallOk(b, id, m)
    {
      assert CallOk(b, id);
    }
  }

  lemma RevivingGoesOn(b: Books, b1: Books, m: AssetId, toCover: int, remaining: int,
                       id: OrderId, call: OrderId, debt: nat, collateral: nat, callPrice: Price)
    requires Reviving(b, b1, m, toCover, remaining)
    requires id in b1.bids && b1.bids[id].invSwanPrice.quote.id == m && call !in b1.calls
    requires debt > 0 && callPrice.Positive() && PriceOf(callPrice.Inverse(), m, b.bitassets[m].backing)
    ensures Reviving(b, Executed(b1, id, call, debt, collateral, callPrice), m, toCover - debt, remaining - collateral)
  {
    hide Gap, Debt;
    assert BidOk(b1, id);
    ExecutedMoves(b1, id, call, debt, collateral, callPrice);
    var b2 := Executed(b1, id, call, debt, collateral, callPrice);
    forall i
      ensures RevivedCallOk(b2, i, m) && BidOk(b2, i)
    {
      assert RevivedCallOk(b1, i, m) && BidOk(b1, i);
    }
    MovesCompose(b, b1, b2, b.bitassets[m].backing, b.bitassets[m].fund - remaining, collateral);
  }

  lemma MovesCompose(b: Books, b1: Books, b2: Books, id: AssetId, x: int, y: int)
    requires Moves(b, b1, id, x) && Moves(b1, b2, id, y)
    ensures Moves(b, b2, id, x + y)
  {}

  lemma RevivingCancels(b: Books, b1: Books, m: AssetId, toCover: int, remaining: int, id: OrderId)
    requires Reviving(b, b1, m, toCover, remaining) && id in b1.bids
    ensures Reviving(b, CancelBid(b1, id), m, toCover, remaining)
  {
    hide Gap, Debt;
    CancelBidKeepsGaps(b1, id);
    var b2 := CancelBid(b1, id);
    SameCallsSameDebt(b1, b2);
    forall i
      ensures RevivedCallOk(b2, i, m) && BidOk(b2, i)
    {
      assert RevivedCallOk(b1, i, m) && BidOk(b1, i);
    }
    MovesCompose(b, b1, b2, b.bitassets[m].backing, b.bitassets[m].fund - remaining, 0);
  }

  /** The asset is no longer settled, and its fund is empty. */
  function Unsettling(b: Books, m: AssetId): Books
    requires m in b.bitassets
  {
    b.(bitassets := b.bitassets[m := b.bitassets[m].(settlement := None, fund := 0)])
  }

  /** Once all is covered and handed out, and no bid is left, the asset is sound again. */
  lemma RevivingEnds(b: Books, b1: Books, m: AssetId)
    requires Core(b) && Reviving(b, b1, m, 0, 0)
    requires forall id <- b1.bids :: b1.bids[id].invSwanPrice.quote.id != m
    ensures Core(Unsettling(b1, m)) && SameGaps(b, Unsettling(b1, m))
  {
    hide Gap, Debt;
    UnsettlingKeepsGaps(b, b1, m);
    UnsettlingKeepsCore(b, b1, m);
  }

  lemma UnsettlingKeepsGaps(b: Books, b1: Books, m: AssetId)
    requires Reviving(b, b1, m, 0, 0)
    ensures SameGaps(b, Unsettling(b1, m))
  {
    hide Gap, Debt;
    var x := b1.bitassets[m];
    PutBitasset(b1, m, x.(settlement := None, fund := 0));
    forall a
      ensures Gap(Unsettling(b1, m), a) == Gap(b, a)
    {
      assert Gap(b1, a) == Gap(b, a) + (if a == x.backing then x.fund else 0);
    }
  }

  lemma UnsettlingKeepsCore(b: Books, b1: Books, m: AssetId)
    requires Core(b) && Reviving(b, b1, m, 0, 0)
    requires forall id <- b1.bids :: b1.bids[id].invSwanPrice.quote.id != m
    ensures Core(Unsettling(b1, m))
  {
    hide Gap, Debt;
    var b2 := Unsettling(b1, m);
    SameCallsSameDebt(b1, b2);
    SettledHasNoDebt(b, m);
    forall n
      ensures BitassetOk(b2, n)
    {
      assert BitassetOk(b, n);
    }
    forall i
      ensures CallOk(b2, i) && SettlementOk(b2, i) && BidOk(b2, i)
    {
      assert RevivedCallOk(b1, i, m) && SettlementOk(b, i) && BidOk(b1, i);
    }
  }

  lemma SettledHasNoDebt(b: Books, m: AssetId)
    requires Core(b) && m in b.bitassets && b.bitassets[m].settlement.Some?
    ensures Debt(b, m) == 0
  {
    forall i | i in b.calls
      ensures b.calls[i].DebtType() != m
    {
      assert CallOk(b, i);
    }
    NoCallsNoDebt(b, m);
  }

  // ----- placing a bid ----------------------------------------------------------------------

  method CancelBidOf(k: Market, id: OrderId)
    requires id in k.books.bids
    modifies k`books
    ensures k.books == CancelBid(old(k.books), id)
  {
    var bid := k.books.bids[id];
    var paid := k.AdjustBalance(bid.bidder, bid.invSwanPrice.base.id, bid.invSwanPrice.base.amount);
    k.books := k.books.(bids := k.books.bids - {id});
  }

  lemma CancelBidKeeps(b: Books, id: OrderId)
    requires Core(b) && id in b.bids
    ensures Core(CancelBid(b, id)) && SameGaps(b, CancelBid(b, id))
  {
    hide Gap, Debt;
    CancelBidKeepsGaps(b, id);
    var b' := CancelBid(b, id);
    SameCallsSameDebt(b, b');
    forall n
      ensures BitassetOk(b', n)
    {
      assert BitassetOk(b, n);
    }
    forall i
      ensures CallOk(b', i) && SettlementOk(b', i) && BidOk(b', i)
    {
      assert CallOk(b, i) && SettlementOk(b, i) && BidOk(b, i);
    }
  }

  function Placed(b: Books, id: OrderId, bid: Bid): Books
    requires bid.invSwanPrice.base.amount <= b.Balance(bid.bidder, bid.invSwanPrice.base.id)
  {
    var base := bid.invSwanPrice.base;
    Credit(b, bid.bidder, base.id, 0 - base.amount).(bids := b.bids[id := bid])
  }

  lemma PlacedKeeps(b: Books, id: OrderId, bid: Bid)
    requires Core(b) && id !in b.bids && bid.invSwanPrice.base.amount <= b.Balance(bid.bidder, bid.invSwanPrice.base.id)
    requires bid.invSwanPrice.quote.id in b.bitassets && bid.invSwanPrice.quote.amount > 0
    requires bid.invSwanPrice.base.amount > 0
    requires var x := b.bitassets[bid.invSwanPrice.quote.id];
      x.settlement.Some? && x.backing == bid.invSwanPrice.base.id
    ensures Core(Placed(b, id, bid)) && SameGaps(b, Placed(b, id, bid))
  {
    hide Gap, Debt;
    var base := bid.invSwanPrice.base;
    var b1 := Credit(b, bid.bidder, base.id, 0 - base.amount);
    CreditShifts(b, bid.bidder, base.id, 0 - base.amount);
    PutBid(b1, id, bid);
    var b' := Placed(b, id, bid);
    assert b' == b1.(bids := b1.bids[id := bid]);
    SameCallsSameDebt(b, b');
    forall n
      ensures BitassetOk(b', n)
    {
      assert BitassetOk(b, n);
    }
    forall i
      ensures CallOk(b', i) && SettlementOk(b', i) && BidOk(b', i)
    {
      assert CallOk(b, i) && SettlementOk(b, i) && BidOk(b, i);
    }
  }

  predicate IsOwnBid(b: Books, bid: Bid, id: OrderId) {
    && id in b.bids && b.bids[id].bidder == bid.bidder
    && b.bids[id].invSwanPrice.quote.id == bid.invSwanPrice.quote.id
  }

  /** The bid that a new one replaces, if there is one. */
  ghost predicate IsReplaced(b: Books, bid: Bid, own: Option<OrderId>) {
    if own.Some? then IsOwnBid(b, bid, own.value) else forall i :: !IsOwnBid(b, bid, i)
  }

  method OwnBid(k: Market, bid: Bid) returns (own: Option<OrderId>)
    ensures IsReplaced(k.books, bid, own)
  {
    var all := set i | i in k.books.bids && IsOwnBid(k.books, bid, i);
    if all == {} {
      forall i
        ensures !IsOwnBid(k.books, bid, i)
      {
        assert i !in all;
      }
      return None;
    }
    var i :| i in all;
    return Some(i);
  }

  /** A bid is for a settled asset, in its backing asset, of a balance that covers it, and never for nothing. */
  predicate MayBid(b: Books, bid: Bid) {
    var base, quote := bid.invSwanPrice.base, bid.invSwanPrice.quote;
    && quote.id in b.bitassets
    && var x := b.bitassets[quote.id];
    && x.settlement.Some? && base.id == x.backing && !x.isPredictionMarket
    && base.amount <= b.Balance(bid.bidder, base.id) && (quote.amount > 0 ==> base.amount > 0)
  }

  /**
    Replaces the bidder's bid, or only cancels it if nothing is to be covered. The balance must
    cover the new bid before the old one is paid back.
   */
  method BidCollateral(k: Market, bid: Bid) returns (ok: bool, ghost own: Option<OrderId>)
    requires k.Valid()
    modifies k
    ensures IsReplaced(old(k.books), bid, own)
    ensures Rebid(old(k.books), own, bid, old(k.nextId)) == if ok then Some(k.books) else None
    ensures ok ==> k.Valid() && SameGaps(old(k.books), k.books) && k.books.limits == old(k.books).limits
    ensures ok && own.Some? ==> own.value !in k.books.bids
    ensures !ok ==> k.books == old(k.books)
  {
    hide Core, Gap;
    var replaced := OwnBid(k, bid);
    own := replaced;
    if !MayBid(k.books, bid) || (replaced.None? && bid.invSwanPrice.quote.amount == 0) {
      return false, own;
    }
    if replaced.Some? {
      CancelBidKeeps(k.books, replaced.value);
      StillMayBid(k.books, replaced.value, bid);
      CancelBidOf(k, replaced.value);
    }
    if bid.invSwanPrice.quote.amount > 0 {
      ghost var before := k.books;
      PlacedKeeps(k.books, k.nextId, bid);
      var taken := k.AdjustBalance(bid.bidder, bid.invSwanPrice.base.id, 0 - bid.invSwanPrice.base.amount);
      k.books := k.books.(bids := k.books.bids[k.nextId := bid]);
      if replaced.Some? {
        GapsTransitive(old(k.books), before, k.books);
      }
      k.nextId := k.nextId + 1;
    }
    return true, own;
  }

  /** The old bid is paid back, and the new one takes its place unless it covers nothing. */
  function Rebid(b: Books, own: Option<OrderId>, bid: Bid, id: OrderId): Option<Books>
    requires own.Some? ==> own.value in b.bids
  {
    if !MayBid(b, bid) || (own.None? && bid.invSwanPrice.quote.amount == 0) then None
    else
      var b1 := if own.Some? then CancelBid(b, own.value) else b;
      Some(if bid.invSwanPrice.quote.amount > 0 then Placed(b1, id, bid) else b1)
  }

  /** The bidder gets its old bid back and pays for the new one; nobody else's balance changes. */
  lemma RebidPays(b: Books, own: Option<OrderId>, bid: Bid, id: OrderId)
    requires own.Some? ==> own.value in b.bids
    requires Rebid(b, own, bid, id).Some?
    ensures var was, base := if own.Some? then b.bids[own.value] else bid, bid.invSwanPrice.base;
      var back: nat := if own.Some? then was.invSwanPrice.base.amount else 0;
      var pays: nat := if bid.invSwanPrice.quote.amount > 0 then base.amount else 0;
      forall x, a :: Rebid(b, own, bid, id).value.Balance(x, a) ==
        b.Balance(x, a) + At(x, a, was.bidder, was.invSwanPrice.base.id, back) - At(x, a, bid.bidder, base.id, pays)
  {
    if own.Some? {
      CancelBidPays(b, own.value);
      StillMayBid(b, own.value, bid);
    }
    var b1 := if own.Some? then CancelBid(b, own.value) else b;
    if bid.invSwanPrice.quote.amount > 0 {
      CreditPays(b1, bid.bidder, bid.invSwanPrice.base.id, 0 - bid.invSwanPrice.base.amount);
    }
  }

  /** Paying back a bid does not lower a balance. */
  lemma StillMayBid(b: Books, id: OrderId, bid: Bid)
    requires id in b.bids && MayBid(b, bid)
    ensures MayBid(CancelBid(b, id), bid)
  {}

  // ----- choosing the bids ------------------------------------------------------------------

  /** The amounts that the bids would cover. */
  function Amounts(bids: map<OrderId, Bid>, chosen: seq<OrderId>): (r: seq<nat>)
    requires forall id <- chosen :: id in bids
    ensures |r| == |chosen|
  {
    seq(|chosen|, i requires 0 <= i < |chosen| => bids[chosen[i]].invSwanPrice.quote.amount)
  }

  /** The collateral that executing the bid would give its position, where that can be computed. */
  function BackedBy(b: Books, id: OrderId, p: Price): Option<nat>
    requires id in b.bids
  {
    var part := Times(b.bids[id].invSwanPrice.quote, p);
    if part.None? || part.value.amount + b.bids[id].invSwanPrice.base.amount == 0 then None
    else Some(part.value.amount + b.bids[id].invSwanPrice.base.amount)
  }

  /**
    It is the bid's own collateral and its debt's worth at the settlement price, rounded down. As
    every bid brings collateral, only an overflow of that worth keeps it from being computed.
   */
  lemma UnbackedOverflows(b: Books, m: AssetId, id: OrderId)
    requires Core(b) && m in b.bitassets && b.bitassets[m].settlement.Some? && id in BidsFor(b, m)
    ensures var p, bid := b.bitassets[m].settlement.value, b.bids[id].invSwanPrice;
      var backed := BackedBy(b, id, p);
      && (backed.None? <==> bid.quote.amount * p.quote.amount >= (MAX_SHARE_SUPPLY + 1) * p.base.amount)
      && (backed.Some? ==>
            RoundsDown(backed.value - bid.base.amount, bid.quote.amount * p.quote.amount, p.base.amount))
  {
    hide Gap, Debt;
    assert BitassetOk(b, m) && BidOk(b, id);
    ConversionRounds(b.bids[id].invSwanPrice.quote, b.bitassets[m].settlement.value);
  }

  /** The position would be called at the feed's price right away. */
  predicate TooThin(b: Books, id: OrderId, p: Price, feed: Price, pricing: CallPricing)
    requires id in b.bids && BackedBy(b, id, p).Some?
  {
    !Less(pricing(b.bids[id].invSwanPrice.quote.amount, BackedBy(b, id, p).value).Inverse(), feed)
  }

  /** At the feed's price the debt of the position's call price would be worth its collateral or more. */
  lemma TooThinMeans(b: Books, id: OrderId, p: Price, feed: Price, pricing: CallPricing)
    requires id in b.bids && BackedBy(b, id, p).Some?
    requires SameMarket(pricing(b.bids[id].invSwanPrice.quote.amount, BackedBy(b, id, p).value).Inverse(), feed)
    ensures var call := pricing(b.bids[id].invSwanPrice.quote.amount, BackedBy(b, id, p).value);
      TooThin(b, id, p, feed, pricing) <==>
      call.base.amount * feed.base.amount <= call.quote.amount * feed.quote.amount
  {}

  /** The bids that were chosen come first in the index, and none of them is too thin. */
  ghost predicate BestBids(b: Books, m: AssetId, p: Price, feed: Price, pricing: CallPricing, chosen: seq<OrderId>) {
    && (forall i :: 0 <= i < |chosen| ==> chosen[i] in BidsFor(b, m))
    && (forall i, j :: 0 <= i < j < |chosen| ==> chosen[i] != chosen[j])
    && (forall i :: 0 <= i < |chosen| ==> BackedBy(b, chosen[i], p).Some? && !TooThin(b, chosen[i], p, feed, pricing))
    && (forall i :: 0 <= i < |chosen| ==> Leads(b, m, chosen[i], chosen[..i + 1]))
  }

  /** The bid is ahead of all others that were not taken. */
  ghost predicate Leads(b: Books, m: AssetId, id: OrderId, taken: seq<OrderId>)
    requires id in b.bids
  {
    forall j <- BidsFor(b, m) :: j !in taken ==> Ahead(b.bids[id].invSwanPrice, id, b.bids[j].invSwanPrice, j)
  }

  datatype Choice = ChoiceThrew | TooFew | Chosen(bids: seq<OrderId>)

  /** No bid is left after these, or the next one is too thin. */
  ghost predicate Exhausted(b: Books, m: AssetId, p: Price, feed: Price, pricing: CallPricing, tried: seq<OrderId>) {
    || (forall id <- BidsFor(b, m) :: id in tried)
    || (exists next <- BidsFor(b, m) :: next !in tried && NextIsThin(b, m, p, feed, pricing, tried, next))
  }

  /** Of the bids that were not tried, this one comes first in the index. */
  ghost predicate IsNext(b: Books, m: AssetId, tried: seq<OrderId>, next: OrderId) {
    && next in BidsFor(b, m) && next !in tried
    && forall i <- BidsFor(b, m) :: i !in tried && i != next ==>
         Ahead(b.bids[next].invSwanPrice, next, b.bids[i].invSwanPrice, i)
  }

  ghost predicate NextIsThin(
      b: Books, m: AssetId, p: Price, feed: Price, pricing: CallPricing, tried: seq<OrderId>, next: OrderId) {
    IsNext(b, m, tried, next) && BackedBy(b, next, p).Some? && TooThin(b, next, p, feed, pricing)
  }

  /** Its conversion overflows, or it would have no collateral at all and so no call price. */
  ghost predicate NextIsUnbacked(b: Books, m: AssetId, p: Price, tried: seq<OrderId>, next: OrderId) {
    IsNext(b, m, tried, next) && BackedBy(b, next, p).None?
  }

  /**
    What comes of the bids when `tried` were taken: they just cover the supply; they run out or
    get too thin first; or before they cover it comes one whose call price cannot be computed.
   */
  ghost predicate Chooses(
      b: Books, m: AssetId, p: Price, feed: Price, pricing: CallPricing, choice: Choice, tried: seq<OrderId>) {
    && BestBids(b, m, p, feed, pricing, tried)
    && match choice
       case Chosen(bids) => bids == tried && JustCovers(Amounts(b.bids, tried), b.Supply(m))
       case TooFew => FallsShort(b, m, tried) && Exhausted(b, m, p, feed, pricing, tried)
       case ChoiceThrew => FallsShort(b, m, tried) && exists next :: NextIsUnbacked(b, m, p, tried, next)
  }

  ghost predicate FallsShort(b: Books, m: AssetId, tried: seq<OrderId>)
    requires forall id <- tried :: id in b.bids
  {
    Total(Amounts(b.bids, tried)) < b.Supply(m)
  }

  lemma NextOfMore(b: Books, m: AssetId, p: Price, feed: Price, pricing: CallPricing, more: seq<OrderId>, n: nat)
    requires BestBids(b, m, p, feed, pricing, more) && n < |more|
    ensures IsNext(b, m, more[..n], more[n])
    ensures BackedBy(b, more[n], p).Some? && !TooThin(b, more[n], p, feed, pricing)
  {
    hide TooThin, BackedBy, Ahead;
    var next, taken := more[n], more[..n];
    assert Leads(b, m, next, more[..n + 1]);
    assert more[..n + 1] == taken + [next];
    assert next !in taken;
  }

  lemma OneIsNext(b: Books, m: AssetId, tried: seq<OrderId>, next: OrderId)
    requires IsNext(b, m, tried, next)
    ensures forall other :: IsNext(b, m, tried, other) ==> other == next
  {}

  /** Two lists of best bids agree as far as both go. */
  lemma {:induction false} BestBidsAgree(b: Books, m: AssetId, p: Price, feed: Price, pricing: CallPricing,
      s: seq<OrderId>, t: seq<OrderId>, n: nat)
    requires BestBids(b, m, p, feed, pricing, s) && BestBids(b, m, p, feed, pricing, t) && n <= |s| && n <= |t|
    ensures s[..n] == t[..n]
  {
    hide BestBids, IsNext, TooThin, BackedBy;
    if n > 0 {
      var i := n - 1;
      BestBidsAgree(b, m, p, feed, pricing, s, t, i);
      assert s[..n] == s[..i] + [s[i]] && t[..n] == t[..i] + [t[i]];
      NextOfMore(b, m, p, feed, pricing, s, i);
      NextOfMore(b, m, p, feed, pricing, t, i);
      OneIsNext(b, m, s[..i], s[i]);
    }
  }

  /** Choosing stops at the first reason to stop. */
  lemma NoneGoesFurther(b: Books, m: AssetId, p: Price, feed: Price, pricing: CallPricing,
      choice: Choice, tried: seq<OrderId>, further: Choice, more: seq<OrderId>)
    requires Chooses(b, m, p, feed, pricing, choice, tried) && Chooses(b, m, p, feed, pricing, further, more)
    ensures |tried| >= |more|
  {
    hide Ahead, TooThin, BackedBy, Total, Amounts;
    if |tried| < |more| {
      var n := |tried|;
      BestBidsAgree(b, m, p, feed, pricing, tried, more, n);
      assert more[..n] == tried && more[n] !in tried;
      NextOfMore(b, m, p, feed, pricing, more, n);
      StillShort(b, m, p, feed, pricing, further, more, n);
      if !choice.Chosen? {
        OneIsNext(b, m, tried, more[n]);
      }
    }
  }

  /** Before the last of them the bids never cover the supply. */
  lemma StillShort(b: Books, m: AssetId, p: Price, feed: Price, pricing: CallPricing,
      choice: Choice, tried: seq<OrderId>, n: nat)
    requires Chooses(b, m, p, feed, pricing, choice, tried) && n < |tried|
    ensures (forall id <- tried[..n] :: id in b.bids) && Total(Amounts(b.bids, tried[..n])) < b.Supply(m)
  {
    hide BestBids, Exhausted, NextIsUnbacked, Total;
    TriedAreThere(b, m, p, feed, pricing, tried);
    var amounts := Amounts(b.bids, tried);
    PrefixTotals(amounts, |tried| - 1, n);
    PrefixTotals(amounts, |tried|, n);
    assert amounts[..|tried|] == amounts && amounts[..n] == Amounts(b.bids, tried[..n]);
  }

  lemma TriedAreThere(b: Books, m: AssetId, p: Price, feed: Price, pricing: CallPricing, tried: seq<OrderId>)
    requires BestBids(b, m, p, feed, pricing, tried)
    ensures forall id <- tried :: id in b.bids
  {}

  /** So what comes of the bids is settled by the books. */
  lemma ChoiceIsUnique(b: Books, m: AssetId, p: Price, feed: Price, pricing: CallPricing,
      choice: Choice, tried: seq<OrderId>, choice': Choice, tried': seq<OrderId>)
    requires Chooses(b, m, p, feed, pricing, choice, tried) && Chooses(b, m, p, feed, pricing, choice', tried')
    ensures choice == choice' && tried == tried'
  {
    hide Ahead, TooThin, BackedBy, Total, Amounts;
    NoneGoesFurther(b, m, p, feed, pricing, choice, tried, choice', tried');
    NoneGoesFurther(b, m, p, feed, pricing, choice', tried', choice, tried);
    BestBidsAgree(b, m, p, feed, pricing, tried, tried', |tried|);
    assert tried[..|tried|] == tried && tried'[..|tried|] == tried';
    if choice.ChoiceThrew? || choice'.ChoiceThrew? {
      var next :| NextIsUnbacked(b, m, p, tried, next);
      OneIsNext(b, m, tried, next);
    }
  }

  /** The best bids, as many as it takes to cover the supply; too few if they run out first. */
  method ChooseBids(k: Market, m: AssetId, pricing: CallPricing) returns (choice: Choice, ghost tried: seq<OrderId>)
    requires k.Valid() && m in k.books.bitassets
    requires k.books.bitassets[m].settlement.Some? && k.books.bitassets[m].feed.Some?
    ensures var x := k.books.bitassets[m];
      Chooses(k.books, m, x.settlement.value, x.feed.value.settlementPrice, pricing, choice, tried)
  {
    hide Core, Ahead, TooThin, BackedBy, BestBids, Amounts, JustCovers;
    var b, x := k.books, k.books.bitassets[m];
    var p, feed := x.settlement.value, x.feed.value.settlementPrice;
    var covered := 0;
    var chosen: seq<OrderId> := [];
    var rest := BidsFor(b, m);
    assert BestBids(b, m, p, feed, pricing, chosen) by { BestOfNone(b, m, p, feed, pricing); }
    assert Amounts(b.bids, chosen) == [];
    while covered < b.Supply(m) && rest != {}
      invariant BestBids(b, m, p, feed, pricing, chosen)
      invariant rest <= BidsFor(b, m)
      invariant forall id :: id in rest <==> id in BidsFor(b, m) && id !in chosen
      invariant forall id <- chosen :: id in b.bids
      invariant covered == Total(Amounts(b.bids, chosen))
      invariant NotYetCovered(b.bids, chosen, b.Supply(m))
      decreases rest
    {
      var best := FirstBid(b, m, rest);
      var backed := BackedBy(b, best, p);
      if backed.None? {
        assert NextIsUnbacked(b, m, p, chosen, best);
        return ChoiceThrew, chosen;
      }
      if TooThin(b, best, p, feed, pricing) {
        assert NextIsThin(b, m, p, feed, pricing, chosen, best);
        return TooFew, chosen;
      }
      AmountsGrow(b.bids, chosen, best);
      BestGrow(b, m, p, feed, pricing, chosen, rest, best);
      chosen := chosen + [best];
      rest := rest - {best};
      covered := covered + b.bids[best].invSwanPrice.quote.amount;
    }
    if covered < b.Supply(m) {
      return TooFew, chosen;
    }
    CoversNow(b.bids, chosen, b.Supply(m));
    return Chosen(chosen), chosen;
  }

  /** Without the last of them the chosen bids do not cover the supply. */
  ghost predicate NotYetCovered(bids: map<OrderId, Bid>, chosen: seq<OrderId>, supply: int)
    requires forall id <- chosen :: id in bids
  {
    chosen != [] ==> Total(Amounts(bids, chosen[..|chosen| - 1])) < supply
  }

  lemma CoversNow(bids: map<OrderId, Bid>, chosen: seq<OrderId>, supply: int)
    requires forall id <- chosen :: id in bids
    requires NotYetCovered(bids, chosen, supply) && Total(Amounts(bids, chosen)) >= supply
    ensures JustCovers(Amounts(bids, chosen), supply)
  {
    if chosen != [] {
      var last := |chosen| - 1;
      assert Amounts(bids, chosen)[..last] == Amounts(bids, chosen[..last]);
    }
  }

  lemma BestOfNone(b: Books, m: AssetId, p: Price, feed: Price, pricing: CallPricing)
    ensures BestBids(b, m, p, feed, pricing, [])
  {}

  lemma BestGrow(b: Books, m: AssetId, p: Price, feed: Price, pricing: CallPricing,
                 chosen: seq<OrderId>, rest: set<OrderId>, best: OrderId)
    requires BestBids(b, m, p, feed, pricing, chosen) && best in rest
    requires forall id :: id in rest <==> id in BidsFor(b, m) && id !in chosen
    requires forall i <- rest :: i != best ==> Ahead(b.bids[best].invSwanPrice, best, b.bids[i].invSwanPrice, i)
    requires BackedBy(b, best, p).Some? && !TooThin(b, best, p, feed, pricing)
    ensures BestBids(b, m, p, feed, pricing, chosen + [best])
  {
    hide Ahead, TooThin, BackedBy;
    var more := chosen + [best];
    forall i | 0 <= i < |more|
      ensures more[i] in b.bids && Leads(b, m, more[i], more[..i + 1])
    {
      if i < |chosen| {
        assert more[..i + 1] == chosen[..i + 1];
      } else {
        assert more[..i + 1] == more;
      }
    }
  }

  lemma AmountsGrow(bids: map<OrderId, Bid>, chosen: seq<OrderId>, id: OrderId)
    requires id in bids && forall i <- chosen :: i in bids
    ensures Total(Amounts(bids, chosen + [id])) == Total(Amounts(bids, chosen)) + bids[id].invSwanPrice.quote.amount
    ensures (chosen + [id])[..|chosen|] == chosen
  {
    assert Amounts(bids, chosen + [id])[..|chosen|] == Amounts(bids, chosen);
  }

  method FirstBid(b: Books, m: AssetId, ids: set<OrderId>) returns (best: OrderId)
    requires Core(b) && ids != {} && ids <= BidsFor(b, m)
    ensures best in ids
    ensures forall i <- ids :: i != best ==> Ahead(b.bids[best].invSwanPrice, best, b.bids[i].invSwanPrice, i)
  {
    hide Core;
    var keys := map i | i in ids :: b.bids[i].invSwanPrice;
    assert keys.Keys == ids;
    BidKeys(b, m, keys);
    best := First(keys);
  }

  lemma BidKeys(b: Books, m: AssetId, keys: map<OrderId, Price>)
    requires Core(b) && forall i <- keys :: i in BidsFor(b, m) && keys[i] == b.bids[i].invSwanPrice
    ensures forall i <- keys :: Ranked(keys[i])
    ensures forall i, j :: i in keys && j in keys ==> SameMarket(keys[i], keys[j])
  {
    forall i | i in keys
      ensures Ranked(keys[i]) && m in b.bitassets && keys[i].base.id == b.bitassets[m].backing && keys[i].quote.id == m
    {
      assert BidOk(b, i);
    }
  }

  // ----- executing the bids -----------------------------------------------------------------

  /** A position without collateral has no call price: creating it throws. */
  method ExecuteBid(k: Market, id: OrderId, debt: nat, collateral: nat, pricing: CallPricing) returns (ok: bool)
    requires id in k.books.bids
    modifies k
    ensures ok == (old(k.books).bids[id].invSwanPrice.base.amount + collateral > 0)
    ensures ok ==> var total := old(k.books).bids[id].invSwanPrice.base.amount + collateral;
      k.books == Executed(old(k.books), id, old(k.nextId), debt, collateral, pricing(debt, total))
    ensures k.nextId == old(k.nextId) + 1
  {
    var bid := k.books.bids[id];
    var call := k.nextId;
    k.nextId := k.nextId + 1;
    var total := bid.invSwanPrice.base.amount + collateral;
    if total == 0 {
      return false;
    }
    var c := CallOrder(bid.bidder, total, debt, pricing(debt, total));
    k.books := k.books.(calls := k.books.calls[call := c], bids := k.books.bids - {id});
    return true;
  }

  /** The shares of a revival: proper amounts that add up to the supply and the fund. */
  ghost predicate Fair(p: Price, amounts: seq<nat>, supply: int, fund: nat) {
    && p.base.amount > 0 && supply >= 0 && fund * p.base.amount >= supply * p.quote.amount
    && JustCovers(amounts, supply) && (supply == 0 ==> fund == 0)
    && forall i :: 0 <= i < |amounts| ==> amounts[i] > 0
  }

  lemma FairShares(p: Price, amounts: seq<nat>, supply: nat, fund: nat, i: nat)
    requires Fair(p, amounts, supply, fund) && i < |amounts|
    ensures var share := ShareOf(p, amounts, supply, fund, i);
      && 0 < share.debt <= amounts[i] && share.collateral >= 0
    ensures amounts[i] >= supply - Total(amounts[..i]) <==> i == |amounts| - 1
    ensures Total(amounts[..i]) < supply && Parts(p, amounts[..i]) <= fund
    ensures Total(amounts[..i + 1]) == Total(amounts[..i]) + amounts[i]
    ensures Parts(p, amounts[..i + 1]) == Parts(p, amounts[..i]) + Part(p, amounts[i])
    ensures i < |amounts| - 1 ==> Parts(p, amounts[..i + 1]) <= fund && Total(amounts[..i + 1]) < supply
  {
    AllocationIsExact(p, amounts, supply, fund);
    TotalsFall(p, amounts, supply, fund, i);
    assert amounts[..i + 1][..i] == amounts[..i];
    if i < |amounts| - 1 {
      TotalsFall(p, amounts, supply, fund, i + 1);
    } else {
      assert amounts[..i + 1] == amounts;
    }
  }

  lemma TotalsFall(p: Price, amounts: seq<nat>, supply: nat, fund: nat, i: nat)
    requires Fair(p, amounts, supply, fund) && i < |amounts|
    ensures Total(amounts[..i]) < supply && Parts(p, amounts[..i]) <= fund
  {
    PrefixTotals(amounts, |amounts| - 1, i);
    PartsWithinFund(p, amounts[..i]);
    MulMonotone(Total(amounts[..i]), supply, p.quote.amount);
    Cancel(Parts(p, amounts[..i]), fund, p.base.amount);
  }

  /** The bid's position is in the books, as its share says. */
  ghost predicate Took(
      bids: map<OrderId, Bid>, calls: map<OrderId, CallOrder>, call: OrderId, id: OrderId, share: Share,
      pricing: CallPricing) {
    && id in bids && share.debt >= 0 && share.collateral >= 0
    && call in calls && calls[call].borrower == bids[id].bidder && calls[call].debt == share.debt
    && calls[call].collateral == bids[id].invSwanPrice.base.amount + share.collateral
    && calls[call].callPrice == pricing(calls[call].debt, calls[call].collateral)
  }

  /** What a revival starts from: the settled asset, the chosen bids and what they may cover. */
  datatype Revival = Revival(
      m: AssetId, p: Price, chosen: seq<OrderId>, amounts: seq<nat>, supply: nat, fund: nat,
      pricing: CallPricing)

  ghost predicate RevivalOk(b: Books, r: Revival) {
    && Fair(r.p, r.amounts, r.supply, r.fund) && r.p.base.id == r.m && |r.chosen| == |r.amounts|
    && (forall i :: 0 <= i < |r.chosen| ==>
          r.chosen[i] in b.bids && b.bids[r.chosen[i]].invSwanPrice.quote == Asset(r.amounts[i], r.m))
    && (forall i, j :: 0 <= i < j < |r.chosen| ==> r.chosen[i] != r.chosen[j])
    && (forall i :: 0 <= i < |r.chosen| ==> Part(r.p, r.amounts[i]) <= MAX_SHARE_SUPPLY)
    && (forall i :: 0 <= i < |r.chosen| ==> b.bids[r.chosen[i]].invSwanPrice.base.amount > 0)
  }

  ghost function ShareIn(r: Revival, i: nat): Share
    requires r.p.base.amount > 0 && i < |r.amounts|
  {
    ShareOf(r.p, r.amounts, r.supply, r.fund, i)
  }

  /** No position comes out without collateral: each of them has its bid's own. */
  lemma NoneIsBare(b: Books, r: Revival, i: nat)
    requires RevivalOk(b, r) && i < |r.chosen|
    ensures ShareIn(r, i).collateral >= 0
    ensures b.bids[r.chosen[i]].invSwanPrice.base.amount + ShareIn(r, i).collateral > 0
  {
    FairShares(r.p, r.amounts, r.supply, r.fund, i);
  }

  /** The first `n` chosen bids have become the positions from id `call` on; the rest is as before. */
  ghost predicate TookOver(b: Books, b': Books, r: Revival, call: OrderId, n: nat)
    requires r.p.base.amount > 0 && n <= |r.chosen| == |r.amounts|
  {
    && (forall i :: 0 <= i < n ==> Took(b.bids, b'.calls, call + i, r.chosen[i], ShareIn(r, i), r.pricing))
    && (forall c <- b.calls :: c in b'.calls && b'.calls[c] == b.calls[c])
    && (forall c <- b'.calls :: c in b.calls || call <= c < call + n)
    && b' == b.(calls := b'.calls, bids := b.bids - Ids(r.chosen[..n]))
  }

  function Ids(chosen: seq<OrderId>): set<OrderId> {
    set id | id in chosen
  }

  /** What is left to be covered and handed out before bid `n`. */
  ghost predicate LeftAt(r: Revival, n: nat, toCover: int, remaining: int)
    requires r.p.base.amount > 0 && n <= |r.chosen| == |r.amounts|
  {
    if n < |r.amounts| || n == 0 then
      toCover == r.supply - Total(r.amounts[..n]) && remaining == r.fund - Parts(r.p, r.amounts[..n])
    else toCover == 0 && remaining == 0
  }

  /** A bid that reaches what is left takes all of it. */
  method NextShare(bid: Bid, p: Price, toCover: nat, remaining: nat) returns (debt: nat, collateral: Option<nat>)
    ensures collateral.Some? <==> Times(bid.invSwanPrice.quote, p).Some?
    ensures collateral.Some? && bid.invSwanPrice.quote.amount >= toCover ==>
      debt == toCover && collateral.value == remaining
    ensures collateral.Some? && bid.invSwanPrice.quote.amount < toCover ==>
              debt == bid.invSwanPrice.quote.amount && collateral.value == Times(bid.invSwanPrice.quote, p).value.amount
  {
    debt := bid.invSwanPrice.quote.amount;
    var part := Times(bid.invSwanPrice.quote, p);
    if part.None? {
      return debt, None;
    }
    collateral := Some(part.value.amount);
    if bid.invSwanPrice.quote.amount >= toCover {
      debt, collateral := toCover, Some(remaining);
    }
  }

  /** The share that comes next is the one that the allocation gives. */
  lemma NextShareIsShare(b: Books, r: Revival, n: nat, toCover: nat, remaining: nat)
    requires RevivalOk(b, r) && n < |r.chosen| && LeftAt(r, n, toCover, remaining)
    ensures var share := ShareIn(r, n);
      && share.debt == (if r.amounts[n] >= toCover then toCover else r.amounts[n])
      && share.collateral == (if r.amounts[n] >= toCover then remaining else Part(r.p, r.amounts[n]))
      && 0 < share.debt <= toCover && 0 <= share.collateral <= remaining
      && LeftAt(r, n + 1, toCover - share.debt, remaining - share.collateral)
    ensures Times(Asset(r.amounts[n], r.m), r.p) == Some(Asset(Part(r.p, r.amounts[n]), r.p.quote.id))
  {
    FairShares(r.p, r.amounts, r.supply, r.fund, n);
    AllocationIsExact(r.p, r.amounts, r.supply, r.fund);
  }

  /**
    Executes the chosen bids. Nothing throws any more: no conversion, no position without
    collateral. At the end the supply is covered and the fund handed out exactly.
   */
  method ExecuteBids(k: Market, r: Revival)
    requires Core(k.books) && LimitsOk(k.books.limits) && Market.IdsBelow(k.books, k.nextId) && RevivalOk(k.books, r)
    requires r.m in k.books.bitassets && k.books.bitassets[r.m].settlement == Some(r.p)
    requires r.supply == k.books.Supply(r.m) && r.fund == k.books.bitassets[r.m].fund
    requires PricesCalls(r.pricing, r.m, k.books.bitassets[r.m].backing)
    modifies k
    ensures Reviving(old(k.books), k.books, r.m, 0, 0) && Market.IdsBelow(k.books, k.nextId)
    ensures TookOver(old(k.books), k.books, r, old(k.nextId), |r.chosen|)
  {
    hide Core, Gap, Debt, Reviving, Fair, ShareIn, Took, LeftAt, TookOver;
    ghost var start, first := k.books, k.nextId;
    var toCover: nat, remaining: nat := r.supply, r.fund;
    RevivingStarts(start, r.m);
    LeftAtStart(start, r, first);
    var i := 0;
    while i < |r.chosen|
      invariant i <= |r.chosen| == |r.amounts| && r.p.base.amount > 0 && LeftAt(r, i, toCover, remaining)
      invariant Reviving(start, k.books, r.m, toCover, remaining)
      invariant TookOver(start, k.books, r, first, i)
      invariant k.nextId == first + i && Market.IdsBelow(k.books, k.nextId)
    {
      NextShareIsShare(start, r, i, toCover, remaining);
      toCover, remaining := ExecuteNext(k, r, i, toCover, remaining, start, first);
      i := i + 1;
    }
    LeftAtEnd(start, r, toCover, remaining);
    assert remaining == 0;
    assert toCover == 0;
  }

  lemma LeftAtStart(b: Books, r: Revival, first: OrderId)
    requires RevivalOk(b, r)
    ensures LeftAt(r, 0, r.supply, r.fund) && r.p.base.amount > 0
    ensures TookOver(b, b, r, first, 0)
  {
    assert b.bids - Ids([]) == b.bids;
  }

  lemma LeftAtEnd(b: Books, r: Revival, toCover: nat, remaining: nat)
    requires RevivalOk(b, r) && LeftAt(r, |r.chosen|, toCover, remaining)
    ensures toCover == 0 && remaining == 0
  {}

  method ExecuteNext(
      k: Market, r: Revival, i: nat, toCover: nat, remaining: nat, ghost start: Books, ghost first: OrderId)
    returns (toCover': nat, remaining': nat)
    requires RevivalOk(start, r) && i < |r.chosen| && LeftAt(r, i, toCover, remaining)
    requires Reviving(start, k.books, r.m, toCover, remaining) && TookOver(start, k.books, r, first, i)
    requires k.nextId == first + i && Market.IdsBelow(k.books, k.nextId)
    requires PricesCalls(r.pricing, r.m, start.bitassets[r.m].backing)
    modifies k
    ensures LeftAt(r, i + 1, toCover', remaining')
    ensures Reviving(start, k.books, r.m, toCover', remaining') && TookOver(start, k.books, r, first, i + 1)
    ensures k.nextId == first + i + 1 && Market.IdsBelow(k.books, k.nextId)
  {
    hide Core, Gap, Debt, Reviving, Fair, LeftAt, TookOver, ShareIn;
    NextShareIsShare(start, r, i, toCover, remaining);
    NoneIsBare(start, r, i);
    assert r.chosen[i] in k.books.bids && k.books.bids[r.chosen[i]] == start.bids[r.chosen[i]] by {
      NextIsThere(start, k.books, r, first, i);
    }
    var id := r.chosen[i];
    var debt, collateral := NextShare(k.books.bids[id], r.p, toCover, remaining);
    ghost var before := k.books;
    var ok := ExecuteBid(k, id, debt, collateral.value, r.pricing);
    toCover', remaining' := toCover - debt, remaining - collateral.value;
    var total := before.bids[id].invSwanPrice.base.amount + collateral.value;
    RevivingGoesOn(start, before, r.m, toCover, remaining, id, first + i, debt, collateral.value,
      r.pricing(debt, total));
    TookOne(start, before, r, first, i);
  }

  lemma NextIsThere(b: Books, b': Books, r: Revival, first: OrderId, i: nat)
    requires RevivalOk(b, r) && i < |r.chosen| && TookOver(b, b', r, first, i)
    ensures r.chosen[i] in b'.bids && r.chosen[i] in b.bids && b'.bids[r.chosen[i]] == b.bids[r.chosen[i]]
  {}

  lemma TookOne(b: Books, b1: Books, r: Revival, first: OrderId, i: nat)
    requires RevivalOk(b, r) && i < |r.chosen| && TookOver(b, b1, r, first, i) && first + i !in b1.calls
    requires ShareIn(r, i).debt >= 0 && ShareIn(r, i).collateral >= 0
    ensures r.chosen[i] in b1.bids
    ensures var share := ShareIn(r, i);
      var price := r.pricing(share.debt, b1.bids[r.chosen[i]].invSwanPrice.base.amount + share.collateral);
      TookOver(b, Executed(b1, r.chosen[i], first + i, share.debt, share.collateral, price), r, first, i + 1)
  {
    hide Fair, ShareIn;
    var now, later := r.chosen[..i], r.chosen[..i + 1];
    assert later == now + [r.chosen[i]];
    assert b.bids - Ids(now) - {r.chosen[i]} == b.bids - Ids(later);
  }

  // ----- revival ----------------------------------------------------------------------------

  /** Pays back the bids that are left, and unsettles the asset. */
  method CancelBidsAndRevive(k: Market, m: AssetId, ghost start: Books)
    requires Core(start) && Reviving(start, k.books, m, 0, 0)
    requires LimitsOk(k.books.limits) && Market.IdsBelow(k.books, k.nextId)
    modifies k`books
    ensures k.Valid() && SameGaps(start, k.books) && k.books.limits == start.limits
    ensures k.books == Unsettling(Refunded(old(k.books), m), m)
  {
    hide Core, Gap, Debt, Refunded;
    var todo := BidsFor(k.books, m);
    while todo != {}
      invariant Reviving(start, k.books, m, 0, 0) && Market.IdsBelow(k.books, k.nextId)
      invariant todo == BidsFor(k.books, m) && Refunded(k.books, m) == Refunded(old(k.books), m)
    {
      var id :| id in todo;
      todo := todo - {id};
      RevivingCancels(start, k.books, m, 0, 0, id);
      RefundedStepwise(k.books, m, id);
      CancelBidOf(k, id);
    }
    forall id | id in k.books.bids
      ensures k.books.bids[id].invSwanPrice.quote.id != m
    {
      assert id !in BidsFor(k.books, m);
    }
    RevivingEnds(start, k.books, m);
    NothingToRefund(k.books, m);
    k.books := Unsettling(k.books, m);
  }

  datatype Outcome = Threw | NotCovered | Revived(chosen: seq<OrderId>)

  /**
    What a maintenance revives: positions with the shares of the chosen bids, and no others. All
    other bids for the asset are paid back, and nothing else changes.
   */
  ghost predicate RevivedBy(
      b: Books, b': Books, m: AssetId, first: OrderId, chosen: seq<OrderId>, pricing: CallPricing)
    requires m in b.bitassets && b.bitassets[m].settlement.Some?
  {
    var r := RevivalOf(b, m, chosen, pricing);
    && RevivalOk(b, r)
    && (forall i :: 0 <= i < |chosen| ==> Took(b.bids, b'.calls, first + i, chosen[i], ShareIn(r, i), pricing))
    && (forall c <- b.calls :: c in b'.calls && b'.calls[c] == b.calls[c])
    && (forall c <- b'.calls :: c in b.calls || first <= c < first + |chosen|)
    && b' == Unsettling(Refunded(b.(calls := b'.calls, bids := b.bids - Ids(chosen)), m), m)
  }

  function RevivalOf(b: Books, m: AssetId, chosen: seq<OrderId>, pricing: CallPricing): Revival
    requires m in b.bitassets && b.bitassets[m].settlement.Some?
  {
    var amounts := if forall id <- chosen :: id in b.bids then Amounts(b.bids, chosen) else [];
    Revival(m, b.bitassets[m].settlement.value, chosen, amounts,
      if b.Supply(m) >= 0 then b.Supply(m) else 0, b.bitassets[m].fund, pricing)
  }

  lemma ChosenMakeARevival(
      b: Books, m: AssetId, feed: Price, pricing: CallPricing, chosen: seq<OrderId>, tried: seq<OrderId>)
    requires Core(b) && m in b.bitassets && b.bitassets[m].settlement.Some?
    requires Chooses(b, m, b.bitassets[m].settlement.value, feed, pricing, Chosen(chosen), tried)
    ensures RevivalOk(b, RevivalOf(b, m, chosen, pricing)) && b.Supply(m) >= 0
    ensures forall id <- chosen :: id in b.bids
  {
    hide Ahead, JustCovers, TooThin, BackedBy, Core, RevivalOk, RevivalOf;
    BestMakeARevival(b, m, feed, pricing, chosen);
  }

  lemma BestMakeARevival(b: Books, m: AssetId, feed: Price, pricing: CallPricing, chosen: seq<OrderId>)
    requires Core(b) && m in b.bitassets && b.bitassets[m].settlement.Some?
    requires BestBids(b, m, b.bitassets[m].settlement.value, feed, pricing, chosen)
    requires JustCovers(Amounts(b.bids, chosen), b.Supply(m))
    ensures RevivalOk(b, RevivalOf(b, m, chosen, pricing)) && b.Supply(m) >= 0
  {
    hide Ahead, Gap, Debt, JustCovers, TooThin;
    assert BitassetOk(b, m);
    var r := RevivalOf(b, m, chosen, pricing);
    forall i | 0 <= i < |chosen|
      ensures r.amounts[i] > 0 && b.bids[chosen[i]].invSwanPrice.quote == Asset(r.amounts[i], m)
      ensures Part(r.p, r.amounts[i]) <= MAX_SHARE_SUPPLY && b.bids[chosen[i]].invSwanPrice.base.amount > 0
    {
      assert BidOk(b, chosen[i]) && BackedBy(b, chosen[i], r.p).Some?;
    }
  }

  /** The outcome of a maintenance, as the books before it settle it. */
  ghost predicate Maintains(b: Books, m: AssetId, pricing: CallPricing, outcome: Outcome)
    requires m in b.bitassets && b.bitassets[m].settlement.Some?
  {
    var x := b.bitassets[m];
    if x.isPredictionMarket || x.feed.None? then outcome == NotCovered
    else if x.settlement.value.quote.amount == 0 then outcome == Threw
    else exists choice, tried ::
      && Chooses(b, m, x.settlement.value, x.feed.value.settlementPrice, pricing, choice, tried)
      && outcome == Afterwards(choice)
  }

  /** Bids that cover the supply revive the asset. */
  function Afterwards(choice: Choice): Outcome {
    match choice
    case ChoiceThrew => Threw
    case TooFew => NotCovered
    case Chosen(bids) => Revived(bids)
  }

  lemma OutcomeIsUnique(b: Books, m: AssetId, pricing: CallPricing, outcome: Outcome, outcome': Outcome)
    requires m in b.bitassets && b.bitassets[m].settlement.Some?
    requires Maintains(b, m, pricing, outcome) && Maintains(b, m, pricing, outcome')
    ensures outcome == outcome'
  {
    hide Chooses, Afterwards;
    var x := b.bitassets[m];
    if !x.isPredictionMarket && x.feed.Some? && x.settlement.value.quote.amount > 0 {
      var p, feed := x.settlement.value, x.feed.value.settlementPrice;
      var choice, tried :|
        Chooses(b, m, p, feed, pricing, choice, tried) && outcome == Afterwards(choice);
      var choice', tried' :|
        Chooses(b, m, p, feed, pricing, choice', tried') && outcome' == Afterwards(choice');
      ChoiceIsUnique(b, m, p, feed, pricing, choice, tried, choice', tried');
    }
  }

  /**
    Revives a globally settled asset from the bids for it, if the best of them that are not too
    thin cover its supply. A prediction market, or an asset without a feed, stays settled.
   */
  method ProcessBids(k: Market, m: AssetId, pricing: CallPricing) returns (outcome: Outcome)
    requires k.Valid() && m in k.books.bitassets && k.books.bitassets[m].settlement.Some?
    requires PricesCalls(pricing, m, k.books.bitassets[m].backing)
    modifies k
    ensures Maintains(old(k.books), m, pricing, outcome)
    ensures outcome.NotCovered? ==> k.books == old(k.books) && k.nextId == old(k.nextId)
    ensures outcome.Revived? ==> k.Valid() && SameGaps(old(k.books), k.books) && k.books.limits == old(k.books).limits
    ensures outcome.Revived? ==> RevivedBy(old(k.books), k.books, m, old(k.nextId), outcome.chosen, pricing)
  {
    hide Core, Gap, Debt, Reviving, RevivalOk, Chooses, LimitsOk, Market.IdsBelow, Scale, Refunded;
    hide TookOver, RevivedBy, Unsettling;
    var x := k.books.bitassets[m];
    if x.isPredictionMarket || x.feed.None? {
      return NotCovered;
    }
    SettlementIsInMarket(k.books, m);
    NoCollateralThrows(m, x);
    if Times(Asset(0, x.backing), x.settlement.value).None? {
      return Threw;
    }
    ghost var start, first, tried := k.books, k.nextId, [];
    var choice;
    choice, tried := ChooseBids(k, m, pricing);
    match choice {
      case ChoiceThrew => return Threw;
      case TooFew => return NotCovered;
      case Chosen(chosen) =>
        ChosenMakeARevival(start, m, x.feed.value.settlementPrice, pricing, chosen, tried);
        ExecuteBids(k, RevivalOf(k.books, m, chosen, pricing));
        StillReviving(start, k.books, m);
        ThenRevived(start, k.books, m, first, chosen, pricing);
        CancelBidsAndRevive(k, m, start);
        return Revived(chosen);
    }
  }

  lemma SettlementIsInMarket(b: Books, m: AssetId)
    requires Core(b) && m in b.bitassets && b.bitassets[m].settlement.Some?
    ensures PriceOf(b.bitassets[m].settlement.value, m, b.bitassets[m].backing) && m != b.bitassets[m].backing
  {
    assert BitassetOk(b, m);
  }

  /** The conversion that asks for the backing asset throws where the settlement found no collateral. */
  lemma NoCollateralThrows(m: AssetId, x: Bitasset)
    requires x.settlement.Some? && PriceOf(x.settlement.value, m, x.backing) && m != x.backing
    ensures Times(Asset(0, x.backing), x.settlement.value).None? <==> x.settlement.value.quote.amount == 0
  {}

  /** Once the chosen bids are executed and the others paid back, the asset is revived as stated. */
  lemma ThenRevived(b: Books, b1: Books, m: AssetId, first: OrderId, chosen: seq<OrderId>, pricing: CallPricing)
    requires m in b.bitassets && b.bitassets[m].settlement.Some? && m in b1.bitassets
    requires RevivalOk(b, RevivalOf(b, m, chosen, pricing))
    requires TookOver(b, b1, RevivalOf(b, m, chosen, pricing), first, |chosen|)
    ensures RevivedBy(b, Unsettling(Refunded(b1, m), m), m, first, chosen, pricing)
  {
    hide Fair, Took, ShareIn, Refund, Bidders;
    assert chosen[..|chosen|] == chosen;
    assert Unsettling(Refunded(b1, m), m).calls == b1.calls;
  }

  lemma StillReviving(b: Books, b': Books, m: AssetId)
    requires Reviving(b, b', m, 0, 0)
    ensures b'.limits == b.limits && b'.bitassets == b.bitassets
  {}

  // ----- revival by a feed --------------------------------------------------------------------

  /** A bid of the issuer without collateral of its own, for the whole supply. */
  function PseudoBid(b: Books, m: AssetId, issuer: AccountId): Bid
    requires m in b.bitassets && b.Supply(m) >= 0
  {
    Bid(issuer, Price(Asset(0, b.bitassets[m].backing), Asset(b.Supply(m), m)))
  }

  /** A supply becomes one position of the issuer, the bids are paid back, the asset is unsettled. */
  ghost function TakenOver(b: Books, m: AssetId, issuer: AccountId, pricing: CallPricing, id: OrderId): Books
    requires m in b.bitassets && b.Supply(m) >= 0
  {
    Unsettling(Refunded(WithWhole(b, m, issuer, pricing, id), m), m)
  }

  function WithWhole(b: Books, m: AssetId, issuer: AccountId, pricing: CallPricing, id: OrderId): Books
    requires m in b.bitassets && b.Supply(m) >= 0
  {
    if b.Supply(m) > 0 then b.(calls := b.calls[id := WholePosition(b, m, issuer, pricing)]) else b
  }

  /** The issuer's position has the whole fund for the whole supply, and every bidder its bids back. */
  lemma TakenOverIs(b: Books, m: AssetId, issuer: AccountId, pricing: CallPricing, id: OrderId)
    requires m in b.bitassets && b.Supply(m) >= 0
    ensures var b', x := TakenOver(b, m, issuer, pricing, id), b.bitassets[m];
      && b'.bitassets == b.bitassets[m := x.(settlement := None, fund := 0)]
      && (b.Supply(m) == 0 ==> b'.calls == b.calls)
      && (b.Supply(m) > 0 ==>
            b'.calls == b.calls[id := CallOrder(issuer, x.fund, b.Supply(m), pricing(b.Supply(m), x.fund))])
      && b'.bids == b.bids - BidsFor(b, m)
      && forall who: (AccountId, AssetId) :: b'.Balance(who.0, who.1) == b.Balance(who.0, who.1) + Refund(b, m, who)
  {
    RefundsOnly(WithWhole(b, m, issuer, pricing, id), m);
  }

  /**
    Revives a settled asset without bids: its issuer takes over the supply as debt and the fund
    as collateral. With no supply left the fund is empty, as the check there asks.
   */
  method ReviveBitasset(k: Market, m: AssetId, issuer: AccountId, pricing: CallPricing) returns (ok: bool)
    requires k.Valid() && m in k.books.bitassets && k.books.bitassets[m].settlement.Some?
    requires PricesCalls(pricing, m, k.books.bitassets[m].backing)
    modifies k
    ensures old(k.books).Supply(m) >= 0
    ensures ok <==> old(k.books).Supply(m) == 0 || old(k.books).bitassets[m].fund > 0
    ensures ok ==> k.Valid() && SameGaps(old(k.books), k.books) && k.books.limits == old(k.books).limits
    ensures ok ==> k.books == TakenOver(old(k.books), m, issuer, pricing, old(k.nextId) + 1)
  {
    hide Core, Gap, Debt, Reviving;
    SettledSupply(k.books, m);
    ghost var start := k.books;
    var fund := k.books.bitassets[m].fund;
    if k.books.Supply(m) > 0 {
      ok := TakeOverAll(k, m, issuer, pricing);
      if !ok {
        return;
      }
    } else {
      assert fund == 0;
      RevivingStarts(k.books, m);
    }
    StillReviving(start, k.books, m);
    CancelBidsAndRevive(k, m, start);
    return true;
  }

  lemma SettledSupply(b: Books, m: AssetId)
    requires Core(b) && m in b.bitassets && b.bitassets[m].settlement.Some?
    ensures b.Supply(m) >= 0 && (b.Supply(m) == 0 ==> b.bitassets[m].fund == 0)
  {
    assert BitassetOk(b, m);
  }

  method TakeOverAll(k: Market, m: AssetId, issuer: AccountId, pricing: CallPricing) returns (ok: bool)
    requires k.Valid() && m in k.books.bitassets && k.books.bitassets[m].settlement.Some? && k.books.Supply(m) > 0
    requires PricesCalls(pricing, m, k.books.bitassets[m].backing)
    modifies k
    ensures ok <==> old(k.books).bitassets[m].fund > 0
    ensures ok ==> Reviving(old(k.books), k.books, m, 0, 0) && Market.IdsBelow(k.books, k.nextId)
    ensures ok ==> k.books == WithWhole(old(k.books), m, issuer, pricing, old(k.nextId) + 1)
  {
    hide Core, Gap, Debt, Reviving;
    var id := k.nextId;
    var supply: nat, fund := k.books.Supply(m), k.books.bitassets[m].fund;
    if fund > 0 {
      PseudoBidRevives(k.books, m, issuer, id, pricing);
    }
    k.books := k.books.(bids := k.books.bids[id := PseudoBid(k.books, m, issuer)]);
    k.nextId := id + 1;
    assert k.books.bids - {id} == old(k.books).bids;
    ok := ExecuteBid(k, id, supply, fund, pricing);
  }

  /** The position that takes over the whole supply for the whole fund. */
  function WholePosition(b: Books, m: AssetId, issuer: AccountId, pricing: CallPricing): CallOrder
    requires m in b.bitassets && b.Supply(m) >= 0
  {
    CallOrder(issuer, b.bitassets[m].fund, b.Supply(m), pricing(b.Supply(m), b.bitassets[m].fund))
  }

  lemma PseudoBidRevives(b: Books, m: AssetId, issuer: AccountId, id: OrderId, pricing: CallPricing)
    requires Core(b) && Market.IdsBelow(b, id) && m in b.bitassets && b.bitassets[m].settlement.Some?
    requires b.Supply(m) > 0 && b.bitassets[m].fund > 0 && PricesCalls(pricing, m, b.bitassets[m].backing)
    ensures var b1 := b.(bids := b.bids[id := PseudoBid(b, m, issuer)]);
      var supply, fund := b.Supply(m), b.bitassets[m].fund;
      Reviving(b, Executed(b1, id, id + 1, supply, fund, pricing(supply, fund)), m, 0, 0)
  {
    hide Core, Gap, Debt, PricesCalls, Reviving;
    var b1, supply: nat, fund := b.(bids := b.bids[id := PseudoBid(b, m, issuer)]), b.Supply(m), b.bitassets[m].fund;
    PriceOfWhole(b, m, pricing);
    WholeRevives(b, m, issuer, id + 1, pricing);
    assert b1.bids - {id} == b.bids;
    assert Executed(b1, id, id + 1, supply, fund, pricing(supply, fund)) == WithWhole(b, m, issuer, pricing, id + 1);
  }

  lemma PriceOfWhole(b: Books, m: AssetId, pricing: CallPricing)
    requires m in b.bitassets && b.Supply(m) > 0 && b.bitassets[m].fund > 0
    requires PricesCalls(pricing, m, b.bitassets[m].backing)
    ensures var price := pricing(b.Supply(m), b.bitassets[m].fund);
      price.Positive() && PriceOf(price.Inverse(), m, b.bitassets[m].backing)
  {}

  lemma WholeRevives(b: Books, m: AssetId, issuer: AccountId, call: OrderId, pricing: CallPricing)
    requires Core(b) && m in b.bitassets && b.bitassets[m].settlement.Some? && call !in b.calls && b.Supply(m) > 0
    requires var price := pricing(b.Supply(m), b.bitassets[m].fund);
      price.Positive() && PriceOf(price.Inverse(), m, b.bitassets[m].backing)
    ensures Reviving(b, WithWhole(b, m, issuer, pricing, call), m, 0, 0)
  {
    hide Gap, Debt;
    var b1 := WithWhole(b, m, issuer, pricing, call);
    PutCall(b, call, WholePosition(b, m, issuer, pricing));
    forall i
      ensures RevivedCallOk(b1, i, m) && BidOk(b1, i)
    {
      assert CallOk(b, i) && BidOk(b, i);
    }
  }

  /** The evaluator of a feed operation refuses feeds for a settled prediction market. */
  predicate MayPublish(b: Books, m: AssetId) {
    m in b.bitassets && !(b.bitassets[m].isPredictionMarket && b.bitassets[m].settlement.Some?)
  }

  /** The whole supply as debt against the fund would not be called at the feed's price. */
  predicate CanRevive(x: Bitasset, supply: int, pricing: CallPricing) {
    && x.settlement.Some? && x.feed.Some?
    && (supply <= 0 || Less(pricing(supply, x.fund).Inverse(), x.feed.value.settlementPrice))
  }

  /** At the feed's price the debt of the whole fund's call price would be worth less than its collateral. */
  lemma CanReviveMeans(x: Bitasset, supply: nat, pricing: CallPricing)
    requires x.settlement.Some? && x.feed.Some? && supply > 0
    requires SameMarket(pricing(supply, x.fund).Inverse(), x.feed.value.settlementPrice)
    ensures var call, feed := pricing(supply, x.fund), x.feed.value.settlementPrice;
      CanRevive(x, supply, pricing) <==> call.quote.amount * feed.quote.amount < call.base.amount * feed.base.amount
  {}

  /** Debt without any collateral has no call price, and asking for it throws. */
  predicate NoCallPrice(x: Bitasset, supply: int) {
    x.settlement.Some? && x.feed.Some? && supply > 0 && x.fund == 0
  }

  function WithFeed(b: Books, m: AssetId, feed: Option<Feed>): Books
    requires m in b.bitassets
  {
    b.(bitassets := b.bitassets[m := b.bitassets[m].(feed := feed)])
  }

  /** What a feed brings about: a revival if it allows one, and margin calls; None where that throws. */
  ghost function Reaction(
      rules: FeeRules, b: Books, m: AssetId, issuer: AccountId, pricing: CallPricing, id: OrderId): Option<Books>
    requires m in b.bitassets && b.Supply(m) >= 0 && LimitsOk(b.limits)
  {
    if NoCallPrice(b.bitassets[m], b.Supply(m)) then None
    else
      var revives := CanRevive(b.bitassets[m], b.Supply(m), pricing);
      var called := CheckedCalls(rules, if revives then TakenOver(b, m, issuer, pricing, id) else b, m, true);
      if called.None? then None else Some(called.value.0)
  }

  /** A settled asset that a feed does not revive only takes note of the feed. */
  lemma OnlyNoted(rules: FeeRules, b: Books, m: AssetId, issuer: AccountId, pricing: CallPricing, id: OrderId)
    requires m in b.bitassets && b.Supply(m) >= 0 && LimitsOk(b.limits) && b.bitassets[m].settlement.Some?
    requires !CanRevive(b.bitassets[m], b.Supply(m), pricing) && !NoCallPrice(b.bitassets[m], b.Supply(m))
    ensures Reaction(rules, b, m, issuer, pricing, id) == Some(b)
  {
    NoneCalledIfSettled(rules, b, m, true);
  }

  /** The call prices of an asset for every maintenance ratio. */
  type RatedPricing = nat -> CallPricing

  /** Those that a feed asks for. */
  function PricingOf(pricing: RatedPricing, feed: Option<Feed>): CallPricing {
    pricing(if feed.Some? then feed.value.maintenanceRatio else 0)
  }

  /** The books after a feed was published; None where the publication throws. */
  ghost function Published(rules: FeeRules, b: Books, m: AssetId, feed: Option<Feed>, issuer: AccountId,
      pricing: RatedPricing, id: OrderId): Option<Books>
    requires LimitsOk(b.limits) && (m in b.bitassets ==> b.Supply(m) >= 0)
  {
    if !MayPublish(b, m) then None
    else if feed == b.bitassets[m].feed then Some(b)
    else Reaction(rules, WithFeed(b, m, feed), m, issuer, PricingOf(pricing, feed), id)
  }

  /**
    A new median feed revives a settled asset exactly when its supply as debt against the fund
    would be out of reach of a call at the new maintenance ratio, and then calls positions.
   */
  method PublishFeed(k: Market, m: AssetId, feed: Option<Feed>, issuer: AccountId, pricing: RatedPricing)
    returns (ok: bool)
    requires k.Valid() && RestingBook(k.books.limits)
    requires m in k.books.bitassets ==> FeedOk(m, k.books.bitassets[m].(feed := feed))
    requires m in k.books.bitassets ==> PricesCalls(PricingOf(pricing, feed), m, k.books.bitassets[m].backing)
    modifies k
    ensures m in old(k.books).bitassets ==> old(k.books).Supply(m) >= 0
    ensures Published(k.feeRules, old(k.books), m, feed, issuer, pricing, old(k.nextId) + 1) ==
            if ok then Some(k.books) else None
    ensures ok ==> k.Valid() && RestingBook(k.books.limits) && SameGaps(old(k.books), k.books)
  {
    hide Core, Gap, Debt, RestingBook, CanRevive, Reaction, LimitsOk, PricingOf;
    if m in k.books.bitassets {
      SupplyNonNegative(k.books, m);
    }
    if !MayPublish(k.books, m) {
      return false;
    }
    if feed == k.books.bitassets[m].feed {
      return true;
    }
    FeedKeeps(k.books, m, feed);
    k.books := k.books.(bitassets := k.books.bitassets[m := k.books.bitassets[m].(feed := feed)]);
    ghost var before := k.books;
    ok := ReactToFeed(k, m, issuer, PricingOf(pricing, feed));
    if ok {
      GapsTransitive(old(k.books), before, k.books);
    }
  }

  /** Revives the asset if the feed allows it, and calls positions. */
  method ReactToFeed(k: Market, m: AssetId, issuer: AccountId, pricing: CallPricing) returns (ok: bool)
    requires k.Valid() && RestingBook(k.books.limits) && m in k.books.bitassets
    requires PricesCalls(pricing, m, k.books.bitassets[m].backing)
    modifies k
    ensures old(k.books).Supply(m) >= 0
    ensures Reaction(k.feeRules, old(k.books), m, issuer, pricing, old(k.nextId) + 1) ==
      if ok then Some(k.books) else None
    ensures ok ==> k.Valid() && RestingBook(k.books.limits) && SameGaps(old(k.books), k.books)
  {
    hide Core, Gap, Debt, RestingBook, Shrunk, CheckedCalls, TakenOver;
    SupplyNonNegative(k.books, m);
    if NoCallPrice(k.books.bitassets[m], k.books.Supply(m)) {
      return false;
    }
    if CanRevive(k.books.bitassets[m], k.books.Supply(m), pricing) {
      var revived := ReviveBitasset(k, m, issuer, pricing);
    }
    ghost var before := k.books;
    var called;
    ok, called := k.CheckCallOrders(m, true);
    if ok {
      GapsTransitive(old(k.books), before, k.books);
      ShrunkStaysResting(before.limits, k.books.limits);
    }
  }

  lemma NoneCalledIfSettled(rules: FeeRules, b: Books, m: AssetId, enable: bool)
    requires LimitsOk(b.limits)
    ensures m in b.bitassets && b.bitassets[m].settlement.Some? ==>
      CheckedCalls(rules, b, m, enable) == Some((b, false))
  {}

  /** At the end of a block: a median feed that lost expired feeds calls positions, if there still is one. */
  ghost function Expired(rules: FeeRules, b: Books, m: AssetId, feed: Option<Feed>): Option<Books>
    requires m in b.bitassets && LimitsOk(b.limits)
  {
    var b1 := WithFeed(b, m, feed);
    if feed.None? then Some(b1)
    else
      var r := CheckedCalls(rules, b1, m, true);
      if r.None? then None else Some(r.value.0)
  }

  method ExpireFeed(k: Market, m: AssetId, feed: Option<Feed>) returns (ok: bool)
    requires k.Valid() && RestingBook(k.books.limits)
    requires m in k.books.bitassets && FeedOk(m, k.books.bitassets[m].(feed := feed))
    modifies k`books
    ensures Expired(k.feeRules, old(k.books), m, feed) == if ok then Some(k.books) else None
    ensures ok ==> k.Valid() && RestingBook(k.books.limits) && SameGaps(old(k.books), k.books)
  {
    hide Core, Gap, Debt, RestingBook, Shrunk, CheckedCalls;
    FeedKeeps(k.books, m, feed);
    k.books := k.books.(bitassets := k.books.bitassets[m := k.books.bitassets[m].(feed := feed)]);
    if feed.None? {
      return true;
    }
    ghost var before := k.books;
    var called;
    ok, called := k.CheckCallOrders(m, true);
    if ok {
      GapsTransitive(old(k.books), before, k.books);
      ShrunkStaysResting(before.limits, k.books.limits);
    }
  }

  lemma FeedKeeps(b: Books, m: AssetId, feed: Option<Feed>)
    requires Core(b) && m in b.bitassets && FeedOk(m, b.bitassets[m].(feed := feed))
    ensures Core(WithFeed(b, m, feed)) && SameGaps(b, WithFeed(b, m, feed))
  {
    hide Gap, Debt;
    var b' := WithFeed(b, m, feed);
    PutBitasset(b, m, b.bitassets[m].(feed := feed));
    SameCallsSameDebt(b, b');
    forall n
      ensures BitassetOk(b', n)
    {
      assert BitassetOk(b, n);
    }
    forall i
      ensures CallOk(b', i) && SettlementOk(b', i) && BidOk(b', i)
    {
      assert CallOk(b, i) && SettlementOk(b, i) && BidOk(b, i);
    }
  }
}

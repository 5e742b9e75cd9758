/** Paying back all the bids for an asset, as one step on the books. */
module Refunds {
  import opened Prices
  import opened Sums
  import opened Books

  function BidsFor(b: Books, m: AssetId): set<OrderId> {
    set id | id in b.bids && b.bids[id].invSwanPrice.quote.id == m
  }

  /** Who bid for the asset, with the asset that was bid. */
  function BidderOf(bid: Bid): (AccountId, AssetId) {
    (bid.bidder, bid.invSwanPrice.base.id)
  }

  function Bidders(b: Books, m: AssetId): set<(AccountId, AssetId)> {
    set id | id in BidsFor(b, m) :: BidderOf(b.bids[id])
  }

  function RefundIn(m: AssetId, who: (AccountId, AssetId)): (OrderId, Bid) -> int {
    (id: OrderId, bid: Bid) =>
      if bid.invSwanPrice.quote.id == m && BidderOf(bid) == who then bid.invSwanPrice.base.amount else 0
  }

  /** What all the bids for the asset give back to a bidder. */
  ghost function Refund(b: Books, m: AssetId, who: (AccountId, AssetId)): nat {
    SumNonNegative(b.bids, RefundIn(m, who));
    SumBy(b.bids, RefundIn(m, who))
  }

  /** The books once every bid for the asset is paid back. */
  ghost function Refunded(b: Books, m: AssetId): Books {
    b.(balances := map who | who in b.balances.Keys + Bidders(b, m) :: b.Balance(who.0, who.1) + Refund(b, m, who),
       bids := b.bids - BidsFor(b, m))
  }

  /** Every bidder's balance grows by what it bid, and no other. */
  lemma RefundsOnly(b: Books, m: AssetId)
    ensures forall who: (AccountId, AssetId) ::
      Refunded(b, m).Balance(who.0, who.1) == b.Balance(who.0, who.1) + Refund(b, m, who)
  {
    forall who: (AccountId, AssetId)
      ensures Refunded(b, m).Balance(who.0, who.1) == b.Balance(who.0, who.1) + Refund(b, m, who)
    {
      assert who == (who.0, who.1);
      if who !in b.balances.Keys + Bidders(b, m) {
        NotABidder(b, m, who);
      }
    }
  }

  lemma NotABidder(b: Books, m: AssetId, who: (AccountId, AssetId))
    requires who !in Bidders(b, m)
    ensures Refund(b, m, who) == 0
  {
    forall id | id in b.bids
      ensures RefundIn(m, who)(id, b.bids[id]) == 0
    {
      assert id in BidsFor(b, m) ==> BidderOf(b.bids[id]) in Bidders(b, m);
    }
    SumZero(b.bids, RefundIn(m, who));
  }

  /** Paying back one of the bids first makes no difference. */
  lemma RefundedStepwise(b: Books, m: AssetId, id: OrderId)
    requires id in BidsFor(b, m)
    ensures Refunded(CancelBid(b, id), m) == Refunded(b, m)
  {
    hide Bidders, Refund, CancelBid, BidderOf;
    var b' := CancelBid(b, id);
    BiddersStepwise(b, m, id);
    SameOtherBids(b, m, id);
    forall w: (AccountId, AssetId)
      ensures b'.Balance(w.0, w.1) + Refund(b', m, w) == b.Balance(w.0, w.1) + Refund(b, m, w)
    {
      OwedStepwise(b, m, id, w);
    }
    SameOwed(b, b', m);
  }

  lemma SameOwed(b: Books, b': Books, m: AssetId)
    requires b'.balances.Keys + Bidders(b', m) == b.balances.Keys + Bidders(b, m)
    requires forall w: (AccountId, AssetId) ::
               b'.Balance(w.0, w.1) + Refund(b', m, w) == b.Balance(w.0, w.1) + Refund(b, m, w)
    ensures Refunded(b', m).balances == Refunded(b, m).balances
  {
    hide Bidders, Refund, BidsFor;
    var all := b.balances.Keys + Bidders(b, m);
    forall w | w in all
      ensures Refunded(b', m).balances[w] == Refunded(b, m).balances[w]
    {}
  }

  lemma SameOtherBids(b: Books, m: AssetId, id: OrderId)
    requires id in BidsFor(b, m)
    ensures var b' := CancelBid(b, id);
      b' == b.(balances := b'.balances, bids := b'.bids) && b'.bids - BidsFor(b', m) == b.bids - BidsFor(b, m)
  {}

  /** A bidder's balance and what is still to be paid back to it add up to the same. */
  lemma OwedStepwise(b: Books, m: AssetId, id: OrderId, w: (AccountId, AssetId))
    requires id in BidsFor(b, m)
    ensures var b' := CancelBid(b, id);
      b'.Balance(w.0, w.1) + Refund(b', m, w) == b.Balance(w.0, w.1) + Refund(b, m, w)
  {
    hide SumBy;
    var who := BidderOf(b.bids[id]);
    SumWithout(b.bids, RefundIn(m, w), id);
    assert w == (w.0, w.1) && who == (who.0, who.1);
  }

  lemma BiddersStepwise(b: Books, m: AssetId, id: OrderId)
    requires id in BidsFor(b, m)
    ensures var b' := CancelBid(b, id);
      b'.balances.Keys + Bidders(b', m) == b.balances.Keys + Bidders(b, m)
  {
    var b' := CancelBid(b, id);
    forall who | who in Bidders(b, m)
      ensures who in b'.balances.Keys + Bidders(b', m)
    {
      var i :| i in BidsFor(b, m) && BidderOf(b.bids[i]) == who;
      assert i != id ==> i in BidsFor(b', m) && b'.bids[i] == b.bids[i];
    }
    forall who | who in Bidders(b', m)
      ensures who in Bidders(b, m)
    {
      var i :| i in BidsFor(b', m) && BidderOf(b'.bids[i]) == who;
      assert i in BidsFor(b, m) && b'.bids[i] == b.bids[i];
    }
  }

  lemma NothingToRefund(b: Books, m: AssetId)
    requires BidsFor(b, m) == {}
    ensures Refunded(b, m) == b
  {
    assert forall id <- b.bids :: b.bids[id].invSwanPrice.quote.id == m ==> id in BidsFor(b, m);
    forall who: (AccountId, AssetId)
      ensures Refund(b, m, who) == 0
    {
      SumZero(b.bids, RefundIn(m, who));
    }
    assert b.bids - BidsFor(b, m) == b.bids && Bidders(b, m) == {};
    assert Refunded(b, m).balances == b.balances;
  }
}

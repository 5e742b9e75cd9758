/** Who is paid what when settlement orders are settled at the end of a block. */
module SettlementPayments {
  import opened Wrappers
  import opened Prices
  import opened Books
  import opened MarketRules
  import opened Payments
  import opened ForceSettlement

  /** What one match takes of the order and pays for it, out of a position. */
  datatype Fill = Fill(position: CallOrder, receives: nat, paid: nat)

  /** The matches of an order, one after the other. */
  ghost function FillsOf(
      rules: FeeRules, b: Books, m: AssetId, id: OrderId, price: Price, cap: nat, settled: nat): seq<Fill>
    decreases cap - settled
  {
    if settled >= cap || id !in b.settlements then []
    else
      match StepOf(rules, b, m, id, price, cap - settled)
      case MatchThrows => []
      case MatchSwan => []
      case MatchFills(b', receives) =>
        [Fill(b.calls[LeastOf(b, m).value], receives, Times(Asset(receives, price.base.id), price).value.amount)] +
        FillsOf(rules, b', m, id, price, cap, settled + receives)
  }

  ghost function Received(fills: seq<Fill>): nat {
    if fills == [] then 0 else fills[0].receives + Received(fills[1..])
  }

  ghost function TotalPaid(fills: seq<Fill>): nat {
    if fills == [] then 0 else fills[0].paid + TotalPaid(fills[1..])
  }

  /** Each match pays the price's worth of what it takes, rounded down, with collateral to spare. */
  ghost predicate AreAt(fills: seq<Fill>, price: Price) {
    forall i :: 0 <= i < |fills| ==> IsAt(fills[i], price)
  }

  predicate IsAt(fill: Fill, price: Price) {
    && 0 < fill.receives <= fill.position.debt && fill.paid < fill.position.collateral
    && RoundsDown(fill.paid, fill.receives * price.quote.amount, price.base.amount)
  }

  lemma OneMatch(rules: FeeRules, b: Books, m: AssetId, id: OrderId, price: Price, max: nat) returns (fill: Fill)
    requires price.base.id != price.quote.id && max > 0 && id in b.settlements
    requires StepOf(rules, b, m, id, price, max).MatchFills?
    ensures LeastOf(b, m).Some? && LeastOf(b, m).value in b.calls
    ensures IsAt(fill, price) && fill.position == b.calls[LeastOf(b, m).value]
    ensures var r, call := StepOf(rules, b, m, id, price, max), LeastOf(b, m).value;
      && fill.receives == r.receives && r.receives <= b.settlements[id].balance.amount
      && Times(Asset(fill.receives, price.base.id), price) == Some(Asset(fill.paid, price.quote.id))
      && r.books == Matched(rules, b, call, id, fill.paid, fill.receives)
  {
    hide Matched, Times;
    var call, r := LeastOf(b, m).value, StepOf(rules, b, m, id, price, max);
    ConversionRounds(Asset(r.receives, price.base.id), price);
    fill := Fill(b.calls[call], r.receives, Times(Asset(r.receives, price.base.id), price).value.amount);
  }

  /** The borrower gets the collateral of a position without debt, the owner what the match pays less the fee. */
  function MatchReceipts(rules: FeeRules, owner: AccountId, fill: Fill): seq<Receipt> {
    var c, a := fill.position, fill.position.CollateralType();
    var closed := fill.receives == c.debt && fill.paid <= c.collateral;
    [Receipt(c.borrower, a, if closed then c.collateral - fill.paid else 0),
     Receipt(owner, a, fill.paid - MarketFee(rules, a, fill.paid))]
  }

  function ReceiptsOf(rules: FeeRules, owner: AccountId, fills: seq<Fill>): seq<Receipt> {
    if fills == [] then [] else MatchReceipts(rules, owner, fills[0]) + ReceiptsOf(rules, owner, fills[1..])
  }

  lemma MatchedPays(rules: FeeRules, b: Books, call: OrderId, id: OrderId, paid: nat, receives: nat)
    requires call in b.calls && id in b.settlements && paid <= b.calls[call].collateral
    requires receives <= b.calls[call].debt && receives <= b.settlements[id].balance.amount
    ensures Pays(b, Matched(rules, b, call, id, paid, receives),
              MatchReceipts(rules, b.settlements[id].owner, Fill(b.calls[call], receives, paid)))
  {
    hide FillCall, FillSettlement;
    var c := b.calls[call];
    var b1 := FillCall(b, call, paid, receives);
    FillCallFrame(b, call, paid, receives);
    FillCallPays(b, call, paid, receives);
    FillSettlementPays(rules, b1, id, receives, Asset(paid, c.CollateralType()));
    var receipts := MatchReceipts(rules, b.settlements[id].owner, Fill(c, receives, paid));
    forall x, a {
      GainedByTwo(receipts[0], receipts[1], x, a);
    }
  }

  /** What is left of the order after a match; one that is taken completely is gone. */
  lemma MatchedOrder(rules: FeeRules, b: Books, call: OrderId, id: OrderId, paid: nat, receives: nat)
    requires call in b.calls && id in b.settlements && paid <= b.calls[call].collateral
    requires receives <= b.calls[call].debt && receives <= b.settlements[id].balance.amount
    ensures var s, b' := b.settlements[id], Matched(rules, b, call, id, paid, receives);
      if receives == s.balance.amount then id !in b'.settlements
      else
        && id in b'.settlements
        && b'.settlements[id] == s.(balance := Asset(s.balance.amount - receives, s.balance.id))
  {
    hide FillCall, Receive;
    FillCallFrame(b, call, paid, receives);
    var s, b1 := b.settlements[id], FillCall(b, call, paid, receives);
    var b2 := Receive(rules, b1, s.owner, b.calls[call].CollateralType(), paid);
    var b' := Matched(rules, b, call, id, paid, receives);
    if receives < s.balance.amount {
      assert b'.settlements[id] == s.(balance := Asset(s.balance.amount - receives, s.balance.id));
    } else {
      assert b'.settlements == b.settlements - {id};
    }
  }

  /** The order's owner gets what is not taken back if the order is gone. */
  function Refund(s: Settlement, id: OrderId, b': Books, received: nat): Receipt {
    var gone := id !in b'.settlements && received <= s.balance.amount;
    Receipt(s.owner, s.balance.id, if gone then s.balance.amount - received else 0)
  }

  /** What the settling of an order takes and pays: `fills`, and the refund if a black swan ends it. */
  ghost predicate SettlesBy(
      rules: FeeRules, b: Books, b': Books, id: OrderId, price: Price, fills: seq<Fill>)
    requires id in b.settlements
  {
    var taken := Received(fills);
    && AreAt(fills, price) && taken <= b.settlements[id].balance.amount
    && Pays(b, b', ReceiptsOf(rules, b.settlements[id].owner, fills)
                   + [Refund(b.settlements[id], id, b', taken)])
    && (id in b'.settlements ==> b'.settlements[id].balance.amount == b.settlements[id].balance.amount - taken)
  }

  /** The matches take as much of the order as is noted as settled, and pay exactly these receipts. */
  lemma {:induction false} SettledUpToPays(
      rules: FeeRules, b: Books, m: AssetId, id: OrderId, price: Price, cap: nat, settled: nat)
    requires price.base.id != price.quote.id && SettledUpTo(rules, b, m, id, price, cap, settled).Some?
    requires id in b.settlements
    ensures var r := SettledUpTo(rules, b, m, id, price, cap, settled).value;
      var fills := FillsOf(rules, b, m, id, price, cap, settled);
      r.1 == settled + Received(fills) && SettlesBy(rules, b, r.0, id, price, fills)
    decreases cap - settled
  {
    hide Pays, Matched, StepOf, MatchReceipts, Times, SettlesBy, CancelSettlement;
    if settled >= cap {
      NothingSettled(rules, b, b, id, price);
    } else {
      var r := StepOf(rules, b, m, id, price, cap - settled);
      SettledUpToUnfolds(rules, b, m, id, price, cap, settled);
      if r.MatchSwan? {
        NothingSettled(rules, b, CancelSettlement(b, id), id, price);
      } else {
        var fill := OneMatch(rules, b, m, id, price, cap - settled);
        var fills := FillsOf(rules, r.books, m, id, price, cap, settled + r.receives);
        var next := SettledUpTo(rules, r.books, m, id, price, cap, settled + r.receives).value;
        MatchedOrder(rules, b, LeastOf(b, m).value, id, fill.paid, fill.receives);
        if id in r.books.settlements {
          SettledUpToPays(rules, r.books, m, id, price, cap, settled + r.receives);
        }
        FirstFill(rules, b, r.books, next.0, LeastOf(b, m).value, id, price, fill, fills);
      }
    }
  }

  lemma NothingSettled(rules: FeeRules, b: Books, b': Books, id: OrderId, price: Price)
    requires id in b.settlements && (b' == b || b' == CancelSettlement(b, id))
    ensures SettlesBy(rules, b, b', id, price, [])
  {
    var s := b.settlements[id];
    var refund := Refund(s, id, b', 0);
    CancelSettlementPays(b, id);
    assert ReceiptsOf(rules, s.owner, []) + [refund] == [refund];
    forall x, a {
      GainedByOne(refund, x, a);
    }
  }

  /** A match, and the settling of what it leaves. */
  lemma FirstFill(rules: FeeRules, b: Books, b1: Books, b': Books, call: OrderId, id: OrderId, price: Price,
      fill: Fill, fills: seq<Fill>)
    requires call in b.calls && id in b.settlements && IsAt(fill, price) && fill.position == b.calls[call]
    requires fill.receives <= b.settlements[id].balance.amount
    requires b1 == Matched(rules, b, call, id, fill.paid, fill.receives)
    requires if id in b1.settlements then SettlesBy(rules, b1, b', id, price, fills) else b' == b1 && fills == []
    ensures SettlesBy(rules, b, b', id, price, [fill] + fills)
    ensures Received([fill] + fills) == fill.receives + Received(fills)
  {
    hide Pays, Matched, MatchReceipts;
    var s, all := b.settlements[id], [fill] + fills;
    assert all[1..] == fills;
    MatchedOrder(rules, b, call, id, fill.paid, fill.receives);
    MatchedPays(rules, b, call, id, fill.paid, fill.receives);
    var first, refund := MatchReceipts(rules, s.owner, fill), Refund(s, id, b', Received(all));
    var rest := ReceiptsOf(rules, s.owner, fills) + [refund];
    assert Received(all) == fill.receives + Received(fills);
    FirstIsAt(fill, fills, price);
    if id !in b1.settlements {
      RefundOfNothing(b1, refund);
      assert rest == [refund];
    } else {
      assert Refund(b1.settlements[id], id, b', Received(fills)) == refund;
    }
    PaysBoth(b, b1, b', first, rest);
    assert first + rest == ReceiptsOf(rules, s.owner, all) + [refund];
  }

  lemma FirstIsAt(fill: Fill, fills: seq<Fill>, price: Price)
    requires IsAt(fill, price) && (fills == [] || AreAt(fills, price))
    ensures AreAt([fill] + fills, price)
  {
    hide IsAt;
  }

  lemma RefundOfNothing(b: Books, r: Receipt)
    requires r.amount == 0
    ensures Pays(b, b, [r])
  {
    forall x, a {
      GainedByOne(r, x, a);
    }
  }

  /** What the owner gains by the matches, less the market fee of each. */
  ghost function NetOf(rules: FeeRules, a: AssetId, fills: seq<Fill>): nat {
    if fills == [] then 0 else fills[0].paid - MarketFee(rules, a, fills[0].paid) + NetOf(rules, a, fills[1..])
  }

  lemma {:induction false} OwnerGainsTheNet(rules: FeeRules, owner: AccountId, a: AssetId, fills: seq<Fill>)
    requires forall i :: 0 <= i < |fills| ==> fills[i].position.CollateralType() == a
    ensures Gained(ReceiptsOf(rules, owner, fills), owner, a) >= NetOf(rules, a, fills)
    ensures (forall i :: 0 <= i < |fills| ==> fills[i].position.borrower != owner) ==>
      Gained(ReceiptsOf(rules, owner, fills), owner, a) == NetOf(rules, a, fills)
  {
    hide MarketFee;
    if fills != [] {
      OwnerGainsTheNet(rules, owner, a, fills[1..]);
      var receipts := MatchReceipts(rules, owner, fills[0]);
      GainedByTwo(receipts[0], receipts[1], owner, a);
      GainedByBoth(receipts, ReceiptsOf(rules, owner, fills[1..]), owner, a);
    }
  }

  /** All matches together pay the price's worth of what they take, short of one unit for each. */
  lemma {:induction false} PaidIsTheWorth(fills: seq<Fill>, price: Price)
    requires AreAt(fills, price) && price.base.amount > 0
    ensures TotalPaid(fills) * price.base.amount <= Received(fills) * price.quote.amount
    ensures Received(fills) * price.quote.amount <= (TotalPaid(fills) + |fills|) * price.base.amount
    ensures fills != [] ==> Received(fills) * price.quote.amount < (TotalPaid(fills) + |fills|) * price.base.amount
  {
    if fills != [] {
      var fill, rest := fills[0], fills[1..];
      assert IsAt(fill, price);
      PaidIsTheWorth(rest, price);
      Sums(fill.receives, Received(rest), price.quote.amount);
      Sums(fill.paid, TotalPaid(rest), price.base.amount);
      Sums(fill.paid + 1, TotalPaid(rest) + |rest|, price.base.amount);
    }
  }

  lemma Sums(x: nat, y: nat, z: nat)
    ensures (x + y) * z == x * z + y * z
  {}

  /**
    An order that is taken completely brings what its price says for the whole of it, short of
    one unit for each match but the first; with a single match it brings exactly that.
   */
  lemma WholeOrderIsPaid(fills: seq<Fill>, price: Price)
    requires AreAt(fills, price) && price.base.amount > 0 && Received(fills) == price.base.amount
    ensures price.quote.amount - |fills| < TotalPaid(fills) <= price.quote.amount
    ensures |fills| == 1 ==> TotalPaid(fills) == price.quote.amount
  {
    PaidIsTheWorth(fills, price);
    Commutes(price.base.amount, price.quote.amount);
    Cancel(TotalPaid(fills), price.quote.amount, price.base.amount);
    if price.quote.amount >= TotalPaid(fills) + |fills| {
      MulMonotone(TotalPaid(fills) + |fills|, price.quote.amount, price.base.amount);
    }
  }

  lemma Commutes(x: nat, y: nat)
    ensures x * y == y * x
  {}

  /**
    A settled order: what its matches take and pay is at the feed's price less the offset, and
    every balance gains exactly what they bring.
   */
  lemma SettledAtFeedPays(rules: FeeRules, b: Books, id: OrderId, cap: nat) returns (fills: seq<Fill>)
    requires Core(b) && id in b.settlements && b.settlements[id].balance.id in b.bitassets
    requires b.bitassets[b.settlements[id].balance.id].feed.Some? && SettledAtFeed(rules, b, id, cap).Some?
    ensures var order, b' := b.settlements[id].balance, SettledAtFeed(rules, b, id, cap).value;
      var x := b.bitassets[order.id];
      && SettlementPrice(x, order).Some? && order.id in b'.bitassets
      && b'.bitassets[order.id].forceSettled == x.forceSettled + Received(fills)
      && SettlesBy(rules, b, b', id, SettlementPrice(x, order).value, fills)
  {
    hide SettledUpTo, FillsOf, SettlesBy, SettlementPrice, Core, SettledAtFeed, Stored;
    var order := b.settlements[id].balance;
    var x := b.bitassets[order.id];
    SettledIsNoted(rules, b, id, cap);
    PriceIsInMarket(b, order);
    var price := SettlementPrice(x, order).value;
    SettledUpToPays(rules, b, order.id, id, price, cap, x.forceSettled);
    fills := FillsOf(rules, b, order.id, id, price, cap, x.forceSettled);
    var r := SettledUpTo(rules, b, order.id, id, price, cap, x.forceSettled).value;
    NotedSettles(rules, b, r.0, id, price, fills, order.id, r.1);
  }

  lemma SettledIsNoted(rules: FeeRules, b: Books, id: OrderId, cap: nat)
    requires id in b.settlements && b.settlements[id].balance.id in b.bitassets
    requires b.bitassets[b.settlements[id].balance.id].feed.Some? && SettledAtFeed(rules, b, id, cap).Some?
    ensures var order := b.settlements[id].balance;
      var x := b.bitassets[order.id]; var price := SettlementPrice(x, order);
      && price.Some?
      && var r := SettledUpTo(rules, b, order.id, id, price.value, cap, x.forceSettled);
      && r.Some? && order.id in r.value.0.bitassets
      && SettledAtFeed(rules, b, id, cap) == Some(Stored(r.value.0, order.id, r.value.1))
  {
    hide SettledUpTo, SettlementPrice;
  }

  lemma PriceIsInMarket(b: Books, order: Asset)
    requires Core(b) && order.id in b.bitassets && b.bitassets[order.id].feed.Some?
    requires SettlementPrice(b.bitassets[order.id], order).Some?
    ensures var price := SettlementPrice(b.bitassets[order.id], order).value;
      price.base == order && price.quote.id != order.id
  {
    assert BitassetOk(b, order.id);
  }

  /** Noting the volume changes nothing of this. */
  lemma NotedSettles(
      rules: FeeRules, b: Books, b1: Books, id: OrderId, price: Price, fills: seq<Fill>, m: AssetId, settled: nat)
    requires id in b.settlements && SettlesBy(rules, b, b1, id, price, fills) && m in b1.bitassets
    ensures SettlesBy(rules, b, Stored(b1, m, settled), id, price, fills)
    ensures m in Stored(b1, m, settled).bitassets && Stored(b1, m, settled).bitassets[m].forceSettled == settled
  {
    hide ReceiptsOf, Gained, AreAt, Received;
    assert Stored(b1, m, settled).balances == b1.balances && Stored(b1, m, settled).settlements == b1.settlements;
  }
}

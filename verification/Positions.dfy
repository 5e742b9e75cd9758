/**
  Operations on bitassets by their holders and borrowers: adjusting a margin position, and
  settling against the fund of a globally settled asset or by scheduling a settlement order.
 */
module Positions {
  import opened Wrappers
  import opened Prices
  import opened Books
  import opened MarketRules
  import opened MarketSpecs
  import opened Markets
  import opened Payments

  // ----- settling against the fund ------------------------------------------------------

  /** What settling `amount` pays: the settlement price's worth, or the fund to the last holder. */
  function Payout(x: Bitasset, supply: int, amount: nat): nat
    requires x.settlement.Some? && x.settlement.value.base.amount > 0
  {
    var p := x.settlement.value;
    if amount == supply then x.fund else amount * p.quote.amount / p.base.amount
  }

  /** A payout is the exact worth of the amount, rounded down; the last holder gets the whole fund. */
  lemma PayoutIsTheWorth(x: Bitasset, supply: int, amount: nat)
    requires x.settlement.Some? && x.settlement.value.base.amount > 0
    ensures var p, paid := x.settlement.value, Payout(x, supply, amount);
      && (amount == supply ==> paid == x.fund)
      && (amount != supply ==> RoundsDown(paid, amount * p.quote.amount, p.base.amount))
  {
    FloorBounds(amount * x.settlement.value.quote.amount, x.settlement.value.base.amount);
  }

  /** The fund can always pay, and stays able to pay everyone else. */
  lemma FundStaysSolvent(x: Bitasset, supply: int, amount: nat)
    requires x.settlement.Some? && Solvent(x, supply) && amount <= supply
    ensures Payout(x, supply, amount) <= x.fund
    ensures Solvent(x.(fund := x.fund - Payout(x, supply, amount)), supply - amount)
  {}

  /** An amount leaves an account and the supply; the fund pays for it. */
  function Repaid(b: Books, account: AccountId, amount: Asset, pays: nat): Books
    requires amount.id in b.bitassets && amount.amount <= b.Balance(account, amount.id)
    requires pays <= b.bitassets[amount.id].fund
  {
    var x := b.bitassets[amount.id];
    var b1 := Credit(b, account, amount.id, 0 - amount.amount);
    var b2 := b1.(bitassets := b1.bitassets[amount.id := x.(fund := x.fund - pays)]);
    AddSupply(Credit(b2, account, x.backing, pays), amount.id, 0 - amount.amount)
  }

  function Redeemed(b: Books, account: AccountId, amount: Asset): Books
    requires amount.id in b.bitassets && amount.amount <= b.Balance(account, amount.id)
    requires var x := b.bitassets[amount.id];
      && x.settlement.Some? && x.settlement.value.base.amount > 0
      && Payout(x, b.Supply(amount.id), amount.amount) <= x.fund
  {
    Repaid(b, account, amount, Payout(b.bitassets[amount.id], b.Supply(amount.id), amount.amount))
  }

  /** The account gives the amount, and gets what the fund pays for it. */
  lemma RepaidPays(b: Books, account: AccountId, amount: Asset, pays: nat)
    requires amount.id in b.bitassets && amount.amount <= b.Balance(account, amount.id)
    requires pays <= b.bitassets[amount.id].fund
    ensures forall x, a :: Repaid(b, account, amount, pays).Balance(x, a) ==
              b.Balance(x, a) - At(x, a, account, amount.id, amount.amount)
              + At(x, a, account, b.bitassets[amount.id].backing, pays)
    ensures FundPays(b, Repaid(b, account, amount, pays), amount, pays)
  {}

  /** The fund falls by what it pays and the supply by what it pays for; only balances change besides. */
  ghost predicate FundPays(b: Books, b': Books, amount: Asset, pays: nat) {
    && amount.id in b.bitassets && pays <= b.bitassets[amount.id].fund
    && var x := b.bitassets[amount.id];
    && b'.bitassets == b.bitassets[amount.id := x.(fund := x.fund - pays)]
    && (forall a :: b'.Supply(a) == b.Supply(a) - (if a == amount.id then amount.amount else 0))
    && b' == b.(balances := b'.balances, bitassets := b'.bitassets, supply := b'.supply)
  }

  lemma RedeemedKeeps(b: Books, account: AccountId, amount: Asset)
    requires Core(b) && amount.id in b.bitassets && b.bitassets[amount.id].settlement.Some?
    requires amount.amount <= b.Balance(account, amount.id) && amount.amount <= b.Supply(amount.id)
    ensures b.bitassets[amount.id].settlement.value.base.amount > 0
    ensures Payout(b.bitassets[amount.id], b.Supply(amount.id), amount.amount) <= b.bitassets[amount.id].fund
    ensures Core(Redeemed(b, account, amount))
    ensures SameGaps(b, Redeemed(b, account, amount))
  {
    assert BitassetOk(b, amount.id);
    FundStaysSolvent(b.bitassets[amount.id], b.Supply(amount.id), amount.amount);
    RedeemedKeepsCore(b, account, amount);
    RepaidKeepsGaps(b, account, amount, Payout(b.bitassets[amount.id], b.Supply(amount.id), amount.amount));
  }

  lemma RedeemedKeepsCore(b: Books, account: AccountId, amount: Asset)
    requires Core(b) && amount.id in b.bitassets && b.bitassets[amount.id].settlement.Some?
    requires amount.amount <= b.Balance(account, amount.id) && amount.amount <= b.Supply(amount.id)
    requires Solvent(b.bitassets[amount.id], b.Supply(amount.id))
    requires Payout(b.bitassets[amount.id], b.Supply(amount.id), amount.amount) <= b.bitassets[amount.id].fund
    ensures Core(Redeemed(b, account, amount))
  {
    var b' := Redeemed(b, account, amount);
    FundStaysSolvent(b.bitassets[amount.id], b.Supply(amount.id), amount.amount);
    forall m
      ensures BitassetOk(b', m)
    {
      assert BitassetOk(b, m);
      assert Debt(b', m) == Debt(b, m);
    }
    forall id
      ensures CallOk(b', id) && SettlementOk(b', id) && BidOk(b', id)
    {
      assert CallOk(b, id) && SettlementOk(b, id) && BidOk(b, id);
    }
  }

  lemma RepaidKeepsGaps(b: Books, account: AccountId, amount: Asset, pays: nat)
    requires amount.id in b.bitassets && amount.amount <= b.Balance(account, amount.id)
    requires pays <= b.bitassets[amount.id].fund
    ensures SameGaps(b, Repaid(b, account, amount, pays))
  {
    hide Gap;
    var x := b.bitassets[amount.id];
    var b1 := Credit(b, account, amount.id, 0 - amount.amount);
    var b2 := b1.(bitassets := b1.bitassets[amount.id := x.(fund := x.fund - pays)]);
    var b3 := Credit(b2, account, x.backing, pays);
    CreditMoves(b, account, amount.id, 0 - amount.amount);
    FundMoves(b1, amount.id, pays);
    CreditMoves(b2, account, x.backing, pays);
    SupplyMoves(b3, amount.id, 0 - amount.amount);
    var b4 := AddSupply(b3, amount.id, 0 - amount.amount);
    RoundTripKeepsGaps(b, b1, b2, b3, b4, amount.id, amount.amount, x.backing, pays);
    assert b4 == Repaid(b, account, amount, pays);
  }

  lemma RoundTripKeepsGaps(b: Books, b1: Books, b2: Books, b3: Books, b4: Books, p: AssetId, x: int, q: AssetId, y: int)
    requires Moves(b, b1, p, 0 - x) && Moves(b1, b2, q, 0 - y) && Moves(b2, b3, q, y) && Moves(b3, b4, p, x)
    ensures SameGaps(b, b4)
  {}

  /** A settlement order takes its balance from its owner's. */
  function Scheduled(b: Books, s: Settlement, id: OrderId): Books
    requires s.balance.amount <= b.Balance(s.owner, s.balance.id)
  {
    Credit(b, s.owner, s.balance.id, 0 - s.balance.amount).(settlements := b.settlements[id := s])
  }

  lemma ScheduledPays(b: Books, s: Settlement, id: OrderId)
    requires s.balance.amount <= b.Balance(s.owner, s.balance.id)
    ensures forall x, a :: Scheduled(b, s, id).Balance(x, a) ==
              b.Balance(x, a) - At(x, a, s.owner, s.balance.id, s.balance.amount)
    ensures var b' := Scheduled(b, s, id);
      b'.settlements == b.settlements[id := s] && b' == b.(balances := b'.balances, settlements := b'.settlements)
  {}

  lemma ScheduledKeeps(b: Books, s: Settlement, id: OrderId)
    requires Core(b) && s.balance.amount <= b.Balance(s.owner, s.balance.id)
    requires s.balance.id in b.bitassets && id !in b.settlements
    ensures Core(Scheduled(b, s, id))
    ensures SameGaps(b, Scheduled(b, s, id))
  {
    var b' := Scheduled(b, s, id);
    CreditShifts(b, s.owner, s.balance.id, 0 - s.balance.amount);
    PutSettlement(Credit(b, s.owner, s.balance.id, 0 - s.balance.amount), id, s);
    forall m
      ensures BitassetOk(b', m)
    {
      assert BitassetOk(b, m);
      assert Debt(b', m) == Debt(b, m);
    }
    forall i
      ensures CallOk(b', i) && SettlementOk(b', i) && BidOk(b', i)
    {
      assert CallOk(b, i) && SettlementOk(b, i) && BidOk(b, i);
    }
  }

  datatype SettleOutcome = Refused | Paid(amount: Asset) | Queued(id: OrderId)

  /** The account has the amount, and it can be paid from a fund or may wait for the feed's price. */
  predicate CanSettle(b: Books, account: AccountId, amount: Asset) {
    && amount.id in b.bitassets && amount.amount <= b.Balance(account, amount.id)
    && var x := b.bitassets[amount.id];
    && if x.settlement.Some? then Times(amount, x.settlement.value).Some?
       else x.canForceSettle && !x.isPredictionMarket && x.feed.Some?
  }

  /** A fund that is itself a possible amount never makes the conversion of a payout throw. */
  lemma PayoutConverts(b: Books, account: AccountId, amount: Asset)
    requires Core(b) && Gap(b, amount.id) <= 0 && amount.amount <= b.Balance(account, amount.id)
    requires amount.id in b.bitassets && b.bitassets[amount.id].settlement.Some?
    ensures amount.amount <= b.Supply(amount.id)
    ensures b.bitassets[amount.id].fund <= MAX_SHARE_SUPPLY ==> CanSettle(b, account, amount)
  {
    HoldingsWithinSupply(b, amount.id, account);
    assert BitassetOk(b, amount.id);
    var x := b.bitassets[amount.id];
    FundStaysSolvent(x, b.Supply(amount.id), amount.amount);
    NominalWithinFund(x, b.Supply(amount.id), amount.amount);
  }

  lemma NominalWithinFund(x: Bitasset, supply: int, amount: nat)
    requires x.settlement.Some? && Solvent(x, supply) && amount <= supply
    ensures var p := x.settlement.value; amount * p.quote.amount / p.base.amount <= x.fund
  {
    PartWithinFund(amount, supply, x.settlement.value.quote.amount, x.settlement.value.base.amount, x.fund);
  }

  lemma PartWithinFund(amount: nat, supply: nat, q: nat, b: nat, fund: nat)
    requires amount <= supply && b > 0 && fund * b >= supply * q
    ensures amount * q / b <= fund
  {
    var worth: nat, part: nat := amount * q, amount * q / b;
    FloorIsGreatest(worth, b, part);
    MulMonotone(amount, supply, q);
    Cancel(part, fund, b);
  }

  /**
    Settles an amount. From a globally settled asset it is paid at once out of the fund, and
    the check that the fund suffices cannot fail.
   */
  method SettleAsset(k: Market, account: AccountId, amount: Asset, due: nat) returns (r: SettleOutcome)
    requires k.Valid() && Gap(k.books, amount.id) <= 0
    modifies k
    ensures r.Refused? <==> !CanSettle(old(k.books), account, amount)
    ensures r.Refused? ==> k.books == old(k.books)
    ensures !r.Refused? ==> k.Valid() && SameGaps(old(k.books), k.books) && k.books.limits == old(k.books).limits
    ensures r.Paid? ==> PaidOut(old(k.books), account, amount, r.amount)
    ensures r.Paid? ==> k.books == Repaid(old(k.books), account, amount, r.amount.amount)
    ensures r.Paid? ==> Exchanges(old(k.books), k.books, account, amount, r.amount)
    ensures r.Paid? ==> FundPays(old(k.books), k.books, amount, r.amount.amount)
    ensures r.Queued? ==> Exchanges(old(k.books), k.books, account, amount, Asset(0, amount.id))
    ensures r.Queued? ==> old(k.books).bitassets[amount.id].settlement.None?
    ensures r.Queued? ==> k.books == Scheduled(old(k.books), Settlement(account, amount, due), r.id)
    ensures r.Queued? ==> r.id == old(k.nextId) && r.id !in old(k.books).settlements
    ensures r.Queued? ==> k.books.settlements == old(k.books).settlements[r.id := Settlement(account, amount, due)]
  {
    var b := k.books;
    if amount.id !in b.bitassets || b.Balance(account, amount.id) < amount.amount {
      return Refused;
    }
    var x := b.bitassets[amount.id];
    if x.settlement.Some? {
      r := PayFromFund(k, account, amount);
    } else if !x.canForceSettle || x.isPredictionMarket || x.feed.None? {
      r := Refused;
    } else {
      ScheduledPays(k.books, Settlement(account, amount, due), k.nextId);
      r := Schedule(k, Settlement(account, amount, due));
    }
  }

  /** What the settlement price gives, except that the last holder receives all that is left. */
  ghost predicate PaidOut(b: Books, account: AccountId, amount: Asset, paid: Asset) {
    && CanSettle(b, account, amount)
    && var x := b.bitassets[amount.id];
    && x.settlement.Some? && paid.id == x.backing && paid.amount <= x.fund
    && var p := x.settlement.value;
    if amount.amount == b.Supply(amount.id) then paid.amount == x.fund
    else RoundsDown(paid.amount, amount.amount * p.quote.amount, p.base.amount)
  }

  /** From `b` to `b'` only this account's balances change: it gives one amount and gets another. */
  ghost predicate Exchanges(b: Books, b': Books, account: AccountId, gives: Asset, gets: Asset) {
    forall x, a :: b'.Balance(x, a) ==
      b.Balance(x, a) - At(x, a, account, gives.id, gives.amount) + At(x, a, account, gets.id, gets.amount)
  }

  method Schedule(k: Market, s: Settlement) returns (r: SettleOutcome)
    requires k.Valid() && s.balance.id in k.books.bitassets
    requires s.balance.amount <= k.books.Balance(s.owner, s.balance.id)
    modifies k
    ensures r.Queued? && r.id == old(k.nextId) && r.id !in old(k.books).settlements
    ensures k.books == Scheduled(old(k.books), s, r.id)
    ensures k.Valid() && SameGaps(old(k.books), k.books)
  {
    var id := k.nextId;
    ScheduledKeeps(k.books, s, id);
    var taken := k.AdjustBalance(s.owner, s.balance.id, 0 - s.balance.amount);
    k.books := k.books.(settlements := k.books.settlements[id := s]);
    k.nextId := id + 1;
    return Queued(id);
  }

  method PayFromFund(k: Market, account: AccountId, amount: Asset) returns (r: SettleOutcome)
    requires k.Valid() && Gap(k.books, amount.id) <= 0
    requires amount.id in k.books.bitassets && k.books.bitassets[amount.id].settlement.Some?
    requires amount.amount <= k.books.Balance(account, amount.id)
    modifies k`books
    ensures r.Refused? <==> !CanSettle(old(k.books), account, amount)
    ensures r.Refused? ==> k.books == old(k.books)
    ensures !r.Refused? ==> r.Paid? && PaidOut(old(k.books), account, amount, r.amount)
    ensures !r.Refused? ==> k.books == Repaid(old(k.books), account, amount, r.amount.amount)
    ensures !r.Refused? ==> Exchanges(old(k.books), k.books, account, amount, r.amount)
    ensures !r.Refused? ==> FundPays(old(k.books), k.books, amount, r.amount.amount)
    ensures !r.Refused? ==> k.Valid() && SameGaps(old(k.books), k.books)
  {
    var b, x := k.books, k.books.bitassets[amount.id];
    PayoutConverts(b, account, amount);
    assert BitassetOk(b, amount.id);
    RedeemedKeeps(b, account, amount);
    PayoutIsTheWorth(x, b.Supply(amount.id), amount.amount);
    RepaidPays(b, account, amount, Payout(x, b.Supply(amount.id), amount.amount));
    var settled := Times(amount, x.settlement.value);
    if settled.None? {
      return Refused;
    }
    var pays := settled.value;
    if amount.amount == b.Supply(amount.id) {
      pays := Asset(x.fund, pays.id);
    } else {
      assert pays.amount <= x.fund;
    }
    TakeFromFund(k, account, amount, pays.amount);
    return Paid(pays);
  }

  method TakeFromFund(k: Market, account: AccountId, amount: Asset, pays: nat)
    requires amount.id in k.books.bitassets && k.books.bitassets[amount.id].settlement.Some?
    requires k.books.bitassets[amount.id].settlement.value.base.amount > 0
    requires amount.amount <= k.books.Balance(account, amount.id) && pays <= k.books.bitassets[amount.id].fund
    requires pays == Payout(k.books.bitassets[amount.id], k.books.Supply(amount.id), amount.amount)
    modifies k`books
    ensures k.books == Redeemed(old(k.books), account, amount)
  {
    var x := k.books.bitassets[amount.id];
    var taken := k.AdjustBalance(account, amount.id, 0 - amount.amount);
    k.books := k.books.(bitassets := k.books.bitassets[amount.id := x.(fund := x.fund - pays)]);
    taken := k.AdjustBalance(account, x.backing, pays);
    k.books := AddSupply(k.books, amount.id, 0 - amount.amount);
  }

  // ----- margin positions ---------------------------------------------------------------

  /** The borrower's balances and the supply follow the changes of debt and collateral. */
  function Rebooked(b: Books, account: AccountId, m: AssetId, backing: AssetId, debt: int, collateral: int): Books
    requires m != backing && b.Balance(account, m) + debt >= 0 && b.Balance(account, backing) - collateral >= 0
  {
    Credit(AddSupply(Credit(b, account, m, debt), m, debt), account, backing, 0 - collateral)
  }

  lemma RebookedPays(b: Books, account: AccountId, m: AssetId, backing: AssetId, debt: int, collateral: int)
    requires m != backing && b.Balance(account, m) + debt >= 0 && b.Balance(account, backing) - collateral >= 0
    ensures forall x, a :: Rebooked(b, account, m, backing, debt, collateral).Balance(x, a) ==
              b.Balance(x, a) + At(x, a, account, m, debt) - At(x, a, account, backing, collateral)
  {}

  lemma RebookedMoves(b: Books, account: AccountId, m: AssetId, backing: AssetId, debt: int, collateral: int)
    requires m != backing && b.Balance(account, m) + debt >= 0 && b.Balance(account, backing) - collateral >= 0
    ensures Moves(b, Rebooked(b, account, m, backing, debt, collateral), backing, 0 - collateral)
  {
    var b1 := Credit(b, account, m, debt);
    var b2 := AddSupply(b1, m, debt);
    CreditMoves(b, account, m, debt);
    SupplyMoves(b1, m, debt);
    CreditMoves(b2, account, backing, 0 - collateral);
    ThreeMoves(b, b1, b2, Rebooked(b, account, m, backing, debt, collateral), m, debt, backing, 0 - collateral);
  }

  lemma ThreeMoves(b: Books, b1: Books, b2: Books, b3: Books, p: AssetId, x: int, q: AssetId, y: int)
    requires Moves(b, b1, p, x) && Moves(b1, b2, p, 0 - x) && Moves(b2, b3, q, y)
    ensures Moves(b, b3, q, y)
  {}

  lemma MovedBackKeepsGaps(b: Books, b1: Books, b2: Books, q: AssetId, y: int)
    requires Moves(b, b1, q, y) && Moves(b1, b2, q, 0 - y)
    ensures SameGaps(b, b2)
  {}

  /** The call order as it stands after the change, or a new one. */
  ghost predicate Follows(b: Books, id: OrderId, c: CallOrder, debt: int, collateral: int) {
    if id in b.calls then
      && c.callPrice.base.id == b.calls[id].CollateralType() && c.DebtType() == b.calls[id].DebtType()
      && c.debt == b.calls[id].debt + debt && c.collateral == b.calls[id].collateral + collateral
    else c.debt == debt && c.collateral == collateral
  }

  function Positioned(b: Books, account: AccountId, id: OrderId, c: CallOrder, debt: int, collateral: int): Books
    requires c.DebtType() != c.CollateralType()
    requires b.Balance(account, c.DebtType()) + debt >= 0 && b.Balance(account, c.CollateralType()) - collateral >= 0
  {
    var b1 := Rebooked(b, account, c.DebtType(), c.CollateralType(), debt, collateral);
    b1.(calls := b1.calls[id := c])
  }

  lemma PositionedKeeps(b: Books, account: AccountId, id: OrderId, c: CallOrder, debt: int, collateral: int)
    requires Core(b) && c.debt > 0 && c.callPrice.Positive() && c.DebtType() in b.bitassets
    requires b.bitassets[c.DebtType()].backing == c.CollateralType() && b.bitassets[c.DebtType()].settlement.None?
    requires b.Balance(account, c.DebtType()) + debt >= 0 && b.Balance(account, c.CollateralType()) - collateral >= 0
    requires Follows(b, id, c, debt, collateral)
    ensures Core(Positioned(b, account, id, c, debt, collateral))
    ensures SameGaps(b, Positioned(b, account, id, c, debt, collateral))
  {
    var m, backing := c.DebtType(), c.CollateralType();
    var b1 := Rebooked(b, account, m, backing, debt, collateral);
    RebookedMoves(b, account, m, backing, debt, collateral);
    PutCall(b1, id, c);
    assert b1.calls == b.calls;
    var b2 := b1.(calls := b1.calls[id := c]);
    MovedBackKeepsGaps(b, b1, b2, backing, 0 - collateral);
    DebtFollows(b, b2, m, debt);
  }

  /** The borrower gets the new debt and pays for the new collateral; nobody else's balance changes. */
  lemma PositionedPays(b: Books, account: AccountId, id: OrderId, c: CallOrder, debt: int, collateral: int)
    requires c.DebtType() != c.CollateralType()
    requires b.Balance(account, c.DebtType()) + debt >= 0 && b.Balance(account, c.CollateralType()) - collateral >= 0
    ensures forall x, a ::
      Positioned(b, account, id, c, debt, collateral).Balance(x, a) ==
      b.Balance(x, a) + At(x, a, account, c.DebtType(), debt) - At(x, a, account, c.CollateralType(), collateral)
    ensures var b' := Positioned(b, account, id, c, debt, collateral);
      && b'.calls == b.calls[id := c] && b' == b.(balances := b'.balances, supply := b'.supply, calls := b'.calls)
      && forall a :: b'.Supply(a) == b.Supply(a) + (if a == c.DebtType() then debt else 0)
  {
    RebookedPays(b, account, c.DebtType(), c.CollateralType(), debt, collateral);
  }

  function Closed(b: Books, account: AccountId, id: OrderId): Books
    requires id in b.calls && b.calls[id].DebtType() != b.calls[id].CollateralType()
    requires b.calls[id].debt <= b.Balance(account, b.calls[id].DebtType())
  {
    var c := b.calls[id];
    var b1 := Rebooked(b, account, c.DebtType(), c.CollateralType(), 0 - c.debt, 0 - c.collateral);
    b1.(calls := b1.calls - {id})
  }

  /** Whoever closes a position pays its debt and gets its collateral. */
  lemma ClosedPays(b: Books, account: AccountId, id: OrderId)
    requires id in b.calls && b.calls[id].DebtType() != b.calls[id].CollateralType()
    requires b.calls[id].debt <= b.Balance(account, b.calls[id].DebtType())
    ensures var c := b.calls[id];
      forall x, a :: Closed(b, account, id).Balance(x, a) ==
        b.Balance(x, a) - At(x, a, account, c.DebtType(), c.debt) + At(x, a, account, c.CollateralType(), c.collateral)
    ensures var c, b' := b.calls[id], Closed(b, account, id);
      && b'.calls == b.calls - {id} && b' == b.(balances := b'.balances, supply := b'.supply, calls := b'.calls)
      && forall a :: b'.Supply(a) == b.Supply(a) - (if a == c.DebtType() then c.debt else 0)
  {
    var c := b.calls[id];
    RebookedPays(b, account, c.DebtType(), c.CollateralType(), 0 - c.debt, 0 - c.collateral);
  }

  lemma DropCallMoves(b: Books, id: OrderId)
    requires id in b.calls
    ensures Moves(b, b.(calls := b.calls - {id}), b.calls[id].CollateralType(), 0 - b.calls[id].collateral)
    ensures forall a :: Debt(b.(calls := b.calls - {id}), a) == Debt(b, a) - DebtIn(a)(id, b.calls[id])
  {
    DropCall(b, id);
  }

  lemma ClosedKeepsGaps(b: Books, account: AccountId, id: OrderId)
    requires id in b.calls && b.calls[id].DebtType() != b.calls[id].CollateralType()
    requires b.calls[id].debt <= b.Balance(account, b.calls[id].DebtType())
    ensures SameGaps(b, Closed(b, account, id))
    ensures forall a :: Debt(Closed(b, account, id), a) == Debt(b, a) - DebtIn(a)(id, b.calls[id])
  {
    hide Gap;
    var m, backing := b.calls[id].DebtType(), b.calls[id].CollateralType();
    var debt: int, collateral: int := b.calls[id].debt, b.calls[id].collateral;
    var b1 := Rebooked(b, account, m, backing, 0 - debt, 0 - collateral);
    RebookedMoves(b, account, m, backing, 0 - debt, 0 - collateral);
    assert b1.calls == b.calls;
    var b2 := b1.(calls := b1.calls - {id});
    DropCallMoves(b1, id);
    assert Moves(b1, b2, backing, 0 - collateral);
    MovedBackKeepsGaps(b, b1, b2, backing, collateral);
    assert b2 == Closed(b, account, id);
  }

  lemma ClosedKeeps(b: Books, account: AccountId, id: OrderId)
    requires Core(b) && id in b.calls && b.calls[id].DebtType() != b.calls[id].CollateralType()
    requires b.calls[id].debt <= b.Balance(account, b.calls[id].DebtType())
    ensures Core(Closed(b, account, id))
    ensures SameGaps(b, Closed(b, account, id))
  {
    var c := b.calls[id];
    ClosedKeepsGaps(b, account, id);
    assert CallOk(b, id);
    DebtFollows(b, Closed(b, account, id), c.DebtType(), 0 - c.debt);
  }

  /** Debt and supply of an unsettled asset may change together. */
  lemma DebtFollows(b: Books, b': Books, m: AssetId, debt: int)
    requires Core(b) && m in b.bitassets && b.bitassets[m].settlement.None?
    requires b'.bitassets == b.bitassets && b'.settlements == b.settlements && b'.bids == b.bids
    requires forall a :: b'.Supply(a) == b.Supply(a) + (if a == m then debt else 0)
    requires forall a :: Debt(b', a) == Debt(b, a) + (if a == m then debt else 0)
    requires forall i <- b'.calls :: (i in b.calls && b'.calls[i] == b.calls[i]) || CallOk(b', i)
    ensures Core(b')
  {
    forall n
      ensures BitassetOk(b', n)
    {
      assert BitassetOk(b, n);
    }
    forall i
      ensures CallOk(b', i) && SettlementOk(b', i) && BidOk(b', i)
    {
      assert CallOk(b, i) && SettlementOk(b, i) && BidOk(b, i);
    }
  }

  /** The call price of a debt and its collateral; the feed's maintenance ratio is part of it. */
  type CallPricing = (nat, nat) -> Price

  ghost predicate PricesCalls(pricing: CallPricing, m: AssetId, backing: AssetId) {
    forall debt: nat, collateral: nat | debt > 0 && collateral > 0 ::
      pricing(debt, collateral).Positive() && PriceOf(pricing(debt, collateral).Inverse(), m, backing)
  }

  /** What a borrower asks for: changes, of either sign, of its debt and of its collateral. */
  datatype Update = Update(account: AccountId, m: AssetId, debt: int, backing: AssetId, collateral: int)

  predicate IsOwn(b: Books, u: Update, id: OrderId) {
    id in b.calls && b.calls[id].borrower == u.account && b.calls[id].DebtType() == u.m
  }

  /** The borrower's position in the asset, or the next id if it has none. */
  ghost predicate IsPosition(b: Books, u: Update, id: OrderId, nextId: OrderId) {
    if exists i :: IsOwn(b, u, i) then IsOwn(b, u, id) else id == nextId && id !in b.calls
  }

  /** The position before the update; one that is not there yet is empty. */
  function Standing(b: Books, u: Update, id: OrderId): CallOrder {
    if id in b.calls then b.calls[id] else CallOrder(u.account, 0, 0, Price(Asset(0, u.backing), Asset(0, u.m)))
  }

  /** What the evaluator asks of an update before it touches anything. */
  predicate MayUpdate(b: Books, u: Update) {
    && u.m in b.bitassets
    && var x := b.bitassets[u.m];
    && x.settlement.None? && u.backing == x.backing
    && (if x.isPredictionMarket then u.collateral == u.debt else x.feed.Some?)
  }

  ghost predicate InMarket(b: Books, u: Update, id: OrderId) {
    u.m != u.backing && (id in b.calls ==> b.calls[id].DebtType() == u.m && b.calls[id].CollateralType() == u.backing)
  }

  /** The position as the update asks for it; one left without debt and collateral is closed. */
  ghost function Repositioned(b: Books, u: Update, id: OrderId, pricing: CallPricing): (r: Option<Books>)
    requires InMarket(b, u, id) && PricesCalls(pricing, u.m, u.backing)
    ensures r.Some? ==> r.value.limits == b.limits && r.value.bitassets == b.bitassets
  {
    var c := Standing(b, u, id);
    var debt, collateral := c.debt + u.debt, c.collateral + u.collateral;
    if b.Balance(u.account, u.m) + u.debt < 0 || b.Balance(u.account, u.backing) - u.collateral < 0 then None
    else if id in b.calls && debt == 0 && collateral == 0 then Some(Closed(b, u.account, id))
    else if debt <= 0 || collateral <= 0 then None
    else
      var c' := c.(debt := debt, collateral := collateral, callPrice := pricing(debt, collateral));
      Some(Positioned(b, u.account, id, c', u.debt, u.collateral))
  }

  /**
    The whole update. A margin call that follows must close the position completely, and where
    none follows the position must be out of reach of one; a prediction market has no calls.
   */
  ghost function Updated(rules: FeeRules, b: Books, u: Update, id: OrderId, pricing: CallPricing): Option<Books>
    requires LimitsOk(b.limits) && (MayUpdate(b, u) ==> InMarket(b, u, id)) && PricesCalls(pricing, u.m, u.backing)
  {
    if !MayUpdate(b, u) then None
    else
      var placed := Repositioned(b, u, id, pricing);
      if placed.None? || b.bitassets[u.m].isPredictionMarket || id !in placed.value.calls then placed
      else UncalledOrClosed(rules, placed.value, u.m, id)
  }

  ghost function UncalledOrClosed(rules: FeeRules, b: Books, m: AssetId, id: OrderId): Option<Books>
    requires LimitsOk(b.limits) && id in b.calls && m in b.bitassets && b.bitassets[m].feed.Some?
  {
    var r := CheckedCalls(rules, b, m, false);
    if r.None? || (if r.value.1 then id in r.value.0.calls else !OutOfReach(b, id, m)) then None else Some(r.value.0)
  }

  /** A borrower's position in the asset is backed by its backing asset. */
  lemma PositionIsInMarket(b: Books, u: Update, id: OrderId, nextId: OrderId)
    requires Core(b) && MayUpdate(b, u) && IsPosition(b, u, id, nextId)
    ensures InMarket(b, u, id)
  {
    assert BitassetOk(b, u.m) && CallOk(b, id);
  }

  /** The borrower's position as the update asks for it, and nothing else touched. */
  ghost predicate Taken(b: Books, b': Books, u: Update, id: OrderId, pricing: CallPricing) {
    && id in b'.calls && IsOwn(b', u, id) && b'.calls[id].CollateralType() == u.backing
    && b'.calls[id].callPrice == pricing(b'.calls[id].debt, b'.calls[id].collateral)
    && u.m != u.backing && Follows(b, id, b'.calls[id], u.debt, u.collateral)
    && b.Balance(u.account, u.m) + u.debt >= 0 && b.Balance(u.account, u.backing) - u.collateral >= 0
    && b' == Positioned(b, u.account, id, b'.calls[id], u.debt, u.collateral)
  }

  /** No margin call is due: the call price is better than the feed. */
  ghost predicate OutOfReach(b: Books, id: OrderId, m: AssetId) {
    && id in b.calls && m in b.bitassets && b.bitassets[m].feed.Some?
    && Less(b.calls[id].callPrice.Inverse(), b.bitassets[m].feed.value.settlementPrice)
  }

  /** At the feed's price the debt of its call price is worth less than the collateral. */
  lemma OutOfReachMeans(b: Books, id: OrderId, m: AssetId)
    requires id in b.calls && m in b.bitassets && b.bitassets[m].feed.Some?
    requires SameMarket(b.calls[id].callPrice.Inverse(), b.bitassets[m].feed.value.settlementPrice)
    ensures var call, feed := b.calls[id].callPrice, b.bitassets[m].feed.value.settlementPrice;
      OutOfReach(b, id, m) <==> call.quote.amount * feed.quote.amount < call.base.amount * feed.base.amount
  {}

  /** Finds the borrower's position, or numbers a new one. */
  method OwnCall(k: Market, u: Update) returns (id: OrderId)
    requires k.Valid()
    ensures IsPosition(k.books, u, id, k.nextId)
  {
    var own := set i | i in k.books.calls && IsOwn(k.books, u, i);
    if own == {} {
      forall i
        ensures !IsOwn(k.books, u, i)
      {
        assert i !in own;
      }
      return k.nextId;
    }
    id :| id in own;
  }

  /**
    Opens, adjusts or closes a position. It may end in a margin call only if that closes the
    position completely: one that is left is exactly as asked for, and out of reach of a call
    unless the asset is a prediction market.
   */
  method UpdateCall(k: Market, u: Update, pricing: CallPricing) returns (ok: bool, id: OrderId)
    requires k.Valid() && RestingBook(k.books.limits) && PricesCalls(pricing, u.m, u.backing)
    modifies k
    ensures IsPosition(old(k.books), u, id, old(k.nextId))
    ensures (MayUpdate(old(k.books), u) ==> InMarket(old(k.books), u, id))
    ensures Updated(k.feeRules, old(k.books), u, id, pricing) == if ok then Some(k.books) else None
    ensures ok ==> k.Valid() && RestingBook(k.books.limits) && SameGaps(old(k.books), k.books)
    ensures ok && id in k.books.calls ==> Taken(old(k.books), k.books, u, id, pricing)
    ensures ok && id in k.books.calls && !old(k.books).bitassets[u.m].isPredictionMarket ==>
      OutOfReach(k.books, id, u.m)
  {
    hide Core, Gap, Repositioned, UncalledOrClosed, RestingBook;
    id := OwnCall(k, u);
    if !MayUpdate(k.books, u) {
      return false, id;
    }
    PositionIsInMarket(k.books, u, id, k.nextId);
    var isPredictionMarket := k.books.bitassets[u.m].isPredictionMarket;
    ok := Reposition(k, u, id, pricing);
    if ok && !isPredictionMarket && id in k.books.calls {
      ghost var before := k.books;
      ok := CheckMarginCall(k, u.m, id);
      if ok {
        GapsTransitive(old(k.books), before, k.books);
        ShrunkStaysResting(before.limits, k.books.limits);
      }
    }
  }

  /** Puts the changed position into the books, or closes it. */
  method Reposition(k: Market, u: Update, id: OrderId, pricing: CallPricing) returns (ok: bool)
    requires k.Valid() && MayUpdate(k.books, u) && IsPosition(k.books, u, id, k.nextId)
    requires InMarket(k.books, u, id) && PricesCalls(pricing, u.m, u.backing)
    modifies k
    ensures Repositioned(old(k.books), u, id, pricing) == if ok then Some(k.books) else None
    ensures ok ==> k.Valid() && SameGaps(old(k.books), k.books)
    ensures ok && id in k.books.calls ==> Taken(old(k.books), k.books, u, id, pricing)
  {
    if k.books.Balance(u.account, u.m) + u.debt < 0 || k.books.Balance(u.account, u.backing) - u.collateral < 0 {
      return false;
    }
    assert CallOk(k.books, id);
    var c := Standing(k.books, u, id);
    var debt, collateral := c.debt + u.debt, c.collateral + u.collateral;
    if id in k.books.calls && debt == 0 && collateral == 0 {
      Close(k, u, id);
      return true;
    }
    if debt <= 0 || collateral <= 0 {
      return false;
    }
    Take(k, u, id, c.(debt := debt, collateral := collateral, callPrice := pricing(debt, collateral)), pricing);
    return true;
  }

  method Take(k: Market, u: Update, id: OrderId, c: CallOrder, pricing: CallPricing)
    requires k.Valid() && MayUpdate(k.books, u) && u.m != u.backing && (id in k.books.calls || id == k.nextId)
    requires k.books.Balance(u.account, u.m) + u.debt >= 0 && k.books.Balance(u.account, u.backing) - u.collateral >= 0
    requires c.debt > 0 && c.callPrice.Positive() && c.DebtType() == u.m && c.CollateralType() == u.backing
    requires c.borrower == u.account && c.callPrice == pricing(c.debt, c.collateral)
    requires Follows(k.books, id, c, u.debt, u.collateral)
    modifies k
    ensures k.Valid() && SameGaps(old(k.books), k.books)
    ensures k.books == Positioned(old(k.books), u.account, id, c, u.debt, u.collateral)
    ensures Taken(old(k.books), k.books, u, id, pricing)
  {
    PositionedKeeps(k.books, u.account, id, c, u.debt, u.collateral);
    Rebook(k, u);
    k.books := k.books.(calls := k.books.calls[id := c]);
    if id == k.nextId {
      k.nextId := id + 1;
    }
  }

  method Close(k: Market, u: Update, id: OrderId)
    requires k.Valid() && u.m != u.backing && id in k.books.calls
    requires k.books.calls[id].DebtType() == u.m && k.books.calls[id].CollateralType() == u.backing
    requires u.debt == 0 - k.books.calls[id].debt && u.collateral == 0 - k.books.calls[id].collateral
    requires k.books.calls[id].debt <= k.books.Balance(u.account, u.m)
    modifies k`books
    ensures k.Valid() && SameGaps(old(k.books), k.books) && k.books == Closed(old(k.books), u.account, id)
  {
    ClosedKeeps(k.books, u.account, id);
    Rebook(k, u);
    k.books := k.books.(calls := k.books.calls - {id});
  }

  /** The borrower gets the new debt, which adds to the supply, and pays the new collateral. */
  method Rebook(k: Market, u: Update)
    requires u.m != u.backing
    requires k.books.Balance(u.account, u.m) + u.debt >= 0 && k.books.Balance(u.account, u.backing) - u.collateral >= 0
    modifies k`books
    ensures k.books == Rebooked(old(k.books), u.account, u.m, u.backing, u.debt, u.collateral)
  {
    var taken := k.AdjustBalance(u.account, u.m, u.debt);
    k.books := AddSupply(k.books, u.m, u.debt);
    taken := k.AdjustBalance(u.account, u.backing, 0 - u.collateral);
  }

  /** Margin calls, without a black swan: the position must be closed by them, or out of reach. */
  method CheckMarginCall(k: Market, m: AssetId, id: OrderId) returns (ok: bool)
    requires k.Valid() && id in k.books.calls && m in k.books.bitassets
    requires k.books.bitassets[m].settlement.None? && k.books.bitassets[m].feed.Some?
    modifies k`books
    ensures UncalledOrClosed(k.feeRules, old(k.books), m, id) == if ok then Some(k.books) else None
    ensures ok ==> k.Valid() && SameGaps(old(k.books), k.books) && Shrunk(old(k.books).limits, k.books.limits, None)
    ensures ok && id in k.books.calls ==> k.books == old(k.books) && OutOfReach(k.books, id, m)
  {
    hide Core, Gap, CheckedCalls, Shrunk;
    var called;
    ok, called := k.CheckCallOrders(m, false);
    if ok && called {
      ok := id !in k.books.calls;
    } else if ok {
      ok := Less(k.books.calls[id].callPrice.Inverse(), k.books.bitassets[m].feed.value.settlementPrice);
    }
  }
}

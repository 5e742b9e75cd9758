/**
  Amounts of assets, prices as unreduced fractions, conversion that rounds down, and the
  amounts that change hands when two limit orders match.
 */
module Prices {
  import opened Wrappers

  type AssetId = nat

  const MAX_SHARE_SUPPLY: nat := 1_000_000_000_000_000

  datatype Asset = Asset(amount: nat, id: AssetId)

  datatype Price = Price(base: Asset, quote: Asset) {
    function Inverse(): Price {
      Price(quote, base)
    }

    predicate Positive() {
      base.amount > 0 && quote.amount > 0 && base.id != quote.id
    }
  }

  function MinPrice(base: AssetId, quote: AssetId): Price {
    Price(Asset(1, base), Asset(MAX_SHARE_SUPPLY, quote))
  }

  /** Prices of one market compare by cross multiplication, others by their asset ids. */
  predicate Less(a: Price, b: Price) {
    if a.base.id != b.base.id then a.base.id < b.base.id
    else if a.quote.id != b.quote.id then a.quote.id < b.quote.id
    else b.quote.amount * a.base.amount < a.quote.amount * b.base.amount
  }

  function Scale(amount: nat, num: nat, den: nat): Option<nat> {
    if den == 0 || amount * num / den > MAX_SHARE_SUPPLY then None else Some(amount * num / den)
  }

  /** `asset * price`; None where it throws. */
  function Times(a: Asset, p: Price): Option<Asset> {
    if a.id == p.base.id then
      var r := Scale(a.amount, p.quote.amount, p.base.amount);
      if r.None? then None else Some(Asset(r.value, p.quote.id))
    else if a.id == p.quote.id then
      var r := Scale(a.amount, p.base.amount, p.quote.amount);
      if r.None? then None else Some(Asset(r.value, p.base.id))
    else None
  }

  /** The two prices sell to each other: each side asks no more than the other offers. */
  predicate Crosses(p: Price, q: Price) {
    && p.base.id == q.quote.id && p.quote.id == q.base.id
    && p.base.amount * q.base.amount >= p.quote.amount * q.quote.amount
  }

  /** The range of the price index that a new order walks is what its price crosses. */
  lemma CrossingIsRange(maker: Price, taker: Price)
    requires maker.base.id == taker.quote.id && maker.quote.id == taker.base.id
    ensures !Less(maker, taker.Inverse()) <==> Crosses(maker, taker)
    ensures Crosses(maker, taker) <==> Crosses(taker, maker)
  {}

  // ----- order of the price indexes ------------------------------------------------------

  predicate SameMarket(a: Price, b: Price) {
    a.base.id == b.base.id && a.quote.id == b.quote.id
  }

  /** A price with one amount zero still has its place in an index. */
  predicate Ranked(p: Price) {
    p.base.amount > 0 || p.quote.amount > 0
  }

  /** Not below is transitive among the prices of one market. */
  lemma NotBelowTransitive(a: Price, b: Price, c: Price)
    requires Ranked(b) && SameMarket(a, b) && SameMarket(b, c)
    requires !Less(a, b) && !Less(b, c)
    ensures !Less(a, c)
  {}

  /** Position in an index that is sorted from the highest price down, then by id. */
  predicate Ahead(p: Price, i: nat, q: Price, j: nat) {
    Less(q, p) || (!Less(p, q) && i < j)
  }

  lemma AheadIsTransitive(p: Price, i: nat, q: Price, j: nat, r: Price, k: nat)
    requires Ranked(p) && Ranked(q) && Ranked(r) && SameMarket(p, q) && SameMarket(q, r)
    requires Ahead(p, i, q, j) && Ahead(q, j, r, k)
    ensures Ahead(p, i, r, k)
  {}

  /** The lowest price of an index: below it are only prices that ask more than there can be for one unit. */
  lemma NothingIsBelowMinPrice(p: Price)
    requires p.Positive()
    ensures !Less(p, MinPrice(p.base.id, p.quote.id)) <==> p.quote.amount <= MAX_SHARE_SUPPLY * p.base.amount
  {}

  // ----- rounding down ------------------------------------------------------------------

  lemma MulMonotone(x: nat, y: nat, z: nat)
    requires x <= y
    ensures x * z <= y * z
  {}

  lemma Cancel(x: nat, y: nat, z: nat)
    requires z > 0 && x * z <= y * z
    ensures x <= y
  {}

  lemma FloorBounds(x: nat, d: nat)
    requires d > 0
    ensures 0 <= x / d && x / d * d <= x < (x / d + 1) * d
  {}

  /** The floor of x / d is the greatest number whose d-fold does not pass x. */
  lemma FloorIsGreatest(x: nat, d: nat, q: nat)
    requires d > 0
    ensures q <= x / d <==> q * d <= x
  {
    var k := x / d;
    FloorBounds(x, d);
    if q <= k {
      MulMonotone(q, k, d);
    } else {
      MulMonotone(k + 1, q, d);
    }
  }

  /** `r` is x / d rounded down. */
  predicate RoundsDown(r: int, x: int, d: int) {
    r * d <= x < (r + 1) * d
  }

  /**
    What is converted is the exact worth rounded down. A conversion throws for an asset that the
    price does not name, for a price without the other amount, and above the maximum supply.
   */
  lemma ConversionRounds(a: Asset, p: Price)
    requires p.base.id != p.quote.id
    ensures var r := Times(a, p); r.Some? && a.id == p.base.id ==>
      r.value.id == p.quote.id && RoundsDown(r.value.amount, a.amount * p.quote.amount, p.base.amount)
    ensures var r := Times(a, p); r.Some? && a.id == p.quote.id ==>
      r.value.id == p.base.id && RoundsDown(r.value.amount, a.amount * p.base.amount, p.quote.amount)
    ensures Times(a, p).Some? <==>
            || (a.id == p.base.id && a.amount * p.quote.amount < (MAX_SHARE_SUPPLY + 1) * p.base.amount)
            || (a.id == p.quote.id && a.amount * p.base.amount < (MAX_SHARE_SUPPLY + 1) * p.quote.amount)
  {
    if a.id == p.base.id {
      ScaleRounds(a.amount, p.quote.amount, p.base.amount);
    } else if a.id == p.quote.id {
      ScaleRounds(a.amount, p.base.amount, p.quote.amount);
    }
  }

  lemma ScaleRounds(amount: nat, num: nat, den: nat)
    ensures Scale(amount, num, den).Some? <==> amount * num < (MAX_SHARE_SUPPLY + 1) * den
    ensures Scale(amount, num, den).Some? ==> RoundsDown(Scale(amount, num, den).value, amount * num, den)
  {
    var x: nat := amount * num;
    if den > 0 {
      FloorBounds(x, den);
      FloorIsGreatest(x, den, MAX_SHARE_SUPPLY + 1);
    }
  }

  // ----- matching two limit orders -----------------------------------------------------

  /** What the taker pays and receives; the maker receives and pays the same. */
  datatype Trade = Trade(pays: nat, receives: nat)

  /** A taker and a maker with these amounts for sale trade at the maker's price. */
  function MatchTrade(taker: nat, maker: nat, price: Price): Option<Trade> {
    var worth := Scale(maker, price.quote.amount, price.base.amount);
    if worth.None? then None
    else if taker <= worth.value then
      var receives := Scale(taker, price.base.amount, price.quote.amount);
      if receives.None? then None else Some(Trade(taker, receives.value))
    else Some(Trade(worth.value, maker))
  }

  /** x <= floor(c * q / b) implies floor(x * b / q) <= c. */
  lemma BackAndForth(x: nat, c: nat, q: nat, b: nat)
    requires q > 0 && b > 0 && x <= c * q / b
    ensures x * b / q <= c
  {}

  /** Selling `paid` at b/q yields at least what a limit price that crosses it asks for. */
  lemma CrossingFloor(paid: nat, b: nat, q: nat, limitBase: nat, limitQuote: nat)
    requires q > 0 && limitBase > 0 && b * limitBase >= q * limitQuote
    ensures (paid * limitQuote / limitBase) * q <= paid * b
    ensures paid * limitQuote / limitBase <= paid * b / q
  {
    var own := paid * limitQuote / limitBase;
    FloorBounds(paid * limitQuote, limitBase);
    MulMonotone(own * limitBase, paid * limitQuote, q);
    MulMonotone(q * limitQuote, b * limitBase, paid);
    Reorder(own, limitBase, q);
    Reorder(paid, limitQuote, q);
    Reorder(paid, b, limitBase);
    Cancel(own * q, paid * b, limitBase);
    FloorIsGreatest(paid * b, q, own);
  }

  lemma Reorder(x: nat, y: nat, z: nat)
    ensures x * y * z == x * z * y == (y * z) * x == (z * y) * x
  {}

  /**
    Whatever the amounts and the crossing prices: one side is exhausted, neither side pays
    more than it offers, and each receives at least what its own limit gives for its payment.
   */
  lemma MatchIsSound(taker: nat, maker: nat, price: Price, limit: Price)
    requires taker > 0 && maker > 0 && price.Positive() && limit.Positive() && Crosses(price, limit)
    requires MatchTrade(taker, maker, price).Some?
    ensures var t := MatchTrade(taker, maker, price).value;
      && t.pays <= taker && t.receives <= maker
      && (t.pays == taker || t.receives == maker)
      && t.receives >= t.pays * limit.quote.amount / limit.base.amount
      && t.pays >= t.receives * price.quote.amount / price.base.amount
  {
    if taker <= maker * price.quote.amount / price.base.amount {
      TakerExhausted(taker, maker, price, limit);
    } else {
      MakerExhausted(maker, price, limit);
    }
  }

  /**
    The trade is at the maker's price, whatever the taker would have accepted: the side that is
    exhausted gives all it sells, and the other gives the exact worth of that, rounded down.
   */
  lemma MatchIsAtMakersPrice(taker: nat, maker: nat, price: Price)
    requires price.Positive() && MatchTrade(taker, maker, price).Some?
    ensures var t := MatchTrade(taker, maker, price).value; var b, q := price.base.amount, price.quote.amount;
      if taker * b <= maker * q then t.pays == taker && RoundsDown(t.receives, taker * b, q)
      else t.receives == maker && RoundsDown(t.pays, maker * q, b)
  {
    ScaleRounds(maker, price.quote.amount, price.base.amount);
    ScaleRounds(taker, price.base.amount, price.quote.amount);
    FloorIsGreatest(maker * price.quote.amount, price.base.amount, taker);
  }

  lemma TakerExhausted(taker: nat, maker: nat, price: Price, limit: Price)
    requires price.Positive() && limit.Positive() && Crosses(price, limit)
    requires taker <= maker * price.quote.amount / price.base.amount
    ensures var receives := taker * price.base.amount / price.quote.amount;
      && receives <= maker
      && receives >= taker * limit.quote.amount / limit.base.amount
      && taker >= receives * price.quote.amount / price.base.amount
  {
    var b, q := price.base.amount, price.quote.amount;
    BackAndForth(taker, maker, q, b);
    CrossingFloor(taker, b, q, limit.base.amount, limit.quote.amount);
    BackAndForth(taker * b / q, taker, b, q);
  }

  lemma MakerExhausted(maker: nat, price: Price, limit: Price)
    requires price.Positive() && limit.Positive() && Crosses(price, limit)
    ensures var pays := maker * price.quote.amount / price.base.amount;
      maker >= pays * limit.quote.amount / limit.base.amount
  {
    var b, q := price.base.amount, price.quote.amount;
    var w := maker * q / b;
    FloorIsGreatest(maker * q, b, w);
    CrossingFloor(w, b, q, limit.base.amount, limit.quote.amount);
    var own := w * limit.quote.amount / limit.base.amount;
    Cancel(own, maker, q);
  }

  /**
    A maker whose remainder is worth something never gives anything away. A taker does: it
    pays for nothing exactly when its whole remainder is worth less than one unit at the
    maker's price.
   */
  lemma PaysForNothing(taker: nat, maker: nat, price: Price)
    requires taker > 0 && maker > 0 && price.Positive()
    requires maker * price.quote.amount / price.base.amount > 0 && MatchTrade(taker, maker, price).Some?
    ensures var t := MatchTrade(taker, maker, price).value;
      && t.pays > 0
      && (t.receives == 0 <==> taker * price.base.amount < price.quote.amount)
  {
    var b, q := price.base.amount, price.quote.amount;
    FloorIsGreatest(taker * b, q, 1);
    if taker > maker * q / b {
      FloorIsGreatest(maker * q, b, taker);
      MulMonotone(1, maker, q);
    }
  }

  lemma PaysForNothingHappens()
    ensures var price := Price(Asset(1, 1), Asset(10, 2));
      && MatchTrade(5, 100, price) == Some(Trade(5, 0))
      && Crosses(price, Price(Asset(10, 2), Asset(1, 1)))
  {}
}

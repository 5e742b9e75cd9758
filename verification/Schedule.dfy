/** The witness schedule: slots and their times, whose turn a slot is, and the shuffle of each round. */
module Schedule {
  import opened Commons
  import opened Prices

  type WitnessId = nat

  // ----- slots and times --------------------------------------------------------------------

  /** What slots are counted from: the head block, or the genesis time before the first block. */
  datatype Clock = Clock(interval: nat, headNumber: nat, headTime: nat, maintenance: bool, skipSlots: nat) {
    predicate Runs() {
      interval > 0
    }

    /** Slot 0 lies at or before the head block; a maintenance block is followed by skipped slots. */
    function Origin(): nat
      requires Runs()
    {
      if headNumber == 0 then headTime
      else headTime / interval * interval + (if maintenance then skipSlots * interval else 0)
    }

    function SlotTime(slot: nat): nat
      requires Runs()
    {
      if slot == 0 then 0
      else if headNumber == 0 then headTime + slot * interval
      else headTime / interval * interval + (slot + if maintenance then skipSlots else 0) * interval
    }

    function SlotAt(when: nat): nat
      requires Runs()
    {
      if when < SlotTime(1) then 0 else (when - SlotTime(1)) / interval + 1
    }
  }

  lemma SlotTimeIsLinear(c: Clock, slot: nat)
    requires c.Runs() && slot >= 1
    ensures c.SlotTime(slot) == c.Origin() + slot * c.interval
  {}

  /** Slots count from the interval that holds the head block, and past those that a maintenance skips. */
  lemma SlotsFollowTheHead(c: Clock, slot: nat) returns (intervals: nat)
    requires c.Runs() && slot >= 1
    ensures c.headNumber == 0 ==> c.SlotTime(slot) == c.headTime + slot * c.interval
    ensures RoundsDown(intervals, c.headTime, c.interval)
    ensures c.headNumber > 0 && !c.maintenance ==> c.SlotTime(slot) == (intervals + slot) * c.interval
    ensures c.headNumber > 0 && c.maintenance ==> c.SlotTime(slot) == (intervals + slot + c.skipSlots) * c.interval
  {
    intervals := c.headTime / c.interval;
    FloorBounds(c.headTime, c.interval);
    Distribute(intervals, slot, c.interval);
    Distribute(intervals, slot + c.skipSlots, c.interval);
  }

  lemma Distribute(x: nat, y: nat, n: nat)
    ensures (x + y) * n == x * n + y * n
  {}

  /** Slots and times are a Galois pair: a slot has begun exactly when its time has come. */
  lemma SlotHasBegun(c: Clock, slot: nat, when: nat)
    requires c.Runs() && slot >= 1
    ensures c.SlotAt(when) >= slot <==> when >= c.SlotTime(slot)
  {
    SlotTimeIsLinear(c, 1);
    SlotTimeIsLinear(c, slot);
    if when >= c.SlotTime(1) {
      FloorIsGreatest(when - c.SlotTime(1), c.interval, slot - 1);
      Steps(slot, c.interval);
    } else {
      MulMonotone(1, slot, c.interval);
    }
  }

  lemma Steps(slot: nat, interval: nat)
    requires slot >= 1
    ensures slot * interval == (slot - 1) * interval + interval
  {}

  lemma SlotRoundTrip(c: Clock, slot: nat)
    requires c.Runs() && slot >= 1
    ensures c.SlotAt(c.SlotTime(slot)) == slot
  {
    SlotHasBegun(c, slot, c.SlotTime(slot));
    SlotHasBegun(c, slot + 1, c.SlotTime(slot));
    SlotTimeIsLinear(c, slot);
    SlotTimeIsLinear(c, slot + 1);
    Steps(slot + 1, c.interval);
  }

  /** The slot of a time is the last one that has begun by then. */
  lemma SlotContainsTime(c: Clock, when: nat)
    requires c.Runs()
    ensures c.SlotAt(when) >= 1 ==> c.SlotTime(c.SlotAt(when)) <= when
    ensures when < c.SlotTime(c.SlotAt(when) + 1)
  {}

  /** Every slot to come is after the head block. */
  lemma SlotsAreAhead(c: Clock, slot: nat)
    requires c.Runs() && slot >= 1
    ensures c.SlotTime(slot) > c.headTime
  {
    SlotTimeIsLinear(c, slot);
    MulMonotone(1, slot, c.interval);
    FloorBounds(c.headTime, c.interval);
    Steps(c.headTime / c.interval + 1, c.interval);
  }

  // ----- turns ------------------------------------------------------------------------------

  /** Whose turn it is in an absolute slot. */
  function Turn(order: seq<WitnessId>, aslot: nat): WitnessId
    requires order != []
  {
    order[aslot % |order|]
  }

  lemma Multiples(d: int, n: nat)
    ensures d >= 1 ==> d * n >= n
    ensures d <= -1 ==> d * n + n <= 0
  {}

  lemma SameRemainder(x: nat, y: nat, n: nat)
    requires n > 0 && x % n == y % n && x < y + n && y < x + n
    ensures x == y
  {
    var d := x / n - y / n;
    assert x - y == d * n;
    Multiples(d, n);
  }

  lemma ReachesEveryPlace(start: nat, n: nat, place: nat) returns (k: nat)
    requires place < n
    ensures k < n && (start + k) % n == place
  {
    var r := start % n;
    k := if place >= r then place - r else place + n - r;
    var x := start + k;
    var q := if place >= r then start / n else start / n + 1;
    assert x == q * n + place;
    var d := x / n - q;
    assert d * n == place - x % n;
    Multiples(d, n);
  }

  /** Whose turn comes `k` slots after `start`. */
  function NthTurn(order: seq<WitnessId>, start: nat, k: nat): WitnessId
    requires order != []
  {
    Turn(order, start + k)
  }

  /** In any round of consecutive slots each witness has exactly one turn. */
  lemma EveryoneOnce(order: seq<WitnessId>, start: nat, w: WitnessId)
    requires order != [] && Distinct(order) && w in order
    ensures exists k :: 0 <= k < |order| && NthTurn(order, start, k) == w
    ensures forall j, k ::
              0 <= j < |order| && 0 <= k < |order| && NthTurn(order, start, j) == w && NthTurn(order, start, k) == w ==>
                j == k
  {
    var place :| 0 <= place < |order| && order[place] == w;
    var k := ReachesEveryPlace(start, |order|, place);
    assert NthTurn(order, start, k) == w;
    forall i, j | 0 <= i < |order| && 0 <= j < |order| && NthTurn(order, start, i) == w && NthTurn(order, start, j) == w
      ensures i == j
    {
      SameRemainder(start + i, start + j, |order|);
    }
  }

  /** How many of the `n` slots after `aslot` are a witness's turn. */
  ghost function Turns(order: seq<WitnessId>, aslot: nat, n: nat, w: WitnessId): nat
    requires order != []
  {
    if n == 0 then 0 else Turns(order, aslot, n - 1, w) + (if Turn(order, aslot + n) == w then 1 else 0)
  }

  /** Less than a round has at most one turn for anyone, a whole round exactly one. */
  lemma {:induction false} TurnsInRound(order: seq<WitnessId>, aslot: nat, n: nat, w: WitnessId)
    requires order != [] && Distinct(order) && w in order && n <= |order|
    ensures Turns(order, aslot, n, w) <= 1
    ensures n == |order| ==> Turns(order, aslot, n, w) == 1
  {
    var start := aslot + 1;
    EveryoneOnce(order, start, w);
    var k :| 0 <= k < |order| && NthTurn(order, start, k) == w;
    OneTurn(order, start, n, w, k);
  }

  lemma {:induction false} OneTurn(order: seq<WitnessId>, start: nat, n: nat, w: WitnessId, k: nat)
    requires start > 0 && order != [] && n <= |order| && k < |order| && NthTurn(order, start, k) == w
    requires forall j :: 0 <= j < |order| && NthTurn(order, start, j) == w ==> j == k
    ensures Turns(order, start - 1, n, w) == if k < n then 1 else 0
  {
    if n > 0 {
      assert NthTurn(order, start, n - 1) == Turn(order, start - 1 + n);
      OneTurn(order, start, n - 1, w, k);
    }
  }

  // ----- the shuffle ------------------------------------------------------------------------

  const MULTIPLIER: bv64 := 2685821657736338717
  const WIDTH := 0x1_0000_0000_0000_0000

  /** The xorshift generator of the shuffle, in 64-bit arithmetic that wraps around. */
  function Random(seconds: nat, i: nat): nat {
    var hi := ((seconds % 0x1_0000_0000) as bv64) << 32;
    var k0 := hi + ((i % WIDTH) as bv64) * MULTIPLIER;
    var k1 := k0 ^ (k0 >> 12);
    var k2 := k1 ^ (k1 << 25);
    var k3 := k2 ^ (k2 >> 27);
    (k3 * MULTIPLIER) as nat
  }

  /** The place that place `i` changes with. */
  function Partner(seconds: nat, i: nat, n: nat): (j: nat)
    requires i < n
    ensures i <= j < n
  {
    i + Random(seconds, i) % (n - i)
  }

  function Shuffled(s: seq<WitnessId>, seconds: nat, i: nat): (r: seq<WitnessId>)
    decreases |s| - i
  {
    if i >= |s| then s else Shuffled(Swap(s, i, Partner(seconds, i, |s|)), seconds, i + 1)
  }

  /** The place that each place changes with, in turn. */
  function Partners(seconds: nat, n: nat): (partners: seq<nat>)
    ensures AreLater(partners, n)
  {
    seq(n, i requires 0 <= i < n => Partner(seconds, i, n))
  }

  predicate AreLater(partners: seq<nat>, n: nat) {
    |partners| == n && forall i :: 0 <= i < n ==> i <= partners[i] < n
  }

  /** The arrangement that these changes make, from place `i` on. */
  function Arranged(s: seq<WitnessId>, partners: seq<nat>, i: nat): (r: seq<WitnessId>)
    requires AreLater(partners, |s|)
    decreases |s| - i
  {
    if i >= |s| then s else Arranged(Swap(s, i, partners[i]), partners, i + 1)
  }

  lemma {:induction false} ShuffleArranges(s: seq<WitnessId>, seconds: nat, i: nat)
    ensures Shuffled(s, seconds, i) == Arranged(s, Partners(seconds, |s|), i)
    decreases |s| - i
  {
    hide Random, Partner;
    if i < |s| {
      ShuffleArranges(Swap(s, i, Partner(seconds, i, |s|)), seconds, i + 1);
    }
  }

  /** Any order of the witnesses can come out: some partners lead to it. */
  lemma {:induction false} EveryOrderCanCome(s: seq<WitnessId>, t: seq<WitnessId>, i: nat) returns (partners: seq<nat>)
    requires multiset(s) == multiset(t) && i <= |s| == |t| && s[..i] == t[..i]
    ensures AreLater(partners, |s|) && Arranged(s, partners, i) == t
    decreases |s| - i
  {
    if i == |s| {
      partners := seq(|s|, j => j);
    } else {
      var j := PlaceOf(s, t, i);
      var s' := Swap(s, i, j);
      SwapPermutes(s, i, j);
      assert s'[..i + 1] == s[..i] + [s[j]] && t[..i + 1] == t[..i] + [t[i]];
      var rest := EveryOrderCanCome(s', t, i + 1);
      partners := rest[i := j];
      OnlyLaterMatter(s', rest, partners, i + 1);
    }
  }

  lemma PlaceOf(s: seq<WitnessId>, t: seq<WitnessId>, i: nat) returns (j: nat)
    requires multiset(s) == multiset(t) && i < |s| == |t| && s[..i] == t[..i]
    ensures i <= j < |s| && s[j] == t[i]
  {
    var w := t[i];
    assert s == s[..i] + s[i..] && t == t[..i] + t[i..];
    assert multiset(s)[w] == multiset(s[..i])[w] + multiset(s[i..])[w];
    assert multiset(t)[w] == multiset(t[..i])[w] + multiset(t[i..])[w];
    assert w == t[i..][0];
    assert multiset(t[i..])[w] > 0;
    assert w in multiset(s[i..]);
    var k :| 0 <= k < |s| - i && s[i..][k] == w;
    j := i + k;
  }

  lemma {:induction false} OnlyLaterMatter(s: seq<WitnessId>, p: seq<nat>, q: seq<nat>, i: nat)
    requires AreLater(p, |s|) && AreLater(q, |s|) && forall j :: i <= j < |s| ==> p[j] == q[j]
    ensures Arranged(s, p, i) == Arranged(s, q, i)
    decreases |s| - i
  {
    if i < |s| {
      OnlyLaterMatter(Swap(s, i, p[i]), p, q, i + 1);
    }
  }

  /** And no two choices of partners lead to the same order: fair partners make a fair shuffle. */
  lemma {:induction false} OrdersComeOnce(s: seq<WitnessId>, p: seq<nat>, q: seq<nat>, i: nat)
    requires Distinct(s) && i <= |s| && AreLater(p, |s|) && AreLater(q, |s|)
    requires Arranged(s, p, i) == Arranged(s, q, i)
    ensures p[i..] == q[i..]
    decreases |s| - i
  {
    hide Arranged;
    if i < |s| {
      ArrangedUnfolds(s, p, i);
      ArrangedUnfolds(s, q, i);
      FirstComesFrom(s, p, i);
      FirstComesFrom(s, q, i);
      var s' := Swap(s, i, p[i]);
      SwapPermutes(s, i, p[i]);
      PermutationStaysDistinct(s, s');
      OrdersComeOnce(s', p, q, i + 1);
      assert p[i..] == [p[i]] + p[i + 1..] && q[i..] == [q[i]] + q[i + 1..];
    }
  }

  lemma ArrangedUnfolds(s: seq<WitnessId>, p: seq<nat>, i: nat)
    requires i < |s| && AreLater(p, |s|)
    ensures Arranged(s, p, i) == Arranged(Swap(s, i, p[i]), p, i + 1)
  {}

  lemma FirstComesFrom(s: seq<WitnessId>, p: seq<nat>, i: nat)
    requires i < |s| && AreLater(p, |s|)
    ensures |Arranged(s, p, i)| == |s| && Arranged(s, p, i)[i] == s[p[i]]
  {
    PlaceStays(Swap(s, i, p[i]), p, i + 1, i);
  }

  lemma {:induction false} PlaceStays(s: seq<WitnessId>, p: seq<nat>, i: nat, k: nat)
    requires AreLater(p, |s|) && k < i && k < |s|
    ensures |Arranged(s, p, i)| == |s| && Arranged(s, p, i)[k] == s[k]
    decreases |s| - i
  {
    if i < |s| {
      PlaceStays(Swap(s, i, p[i]), p, i + 1, k);
    }
  }

  lemma SwapPermutes(s: seq<WitnessId>, i: nat, j: nat)
    requires i < |s| && j < |s|
    ensures multiset(Swap(s, i, j)) == multiset(s)
  {}

  /** The shuffle only changes the order. */
  lemma {:induction false} ShuffleIsPermutation(s: seq<WitnessId>, seconds: nat, i: nat)
    ensures multiset(Shuffled(s, seconds, i)) == multiset(s)
    ensures |Shuffled(s, seconds, i)| == |s|
    decreases |s| - i
  {
    if i < |s| {
      var t := Swap(s, i, Partner(seconds, i, |s|));
      SwapPermutes(s, i, Partner(seconds, i, |s|));
      ShuffleIsPermutation(t, seconds, i + 1);
    }
  }

  /** Sequences with the same elements the same number of times are distinct together. */
  lemma {:induction false} PermutationStaysDistinct(s: seq<WitnessId>, t: seq<WitnessId>)
    requires multiset(s) == multiset(t) && Distinct(s)
    ensures Distinct(t)
  {
    forall i, j | 0 <= i < j < |t|
      ensures t[i] != t[j]
    {
      if t[i] == t[j] {
        TwiceInMultiset(t, i, j);
        OnceInMultiset(s, t[i]);
      }
    }
  }

  lemma TwiceInMultiset(t: seq<WitnessId>, i: nat, j: nat)
    requires i < j < |t| && t[i] == t[j]
    ensures multiset(t)[t[i]] >= 2
  {
    assert t == t[..i] + [t[i]] + t[i + 1..j] + [t[j]] + t[j + 1..];
  }

  lemma {:induction false} OnceInMultiset(s: seq<WitnessId>, w: WitnessId)
    requires Distinct(s)
    ensures multiset(s)[w] <= 1
  {
    if s != [] {
      var rest := s[1..];
      OnceInMultiset(rest, w);
      assert s == [s[0]] + rest;
      if s[0] == w {
        assert w !in rest;
      }
    }
  }

  // ----- the schedule object ----------------------------------------------------------------

  datatype Header = Header(witnessId: WitnessId, timestamp: nat)

  class WitnessSchedule {
    var clock: Clock
    var aslot: nat
    var active: seq<WitnessId>
    var order: array<WitnessId>
    var missed: map<WitnessId, nat>

    ghost predicate Valid()
      reads this, order
    {
      && clock.Runs() && active != [] && Distinct(active)
      && order.Length > 0 && Distinct(order[..]) && forall w <- order[..] :: w in missed
    }

    constructor (clock: Clock, active: seq<WitnessId>)
      requires clock.Runs() && active != [] && Distinct(active)
      ensures Valid() && fresh(order) && order[..] == active
      ensures this.active == active && this.clock == clock && aslot == 0
    {
      this.clock, this.active, aslot := clock, active, 0;
      order := new WitnessId[|active|](i requires 0 <= i < |active| => active[i]);
      missed := map w | w in active :: 0;
      new;
      assert order[..] == active;
    }

    function Scheduled(slot: nat): WitnessId
      requires order.Length > 0
      reads this, order
    {
      order[(aslot + slot) % order.Length]
    }

    /** Shuffles in place: every place changes with itself or a later one. */
    static method Shuffle(order: array<WitnessId>, seconds: nat)
      modifies order
      ensures order[..] == Shuffled(old(order[..]), seconds, 0)
    {
      for i := 0 to order.Length
        invariant Shuffled(order[..], seconds, i) == Shuffled(old(order[..]), seconds, 0)
      {
        var j := Partner(seconds, i, order.Length);
        ghost var before := order[..];
        order[i], order[j] := order[j], order[i];
        assert order[..] == Swap(before, i, j);
      }
    }

    static method NewRound(active: seq<WitnessId>, seconds: nat) returns (round: array<WitnessId>)
      ensures fresh(round) && round[..] == Shuffled(active, seconds, 0)
    {
      round := new WitnessId[|active|](i requires 0 <= i < |active| => active[i]);
      assert round[..] == active;
      Shuffle(round, seconds);
    }

    static lemma RoundIsFair(active: seq<WitnessId>, seconds: nat)
      requires Distinct(active) && active != []
      ensures var round := Shuffled(active, seconds, 0);
        && round != [] && Distinct(round) && multiset(round) == multiset(active) && forall w <- round :: w in active
    {
      var round := Shuffled(active, seconds, 0);
      ShuffleIsPermutation(active, seconds, 0);
      PermutationStaysDistinct(active, round);
      forall w | w in round
        ensures w in active
      {
        assert w in multiset(round);
      }
    }

    /** At the start of a round the order is made anew from the active witnesses. */
    method UpdateSchedule()
      requires Valid() && forall w <- active :: w in missed
      modifies `order
      ensures Valid() && (order == old(order) || fresh(order))
      ensures clock.headNumber % |active| != 0 ==> order == old(order)
      ensures clock.headNumber % |active| == 0 ==> order[..] == Shuffled(active, clock.headTime, 0)
      ensures clock.headNumber % |active| == 0 ==> multiset(order[..]) == multiset(active)
    {
      hide Shuffled, Distinct;
      if clock.headNumber % |active| == 0 {
        RoundIsFair(active, clock.headTime);
        order := NewRound(active, clock.headTime);
      }
    }

    // ----- blocks -----------------------------------------------------------------------

    /** A block must be made in a slot that has begun, by the witness whose turn it is. */
    predicate AcceptsHeader(h: Header)
      requires clock.Runs() && order.Length > 0
      reads this, order
    {
      && clock.headTime < h.timestamp && clock.SlotAt(h.timestamp) > 0
      && h.witnessId == Scheduled(clock.SlotAt(h.timestamp))
    }

    /** The check against the head block's time is implied by the one of the slot. */
    lemma SlotImpliesLater(h: Header)
      requires clock.Runs() && clock.SlotAt(h.timestamp) > 0
      ensures clock.headTime < h.timestamp
    {
      SlotHasBegun(clock, 1, h.timestamp);
      SlotsAreAhead(clock, 1);
    }

    /**
      Moves on to the block's slot. The block's witness has its place at the new absolute slot,
      and every other witness missed as many blocks as it had turns in the slots passed over.
     */
    method ApplyHeader(h: Header, maintenance: bool) returns (ok: bool)
      requires Valid()
      modifies `clock, `aslot, `missed
      ensures ok == old(AcceptsHeader(h))
      ensures !ok ==> unchanged(this)
      ensures ok ==> Valid() && aslot == old(aslot) + old(clock).SlotAt(h.timestamp)
      ensures ok ==> Turn(order[..], aslot) == h.witnessId
      ensures var next := old(clock).headNumber + 1;
        ok ==> clock == old(clock).(headNumber := next, headTime := h.timestamp, maintenance := maintenance)
      ensures ok ==> missed.Keys == old(missed).Keys && forall w <- missed ::
        missed[w] ==
        old(missed)[w] + MissedBy(order[..], old(aslot), old(clock).SlotAt(h.timestamp) - 1, w, h.witnessId)
    {
      var slot := clock.SlotAt(h.timestamp);
      if !AcceptsHeader(h) {
        return false;
      }
      CountMissed(slot - 1, h.witnessId);
      clock := clock.(headNumber := clock.headNumber + 1, headTime := h.timestamp, maintenance := maintenance);
      aslot := aslot + slot;
      return true;
    }

    /** The turns passed over count for every witness but the one that makes the block. */
    static ghost function MissedBy(order: seq<WitnessId>, aslot: nat, n: nat, w: WitnessId, maker: WitnessId): nat
      requires order != []
    {
      if w == maker then 0 else Turns(order, aslot, n, w)
    }

    method CountMissed(n: nat, maker: WitnessId)
      requires Valid()
      modifies `missed
      ensures Valid() && missed.Keys == old(missed).Keys
      ensures forall w <- missed :: missed[w] == old(missed)[w] + MissedBy(order[..], aslot, n, w, maker)
    {
      for i := 0 to n
        invariant Valid() && missed.Keys == old(missed).Keys
        invariant forall w <- missed :: missed[w] == old(missed)[w] + MissedBy(order[..], aslot, i, w, maker)
      {
        var w := Scheduled(i + 1);
        assert w == Turn(order[..], aslot + (i + 1)) && w in order[..];
        if w != maker {
          missed := missed[w := missed[w] + 1];
        }
      }
    }
  }
}

/**
  Vesting balances: how much may be withdrawn under the coin-seconds policy and under the
  linear policy, and how deposits and withdrawals change that.
 */
module Vesting {
  import opened Commons
  import opened Prices

  datatype Policy =
    | Linear(begin: nat, cliff: nat, duration: nat, beginBalance: nat)
    | Cdd(vestingSeconds: nat, earned: nat, startClaim: nat, lastUpdate: nat)
  {
    /** Coin seconds that one unit must earn before it is free. */
    function Needed(): (n: nat)
      requires Cdd?
      ensures n > 0
    {
      if vestingSeconds < 1 then 1 else vestingSeconds
    }
  }

  // ----- coin seconds -----------------------------------------------------------------------

  /** The coin seconds earned by now: at most what frees the whole balance. */
  function Earned(p: Policy, balance: nat, now: nat): nat
    requires p.Cdd? && now >= p.lastUpdate
  {
    Min(p.earned + balance * (now - p.lastUpdate), balance * p.Needed())
  }

  function Updated(p: Policy, balance: nat, now: nat): Policy
    requires p.Cdd? && now >= p.lastUpdate
  {
    p.(earned := Earned(p, balance, now), lastUpdate := now)
  }

  /** Up to date, with coin seconds added or taken. */
  ghost predicate Refreshed(p: Policy, now: nat, q: Policy) {
    p.Cdd? && q.Cdd? && q == p.(earned := q.earned, lastUpdate := now)
  }

  // ----- the linear schedule ----------------------------------------------------------------

  function Proportion(amount: nat, part: nat, whole: nat): nat
    requires whole > 0
  {
    amount * part / whole
  }

  /** What the schedule has released by now. */
  function Released(p: Policy, now: nat): nat
    requires p.Linear?
  {
    if now <= p.begin || now - p.begin < p.cliff then 0
    else if now - p.begin < p.duration then Proportion(p.beginBalance, now - p.begin, p.duration)
    else p.beginBalance
  }

  /** What may be withdrawn; the linear policy counts every missing coin as withdrawn. */
  function Allowed(p: Policy, balance: nat, now: nat): int
    requires p.Cdd? ==> now >= p.lastUpdate
  {
    match p
    case Linear(begin, cliff, duration, beginBalance) =>
      if now <= begin || now - begin < cliff then 0 else Released(p, now) - (beginBalance - balance)
    case Cdd(_, _, startClaim, _) =>
      if now <= startClaim then 0 else Earned(p, balance, now) / p.Needed()
  }

  /** The checks inside the linear computation, where it gets to them. */
  predicate LinearAsserts(p: Policy, balance: nat, now: nat)
    requires p.Linear?
  {
    now <= p.begin || now - p.begin < p.cliff ||
    (p.beginBalance - balance >= 0 && Released(p, now) - (p.beginBalance - balance) >= 0)
  }

  // ----- properties of the policies ---------------------------------------------------------

  /** Updating in between, at any time, does not change what is earned or allowed later. */
  lemma UpdatesAreHarmless(p: Policy, balance: nat, t: nat, now: nat)
    requires p.Cdd? && p.lastUpdate <= t <= now
    ensures Earned(Updated(p, balance, t), balance, now) == Earned(p, balance, now)
    ensures Allowed(Updated(p, balance, t), balance, now) == Allowed(p, balance, now)
  {
    TimeSplits(balance, t - p.lastUpdate, now - t);
    CappedTwice(p.earned, balance * (t - p.lastUpdate), balance * (now - t), balance * p.Needed());
  }

  lemma TimeSplits(balance: nat, x: nat, y: nat)
    ensures balance * (x + y) == balance * x + balance * y
  {}

  lemma CappedTwice(e: nat, x: nat, y: nat, cap: nat)
    ensures Min(Min(e + x, cap) + y, cap) == Min(e + (x + y), cap)
  {}

  /**
    A balance created by a vested deposit is free at once exactly when coins have to vest at
    all: with no vesting time it starts without the coin second that each coin then needs.
   */
  lemma CreatedVested(vestingSeconds: nat, amount: nat, now: nat)
    requires now > 0
    ensures Allowed(Cdd(vestingSeconds, amount * vestingSeconds, 0, now), amount, now) == amount
            <==> vestingSeconds > 0 || amount == 0
  {
    var p := Cdd(vestingSeconds, amount * vestingSeconds, 0, now);
    assert Earned(p, amount, now) == amount * vestingSeconds;
    if vestingSeconds > 0 {
      FloorIsGreatest(amount * vestingSeconds, vestingSeconds, amount);
      DivideBack(amount * vestingSeconds, amount, vestingSeconds);
    }
  }

  /** The check that what is allowed is part of the balance cannot fail. */
  lemma AllowedWithinBalance(p: Policy, balance: nat, now: nat)
    requires p.Cdd? ==> now >= p.lastUpdate
    ensures Allowed(p, balance, now) <= balance
  {}

  lemma DivideBack(x: nat, y: nat, d: nat)
    requires d > 0 && x <= y * d
    ensures x / d <= y
  {}

  lemma ReleasedWithinStart(p: Policy, now: nat)
    requires p.Linear?
    ensures Released(p, now) <= p.beginBalance
  {
    if p.begin < now && now - p.begin < p.duration {
      assert p.beginBalance * (now - p.begin) <= p.beginBalance * p.duration;
      DivideBack(p.beginBalance * (now - p.begin), p.beginBalance, p.duration);
    }
  }

  /** The schedule never takes anything back. */
  lemma ReleasedGrows(p: Policy, t: nat, now: nat)
    requires p.Linear? && t <= now
    ensures Released(p, t) <= Released(p, now)
  {
    ReleasedWithinStart(p, t);
    if p.begin < t && t - p.begin >= p.cliff && now - p.begin < p.duration {
      var x, y := p.beginBalance * (t - p.begin), p.beginBalance * (now - p.begin);
      assert x <= y by {
        assert t - p.begin <= now - p.begin;
      }
      DivideMonotone(x, y, p.duration);
    }
  }

  lemma DivideMonotone(x: nat, y: nat, d: nat)
    requires x <= y && d > 0
    ensures x / d <= y / d
  {
    FloorIsGreatest(y, d, x / d);
    FloorBounds(x, d);
  }

  /**
    A deposit keeps the linear checks exactly when it only puts back what was withdrawn. Nothing
    in the repository makes such a deposit: what is paid lazily goes to coin-seconds balances.
   */
  lemma LinearDeposit(p: Policy, balance: nat, amount: nat, now: nat)
    requires p.Linear? && now > p.begin && now - p.begin >= p.cliff
    requires LinearAsserts(p, balance, now)
    ensures LinearAsserts(p, balance + amount, now) <==> amount <= p.beginBalance - balance
  {}

  lemma LinearDepositBreaks()
    ensures var p := Linear(0, 0, 100, 50);
      LinearAsserts(p, 50, 10) && !LinearAsserts(p, 50 + 1, 10)
  {}

  // ----- what is earned and freed, to the coin second -----------------------------------------

  /** What each coin needs: its vesting seconds, and at least one. */
  lemma NeededIs(p: Policy)
    requires p.Cdd?
    ensures p.vestingSeconds > 0 ==> p.Needed() == p.vestingSeconds
    ensures p.vestingSeconds == 0 ==> p.Needed() == 1
  {}

  /** Every coin earns every second, until the whole balance has what it needs. */
  ghost predicate Earns(p: Policy, balance: nat, now: nat, earned: nat)
    requires p.Cdd? && now >= p.lastUpdate
  {
    var sum := p.earned + balance * (now - p.lastUpdate);
    var cap := balance * (if p.vestingSeconds > 0 then p.vestingSeconds else 1);
    (sum <= cap ==> earned == sum) && (sum > cap ==> earned == cap)
  }

  lemma EarnsExactly(p: Policy, balance: nat, now: nat)
    requires p.Cdd? && now >= p.lastUpdate
    ensures Updated(p, balance, now) == p.(earned := Updated(p, balance, now).earned, lastUpdate := now)
    ensures Earns(p, balance, now, Updated(p, balance, now).earned)
  {}

  lemma EarnsNoMore(p: Policy, balance: nat, now: nat)
    requires p.Cdd? && now >= p.lastUpdate
    ensures Updated(p, balance, now).earned <= p.earned + balance * (now - p.lastUpdate)
    ensures Updated(p, balance, now).earned <= balance * p.Needed()
  {}

  /** So many coins are free as the coin seconds pay for, once claiming has started. */
  lemma AllowedIsPaidFor(p: Policy, balance: nat, now: nat)
    requires p.Cdd? && now >= p.lastUpdate
    ensures now <= p.startClaim ==> Allowed(p, balance, now) == 0
    ensures now > p.startClaim ==> RoundsDown(Allowed(p, balance, now), Updated(p, balance, now).earned, p.Needed())
  {
    FloorBounds(Updated(p, balance, now).earned, p.Needed());
  }

  /** An untouched balance matures evenly: after its vesting time, and no earlier, all of it is free. */
  lemma MaturesEvenly(p: Policy, balance: nat, now: nat)
    requires p.Cdd? && now >= p.lastUpdate && now > p.startClaim
    ensures var t, n := now - p.lastUpdate, if p.vestingSeconds > 0 then p.vestingSeconds else 1;
      && (t >= n ==> Allowed(p, balance, now) == balance)
      && (t < n && p.earned == 0 ==> RoundsDown(Allowed(p, balance, now), balance * t, n))
      && (t < n && p.earned == 0 && balance > 0 ==> Allowed(p, balance, now) < balance)
  {
    var t, n := now - p.lastUpdate, p.Needed();
    NeededIs(p);
    AllowedIsPaidFor(p, balance, now);
    if t >= n {
      CoinsTimesSeconds(balance, n, t);
      WholeBalance(balance, n);
    } else {
      CoinsTimesSeconds(balance, t, n);
      PartOfBalance(balance, t, n);
    }
  }

  lemma CoinsTimesSeconds(balance: nat, s: nat, t: nat)
    requires s <= t
    ensures balance * s <= balance * t
  {}

  lemma WholeBalance(balance: nat, n: nat)
    requires n > 0
    ensures balance * n / n == balance
  {
    var all: nat := balance * n;
    FloorIsGreatest(all, n, balance);
    DivideBack(all, balance, n);
  }

  lemma PartOfBalance(balance: nat, t: nat, n: nat)
    requires t < n
    ensures balance > 0 ==> balance * t / n < balance
  {
    if balance > 0 {
      assert balance * t < balance * n;
      FloorIsGreatest(balance * t, n, balance);
    }
  }

  /** The schedule releases its part for the time that has passed, after the cliff, and in the end everything. */
  lemma ReleasesEvenly(p: Policy, now: nat)
    requires p.Linear?
    ensures now < p.begin + p.cliff || now <= p.begin ==> Released(p, now) == 0
    ensures now > p.begin && now >= p.begin + p.cliff && now < p.begin + p.duration ==>
      RoundsDown(Released(p, now), p.beginBalance * (now - p.begin), p.duration)
    ensures now > p.begin && now >= p.begin + p.cliff && now >= p.begin + p.duration ==>
      Released(p, now) == p.beginBalance
  {
    if p.begin < now < p.begin + p.duration {
      FloorBounds(p.beginBalance * (now - p.begin), p.duration);
    }
  }

  /** What was withdrawn and what may still be withdrawn are what the schedule has released. */
  lemma LinearAllowsTheRest(p: Policy, balance: nat, now: nat)
    requires p.Linear? && now > p.begin && now - p.begin >= p.cliff
    ensures (p.beginBalance - balance) + Allowed(p, balance, now) == Released(p, now)
    ensures now >= p.begin + p.duration ==> Allowed(p, balance, now) == balance
  {}

  // ----- single steps -------------------------------------------------------------------------

  /** All that a vesting balance holds, and what was paid into it and out of it. */
  datatype View = View(
    balance: nat, policy: Policy, deposited: nat, vested: nat, withdrawn: nat, coinTime: nat, time: nat)
  {
    /** The same brought up to date. */
    function Later(now: nat): View
      requires now >= time && (policy.Cdd? ==> now >= policy.lastUpdate)
    {
      var policy' := if policy.Cdd? then Updated(policy, balance, now) else policy;
      this.(policy := policy', coinTime := coinTime + balance * (now - time), time := now)
    }
  }

  predicate CanDeposit(balance: nat, amount: nat) {
    amount <= MAX_SHARE_SUPPLY && balance + amount <= MAX_SHARE_SUPPLY
  }

  /** What a step makes of a vesting balance; one that is not allowed changes nothing. */
  ghost predicate Steps(v: View, s: Step, w: View)
    requires s.now >= v.time && (v.policy.Cdd? ==> s.now >= v.policy.lastUpdate)
  {
    var u := v.Later(s.now);
    match s
    case Touch(_) => w == u
    case Pay(_, amount) =>
      w == if CanDeposit(v.balance, amount) then
             u.(balance := v.balance + amount, deposited := v.deposited + amount)
           else v
    case PayVested(_, amount) =>
      w == if CanDeposit(v.balance, amount) && v.policy.Cdd? then
             u.(balance := v.balance + amount, deposited := v.deposited + amount, vested := v.vested + amount,
                policy := u.policy.(earned := u.policy.earned + amount * v.policy.Needed()))
           else v
    case Take(_, amount) =>
      if amount <= Allowed(v.policy, v.balance, s.now) then
        && w.balance == v.balance - amount
        && w == u.(balance := w.balance, withdrawn := v.withdrawn + amount, policy := w.policy)
        && if v.policy.Cdd? then
             w.policy.Cdd? && w.policy == u.policy.(earned := w.policy.earned)
             && w.policy.earned == u.policy.earned - amount * v.policy.Needed()
           else w.policy == v.policy
      else w == v
  }

  // ----- a vesting balance ------------------------------------------------------------------

  class VestingBalance {
    var balance: nat
    var policy: Policy
    /** All that was deposited, of it what was deposited as vested, and all that was withdrawn. */
    ghost var Deposited: nat
    ghost var Vested: nat
    ghost var Withdrawn: nat
    /** The balance summed over the seconds until the last change. */
    ghost var CoinTime: nat
    ghost var Time: nat

    ghost predicate Valid()
      reads this
    {
      match policy
      case Linear(_, _, _, beginBalance) =>
        && balance == beginBalance + Deposited - Withdrawn
        && (Deposited == 0 ==> Withdrawn <= Released(policy, Time))
      case Cdd(_, earned, _, lastUpdate) =>
        && Time == lastUpdate && balance == Deposited - Withdrawn
        && earned <= balance * policy.Needed()
        && Withdrawn * policy.Needed() + earned <= CoinTime + Vested * policy.Needed()
    }

    constructor StartLinear(begin: nat, cliff: nat, duration: nat, amount: nat)
      ensures Valid() && balance == amount && policy == Linear(begin, cliff, duration, amount)
      ensures Deposited == 0 && Withdrawn == 0 && Time == 0
    {
      balance, policy := amount, Linear(begin, cliff, duration, amount);
      Deposited, Vested, Withdrawn, CoinTime, Time := 0, 0, 0, 0, 0;
    }

    /** A new coin-seconds balance, vested or not, as lazy deposits create it. */
    constructor StartCdd(vestingSeconds: nat, amount: nat, requireVesting: bool, now: nat)
      ensures Valid() && balance == amount && policy.Cdd? && policy.vestingSeconds == vestingSeconds
      ensures policy.earned == if requireVesting then 0 else amount * vestingSeconds
      ensures Deposited == amount && Withdrawn == 0 && CoinTime == 0 && Time == now
      ensures Vested == if requireVesting then 0 else amount
    {
      balance, policy := amount, Cdd(vestingSeconds, if requireVesting then 0 else amount * vestingSeconds, 0, now);
      Deposited, Vested, Withdrawn, CoinTime, Time := amount, if requireVesting then 0 else amount, 0, 0, now;
    }

    predicate IsDepositAllowed(amount: nat)
      reads this
    {
      CanDeposit(balance, amount)
    }

    predicate IsWithdrawAllowed(now: nat, amount: nat)
      requires policy.Cdd? ==> now >= policy.lastUpdate
      reads this
    {
      amount <= Allowed(policy, balance, now)
    }

    /** Brings the coin seconds up to date; the linear policy has nothing to update. */
    method Update(now: nat)
      requires Valid() && now >= Time
      modifies `policy, `CoinTime, `Time
      ensures Valid() && Time == now && CoinTime == old(CoinTime) + balance * (now - old(Time))
      ensures policy == if old(policy).Cdd? then Updated(old(policy), balance, now) else old(policy)
      ensures old(policy).Cdd? ==> Earns(old(policy), balance, now, policy.earned)
    {
      hide Released;
      CoinTime := CoinTime + balance * (now - Time);
      if policy.Cdd? {
        EarnsNoMore(policy, balance, now);
        EarnsExactly(policy, balance, now);
        policy := Updated(policy, balance, now);
      } else {
        ReleasedGrows(policy, Time, now);
      }
      Time := now;
    }

    method Deposit(now: nat, amount: nat)
      requires Valid() && now >= Time
      modifies this
      ensures Valid() && Time == now && balance == old(balance) + amount
      ensures policy == if old(policy).Cdd? then Updated(old(policy), old(balance), now) else old(policy)
      ensures Deposited == old(Deposited) + amount && Withdrawn == old(Withdrawn) && Vested == old(Vested)
      ensures CoinTime == old(CoinTime) + old(balance) * (now - old(Time))
    {
      Update(now);
      if policy.Cdd? {
        Distribute(balance, amount, policy.Needed());
      }
      balance, Deposited := balance + amount, Deposited + amount;
    }

    /** Coins that are free at once; the linear policy throws. */
    method DepositVested(now: nat, amount: nat) returns (ok: bool)
      requires Valid() && now >= Time
      modifies this
      ensures Valid() && ok == old(policy).Cdd?
      ensures !ok ==> unchanged(this)
      ensures ok ==> Time == now && balance == old(balance) + amount
      ensures ok ==> Refreshed(old(policy), now, policy)
      ensures ok ==> policy.earned == Earned(old(policy), old(balance), now) + amount * policy.Needed()
      ensures ok ==>
        Deposited == old(Deposited) + amount && Vested == old(Vested) + amount && Withdrawn == old(Withdrawn)
      ensures ok ==> CoinTime == old(CoinTime) + old(balance) * (now - old(Time))
    {
      if policy.Linear? {
        return false;
      }
      Update(now);
      Distribute(balance, amount, policy.Needed());
      Distribute(Vested, amount, policy.Needed());
      policy := policy.(earned := policy.earned + amount * policy.Needed());
      balance, Deposited, Vested := balance + amount, Deposited + amount, Vested + amount;
      return true;
    }

    /** An allowed withdrawal is covered by the balance and by the coin seconds it costs. */
    method Withdraw(now: nat, amount: nat)
      requires Valid() && now >= Time && IsWithdrawAllowed(now, amount)
      modifies this
      ensures Valid() && Time == now && balance == old(balance) - amount
      ensures policy.Linear? == old(policy).Linear? && (policy.Linear? ==> policy == old(policy))
      ensures old(policy).Cdd? ==> Refreshed(old(policy), now, policy)
      ensures old(policy).Cdd? ==> policy.earned == Earned(old(policy), old(balance), now) - amount * policy.Needed()
      ensures Withdrawn == old(Withdrawn) + amount && Deposited == old(Deposited) && Vested == old(Vested)
      ensures CoinTime == old(CoinTime) + old(balance) * (now - old(Time))
    {
      hide Earns;
      AllowedWithinBalance(policy, balance, now);
      assert amount <= balance;
      ghost var earned := if policy.Cdd? then Earned(policy, balance, now) else 0;
      Update(now);
      if policy.Cdd? {
        Affordable(earned, balance, amount, Withdrawn, CoinTime + Vested * policy.Needed(), policy.Needed());
        policy := policy.(earned := policy.earned - amount * policy.Needed());
      }
      balance, Withdrawn := balance - amount, Withdrawn + amount;
    }

    static lemma Distribute(x: int, y: nat, n: nat)
      ensures (x + y) * n == x * n + y * n
    {}

    /** What is withdrawn is paid for in coin seconds, and leaves the bounds on them as they are. */
    static lemma Affordable(earned: nat, balance: nat, amount: nat, withdrawn: nat, bound: nat, n: nat)
      requires n > 0 && amount <= earned / n && earned <= balance * n && withdrawn * n + earned <= bound
      ensures amount * n <= earned && earned - amount * n <= (balance - amount) * n
      ensures (withdrawn + amount) * n + (earned - amount * n) <= bound
    {
      FloorIsGreatest(earned, n, amount);
      Distribute(balance - amount, amount, n);
      Distribute(withdrawn, amount, n);
    }

    // ----- what holds after any run -----------------------------------------------------

    /** No more leaves than has matured: balance-time, and what was deposited as vested. */
    lemma OnlyMatureCoinsLeave()
      requires Valid() && policy.Cdd?
      ensures Withdrawn * policy.Needed() <= CoinTime + Vested * policy.Needed()
      ensures policy.earned <= balance * policy.Needed()
      ensures Vested == 0 ==> Withdrawn <= CoinTime / policy.Needed()
    {
      if Vested == 0 {
        FloorIsGreatest(CoinTime, policy.Needed(), Withdrawn);
      }
    }

    /** Left alone for its vesting time, and past the start of claims, the whole balance may leave. */
    lemma AllMatures(now: nat)
      requires Valid() && policy.Cdd? && now > policy.startClaim
      requires now >= Time + (if policy.vestingSeconds > 0 then policy.vestingSeconds else 1)
      ensures IsWithdrawAllowed(now, balance)
    {
      MaturesEvenly(policy, balance, now);
    }

    /** Without deposits the schedule bounds what left, and its checks hold from now on. */
    lemma ScheduleIsKept(now: nat)
      requires Valid() && policy.Linear? && Deposited == 0 && now >= Time
      ensures Withdrawn <= Released(policy, Time) <= policy.beginBalance
      ensures LinearAsserts(policy, balance, now)
      ensures Allowed(policy, balance, now) >= 0
    {
      ReleasedGrows(policy, Time, now);
      ReleasedWithinStart(policy, Time);
    }

    static ghost predicate InOrder(t: nat, steps: seq<Step>) {
      && (steps != [] ==> steps[0].now >= t)
      && forall i :: 0 < i < |steps| ==> steps[i - 1].now <= steps[i].now
    }

    ghost function Sight(): View
      reads this
    {
      View(balance, policy, Deposited, Vested, Withdrawn, CoinTime, Time)
    }

    static ghost predicate CanStep(v: View, s: Step) {
      s.now >= v.time && (v.policy.Cdd? ==> s.now >= v.policy.lastUpdate)
    }

    static ghost predicate IsTrace(trace: seq<View>, steps: seq<Step>) {
      && |trace| == |steps| + 1
      && forall i :: 0 <= i < |steps| ==> CanStep(trace[i], steps[i]) && Steps(trace[i], steps[i], trace[i + 1])
    }

    static lemma LongerTrace(trace: seq<View>, steps: seq<Step>, s: Step, v: View)
      requires IsTrace(trace, steps) && CanStep(trace[|steps|], s) && Steps(trace[|steps|], s, v)
      ensures IsTrace(trace + [v], steps + [s])
    {
      hide Steps, CanStep;
    }

    /** Deposits and withdrawals in order of time; one that is not allowed changes nothing. */
    method Run(steps: seq<Step>) returns (ghost trace: seq<View>)
      requires Valid() && InOrder(Time, steps)
      modifies this
      ensures Valid() && policy.Cdd? == old(policy).Cdd?
      ensures policy.Cdd? ==> policy.Needed() == old(policy).Needed()
      ensures policy.Linear? ==> policy == old(policy)
      ensures policy.Linear? && (forall s <- steps :: !s.Pay?) ==> Deposited == old(Deposited)
      ensures IsTrace(trace, steps) && trace[0] == old(Sight()) && trace[|steps|] == Sight()
    {
      hide Steps, CanStep, IsTrace;
      trace := [Sight()];
      assert IsTrace(trace, []) by { NoSteps(trace); }
      for i := 0 to |steps|
        invariant Valid() && policy.Cdd? == old(policy).Cdd?
        invariant policy.Cdd? ==> policy.Needed() == old(policy).Needed()
        invariant policy.Linear? ==> policy == old(policy)
        invariant policy.Linear? && (forall s <- steps[..i] :: !s.Pay?) ==> Deposited == old(Deposited)
        invariant InOrder(Time, steps[i..])
        invariant |trace| == i + 1 && IsTrace(trace, steps[..i]) && trace[0] == old(Sight()) && trace[i] == Sight()
      {
        assert steps[..i + 1] == steps[..i] + [steps[i]];
        assert steps[i..][0] == steps[i] && steps[i..][1..] == steps[i + 1..];
        TakeStep(steps[i]);
        LongerTrace(trace, steps[..i], steps[i], Sight());
        trace := trace + [Sight()];
        assert forall j :: 0 < j < |steps| - i ==> steps[i..][j - 1].now <= steps[i..][j].now;
      }
      assert steps[..|steps|] == steps;
    }

    static lemma NoSteps(trace: seq<View>)
      requires |trace| == 1
      ensures IsTrace(trace, [])
    {}

    method TakeStep(s: Step)
      requires Valid() && s.now >= Time
      modifies this
      ensures CanStep(old(Sight()), s) && Steps(old(Sight()), s, Sight())
      ensures Valid() && Time <= s.now && policy.Cdd? == old(policy).Cdd?
      ensures policy.Cdd? ==> policy.Needed() == old(policy).Needed()
      ensures policy.Linear? ==> policy == old(policy) && (!s.Pay? ==> Deposited == old(Deposited))
    {
      match s
      case Pay(now, amount) =>
        if IsDepositAllowed(amount) {
          Deposit(now, amount);
        }
      case PayVested(now, amount) =>
        if IsDepositAllowed(amount) {
          var ok := DepositVested(now, amount);
        }
      case Take(now, amount) =>
        if IsWithdrawAllowed(now, amount) {
          Withdraw(now, amount);
        }
      case Touch(now) => Update(now);
    }
  }

  datatype Step =
    | Pay(now: nat, amount: nat)
    | PayVested(now: nat, amount: nat)
    | Take(now: nat, amount: nat)
    | Touch(now: nat)
}

/**
  Issuance of the core asset: the budget that each maintenance releases from the reserve, its
  division among witnesses and workers, and the pay of the witness that produces a block.
 */
module Budget {
  import opened Commons
  import Prices
  import opened Sums

  const CYCLE_RATE := 17
  const CYCLE_UNIT := 0x1_0000_0000
  const SECONDS_PER_DAY := 86_400

  // ----- the size of the budget -------------------------------------------------------------

  /** The part of the reserve that cycles back in `dt` seconds, rounded up. */
  function Released(reserve: nat, dt: nat): nat {
    Min(reserve, (reserve * dt * CYCLE_RATE + (CYCLE_UNIT - 1)) / CYCLE_UNIT)
  }

  /**
    The budget never exceeds the reserve, and is the rate's share of it to within one unit. A
    reserve is never out of reach: in any time some of it is released, in long enough all of it.
   */
  lemma ReleaseIsBounded(reserve: nat, dt: nat)
    ensures Released(reserve, dt) <= reserve
    ensures Released(reserve, dt) * CYCLE_UNIT < reserve * dt * CYCLE_RATE + CYCLE_UNIT
    ensures Released(reserve, dt) < reserve ==> reserve * dt * CYCLE_RATE <= Released(reserve, dt) * CYCLE_UNIT
    ensures reserve > 0 && dt > 0 ==> Released(reserve, dt) > 0
    ensures dt * CYCLE_RATE >= CYCLE_UNIT ==> Released(reserve, dt) == reserve
  {}

  // ----- the payroll ------------------------------------------------------------------------

  datatype Kind = Refund | Vesting | Burn

  /** `paid` is what the worker received over its lifetime; refunded pay leaves the supply. */
  datatype Worker = Worker(kind: Kind, votes: int, begin: nat, end: nat, dailyPay: nat, paid: nat)

  type WorkerId = nat

  predicate Active(w: Worker, now: nat) {
    w.begin <= now <= w.end && w.votes > 0
  }

  /** More votes first; a tie goes to the lower id. */
  predicate Preferred(v: Worker, i: WorkerId, w: Worker, j: WorkerId) {
    v.votes > w.votes || (v.votes == w.votes && i < j)
  }

  ghost predicate Ranked(workers: map<WorkerId, Worker>, ids: seq<WorkerId>) {
    && (forall i <- ids :: i in workers)
    && forall i, j :: 0 <= i < j < |ids| ==> Preferred(workers[ids[i]], ids[i], workers[ids[j]], ids[j])
  }

  function Requested(w: Worker, elapsed: nat): nat {
    if elapsed == SECONDS_PER_DAY then w.dailyPay else w.dailyPay * elapsed / SECONDS_PER_DAY
  }

  /** A worker asks for its daily pay for the time that has passed, rounded down. */
  lemma RequestIsPart(w: Worker, elapsed: nat)
    ensures Prices.RoundsDown(Requested(w, elapsed), w.dailyPay * elapsed, SECONDS_PER_DAY)
  {
    Prices.FloorBounds(w.dailyPay * elapsed, SECONDS_PER_DAY);
  }

  /** What each of the workers is paid out of the budget, in order. */
  function Payroll(requests: seq<nat>, budget: nat): (pays: seq<nat>)
    ensures |pays| == |requests|
  {
    if requests == [] then []
    else var pay := Min(budget, requests[0]); [pay] + Payroll(requests[1..], budget - pay)
  }

  /**
    No one is paid more than requested, and all pay comes out of the budget. Whoever is paid
    short exhausts it: no one further down is paid at all.
   */
  lemma {:induction false} PayrollIsFair(requests: seq<nat>, budget: nat)
    ensures Total(Payroll(requests, budget)) == Min(budget, Total(requests))
    ensures forall i :: 0 <= i < |requests| ==> Payroll(requests, budget)[i] <= requests[i]
    ensures forall i, j :: 0 <= i < j < |requests| && Payroll(requests, budget)[i] < requests[i] ==>
              Payroll(requests, budget)[j] == 0
    ensures Total(Payroll(requests, budget)) < budget ==> Payroll(requests, budget) == requests
  {
    if requests != [] {
      var pay := Min(budget, requests[0]);
      PayrollIsFair(requests[1..], budget - pay);
      TotalFromFront(requests);
      TotalFromFront(Payroll(requests, budget));
      if budget == pay {
        NothingLeft(requests[1..]);
      }
    }
  }

  lemma {:induction false} NothingLeft(requests: seq<nat>)
    ensures forall i :: 0 <= i < |requests| ==> Payroll(requests, 0)[i] == 0
    ensures Total(Payroll(requests, 0)) == 0
  {
    if requests != [] {
      NothingLeft(requests[1..]);
      TotalFromFront(Payroll(requests, 0));
    }
  }

  // ----- the state --------------------------------------------------------------------------

  function KeptPay(): (WorkerId, Worker) -> int {
    (id: WorkerId, w: Worker) => if w.kind == Refund then 0 else w.paid
  }

  function WitnessPay(): (nat, nat) -> int {
    (id: nat, pay: nat) => pay
  }

  datatype Params = Params(blockInterval: nat, witnessPayPerBlock: nat, workerBudgetPerDay: nat)

  datatype Record = Record(
    initialReserve: nat, fees: nat, unusedWitnessBudget: nat, total: nat,
    forWitnesses: nat, forWorkers: nat, leftover: nat, supplyDelta: int)
  {
    function Spent(): int {
      forWitnesses + forWorkers - leftover
    }
  }

  /** The state of the treasury as a value. */
  datatype Sheet = Sheet(
    supply: int, fees: nat, witnessBudget: nat, lastBudgetTime: nat,
    workers: map<WorkerId, Worker>, witnesses: map<nat, nat>, circulating: nat)

  ghost function HeldIn(v: Sheet): int {
    v.circulating + v.fees + v.witnessBudget + SumBy(v.workers, KeptPay()) + SumBy(v.witnesses, WitnessPay())
  }

  class Treasury {
    const maxSupply: nat
    var supply: int
    var fees: nat
    var witnessBudget: nat
    var lastBudgetTime: nat
    var workers: map<WorkerId, Worker>
    var witnesses: map<nat, nat>
    /** What all other accounts hold. */
    var circulating: nat

    constructor (maxSupply: nat, supply: nat, circulating: nat, workers: map<WorkerId, Worker>)
      requires supply <= maxSupply
      ensures Valid() && this.supply == supply && this.workers == workers
    {
      this.maxSupply, this.supply, this.circulating, this.workers := maxSupply, supply, circulating, workers;
      fees, witnessBudget, lastBudgetTime, witnesses := 0, 0, 0, map[];
    }

    ghost predicate Valid()
      reads this
    {
      supply <= maxSupply
    }

    /** All core that someone holds or is set aside for the witnesses. */
    ghost function Held(): int
      reads this
    {
      HeldIn(Sight())
    }

    ghost function Sight(): Sheet
      reads this
    {
      Sheet(supply, fees, witnessBudget, lastBudgetTime, workers, witnesses, circulating)
    }

    // ----- paying workers ---------------------------------------------------------------

    /** The active workers, preferred ones first. */
    method RankWorkers(now: nat) returns (ids: seq<WorkerId>)
      ensures Ranked(workers, ids)
      ensures forall i :: i in ids <==> i in workers && Active(workers[i], now)
    {
      var rest := set i | i in workers && Active(workers[i], now);
      ids := [];
      while rest != {}
        invariant Ranked(workers, ids)
        invariant forall i :: i in ids || i in rest <==> i in workers && Active(workers[i], now)
        invariant forall i, j :: i in ids && j in rest ==> Preferred(workers[i], i, workers[j], j)
        decreases rest
      {
        var best := Top(workers, rest);
        ids, rest := ids + [best], rest - {best};
      }
    }

    static method Top(workers: map<WorkerId, Worker>, ids: set<WorkerId>) returns (best: WorkerId)
      requires ids != {} && ids <= workers.Keys
      ensures best in ids && forall j <- ids :: j != best ==> Preferred(workers[best], best, workers[j], j)
    {
      best :| best in ids;
      var todo := ids - {best};
      while todo != {}
        invariant best in ids && todo <= ids
        invariant forall j <- ids :: j !in todo && j != best ==> Preferred(workers[best], best, workers[j], j)
      {
        var i :| i in todo;
        todo := todo - {i};
        if Preferred(workers[i], i, workers[best], best) {
          best := i;
        }
      }
    }

    /** Refunded pay is burnt: it leaves the supply again. */
    method PayWorker(id: WorkerId, pay: nat)
      requires Valid() && id in workers
      modifies `workers, `supply
      ensures Valid() && workers == old(workers)[id := old(workers)[id].(paid := old(workers)[id].paid + pay)]
      ensures supply - Held() == old(supply - Held()) - pay && supply <= old(supply)
    {
      var w := workers[id];
      SumPut(workers, KeptPay(), id, w.(paid := w.paid + pay));
      workers := workers[id := w.(paid := w.paid + pay)];
      if w.kind == Refund {
        supply := supply - pay;
      }
    }

    /** What the ranked workers ask for. */
    static ghost function Requests(workers: map<WorkerId, Worker>, ids: seq<WorkerId>, elapsed: nat): (r: seq<nat>)
      requires forall i <- ids :: i in workers
      ensures |r| == |ids|
    {
      seq(|ids|, i requires 0 <= i < |ids| => Requested(workers[ids[i]], elapsed))
    }

    /** After the payroll the workers have received its amounts, and no other worker changed. */
    static ghost predicate PaidOut(
        before: map<WorkerId, Worker>, after: map<WorkerId, Worker>, ids: seq<WorkerId>, pays: seq<nat>) {
      && after.Keys == before.Keys && |pays| == |ids| && (forall i <- ids :: i in before)
      && (forall i :: 0 <= i < |ids| ==> after[ids[i]] == before[ids[i]].(paid := before[ids[i]].paid + pays[i]))
      && (forall i <- before :: i !in ids ==> after[i] == before[i])
    }

    static lemma RankedApart(workers: map<WorkerId, Worker>, ids: seq<WorkerId>)
      requires Ranked(workers, ids)
      ensures forall i <- ids :: i in workers
      ensures forall j, k :: 0 <= j < k < |ids| ==> ids[j] != ids[k]
    {}

    /** Pays the ranked workers until the budget is used up. */
    method PayWorkers(budget: nat, now: nat) returns (leftover: nat, ghost ids: seq<WorkerId>, ghost pays: seq<nat>)
      requires Valid() && (budget > 0 ==> now >= lastBudgetTime)
      modifies `workers, `supply
      ensures Valid() && Ranked(old(workers), ids)
      ensures forall i :: i in ids <==> i in old(workers) && Active(old(workers)[i], now)
      ensures budget > 0 ==> pays == Payroll(Requests(old(workers), ids, now - lastBudgetTime), budget)
      ensures PaidOut(old(workers), workers, ids, pays) && leftover == budget - Total(pays)
      ensures supply - Held() == old(supply - Held()) - (budget - leftover) && supply <= old(supply)
    {
      var ranked := RankWorkers(now);
      ids := ranked;
      leftover := budget;
      hide Payroll, Held, HeldIn, Total, Ranked, Preferred, PaidOut;
      RankedApart(workers, ranked);
      if budget == 0 {
        pays := seq(|ranked|, i => 0);
        NoPay(|ranked|);
        NoneChanged(workers, ranked, pays);
        return;
      }
      ghost var requests := Requests(workers, ranked, now - lastBudgetTime);
      NoneChanged(workers, ranked[..0], Payroll(requests, budget)[..0]);
      var i := 0;
      while i < |ranked| && leftover > 0
        invariant i <= |ranked| && Valid() && leftover <= budget
        invariant PayrollFrom(requests, budget, i, leftover)
        invariant PaidOut(old(workers), workers, ranked[..i], Payroll(requests, budget)[..i])
        invariant supply - Held() == old(supply - Held()) - (budget - leftover) && supply <= old(supply)
      {
        ghost var before := workers;
        assert ranked[i] !in ranked[..i];
        NextIsUnpaid(old(workers), before, ranked, Payroll(requests, budget), i);
        var pay := Min(leftover, Requested(workers[ranked[i]], now - lastBudgetTime));
        PayWorker(ranked[i], pay);
        OneMore(old(workers), before, ranked, Payroll(requests, budget), i);
        PayrollGoesOn(requests, budget, i, leftover);
        leftover, i := leftover - pay, i + 1;
      }
      pays := Payroll(requests, budget);
      RestUnpaid(old(workers), workers, ranked, requests, budget, pays, i, leftover);
    }

    static lemma NoneChanged(workers: map<WorkerId, Worker>, ids: seq<WorkerId>, pays: seq<nat>)
      requires |pays| == |ids| && (forall i <- ids :: i in workers) && forall i :: 0 <= i < |pays| ==> pays[i] == 0
      ensures PaidOut(workers, workers, ids, pays)
    {}

    static lemma NextIsUnpaid(
        start: map<WorkerId, Worker>, before: map<WorkerId, Worker>, ids: seq<WorkerId>, pays: seq<nat>, i: nat)
      requires i < |ids| == |pays| && PaidOut(start, before, ids[..i], pays[..i])
      requires ids[i] in start && ids[i] !in ids[..i]
      ensures ids[i] in before && before[ids[i]] == start[ids[i]]
    {}

    /** The payroll of all is what was paid to the first `i` and the payroll of the rest. */
    static ghost predicate PayrollFrom(requests: seq<nat>, budget: nat, i: nat, leftover: nat)
      requires i <= |requests|
    {
      && leftover <= budget
      && Total(Payroll(requests, budget)) == budget - leftover + Total(Payroll(requests[i..], leftover))
      && forall j :: i <= j < |requests| ==> Payroll(requests, budget)[j] == Payroll(requests[i..], leftover)[j - i]
    }

    static lemma PayrollGoesOn(requests: seq<nat>, budget: nat, i: nat, leftover: nat)
      requires i < |requests| && PayrollFrom(requests, budget, i, leftover)
      ensures Payroll(requests, budget)[i] == Min(leftover, requests[i])
      ensures PayrollFrom(requests, budget, i + 1, leftover - Min(leftover, requests[i]))
    {
      TotalFromFront(Payroll(requests[i..], leftover));
      assert requests[i..][1..] == requests[i + 1..];
    }

    static lemma {:induction false} NoPay(n: nat)
      ensures Total(seq(n, i => 0)) == 0
    {
      if n > 0 {
        NoPay(n - 1);
        assert seq(n, i => 0)[..n - 1] == seq(n - 1, i => 0);
      }
    }

    static lemma OneMore(
        start: map<WorkerId, Worker>, before: map<WorkerId, Worker>, ids: seq<WorkerId>, pays: seq<nat>, i: nat)
      requires i < |ids| == |pays| && PaidOut(start, before, ids[..i], pays[..i])
      requires ids[i] in start && ids[i] !in ids[..i]
      ensures ids[i] in before && before[ids[i]] == start[ids[i]]
      ensures PaidOut(start, before[ids[i] := before[ids[i]].(paid := before[ids[i]].paid + pays[i])],
                ids[..i + 1], pays[..i + 1])
    {
      assert ids[..i + 1] == ids[..i] + [ids[i]];
      assert forall j :: 0 <= j < i ==> ids[..i][j] == ids[j] == ids[..i + 1][j];
    }

    /** When the loop stops, with no worker or no budget left, the other pays are zero. */
    static lemma RestUnpaid(start: map<WorkerId, Worker>, end: map<WorkerId, Worker>, ids: seq<WorkerId>,
                            requests: seq<nat>, budget: nat, pays: seq<nat>, i: nat, leftover: nat)
      requires |requests| == |ids| == |pays| && i <= |ids| && (i == |ids| || leftover == 0)
      requires PaidOut(start, end, ids[..i], pays[..i]) && forall k <- ids :: k in start
      requires forall j, k :: 0 <= j < k < |ids| ==> ids[j] != ids[k]
      requires PayrollFrom(requests, budget, i, leftover) && pays == Payroll(requests, budget)
      ensures PaidOut(start, end, ids, pays) && Total(pays) == budget - leftover
    {
      if i < |ids| {
        NothingLeft(requests[i..]);
      } else {
        assert requests[i..] == [];
      }
      forall j | 0 <= j < |ids|
        ensures end[ids[j]] == start[ids[j]].(paid := start[ids[j]].paid + pays[j])
      {
        if j < i {
          assert ids[..i][j] == ids[j];
        } else {
          assert ids[j] !in ids[..i];
        }
      }
    }

    // ----- maintenance ------------------------------------------------------------------

    /** Accumulated fees and the unused witness budget count as reserved. */
    function Reserve(): nat
      requires supply <= maxSupply
      reads this
    {
      maxSupply - supply + fees + witnessBudget
    }

    method InitializeBudget(now: nat) returns (total: nat)
      requires Valid()
      ensures total ==
        if lastBudgetTime == 0 || now <= lastBudgetTime then 0
        else Released(maxSupply - supply + fees + witnessBudget, now - lastBudgetTime)
    {
      if lastBudgetTime == 0 || now <= lastBudgetTime {
        return 0;
      }
      var reserve := Reserve();
      var budget := (reserve * (now - lastBudgetTime) * CYCLE_RATE + (CYCLE_UNIT - 1)) / CYCLE_UNIT;
      total := if budget < reserve then budget else reserve;
    }

    /** The blocks that begin before the maintenance. */
    static function Blocks(untilMaintenance: nat, interval: nat): nat
      requires interval > 0
    {
      (untilMaintenance + interval - 1) / interval
    }

    /** The blocks and the days until the next maintenance ask for these amounts. */
    static function Asked(untilMaintenance: nat, params: Params): (nat, nat)
      requires params.blockInterval > 0
    {
      (params.witnessPayPerBlock * Blocks(untilMaintenance, params.blockInterval),
       params.workerBudgetPerDay * untilMaintenance / SECONDS_PER_DAY)
    }

    /** All blocks that begin before the maintenance count, and every second of the workers' days. */
    static lemma AskedIsForTheInterval(untilMaintenance: nat, params: Params)
      requires params.blockInterval > 0 && untilMaintenance > 0
      ensures var blocks := Blocks(untilMaintenance, params.blockInterval);
        && Prices.RoundsDown(blocks - 1, untilMaintenance - 1, params.blockInterval)
        && Asked(untilMaintenance, params).0 == params.witnessPayPerBlock * blocks
      ensures var budget := params.workerBudgetPerDay * untilMaintenance;
        Prices.RoundsDown(Asked(untilMaintenance, params).1, budget, SECONDS_PER_DAY)
    {
      BlocksRoundUp(untilMaintenance, params.blockInterval);
      Prices.FloorBounds(params.workerBudgetPerDay * untilMaintenance, SECONDS_PER_DAY);
    }

    static lemma BlocksRoundUp(untilMaintenance: nat, interval: nat)
      requires interval > 0 && untilMaintenance > 0
      ensures Prices.RoundsDown(Blocks(untilMaintenance, interval) - 1, untilMaintenance - 1, interval)
    {
      var blocks := Blocks(untilMaintenance, interval);
      Prices.FloorBounds(untilMaintenance + interval - 1, interval);
      assert (blocks - 1) * interval == blocks * interval - interval;
      assert (blocks + 1) * interval == blocks * interval + interval;
    }

    /** The witnesses' share comes first, the workers' out of what is left of the budget. */
    static method Divide(total: nat, untilMaintenance: nat, params: Params) returns (forWitnesses: nat, forWorkers: nat)
      requires untilMaintenance > 0 && params.blockInterval > 0
      ensures forWitnesses == Min(Asked(untilMaintenance, params).0, total)
      ensures forWorkers == Min(Asked(untilMaintenance, params).1, total - forWitnesses)
    {
      var blocks := Blocks(untilMaintenance, params.blockInterval);
      forWitnesses := Min(params.witnessPayPerBlock * blocks, total);
      var daily := params.workerBudgetPerDay * untilMaintenance / SECONDS_PER_DAY;
      forWorkers := if daily >= total - forWitnesses then total - forWitnesses else daily;
    }

    /**
      The record of a maintenance: it sets the budget from what is reserved, divides and spends
      it, and changes the supply by exactly what is held more or less than before.
     */
    static ghost predicate MaintainedBy(maxSupply: nat, v: Sheet, now: nat, nextMaintenance: nat, params: Params,
        rec: Record, ids: seq<WorkerId>, pays: seq<nat>, w: Sheet)
      requires v.supply <= maxSupply && nextMaintenance > now && params.blockInterval > 0
    {
      && w.supply - HeldIn(w) == v.supply - HeldIn(v)
      && rec.total == (if v.lastBudgetTime == 0 || now <= v.lastBudgetTime then 0
                       else Released(maxSupply - v.supply + v.fees + v.witnessBudget, now - v.lastBudgetTime))
      && rec.initialReserve == maxSupply - v.supply && rec.fees == v.fees && rec.unusedWitnessBudget == v.witnessBudget
      && rec.supplyDelta == rec.Spent() - rec.fees - rec.unusedWitnessBudget
      && 0 <= rec.Spent() <= rec.total && rec.leftover == rec.forWorkers - Total(pays)
      && rec.forWitnesses == Min(Asked(nextMaintenance - now, params).0, rec.total)
      && rec.forWorkers == Min(Asked(nextMaintenance - now, params).1, rec.total - rec.forWitnesses)
      && w.witnessBudget == rec.forWitnesses && w.fees == 0 && w.lastBudgetTime == now
      && Ranked(v.workers, ids) && PaidOut(v.workers, w.workers, ids, pays)
      && (forall i :: i in ids <==> i in v.workers && Active(v.workers[i], now))
      && (rec.forWorkers > 0 ==> now > v.lastBudgetTime)
      && (rec.forWorkers > 0 ==> pays == Payroll(Requests(v.workers, ids, now - v.lastBudgetTime), rec.forWorkers))
      && w.circulating == v.circulating && w.witnesses == v.witnesses
    }

    /**
      Sets the budget, pays the workers and burns what is collected or left over. No more is
      spent than the budget, the supply stays within its maximum, and it changes by exactly
      what is held more or less than before.
     */
    method ProcessBudget(now: nat, nextMaintenance: nat, params: Params)
      returns (rec: Record, ghost ids: seq<WorkerId>, ghost pays: seq<nat>)
      requires Valid() && nextMaintenance > now && params.blockInterval > 0
      modifies this
      ensures Valid() && MaintainedBy(maxSupply, old(Sight()), now, nextMaintenance, params, rec, ids, pays, Sight())
    {
      hide Payroll, Total, PaidOut, Ranked, HeldIn, Requests;
      var reserved := maxSupply - supply;
      var total := InitializeBudget(now);
      ReleaseIsBounded(Reserve(), if now <= lastBudgetTime then 0 else now - lastBudgetTime);
      var forWitnesses, forWorkers := Divide(total, nextMaintenance - now, params);
      var leftover;
      leftover, ids, pays := PayWorkers(forWorkers, now);
      var delta := forWitnesses + forWorkers - leftover - fees - witnessBudget;
      rec := Record(reserved, fees, witnessBudget, total, forWitnesses, forWorkers, leftover, delta);
      CloseInterval(delta, forWitnesses, now);
    }

    method CloseInterval(supplyDelta: int, forWitnesses: nat, now: nat)
      modifies `supply, `fees, `witnessBudget, `lastBudgetTime
      ensures supply == old(supply) + supplyDelta && fees == 0 && witnessBudget == forWitnesses && lastBudgetTime == now
      ensures Held() == old(Held()) - old(fees) - old(witnessBudget) + forWitnesses
    {
      supply := supply + supplyDelta;
      fees := 0;
      witnessBudget, lastBudgetTime := forWitnesses, now;
    }

    /** The witness of a block is paid from the budget, as far as that goes. */
    method PayWitness(id: nat, params: Params) returns (pay: nat)
      requires Valid()
      modifies `witnessBudget, `witnesses
      ensures Valid() && pay == Min(params.witnessPayPerBlock, old(witnessBudget))
      ensures witnessBudget == old(witnessBudget) - pay
      ensures witnesses == old(witnesses)[id := pay + if id in old(witnesses) then old(witnesses)[id] else 0]
      ensures supply - Held() == old(supply - Held())
    {
      pay := Min(params.witnessPayPerBlock, witnessBudget);
      witnessBudget := witnessBudget - pay;
      var earned: nat := if id in witnesses then witnesses[id] else 0;
      earned := earned + pay;
      SumPut(witnesses, WitnessPay(), id, earned);
      witnesses := witnesses[id := earned];
    }

    method CollectFee(amount: nat) returns (ok: bool)
      requires Valid()
      modifies `circulating, `fees
      ensures Valid() && supply - Held() == old(supply - Held())
      ensures ok == (amount <= old(circulating))
      ensures circulating == old(circulating) - (if ok then amount else 0)
      ensures fees == old(fees) + (if ok then amount else 0)
    {
      ok := amount <= circulating;
      if ok {
        circulating, fees := circulating - amount, fees + amount;
      }
    }

    // ----- runs -------------------------------------------------------------------------

    /** What a step makes of the state. */
    static ghost predicate Steps(maxSupply: nat, v: Sheet, s: Step, w: Sheet)
      requires v.supply <= maxSupply
    {
      match s
      case Maintain(now, nextMaintenance, params) =>
        if nextMaintenance <= now || params.blockInterval == 0 then w == v
        else exists rec, ids, pays :: MaintainedBy(maxSupply, v, now, nextMaintenance, params, rec, ids, pays, w)
      case Produce(id, params) =>
        var pay := Min(params.witnessPayPerBlock, v.witnessBudget);
        var earned: nat := if id in v.witnesses then v.witnesses[id] else 0;
        w == v.(witnessBudget := v.witnessBudget - pay, witnesses := v.witnesses[id := earned + pay])
      case Fee(amount) =>
        w == if amount <= v.circulating then v.(circulating := v.circulating - amount, fees := v.fees + amount) else v
    }

    static ghost predicate IsTrace(maxSupply: nat, trace: seq<Sheet>, steps: seq<Step>) {
      && |trace| == |steps| + 1 && (forall i :: 0 <= i < |trace| ==> trace[i].supply <= maxSupply)
      && forall i :: 0 <= i < |steps| ==> Steps(maxSupply, trace[i], steps[i], trace[i + 1])
    }

    /**
      Any run of blocks, fees and maintenances keeps the supply within its maximum, and in step
      with what is held. The trace holds the states in between.
     */
    method Run(steps: seq<Step>) returns (ghost trace: seq<Sheet>)
      requires Valid()
      modifies this
      ensures Valid() && supply - Held() == old(supply - Held())
      ensures IsTrace(maxSupply, trace, steps) && trace[0] == old(Sight()) && trace[|steps|] == Sight()
    {
      hide Steps, HeldIn;
      trace := [Sight()];
      for i := 0 to |steps|
        invariant Valid() && supply - Held() == old(supply - Held())
        invariant |trace| == i + 1 && IsTrace(maxSupply, trace, steps[..i])
        invariant trace[0] == old(Sight()) && trace[i] == Sight()
      {
        TakeStep(steps[i]);
        assert steps[..i + 1] == steps[..i] + [steps[i]];
        trace := trace + [Sight()];
      }
      assert steps[..|steps|] == steps;
    }

    method TakeStep(s: Step)
      requires Valid()
      modifies this
      ensures Valid() && supply - Held() == old(supply - Held())
      ensures Steps(maxSupply, old(Sight()), s, Sight())
    {
      hide HeldIn, PaidOut, Ranked;
      match s
      case Maintain(now, nextMaintenance, params) =>
        if nextMaintenance > now && params.blockInterval > 0 {
          var rec, ids, pays := ProcessBudget(now, nextMaintenance, params);
        }
      case Produce(id, params) =>
        var pay := PayWitness(id, params);
      case Fee(amount) =>
        var ok := CollectFee(amount);
    }
  }

  datatype Step =
    | Maintain(now: nat, nextMaintenance: nat, params: Params)
    | Produce(id: nat, params: Params)
    | Fee(amount: nat)
}

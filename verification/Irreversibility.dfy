/** The last irreversible block: the greatest number that a quorum of the active witnesses has confirmed. */
module Irreversibility {
  import opened Commons
  import opened Prices

  type WitnessId = nat

  const IRREVERSIBLE_THRESHOLD := 7_000

  // ----- order statistics -------------------------------------------------------------------

  ghost function CountAtLeast(s: seq<nat>, v: nat): (n: nat)
    ensures n <= |s|
  {
    if s == [] then 0 else (if s[0] >= v then 1 else 0) + CountAtLeast(s[1..], v)
  }

  lemma {:induction false} CountConcat(s: seq<nat>, t: seq<nat>, v: nat)
    ensures CountAtLeast(s + t, v) == CountAtLeast(s, v) + CountAtLeast(t, v)
  {
    if s == [] {
      assert s + t == t;
    } else {
      CountConcat(s[1..], t, v);
      assert (s + t)[1..] == s[1..] + t;
    }
  }

  function Without(s: seq<nat>, i: nat): seq<nat>
    requires i < |s|
  {
    s[..i] + s[i + 1..]
  }

  lemma RemoveOne(s: seq<nat>, i: nat, v: nat)
    requires i < |s|
    ensures multiset(Without(s, i)) == multiset(s) - multiset{s[i]}
    ensures CountAtLeast(s, v) == CountAtLeast(Without(s, i), v) + (if s[i] >= v then 1 else 0)
  {
    var tail := [s[i]] + s[i + 1..];
    assert s == s[..i] + tail;
    assert tail[1..] == s[i + 1..];
    CountConcat(s[..i], s[i + 1..], v);
    CountConcat(s[..i], tail, v);
  }

  lemma {:induction false} CountOfPermutation(s: seq<nat>, t: seq<nat>, v: nat)
    requires multiset(s) == multiset(t)
    ensures CountAtLeast(s, v) == CountAtLeast(t, v)
  {
    if s == [] {
      assert |multiset(t)| == 0;
    } else {
      assert s[0] in multiset(t);
      var i :| 0 <= i < |t| && t[i] == s[0];
      RemoveOne(s, 0, v);
      RemoveOne(t, i, v);
      assert Without(s, 0) == s[1..];
      CountOfPermutation(s[1..], Without(t, i), v);
    }
  }

  lemma {:induction false} CountAll(s: seq<nat>, v: nat)
    ensures (forall x <- s :: x >= v) ==> CountAtLeast(s, v) == |s|
    ensures (forall x <- s :: x < v) ==> CountAtLeast(s, v) == 0
  {
    if s != [] {
      CountAll(s[1..], v);
      assert forall x <- s[1..] :: x in s;
      assert s[0] in s;
    }
  }

  /** Nothing before place `n` is greater, nothing after it is less. */
  ghost predicate Partitioned(s: seq<nat>, n: nat)
    requires n < |s|
  {
    (forall i :: 0 <= i < n ==> s[i] <= s[n]) && (forall i :: n < i < |s| ==> s[n] <= s[i])
  }

  /** Place `n` holds the greatest number that all but `n` of the entries reach. */
  lemma NthIsGreatestReached(s: seq<nat>, n: nat)
    requires n < |s| && Partitioned(s, n)
    ensures CountAtLeast(s, s[n]) >= |s| - n
    ensures forall u :: u > s[n] ==> CountAtLeast(s, u) < |s| - n
  {
    assert s == s[..n] + s[n..] && s == s[..n + 1] + s[n + 1..];
    CountConcat(s[..n], s[n..], s[n]);
    CountAll(s[n..], s[n]);
    forall u | u > s[n]
      ensures CountAtLeast(s, u) < |s| - n
    {
      CountConcat(s[..n + 1], s[n + 1..], u);
      CountAll(s[..n + 1], u);
    }
  }

  /** The place of the least number from place `i` on. */
  method LeastFrom(a: array<nat>, i: nat) returns (least: nat)
    requires i < a.Length
    ensures i <= least < a.Length && forall j :: i <= j < a.Length ==> a[least] <= a[j]
  {
    least := i;
    for k := i + 1 to a.Length
      invariant i <= least < a.Length && forall j :: i <= j < k ==> a[least] <= a[j]
    {
      if a[k] < a[least] {
        least := k;
      }
    }
  }

  method SwapAt(a: array<nat>, i: nat, j: nat)
    requires i < a.Length && j < a.Length
    modifies a
    ensures a[..] == Swap(old(a[..]), i, j)
    ensures multiset(a[..]) == multiset(old(a[..]))
  {
    a[i], a[j] := a[j], a[i];
  }

  /** The first `i` places hold the least numbers in order. */
  ghost predicate SortedTo(s: seq<nat>, i: nat) {
    forall j, k :: 0 <= j < i && j < k < |s| ==> s[j] <= s[k]
  }

  lemma LeastNext(s: seq<nat>, i: nat, least: nat)
    requires SortedTo(s, i) && i <= least < |s| && forall j :: i <= j < |s| ==> s[least] <= s[j]
    ensures SortedTo(s[i := s[least]][least := s[i]], i + 1)
  {}

  /** Moves the `n`th smallest number to place `n`, smaller ones before it, greater ones behind. */
  method NthElement(a: array<nat>, n: nat)
    requires n < a.Length
    modifies a
    ensures multiset(a[..]) == multiset(old(a[..])) && Partitioned(a[..], n)
  {
    hide SortedTo;
    assert SortedTo(a[..], 0) by { NothingSorted(a[..]); }
    for i := 0 to n + 1
      invariant multiset(a[..]) == multiset(old(a[..])) && SortedTo(a[..], i)
    {
      var least := LeastFrom(a, i);
      LeastNext(a[..], i, least);
      SwapAt(a, i, least);
    }
    SortedIsPartitioned(a[..], n);
  }

  lemma NothingSorted(s: seq<nat>)
    ensures SortedTo(s, 0)
  {}

  lemma SortedIsPartitioned(s: seq<nat>, n: nat)
    requires n < |s| && SortedTo(s, n + 1)
    ensures Partitioned(s, n)
  {}

  // ----- quorums ----------------------------------------------------------------------------

  /** How many of `n` witnesses may lag behind. */
  function Offset(n: nat, threshold: nat): nat
    requires threshold <= HUNDRED_PERCENT
  {
    (HUNDRED_PERCENT - threshold) * n / HUNDRED_PERCENT
  }

  /** With a threshold above one half, less than half of the witnesses may lag behind. */
  lemma OffsetIsMinority(n: nat, threshold: nat)
    requires n > 0 && HUNDRED_PERCENT / 2 < threshold <= HUNDRED_PERCENT
    ensures 2 * Offset(n, threshold) < n
  {
    assert (HUNDRED_PERCENT - threshold) * n <= (HUNDRED_PERCENT / 2 - 1) * n;
  }

  /** The part of all the witnesses that the threshold asks for. */
  ghost predicate Quorum(s: set<WitnessId>, all: set<WitnessId>, threshold: nat) {
    s <= all && |s| * HUNDRED_PERCENT >= threshold * |all|
  }

  /** So many may lag behind, and no more, for the others to be that part. */
  lemma OffsetLeavesTheQuorum(n: nat, k: nat, threshold: nat)
    requires threshold <= HUNDRED_PERCENT && k <= n
    ensures n - k <= Offset(n, threshold) <==> k * HUNDRED_PERCENT >= threshold * n
  {
    var part: int := threshold * n;
    PartsOfAll(n, threshold);
    FloorIsGreatest(HUNDRED_PERCENT * n - part, HUNDRED_PERCENT, n - k);
  }

  lemma PartsOfAll(n: nat, threshold: nat)
    requires threshold <= HUNDRED_PERCENT
    ensures threshold * n <= HUNDRED_PERCENT * n
    ensures (HUNDRED_PERCENT - threshold) * n == HUNDRED_PERCENT * n - threshold * n
  {}

  /** Any two quorums of the same witnesses share a witness. */
  lemma QuorumsIntersect(s: set<WitnessId>, t: set<WitnessId>, all: set<WitnessId>, threshold: nat)
    requires all != {} && HUNDRED_PERCENT / 2 < threshold <= HUNDRED_PERCENT
    requires Quorum(s, all, threshold) && Quorum(t, all, threshold)
    ensures s * t != {}
  {
    SubsetIsSmaller(s + t, all);
    assert |s + t| + |s * t| == |s| + |t|;
  }

  lemma {:induction false} SubsetIsSmaller(s: set<WitnessId>, t: set<WitnessId>)
    requires s <= t
    ensures |s| <= |t|
    decreases t
  {
    if s != {} {
      var x :| x in s;
      SubsetIsSmaller(s - {x}, t - {x});
    }
  }

  // ----- confirmed blocks ---------------------------------------------------------------------

  function Numbers(confirmed: map<WitnessId, nat>, active: seq<WitnessId>): (r: seq<nat>)
    requires forall w <- active :: w in confirmed
    ensures |r| == |active|
  {
    seq(|active|, i requires 0 <= i < |active| => confirmed[active[i]])
  }

  /** The active witnesses that have confirmed a block of this number or a later one. */
  ghost function Supporters(confirmed: map<WitnessId, nat>, active: seq<WitnessId>, v: nat): set<WitnessId>
    requires forall w <- active :: w in confirmed
  {
    set w | w in active && confirmed[w] >= v
  }

  lemma {:induction false} SupportIsCount(confirmed: map<WitnessId, nat>, active: seq<WitnessId>, v: nat)
    requires Distinct(active) && forall w <- active :: w in confirmed
    ensures |Supporters(confirmed, active, v)| == CountAtLeast(Numbers(confirmed, active), v)
    decreases |active|
  {
    if active == [] {
      assert Supporters(confirmed, active, v) == {};
    } else {
      var w, rest := active[0], active[1..];
      SupportIsCount(confirmed, rest, v);
      assert Numbers(confirmed, active)[1..] == Numbers(confirmed, rest);
      assert w !in rest;
      assert Supporters(confirmed, active, v) ==
             Supporters(confirmed, rest, v) + (if confirmed[w] >= v then {w} else {});
    }
  }

  ghost function Members(active: seq<WitnessId>): set<WitnessId> {
    set w | w in active
  }

  lemma {:induction false} DistinctSize(active: seq<WitnessId>)
    requires Distinct(active)
    ensures |Members(active)| == |active|
  {
    if active != [] {
      DistinctSize(active[1..]);
      assert Members(active) == Members(active[1..]) + {active[0]};
    } else {
      assert Members(active) == {};
    }
  }

  class Confirmations {
    var confirmed: map<WitnessId, nat>
    var active: seq<WitnessId>
    var head: nat
    var irreversible: nat

    ghost predicate Valid()
      reads this
    {
      && active != [] && Distinct(active) && (forall w <- active :: w in confirmed)
      && (forall w <- confirmed :: confirmed[w] <= head) && irreversible <= head
    }

    constructor (active: seq<WitnessId>)
      requires active != [] && Distinct(active)
      ensures Valid() && this.active == active && head == 0 && irreversible == 0
    {
      this.active, confirmed, head, irreversible := active, map w | w in active :: 0, 0, 0;
    }

    /** A number is supported when a quorum of the active witnesses has confirmed it. */
    ghost predicate Supported(v: nat)
      requires forall w <- active :: w in confirmed
      reads `confirmed, `active
    {
      Quorum(Supporters(confirmed, active, v), Members(active), IRREVERSIBLE_THRESHOLD)
    }

    /** The witness of the next block confirms it. */
    method SignBlock(w: WitnessId)
      requires Valid() && w in confirmed
      modifies `confirmed, `head
      ensures Valid() && head == old(head) + 1 && confirmed == old(confirmed)[w := head]
    {
      head := head + 1;
      confirmed := confirmed[w := head];
    }

    /** Maintenance elects witnesses; new ones have confirmed nothing yet. */
    method Elect(elected: seq<WitnessId>)
      requires Valid() && elected != [] && Distinct(elected)
      modifies `active, `confirmed
      ensures Valid() && active == elected
      ensures confirmed == (map w | w in elected :: 0) + old(confirmed)
    {
      confirmed := (map w | w in elected :: 0) + confirmed;
      active := elected;
    }

    /** The greatest supported number, if it is greater than what is irreversible already. */
    method UpdateLastIrreversible() returns (ghost candidate: nat)
      requires Valid()
      modifies `irreversible
      ensures Valid() && Supported(candidate) && (forall v :: v > candidate ==> !Supported(v))
      ensures irreversible == if candidate > old(irreversible) then candidate else old(irreversible)
      ensures old(irreversible) <= irreversible <= head
    {
      var all := Numbers(confirmed, active);
      var numbers := new nat[|all|](i requires 0 <= i < |all| => all[i]);
      assert numbers[..] == all;
      var offset := Offset(|active|, IRREVERSIBLE_THRESHOLD);
      OffsetIsMinority(|active|, IRREVERSIBLE_THRESHOLD);
      NthElement(numbers, offset);
      candidate := numbers[offset];
      Candidate(numbers[..], offset);
      if numbers[offset] > irreversible {
        irreversible := numbers[offset];
      }
    }

    lemma Candidate(s: seq<nat>, offset: nat)
      requires Valid() && multiset(s) == multiset(Numbers(confirmed, active))
      requires offset == Offset(|active|, IRREVERSIBLE_THRESHOLD) && offset < |s| && Partitioned(s, offset)
      ensures Supported(s[offset]) && forall v :: v > s[offset] ==> !Supported(v)
      ensures s[offset] <= head
    {
      NthIsGreatestReached(s, offset);
      DistinctSize(active);
      forall k: nat | k <= |active|
        ensures |active| - k <= offset <==> k * HUNDRED_PERCENT >= IRREVERSIBLE_THRESHOLD * |active|
      {
        OffsetLeavesTheQuorum(|active|, k, IRREVERSIBLE_THRESHOLD);
      }
      assert |multiset(s)| == |s| && |multiset(Numbers(confirmed, active))| == |active|;
      forall v
        ensures |Supporters(confirmed, active, v)| == CountAtLeast(s, v)
      {
        SupportIsCount(confirmed, active, v);
        CountOfPermutation(s, Numbers(confirmed, active), v);
      }
      assert s[offset] in multiset(s);
      assert s[offset] in Numbers(confirmed, active);
    }

    /** Two supported numbers have a witness in common that confirmed both. */
    lemma SupportOverlaps(u: nat, v: nat) returns (w: WitnessId)
      requires Valid() && Supported(u) && Supported(v)
      ensures w in active && confirmed[w] >= u && confirmed[w] >= v
    {
      var s, t := Supporters(confirmed, active, u), Supporters(confirmed, active, v);
      assert active[0] in Members(active);
      QuorumsIntersect(s, t, Members(active), IRREVERSIBLE_THRESHOLD);
      w :| w in s * t;
    }

    ghost function Sight(): View
      reads this
    {
      View(confirmed, active, head, irreversible)
    }

    lemma GreatestIsSeen(candidate: nat)
      requires Valid() && Supported(candidate) && forall v :: v > candidate ==> !Supported(v)
      ensures IsGreatestSupported(Sight(), candidate)
    {
      forall v: nat | v > candidate
        ensures !Quorum(Supporters(confirmed, active, v), Members(active), IRREVERSIBLE_THRESHOLD)
      {
        assert !Supported(v);
      }
    }

    /**
      Over any run of blocks and elections the irreversible number neither falls nor passes the
      head. The trace holds the states in between.
     */
    method Run(steps: seq<Step>) returns (ghost trace: seq<View>)
      requires Valid()
      modifies this
      ensures Valid() && old(irreversible) <= irreversible <= head && old(head) <= head
      ensures IsTrace(trace, steps) && trace[0] == old(Sight()) && trace[|steps|] == Sight()
    {
      hide Steps, Quorum;
      trace := [Sight()];
      for i := 0 to |steps|
        invariant Valid() && old(irreversible) <= irreversible && old(head) <= head
        invariant |trace| == i + 1 && IsTrace(trace, steps[..i]) && trace[0] == old(Sight()) && trace[i] == Sight()
      {
        TakeStep(steps[i]);
        assert steps[..i + 1] == steps[..i] + [steps[i]];
        trace := trace + [Sight()];
      }
      assert steps[..|steps|] == steps;
    }

    method TakeStep(s: Step)
      requires Valid()
      modifies this
      ensures Valid() && old(irreversible) <= irreversible && old(head) <= head
      ensures Steps(old(Sight()), s, Sight())
    {
      match s
      case Block(w) =>
        if w in confirmed {
          SignBlock(w);
          ghost var candidate := UpdateLastIrreversible();
          GreatestIsSeen(candidate);
        }
      case Election(elected) =>
        if elected != [] && forall i, j :: 0 <= i < j < |elected| ==> elected[i] != elected[j] {
          Elect(elected);
        }
    }
  }

  // ----- runs ---------------------------------------------------------------------------------

  datatype View = View(confirmed: map<WitnessId, nat>, active: seq<WitnessId>, head: nat, irreversible: nat)

  /** The number has a quorum of the active witnesses, and no greater one has. */
  ghost predicate IsGreatestSupported(v: View, candidate: nat) {
    && (forall w <- v.active :: w in v.confirmed)
    && Quorum(Supporters(v.confirmed, v.active, candidate), Members(v.active), IRREVERSIBLE_THRESHOLD)
    && forall u: nat :: u > candidate ==>
         !Quorum(Supporters(v.confirmed, v.active, u), Members(v.active), IRREVERSIBLE_THRESHOLD)
  }

  /** A block is confirmed by its signer and may make others irreversible; an election changes the witnesses. */
  ghost predicate Steps(v: View, s: Step, w: View) {
    match s
    case Block(signer) =>
      if signer !in v.confirmed then w == v
      else
        && w == v.(confirmed := v.confirmed[signer := v.head + 1], head := v.head + 1, irreversible := w.irreversible)
        && exists candidate: nat ::
             && IsGreatestSupported(w, candidate)
             && w.irreversible == if candidate > v.irreversible then candidate else v.irreversible
    case Election(elected) =>
      if elected == [] || !Distinct(elected) then w == v
      else w == v.(active := elected, confirmed := (map x | x in elected :: 0) + v.confirmed)
  }

  ghost predicate IsTrace(trace: seq<View>, steps: seq<Step>) {
    |trace| == |steps| + 1 && forall i :: 0 <= i < |steps| ==> Steps(trace[i], steps[i], trace[i + 1])
  }

  datatype Step = Block(signer: WitnessId) | Election(elected: seq<WitnessId>)
}

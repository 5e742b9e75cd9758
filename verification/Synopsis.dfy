/**
  What a node tells a peer about its chain, a synopsis of block ids whose distances halve, and
  which block ids it offers to a peer that sends one.
 */
module Synopsis {
  import opened Commons
  import opened Wrappers
  import opened ForkDatabases

  // ----- halving ----------------------------------------------------------------------------

  /** The block after `low` in a synopsis that ends at `top`. */
  function Next(low: nat, top: nat): (n: nat)
    requires low <= top
    ensures low < n <= top + 1
  {
    low + (top - low + 2) / 2
  }

  /** The numbers in a whole synopsis from `low` to `top`. */
  function Halving(low: nat, top: nat): (r: seq<nat>)
    decreases top + 1 - low
  {
    if low > top then [] else [low] + Halving(Next(low, top), top)
  }

  function Log2(n: nat): nat
    requires n > 0
  {
    if n == 1 then 0 else 1 + Log2(n / 2)
  }

  /** A synopsis is logarithmic, starts at `low`, only goes up and ends at `top`. */
  lemma {:induction false} HalvingIsLogarithmic(low: nat, top: nat)
    requires low <= top
    ensures |Halving(low, top)| == Log2(top - low + 1) + 1
    ensures Halving(low, top)[0] == low && Halving(low, top)[|Halving(low, top)| - 1] == top
    ensures forall i, j :: 0 <= i < j < |Halving(low, top)| ==> Halving(low, top)[i] < Halving(low, top)[j]
    decreases top - low
  {
    var next := Next(low, top);
    if next <= top {
      HalvingIsLogarithmic(next, top);
      assert top - next + 1 == (top - low + 1) / 2;
      assert forall j :: 0 <= j < |Halving(next, top)| ==> next <= Halving(next, top)[j];
    }
  }

  /** From one entry to the next the number of blocks up to the end halves, rounded down. */
  lemma {:induction false} DistancesHalve(low: nat, top: nat, i: nat)
    requires low <= top && i + 1 < |Halving(low, top)|
    ensures var left, next := top + 1 - Halving(low, top)[i], top + 1 - Halving(low, top)[i + 1];
      next * 2 <= left < (next + 1) * 2
    decreases top - low
  {
    var next := Next(low, top);
    assert Halving(low, top) == [low] + Halving(next, top);
    if i > 0 {
      assert next <= top;
      DistancesHalve(next, top, i - 1);
    } else {
      assert Halving(next, top)[0] == next;
    }
  }

  /** The numbers up to `high` of the synopsis for a chain that goes on to `top`. */
  function Numbers(low: nat, high: nat, top: nat): (r: seq<nat>)
    requires high <= top
    decreases top + 1 - low
  {
    if low > high then [] else [low] + Numbers(Next(low, top), high, top)
  }

  /** Leaving out the trailing blocks keeps exactly the entries that do not lie in them. */
  lemma {:induction false} NumbersAreTheEntriesUpTo(low: nat, high: nat, top: nat)
    requires high <= top
    ensures Numbers(low, high, top) <= Halving(low, top)
    ensures forall n <- Halving(low, top) :: n <= high <==> n in Numbers(low, high, top)
    ensures forall n <- Numbers(low, high, top) :: low <= n <= high
    ensures forall n <- Halving(low, top) :: n >= low
    decreases top + 1 - low
  {
    if low <= top {
      var next := Next(low, top);
      NumbersAreTheEntriesUpTo(next, high, top);
      assert Halving(low, top) == [low] + Halving(next, top);
      if low <= high {
        assert Numbers(low, high, top) == [low] + Numbers(next, high, top);
      }
    }
  }

  lemma {:induction false} NumbersRise(low: nat, high: nat, top: nat)
    requires high <= top
    ensures forall i, j ::
      0 <= i < j < |Numbers(low, high, top)| ==> Numbers(low, high, top)[i] < Numbers(low, high, top)[j]
    decreases top + 1 - low
  {
    if low <= high {
      var next := Next(low, top);
      NumbersRise(next, high, top);
      NumbersAreTheEntriesUpTo(next, high, top);
      forall j | 0 <= j < |Numbers(next, high, top)|
        ensures next <= Numbers(next, high, top)[j]
      {
        assert Numbers(next, high, top)[j] in Numbers(next, high, top);
      }
    }
  }

  // ----- chains of ids ----------------------------------------------------------------------

  /** The ids of blocks 1, 2, and so on. */
  ghost predicate IsChain(ids: seq<BlockId>) {
    forall i :: 0 <= i < |ids| ==> ids[i].Digest? && ids[i].previous == Predecessor(ids, i)
  }

  function Predecessor(ids: seq<BlockId>, i: nat): BlockId
    requires i < |ids|
  {
    if i == 0 then Zero else ids[i - 1]
  }

  lemma {:induction false} ChainNumbers(ids: seq<BlockId>, i: nat)
    requires IsChain(ids) && i < |ids|
    ensures ids[i].Num() == i + 1
  {
    var id, previous := ids[i], ids[i].previous;
    assert previous == Predecessor(ids, i);
    assert id.Num() == previous.Num() + 1;
    if i > 0 {
      ChainNumbers(ids, i - 1);
    }
  }

  predicate Included(main: seq<BlockId>, id: BlockId) {
    0 < id.Num() <= |main| && main[id.Num() - 1] == id
  }

  /** Chains that have a block in common are the same up to it. */
  lemma {:induction false} CommonBlock(ids: seq<BlockId>, other: seq<BlockId>, i: nat)
    requires IsChain(ids) && IsChain(other) && i < |ids| && i < |other| && ids[i] == other[i]
    ensures ids[..i + 1] == other[..i + 1]
  {
    if i > 0 {
      CommonBlock(ids, other, i - 1);
      assert ids[..i + 1] == ids[..i] + [ids[i]] && other[..i + 1] == other[..i] + [other[i]];
    }
  }

  lemma SameBelow(ids: seq<BlockId>, other: seq<BlockId>, i: nat, c: nat)
    requires c <= i < |ids| && i < |other| && ids[..i + 1] == other[..i + 1]
    ensures ids[c] == other[c]
  {}

  /** The part that two chains share. */
  ghost predicate SharedUpTo(main: seq<BlockId>, peer: seq<BlockId>, c: nat) {
    && c <= |main| && c <= |peer| && main[..c] == peer[..c]
    && (c < |main| && c < |peer| ==> main[c] != peer[c])
  }

  /** Of a peer's blocks exactly those in the shared part are included. */
  lemma PeerBlocksIncluded(main: seq<BlockId>, peer: seq<BlockId>, c: nat, i: nat)
    requires IsChain(main) && IsChain(peer) && SharedUpTo(main, peer, c) && i < |peer|
    ensures Included(main, peer[i]) <==> i < c
  {
    ChainNumbers(peer, i);
    if i < c {
      assert main[i] == main[..c][i] == peer[..c][i];
    } else if i < |main| && main[i] == peer[i] {
      CommonBlock(main, peer, i);
      SameBelow(main, peer, i, c);
      assert false;
    }
  }

  // ----- the last entry of a synopsis that is recognised --------------------------------------

  datatype Found = At(k: nat) | Nowhere | Beyond

  predicate Recognised(main: seq<BlockId>, id: BlockId) {
    id == Zero || Included(main, id)
  }

  /** From the end; a known id with a number that the main chain does not reach throws. */
  function Search(main: seq<BlockId>, known: set<BlockId>, synopsis: seq<BlockId>): Found {
    if synopsis == [] then Nowhere
    else
      var k := |synopsis| - 1;
      if synopsis[k] == Zero then At(k)
      else if synopsis[k] in known && synopsis[k].Num() > |main| then Beyond
      else if synopsis[k] in known && Included(main, synopsis[k]) then At(k)
      else Search(main, known, synopsis[..k])
  }

  /** A known id with a number that the main chain does not reach; asking for that block throws. */
  predicate OffChain(main: seq<BlockId>, known: set<BlockId>, id: BlockId) {
    id in known && id.Num() > |main|
  }

  lemma {:induction false} SearchFindsTheLast(main: seq<BlockId>, known: set<BlockId>, synopsis: seq<BlockId>)
    requires forall id <- main :: id in known
    ensures var found := Search(main, known, synopsis);
      && (found.At? ==> found.k < |synopsis| && Recognised(main, synopsis[found.k])
                        && forall j :: found.k < j < |synopsis| ==>
                             !Recognised(main, synopsis[j]) && !OffChain(main, known, synopsis[j]))
      && (found.Nowhere? <==> forall j :: 0 <= j < |synopsis| ==>
                                 !Recognised(main, synopsis[j]) && !OffChain(main, known, synopsis[j]))
      && (found.Beyond? <==> exists j :: 0 <= j < |synopsis| && OffChain(main, known, synopsis[j])
                                         && forall i :: j < i < |synopsis| ==> !Recognised(main, synopsis[i]))
  {
    if synopsis != [] {
      var k := |synopsis| - 1;
      SearchFindsTheLast(main, known, synopsis[..k]);
    }
  }

  /**
    For a peer's synopsis the search stops at its greatest entry in the shared part of the
    chains, unless it has an entry above the head block that the node knows from a fork.
   */
  lemma PeerIsFoundAtItsGreatestSharedEntry(
      main: seq<BlockId>, known: set<BlockId>, peer: seq<BlockId>, c: nat, numbers: seq<nat>, synopsis: seq<BlockId>)
    requires IsChain(main) && IsChain(peer) && SharedUpTo(main, peer, c) && forall id <- main :: id in known
    requires |synopsis| == |numbers| && forall i :: 0 <= i < |numbers| ==>
      0 < numbers[i] <= |peer| && synopsis[i] == peer[numbers[i] - 1]
    requires forall i, j :: 0 <= i < j < |numbers| ==> numbers[i] < numbers[j]
    ensures var found := Search(main, known, synopsis);
      match found
      case At(k) =>
        && k < |numbers| && numbers[k] <= c && synopsis[k].Num() == numbers[k]
        && forall j :: 0 <= j < |numbers| && numbers[j] <= c ==> numbers[j] <= numbers[k]
      case Nowhere => forall j :: 0 <= j < |numbers| ==> numbers[j] > c
      case Beyond => true
    ensures Search(main, known, synopsis).Beyond? <==>
      exists j :: 0 <= j < |numbers| && numbers[j] > |main| && synopsis[j] in known
  {
    hide Search, Included, IsChain, SharedUpTo;
    SearchFindsTheLast(main, known, synopsis);
    SharedWithin(main, peer, c);
    forall i | 0 <= i < |numbers|
      ensures Recognised(main, synopsis[i]) <==> numbers[i] <= c
      ensures synopsis[i].Num() == numbers[i]
    {
      PeerBlocksIncluded(main, peer, c, numbers[i] - 1);
      ChainNumbers(peer, numbers[i] - 1);
    }
  }

  lemma SharedWithin(main: seq<BlockId>, peer: seq<BlockId>, c: nat)
    requires SharedUpTo(main, peer, c)
    ensures c <= |main|
  {}

  // ----- the node ---------------------------------------------------------------------------

  /** A fork as the fork database gives it: its blocks, newest first, and the block it left from. */
  datatype Fork = Fork(blocks: seq<BlockId>, ancestor: BlockId)

  ghost predicate IsFork(main: seq<BlockId>, reference: BlockId, f: Fork) {
    && f.blocks != [] && f.blocks[0] == reference && (f.ancestor == Zero || Included(main, f.ancestor))
    && Descends(f)
  }

  ghost predicate Descends(f: Fork) {
    forall i :: 0 <= i < |f.blocks| ==>
      f.blocks[i].Digest? && f.blocks[i].previous == (if i == |f.blocks| - 1 then f.ancestor else f.blocks[i + 1])
  }

  class Node {
    /** The ids of the main chain's blocks. */
    var main: seq<BlockId>
    var lastNonUndoable: nat

    ghost predicate Valid()
      reads this
    {
      IsChain(main) && lastNonUndoable <= |main|
    }

    constructor (main: seq<BlockId>, lastNonUndoable: nat)
      requires IsChain(main) && lastNonUndoable <= |main|
      ensures Valid() && this.main == main && this.lastNonUndoable == lastNonUndoable
    {
      this.main, this.lastNonUndoable := main, lastNonUndoable;
    }

    /** The chain that a synopsis for the reference summarises. */
    ghost function Summarised(reference: BlockId, fork: Option<Fork>): seq<BlockId>
      requires fork.Some? && fork.value.ancestor.Num() <= |main|
      reads this
    {
      main[..fork.value.ancestor.Num()] + Reversed(fork.value.blocks)
    }

    static function Reversed(s: seq<BlockId>): (r: seq<BlockId>)
      ensures |r| == |s| && forall i :: 0 <= i < |s| ==> r[i] == s[|s| - 1 - i]
    {
      seq(|s|, i requires 0 <= i < |s| => s[|s| - 1 - i])
    }

    /** The ids at the given numbers of a chain. */
    static ghost predicate Summarises(synopsis: seq<BlockId>, chain: seq<BlockId>, numbers: seq<nat>) {
      && |synopsis| == |numbers|
      && forall i :: 0 <= i < |numbers| ==> 0 < numbers[i] <= |chain| && synopsis[i] == chain[numbers[i] - 1]
    }

    /** Main chain up to the fork point, then the fork, oldest block first. */
    static function IdAt(main: seq<BlockId>, nonForkHigh: nat, forkHistory: seq<BlockId>, n: nat): BlockId
      requires 0 < n <= nonForkHigh + |forkHistory| && nonForkHigh <= |main|
    {
      if n <= nonForkHigh then main[n - 1] else forkHistory[n - nonForkHigh - 1]
    }

    /** The loop that halves the distance to the end; it always emits at least `low`. */
    static method Summarise(main: seq<BlockId>, nonForkHigh: nat, forkHistory: seq<BlockId>, low: nat, after: nat)
      returns (synopsis: seq<BlockId>)
      requires nonForkHigh <= |main| && 0 < low <= nonForkHigh + |forkHistory|
      ensures var high := nonForkHigh + |forkHistory|;
        Summarises(synopsis, main[..nonForkHigh] + forkHistory, Numbers(low, high, high + after))
    {
      hide Numbers, Summarises;
      var high := nonForkHigh + |forkHistory|;
      var top := high + after;
      ghost var chain := main[..nonForkHigh] + forkHistory;
      var next := low;
      synopsis := [];
      ghost var done: seq<nat> := [];
      assert Summarises(synopsis, chain, done) by { NothingSummarised(chain); }
      while true
        invariant 0 < next <= high
        invariant Numbers(low, high, top) == done + Numbers(next, high, top) && Summarises(synopsis, chain, done)
        decreases high - next
      {
        SummaryGrows(synopsis, chain, done, next);
        NumbersGoOn(next, high, top, done);
        assert IdAt(main, nonForkHigh, forkHistory, next) == chain[next - 1];
        synopsis := synopsis + [IdAt(main, nonForkHigh, forkHistory, next)];
        done := done + [next];
        next := Next(next, top);
        if next > high {
          break;
        }
      }
    }

    static lemma NothingSummarised(chain: seq<BlockId>)
      ensures Summarises([], chain, [])
    {}

    static lemma SummaryGrows(synopsis: seq<BlockId>, chain: seq<BlockId>, numbers: seq<nat>, n: nat)
      requires Summarises(synopsis, chain, numbers) && 0 < n <= |chain|
      ensures Summarises(synopsis + [chain[n - 1]], chain, numbers + [n])
    {}

    static lemma NumbersGoOn(low: nat, high: nat, top: nat, done: seq<nat>)
      requires low <= high <= top
      ensures done + Numbers(low, high, top) == done + [low] + Numbers(Next(low, top), high, top)
      ensures Next(low, top) > high ==> done + Numbers(low, high, top) == done + [low]
    {
      hide Numbers;
      var rest := Numbers(Next(low, top), high, top);
      UnfoldNumbers(low, high, top);
      assert done + ([low] + rest) == done + [low] + rest;
    }

    static lemma UnfoldNumbers(low: nat, high: nat, top: nat)
      requires low <= high <= top
      ensures Numbers(low, high, top) == [low] + Numbers(Next(low, top), high, top)
      ensures Next(low, top) > high ==> Numbers(Next(low, top), high, top) == []
    {}

    /**
      The synopsis of the whole chain, or of the chain or fork up to the reference. It has
      exactly the numbers that halving gives up to the reference, of a chain with `after` more
      blocks. None where it throws: an unknown reference, or a fork that left too long ago.
     */
    method GetBlockchainSynopsis(reference: BlockId, fork: Option<Fork>, after: nat)
      returns (synopsis: Option<seq<BlockId>>)
      requires Valid()
      requires fork.Some? && !Included(main, reference) ==> IsFork(main, reference, fork.value)
      ensures reference == Zero ==> synopsis.Some? && (main == [] ==> synopsis.value == [])
      ensures reference == Zero && main != [] ==>
                Summarises(synopsis.value, main, Numbers(AtLeastOne(lastNonUndoable), |main|, |main| + after))
      ensures Included(main, reference) ==> synopsis.Some? && var n := reference.Num();
        var low := AtLeastOne(if n < lastNonUndoable then n else lastNonUndoable);
        Summarises(synopsis.value, main, Numbers(low, n, n + after))
      ensures reference != Zero && !Included(main, reference) ==>
                (synopsis.Some? <==> CanSummarise(main, lastNonUndoable, reference, fork))
      ensures reference != Zero && !Included(main, reference) && synopsis.Some? ==>
                Summarises(synopsis.value, Summarised(reference, fork),
                  Numbers(AtLeastOne(lastNonUndoable), reference.Num(), reference.Num() + after))
    {
      hide Numbers, Summarises, IsChain, IsFork, Descends;
      if reference == Zero {
        if main == [] {
          return Some([]);
        }
        assert main[..|main|] + [] == main;
        var ids := Summarise(main, |main|, [], AtLeastOne(lastNonUndoable), after);
        return Some(ids);
      }
      if reference.Num() > |main| {
        return None;
      }
      if Included(main, reference) {
        var n := reference.Num();
        var ids := Summarise(main, n, [], AtLeastOne(if n < lastNonUndoable then n else lastNonUndoable), after);
        PrefixSummary(ids, main, n, Numbers(AtLeastOne(if n < lastNonUndoable then n else lastNonUndoable), n,
          n + after));
        return Some(ids);
      }
      if fork.None? {
        return None;
      }
      ForkEndsAtReference(main, reference, fork.value);
      var nonForkHigh := fork.value.ancestor.Num();
      if nonForkHigh < lastNonUndoable {
        return None;
      }
      var ids := Summarise(main, nonForkHigh, Reversed(fork.value.blocks), AtLeastOne(lastNonUndoable), after);
      return Some(ids);
    }

    static function AtLeastOne(n: nat): nat {
      if n == 0 then 1 else n
    }

    /** The block log can be asked for the number, and the fork leaves from what can still be undone. */
    static ghost predicate CanSummarise(
        main: seq<BlockId>, lastNonUndoable: nat, reference: BlockId, fork: Option<Fork>) {
      reference.Num() <= |main| && fork.Some? && fork.value.ancestor.Num() >= lastNonUndoable
    }

    static lemma {:induction false} ForkNumber(f: Fork, i: nat)
      requires i < |f.blocks| && Descends(f)
      ensures f.blocks[i].Num() == f.ancestor.Num() + |f.blocks| - i
      decreases |f.blocks| - i
    {
      var previous := f.blocks[i].previous;
      assert f.blocks[i].Num() == previous.Num() + 1;
      assert previous == if i == |f.blocks| - 1 then f.ancestor else f.blocks[i + 1];
      if i < |f.blocks| - 1 {
        ForkNumber(f, i + 1);
      }
    }

    static lemma ForkEndsAtReference(main: seq<BlockId>, reference: BlockId, f: Fork)
      requires IsFork(main, reference, f)
      ensures f.blocks != [] && f.ancestor.Num() <= |main| && reference.Num() == f.ancestor.Num() + |f.blocks|
    {
      ForkNumber(f, 0);
    }

    static lemma PrefixSummary(synopsis: seq<BlockId>, main: seq<BlockId>, n: nat, numbers: seq<nat>)
      requires n <= |main| && Summarises(synopsis, main[..n] + [], numbers)
      ensures Summarises(synopsis, main, numbers)
    {}

    // ----- answering a synopsis -----------------------------------------------------------

    static predicate SaysNothing(synopsis: seq<BlockId>) {
      synopsis == [] || synopsis == [Zero]
    }

    /** The ids from block `start` on, or from block 1, but no more than the limit. */
    ghost function Offer(start: nat, limit: nat): seq<BlockId>
      requires start <= |main|
      reads this
    {
      var first := AtLeastOne(start) - 1;
      if first <= |main| then main[first..Min(first + limit, |main|)] else []
    }

    method FindLastKnown(synopsis: seq<BlockId>, known: set<BlockId>) returns (last: Option<BlockId>)
      ensures last == var found := Search(main, known, synopsis);
        if found.At? && found.k < |synopsis| then Some(synopsis[found.k]) else None
    {
      var i := |synopsis|;
      assert synopsis[..i] == synopsis;
      while i > 0
        invariant 0 <= i <= |synopsis| && Search(main, known, synopsis) == Search(main, known, synopsis[..i])
      {
        i := i - 1;
        var id := synopsis[i];
        assert synopsis[..i + 1][..i] == synopsis[..i] && synopsis[..i + 1][i] == id;
        if id == Zero {
          return Some(id);
        }
        if id in known {
          if id.Num() > |main| {
            return None;
          }
          if Included(main, id) {
            return Some(id);
          }
        }
      }
      assert synopsis[..0] == [];
      return None;
    }

    /**
      Offers ids in a row from the last entry that is recognised on, and says how many blocks
      are left after them. None where it throws: nothing in the synopsis is recognised.
     */
    method GetBlockIds(synopsis: seq<BlockId>, known: set<BlockId>, limit: nat)
      returns (ids: Option<seq<BlockId>>, remaining: nat)
      requires Valid() && forall id <- main :: id in known
      ensures main == [] ==> ids == Some([]) && remaining == 0
      ensures main != [] && SaysNothing(synopsis) ==> ids == Some(Offer(0, limit))
      ensures main != [] && !SaysNothing(synopsis) ==>
                var found := Search(main, known, synopsis);
                if found.At? then
                  && found.k < |synopsis| && synopsis[found.k].Num() <= |main|
                  && ids == Some(Offer(synopsis[found.k].Num(), limit))
                else ids == None
      ensures ids.Some? && ids.value != [] ==> ids.value[|ids.value| - 1].Num() + remaining == |main|
      ensures ids.Some? && main != [] && limit > 0 ==> ids.value != []
    {
      hide Search, Offer, IsChain;
      if main == [] {
        return Some([]), 0;
      }
      var last := Some(Zero);
      if !SaysNothing(synopsis) {
        SearchFindsTheLast(main, known, synopsis);
        last := FindLastKnown(synopsis, known);
        if last.None? {
          return None, 0;
        }
      }
      var start := last.value.Num();
      var result := CollectIds(start, limit);
      remaining := 0;
      OfferEnds(start, limit);
      if result != [] {
        if result[|result| - 1].Num() < |main| {
          remaining := |main| - result[|result| - 1].Num();
        }
      }
      return Some(result), remaining;
    }

    lemma OfferEnds(start: nat, limit: nat)
      requires Valid() && main != [] && start <= |main|
      ensures limit > 0 ==> Offer(start, limit) != []
      ensures var ids := Offer(start, limit); ids != [] ==> ids[|ids| - 1].Num() <= |main|
    {
      var first, ids := AtLeastOne(start) - 1, Offer(start, limit);
      if ids != [] {
        ChainNumbers(main, first + |ids| - 1);
      }
    }

    method CollectIds(start: nat, limit: nat) returns (result: seq<BlockId>)
      requires main != [] && start <= |main|
      ensures result == Offer(start, limit)
    {
      var num := start;
      result := [];
      ghost var first := AtLeastOne(start) - 1;
      while num <= |main| && |result| < limit
        invariant start <= num <= |main| + 1
        invariant num == 0 ==> result == [] && start == 0
        invariant num > 0 ==> first <= num - 1 <= |main| && |result| <= limit && result == main[first..num - 1]
      {
        if num > 0 {
          result := result + [main[num - 1]];
        }
        num := num + 1;
      }
    }
  }
}

/**
  What blocks do to a chain, as functions on values: replaying them on plain stores, the undo
  states that stay stacked, how far the fork database is pruned, and what becomes of a switch
  between two branches.
 */
module ChainSpecs {
  import opened Commons
  import opened UndoLog
  import opened UndoRuns
  import opened ForkDatabases

  /** What applying something does, and the undo depth it asks for on the way. */
  datatype Plan = Plan(work: seq<Work>, maxSize: nat)

  datatype Ledger = Ledger(
    head: Store -> BlockId,
    applyBlock: (Store, Block) -> Plan,
    applyTransaction: (Store, Payload) -> seq<Work>)

  function Result(c: Ledger, s: Store, b: Block): Outcome {
    Exec(s, c.applyBlock(s, b).work)
  }

  /** A block only applies on top of its predecessor, and then becomes the head. */
  ghost predicate WellBehaved(c: Ledger) {
    forall s, b :: Result(c, s, b).ok ==> c.head(s) == b.previous && c.head(Result(c, s, b).store) == b.Id()
  }

  // ----- replaying blocks on plain stores -------------------------------------------------

  /** How many of the blocks apply, one after the other. */
  function Applying(c: Ledger, s: Store, blocks: seq<Block>): (n: nat)
    ensures n <= |blocks|
    decreases blocks
  {
    if blocks == [] || !Result(c, s, blocks[0]).ok then 0
    else 1 + Applying(c, Result(c, s, blocks[0]).store, blocks[1..])
  }

  /** `stores[i + 1]` is what `blocks[i]` makes of `stores[i]`. */
  ghost predicate Chained(c: Ledger, stores: seq<Store>, blocks: seq<Block>) {
    && |stores| == |blocks| + 1
    && forall i :: 0 <= i < |blocks| ==> Result(c, stores[i], blocks[i]) == Outcome(stores[i + 1], true)
  }

  lemma ExtendChained(c: Ledger, stores: seq<Store>, s: Store, blocks: seq<Block>, b: Block)
    requires Chained(c, stores, blocks) && Result(c, stores[|stores| - 1], b) == Outcome(s, true)
    ensures Chained(c, stores + [s], blocks + [b])
  {}

  lemma ShortenChained(c: Ledger, stores: seq<Store>, blocks: seq<Block>, k: nat)
    requires Chained(c, stores, blocks) && k <= |blocks|
    ensures Chained(c, stores[..k + 1], blocks[..k])
  {}

  /** In a chain, the head of each store is the predecessor of the block applied to it. */
  lemma ChainHeads(c: Ledger, stores: seq<Store>, blocks: seq<Block>, i: nat)
    requires WellBehaved(c) && Chained(c, stores, blocks) && i < |blocks|
    ensures c.head(stores[i]) == blocks[i].previous && c.head(stores[i + 1]) == blocks[i].Id()
  {
    assert Result(c, stores[i], blocks[i]) == Outcome(stores[i + 1], true);
  }

  lemma {:induction false} HeadNumbersFall(c: Ledger, stores: seq<Store>, blocks: seq<Block>, k: nat)
    requires WellBehaved(c) && Chained(c, stores, blocks) && k <= |blocks|
    ensures c.head(stores[|blocks|]).Num() == c.head(stores[|blocks| - k]).Num() + k
  {
    if k > 0 {
      HeadNumbersFall(c, stores, blocks, k - 1);
      ChainHeads(c, stores, blocks, |blocks| - k);
    }
  }

  lemma {:induction false} ChainReplays(c: Ledger, stores: seq<Store>, chain: seq<Block>, n: nat)
    requires Chained(c, stores, chain) && n <= |chain|
    ensures Applying(c, stores[n], chain[n..]) == |chain| - n
    decreases |chain| - n
  {
    if n < |chain| {
      assert Result(c, stores[n], chain[n]) == Outcome(stores[n + 1], true);
      ChainReplays(c, stores, chain, n + 1);
    }
  }

  lemma {:induction false} ReplayIsDeterministic(
      c: Ledger, stores: seq<Store>, stores': seq<Store>, chain: seq<Block>, i: nat)
    requires Chained(c, stores, chain) && Chained(c, stores', chain) && stores[0] == stores'[0] && i <= |chain|
    ensures stores[i] == stores'[i]
  {
    if i > 0 {
      ReplayIsDeterministic(c, stores, stores', chain, i - 1);
      assert Result(c, stores[i - 1], chain[i - 1]) == Outcome(stores[i], true);
      assert Result(c, stores'[i - 1], chain[i - 1]) == Outcome(stores'[i], true);
    }
  }

  // ----- the undo states that stay stacked --------------------------------------------------

  /** The plan's nested sessions fit into the size it asks for: no state of an open one is dropped. */
  predicate Fits(plan: Plan) {
    Depth(plan.work) <= plan.maxSize
  }

  /** So do those of all blocks up to the first that throws. */
  ghost predicate FitsAll(c: Ledger, s: Store, blocks: seq<Block>)
    decreases blocks
  {
    blocks != [] ==>
      && Fits(c.applyBlock(s, blocks[0]))
      && (Result(c, s, blocks[0]).ok ==> FitsAll(c, Result(c, s, blocks[0]).store, blocks[1..]))
  }

  /** The head block's store, how many states are stacked below it, and the maximum size. */
  datatype Tip = Tip(store: Store, states: nat, maxSize: nat)

  /** The states stacked by the end of the plan's work, with the one of its own session. */
  function StackedBy(plan: Plan, t: Tip): nat {
    Stacked(t.store, plan.work, Min(t.states, t.maxSize) + 1, plan.maxSize)
  }

  /** A block that applies adds its state; every one, even if it throws, may push old ones out. */
  function After(c: Ledger, t: Tip, b: Block): Tip {
    var plan, r := c.applyBlock(t.store, b), Result(c, t.store, b);
    var k := StackedBy(plan, t);
    if r.ok then Tip(r.store, k, plan.maxSize) else Tip(t.store, if k > 0 then k - 1 else 0, plan.maxSize)
  }

  /** The tip after all the blocks, or after the first that throws. */
  ghost function AfterAll(c: Ledger, t: Tip, blocks: seq<Block>): Tip
    decreases blocks
  {
    if blocks == [] then t
    else if Result(c, t.store, blocks[0]).ok then AfterAll(c, After(c, t, blocks[0]), blocks[1..])
    else After(c, t, blocks[0])
  }

  /** Room for `n` states and one more, and for the sessions that the plan nests. */
  predicate RoomFor(plan: Plan, n: nat) {
    plan.maxSize > n && plan.maxSize >= n + Depth(plan.work)
  }

  /** Each of the blocks leaves room for those before it and for `n` states. */
  ghost predicate Room(c: Ledger, s: Store, blocks: seq<Block>, n: nat)
    decreases blocks
  {
    blocks != [] ==>
      && RoomFor(c.applyBlock(s, blocks[0]), n)
      && (Result(c, s, blocks[0]).ok ==> Room(c, Result(c, s, blocks[0]).store, blocks[1..], n + 1))
  }

  /** With room for the new blocks alone, all of those that applied can be popped again. */
  lemma {:induction false} NewStatesStay(c: Ledger, t: Tip, blocks: seq<Block>, n: nat)
    requires Room(c, t.store, blocks, n) && n <= t.states && n <= t.maxSize
    ensures AfterAll(c, t, blocks).states >= n + Applying(c, t.store, blocks)
    decreases blocks
  {
    if blocks != [] {
      var plan := c.applyBlock(t.store, blocks[0]);
      NewestStayStacked(t.store, plan.work, Min(t.states, t.maxSize) + 1, plan.maxSize, n + 1);
      if Result(c, t.store, blocks[0]).ok {
        NewStatesStay(c, After(c, t, blocks[0]), blocks[1..], n + 1);
      }
    }
  }

  // ----- pruning ----------------------------------------------------------------------------

  /** The highest floor to which applying the blocks prunes, with the fork head at this height. */
  ghost function HighestFloor(c: Ledger, s: Store, blocks: seq<Block>, height: nat): nat
    decreases blocks
  {
    if blocks == [] then 0
    else
      var r, floor := Result(c, s, blocks[0]), ForkDatabase.Floor(height, c.applyBlock(s, blocks[0]).maxSize);
      var rest := if r.ok then HighestFloor(c, r.store, blocks[1..], height) else 0;
      if floor > rest then floor else rest
  }

  lemma {:induction false} LowerHeadPrunesLess(c: Ledger, s: Store, blocks: seq<Block>, low: nat, high: nat)
    requires low <= high
    ensures HighestFloor(c, s, blocks, low) <= HighestFloor(c, s, blocks, high)
    decreases blocks
  {
    if blocks != [] && Result(c, s, blocks[0]).ok {
      LowerHeadPrunesLess(c, Result(c, s, blocks[0]).store, blocks[1..], low, high);
    }
  }

  lemma FloorsCombine(index: map<BlockId, ForkItem>, f: nat, g: nat)
    ensures ForkDatabase.AtOrAbove(ForkDatabase.AtOrAbove(index, f), g) ==
            ForkDatabase.AtOrAbove(index, if f > g then f else g)
  {}

  // ----- switching between branches -----------------------------------------------------------

  /** The blocks of a branch, oldest first. */
  ghost function Blocks(branch: Branch): (r: seq<Block>)
    ensures |r| == |branch|
  {
    seq(|branch|, i requires 0 <= i < |branch| => branch[|branch| - 1 - i].data)
  }

  lemma BlockAt(branch: Branch, i: nat)
    requires i < |branch|
    ensures Blocks(branch)[i] == branch[|branch| - 1 - i].data
  {}

  /** The ids of the new branch from the block that threw upwards. */
  ghost function Rejected(first: Branch, good: nat): set<BlockId> {
    set i | 0 <= i < |first| - good :: first[i].Id()
  }

  /** What a switch looks at: the fork database, the stores of the chain, and its tip. */
  datatype View = View(index: map<BlockId, ForkItem>, head: ForkItem?, stores: seq<Store>, tip: Tip)

  /** The number of stores below the old branch. */
  function ForkPoint(v: View, second: Branch): nat {
    if |second| < |v.stores| then |v.stores| - 1 - |second| else 0
  }

  function ForkStore(v: View, second: Branch): Store {
    if v.stores != [] then v.stores[ForkPoint(v, second)] else v.tip.store
  }

  /** How many of the new blocks apply there. */
  ghost function Good(c: Ledger, v: View, first: Branch, second: Branch): nat {
    Applying(c, ForkStore(v, second), Blocks(first))
  }

  /** The old branch can be popped: its states are stacked, and the fork head has the parents. */
  ghost predicate PopsOff(v: View, second: Branch) {
    |second| <= v.tip.states && v.head != null && ForkDatabase.Rewindable(v.index, v.head, |second|)
  }

  /** The tip without the old branch. */
  function PoppedTip(v: View, second: Branch): Tip {
    Tip(ForkStore(v, second), if |second| <= v.tip.states then v.tip.states - |second| else 0, v.tip.maxSize)
  }

  /** How high applying the new branch prunes, with the fork head rewound past the old branch. */
  ghost function PruningFloor(c: Ledger, v: View, first: Branch, second: Branch): nat {
    var height: nat := if first != [] && first[0].Num() >= |second| then first[0].Num() - |second| else 0;
    HighestFloor(c, ForkStore(v, second), Blocks(first), height)
  }

  /** The fork head can be rewound from the old head past what was applied of the new branch. */
  ghost predicate WayBack(c: Ledger, v: View, first: Branch, second: Branch) {
    var good := Good(c, v, first, second);
    && second != [] && ForkDatabase.Rewindable(v.index, second[0], good)
    && (good == 0 || PruningFloor(c, v, first, second) + good <= second[0].Num())
  }

  /** The way back is there, and so are the undo states of what was applied. */
  ghost predicate ComesBack(c: Ledger, v: View, first: Branch, second: Branch) {
    && WayBack(c, v, first, second)
    && Good(c, v, first, second) <= AfterAll(c, PoppedTip(v, second), Blocks(first)).states
  }

  datatype SwitchOutcome = Switched | RolledBack | Stuck

  /** What becomes of a switch. */
  ghost function OutcomeOf(c: Ledger, v: View, first: Branch, second: Branch): SwitchOutcome {
    if !PopsOff(v, second) then Stuck
    else if Good(c, v, first, second) == |first| then Switched
    else if ComesBack(c, v, first, second) then RolledBack
    else Stuck
  }

  /** The fork database after a switch: pruned, and without what was rejected. */
  ghost function FilesAfter(c: Ledger, v: View, first: Branch, second: Branch): map<BlockId, ForkItem>
    requires second != []
  {
    var applied := ForkDatabase.AtOrAbove(v.index, PruningFloor(c, v, first, second));
    match OutcomeOf(c, v, first, second)
    case Switched => applied
    case RolledBack =>
      ForkDatabase.AtOrAbove(applied - Rejected(first, Good(c, v, first, second)), ReturnFloor(c, v, first, second))
    case Stuck => if PopsOff(v, second) then applied - Rejected(first, Good(c, v, first, second)) else v.index
  }

  /** The tip after a switch that does not get stuck. */
  ghost function TipAfter(c: Ledger, v: View, first: Branch, second: Branch): Tip {
    var applied := AfterAll(c, PoppedTip(v, second), Blocks(first));
    if OutcomeOf(c, v, first, second) == Switched then applied
    else AfterAll(c, ReturnTip(c, v, first, second), Blocks(second))
  }

  /** The tip once what was applied of the new branch is popped again. */
  ghost function ReturnTip(c: Ledger, v: View, first: Branch, second: Branch): Tip {
    var good, applied := Good(c, v, first, second), AfterAll(c, PoppedTip(v, second), Blocks(first));
    Tip(ForkStore(v, second), if good <= applied.states then applied.states - good else 0, applied.maxSize)
  }

  /** How far below the higher block the fork head then stands: nothing moves it up again. */
  ghost function HeightAfter(c: Ledger, v: View, first: Branch, second: Branch): int
    requires first != [] && second != []
  {
    if OutcomeOf(c, v, first, second) == Switched then first[0].Num() - |second|
    else second[0].Num() - Good(c, v, first, second)
  }

  /** How high applying the old branch again prunes, with the fork head at the fork point. */
  ghost function ReturnFloor(c: Ledger, v: View, first: Branch, second: Branch): nat
    requires second != []
  {
    var good := Good(c, v, first, second);
    HighestFloor(c, ForkStore(v, second), Blocks(second), if second[0].Num() >= good then second[0].Num() - good else 0)
  }

  /** Neither applying the new branch nor applying the old one again prunes anything from `k` upwards. */
  ghost predicate SparedBySwitch(c: Ledger, v: View, first: Branch, second: Branch, k: nat) {
    && second != [] && PruningFloor(c, v, first, second) <= k
    && HighestFloor(c, ForkStore(v, second), Blocks(second), second[0].Num()) <= k
  }

  /** A switch leaves every block above `k` its parent, unless that was rejected. */
  lemma SwitchKeepsParents(c: Ledger, v: View, first: Branch, second: Branch, k: nat)
    requires ForkDatabase.WellFiled(v.index) && ForkDatabase.ParentsFiledAbove(v.index, k)
    requires SparedBySwitch(c, v, first, second, k)
    ensures ForkDatabase.ParentsFiledBut(FilesAfter(c, v, first, second), k,
              if OutcomeOf(c, v, first, second) == Switched then {} else Rejected(first, Good(c, v, first, second)))
  {
    hide HighestFloor, OutcomeOf, Rejected, ForkDatabase.AtOrAbove;
    hide ForkDatabase.ParentsFiledBut, ForkDatabase.WellFiled;
    var good, floor := Good(c, v, first, second), PruningFloor(c, v, first, second);
    var gone, applied := Rejected(first, good), ForkDatabase.AtOrAbove(v.index, floor);
    var none: set<BlockId> := {};
    assert applied - none == applied && none + none == none && none + gone == gone && gone + none == gone;
    ForkDatabase.PruneKeepsParents(v.index, floor, k, none, none);
    ForkDatabase.PruneKeepsParents(v.index, floor, k, none, gone);
    var low: nat := if second[0].Num() >= good then second[0].Num() - good else 0;
    LowerHeadPrunesLess(c, ForkStore(v, second), Blocks(second), low, second[0].Num());
    ForkDatabase.PruneKeepsParents(applied - gone, ReturnFloor(c, v, first, second), k, gone, none);
    var back := ForkDatabase.AtOrAbove(applied - gone, ReturnFloor(c, v, first, second));
    assert back - none == back;
    ForkDatabase.FewerAreMissed(v.index, k, gone);
  }
}

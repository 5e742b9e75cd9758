/**
  The chain database on top of the undo database and the fork database: pending and
  validated transactions, pushing and popping blocks, and switching to a longer fork.
  Applying a block or a transaction is a deterministic function of the store that yields
  work for the undo database; that work may throw half way through.
 */
module Databases {
  import opened Commons
  import opened UndoLog
  import opened UndoHistory
  import opened UndoRuns
  import opened UndoDatabases
  import opened ForkDatabases
  import opened ChainSpecs

  /** Where a block pushed into the fork database leaves the chain. */
  datatype Placement = Thrown | OnHead | SideBranch | SwitchTo(first: Branch, second: Branch)

  datatype PushOutcome = Refused | Waiting | Extended | Failed | Forked(outcome: SwitchOutcome)

  class Database {
    const ledger: Ledger
    const undo: UndoDatabase
    const forks: ForkDatabase
    var pendingSession: bool
    var pendingTx: seq<Payload>
    var poppedTx: seq<Payload>
    /** The applied blocks, and the stores before each of them and after the last. */
    ghost var Chain: seq<Block>
    ghost var Stores: seq<Store>

    constructor (ledger: Ledger, nextIds: map<nat, nat>)
      requires WellBehaved(ledger)
      ensures Valid() && fresh(undo) && fresh(forks) && Chain == [] && !pendingSession
      ensures this.ledger == ledger && Stores == [undo.store] == [Store(map[], nextIds)]
      ensures undo.Snapshots == [] && undo.maxSize == 256
      ensures forks.index == map[] && forks.head == null && forks.maxSize == 1024
    {
      this.ledger := ledger;
      undo := new UndoDatabase(nextIds);
      forks := new ForkDatabase();
      pendingSession, pendingTx, poppedTx := false, [], [];
      Chain, Stores := [], [Store(map[], nextIds)];
    }

    /** The store of the head block, without pending transactions. */
    ghost function HeadStore(): Store
      requires pendingSession ==> undo.Snapshots != []
      reads this, undo
    {
      if pendingSession then undo.Snapshots[|undo.Snapshots| - 1] else undo.store
    }

    /** The committed snapshots: the stores before the newest blocks, which can still be popped. */
    ghost function BlockStores(): seq<Store>
      requires pendingSession ==> undo.Snapshots != []
      reads this, undo
    {
      if pendingSession then undo.Snapshots[..|undo.Snapshots| - 1] else undo.Snapshots
    }

    ghost predicate Valid()
      reads this, undo, forks
    {
      && undo.Intact() && forks.Valid() && WellBehaved(ledger)
      && !undo.disabled && undo.activeSessions == (if pendingSession then 1 else 0)
      && Chained(ledger, Stores, Chain) && IsSuffix(BlockStores() + [HeadStore()], Stores)
    }

    lemma Parts()
      requires Valid()
      ensures undo.Intact() && forks.Valid() && WellBehaved(ledger)
      ensures !undo.disabled
      ensures undo.activeSessions == (if pendingSession then 1 else 0) <= |undo.Snapshots| == |undo.stack|
      ensures Chained(ledger, Stores, Chain) && IsSuffix(BlockStores() + [HeadStore()], Stores)
    {
      hide LeadsBack;
    }

    lemma Whole()
      requires undo.Intact() && forks.Valid() && WellBehaved(ledger)
      requires !undo.disabled && undo.activeSessions == (if pendingSession then 1 else 0) <= |undo.Snapshots|
      requires Chained(ledger, Stores, Chain) && IsSuffix(BlockStores() + [HeadStore()], Stores)
      ensures Valid()
    {}

    lemma StateIsSound()
      requires Valid() && !pendingSession
      ensures WellBehaved(ledger) && Chained(ledger, Stores, Chain) && |Stores| == |Chain| + 1
      ensures Stores[|Chain|] == undo.store && |undo.Snapshots| <= |Chain| && ForkDatabase.WellFiled(forks.index)
    {}

    // ----- work under a session ---------------------------------------------------------

    method RunWork(works: seq<Work>) returns (ok: bool)
      requires undo.Intact() && Roomy(undo.Log(), works)
      modifies undo
      ensures (undo.Log(), ok) == UndoRuns.RunWork(old(undo.Log()), works)
      ensures Simulates(old(undo.Log()), old(undo.Snapshots), works, (undo.Log(), ok), undo.Snapshots)
    {
      ghost var snaps := RunWorkRefinesExec(undo.Log(), undo.Snapshots, works);
      ok := RunSteps(works);
      undo.Snapshots := snaps;
    }

    method RunSteps(works: seq<Work>) returns (ok: bool)
      requires undo.Intact() && Roomy(undo.Log(), works)
      modifies undo
      ensures undo.Intact()
      ensures (undo.Log(), ok) == UndoRuns.RunWork(old(undo.Log()), works)
      decreases works
    {
      if works == [] {
        return true;
      }
      match works[0] {
        case Throw => return false;
        case Edit(change) =>
          var applied := Change(change);
          if !applied {
            return false;
          }
        case Attempt(body) =>
          undo.StartUndoSession(true);
          var completed := RunSteps(body);
          var closed := CloseSession(completed);
      }
      ok := RunSteps(works[1..]);
    }

    method Change(change: UndoLog.Change) returns (ok: bool)
      requires undo.Intact() && !undo.disabled
      modifies undo
      ensures undo.Intact() && ok == Applicable(old(undo.store), change)
      ensures undo.Log() == if ok then Record(old(undo.Log()), change) else old(undo.Log())
    {
      match change
      case Create(index, value) => ok := undo.Create(index, value);
      case Modify(id, value) => ok := undo.Modify(id, value);
      case Remove(id) => ok := undo.Remove(id);
    }

    /** The session is merged, or its destructor undoes it. */
    method CloseSession(completed: bool) returns (ok: bool)
      requires undo.Intact() && !undo.disabled && undo.activeSessions > 0
      modifies undo
      ensures ok && undo.Intact()
      ensures undo.Log() == Closed(old(undo.Log()), completed)
      ensures undo.Snapshots == old(undo.Snapshots)[..|old(undo.Snapshots)| - 1]
      ensures undo.store == if completed then old(undo.store) else old(undo.Snapshots)[|old(undo.Snapshots)| - 1]
    {
      if completed {
        ok := undo.Merge();
      } else {
        ok := undo.Undo();
      }
    }

    /** Work under a temporary session that is merged if `keep` holds and nothing throws. */
    method AttemptWork(works: seq<Work>, keep: bool) returns (ok: bool)
      requires undo.Intact() && !undo.disabled && undo.activeSessions + Depth(works) <= undo.maxSize
      modifies undo
      ensures undo.Intact() && SameSessions(undo.Log(), old(undo.Log()))
      ensures ok == Exec(old(undo.store), works).ok
      ensures undo.store == if ok && keep then Exec(old(undo.store), works).store else old(undo.store)
      ensures IsSuffix(undo.Snapshots, old(undo.Snapshots))
      ensures Open(undo.Log(), undo.Snapshots) == Open(old(undo.Log()), old(undo.Snapshots))
    {
      hide LeadsBack;
      ghost var before, snaps := undo.Log(), undo.Snapshots;
      StartKeepsHistory(before, snaps, false);
      undo.StartUndoSession(false);
      ok := RunWork(works);
      ghost var inner := undo.Snapshots;
      UndoRuns.CloseSession(before, snaps, undo.Log(), inner, ok && keep);
      var closed := CloseSession(ok && keep);
    }

    static predicate SameSessions(l: Log, m: Log) {
      l.active == m.active && l.disabled == m.disabled && l.maxSize == m.maxSize
    }

    // ----- transactions -----------------------------------------------------------------

    method OpenPendingSession()
      requires Valid()
      modifies `pendingSession, undo
      ensures Valid() && pendingSession && HeadStore() == old(HeadStore())
      ensures undo.store == old(undo.store) && undo.maxSize == old(undo.maxSize)
    {
      hide Chained, WellBehaved, Valid, LeadsBack;
      Parts();
      if !pendingSession {
        ghost var stores := undo.Snapshots + [undo.store];
        undo.StartUndoSession(false);
        pendingSession := true;
        assert BlockStores() + [HeadStore()] == undo.Snapshots;
        SuffixTrans(undo.Snapshots, stores, Stores);
        Whole();
      }
    }

    /**
      Applies the transaction under a temporary session inside the pending one. A throw
      leaves the store as it was; either way the chain and the head block's store are kept.
     */
    method PushTransaction(tx: Payload) returns (ok: bool)
      requires Valid() && undo.maxSize >= 1 + Depth(ledger.applyTransaction(undo.store, tx))
      modifies `pendingSession, `pendingTx, undo
      ensures Valid() && pendingSession && HeadStore() == old(HeadStore())
      ensures ok == Exec(old(undo.store), ledger.applyTransaction(old(undo.store), tx)).ok
      ensures undo.store == if ok then Exec(old(undo.store), ledger.applyTransaction(old(undo.store), tx)).store
                            else old(undo.store)
      ensures pendingTx == if ok then old(pendingTx) + [tx] else old(pendingTx)
    {
      OpenPendingSession();
      ok := AttemptInPending(ledger.applyTransaction(undo.store, tx));
      if ok {
        pendingTx := pendingTx + [tx];
      }
    }

    method AttemptInPending(works: seq<Work>) returns (ok: bool)
      requires Valid() && pendingSession && undo.maxSize >= 1 + Depth(works)
      modifies undo
      ensures Valid() && HeadStore() == old(HeadStore()) && undo.maxSize == old(undo.maxSize)
      ensures ok == Exec(old(undo.store), works).ok
      ensures undo.store == if ok then Exec(old(undo.store), works).store else old(undo.store)
    {
      hide Chained, WellBehaved;
      ghost var stores := undo.Snapshots;
      assert BlockStores() + [HeadStore()] == stores;
      ok := AttemptWork(works, true);
      assert Open(undo.Log(), undo.Snapshots) == [undo.Snapshots[|undo.Snapshots| - 1]];
      assert BlockStores() + [HeadStore()] == undo.Snapshots;
      SuffixTrans(undo.Snapshots, stores, Stores);
    }

    /** The session is never closed by hand: its destructor undoes whatever happened. */
    method ValidateTransaction(tx: Payload) returns (ok: bool)
      requires Valid()
      requires undo.maxSize >= undo.activeSessions + Depth(ledger.applyTransaction(undo.store, tx))
      modifies undo
      ensures Valid() && undo.store == old(undo.store) && HeadStore() == old(HeadStore())
      ensures ok == Exec(old(undo.store), ledger.applyTransaction(old(undo.store), tx)).ok
    {
      hide Chained, WellBehaved, Valid, History, IsSuffix, Open, Exec;
      Parts();
      OpenFits(undo.Log(), undo.Snapshots);
      ghost var before, snaps, stores := undo.Log(), undo.Snapshots, BlockStores() + [HeadStore()];
      ok := AttemptWork(ledger.applyTransaction(undo.store, tx), false);
      OpenFits(undo.Log(), undo.Snapshots);
      SameHead(before, snaps, undo.Log(), undo.Snapshots);
      if !pendingSession {
        SuffixAppend(undo.Snapshots, snaps, undo.store);
      }
      SuffixTrans(BlockStores() + [HeadStore()], stores, Stores);
      Whole();
    }

    /** The one session that stays open has its snapshot on top, before and after. */
    static lemma SameHead(l: Log, snaps: seq<Store>, l': Log, snaps': seq<Store>)
      requires l.active <= |snaps| && l'.active == l.active <= |snaps'| && Open(l', snaps') == Open(l, snaps)
      ensures l.active == 1 ==> snaps'[|snaps'| - 1] == snaps[|snaps| - 1]
      ensures l.active == 1 ==> snaps'[..|snaps'| - 1] + [snaps'[|snaps'| - 1]] == snaps'
      ensures l.active == 1 ==> snaps[..|snaps| - 1] + [snaps[|snaps| - 1]] == snaps
    {
      if l.active == 1 {
        assert Open(l', snaps')[0] == Open(l, snaps)[0];
      }
    }

    static lemma OpenFits(l: Log, snaps: seq<Store>)
      requires History(l, snaps)
      ensures l.active <= |snaps| == |l.stack|
    {}

    static lemma SuffixAppend<T(!new)>(s: seq<T>, t: seq<T>, x: T)
      requires IsSuffix(s, t)
      ensures IsSuffix(s + [x], t + [x])
    {}

    /** Drops the pending transactions: back to the store of the head block. */
    method ClearPending()
      requires Valid()
      modifies `pendingSession, `pendingTx, undo
      ensures Valid() && !pendingSession && pendingTx == []
      ensures undo.store == HeadStore() == old(HeadStore()) && BlockStores() == old(BlockStores())
      ensures undo.maxSize == old(undo.maxSize)
    {
      pendingTx := [];
      ResetPendingSession();
    }

    method ResetPendingSession()
      requires Valid()
      modifies `pendingSession, undo
      ensures Valid() && !pendingSession
      ensures undo.store == HeadStore() == old(HeadStore()) && BlockStores() == old(BlockStores())
      ensures undo.maxSize == old(undo.maxSize)
    {
      if pendingSession {
        var undone := undo.Undo();
        pendingSession := false;
      }
    }

    // ----- blocks -----------------------------------------------------------------------

    /** The tip of the chain, without pending transactions. */
    ghost function Top(): Tip
      reads undo
    {
      Tip(undo.store, |undo.Snapshots|, undo.maxSize)
    }

    /** Work under a session of its own: committed on success, undone by a throw. */
    method CommitWork(plan: Plan) returns (ok: bool)
      requires undo.Intact() && !undo.disabled && undo.activeSessions == 0 && Fits(plan)
      modifies undo
      ensures undo.Intact() && !undo.disabled && undo.activeSessions == 0 && undo.maxSize == plan.maxSize
      ensures ok == Exec(old(undo.store), plan.work).ok
      ensures undo.store == if ok then Exec(old(undo.store), plan.work).store else old(undo.store)
      ensures var k := StackedBy(plan, old(Top()));
        && 0 < k <= |old(undo.Snapshots)| + 1
        && undo.Snapshots ==
           if ok then Last(old(undo.Snapshots) + [old(undo.store)], k) else Last(old(undo.Snapshots), k - 1)
    {
      hide LeadsBack, History, Stacked, Exec, Last, IsSuffix;
      ghost var store, snaps, kept := undo.store, undo.Snapshots, Last(undo.Snapshots, undo.maxSize);
      StartBlock(plan);
      ghost var before := undo.Log();
      ok := RunWork(plan.work);
      OneIsOpen(before, kept + [store], plan.work, undo.Log(), ok, undo.Snapshots, store);
      NewestAreKept(snaps, undo.Snapshots, old(undo.maxSize), store);
      if ok {
        var committed := undo.Commit();
      } else {
        var undone := undo.Undo();
      }
    }

    /** Opens the block's session, and notes the undo depth that the block asks for. */
    method StartBlock(plan: Plan)
      requires undo.Intact() && !undo.disabled && undo.activeSessions == 0 && Fits(plan)
      modifies undo
      ensures undo.Intact() && !undo.disabled && undo.activeSessions == 1 && undo.maxSize == plan.maxSize
      ensures undo.store == old(undo.store) && Roomy(undo.Log(), plan.work)
      ensures undo.Snapshots == Last(old(undo.Snapshots), old(undo.maxSize)) + [old(undo.store)]
    {
      hide LeadsBack;
      StartKeepsHistory(undo.Log(), undo.Snapshots, false);
      undo.StartUndoSession(false);
      ResizeKeepsHistory(undo.Log(), undo.Snapshots, plan.maxSize);
      undo.SetMaxSize(plan.maxSize);
    }

    static lemma OneIsOpen(
        l: Log, snaps: seq<Store>, works: seq<Work>, l': Log, ok: bool, snaps': seq<Store>, store: Store)
      requires l.active == 1 <= |snaps| && snaps[|snaps| - 1] == store && Simulates(l, snaps, works, (l', ok), snaps')
      ensures |snaps'| == Stacked(l.store, works, |snaps|, l.maxSize) > 0 && snaps'[|snaps'| - 1] == store
      ensures IsSuffix(snaps', snaps) && Outcome(l'.store, ok) == Exec(l.store, works)
    {
      hide LeadsBack, Stacked, Exec;
      assert Open(l', snaps') == [store];
    }

    /** What is kept are the newest states, whatever was dropped at the other end. */
    static lemma NewestAreKept(snaps: seq<Store>, snaps': seq<Store>, maxSize: nat, store: Store)
      requires snaps' != [] && IsSuffix(snaps', Last(snaps, maxSize) + [store])
      ensures |Last(snaps, maxSize)| == Min(|snaps|, maxSize) && |snaps'| <= |snaps| + 1
      ensures snaps' == Last(snaps + [store], |snaps'|)
      ensures snaps'[..|snaps'| - 1] == Last(snaps, |snaps'| - 1)
    {}

    /** The number of the fork database's head; the pruning counts down from it. */
    ghost function ForkHeight(): nat
      reads forks
    {
      if forks.head == null then 0 else forks.head.Num()
    }

    /** Applies a block, which also resizes the undo and the fork database. */
    method ApplyOnHead(b: Block) returns (ok: bool)
      requires Valid() && !pendingSession && Fits(ledger.applyBlock(undo.store, b))
      modifies `Chain, `Stores, undo, forks`index, forks`maxSize
      ensures Valid() && ok == Result(ledger, old(undo.store), b).ok
      ensures Top() == After(ledger, old(Top()), b)
      ensures Chain == (if ok then old(Chain) + [b] else old(Chain))
      ensures Stores == (if ok then old(Stores) + [undo.store] else old(Stores))
      ensures forks.maxSize == undo.maxSize
      ensures forks.index == ForkDatabase.AtOrAbove(old(forks.index), ForkDatabase.Floor(ForkHeight(), forks.maxSize))
    {
      hide History, Chained, WellBehaved, StackedBy, Last, IsSuffix;
      StateIsSound();
      ghost var s, snaps := undo.store, undo.Snapshots;
      var plan := ledger.applyBlock(undo.store, b);
      assert ForkDatabase.AtOrAbove(forks.index, 0) == forks.index;
      forks.SetMaxSize(plan.maxSize);
      ok := CommitWork(plan);
      KeptBelow(snaps, s, Stores, StackedBy(plan, old(Top())), undo.store);
      if ok {
        ExtendChained(ledger, Stores, undo.store, Chain, b);
        Chain, Stores := Chain + [b], Stores + [undo.store];
      }
    }

    /** The states that are kept belong to the newest stores. */
    static lemma KeptBelow(snaps: seq<Store>, s: Store, stores: seq<Store>, k: nat, s': Store)
      requires IsSuffix(snaps + [s], stores) && 0 < k <= |snaps| + 1
      ensures IsSuffix(Last(snaps + [s], k) + [s'], stores + [s'])
      ensures IsSuffix(Last(snaps, k - 1) + [s], stores)
      ensures |Last(snaps + [s], k)| == k && |Last(snaps, k - 1)| == k - 1
    {
      var kept := Last(snaps + [s], k);
      assert IsSuffix(kept, snaps + [s]);
      SuffixTrans(kept, snaps + [s], stores);
      SuffixAppend(kept, stores, s');
      SuffixAppend(Last(snaps, k - 1), snaps, s);
      SuffixTrans(Last(snaps, k - 1) + [s], snaps + [s], stores);
    }

    /** True when the head block is known, the fork head has a parent and its state is stacked. */
    ghost predicate CanPop()
      requires Valid()
      reads this, undo, forks
    {
      && ledger.head(HeadStore()) != Zero
      && forks.head != null && forks.Parent(forks.head) != null
      && BlockStores() != []
    }

    method PopBlock() returns (ok: bool)
      requires Valid()
      modifies `pendingSession, `Chain, `Stores, `poppedTx, undo, forks`head
      ensures Valid() && !pendingSession && undo.maxSize == old(undo.maxSize)
      ensures ok == old(CanPop())
      ensures ok ==> undo.store == old(BlockStores())[|old(BlockStores())| - 1]
      ensures ok ==> undo.Snapshots == old(BlockStores())[..|old(BlockStores())| - 1]
      ensures ok ==>
        old(Chain) != [] && Chain == old(Chain)[..|old(Chain)| - 1] && Stores == old(Stores)[..|old(Chain)|]
      ensures ok ==> forks.head == old(forks.head).prev
      ensures ok ==> poppedTx == [old(ledger.head(HeadStore())).payload] + old(poppedTx)
      ensures !ok ==> undo.store == old(HeadStore()) && undo.Snapshots == old(BlockStores())
      ensures !ok ==> Chain == old(Chain) && Stores == old(Stores)
    {
      hide WellBehaved, Chained, Valid, History, IsSuffix;
      Parts();
      ResetPendingSession();
      Parts();
      var head := ledger.head(undo.store);
      if head == Zero {
        return false;
      }
      ok := forks.PopBlock();
      if !ok {
        return;
      }
      ghost var snaps, s := undo.Snapshots, undo.store;
      ok := undo.PopCommit();
      if !ok {
        Whole();
        return;
      }
      OneShorter(ledger, snaps, s, Stores, Chain);
      Chain, Stores := Chain[..|Chain| - 1], Stores[..|Chain|];
      poppedTx := [head.payload] + poppedTx;
      Whole();
    }

    /** Without its newest block the chain ends at the newest snapshot. */
    static lemma OneShorter(c: Ledger, snaps: seq<Store>, s: Store, stores: seq<Store>, chain: seq<Block>)
      requires Chained(c, stores, chain) && IsSuffix(snaps + [s], stores) && snaps != []
      ensures chain != [] && |stores| == |chain| + 1 && Chained(c, stores[..|chain|], chain[..|chain| - 1])
      ensures IsSuffix(snaps[..|snaps| - 1] + [snaps[|snaps| - 1]], stores[..|chain|])
    {
      ShortenChained(c, stores, chain, |chain| - 1);
      assert snaps[..|snaps| - 1] + [snaps[|snaps| - 1]] == snaps;
      SuffixInit(snaps + [s], stores[..|chain|], stores[|chain|]) by {
        assert stores[..|chain|] + [stores[|chain|]] == stores;
      }
    }

    // ----- switching forks --------------------------------------------------------------

    /** Only a missing undo state or a fork head without a parent makes a pop throw. */
    method PopHead() returns (ok: bool)
      requires Valid() && !pendingSession && forks.head != null
      modifies `pendingSession, `Chain, `Stores, `poppedTx, undo, forks`head
      ensures Valid() && !pendingSession && undo.maxSize == old(undo.maxSize)
      ensures ok == (old(undo.Snapshots) != [] && ForkDatabase.Rewindable(forks.index, old(forks.head), 1))
      ensures ok ==> |undo.Snapshots| == |old(undo.Snapshots)| - 1
      ensures ok ==>
        old(Chain) != [] && Chain == old(Chain)[..|old(Chain)| - 1] && Stores == old(Stores)[..|old(Chain)|]
      ensures ok ==>
        forks.head != null && forks.head == old(forks.head).prev && forks.head.Num() + 1 == old(forks.head).Num()
      ensures ok ==> ledger.head(undo.store).Num() == old(ledger.head(undo.store)).Num() - 1
      ensures !ok ==> Chain == old(Chain) && Stores == old(Stores)
    {
      hide Valid, CanPop, ForkDatabase.Rewindable;
      PopsWhen();
      ok := PopBlock();
      if ok {
        StateIsSound();
      }
    }

    /** When the newest block can be popped, and what the heads are then. */
    lemma PopsWhen()
      requires Valid() && !pendingSession && forks.head != null
      ensures CanPop() == (undo.Snapshots != [] && ForkDatabase.Rewindable(forks.index, forks.head, 1))
      ensures BlockStores() == undo.Snapshots && HeadStore() == undo.store && |Stores| == |Chain| + 1
      ensures CanPop() ==> Chain != [] && forks.head.prev != null && forks.head.prev.Num() + 1 == forks.head.Num()
      ensures CanPop() ==> ledger.head(Stores[|Chain| - 1]).Num() == ledger.head(undo.store).Num() - 1
    {
      hide Chained, WellBehaved, History;
      StateIsSound();
      if Chain != [] {
        ChainHeads(ledger, Stores, Chain, |Chain| - 1);
      }
      assert forks.head.prev != null ==> forks.head.prev.Num() == forks.head.Num() - 1;
    }

    /** `target` is the predecessor of the newest `k` blocks, if there are so many. */
    ghost predicate Below(target: BlockId, k: nat)
      requires |Stores| == |Chain| + 1
      reads this, undo
    {
      && ledger.head(undo.store).Num() == target.Num() + k
      && (k <= |Chain| ==> ledger.head(Stores[|Chain| - k]) == target)
    }

    /** Pops blocks until `target` is the head; false when a pop throws. */
    method PopTo(target: BlockId, ghost k: nat) returns (ok: bool)
      requires Valid() && !pendingSession && forks.head != null
      requires |Stores| == |Chain| + 1 && Below(target, k)
      modifies `pendingSession, `Chain, `Stores, `poppedTx, undo, forks`head
      ensures Valid() && !pendingSession && undo.maxSize == old(undo.maxSize)
      ensures ok == (k <= |old(undo.Snapshots)| && ForkDatabase.Rewindable(forks.index, old(forks.head), k))
      ensures ok ==> k <= old(|Chain|) && |undo.Snapshots| == |old(undo.Snapshots)| - k
      ensures ok ==> Chain == old(Chain)[..old(|Chain|) - k] && Stores == old(Stores)[..old(|Chain|) - k + 1]
      ensures ok ==> forks.head != null && forks.head.Num() + k == old(forks.head).Num()
    {
      hide Valid, Chained, WellBehaved, ForkDatabase.Rewindable;
      ghost var left: nat := k;
      StateIsSound();
      while ledger.head(undo.store) != target
        invariant Valid() && !pendingSession && left <= k && |Chain| == old(|Chain|) - k + left
        invariant |undo.Snapshots| == |old(undo.Snapshots)| - k + left
        invariant forks.head != null && forks.head.Num() + k == old(forks.head).Num() + left
        invariant undo.maxSize == old(undo.maxSize)
        invariant Stores == old(Stores)[..|Chain| + 1] && Chain == old(Chain)[..|Chain|]
        invariant ledger.head(undo.store).Num() == target.Num() + left
        invariant ForkDatabase.Rewindable(forks.index, old(forks.head), k) ==
                  ForkDatabase.Rewindable(forks.index, forks.head, left)
        decreases left
      {
        StateIsSound();
        RewindOne(forks.index, forks.head, left);
        ghost var stores, chain := Stores, Chain;
        ok := PopHead();
        if !ok {
          return;
        }
        TakeLess(old(Stores), |stores|, |chain|);
        TakeLess(old(Chain), |chain|, |chain| - 1);
        left := left - 1;
      }
      StateIsSound();
      NoRewind(forks.index, forks.head);
      return true;
    }

    static lemma RewindOne(index: map<BlockId, ForkItem>, item: ForkItem, k: nat)
      ensures k > 0 ==> (ForkDatabase.Rewindable(index, item, k) <==>
                ForkDatabase.Rewindable(index, item, 1) && item.prev != null
                && ForkDatabase.Rewindable(index, item.prev, k - 1))
    {}

    static lemma TakeLess<T>(s: seq<T>, m: nat, n: nat)
      requires n <= m <= |s|
      ensures s[..m][..n] == s[..n]
    {}

    static lemma NoRewind(index: map<BlockId, ForkItem>, item: ForkItem)
      ensures ForkDatabase.Rewindable(index, item, 0)
    {}

    /** The branch below the head block holds the newest blocks of the chain. */
    static lemma {:induction false} BranchIsChain(
        forks: ForkDatabase, c: Ledger, stores: seq<Store>, chain: seq<Block>, branch: Branch, i: nat)
      requires WellBehaved(c) && Chained(c, stores, chain) && forks.Linked(branch)
      requires i < |branch| <= |chain| && branch[0].Id() == c.head(stores[|chain|])
      ensures branch[i].data == chain[|chain| - 1 - i]
    {
      var n := |chain| - 1 - i;
      ChainHeads(c, stores, chain, n);
      if i > 0 {
        BranchIsChain(forks, c, stores, chain, branch, i - 1);
        assert branch[i - 1 + 1] == forks.Parent(branch[i - 1]);
        ChainHeads(c, stores, chain, n + 1);
      }
    }

    /** Rewinding along a branch stays within the index. */
    static lemma {:induction false} BranchRewinds(forks: ForkDatabase, branch: Branch, i: nat)
      requires forks.Valid() && forks.Linked(branch) && i < |branch|
      requires forks.head != null && branch[0].Num() <= forks.head.Num()
      ensures ForkDatabase.Rewindable(forks.index, branch[i], |branch| - 1 - i)
      decreases |branch| - i
    {
      if i + 1 < |branch| {
        BranchRewinds(forks, branch, i + 1);
        assert branch[i + 1] == forks.Parent(branch[i]);
        forks.NumbersFall(branch, i + 1);
      }
    }

    static lemma {:induction false} RewindsLess(index: map<BlockId, ForkItem>, item: ForkItem, k: nat, j: nat)
      requires ForkDatabase.Rewindable(index, item, k) && j <= k
      ensures ForkDatabase.Rewindable(index, item, j)
      decreases j
    {
      if j > 0 {
        RewindsLess(index, item.prev, k - 1, j - 1);
      }
    }

    /** Applies the branch, oldest block first; yields how many blocks applied before a throw. */
    method ApplyBranch(branch: Branch) returns (good: nat)
      requires Valid() && !pendingSession && FitsAll(ledger, undo.store, Blocks(branch))
      modifies `Chain, `Stores, undo, forks`index, forks`maxSize
      ensures Valid() && good == Applying(ledger, old(undo.store), Blocks(branch))
      ensures Chain == old(Chain) + Blocks(branch)[..good] && old(Stores) <= Stores
      ensures Top() == AfterAll(ledger, old(Top()), Blocks(branch))
      ensures branch != [] ==> forks.maxSize == undo.maxSize
      ensures forks.index == ForkDatabase.AtOrAbove(
        old(forks.index), HighestFloor(ledger, old(undo.store), Blocks(branch), ForkHeight()))
    {
      hide Valid, HighestFloor, FitsAll, ForkDatabase.AtOrAbove, Blocks, After;
      ghost var blocks := Blocks(branch);
      ghost var floor := HighestFloor(ledger, undo.store, blocks, ForkHeight());
      assert blocks[0..] == blocks && blocks[..0] == [];
      good := 0;
      while good < |branch|
        invariant Valid() && good <= |branch| && FitsAll(ledger, undo.store, blocks[good..])
        invariant Applying(ledger, old(undo.store), blocks) == good + Applying(ledger, undo.store, blocks[good..])
        invariant Chain == old(Chain) + blocks[..good] && old(Stores) <= Stores
        invariant good > 0 ==> forks.maxSize == undo.maxSize
        invariant AfterAll(ledger, old(Top()), blocks) == AfterAll(ledger, Top(), blocks[good..])
        invariant ForkDatabase.AtOrAbove(old(forks.index), floor) ==
                  ForkDatabase.AtOrAbove(forks.index, HighestFloor(ledger, undo.store, blocks[good..], ForkHeight()))
      {
        BlockAt(branch, good);
        var ok := ApplyNext(branch[|branch| - 1 - good].data, blocks[good..]);
        if !ok {
          return;
        }
        good := good + 1;
      }
      NoFloor(ledger, undo.store, blocks[good..], ForkHeight(), forks.index);
    }

    static lemma NoFloor(c: Ledger, s: Store, blocks: seq<Block>, height: nat, index: map<BlockId, ForkItem>)
      requires blocks == []
      ensures ForkDatabase.AtOrAbove(index, HighestFloor(c, s, blocks, height)) == index
    {}

    method ApplyNext(b: Block, ghost rest: seq<Block>) returns (ok: bool)
      requires Valid() && !pendingSession && rest != [] && b == rest[0] && FitsAll(ledger, undo.store, rest)
      modifies `Chain, `Stores, undo, forks`index, forks`maxSize
      ensures Valid() && Chain == (if ok then old(Chain) + [b] else old(Chain)) && old(Stores) <= Stores
      ensures forks.maxSize == undo.maxSize && (ok ==> FitsAll(ledger, undo.store, rest[1..]))
      ensures Applying(ledger, old(undo.store), rest) ==
              if ok then 1 + Applying(ledger, undo.store, rest[1..]) else 0
      ensures AfterAll(ledger, old(Top()), rest) == if ok then AfterAll(ledger, Top(), rest[1..]) else Top()
      ensures ForkDatabase.AtOrAbove(old(forks.index), HighestFloor(ledger, old(undo.store), rest, ForkHeight())) ==
              if ok then ForkDatabase.AtOrAbove(forks.index, HighestFloor(ledger, undo.store, rest[1..], ForkHeight()))
              else forks.index
    {
      hide Valid, Stacked;
      ghost var s, index := undo.store, forks.index;
      ok := ApplyOnHead(b);
      ghost var floor := ForkDatabase.Floor(ForkHeight(), forks.maxSize);
      FloorsCombine(index, floor, if ok then HighestFloor(ledger, undo.store, rest[1..], ForkHeight()) else 0);
      assert ForkDatabase.AtOrAbove(forks.index, 0) == forks.index;
    }

    ghost function Sight(): View
      reads this, undo, forks
    {
      View(forks.index, forks.head, Stores, Top())
    }

    /** The branches start at the fork head's block and at the head block, and nested sessions fit. */
    ghost predicate ReadyToSwitch(first: Branch, second: Branch)
      reads this, undo, forks
    {
      && Valid() && !pendingSession && forks.head != null
      && first != [] && second != [] && forks.head.Id() == first[0].Id() && first[0].Num() > second[0].Num()
      && forks.Shortest(first[0].Id(), ledger.head(undo.store), first, second)
      && (|second| <= |undo.Snapshots| ==>
            && FitsAll(ledger, ForkStore(Sight(), second), Blocks(first))
            && FitsAll(ledger, ForkStore(Sight(), second), Blocks(second)))
    }

    /** The old branch is the newest part of the chain, and replays. */
    static lemma OldBranchReplays(forks: ForkDatabase, c: Ledger, stores: seq<Store>, chain: seq<Block>, second: Branch)
      requires WellBehaved(c) && Chained(c, stores, chain) && forks.Linked(second)
      requires 0 < |second| <= |chain| && second[0].Id() == c.head(stores[|chain|])
      ensures Blocks(second) == chain[|chain| - |second|..]
      ensures c.head(stores[|chain| - |second|]) == second[|second| - 1].data.previous
      ensures Applying(c, stores[|chain| - |second|], Blocks(second)) == |second|
    {
      var n := |chain| - |second|;
      forall i | 0 <= i < |second|
        ensures Blocks(second)[i] == chain[n..][i]
      {
        BranchIsChain(forks, c, stores, chain, second, |second| - 1 - i);
      }
      assert Blocks(second)[0] == chain[n..][0];
      ChainHeads(c, stores, chain, n);
      ChainReplays(c, stores, chain, n);
    }

    /** The new branch is longer, so the fork head can be rewound past the whole old branch. */
    static lemma NewBranchRewinds(forks: ForkDatabase, head: BlockId, first: Branch, second: Branch)
      requires forks.Valid() && forks.head != null && first != [] && second != [] && forks.head == first[0]
      requires first[0].Num() > second[0].Num() && forks.Meets(first[0].Id(), head, first, second)
      ensures ForkDatabase.Rewindable(forks.index, first[0], |second|)
    {
      forks.SameLevel(first[0].Id(), head, first, second);
      BranchRewinds(forks, first, 0);
      RewindsLess(forks.index, first[0], |first| - 1, |second|);
    }

    /** `second` is the newest part of the chain `chain` and can be applied again. */
    ghost predicate Restorable(second: Branch, stores: seq<Store>, chain: seq<Block>) {
      && 0 < |second| <= |chain| && ForkDatabase.LinksToParent(second[0])
      && Chained(ledger, stores, chain)
      && var n := |chain| - |second|;
      && Blocks(second) == chain[n..]
      && ledger.head(stores[n]) == second[|second| - 1].data.previous
      && FitsAll(ledger, stores[n], Blocks(second))
    }

    lemma SwitchIsSound(first: Branch, second: Branch)
      requires ReadyToSwitch(first, second)
      ensures Valid() && !pendingSession && forks.head != null && first != [] && second != []
      ensures |Stores| == |Chain| + 1 && first[0].Num() > second[0].Num()
      ensures first[0].Num() >= |second| && forks.head.Num() == first[0].Num()
      ensures Below(second[|second| - 1].data.previous, |second|)
    {
      hide History, FitsAll, Blocks, Chained, WellBehaved;
      hide ForkDatabase.ShortestIn, ForkDatabase.MeetsIn, ForkDatabase.LinkedIn;
      StateIsSound();
      var head := ledger.head(undo.store);
      forks.ShortestMeets(first[0].Id(), head, first, second);
      forks.SameLevel(first[0].Id(), head, first, second);
      if |second| <= |Chain| {
        OldBranchReplays(forks, ledger, Stores, Chain, second);
      }
    }

    /** A branch whose states are stacked can be applied again on what is left without it. */
    lemma SwitchIsReady(first: Branch, second: Branch)
      requires ReadyToSwitch(first, second) && |second| <= |undo.Snapshots|
      ensures |second| <= |Chain| && Restorable(second, Stores, Chain)
      ensures ForkStore(Sight(), second) == Stores[|Chain| - |second|]
      ensures FitsAll(ledger, ForkStore(Sight(), second), Blocks(first))
    {
      hide Valid, Chained, WellBehaved, FitsAll, Blocks;
      hide ForkDatabase.ShortestIn, ForkDatabase.MeetsIn, ForkDatabase.LinkedIn, ForkDatabase.Valid;
      StateIsSound();
      SecondLinks(first, second);
      forks.ShortestMeets(first[0].Id(), ledger.head(undo.store), first, second);
      OldBranchReplays(forks, ledger, Stores, Chain, second);
    }

    lemma SecondLinks(first: Branch, second: Branch)
      requires ReadyToSwitch(first, second)
      ensures forks.Valid() && second != [] && ForkDatabase.LinksToParent(second[0])
      ensures second[0].Id() in forks.index && forks.index[second[0].Id()] == second[0]
      ensures second[0].Id() == ledger.head(undo.store)
    {}

    /** A fork head that is filed can be rewound past the old branch, as the new one is longer. */
    lemma FiledHeadPopsOff(first: Branch, second: Branch)
      requires ReadyToSwitch(first, second) && forks.head.Id() in forks.index
      requires forks.index[forks.head.Id()] == forks.head
      ensures PopsOff(Sight(), second) <==> |second| <= |undo.Snapshots|
    {
      NewBranchRewinds(forks, ledger.head(undo.store), first, second);
    }

    /** Pops the old branch. */
    method PopOldBranch(first: Branch, second: Branch) returns (ok: bool)
      requires ReadyToSwitch(first, second)
      modifies `pendingSession, `Chain, `Stores, `poppedTx, undo, forks`head
      ensures Valid() && !pendingSession
      ensures ok == PopsOff(old(Sight()), second)
      ensures ok ==> second != [] && |second| <= old(|Chain|) && |old(Stores)| == old(|Chain|) + 1
      ensures ok ==>
        Chain == old(Chain)[..old(|Chain|) - |second|] && Stores == old(Stores)[..old(|Chain|) - |second| + 1]
      ensures ok ==> Restorable(second, old(Stores), old(Chain)) && FitsAll(ledger, undo.store, Blocks(first))
      ensures ok ==> Top() == PoppedTip(old(Sight()), second)
      ensures ok ==> ForkStore(old(Sight()), second) == old(Stores)[old(|Chain|) - |second|]
      ensures ok ==> forks.head != null && first != [] && forks.head.Num() + |second| == first[0].Num()
      ensures forks.index == old(forks.index)
      ensures ok ==> PruningFloor(ledger, old(Sight()), first, second) ==
                     HighestFloor(ledger, undo.store, Blocks(first), ForkHeight())
    {
      hide Valid, Restorable, ReadyToSwitch, HighestFloor, FitsAll;
      SwitchIsSound(first, second);
      if |second| <= |undo.Snapshots| {
        SwitchIsReady(first, second);
      }
      ok := PopTo(second[|second| - 1].data.previous, |second|);
      if ok {
        StateIsSound();
      }
    }

    /**
      Pops the old branch and applies the new one. If a block of the new branch throws, the
      rest of it is rejected, its applied part popped and the old branch applied again. The
      switch is atomic unless rewinding the fork head runs out of parents or popping runs out
      of undo states, which it can on the way there or on the way back.
     */
    method SwitchForks(first: Branch, second: Branch) returns (outcome: SwitchOutcome)
      requires ReadyToSwitch(first, second)
      modifies `pendingSession, `Chain, `Stores, `poppedTx, undo, forks
      ensures outcome == OutcomeOf(ledger, old(Sight()), first, second)
      ensures second != [] && forks.index == FilesAfter(ledger, old(Sight()), first, second)
      ensures outcome != Stuck ==>
        Valid() && !pendingSession && |second| <= old(|Chain|) && |old(Stores)| == old(|Chain|) + 1
      ensures outcome == Switched ==> Chain == old(Chain)[..old(|Chain|) - |second|] + Blocks(first)
      ensures outcome == Switched ==> old(Stores)[..old(|Chain|) - |second| + 1] <= Stores
      ensures outcome == RolledBack ==> Chain == old(Chain) && Stores == old(Stores) && undo.store == old(undo.store)
      ensures outcome != Stuck ==>
        Top() == TipAfter(ledger, old(Sight()), first, second) && forks.maxSize == undo.maxSize
      ensures outcome != Stuck ==> first != [] && forks.head != null
                                   && forks.head.Num() == HeightAfter(ledger, old(Sight()), first, second)
    {
      hide Valid, ReadyToSwitch, HighestFloor, Restorable, PopsOff, PruningFloor;
      hide PoppedTip, OutcomeOf, FilesAfter, TipAfter;
      hide Blocks, FitsAll, ForkStore, RejectionIsAside;
      ghost var chain, v := Chain, Sight();
      SwitchIsSound(first, second);
      StateIsSound();
      RejectedAreElsewhere(first, second);
      var popped := PopOldBranch(first, second);
      if !popped {
        NotPopped(v, first, second);
        return Stuck;
      }
      outcome := TryBranch(first, second, v, chain);
      if outcome == RolledBack {
        StateIsSound();
      }
    }

    lemma NotPopped(v: View, first: Branch, second: Branch)
      requires second != [] && !PopsOff(v, second)
      ensures OutcomeOf(ledger, v, first, second) == Stuck && FilesAfter(ledger, v, first, second) == v.index
    {}

    /** Applies the new branch where the old one was popped, or goes back. */
    method TryBranch(first: Branch, second: Branch, ghost v: View, ghost chain: seq<Block>)
      returns (outcome: SwitchOutcome)
      requires Valid() && !pendingSession && Restorable(second, v.stores, chain) && PopsOff(v, second)
      requires var n := |chain| - |second|;
        Chain == chain[..n] && Stores == v.stores[..n + 1] && ForkStore(v, second) == v.stores[n]
      requires Top() == PoppedTip(v, second) && forks.head != null && forks.index == v.index
      requires FitsAll(ledger, undo.store, Blocks(first)) && RejectionIsAside(ledger, v, first, second) && first != []
      requires PruningFloor(ledger, v, first, second) == HighestFloor(ledger, undo.store, Blocks(first), ForkHeight())
      modifies `pendingSession, `Chain, `Stores, `poppedTx, undo, forks
      ensures outcome == OutcomeOf(ledger, v, first, second) && forks.index == FilesAfter(ledger, v, first, second)
      ensures outcome != Stuck ==> Valid() && !pendingSession
      ensures outcome == Switched ==> Chain == chain[..|chain| - |second|] + Blocks(first) && old(Stores) <= Stores
      ensures outcome == RolledBack ==> Chain == chain && Stores == v.stores
      ensures outcome != Stuck ==> Top() == TipAfter(ledger, v, first, second) && forks.maxSize == undo.maxSize
      ensures outcome != Stuck ==> forks.head != null
      ensures outcome == Switched ==> forks.head == old(forks.head)
      ensures outcome == RolledBack ==> forks.head.Num() + Good(ledger, v, first, second) == second[0].Num()
    {
      hide Valid, HighestFloor, PopsOff, PruningFloor, PoppedTip, OutcomeOf, FilesAfter, TipAfter;
      hide Blocks, FitsAll, Applying, Rejected, AfterAll, ForkStore, WayBack, ForkDatabase.AtOrAbove;
      GoodIsApplying(v, first, second);
      var good := ApplyBranch(first);
      if good == |first| {
        WhollyApplied(v, first, second);
        return Switched;
      }
      var restored := UndoSwitch(first, second, good, v.stores, chain);
      PartlyApplied(v, first, second);
      return if restored then RolledBack else Stuck;
    }

    lemma WhollyApplied(v: View, first: Branch, second: Branch)
      requires second != [] && PopsOff(v, second) && Good(ledger, v, first, second) == |first|
      ensures OutcomeOf(ledger, v, first, second) == Switched
      ensures TipAfter(ledger, v, first, second) == AfterAll(ledger, PoppedTip(v, second), Blocks(first))
      ensures FilesAfter(ledger, v, first, second) ==
              ForkDatabase.AtOrAbove(v.index, PruningFloor(ledger, v, first, second))
    {}

    lemma PartlyApplied(v: View, first: Branch, second: Branch)
      requires second != [] && PopsOff(v, second) && Good(ledger, v, first, second) < |first|
      ensures var good, floor := Good(ledger, v, first, second), PruningFloor(ledger, v, first, second);
        var kept := ForkDatabase.AtOrAbove(v.index, floor) - Rejected(first, good);
        var back := ComesBack(ledger, v, first, second);
        && OutcomeOf(ledger, v, first, second) == (if back then RolledBack else Stuck)
        && TipAfter(ledger, v, first, second) == AfterAll(ledger, ReturnTip(ledger, v, first, second), Blocks(second))
        && FilesAfter(ledger, v, first, second) ==
           if back then ForkDatabase.AtOrAbove(kept, ReturnFloor(ledger, v, first, second)) else kept
    {}

    lemma GoodIsApplying(v: View, first: Branch, second: Branch)
      ensures Good(ledger, v, first, second) == Applying(ledger, PoppedTip(v, second).store, Blocks(first))
      ensures PopsOff(v, second) ==> |second| <= v.tip.states
    {}

    /** The tip when `good` blocks are popped from `t` and the old branch is applied again. */
    ghost function BackTip(second: Branch, t: Tip, stores: seq<Store>, chain: seq<Block>, good: nat): Tip
      requires Restorable(second, stores, chain)
    {
      AfterAll(ledger, Tip(stores[|chain| - |second|], if good <= t.states then t.states - good else 0, t.maxSize),
        Blocks(second))
    }

    /** Gives up on the new branch after `good` of its blocks. */
    method UndoSwitch(
        first: Branch, second: Branch, good: nat, ghost stores: seq<Store>, ghost chain: seq<Block>)
      returns (ok: bool)
      requires Valid() && !pendingSession && good <= |first| && Restorable(second, stores, chain)
      requires |Chain| == |chain| - |second| + good
      requires chain[..|chain| - |second|] <= Chain && stores[..|chain| - |second| + 1] <= Stores
      modifies `pendingSession, `Chain, `Stores, `poppedTx, undo, forks
      ensures ok == (good <= |old(undo.Snapshots)|
                     && ForkDatabase.Rewindable(old(forks.index) - Rejected(first, good), second[0], good))
      ensures ok ==> Valid() && !pendingSession && Chain == chain && Stores == stores && good <= second[0].Num()
      ensures ok ==> forks.head != null && forks.head.Num() + good == second[0].Num()
      ensures ok ==> Top() == BackTip(second, old(Top()), stores, chain, good) && forks.maxSize == undo.maxSize
      ensures var kept := old(forks.index) - Rejected(first, good);
        forks.index == if ok then ForkDatabase.AtOrAbove(kept,
          HighestFloor(ledger, stores[|chain| - |second|], Blocks(second), second[0].Num() - good)) else kept
    {
      hide Valid, Chained, WellBehaved, Rejected, HighestFloor;
      hide ForkDatabase.AtOrAbove, ForkDatabase.Rewindable, History;
      Parts();
      RejectBlocks(first, good);
      forks.SetHead(second[0]);
      Whole();
      ok := Restore(second, stores, chain, good);
    }

    /** Removes the block that threw, and those after it, from the fork database. */
    method RejectBlocks(first: Branch, good: nat)
      requires forks.Valid() && good <= |first|
      modifies forks`index
      ensures forks.Valid() && forks.index == old(forks.index) - Rejected(first, good)
    {
      var i := |first| - good;
      while i > 0
        invariant 0 <= i <= |first| - good && forks.Valid()
        invariant forks.index == old(forks.index) - set j | i <= j < |first| - good :: first[j].Id()
      {
        i := i - 1;
        forks.Remove(first[i].Id());
      }
    }

    /** Pops the applied part of the new branch and applies the old branch again. */
    method Restore(second: Branch, ghost stores: seq<Store>, ghost chain: seq<Block>, ghost good: nat)
      returns (ok: bool)
      requires Valid() && !pendingSession && forks.head != null && Restorable(second, stores, chain)
      requires |Chain| == |chain| - |second| + good
      requires chain[..|chain| - |second|] <= Chain && stores[..|chain| - |second| + 1] <= Stores
      modifies `pendingSession, `Chain, `Stores, `poppedTx, undo, forks
      ensures ok == (good <= |old(undo.Snapshots)| && ForkDatabase.Rewindable(old(forks.index), old(forks.head), good))
      ensures ok ==> Valid() && !pendingSession && Chain == chain && Stores == stores && good <= old(forks.head).Num()
      ensures ok ==> forks.head != null && forks.head.Num() + good == old(forks.head).Num()
      ensures ok ==> Top() == BackTip(second, old(Top()), stores, chain, good) && forks.maxSize == undo.maxSize
      ensures !ok ==> forks.index == old(forks.index)
      ensures ok ==>
        var floor := HighestFloor(ledger, stores[|chain| - |second|], Blocks(second), old(forks.head).Num() - good);
        forks.index == ForkDatabase.AtOrAbove(old(forks.index), floor)
    {
      hide Valid, WellBehaved, FitsAll, Blocks, Below, Chained, HighestFloor, AfterAll;
      hide ForkDatabase.Rewindable, ForkDatabase.AtOrAbove;
      ghost var n := |chain| - |second|;
      ForkPointIsBelow(second, stores, chain, good);
      PrefixBack(chain, Chain, n);
      PrefixBack(stores, Stores, n + 1);
      ok := PopTo(second[|second| - 1].data.previous, good);
      if ok {
        StateIsSound();
        Reapply(second, stores, chain);
      }
    }

    /** The fork point lies `good` blocks below the head. */
    lemma ForkPointIsBelow(second: Branch, stores: seq<Store>, chain: seq<Block>, good: nat)
      requires Valid() && !pendingSession && Restorable(second, stores, chain)
      requires |Chain| == |chain| - |second| + good && stores[..|chain| - |second| + 1] <= Stores
      ensures |Stores| == |Chain| + 1 && |stores| == |chain| + 1
      ensures Below(second[|second| - 1].data.previous, good)
    {
      hide Valid, WellBehaved, FitsAll, Blocks;
      var n := |chain| - |second|;
      StateIsSound();
      assert Stores[n] == Stores[..n + 1][n] == stores[n];
      HeadNumbersFall(ledger, Stores, Chain, good);
    }

    static lemma PrefixBack<T>(s: seq<T>, t: seq<T>, n: nat)
      requires n <= |s| && s[..n] <= t
      ensures t[..n] == s[..n]
    {}

    /** Applies the old branch again where it came from. */
    method Reapply(second: Branch, ghost stores: seq<Store>, ghost chain: seq<Block>)
      requires Valid() && !pendingSession && Restorable(second, stores, chain)
      requires var n := |chain| - |second|; Chain == chain[..n] && Stores == stores[..n + 1]
      modifies `Chain, `Stores, undo, forks`index, forks`maxSize
      ensures Valid() && Chain == chain && Stores == stores
      ensures Top() == AfterAll(ledger, old(Top()), Blocks(second)) && forks.maxSize == undo.maxSize
      ensures forks.index == ForkDatabase.AtOrAbove(
        old(forks.index), HighestFloor(ledger, stores[|chain| - |second|], Blocks(second), ForkHeight()))
    {
      hide Valid, WellBehaved, FitsAll, Blocks, AfterAll, HighestFloor;
      ghost var n := |chain| - |second|;
      StateIsSound();
      assert undo.store == stores[n];
      ChainReplays(ledger, stores, chain, n);
      var again := ApplyBranch(second);
      assert Chain == chain;
      StateIsSound();
      SameStores(ledger, Stores, stores, chain);
    }

    static lemma SameStores(c: Ledger, stores: seq<Store>, stores': seq<Store>, chain: seq<Block>)
      requires Chained(c, stores, chain) && Chained(c, stores', chain) && stores[0] == stores'[0]
      ensures stores == stores'
    {
      forall i | 0 <= i < |stores|
        ensures stores[i] == stores'[i]
      {
        ReplayIsDeterministic(c, stores, stores', chain, i);
      }
    }

    // ----- when a failed switch is undone -------------------------------------------------

    /** The ancestor of the old head `j` steps down: of the old branch, or below both. */
    ghost predicate AncestorAt(second: Branch, item: ForkItem, j: nat) {
      && second != [] && ForkDatabase.LinksToParent(item) && item.Num() == second[0].Num() - j
      && (j < |second| ==> item == second[j])
    }

    /** None of the rejected blocks is an ancestor of the old head. */
    lemma {:induction false} RejectedIsNoAncestor(first: Branch, second: Branch, good: nat, item: ForkItem, j: nat)
      requires ReadyToSwitch(first, second) && good < |first| && 0 < j && AncestorAt(second, item, j)
      ensures item.Id() !in Rejected(first, good)
    {
      if item.Id() in Rejected(first, good) {
        var i :| 0 <= i < |first| - good && first[i].Id() == item.Id();
        var head := ledger.head(undo.store);
        SecondLinks(first, second);
        forks.SameLevel(first[0].Id(), head, first, second);
        forks.NumbersFall(first, i);
        if j < |second| {
          forks.SharedBlockIsAnInput(first[0].Id(), head, first, second, i, j);
        }
      }
    }

    /** So rejecting blocks takes nothing away from the way back. */
    lemma {:induction false} RejectedDoNotMatter(
        first: Branch, second: Branch, index: map<BlockId, ForkItem>, good: nat, item: ForkItem, j: nat, k: nat)
      requires ReadyToSwitch(first, second) && good < |first| && AncestorAt(second, item, j)
      requires ForkDatabase.WellFiled(index) && forall id <- index :: id in forks.index && index[id] == forks.index[id]
      ensures ForkDatabase.Rewindable(index - Rejected(first, good), item, k) <==>
        ForkDatabase.Rewindable(index, item, k)
      decreases k
    {
      if k > 0 && ForkDatabase.ParentFiled(index, item) {
        NextAncestor(first, second, item, j);
        RejectedIsNoAncestor(first, second, good, item.prev, j + 1);
        RejectedDoNotMatter(first, second, index, good, item.prev, j + 1, k - 1);
      }
    }

    lemma NextAncestor(first: Branch, second: Branch, item: ForkItem, j: nat)
      requires ReadyToSwitch(first, second) && AncestorAt(second, item, j)
      requires ForkDatabase.ParentFiled(forks.index, item)
      ensures AncestorAt(second, item.prev, j + 1)
    {
      if j + 1 < |second| {
        assert second[j + 1] == forks.Parent(second[j]);
      }
    }

    /** The way back after a rejection is that before it. */
    static ghost predicate RejectionIsAside(c: Ledger, v: View, first: Branch, second: Branch) {
      var good, floor := Good(c, v, first, second), PruningFloor(c, v, first, second);
      && second != []
      && (good < |first| ==>
            (ForkDatabase.Rewindable(ForkDatabase.AtOrAbove(v.index, floor) - Rejected(first, good), second[0], good)
             <==> WayBack(c, v, first, second)))
    }

    /** The way back after a rejection, in terms of the state before the switch. */
    lemma RejectedAreElsewhere(first: Branch, second: Branch)
      requires ReadyToSwitch(first, second)
      ensures RejectionIsAside(ledger, Sight(), first, second)
    {
      hide HighestFloor, Applying, Valid;
      SwitchIsSound(first, second);
      SecondLinks(first, second);
      var v := Sight();
      var good, floor := Good(ledger, v, first, second), PruningFloor(ledger, v, first, second);
      if good < |first| {
        RejectedDoNotMatter(first, second, ForkDatabase.AtOrAbove(forks.index, floor), good, second[0], 0, good);
        ForkDatabase.PrunedRewind(forks.index, floor, second[0], good);
      }
    }

    /**
      As long as fewer new blocks applied than the old branch is long, the old branch itself
      holds the parents that the way back needs, and only pruning could take them away.
     */
    lemma ShortFailureComesBack(first: Branch, second: Branch)
      requires ReadyToSwitch(first, second)
      requires var v := Sight(); var good := Good(ledger, v, first, second);
        good < |second| && PruningFloor(ledger, v, first, second) + good <= second[0].Num()
      ensures WayBack(ledger, Sight(), first, second)
    {
      hide HighestFloor, Applying;
      BranchRewinds(forks, second, 0);
      RewindsLess(forks.index, second[0], |second| - 1, Good(ledger, Sight(), first, second));
    }

    /** Where every block above `k` has its parent and is not pruned, the way back from any failure is there. */
    lemma DeepForksComeBack(first: Branch, second: Branch, k: nat)
      requires ReadyToSwitch(first, second)
      requires ForkDatabase.ParentsFiledAbove(forks.index, k) && PruningFloor(ledger, Sight(), first, second) <= k
      requires k + |first| - 1 <= second[0].Num() || k + Good(ledger, Sight(), first, second) <= second[0].Num()
      ensures Good(ledger, Sight(), first, second) < |first| ==> WayBack(ledger, Sight(), first, second)
    {
      hide HighestFloor, Applying;
      SecondLinks(first, second);
      var good := Good(ledger, Sight(), first, second);
      if good < |first| {
        ForkDatabase.FiledParentsRewind(forks.index, second[0], k, good);
      }
    }

    /** With room for the new branch alone, its applied part can always be popped again. */
    lemma RoomyBranchPops(first: Branch, second: Branch)
      requires ReadyToSwitch(first, second) && Room(ledger, ForkStore(Sight(), second), Blocks(first), 0)
      ensures Good(ledger, Sight(), first, second) <= AfterAll(ledger, PoppedTip(Sight(), second), Blocks(first)).states
    {
      hide Applying, AfterAll, Room;
      NewStatesStay(ledger, PoppedTip(Sight(), second), Blocks(first), 0);
    }

    /** Where the old branch has no parent left, a failure after as many new blocks gets stuck. */
    lemma RootlessForkIsStuck(first: Branch, second: Branch)
      requires ReadyToSwitch(first, second)
      requires !ForkDatabase.ParentFiled(forks.index, second[|second| - 1])
      requires |second| <= Good(ledger, Sight(), first, second) < |first|
      ensures OutcomeOf(ledger, Sight(), first, second) == Stuck
    {
      hide HighestFloor, Applying;
      NoWayBeyond(first, second, 0, Good(ledger, Sight(), first, second));
    }

    lemma {:induction false} NoWayBeyond(first: Branch, second: Branch, j: nat, k: nat)
      requires ReadyToSwitch(first, second) && j < |second| && k >= |second| - j
      requires !ForkDatabase.ParentFiled(forks.index, second[|second| - 1])
      ensures !ForkDatabase.Rewindable(forks.index, second[j], k)
      decreases k
    {
      if j + 1 < |second| {
        assert second[j + 1] == forks.Parent(second[j]);
        NoWayBeyond(first, second, j + 1, k - 1);
      }
    }

    // ----- pushing ----------------------------------------------------------------------

    /**
      Files a block in the fork database and decides what becomes of it: it extends the head
      block, it starts a switch when its branch is now higher, or it waits on a side branch.
     */
    method PlaceBlock(b: Block) returns (p: Placement)
      requires Valid() && !pendingSession
      modifies forks
      ensures Valid() && forks.maxSize == old(forks.maxSize)
      ensures old(forks.Refusal(b)).Some? ==> p == Thrown && unchanged(forks)
      ensures old(forks.Refusal(b)).None? ==> forks.head != null && exists item: ForkItem ::
        && fresh(item)
        && ForkDatabase.Filed(old(forks.index), old(forks.head), forks.maxSize, forks.index, forks.head, b, item)
      ensures p == Thrown && old(forks.Refusal(b)).None? ==>
                && forks.head.data.previous != ledger.head(undo.store)
                && forks.head.Num() > ledger.head(undo.store).Num()
                && forall p', q' ::
                     !ForkDatabase.MeetsIn(forks.index, forks.head, forks.head.Id(), ledger.head(undo.store), p', q')
      ensures p != Thrown ==> forks.head != null && old(forks.Refusal(b)).None?
      ensures p == OnHead ==> forks.head.data.previous == ledger.head(undo.store)
      ensures p == SideBranch || p.SwitchTo? ==> forks.head.data.previous != ledger.head(undo.store)
      ensures p == SideBranch ==> forks.head.Num() <= ledger.head(undo.store).Num()
      ensures p.SwitchTo? ==> forks.head.Num() > ledger.head(undo.store).Num()
      ensures p.SwitchTo? ==> forks.Shortest(forks.head.Id(), ledger.head(undo.store), p.first, p.second)
    {
      var error := forks.PushBlock(b);
      if error.Some? {
        return Thrown;
      }
      var head := ledger.head(undo.store);
      var newHead := forks.head;
      if newHead.data.previous == head {
        return OnHead;
      }
      if newHead.Num() <= head.Num() {
        return SideBranch;
      }
      var branches := forks.FetchBranchFrom(newHead.Id(), head);
      if branches.None? {
        forall p', q'
          ensures !ForkDatabase.MeetsIn(forks.index, forks.head, newHead.Id(), head, p', q')
        {
          assert !forks.Meets(newHead.Id(), head, p', q');
        }
        return Thrown;
      }
      return SwitchTo(branches.value.0, branches.value.1);
    }

    /** Applies a block placed on the head; one that throws leaves the chain as it was. */
    method PushOnHead(b: Block) returns (ok: bool)
      requires Valid() && !pendingSession && Fits(ledger.applyBlock(undo.store, b))
      modifies `Chain, `Stores, undo, forks`index, forks`maxSize
      ensures Valid() && ok == Result(ledger, old(undo.store), b).ok
      ensures Top() == After(ledger, old(Top()), b)
      ensures Chain == (if ok then old(Chain) + [b] else old(Chain))
      ensures Stores == (if ok then old(Stores) + [undo.store] else old(Stores))
      ensures var kept := ForkDatabase.AtOrAbove(old(forks.index), ForkDatabase.Floor(ForkHeight(), forks.maxSize));
        forks.index == if ok then kept else kept - {b.Id()}
      ensures forks.maxSize == undo.maxSize == ledger.applyBlock(old(undo.store), b).maxSize
    {
      ok := ApplyOnHead(b);
      if !ok {
        forks.Remove(b.Id());
      }
    }

    // ----- pushing a block, from end to end -----------------------------------------------

    /** Known blocks, or the pushed one, each on top of the one before it. */
    static ghost predicate IsRoute(c: Ledger, s: Store, index: map<BlockId, ForkItem>, b: Block, blocks: seq<Block>) {
      forall i :: 0 <= i < |blocks| ==> IsStep(index, b, blocks[i], if i == 0 then c.head(s) else blocks[i - 1].Id())
    }

    static predicate IsStep(index: map<BlockId, ForkItem>, b: Block, x: Block, previous: BlockId) {
      (x == b || x.Id() in index) && x.previous == previous
    }

    /** Nested sessions fit in all blocks of every route from a store whose later states are stacked. */
    static ghost predicate RoutesFit(
        c: Ledger, stores: seq<Store>, states: nat, index: map<BlockId, ForkItem>, b: Block) {
      forall n: nat, blocks :: n < |stores| <= n + states + 1 && IsRoute(c, stores[n], index, b, blocks) ==>
        FitsAll(c, stores[n], blocks)
    }

    /** What pushing the block may apply fits: the block on the head, and the routes through it. */
    ghost predicate FitsPush(b: Block)
      reads this, undo, forks
    {
      && Fits(ledger.applyBlock(undo.store, b))
      && RoutesFit(ledger, Stores, |undo.Snapshots|, forks.index, b)
    }

    /** An item of a branch that is not the fork head is filed. */
    lemma {:induction false} BranchIsFiled(branch: Branch, i: nat)
      requires Valid() && forks.Linked(branch) && i < |branch| && forks.head != null
      requires branch[0].Id() in forks.index && forks.index[branch[0].Id()] == branch[0]
      requires branch[0].Num() <= forks.head.Num()
      ensures branch[i].Id() in forks.index
    {
      if i > 0 {
        forks.NumbersFall(branch, i);
        assert branch[i - 1 + 1] == forks.Parent(branch[i - 1]);
      }
    }

    /** A branch from a filed block down to the head of a store is a route from there. */
    lemma BranchIsRoute(branch: Branch, s: Store, index: map<BlockId, ForkItem>, b: Block)
      requires Valid() && forks.Linked(branch) && branch != [] && forks.head != null
      requires branch[0].Id() in forks.index && forks.index[branch[0].Id()] == branch[0]
      requires branch[0].Num() <= forks.head.Num()
      requires branch[|branch| - 1].data.previous == ledger.head(s)
      requires forall id <- forks.index :: id in index || id == b.Id()
      ensures IsRoute(ledger, s, index, b, Blocks(branch))
    {
      forall i | 0 <= i < |branch|
        ensures IsStep(index, b, Blocks(branch)[i], if i == 0 then ledger.head(s) else Blocks(branch)[i - 1].Id())
      {
        var j := |branch| - 1 - i;
        BranchIsFiled(branch, j);
        BlockAt(branch, i);
        if i > 0 {
          BlockAt(branch, i - 1);
          assert branch[j + 1] == forks.Parent(branch[j]);
        }
      }
    }

    /** A switch that the placement asks for is one that can be carried out. */
    lemma PlacedIsReady(first: Branch, second: Branch, index: map<BlockId, ForkItem>, b: Block)
      requires Valid() && !pendingSession && forks.head != null && forks.head.Num() > ledger.head(undo.store).Num()
      requires forks.Shortest(forks.head.Id(), ledger.head(undo.store), first, second)
      requires RoutesFit(ledger, Stores, |undo.Snapshots|, index, b)
      requires forall id <- forks.index :: id in index || id == b.Id()
      ensures ReadyToSwitch(first, second)
    {
      hide FitsAll, Blocks, IsRoute, WellBehaved, Chained;
      StateIsSound();
      forks.ShortestMeets(forks.head.Id(), ledger.head(undo.store), first, second);
      if |second| <= |undo.Snapshots| {
        OldBranchReplays(forks, ledger, Stores, Chain, second);
        var s := Stores[|Chain| - |second|];
        BranchIsRoute(first, s, index, b);
        BranchIsRoute(second, s, index, b);
      }
    }

    /** Where a placed block goes, and what becomes of it there. */
    static ghost predicate Decided(c: Ledger, v: View, b: Block, r: PushOutcome, p: Placement) {
      && v.head != null
      && var head := c.head(v.tip.store);
      if v.head.data.previous == head then
        p == OnHead && r == (if Result(c, v.tip.store, b).ok then Extended else Failed)
      else if v.head.Num() <= head.Num() then p == SideBranch && r == Waiting
      else if p.SwitchTo? then
        && ForkDatabase.ShortestIn(v.index, v.head, v.head.Id(), head, p.first, p.second)
        && r == Forked(OutcomeOf(c, v, p.first, p.second))
      else p == Thrown && r == Refused
    }

    /** The height of the fork database's head once the block is pushed. */
    ghost function HeightWith(b: Block): nat
      reads forks
    {
      if b.Num() > ForkHeight() then b.Num() else ForkHeight()
    }

    /** Above `k` every block has its parent, and filing the block does not prune that far. */
    ghost predicate DeepForks(b: Block, k: nat)
      reads forks
    {
      && k >= 1 && forks.head != null && ForkDatabase.ParentsFiledAbove(forks.index, k)
      && ForkDatabase.Floor(HeightWith(b), forks.maxSize) <= k
    }

    /** Nor does what is applied then. */
    static ghost predicate Spares(c: Ledger, v: View, b: Block, p: Placement, k: nat) {
      match p
      case OnHead => v.head != null && ForkDatabase.Floor(v.head.Num(), c.applyBlock(v.tip.store, b).maxSize) <= k
      case SwitchTo(first, second) => SparedBySwitch(c, v, first, second, k)
      case _ => true
    }

    /** The ids that are removed as invalid. */
    static ghost function Lost(c: Ledger, v: View, b: Block, r: PushOutcome, p: Placement): set<BlockId> {
      if r == Failed then {b.Id()}
      else if r.Forked? && r.outcome != Switched && p.SwitchTo? then Rejected(p.first, Good(c, v, p.first, p.second))
      else {}
    }

    /** The block is higher than any before, and not known yet. */
    ghost predicate NewHighest(b: Block)
      reads forks
    {
      b.Num() > ForkHeight() && b.Id() !in forks.index
    }

    /**
      The old branch can be popped, there is room for the states of the new one, and as many
      ancestors below the old head as the new branch is long lie above `k`.
     */
    static ghost predicate CanReturn(c: Ledger, v: View, p: Placement, k: nat) {
      && p.SwitchTo? && |p.second| <= v.tip.states
      && k + |p.first| - 1 <= c.head(v.tip.store).Num()
      && Room(c, ForkStore(v, p.second), Blocks(p.first), 0)
    }

    /** The fork head is filed, nothing is pruned on the way, and the switch can return. */
    static ghost predicate ReturnIsSafe(c: Ledger, v: View, p: Placement, k: nat) {
      && v.head != null && v.head.Id() in v.index && v.index[v.head.Id()] == v.head
      && CanReturn(c, v, p, k) && SparedBySwitch(c, v, p.first, p.second, k)
    }

    /** Where a placed block goes. */
    static ghost predicate PlacedAt(c: Ledger, v: View, p: Placement) {
      && v.head != null
      && var head := c.head(v.tip.store);
      if v.head.data.previous == head then p == OnHead
      else if v.head.Num() <= head.Num() then p == SideBranch
      else if p.SwitchTo? then ForkDatabase.ShortestIn(v.index, v.head, v.head.Id(), head, p.first, p.second)
      else p == Thrown
    }

    /** Files and places the block; deep forks stay deep. */
    method PlaceOnForks(b: Block, ghost k: nat) returns (p: Placement)
      requires Valid() && !pendingSession
      modifies forks
      ensures Valid() && forall id <- forks.index :: id in old(forks.index) || id == b.Id()
      ensures old(forks.Refusal(b)).Some? ==> p == Thrown && unchanged(forks)
      ensures old(forks.Refusal(b)).None? ==> forks.head != null && exists item: ForkItem ::
        && fresh(item)
        && ForkDatabase.Filed(old(forks.index), old(forks.head), old(forks.maxSize), forks.index, forks.head, b, item)
      ensures old(forks.Refusal(b)).None? ==> PlacedAt(ledger, Sight(), p)
      ensures old(forks.Refusal(b)).None? && p == Thrown ==>
        forall p', q' ::
          !ForkDatabase.MeetsIn(forks.index, forks.head, forks.head.Id(), ledger.head(undo.store), p', q')
      ensures forks.maxSize == old(forks.maxSize)
      ensures old(DeepForks(b, k)) ==> ForkDatabase.ParentsFiledAbove(forks.index, k)
      ensures old(forks.Refusal(b)).None? && old(DeepForks(b, k) && NewHighest(b)) ==>
        forks.head.Id() in forks.index && forks.index[forks.head.Id()] == forks.head
    {
      hide Valid, ForkDatabase.ParentsFiledBut, ForkDatabase.ShortestIn, ForkDatabase.MeetsIn;
      Parts();
      p := PlaceBlock(b);
      if old(forks.Refusal(b)).None? {
        ghost var item: ForkItem :|
          ForkDatabase.Filed(old(forks.index), old(forks.head), forks.maxSize, forks.index, forks.head, b, item);
        HeadAfter(old(forks.index), old(forks.head), forks.maxSize, forks.index, forks.head, b, item);
        if old(DeepForks(b, k)) {
          ForkDatabase.PushKeepsParents(old(forks.index), old(forks.head), forks.maxSize, forks.index, forks.head, b,
            item, k);
        }
      }
    }

    static lemma HeadAfter(index: map<BlockId, ForkItem>, head: ForkItem?, maxSize: nat,
        index': map<BlockId, ForkItem>, head': ForkItem?, b: Block, item: ForkItem)
      requires ForkDatabase.WellFiled(index) && ForkDatabase.Filed(index, head, maxSize, index', head', b, item)
      ensures head' != null && head'.Num() == (if head == null || b.Num() > head.Num() then b.Num() else head.Num())
      ensures head != null && b.Num() > head.Num() && b.Id() !in index ==>
        head'.Id() in index' && index'[head'.Id()] == head'
      ensures forall id <- index' :: id in index || id == b.Id()
    {}

    /** The fork database after a block on the head: pruned, and without one that threw. */
    static ghost function FilesOnHead(c: Ledger, v: View, b: Block): map<BlockId, ForkItem> {
      var height := if v.head == null then 0 else v.head.Num();
      var kept := ForkDatabase.AtOrAbove(v.index, ForkDatabase.Floor(height, c.applyBlock(v.tip.store, b).maxSize));
      if Result(c, v.tip.store, b).ok then kept else kept - {b.Id()}
    }

    /** How a push leaves the fork database and the tip, unless a switch got stuck. */
    static ghost predicate Ends(c: Ledger, v: View, b: Block, r: PushOutcome, p: Placement, w: View) {
      match r
      case Refused => w == v
      case Waiting => w == v
      case Extended => w.head == v.head && w.tip == After(c, v.tip, b) && w.index == FilesOnHead(c, v, b)
      case Failed => w.head == v.head && w.tip == After(c, v.tip, b) && w.index == FilesOnHead(c, v, b)
      case Forked(outcome) =>
        && p.SwitchTo? && p.first != [] && p.second != [] && w.index == FilesAfter(c, v, p.first, p.second)
        && (outcome != Stuck ==>
              && w.head != null && w.head.Num() == HeightAfter(c, v, p.first, p.second)
              && w.tip == TipAfter(c, v, p.first, p.second))
    }

    /** Applies the block on the head; deep forks only miss the block if it throws. */
    method ExtendForks(b: Block, ghost k: nat, ghost v: View, ghost deep: bool) returns (ok: bool)
      requires Valid() && !pendingSession && Fits(ledger.applyBlock(undo.store, b)) && v == Sight()
      requires deep ==> ForkDatabase.ParentsFiledAbove(forks.index, k)
      modifies `Chain, `Stores, undo, forks`index, forks`maxSize
      ensures Valid() && ok == Result(ledger, old(undo.store), b).ok
      ensures ok ==> Chain == old(Chain) + [b] && Stores == old(Stores) + [undo.store]
      ensures !ok ==> Chain == old(Chain) && Stores == old(Stores) && undo.store == old(undo.store)
      ensures forks.maxSize == undo.maxSize && Top() == After(ledger, v.tip, b)
      ensures forks.index == FilesOnHead(ledger, v, b)
      ensures deep && Spares(ledger, v, b, OnHead, k) ==>
        ForkDatabase.ParentsFiledBut(forks.index, k, if ok then {} else {b.Id()})
    {
      hide Valid, Fits, StackedBy, ForkDatabase.ParentsFiledBut, ForkDatabase.AtOrAbove, ForkDatabase.WellFiled;
      StateIsSound();
      ok := PushOnHead(b);
      if deep && Spares(ledger, v, b, OnHead, k) {
        var none: set<BlockId>, gone: set<BlockId> := {}, {b.Id()};
        ghost var kept := ForkDatabase.AtOrAbove(v.index, ForkDatabase.Floor(ForkHeight(), forks.maxSize));
        assert kept - none == kept && none + gone == gone && none + none == none;
        ForkDatabase.PruneKeepsParents(v.index, ForkDatabase.Floor(ForkHeight(), forks.maxSize), k, none,
          if ok then none else gone);
      }
    }

    /** Switches to the branches that were found; a switch on deep forks gets through or comes back. */
    method SwitchPlaced(b: Block, p: Placement, ghost k: nat, ghost v: View, ghost index: map<BlockId, ForkItem>)
        returns (outcome: SwitchOutcome)
      requires Valid() && !pendingSession && v == Sight() && p.SwitchTo? && v.head != null
      requires v.head.Num() > ledger.head(undo.store).Num()
      requires ForkDatabase.ShortestIn(v.index, v.head, v.head.Id(), ledger.head(undo.store), p.first, p.second)
      requires RoutesFit(ledger, Stores, |undo.Snapshots|, index, b)
      requires forall id <- forks.index :: id in index || id == b.Id()
      modifies `pendingSession, `Chain, `Stores, `poppedTx, undo, forks
      ensures outcome == OutcomeOf(ledger, v, p.first, p.second)
      ensures outcome != Stuck ==>
        Valid() && !pendingSession && |p.second| <= old(|Chain|) && |old(Stores)| == old(|Chain|) + 1
      ensures outcome == Switched ==> Chain == old(Chain)[..old(|Chain|) - |p.second|] + Blocks(p.first)
      ensures outcome == Switched ==> old(Stores)[..old(|Chain|) - |p.second| + 1] <= Stores
      ensures outcome == RolledBack ==> Chain == old(Chain) && Stores == old(Stores) && undo.store == old(undo.store)
      ensures outcome != Stuck ==> forks.maxSize == undo.maxSize
      ensures Ends(ledger, v, b, Forked(outcome), p, Sight())
      ensures ForkDatabase.ParentsFiledAbove(v.index, k) && SparedBySwitch(ledger, v, p.first, p.second, k) ==>
        ForkDatabase.ParentsFiledBut(forks.index, k,
          if outcome == Switched then {} else Rejected(p.first, Good(ledger, v, p.first, p.second)))
      ensures ForkDatabase.ParentsFiledAbove(v.index, k) && ReturnIsSafe(ledger, v, p, k) ==> outcome != Stuck
    {
      hide Valid, RoutesFit, OutcomeOf, FilesAfter, HeightAfter, TipAfter, SparedBySwitch, CanReturn, Good, Rejected;
      hide ForkDatabase.ShortestIn, ForkDatabase.ParentsFiledBut, ForkDatabase.WellFiled;
      PlacedIsReady(p.first, p.second, index, b);
      StateIsSound();
      if ForkDatabase.ParentsFiledAbove(v.index, k) && SparedBySwitch(ledger, v, p.first, p.second, k) {
        SwitchKeepsParents(ledger, v, p.first, p.second, k);
        if ReturnIsSafe(ledger, v, p, k) {
          DeepForksSwitch(p, k);
        }
      }
      outcome := SwitchForks(p.first, p.second);
    }

    lemma DeepForksSwitch(p: Placement, k: nat)
      requires p.SwitchTo? && ReadyToSwitch(p.first, p.second) && CanReturn(ledger, Sight(), p, k)
      requires forks.head.Id() in forks.index && forks.index[forks.head.Id()] == forks.head
      requires ForkDatabase.ParentsFiledAbove(forks.index, k) && SparedBySwitch(ledger, Sight(), p.first, p.second, k)
      ensures OutcomeOf(ledger, Sight(), p.first, p.second) != Stuck
    {
      hide HighestFloor, Applying, AfterAll, Room, Valid;
      hide ForkStore, ForkDatabase.ShortestIn, ForkDatabase.ParentsFiledBut;
      SecondLinks(p.first, p.second);
      FiledHeadPopsOff(p.first, p.second);
      RoomyBranchPops(p.first, p.second);
      DeepForksComeBack(p.first, p.second, k);
    }

    static lemma NothingLost(c: Ledger, v: View, b: Block, r: PushOutcome, p: Placement, k: nat)
      requires r == Refused || r == Waiting
      ensures ForkDatabase.ParentsFiledAbove(v.index, k) ==>
        ForkDatabase.ParentsFiledBut(v.index, k, Lost(c, v, b, r, p))
    {}

    /**
      Pushes a block: it is refused, waits on a side branch, extends the chain or switches to
      a longer fork; `v` is what there is to see once the block is filed. Whatever does not
      succeed leaves the chain and its stores as they were, except for a switch that gets stuck;
      one to a new highest block on deep forks does not.
     */
    method PushBlock(b: Block, ghost k: nat) returns (r: PushOutcome, p: Placement, ghost v: View)
      requires Valid() && !pendingSession && FitsPush(b)
      modifies `pendingSession, `Chain, `Stores, `poppedTx, undo, forks
      ensures v.stores == old(Stores) && v.tip == old(Top())
      ensures old(forks.Refusal(b)).Some? ==> r == Refused && p == Thrown && unchanged(forks)
      ensures old(forks.Refusal(b)).None? ==> v.head != null && exists item: ForkItem ::
        && fresh(item)
        && ForkDatabase.Filed(old(forks.index), old(forks.head), old(forks.maxSize), v.index, v.head, b, item)
      ensures old(forks.Refusal(b)).None? ==> Decided(ledger, v, b, r, p)
      ensures old(forks.Refusal(b)).None? && r == Refused ==>
        forall p', q' :: !ForkDatabase.MeetsIn(v.index, v.head, v.head.Id(), ledger.head(v.tip.store), p', q')
      ensures r == Extended ==> Valid() && Chain == old(Chain) + [b] && Stores == old(Stores) + [undo.store]
      ensures r == Forked(Switched) ==> Valid() && |p.second| <= old(|Chain|) && |old(Stores)| == old(|Chain|) + 1
      ensures r == Forked(Switched) ==> Chain == old(Chain)[..old(|Chain|) - |p.second|] + Blocks(p.first)
      ensures r == Forked(Switched) ==> old(Stores)[..old(|Chain|) - |p.second| + 1] <= Stores
      ensures r != Extended && r != Forked(Switched) && r != Forked(Stuck) ==>
        Valid() && Chain == old(Chain) && Stores == old(Stores) && undo.store == old(undo.store)
      ensures old(forks.Refusal(b)).None? ==> Ends(ledger, v, b, r, p, Sight())
      ensures r != Forked(Stuck) ==> !pendingSession
      ensures r != Forked(Stuck) ==>
        forks.maxSize == if r == Refused || r == Waiting then old(forks.maxSize) else undo.maxSize
      ensures old(DeepForks(b, k)) && Spares(ledger, v, b, p, k) ==>
        ForkDatabase.ParentsFiledBut(forks.index, k, Lost(ledger, v, b, r, p))
      ensures old(DeepForks(b, k) && NewHighest(b)) && Spares(ledger, v, b, p, k) && CanReturn(ledger, v, p, k) ==>
        r != Forked(Stuck)
    {
      hide Valid, RoutesFit, DeepForks, NewHighest, SparedBySwitch, OutcomeOf;
      hide CanReturn, FilesAfter, HeightAfter, TipAfter;
      hide ForkDatabase.ShortestIn, ForkDatabase.MeetsIn, ForkDatabase.ParentsFiledBut, ForkDatabase.Filed, Result;
      ghost var index, deep := forks.index, DeepForks(b, k);
      p := PlaceOnForks(b, k);
      v := Sight();
      if p == Thrown {
        r := Refused;
        NothingLost(ledger, v, b, r, p, k);
      } else if p == SideBranch {
        r := Waiting;
        NothingLost(ledger, v, b, r, p, k);
      } else if p == OnHead {
        var ok := ExtendForks(b, k, v, deep);
        r := if ok then Extended else Failed;
      } else {
        var outcome := SwitchPlaced(b, p, k, v, index);
        r := Forked(outcome);
      }
    }
  }
}

/**
  The undo database as a value: the store, the stack of undo states and the session
  counter, and its meaning as a history of store snapshots.
 */
module UndoHistory {
  import opened Wrappers
  import opened UndoLog

  datatype Log = Log(store: Store, stack: seq<UndoState>, active: nat, disabled: bool, maxSize: nat)

  /** The last `n` elements, or all of them when there are fewer. */
  function Last<T>(s: seq<T>, n: nat): seq<T> {
    if |s| > n then s[|s| - n..] else s
  }

  function Start(l: Log, force: bool): Log {
    if l.disabled && !force then l
    else l.(disabled := false, stack := Last(l.stack, l.maxSize) + [EMPTY_STATE], active := l.active + 1)
  }

  /** A change recorded on an empty stack begins a state of its own. */
  function WithTop(stack: seq<UndoState>): (r: seq<UndoState>)
    ensures r != []
  {
    if stack == [] then [EMPTY_STATE] else stack
  }

  /** A change made through the store's indexes, noted in the top state. */
  function Record(l: Log, c: Change): Log
    requires Applicable(l.store, c)
  {
    var l' := l.(store := Apply(l.store, c));
    if l.disabled then l'
    else
      var stack := WithTop(l.stack);
      l'.(stack := stack[|stack| - 1 := Note(stack[|stack| - 1], l.store, c)])
  }

  function DropTop(l: Log): Log
    requires l.stack != []
  {
    l.(stack := l.stack[..|l.stack| - 1])
  }

  function RevertTop(l: Log): Log
    requires l.stack != []
  {
    DropTop(l.(store := Revert(l.store, l.stack[|l.stack| - 1])))
  }

  /** None stands for a failed FC_ASSERT, which changes nothing. */
  function Undo(l: Log): Option<Log>
    requires l.active <= |l.stack|
  {
    if l.disabled || l.active == 0 then None
    else Some(RevertTop(l).(active := l.active - 1))
  }

  function Merge(l: Log): Option<Log>
    requires l.active <= |l.stack|
  {
    if l.active == 0 then None
    else if l.active == 1 && |l.stack| == 1 then Some(DropTop(l).(active := 0))
    else
      var n := |l.stack|;
      Some(DropTop(l.(stack := l.stack[n - 2 := MergeStates(l.stack[n - 2], l.stack[n - 1])]))
             .(active := l.active - 1))
  }

  function Commit(l: Log): Option<Log> {
    if l.active == 0 then None else Some(l.(active := l.active - 1))
  }

  function PopCommit(l: Log): Option<Log> {
    if l.active != 0 || l.stack == [] then None
    else Some(RevertTop(l).(disabled := false))
  }

  // ----- snapshots ---------------------------------------------------------------------

  /** The store right after the span that state `i` covers. */
  ghost function Successor(l: Log, snaps: seq<Store>, i: nat): Store
    requires i < |snaps|
  {
    if i + 1 < |snaps| then snaps[i + 1] else l.store
  }

  /** `snaps[i]` is the store when state `i` began, and state `i` leads back to it. */
  ghost predicate LeadsBack(l: Log, snaps: seq<Store>, i: nat)
    requires i < |snaps| == |l.stack|
  {
    Records(l.stack[i], snaps[i], Successor(l, snaps, i))
  }

  /** Every undo state leads back to the store of its start. */
  ghost predicate History(l: Log, snaps: seq<Store>) {
    && WellFormed(l.store)
    && l.active <= |l.stack| == |snaps|
    && forall i :: 0 <= i < |snaps| ==> LeadsBack(l, snaps, i)
  }

  /** The snapshots of the sessions that are still open, outermost first. */
  ghost function Open(l: Log, snaps: seq<Store>): seq<Store>
    requires l.active <= |snaps|
  {
    snaps[|snaps| - l.active..]
  }

  /** The snapshots of the committed states, oldest first. */
  ghost function Committed(l: Log, snaps: seq<Store>): seq<Store>
    requires l.active <= |snaps|
  {
    snaps[..|snaps| - l.active]
  }

  ghost function SnapsAfterStart(l: Log, snaps: seq<Store>, force: bool): seq<Store> {
    if l.disabled && !force then snaps else Last(snaps, l.maxSize) + [l.store]
  }

  ghost function SnapsAfterRecord(l: Log, snaps: seq<Store>): seq<Store> {
    if l.disabled || snaps != [] then snaps else [l.store]
  }

  /** The first `k` states of `l'` are those of `l` from `d` on, and lead to the same stores. */
  lemma CarryStates(l: Log, snaps: seq<Store>, l': Log, snaps': seq<Store>, d: nat, k: nat)
    requires History(l, snaps) && |l'.stack| == |snaps'| && k <= |snaps'| && d + k <= |snaps|
    requires l'.stack[..k] == l.stack[d..d + k] && snaps'[..k] == snaps[d..d + k]
    requires k > 0 ==> Successor(l', snaps', k - 1) == Successor(l, snaps, d + k - 1)
    ensures forall i :: 0 <= i < k ==> LeadsBack(l', snaps', i)
  {
    forall i | 0 <= i < k
      ensures LeadsBack(l', snaps', i)
    {
      assert LeadsBack(l, snaps, d + i);
      assert l'.stack[i] == l'.stack[..k][i] && snaps'[i] == snaps'[..k][i];
      if i + 1 < k {
        assert snaps'[i + 1] == snaps'[..k][i + 1];
      }
    }
  }

  /**
    A start keeps the history exactly when no more sessions are open than `maxSize`:
    otherwise the state of an open session is thrown away.
   */
  lemma StartKeepsHistory(l: Log, snaps: seq<Store>, force: bool)
    requires History(l, snaps)
    ensures !(l.disabled && !force) ==>
              (History(Start(l, force), SnapsAfterStart(l, snaps, force)) <==> l.active <= l.maxSize)
    ensures l.disabled && !force ==> History(Start(l, force), SnapsAfterStart(l, snaps, force))
    ensures !(l.disabled && !force) && l.active <= l.maxSize ==>
              var snaps' := SnapsAfterStart(l, snaps, force);
              Open(Start(l, force), snaps') == Open(l, snaps) + [l.store]
  {
    if !(l.disabled && !force) {
      var l', snaps' := Start(l, force), SnapsAfterStart(l, snaps, force);
      var k := |snaps'| - 1;
      CarryStates(l, snaps, l', snaps', |snaps| - k, k);
      EmptyRecordsNothing(l.store);
      assert LeadsBack(l', snaps', k);
    }
  }

  lemma RecordKeepsHistory(l: Log, snaps: seq<Store>, c: Change)
    requires History(l, snaps) && Applicable(l.store, c)
    requires !l.disabled || l.stack == []
    ensures History(Record(l, c), SnapsAfterRecord(l, snaps))
    ensures l.active == 0 || SnapsAfterRecord(l, snaps) == snaps
  {
    EmptyRecordsNothing(l.store);
    var stack, snaps' := WithTop(l.stack), if snaps == [] then [l.store] else snaps;
    var n := |snaps'| - 1;
    if snaps != [] {
      assert LeadsBack(l, snaps, n);
    }
    NoteKeepsRecords(stack[n], snaps'[n], l.store, c);
    if !l.disabled {
      if snaps != [] {
        CarryStates(l, snaps, Record(l, c), snaps, 0, n);
      }
      assert LeadsBack(Record(l, c), snaps', n);
    }
  }

  lemma RecordCarriesHistory(l: Log, snaps: seq<Store>, c: Change)
    requires Applicable(l.store, c)
    ensures History(l, snaps) && (!l.disabled || l.stack == []) ==>
              History(Record(l, c), SnapsAfterRecord(l, snaps))
  {
    if History(l, snaps) && (!l.disabled || l.stack == []) {
      RecordKeepsHistory(l, snaps, c);
    }
  }

  /** Reverting the top state leads back to the last snapshot and leaves the rest valid. */
  lemma RevertTopRestores(l: Log, snaps: seq<Store>, active: nat, disabled: bool)
    requires History(l, snaps) && active < |l.stack|
    ensures RevertTop(l).store == snaps[|snaps| - 1]
    ensures History(RevertTop(l).(active := active, disabled := disabled), snaps[..|snaps| - 1])
  {
    var n := |snaps| - 1;
    assert LeadsBack(l, snaps, n);
    RevertIsExact(l.stack[n], snaps[n], l.store);
    CarryStates(l, snaps, RevertTop(l).(active := active, disabled := disabled), snaps[..n], 0, n);
  }

  /** Undo restores the store of the innermost open session's start. */
  lemma UndoRestoresSnapshot(l: Log, snaps: seq<Store>)
    requires History(l, snaps) && !l.disabled && l.active > 0
    ensures Undo(l).Some? && var l' := Undo(l).value;
      && l'.store == snaps[|snaps| - 1]
      && History(l', snaps[..|snaps| - 1])
      && Open(l, snaps) == Open(l', snaps[..|snaps| - 1]) + [l'.store]
      && Committed(l', snaps[..|snaps| - 1]) == Committed(l, snaps)
  {
    RevertTopRestores(l, snaps, l.active - 1, false);
  }

  lemma PopCommitRestoresSnapshot(l: Log, snaps: seq<Store>)
    requires History(l, snaps) && l.active == 0 && l.stack != []
    ensures PopCommit(l).Some? && var l' := PopCommit(l).value;
      l'.store == snaps[|snaps| - 1] && History(l', snaps[..|snaps| - 1])
  {
    RevertTopRestores(l, snaps, 0, false);
  }

  /** A merge leaves the store alone and forgets only the innermost snapshot. */
  lemma MergeForgetsSnapshot(l: Log, snaps: seq<Store>)
    requires History(l, snaps) && l.active > 0
    ensures Merge(l).Some? && var l' := Merge(l).value;
      && l'.store == l.store
      && History(l', snaps[..|snaps| - 1])
      && Open(l, snaps) == Open(l', snaps[..|snaps| - 1]) + [snaps[|snaps| - 1]]
      && Committed(l', snaps[..|snaps| - 1]) == Committed(l, snaps)
  {
    var n := |snaps|;
    if n >= 2 {
      var l' := Merge(l).value;
      assert LeadsBack(l, snaps, n - 2);
      assert LeadsBack(l, snaps, n - 1);
      MergeRecordsBoth(l.stack[n - 2], l.stack[n - 1], snaps[n - 2], snaps[n - 1], l.store);
      CarryStates(l, snaps, l', snaps[..n - 1], 0, n - 2);
      assert LeadsBack(l', snaps[..n - 1], n - 2);
    }
  }

  lemma ResizeKeepsHistory(l: Log, snaps: seq<Store>, size: nat)
    requires History(l, snaps)
    ensures History(l.(maxSize := size), snaps)
  {
    CarryStates(l, snaps, l.(maxSize := size), snaps, 0, |snaps|);
  }

  lemma CommitKeepsHistory(l: Log, snaps: seq<Store>)
    requires History(l, snaps) && l.active > 0
    ensures Commit(l).Some? && History(Commit(l).value, snaps)
  {
    CarryStates(l, snaps, Commit(l).value, snaps, 0, |snaps|);
  }
}

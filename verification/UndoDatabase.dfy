/**
  The undo database over its object store, in place: the branches of on_create, on_modify
  and on_remove, and the loops of undo, merge and pop_commit, in whatever order the
  unordered containers are walked.
 */
module UndoDatabases {
  import opened Wrappers
  import opened UndoLog
  import opened UndoHistory

  class UndoDatabase {
    var store: Store
    var stack: seq<UndoState>
    var activeSessions: nat
    var disabled: bool
    var maxSize: nat
    ghost var Snapshots: seq<Store>

    ghost function Log(): Log
      reads this
    {
      UndoHistory.Log(store, stack, activeSessions, disabled, maxSize)
    }

    /** Every undo state leads back to the store of its start. */
    ghost predicate Intact()
      reads this
    {
      History(Log(), Snapshots)
    }

    constructor (nextIds: map<nat, nat>)
      ensures Intact() && Log() == UndoHistory.Log(Store(map[], nextIds), [], 0, false, 256)
    {
      store := Store(map[], nextIds);
      stack, activeSessions, disabled, maxSize := [], 0, false, 256;
      Snapshots := [];
    }

    method Enable()
      modifies `disabled
      ensures !disabled
    {
      disabled := false;
    }

    method Disable()
      modifies `disabled
      ensures disabled
    {
      disabled := true;
    }

    method SetMaxSize(size: nat)
      modifies `maxSize
      ensures maxSize == size
    {
      maxSize := size;
    }

    method StartUndoSession(forceEnable: bool)
      modifies this
      ensures Log() == Start(old(Log()), forceEnable)
      ensures Snapshots == SnapsAfterStart(old(Log()), old(Snapshots), forceEnable)
      ensures old(Intact()) && old(activeSessions) <= maxSize ==> Intact()
    {
      hide History, Last, SnapsAfterStart;
      ghost var before := Log();
      if disabled && !forceEnable {
        assert Snapshots == SnapsAfterStart(before, Snapshots, forceEnable) by { StartDisabled(before, Snapshots); }
        return;
      }
      if forceEnable {
        disabled := false;
      }
      DropOldest();
      stack := stack + [EMPTY_STATE];
      activeSessions := activeSessions + 1;
      Snapshots := SnapsAfterStart(before, Snapshots, forceEnable);
      if History(before, old(Snapshots)) && before.active <= maxSize {
        StartKeepsHistory(before, old(Snapshots), forceEnable);
      }
    }

    static lemma StartDisabled(l: UndoHistory.Log, snaps: seq<Store>)
      requires l.disabled
      ensures SnapsAfterStart(l, snaps, false) == snaps
    {}

    /** Forgets the oldest states until the rest fits into the maximum size. */
    method DropOldest()
      modifies `stack
      ensures stack == Last(old(stack), maxSize)
    {
      while |stack| > maxSize
        invariant |stack| <= |old(stack)| && stack == Last(old(stack), |stack|)
        invariant stack == old(stack) || |stack| >= maxSize
      {
        stack := stack[1..];
      }
    }

    // ----- changes --------------------------------------------------------------------

    /** Called just after an object is created. */
    method OnCreate(id: ObjectId)
      modifies `stack
      ensures stack == if disabled then old(stack) else
                var noted := WithTop(old(stack));
                noted[|noted| - 1 := NoteCreated(noted[|noted| - 1], id)]
    {
      if disabled {
        return;
      }
      if stack == [] {
        stack := [EMPTY_STATE];
      }
      var u := stack[|stack| - 1];
      if id.index !in u.oldNextIds {
        u := u.(oldNextIds := u.oldNextIds[id.index := id.instance]);
      }
      stack := stack[|stack| - 1 := u.(newIds := u.newIds + {id})];
    }

    /** Called just before an object is modified. */
    method OnModify(id: ObjectId, ghost value: Object)
      requires id in store.objects
      modifies `stack
      ensures stack == Record(old(Log()), UndoLog.Modify(id, value)).stack
    {
      if disabled {
        return;
      }
      if stack == [] {
        stack := [EMPTY_STATE];
      }
      var u := stack[|stack| - 1];
      if id in u.newIds {
        return;
      }
      if id in u.oldValues {
        return;
      }
      stack := stack[|stack| - 1 := u.(oldValues := u.oldValues[id := store.objects[id]])];
    }

    /** Called just before an object is removed. */
    method OnRemove(id: ObjectId)
      requires id in store.objects
      modifies `stack
      ensures stack == Record(old(Log()), UndoLog.Remove(id)).stack
    {
      if disabled {
        return;
      }
      if stack == [] {
        stack := [EMPTY_STATE];
      }
      var n := |stack| - 1;
      var u := stack[n];
      if id in u.newIds {
        stack := stack[n := u.(newIds := u.newIds - {id})];
        return;
      }
      if id in u.oldValues {
        u := u.(removed := u.removed[id := u.oldValues[id]]);
        stack := stack[n := u.(oldValues := u.oldValues - {id})];
        return;
      }
      if id in u.removed {
        return;
      }
      stack := stack[n := u.(removed := u.removed[id := store.objects[id]])];
    }

    /** Inserts a new object under the next id of its index, then notes it. */
    method Create(index: nat, value: Object) returns (ok: bool)
      modifies this
      ensures ok == Applicable(old(store), UndoLog.Create(index, value))
      ensures !ok ==> unchanged(this)
      ensures ok ==> Log() == Record(old(Log()), UndoLog.Create(index, value))
      ensures ok && old(Intact()) && (!old(disabled) || old(stack) == []) ==> Intact()
    {
      if index !in store.nextIds {
        return false;
      }
      RecordCarriesHistory(Log(), Snapshots, UndoLog.Create(index, value));
      Snapshots := SnapsAfterRecord(Log(), Snapshots);
      var id := ObjectId(index, store.nextIds[index]);
      store := Store(store.objects[id := value], store.nextIds[index := id.instance + 1]);
      OnCreate(id);
      return true;
    }

    /** Notes the object as it is, then overwrites it. */
    method Modify(id: ObjectId, value: Object) returns (ok: bool)
      modifies this
      ensures ok == Applicable(old(store), UndoLog.Modify(id, value))
      ensures !ok ==> unchanged(this)
      ensures ok ==> Log() == Record(old(Log()), UndoLog.Modify(id, value))
      ensures ok && old(Intact()) && (!old(disabled) || old(stack) == []) ==> Intact()
    {
      if id !in store.objects {
        return false;
      }
      RecordCarriesHistory(Log(), Snapshots, UndoLog.Modify(id, value));
      Snapshots := SnapsAfterRecord(Log(), Snapshots);
      OnModify(id, value);
      store := store.(objects := store.objects[id := value]);
      return true;
    }

    /** Notes the object as it is, then erases it. */
    method Remove(id: ObjectId) returns (ok: bool)
      modifies this
      ensures ok == Applicable(old(store), UndoLog.Remove(id))
      ensures !ok ==> unchanged(this)
      ensures ok ==> Log() == Record(old(Log()), UndoLog.Remove(id))
      ensures ok && old(Intact()) && (!old(disabled) || old(stack) == []) ==> Intact()
    {
      if id !in store.objects {
        return false;
      }
      RecordCarriesHistory(Log(), Snapshots, UndoLog.Remove(id));
      Snapshots := SnapsAfterRecord(Log(), Snapshots);
      OnRemove(id);
      store := store.(objects := store.objects - {id});
      return true;
    }

    // ----- reverting ------------------------------------------------------------------

    method RestoreOldValues(values: map<ObjectId, Object>)
      requires values.Keys <= store.objects.Keys
      modifies `store
      ensures store == old(store).(objects := old(store).objects + values)
    {
      var todo := values.Keys;
      while todo != {}
        invariant todo <= values.Keys
        invariant values.Keys <= store.objects.Keys
        invariant store == old(store).(objects := old(store).objects + (values - todo))
      {
        var id :| id in todo;
        assert id in store.objects;
        store := store.(objects := store.objects[id := values[id]]);
        todo := todo - {id};
      }
    }

    method RemoveNewObjects(ids: set<ObjectId>)
      requires ids <= store.objects.Keys
      modifies `store
      ensures store == old(store).(objects := old(store).objects - ids)
    {
      var todo := ids;
      while todo != {}
        invariant todo <= ids && todo <= store.objects.Keys
        invariant store == old(store).(objects := old(store).objects - (ids - todo))
      {
        var id :| id in todo;
        assert id in store.objects;
        store := store.(objects := store.objects - {id});
        todo := todo - {id};
      }
    }

    method RestoreNextIds(nextIds: map<nat, nat>)
      requires nextIds.Keys <= store.nextIds.Keys
      modifies `store
      ensures store == old(store).(nextIds := old(store).nextIds + nextIds)
    {
      var todo := nextIds.Keys;
      while todo != {}
        invariant todo <= nextIds.Keys <= store.nextIds.Keys
        invariant store == old(store).(nextIds := old(store).nextIds + (nextIds - todo))
      {
        var i :| i in todo;
        assert i in store.nextIds;
        store := store.(nextIds := store.nextIds[i := nextIds[i]]);
        todo := todo - {i};
      }
    }

    method ReinsertRemoved(removed: map<ObjectId, Object>)
      requires removed.Keys !! store.objects.Keys
      modifies `store
      ensures store == old(store).(objects := old(store).objects + removed)
    {
      var todo := removed.Keys;
      while todo != {}
        invariant todo <= removed.Keys && todo !! store.objects.Keys
        invariant store == old(store).(objects := old(store).objects + (removed - todo))
      {
        var id :| id in todo;
        assert id !in store.objects;
        store := store.(objects := store.objects[id := removed[id]]);
        todo := todo - {id};
      }
    }

    /**
      The four loops of undo, written out a second time in pop_commit. Every lookup they make
      succeeds: what they overwrite or remove is there, what they insert is not.
     */
    method RevertObjects(u: UndoState, ghost before: Store)
      requires Records(u, before, store)
      modifies `store
      ensures store == before
    {
      ghost var s := store;
      RecordedKeys(u, before, s);
      RestoreOldValues(u.oldValues);
      RemoveNewObjects(u.newIds);
      RestoreNextIds(u.oldNextIds);
      ReinsertRemoved(u.removed);
      RevertIsExact(u, before, s);
    }

    static lemma RecordedKeys(u: UndoState, before: Store, after: Store)
      requires Records(u, before, after)
      ensures u.oldValues.Keys <= after.objects.Keys
      ensures u.newIds <= after.objects.Keys
      ensures u.oldNextIds.Keys <= after.nextIds.Keys
      ensures u.removed.Keys !! after.objects.Keys
    {
      forall id
        ensures id in u.oldValues || id in u.newIds ==> id in after.objects
        ensures id in u.removed ==> id !in after.objects
      {
        assert RecordsObject(u, before, after, id);
      }
    }

    method Undo() returns (ok: bool)
      requires Intact()
      modifies this
      ensures ok == (!old(disabled) && old(activeSessions) > 0)
      ensures !ok ==> unchanged(this)
      ensures ok ==> Some(Log()) == UndoHistory.Undo(old(Log()))
      ensures ok ==> store == old(Snapshots)[|old(Snapshots)| - 1]
      ensures ok ==> Intact() && Snapshots == old(Snapshots)[..|old(Snapshots)| - 1]
    {
      if disabled || activeSessions == 0 {
        return false;
      }
      ghost var before := Log();
      UndoRestoresSnapshot(before, Snapshots);
      Disable();
      var n := |stack| - 1;
      assert LeadsBack(before, Snapshots, n);
      RevertObjects(stack[n], Snapshots[n]);
      stack := stack[..n];
      Enable();
      activeSessions := activeSessions - 1;
      Snapshots := Snapshots[..n];
      return true;
    }

    method PopCommit() returns (ok: bool)
      requires Intact()
      modifies this
      ensures ok == (old(activeSessions) == 0 && old(stack) != [])
      ensures !ok ==> unchanged(this)
      ensures ok ==> Some(Log()) == UndoHistory.PopCommit(old(Log()))
      ensures ok ==> store == old(Snapshots)[|old(Snapshots)| - 1]
      ensures ok ==> Intact() && Snapshots == old(Snapshots)[..|old(Snapshots)| - 1]
    {
      if activeSessions != 0 || stack == [] {
        return false;
      }
      ghost var before := Log();
      PopCommitRestoresSnapshot(before, Snapshots);
      Disable();
      var n := |stack| - 1;
      assert LeadsBack(before, Snapshots, n);
      RevertObjects(stack[n], Snapshots[n]);
      stack := stack[..n];
      Enable();
      Snapshots := Snapshots[..n];
      return true;
    }

    method Commit() returns (ok: bool)
      modifies this
      ensures ok == (old(activeSessions) > 0)
      ensures !ok ==> unchanged(this)
      ensures ok ==> Some(Log()) == UndoHistory.Commit(old(Log())) && Snapshots == old(Snapshots)
      ensures old(Intact()) ==> Intact()
    {
      if activeSessions == 0 {
        return false;
      }
      ghost var before := Log();
      activeSessions := activeSessions - 1;
      if History(before, Snapshots) {
        CommitKeepsHistory(before, Snapshots);
      }
      return true;
    }

    // ----- merging --------------------------------------------------------------------

    /** The loop over B's old values. */
    static method MergeOldValues(a: UndoState, b: UndoState) returns (oldValues: map<ObjectId, Object>)
      ensures oldValues == MergedOldValues(a, b)
    {
      oldValues := a.oldValues;
      var todo := b.oldValues.Keys;
      while todo != {}
        invariant todo <= b.oldValues.Keys
        invariant oldValues == a.oldValues +
          map id | id in b.oldValues && id !in a.newIds && id !in a.oldValues && id !in todo :: b.oldValues[id]
      {
        var id :| id in todo;
        todo := todo - {id};
        if id in a.newIds {
          continue;
        }
        if id in oldValues {
          continue;
        }
        oldValues := oldValues[id := b.oldValues[id]];
      }
    }

    /** The loop over B's index next ids. */
    static method MergeNextIds(a: UndoState, b: UndoState) returns (nextIds: map<nat, nat>)
      ensures nextIds == b.oldNextIds + a.oldNextIds
    {
      nextIds := a.oldNextIds;
      var todo := b.oldNextIds.Keys;
      while todo != {}
        invariant todo <= b.oldNextIds.Keys
        invariant nextIds == (b.oldNextIds - todo) + a.oldNextIds
      {
        var i :| i in todo;
        todo := todo - {i};
        if i !in nextIds {
          nextIds := nextIds[i := b.oldNextIds[i]];
        }
      }
    }

    /** The loop over B's removed objects, once B's old and new ones are in `a`. */
    static method MergeRemoved(a: UndoState, gone: map<ObjectId, Object>) returns (r: UndoState)
      ensures r == UndoState(
        a.oldValues - (gone.Keys - a.newIds),
        a.oldNextIds,
        a.newIds - gone.Keys,
        a.removed + MovedToRemoved(a.newIds, a.oldValues, gone))
    {
      hide MovedToRemoved;
      var oldValues, newIds, removed := a.oldValues, a.newIds, a.removed;
      var todo := gone.Keys;
      MoveNone(a, gone);
      while todo != {}
        invariant todo <= gone.Keys
        invariant newIds == a.newIds - (gone.Keys - todo)
        invariant oldValues == a.oldValues - ((gone.Keys - todo) - a.newIds)
        invariant removed == a.removed + MovedToRemoved(a.newIds, a.oldValues, gone - todo)
      {
        var id :| id in todo;
        MoveOne(a, gone, todo, id);
        todo := todo - {id};
        if id in newIds {
          newIds := newIds - {id};
          continue;
        }
        if id in oldValues {
          removed := removed[id := oldValues[id]];
          oldValues := oldValues - {id};
          continue;
        }
        removed := removed[id := gone[id]];
      }
      assert gone - {} == gone;
      r := UndoState(oldValues, a.oldNextIds, newIds, removed);
    }

    static lemma MoveNone(a: UndoState, gone: map<ObjectId, Object>)
      ensures MovedToRemoved(a.newIds, a.oldValues, gone - gone.Keys) == map[]
    {}

    static lemma MoveOne(a: UndoState, gone: map<ObjectId, Object>, todo: set<ObjectId>, id: ObjectId)
      requires id in todo && todo <= gone.Keys
      ensures var moved := MovedToRemoved(a.newIds, a.oldValues, gone - todo);
        MovedToRemoved(a.newIds, a.oldValues, gone - (todo - {id})) ==
          if id in a.newIds then moved
          else moved[id := if id in a.oldValues then a.oldValues[id] else gone[id]]
    {}

    static method MergeInto(a: UndoState, b: UndoState) returns (m: UndoState)
      ensures m == MergeStates(a, b)
    {
      var oldValues := MergeOldValues(a, b);
      var nextIds := MergeNextIds(a, b);
      m := MergeRemoved(UndoState(oldValues, nextIds, a.newIds + b.newIds, a.removed), b.removed);
    }

    method MergeTop()
      requires 0 < activeSessions <= |stack|
      modifies this
      ensures Log() == UndoHistory.Merge(old(Log())).value
      ensures Snapshots == old(Snapshots)
    {
      var n := |stack|;
      if activeSessions == 1 && n == 1 {
        stack, activeSessions := stack[..0], 0;
        return;
      }
      var m := MergeInto(stack[n - 2], stack[n - 1]);
      stack := stack[n - 2 := m];
      stack := stack[..n - 1];
      activeSessions := activeSessions - 1;
    }

    method Merge() returns (ok: bool)
      requires Intact()
      modifies this
      ensures ok == (old(activeSessions) > 0)
      ensures !ok ==> unchanged(this)
      ensures ok ==> Some(Log()) == UndoHistory.Merge(old(Log())) && store == old(store)
      ensures ok ==> Intact() && Snapshots == old(Snapshots)[..|old(Snapshots)| - 1]
    {
      if activeSessions == 0 {
        return false;
      }
      MergeForgetsSnapshot(Log(), Snapshots);
      MergeTop();
      Snapshots := Snapshots[..|Snapshots| - 1];
      return true;
    }
  }
}

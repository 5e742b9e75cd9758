/**
  The revertible object store as values: what one undo state records, what reverting it
  and merging two of them mean, and the stack of undo states as a snapshot history.
  The class in UndoDatabase.dfy computes these functions step by step.
 */
module UndoLog {
  import opened Wrappers

  /** The payload of a stored object; nothing below depends on what it is. */
  type Object(==, !new)

  /** `index` stands for the (space, type) pair, `instance` for the number within it. */
  datatype ObjectId = ObjectId(index: nat, instance: nat)

  /** Every registered index has a next id; an unregistered one is absent. */
  datatype Store = Store(objects: map<ObjectId, Object>, nextIds: map<nat, nat>)

  datatype Change =
    | Create(index: nat, value: Object)
    | Modify(id: ObjectId, value: Object)
    | Remove(id: ObjectId)

  datatype UndoState = UndoState(
    oldValues: map<ObjectId, Object>,
    oldNextIds: map<nat, nat>,
    newIds: set<ObjectId>,
    removed: map<ObjectId, Object>)

  const EMPTY_STATE := UndoState(map[], map[], {}, map[])

  /** No object carries an id that its index has yet to hand out. */
  ghost predicate WellFormed(s: Store) {
    forall id <- s.objects :: id.index in s.nextIds && id.instance < s.nextIds[id.index]
  }

  /** False where the source throws: an unregistered index, or no object with that id. */
  predicate Applicable(s: Store, c: Change) {
    match c
    case Create(index, _) => index in s.nextIds
    case Modify(id, _) => id in s.objects
    case Remove(id) => id in s.objects
  }

  function Apply(s: Store, c: Change): Store
    requires Applicable(s, c)
  {
    match c
    case Create(index, value) =>
      var next := s.nextIds[index];
      Store(s.objects[ObjectId(index, next) := value], s.nextIds[index := next + 1])
    case Modify(id, value) => s.(objects := s.objects[id := value])
    case Remove(id) => s.(objects := s.objects - {id})
  }

  function NoteCreated(u: UndoState, id: ObjectId): UndoState {
    u.(oldNextIds := if id.index in u.oldNextIds then u.oldNextIds else u.oldNextIds[id.index := id.instance],
       newIds := u.newIds + {id})
  }

  /** What the top undo state notes about a change to the store `s`. */
  function Note(u: UndoState, s: Store, c: Change): UndoState
    requires Applicable(s, c)
  {
    match c
    case Create(index, _) =>
      NoteCreated(u, ObjectId(index, s.nextIds[index]))
    case Modify(id, _) =>
      if id in u.newIds || id in u.oldValues then u
      else u.(oldValues := u.oldValues[id := s.objects[id]])
    case Remove(id) =>
      if id in u.newIds then u.(newIds := u.newIds - {id})
      else if id in u.oldValues then
        u.(removed := u.removed[id := u.oldValues[id]], oldValues := u.oldValues - {id})
      else if id in u.removed then u
      else u.(removed := u.removed[id := s.objects[id]])
  }

  function Revert(s: Store, u: UndoState): Store {
    Store((s.objects + u.oldValues) - u.newIds + u.removed, s.nextIds + u.oldNextIds)
  }

  // ----- what a state records ---------------------------------------------------------

  ghost predicate SameAt(s: Store, t: Store, id: ObjectId) {
    && (id in s.objects <==> id in t.objects)
    && (id in s.objects ==> s.objects[id] == t.objects[id])
  }

  /** What `u` says about one object agrees with its fate between the two stores. */
  ghost predicate RecordsObject(u: UndoState, before: Store, after: Store, id: ObjectId) {
    && (id in u.newIds ==>
          && id in after.objects
          && id.index in before.nextIds
          && before.nextIds[id.index] <= id.instance)
    && (id in u.oldValues ==>
          && id in after.objects
          && id in before.objects
          && u.oldValues[id] == before.objects[id])
    && (id in u.removed ==>
          && id !in after.objects
          && id in before.objects
          && u.removed[id] == before.objects[id])
    && (id !in u.newIds && id !in u.oldValues && id !in u.removed ==> SameAt(before, after, id))
  }

  ghost predicate RecordsNextIds(u: UndoState, before: Store, after: Store) {
    && before.nextIds.Keys == after.nextIds.Keys
    && (forall i <- before.nextIds :: before.nextIds[i] <= after.nextIds[i])
    && (forall i <- u.oldNextIds :: i in before.nextIds && u.oldNextIds[i] == before.nextIds[i])
    && (forall i <- before.nextIds :: i !in u.oldNextIds ==> before.nextIds[i] == after.nextIds[i])
  }

  /** `u` is exactly the difference between the stores `before` and `after`. */
  ghost predicate Records(u: UndoState, before: Store, after: Store) {
    && WellFormed(before) && WellFormed(after)
    && (forall id :: RecordsObject(u, before, after, id))
    && RecordsNextIds(u, before, after)
  }

  lemma EmptyRecordsNothing(s: Store)
    requires WellFormed(s)
    ensures Records(EMPTY_STATE, s, s)
  {}

  lemma NoteKeepsRecords(u: UndoState, before: Store, s: Store, c: Change)
    requires Records(u, before, s) && Applicable(s, c)
    ensures Records(Note(u, s, c), before, Apply(s, c))
  {
    forall id
      ensures RecordsObject(Note(u, s, c), before, Apply(s, c), id)
    {
      NoteKeepsRecordsObject(u, before, s, c, id);
    }
  }

  lemma NoteKeepsRecordsObject(u: UndoState, before: Store, s: Store, c: Change, id: ObjectId)
    requires Records(u, before, s) && Applicable(s, c)
    ensures RecordsObject(Note(u, s, c), before, Apply(s, c), id)
  {
    assert RecordsObject(u, before, s, id);
  }

  lemma RevertIsExact(u: UndoState, before: Store, after: Store)
    requires Records(u, before, after)
    ensures Revert(after, u) == before
  {
    var r := Revert(after, u);
    forall id
      ensures id in r.objects <==> id in before.objects
      ensures id in r.objects ==> r.objects[id] == before.objects[id]
    {
      assert RecordsObject(u, before, after, id);
    }
    assert r.objects == before.objects;
    assert r.nextIds == before.nextIds;
  }

  // ----- merging two adjacent states --------------------------------------------------

  /** The loop over B's old values leaves these in A. */
  function MergedOldValues(a: UndoState, b: UndoState): map<ObjectId, Object> {
    a.oldValues + (map id | id in b.oldValues && id !in a.newIds && id !in a.oldValues :: b.oldValues[id])
  }

  /** What the loop over B's removed objects `gone` puts into A's `removed`. */
  function MovedToRemoved(newIds: set<ObjectId>, oldValues: map<ObjectId, Object>, gone: map<ObjectId, Object>)
    : map<ObjectId, Object>
  {
    map id | id in gone && id !in newIds :: if id in oldValues then oldValues[id] else gone[id]
  }

  function MergeStates(a: UndoState, b: UndoState): UndoState {
    var newIds, oldValues := a.newIds + b.newIds, MergedOldValues(a, b);
    UndoState(
      oldValues - (b.removed.Keys - newIds),
      b.oldNextIds + a.oldNextIds,
      newIds - b.removed.Keys,
      a.removed + MovedToRemoved(newIds, oldValues, b.removed))
  }

  /** An object's relationship to a state: the row and column labels of the merge table. */
  datatype Relation = New | Upd(was: Object) | Del(was: Object) | Nop

  ghost function RelationTo(u: UndoState, id: ObjectId): Relation {
    if id in u.newIds then New
    else if id in u.oldValues then Upd(u.oldValues[id])
    else if id in u.removed then Del(u.removed[id])
    else Nop
  }

  /** The 4x4 table; None is an N/A cell. */
  ghost function MergeTable(a: Relation, b: Relation): Option<Relation> {
    match (a, b)
    case (_, Nop) => Some(a)
    case (Nop, _) => Some(b)
    case (_, New) => None
    case (Del(_), _) => None
    case (New, Upd(_)) => Some(New)
    case (New, Del(_)) => Some(Nop)
    case (Upd(was), Upd(_)) => Some(Upd(was))
    case (Upd(was), Del(_)) => Some(Del(was))
  }

  /** Every cell of the table is what the code computes, and the N/A cells never occur. */
  lemma MergeFollowsTable(a: UndoState, b: UndoState, s0: Store, s1: Store, s2: Store, id: ObjectId)
    requires Records(a, s0, s1) && Records(b, s1, s2)
    ensures MergeTable(RelationTo(a, id), RelationTo(b, id)) == Some(RelationTo(MergeStates(a, b), id))
    ensures RecordsObject(MergeStates(a, b), s0, s2, id)
  {
    assert RecordsObject(a, s0, s1, id);
    assert RecordsObject(b, s1, s2, id);
  }

  lemma MergeRecordsBoth(a: UndoState, b: UndoState, s0: Store, s1: Store, s2: Store)
    requires Records(a, s0, s1) && Records(b, s1, s2)
    ensures Records(MergeStates(a, b), s0, s2)
  {
    forall id
      ensures RecordsObject(MergeStates(a, b), s0, s2, id)
    {
      MergeFollowsTable(a, b, s0, s1, s2, id);
    }
  }

  /** Undoing the merged state equals undoing B and then A. */
  lemma MergeComposes(a: UndoState, b: UndoState, s0: Store, s1: Store, s2: Store)
    requires Records(a, s0, s1) && Records(b, s1, s2)
    ensures Revert(s2, MergeStates(a, b)) == Revert(Revert(s2, b), a) == s0
  {
    MergeRecordsBoth(a, b, s0, s1, s2);
    RevertIsExact(MergeStates(a, b), s0, s2);
    RevertIsExact(b, s1, s2);
    RevertIsExact(a, s0, s1);
  }
}

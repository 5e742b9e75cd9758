/**
  Whole runs of the undo database. Two results: any interleaving of its operations behaves
  like a machine that keeps full copies of the store, and work done under a session, however
  it nests further sessions, has exactly the effect of the same work on plain stores.
 */
module UndoRuns {
  import opened Commons
  import opened UndoLog
  import opened UndoHistory

  // ----- every interleaving -----------------------------------------------------------

  datatype Action =
    | StartSession
    | Change(change: UndoLog.Change)
    | UndoSession
    | MergeSession
    | CommitSession
    | PopCommitted
    | SetMaxSize(size: nat)

  /** The same operations on full copies: no undo states at all. */
  datatype CopyMachine = CopyMachine(store: Store, copies: seq<Store>, active: nat, maxSize: nat)

  function CopyStep(m: CopyMachine, a: Action): CopyMachine
    requires m.active <= |m.copies|
  {
    var n := |m.copies|;
    match a
    case StartSession => m.(copies := Last(m.copies, m.maxSize) + [m.store], active := m.active + 1)
    case Change(c) =>
      if Applicable(m.store, c) then
        m.(store := Apply(m.store, c), copies := if m.copies == [] then [m.store] else m.copies)
      else m
    case UndoSession =>
      if m.active == 0 then m
      else m.(store := m.copies[n - 1], copies := m.copies[..n - 1], active := m.active - 1)
    case MergeSession =>
      if m.active == 0 then m else m.(copies := m.copies[..n - 1], active := m.active - 1)
    case CommitSession => if m.active == 0 then m else m.(active := m.active - 1)
    case PopCommitted =>
      if m.active != 0 || m.copies == [] then m
      else m.(store := m.copies[n - 1], copies := m.copies[..n - 1])
    case SetMaxSize(size) => m.(maxSize := size)
  }

  /** A refused operation (a throw) changes nothing. */
  function LogStep(l: Log, a: Action): Log
    requires l.active <= |l.stack|
  {
    match a
    case StartSession => Start(l, false)
    case Change(c) => if Applicable(l.store, c) then Record(l, c) else l
    case UndoSession => if Undo(l).Some? then Undo(l).value else l
    case MergeSession => if Merge(l).Some? then Merge(l).value else l
    case CommitSession => if Commit(l).Some? then Commit(l).value else l
    case PopCommitted => if PopCommit(l).Some? then PopCommit(l).value else l
    case SetMaxSize(size) => l.(maxSize := size)
  }

  ghost predicate Refines(l: Log, m: CopyMachine) {
    && !l.disabled && l.store == m.store && l.active == m.active && l.maxSize == m.maxSize
    && History(l, m.copies)
  }

  /** No session is started while more sessions are open than undo states are kept. */
  predicate Safe(m: CopyMachine, a: Action) {
    a == StartSession ==> m.active <= m.maxSize
  }

  lemma StartRefines(l: Log, m: CopyMachine)
    requires Refines(l, m) && m.active <= m.maxSize
    ensures Refines(LogStep(l, StartSession), CopyStep(m, StartSession))
  {
    StartKeepsHistory(l, m.copies, false);
  }

  lemma UndoRefines(l: Log, m: CopyMachine)
    requires Refines(l, m)
    ensures Refines(LogStep(l, UndoSession), CopyStep(m, UndoSession))
  {
    if l.active > 0 {
      UndoRestoresSnapshot(l, m.copies);
    }
  }

  lemma MergeRefines(l: Log, m: CopyMachine)
    requires Refines(l, m)
    ensures Refines(LogStep(l, MergeSession), CopyStep(m, MergeSession))
  {
    if l.active > 0 {
      MergeForgetsSnapshot(l, m.copies);
    }
  }

  lemma PopRefines(l: Log, m: CopyMachine)
    requires Refines(l, m)
    ensures Refines(LogStep(l, PopCommitted), CopyStep(m, PopCommitted))
  {
    if l.active == 0 && l.stack != [] {
      PopCommitRestoresSnapshot(l, m.copies);
    }
  }

  lemma StepRefines(l: Log, m: CopyMachine, a: Action)
    requires Refines(l, m) && Safe(m, a)
    ensures Refines(LogStep(l, a), CopyStep(m, a))
  {
    match a
    case StartSession => StartRefines(l, m);
    case Change(c) =>
      if Applicable(l.store, c) {
        RecordKeepsHistory(l, m.copies, c);
      }
    case UndoSession => UndoRefines(l, m);
    case MergeSession => MergeRefines(l, m);
    case CommitSession =>
      if l.active > 0 {
        CommitKeepsHistory(l, m.copies);
      }
    case PopCommitted => PopRefines(l, m);
    case SetMaxSize(size) => ResizeKeepsHistory(l, m.copies, size);
  }

  /** A run during which every step was safe. */
  ghost predicate SafeRun(m: CopyMachine, actions: seq<Action>)
    decreases actions
  {
    actions == [] ||
    (m.active <= |m.copies| && Safe(m, actions[0]) && SafeRun(CopyStep(m, actions[0]), actions[1..]))
  }

  ghost function CopyRun(m: CopyMachine, actions: seq<Action>): CopyMachine
    requires SafeRun(m, actions)
    decreases actions
  {
    if actions == [] then m else CopyRun(CopyStep(m, actions[0]), actions[1..])
  }

  ghost predicate LogSane(l: Log, actions: seq<Action>)
    decreases actions
  {
    actions == [] || (l.active <= |l.stack| && LogSane(LogStep(l, actions[0]), actions[1..]))
  }

  ghost function LogRun(l: Log, actions: seq<Action>): Log
    requires LogSane(l, actions)
    decreases actions
  {
    if actions == [] then l else LogRun(LogStep(l, actions[0]), actions[1..])
  }

  /** The diff stack behaves like the stack of copies over every safe run. */
  lemma {:induction false} RunRefines(l: Log, m: CopyMachine, actions: seq<Action>)
    requires Refines(l, m) && SafeRun(m, actions)
    ensures LogSane(l, actions) && Refines(LogRun(l, actions), CopyRun(m, actions))
    decreases actions
  {
    if actions == [] {
    } else {
      StepRefines(l, m, actions[0]);
      RunRefines(LogStep(l, actions[0]), CopyStep(m, actions[0]), actions[1..]);
    }
  }

  // ----- work under a session -----------------------------------------------------------

  /**
    What applying a block or a transaction does to the store: edits, nested attempts that
    are caught when they throw (a proposal executed by a block), or a throw of its own.
   */
  datatype Work = Edit(change: UndoLog.Change) | Attempt(body: seq<Work>) | Throw

  datatype Outcome = Outcome(store: Store, ok: bool)

  /** The meaning of the work on plain stores: a failed attempt did not happen. */
  function Exec(s: Store, works: seq<Work>): Outcome
    decreases works
  {
    if works == [] then Outcome(s, true)
    else
      match works[0]
      case Throw => Outcome(s, false)
      case Edit(c) => if Applicable(s, c) then Exec(Apply(s, c), works[1..]) else Outcome(s, false)
      case Attempt(body) =>
        var inner := Exec(s, body);
        Exec(if inner.ok then inner.store else s, works[1..])
  }

  /** How many sessions the work opens inside one another. */
  function Depth(works: seq<Work>): nat
    decreases works
  {
    if works == [] then 0
    else
      var rest := Depth(works[1..]);
      var first := if works[0].Attempt? then Depth(works[0].body) + 1 else 0;
      if first > rest then first else rest
  }

  /**
    How many states are stacked after the work, when `n` were before: a nested session drops
    the oldest ones over the maximum size, and its own goes when it closes.
   */
  function Stacked(s: Store, works: seq<Work>, n: nat, maxSize: nat): (r: nat)
    ensures r <= n
    decreases works
  {
    if works == [] then n
    else
      match works[0]
      case Throw => n
      case Edit(c) => if Applicable(s, c) then Stacked(Apply(s, c), works[1..], n, maxSize) else n
      case Attempt(body) =>
        var inner, m := Exec(s, body), Stacked(s, body, Min(n, maxSize) + 1, maxSize);
        Stacked(if inner.ok then inner.store else s, works[1..], if m > 0 then m - 1 else 0, maxSize)
  }

  /** The newest states are kept as far as the maximum size leaves room below the nested sessions. */
  lemma {:induction false} NewestStayStacked(s: Store, works: seq<Work>, n: nat, maxSize: nat, j: nat)
    requires j + Depth(works) <= maxSize + 1
    ensures Stacked(s, works, n, maxSize) >= Min(n, j)
    decreases works
  {
    if works != [] {
      match works[0]
      case Throw =>
      case Edit(c) =>
        if Applicable(s, c) {
          NewestStayStacked(Apply(s, c), works[1..], n, maxSize, j);
        }
      case Attempt(body) =>
        NewestStayStacked(s, body, Min(n, maxSize) + 1, maxSize, j + 1);
        var inner, m := Exec(s, body), Stacked(s, body, Min(n, maxSize) + 1, maxSize);
        NewestStayStacked(if inner.ok then inner.store else s, works[1..], m - 1, maxSize, j);
    }
  }

  predicate Roomy(l: Log, works: seq<Work>) {
    && !l.disabled && 0 < l.active <= |l.stack|
    && l.active + Depth(works) <= l.maxSize + 1
  }

  /** The same work through the undo database; the flag is false when it threw. */
  function RunWork(l: Log, works: seq<Work>): (r: (Log, bool))
    requires Roomy(l, works)
    ensures r.0.active == l.active <= |r.0.stack|
    ensures !r.0.disabled && r.0.maxSize == l.maxSize
    decreases works, 0
  {
    if works == [] then (l, true)
    else
      match works[0]
      case Throw => (l, false)
      case Edit(c) => if Applicable(l.store, c) then RunWork(Record(l, c), works[1..]) else (l, false)
      case Attempt(body) =>
        RunWork(AfterAttempt(l, body), works[1..])
  }

  ghost predicate IsSuffix<T(!new)>(s: seq<T>, t: seq<T>) {
    |s| <= |t| && s == t[|t| - |s|..]
  }

  /** A nested session: merged when its body completes, undone when it throws. */
  function AfterAttempt(l: Log, body: seq<Work>): (r: Log)
    requires Roomy(l, [Attempt(body)])
    ensures r.active == l.active <= |r.stack| && !r.disabled && r.maxSize == l.maxSize
    decreases body, 1
  {
    var (inner, ok) := RunWork(Start(l, true), body);
    Closed(inner, ok)
  }

  function Closed(l: Log, ok: bool): Log
    requires !l.disabled && 0 < l.active <= |l.stack|
  {
    if ok then Merge(l).value else Undo(l).value
  }

  /** Closing a nested session, either way, brings back the snapshots from before its start. */
  lemma CloseSession(l: Log, snaps: seq<Store>, l2: Log, inner: seq<Store>, ok: bool)
    requires History(l, snaps)
    requires !l2.disabled && l2.active == l.active + 1 && History(l2, inner)
    requires Open(l2, inner) == Open(l, snaps) + [l.store]
    requires IsSuffix(inner, Last(snaps, l.maxSize) + [l.store])
    ensures inner != []
    ensures var l3 := Closed(l2, ok); var kept := inner[..|inner| - 1];
      && History(l3, kept) && Open(l3, kept) == Open(l, snaps) && IsSuffix(kept, snaps)
      && l3.store == (if ok then l2.store else l.store)
  {
    var kept := inner[..|inner| - 1];
    if ok {
      MergeForgetsSnapshot(l2, inner);
    } else {
      UndoRestoresSnapshot(l2, inner);
    }
    SameInit(Open(Closed(l2, ok), kept), inner[|inner| - 1], Open(l, snaps), l.store);
    SuffixInit(inner, Last(snaps, l.maxSize), l.store);
    SuffixTrans(kept, Last(snaps, l.maxSize), snaps);
  }

  lemma SameInit<T>(s: seq<T>, x: T, t: seq<T>, y: T)
    requires s + [x] == t + [y]
    ensures s == t && x == y
  {
    assert s == (s + [x])[..|s + [x]| - 1] == (t + [y])[..|t + [y]| - 1] == t;
    assert (s + [x])[|s|] == (t + [y])[|t|];
  }

  lemma SuffixInit<T(!new)>(s: seq<T>, t: seq<T>, x: T)
    requires s != [] && IsSuffix(s, t + [x])
    ensures IsSuffix(s[..|s| - 1], t)
  {}

  lemma SuffixTrans<T(!new)>(s: seq<T>, t: seq<T>, u: seq<T>)
    requires IsSuffix(s, t) && IsSuffix(t, u)
    ensures IsSuffix(s, u)
  {}

  /**
    The store and the flag are those of plain execution. The open snapshots are untouched;
    committed ones are lost at the old end, as many as the nested sessions drop.
   */
  ghost predicate Simulates(l: Log, snaps: seq<Store>, works: seq<Work>, r: (Log, bool), snaps': seq<Store>)
    requires l.active <= |snaps|
  {
    && Outcome(r.0.store, r.1) == Exec(l.store, works)
    && History(r.0, snaps') && r.0.active == l.active
    && Open(r.0, snaps') == Open(l, snaps)
    && IsSuffix(snaps', snaps) && |snaps'| == Stacked(l.store, works, |snaps|, l.maxSize)
  }

  /** Work through the undo database does to the store exactly what it does to a plain store. */
  lemma {:induction false} RunWorkRefinesExec(l: Log, snaps: seq<Store>, works: seq<Work>)
    returns (snaps': seq<Store>)
    requires Roomy(l, works) && History(l, snaps)
    ensures Simulates(l, snaps, works, RunWork(l, works), snaps')
    decreases works, 2
  {
    snaps' := snaps;
    if works != [] {
      match works[0]
      case Throw =>
      case Edit(c) =>
        if Applicable(l.store, c) {
          snaps' := RunEditRefinesExec(l, snaps, works);
        }
      case Attempt(body) => snaps' := RunAttemptRefinesExec(l, snaps, works);
    }
  }

  lemma {:induction false} RunEditRefinesExec(l: Log, snaps: seq<Store>, works: seq<Work>)
    returns (snaps': seq<Store>)
    requires Roomy(l, works) && History(l, snaps)
    requires works != [] && works[0].Edit? && Applicable(l.store, works[0].change)
    ensures Simulates(l, snaps, works, RunWork(l, works), snaps')
    decreases works, 0
  {
    RecordKeepsHistory(l, snaps, works[0].change);
    snaps' := RunWorkRefinesExec(Record(l, works[0].change), snaps, works[1..]);
  }

  lemma AttemptUnfolds(l: Log, works: seq<Work>, n: nat)
    requires Roomy(l, works) && works != [] && works[0].Attempt?
    ensures var body, rest := works[0].body, works[1..];
      && Roomy(l, [Attempt(body)]) && Roomy(AfterAttempt(l, body), rest)
      && RunWork(l, works) == RunWork(AfterAttempt(l, body), rest)
      && var inner, m := Exec(l.store, body), Stacked(l.store, body, Min(n, l.maxSize) + 1, l.maxSize);
      && Exec(l.store, works) == Exec(if inner.ok then inner.store else l.store, rest)
      && Stacked(l.store, works, n, l.maxSize) ==
         Stacked(if inner.ok then inner.store else l.store, rest, if m > 0 then m - 1 else 0, l.maxSize)
  {
    assert Depth([Attempt(works[0].body)]) == Depth(works[0].body) + 1;
  }

  lemma {:induction false} RunAttemptRefinesExec(l: Log, snaps: seq<Store>, works: seq<Work>)
    returns (snaps': seq<Store>)
    requires Roomy(l, works) && History(l, snaps)
    requires works != [] && works[0].Attempt?
    ensures Simulates(l, snaps, works, RunWork(l, works), snaps')
    decreases works, 0
  {
    hide LeadsBack, History, RunWork, Exec, Stacked, Roomy, AfterAttempt;
    var body := works[0].body;
    AttemptUnfolds(l, works, |snaps|);
    var kept := AttemptRefinesExec(l, snaps, body);
    snaps' := RunWorkRefinesExec(AfterAttempt(l, body), kept, works[1..]);
    SuffixTrans(snaps', kept, snaps);
  }

  /** A nested session as a whole. */
  lemma {:induction false} AttemptRefinesExec(l: Log, snaps: seq<Store>, body: seq<Work>)
    returns (kept: seq<Store>)
    requires Roomy(l, [Attempt(body)]) && History(l, snaps)
    ensures var l', inner := AfterAttempt(l, body), Exec(l.store, body);
      && l'.store == (if inner.ok then inner.store else l.store)
      && History(l', kept) && l.active <= |kept| && l.active <= |snaps| && Open(l', kept) == Open(l, snaps)
      && IsSuffix(kept, snaps)
      && |kept| + 1 == Stacked(l.store, body, Min(|snaps|, l.maxSize) + 1, l.maxSize)
    decreases body, 3
  {
    hide LeadsBack;
    var started := SnapsAfterStart(l, snaps, true);
    StartKeepsHistory(l, snaps, true);
    var inner := RunWorkRefinesExec(Start(l, true), started, body);
    CloseSession(l, snaps, RunWork(Start(l, true), body).0, inner, RunWork(Start(l, true), body).1);
    kept := inner[..|inner| - 1];
  }
}

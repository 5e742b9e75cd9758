/**
  Three blocks after which a node is stuck between two forks: its first block, and a fork of
  two from the start, the second of which throws. The way back would rewind the fork head
  past block 1, which has no parent.
 */
module StuckForks {
  import opened UndoLog
  import opened UndoRuns
  import opened ForkDatabases
  import opened ChainSpecs
  import opened Databases

  function Old(p: Payload): Block {
    Block(Zero, p)
  }

  function New(q: Payload): Block {
    Block(Zero, q)
  }

  function Bad(p: Payload, q: Payload): Block {
    Block(New(q).Id(), p)
  }

  function Count(s: Store): nat {
    if 0 in s.nextIds then s.nextIds[0] else 0
  }

  /** The number of objects tells which block is the head; the third block always throws. */
  function Small(p: Payload, q: Payload, x: Object): Ledger {
    var create := Edit(Create(0, x));
    Ledger(
      (s: Store) => if Count(s) == 1 then Old(p).Id() else if Count(s) == 2 then New(q).Id() else Zero,
      (s: Store, b: Block) =>
        Plan(if Count(s) == 0 && b == Old(p) then [create]
             else if Count(s) == 0 && b == New(q) then [create, create]
             else [Throw], 10),
      (s: Store, tx: Payload) => [])
  }

  lemma SmallIsWellBehaved(p: Payload, q: Payload, x: Object)
    requires p != q
    ensures WellBehaved(Small(p, q, x))
  {
    var c := Small(p, q, x);
    forall s, b | Result(c, s, b).ok
      ensures c.head(s) == b.previous && c.head(Result(c, s, b).store) == b.Id()
    {
      OnlyTwoApply(p, q, x, s, b);
    }
  }

  /** Creating objects adds to their number, wherever objects can be created. */
  lemma Creating(s: Store, x: Object)
    ensures Exec(s, [Edit(Create(0, x))]).ok <==> 0 in s.nextIds
    ensures Exec(s, [Edit(Create(0, x)), Edit(Create(0, x))]).ok <==> 0 in s.nextIds
    ensures 0 in s.nextIds ==> Count(Exec(s, [Edit(Create(0, x))]).store) == Count(s) + 1
    ensures 0 in s.nextIds ==> Count(Exec(s, [Edit(Create(0, x)), Edit(Create(0, x))]).store) == Count(s) + 2
  {
    var create := Edit(Create(0, x));
    assert [create][1..] == [] && [create, create][1..] == [create];
    if 0 in s.nextIds {
      assert Exec(s, [create]) == Exec(Apply(s, Create(0, x)), []);
      assert Exec(s, [create, create]) == Exec(Apply(s, Create(0, x)), [create]);
      assert Exec(Apply(s, Create(0, x)), [create]) == Exec(Apply(Apply(s, Create(0, x)), Create(0, x)), []);
    }
  }

  lemma OnlyTwoApply(p: Payload, q: Payload, x: Object, s: Store, b: Block)
    requires p != q && Result(Small(p, q, x), s, b).ok
    ensures Count(s) == 0 && (b == Old(p) || b == New(q))
    ensures Count(Result(Small(p, q, x), s, b).store) == if b == Old(p) then 1 else 2
  {
    Creating(s, x);
  }

  lemma TheyApply(p: Payload, q: Payload, x: Object, s: Store)
    requires p != q && 0 in s.nextIds && s.nextIds[0] == 0
    ensures Result(Small(p, q, x), s, Old(p)).ok
    ensures Result(Small(p, q, x), s, New(q)).ok
  {
    Creating(s, x);
  }

  /** On the store without blocks the first block of the new branch applies, and the second throws. */
  lemma OneIsGood(p: Payload, q: Payload, x: Object, s: Store)
    requires p != q && 0 in s.nextIds && s.nextIds[0] == 0
    ensures Applying(Small(p, q, x), s, [New(q), Bad(p, q)]) == 1
  {
    TheyApply(p, q, x, s);
    var s' := Result(Small(p, q, x), s, New(q)).store;
    OnlyTwoApply(p, q, x, s, New(q));
    assert !Result(Small(p, q, x), s', Bad(p, q)).ok;
    assert [New(q), Bad(p, q)][1..] == [Bad(p, q)];
  }

  /** None of the blocks nests a session. */
  lemma {:induction false} NothingNests(p: Payload, q: Payload, x: Object, s: Store, blocks: seq<Block>)
    ensures forall b :: Fits(Small(p, q, x).applyBlock(s, b))
    ensures FitsAll(Small(p, q, x), s, blocks)
    decreases blocks
  {
    var create := Edit(Create(0, x));
    assert [create][1..] == [] && [create, create][1..] == [create] && [Throw][1..] == [];
    forall b
      ensures Fits(Small(p, q, x).applyBlock(s, b))
    {
      assert Depth([create]) == 0 && Depth([create, create]) == 0 && Depth([Throw]) == 0;
    }
    if blocks != [] && Result(Small(p, q, x), s, blocks[0]).ok {
      NothingNests(p, q, x, Result(Small(p, q, x), s, blocks[0]).store, blocks[1..]);
    }
  }

  lemma AnyPushFits(d: Database, p: Payload, q: Payload, x: Object, b: Block)
    requires d.ledger == Small(p, q, x)
    ensures d.FitsPush(b)
  {
    hide FitsAll, Database.IsRoute;
    NothingNests(p, q, x, d.undo.store, []);
    forall n: nat, blocks | n < |d.Stores| && Database.IsRoute(d.ledger, d.Stores[n], d.forks.index, b, blocks)
      ensures FitsAll(d.ledger, d.Stores[n], blocks)
    {
      NothingNests(p, q, x, d.Stores[n], blocks);
    }
  }

  const START := Store(map[], map[0 := 0])

  lemma OneEdit(s: Store, change: UndoLog.Change, n: nat, maxSize: nat)
    ensures Stacked(s, [Edit(change)], n, maxSize) == n
  {
    assert [Edit(change)][1..] == [];
  }

  /** The first block extends the empty chain. */
  lemma FirstExtends(
      p: Payload, q: Payload, x: Object, v: View, w: View, a: ForkItem, r: PushOutcome, placed: Placement)
    requires p != q && v.tip == Tip(START, 0, 256)
    requires ForkDatabase.Filed(map[], null, 1024, v.index, v.head, Old(p), a)
    requires Database.Decided(Small(p, q, x), v, Old(p), r, placed)
    requires Database.Ends(Small(p, q, x), v, Old(p), r, placed, w)
    ensures r == Extended && a.data == Old(p) && a.prev == null
    ensures w.head == a && w.index == map[Old(p).Id() := a]
    ensures w.tip.states == 1 && w.tip.maxSize == 10 && Count(w.tip.store) == 1
  {
    hide Exec;
    var c := Small(p, q, x);
    var plan := c.applyBlock(START, Old(p));
    TheyApply(p, q, x, START);
    OnlyTwoApply(p, q, x, START, Old(p));
    OneEdit(START, Create(0, x), 1, 10);
  }

  /** The second waits next to it. */
  lemma SecondWaits(
      p: Payload, q: Payload, x: Object, v: View, a: ForkItem, b: ForkItem, r: PushOutcome, placed: Placement)
    requires p != q && Count(v.tip.store) == 1 && a.data == Old(p)
    requires ForkDatabase.Filed(map[Old(p).Id() := a], a, 10, v.index, v.head, New(q), b)
    requires Database.Decided(Small(p, q, x), v, New(q), r, placed)
    ensures r == Waiting && b.data == New(q) && b.prev == null
    ensures v.head == a && v.index == map[Old(p).Id() := a, New(q).Id() := b]
  {}

  /** The third, on top of the second, asks for a switch that can neither succeed nor be undone. */
  lemma ThirdIsStuck(p: Payload, q: Payload, x: Object, v: View,
      a: ForkItem, b: ForkItem, c: ForkItem, r: PushOutcome, placed: Placement)
    requires p != q && Count(v.tip.store) == 1 && v.tip.states == 1
    requires |v.stores| == 2 && v.stores[0] == START
    requires a.data == Old(p) && a.prev == null && b.data == New(q) && b.prev == null
    requires ForkDatabase.Filed(map[Old(p).Id() := a, New(q).Id() := b], a, 10, v.index, v.head, Bad(p, q), c)
    requires Database.Decided(Small(p, q, x), v, Bad(p, q), r, placed)
    requires r == Refused ==>
      forall p', q' :: !ForkDatabase.MeetsIn(v.index, v.head, v.head.Id(), Old(p).Id(), p', q')
    ensures r == Forked(Stuck)
  {
    hide Applying, AfterAll, HighestFloor;
    TheyMeet(v, p, q, a, b, c);
    assert placed.SwitchTo?;
    OnlyTheseMeet(v, p, q, a, b, c, placed.first, placed.second);
    assert Blocks([c, b]) == [New(q), Bad(p, q)];
    OneIsGood(p, q, x, START);
  }

  ghost predicate Fork(v: View, p: Payload, q: Payload, a: ForkItem, b: ForkItem, c: ForkItem) {
    && a.data == Old(p) && a.prev == null && b.data == New(q) && b.prev == null
    && c.data == Bad(p, q) && c.prev == b && v.head == c
    && v.index == map[Old(p).Id() := a, New(q).Id() := b, Bad(p, q).Id() := c]
  }

  lemma TheyMeet(v: View, p: Payload, q: Payload, a: ForkItem, b: ForkItem, c: ForkItem)
    requires p != q && Fork(v, p, q, a, b, c)
    ensures ForkDatabase.MeetsIn(v.index, v.head, c.Id(), a.Id(), [c, b], [a])
  {
    assert ForkDatabase.ParentIn(v.index, v.head, c) == b;
  }

  lemma LinksOn(v: View, branch: Branch, i: nat)
    requires ForkDatabase.LinkedIn(v.index, v.head, branch)
    ensures i + 1 < |branch| ==> ForkDatabase.ParentIn(v.index, v.head, branch[i]) == branch[i + 1]
  {}

  lemma OnlyTheseMeet(
      v: View, p: Payload, q: Payload, a: ForkItem, b: ForkItem, c: ForkItem, first: Branch, second: Branch)
    requires p != q && Fork(v, p, q, a, b, c) && ForkDatabase.MeetsIn(v.index, v.head, c.Id(), a.Id(), first, second)
    ensures first == [c, b] && second == [a]
  {
    LinksOn(v, first, 0);
    LinksOn(v, first, 1);
    LinksOn(v, second, 0);
  }

  /** A node with this many stores and these items in its fork database. */
  ghost predicate Reached(d: Database, p: Payload, q: Payload, x: Object, stores: nat, v: View)
    reads d, d.undo, d.forks
  {
    && d.Valid() && !d.pendingSession && d.ledger == Small(p, q, x)
    && v == d.Sight() && |d.Stores| == stores && d.Stores[0] == START
  }

  method PushFirst(d: Database, p: Payload, q: Payload, x: Object) returns (r: PushOutcome, ghost a: ForkItem)
    requires p != q && Reached(d, p, q, x, 1, View(map[], null, [START], Tip(START, 0, 256))) && d.forks.maxSize == 1024
    modifies d, d.undo, d.forks
    ensures r == Extended && Reached(d, p, q, x, 2, d.Sight()) && d.forks.maxSize == 10
    ensures a.data == Old(p) && a.prev == null && d.forks.head == a && d.forks.index == map[Old(p).Id() := a]
    ensures |d.undo.Snapshots| == 1 && Count(d.undo.store) == 1
  {
    hide Database.Valid, Database.FitsPush, Database.Decided, Database.Ends, ForkDatabase.Filed, Small;
    AnyPushFits(d, p, q, x, Old(p));
    var placed;
    ghost var v;
    r, placed, v := d.PushBlock(Old(p), 0);
    a :| ForkDatabase.Filed(map[], null, 1024, v.index, v.head, Old(p), a);
    FirstExtends(p, q, x, v, d.Sight(), a, r, placed);
  }

  method PushSecond(d: Database, p: Payload, q: Payload, x: Object, ghost a: ForkItem)
    returns (r: PushOutcome, ghost b: ForkItem)
    requires p != q && Reached(d, p, q, x, 2, d.Sight()) && d.forks.maxSize == 10
    requires a.data == Old(p) && d.forks.head == a && d.forks.index == map[Old(p).Id() := a]
    requires |d.undo.Snapshots| == 1 && Count(d.undo.store) == 1
    modifies d, d.undo, d.forks
    ensures r == Waiting && Reached(d, p, q, x, 2, d.Sight()) && d.forks.maxSize == 10
    ensures b.data == New(q) && b.prev == null
    ensures d.forks.head == a && d.forks.index == map[Old(p).Id() := a, New(q).Id() := b]
    ensures |d.undo.Snapshots| == 1 && Count(d.undo.store) == 1
  {
    hide Database.Valid, Database.FitsPush, Database.Decided, ForkDatabase.Filed, Small;
    AnyPushFits(d, p, q, x, New(q));
    var placed;
    ghost var v;
    r, placed, v := d.PushBlock(New(q), 0);
    b :| ForkDatabase.Filed(map[Old(p).Id() := a], a, 10, v.index, v.head, New(q), b);
    SecondWaits(p, q, x, v, a, b, r, placed);
  }

  method PushThird(d: Database, p: Payload, q: Payload, x: Object, ghost a: ForkItem, ghost b: ForkItem)
      returns (r: PushOutcome)
    requires p != q && Reached(d, p, q, x, 2, d.Sight()) && d.forks.maxSize == 10
    requires a.data == Old(p) && a.prev == null && b.data == New(q) && b.prev == null
    requires d.forks.head == a && d.forks.index == map[Old(p).Id() := a, New(q).Id() := b]
    requires |d.undo.Snapshots| == 1 && Count(d.undo.store) == 1
    modifies d, d.undo, d.forks
    ensures r == Forked(Stuck)
  {
    hide Database.Valid, Database.FitsPush, Database.Decided, ForkDatabase.Filed, Small;
    AnyPushFits(d, p, q, x, Bad(p, q));
    HeadIsFirst(p, q, x, d.undo.store);
    ghost var v;
    var placed;
    r, placed, v := d.PushBlock(Bad(p, q), 0);
    ghost var c: ForkItem :|
      ForkDatabase.Filed(map[Old(p).Id() := a, New(q).Id() := b], a, 10, v.index, v.head, Bad(p, q), c);
    ThirdIsStuck(p, q, x, v, a, b, c, r, placed);
  }

  lemma HeadIsFirst(p: Payload, q: Payload, x: Object, s: Store)
    requires Count(s) == 1
    ensures Small(p, q, x).head(s) == Old(p).Id()
  {}

  /** A node that is pushed these three blocks gets stuck. */
  method GetStuck(p: Payload, q: Payload, x: Object) returns (d: Database, outcomes: seq<PushOutcome>)
    requires p != q
    ensures outcomes == [Extended, Waiting, Forked(Stuck)]
  {
    hide Database.Valid, Small;
    SmallIsWellBehaved(p, q, x);
    d := new Database(Small(p, q, x), map[0 := 0]);
    var first, a := PushFirst(d, p, q, x);
    var second, b := PushSecond(d, p, q, x, a);
    var third := PushThird(d, p, q, x, a, b);
    outcomes := [first, second, third];
  }
}

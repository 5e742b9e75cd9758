/**
  The fork database: a tree of recent blocks with weak parent pointers, its pruning, and
  the search for the branches that lead two blocks back to a common predecessor.
 */
module ForkDatabases {
  import opened Wrappers

  /** The transactions and signatures of a block; nothing below depends on what they are. */
  type Payload(==, !new)

  /**
    An id is a digest of the whole block that also carries its number. Digests are taken to
    be collision free: an id determines its block. `Zero` is the id that precedes block 1.
   */
  datatype BlockId = Zero | Digest(previous: BlockId, payload: Payload) {
    function Num(): nat {
      if Zero? then 0 else previous.Num() + 1
    }
  }

  datatype Block = Block(previous: BlockId, payload: Payload) {
    function Id(): BlockId {
      Digest(previous, payload)
    }

    function Num(): nat {
      previous.Num() + 1
    }
  }

  class ForkItem {
    const data: Block
    const prev: ForkItem?

    constructor (data: Block, prev: ForkItem?)
      ensures this.data == data && this.prev == prev
    {
      this.data, this.prev := data, prev;
    }

    function Id(): BlockId {
      data.Id()
    }

    function Num(): nat {
      data.Num()
    }
  }

  datatype PushError = TooOld | Unlinkable

  type Branch = seq<ForkItem>

  class ForkDatabase {
    var index: map<BlockId, ForkItem>
    var head: ForkItem?
    var maxSize: nat

    constructor ()
      ensures Valid() && index == map[] && head == null && maxSize == 1024
    {
      index, head, maxSize := map[], null, 1024;
    }

    ghost predicate Valid()
      reads this
    {
      WellFiled(index) && (head != null ==> LinksToParent(head))
    }

    /** Items are filed under their ids, and a parent pointer leads to the parent. */
    static ghost predicate WellFiled(index: map<BlockId, ForkItem>) {
      forall id <- index :: index[id].Id() == id && LinksToParent(index[id])
    }

    static predicate LinksToParent(item: ForkItem) {
      item.prev != null ==> item.prev.Id() == item.data.previous
    }

    /** The item is still owned by the index or by the head. */
    static predicate AliveIn(index: map<BlockId, ForkItem>, head: ForkItem?, item: ForkItem) {
      item == head || (item.Id() in index && index[item.Id()] == item)
    }

    /** What locking the weak parent pointer yields. */
    static function ParentIn(index: map<BlockId, ForkItem>, head: ForkItem?, item: ForkItem): ForkItem? {
      if item.prev != null && AliveIn(index, head, item.prev) then item.prev else null
    }

    function Parent(item: ForkItem): ForkItem?
      reads this
    {
      ParentIn(index, head, item)
    }

    /** The item's parent is the one filed in the index. */
    static predicate ParentFiled(index: map<BlockId, ForkItem>, item: ForkItem) {
      item.prev != null && item.prev.Id() in index && index[item.prev.Id()] == item.prev
    }

    /** Above number `k`, every indexed item still has its parent. */
    static ghost predicate ParentsFiledAbove(index: map<BlockId, ForkItem>, k: nat) {
      ParentsFiledBut(index, k, {})
    }

    /** Above number `k`, every indexed item still has its parent, unless that is gone. */
    static ghost predicate ParentsFiledBut(index: map<BlockId, ForkItem>, k: nat, gone: set<BlockId>) {
      forall id <- index :: index[id].Num() > k && index[id].data.previous !in gone ==> ParentFiled(index, index[id])
    }

    // ----- pushing, pruning, rewinding --------------------------------------------------

    static function Floor(head: nat, maxSize: nat): nat {
      if maxSize < head then head - maxSize else 0
    }

    method Prune(floor: nat)
      modifies `index
      ensures index == AtOrAbove(old(index), floor)
    {
      var todo := index.Keys;
      while todo != {}
        invariant todo <= index.Keys
        invariant index == map id | id in old(index) && (id in todo || old(index)[id].Num() >= floor) :: old(index)[id]
      {
        var id :| id in todo;
        if index[id].Num() < floor {
          index := index - {id};
        }
        todo := todo - {id};
      }
    }

    /** The index after an insertion: an id that is already there keeps its item. */
    static function Inserted(index: map<BlockId, ForkItem>, item: ForkItem): map<BlockId, ForkItem> {
      if item.Id() in index then index else index[item.Id() := item]
    }

    static function AtOrAbove(index: map<BlockId, ForkItem>, floor: nat): map<BlockId, ForkItem> {
      map id | id in index && index[id].Num() >= floor :: index[id]
    }

    /** Why a block is refused: it lies below what is kept, or its parent is not known. */
    function Refusal(b: Block): Option<PushError>
      reads this
    {
      if head == null then None
      else if b.Num() <= Floor(head.Num(), maxSize) then Some(TooOld)
      else if b.previous != Zero && b.previous !in index then Some(Unlinkable)
      else None
    }

    /** The item is filed under its parent, and a higher one becomes the head and prunes what is too low. */
    static ghost predicate Filed(index: map<BlockId, ForkItem>, head: ForkItem?, maxSize: nat,
        index': map<BlockId, ForkItem>, head': ForkItem?, b: Block, item: ForkItem) {
      && item.data == b && (head != null && b.previous != Zero ==> b.previous in index)
      && item.prev == (if head != null && b.previous != Zero then index[b.previous] else null)
      && head' == (if head == null || b.Num() > head.Num() then item else head)
      && index' == AtOrAbove(Inserted(index, item),
           if head != null && b.Num() > head.Num() then Floor(b.Num(), maxSize) else 0)
    }

    method PushBlock(b: Block) returns (error: Option<PushError>)
      requires Valid()
      modifies this
      ensures Valid() && maxSize == old(maxSize) && error == old(Refusal(b))
      ensures error.Some? ==> unchanged(this)
      ensures error.None? ==> exists item: ForkItem ::
        fresh(item) && Filed(old(index), old(head), maxSize, index, head, b, item)
    {
      if head != null && b.Num() <= Floor(head.Num(), maxSize) {
        return Some(TooOld);
      }
      var prev: ForkItem? := null;
      if head != null && b.previous != Zero {
        if b.previous !in index {
          return Some(Unlinkable);
        }
        prev := index[b.previous];
      }
      var item := new ForkItem(b, prev);
      if item.Id() !in index {
        index := index[item.Id() := item];
      }
      assert AtOrAbove(index, 0) == index;
      if head == null {
        head := item;
      } else if item.Num() > head.Num() {
        head := item;
        Prune(Floor(head.Num(), maxSize));
      }
      assert Filed(old(index), old(head), maxSize, index, head, b, item);
      return None;
    }

    method SetMaxSize(size: nat)
      requires Valid()
      modifies `index, `maxSize
      ensures Valid() && maxSize == size
      ensures index == if head == null then old(index) else AtOrAbove(old(index), Floor(head.Num(), size))
    {
      maxSize := size;
      if head == null {
        return;
      }
      Prune(Floor(head.Num(), maxSize));
    }

    /** Moves the head to its parent; false where the source throws. */
    method PopBlock() returns (ok: bool)
      modifies `head
      ensures ok <==> old(head) != null && old(Parent(head)) != null
      ensures head == if ok then old(head).prev else old(head)
    {
      if head == null || Parent(head) == null {
        return false;
      }
      head := Parent(head);
      return true;
    }

    method SetHead(item: ForkItem)
      modifies `head
      ensures head == item
    {
      head := item;
    }

    method Remove(id: BlockId)
      modifies `index
      ensures index == old(index) - {id}
    {
      index := index - {id};
    }

    /** A pushed block keeps every parent filed above the pruning floor. */
    static lemma PushKeepsParents(index: map<BlockId, ForkItem>, head: ForkItem, maxSize: nat,
        index': map<BlockId, ForkItem>, head': ForkItem, b: Block, item: ForkItem, k: nat)
      requires WellFiled(index) && ParentsFiledAbove(index, k) && k >= 1
      requires Filed(index, head, maxSize, index', head', b, item) && Floor(head'.Num(), maxSize) <= k
      ensures ParentsFiledAbove(index', k)
    {
      forall id | id in index' && index'[id].Num() > k
        ensures ParentFiled(index', index'[id])
      {
        if id in index {
          assert ParentFiled(index, index[id]);
        } else {
          assert b.previous != Zero;
        }
      }
    }

    /** So does pruning, and a removal takes away no parents but those removed. */
    static lemma PruneKeepsParents(
        index: map<BlockId, ForkItem>, floor: nat, k: nat, gone: set<BlockId>, more: set<BlockId>)
      requires WellFiled(index) && ParentsFiledBut(index, k, gone) && floor <= k
      ensures WellFiled(AtOrAbove(index, floor) - more)
      ensures ParentsFiledBut(AtOrAbove(index, floor) - more, k, gone + more)
    {
      var kept := AtOrAbove(index, floor) - more;
      forall id | id in kept && kept[id].Num() > k && kept[id].data.previous !in gone + more
        ensures ParentFiled(kept, kept[id])
      {
        assert ParentFiled(index, index[id]);
      }
    }

    static lemma FewerAreMissed(index: map<BlockId, ForkItem>, k: nat, gone: set<BlockId>)
      requires ParentsFiledAbove(index, k)
      ensures ParentsFiledBut(index, k, gone)
    {}

    /** Once blocks are gone, all parents are still there exactly if nothing was built on those. */
    static lemma OrphansOnly(index: map<BlockId, ForkItem>, k: nat, gone: set<BlockId>)
      requires WellFiled(index) && ParentsFiledBut(index, k, gone) && forall id <- gone :: id !in index
      ensures ParentsFiledAbove(index, k) <==>
        forall id <- index :: index[id].Num() > k ==> index[id].data.previous !in gone
    {
      forall id | id in index && ParentFiled(index, index[id])
        ensures index[id].data.previous !in gone
      {
        assert LinksToParent(index[id]);
      }
    }

    /** The head can be moved from `item` to its parent `k` times, by indexed parents only. */
    static predicate Rewindable(index: map<BlockId, ForkItem>, item: ForkItem, k: nat)
      decreases k
    {
      k == 0 || (ParentFiled(index, item) && Rewindable(index, item.prev, k - 1))
    }

    /** An indexed item can be rewound as far as parents are filed. */
    static lemma {:induction false} FiledParentsRewind(index: map<BlockId, ForkItem>, item: ForkItem, k: nat, n: nat)
      requires WellFiled(index) && ParentsFiledAbove(index, k)
      requires item.Id() in index && index[item.Id()] == item && k + n <= item.Num()
      ensures Rewindable(index, item, n)
      decreases n
    {
      hide WellFiled, ParentsFiledAbove;
      if n > 0 {
        FiledParent(index, item, k);
        FiledParentsRewind(index, item.prev, k, n - 1);
      }
    }

    static lemma FiledParent(index: map<BlockId, ForkItem>, item: ForkItem, k: nat)
      requires WellFiled(index) && ParentsFiledAbove(index, k)
      requires item.Id() in index && index[item.Id()] == item && k < item.Num()
      ensures ParentFiled(index, item) && item.prev.Num() == item.Num() - 1
    {}

    /** Pruning stops a rewind exactly where it would go below the floor. */
    static lemma {:induction false} PrunedRewind(index: map<BlockId, ForkItem>, floor: nat, item: ForkItem, n: nat)
      requires WellFiled(index) && LinksToParent(item)
      ensures Rewindable(AtOrAbove(index, floor), item, n) <==>
              Rewindable(index, item, n) && (n == 0 || floor + n <= item.Num())
      decreases n
    {
      if n > 0 && ParentFiled(index, item) {
        PrunedRewind(index, floor, item.prev, n - 1);
      }
    }

    // ----- branch search ----------------------------------------------------------------

    /** Each item of the branch is the live parent of the one before it. */
    static ghost predicate LinkedIn(index: map<BlockId, ForkItem>, head: ForkItem?, branch: Branch) {
      forall i :: 0 <= i < |branch| - 1 ==>
        branch[i + 1] == ParentIn(index, head, branch[i]) && LinksToParent(branch[i])
    }

    /** Two branches from the given blocks whose last blocks have the same predecessor. */
    static ghost predicate MeetsIn(
        index: map<BlockId, ForkItem>, head: ForkItem?, first: BlockId, second: BlockId, p: Branch, q: Branch) {
      && first in index && second in index && p != [] && q != []
      && p[0] == index[first] && q[0] == index[second] && LinkedIn(index, head, p) && LinkedIn(index, head, q)
      && p[|p| - 1].data.previous == q[|q| - 1].data.previous
    }

    /** No shorter branches of the same two blocks meet. */
    static ghost predicate ShortestIn(
        index: map<BlockId, ForkItem>, head: ForkItem?, first: BlockId, second: BlockId, p: Branch, q: Branch) {
      && MeetsIn(index, head, first, second, p, q)
      && forall i, j :: 0 < i <= |p| && 0 < j <= |q| && MeetsIn(index, head, first, second, p[..i], q[..j]) ==>
           i == |p| && j == |q|
    }

    ghost predicate Linked(branch: Branch)
      reads this
    {
      LinkedIn(index, head, branch)
    }

    ghost predicate Meets(first: BlockId, second: BlockId, p: Branch, q: Branch)
      reads this
    {
      MeetsIn(index, head, first, second, p, q)
    }

    ghost predicate Shortest(first: BlockId, second: BlockId, p: Branch, q: Branch)
      reads this
    {
      ShortestIn(index, head, first, second, p, q)
    }

    lemma ShortestMeets(first: BlockId, second: BlockId, p: Branch, q: Branch)
      requires Valid() && Shortest(first, second, p, q)
      ensures Meets(first, second, p, q) && Linked(p) && Linked(q)
      ensures p != [] && q != [] && p[0].Id() == first && q[0].Id() == second
      ensures p[|p| - 1].data.previous == q[|q| - 1].data.previous
    {}

    lemma {:induction false} NumbersFall(branch: Branch, i: nat)
      requires Linked(branch) && i < |branch|
      ensures branch[i].Num() == branch[0].Num() - i
    {
      if i > 0 {
        NumbersFall(branch, i - 1);
        assert branch[i - 1 + 1] == Parent(branch[i - 1]);
      }
    }

    /** A branch that starts at the same item as `walk` and outlasts it goes through it. */
    lemma {:induction false} SameStartSameWay(walk: Branch, branch: Branch)
      requires Linked(walk) && Linked(branch) && 0 < |walk| <= |branch| && walk[0] == branch[0]
      ensures walk <= branch
    {
      if |walk| > 1 {
        var n := |walk| - 1;
        assert Linked(walk[..n]) by {
          forall i | 0 <= i < n - 1
            ensures walk[..n][i + 1] == Parent(walk[..n][i]) && LinksToParent(walk[..n][i])
          {
            assert walk[i + 1] == Parent(walk[i]);
          }
        }
        SameStartSameWay(walk[..n], branch);
        assert walk[n - 1 + 1] == Parent(walk[n - 1]);
        assert branch[n - 1 + 1] == Parent(branch[n - 1]);
        assert walk[n - 1] == walk[..n][n - 1] == branch[n - 1];
      }
    }

    /** A walk from `id` down to `item`, which is not part of `done` yet. */
    ghost predicate Walk(id: BlockId, done: Branch, item: ForkItem)
      reads this
    {
      && id in index && LinksToParent(item)
      && Linked(done + [item]) && (done + [item])[0] == index[id]
    }

    lemma WalkOn(id: BlockId, done: Branch, item: ForkItem)
      requires Valid() && Walk(id, done, item) && Parent(item) != null
      ensures Walk(id, done + [item], Parent(item)) && Parent(item).Num() == item.Num() - 1
    {}

    /** Every meeting of the two walks lies at or beyond these items. */
    ghost predicate NotYet(p: Branch, q: Branch, a: Branch, f: ForkItem, b: Branch, s: ForkItem) {
      a + [f] <= p && b + [s] <= q
    }

    /** A walk whose item is no meeting point must go on through a live parent. */
    lemma GoesOn(id: BlockId, done: Branch, item: ForkItem, p: Branch)
      requires Walk(id, done, item) && Linked(p) && done + [item] < p
      ensures Parent(item) != null && done + [item] + [Parent(item)] <= p
    {
      var n := |done|;
      assert p[n + 1] == Parent(p[n]);
      assert p[n] == item;
      assert p[..n + 2] == p[..n + 1] + [p[n + 1]];
    }

    method FetchBranchFrom(first: BlockId, second: BlockId) returns (r: Option<(Branch, Branch)>)
      requires Valid()
      ensures r.Some? ==> Shortest(first, second, r.value.0, r.value.1)
      ensures r.None? ==> forall p, q :: !Meets(first, second, p, q)
    {
      if first !in index || second !in index {
        return None;
      }
      hide LinkedIn;
      var a: Branch, b: Branch := [], [];
      var f: ForkItem, s: ForkItem := index[first], index[second];
      while f.Num() > s.Num()
        invariant Walk(first, a, f) && Walk(second, b, s)
        invariant forall p, q :: Meets(first, second, p, q) ==> NotYet(p, q, a, f, b, s)
        decreases f.Num()
      {
        forall p, q | Meets(first, second, p, q)
          ensures Parent(f) != null && NotYet(p, q, a + [f], Parent(f), b, s)
        {
          SameLevel(first, second, p, q);
          NumbersFall(q, |b|);
          GoesOn(first, a, f, p);
        }
        if Parent(f) == null {
          return None;
        }
        WalkOn(first, a, f);
        a, f := a + [f], Parent(f);
      }
      while s.Num() > f.Num()
        invariant f.Num() <= s.Num()
        invariant Walk(first, a, f) && Walk(second, b, s)
        invariant forall p, q :: Meets(first, second, p, q) ==> NotYet(p, q, a, f, b, s)
        decreases s.Num()
      {
        forall p, q | Meets(first, second, p, q)
          ensures Parent(s) != null && NotYet(p, q, a, f, b + [s], Parent(s))
        {
          SameLevel(first, second, p, q);
          NumbersFall(p, |a|);
          GoesOn(second, b, s, q);
        }
        if Parent(s) == null {
          return None;
        }
        WalkOn(second, b, s);
        b, s := b + [s], Parent(s);
      }
      while f.data.previous != s.data.previous
        invariant Walk(first, a, f) && Walk(second, b, s) && f.Num() == s.Num()
        invariant forall p, q :: Meets(first, second, p, q) ==> NotYet(p, q, a, f, b, s)
        decreases f.Num()
      {
        forall p, q | Meets(first, second, p, q)
          ensures Parent(f) != null && Parent(s) != null
          ensures NotYet(p, q, a + [f], Parent(f), b + [s], Parent(s))
        {
          SameLevel(first, second, p, q);
          NumbersFall(p, |a|);
          NumbersFall(q, |b|);
          GoesOn(first, a, f, p);
          GoesOn(second, b, s, q);
        }
        if Parent(f) == null {
          return None;
        }
        WalkOn(first, a, f);
        a, f := a + [f], Parent(f);
        if Parent(s) == null {
          return None;
        }
        WalkOn(second, b, s);
        b, s := b + [s], Parent(s);
      }
      forall i, j | 0 < i <= |a| + 1 && 0 < j <= |b| + 1 && Meets(first, second, (a + [f])[..i], (b + [s])[..j])
        ensures i == |a| + 1 && j == |b| + 1
      {
        assert NotYet((a + [f])[..i], (b + [s])[..j], a, f, b, s);
      }
      return Some((a + [f], b + [s]));
    }

    /** The last blocks of two meeting branches have the same number. */
    lemma SameLevel(first: BlockId, second: BlockId, p: Branch, q: Branch)
      requires Meets(first, second, p, q)
      ensures p[0].Num() - |p| == q[0].Num() - |q| == p[|p| - 1].data.previous.Num()
    {
      NumbersFall(p, |p| - 1);
      NumbersFall(q, |q| - 1);
    }

    // ----- what the shortest meeting says -------------------------------------------------

    lemma LinkedPrefix(p: Branch, i: nat)
      requires Linked(p) && i <= |p|
      ensures Linked(p[..i])
    {}

    /**
      If a block occurs in both branches, it is the starting block of one of them and the
      last of the other. So unless one input is an ancestor of the other, they are disjoint.
     */
    lemma SharedBlockIsAnInput(first: BlockId, second: BlockId, p: Branch, q: Branch, i: nat, j: nat)
      requires Valid() && Shortest(first, second, p, q)
      requires i < |p| && j < |q| && p[i].Id() == q[j].Id()
      ensures (i == 0 || j == 0) && i == |p| - 1 && j == |q| - 1
    {
      LinkedPrefix(p, i + 1);
      LinkedPrefix(q, j + 1);
      if i > 0 && j > 0 {
        MeetBeforeShared(first, second, p, q, i, j);
      }
      assert Meets(first, second, p[..i + 1], q[..j + 1]);
    }

    lemma MeetBeforeShared(first: BlockId, second: BlockId, p: Branch, q: Branch, i: nat, j: nat)
      requires Valid() && Meets(first, second, p, q)
      requires 0 < i < |p| && 0 < j < |q| && p[i].Id() == q[j].Id()
      ensures Meets(first, second, p[..i], q[..j])
    {}

    /**
      Follow the parents of the two blocks as far as you like: unless one of them is an
      ancestor of the other, any block on both ways is at most as high as the shared predecessor.
     */
    lemma SharedPredecessorIsHighest(
        first: BlockId, second: BlockId, p: Branch, q: Branch, p': Branch, q': Branch, i: nat, j: nat)
      requires Valid() && Shortest(first, second, p, q)
      requires p[0].Id() != q[|q| - 1].Id() && q[0].Id() != p[|p| - 1].Id()
      requires Linked(p') && Linked(q') && i < |p'| && j < |q'| && p'[0] == p[0] && q'[0] == q[0]
      requires p'[i].Id() == q'[j].Id()
      ensures p'[i].Num() <= p[|p| - 1].data.previous.Num()
    {
      NumbersFall(p', i);
      NumbersFall(q', j);
      SameLevel(first, second, p, q);
      if p'[i].Num() > p[|p| - 1].data.previous.Num() {
        LinkedPrefix(p', i + 1);
        LinkedPrefix(q', j + 1);
        SameStartSameWay(p'[..i + 1], p);
        SameStartSameWay(q'[..j + 1], q);
        SharedBlockIsAnInput(first, second, p, q, i, j);
      }
    }
  }
}

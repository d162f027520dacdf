/** The bins as one plain queue per size: over any history of insertions and removals, the
    small bin or the tree chain of a size holds the chunks of that size in order of arrival. So
    the node a best-fit search hands out is the chunk that has waited longest, and the first
    chunk of a small bin the one that came last. */
module BinHistory {
  import opened Rings
  import opened TreeBins
  import opened SmallBins
  import opened TreeChains
  import opened TreeOrder

  datatype BinOp = Insert(x: int, size: nat) | Remove(x: int)

  /** The chunks of size `s` waiting after one more operation: a plain queue per size. */
  ghost function Queued(before: seq<int>, op: BinOp, s: nat): seq<int> {
    match op
    case Insert(x, size) => before + (if s == size then [x] else [])
    case Remove(x) => Drop(before, x)
  }

  /** The chunks of size `s` waiting after `ops`. */
  ghost function Queue(ops: seq<BinOp>, s: nat): seq<int> {
    if ops == [] then [] else Queued(Queue(ops[..|ops| - 1], s), ops[|ops| - 1], s)
  }

  /** The chunks of size `s` in the bins, oldest first. */
  ghost function Waiting(small: Smalls, tree: Tree, sizes: Sizes, s: nat): seq<int> {
    if s % 8 == 0 && s / 8 < |small| then small[s / 8] else ChainOfSize(tree, sizes, s)
  }

  /** The bins hold, for every size, exactly the queue of that size after `ops`. */
  ghost predicate BinsAreQueues(ops: seq<BinOp>, small: Smalls, tree: Tree, sizes: Sizes) {
    forall s: nat {:trigger Waiting(small, tree, sizes, s)} :: Waiting(small, tree, sizes, s) == Queue(ops, s)
  }

  ghost function BinnedBy(before: Sizes, op: BinOp): Sizes {
    match op
    case Insert(x, size) => before[x := size]
    case Remove(x) => before - {x}
  }

  /** The chunks in the bins after `ops`, with their sizes. */
  ghost function Binned(ops: seq<BinOp>): Sizes {
    if ops == [] then map[] else BinnedBy(Binned(ops[..|ops| - 1]), ops[|ops| - 1])
  }

  ghost predicate Chronicle(ops: seq<BinOp>, small: Smalls, tree: Tree, sizes: Sizes) {
    Fresh(ops) && BinsAreQueues(ops, small, tree, sizes) && sizes == Binned(ops)
  }

  lemma BinnedMore(ops: seq<BinOp>, op: BinOp)
    ensures Binned(ops + [op]) == BinnedBy(Binned(ops), op)
  {
    assert (ops + [op])[..|ops|] == ops;
  }

  lemma QueueMore(ops: seq<BinOp>, op: BinOp, s: nat)
    ensures Queue(ops + [op], s) == Queued(Queue(ops, s), op, s)
  {
    assert (ops + [op])[..|ops|] == ops;
  }

  lemma EmptyChronicle()
    ensures Chronicle([], seq(32, i => []), map[], map[])
  {
    forall s: nat ensures Waiting(seq(32, i => []), map[], map[], s) == Queue([], s) {
      NoChain(map[], map[], s);
    }
  }

  lemma FreshMore(ops: seq<BinOp>, op: BinOp)
    requires Fresh(ops) && (op.Insert? ==> forall s: nat :: op.x !in Queue(ops, s))
    ensures Fresh(ops + [op])
  {
    var more := ops + [op];
    forall n, s: nat {:trigger Queue(more[..n], s)} | 0 <= n < |more| && more[n].Insert?
      ensures more[n].x !in Queue(more[..n], s)
    {
      assert more[..n] == ops[..n];
      assert n == |ops| ==> ops[..n] == ops;
    }
  }

  lemma ChainInSizes(tree: Tree, sizes: Sizes, s: nat, x: int)
    requires Shape(tree, sizes) && x in ChainOfSize(tree, sizes, s)
    ensures x in sizes
  {
    var p := PosOfSize(tree, sizes, s);
    ShapeAt(tree, sizes, p);
  }

  lemma NotWaiting(small: Smalls, tree: Tree, sizes: Sizes, x: int, s: nat)
    requires SmallShape(small, sizes) && Shape(tree, sizes) && x !in sizes
    ensures x !in Waiting(small, tree, sizes, s)
  {
    hide Shape, ChainOfSize;
    if s % 8 == 0 && s / 8 < |small| {
      assert BinFits(small, sizes, s / 8);
    } else if x in ChainOfSize(tree, sizes, s) {
      ChainInSizes(tree, sizes, s, x);
    }
  }

  /** The queue of every size is what it was, with `x` added last to its own size's. */
  ghost predicate Joined(small': Smalls, tree': Tree, sizes': Sizes, small: Smalls, tree: Tree, sizes: Sizes, x: int,
                         size: nat) {
    forall s: nat {:trigger Waiting(small', tree', sizes', s)} ::
      Waiting(small', tree', sizes', s) == Waiting(small, tree, sizes, s) + if s == size then [x] else []
  }

  /** The queue of every size is what it was, without `x`. */
  ghost predicate Left(small': Smalls, tree': Tree, sizes': Sizes, small: Smalls, tree: Tree, sizes: Sizes, x: int) {
    forall s: nat {:trigger Waiting(small', tree', sizes', s)} ::
      Waiting(small', tree', sizes', s) == Drop(Waiting(small, tree, sizes, s), x)
  }

  /** An insertion goes on with the chronicle. */
  lemma ChronicleInsert(ops: seq<BinOp>, small: Smalls, tree: Tree, sizes: Sizes, small': Smalls, tree': Tree,
                        sizes': Sizes, x: int, size: nat)
    requires Chronicle(ops, small, tree, sizes) && SmallShape(small, sizes) && Shape(tree, sizes) && x !in sizes
    requires Joined(small', tree', sizes', small, tree, sizes, x, size) && sizes' == sizes[x := size]
    ensures Chronicle(ops + [Insert(x, size)], small', tree', sizes')
  {
    hide Shape, SmallShape, Waiting, Queue, Fresh, Binned;
    forall s: nat
      ensures x !in Queue(ops, s)
    {
      assert Waiting(small, tree, sizes, s) == Queue(ops, s);
      NotWaiting(small, tree, sizes, x, s);
    }
    forall s: nat
      ensures Waiting(small', tree', sizes', s) == Queue(ops + [Insert(x, size)], s)
    {
      QueueMore(ops, Insert(x, size), s);
      assert Waiting(small, tree, sizes, s) == Queue(ops, s);
    }
    FreshMore(ops, Insert(x, size));
    BinnedMore(ops, Insert(x, size));
  }

  /** So does a removal. */
  lemma ChronicleRemove(ops: seq<BinOp>, small: Smalls, tree: Tree, sizes: Sizes, small': Smalls, tree': Tree,
                        sizes': Sizes, x: int)
    requires Chronicle(ops, small, tree, sizes) && Left(small', tree', sizes', small, tree, sizes, x)
    requires sizes' == sizes - {x}
    ensures Chronicle(ops + [Remove(x)], small', tree', sizes')
  {
    hide Waiting, Binned;
    forall s: nat
      ensures Waiting(small', tree', sizes', s) == Queue(ops + [Remove(x)], s)
    {
      QueueMore(ops, Remove(x), s);
      assert Waiting(small, tree, sizes, s) == Queue(ops, s);
    }
    FreshMore(ops, Remove(x));
    BinnedMore(ops, Remove(x));
  }

  // ---- the four bin operations as operations on queues ----

  lemma LargeJoined(small: Smalls, tree': Tree, sizes': Sizes, tree: Tree, sizes: Sizes, x: int, size: nat)
    requires |small| == 32 && size >= 256 && Added(tree', sizes', tree, sizes, x, size)
    ensures Joined(small, tree', sizes', small, tree, sizes, x, size)
  {
    hide ChainOfSize;
  }

  lemma LargeLeft(small: Smalls, tree': Tree, sizes': Sizes, tree: Tree, sizes: Sizes, x: int)
    requires Dropped(tree', sizes', tree, sizes, x) && !InSmall(small, x)
    ensures Left(small, tree', sizes', small, tree, sizes, x)
  {
    hide ChainOfSize;
  }

  lemma KeyAgrees(tree: Tree, sizes: Sizes, sizes': Sizes, p: Pos)
    requires Shape(tree, sizes) && Shape(tree, sizes') && p in tree
    requires forall x :: x in sizes && x in sizes' ==> sizes'[x] == sizes[x]
    ensures Key(tree, sizes', p) == Key(tree, sizes, p)
  {
    ShapeAt(tree, sizes, p);
    ShapeAt(tree, sizes', p);
  }

  /** What happens in the small bins is nothing to the tries. */
  lemma ChainsStay(tree: Tree, sizes: Sizes, sizes': Sizes, s: nat)
    requires Shape(tree, sizes) && Shape(tree, sizes')
    requires forall x :: x in sizes && x in sizes' ==> sizes'[x] == sizes[x]
    ensures ChainOfSize(tree, sizes', s) == ChainOfSize(tree, sizes, s)
  {
    hide Shape, Key, ChainOfSize;
    forall p {:trigger Key(tree, sizes', p)} | p in tree
      ensures Key(tree, sizes', p) == Key(tree, sizes, p)
    {
      KeyAgrees(tree, sizes, sizes', p);
    }
    ChainsElsewhere(tree, sizes, sizes', s);
  }

  lemma SmallJoined(small': Smalls, small: Smalls, tree: Tree, sizes: Sizes, sizes': Sizes, x: int, i: nat)
    requires Shape(tree, sizes) && Shape(tree, sizes') && i < |small|
    requires forall y :: y in sizes && y in sizes' ==> sizes'[y] == sizes[y]
    requires small' == small[i := small[i] + [x]]
    ensures Joined(small', tree, sizes', small, tree, sizes, x, 8 * i)
  {
    hide Shape, ChainOfSize;
    forall s: nat
      ensures Waiting(small', tree, sizes', s) == Waiting(small, tree, sizes, s) + if s == 8 * i then [x] else []
    {
      ChainsStay(tree, sizes, sizes', s);
    }
  }

  lemma SmallLeft(small': Smalls, small: Smalls, tree: Tree, sizes: Sizes, sizes': Sizes, i: nat, j: nat)
    requires SmallShape(small, sizes) && Shape(tree, sizes) && Shape(tree, sizes') && i < 32 && j < |small[i]|
    requires forall y :: y in sizes && y in sizes' ==> sizes'[y] == sizes[y]
    requires small' == small[i := Without(small[i], j)] && !InTree(tree, small[i][j])
    ensures Left(small', tree, sizes', small, tree, sizes, small[i][j])
  {
    hide Shape, ChainOfSize;
    var x := small[i][j];
    forall s: nat
      ensures Waiting(small', tree, sizes', s) == Drop(Waiting(small, tree, sizes, s), x)
    {
      ChainsStay(tree, sizes, sizes', s);
      if s % 8 == 0 && s / 8 < |small| {
        BinWithout(small, sizes, i, j, s / 8);
      } else {
        NotInChain(tree, sizes, s, x);
      }
    }
  }

  lemma BinWithout(small: Smalls, sizes: Sizes, i: nat, j: nat, k: nat)
    requires SmallShape(small, sizes) && i < 32 && j < |small[i]| && k < 32
    ensures Drop(small[k], small[i][j]) == if k == i then Without(small[i], j) else small[k]
  {
    assert BinFits(small, sizes, i) && BinFits(small, sizes, k);
    if k == i {
      DropIsWithout(small[i], j);
    }
  }

  lemma NotInChain(tree: Tree, sizes: Sizes, s: nat, x: int)
    requires !InTree(tree, x)
    ensures Drop(ChainOfSize(tree, sizes, s), x) == ChainOfSize(tree, sizes, s)
  {
    if exists p :: HasSize(tree, sizes, s, p) {
      assert x !in tree[PosOfSize(tree, sizes, s)];
    }
  }

  lemma {:induction false} DropOthers(r: seq<int>, x: int, y: int)
    ensures y in Drop(r, x) <==> y in r && y != x
  {
    if r != [] {
      DropOthers(r[1..], x, y);
      assert r == [r[0]] + r[1..];
    }
  }

  /** A chunk waits in the queue of its size and in no other. */
  lemma {:induction false} WaitsBySize(ops: seq<BinOp>, x: int, s: nat)
    requires Fresh(ops)
    ensures x in Queue(ops, s) <==> x in Binned(ops) && Binned(ops)[x] == s
  {
    if ops != [] {
      var before, last := ops[..|ops| - 1], ops[|ops| - 1];
      FreshPrefix(ops);
      WaitsBySize(before, x, s);
      match last
      case Insert(y, size) =>
        assert before == ops[..|before|];
        if x == y {
          assert x !in Queue(ops[..|before|], s);
        }
      case Remove(y) => DropOthers(Queue(before, s), y, x);
    }
  }

  /** When chunk `x` came last: the place of its latest insertion. */
  ghost function Arrival(ops: seq<BinOp>, x: int): int {
    if ops == [] then -1
    else if ops[|ops| - 1].Insert? && ops[|ops| - 1].x == x then |ops| - 1
    else Arrival(ops[..|ops| - 1], x)
  }

  lemma {:induction false} ArrivalBefore(ops: seq<BinOp>, x: int)
    ensures Arrival(ops, x) < |ops|
  {
    if ops != [] {
      ArrivalBefore(ops[..|ops| - 1], x);
    }
  }

  /** Only chunks that are not waiting are inserted. */
  ghost predicate Fresh(ops: seq<BinOp>) {
    forall n, s: nat {:trigger Queue(ops[..n], s)} :: 0 <= n < |ops| && ops[n].Insert? ==>
          ops[n].x !in Queue(ops[..n], s)
  }

  ghost predicate InOrder(r: seq<int>, ops: seq<BinOp>) {
    forall i, j {:trigger Arrival(ops, r[i]), Arrival(ops, r[j])} :: 0 <= i < j < |r| ==>
          Arrival(ops, r[i]) < Arrival(ops, r[j])
  }

  /** Dropping an element leaves the others in their order. */
  lemma {:induction false} DropPlace(r: seq<int>, x: int, i: nat, j: nat) returns (a: nat, b: nat)
    requires i < j < |Drop(r, x)|
    ensures a < b < |r| && r[a] == Drop(r, x)[i] && r[b] == Drop(r, x)[j] && r[a] != x && r[b] != x
  {
    if r[0] == x {
      a, b := DropPlace(r[1..], x, i, j);
      a, b := a + 1, b + 1;
    } else if i == 0 {
      b := DropOne(r[1..], x, j - 1);
      a, b := 0, b + 1;
    } else {
      a, b := DropPlace(r[1..], x, i - 1, j - 1);
      a, b := a + 1, b + 1;
    }
  }

  lemma {:induction false} DropOne(r: seq<int>, x: int, j: nat) returns (b: nat)
    requires j < |Drop(r, x)|
    ensures b < |r| && r[b] == Drop(r, x)[j] && r[b] != x
  {
    if r[0] == x {
      b := DropOne(r[1..], x, j);
      b := b + 1;
    } else if j == 0 {
      b := 0;
    } else {
      b := DropOne(r[1..], x, j - 1);
      b := b + 1;
    }
  }

  /** First come, first served: over any history, every chain is in order of arrival. */
  lemma {:induction false} FirstComeFirstServed(ops: seq<BinOp>, s: nat)
    requires Fresh(ops)
    ensures InOrder(Queue(ops, s), ops)
  {
    if ops != [] {
      var before := ops[..|ops| - 1];
      FreshPrefix(ops);
      FirstComeFirstServed(before, s);
      var r, q, last := Queue(ops, s), Queue(before, s), ops[|ops| - 1];
      forall i, j {:trigger Arrival(ops, r[i]), Arrival(ops, r[j])} | 0 <= i < j < |r|
        ensures Arrival(ops, r[i]) < Arrival(ops, r[j])
      {
        match last {
          case Insert(x, size) =>
            assert before == ops[..|before|] && x !in Queue(ops[..|before|], s);
            assert r[i] == q[i] && q[i] != x;
            ArrivalBefore(before, q[i]);
            if j < |q| {
              assert r[j] == q[j] && q[j] != x;
              assert Arrival(before, q[i]) < Arrival(before, q[j]);
            }
          case Remove(x) =>
            var a, b := DropPlace(q, x, i, j);
            assert Arrival(before, q[a]) < Arrival(before, q[b]);
        }
      }
    }
  }

  lemma FreshPrefix(ops: seq<BinOp>)
    requires Fresh(ops) && ops != []
    ensures Fresh(ops[..|ops| - 1])
  {
    var before := ops[..|ops| - 1];
    forall n, s: nat {:trigger Queue(before[..n], s)} | 0 <= n < |before| && before[n].Insert?
      ensures before[n].x !in Queue(before[..n], s)
    {
      assert before[..n] == ops[..n];
      assert ops[n].x !in Queue(ops[..n], s);
    }
  }

  /** The bins hold, for every size, the queue of that size: what has been inserted and not
      removed since, in order of arrival. */
  lemma ChainIsQueue(ops: seq<BinOp>, small: Smalls, tree: Tree, sizes: Sizes, s: nat)
    requires Chronicle(ops, small, tree, sizes)
    ensures Waiting(small, tree, sizes, s) == Queue(ops, s) && InOrder(Waiting(small, tree, sizes, s), ops)
  {
    hide Waiting;
    assert Waiting(small, tree, sizes, s) == Queue(ops, s);
    FirstComeFirstServed(ops, s);
  }

  /** The first member of a queue, the node of a tree chain, is the chunk of that size that
      came first, and the last, the first chunk of a small bin, the one that came last. */
  lemma OldestIsNode(ops: seq<BinOp>, small: Smalls, tree: Tree, sizes: Sizes, s: nat, k: nat)
    requires Chronicle(ops, small, tree, sizes) && 0 < k < |Waiting(small, tree, sizes, s)|
    ensures var r := Waiting(small, tree, sizes, s);
            Arrival(ops, r[0]) < Arrival(ops, r[k]) && Arrival(ops, r[k - 1]) < Arrival(ops, r[|r| - 1])
  {
    hide Waiting;
    ChainIsQueue(ops, small, tree, sizes, s);
  }
}

/** The order in which chunks of one size are kept: reading a chain from its tree node along
    `bk` lists them oldest first. Insertion adds at the end, removal takes one chunk out and
    keeps the order of the others, wherever in the tree the chain ends up. */
module TreeOrder {
  import opened Rings
  import opened TreeBins
  import opened TreeChains

  ghost predicate HasSize(tree: Tree, sizes: Sizes, s: nat, p: Pos) {
    p in tree && Key(tree, sizes, p) == s
  }

  /** The chunks of size `s` in a tree, oldest first. */
  ghost function ChainOfSize(tree: Tree, sizes: Sizes, s: nat): seq<int> {
    if exists p :: HasSize(tree, sizes, s, p) then tree[PosOfSize(tree, sizes, s)] else []
  }

  ghost function PosOfSize(tree: Tree, sizes: Sizes, s: nat): (p: Pos)
    requires exists p :: HasSize(tree, sizes, s, p)
    ensures HasSize(tree, sizes, s, p)
  {
    var p :| HasSize(tree, sizes, s, p);
    p
  }

  /** `r` without `x`. */
  ghost function Drop(r: seq<int>, x: int): (s: seq<int>)
    ensures x !in r ==> s == r
  {
    if r == [] then []
    else if r[0] == x then Drop(r[1..], x)
    else [r[0]] + Drop(r[1..], x)
  }

  lemma {:induction false} DropIsWithout(r: seq<int>, j: nat)
    requires Members(r) && j < |r|
    ensures Drop(r, r[j]) == Without(r, j)
  {
    if j == 0 {
      assert r[0] !in r[1..];
      assert Without(r, 0) == r[1..];
    } else {
      var t := r[1..];
      assert forall k :: 0 <= k < |t| ==> t[k] == r[k + 1];
      DropIsWithout(t, j - 1);
      assert Without(r, j) == [r[0]] + Without(t, j - 1);
    }
  }

  lemma ChainIs(tree: Tree, sizes: Sizes, s: nat, p: Pos)
    requires Shape(tree, sizes) && HasSize(tree, sizes, s, p)
    ensures ChainOfSize(tree, sizes, s) == tree[p]
  {
    assert Key(tree, sizes, p) == Key(tree, sizes, PosOfSize(tree, sizes, s));
  }

  lemma NoChain(tree: Tree, sizes: Sizes, s: nat)
    requires forall q {:trigger HasSize(tree, sizes, s, q)} :: !HasSize(tree, sizes, s, q)
    ensures ChainOfSize(tree, sizes, s) == []
  {
  }

  /** Every size's chain in `tree'` is that of `tree` without `x`. */
  ghost predicate Dropped(tree': Tree, sizes': Sizes, tree: Tree, sizes: Sizes, x: int) {
    forall s: nat {:trigger ChainOfSize(tree', sizes', s)} ::
          ChainOfSize(tree', sizes', s) == Drop(ChainOfSize(tree, sizes, s), x)
  }

  /** Every size's chain in `tree'` is that of `tree`, with `x` added last to its own size's. */
  ghost predicate Added(tree': Tree, sizes': Sizes, tree: Tree, sizes: Sizes, x: int, size: nat) {
    forall s: nat {:trigger ChainOfSize(tree', sizes', s)} ::
      ChainOfSize(tree', sizes', s) == ChainOfSize(tree, sizes, s) + (if s == size then [x] else [])
  }

  // ---- removal ----

  lemma DropWithout(tree: Tree, sizes: Sizes, p: Pos, j: nat)
    requires Shape(tree, sizes) && p in tree && j < |tree[p]| && |tree[p]| >= 2
    requires Shape(tree[p := Without(tree[p], j)], sizes)
    ensures Dropped(tree[p := Without(tree[p], j)], sizes, tree, sizes, tree[p][j])
  {
    var tree' := tree[p := Without(tree[p], j)];
    forall s: nat
      ensures ChainOfSize(tree', sizes, s) == Drop(ChainOfSize(tree, sizes, s), tree[p][j])
    {
      DropWithoutOne(tree, sizes, p, j, s);
    }
  }

  lemma SameKeys(tree: Tree, sizes: Sizes, p: Pos, j: nat, q: Pos)
    requires Shape(tree, sizes) && p in tree && j < |tree[p]| && |tree[p]| >= 2 && q in tree
    ensures Key(tree[p := Without(tree[p], j)], sizes, q) == Key(tree, sizes, q)
  {
    ShapeAt(tree, sizes, p);
    ShapeAt(tree, sizes, q);
  }

  lemma DropWithoutOne(tree: Tree, sizes: Sizes, p: Pos, j: nat, s: nat)
    requires Shape(tree, sizes) && p in tree && j < |tree[p]| && |tree[p]| >= 2
    requires Shape(tree[p := Without(tree[p], j)], sizes)
    ensures ChainOfSize(tree[p := Without(tree[p], j)], sizes, s) == Drop(ChainOfSize(tree, sizes, s), tree[p][j])
  {
    hide Shape, Key, ChainOfSize;
    var tree', x := tree[p := Without(tree[p], j)], tree[p][j];
    forall q | HasSize(tree', sizes, s, q)
      ensures HasSize(tree, sizes, s, q)
    {
      SameKeys(tree, sizes, p, j, q);
    }
    if exists q :: HasSize(tree, sizes, s, q) {
      var q :| HasSize(tree, sizes, s, q);
      SameKeys(tree, sizes, p, j, q);
      assert HasSize(tree', sizes, s, q);
      ChainIs(tree, sizes, s, q);
      ChainIs(tree', sizes, s, q);
      if q == p {
        assert Members(tree[p]) by { ShapeAt(tree, sizes, p); assert ChainFits(tree, sizes, p); }
        DropIsWithout(tree[p], j);
      } else {
        NotIn(tree, sizes, p, j, q);
      }
    } else {
      NoChain(tree, sizes, s);
      NoChain(tree', sizes, s);
    }
  }

  lemma NotIn(tree: Tree, sizes: Sizes, p: Pos, j: nat, q: Pos)
    requires Shape(tree, sizes) && p in tree && j < |tree[p]| && q in tree && p != q
    ensures tree[p][j] !in tree[q]
  {
    hide Shape;
    if tree[p][j] in tree[q] {
      var k :| 0 <= k < |tree[q]| && tree[q][k] == tree[p][j];
      ChainsDisjoint(tree, sizes, p, q, j, k);
    }
  }

  /** The last chunk of its size goes; the chain at `l`, if `l` is not `p`, moves to `p`. */
  ghost function Vacated(tree: Tree, p: Pos, l: Pos): Tree
    requires l in tree
  {
    if l == p then tree - {p} else (tree - {l})[p := tree[l]]
  }

  lemma DropLast(tree: Tree, sizes: Sizes, p: Pos, l: Pos)
    requires Shape(tree, sizes) && p in tree && |tree[p]| == 1 && l in tree
    requires Shape(Vacated(tree, p, l), sizes)
    ensures Dropped(Vacated(tree, p, l), sizes, tree, sizes, tree[p][0])
  {
    var tree' := Vacated(tree, p, l);
    forall s: nat
      ensures ChainOfSize(tree', sizes, s) == Drop(ChainOfSize(tree, sizes, s), tree[p][0])
    {
      DropLastOne(tree, sizes, p, l, s);
    }
  }

  lemma DropLastOne(tree: Tree, sizes: Sizes, p: Pos, l: Pos, s: nat)
    requires Shape(tree, sizes) && p in tree && |tree[p]| == 1 && l in tree
    requires Shape(Vacated(tree, p, l), sizes)
    ensures ChainOfSize(Vacated(tree, p, l), sizes, s) == Drop(ChainOfSize(tree, sizes, s), tree[p][0])
  {
    hide Shape, ChainOfSize;
    var tree', x := Vacated(tree, p, l), tree[p][0];
    forall q | HasSize(tree', sizes, s, q)
      ensures HasSize(tree, sizes, s, if q == p then l else q) && (q != p || l != p)
    {
    }
    if exists q :: HasSize(tree, sizes, s, q) && q != p {
      var q :| HasSize(tree, sizes, s, q) && q != p;
      assert HasSize(tree', sizes, s, if q == l then p else q);
      ChainIs(tree, sizes, s, q);
      ChainIs(tree', sizes, s, if q == l then p else q);
      NotIn(tree, sizes, p, 0, q);
    } else {
      NoChain(tree', sizes, s);
      if HasSize(tree, sizes, s, p) {
        ChainIs(tree, sizes, s, p);
        assert tree[p] == [x];
      } else {
        NoChain(tree, sizes, s);
      }
    }
  }

  /** Chains do not depend on the sizes of chunks outside the trees. */
  lemma ChainsElsewhere(tree: Tree, sizes: Sizes, sizes': Sizes, s: nat)
    requires Shape(tree, sizes) && Shape(tree, sizes')
    requires forall p {:trigger Key(tree, sizes', p)} :: p in tree ==> Key(tree, sizes', p) == Key(tree, sizes, p)
    ensures ChainOfSize(tree, sizes', s) == ChainOfSize(tree, sizes, s)
  {
    hide Shape, Key, ChainOfSize;
    forall q | HasSize(tree, sizes', s, q)
      ensures HasSize(tree, sizes, s, q)
    {
      assert Key(tree, sizes', q) == Key(tree, sizes, q);
    }
    if exists q :: HasSize(tree, sizes, s, q) {
      var q :| HasSize(tree, sizes, s, q);
      assert Key(tree, sizes', q) == Key(tree, sizes, q);
      ChainIs(tree, sizes, s, q);
      ChainIs(tree, sizes', s, q);
    } else {
      NoChain(tree, sizes, s);
      NoChain(tree, sizes', s);
    }
  }

  // ---- insertion ----

  lemma AddLeaf(tree: Tree, sizes: Sizes, d: Pos, x: int, size: nat)
    requires Shape(tree, sizes) && x in sizes && sizes[x] == size && Vacant(tree, sizes, d, size)
    requires Shape(tree[d := [x]], sizes)
    ensures Added(tree[d := [x]], sizes, tree, sizes, x, size)
  {
    var tree' := tree[d := [x]];
    forall s: nat
      ensures ChainOfSize(tree', sizes, s) == ChainOfSize(tree, sizes, s) + (if s == size then [x] else [])
    {
      AddLeafOne(tree, sizes, d, x, size, s);
    }
  }

  lemma AddLeafOne(tree: Tree, sizes: Sizes, d: Pos, x: int, size: nat, s: nat)
    requires Shape(tree, sizes) && x in sizes && sizes[x] == size && Vacant(tree, sizes, d, size)
    requires Shape(tree[d := [x]], sizes)
    ensures ChainOfSize(tree[d := [x]], sizes, s) == ChainOfSize(tree, sizes, s) + (if s == size then [x] else [])
  {
    hide Shape, ChainOfSize;
    var tree' := tree[d := [x]];
    forall q | HasSize(tree', sizes, s, q) && q != d
      ensures HasSize(tree, sizes, s, q)
    {
    }
    if exists q :: HasSize(tree, sizes, s, q) {
      var q :| HasSize(tree, sizes, s, q);
      assert Key(tree, sizes, q) != size;
      assert HasSize(tree', sizes, s, q);
      ChainIs(tree, sizes, s, q);
      ChainIs(tree', sizes, s, q);
    } else {
      NoChain(tree, sizes, s);
      if s == size {
        assert HasSize(tree', sizes, s, d);
        ChainIs(tree', sizes, s, d);
      } else {
        NoChain(tree', sizes, s);
      }
    }
  }

  lemma AddSame(tree: Tree, sizes: Sizes, p: Pos, x: int)
    requires Shape(tree, sizes) && p in tree && Shape(tree[p := tree[p] + [x]], sizes)
    ensures Added(tree[p := tree[p] + [x]], sizes, tree, sizes, x, Key(tree, sizes, p))
  {
    var tree' := tree[p := tree[p] + [x]];
    forall s: nat
      ensures ChainOfSize(tree', sizes, s)
           == ChainOfSize(tree, sizes, s) + (if s == Key(tree, sizes, p) then [x] else [])
    {
      AddSameOne(tree, sizes, p, x, s);
    }
  }

  lemma AddSameOne(tree: Tree, sizes: Sizes, p: Pos, x: int, s: nat)
    requires Shape(tree, sizes) && p in tree && Shape(tree[p := tree[p] + [x]], sizes)
    ensures ChainOfSize(tree[p := tree[p] + [x]], sizes, s)
         == ChainOfSize(tree, sizes, s) + (if s == Key(tree, sizes, p) then [x] else [])
  {
    hide Shape, ChainOfSize;
    var tree' := tree[p := tree[p] + [x]];
    assert |tree[p]| > 0 by { ShapeAt(tree, sizes, p); assert ChainFits(tree, sizes, p); }
    forall q | HasSize(tree', sizes, s, q)
      ensures HasSize(tree, sizes, s, q)
    {
    }
    if exists q :: HasSize(tree, sizes, s, q) {
      var q :| HasSize(tree, sizes, s, q);
      assert HasSize(tree', sizes, s, q);
      ChainIs(tree, sizes, s, q);
      ChainIs(tree', sizes, s, q);
      assert s == Key(tree, sizes, p) ==> q == p by { UniqueKey(tree, sizes, p, q); }
    } else {
      NoChain(tree, sizes, s);
      assert !HasSize(tree, sizes, s, p);
      NoChain(tree', sizes, s);
    }
  }

  lemma UniqueKey(tree: Tree, sizes: Sizes, p: Pos, q: Pos)
    requires Shape(tree, sizes) && p in tree && q in tree
    ensures Key(tree, sizes, p) == Key(tree, sizes, q) ==> p == q
  {
  }
}

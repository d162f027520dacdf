/** The walks that choose a chunk from the tree bins: along the bits of the request to the
    closest size in its own bin, to the next bin that is not empty, and down the leftmost
    path of a subtree to its smallest chunk. */
module BestFit {
  import opened Words
  import opened SizeBits
  import opened BinMaps
  import opened TreeBins
  import opened TreeChains
  import opened MallocState
  import opened LargeChunks
  import opened LargeInsertion

  // ---- subtrees ----

  /** The chain at `q` lies in the subtree at position `d`. */
  ghost predicate Under(tree: Tree, sizes: Sizes, d: Pos, q: Pos) {
    q in tree && q.w <= d.w && PosOf(Key(tree, sizes, q), d.w) == d
  }

  lemma SelfUnder(tree: Tree, sizes: Sizes, p: Pos)
    requires Shape(tree, sizes) && p in tree
    ensures Under(tree, sizes, p, p)
  {
    ShapeAt(tree, sizes, p);
  }

  /** Below a node, a chain is below one of its children. */
  lemma UnderChild(tree: Tree, sizes: Sizes, d: Pos, q: Pos)
    requires Shape(tree, sizes) && d in tree && Under(tree, sizes, d, q) && q != d
    ensures d.w > 0
    ensures var c := Down(d, NextBit(Key(tree, sizes, q), d.w));
            c in tree && Under(tree, sizes, c, q)
  {
    ShapeAt(tree, sizes, q);
    PosOfDown(Key(tree, sizes, q), d.w);
    ShapeAt(tree, sizes, d);
    PathOccupied(tree, sizes, q, d.w - 1);
  }

  lemma UnderParent(tree: Tree, sizes: Sizes, d: Pos, b: nat, q: Pos)
    requires d.w > 0 && b < 2 && Under(tree, sizes, Down(d, b), q)
    ensures Under(tree, sizes, d, q)
  {
    PosOfUp(Key(tree, sizes, q), d.w - 1);
    UpDown(d, b);
  }

  /** Sizes in a subtree to the left are smaller. */
  lemma LeftLess(s: nat, t: nat, w: nat)
    requires Shr(s, w) < Shr(t, w)
    ensures s < t
  {
    if t <= s {
      ShrMonotone(t, s, w);
    }
  }

  lemma LowerBinLess(s: nat, t: nat)
    requires TreeIndex(s) < TreeIndex(t)
    ensures s < t
  {
    if t <= s {
      TreeIndexMonotone(t, s);
    }
  }

  // ---- what a search knows ----

  /** The best chunk so far: `v`, the node at `c`, has `nb + rsize` bytes; null until one is
      found, when `rsize` is still the wrapped `-nb`. */
  ghost predicate Chosen(tree: Tree, sizes: Sizes, nb: int, v: int, rsize: int, c: Pos) {
    if v == 0 then nb + rsize == WORD_LIMIT
    else c in tree && |tree[c]| > 0 && v == tree[c][0] && Key(tree, sizes, c) == nb + rsize && rsize >= 0
  }

  /** `t` is the node at `d`, or null. */
  ghost predicate IsNode(tree: Tree, t: int, d: Pos) {
    t != 0 ==> d in tree && |tree[d]| > 0 && t == tree[d][0]
  }

  /** Nothing in the subtree at `d` is too small. */
  ghost predicate AllFit(tree: Tree, sizes: Sizes, d: Pos, nb: int) {
    forall q {:trigger Under(tree, sizes, d, q)} :: Under(tree, sizes, d, q) ==> Key(tree, sizes, q) >= nb
  }

  /** The chain at `q` is no better than the best so far, or lies in the subtree at `d` that
      is still to be searched, or is no better than the chain at `d`. */
  ghost predicate Covered(tree: Tree, sizes: Sizes, best: int, open: bool, d: Pos, q: Pos)
    requires q in tree && (open ==> d in tree)
  {
    || best <= Key(tree, sizes, q)
    || (open && (Under(tree, sizes, d, q) || Key(tree, sizes, d) <= Key(tree, sizes, q)))
  }

  ghost predicate AllCovered(tree: Tree, sizes: Sizes, nb: int, best: int, open: bool, d: Pos) {
    (open ==> d in tree) &&
    forall q {:trigger Covered(tree, sizes, best, open, d, q)} ::
         q in tree && nb <= Key(tree, sizes, q) ==> Covered(tree, sizes, best, open, d, q)
  }

  // ---- the smallest of a subtree ----

  ghost predicate Descending(tree: Tree, sizes: Sizes, nb: int, t: int, d: Pos, v: int, rsize: int, c: Pos) {
    && Chosen(tree, sizes, nb, v, rsize, c) && IsNode(tree, t, d)
    && (t != 0 ==> rsize == 0 || AllFit(tree, sizes, d, nb))
    && AllCovered(tree, sizes, nb, nb + rsize, t != 0, d)
  }

  /** The position `leftmost_child` leads to. */
  ghost function LeftmostPos(tree: Tree, d: Pos): Pos
    requires d.w > 0
  {
    if Down(d, 0) in tree then Down(d, 0) else Down(d, 1)
  }

  /** Visiting the node at `d`: it becomes the best so far if it is a closer fit. */
  lemma Visit(tree: Tree, sizes: Sizes, nb: int, t: int, d: Pos, v: int, rsize: int, c: Pos)
    requires Shape(tree, sizes) && nb > 0 && Descending(tree, sizes, nb, t, d, v, rsize, c) && t != 0
    ensures var trem := Minus(Key(tree, sizes, d), nb);
            && (trem < rsize ==> Descending(tree, sizes, nb, t, d, t, trem, d) && nb + trem == Key(tree, sizes, d))
            && (trem >= rsize ==> rsize == 0 || nb + rsize <= Key(tree, sizes, d))
  {
    hide Under, Key, Shape;
    SelfUnder(tree, sizes, d);
    KeyRange(tree, sizes, d);
    var trem := Minus(Key(tree, sizes, d), nb);
    if v != 0 {
      KeyRange(tree, sizes, c);
    }
    if trem < rsize {
      forall q | q in tree && nb <= Key(tree, sizes, q)
        ensures Covered(tree, sizes, nb + trem, true, d, q)
      {
        assert Covered(tree, sizes, nb + rsize, true, d, q);
      }
    }
  }

  lemma KeyRange(tree: Tree, sizes: Sizes, d: Pos)
    requires Shape(tree, sizes) && d in tree
    ensures MIN_LARGE_SIZE <= Key(tree, sizes, d) < WORD_LIMIT && Key(tree, sizes, d) % 16 == 0
    ensures d.bin == TreeIndex(Key(tree, sizes, d)) < 32 && 4 <= d.w <= RootBits(d.bin) <= 64
    ensures d == PosOf(Key(tree, sizes, d), d.w)
  {
    ShapeAt(tree, sizes, d);
    RootOfBin(Key(tree, sizes, d));
  }

  /** Going on to the leftmost child loses no candidate. */
  lemma DescendOne(tree: Tree, sizes: Sizes, nb: int, best: int, d: Pos, q: Pos)
    requires Shape(tree, sizes) && d in tree && d.w > 0 && best <= Key(tree, sizes, d)
    requires q in tree && Covered(tree, sizes, best, true, d, q)
    ensures Covered(tree, sizes, best, LeftmostPos(tree, d) in tree, LeftmostPos(tree, d), q)
  {
    hide Shape, Key;
    if Under(tree, sizes, d, q) && q != d && best > Key(tree, sizes, q) {
      UnderChild(tree, sizes, d, q);
      var b := NextBit(Key(tree, sizes, q), d.w);
      var e := LeftmostPos(tree, d);
      if Down(d, b) != e {
        KeyRange(tree, sizes, e);
        LeftLess(Key(tree, sizes, e), Key(tree, sizes, q), d.w - 1);
      }
    }
  }

  lemma Descend(tree: Tree, sizes: Sizes, nb: int, t: int, t': int, d: Pos, v: int, rsize: int, c: Pos)
    requires Shape(tree, sizes) && Descending(tree, sizes, nb, t, d, v, rsize, c) && t != 0 && d.w > 0
    requires rsize == 0 || nb + rsize <= Key(tree, sizes, d)
    requires IsNode(tree, t', LeftmostPos(tree, d)) && (t' == 0 ==> LeftmostPos(tree, d) !in tree)
    ensures Descending(tree, sizes, nb, t', LeftmostPos(tree, d), v, rsize, c)
  {
    hide Shape, Key, Under, Covered, LeftmostPos;
    var e := LeftmostPos(tree, d);
    forall q | q in tree && nb <= Key(tree, sizes, q)
      ensures Covered(tree, sizes, nb + rsize, t' != 0, e, q)
    {
      assert Covered(tree, sizes, nb + rsize, true, d, q);
      if rsize == 0 {
        CoveredByExact(tree, sizes, nb, t' != 0, e, q);
      } else {
        DescendOne(tree, sizes, nb, nb + rsize, d, q);
      }
    }
    if t' != 0 && rsize != 0 {
      FitBelow(tree, sizes, d, nb);
    }
  }

  lemma CoveredByExact(tree: Tree, sizes: Sizes, nb: int, open: bool, e: Pos, q: Pos)
    requires q in tree && (open ==> e in tree) && nb <= Key(tree, sizes, q)
    ensures Covered(tree, sizes, nb, open, e, q)
  {
  }

  lemma FitBelow(tree: Tree, sizes: Sizes, d: Pos, nb: int)
    requires d.w > 0 && AllFit(tree, sizes, d, nb)
    ensures AllFit(tree, sizes, LeftmostPos(tree, d), nb)
  {
    hide Key;
    var b := if Down(d, 0) in tree then 0 else 1;
    forall q | Under(tree, sizes, Down(d, b), q)
      ensures Key(tree, sizes, q) >= nb
    {
      UnderParent(tree, sizes, d, b, q);
    }
  }

  // ---- reading nodes ----

  lemma NodeReads(m: State, d: Pos)
    requires m.Bins() && d in m.tree
    ensures |m.tree[d]| > 0 && 4 <= d.w <= 64
    ensures var t := m.tree[d][0];
            && t != 0 && t in m.sizes && m.sizes[t] == Key(m.tree, m.sizes, d)
            && m.Mapped(Head(t)) && ChunkSize(m.At(Head(t))) == Key(m.tree, m.sizes, d)
            && m.Mapped(ChildAt(t, 0)) && m.Mapped(ChildAt(t, 1)) && m.OkAddress(t)
            && IsChild(m.tree, m.At(ChildAt(t, 0)), Down(d, 0)) && IsChild(m.tree, m.At(ChildAt(t, 1)), Down(d, 1))
  {
    hide TreeLinks, SmallBins.SmallLinks, Shape, SmallBins.SmallShape, SmallBins.HoldsSmall, HoldsLarge, SizeHeads;
    NodeSize(m, d);
    KeyRange(m.tree, m.sizes, d);
    ShapeAt(m.tree, m.sizes, d);
    NodeMapped(m, m.tree, d);
    ChildRead(m.mem, m.treemap, m.sizes, m.tree, d, 0);
    ChildRead(m.mem, m.treemap, m.sizes, m.tree, d, 1);
  }

  /** The child pointer `t` is null exactly when position `d` is free. */
  ghost predicate IsChild(tree: Tree, t: int, d: Pos) {
    IsNode(tree, t, d) && (t == 0 <==> d !in tree)
  }

  /** `leftmost_child(t)`. */
  method LeftmostChild(m: State, t: int, ghost d: Pos) returns (l: int)
    requires m.Bins() && d in m.tree && |m.tree[d]| > 0 && t == m.tree[d][0]
    ensures d.w > 0 && IsChild(m.tree, l, LeftmostPos(m.tree, d))
  {
    hide State.Bins, Key;
    NodeReads(m, d);
    l := if m.At(ChildAt(t, 0)) != 0 then m.At(ChildAt(t, 0)) else m.At(ChildAt(t, 1));
  }

  /** The loop that finds the smallest chunk of a tree or subtree. */
  method SmallestOf(m: State, nb: int, t0: int, v0: int, rsize0: int, ghost d0: Pos, ghost c0: Pos)
    returns (v: int, rsize: int, ghost c: Pos)
    requires m.Bins() && nb > 0 && Descending(m.tree, m.sizes, nb, t0, d0, v0, rsize0, c0)
    ensures Chosen(m.tree, m.sizes, nb, v, rsize, c)
    ensures AllCovered(m.tree, m.sizes, nb, nb + rsize, false, d0)
  {
    hide *;
    BinsShape(m);
    var t := t0;
    v, rsize := v0, rsize0;
    ghost var d := d0;
    c := c0;
    while t != 0
      invariant Descending(m.tree, m.sizes, nb, t, d, v, rsize, c)
      decreases if t == 0 then 0 else d.w + 1
    {
      AtNode(m.tree, m.sizes, nb, t, d, v, rsize, c);
      NodeReads(m, d);
      Visit(m.tree, m.sizes, nb, t, d, v, rsize, c);
      var trem := Minus(ChunkSize(m.At(Head(t))), nb);
      if trem < rsize {
        rsize := trem;
        v := t;
        c := d;
      }
      var l := LeftmostChild(m, t, d);
      LeftmostNode(m.tree, l, d);
      Descend(m.tree, m.sizes, nb, t, l, d, v, rsize, c);
      d := LeftmostPos(m.tree, d);
      t := l;
    }
    DescentDone(m.tree, m.sizes, nb, d, v, rsize, c, d0);
  }

  lemma BinsShape(m: State)
    requires m.Bins()
    ensures Shape(m.tree, m.sizes) && HoldsLarge(m.tree, m.sizes) && m.Region()
    ensures TreeLinks(m.mem, m.treemap, m.tree)
  {
    hide TreeLinks, SmallBins.SmallLinks, Shape, SmallBins.SmallShape, SmallBins.HoldsSmall, HoldsLarge, SizeHeads;
  }

  lemma AtNode(tree: Tree, sizes: Sizes, nb: int, t: int, d: Pos, v: int, rsize: int, c: Pos)
    requires Descending(tree, sizes, nb, t, d, v, rsize, c) && t != 0
    ensures d in tree && |tree[d]| > 0 && t == tree[d][0]
  {
    hide AllCovered, AllFit, Chosen;
  }

  lemma LeftmostNode(tree: Tree, l: int, d: Pos)
    requires d.w > 0 && IsChild(tree, l, LeftmostPos(tree, d))
    ensures IsNode(tree, l, LeftmostPos(tree, d)) && (l == 0 ==> LeftmostPos(tree, d) !in tree)
    ensures LeftmostPos(tree, d).w == d.w - 1
  {
  }

  lemma DescentDone(tree: Tree, sizes: Sizes, nb: int, d: Pos, v: int, rsize: int, c: Pos, d0: Pos)
    requires Descending(tree, sizes, nb, 0, d, v, rsize, c)
    ensures Chosen(tree, sizes, nb, v, rsize, c) && AllCovered(tree, sizes, nb, nb + rsize, false, d0)
  {
    hide Under, Key;
    forall q | q in tree && nb <= Key(tree, sizes, q)
      ensures Covered(tree, sizes, nb + rsize, false, d0, q)
    {
      assert Covered(tree, sizes, nb + rsize, false, d, q);
    }
  }

  // ---- along the bits of the request ----

  /** Subtree `r` hangs to the right of the path of `nb`, at or above `w` undecided bits. */
  ghost predicate RightOfPath(nb: nat, w: nat, r: Pos) {
    r.bin == TreeIndex(nb) && r.w >= w && r.q > Shr(nb, r.w)
  }

  /** The chain at `q` is no better than the best so far, or in the subtree on the path, or in
      the deepest untaken right subtree, or no better than that subtree's root. */
  ghost predicate Ahead(tree: Tree, sizes: Sizes, best: int, p: Pos, open: bool, r: Pos, q: Pos)
    requires q in tree && (open ==> r in tree)
  {
    Under(tree, sizes, p, q) || Covered(tree, sizes, best, open, r, q)
  }

  ghost predicate AllAhead(tree: Tree, sizes: Sizes, nb: nat, best: int, p: Pos, open: bool, r: Pos) {
    (open ==> r in tree) &&
    forall q {:trigger Ahead(tree, sizes, best, p, open, r, q)} ::
      q in tree && q.bin == TreeIndex(nb) && nb <= Key(tree, sizes, q) ==> Ahead(tree, sizes, best, p, open, r, q)
  }

  /** The walk is at position `p` of the path of `nb`; `rst` is the node at `r`, or null. */
  ghost predicate OnPath(tree: Tree, sizes: Sizes, nb: nat, p: Pos, k: int, v: int, rsize: int, c: Pos, rst: int,
                         r: Pos) {
    && p == PosOf(nb, p.w) && p.w <= 64 && k == SizeWord(nb, p.w)
    && Chosen(tree, sizes, nb, v, rsize, c) && (v != 0 ==> c.bin == p.bin)
    && IsNode(tree, rst, r) && (rst != 0 ==> RightOfPath(nb, p.w, r))
    && AllAhead(tree, sizes, nb, nb + rsize, p, rst != 0, r)
  }

  /** Visiting the node at `p` on the path. */
  lemma PathVisit(tree: Tree, sizes: Sizes, nb: nat, t: int, p: Pos, k: int, v: int, rsize: int, c: Pos, rst: int,
                  r: Pos)
    requires Shape(tree, sizes) && OnPath(tree, sizes, nb, p, k, v, rsize, c, rst, r) && nb >= MIN_LARGE_SIZE
    requires p in tree && |tree[p]| > 0 && t == tree[p][0] && t != 0
    ensures var trem := Minus(Key(tree, sizes, p), nb);
            && (trem < rsize ==> OnPath(tree, sizes, nb, p, k, t, trem, p, rst, r) && nb + trem == Key(tree, sizes, p))
            && (trem >= rsize ==> nb + rsize <= Key(tree, sizes, p) || Key(tree, sizes, p) < nb)
  {
    hide Under, Key, Shape, RightOfPath, SizeWord;
    KeyRange(tree, sizes, p);
    var trem := Minus(Key(tree, sizes, p), nb);
    if v != 0 {
      KeyRange(tree, sizes, c);
    }
    if trem < rsize {
      forall q | q in tree && q.bin == TreeIndex(nb) && nb <= Key(tree, sizes, q)
        ensures Ahead(tree, sizes, nb + trem, p, rst != 0, r, q)
      {
        assert Ahead(tree, sizes, nb + rsize, p, rst != 0, r, q);
      }
    }
  }

  /** A chain to the right of the path is larger than everything on it below. */
  lemma RightIsLarger(tree: Tree, sizes: Sizes, nb: nat, w: nat, r: Pos, q: Pos, s: nat)
    requires Shape(tree, sizes) && RightOfPath(nb, w, r) && Under(tree, sizes, r, q) && Shr(s, w) == Shr(nb, w)
    ensures s < Key(tree, sizes, q)
  {
    ShrAgree(s, nb, w, r.w);
    LeftLess(s, Key(tree, sizes, q), r.w);
  }

  /** The deepest untaken right subtree after the step from `p` to its child for bit `b`. */
  ghost function NextRight(tree: Tree, p: Pos, b: nat, r: Pos): Pos
    requires p.w > 0
  {
    if Passed(tree, p, b) then Down(p, 1) else r
  }

  /** The step to the left passes a right subtree by. */
  ghost predicate Passed(tree: Tree, p: Pos, b: nat)
    requires p.w > 0
  {
    b == 0 && Down(p, 1) in tree
  }

  /** A chain below `p` is on the path's side, or in the right subtree passed by, or too small. */
  lemma StepUnder(tree: Tree, sizes: Sizes, nb: nat, p: Pos, q: Pos)
    requires Shape(tree, sizes) && p in tree && p == PosOf(nb, p.w) && p.w > 0
    requires Under(tree, sizes, p, q) && q != p && nb <= Key(tree, sizes, q)
    ensures var b := NextBit(nb, p.w);
            Under(tree, sizes, Down(p, b), q) || (Passed(tree, p, b) && Under(tree, sizes, Down(p, 1), q))
  {
    UnderChild(tree, sizes, p, q);
    var b, e := NextBit(nb, p.w), NextBit(Key(tree, sizes, q), p.w);
    if b == 1 && e == 0 {
      LeftLess(Key(tree, sizes, q), nb, p.w - 1);
    }
  }

  lemma StepAhead(tree: Tree, sizes: Sizes, nb: nat, best: int, p: Pos, open: bool, r: Pos, q: Pos)
    requires Shape(tree, sizes) && p in tree && p == PosOf(nb, p.w) && p.w > 0
    requires open ==> r in tree && RightOfPath(nb, p.w, r)
    requires q in tree && nb <= Key(tree, sizes, q) && Ahead(tree, sizes, best, p, open, r, q)
    requires best <= Key(tree, sizes, p) || Key(tree, sizes, p) < nb
    ensures var b := NextBit(nb, p.w);
            var r' := NextRight(tree, p, b, r);
            Ahead(tree, sizes, best, Down(p, b), open || Passed(tree, p, b), r', q)
  {
    hide Shape, Key, Under, RightOfPath, TreeIndex;
    var b := NextBit(nb, p.w);
    var r' := NextRight(tree, p, b, r);
    if Under(tree, sizes, p, q) {
      if q != p {
        StepUnder(tree, sizes, nb, p, q);
      }
    } else if best > Key(tree, sizes, q) && Passed(tree, p, b) {
      KeyRange(tree, sizes, r');
      assert Shr(Key(tree, sizes, r'), p.w) == Shr(nb, p.w);
      SelfUnder(tree, sizes, r);
      RightIsLarger(tree, sizes, nb, p.w, r, r, Key(tree, sizes, r'));
      if Under(tree, sizes, r, q) {
        RightIsLarger(tree, sizes, nb, p.w, r, q, Key(tree, sizes, r'));
      }
    }
  }

  lemma StepRight(tree: Tree, nb: nat, p: Pos, open: bool, r: Pos)
    requires p == PosOf(nb, p.w) && p.w > 0 && (open ==> RightOfPath(nb, p.w, r))
    ensures var r' := NextRight(tree, p, NextBit(nb, p.w), r);
            open || Passed(tree, p, NextBit(nb, p.w)) ==> RightOfPath(nb, p.w - 1, r')
  {
  }

  /** One step of the walk. */
  lemma PathStep(tree: Tree, sizes: Sizes, nb: nat, p: Pos, k: int, v: int, rsize: int, c: Pos, rst: int, r: Pos,
                 rt: int, t': int)
    requires Shape(tree, sizes) && OnPath(tree, sizes, nb, p, k, v, rsize, c, rst, r) && p in tree && p.w > 0
    requires nb + rsize <= Key(tree, sizes, p) || Key(tree, sizes, p) < nb
    requires IsChild(tree, rt, Down(p, 1)) && IsChild(tree, t', Down(p, NextBit(nb, p.w)))
    ensures var b := NextBit(nb, p.w);
            var rst' := if rt != 0 && rt != t' then rt else rst;
            OnPath(tree, sizes, nb, Down(p, b), k * 2 % WORD_LIMIT, v, rsize, c, rst', NextRight(tree, p, b, r))
  {
    hide Shape, Key, Under, RightOfPath, Covered, Ahead, SizeWord, TreeIndex, Chosen, NextBit, Shr;
    var b := NextBit(nb, p.w);
    var r' := NextRight(tree, p, b, r);
    var rst' := if rt != 0 && rt != t' then rt else rst;
    SizeWordStep(nb, p.w);
    PosOfDown(nb, p.w);
    SiblingsDiffer(tree, sizes, p, rt, t', b);
    StepRight(tree, nb, p, rst != 0, r);
    assert rst' != 0 <==> rst != 0 || Passed(tree, p, b);
    forall q | q in tree && q.bin == TreeIndex(nb) && nb <= Key(tree, sizes, q)
      ensures Ahead(tree, sizes, nb + rsize, Down(p, b), rst' != 0, r', q)
    {
      assert Ahead(tree, sizes, nb + rsize, p, rst != 0, r, q);
      StepAhead(tree, sizes, nb, nb + rsize, p, rst != 0, r, q);
    }
  }

  lemma SiblingsDiffer(tree: Tree, sizes: Sizes, p: Pos, rt: int, t': int, b: nat)
    requires Shape(tree, sizes) && p.w > 0 && b < 2
    requires IsChild(tree, rt, Down(p, 1)) && IsChild(tree, t', Down(p, b))
    ensures rt != 0 && rt != t' <==> Passed(tree, p, b)
  {
    hide Shape;
    if b == 0 && Down(p, 1) in tree && Down(p, 0) in tree && rt == t' {
      ChainsDisjoint(tree, sizes, Down(p, 1), Down(p, 0), 0, 0);
    }
  }

  // ---- the end of the walk ----

  /** All chunks that fit are in bins above that of `nb`. */
  ghost predicate OnlyHigher(tree: Tree, sizes: Sizes, nb: nat) {
    forall q {:trigger Key(tree, sizes, q)} :: q in tree && nb <= Key(tree, sizes, q) ==> TreeIndex(nb) < q.bin
  }

  /** What is known when the walk along the path is over. */
  ghost predicate Walked(tree: Tree, sizes: Sizes, nb: nat, t: int, d: Pos, v: int, rsize: int, c: Pos) {
    if t == 0 && v == 0 then nb + rsize == WORD_LIMIT && OnlyHigher(tree, sizes, nb)
    else Descending(tree, sizes, nb, t, d, v, rsize, c)
  }

  lemma NoneUnder(tree: Tree, sizes: Sizes, p: Pos, q: Pos)
    requires Shape(tree, sizes) && p !in tree && p.w <= RootBits(p.bin)
    ensures !Under(tree, sizes, p, q)
  {
    if Under(tree, sizes, p, q) {
      ShapeAt(tree, sizes, q);
      PathOccupied(tree, sizes, q, p.w);
    }
  }

  /** A fitting chain in another bin than that of `nb` is in a higher one, and larger than
      every chain in `nb`'s bin. */
  lemma OtherBin(tree: Tree, sizes: Sizes, nb: nat, q: Pos)
    requires Shape(tree, sizes) && q in tree && nb <= Key(tree, sizes, q) && q.bin != TreeIndex(nb)
    ensures TreeIndex(nb) < q.bin
    ensures forall d {:trigger Key(tree, sizes, d)} :: d in tree && d.bin == TreeIndex(nb) ==>
              Key(tree, sizes, d) <= Key(tree, sizes, q)
  {
    hide Shape, Key, TreeIndex;
    KeyRange(tree, sizes, q);
    TreeIndexMonotone(nb, Key(tree, sizes, q));
    forall d | d in tree && d.bin == TreeIndex(nb)
      ensures Key(tree, sizes, d) <= Key(tree, sizes, q)
    {
      KeyRange(tree, sizes, d);
      LowerBinLess(Key(tree, sizes, d), Key(tree, sizes, q));
    }
  }

  lemma ExactFound(tree: Tree, sizes: Sizes, nb: nat, t: int, p: Pos, k: int, rst: int, r: Pos)
    requires OnPath(tree, sizes, nb, p, k, t, 0, p, rst, r) && t != 0
    ensures Walked(tree, sizes, nb, t, p, t, 0, p)
  {
    hide Key, Under;
    assert IsNode(tree, t, p);
    forall q | q in tree && nb <= Key(tree, sizes, q)
      ensures Covered(tree, sizes, nb, true, p, q)
    {
    }
  }

  lemma PathEnded(tree: Tree, sizes: Sizes, nb: nat, p: Pos, k: int, v: int, rsize: int, c: Pos, rst: int, r: Pos)
    requires Shape(tree, sizes) && OnPath(tree, sizes, nb, p, k, v, rsize, c, rst, r) && p !in tree
    requires p.w <= RootBits(p.bin)
    ensures Walked(tree, sizes, nb, rst, r, v, rsize, c)
  {
    hide Shape, Key, RightOfPath, TreeIndex, SizeWord, RootBits, PosOf;
    forall q | q in tree && nb <= Key(tree, sizes, q)
      ensures rst != 0 || v != 0 ==> Covered(tree, sizes, nb + rsize, rst != 0, r, q)
      ensures rst == 0 && v == 0 ==> TreeIndex(nb) < q.bin
    {
      PathEndedAt(tree, sizes, nb, p, k, v, rsize, c, rst, r, q);
    }
    if rst != 0 {
      forall q | Under(tree, sizes, r, q)
        ensures q in tree && Key(tree, sizes, q) >= nb
      {
        RightIsLarger(tree, sizes, nb, p.w, r, q, nb);
      }
    }
  }

  lemma PathEndedAt(tree: Tree, sizes: Sizes, nb: nat, p: Pos, k: int, v: int, rsize: int, c: Pos, rst: int, r: Pos,
                    q: Pos)
    requires Shape(tree, sizes) && OnPath(tree, sizes, nb, p, k, v, rsize, c, rst, r) && p !in tree
    requires p.w <= RootBits(p.bin) && q in tree && nb <= Key(tree, sizes, q)
    ensures rst != 0 || v != 0 ==> Covered(tree, sizes, nb + rsize, rst != 0, r, q)
    ensures rst == 0 && v == 0 ==> TreeIndex(nb) < q.bin
  {
    hide Shape, Key, Under, TreeIndex, SizeWord, RootBits;
    KeyRange(tree, sizes, q);
    if q.bin == TreeIndex(nb) {
      NoneUnder(tree, sizes, p, q);
      assert Ahead(tree, sizes, nb + rsize, p, rst != 0, r, q);
    } else {
      OtherBin(tree, sizes, nb, q);
    }
  }

  lemma PathStart(tree: Tree, sizes: Sizes, nb: nat, c: Pos, r: Pos)
    requires Shape(tree, sizes) && MIN_LARGE_SIZE <= nb < WORD_LIMIT
    ensures var i := TreeIndex(nb);
            && i < 32 && RootBits(i) <= 64
            && OnPath(tree, sizes, nb, RootPos(i), nb * Pow2(64 - RootBits(i)) % WORD_LIMIT, 0, Minus(0, nb), c, 0, r)
  {
    hide Shape, Key, TreeIndex, SizeWord, Pow2;
    var i := TreeIndex(nb);
    RootOfBin(nb);
    FirstSizeWord(nb, RootBits(i));
    forall q | q in tree && q.bin == TreeIndex(nb) && nb <= Key(tree, sizes, q)
      ensures Ahead(tree, sizes, WORD_LIMIT, RootPos(i), false, r, q)
    {
      UnderRoot(tree, sizes, q);
    }
  }

  lemma UnderRoot(tree: Tree, sizes: Sizes, q: Pos)
    requires Shape(tree, sizes) && q in tree
    ensures Under(tree, sizes, RootPos(q.bin), q) && RootPos(q.bin) in tree
  {
    KeyRange(tree, sizes, q);
    RootOfBin(Key(tree, sizes, q));
    PathOccupied(tree, sizes, q, RootBits(q.bin));
  }

  /** Traversing the tree of the request's own bin along the bits of the request. */
  method WalkForSize(m: State, nb: nat, idx: nat, root: int)
    returns (t: int, v: int, rsize: int, ghost d: Pos, ghost c: Pos)
    requires m.Bins() && MIN_LARGE_SIZE <= nb < WORD_LIMIT && idx == TreeIndex(nb)
    requires root != 0 && IsChild(m.tree, root, RootPos(idx))
    ensures Walked(m.tree, m.sizes, nb, t, d, v, rsize, c)
  {
    hide *;
    BinsShape(m);
    d, c := RootPos(idx), RootPos(idx);
    ghost var r := d;
    PathStart(m.tree, m.sizes, nb, c, r);
    AtRoot(m.tree, root, idx);
    v, rsize, t := 0, Minus(0, nb), root;
    var sizebits := nb * Pow2(64 - RootBits(idx)) % WORD_LIMIT;
    var rst := 0;
    while true
      invariant OnPath(m.tree, m.sizes, nb, d, sizebits, v, rsize, c, rst, r)
      invariant d in m.tree && |m.tree[d]| > 0 && t == m.tree[d][0] && t != 0
      decreases d.w
    {
      NodeReads(m, d);
      PathVisit(m.tree, m.sizes, nb, t, d, sizebits, v, rsize, c, rst, r);
      var trem := Minus(ChunkSize(m.At(Head(t))), nb);
      if trem < rsize {
        v, c := t, d;
        rsize := trem;
        if rsize == 0 {
          ExactFound(m.tree, m.sizes, nb, t, d, sizebits, rst, r);
          return;
        }
      }
      OnPathBit(m.tree, m.sizes, nb, d, sizebits, v, rsize, c, rst, r);
      var b := sizebits / 0x8000_0000_0000_0000 % 2;
      var rt := m.At(ChildAt(t, 1));
      PathStep(m.tree, m.sizes, nb, d, sizebits, v, rsize, c, rst, r, rt, m.At(ChildAt(t, b)));
      t := m.At(ChildAt(t, b));
      if rt != 0 && rt != t {
        rst := rt;
      }
      r := NextRight(m.tree, d, b, r);
      StepDown(m.tree, m.sizes, d, b, t);
      d := Down(d, b);
      sizebits := sizebits * 2 % WORD_LIMIT;
      if t == 0 {
        PathEnded(m.tree, m.sizes, nb, d, sizebits, v, rsize, c, rst, r);
        t := rst;
        d := r;
        return;
      }
    }
  }

  lemma AtRoot(tree: Tree, root: int, i: nat)
    requires root != 0 && IsChild(tree, root, RootPos(i))
    ensures RootPos(i) in tree && |tree[RootPos(i)]| > 0 && root == tree[RootPos(i)][0]
  {
  }

  lemma OnPathBit(tree: Tree, sizes: Sizes, nb: nat, p: Pos, k: int, v: int, rsize: int, c: Pos, rst: int, r: Pos)
    requires OnPath(tree, sizes, nb, p, k, v, rsize, c, rst, r) && p.w > 0
    ensures k / 0x8000_0000_0000_0000 % 2 == NextBit(nb, p.w) < 2
  {
    hide SizeWord, NextBit, AllAhead, Chosen;
    SizeWordStep(nb, p.w);
  }

  lemma StepDown(tree: Tree, sizes: Sizes, d: Pos, b: nat, t: int)
    requires Shape(tree, sizes) && d in tree && d.w > 0 && b < 2 && IsChild(tree, t, Down(d, b))
    ensures Down(d, b).w < d.w && Down(d, b).w <= RootBits(Down(d, b).bin)
    ensures t != 0 ==> Down(d, b) in tree && |tree[Down(d, b)]| > 0 && t == tree[Down(d, b)][0]
    ensures t == 0 ==> Down(d, b) !in tree
  {
    hide Shape;
    ShapeAt(tree, sizes, d);
  }

  // ---- the next bin ----

  /** The root of the first tree bin above `idx` that is not empty, or null. */
  method NextTree(m: State, nb: nat, idx: nat) returns (t: int, ghost d: Pos)
    requires m.Bins() && MIN_LARGE_SIZE <= nb < WORD_LIMIT && idx == TreeIndex(nb) && idx < 32
    requires OnlyHigher(m.tree, m.sizes, nb)
    ensures Descending(m.tree, m.sizes, nb, t, d, 0, Minus(0, nb), RootPos(idx))
  {
    hide *;
    t, d := 0, RootPos(idx);
    BinsShape(m);
    HigherBits(m, nb);
    var leftbits := And(LeftBits(Bit(idx)), m.treemap);
    if leftbits != 0 {
      var i := BitIndex(LeastBit(leftbits));
      d := RootPos(i);
      TreeRootRead(m, i);
      t := m.At(TreeBinAt(i));
      HigherRoot(m.tree, m.sizes, nb, i, t);
    } else {
      NoneHigher(m.tree, m.sizes, nb);
    }
  }

  /** Bin `i` is the lowest that holds a chunk that fits. */
  ghost predicate LowestFit(tree: Tree, sizes: Sizes, nb: nat, i: nat) {
    && TreeIndex(nb) < i < 32 && RootPos(i) in tree
    && forall q {:trigger Key(tree, sizes, q)} :: q in tree && nb <= Key(tree, sizes, q) ==> i <= q.bin
  }

  lemma HigherBits(m: State, nb: nat)
    requires m.Bins() && TreeIndex(nb) < 32 && OnlyHigher(m.tree, m.sizes, nb)
    ensures var leftbits := And(LeftBits(Bit(TreeIndex(nb))), m.treemap);
            && (leftbits != 0 ==> LeastBit(leftbits) != 0)
            && (leftbits != 0 ==> LowestFit(m.tree, m.sizes, nb, BitIndex(LeastBit(leftbits))))
            && (leftbits == 0 ==> forall q {:trigger Key(m.tree, m.sizes, q)} :: q in m.tree ==>
                 Key(m.tree, m.sizes, q) < nb)
  {
    hide Shape, Key, TreeIndex, And, LeftBits, Bit, LeastBit, Marked, Spaced, SizeHeads, SmallBins.SmallLinks,
      TreeLinks;
    var leftbits := And(LeftBits(Bit(TreeIndex(nb))), m.treemap);
    LeftOf(m.treemap, TreeIndex(nb));
    NonZeroHasMark(leftbits);
    if leftbits != 0 {
      LeastBitIsLeast(leftbits);
      RootRead(m.mem, m.treemap, m.sizes, m.tree, BitIndex(LeastBit(leftbits)));
    }
    forall q | q in m.tree && nb <= Key(m.tree, m.sizes, q)
      ensures q.bin < 32 && Marked(leftbits, q.bin)
    {
      KeyRange(m.tree, m.sizes, q);
      UnderRoot(m.tree, m.sizes, q);
      RootRead(m.mem, m.treemap, m.sizes, m.tree, q.bin);
    }
  }

  lemma TreeRootRead(m: State, i: nat)
    requires m.Bins() && i < 32
    ensures m.Mapped(TreeBinAt(i)) && IsChild(m.tree, m.At(TreeBinAt(i)), RootPos(i))
    ensures Marked(m.treemap, i) <==> RootPos(i) in m.tree
  {
    hide Shape, Spaced, TreeLinks, SizeHeads, SmallBins.SmallLinks, Marked;
    RootRead(m.mem, m.treemap, m.sizes, m.tree, i);
    BinWordMapped(m, i);
  }

  lemma HigherRoot(tree: Tree, sizes: Sizes, nb: nat, i: nat, t: int)
    requires Shape(tree, sizes) && MIN_LARGE_SIZE <= nb < WORD_LIMIT && LowestFit(tree, sizes, nb, i)
    requires IsChild(tree, t, RootPos(i))
    ensures Descending(tree, sizes, nb, t, RootPos(i), 0, Minus(0, nb), RootPos(TreeIndex(nb)))
  {
    hide Shape, Key, TreeIndex, RootPos;
    var d := RootPos(i);
    KeyRange(tree, sizes, d);
    RootBin(i);
    forall q | q in tree && nb <= Key(tree, sizes, q)
      ensures Covered(tree, sizes, WORD_LIMIT, true, d, q)
    {
      KeyRange(tree, sizes, q);
      UnderRoot(tree, sizes, q);
      if i < q.bin {
        LowerBinLess(Key(tree, sizes, d), Key(tree, sizes, q));
      }
    }
    forall q | Under(tree, sizes, d, q)
      ensures q in tree && Key(tree, sizes, q) >= nb
    {
      LowerBinLess(nb, Key(tree, sizes, q));
    }
  }

  lemma RootBin(i: nat)
    ensures RootPos(i).bin == i
  {
  }

  lemma NoneHigher(tree: Tree, sizes: Sizes, nb: nat)
    requires MIN_LARGE_SIZE <= nb < WORD_LIMIT
    requires forall q {:trigger Key(tree, sizes, q)} :: q in tree ==> Key(tree, sizes, q) < nb
    ensures Descending(tree, sizes, nb, 0, RootPos(TreeIndex(nb)), 0, Minus(0, nb), RootPos(TreeIndex(nb)))
  {
    hide Key, TreeIndex;
  }
}

/** The small-bin macros on the allocator's state, and the relays that choose between small
    and large bins. */
module SmallChunks {
  import opened Words
  import opened Rings
  import opened BinMaps
  import opened TreeBins
  import opened SmallBins
  import opened TreeChains
  import opened MallocState
  import BinHistory
  import opened LargeChunks
  import opened LargeInsertion

  /** A small bin word, or a ring word of a small binned chunk. */
  ghost predicate SmallWord(sizes: Sizes, a: int) {
    SMALLBINS <= a < TREEBINS || exists y :: y in sizes && IsSmall(sizes[y]) && y + 16 <= a < y + 32
  }

  ghost predicate OnlySmalls(mem: Memory, mem': Memory, sizes: Sizes) {
    forall a {:trigger Peek(mem', a)} :: Peek(mem', a) != Peek(mem, a) ==> SmallWord(sizes, a)
  }

  lemma SmallsAreLinks(mem: Memory, mem': Memory, sizes: Sizes)
    requires OnlySmalls(mem, mem', sizes) && Spaced(sizes)
    ensures OnlyLinks(mem, mem', sizes)
  {
    forall a | Peek(mem', a) != Peek(mem, a)
      ensures LinkWord(sizes, a)
    {
      assert SmallWord(sizes, a);
    }
  }

  lemma TreesKept(mem: Memory, mem': Memory, treemap: BinMap, tree: Tree, sizes: Sizes)
    requires Spaced(sizes) && Shape(tree, sizes) && HoldsLarge(tree, sizes) && TreeLinks(mem, treemap, tree)
    requires OnlySmalls(mem, mem', sizes)
    ensures TreeLinks(mem', treemap, tree)
  {
    hide TreeLinks, Shape;
    forall y | InTree(tree, y)
      ensures SameLinks(mem, mem', y)
    {
      NoSmallWord(sizes, y, Fd(y));
      NoSmallWord(sizes, y, Bk(y));
      NoSmallWord(sizes, y, ChildAt(y, 0));
      NoSmallWord(sizes, y, ChildAt(y, 1));
      NoSmallWord(sizes, y, ParentAt(y));
      NoSmallWord(sizes, y, IndexAt(y));
    }
    forall i | 0 <= i < 32
      ensures Peek(mem', TreeBinAt(i)) == Peek(mem, TreeBinAt(i))
    {
      assert !SmallWord(sizes, TreeBinAt(i));
    }
    TreeFrame(mem, mem', treemap, tree, sizes);
  }

  lemma NoSmallWord(sizes: Sizes, y: int, a: int)
    requires Spaced(sizes) && y in sizes && !IsSmall(sizes[y]) && y <= a < y + sizes[y]
    ensures !SmallWord(sizes, a)
  {
  }

  /** The ring members of a small bin are mapped. */
  lemma SmallMapped(m: State, i: nat, j: nat)
    requires m.Bins() && i < 32 && j < |RingOf(m.small, i)|
    ensures var x := RingOf(m.small, i)[j];
            && m.Mapped(Fd(x)) && m.Mapped(Bk(x)) && x % 16 == 0
            && (j > 0 ==> x in m.sizes && m.sizes[x] == 8 * i && m.OkAddress(x) && x >= GM_END && m.Mapped(Head(x)))
            && (j == 0 ==> x == SmallBinAt(i))
  {
    hide TreeLinks, SmallLinks, Shape, HoldsLarge, HoldsSmall;
    if j > 0 {
      var x := RingOf(m.small, i)[j];
      assert x == m.small[i][j - 1];
      SmallSize(m.small, m.sizes, i, j - 1);
      RingWordsMapped(m, x);
    }
  }

  lemma SmallSize(small: Smalls, sizes: Sizes, i: nat, j: nat)
    requires SmallShape(small, sizes) && i < 32 && j < |small[i]|
    ensures small[i][j] in sizes && sizes[small[i][j]] == 8 * i
  {
    assert BinFits(small, sizes, i);
  }

  lemma RingWordsMapped(m: State, x: int)
    requires x % 16 == 0 && m.segBase <= x && x + 32 <= m.segBase + m.segSize
    ensures m.Mapped(Head(x)) && m.Mapped(Fd(x)) && m.Mapped(Bk(x))
  {
  }

  /** The small bins after `x` has joined or left bin `i`. */
  ghost predicate SmallChanged(mem': Memory, smallmap': BinMap, small': Smalls, sizes': Sizes) {
    SmallShape(small', sizes') && HoldsSmall(small', sizes') && SmallLinks(mem', smallmap', small')
  }

  lemma ThirtyTwo(small: Smalls, sizes: Sizes)
    requires SmallShape(small, sizes)
    ensures |small| == 32
  {
  }

  // ---- inserting ----

  lemma InsertedSmall(mem: Memory, smallmap: BinMap, treemap: BinMap, sizes: Sizes, small: Smalls, tree: Tree,
                      lo: int, hi: int, x: int, s: nat)
    requires BinsOk(mem, smallmap, treemap, sizes, small, tree) && Within(sizes, lo, hi)
    requires Binnable(mem, sizes, lo, hi, x, s) && IsSmall(s)
    ensures var i := s / 8;
            var mem', sizes' := Append(mem, SmallBinAt(i), LastOf(small, i), x), sizes[x := s];
            && BinsOk(mem', Mark(smallmap, i), treemap, sizes', small[i := small[i] + [x]], tree)
            && Within(sizes', lo, hi) && OnlyLinks(mem, mem', sizes')
  {
    hide TreeLinks, SmallLinks, Shape, Append, OnlySmalls, OnlyLinks, SmallShape, Spaced, SizeHeads, Within,
      Binnable, LastOf;
    var i := s / 8;
    ThirtyTwo(small, sizes);
    NotYetBinned(mem, sizes, lo, hi, x, s);
    SpacedMore(mem, sizes, lo, hi, x, s);
    ShapeMore(tree, sizes, x, s);
    SmallShapeMore(small, sizes, x, s);
    InsertedSmallBins(mem, smallmap, sizes, small, lo, hi, x, s);
    AppendSmalls(mem, sizes[x := s], small, i, x);
    var mem' := Append(mem, SmallBinAt(i), LastOf(small, i), x);
    SmallsAreLinks(mem, mem', sizes[x := s]);
    HeadsKept(mem, mem', sizes[x := s], sizes[x := s]);
    HoldsLargeMore(tree, sizes, x, s);
    TreesKept(mem, mem', treemap, tree, sizes[x := s]);
  }

  lemma HoldsLargeMore(tree: Tree, sizes: Sizes, x: int, s: nat)
    requires HoldsLarge(tree, sizes) && x !in sizes && IsSmall(s)
    ensures HoldsLarge(tree, sizes[x := s])
  {
    forall y
      ensures InTree(tree, y) <==> y in sizes[x := s] && !IsSmall(sizes[x := s][y])
    {
      assert InTree(tree, y) <==> y in sizes && !IsSmall(sizes[y]);
    }
  }

  lemma InsertedSmallBins(mem: Memory, smallmap: BinMap, sizes: Sizes, small: Smalls, lo: int, hi: int, x: int, s: nat)
    requires SmallShape(small, sizes) && HoldsSmall(small, sizes) && SmallLinks(mem, smallmap, small) && Spaced(sizes)
    requires Binnable(mem, sizes, lo, hi, x, s) && IsSmall(s) && Within(sizes, lo, hi)
    requires SmallShape(small, sizes[x := s]) && !InSmall(small, x)
    ensures var i := s / 8;
            SmallChanged(Append(mem, SmallBinAt(i), LastOf(small, i), x), Mark(smallmap, i),
                         small[i := small[i] + [x]], sizes[x := s])
  {
    hide SmallLinks, Append, SmallShape, LastOf;
    var i := s / 8;
    ThirtyTwo(small, sizes);
    var small' := small[i := small[i] + [x]];
    InsertLinks(mem, smallmap, small, sizes, i, x);
    InsertShape(small, sizes[x := s], i, x);
    forall y
      ensures InSmall(small', y) <==> y in sizes[x := s] && IsSmall(sizes[x := s][y])
    {
      assert InSmall(small, y) <==> y in sizes && IsSmall(sizes[y]);
    }
  }

  lemma AppendSmalls(mem: Memory, sizes: Sizes, small: Smalls, i: nat, x: int)
    requires SmallShape(small, sizes) && i < 32 && x in sizes && IsSmall(sizes[x])
    ensures OnlySmalls(mem, Append(mem, SmallBinAt(i), LastOf(small, i), x), sizes)
  {
    RingWord(small, sizes, i, 0);
    RingWord(small, sizes, i, |small[i]|);
  }

  lemma RingWord(small: Smalls, sizes: Sizes, i: nat, j: nat)
    requires SmallShape(small, sizes) && i < 32 && j < |RingOf(small, i)|
    ensures SmallWord(sizes, Fd(RingOf(small, i)[j])) && SmallWord(sizes, Bk(RingOf(small, i)[j]))
  {
    if j > 0 {
      SmallSize(small, sizes, i, j - 1);
    }
  }

  // ---- the small bins and the tries ----

  lemma TriesShaped(m: State)
    requires m.Bins()
    ensures Shape(m.tree, m.sizes)
  {
    hide Shape;
  }

  lemma SmallInserted(m: State, small: Smalls, sizes: Sizes, p: int, i: nat)
    requires m.Bins() && Shape(m.tree, sizes) && SmallShape(small, sizes) && p !in sizes && i < |small|
    requires forall x :: x in sizes && x in m.sizes ==> m.sizes[x] == sizes[x]
    requires m.small == small[i := small[i] + [p]] && m.sizes == sizes[p := 8 * i]
    ensures BinHistory.Chronicle(m.trace, small, m.tree, sizes) ==>
              BinHistory.Chronicle(m.trace + [BinHistory.Insert(p, 8 * i)], m.small, m.tree, m.sizes)
  {
    hide Shape, SmallShape, BinHistory.Chronicle, BinHistory.Joined, BinsOk, Within;
    TriesShaped(m);
    BinHistory.SmallJoined(m.small, small, m.tree, sizes, m.sizes, p, i);
    if BinHistory.Chronicle(m.trace, small, m.tree, sizes) {
      BinHistory.ChronicleInsert(m.trace, small, m.tree, sizes, m.small, m.tree, m.sizes, p, 8 * i);
    }
  }

  lemma SmallRemoved(m: State, small: Smalls, sizes: Sizes, i: nat, j: nat)
    requires m.Bins() && Shape(m.tree, sizes) && SmallShape(small, sizes) && i < 32 && |small| == 32
    requires j < |small[i]|
    requires forall x :: x in sizes && x in m.sizes ==> m.sizes[x] == sizes[x]
    requires m.small == small[i := Without(small[i], j)] && !InTree(m.tree, small[i][j])
    requires m.sizes == Less(sizes, small[i][j])
    ensures BinHistory.Chronicle(m.trace, small, m.tree, sizes) ==>
              BinHistory.Chronicle(m.trace + [BinHistory.Remove(small[i][j])], m.small, m.tree, m.sizes)
  {
    hide Shape, SmallShape, InTree, BinHistory.Chronicle, BinHistory.Left, BinsOk, Within;
    TriesShaped(m);
    BinHistory.SmallLeft(m.small, small, m.tree, sizes, m.sizes, i, j);
    if BinHistory.Chronicle(m.trace, small, m.tree, sizes) {
      BinHistory.ChronicleRemove(m.trace, small, m.tree, sizes, m.small, m.tree, m.sizes, small[i][j]);
    }
  }

  lemma ChronicledIs(m: State)
    ensures m.Chronicled() <==> BinHistory.Chronicle(m.trace, m.small, m.tree, m.sizes)
  {
  }

  /** The facts about the bins that the history needs. */
  lemma HistoryStart(m: State)
    requires m.Bins()
    ensures Shape(m.tree, m.sizes) && SmallShape(m.small, m.sizes) && |m.small| == 32
  {
    hide Shape;
  }

  lemma SmallNotInTree(m: State, p: int)
    requires m.Bins() && p in m.sizes && IsSmall(m.sizes[p])
    ensures !InTree(m.tree, p)
  {
    hide TreeLinks, SmallLinks, SmallShape;
    forall d | d in m.tree ensures p !in m.tree[d] {
      ShapeAt(m.tree, m.sizes, d);
    }
  }

  lemma SmallMember(m: State, i: nat, j: nat)
    requires m.Bins() && |m.small| == 32 && i < 32 && j < |m.small[i]|
    ensures m.small[i][j] in m.sizes && IsSmall(m.sizes[m.small[i][j]])
  {
    hide Shape, TreeLinks, SmallLinks;
    assert BinFits(m.small, m.sizes, i);
  }

  lemma NotBinned(m: State, sizes: Sizes, lo: int, hi: int, p: int, s: nat)
    requires Binnable(m.mem, sizes, lo, hi, p, s)
    ensures p !in sizes
  {
  }

  lemma LessAgrees(sizes: Sizes, p: int)
    ensures forall x :: x in sizes && x in Less(sizes, p) ==> Less(sizes, p)[x] == sizes[x]
  {
  }

  lemma MoreAgrees(m: State, sizes: Sizes, lo: int, hi: int, p: int, s: nat)
    requires Binnable(m.mem, sizes, lo, hi, p, s)
    ensures forall x :: x in sizes && x in sizes[p := s] ==> sizes[p := s][x] == sizes[x]
  {
  }

  /** The four links of a chunk `p` that goes between `f` and the header `b`. */
  method LinkSmall(m: State, b: int, f: int, p: int)
    requires m.Mapped(Fd(b)) && m.Mapped(Bk(f)) && m.Mapped(Fd(p)) && m.Mapped(Bk(p))
    modifies m`mem
    ensures m.mem == Append(old(m.mem), b, f, p)
  {
    hide State.Mapped;
    m.Put(Fd(b), p);
    m.Put(Bk(f), p);
    m.Put(Fd(p), f);
    m.Put(Bk(p), b);
  }

  /** The words of `insert_small_chunk`. */
  method PlaceSmall(m: State, p: int, s: nat, i: nat)
    requires m.Bins() && Binnable(m.mem, m.sizes, m.segBase, m.segBase + m.segSize, p, s) && IsSmall(s)
    requires i == s / 8 && i < 32 && |m.small| == 32
    modifies m`mem, m`smallmap
    ensures m.mem == Append(old(m.mem), SmallBinAt(i), LastOf(m.small, i), p)
    ensures m.smallmap == Mark(old(m.smallmap), i)
  {
    hide *;
    ghost var smallmap0 := m.smallmap;
    var b := SmallBinAt(i);
    InsertReads(m, p, s);
    var f := b;
    if !Marked(m.smallmap, i) {
      m.smallmap := Mark(m.smallmap, i);
    } else if m.OkAddress(m.At(Fd(b))) {
      f := m.At(Fd(b));
    } else {
      assert false;
    }
    LinkSmall(m, b, f, p);
    MarkAgain(smallmap0, i);
  }

  method InsertSmallChunk(m: State, p: int, s: nat)
    requires m.Bins() && Binnable(m.mem, m.sizes, m.segBase, m.segBase + m.segSize, p, s) && IsSmall(s)
    modifies m`mem, m`smallmap, m`sizes, m`small, m`trace
    ensures old(m.trace) <= m.trace && (old(m.Chronicled()) ==> m.Chronicled())
    ensures m.trace == old(m.trace) + [BinHistory.Insert(p, s)]
    ensures m.Bins() && m.sizes == old(m.sizes)[p := s]
    ensures m.small == old(m.small)[s / 8 := old(m.small)[s / 8] + [p]]
    ensures OnlyLinks(old(m.mem), m.mem, m.sizes)
  {
    hide *;
    ghost var mem0, smallmap0, sizes0, small0 := m.mem, m.smallmap, m.sizes, m.small;
    HistoryStart(m);
    ChronicledIs(m);
    NotBinned(m, sizes0, m.segBase, m.segBase + m.segSize, p, s);
    MoreAgrees(m, sizes0, m.segBase, m.segBase + m.segSize, p, s);
    BinsThirtyTwo(m);
    var i := SmallIndex(s);
    SmallMultiple(m, p, s);
    SmallIndexOf(s, s / 8);
    InsertedSmall(mem0, smallmap0, m.treemap, sizes0, small0, m.tree, m.segBase, m.segBase + m.segSize, p, s);
    PlaceSmall(m, p, s, i);
    m.sizes := sizes0[p := s];
    m.small := small0[i := small0[i] + [p]];
    BinsFromParts(m);
    SmallInserted(m, small0, sizes0, p, i);
    m.trace := m.trace + [BinHistory.Insert(p, s)];
    ChronicledIs(m);
  }

  lemma SmallMultiple(m: State, p: int, s: nat)
    requires Binnable(m.mem, m.sizes, m.segBase, m.segBase + m.segSize, p, s)
    ensures s == 8 * (s / 8) && (IsSmall(s) ==> s / 8 < 32)
  {
  }

  lemma BinsThirtyTwo(m: State)
    requires m.Bins()
    ensures |m.small| == 32 && Within(m.sizes, m.segBase, m.segBase + m.segSize)
    ensures BinsOk(m.mem, m.smallmap, m.treemap, m.sizes, m.small, m.tree)
  {
  }

  lemma MarkAgain(m: BinMap, i: nat)
    requires i < 32
    ensures Marked(m, i) ==> Mark(m, i) == m
  {
    if Marked(m, i) {
      OrAgain(m, Amount(i));
    }
  }

  lemma OrAgain(m: BinMap, a: bv6)
    requires a < 32 && IsSet(m, a)
    ensures Or(m, PowerAt(a)) == m
  {
  }

  lemma InsertReads(m: State, p: int, s: nat)
    requires m.Bins() && Binnable(m.mem, m.sizes, m.segBase, m.segBase + m.segSize, p, s) && IsSmall(s)
    ensures var i := s / 8;
            var b := SmallBinAt(i);
            && i < 32 && m.Mapped(Fd(b)) && m.Mapped(Bk(b)) && m.Mapped(Fd(p)) && m.Mapped(Bk(p))
            && m.Mapped(Bk(LastOf(m.small, i)))
            && (Marked(m.smallmap, i) ==> m.At(Fd(b)) == LastOf(m.small, i) && m.OkAddress(LastOf(m.small, i)))
            && (!Marked(m.smallmap, i) ==> LastOf(m.small, i) == b)
  {
    hide TreeLinks, Shape, HoldsLarge, SmallShape, Spaced, SizeHeads, Marked, Linked;
    var i := s / 8;
    RingWordsMapped(m, p);
    SmallMapped(m, i, 0);
    SmallMapped(m, i, |m.small[i]|);
    assert BinLink(m.mem, m.smallmap, m.small, i);
    SmallShapeMore(m.small, m.sizes, p, s);
    InsertRing(m.mem, m.smallmap, m.small, m.sizes, i, p);
  }

  // ---- unlinking ----

  lemma UnlinkedSmall(mem: Memory, smallmap: BinMap, treemap: BinMap, sizes: Sizes, small: Smalls, tree: Tree,
                      i: nat, j: nat)
    requires BinsOk(mem, smallmap, treemap, sizes, small, tree) && i < 32 && j < |small[i]|
    ensures var mem', x := UnlinkMem(mem, small, i, j), small[i][j];
            && BinsOk(mem', UnlinkMap(smallmap, small, i), treemap, Less(sizes, x),
                      small[i := Without(small[i], j)], tree)
            && OnlyLinks(mem, mem', sizes)
  {
    hide TreeLinks, SmallLinks, Shape, UnlinkMem, UnlinkMap, OnlySmalls, OnlyLinks, SmallShape, Spaced;
    ThirtyTwo(small, sizes);
    var mem', x := UnlinkMem(mem, small, i, j), small[i][j];
    SmallSize(small, sizes, i, j);
    SpacedLess(sizes, x);
    UnlinkSmalls(mem, sizes, small, i, j);
    SmallsAreLinks(mem, mem', sizes);
    HeadsKept(mem, mem', Less(sizes, x), sizes);
    TreesKept(mem, mem', treemap, tree, sizes);
    ShapeLess(tree, sizes, x);
    UnlinkLinks(mem, smallmap, small, sizes, i, j);
    UnlinkShape(small, sizes, i, j);
    SmallShapeLess(small[i := Without(small[i], j)], sizes, x);
  }

  lemma UnlinkSmalls(mem: Memory, sizes: Sizes, small: Smalls, i: nat, j: nat)
    requires SmallShape(small, sizes) && i < 32 && j < |small[i]|
    ensures OnlySmalls(mem, UnlinkMem(mem, small, i, j), sizes)
  {
    var n := |RingOf(small, i)|;
    RingWord(small, sizes, i, Previous(j + 1, n));
    RingWord(small, sizes, i, Next(j + 1, n));
  }

  /** The words around a small chunk about to be unlinked. */
  lemma UnlinkReads(m: State, i: nat, j: nat)
    requires m.Bins() && i < 32 && j < |m.small[i]|
    ensures var x, r := m.small[i][j], RingOf(m.small, i);
            var f, b := r[Previous(j + 1, |r|)], r[Next(j + 1, |r|)];
            && m.Mapped(Fd(x)) && m.Mapped(Bk(x)) && Peek(m.mem, Fd(x)) == f && Peek(m.mem, Bk(x)) == b
            && (b == f <==> |m.small[i]| == 1) && x != f && x != b
            && (f == SmallBinAt(i) || m.OkAddress(f)) && m.Mapped(Bk(f)) && Peek(m.mem, Bk(f)) == x
            && (b == SmallBinAt(i) || m.OkAddress(b)) && m.Mapped(Fd(b)) && Peek(m.mem, Fd(b)) == x
            && m.Mapped(Head(x)) && ChunkSize(Peek(m.mem, Head(x))) == 8 * i
            && (j + 1 == |m.small[i]| ==> b == SmallBinAt(i))
  {
    hide TreeLinks, Shape, HoldsLarge, HoldsSmall, Spaced, Marked, Bypass, UnlinkMem;
    var r := RingOf(m.small, i);
    var n := |r|;
    assert BinLink(m.mem, m.smallmap, m.small, i);
    UnlinkedRing(m.mem, m.smallmap, m.small, m.sizes, i, j);
    RingMembers(m.small, m.sizes, i);
    SmallMapped(m, i, j + 1);
    SmallMapped(m, i, Previous(j + 1, n));
    SmallMapped(m, i, Next(j + 1, n));
    assert r[j + 1] == m.small[i][j];
    assert Next(Previous(j + 1, n), n) == j + 1 && Previous(Next(j + 1, n), n) == j + 1;
    assert ChunkSize(Peek(m.mem, Head(r[j + 1]))) == m.sizes[r[j + 1]];
  }

  /** The ring of bin `i` without `p`, and all other rings as they are. */
  ghost predicate TakenOut(small': Smalls, small: Smalls, i: nat, p: int) {
    && |small| == 32 && i < 32
    && exists j: nat :: j < |small[i]| && small[i][j] == p && small' == small[i := Without(small[i], j)]
  }

  method UnlinkSmallChunk(m: State, p: int, s: nat)
    requires m.Bins() && p in m.sizes && m.sizes[p] == s && IsSmall(s)
    modifies m`mem, m`smallmap, m`sizes, m`small, m`trace
    ensures old(m.trace) <= m.trace && (old(m.Chronicled()) ==> m.Chronicled())
    ensures m.trace == old(m.trace) + [BinHistory.Remove(p)]
    ensures m.Bins() && m.sizes == Less(old(m.sizes), p)
    ensures TakenOut(m.small, old(m.small), s / 8, p)
    ensures OnlyLinks(old(m.mem), m.mem, old(m.sizes))
  {
    hide *;
    ghost var i0, j := FindSmall(m, p);
    ghost var mem0, sizes0, small0 := m.mem, m.sizes, m.small;
    HistoryStart(m);
    ChronicledIs(m);
    LessAgrees(m.sizes, p);
    SmallNotInTree(m, p);
    UnlinkReads(m, i0, j);
    UnlinkAgrees(m, i0, j);
    SmallIndexOf(s, i0);
    var f, b := m.At(Fd(p)), m.At(Bk(p));
    var i := SmallIndex(s);
    assert p != b && p != f && ChunkSize(m.At(Head(p))) == i * 8;
    if f == SmallBinAt(i) || (m.OkAddress(f) && m.At(Bk(f)) == p) {
      if b == f {
        m.smallmap := Clear(m.smallmap, i);
      } else if b == SmallBinAt(i) || (m.OkAddress(b) && m.At(Fd(b)) == p) {
        m.Put(Bk(f), b);
        m.Put(Fd(b), f);
        BypassIs(mem0, f, b);
      } else {
        assert false;
      }
    } else {
      assert false;
    }
    m.sizes := Less(m.sizes, p);
    m.small := small0[i := Without(small0[i], j)];
    NowTakenOut(m.small, small0, i, p, j);
    BinsFromParts(m);
    SmallRemoved(m, small0, sizes0, i, j);
    m.trace := m.trace + [BinHistory.Remove(p)];
    ChronicledIs(m);
  }

  lemma NowTakenOut(small': Smalls, small: Smalls, i: nat, p: int, j: nat)
    requires |small| == 32 && i < 32 && j < |small[i]| && small[i][j] == p && small' == small[i := Without(small[i], j)]
    ensures TakenOut(small', small, i, p)
  {
  }

  lemma SmallIndexOf(s: nat, i: nat)
    requires s == 8 * i
    ensures SmallIndex(s) == i == s / 8
  {
  }

  lemma BinsFromParts(m: State)
    requires Within(m.sizes, m.segBase, m.segBase + m.segSize)
    requires BinsOk(m.mem, m.smallmap, m.treemap, m.sizes, m.small, m.tree)
    ensures m.Bins()
  {
    hide BinsOk, Within;
  }

  /** What unlinking member `j` of bin `i` comes to, by the words it reads. */
  lemma UnlinkAgrees(m: State, i: nat, j: nat)
    requires m.Bins() && i < 32 && |m.small| == 32 && j < |m.small[i]|
    ensures var p, r := m.small[i][j], RingOf(m.small, i);
            var f, b := r[Previous(j + 1, |r|)], r[Next(j + 1, |r|)];
            && m.Mapped(Fd(p)) && m.Mapped(Bk(p)) && m.Mapped(Bk(f)) && m.Mapped(Fd(b)) && m.Mapped(Head(p))
            && m.At(Fd(p)) == f && m.At(Bk(p)) == b && m.At(Bk(f)) == p && m.At(Fd(b)) == p
            && ChunkSize(m.At(Head(p))) == 8 * i
            && Within(Less(m.sizes, p), m.segBase, m.segBase + m.segSize)
            && (b == f ==> BinsOk(m.mem, Clear(m.smallmap, i), m.treemap, Less(m.sizes, p),
                                  m.small[i := Without(m.small[i], j)], m.tree)
                           && OnlyLinks(m.mem, m.mem, m.sizes))
            && (b != f ==> BinsOk(Bypass(m.mem, f, b), m.smallmap, m.treemap, Less(m.sizes, p),
                                  m.small[i := Without(m.small[i], j)], m.tree)
                           && OnlyLinks(m.mem, Bypass(m.mem, f, b), m.sizes))
  {
    hide TreeLinks, SmallLinks, Shape, OnlyLinks, SmallShape, Spaced, SizeHeads, Within, HoldsLarge, HoldsSmall,
      BinsOk, Clear, Bypass;
    UnlinkReads(m, i, j);
    UnlinkedSmall(m.mem, m.smallmap, m.treemap, m.sizes, m.small, m.tree, i, j);
    WithinLess(m.sizes, m.small[i][j], m.segBase, m.segBase + m.segSize);
  }

  lemma FindSmall(m: State, p: int) returns (i: nat, j: nat)
    requires m.Bins() && p in m.sizes && IsSmall(m.sizes[p])
    ensures |m.small| == 32 && i < 32 && j < |m.small[i]| && m.small[i][j] == p && 8 * i == m.sizes[p]
    ensures Within(Less(m.sizes, p), m.segBase, m.segBase + m.segSize)
  {
    hide TreeLinks, SmallLinks, Shape;
    assert InSmall(m.small, p);
    i :| 0 <= i < |m.small| && p in m.small[i];
    j :| 0 <= j < |m.small[i]| && m.small[i][j] == p;
    SmallSize(m.small, m.sizes, i, j);
  }

  /** `b` is the header of bin `i` and `p` its first chunk, the newest. */
  method UnlinkFirstSmallChunk(m: State, b: int, p: int, i: nat)
    requires m.Bins() && i < 32 && |m.small| == 32 && m.small[i] != []
    requires b == SmallBinAt(i) && p == m.small[i][|m.small[i]| - 1]
    modifies m`mem, m`smallmap, m`sizes, m`small, m`trace
    ensures old(m.trace) <= m.trace && (old(m.Chronicled()) ==> m.Chronicled())
    ensures m.trace == old(m.trace) + [BinHistory.Remove(p)]
    ensures m.Bins() && m.sizes == Less(old(m.sizes), p)
    ensures TakenOut(m.small, old(m.small), i, p)
    ensures OnlyLinks(old(m.mem), m.mem, old(m.sizes))
  {
    hide *;
    ghost var mem0, sizes0, small0 := m.mem, m.sizes, m.small;
    ghost var j := |small0[i]| - 1;
    HistoryStart(m);
    ChronicledIs(m);
    LessAgrees(m.sizes, p);
    SmallMember(m, i, j);
    SmallNotInTree(m, p);
    UnlinkReads(m, i, j);
    UnlinkAgrees(m, i, j);
    var f := m.At(Fd(p));
    assert p != b && p != f && ChunkSize(m.At(Head(p))) == i * 8;
    if b == f {
      m.smallmap := Clear(m.smallmap, i);
    } else if m.OkAddress(f) && m.At(Bk(f)) == p {
      m.Put(Bk(f), b);
      m.Put(Fd(b), f);
      BypassIs(mem0, f, b);
    } else {
      assert false;
    }
    m.sizes := Less(m.sizes, p);
    m.small := small0[i := Without(small0[i], j)];
    NowTakenOut(m.small, small0, i, p, j);
    BinsFromParts(m);
    SmallRemoved(m, small0, sizes0, i, j);
    m.trace := m.trace + [BinHistory.Remove(p)];
    ChronicledIs(m);
  }

  // ---- relays ----

  method InsertChunk(m: State, p: int, s: nat)
    requires m.Bins() && Binnable(m.mem, m.sizes, m.segBase, m.segBase + m.segSize, p, s)
    modifies m`mem, m`smallmap, m`treemap, m`sizes, m`small, m`tree, m`trace
    ensures old(m.trace) <= m.trace && (old(m.Chronicled()) ==> m.Chronicled())
    ensures m.trace == old(m.trace) + [BinHistory.Insert(p, s)]
    ensures m.Bins() && m.sizes == old(m.sizes)[p := s]
    ensures OnlyLinks(old(m.mem), m.mem, m.sizes)
  {
    hide *;
    if IsSmall(s) {
      InsertSmallChunk(m, p, s);
    } else {
      InsertLargeChunk(m, p, s);
    }
  }

  method UnlinkChunk(m: State, p: int, s: nat)
    requires m.Bins() && p in m.sizes && m.sizes[p] == s
    modifies m`mem, m`smallmap, m`treemap, m`sizes, m`small, m`tree, m`trace
    ensures old(m.trace) <= m.trace && (old(m.Chronicled()) ==> m.Chronicled())
    ensures m.trace == old(m.trace) + [BinHistory.Remove(p)]
    ensures m.Bins() && m.sizes == Less(old(m.sizes), p)
    ensures OnlyLinks(old(m.mem), m.mem, old(m.sizes))
  {
    hide *;
    if IsSmall(s) {
      UnlinkSmallChunk(m, p, s);
    } else {
      LargeIsInTree(m, p);
      UnlinkLargeChunk(m, p);
    }
  }

  lemma LargeIsInTree(m: State, p: int)
    requires m.Bins() && p in m.sizes && !IsSmall(m.sizes[p])
    ensures InTree(m.tree, p)
  {
    hide TreeLinks, SmallLinks, Shape;
  }
}

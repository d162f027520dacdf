/** The allocator's record of one space, `struct malloc_state`, over a word memory, and the
    invariant of its bins. The ghost fields say which chunks the heap consists of and which
    of them the bins hold; nothing computes with them. */
module MallocState {
  import opened Words
  import opened BinMaps
  import opened TreeBins
  import opened SmallBins
  import BinHistory

  /** A chunk between two boundaries, with its `cinuse` and `pinuse` bits. */
  datatype Chunk = Chunk(size: nat, cinuse: bool, pinuse: bool)

  type Chunks = map<int, Chunk>

  class State {
    var mem: Memory
    var smallmap: BinMap
    var treemap: BinMap
    var dvsize: int
    var topsize: int
    var dv: int
    var top: int
    var segBase: int
    var segSize: int
    var footprint: int
    var maxFootprint: int

    /** Every chunk of the segment below `top`. */
    ghost var chunks: Chunks
    /** The chunks held in bins, with their sizes. */
    ghost var sizes: Sizes
    ghost var small: Smalls
    ghost var tree: Tree
    /** What has been put into the bins and taken out of them so far. */
    ghost var trace: seq<BinHistory.BinOp>

    /** A zeroed `malloc_state`. */
    constructor ()
      ensures mem == map[] && smallmap == 0 && treemap == 0 && dvsize == 0 && topsize == 0 && dv == 0 && top == 0
      ensures footprint == 0 && maxFootprint == 0
      ensures chunks == map[] && sizes == map[] && small == seq(32, i => []) && tree == map[] && trace == []
    {
      mem := map[];
      smallmap, treemap := 0, 0;
      dvsize, topsize, dv, top := 0, 0, 0, 0;
      segBase, segSize, footprint, maxFootprint := 0, 0, 0, 0;
      chunks, sizes, small, tree, trace := map[], map[], seq(32, i => []), map[], [];
    }

    /** Words the allocator may touch: its own bin words and those of its segment. */
    predicate Mapped(a: int)
      reads `segBase, `segSize
    {
      a % 8 == 0 && (SMALLBINS <= a < GM_END || segBase <= a < segBase + segSize)
    }

    /** `ok_address(M, a)`; `least_addr` is the base of the only segment. */
    predicate OkAddress(a: int)
      reads `segBase
    {
      segBase <= a
    }

    function At(a: int): int
      requires Mapped(a)
      reads `mem, `segBase, `segSize
    {
      Peek(mem, a)
    }

    method Put(a: int, v: int)
      requires Mapped(a)
      modifies `mem
      ensures mem == old(mem)[a := v]
    {
      mem := mem[a := v];
    }

    /** Binned chunks lie inside the segment and apart from each other. */
    ghost predicate Region()
      reads `sizes, `segBase, `segSize
    {
      Within(sizes, segBase, segBase + segSize) && Spaced(sizes)
    }

    ghost predicate Bins()
      reads `mem, `smallmap, `treemap, `sizes, `small, `tree, `segBase, `segSize
    {
      && Within(sizes, segBase, segBase + segSize)
      && BinsOk(mem, smallmap, treemap, sizes, small, tree)
    }

    /** The bins hold the chunks of every size in the order in which they came. */
    ghost predicate Chronicled()
      reads `trace, `small, `tree, `sizes
    {
      BinHistory.Chronicle(trace, small, tree, sizes)
    }
  }

  /** Binned chunks lie in the segment, clear of its last words. */
  ghost predicate Within(sizes: Sizes, lo: int, hi: int) {
    && GM_END <= lo && lo % 16 == 0 && hi < WORD_LIMIT
    && forall x :: x in sizes ==> lo <= x && x + sizes[x] < hi
  }

  ghost predicate SizeHeads(mem: Memory, sizes: Sizes) {
    forall x {:trigger Head(x)} :: x in sizes ==> ChunkSize(Peek(mem, Head(x))) == sizes[x]
  }

  ghost predicate BinsOk(mem: Memory, smallmap: BinMap, treemap: BinMap, sizes: Sizes, small: Smalls, tree: Tree) {
    && Spaced(sizes) && SizeHeads(mem, sizes)
    && SmallShape(small, sizes) && HoldsSmall(small, sizes) && SmallLinks(mem, smallmap, small)
    && Shape(tree, sizes) && HoldsLarge(tree, sizes) && TreeLinks(mem, treemap, tree)
  }

  // ---- which words bin operations may change ----

  /** A word of the allocator's own, or inside a binned chunk past its head. */
  ghost predicate LinkWord(sizes: Sizes, a: int) {
    SMALLBINS <= a < GM_END || exists y :: y in sizes && y + 16 <= a < y + sizes[y]
  }

  ghost predicate OnlyLinks(mem: Memory, mem': Memory, sizes: Sizes) {
    forall a {:trigger Peek(mem', a)} :: Peek(mem', a) != Peek(mem, a) ==> LinkWord(sizes, a)
  }

  lemma HeadsKept(mem: Memory, mem': Memory, sizes: Sizes, big: Sizes)
    requires OnlyLinks(mem, mem', big) && Spaced(big) && SizeHeads(mem, sizes)
    requires forall x :: x in sizes ==> x in big
    ensures SizeHeads(mem', sizes)
  {
    forall x | x in sizes
      ensures ChunkSize(Peek(mem', Head(x))) == sizes[x]
    {
      assert ChunkSize(Peek(mem, Head(x))) == sizes[x];
      assert !LinkWord(big, Head(x));
    }
  }

  // ---- one chunk less ----

  ghost function Less(sizes: Sizes, x: int): Sizes {
    sizes - {x}
  }

  lemma SpacedLess(sizes: Sizes, x: int)
    requires Spaced(sizes)
    ensures Spaced(Less(sizes, x))
  {
  }

  lemma ShapeLess(tree: Tree, sizes: Sizes, x: int)
    requires Shape(tree, sizes) && !InTree(tree, x)
    ensures Shape(tree, Less(sizes, x))
  {
    forall p | p in tree
      ensures ChainFits(tree, Less(sizes, x), p)
    {
      assert ChainFits(tree, sizes, p);
      assert x !in tree[p];
    }
    forall p, q | p in tree && q in tree && Key(tree, Less(sizes, x), p) == Key(tree, Less(sizes, x), q)
      ensures p == q
    {
      assert ChainFits(tree, sizes, p) && ChainFits(tree, sizes, q);
      assert tree[p][0] in tree[p] && tree[q][0] in tree[q];
      assert Key(tree, sizes, p) == Key(tree, sizes, q);
    }
  }

  lemma SmallShapeLess(small: Smalls, sizes: Sizes, x: int)
    requires SmallShape(small, sizes) && !InSmall(small, x)
    ensures SmallShape(small, Less(sizes, x))
  {
    forall i | 0 <= i < 32
      ensures BinFits(small, Less(sizes, x), i)
    {
      assert BinFits(small, sizes, i);
      assert x !in small[i];
    }
  }

  // ---- one chunk more ----

  lemma ShapeMore(tree: Tree, sizes: Sizes, x: int, s: nat)
    requires Shape(tree, sizes) && x !in sizes
    ensures Shape(tree, sizes[x := s])
    ensures !InTree(tree, x)
  {
    var sizes' := sizes[x := s];
    forall p | p in tree
      ensures ChainFits(tree, sizes', p) && x !in tree[p]
    {
      assert ChainFits(tree, sizes, p);
    }
    forall p, q | p in tree && q in tree && Key(tree, sizes', p) == Key(tree, sizes', q)
      ensures p == q
    {
      assert ChainFits(tree, sizes, p) && ChainFits(tree, sizes, q);
      assert Key(tree, sizes, p) == Key(tree, sizes, q);
    }
  }

  lemma SmallShapeMore(small: Smalls, sizes: Sizes, x: int, s: nat)
    requires SmallShape(small, sizes) && x !in sizes
    ensures SmallShape(small, sizes[x := s])
    ensures !InSmall(small, x)
  {
    forall i | 0 <= i < 32
      ensures BinFits(small, sizes[x := s], i) && x !in small[i]
    {
      assert BinFits(small, sizes, i);
    }
  }

  /** A chunk that may join the bins: in the segment, apart from all binned chunks, and with
      its size in its head. */
  ghost predicate Binnable(mem: Memory, sizes: Sizes, lo: int, hi: int, x: int, s: nat) {
    && x !in sizes && lo <= x && x + s < hi && x % 16 == 0 && s % 16 == 0 && s >= MIN_CHUNK_SIZE
    && ChunkSize(Peek(mem, Head(x))) == s
    && (forall y :: y in sizes ==> x + s <= y || y + sizes[y] <= x)
  }

  lemma SpacedMore(mem: Memory, sizes: Sizes, lo: int, hi: int, x: int, s: nat)
    requires Spaced(sizes) && Within(sizes, lo, hi) && SizeHeads(mem, sizes)
    requires Binnable(mem, sizes, lo, hi, x, s)
    ensures Spaced(sizes[x := s]) && Within(sizes[x := s], lo, hi) && SizeHeads(mem, sizes[x := s])
  {
  }
}

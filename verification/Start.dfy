/** The first memory an allocator gets: `sys_alloc` on a space that is not initialized. */
module Start {
  import opened Words
  import opened BinMaps
  import opened TreeBins
  import opened SmallBins
  import opened MallocState
  import opened Invariant
  import opened SmallChunks
  import opened Freeing
  import opened TopChunk
  import BinHistory

  /** A zeroed `malloc_state`. */
  ghost predicate Zeroed(m: State)
    reads m
  {
    && m.mem == map[] && m.smallmap == 0 && m.treemap == 0 && m.dvsize == 0 && m.topsize == 0 && m.dv == 0 && m.top == 0
    && m.footprint == 0 && m.maxFootprint == 0 && m.chunks == map[] && m.sizes == map[] && m.tree == map[]
    && m.small == seq(32, i => []) && m.trace == []
  }

  /** `init_bins`: every small bin header is linked to itself. */
  method InitBins(m: State)
    modifies m`mem
    ensures OnlyHeaders(old(m.mem), m.mem)
    ensures forall i {:trigger HeaderAlone(m.mem, i)} :: 0 <= i < 32 ==> HeaderAlone(m.mem, i)
  {
    hide OnlyHeaders, HeaderAlone;
    ghost var mem0 := m.mem;
    NoHeaders(mem0);
    for i := 0 to 32
      invariant OnlyHeaders(mem0, m.mem)
      invariant forall j {:trigger HeaderAlone(m.mem, j)} :: 0 <= j < i ==> HeaderAlone(m.mem, j)
    {
      var bin := SmallBinAt(i);
      HeaderStep(mem0, m.mem, i);
      m.Put(Fd(bin), bin);
      m.Put(Bk(bin), bin);
    }
  }

  ghost predicate OnlyHeaders(mem: Memory, mem': Memory) {
    forall a {:trigger Peek(mem', a)} :: Peek(mem', a) != Peek(mem, a) ==> SMALLBINS <= a < TREEBINS
  }

  ghost predicate HeaderAlone(mem: Memory, i: int) {
    Peek(mem, Fd(SmallBinAt(i))) == SmallBinAt(i) && Peek(mem, Bk(SmallBinAt(i))) == SmallBinAt(i)
  }

  lemma NoHeaders(mem: Memory)
    ensures OnlyHeaders(mem, mem)
  {
  }

  lemma HeaderStep(mem0: Memory, mem: Memory, i: int)
    requires OnlyHeaders(mem0, mem) && 0 <= i < 32
    requires forall j {:trigger HeaderAlone(mem, j)} :: 0 <= j < i ==> HeaderAlone(mem, j)
    ensures var bin := SmallBinAt(i);
            var mem' := mem[Fd(bin) := bin][Bk(bin) := bin];
            && OnlyHeaders(mem0, mem')
            && forall j {:trigger HeaderAlone(mem', j)} :: 0 <= j < i + 1 ==> HeaderAlone(mem', j)
  {
    var bin := SmallBinAt(i);
    var mem' := mem[Fd(bin) := bin][Bk(bin) := bin];
    forall j {:trigger HeaderAlone(mem', j)} | 0 <= j < i + 1
      ensures HeaderAlone(mem', j)
    {
      assert j < i ==> HeaderAlone(mem, j);
    }
    forall a | Peek(mem', a) != Peek(mem0, a)
      ensures SMALLBINS <= a < TREEBINS
    {
      assert a != Fd(bin) && a != Bk(bin) ==> Peek(mem, a) != Peek(mem0, a);
    }
  }

  lemma EmptyBins(mem: Memory)
    requires forall i :: 0 <= i < 32 ==> Peek(mem, TreeBinAt(i)) == 0
    ensures BinsOk(mem, 0, 0, map[], seq(32, i => []), map[])
  {
    var small: Smalls, tree: Tree, sizes: Sizes := seq(32, i => []), map[], map[];
    forall i | 0 <= i < 32
      ensures BinLink(mem, 0, small, i) && BinFits(small, sizes, i) && RootLink(mem, 0, tree, i)
    {
      ZeroUnset(Amount(i));
    }
    assert forall x :: !InSmall(small, x);
    assert forall x :: !InTree(tree, x);
  }

  /** First-time initialization of a zeroed space with the memory `[tbase, tbase + tsize)`. */
  method InitSpace(m: State, tbase: int, tsize: int)
    requires Zeroed(m) && tbase >= GM_END && tbase % GRANULARITY == 0 && tsize % GRANULARITY == 0 && tsize > 0
    requires tbase + tsize < WORD_LIMIT
    modifies m
    ensures Valid(m) && Live(m.chunks) == map[] && m.segBase == tbase && m.segSize == tsize
    ensures m.top == tbase && m.topsize == tsize - TOP_FOOT_SIZE
    ensures m.trace == [] && m.Chronicled()
  {
    hide *;
    ZeroedFields(m);
    NoHistory(m);
    InitSizes(tbase, tsize);
    m.footprint := m.footprint + tsize;
    if m.footprint > m.maxFootprint {
      m.maxFootprint := m.footprint;
    }
    m.segBase := tbase;
    m.segSize := tsize;
    InitBins(m);
    InitMapped(m, tbase, tsize);
    ghost var mem1 := m.mem;
    InitTop(m, tbase, tsize - TOP_FOOT_SIZE);
    InitialHeap(m, mem1, tbase, tsize);
  }

  lemma ZeroedFields(m: State)
    requires Zeroed(m)
    ensures m.mem == map[] && m.smallmap == 0 && m.treemap == 0 && m.dvsize == 0 && m.dv == 0 && m.footprint == 0
    ensures m.maxFootprint == 0
    ensures m.chunks == map[] && m.sizes == map[] && m.tree == map[] && m.small == seq(32, i => [])
    ensures m.trace == []
  {
  }

  lemma NoHistory(m: State)
    requires m.trace == [] && m.tree == map[] && m.sizes == map[] && m.small == seq(32, i => [])
    ensures m.Chronicled()
  {
    BinHistory.EmptyChronicle();
  }

  lemma InitSizes(tbase: int, tsize: int)
    requires tbase % GRANULARITY == 0 && tsize % GRANULARITY == 0 && tsize > 0
    ensures tbase % 16 == 0 && tsize % 16 == 0 && tsize > TOP_FOOT_SIZE && tsize >= GRANULARITY
  {
    PageAligned(tbase);
    PageAligned(tsize);
  }

  lemma InitMapped(m: State, tbase: int, tsize: int)
    requires m.segBase == tbase && m.segSize == tsize && tbase % 16 == 0 && tsize % 16 == 0 && tsize > TOP_FOOT_SIZE
    ensures m.Mapped(Head(tbase)) && m.Mapped(Head(tbase + (tsize - TOP_FOOT_SIZE)))
  {
    hide State.Mapped;
    AlignedMapped(m, tbase);
    AlignedMapped(m, tbase + (tsize - TOP_FOOT_SIZE));
  }

  lemma PageAligned(x: int)
    requires x % GRANULARITY == 0
    ensures x % 16 == 0
  {
    assert x == 16 * (256 * (x / GRANULARITY));
  }

  lemma InitialHeap(m: State, mem1: Memory, tbase: int, tsize: int)
    requires m.smallmap == 0 && m.treemap == 0 && m.dvsize == 0 && m.dv == 0
    requires m.chunks == map[] && m.sizes == map[] && m.tree == map[] && m.small == seq(32, i => [])
    requires OnlyHeaders(map[], mem1)
    requires tbase >= GM_END && tbase % 16 == 0 && tsize % 16 == 0 && tsize > TOP_FOOT_SIZE
    requires tbase + tsize < WORD_LIMIT
    requires m.segBase == tbase && m.segSize == tsize && m.footprint == tsize <= m.maxFootprint
    requires m.top == tbase && m.topsize == tsize - TOP_FOOT_SIZE
    requires m.mem == mem1[Head(tbase) := HeadWord(m.topsize, false, true)][Head(tbase + m.topsize) := TOP_FOOT_SIZE]
    ensures Valid(m) && Live(m.chunks) == map[]
  {
    forall i | 0 <= i < 32
      ensures Peek(m.mem, TreeBinAt(i)) == 0
    {
      assert Peek(mem1, TreeBinAt(i)) == 0;
    }
    EmptyBins(m.mem);
    BinsFromParts(m);
  }
}

/** `ialloc`: many chunks in use cut out of one, with the array of pointers to them as the
    last piece unless the caller brings one. */
module Ialloc {
  import opened Words
  import opened TreeBins
  import opened MallocState
  import opened Boundaries
  import opened Invariant
  import opened Freeing
  import opened Taking
  import opened Malloc
  import opened Resizing
  import opened Realloc
  import opened Payloads
  import opened Memalign

  // ---- sizes ----

  /** The chunk size of element `i`; with `same` all elements have the first size. */
  function ElementSize(sizes: seq<nat>, same: bool, i: nat): nat
    requires if same then |sizes| > 0 else i < |sizes|
  {
    RequestToSize(if same then sizes[0] else sizes[i])
  }

  predicate Sized(sizes: seq<nat>, same: bool, n: nat) {
    n > 0 && if same then |sizes| > 0 else n <= |sizes|
  }

  /** Where element `i` starts in the aggregate: the sizes of the elements before it, added
      without wrapping. */
  function Offset(sizes: seq<nat>, same: bool, i: nat): nat
    requires Sized(sizes, same, if i == 0 then 1 else i)
  {
    if i == 0 then 0 else Offset(sizes, same, i - 1) + ElementSize(sizes, same, i - 1)
  }

  /** The chunk size of the pointer array. */
  function ArraySize(n: nat, given: bool): nat {
    if given then 0 else RequestToSize(8 * n % WORD_LIMIT)
  }

  /** The same as the source computes it. */
  function ArrayWord(n: nat, given: bool): nat { ArraySize(n, given) % WORD_LIMIT }

  /** None of the sums `ialloc` computes wraps. */
  predicate SumsFit(sizes: seq<nat>, same: bool, n: nat, given: bool)
    requires Sized(sizes, same, n)
  {
    8 * n < WORD_LIMIT && Offset(sizes, same, n) + ArraySize(n, given) < WORD_LIMIT
  }

  /** `size_t` addition. */
  function WordSum(a: int, b: int): int { (a + b) % WORD_LIMIT }

  /** The size of the aggregate as the source computes it: every sum may wrap. */
  function ComputedSize(sizes: seq<nat>, same: bool, n: nat, given: bool): nat
    requires Sized(sizes, same, n)
  {
    WordSum(Offset(sizes, same, n) % WORD_LIMIT, ArrayWord(n, given))
  }

  /** The bytes it asks `malloc` for. */
  function AskedBytes(sizes: seq<nat>, same: bool, n: nat, given: bool): nat
    requires Sized(sizes, same, n)
  {
    Minus(ComputedSize(sizes, same, n, given), CHUNK_OVERHEAD)
  }

  /** `malloc` gives no chunk for these bytes. */
  ghost predicate Refused(s: Snapshot, sizes: seq<nat>, same: bool, n: nat, given: bool, grows: bool)
    requires Sized(sizes, same, n)
  {
    var bytes := AskedBytes(sizes, same, n, given);
    bytes >= MAX_REQUEST || OutOfMemory(s, RequestToSize(bytes), grows)
  }

  lemma WrapsOnce(x: nat)
    ensures x % WORD_LIMIT == x <==> x < WORD_LIMIT
  {
  }

  lemma WrapBoth(a: nat, b: nat)
    ensures (a % WORD_LIMIT + b % WORD_LIMIT) % WORD_LIMIT == (a + b) % WORD_LIMIT
  {
  }

  /** Each element takes at least as much room as its pointer. */
  lemma {:induction false} PointersSmaller(sizes: seq<nat>, same: bool, i: nat)
    requires Sized(sizes, same, if i == 0 then 1 else i)
    ensures Offset(sizes, same, i) >= 32 * i
  {
    hide ElementSize;
    if i > 0 {
      PointersSmaller(sizes, same, i - 1);
      ElementAligned(sizes, same, i - 1);
    }
  }

  /** The sums fit exactly when the sizes do. */
  lemma FitsWhen(sizes: seq<nat>, same: bool, n: nat, given: bool)
    requires Sized(sizes, same, n)
    ensures SumsFit(sizes, same, n, given) <==> Offset(sizes, same, n) + ArraySize(n, given) < WORD_LIMIT
  {
    hide Offset, ArraySize;
    PointersSmaller(sizes, same, n);
  }

  /** The computed size is the sum of the sizes if and only if none of the sums wraps. */
  lemma TotalExact(sizes: seq<nat>, same: bool, n: nat, given: bool)
    requires Sized(sizes, same, n)
    ensures ComputedSize(sizes, same, n, given) == Offset(sizes, same, n) + ArraySize(n, given)
            <==> SumsFit(sizes, same, n, given)
  {
    FitsWhen(sizes, same, n, given);
    hide Offset, ArraySize, SumsFit;
    WrapBoth(Offset(sizes, same, n), ArraySize(n, given));
    WrapsOnce(Offset(sizes, same, n) + ArraySize(n, given));
  }

  lemma TwoOffset(x: nat)
    ensures Sized([x], true, 2) && Offset([x], true, 2) == 2 * RequestToSize(x)
  {
    SameOffset([x], 2);
  }

  /** Two elements of 2^63 bytes each: a request for 24 bytes, which `malloc` grants from any
      `top` of more than 32 bytes. */
  lemma WrapExample()
    ensures Sized([TOP_POWER], true, 2) && ComputedSize([TOP_POWER], true, 2, true) == 32
    ensures AskedBytes([TOP_POWER], true, 2, true) == 24 && !SumsFit([TOP_POWER], true, 2, true)
    ensures forall s: Snapshot, grows :: s.topsize > 32 ==> !Refused(s, [TOP_POWER], true, 2, true, grows)
  {
    TwoOffset(TOP_POWER);
  }

  /** Two elements of 2^63 - 8 bytes each: the size wraps to 0 and the request to the largest
      number, which `malloc` refuses. */
  lemma RefusedExample(s: Snapshot, grows: bool)
    ensures Sized([TOP_POWER - 8], true, 2) && ComputedSize([TOP_POWER - 8], true, 2, true) == 0
    ensures !SumsFit([TOP_POWER - 8], true, 2, true) && Refused(s, [TOP_POWER - 8], true, 2, true, grows)
  {
    TwoOffset(TOP_POWER - 8);
  }

  lemma WrapSum(a: nat, b: nat)
    ensures (a % WORD_LIMIT + b) % WORD_LIMIT == (a + b) % WORD_LIMIT
  {
  }

  lemma ElementAligned(sizes: seq<nat>, same: bool, i: nat)
    requires if same then |sizes| > 0 else i < |sizes|
    ensures ElementSize(sizes, same, i) % 16 == 0 && ElementSize(sizes, same, i) >= MIN_CHUNK_SIZE
  {
  }

  lemma {:induction false} OffsetMonotone(sizes: seq<nat>, same: bool, i: nat, j: nat)
    requires i <= j && Sized(sizes, same, if j == 0 then 1 else j)
    ensures Sized(sizes, same, if i == 0 then 1 else i)
    ensures Offset(sizes, same, i) <= Offset(sizes, same, j)
    ensures i < j ==> Offset(sizes, same, i) + MIN_CHUNK_SIZE <= Offset(sizes, same, j)
    ensures i < j ==> Offset(sizes, same, i) + ElementSize(sizes, same, i) <= Offset(sizes, same, j)
    decreases j
  {
    if i < j {
      OffsetMonotone(sizes, same, i, j - 1);
      ElementAligned(sizes, same, j - 1);
    }
  }

  lemma {:induction false} OffsetAligned(sizes: seq<nat>, same: bool, i: nat)
    requires Sized(sizes, same, if i == 0 then 1 else i)
    ensures Offset(sizes, same, i) % 16 == 0
  {
    hide ElementSize;
    if i > 0 {
      OffsetAligned(sizes, same, i - 1);
      ElementAligned(sizes, same, i - 1);
      SumOf16(Offset(sizes, same, i - 1), ElementSize(sizes, same, i - 1));
    }
  }

  /** The total size of the elements, as the source adds it up. */
  method ContentsSize(n: nat, sizes: seq<nat>, same: bool) returns (elementSize: nat, contents: nat)
    requires Sized(sizes, same, n)
    ensures contents == Offset(sizes, same, n) % WORD_LIMIT
    ensures elementSize == if same then RequestToSize(sizes[0]) % WORD_LIMIT else 0
  {
    if same {
      elementSize := RequestToSize(sizes[0]) % WORD_LIMIT;
      contents := n * elementSize % WORD_LIMIT;
      SameOffset(sizes, n);
      WrapProduct(n, RequestToSize(sizes[0]));
    } else {
      elementSize, contents := 0, 0;
      var i := 0;
      while i != n
        invariant 0 <= i <= n && contents == Offset(sizes, same, i) % WORD_LIMIT
      {
        WrapSum(Offset(sizes, same, i), RequestToSize(sizes[i]));
        contents := (contents + RequestToSize(sizes[i])) % WORD_LIMIT;
        i := i + 1;
      }
    }
  }

  lemma {:induction false} SameOffset(sizes: seq<nat>, n: nat)
    requires |sizes| > 0
    ensures Offset(sizes, true, n) == n * RequestToSize(sizes[0])
  {
    if n > 0 {
      SameOffset(sizes, n - 1);
      NextProduct(n, RequestToSize(sizes[0]));
    }
  }

  lemma NextProduct(n: nat, s: nat)
    requires n > 0
    ensures n * s == (n - 1) * s + s
  {
  }

  lemma {:induction false} WrapProduct(n: nat, s: nat)
    ensures n * (s % WORD_LIMIT) % WORD_LIMIT == n * s % WORD_LIMIT
  {
    if n > 0 {
      var r := s % WORD_LIMIT;
      WrapProduct(n - 1, s);
      NextProduct(n, s);
      NextProduct(n, r);
      WrapSums((n - 1) * r, (n - 1) * s, s);
    }
  }

  lemma WrapSums(a: nat, b: nat, s: nat)
    requires a % WORD_LIMIT == b % WORD_LIMIT
    ensures (a + s % WORD_LIMIT) % WORD_LIMIT == (b + s) % WORD_LIMIT
  {
  }

  // ---- cutting the aggregate ----

  ghost predicate HeadRight(mem: Memory, news: Chunks, x: int)
    requires x in news
  {
    Peek(mem, Head(x)) == HeadWord(news[x].size, true, true)
  }

  /** Changes from the first head of `[lo, hi)` to before the head after it. */
  ghost predicate OnlyInside(mem: Memory, mem': Memory, lo: int, hi: int) {
    forall a {:trigger Peek(mem', a)} :: Peek(mem', a) != Peek(mem, a) ==> Head(lo) <= a < Head(hi)
  }

  ghost predicate AllUsed(news: Chunks) {
    forall x :: x in news ==> news[x].cinuse && news[x].pinuse
  }

  /** `[lo, hi)` consists of the pieces `news`; all heads but that of `q` are written. */
  ghost predicate Cutting(mem0: Memory, mem: Memory, news: Chunks, lo: int, hi: int, q: int) {
    && Tiles(news, lo, hi) && AllUsed(news) && q in news && OnlyInside(mem0, mem, lo, hi)
    && forall x {:trigger HeadRight(mem, news, x)} :: x in news && x != q ==> HeadRight(mem, news, x)
  }

  ghost function Piece(size: nat): Chunk { Chunk(size, true, true) }

  lemma PieceTiles(news: Chunks, lo: int, hi: int, q: int, s: nat)
    requires Tiles(news, lo, hi) && q in news && s % 16 == 0 && MIN_CHUNK_SIZE <= s
    requires s + MIN_CHUNK_SIZE <= news[q].size
    ensures Tiles(news[q := Piece(s)][q + s := Piece(news[q].size - s)], lo, hi) && q + s !in news
  {
    hide Tiles;
    var n' := news[q := Piece(s)][q + s := Piece(news[q].size - s)];
    PieceNew(news, lo, hi, q, s);
    TilesEnds(news, lo, hi);
    forall x | x in n'
      ensures ChunkFits(n', lo, hi, x)
    {
      PieceFits(news, lo, hi, q, s, x);
    }
    forall x, y | x in n' && y in n'
      ensures Apart2(n', x, y)
    {
      PieceApart(news, lo, hi, q, s, x, y);
    }
    TilesFrom(n', lo, hi);
  }

  lemma TilesFrom(news: Chunks, lo: int, hi: int)
    requires lo % 16 == 0 && hi % 16 == 0 && lo <= hi && (lo < hi ==> lo in news)
    requires forall p {:trigger ChunkFits(news, lo, hi, p)} :: p in news ==> ChunkFits(news, lo, hi, p)
    requires forall p, q {:trigger Apart2(news, p, q)} :: p in news && q in news ==> Apart2(news, p, q)
    ensures Tiles(news, lo, hi)
  {
  }

  lemma PieceNew(news: Chunks, lo: int, hi: int, q: int, s: nat)
    requires Tiles(news, lo, hi) && q in news && 0 < s < news[q].size
    ensures q + s !in news
  {
    forall x | x in news
      ensures x != q + s
    {
      assert ChunkFits(news, lo, hi, x) && Apart2(news, q, x);
    }
  }

  lemma PieceFits(news: Chunks, lo: int, hi: int, q: int, s: nat, x: int)
    requires Tiles(news, lo, hi) && q in news && s % 16 == 0 && MIN_CHUNK_SIZE <= s
    requires s + MIN_CHUNK_SIZE <= news[q].size
    requires x in news || x == q + s
    ensures ChunkFits(news[q := Piece(s)][q + s := Piece(news[q].size - s)], lo, hi, x)
  {
    hide Tiles, ChunkFits;
    FitsAt(news, lo, hi, q);
    if x in news {
      FitsAt(news, lo, hi, x);
    }
    PieceFitsFrom(news, lo, hi, q, s, x);
  }

  lemma FitsAt(news: Chunks, lo: int, hi: int, q: int)
    requires Tiles(news, lo, hi) && q in news
    ensures ChunkFits(news, lo, hi, q)
  {
    hide ChunkFits, Apart2;
  }

  lemma PieceFitsFrom(news: Chunks, lo: int, hi: int, q: int, s: nat, x: int)
    requires q in news && s % 16 == 0 && MIN_CHUNK_SIZE <= s && s + MIN_CHUNK_SIZE <= news[q].size
    requires x in news || x == q + s
    requires ChunkFits(news, lo, hi, q) && (x in news ==> ChunkFits(news, lo, hi, x))
    ensures ChunkFits(news[q := Piece(s)][q + s := Piece(news[q].size - s)], lo, hi, x)
  {
    PieceAligned(q, news[q].size, s);
  }

  lemma PieceAligned(q: int, size: int, s: int)
    requires q % 16 == 0 && size % 16 == 0 && s % 16 == 0
    ensures (q + s) % 16 == 0 && (size - s) % 16 == 0 && q + s + (size - s) == q + size
  {
  }

  lemma PieceApart(news: Chunks, lo: int, hi: int, q: int, s: nat, x: int, y: int)
    requires Tiles(news, lo, hi) && q in news && MIN_CHUNK_SIZE <= s && s + MIN_CHUNK_SIZE <= news[q].size
    requires (x in news || x == q + s) && (y in news || y == q + s)
    ensures Apart2(news[q := Piece(s)][q + s := Piece(news[q].size - s)], x, y)
  {
    PieceNew(news, lo, hi, q, s);
    var x0, y0 := if x == q + s then q else x, if y == q + s then q else y;
    assert Apart2(news, x0, y0) && ChunkFits(news, lo, hi, x0) && ChunkFits(news, lo, hi, y0);
  }

  /** One element cut off: its head is written, and the rest is the piece to go on with. */
  lemma CutPiece(mem0: Memory, mem: Memory, news: Chunks, lo: int, hi: int, q: int, s: nat)
    requires Cutting(mem0, mem, news, lo, hi, q)
    requires s % 16 == 0 && MIN_CHUNK_SIZE <= s && s + MIN_CHUNK_SIZE <= news[q].size
    ensures var n', mem' := news[q := Piece(s)]
          [q + s := Piece(news[q].size - s)], mem[Head(q) := HeadWord(s, true, true)];
            Cutting(mem0, mem', n', lo, hi, q + s) && q + s !in news
  {
    hide Tiles, OnlyInside, HeadWord;
    var n', mem' := news[q := Piece(s)][q + s := Piece(news[q].size - s)], mem[Head(q) := HeadWord(s, true, true)];
    PieceTiles(news, lo, hi, q, s);
    InsideHead(mem0, mem, news, lo, hi, q, HeadWord(s, true, true));
    forall x | x in n' && x != q + s
      ensures HeadRight(mem', n', x)
    {
      assert x != q ==> HeadRight(mem, news, x);
    }
  }

  lemma InsideHead(mem0: Memory, mem: Memory, news: Chunks, lo: int, hi: int, q: int, v: int)
    requires Tiles(news, lo, hi) && q in news && OnlyInside(mem0, mem, lo, hi)
    ensures OnlyInside(mem0, mem[Head(q) := v], lo, hi)
  {
    assert ChunkFits(news, lo, hi, q);
    InsideWrite(mem0, mem, lo, hi, Head(q), v);
  }

  lemma InsideWrite(mem0: Memory, mem: Memory, lo: int, hi: int, a: int, v: int)
    requires OnlyInside(mem0, mem, lo, hi) && Head(lo) <= a < Head(hi)
    ensures OnlyInside(mem0, mem[a := v], lo, hi)
  {
    forall b | Peek(mem[a := v], b) != Peek(mem0, b)
      ensures Head(lo) <= b < Head(hi)
    {
      assert b != a ==> Peek(mem, b) != Peek(mem0, b);
    }
  }

  /** The last element takes what is left. */
  lemma LastPiece(mem0: Memory, mem: Memory, news: Chunks, lo: int, hi: int, q: int)
    requires Cutting(mem0, mem, news, lo, hi, q)
    ensures var mem' := mem[Head(q) := HeadWord(news[q].size, true, true)];
            Cutting(mem0, mem', news, lo, hi, q) && HeadRight(mem', news, q)
  {
    hide Tiles, OnlyInside, HeadWord;
    var mem' := mem[Head(q) := HeadWord(news[q].size, true, true)];
    InsideHead(mem0, mem, news, lo, hi, q, HeadWord(news[q].size, true, true));
    forall x | x in news && x != q
      ensures HeadRight(mem', news, x)
    {
      assert HeadRight(mem, news, x);
    }
  }

  /** Storing a pointer in the array, a piece of its own. */
  lemma PointerStored(mem0: Memory, mem: Memory, news: Chunks, lo: int, hi: int, q: int, arr: int, a: int, v: int)
    requires Cutting(mem0, mem, news, lo, hi, q) && arr in news && PayloadWord(arr, news[arr].size, a)
    ensures Cutting(mem0, mem[a := v], news, lo, hi, q)
  {
    hide Tiles, OnlyInside, HeadWord;
    InArray(news, lo, hi, arr, a);
    InsideWrite(mem0, mem, lo, hi, a, v);
    forall x | x in news && x != q
      ensures HeadRight(mem[a := v], news, x)
    {
      assert HeadRight(mem, news, x);
    }
  }

  lemma InArray(news: Chunks, lo: int, hi: int, arr: int, a: int)
    requires Tiles(news, lo, hi) && arr in news && PayloadWord(arr, news[arr].size, a)
    ensures Head(lo) <= a < Head(hi) && forall x :: x in news ==> a != Head(x)
  {
    assert ChunkFits(news, lo, hi, arr);
    forall x | x in news
      ensures a != Head(x)
    {
      assert Apart2(news, x, arr) && ChunkFits(news, lo, hi, x);
    }
  }

  // ---- the finished aggregate ----

  ghost function Sizes(news: Chunks): map<int, nat> {
    map x | x in news :: news[x].size
  }

  lemma AllFlags(news: Chunks, lo: int, hi: int)
    requires Tiles(news, lo, hi) && AllUsed(news) && lo < hi
    ensures FlagsWithin(news, lo, hi, true, true) && InRegion(news, lo, hi)
    ensures forall p {:trigger p in news} :: p in news && p != lo ==> news[p].pinuse
  {
    forall x | x in news
      ensures NewFlagsAt(news, hi, true, x) && lo <= x < hi
    {
      assert ChunkFits(news, lo, hi, x);
    }
  }

  lemma AllTags(s: Snapshot, mem: Memory, news: Chunks, lo: int, hi: int)
    requires Sound(s) && lo in s.chunks && s.chunks[lo].cinuse && hi == End(s.chunks, lo)
    requires OnlyInside(s.mem, mem, lo, hi) && AllUsed(news)
    requires forall x {:trigger HeadRight(mem, news, x)} :: x in news ==> HeadRight(mem, news, x)
    ensures NewTags(mem, s.chunks, lo, hi, news, true)
  {
    hide Tiles, Flags, Placed, OnlyInside;
    forall x | x in news
      ensures NewTagsAt(mem, news, x)
    {
      assert HeadRight(mem, news, x);
    }
    if hi in s.chunks {
      UsedBefore(s, lo);
      InsideOnly(s.mem, mem, lo, hi, Head(hi));
      assert TagsAt(s.mem, s.chunks, hi);
    }
  }

  lemma UsedBefore(s: Snapshot, lo: int)
    requires Sound(s) && lo in s.chunks && s.chunks[lo].cinuse && End(s.chunks, lo) in s.chunks
    ensures s.chunks[End(s.chunks, lo)].pinuse
  {
    assert FlagsAt(s.chunks, s.top, lo);
  }

  lemma InsideOnly(mem: Memory, mem': Memory, lo: int, hi: int, a: int)
    requires OnlyInside(mem, mem', lo, hi) && !(Head(lo) <= a < Head(hi))
    ensures Peek(mem', a) == Peek(mem, a)
  {
  }

  lemma InsideRegion(mem: Memory, mem': Memory, sizes: Sizes, lo: int, hi: int)
    requires OnlyInside(mem, mem', lo, hi)
    ensures OnlyRegion(mem, mem', sizes, lo, hi)
  {
  }

  lemma InsideBins(m: State, s: Snapshot, lo: int)
    requires Sound(s) && BinsOk(s.mem, m.smallmap, m.treemap, m.sizes, m.small, m.tree) && m.sizes == s.sizes
    requires lo in s.chunks && s.chunks[lo].cinuse && OnlyInside(s.mem, m.mem, lo, End(s.chunks, lo))
    ensures BinsOk(m.mem, m.smallmap, m.treemap, m.sizes, m.small, m.tree)
  {
    hide BinsOk, Tiles, Flags, Tags, OnlyInside, LinkWord;
    var hi := End(s.chunks, lo);
    OwnBlock(s, lo);
    RemainsElsewhere(s, s.sizes, lo, hi);
    forall a | Peek(m.mem, a) != Peek(s.mem, a)
      ensures !LinkWord(s.sizes, a) && !IsHead(s.sizes, a)
    {
      if !(Head(lo) <= a < Head(hi)) {
        InsideOnly(s.mem, m.mem, lo, hi, a);
      }
      BlockNoLink(s, s.sizes, lo, hi, a);
      InsideNoHead(s, lo, a);
    }
    BinsKept(s.mem, m.mem, m.smallmap, m.treemap, m.sizes, m.small, m.tree);
  }

  lemma InsideNoHead(s: Snapshot, lo: int, a: int)
    requires Sound(s) && lo in s.chunks && s.chunks[lo].cinuse && Head(lo) <= a < Head(End(s.chunks, lo))
    ensures !IsHead(s.sizes, a)
  {
    hide Flags, Tags;
    forall x | x in s.sizes
      ensures a != Head(x)
    {
      assert Apart2(s.chunks, x, lo) && ChunkFits(s.chunks, s.base, s.top, x);
    }
  }

  lemma CutPlaced(s: Snapshot, lo: int, news: Chunks)
    requires Sound(s) && lo in s.chunks && s.chunks[lo].cinuse && AllUsed(news) && InRegion(news, lo, End(s.chunks, lo))
    ensures Placed(Retile(s.chunks, lo, End(s.chunks, lo), news, true), s.sizes, s.dv, s.dvsize)
  {
    hide Retile, HeapOk, TopOk;
    OwnBlock(s, lo);
    RetileAll(s.chunks, lo, End(s.chunks, lo), news, true);
    OnlyUsedInside(s, lo);
  }

  lemma OnlyUsedInside(s: Snapshot, lo: int)
    requires Sound(s) && lo in s.chunks && s.chunks[lo].cinuse
    ensures forall x :: x in s.chunks && lo <= x < End(s.chunks, lo) ==> x == lo
  {
    hide Flags, Tags;
    forall x | x in s.chunks && lo <= x < End(s.chunks, lo)
      ensures x == lo
    {
      assert Apart2(s.chunks, x, lo) && ChunkFits(s.chunks, s.base, s.top, x);
    }
  }

  lemma CutLive(s: Snapshot, lo: int, news: Chunks)
    requires Sound(s) && lo in s.chunks && s.chunks[lo].cinuse && AllUsed(news) && InRegion(news, lo, End(s.chunks, lo))
    ensures Live(Retile(s.chunks, lo, End(s.chunks, lo), news, true)) == (Live(s.chunks) - {lo}) + Sizes(news)
  {
    hide Retile, Sound, Live, Sizes;
    OnlyUsedInside(s, lo);
    LiveRetile(s.chunks, lo, End(s.chunks, lo), news, true);
    UsedLive(news);
    LiveAt(s.chunks);
    BlockOrder(s, lo);
    var rest := map x | x in Live(s.chunks) && !(lo <= x < End(s.chunks, lo)) :: s.chunks[x].size;
    assert rest == Live(s.chunks) - {lo};
  }

  lemma UsedLive(news: Chunks)
    requires AllUsed(news)
    ensures Live(news) == Sizes(news)
  {
    forall x
      ensures x in Live(news) <==> x in Sizes(news)
    {
      assert x in news ==> news[x].cinuse;
    }
  }

  /** The pieces are chunks in use; nothing but the aggregate has changed for the caller. */
  lemma AllCut(m: State, s: Snapshot, lo: int, news: Chunks, q: int)
    requires Sound(s) && BinsOk(s.mem, m.smallmap, m.treemap, m.sizes, m.small, m.tree)
    requires SameFields(m, s.(chunks := m.chunks))
    requires lo in s.chunks && s.chunks[lo].cinuse && s.chunks[lo].pinuse
    requires Cutting(s.mem, m.mem, news, lo, End(s.chunks, lo), q) && HeadRight(m.mem, news, q)
    requires m.chunks == Retile(s.chunks, lo, End(s.chunks, lo), news, true)
    ensures Valid(m) && Live(m.chunks) == (Live(s.chunks) - {lo}) + Sizes(news)
    ensures Untouched(s.mem, m.mem, Live(s.chunks) - {lo})
  {
    hide Retile, Tiles, Flags, Tags, BinsOk, Placed, Untouched, OnlyInside, OnlyRegion, HeadRight, Live, NewTags,
      FlagsWithin, Within;
    var hi := End(s.chunks, lo);
    OwnBlock(s, lo);
    BlockOrder(s, lo);
    PlacedFree(s.chunks, s.sizes, s.dv, s.dvsize);
    AllFlags(news, lo, hi);
    AllTags(s, m.mem, news, lo, hi);
    InsideRegion(s.mem, m.mem, s.sizes, lo, hi);
    RetileHeap(s.mem, m.mem, s.chunks, s.sizes, s.base, s.top, lo, hi, news, true);
    CutPlaced(s, lo, news);
    CutLive(s, lo, news);
    InsideBins(m, s, lo);
    InsideOnly(s.mem, m.mem, lo, hi, Head(hi));
    BlockTop(m.mem, s, lo, hi);
    LiveAt(s.chunks);
    RegionUntouched(s.mem, m.mem, s.chunks, s.sizes, s.base, s.top, lo, hi, Live(s.chunks) - {lo}) by {
      OnlyUsedInside(s, lo);
    }
  }

  lemma BlockOrder(s: Snapshot, lo: int)
    requires Sound(s) && lo in s.chunks && s.chunks[lo].cinuse
    ensures lo < End(s.chunks, lo) && IsRegion(s.chunks, s.base, s.top, lo, End(s.chunks, lo))
  {
    OwnBlock(s, lo);
  }

  // ---- the layout ----

  /** An aggregate chunk of `size` bytes at `p` for `n` elements. */
  datatype Plan = Plan(p: int, size: nat, n: nat, sizes: seq<nat>, same: bool, given: bool)

  /** The chunk is large enough for its elements and array. */
  ghost predicate GoodPlan(pl: Plan) {
    && Sized(pl.sizes, pl.same, pl.n) && pl.p % 16 == 0 && pl.size % 16 == 0 && 8 * pl.n < WORD_LIMIT
    && Offset(pl.sizes, pl.same, pl.n) + ArraySize(pl.n, pl.given) <= pl.size
  }

  /** Where element `i` starts; for `i == n`, the array. */
  function At(pl: Plan, i: nat): int
    requires Sized(pl.sizes, pl.same, pl.n) && i <= pl.n
  {
    pl.p + Offset(pl.sizes, pl.same, i)
  }

  /** What is left for element `i` and those after it. */
  function Rest(pl: Plan, i: nat): int
    requires Sized(pl.sizes, pl.same, pl.n) && i <= pl.n
  {
    (if pl.given then pl.size else Offset(pl.sizes, pl.same, pl.n)) - Offset(pl.sizes, pl.same, i)
  }

  ghost predicate ElementAt(pl: Plan, news: Chunks, j: nat)
    requires Sized(pl.sizes, pl.same, pl.n) && j < pl.n
  {
    At(pl, j) in news && news[At(pl, j)].size == ElementSize(pl.sizes, pl.same, j)
  }

  /** The first `i` elements are pieces of their size, the rest of the room is one piece, and
      so is the array. */
  ghost predicate Laid(pl: Plan, news: Chunks, i: nat)
    requires Sized(pl.sizes, pl.same, pl.n) && i < pl.n
  {
    && (forall j {:trigger ElementAt(pl, news, j)} :: 0 <= j < i ==> ElementAt(pl, news, j))
    && At(pl, i) in news && news[At(pl, i)].size == Rest(pl, i)
    && (!pl.given ==> ArrayPiece(pl, news))
  }

  ghost predicate ArrayPiece(pl: Plan, news: Chunks)
    requires Sized(pl.sizes, pl.same, pl.n)
  {
    var arr := At(pl, pl.n);
    arr in news && news[arr].size == pl.size - Offset(pl.sizes, pl.same, pl.n)
  }

  lemma PlanFacts(pl: Plan, i: nat)
    requires GoodPlan(pl) && i < pl.n
    ensures At(pl, i) % 16 == 0 && ElementSize(pl.sizes, pl.same, i) % 16 == 0
    ensures ElementSize(pl.sizes, pl.same, i) >= MIN_CHUNK_SIZE
    ensures ElementSize(pl.sizes, pl.same, i) <= Rest(pl, i)
    ensures At(pl, i + 1) == At(pl, i) + ElementSize(pl.sizes, pl.same, i)
    ensures i + 1 < pl.n ==> ElementSize(pl.sizes, pl.same, i) + MIN_CHUNK_SIZE <= Rest(pl, i)
    ensures Rest(pl, i + 1) == Rest(pl, i) - ElementSize(pl.sizes, pl.same, i)
    ensures At(pl, i) < At(pl, i + 1) <= At(pl, pl.n)
  {
    hide Offset, ElementSize, ArraySize;
    OffsetAligned(pl.sizes, pl.same, i);
    ElementAligned(pl.sizes, pl.same, i);
    OffsetMonotone(pl.sizes, pl.same, i + 1, pl.n);
    OffsetNext(pl.sizes, pl.same, i);
    SumOf16(pl.p, Offset(pl.sizes, pl.same, i));
  }

  lemma OffsetNext(sizes: seq<nat>, same: bool, i: nat)
    requires Sized(sizes, same, i + 1)
    ensures Offset(sizes, same, i + 1) == Offset(sizes, same, i) + ElementSize(sizes, same, i)
  {
  }

  lemma LaidStep(pl: Plan, news: Chunks, i: nat)
    requires GoodPlan(pl) && i + 1 < pl.n && Laid(pl, news, i)
    ensures var q, s := At(pl, i), ElementSize(pl.sizes, pl.same, i);
            && s + MIN_CHUNK_SIZE <= news[q].size && s % 16 == 0 && s >= MIN_CHUNK_SIZE && q + s == At(pl, i + 1)
            && Laid(pl, news[q := Piece(s)][q + s := Piece(news[q].size - s)], i + 1)
  {
    hide Offset, ElementSize;
    PlanFacts(pl, i);
    PlanFacts(pl, i + 1);
    var q, s := At(pl, i), ElementSize(pl.sizes, pl.same, i);
    var n' := news[q := Piece(s)][q + s := Piece(news[q].size - s)];
    forall j {:trigger ElementAt(pl, n', j)} | 0 <= j < i + 1
      ensures ElementAt(pl, n', j)
    {
      if j < i {
        assert ElementAt(pl, news, j);
        PlanFacts(pl, j);
        OffsetMonotone(pl.sizes, pl.same, j, i);
      }
    }
  }

  lemma LaidFirst(pl: Plan)
    requires GoodPlan(pl)
    ensures pl.size >= MIN_CHUNK_SIZE && At(pl, 0) == pl.p
    ensures pl.given ==> Laid(pl, map[pl.p := Piece(pl.size)], 0)
    ensures !pl.given ==> var c := Offset(pl.sizes, pl.same, pl.n);
              && c % 16 == 0 && MIN_CHUNK_SIZE <= c && c + MIN_CHUNK_SIZE <= pl.size
              && Laid(pl, map[pl.p := Piece(c), pl.p + c := Piece(pl.size - c)], 0)
  {
    OffsetMonotone(pl.sizes, pl.same, 0, pl.n);
    OffsetAligned(pl.sizes, pl.same, pl.n);
  }

  /** The array has room for a pointer to each element. */
  lemma ArrayRoom(pl: Plan, news: Chunks, i: nat)
    requires GoodPlan(pl) && i < pl.n && !pl.given && ArrayPiece(pl, news)
    ensures var arr := At(pl, pl.n);
            PayloadWord(arr, news[arr].size, arr + 16 + 8 * i) && (arr + 16 + 8 * i) % 8 == 0
  {
    hide Offset, ArraySize;
    OffsetAligned(pl.sizes, pl.same, pl.n);
    ArrayHolds(pl.n);
    PointerEight(pl.p, Offset(pl.sizes, pl.same, pl.n), i);
  }

  lemma ArrayHolds(n: nat)
    requires 8 * n < WORD_LIMIT
    ensures ArraySize(n, false) >= 8 * n + CHUNK_OVERHEAD
  {
  }

  lemma PointerEight(p: int, c: int, i: int)
    requires p % 16 == 0 && c % 16 == 0
    ensures (p + c + 16 + 8 * i) % 8 == 0
  {
  }

  // ---- payloads ----

  /** Pieces other than the array keep their payload words. */
  ghost predicate PayloadsKept(mem0: Memory, mem: Memory, news: Chunks, arr: int) {
    forall x, a {:trigger PayloadWord(x, news[x].size, a)} ::
      x in news && x != arr && PayloadWord(x, news[x].size, a) ==> Peek(mem, a) == Peek(mem0, a)
  }

  lemma CutKeeps(mem0: Memory, mem: Memory, news: Chunks, lo: int, hi: int, arr: int, q: int, s: nat, v: int)
    requires Tiles(news, lo, hi) && PayloadsKept(mem0, mem, news, arr) && q in news && q != arr
    requires s % 16 == 0 && MIN_CHUNK_SIZE <= s && s + MIN_CHUNK_SIZE <= news[q].size
    ensures PayloadsKept(mem0, mem[Head(q) := v], news[q := Piece(s)][q + s := Piece(news[q].size - s)], arr)
  {
    hide Tiles;
    var n' := news[q := Piece(s)][q + s := Piece(news[q].size - s)];
    PieceTiles(news, lo, hi, q, s);
    forall x, a | x in n' && x != arr && PayloadWord(x, n'[x].size, a)
      ensures Peek(mem[Head(q) := v], a) == Peek(mem0, a)
    {
      InArray(n', lo, hi, x, a);
      var y := if x == q + s then q else x;
      assert PayloadWord(y, news[y].size, a);
    }
  }

  lemma LastKeeps(mem0: Memory, mem: Memory, news: Chunks, lo: int, hi: int, arr: int, q: int, v: int)
    requires Tiles(news, lo, hi) && PayloadsKept(mem0, mem, news, arr) && q in news
    ensures PayloadsKept(mem0, mem[Head(q) := v], news, arr)
  {
    hide Tiles;
    forall x, a | x in news && x != arr && PayloadWord(x, news[x].size, a)
      ensures Peek(mem[Head(q) := v], a) == Peek(mem0, a)
    {
      InArray(news, lo, hi, x, a);
    }
  }

  lemma PointerKeeps(mem0: Memory, mem: Memory, news: Chunks, lo: int, hi: int, arr: int, b: int, v: int)
    requires Tiles(news, lo, hi) && PayloadsKept(mem0, mem, news, arr) && arr in news
    requires PayloadWord(arr, news[arr].size, b)
    ensures PayloadsKept(mem0, mem[b := v], news, arr)
  {
    forall x, a | x in news && x != arr && PayloadWord(x, news[x].size, a)
      ensures Peek(mem[b := v], a) == Peek(mem0, a)
    {
      assert Apart2(news, x, arr);
    }
  }

  // ---- the pointers ----

  ghost predicate PointerAt(mem: Memory, marray: int, elems: seq<int>, j: nat)
    requires j < |elems|
  {
    Peek(mem, marray + 8 * j) == elems[j]
  }

  ghost predicate Pointers(mem: Memory, marray: int, elems: seq<int>) {
    forall j: nat {:trigger PointerAt(mem, marray, elems, j)} :: j < |elems| ==> PointerAt(mem, marray, elems, j)
  }

  lemma PointerMore(mem: Memory, marray: int, elems: seq<int>, v: int)
    requires Pointers(mem, marray, elems)
    ensures Pointers(mem[marray + 8 * |elems| := v], marray, elems + [v])
  {
    var mem' := mem[marray + 8 * |elems| := v];
    forall j: nat {:trigger PointerAt(mem', marray, elems + [v], j)} | j < |elems + [v]|
      ensures PointerAt(mem', marray, elems + [v], j)
    {
      assert j < |elems| ==> PointerAt(mem, marray, elems, j);
    }
  }

  lemma PointersStay(pl: Plan, mem: Memory, news: Chunks, lo: int, hi: int, elems: seq<int>, q: int, v: int)
    requires GoodPlan(pl) && !pl.given && ArrayPiece(pl, news) && Tiles(news, lo, hi) && q in news && |elems| <= pl.n
    requires Pointers(mem, At(pl, pl.n) + 16, elems)
    ensures Pointers(mem[Head(q) := v], At(pl, pl.n) + 16, elems)
  {
    hide Tiles, Offset;
    var marray, mem' := At(pl, pl.n) + 16, mem[Head(q) := v];
    forall j: nat {:trigger PointerAt(mem', marray, elems, j)} | j < |elems|
      ensures PointerAt(mem', marray, elems, j)
    {
      assert PointerAt(mem, marray, elems, j);
      ArrayRoom(pl, news, j);
      InArray(news, lo, hi, At(pl, pl.n), marray + 8 * j);
    }
  }

  // ---- the loop ----

  ghost predicate Elements(pl: Plan, elems: seq<int>)
    requires Sized(pl.sizes, pl.same, pl.n)
  {
    |elems| <= pl.n && forall j: nat {:trigger elems[j]} :: j < |elems| ==> elems[j] == At(pl, j) + 16
  }

  /** The aggregate has been cut up to element `i`, `q`; `elems` are the pointers stored. */
  ghost predicate CutTo(mem: Memory, s: Snapshot, pl: Plan, news: Chunks, i: nat, q: int, elems: seq<int>,
                        marray: int) {
    && GoodPlan(pl) && i < pl.n && Laid(pl, news, i) && q == At(pl, i)
    && Cutting(s.mem, mem, news, pl.p, pl.p + pl.size, q) && PayloadsKept(s.mem, mem, news, At(pl, pl.n))
    && Elements(pl, elems) && (!pl.given ==> marray == At(pl, pl.n) + 16 && Pointers(mem, marray, elems))
  }

  /** Words inside the aggregate are mapped. */
  lemma InsideMapped2(m: State, pl: Plan, s: Snapshot, a: int)
    requires Sound(s) && m.segBase == s.base && m.segSize == s.size && a % 8 == 0
    requires pl.p in s.chunks && s.chunks[pl.p].size == pl.size && Head(pl.p) <= a < Head(pl.p + pl.size)
    ensures m.Mapped(a)
  {
    hide Flags, Tags, Placed;
    assert ChunkFits(s.chunks, s.base, s.top, pl.p);
  }

  lemma ElementMapped(m: State, pl: Plan, s: Snapshot, news: Chunks, q: int)
    requires Sound(s) && m.segBase == s.base && m.segSize == s.size && pl.p in s.chunks
    requires s.chunks[pl.p].size == pl.size
    requires Tiles(news, pl.p, pl.p + pl.size) && q in news
    ensures m.Mapped(Head(q))
  {
    hide Sound, Tiles, State.Mapped;
    PieceIn(news, pl.p, pl.p + pl.size, q);
    InsideMapped2(m, pl, s, Head(q));
  }

  lemma PieceIn(news: Chunks, lo: int, hi: int, q: int)
    requires Tiles(news, lo, hi) && q in news
    ensures Head(lo) <= Head(q) < Head(hi) && Head(q) % 8 == 0
  {
    hide Tiles;
    FitsAt(news, lo, hi, q);
    HeadEight(q);
  }

  lemma HeadEight(q: int)
    requires q % 16 == 0
    ensures Head(q) % 8 == 0
  {
  }

  lemma PointerMapped(m: State, pl: Plan, s: Snapshot, news: Chunks, i: nat)
    requires Sound(s) && m.segBase == s.base && m.segSize == s.size && pl.p in s.chunks
    requires s.chunks[pl.p].size == pl.size
    requires Tiles(news, pl.p, pl.p + pl.size) && GoodPlan(pl) && i < pl.n && !pl.given && ArrayPiece(pl, news)
    ensures m.Mapped(At(pl, pl.n) + 16 + 8 * i)
  {
    hide Sound, Offset;
    ArrayRoom(pl, news, i);
    InArray(news, pl.p, pl.p + pl.size, At(pl, pl.n), At(pl, pl.n) + 16 + 8 * i);
    InsideMapped2(m, pl, s, At(pl, pl.n) + 16 + 8 * i);
  }

  /** Where the aggregate is, while its words are rewritten. */
  ghost predicate Aggregate(m: State, s: Snapshot, pl: Plan)
    reads m`segBase, m`segSize
  {
    && Sound(s) && m.segBase == s.base && m.segSize == s.size && pl.p in s.chunks && s.chunks[pl.p].size == pl.size
    && s.chunks[pl.p].cinuse && s.chunks[pl.p].pinuse
  }

  /** `marray[i] = chunk2mem(p)`. */
  method StorePointer(m: State, marray: int, i: nat, q: int, elems: seq<int>, given: bool,
                      ghost s: Snapshot, ghost pl: Plan, ghost news: Chunks) returns (elems': seq<int>)
    requires Aggregate(m, s, pl) && CutTo(m.mem, s, pl, news, i, q, elems, marray) && |elems| == i && given == pl.given
    modifies m`mem
    ensures CutTo(m.mem, s, pl, news, i, q, elems', marray) && elems' == elems + [q + 16]
  {
    hide *;
    ghost var mem1 := m.mem;
    elems' := elems + [q + 16];
    if !given {
      StoreReads(m, s, pl, news, i, q, elems, marray);
      m.Put(marray + 8 * i, q + 16);
    }
    PointerDone(m.mem, s, pl, news, i, q, elems, marray, mem1);
  }

  lemma StoreReads(m: State, s: Snapshot, pl: Plan, news: Chunks, i: nat, q: int, elems: seq<int>, marray: int)
    requires Aggregate(m, s, pl) && CutTo(m.mem, s, pl, news, i, q, elems, marray) && !pl.given
    ensures m.Mapped(marray + 8 * i)
  {
    hide Sound, Tiles, ArrayPiece, State.Mapped;
    PointerMapped(m, pl, s, news, i);
  }

  lemma PointerDone(mem': Memory, s: Snapshot, pl: Plan, news: Chunks, i: nat, q: int, elems: seq<int>, marray: int,
                    mem1: Memory)
    requires CutTo(mem1, s, pl, news, i, q, elems, marray) && |elems| == i
    requires mem' == if pl.given then mem1 else mem1[marray + 8 * i := q + 16]
    ensures CutTo(mem', s, pl, news, i, q, elems + [q + 16], marray)
  {
    hide Tiles, Offset, HeadRight, OnlyInside, ArrayPiece, PayloadsKept, Pointers;
    if !pl.given {
      var a, arr := marray + 8 * i, At(pl, pl.n);
      ArrayRoom(pl, news, i);
      assert arr in news by { ArrayIn(pl, news); }
      PointerStored(s.mem, mem1, news, pl.p, pl.p + pl.size, q, arr, a, q + 16);
      PointerKeeps(s.mem, mem1, news, pl.p, pl.p + pl.size, arr, a, q + 16);
      PointerMore(mem1, marray, elems, q + 16);
    }
  }

  lemma ArrayIn(pl: Plan, news: Chunks)
    requires GoodPlan(pl) && ArrayPiece(pl, news)
    ensures At(pl, pl.n) in news
  {
  }

  /** One element that is not the last. */
  lemma StepDone(mem': Memory, s: Snapshot, pl: Plan, news: Chunks, i: nat, q: int, elems: seq<int>, marray: int,
                 mem1: Memory)
    requires CutTo(mem1, s, pl, news, i, q, elems, marray) && i + 1 < pl.n
    requires mem' == mem1[Head(q) := HeadWord(ElementSize(pl.sizes, pl.same, i), true, true)]
    ensures var z := ElementSize(pl.sizes, pl.same, i);
            && q in news && z < news[q].size
            && CutTo(mem', s, pl, news[q := Piece(z)][q + z := Piece(news[q].size - z)], i + 1, q + z, elems, marray)
  {
    hide Tiles, Offset, HeadRight, OnlyInside, ArrayPiece, PayloadsKept, Pointers, HeadWord, AllUsed;
    var z, hi := ElementSize(pl.sizes, pl.same, i), pl.p + pl.size;
    PlanFacts(pl, i);
    LaidStep(pl, news, i);
    CutPiece(s.mem, mem1, news, pl.p, hi, q, z);
    CutKeeps(s.mem, mem1, news, pl.p, hi, At(pl, pl.n), q, z, HeadWord(z, true, true));
    if !pl.given {
      PointersStay(pl, mem1, news, pl.p, hi, elems, q, HeadWord(z, true, true));
    }
  }

  /** The last element. */
  lemma LastDone(mem': Memory, s: Snapshot, pl: Plan, news: Chunks, i: nat, q: int, elems: seq<int>, marray: int,
                 mem1: Memory)
    requires CutTo(mem1, s, pl, news, i, q, elems, marray)
    requires mem' == mem1[Head(q) := HeadWord(Rest(pl, i), true, true)]
    ensures CutTo(mem', s, pl, news, i, q, elems, marray) && q in news && HeadRight(mem', news, q) && q == At(pl, i)
  {
    hide Tiles, Offset, HeadRight, OnlyInside, ArrayPiece, PayloadsKept, Pointers, HeadWord, AllUsed;
    var hi := pl.p + pl.size;
    PlanFacts(pl, i);
    LastPiece(s.mem, mem1, news, pl.p, hi, q);
    LastKeeps(s.mem, mem1, news, pl.p, hi, At(pl, pl.n), q, HeadWord(Rest(pl, i), true, true));
    if !pl.given {
      PointersStay(pl, mem1, news, pl.p, hi, elems, q, HeadWord(Rest(pl, i), true, true));
    }
  }

  /** Splitting out the array, if it is to be part of the aggregate, and the elements. */
  method CutElements(m: State, p: int, size: nat, contents: nat, n: nat, sizes: seq<nat>, same: bool,
                     elementSize: nat, given: bool,
                     ghost s: Snapshot, ghost pl: Plan)
    returns (marray: int, elems: seq<int>, ghost news: Chunks)
    requires Aggregate(m, s, pl) && m.mem == s.mem && GoodPlan(pl) && pl == Plan(p, size, n, sizes, same, given)
    requires contents == Offset(sizes, same, n) && elementSize == if same then RequestToSize(sizes[0]) else 0
    modifies m`mem
    ensures n > 0 && CutTo(m.mem, s, pl, news, n - 1, At(pl, n - 1), elems, marray) && |elems| == n
    ensures At(pl, n - 1) in news && HeadRight(m.mem, news, At(pl, n - 1))
  {
    hide *;
    marray, elems := 0, [];
    LaidFirst(pl);
    PlanParts(pl);
    var q, remaining := p, size;
    if !given {
      var arrayChunk, arrayChunkSize := p + contents, size - contents;
      marray := arrayChunk + 16;
      ArrayMapped(m, s, pl);
      SetSizeAndPinuseOfInuseChunk(m, arrayChunk, arrayChunkSize);
      remaining := contents;
      news := map[p := Piece(contents), p + contents := Piece(size - contents)];
    } else {
      news := map[p := Piece(size)];
    }
    CutStart(m.mem, s, pl, news, marray);
    var i := 0;
    while i != n - 1
      invariant 0 <= i <= n - 1 && CutTo(m.mem, s, pl, news, i, q, elems, marray) && |elems| == i
      invariant remaining == Rest(pl, i)
    {
      elems := StorePointer(m, marray, i, q, elems, given, s, pl, news);
      SizeGiven(pl, i);
      var z := if elementSize != 0 then elementSize else RequestToSize(sizes[i]);
      ElementIs(pl, i, z);
      remaining := remaining - z;
      CutMapped(m, s, pl, news, i, q, elems, marray);
      ghost var mem1 := m.mem;
      SetSizeAndPinuseOfInuseChunk(m, q, z);
      StepDone(m.mem, s, pl, news, i, q, elems, marray, mem1);
      news := news[q := Piece(z)][q + z := Piece(news[q].size - z)];
      q := q + z;
      i := i + 1;
    }
    elems := StorePointer(m, marray, i, q, elems, given, s, pl, news);
    CutMapped(m, s, pl, news, i, q, elems, marray);
    ghost var mem1 := m.mem;
    SetSizeAndPinuseOfInuseChunk(m, q, remaining);
    LastDone(m.mem, s, pl, news, i, q, elems, marray, mem1);
  }

  lemma PlanParts(pl: Plan)
    requires GoodPlan(pl)
    ensures Sized(pl.sizes, pl.same, pl.n) && pl.n > 0 && At(pl, 0) == pl.p
    ensures Rest(pl, 0) == if pl.given then pl.size else Offset(pl.sizes, pl.same, pl.n)
    ensures !pl.given ==> Offset(pl.sizes, pl.same, pl.n) <= pl.size
  {
  }

  lemma ArrayMapped(m: State, s: Snapshot, pl: Plan)
    requires Aggregate(m, s, pl) && GoodPlan(pl) && !pl.given
    ensures m.Mapped(Head(pl.p + Offset(pl.sizes, pl.same, pl.n)))
  {
    hide Sound, State.Mapped, Offset, ArraySize;
    var c := Offset(pl.sizes, pl.same, pl.n);
    LaidFirst(pl);
    SumOf16(pl.p, c);
    HeadEight(pl.p + c);
    InsideMapped2(m, pl, s, Head(pl.p + c));
  }

  lemma CutMapped(m: State, s: Snapshot, pl: Plan, news: Chunks, i: nat, q: int, elems: seq<int>, marray: int)
    requires Aggregate(m, s, pl) && CutTo(m.mem, s, pl, news, i, q, elems, marray)
    ensures m.Mapped(Head(q))
  {
    hide Sound, State.Mapped, Tiles, ArrayPiece, Offset;
    ElementMapped(m, pl, s, news, q);
  }

  lemma SizeGiven(pl: Plan, i: nat)
    requires GoodPlan(pl) && i < pl.n
    ensures (if pl.same then RequestToSize(pl.sizes[0]) else 0) == 0 ==> i < |pl.sizes|
  {
    hide Offset, ArraySize;
    ElementAligned(pl.sizes, pl.same, i);
  }

  /** Both ways of computing the element's size agree. */
  lemma ElementIs(pl: Plan, i: nat, z: int)
    requires GoodPlan(pl) && i + 1 < pl.n
    requires var e := if pl.same then RequestToSize(pl.sizes[0]) else 0;
             z == if e != 0 then e else RequestToSize(pl.sizes[i])
    ensures z == ElementSize(pl.sizes, pl.same, i) && Rest(pl, i + 1) == Rest(pl, i) - z && z >= 0
  {
    hide Offset, ArraySize;
    PlanFacts(pl, i);
  }

  lemma CutStart(mem: Memory, s: Snapshot, pl: Plan, news: Chunks, marray: int)
    requires GoodPlan(pl)
    requires pl.given ==> news == map[pl.p := Piece(pl.size)] && mem == s.mem
    requires !pl.given ==> var c := Offset(pl.sizes, pl.same, pl.n);
               && c <= pl.size && news == map[pl.p := Piece(c), pl.p + c := Piece(pl.size - c)]
               && marray == pl.p + c + 16
               && mem == s.mem[Head(pl.p + c) := HeadWord(pl.size - c, true, true)]
    ensures CutTo(mem, s, pl, news, 0, pl.p, [], marray)
  {
    hide Offset, ElementSize, HeadWord, Cutting, PayloadsKept, Laid;
    LaidFirst(pl);
    assert Elements(pl, []);
    assert Pointers(mem, marray, []);
    if pl.given {
      StartWhole(s.mem, pl.p, pl.size, At(pl, pl.n));
    } else {
      StartArray(s.mem, pl.p, Offset(pl.sizes, pl.same, pl.n), pl.size);
    }
  }

  lemma StartWhole(mem: Memory, p: int, size: nat, arr: int)
    requires p % 16 == 0 && size % 16 == 0 && size >= MIN_CHUNK_SIZE
    ensures Cutting(mem, mem, map[p := Piece(size)], p, p + size, p)
    ensures PayloadsKept(mem, mem, map[p := Piece(size)], arr)
  {
    WholeTiles(p, p + size);
    assert Whole(p, p + size) == map[p := Piece(size)];
  }

  lemma StartArray(mem: Memory, p: int, c: nat, size: nat)
    requires p % 16 == 0 && size % 16 == 0 && c % 16 == 0 && c >= MIN_CHUNK_SIZE && c + MIN_CHUNK_SIZE <= size
    ensures var news := map[p := Piece(c), p + c := Piece(size - c)];
            var mem' := mem[Head(p + c) := HeadWord(size - c, true, true)];
            Cutting(mem, mem', news, p, p + size, p) && PayloadsKept(mem, mem', news, p + c)
  {
    hide Tiles, HeadWord;
    var news, mem' := map[p := Piece(c), p + c := Piece(size - c)], mem[Head(p + c) := HeadWord(size - c, true, true)];
    TwoTiles(p, c, p + size, true, true);
    assert Two(p, c, p + size, true, true) == news;
    assert HeadRight(mem', news, p + c);
  }

  // ---- clearing ----

  ghost predicate ZeroWord(mem: Memory, mem0: int, k: int) {
    Peek(mem, mem0 + 8 * k) == 0
  }

  /** The first `k` words from `mem0` are zero. */
  ghost predicate Zeroed(mem: Memory, mem0: int, k: int) {
    forall i {:trigger ZeroWord(mem, mem0, i)} :: 0 <= i < k ==> ZeroWord(mem, mem0, i)
  }

  lemma ZeroMore(mem: Memory, mem0: int, k: nat)
    requires Zeroed(mem, mem0, k)
    ensures Zeroed(mem[mem0 + 8 * k := 0], mem0, k + 1)
  {
    var mem' := mem[mem0 + 8 * k := 0];
    forall i {:trigger ZeroWord(mem', mem0, i)} | 0 <= i < k + 1
      ensures ZeroWord(mem', mem0, i)
    {
      assert i < k ==> ZeroWord(mem, mem0, i);
    }
  }

  lemma ClearWord(m: State, p: int, k: nat, bytes: nat)
    requires Valid(m) && p in Live(m.chunks) && bytes + 8 <= Live(m.chunks)[p] && k < bytes / 8
    ensures PayloadWord(p, Live(m.chunks)[p], p + 16 + 8 * k) && (p + 16 + 8 * k) % 8 == 0
  {
    hide Valid, Live;
    LiveAligned(m, p);
    Of16Of8(p);
  }

  lemma LiveAligned(m: State, p: int)
    requires Valid(m) && p in Live(m.chunks)
    ensures p % 16 == 0
  {
    hide State.Bins, Flags, Tags, Placed;
    assert ChunkFits(m.chunks, m.segBase, m.top, p);
  }

  /** `memset(mem, 0, bytes)` on the payload of `p`. */
  method Clear(m: State, mem: int, bytes: nat, ghost p: int)
    requires Valid(m) && p in Live(m.chunks) && mem == p + 16 && bytes % 8 == 0 && bytes + 8 <= Live(m.chunks)[p]
    modifies m`mem
    ensures Valid(m) && Untouched(old(m.mem), m.mem, Live(m.chunks) - {p}) && Zeroed(m.mem, mem, bytes / 8)
  {
    hide *;
    ghost var mem0, live := m.mem, Live(m.chunks) - {p};
    var k := 0;
    NothingCleared(mem0, mem, live);
    while k < bytes / 8
      invariant 0 <= k <= bytes / 8 && Valid(m) && Untouched(mem0, m.mem, live) && Zeroed(m.mem, mem, k)
    {
      ghost var mem1 := m.mem;
      ClearWord(m, p, k, bytes);
      ZeroMore(m.mem, mem, k);
      Store(m, p, mem + 8 * k, 0);
      UntouchedTwice(mem0, mem1, m.mem, live, live);
      k := k + 1;
    }
  }

  lemma NothingCleared(mem: Memory, a: int, live: map<int, nat>)
    ensures Untouched(mem, mem, live) && Zeroed(mem, a, 0)
  {
  }

  // ---- ialloc ----

  /** The aggregate has become its elements, and the array if it is part of it, all chunks in
      use that tile it; nothing else has changed for the caller. */
  ghost predicate Carved(m: State, s: Snapshot, pl: Plan, news: Chunks, elems: seq<int>, marray: int)
    reads m
  {
    && Valid(m) && GoodPlan(pl) && pl.p !in Live(s.chunks)
    && Tiles(news, pl.p, pl.p + pl.size) && Laid(pl, news, pl.n - 1)
    && NoneLive(s, news) && Live(m.chunks) == Live(s.chunks) + Sizes(news)
    && Untouched(s.mem, m.mem, Live(s.chunks)) && m.segBase == s.base && m.segSize >= s.size
    && Elements(pl, elems) && |elems| == pl.n
    && (!pl.given ==> marray == At(pl, pl.n) + 16 && Pointers(m.mem, marray, elems))
  }

  ghost predicate NoneLive(s: Snapshot, news: Chunks) {
    forall x :: x in news ==> x !in Live(s.chunks)
  }

  /** All payload words of the elements are zero. */
  ghost predicate AllClear(mem: Memory, pl: Plan, news: Chunks)
    requires Sized(pl.sizes, pl.same, pl.n)
  {
    forall x, a {:trigger PayloadWord(x, news[x].size, a)} ::
      x in news && x != At(pl, pl.n) && PayloadWord(x, news[x].size, a) && a % 8 == 0 ==> Peek(mem, a) == 0
  }

  /** The aggregate as `malloc` returned it. */
  ghost predicate GotAggregate(m: State, s: Snapshot, p: int, size: nat)
    reads m
  {
    NewAt(m, s, p) && Live(m.chunks)[p] == size && m.chunks[p].pinuse
  }

  lemma AggregateGot(m: State, s: Snapshot, p: int, nb: int)
    requires Allocated(m, s, p, nb)
    ensures p in Live(m.chunks) && p in m.chunks && m.chunks[p].cinuse && m.chunks[p].size == Live(m.chunks)[p]
    ensures Valid(m) && GotAggregate(m, s, p, Live(m.chunks)[p]) && p > 0
    ensures nb <= Live(m.chunks)[p] < nb + MIN_CHUNK_SIZE && p % 16 == 0 && Live(m.chunks)[p] % 16 == 0
  {
    hide Valid, Untouched, Live;
    AllocatedIsNew(m, s, p, nb);
    LiveAt(m.chunks);
    assert p % 16 == 0 by { assert IsAligned(p, 16); }
  }

  /** The sizes `ialloc` computes when none of its sums wraps. */
  lemma AggregateSize(sizes: seq<nat>, same: bool, n: nat, given: bool)
    requires Sized(sizes, same, n) && SumsFit(sizes, same, n, given)
    ensures var contents, arraySize := Offset(sizes, same, n), ArraySize(n, given);
            && contents % WORD_LIMIT == contents >= CHUNK_OVERHEAD && ArrayWord(n, given) == arraySize
            && arraySize % 8 == 0
            && ComputedSize(sizes, same, n, given) == contents + arraySize
            && AskedBytes(sizes, same, n, given) == contents + arraySize - CHUNK_OVERHEAD
            && RequestToSize(AskedBytes(sizes, same, n, given)) == contents + arraySize
    ensures same ==> RequestToSize(sizes[0]) % WORD_LIMIT == RequestToSize(sizes[0]) >= 0
  {
    hide Offset, RequestToSize, ArraySize;
    var total, arraySize := Offset(sizes, same, n), ArraySize(n, given);
    TotalParts(sizes, same, n);
    ArrayAligned(n, given);
    BelowWrap(total);
    BelowWrap(arraySize);
    BelowWrap(total + arraySize);
    SumOf16(total, arraySize);
    ExactRequest(total + arraySize);
    Of16Of8(arraySize);
    if same {
      BelowWrap(RequestToSize(sizes[0]));
    }
  }

  lemma BelowWrap(x: nat)
    requires x < WORD_LIMIT
    ensures x % WORD_LIMIT == x
  {
  }

  lemma ArrayAligned(n: nat, given: bool)
    ensures ArraySize(n, given) % 16 == 0
  {
  }

  lemma TotalParts(sizes: seq<nat>, same: bool, n: nat)
    requires Sized(sizes, same, n)
    ensures Offset(sizes, same, n) % 16 == 0 && Offset(sizes, same, n) >= MIN_CHUNK_SIZE
    ensures same ==> 0 <= RequestToSize(sizes[0]) <= Offset(sizes, same, n)
  {
    hide Offset, RequestToSize;
    OffsetAligned(sizes, same, n);
    OffsetMonotone(sizes, same, 0, n);
    OffsetZero(sizes, same);
    if same {
      ElementAligned(sizes, same, 0);
    }
  }

  lemma OffsetZero(sizes: seq<nat>, same: bool)
    requires Sized(sizes, same, 1)
    ensures Offset(sizes, same, 0) == 0
  {
  }

  lemma ExactRequest(size: nat)
    requires size % 16 == 0 && size >= MIN_CHUNK_SIZE
    ensures RequestToSize(size - CHUNK_OVERHEAD) == size
  {
  }

  /** What is known once the aggregate has been got and cleared. */
  lemma PlanMade(m: State, s: Snapshot, pl: Plan)
    requires GotAggregate(m, s, pl.p, pl.size) && SumsFit2(pl) && pl.p % 16 == 0 && pl.size % 16 == 0
    requires Offset(pl.sizes, pl.same, pl.n) + ArraySize(pl.n, pl.given) <= pl.size
    ensures GoodPlan(pl) && Aggregate(m, Snap(m), pl) && Snap(m).mem == m.mem && Snap(m).chunks == m.chunks
    ensures BinsOk(Snap(m).mem, m.smallmap, m.treemap, m.sizes, m.small, m.tree) && SameFields(m, Snap(m))
    ensures pl.p <= pl.p + pl.size && End(m.chunks, pl.p) == pl.p + pl.size
  {
    hide Tiles, Flags, Tags, BinsOk, Placed, Untouched, Offset, ArraySize;
    Unwritten(m);
  }

  ghost predicate SumsFit2(pl: Plan) {
    Sized(pl.sizes, pl.same, pl.n) && SumsFit(pl.sizes, pl.same, pl.n, pl.given)
  }

  lemma ClearedIsGot(m: State, s: Snapshot, p: int, size: nat, chunks: Chunks, mem1: Memory)
    requires p !in Live(s.chunks) && p in Live(m.chunks) && Live(m.chunks) == Live(s.chunks)[p := Live(m.chunks)[p]]
    requires Live(m.chunks)[p] == size && m.chunks[p].pinuse
    requires Untouched(s.mem, mem1, Live(s.chunks)) && Untouched(mem1, m.mem, Live(m.chunks) - {p})
    requires Valid(m) && m.segBase == s.base && m.segSize >= s.size
    ensures GotAggregate(m, s, p, size)
  {
    hide Valid, Untouched, Live;
    assert Live(m.chunks) - {p} == Live(s.chunks);
    UntouchedTwice(s.mem, mem1, m.mem, Live(s.chunks), Live(s.chunks));
  }

  lemma GotParts(m: State, s: Snapshot, p: int, size: nat)
    requires GotAggregate(m, s, p, size)
    ensures Valid(m) && p !in Live(s.chunks) && p in Live(m.chunks)
    ensures Live(m.chunks) == Live(s.chunks)[p := Live(m.chunks)[p]]
    ensures Live(m.chunks)[p] == size && m.chunks[p].pinuse && Untouched(s.mem, m.mem, Live(s.chunks))
    ensures m.segBase == s.base && m.segSize >= s.size
  {
    hide Valid, Untouched;
  }

  /** The finished call: `s` before it, `s1` when the aggregate was about to be cut. */
  lemma NowCarved(m: State, s: Snapshot, s1: Snapshot, pl: Plan, news: Chunks, elems: seq<int>, marray: int)
    requires GoodPlan(pl) && Sound(s1) && pl.p in s1.chunks && End(s1.chunks, pl.p) == pl.p + pl.size
    requires s1.chunks[pl.p].cinuse && s1.chunks[pl.p].pinuse
    requires pl.p !in Live(s.chunks) && Live(s1.chunks) == Live(s.chunks)[pl.p := pl.size]
    requires Untouched(s.mem, s1.mem, Live(s.chunks))
    requires s1.base == s.base && s1.size >= s.size
    requires BinsOk(s1.mem, m.smallmap, m.treemap, m.sizes, m.small, m.tree) && SameFields(m, s1.(chunks := m.chunks))
    requires CutTo(m.mem, s1, pl, news, pl.n - 1, At(pl, pl.n - 1), elems, marray) && |elems| == pl.n
    requires At(pl, pl.n - 1) in news && HeadRight(m.mem, news, At(pl, pl.n - 1))
    requires m.chunks == Retile(s1.chunks, pl.p, pl.p + pl.size, news, true)
    ensures Carved(m, s, pl, news, elems, marray)
  {
    hide Valid, Untouched, Live, Sizes, Tiles, Retile, Sound, BinsOk, SameFields, HeadRight, Pointers, ElementAt,
      ArrayPiece, PayloadsKept, OnlyInside, Offset;
    AllCut(m, s1, pl.p, news, At(pl, pl.n - 1));
    assert Live(s1.chunks) - {pl.p} == Live(s.chunks);
    UntouchedTwice(s.mem, s1.mem, m.mem, Live(s.chunks), Live(s.chunks));
    PiecesNew(s1, pl, news);
    assert NoneLive(s, news);
    SameSegments(m, s1);
  }

  lemma SameSegments(m: State, s1: Snapshot)
    requires SameFields(m, s1.(chunks := m.chunks))
    ensures m.segBase == s1.base && m.segSize == s1.size
  {
  }

  /** Pieces start inside the aggregate, where no other chunk does. */
  lemma PiecesNew(s1: Snapshot, pl: Plan, news: Chunks)
    requires Sound(s1) && pl.p in s1.chunks && s1.chunks[pl.p].cinuse && End(s1.chunks, pl.p) == pl.p + pl.size
    requires Tiles(news, pl.p, pl.p + pl.size)
    ensures forall x :: x in news && x != pl.p ==> x !in Live(s1.chunks)
  {
    hide Sound;
    OnlyUsedInside(s1, pl.p);
    forall x | x in news && x != pl.p
      ensures x !in Live(s1.chunks)
    {
      assert ChunkFits(news, pl.p, pl.p + pl.size, x);
    }
  }

  /** Clearing before the cut leaves the elements clear. */
  lemma StaysClear(s1: Snapshot, mem: Memory, pl: Plan, news: Chunks, i: nat, q: int, elems: seq<int>, marray: int)
    requires CutTo(mem, s1, pl, news, i, q, elems, marray)
    requires Zeroed(s1.mem, pl.p + 16, (pl.size - SIZE_T_SIZE - ArraySize(pl.n, pl.given)) / 8)
    ensures AllClear(mem, pl, news)
  {
    hide Offset, ArraySize, Zeroed, Laid, Tiles, Cutting, Pointers, Elements;
    forall x, a | x in news && x != At(pl, pl.n) && PayloadWord(x, news[x].size, a) && a % 8 == 0
      ensures Peek(mem, a) == 0
    {
      ClearRange(s1, mem, pl, news, i, q, elems, marray, x, a);
      ClearedWord(s1.mem, pl.p, pl.size - SIZE_T_SIZE - ArraySize(pl.n, pl.given), a);
    }
  }

  lemma ClearedWord(mem: Memory, p: int, bytes: int, a: int)
    requires Zeroed(mem, p + 16, bytes / 8) && p % 16 == 0 && a % 8 == 0 && bytes % 8 == 0
    requires p + 16 <= a && a - p - 16 < bytes
    ensures Peek(mem, a) == 0
  {
    hide Zeroed;
    var k := WordIndex(p, a, bytes);
    ZeroAt(mem, p + 16, bytes / 8, k);
  }

  lemma WordIndex(p: int, a: int, bytes: int) returns (k: int)
    requires p % 16 == 0 && a % 8 == 0 && bytes % 8 == 0 && p + 16 <= a && a - p - 16 < bytes
    ensures a == p + 16 + 8 * k && 0 <= k < bytes / 8
  {
    k := (a - p - 16) / 8;
  }

  lemma ZeroAt(mem: Memory, mem0: int, k: int, i: int)
    requires Zeroed(mem, mem0, k) && 0 <= i < k
    ensures ZeroWord(mem, mem0, i)
  {
  }

  lemma PieceWithin(news: Chunks, lo: int, hi: int, x: int)
    requires Tiles(news, lo, hi) && x in news
    ensures lo <= x && x + news[x].size <= hi && news[x].size > 0
  {
    hide Tiles;
    FitsAt(news, lo, hi, x);
  }

  /** All other pieces lie before the last. */
  lemma PieceBefore(news: Chunks, lo: int, hi: int, x: int, last: int)
    requires Tiles(news, lo, hi) && x in news && last in news && x != last && last + news[last].size == hi
    ensures x + news[x].size <= last
  {
    PieceWithin(news, lo, hi, x);
    assert Apart2(news, x, last);
  }

  /** An element's payload word lies in what was cleared. */
  lemma ClearRange(s1: Snapshot, mem: Memory, pl: Plan, news: Chunks, i: nat, q: int, elems: seq<int>, marray: int,
                   x: int, a: int)
    requires CutTo(mem, s1, pl, news, i, q, elems, marray)
    requires x in news && x != At(pl, pl.n) && PayloadWord(x, news[x].size, a) && a % 8 == 0
    ensures pl.p + 16 <= a && a - pl.p - 16 < pl.size - SIZE_T_SIZE - ArraySize(pl.n, pl.given) && pl.p % 16 == 0
    ensures (pl.size - SIZE_T_SIZE - ArraySize(pl.n, pl.given)) % 8 == 0
  {
    hide Offset, ArraySize, Pointers, Elements, HeadRight, OnlyInside, Tiles, ElementAt;
    ArrayAligned(pl.n, pl.given);
    ClearEight(pl.size, ArraySize(pl.n, pl.given));
    PieceWithin(news, pl.p, pl.p + pl.size, x);
    if !pl.given {
      PieceBefore(news, pl.p, pl.p + pl.size, x, At(pl, pl.n));
    } else {
      NoArray(pl.n);
    }
  }

  lemma ClearEight(size: int, arraySize: int)
    requires size % 16 == 0 && arraySize % 16 == 0
    ensures (size - SIZE_T_SIZE - arraySize) % 8 == 0
  {
  }

  lemma NoArray(n: nat)
    ensures ArraySize(n, true) == 0
  {
  }

  /** How a call ends. `TooSmall` is where the model stops: the sums have wrapped, and the
      source goes on to cut elements out of an aggregate that has no room for them. */
  datatype Outcome = Failed | Cut | TooSmall

  /** `ialloc` for at least one element. It does what it should if and only if the sums do not
      wrap or `malloc` refuses what they wrap to. */
  method IallocSome(m: State, n: nat, sizes: seq<nat>, same: bool, clear: bool, given: bool, grows: bool)
    returns (r: Outcome, marray: int, elems: seq<int>, ghost pl: Plan, ghost news: Chunks)
    requires Valid(m) && Sized(sizes, same, n)
    modifies m
    ensures old(m.trace) <= m.trace && (old(m.Chronicled()) ==> m.Chronicled())
    ensures r.Failed? <==> Refused(old(Snap(m)), sizes, same, n, given, grows)
    ensures r.Failed? ==> unchanged(m)
    ensures r.TooSmall? <==>
              !SumsFit(sizes, same, n, given) && !Refused(old(Snap(m)), sizes, same, n, given, grows)
    ensures r.TooSmall? ==>
              && Allocated(m, old(Snap(m)), pl.p, RequestToSize(AskedBytes(sizes, same, n, given)))
              && Live(m.chunks)[pl.p] < Offset(sizes, same, n) + ArraySize(n, given)
    ensures r.Cut? ==>
              var nb := Offset(sizes, same, n) + ArraySize(n, given);
              pl == Plan(pl.p, pl.size, n, sizes, same, given) && nb <= pl.size < nb + MIN_CHUNK_SIZE
    ensures r.Cut? ==> Carved(m, old(Snap(m)), pl, news, elems, marray)
    ensures r.Cut? && clear ==> AllClear(m.mem, pl, news)
    ensures !r.Failed? ==> TakenFor(old(Snap(m)), ShelfOf(Snap(m)), pl.p, AskedBytes(sizes, same, n, given))
  {
    hide *;
    r, marray, elems := Failed, 0, [];
    pl, news := Plan(0, 0, n, sizes, same, given), map[];
    ghost var s := Snap(m);
    var arraySize := ArrayWord(n, given);
    var elementSize, contents := ContentsSize(n, sizes, same);
    var size := WordSum(contents, arraySize);
    AskedIs(sizes, same, n, given, contents, arraySize);
    var mem := DlMalloc(m, Minus(size, CHUNK_OVERHEAD), grows);
    RefusedIs(s, sizes, same, n, given, grows);
    if mem != 0 {
      var p := mem - 16;
      ShelfIs(m);
      NowTakenFor(s, ShelfOf(Snap(m)), p, AskedBytes(sizes, same, n, given));
      if SumsFit(sizes, same, n, given) {
        r := Cut;
        marray, elems, pl, news := CutAggregate(m, p, n, sizes, same, clear, given, elementSize, contents, arraySize,
                                                s);
        ShelfIs(m);
      } else {
        r, pl := TooSmall, Plan(p, 0, n, sizes, same, given);
        NoRoom(m, s, pl, RequestToSize(AskedBytes(sizes, same, n, given)));
      }
    }
  }

  /** `malloc` has chosen `p` for `bytes`, and `sh` is the free space after it. */
  ghost predicate TakenFor(s: Snapshot, sh: Shelf, p: int, bytes: nat) {
    Chooses(s, bytes, p) && sh == AfterTake(s, p, RequestToSize(bytes))
  }

  lemma NowTakenFor(s: Snapshot, sh: Shelf, p: int, bytes: nat)
    requires Chooses(s, bytes, p) && sh == AfterTake(s, p, RequestToSize(bytes))
    ensures TakenFor(s, sh, p, bytes)
  {
  }

  lemma AskedIs(sizes: seq<nat>, same: bool, n: nat, given: bool, contents: nat, arraySize: nat)
    requires Sized(sizes, same, n)
    requires contents == Offset(sizes, same, n) % WORD_LIMIT && arraySize == ArrayWord(n, given)
    ensures Minus(WordSum(contents, arraySize), CHUNK_OVERHEAD) == AskedBytes(sizes, same, n, given)
  {
    hide Offset, ArraySize;
  }

  lemma RefusedIs(s: Snapshot, sizes: seq<nat>, same: bool, n: nat, given: bool, grows: bool)
    requires Sized(sizes, same, n)
    ensures Refused(s, sizes, same, n, given, grows) <==>
            var bytes := AskedBytes(sizes, same, n, given);
            bytes >= MAX_REQUEST || OutOfMemory(s, RequestToSize(bytes), grows)
  {
    hide AskedBytes, OutOfMemory;
  }

  /** No chunk is as large as sizes whose sum does not fit a word. */
  lemma NoRoom(m: State, s: Snapshot, pl: Plan, nb: int)
    requires Allocated(m, s, pl.p, nb)
    requires Sized(pl.sizes, pl.same, pl.n) && !SumsFit(pl.sizes, pl.same, pl.n, pl.given)
    ensures pl.p in Live(m.chunks)
    ensures Live(m.chunks)[pl.p] < Offset(pl.sizes, pl.same, pl.n) + ArraySize(pl.n, pl.given)
  {
    hide Valid, Live, Untouched, Offset, ArraySize;
    AllocatedIsNew(m, s, pl.p, nb);
    AllocatedLive(m, s, pl.p, nb);
    FitsWhen(pl.sizes, pl.same, pl.n, pl.given);
  }

  lemma AllocatedLive(m: State, s: Snapshot, p: int, nb: int)
    requires Allocated(m, s, p, nb)
    ensures p in Live(m.chunks) && p > 0
  {
  }

  /** Elements, and the array, can be placed one after the other only if their sums fit. */
  lemma NoPlacement(sizes: seq<nat>, same: bool, n: nat, given: bool, at: seq<int>, end: int)
    requires Sized(sizes, same, n) && |at| == n && at[0] >= 0 && end < WORD_LIMIT
    requires forall j :: 0 <= j < n - 1 ==> at[j] + ElementSize(sizes, same, j) <= at[j + 1]
    requires at[n - 1] + ElementSize(sizes, same, n - 1) + ArraySize(n, given) <= end
    ensures SumsFit(sizes, same, n, given)
  {
    FitsWhen(sizes, same, n, given);
    PlacedFrom(sizes, same, n, at, n - 1);
  }

  lemma {:induction false} PlacedFrom(sizes: seq<nat>, same: bool, n: nat, at: seq<int>, j: nat)
    requires Sized(sizes, same, n) && |at| == n && at[0] >= 0 && j < n
    requires forall j :: 0 <= j < n - 1 ==> at[j] + ElementSize(sizes, same, j) <= at[j + 1]
    ensures Offset(sizes, same, j) <= at[j]
  {
    hide ElementSize;
    if j > 0 {
      PlacedFrom(sizes, same, n, at, j - 1);
    }
  }

  /** Clearing and cutting an aggregate that has room. */
  method CutAggregate(m: State, p: int, n: nat, sizes: seq<nat>, same: bool, clear: bool, given: bool,
                      elementSize: nat, contents: nat, arraySize: nat, ghost s: Snapshot)
    returns (marray: int, elems: seq<int>, ghost pl: Plan, ghost news: Chunks)
    requires Sized(sizes, same, n) && SumsFit(sizes, same, n, given)
    requires contents == Offset(sizes, same, n) % WORD_LIMIT && arraySize == ArrayWord(n, given)
    requires elementSize == if same then RequestToSize(sizes[0]) % WORD_LIMIT else 0
    requires Allocated(m, s, p, RequestToSize(AskedBytes(sizes, same, n, given)))
    modifies m`mem, m`chunks
    ensures var nb := Offset(sizes, same, n) + ArraySize(n, given);
            pl == Plan(pl.p, pl.size, n, sizes, same, given) && nb <= pl.size < nb + MIN_CHUNK_SIZE
    ensures pl.p == p
    ensures Carved(m, s, pl, news, elems, marray)
    ensures clear ==> AllClear(m.mem, pl, news)
  {
    hide *;
    AggregateSize(sizes, same, n, given);
    AggregateGot(m, s, p, contents + arraySize);
    Start(m, p);
    var remaining := ChunkSize(m.At(Head(p)));
    ghost var mem1 := m.mem;
    if clear {
      ClearBytes(remaining, contents, arraySize);
      GotParts(m, s, p, remaining);
      Clear(m, p + 16, remaining - SIZE_T_SIZE - arraySize, p);
      ClearedIsGot(m, s, p, remaining, m.chunks, mem1);
    }
    pl := Plan(p, remaining, n, sizes, same, given);
    ghost var s1 := Snap(m);
    FitsTwice(pl);
    PlanMade(m, s, pl);
    GotParts(m, s, p, remaining);
    FieldsAre(m, s1);
    marray, elems, news := CutElements(m, p, remaining, contents, n, sizes, same, elementSize, given, s1, pl);
    m.chunks := Retile(s1.chunks, p, p + remaining, news, true);
    AggregateParts(m, s1, pl);
    FieldsKept(m, s1);
    NowCarved(m, s, s1, pl, news, elems, marray);
    if clear {
      StaysClear(s1, m.mem, pl, news, n - 1, At(pl, n - 1), elems, marray);
    }
  }

  lemma ClearBytes(size: nat, contents: nat, arraySize: nat)
    requires contents + arraySize <= size && contents + arraySize >= CHUNK_OVERHEAD && arraySize % 8 == 0
    requires size % 16 == 0
    requires contents >= CHUNK_OVERHEAD
    ensures size - SIZE_T_SIZE - arraySize >= 0 && (size - SIZE_T_SIZE - arraySize) % 8 == 0
    ensures size - SIZE_T_SIZE - arraySize + 8 <= size
  {
  }

  lemma FitsTwice(pl: Plan)
    requires Sized(pl.sizes, pl.same, pl.n) && SumsFit(pl.sizes, pl.same, pl.n, pl.given)
    ensures SumsFit2(pl)
  {
  }

  lemma AggregateParts(m: State, s1: Snapshot, pl: Plan)
    requires Aggregate(m, s1, pl)
    ensures Sound(s1) && pl.p in s1.chunks && s1.chunks[pl.p].cinuse && s1.chunks[pl.p].pinuse
    ensures End(s1.chunks, pl.p) == pl.p + pl.size
  {
    hide Sound;
  }

  lemma FieldsAre(m: State, s1: Snapshot)
    requires SameFields(m, s1)
    ensures m.sizes == s1.sizes && m.dv == s1.dv && m.dvsize == s1.dvsize && m.segBase == s1.base
    ensures m.segSize == s1.size
    ensures m.top == s1.top && m.topsize == s1.topsize && m.footprint == m.segSize <= m.maxFootprint
    ensures Within(m.sizes, m.segBase, m.segBase + m.segSize) && m.chunks == s1.chunks
  {
    hide Within;
  }

  lemma FieldsKept(m: State, s1: Snapshot)
    requires m.sizes == s1.sizes && m.dv == s1.dv && m.dvsize == s1.dvsize && m.segBase == s1.base
    requires m.segSize == s1.size
    requires m.top == s1.top && m.topsize == s1.topsize && m.footprint == m.segSize <= m.maxFootprint
    requires Within(m.sizes, m.segBase, m.segBase + m.segSize)
    ensures SameFields(m, s1.(chunks := m.chunks))
  {
  }

  /** What a caller has of element `j`: a chunk in use of at least its size, which ends where
      the next element starts; the last ends where the array starts, or the aggregate ends. */
  lemma CarvedElement(m: State, s: Snapshot, pl: Plan, news: Chunks, elems: seq<int>, marray: int, j: nat)
    requires Carved(m, s, pl, news, elems, marray) && j < pl.n
    ensures var e, live := elems[j] - 16, Live(m.chunks);
            && e in live && live[e] >= ElementSize(pl.sizes, pl.same, j)
            && (j + 1 < pl.n ==> live[e] == ElementSize(pl.sizes, pl.same, j) && e + live[e] == elems[j + 1] - 16)
            && (j + 1 == pl.n && pl.given ==> e + live[e] == pl.p + pl.size)
            && (j + 1 == pl.n && !pl.given ==>
                  && e + live[e] == marray - 16 && marray - 16 in live && live[marray - 16] >= ArraySize(pl.n, false)
                  && marray - 16 + live[marray - 16] == pl.p + pl.size)
  {
    hide Valid, Untouched, Offset, ElementSize, ArraySize, Tiles, Live, Pointers;
    PlanFacts(pl, j);
    PlanFacts(pl, pl.n - 1);
    if j + 1 < pl.n {
      assert ElementAt(pl, news, j);
    }
    PieceLive(m, s, news, At(pl, j));
    if !pl.given {
      PieceLive(m, s, news, At(pl, pl.n));
    }
  }

  lemma {:induction false} ElementBefore(pl: Plan, i: nat, j: nat)
    requires GoodPlan(pl) && i < j <= pl.n
    ensures At(pl, i) < At(pl, j)
    decreases j
  {
    hide GoodPlan, At;
    PlanFacts(pl, j - 1);
    if i < j - 1 {
      ElementBefore(pl, i, j - 1);
    }
  }

  /** The elements, and the array behind them, are at different addresses. */
  lemma ElementsApart(m: State, s: Snapshot, pl: Plan, news: Chunks, elems: seq<int>, marray: int, i: nat, j: nat)
    requires Carved(m, s, pl, news, elems, marray) && i < j <= pl.n
    ensures elems[i] < if j < pl.n then elems[j] else At(pl, pl.n) + 16
  {
    hide Valid, Untouched, At, GoodPlan, Tiles, Live, Pointers;
    ElementBefore(pl, i, j);
  }

  /** The pieces are new to the caller. */
  lemma CarvedNew(m: State, s: Snapshot, pl: Plan, news: Chunks, elems: seq<int>, marray: int)
    requires Carved(m, s, pl, news, elems, marray)
    ensures forall j :: 0 <= j < pl.n ==> elems[j] - 16 !in Live(s.chunks)
    ensures !pl.given ==> marray - 16 !in Live(s.chunks)
    ensures forall x :: x in Live(s.chunks) ==> x in Live(m.chunks) && Live(m.chunks)[x] == Live(s.chunks)[x]
    ensures Valid(m) && Untouched(s.mem, m.mem, Live(s.chunks)) && |elems| == pl.n
  {
    hide Valid, Untouched, At, Tiles, Live, Pointers, Offset, ArraySize, ElementSize;
    forall j | 0 <= j < pl.n ensures elems[j] - 16 !in Live(s.chunks) {
      if j < pl.n - 1 {
        assert ElementAt(pl, news, j);
      }
    }
  }

  /** The words of a cleared element. */
  lemma ElementClear(m: State, s: Snapshot, pl: Plan, news: Chunks, elems: seq<int>, marray: int, j: nat, k: nat)
    requires Carved(m, s, pl, news, elems, marray) && AllClear(m.mem, pl, news) && j < pl.n
    requires 8 * k + CHUNK_OVERHEAD + 8 <= ElementSize(pl.sizes, pl.same, j)
    ensures Peek(m.mem, elems[j] + 8 * k) == 0
  {
    hide Valid, Untouched, Offset, ElementSize, ArraySize, Live, Pointers, NoneLive, Tiles;
    PlanFacts(pl, j);
    PlanFacts(pl, pl.n - 1);
    if j < pl.n - 1 {
      assert ElementAt(pl, news, j);
    }
    ElementBefore(pl, j, pl.n);
    var x := At(pl, j);
    WordOffset(x, k);
    assert PayloadWord(x, news[x].size, x + 16 + 8 * k);
  }

  /** The chunk size of an element holds what was asked for. */
  lemma ElementHolds(sizes: seq<nat>, same: bool, j: nat)
    requires if same then |sizes| > 0 else j < |sizes|
    ensures (if same then sizes[0] else sizes[j]) + CHUNK_OVERHEAD <= ElementSize(sizes, same, j)
  {
  }

  lemma PieceLive(m: State, s: Snapshot, news: Chunks, x: int)
    requires Live(m.chunks) == Live(s.chunks) + Sizes(news) && x in news
    ensures x in Live(m.chunks) && Live(m.chunks)[x] == news[x].size
  {
    hide Live;
    assert x in Sizes(news);
  }

  /** `ialloc`. */
  method IallocAny(m: State, n: nat, sizes: seq<nat>, same: bool, clear: bool, given: bool, grows: bool)
    returns (r: Outcome, marray: int, elems: seq<int>, ghost pl: Plan, ghost news: Chunks)
    requires Valid(m) && (n > 0 ==> Sized(sizes, same, n))
    modifies m
    ensures old(m.trace) <= m.trace && (old(m.Chronicled()) ==> m.Chronicled())
    ensures r.Failed? ==> unchanged(m)
    ensures n == 0 && given ==> r.Cut? && unchanged(m) && elems == []
    ensures n == 0 && !given ==> !r.TooSmall? && (r.Failed? <==> OutOfMemory(old(Snap(m)), MIN_CHUNK_SIZE, grows))
    ensures n == 0 && !given && r.Cut? ==> elems == [] && Allocated(m, old(Snap(m)), marray - 16, MIN_CHUNK_SIZE)
    ensures n > 0 ==>
              && (r.Failed? <==> Refused(old(Snap(m)), sizes, same, n, given, grows))
              && (r.TooSmall? <==>
                    !SumsFit(sizes, same, n, given) && !Refused(old(Snap(m)), sizes, same, n, given, grows))
    ensures n > 0 && r.TooSmall? ==>
              && Allocated(m, old(Snap(m)), pl.p, RequestToSize(AskedBytes(sizes, same, n, given)))
              && Live(m.chunks)[pl.p] < Offset(sizes, same, n) + ArraySize(n, given)
    ensures n > 0 && r.Cut? ==>
              Carved(m, old(Snap(m)), pl, news, elems, marray) && pl == Plan(pl.p, pl.size, n, sizes, same, given)
    ensures n > 0 && r.Cut? && clear ==> AllClear(m.mem, pl, news)
    ensures n > 0 && !r.Failed? ==>
              TakenFor(old(Snap(m)), ShelfOf(Snap(m)), pl.p, AskedBytes(sizes, same, n, given))
    ensures n == 0 && !given && !r.Failed? ==> TakenFor(old(Snap(m)), ShelfOf(Snap(m)), marray - 16, 0)
  {
    hide *;
    r, marray, elems := Cut, 0, [];
    pl, news := Plan(0, 0, n, sizes, same, given), map[];
    if n == 0 {
      if !given {
        SmallestRequest();
        ghost var s := Snap(m);
        marray := DlMalloc(m, 0, grows);
        if marray != 0 {
          NowTakenFor(s, ShelfOf(Snap(m)), marray - 16, 0);
        }
        r := if marray != 0 then Cut else Failed;
      }
    } else {
      r, marray, elems, pl, news := IallocSome(m, n, sizes, same, clear, given, grows);
    }
  }

  lemma SmallestRequest()
    ensures RequestToSize(0) == MIN_CHUNK_SIZE && 0 < MAX_REQUEST
  {
  }
}

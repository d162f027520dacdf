/** `dlrealloc`: resizing in place, or moving the payload to a new chunk. */
module Moving {
  import opened Words
  import opened MallocState
  import opened Boundaries
  import opened Invariant
  import opened Freeing
  import opened Taking
  import opened Malloc
  import opened Resizing
  import opened Realloc
  import opened Payloads

  // ---- memcpy ----

  /** 256 to the power `r`: one more than the largest number of `r` bytes, for a part of a word. */
  function Pow256(r: nat): (p: nat)
    ensures p > 0
  {
    if r == 0 then 1
    else if r == 1 then 0x100
    else if r == 2 then 0x1_0000
    else if r == 3 then 0x100_0000
    else if r == 4 then 0x1_0000_0000
    else if r == 5 then 0x100_0000_0000
    else if r == 6 then 0x1_0000_0000_0000
    else 0x100_0000_0000_0000
  }

  /** A little-endian word whose first `r` bytes are those of `low`, the others of `high`. */
  function Mixed(low: int, high: int, r: nat): int {
    low % Pow256(r) + Pow256(r) * (high / Pow256(r))
  }

  lemma MixedLow(low: int, high: int, r: nat)
    ensures Mixed(low, high, r) % Pow256(r) == low % Pow256(r)
  {
    var p := Pow256(r);
    SumRemainder(low % p, high / p, p);
  }

  lemma SumRemainder(a: int, q: int, p: nat)
    requires 0 <= a < p
    ensures (a + p * q) % p == a
  {
    var x := a + p * q;
    var d := x / p - q;
    assert x == p * (x / p) + x % p;
    assert p * (x / p) == p * q + p * d by {
      assert x / p == q + d;
    }
    SmallMultiple(p, d, a - x % p);
  }

  lemma SmallMultiple(p: int, d: int, e: int)
    requires p * d == e && -p < e < p
    ensures e == 0
  {
    MultipleAtLeast(p, d);
    MultipleAtLeast(p, -d);
    assert p * -d == -(p * d);
  }

  lemma MultipleAtLeast(p: int, d: int)
    requires p > 0
    ensures d >= 1 ==> p * d >= p
  {
  }

  ghost predicate CopiedWord(mem: Memory, mem': Memory, src: int, dst: int, i: int) {
    Peek(mem', dst + 8 * i) == Peek(mem, src + 8 * i)
  }

  /** The first `k` words have been copied. */
  ghost predicate WordsCopied(mem: Memory, mem': Memory, src: int, dst: int, k: int) {
    forall i {:trigger CopiedWord(mem, mem', src, dst, i)} :: 0 <= i < k ==> CopiedWord(mem, mem', src, dst, i)
  }

  /** The first `r` bytes of word `i` have been copied. */
  ghost predicate CopiedPart(mem: Memory, mem': Memory, src: int, dst: int, i: int, r: nat) {
    Peek(mem', dst + 8 * i) % Pow256(r) == Peek(mem, src + 8 * i) % Pow256(r)
  }

  /** The first `count` bytes have been copied. */
  ghost predicate Copied(mem: Memory, mem': Memory, src: int, dst: int, count: nat) {
    WordsCopied(mem, mem', src, dst, count / 8) && CopiedPart(mem, mem', src, dst, count / 8, count % 8)
  }

  /** Two live chunks with room for `count` bytes. */
  ghost predicate Roomy(m: State, p: int, q: int, count: nat)
    reads m`chunks
  {
    && p in Live(m.chunks) && q in Live(m.chunks) && p != q && p % 16 == 0 && q % 16 == 0
    && count + CHUNK_OVERHEAD <= Live(m.chunks)[p] && count + CHUNK_OVERHEAD <= Live(m.chunks)[q]
  }

  lemma RoomyWord(m: State, p: int, q: int, count: nat, k: nat)
    requires Valid(m) && Roomy(m, p, q, count) && (8 * k < count || 8 * k + 8 <= count)
    ensures var a, b := p + 16 + 8 * k, q + 16 + 8 * k;
            && p in Live(m.chunks) && q in Live(m.chunks)
            && PayloadWord(p, Live(m.chunks)[p], a) && a % 8 == 0 && m.Mapped(b) && m.Mapped(a)
            && PayloadWord(q, Live(m.chunks)[q], b) && q in Live(m.chunks) - {p}
  {
    hide Valid, Live, State.Mapped;
    WordOffset(q, k);
    WordOffset(p, k);
    PayloadMapped(m, q, q + 16 + 8 * k);
    PayloadMapped(m, p, p + 16 + 8 * k);
  }

  /** One more word copied. */
  lemma WordMore(m0: Memory, m1: Memory, src: int, dst: int, k: nat, v: int, live: map<int, nat>, q: int)
    requires WordsCopied(m0, m1, src, dst, k) && Untouched(m0, m1, live) && q in live
    requires PayloadWord(q, live[q], src + 8 * k)
    requires v == Peek(m1, src + 8 * k)
    ensures WordsCopied(m0, m1[dst + 8 * k := v], src, dst, k + 1)
  {
    WordsStay(m0, m1, src, dst, k, v);
    var m2 := m1[dst + 8 * k := v];
    forall i {:trigger CopiedWord(m0, m2, src, dst, i)} | 0 <= i < k + 1
      ensures CopiedWord(m0, m2, src, dst, i)
    {
      assert i < k ==> CopiedWord(m0, m2, src, dst, i);
    }
  }

  lemma WordsStay(m0: Memory, m1: Memory, src: int, dst: int, k: nat, v: int)
    requires WordsCopied(m0, m1, src, dst, k)
    ensures WordsCopied(m0, m1[dst + 8 * k := v], src, dst, k)
  {
    var m2 := m1[dst + 8 * k := v];
    forall i {:trigger CopiedWord(m0, m2, src, dst, i)} | 0 <= i < k
      ensures CopiedWord(m0, m2, src, dst, i)
    {
      assert CopiedWord(m0, m1, src, dst, i);
    }
  }

  lemma LastWord(m0: Memory, m1: Memory, src: int, dst: int, count: nat, v: int, live: map<int, nat>, q: int)
    requires WordsCopied(m0, m1, src, dst, count / 8) && Untouched(m0, m1, live)
    requires q in live && PayloadWord(q, live[q], src + 8 * (count / 8))
    requires v == Mixed(Peek(m1, src + 8 * (count / 8)), Peek(m1, dst + 8 * (count / 8)), count % 8)
    ensures Copied(m0, m1[dst + 8 * (count / 8) := v], src, dst, count)
  {
    hide Mixed, Pow256;
    var k := count / 8;
    WordsStay(m0, m1, src, dst, k, v);
    MixedLow(Peek(m1, src + 8 * k), Peek(m1, dst + 8 * k), count % 8);
  }

  lemma AllWords(m0: Memory, m1: Memory, src: int, dst: int, count: nat)
    requires WordsCopied(m0, m1, src, dst, count / 8) && count % 8 == 0
    ensures Copied(m0, m1, src, dst, count)
  {
    assert Pow256(0) == 1;
  }

  /** `memcpy(dst, src, count)` from the payload of `q` to that of `p`. */
  method Memcpy(m: State, dst: int, src: int, count: nat, ghost p: int, ghost q: int)
    requires Valid(m) && Roomy(m, p, q, count) && dst == p + 16 && src == q + 16
    modifies m`mem
    ensures Valid(m) && Untouched(old(m.mem), m.mem, Live(m.chunks) - {p})
    ensures Copied(old(m.mem), m.mem, src, dst, count)
  {
    hide *;
    ghost var mem0, live := m.mem, Live(m.chunks) - {p};
    var k := 0;
    Nothing(mem0, src, dst, live);
    while k < count / 8
      invariant 0 <= k <= count / 8
      invariant Valid(m) && Roomy(m, p, q, count)
      invariant Untouched(mem0, m.mem, live) && WordsCopied(mem0, m.mem, src, dst, k)
    {
      ghost var mem1 := m.mem;
      RoomyWord(m, p, q, count, k);
      var v := m.At(src + 8 * k);
      AtIs(m, src + 8 * k);
      WordMore(mem0, m.mem, src, dst, k, v, live, q);
      Store(m, p, dst + 8 * k, v);
      UntouchedAgain(mem0, mem1, m.mem, live);
      k := k + 1;
    }
    if count % 8 != 0 {
      ghost var mem1 := m.mem;
      RoomyWord(m, p, q, count, k);
      AtIs(m, src + 8 * k);
      AtIs(m, dst + 8 * k);
      var v := Mixed(m.At(src + 8 * k), m.At(dst + 8 * k), count % 8);
      LastWord(mem0, m.mem, src, dst, count, v, live, q);
      Store(m, p, dst + 8 * k, v);
      UntouchedAgain(mem0, mem1, m.mem, live);
    } else {
      AllWords(mem0, m.mem, src, dst, count);
    }
  }

  lemma AtIs(m: State, a: int)
    requires m.Mapped(a)
    ensures m.At(a) == Peek(m.mem, a)
  {
  }

  lemma Nothing(mem: Memory, src: int, dst: int, live: map<int, nat>)
    ensures Untouched(mem, mem, live) && WordsCopied(mem, mem, src, dst, 0)
  {
  }

  lemma UntouchedAgain(m0: Memory, m1: Memory, m2: Memory, live: map<int, nat>)
    requires Untouched(m0, m1, live) && Untouched(m1, m2, live)
    ensures Untouched(m0, m2, live)
  {
  }

  // ---- dlrealloc ----

  /** The payload of `q` has been moved to the new chunk `p` of at least `nb` bytes, and `q`
      freed; nothing else has changed for the caller. */
  ghost predicate Moved(m: State, s: Snapshot, q: int, p: int, nb: int, bytes: nat)
    reads m
  {
    && Valid(m) && q in Live(s.chunks) && p !in Live(s.chunks) && p in Live(m.chunks)
    && Live(m.chunks) == (Live(s.chunks) - {q})[p := Live(m.chunks)[p]] && nb <= Live(m.chunks)[p] < nb + MIN_CHUNK_SIZE
    && Untouched(s.mem, m.mem, Live(s.chunks) - {q}) && m.segBase == s.base && m.segSize >= s.size
    && Live(s.chunks)[q] >= CHUNK_OVERHEAD
    && Copied(s.mem, m.mem, q + 16, p + 16, Lesser(Live(s.chunks)[q] - CHUNK_OVERHEAD, bytes))
  }

  /** How a move goes: `mid` is the heap between the call of `malloc`, which chooses `p`, and
      that of `free`, and `sh` the free space at the end. */
  ghost predicate MovedVia(s: Snapshot, mid: Snapshot, sh: Shelf, q: int, p: int, bytes: nat) {
    && Chooses(s, bytes, p) && Sound(mid) && Live(mid.chunks).Keys == Live(s.chunks).Keys + {p}
    && ShelfOf(mid) == AfterTake(s, p, RequestToSize(bytes))
    && q in mid.chunks && sh == AfterFree(mid, q)
  }

  ghost predicate MovedSomehow(s: Snapshot, sh: Shelf, q: int, p: int, bytes: nat) {
    exists mid :: MovedVia(s, mid, sh, q, p, bytes)
  }

  lemma CopyRoom(m: State, s: Snapshot, q: int, p: int, bytes: nat)
    requires Allocated(m, s, p, RequestToSize(bytes)) && q in Live(s.chunks) && bytes < MAX_REQUEST && Sound(s)
    ensures Live(s.chunks)[q] >= CHUNK_OVERHEAD && Valid(m) && p != q
    ensures Roomy(m, p, q, Lesser(Live(s.chunks)[q] - CHUNK_OVERHEAD, bytes))
    ensures q in m.chunks && m.chunks[q].cinuse && m.chunks[q].size == Live(s.chunks)[q]
    ensures Snap(m).mem == m.mem && Snap(m).chunks == m.chunks
    ensures var live1 := Live(m.chunks);
            && q in live1 && p in live1 && p !in Live(s.chunks) && live1 == Live(s.chunks)[p := live1[p]]
            && RequestToSize(bytes) <= live1[p] < RequestToSize(bytes) + MIN_CHUNK_SIZE
            && Lesser(Live(s.chunks)[q] - CHUNK_OVERHEAD, bytes) + CHUNK_OVERHEAD <= live1[p]
    ensures Untouched(s.mem, m.mem, Live(s.chunks)) && m.segBase == s.base && m.segSize >= s.size
  {
    hide Valid, Untouched, HeapOk, Placed, TopOk;
    RequestSize(bytes);
    LiveSize(s, q);
  }

  /** The heap between the two calls. */
  lemma MiddleIs(m: State, s: Snapshot, q: int, p: int, nb: int, live1: map<int, nat>)
    requires Valid(m) && p in live1 && Live(m.chunks) == live1 == Live(s.chunks)[p := live1[p]]
    ensures Sound(Snap(m)) && Live(Snap(m).chunks).Keys == Live(s.chunks).Keys + {p}
  {
    hide Live, HeapOk, State.Bins, Placed, TopOk;
    ValidSound(m);
  }

  lemma NowMovedVia(s: Snapshot, mid: Snapshot, sh: Shelf, q: int, p: int, bytes: nat)
    requires Chooses(s, bytes, p) && Sound(mid) && Live(mid.chunks).Keys == Live(s.chunks).Keys + {p}
    requires ShelfOf(mid) == AfterTake(s, p, RequestToSize(bytes)) && q in mid.chunks && sh == AfterFree(mid, q)
    ensures MovedVia(s, mid, sh, q, p, bytes)
  {
    hide Chooses, Sound, Live, AfterTake, AfterFree, RequestToSize;
  }

  lemma CopySnap(m: State)
    ensures Snap(m).mem == m.mem && Snap(m).chunks == m.chunks && Snap(m).base == m.segBase && Snap(m).size == m.segSize
  {
  }

  lemma FreedParts(m: State, s2: Snapshot, q: int)
    requires Freed(m, s2, q)
    ensures Valid(m) && Live(m.chunks) == Live(s2.chunks) - {q} && Untouched(s2.mem, m.mem, Live(s2.chunks) - {q})
    ensures m.segBase == s2.base && m.segSize == s2.size
  {
    hide Valid, Live, Untouched;
  }

  lemma LiveSize(s: Snapshot, q: int)
    requires Sound(s) && q in Live(s.chunks)
    ensures Live(s.chunks)[q] >= MIN_CHUNK_SIZE && q % 16 == 0
  {
    hide Flags, Tags;
    assert ChunkFits(s.chunks, s.base, s.top, q);
  }

  lemma MoveDone(m: State, s: Snapshot, s1: Snapshot, mem2: Memory, live1: map<int, nat>, q: int, p: int, nb: int,
                 bytes: nat)
    requires q in Live(s.chunks) && p !in Live(s.chunks) && p in live1 && p != q
    requires live1 == Live(s.chunks)[p := live1[p]] && nb <= live1[p] < nb + MIN_CHUNK_SIZE
    requires Untouched(s.mem, s1.mem, Live(s.chunks)) && Untouched(s1.mem, mem2, live1 - {p})
    requires Live(s.chunks)[q] >= CHUNK_OVERHEAD
    requires var count := Lesser(Live(s.chunks)[q] - CHUNK_OVERHEAD, bytes);
             Copied(s1.mem, mem2, q + 16, p + 16, count) && count + CHUNK_OVERHEAD <= live1[p]
    requires Valid(m) && Live(m.chunks) == live1 - {q} && Untouched(mem2, m.mem, live1 - {q})
    requires m.segBase == s.base && m.segSize >= s.size
    ensures Moved(m, s, q, p, nb, bytes)
  {
    hide Valid, Copied, Live;
    var live, count := Live(s.chunks), Lesser(Live(s.chunks)[q] - CHUNK_OVERHEAD, bytes);
    assert live1 - {q} == (live - {q})[p := live1[p]];
    forall x, a | x in live - {q} && PayloadWord(x, (live - {q})[x], a)
      ensures Peek(m.mem, a) == Peek(s.mem, a)
    {
      assert x in live && PayloadWord(x, live[x], a);
      assert x in live1 - {p} && PayloadWord(x, (live1 - {p})[x], a);
      assert x in live1 - {q} && PayloadWord(x, (live1 - {q})[x], a);
    }
    CopyKept(s.mem, s1.mem, mem2, m.mem, live, live1 - {q}, q, p, count);
  }

  /** The copy reads the old payload and is not disturbed by freeing it. */
  lemma CopyKept(m0: Memory, m1: Memory, m2: Memory, m3: Memory, live: map<int, nat>, live2: map<int, nat>, q: int,
                 p: int, count: nat)
    requires Untouched(m0, m1, live) && Copied(m1, m2, q + 16, p + 16, count) && Untouched(m2, m3, live2)
    requires q in live && p in live2 && count + CHUNK_OVERHEAD <= live[q] && count + CHUNK_OVERHEAD <= live2[p]
    ensures Copied(m0, m3, q + 16, p + 16, count)
  {
    hide Pow256;
    forall i {:trigger CopiedWord(m0, m3, q + 16, p + 16, i)} | 0 <= i < count / 8
      ensures CopiedWord(m0, m3, q + 16, p + 16, i)
    {
      assert CopiedWord(m1, m2, q + 16, p + 16, i);
      assert PayloadWord(q, live[q], q + 16 + 8 * i) && PayloadWord(p, live2[p], p + 16 + 8 * i);
    }
    if count % 8 != 0 {
      assert PayloadWord(q, live[q], q + 16 + 8 * (count / 8)) && PayloadWord(p, live2[p], p + 16 + 8 * (count / 8));
    } else {
      assert Pow256(0) == 1 by { Pow256Zero(); }
    }
  }

  lemma Pow256Zero()
    ensures Pow256(0) == 1
  {
  }

  /** `realloc`: `grows` is the system's answer if it is asked for more memory. */
  method DlRealloc(m: State, oldmem: int, bytes: nat, grows: bool) returns (mem: int, ghost mid: Snapshot)
    requires Valid(m) && (oldmem != 0 ==> oldmem - 16 in Live(m.chunks))
    modifies m
    ensures old(m.trace) <= m.trace && (old(m.Chronicled()) ==> m.Chronicled())
    ensures mem == 0 ==> unchanged(m)
    ensures mem == 0 <==>
              || bytes >= MAX_REQUEST
              || ((oldmem == 0 || !CanResize(old(Snap(m)), oldmem - 16, RequestToSize(bytes)))
                  && OutOfMemory(old(Snap(m)), RequestToSize(bytes), grows))
    ensures oldmem == 0 && mem != 0 ==> Allocated(m, old(Snap(m)), mem - 16, RequestToSize(bytes))
    ensures oldmem == 0 && mem != 0 ==> Chooses(old(Snap(m)), bytes, mem - 16)
                                        && ShelfOf(Snap(m)) == AfterTake(old(Snap(m)), mem - 16, RequestToSize(bytes))
    ensures oldmem != 0 && bytes < MAX_REQUEST && CanResize(old(Snap(m)), oldmem - 16, RequestToSize(bytes)) ==>
              mem == oldmem && Fitted(m, old(Snap(m)), oldmem - 16, RequestToSize(bytes))
              && ShelfOf(Snap(m)) == AfterResize(old(Snap(m)), oldmem - 16, RequestToSize(bytes))
    ensures oldmem != 0 && mem != 0 && !CanResize(old(Snap(m)), oldmem - 16, RequestToSize(bytes)) ==>
              && Moved(m, old(Snap(m)), oldmem - 16, mem - 16, RequestToSize(bytes), bytes)
              && MovedVia(old(Snap(m)), mid, ShelfOf(Snap(m)), oldmem - 16, mem - 16, bytes)
  {
    hide *;
    mem, mid := 0, Snap(m);
    if oldmem == 0 {
      mem := DlMalloc(m, bytes, grows);
    } else if bytes >= MAX_REQUEST {
    } else {
      var nb, oldp := RequestToSize(bytes), oldmem - 16;
      ghost var s := Snap(m);
      RequestSize(bytes);
      LiveChunk(m, oldp);
      Start(m, oldp);
      var newp := TryReallocChunk(m, oldp, nb);
      if newp != 0 {
        mem := newp + 16;
      } else {
        mem, mid := MoveChunk(m, oldmem, bytes, grows);
      }
    }
  }

  /** The last part of `dlrealloc`. */
  method MoveChunk(m: State, oldmem: int, bytes: nat, grows: bool) returns (mem: int, ghost mid: Snapshot)
    requires Valid(m) && oldmem != 0 && oldmem - 16 in Live(m.chunks) && bytes < MAX_REQUEST
    modifies m
    ensures old(m.trace) <= m.trace && (old(m.Chronicled()) ==> m.Chronicled())
    ensures mem == 0 ==> unchanged(m)
    ensures mem == 0 <==> OutOfMemory(old(Snap(m)), RequestToSize(bytes), grows)
    ensures mem != 0 ==> Moved(m, old(Snap(m)), oldmem - 16, mem - 16, RequestToSize(bytes), bytes)
    ensures mem != 0 ==> MovedVia(old(Snap(m)), mid, ShelfOf(Snap(m)), oldmem - 16, mem - 16, bytes)
  {
    hide *;
    ghost var s := Snap(m);
    var q := oldmem - 16;
    LiveChunk(m, q);
    Start(m, q);
    mem := DlMalloc(m, bytes, grows);
    mid := s;
    if mem != 0 {
      ghost var p, s1, live1 := mem - 16, Snap(m), Live(m.chunks);
      ShelfIs(m);
      CopyRoom(m, s, q, p, bytes);
      Start(m, q);
      var oc := ChunkSize(m.At(Head(q))) - CHUNK_OVERHEAD;
      Memcpy(m, mem, oldmem, Lesser(oc, bytes), p, q);
      ghost var mem2, s2 := m.mem, Snap(m);
      CopySnap(m);
      ShelfIs(m);
      MiddleIs(m, s, q, p, RequestToSize(bytes), live1);
      mid := s2;
      DlFree(m, oldmem);
      FreedParts(m, s2, q);
      NowMovedVia(s, s2, ShelfOf(Snap(m)), q, p, bytes);
      MoveDone(m, s, s1, mem2, live1, q, p, RequestToSize(bytes), bytes);
    }
  }
}

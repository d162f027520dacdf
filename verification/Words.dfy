/** Machine words and the word memory the allocator works on. Every address below is a byte
    address; words sit at multiples of `SIZE_T_SIZE`, and the same word is a chunk header, a
    list link, a footer or user payload depending on the chunk it belongs to. */
module Words {

  const SIZE_T_SIZE := 8
  const MALLOC_ALIGNMENT := 16
  const MIN_CHUNK_SIZE := 32
  const CHUNK_OVERHEAD := 8
  const MIN_LARGE_SIZE := 256
  const WORD_LIMIT := 0x1_0000_0000_0000_0000
  const MAX_SIZE_T := WORD_LIMIT - 1
  const MAX_REQUEST := WORD_LIMIT - 128
  const MIN_REQUEST := MIN_CHUNK_SIZE - CHUNK_OVERHEAD - 1
  const MAX_SMALL_REQUEST := MIN_LARGE_SIZE - 1 - 15 - CHUNK_OVERHEAD
  const TOP_FOOT_SIZE := 80
  const SYS_ALLOC_PADDING := TOP_FOOT_SIZE + MALLOC_ALIGNMENT

  type Memory = map<int, int>

  /** The word at `a`; memory never written reads as zero. */
  function Peek(mem: Memory, a: int): int {
    if a in mem then mem[a] else 0
  }

  /** `size_t` subtraction, which wraps. */
  function Minus(a: int, b: int): int {
    if b <= a then a - b else a - b + WORD_LIMIT
  }

  // ---- field addresses of a chunk at p ----

  function PrevFoot(p: int): int { p }
  function Head(p: int): int { p + 8 }
  function Fd(p: int): int { p + 16 }
  function Bk(p: int): int { p + 24 }

  /** `child[b]`. */
  function ChildAt(p: int, b: int): int { p + 32 + 8 * b }
  function ParentAt(p: int): int { p + 48 }
  function IndexAt(p: int): int { p + 56 }

  // ---- head words ----

  /** `size | PINUSE_BIT? | CINUSE_BIT?`. */
  function HeadWord(size: int, cinuse: bool, pinuse: bool): int {
    size + (if cinuse then 2 else 0) + (if pinuse then 1 else 0)
  }

  function ChunkSize(head: int): int { head - head % 8 }
  predicate CInUse(head: int) { head / 2 % 2 == 1 }
  predicate PInUse(head: int) { head % 2 == 1 }

  /** `is_inuse`: the two in-use bits are not exactly PINUSE. */
  predicate IsInUse(head: int) { head % 4 != 1 }

  /** `head |= PINUSE_BIT`. */
  function SetPInUse(head: int): int { if PInUse(head) then head else head + 1 }

  /** `head &= ~PINUSE_BIT`. */
  function ClearPInUse(head: int): int { if PInUse(head) then head - 1 else head }

  lemma HeadFields(size: int, cinuse: bool, pinuse: bool)
    requires size % 8 == 0
    ensures var h := HeadWord(size, cinuse, pinuse);
            ChunkSize(h) == size && CInUse(h) == cinuse && PInUse(h) == pinuse
            && (IsInUse(h) <==> cinuse || !pinuse)
            && SetPInUse(h) == HeadWord(size, cinuse, true)
            && ClearPInUse(h) == HeadWord(size, cinuse, false)
  {
    LowBits(size / 8, (if cinuse then 2 else 0) + (if pinuse then 1 else 0));
  }

  lemma EightPlus(k: int, r: int)
    requires 0 <= r < 8
    ensures (8 * k + r) % 8 == r
  {
  }

  lemma FourPlus(k: int, r: int)
    requires 0 <= r < 4
    ensures (4 * k + r) % 4 == r
  {
  }

  lemma TwoPlus(k: int, r: int)
    requires 0 <= r < 2
    ensures (2 * k + r) % 2 == r && (2 * k + r) / 2 == k
  {
  }

  /** Low bits of a multiple of 8 with `b` added. */
  lemma LowBits(q: int, b: int)
    requires 0 <= b < 4
    ensures (8 * q + b) % 8 == b && (8 * q + b) % 4 == b && (8 * q + b) % 2 == b % 2
    ensures (8 * q + b) / 2 % 2 == b / 2
  {
    var h, l := b / 2, b % 2;
    assert b == 2 * h + l && 0 <= h < 2 && 0 <= l < 2;
    EightPlus(q, b);
    FourPlus(2 * q, b);
    TwoPlus(4 * q + h, l);
    TwoPlus(2 * q, h);
  }

  // ---- multiples ----

  lemma EightTimes(k: int)
    ensures (8 * k) % 8 == 0
  {
  }

  lemma SixteenTimes(k: int)
    ensures (16 * k) % 16 == 0
  {
  }

  lemma SumOf16(a: int, b: int)
    requires a % 16 == 0 && b % 16 == 0
    ensures (a + b) % 16 == 0 && (a - b) % 16 == 0
  {
    var i, j := a / 16, b / 16;
    SixteenTimes(i + j);
    SixteenTimes(i - j);
  }

  lemma Of16Of8(a: int)
    requires a % 16 == 0
    ensures a % 8 == 0 && (a + 8) % 8 == 0
  {
    var i := a / 16;
    EightTimes(2 * i);
    EightTimes(2 * i + 1);
  }

  lemma WordOffset(p: int, k: int)
    requires p % 16 == 0
    ensures (p + 16 + 8 * k) % 8 == 0
  {
    var i := p / 16;
    EightTimes(2 * i + 2 + k);
  }

  /** `pad_request`, without the wrap of `req + CHUNK_OVERHEAD + CHUNK_ALIGN_MASK`. */
  function PadRequest(req: int): int {
    (req + 23) - (req + 23) % 16
  }

  /** It is the least aligned size that leaves room for the head. */
  lemma PadIs(req: nat)
    ensures PadRequest(req) % 16 == 0 && req + 8 <= PadRequest(req) < req + 24
    ensures forall z :: req + 8 <= z && z % 16 == 0 ==> PadRequest(req) <= z
  {
    var q := (req + 23) / 16;
    assert PadRequest(req) == 16 * q;
    SixteenTimes(q);
    forall z | req + 8 <= z && z % 16 == 0
      ensures PadRequest(req) <= z
    {
      var k := z / 16;
      assert z == 16 * k;
    }
  }

  /** `request2size`. */
  function RequestToSize(req: int): int {
    if req < MIN_REQUEST then MIN_CHUNK_SIZE else PadRequest(req)
  }

  /** `is_small`. */
  predicate IsSmall(size: int) { size < MIN_LARGE_SIZE }

  /** `small_index`. */
  function SmallIndex(size: int): int { size / 8 }
}

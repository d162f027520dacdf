/** The bits of a chunk size, as the tree bins read them: a size is shifted left until its
    first undecided bit is the sign bit, and one bit is consumed per tree level. `Shr(s, w)`
    is what is left of `s` when the low `w` bits are dropped; a tree position is the pair of
    `w`, the number of bits not yet consumed, and the value of the bits already consumed. */
module SizeBits {
  import opened Words

  function Pow2(n: nat): (p: nat)
    ensures p >= 1
  {
    if n == 0 then 1 else 2 * Pow2(n - 1)
  }

  /** `s >> w`. */
  function Shr(s: nat, w: nat): nat {
    if w == 0 then s else Shr(s, w - 1) / 2
  }

  /** The low `w` bits of `s`. */
  function Low(s: nat, w: nat): nat {
    if w == 0 then 0 else Shr(s, w - 1) % 2 * Pow2(w - 1) + Low(s, w - 1)
  }

  /** The word `sizebits` (or `K`) of the tree loops when `w` bits are still undecided. */
  function SizeWord(s: nat, w: nat): nat
    requires w <= 64
  {
    Low(s, w) * Pow2(64 - w)
  }

  /** Bit `w - 1`, the one that picks the child below a node with `w` undecided bits. */
  function NextBit(s: nat, w: nat): (b: nat)
    requires w > 0
    ensures b < 2
  {
    Shr(s, w - 1) % 2
  }

  lemma {:induction false} SplitAt(s: nat, w: nat)
    ensures s == Shr(s, w) * Pow2(w) + Low(s, w)
    ensures Low(s, w) < Pow2(w)
  {
    if w > 0 {
      SplitAt(s, w - 1);
      HalveProduct(Shr(s, w - 1), Pow2(w - 1));
    }
  }

  lemma HalveProduct(q: nat, p: nat)
    ensures q * p == q / 2 * (2 * p) + q % 2 * p
    ensures q % 2 * p <= p
    ensures q % 2 == 0 ==> q % 2 * p == 0
  {
    var h, b := q / 2, q % 2;
    assert q == 2 * h + b;
    assert (2 * h + b) * p == h * (2 * p) + b * p;
  }

  lemma {:induction false} ShrMonotone(s: nat, t: nat, w: nat)
    requires s <= t
    ensures Shr(s, w) <= Shr(t, w)
  {
    if w > 0 {
      ShrMonotone(s, t, w - 1);
    }
  }

  /** Dropping more bits keeps agreement. */
  lemma {:induction false} ShrAgree(s: nat, t: nat, v: nat, w: nat)
    requires v <= w && Shr(s, v) == Shr(t, v)
    ensures Shr(s, w) == Shr(t, w)
    decreases w
  {
    if v < w {
      ShrAgree(s, t, v, w - 1);
    }
  }

  lemma {:induction false} ShrCompose(s: nat, v: nat, w: nat)
    ensures Shr(Shr(s, v), w) == Shr(s, v + w)
  {
    if w > 0 {
      ShrCompose(s, v, w - 1);
    }
  }

  lemma ShrZero(s: nat, w: nat)
    requires s < Pow2(w)
    ensures Shr(s, w) == 0
  {
    SplitAt(s, w);
    if Shr(s, w) > 0 {
      ProductAtLeast(Shr(s, w), Pow2(w));
    }
  }

  lemma ProductAtLeast(q: nat, p: nat)
    requires q > 0
    ensures q * p >= p
  {
  }

  lemma {:induction false} Pow2Add(m: nat, n: nat)
    ensures Pow2(m) * Pow2(n) == Pow2(m + n)
  {
    if n > 0 {
      Pow2Add(m, n - 1);
      assert Pow2(m) * Pow2(n) == 2 * (Pow2(m) * Pow2(n - 1));
    }
  }

  lemma Pow2Small()
    ensures Pow2(8) == 256 && Pow2(16) == 0x1_0000
  {
    assert Pow2(2) == 4;
    Pow2Add(2, 2);
    Pow2Add(4, 4);
    Pow2Add(8, 8);
  }

  lemma Pow2Values()
    ensures Pow2(63) == 0x8000_0000_0000_0000 && Pow2(64) == WORD_LIMIT
  {
    Pow2Small();
    Pow2Add(16, 16);
    Pow2Add(32, 32);
    assert Pow2(64) == 2 * Pow2(63);
  }

  lemma SizeWordIs(s: nat, w: nat)
    requires w <= 64
    ensures SizeWord(s, w) == Low(s, w) * Pow2(64 - w)
  {
  }

  /** `S << leftshift` keeps the low `w` bits, moved to the top of the word. */
  lemma FirstSizeWord(s: nat, w: nat)
    requires w <= 64
    ensures s * Pow2(64 - w) % WORD_LIMIT == SizeWord(s, w)
  {
    hide Pow2, Low, Shr, SizeWord;
    SizeWordIs(s, w);
    SplitAt(s, w);
    Pow2Add(w, 64 - w);
    Pow2Values();
    KeepsLow(s, Shr(s, w), Low(s, w), Pow2(w), Pow2(64 - w));
  }

  lemma KeepsLow(s: nat, h: nat, l: nat, p: nat, r: nat)
    requires s == h * p + l && l < p && r > 0 && p * r == WORD_LIMIT
    ensures s * r % WORD_LIMIT == l * r
  {
    ShiftedSplit(h, l, p, r);
    Remainder(h, l * r);
  }

  lemma ShiftedSplit(h: nat, l: nat, p: nat, r: nat)
    requires l < p && r > 0
    ensures (h * p + l) * r == h * (p * r) + l * r
    ensures l * r < p * r
  {
    Distribute(h * p, l, r);
    assert h * p * r == h * (p * r);
  }

  lemma Distribute(a: int, b: int, c: int)
    ensures (a + b) * c == a * c + b * c
  {
  }

  lemma Remainder(q: nat, r: nat)
    requires r < WORD_LIMIT
    ensures (q * WORD_LIMIT + r) % WORD_LIMIT == r
  {
  }

  lemma LowNext(s: nat, w: nat)
    requires 0 < w <= 64
    ensures Low(s, w) == NextBit(s, w) * Pow2(w - 1) + Low(s, w - 1) && NextBit(s, w) < 2
    ensures Pow2(64 - (w - 1)) == 2 * Pow2(64 - w)
  {
  }

  /** The sign bit of the size word is the next bit of the size, and `<<= 1` moves on. */
  lemma SizeWordStep(s: nat, w: nat)
    requires 0 < w <= 64
    ensures SizeWord(s, w) / 0x8000_0000_0000_0000 == NextBit(s, w)
    ensures SizeWord(s, w) * 2 % WORD_LIMIT == SizeWord(s, w - 1)
  {
    hide Pow2, Low, Shr, SizeWord, NextBit;
    SizeWordIs(s, w);
    SizeWordIs(s, w - 1);
    LowNext(s, w);
    SplitAt(s, w - 1);
    Pow2Values();
    Pow2Add(w - 1, 64 - w);
    SignBit(NextBit(s, w), Low(s, w - 1), Pow2(w - 1), Pow2(64 - w));
  }

  lemma SignBit(b: nat, l: nat, h: nat, p: nat)
    requires b < 2 && l < h && p > 0 && h * p == 0x8000_0000_0000_0000
    ensures (b * h + l) * p / 0x8000_0000_0000_0000 == b
    ensures (b * h + l) * p * 2 % WORD_LIMIT == l * (2 * p)
  {
    ShiftedSplit(b, l, h, p);
    DoubleProduct(l, p);
    TopBit(b, l * p);
  }

  lemma DoubleProduct(l: nat, p: nat)
    ensures l * (2 * p) == 2 * (l * p)
  {
  }

  lemma TopBit(b: nat, r: nat)
    requires b < 2 && r < 0x8000_0000_0000_0000
    ensures (b * 0x8000_0000_0000_0000 + r) / 0x8000_0000_0000_0000 == b
    ensures (b * 0x8000_0000_0000_0000 + r) * 2 % WORD_LIMIT == 2 * r
  {
    Remainder(b, 2 * r);
    assert (b * 0x8000_0000_0000_0000 + r) * 2 == b * WORD_LIMIT + 2 * r;
  }

  // ---- tree bins ----

  function Log2(x: nat): nat
    requires x > 0
  {
    if x == 1 then 0 else 1 + Log2(x / 2)
  }

  /** `compute_tree_index`, in its `size_t` form. */
  function TreeIndex(s: nat): (i: nat)
  {
    var x := Shr(s, 8);
    if x == 0 then 0
    else if x > 0xFFFF then 31
    else
      var k := Log2(x);
      2 * k + Shr(s, k + 7) % 2
  }

  /** The number of bits undecided at the root of bin `i`, so that the left shift
      `leftshift_for_tree_index(i)` is `64 - RootBits(i)`. */
  function RootBits(i: nat): nat
  {
    if i == 31 then 64 else i / 2 + 7
  }

  /** The value of the bits every size of bin `i` shares. */
  function RootPrefix(i: nat): nat
  {
    if i == 31 then 0 else 2 + i % 2
  }

  lemma {:induction false} Log2Shr(x: nat)
    requires x > 0
    ensures Shr(x, Log2(x)) == 1
    ensures Pow2(Log2(x)) <= x < Pow2(Log2(x) + 1)
  {
    if x > 1 {
      Log2Shr(x / 2);
      ShrCompose(x, 1, Log2(x / 2));
      assert Shr(x, 1) == Shr(x, 0) / 2;
    }
  }

  lemma {:induction false} Log2Monotone(x: nat, y: nat)
    requires 0 < x <= y
    ensures Log2(x) <= Log2(y)
  {
    if x > 1 {
      Log2Monotone(x / 2, y / 2);
    }
  }

  lemma {:induction false} Pow2Monotone(m: nat, n: nat)
    requires m <= n
    ensures Pow2(m) <= Pow2(n)
  {
    if m < n {
      Pow2Monotone(m, n - 1);
    }
  }

  lemma Log2Bound(x: nat)
    requires 0 < x <= 0xFFFF
    ensures Log2(x) <= 15
  {
    Log2Shr(x);
    Pow2Small();
    if Log2(x) >= 16 {
      Pow2Monotone(16, Log2(x));
    }
  }

  lemma ShrEight(s: nat)
    ensures Shr(s, 8) == s / 256
  {
    SplitAt(s, 8);
    Pow2Small();
  }

  /** Every size of a bin agrees on the bits above the root of the bin's tree. */
  lemma RootOfBin(s: nat)
    requires MIN_LARGE_SIZE <= s < WORD_LIMIT
    ensures TreeIndex(s) < 32
    ensures Shr(s, RootBits(TreeIndex(s))) == RootPrefix(TreeIndex(s))
  {
    hide Pow2;
    var x := Shr(s, 8);
    ShrEight(s);
    Pow2Values();
    ShrZero(s, 64);
    if x <= 0xFFFF {
      Log2Bound(x);
      LeadingBits(s);
    }
  }

  /** Down to its second bit, a size with leading bit `k + 8` is 2 or 3. */
  lemma LeadingBits(s: nat)
    requires Shr(s, 8) > 0
    ensures var k := Log2(Shr(s, 8)); Shr(s, k + 7) / 2 == 1
  {
    var x := Shr(s, 8);
    var k := Log2(x);
    Log2Shr(x);
    ShrCompose(s, 8, k);
    assert Shr(s, k + 8) == Shr(s, k + 7) / 2;
  }

  /** Larger sizes never go to lower bins. */
  lemma TreeIndexMonotone(s: nat, t: nat)
    requires s <= t
    ensures TreeIndex(s) <= TreeIndex(t)
  {
    ShrMonotone(s, t, 8);
    var x, y := Shr(s, 8), Shr(t, 8);
    if 0 < x && y <= 0xFFFF {
      Log2Monotone(x, y);
      if Log2(x) == Log2(y) {
        LeadingBits(s);
        LeadingBits(t);
        ShrMonotone(s, t, Log2(x) + 7);
      }
    } else if 0 < x <= 0xFFFF {
      Log2Bound(x);
    }
  }

  /** Two chunk sizes that agree above bit `w` but differ leave bit 4 or higher undecided. */
  lemma DifferAboveAlignment(s: nat, t: nat, w: nat)
    requires s % 16 == 0 && t % 16 == 0 && s != t
    requires Shr(s, w) == Shr(t, w)
    ensures w >= 5
  {
    if w < 5 {
      ShrAgree(s, t, w, 4);
      ShrFour(s);
      ShrFour(t);
    }
  }

  lemma ShrFour(s: nat)
    ensures Shr(s, 4) == s / 16
  {
    assert Shr(s, 1) == s / 2;
    assert Shr(s, 2) == Shr(s, 1) / 2;
    assert Shr(s, 3) == Shr(s, 2) / 2;
  }
}

/** The forms of `compute_tree_index`: the one GCC compiles on x86 keeps only the low 32 bits
    of the size shifted right, so that it agrees with the `size_t` form on all sizes below
    2^40 and on some beyond. */
module TreeIndexForms {
  import opened SizeBits
  import opened WordBits

  /** The form compiled by GCC on x86. */
  function TreeIndexX86(s: nat): nat
  {
    var x := Shr(s, 8) % 0x1_0000_0000;
    if x == 0 then 0
    else if x > 0xFFFF then 31
    else
      var k := Log2(x);
      2 * k + Shr(s, k + 7) % 2
  }

  /** The sizes both forms put in the same bin. */
  predicate SameForms(s: nat) {
    s < 0x100_0000_0000 || s / 256 % 0x1_0000_0000 >= 0xC000
  }

  lemma FormsAgree(s: nat)
    ensures TreeIndexX86(s) == TreeIndex(s) <==> SameForms(s)
  {
    hide Shr, Log2;
    ShrEight(s);
    if s < 0x100_0000_0000 {
      assert s / 256 < 0x1_0000_0000;
    } else {
      assert s / 256 >= 0x1_0000_0000;
      var x := s / 256 % 0x1_0000_0000;
      if 0 < x <= 0xFFFF {
        LastBinOnly(s, x);
      }
    }
  }

  /** In the x86 form, only the sizes whose low part reaches the last bin go there. */
  lemma LastBinOnly(s: nat, x: nat)
    requires x == s / 256 % 0x1_0000_0000 && 0 < x <= 0xFFFF
    ensures 2 * Log2(x) + Shr(s, Log2(x) + 7) % 2 == 31 <==> x >= 0xC000
  {
    hide Shr, Log2;
    Log2Bound(x);
    Log2Fifteen(x);
    if Log2(x) == 15 {
      BitTwentyTwo(s, x);
    }
  }

  lemma Log2Fifteen(x: nat)
    requires 0 < x <= 0xFFFF
    ensures Log2(x) == 15 <==> x >= 0x8000
  {
    hide Log2, Pow2;
    Log2Shr(x);
    Log2Bound(x);
    Pow2Small();
    Pow2Fifteen();
    if Log2(x) < 15 {
      Pow2Monotone(Log2(x) + 1, 15);
    }
  }

  lemma Pow2Fifteen()
    ensures Pow2(15) == 0x8000 && Pow2(22) == 0x40_0000
  {
    Pow2Small();
    assert Pow2(16) == 2 * Pow2(15);
    Pow2Add(7, 15);
    assert Pow2(8) == 2 * Pow2(7);
  }

  lemma BitTwentyTwo(s: nat, x: nat)
    requires x == s / 256 % 0x1_0000_0000 && 0x8000 <= x <= 0xFFFF
    ensures Shr(s, 22) % 2 == 1 <==> x >= 0xC000
  {
    hide Shr, Low, Pow2;
    SplitAt(s, 22);
    Pow2Fifteen();
    var q, l, h := Shr(s, 22), Low(s, 22), s / 256 / 0x1_0000_0000;
    assert s / 256 == 0x1_0000_0000 * h + x;
    HighPart(s, h, x, q, l);
  }

  lemma HighPart(s: nat, h: nat, x: nat, q: nat, l: nat)
    requires s / 256 == 0x1_0000_0000 * h + x && s == q * 0x40_0000 + l && l < 0x40_0000 && 0x8000 <= x <= 0xFFFF
    ensures q % 2 == 1 <==> x >= 0xC000
  {
    assert s / 256 == q * 0x4000 + l / 256;
    var e := q - 0x4_0000 * h;
    assert x == e * 0x4000 + l / 256;
    assert e == if x >= 0xC000 then 3 else 2;
    assert q == 2 * (0x2_0000 * h) + e;
  }

  /** The smallest size the two forms disagree on. */
  lemma FirstDisagreement()
    ensures TreeIndexX86(0x100_0000_0000) == 0 && TreeIndex(0x100_0000_0000) == 31
  {
    hide Shr;
    ShrEight(0x100_0000_0000);
  }

  // ---- the portable form ----

  const UINT_LIMIT := 0x1_0000_0000

  /** `((y - bound) >> 16) & bit` in 32-bit unsigned arithmetic: the subtraction is meant to
      wrap, and the result tells whether `y` is below the bound. */
  function Below(y: nat, bound: nat, bit: nat): nat
    requires bound < UINT_LIMIT
  {
    BitAnd((y + UINT_LIMIT - bound) % UINT_LIMIT / 0x1_0000, bit)
  }

  /** The position of the highest bit of `x`, found by shifting the leading bit to one of the
      two top positions of a 16-bit number in steps of 8, 4 and 2. */
  function PortableLog2(x: nat): int {
    var n := Below(x, 0x100, 8);
    var y1 := x * Pow2(n) % UINT_LIMIT;
    var k1 := Below(y1, 0x1000, 4);
    var y2 := y1 * Pow2(k1) % UINT_LIMIT;
    var k2 := Below(y2, 0x4000, 2);
    var y3 := y2 * Pow2(k2) % UINT_LIMIT;
    14 - (n + k1 + k2) + y3 / 0x8000
  }

  lemma BelowIs(y: nat, bound: nat, bit: nat)
    requires y <= 0xFFFF && 0 < bound <= 0x4000 && (bit == 8 || bit == 4 || bit == 2)
    ensures Below(y, bound, bit) == if y < bound then bit else 0
  {
    hide BitAnd;
    AllOnes();
    if y < bound {
      assert (y + UINT_LIMIT - bound) % UINT_LIMIT / 0x1_0000 == 0xFFFF;
    } else {
      assert (y + UINT_LIMIT - bound) % UINT_LIMIT / 0x1_0000 == 0;
    }
  }

  lemma AllOnes()
    ensures BitAnd(0xFFFF, 8) == 8 && BitAnd(0xFFFF, 4) == 4 && BitAnd(0xFFFF, 2) == 2
    ensures BitAnd(0, 8) == 0 && BitAnd(0, 4) == 0 && BitAnd(0, 2) == 0
  {
    assert BitAnd(0x1FFF, 1) == 1;
    assert BitAnd(0x3FFF, 2) == 2 * BitAnd(0x1FFF, 1);
    assert BitAnd(0x3FFF, 1) == 1;
    assert BitAnd(0x7FFF, 4) == 2 * BitAnd(0x3FFF, 2);
    assert BitAnd(0x7FFF, 2) == 2 * BitAnd(0x3FFF, 1);
    assert BitAnd(0x7FFF, 1) == 1;
  }

  lemma SmallPowers()
    ensures Pow2(0) == 1 && Pow2(2) == 4 && Pow2(4) == 16 && Pow2(8) == 256
  {
    Pow2Small();
    assert Pow2(2) == 2 * Pow2(1);
    assert Pow2(4) == 4 * Pow2(2);
  }

  /** One shifting step. */
  lemma ShiftStep(y: nat, bound: nat, bit: nat)
    requires 0 < y <= 0xFFFF
    requires (bound == 0x100 && bit == 8) || (bound == 0x1000 && bit == 4 && y >= 0x100)
          || (bound == 0x4000 && bit == 2 && y >= 0x1000)
    ensures var k := Below(y, bound, bit);
            k <= bit && bound <= y * Pow2(k) <= 0xFFFF && y * Pow2(k) % UINT_LIMIT == y * Pow2(k)
  {
    hide Pow2, Below;
    SmallPowers();
    BelowIs(y, bound, bit);
    if y < bound {
      Shifted(y, Pow2(bit));
    } else {
      Shifted(y, 1);
    }
  }

  lemma Shifted(y: nat, p: nat)
    requires y * p <= 0xFFFF
    ensures y * p % UINT_LIMIT == y * p
  {
  }

  /** Both ways of finding the highest bit agree wherever `compute_tree_index` uses them. */
  lemma PortableIsLog2(x: nat)
    requires 0 < x <= 0xFFFF
    ensures PortableLog2(x) == Log2(x)
  {
    hide Pow2, Log2, Below;
    var n := Below(x, 0x100, 8);
    ShiftStep(x, 0x100, 8);
    var y1 := x * Pow2(n);
    var k1 := Below(y1, 0x1000, 4);
    ShiftStep(y1, 0x1000, 4);
    var y2 := y1 * Pow2(k1);
    var k2 := Below(y2, 0x4000, 2);
    ShiftStep(y2, 0x4000, 2);
    Composed(x, n, k1, k2);
    Normalized(x, n + k1 + k2, y2 * Pow2(k2));
  }

  lemma Composed(x: nat, a: nat, b: nat, c: nat)
    ensures x * Pow2(a) * Pow2(b) * Pow2(c) == x * Pow2(a + b + c)
  {
    hide Pow2;
    Pow2Add(a, b);
    Pow2Add(a + b, c);
    Regroup(x, Pow2(a), Pow2(b), Pow2(c));
  }

  lemma Regroup(x: nat, a: nat, b: nat, c: nat)
    ensures x * a * b * c == x * (a * b * c)
  {
    assert x * a * b == x * (a * b);
    assert x * (a * b) * c == x * (a * b * c);
  }

  /** Shifted into `[2^14, 2^16)`, a number shows its highest bit. */
  lemma Normalized(x: nat, n: nat, y: nat)
    requires 0 < x && n <= 14 && y == x * Pow2(n) && 0x4000 <= y <= 0xFFFF
    ensures Log2(x) == 14 - n + y / 0x8000
  {
    hide Pow2, Log2;
    var l := Log2(x) + n;
    LeadShifted(x, n);
    Pow2Fourteen();
    if l <= 13 {
      Pow2Monotone(l + 1, 14);
    } else if l >= 16 {
      Pow2Monotone(16, l);
    }
  }

  lemma LeadShifted(x: nat, n: nat)
    requires 0 < x
    ensures Pow2(Log2(x) + n) <= x * Pow2(n) < Pow2(Log2(x) + n + 1)
  {
    hide Pow2, Log2;
    Log2Shr(x);
    Pow2Add(Log2(x), n);
    Pow2Add(Log2(x) + 1, n);
    Scale(Pow2(Log2(x)), x, Pow2(n));
    Scale(x + 1, Pow2(Log2(x) + 1), Pow2(n));
    OneMoreTime(x, Pow2(n));
  }

  lemma OneMoreTime(x: nat, p: nat)
    ensures (x + 1) * p == x * p + p
  {
  }

  lemma Pow2Fourteen()
    ensures Pow2(14) == 0x4000 && Pow2(15) == 0x8000 && Pow2(16) == 0x1_0000
  {
    Pow2Fifteen();
    Pow2Small();
    assert Pow2(15) == 2 * Pow2(14);
  }

  lemma Scale(a: nat, b: nat, c: nat)
    requires a <= b
    ensures a * c <= b * c
  {
  }
}

/** What the model of the `size_t` form of `compute_tree_index` says of the build in which GCC
    compiles the other form: everything, as long as the segment stays within 2^40 bytes. */
module X86Build {
  import opened Words
  import opened SizeBits
  import opened MallocState
  import opened Invariant
  import opened TreeIndexForms
  import opened Checks

  const X86_LIMIT := 0x100_0000_0000

  /** Every binned chunk is in the bin that the x86 form computes. */
  lemma SameBins(m: State)
    requires Valid(m) && m.segSize <= X86_LIMIT
    ensures forall x :: x in m.sizes ==> m.sizes[x] < X86_LIMIT && TreeIndexX86(m.sizes[x]) == TreeIndex(m.sizes[x])
  {
    hide HeapOk, Placed, TopOk, TreeIndexX86, TreeIndex;
    forall x | x in m.sizes
      ensures m.sizes[x] < X86_LIMIT && TreeIndexX86(m.sizes[x]) == TreeIndex(m.sizes[x])
    {
      SizeInSegment(m, x);
      FormsAgree(m.sizes[x]);
    }
  }

  lemma SizeInSegment(m: State, x: int)
    requires m.Bins() && x in m.sizes
    ensures 0 <= m.sizes[x] < m.segSize
  {
    hide BinsOk;
  }

  /** And every request is served alike: one below 2^40 bytes looks into the same bin, and for
      a larger one no tree, whichever it looks into, has a chunk that passes the comparison of
      the search. */
  lemma SameSearch(m: State, nb: nat)
    requires Valid(m) && m.segSize <= X86_LIMIT && nb < WORD_LIMIT
    ensures nb < X86_LIMIT ==> TreeIndexX86(nb) == TreeIndex(nb)
    ensures nb >= X86_LIMIT ==>
              forall x :: x in m.sizes ==> m.sizes[x] < nb && !(Minus(m.sizes[x], nb) < Minus(0, nb))
  {
    hide TreeIndexX86, TreeIndex;
    SameBins(m);
    FormsAgree(nb);
    if nb >= X86_LIMIT {
      forall x | x in m.sizes ensures m.sizes[x] < nb && !(Minus(m.sizes[x], nb) < Minus(0, nb)) {
        SizeInSegment(m, x);
      }
    }
  }

  /** The bounds that `do_check_tree` puts on a size in bin `i`. */
  predicate InBin(i: nat, s: nat) {
    MinSizeForTreeIndex(i) <= s && (i == 31 || s < MinSizeForTreeIndex(i + 1))
  }

  /** Beyond that, the x86 form passes this check exactly where the forms agree: where they do
      not, the size is above the bounds of the bin. */
  lemma PassesCheckIff(s: nat)
    requires MIN_LARGE_SIZE <= s < WORD_LIMIT
    ensures InBin(TreeIndexX86(s), s) <==> SameForms(s)
    ensures !SameForms(s) ==> TreeIndexX86(s) < 31 && s >= MinSizeForTreeIndex(TreeIndexX86(s) + 1)
  {
    FormsAgree(s);
    TreeIndexRange(s);
    if !SameForms(s) {
      WrongIsLow(s);
      BoundsBelow(TreeIndexX86(s) + 1);
    }
  }

  lemma WrongIsLow(s: nat)
    requires !SameForms(s)
    ensures TreeIndexX86(s) < 31
  {
    FormsAgree(s);
    hide Shr, Log2;
    ShrEight(s);
    var x := Shr(s, 8) % 0x1_0000_0000;
    if 0 < x <= 0xFFFF {
      Log2Bound(x);
    }
  }

  lemma BoundsBelow(i: nat)
    requires i <= 31
    ensures MinSizeForTreeIndex(i) <= X86_LIMIT
  {
    hide Pow2;
    Pow2Monotone(i / 2 + 8, 23);
    Pow2Monotone(i / 2 + 7, 23);
    Pow2Add(8, 15);
    Pow2Fifteen();
    Pow2Small();
  }
}

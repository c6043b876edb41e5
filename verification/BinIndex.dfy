/**
  Which bin holds which size: the small-bin and tree-bin index macros, and the
  bit tricks on the 32-bit bin maps.
 */
module BinIndex {
  import opened Words

  const TREE_BINS := 32
  const MIN_LARGE_SIZE := 256
  const SIZE_LIMIT := 0x100_0000_0000 // 2^40: from here on the index macro truncates

  /** 31 - clz(x): the position of the highest set bit. */
  function FloorLog2(x: nat): nat
    requires x > 0
  {
    if x == 1 then 0 else 1 + FloorLog2(x / 2)
  }

  /** compute_tree_index; its X is an unsigned int, so the shifted size is cut to 32 bits. */
  function TreeIndex(size: nat): (i: nat)
    ensures i < TREE_BINS
  {
    var x := (size / 256) % 0x1_0000_0000;
    if x == 0 then 0
    else if x > 0xFFFF then 31
    else
      var k := FloorLog2(x);
      assert k <= 15 by { LogOfHalfWord(x); }
      2 * k + Bit(size, k + 7)
  }

  /** minsize_for_tree_index; the two or-ed terms have no bit in common. */
  function MinSize(i: nat): nat {
    Pow2(i / 2 + 8) + (i % 2) * Pow2(i / 2 + 7)
  }

  /** leftshift_for_tree_index. */
  function LeftShift(i: nat): nat
    requires i < 32
  {
    if i == 31 then 0 else 63 - (i / 2 + 6)
  }

  /** The number of low bits of a size that its bin leaves open. */
  function OpenBits(i: nat): nat {
    if i == 31 then 64 else i / 2 + 7
  }

  lemma {:induction false} FloorLog2Bounds(x: nat)
    requires x > 0
    ensures Shr(x, FloorLog2(x)) == 1
  {
    if x > 1 {
      FloorLog2Bounds(x / 2);
      ShrTwice(x, 1, FloorLog2(x / 2));
      assert Shr(x, 1) == x / 2 by { assert Shr(x, 0) == x; }
    }
  }

  lemma {:induction false} FloorLog2Is(x: nat, k: nat)
    requires x > 0
    ensures FloorLog2(x) == k <==> Shr(x, k) == 1
  {
    assert Shr(x, 0) == x;
    if x == 1 {
      if k > 0 {
        ShrOfOne(k);
      }
    } else if k > 0 {
      FloorLog2Is(x / 2, k - 1);
      ShrTwice(x, 1, k - 1);
      assert Shr(x, 1) == x / 2;
    }
  }

  lemma {:induction false} ShrOfOne(k: nat)
    requires k > 0
    ensures Shr(1, k) == 0
  {
    assert Shr(1, 0) == 1;
    if k > 1 {
      ShrOfOne(k - 1);
    }
  }

  /** A bin other than the last is exactly a pair of leading bits at a given position. */
  lemma MinSizeAsShift(i: nat, size: nat)
    ensures MinSize(i) <= size < MinSize(i + 1) <==> Shr(size, i / 2 + 7) == 2 + i % 2
  {
    hide Shr;
    ShrIsQuotient(size, i / 2 + 7, 2 + i % 2);
    assert Pow2(i / 2 + 8) == 2 * Pow2(i / 2 + 7);
    if i % 2 == 1 {
      assert (i + 1) / 2 == i / 2 + 1;
    }
  }

  lemma {:induction false} MinSizeMono(i: nat, j: nat)
    requires i <= j
    ensures MinSize(i) <= MinSize(j)
    decreases j - i
  {
    if i < j {
      MinSizeMono(i + 1, j);
      assert MinSize(i) <= MinSize(i + 1) by {
        assert Pow2(i / 2 + 8) == 2 * Pow2(i / 2 + 7);
        if i % 2 == 1 {
          assert (i + 1) / 2 == i / 2 + 1;
        }
      }
    }
  }

  /** The specification: i is the bin of the size, with no upper limit for the last bin. */
  predicate IsBinOf(i: nat, size: nat) {
    i < TREE_BINS && MinSize(i) <= size && (i < 31 ==> size < MinSize(i + 1))
  }

  lemma BinOfIsUnique(i: nat, j: nat, size: nat)
    requires IsBinOf(i, size) && IsBinOf(j, size)
    ensures i == j
  {
    if i < j {
      MinSizeMono(i + 1, j);
    } else if j < i {
      MinSizeMono(j + 1, i);
    }
  }

  lemma {:induction false} FloorLog2Below(x: nat, k: nat)
    requires 0 < x < Pow2(k)
    ensures FloorLog2(x) < k
  {
    if x > 1 {
      FloorLog2Below(x / 2, k - 1);
    }
  }

  lemma LogOfHalfWord(x: nat)
    requires 0 < x <= 0xFFFF
    ensures FloorLog2(x) <= 15
  {
    Pow2At64();
    FloorLog2Below(x, 16);
  }

  /** For 0 < x <= 0xFFFF, K is at most 15 and the bits of the size from K+8 up are just 1. */
  lemma MiddleLog(size: nat, x: nat)
    requires x == (size / 256) % 0x1_0000_0000 && 0 < x <= 0xFFFF
    ensures FloorLog2(x) <= 15
    ensures x == size / 256 ==> Shr(size, FloorLog2(x) + 7) == 2 + Bit(size, FloorLog2(x) + 7)
  {
    LogOfHalfWord(x);
    if x == size / 256 {
      FloorLog2Bounds(x);
      ShrEight(size);
      ShrTwice(size, 8, FloorLog2(x));
    }
  }

  lemma ShrEight(size: nat)
    ensures Shr(size, 8) == size / 256
  {
    assert Shr(size, 1) == size / 2 by { assert Shr(size, 0) == size; }
    assert Shr(size, 2) == size / 4;
    assert Shr(size, 4) == size / 16;
    assert Shr(size, 6) == size / 64;
  }

  /** In the middle range the leading bits of the size name the bin. */
  lemma TreeIndexMiddle(size: nat, x: nat)
    requires x == size / 256 && 0 < x <= 0xFFFF
    ensures Shr(size, TreeIndex(size) / 2 + 7) == 2 + TreeIndex(size) % 2
  {
    MiddleLog(size, x);
    var k := FloorLog2(x);
    assert TreeIndex(size) / 2 == k && TreeIndex(size) % 2 == Bit(size, k + 7);
  }

  /** Below 2^40 every size gets the one bin whose range holds it. */
  lemma TreeIndexIsBin(size: nat)
    requires MIN_LARGE_SIZE <= size < SIZE_LIMIT
    ensures IsBinOf(TreeIndex(size), size)
  {
    hide TreeIndex, MinSize, Shr, Bit, Pow2;
    var x := size / 256;
    assert x == x % 0x1_0000_0000;
    if x > 0xFFFF {
      HighIndex(size, x);
      LastBin(size);
    } else {
      TreeIndexMiddle(size, x);
      MinSizeAsShift(TreeIndex(size), size);
    }
  }

  lemma HighIndex(size: nat, x: nat)
    requires x == (size / 256) % 0x1_0000_0000 && x > 0xFFFF
    ensures TreeIndex(size) == 31
  {
  }

  lemma LastBin(size: nat)
    requires size >= 0xC0_0000
    ensures IsBinOf(31, size)
  {
    MinSizeOfLast();
  }

  /** The bins are ordered like the sizes they hold. */
  lemma TreeIndexMonotone(s: nat, t: nat)
    requires MIN_LARGE_SIZE <= s <= t < SIZE_LIMIT
    ensures TreeIndex(s) <= TreeIndex(t)
  {
    TreeIndexIsBin(s);
    TreeIndexIsBin(t);
    if TreeIndex(t) < TreeIndex(s) {
      MinSizeMono(TreeIndex(t) + 1, TreeIndex(s));
    }
  }

  /**
    Exactly when the macro is right for a size: below 2^40, or when the 32 bits that
    survive the cut still name the last bin.
   */
  lemma TreeIndexRightIff(size: nat)
    requires MIN_LARGE_SIZE <= size
    ensures IsBinOf(TreeIndex(size), size) <==>
            size < SIZE_LIMIT || (size / 256) % 0x1_0000_0000 >= 0xC000
  {
    if size < SIZE_LIMIT {
      TreeIndexIsBin(size);
    } else {
      LastBin(size);
      if IsBinOf(TreeIndex(size), size) {
        BinOfIsUnique(31, TreeIndex(size), size);
      }
      TreeIndexLast((size / 256) % 0x1_0000_0000, size);
    }
  }

  lemma MinSizeOfLast()
    ensures MinSize(31) == 0xC0_0000
  {
    Pow2At64();
    Pow2Add(16, 6);
    assert Pow2(6) == 64;
    assert Pow2(23) == 2 * Pow2(22);
  }

  lemma TreeIndexLast(x: nat, size: nat)
    requires x == (size / 256) % 0x1_0000_0000
    ensures TreeIndex(size) == 31 <==> x >= 0xC000
  {
    if 0 < x <= 0xFFFF {
      var low := size % 0x100_0000;
      TreeIndexCut(size, low, x);
      LastOfMiddle(low, x);
    }
  }

  lemma LastOfMiddle(size: nat, x: nat)
    requires x == size / 256 && 0 < x <= 0xFFFF
    ensures TreeIndex(size) == 31 <==> x >= 0xC000
  {
    TreeIndexIsBin(size);
    MinSizeOfLast();
    if x >= 0xC000 {
      LastBin(size);
      BinOfIsUnique(31, TreeIndex(size), size);
    }
  }

  lemma CutLow(size: nat)
    requires (size / 256) % 0x1_0000_0000 <= 0xFFFF
    ensures (size % 0x100_0000) / 256 == (size / 256) % 0x1_0000_0000
  {
    var y := size / 256;
    var h, x, r := y / 0x1_0000_0000, y % 0x1_0000_0000, size % 256;
    assert size == 256 * y + r && y == 0x1_0000_0000 * h + x;
    LowTwentyFour(size, 0x1_0000 * h, x, r);
  }

  lemma LowTwentyFour(size: nat, h: nat, x: nat, r: nat)
    requires size == 0x100_0000 * h + (256 * x + r) && x <= 0xFFFF && r < 256
    ensures (size % 0x100_0000) / 256 == x
  {
    assert size % 0x100_0000 == 256 * x + r;
  }

  lemma LowIsSmall(low: nat, x: nat)
    requires low < 0x100_0000 && low / 256 == x
    ensures x % 0x1_0000_0000 == x
  {
  }

  /** Bits 24 and up play no part in the middle range. */
  lemma TreeIndexCut(size: nat, low: nat, x: nat)
    requires x == (size / 256) % 0x1_0000_0000 && 0 < x <= 0xFFFF
    requires low == size % 0x100_0000
    ensures low / 256 == x
    ensures TreeIndex(size) == TreeIndex(low)
  {
    hide Bit, FloorLog2;
    MiddleLog(size, x);
    CutLow(size);
    LowIsSmall(low, x);
    BitOfLow(size / 0x100_0000, low, FloorLog2(x) + 7);
  }

  lemma {:induction false} ShrOfSum(h: nat, n: nat, low: nat, k: nat)
    requires k <= n
    ensures Shr(h * Pow2(n) + low, k) == h * Pow2(n - k) + Shr(low, k)
  {
    if k > 0 {
      ShrOfSum(h, n, low, k - 1);
      TwiceScaled(h, Pow2(n - k));
    }
  }

  lemma TwiceScaled(h: nat, w: nat)
    ensures h * (2 * w) == 2 * (h * w)
  {
  }

  lemma BitOfLow(h: nat, low: nat, k: nat)
    requires k < 24
    ensures Bit(h * 0x100_0000 + low, k) == Bit(low, k)
  {
    Pow2At64();
    Pow2Add(16, 8);
    assert Pow2(8) == 256;
    ShrOfSum(h, 24, low, k);
    TwiceScaled(h, Pow2(23 - k));
  }

  /** Size 2^40 itself: the macro answers bin 0, whose range ends at 384. */
  lemma TreeIndexTruncates()
    ensures TreeIndex(SIZE_LIMIT) == 0
    ensures !IsBinOf(0, SIZE_LIMIT)
  {
    assert Pow2(8) == 256;
    assert Pow2(7) == 128;
    assert MinSize(1) == 384;
  }

  /** All sizes of a bin agree above the bits that the bin leaves open. */
  lemma SameBinSameTop(s: nat, t: nat)
    requires MIN_LARGE_SIZE <= s < SIZE_LIMIT && MIN_LARGE_SIZE <= t < SIZE_LIMIT
    requires TreeIndex(s) == TreeIndex(t)
    ensures Shr(s, OpenBits(TreeIndex(s))) == Shr(t, OpenBits(TreeIndex(s)))
  {
    var i := TreeIndex(s);
    TreeIndexIsBin(s);
    TreeIndexIsBin(t);
    if i < 31 {
      MinSizeAsShift(i, s);
      MinSizeAsShift(i, t);
    } else {
      Pow2At64();
      ShrIsQuotient(s, 64, 0);
      ShrIsQuotient(t, 64, 0);
    }
  }

  /**
    leftshift_for_tree_index puts the first bit the bin leaves open in the sign position:
    the shifted size is the search key over all the open bits, and its sign bit is that bit.
   */
  lemma LeftShiftFindsFirstOpenBit(size: nat)
    requires MIN_LARGE_SIZE <= size < SIZE_LIMIT
    ensures var n := OpenBits(TreeIndex(size));
            && n > 0
            && (size * Pow2(LeftShift(TreeIndex(size)))) % WORD == SearchKey(size, n)
            && SearchKey(size, n) / HALF_WORD == Bit(size, n - 1)
  {
    TreeIndexIsBin(size);
    var n := OpenBits(TreeIndex(size));
    SearchKeyStart(size, n);
    SearchKeyStep(size, n);
  }
}

/**
  The 32-bit bin maps: one bit per bin, set when the bin is non-empty. Shifts by a
  variable amount are written as repeated shifts by one. Facts about single words are
  proved on bit-vectors once; everything else talks about which bins are marked.
 */
module BinMap {
  type binmap = bv32

  function Up(x: binmap): binmap { x << 1 }

  function Down(x: binmap): binmap { x >> 1 }

  function Or(x: binmap, y: binmap): binmap { x | y }

  function Without(x: binmap, y: binmap): binmap { x & !y }

  function Left(x: binmap, n: nat): binmap {
    if n == 0 then x else Up(Left(x, n - 1))
  }

  function Right(x: binmap, n: nat): binmap {
    if n == 0 then x else Down(Right(x, n - 1))
  }

  /** idx2bit. */
  function IdxBit(i: nat): binmap { Left(1, i) }

  predicate Meets(x: binmap, b: binmap) { x & b != 0 }

  predicate Marked(x: binmap, i: nat) { Meets(x, IdxBit(i)) }

  /** mark_smallmap, mark_treemap. */
  function Mark(x: binmap, i: nat): binmap { Or(x, IdxBit(i)) }

  /** clear_smallmap, clear_treemap. */
  function Clear(x: binmap, i: nat): binmap { Without(x, IdxBit(i)) }

  /** least_bit and left_bits, with C's unsigned negation. */
  function LeastBit(x: binmap): binmap { x & (0 - x) }

  function LeftBits(x: binmap): binmap { (x << 1) | (0 - (x << 1)) }

  function Both(x: binmap, y: binmap): binmap { x & y }

  /** compute_bit2idx: the number of trailing zeros, from bit i on. */
  function TrailingZeros(x: binmap, i: nat): (r: nat)
    requires i <= 32
    ensures i <= r <= 32
    ensures r < 32 ==> Marked(x, r)
    ensures forall j {:trigger Marked(x, j)} :: i <= j < r ==> !Marked(x, j)
    decreases 32 - i
  {
    if i == 32 || Marked(x, i) then i else TrailingZeros(x, i + 1)
  }

  // ---------- Single words ----------

  predicate OneBit(b: binmap) { b != 0 && b & (b - 1) == 0 }

  predicate Before(a: binmap, b: binmap) { a < b }

  predicate NoneBelow(x: binmap, b: binmap) { x & (b - 1) == 0 }

  lemma OneBitNotZero(b: binmap)
    ensures OneBit(b) ==> b != 0
  {
  }

  lemma NoneBelowUp(x: binmap, b: binmap)
    requires OneBit(b) && NoneBelow(x, b) && !Meets(x, b)
    ensures NoneBelow(x, Up(b))
  {
  }

  lemma MeetsCommutes(a: binmap, b: binmap)
    ensures Meets(a, b) <==> Meets(b, a)
  {
  }

  lemma OneBitMeetsSelf(b: binmap)
    requires OneBit(b)
    ensures Meets(b, b)
  {
  }

  lemma OneMisses(b: binmap)
    ensures !Meets(1, Up(b))
    ensures !Meets(Up(b), 1)
  {
  }

  lemma MeetsUp(y: binmap, b: binmap)
    requires !Meets(b, 0x8000_0000)
    ensures Meets(Up(y), Up(b)) <==> Meets(y, b)
    ensures Meets(Down(y), b) <==> Meets(y, Up(b))
  {
  }

  lemma OrSelf(x: binmap, b: binmap)
    requires b != 0
    ensures Meets(Or(x, b), b)
  {
  }

  lemma OrOther(x: binmap, a: binmap, b: binmap)
    requires !Meets(a, b)
    ensures Meets(Or(x, a), b) <==> Meets(x, b)
  {
    Distribute(x, a, b);
    OrZero(x & b);
  }

  lemma Distribute(x: binmap, a: binmap, b: binmap)
    ensures (x | a) & b == (x & b) | (a & b)
  {
  }

  lemma OrZero(x: binmap)
    ensures x | 0 == x
  {
  }

  lemma WithoutSelf(x: binmap, b: binmap)
    ensures !Meets(Without(x, b), b)
  {
  }

  lemma WithoutOther(x: binmap, a: binmap, b: binmap)
    requires !Meets(a, b)
    ensures Meets(Without(x, a), b) <==> Meets(x, b)
  {
    hide Meets;
    MaskKeeps(a, b);
    MaskThrough(x, !a, b);
  }

  lemma MaskThrough(x: binmap, c: binmap, b: binmap)
    requires c & b == b
    ensures Meets(x & c, b) <==> Meets(x, b)
  {
    Regroup(x, c, b);
  }

  lemma MaskKeeps(a: binmap, b: binmap)
    requires !Meets(a, b)
    ensures !a & b == b
  {
  }

  lemma Regroup(x: binmap, c: binmap, b: binmap)
    ensures (x & c) & b == x & (c & b)
  {
  }

  lemma MeetsAll(x: binmap, b: binmap)
    requires OneBit(b) && Meets(x, b)
    ensures x & b == b
  {
  }

  lemma MeetsBoth(x: binmap, y: binmap, b: binmap)
    requires OneBit(b)
    ensures Meets(Both(x, y), b) <==> Meets(x, b) && Meets(y, b)
  {
    if Meets(x, b) && Meets(y, b) {
      MeetsAll(x, b);
      MeetsAll(y, b);
    }
  }

  lemma NoTopBit(y: binmap)
    ensures !Meets(Down(y), 0x8000_0000)
  {
  }

  lemma LowTwo(y: binmap)
    ensures y & 3 != 0 <==> Meets(y, 1) || Meets(y, 2)
    ensures y & 1 != 0 <==> Meets(y, 1)
  {
  }

  lemma Isolate(x: binmap, b: binmap)
    requires OneBit(b) && NoneBelow(x, b) && Meets(x, b)
    ensures LeastBit(x) == b
  {
  }

  lemma MeetsLeftBits(a: binmap, b: binmap)
    requires OneBit(a) && OneBit(b)
    ensures Meets(LeftBits(a), b) <==> Before(a, b)
  {
  }

  lemma TopBitOnly(x: binmap)
    requires NoneBelow(x, 0x8000_0000) && !Meets(x, 0x8000_0000)
    ensures x == 0
  {
  }

  lemma ZeroMisses(b: binmap)
    ensures !Meets(0, b)
  {
  }

  lemma NotBeforeSelf(a: binmap)
    ensures !Before(a, a)
  {
  }

  lemma LessUp(a: binmap, b: binmap)
    requires OneBit(a) && OneBit(b) && !Meets(a, 0x8000_0000) && !Meets(b, 0x8000_0000)
    ensures Before(Up(a), Up(b)) <==> Before(a, b)
    ensures Before(1, Up(b))
    ensures !Before(Up(b), 1) && !Before(Up(b), Up(b)) && !Before(1, 1)
  {
  }

  // ---------- The bits of the 32 bins ----------

  lemma BinBit(i: nat)
    requires i < 32
    ensures OneBit(IdxBit(i))
    ensures if i == 31 then IdxBit(i) == 0x8000_0000 else !Meets(IdxBit(i), 0x8000_0000)
    ensures i == 0 ==> IdxBit(i) == 1
    ensures i == 1 ==> IdxBit(i) == 2
  {
    assert IdxBit(0) == 0x1;
    assert IdxBit(1) == 0x2;
    assert IdxBit(2) == 0x4;
    assert IdxBit(3) == 0x8;
    assert IdxBit(4) == 0x10;
    assert IdxBit(5) == 0x20;
    assert IdxBit(6) == 0x40;
    assert IdxBit(7) == 0x80;
    assert IdxBit(8) == 0x100;
    assert IdxBit(9) == 0x200;
    assert IdxBit(10) == 0x400;
    assert IdxBit(11) == 0x800;
    assert IdxBit(12) == 0x1000;
    assert IdxBit(13) == 0x2000;
    assert IdxBit(14) == 0x4000;
    assert IdxBit(15) == 0x8000;
    assert IdxBit(16) == 0x10000;
    assert IdxBit(17) == 0x20000;
    assert IdxBit(18) == 0x40000;
    assert IdxBit(19) == 0x80000;
    assert IdxBit(20) == 0x100000;
    assert IdxBit(21) == 0x200000;
    assert IdxBit(22) == 0x400000;
    assert IdxBit(23) == 0x800000;
    assert IdxBit(24) == 0x1000000;
    assert IdxBit(25) == 0x2000000;
    assert IdxBit(26) == 0x4000000;
    assert IdxBit(27) == 0x8000000;
    assert IdxBit(28) == 0x10000000;
    assert IdxBit(29) == 0x20000000;
    assert IdxBit(30) == 0x40000000;
    assert IdxBit(31) == 0x80000000;
  }

  lemma {:induction false} DistinctBits(i: nat, j: nat)
    requires i < j < 32
    ensures !Meets(IdxBit(i), IdxBit(j))
    ensures Before(IdxBit(i), IdxBit(j)) && !Before(IdxBit(j), IdxBit(i))
  {
    hide Meets, Up, OneBit, Before;
    BinBit(i);
    BinBit(j);
    BinBit(j - 1);
    if i > 0 {
      BinBit(i - 1);
      DistinctBits(i - 1, j - 1);
      MeetsUp(IdxBit(i - 1), IdxBit(j - 1));
      LessUp(IdxBit(i - 1), IdxBit(j - 1));
      LessUp(IdxBit(j - 1), IdxBit(i - 1));
    } else {
      OneMisses(IdxBit(j - 1));
      LessUp(1, IdxBit(j - 1));
    }
  }

  /** The bits of any two bins, as plain values. */
  lemma TwoBits(i: nat, j: nat)
    requires i < 32 && j < 32
    ensures OneBit(IdxBit(i)) && OneBit(IdxBit(j))
    ensures IdxBit(i) != 0
    ensures IdxBit(i) == IdxBit(j) <==> i == j
    ensures Meets(IdxBit(i), IdxBit(j)) <==> i == j
    ensures Before(IdxBit(i), IdxBit(j)) <==> i < j
  {
    hide Meets, OneBit, Before, IdxBit;
    OneBitNotZero(IdxBit(i));
    BinBit(i);
    BinBit(j);
    OneBitMeetsSelf(IdxBit(i));
    NotBeforeSelf(IdxBit(i));
    if i < j {
      DistinctBits(i, j);
    } else if j < i {
      DistinctBits(j, i);
      MeetsCommutes(IdxBit(i), IdxBit(j));
    }
  }

  /** Marking makes exactly bin i marked. */
  lemma MarkBin(x: binmap, i: nat, j: nat)
    requires i < 32 && j < 32
    ensures Marked(Mark(x, i), j) <==> Marked(x, j) || i == j
  {
    hide Meets, IdxBit, OneBit, Or, Without;
    TwoBits(i, j);
    if i == j {
      OrSelf(x, IdxBit(i));
    } else {
      OrOther(x, IdxBit(i), IdxBit(j));
    }
  }

  /** Marking a marked bin changes nothing. */
  lemma MarkAgain(x: binmap, i: nat)
    requires i < 32 && Marked(x, i)
    ensures Mark(x, i) == x
  {
    hide IdxBit, Meets, Or, OneBit;
    BinBit(i);
    OrAbsorbs(x, IdxBit(i));
  }

  lemma OrAbsorbs(x: binmap, b: binmap)
    requires OneBit(b) && Meets(x, b)
    ensures Or(x, b) == x
  {
    hide Meets, OneBit;
    MeetsAll(x, b);
    OrMask(x, b);
  }

  lemma OrMask(x: binmap, b: binmap)
    requires x & b == b
    ensures Or(x, b) == x
  {
  }

  /** Clearing makes exactly bin i unmarked. */
  lemma ClearBin(x: binmap, i: nat, j: nat)
    requires i < 32 && j < 32
    ensures Marked(Clear(x, i), j) <==> Marked(x, j) && i != j
  {
    hide Meets, IdxBit, OneBit, Or, Without;
    TwoBits(i, j);
    if i == j {
      WithoutSelf(x, IdxBit(i));
    } else {
      WithoutOther(x, IdxBit(i), IdxBit(j));
    }
  }

  lemma {:induction false} LowerBitsClear(x: binmap, k: nat)
    requires k < 32
    requires forall j: nat {:trigger Marked(x, j)} :: j < k ==> !Marked(x, j)
    ensures NoneBelow(x, IdxBit(k))
  {
    BinBit(k);
    if k > 0 {
      BinBit(k - 1);
      LowerBitsClear(x, k - 1);
      assert !Marked(x, k - 1);
      NoneBelowUp(x, IdxBit(k - 1));
    }
  }

  /** A map is zero only when no bin is marked. */
  lemma ZeroMap(x: binmap)
    ensures x == 0 <==> forall j: nat {:trigger Marked(x, j)} :: j < 32 ==> !Marked(x, j)
  {
    hide Meets, IdxBit;
    if x == 0 {
      forall j: nat {:trigger Marked(x, j)} | j < 32
        ensures !Marked(x, j)
      {
        ZeroMisses(IdxBit(j));
      }
    } else if forall j: nat {:trigger Marked(x, j)} :: j < 32 ==> !Marked(x, j) {
      LowerBitsClear(x, 31);
      BinBit(31);
      assert !Marked(x, 31);
      TopBitOnly(x);
    }
  }

  /** compute_bit2idx after least_bit: the first marked bin of a non-empty map. */
  lemma FirstMarked(x: binmap)
    requires x != 0
    ensures var k := TrailingZeros(LeastBit(x), 0);
            && k < 32 && Marked(x, k)
            && forall j: nat {:trigger Marked(x, j)} :: j < k ==> !Marked(x, j)
  {
    hide Meets, IdxBit, OneBit, LeastBit;
    var k := TrailingZeros(x, 0);
    ZeroMap(x);
    LowerBitsClear(x, k);
    BinBit(k);
    Isolate(x, IdxBit(k));
    var b := IdxBit(k);
    TwoBits(k, k);
    assert Marked(b, k);
    var r := TrailingZeros(b, 0);
    if r < k {
      TwoBits(k, r);
    }
  }

  /** Marked bins of a conjunction. */
  lemma MarkedBoth(x: binmap, y: binmap, j: nat)
    requires j < 32
    ensures Marked(Both(x, y), j) <==> Marked(x, j) && Marked(y, j)
  {
    hide Meets, IdxBit, OneBit;
    BinBit(j);
    MeetsBoth(x, y, IdxBit(j));
  }

  /** left_bits(idx2bit(i)) selects the bins strictly above i. */
  lemma MarkedLeftBits(i: nat, j: nat)
    requires i < 32 && j < 32
    ensures Marked(LeftBits(IdxBit(i)), j) <==> i < j
  {
    hide Meets, IdxBit, OneBit, LeftBits, Before;
    TwoBits(i, j);
    MeetsLeftBits(IdxBit(i), IdxBit(j));
  }

  /** The first bin above i marked in x, found the way dlmalloc.c finds it. */
  lemma FirstAbove(x: binmap, i: nat)
    requires i < 32
    ensures var above := Both(LeftBits(IdxBit(i)), x);
            && (above == 0 <==> forall j: nat {:trigger Marked(x, j)} :: i < j < 32 ==> !Marked(x, j))
            && (above != 0 ==>
                  var k := TrailingZeros(LeastBit(above), 0);
                  && i < k < 32 && Marked(x, k)
                  && forall j: nat {:trigger Marked(x, j)} :: i < j < k ==> !Marked(x, j))
  {
    hide Marked, LeftBits, Both, LeastBit, IdxBit;
    var mask := LeftBits(IdxBit(i));
    var above := Both(mask, x);
    forall j: nat {:trigger Marked(above, j)} {:trigger Marked(x, j)} | j < 32
      ensures Marked(above, j) <==> i < j && Marked(x, j)
    {
      MarkedLeftBits(i, j);
      MarkedBoth(mask, x, j);
    }
    ZeroMap(above);
    if above != 0 {
      FirstMarked(above);
    }
  }

  /** Shifting a map right by n renames bin n + j to bin j. */
  lemma {:induction false} MarkedRight(x: binmap, n: nat, j: nat)
    requires j < 32
    ensures Marked(Right(x, n), j) <==> n + j < 32 && Marked(x, n + j)
  {
    hide Meets, Up, Down, OneBit;
    if n > 0 {
      BinBit(j);
      if j == 31 {
        NoTopBit(Right(x, n - 1));
      } else {
        MarkedRight(x, n - 1, j + 1);
        MeetsUp(Right(x, n - 1), IdxBit(j));
      }
    }
  }

  /** Shifting a map left by n renames bin j to bin n + j. */
  lemma {:induction false} MarkedLeft(x: binmap, n: nat, j: nat)
    requires j < 32
    ensures Marked(Left(x, n), j) <==> n <= j && Marked(x, j - n)
  {
    hide Meets, Up, Down, OneBit;
    if n > 0 {
      BinBit(j);
      if j == 0 {
        OneMisses(Left(x, n - 1));
      } else {
        BinBit(j - 1);
        MarkedLeft(x, n - 1, j - 1);
        MeetsUp(Left(x, n - 1), IdxBit(j - 1));
      }
    }
  }

  /** smallbits & 3 and smallbits & 1 look at the bins i and i + 1. */
  lemma LowTwoBins(x: binmap, i: nat)
    requires i < 31
    ensures Right(x, i) & 3 != 0 <==> Marked(x, i) || Marked(x, i + 1)
    ensures Right(x, i) & 1 != 0 <==> Marked(x, i)
  {
    MarkedRight(x, i, 0);
    MarkedRight(x, i, 1);
    BinBit(0);
    BinBit(1);
    LowTwo(Right(x, i));
  }

  /** The map shifted down by i is zero exactly when no bin from i up is marked. */
  lemma ZeroFrom(x: binmap, i: nat)
    requires i < 32
    ensures Right(x, i) == 0 <==> forall j: nat {:trigger Marked(x, j)} :: i <= j < 32 ==> !Marked(x, j)
  {
    hide Marked, Right;
    var y := Right(x, i);
    ZeroMap(y);
    forall j: nat {:trigger Marked(x, j)} | i <= j < 32
      ensures Marked(x, j) <==> Marked(y, j - i)
    {
      MarkedRight(x, i, j - i);
    }
    forall j: nat {:trigger Marked(y, j)} | j < 32
      ensures Marked(y, j) ==> i + j < 32 && Marked(x, i + j)
    {
      MarkedRight(x, i, j);
    }
  }

  /**
    The next small bin above i, found the way dlmalloc.c finds it, from the map already
    shifted down by i.
   */
  lemma FirstAboveShifted(x: binmap, i: nat)
    requires i < 32
    ensures var above := Both(Left(Right(x, i), i), LeftBits(IdxBit(i)));
            && (above == 0 <==> forall j: nat {:trigger Marked(x, j)} :: i < j < 32 ==> !Marked(x, j))
            && (above != 0 ==>
                  var k := TrailingZeros(LeastBit(above), 0);
                  && i < k < 32 && Marked(x, k)
                  && forall j: nat {:trigger Marked(x, j)} :: i < j < k ==> !Marked(x, j))
  {
    hide Marked, LeftBits, Both, LeastBit, IdxBit, Left, Right;
    var mask, kept := LeftBits(IdxBit(i)), Left(Right(x, i), i);
    var above := Both(kept, mask);
    forall j: nat {:trigger Marked(above, j)} {:trigger Marked(x, j)} | j < 32
      ensures Marked(above, j) <==> i < j && Marked(x, j)
    {
      MarkedLeftBits(i, j);
      MarkedBoth(kept, mask, j);
      MarkedLeft(Right(x, i), i, j);
      if i <= j {
        MarkedRight(x, i, j - i);
      }
    }
    ZeroMap(above);
    if above != 0 {
      FirstMarked(above);
    }
  }

  /** The two lowest bits, and the lowest. */
  function Low2(x: binmap): binmap { x & 3 }

  function Low1(x: binmap): binmap { x & 1 }

  /** What the bits of smallmap >> i tell dlmalloc about the bins from i on. */
  lemma SmallSearch(x: binmap, i: nat)
    requires i < 31
    ensures Low2(Right(x, i)) != 0 <==> Marked(x, i) || Marked(x, i + 1)
    ensures Low1(Right(x, i)) != 0 <==> Marked(x, i)
    ensures Right(x, i) == 0 <==> forall j: nat {:trigger Marked(x, j)} :: i <= j < 32 ==> !Marked(x, j)
    ensures Low2(Right(x, i)) == 0 && Right(x, i) != 0 ==>
              var k := TrailingZeros(LeastBit(Both(Left(Right(x, i), i), LeftBits(IdxBit(i)))), 0);
              i < k < 32 && Marked(x, k) && forall j: nat {:trigger Marked(x, j)} :: i <= j < k ==> !Marked(x, j)
  {
    hide Right, Marked, Left, LeftBits, IdxBit, LeastBit, Both, TrailingZeros;
    LowTwoBins(x, i);
    ZeroFrom(x, i);
    FirstAboveShifted(x, i);
  }
}

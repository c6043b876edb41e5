/**
  The alignment arithmetic of internal_memalign.
 */
module Alignment {
  import opened Arith
  import opened Words
  import opened Layout
  import opened Carving
  import opened ChunkMoves
  import opened Merging
  import opened Reshaping
  import opened Heap
  import opened Requests
  import opened Fitting

  /** What the test (x & (x - 1)) == 0 asks of a positive word. */
  predicate PowerOfTwo(x: nat) { x == 1 || (x > 1 && x % 2 == 0 && PowerOfTwo(x / 2)) }

  lemma {:induction false} PowerIs(x: nat) returns (k: nat)
    requires PowerOfTwo(x)
    ensures x == Pow2(k)
  {
    if x == 1 {
      k := 0;
    } else {
      var j := PowerIs(x / 2);
      k := j + 1;
    }
  }

  lemma {:induction false} PowerMultiple(x: nat)
    requires PowerOfTwo(x)
    ensures x == 1 || x == 2 || x == 4 || x == 8 || x % 16 == 0
  {
    if x > 1 {
      PowerMultiple(x / 2);
      if x / 2 % 16 == 0 { By16(2 * (x / 2 / 16)); }
    }
  }

  /** Doubling 32 until it reaches the alignment. */
  function Doubled(x: nat, alignment: nat): (r: nat)
    requires 0 < x
    decreases if x < alignment then alignment - x else 0
  {
    if x >= alignment then x else Doubled(2 * x, alignment)
  }

  /** The alignment that internal_memalign works with. */
  function RoundUp(alignment: nat): nat {
    if alignment <= 32 then 32 else if PowerOfTwo(alignment) then alignment else Doubled(32, alignment)
  }

  /** What internal_memalign asks dlmalloc for: room for the block at an aligned place. */
  function AlignedRequest(requested: nat, bytes: nat): nat { Padded(bytes) + RoundUp(requested) + 24 }

  lemma {:induction false} DoubledIs(x: nat, alignment: nat)
    requires PowerOfTwo(x)
    ensures PowerOfTwo(Doubled(x, alignment)) && Doubled(x, alignment) >= alignment && Doubled(x, alignment) >= x
    ensures x < alignment ==> Doubled(x, alignment) < 2 * alignment
    decreases if x < alignment then alignment - x else 0
  {
    if x < alignment {
      assert 2 * x / 2 == x;
      DoubledIs(2 * x, alignment);
    }
  }

  /** It is the least power of two from 32 on that is at least the alignment asked for. */
  lemma RoundUpIsLeast(alignment: nat)
    ensures var r := RoundUp(alignment);
            && PowerOfTwo(r) && r >= 32 && r >= alignment && r % 16 == 0
            && forall q: nat {:trigger PowerOfTwo(q)} :: PowerOfTwo(q) && q >= 32 && q >= alignment ==> r <= q
  {
    var r := RoundUp(alignment);
    ThirtyTwo();
    if alignment > 32 { DoubledIs(32, alignment); }
    PowerMultiple(r);
    forall q: nat {:trigger PowerOfTwo(q)} | PowerOfTwo(q) && q >= 32 && q >= alignment
      ensures r <= q
    {
      var j := PowerIs(r);
      var i := PowerIs(q);
      if i < j {
        Pow2Mono(i, j - 1);
        assert 2 * q <= r;
      } else {
        Pow2Mono(j, i);
      }
    }
  }

  lemma ThirtyTwo()
    ensures PowerOfTwo(32)
  {
    assert PowerOfTwo(2) && PowerOfTwo(4) && PowerOfTwo(8) && PowerOfTwo(16);
  }

  /** The value of a in the rounding loop after n doublings of a 64-bit word. */
  function LoopValue(n: nat): nat {
    if n == 0 then 32 else 2 * LoopValue(n - 1) % WORD
  }

  lemma {:induction false} LoopValueIs(n: nat)
    ensures LoopValue(n) == if n <= 58 then Pow2(n + 5) else 0
  {
    if n == 0 {
      assert Pow2(5) == 32 by { assert Pow2(3) == 8; }
    } else {
      LoopValueIs(n - 1);
      Pow2At64();
      if n <= 58 { Pow2Mono(n + 5, 63); }
      DoubleWord(LoopValue(n - 1));
    }
  }

  lemma DoubleWord(x: nat)
    requires x <= HALF_WORD
    ensures 2 * x % WORD == if x == HALF_WORD then 0 else 2 * x
  {
  }

  /** The rounding loop ends exactly for alignments up to 2^63: beyond, a wraps around to 0. */
  lemma RoundingEnds(alignment: nat)
    requires alignment < WORD
    ensures (exists n: nat {:trigger LoopValue(n)} :: LoopValue(n) >= alignment) <==> alignment <= HALF_WORD
  {
    if alignment <= HALF_WORD {
      LoopValueIs(58);
      Pow2At64();
      assert LoopValue(58) >= alignment;
    } else {
      forall n: nat {:trigger LoopValue(n)} ensures LoopValue(n) < alignment {
        LoopValueIs(n);
        Pow2At64();
        if n <= 58 { Pow2Mono(n + 5, 63); }
      }
    }
  }

  /** mem rounded up to a multiple of the alignment. */
  function AlignUp(mem: nat, alignment: nat): nat
    requires alignment > 0
  {
    (mem + alignment - 1) / alignment * alignment
  }

  lemma AlignedUp(mem: nat, alignment: nat)
    requires alignment > 0 && alignment % 16 == 0 && mem % 16 == 0 && mem % alignment != 0
    ensures var up := AlignUp(mem, alignment);
            && up % alignment == 0 && (up + alignment) % alignment == 0
            && mem < up < mem + alignment && up % 16 == 0
  {
    var q, x := (mem + alignment - 1) / alignment, mem + alignment - 1;
    assert x == q * alignment + x % alignment;
    MultipleMod(q, alignment);
    MultipleMod(q + 1, alignment);
    assert (q + 1) * alignment == q * alignment + alignment;
    SixteenTimes(q, alignment);
  }

  lemma SixteenTimes(q: int, a: int)
    requires a % 16 == 0
    ensures q * a % 16 == 0
  {
    var k := a / 16;
    assert q * a == 16 * (q * k);
    By16(q * k);
  }

  /** Where the chunk with the aligned block starts: a leading part must be a chunk itself. */
  function AlignedChunk(p: nat, alignment: nat): int
    requires alignment > 0
  {
    var br := AlignUp(p + 16, alignment) - 16;
    if br - p >= 32 then br else br + alignment
  }

  /** Where the aligned chunk starts, and that the chunk found has room for it. */
  lemma LeadFits(p: nat, size: nat, alignment: nat, nb: nat)
    requires p % 16 == 0 && alignment % 16 == 0 && alignment >= 32 && (p + 16) % alignment != 0
    requires size % 16 == 0 && nb % 16 == 0 && nb >= 32 && size >= nb + alignment + 32
    ensures var pos := AlignedChunk(p, alignment);
            && 32 <= pos - p && (pos - p) % 16 == 0 && (pos + 16) % alignment == 0
            && size - (pos - p) >= nb && size - (pos - p) >= 32 && (size - (pos - p)) % 16 == 0
            && FirstAligned(p + 16, alignment, pos + 16)
  {
    hide AlignUp;
    AlignedUp(p + 16, alignment);
    var up := AlignUp(p + 16, alignment);
    NextMultiple(p + 16, up, alignment);
    if up - 16 - p >= 32 {
      LeadAt(p, size, alignment, nb, up);
    } else {
      SixteenSum(up, alignment);
      LeadAt(p, size, alignment, nb, up + alignment);
    }
  }

  /** addr is the first aligned place at mem, or with room for a chunk between mem and it. */
  ghost predicate FirstAligned(mem: int, alignment: int, addr: int)
    requires alignment > 0
  {
    && addr % alignment == 0 && (addr == mem || mem + 32 <= addr)
    && forall x {:trigger x % alignment} :: mem <= x < addr && x % alignment == 0 ==> mem < x < mem + 32
  }

  /** The block is cut from the chunk that serves a request for the bytes, the alignment and a leading chunk. */
  ghost predicate ServedAligned(s: State, requested: nat, bytes: nat, addr: int)
    requires RoundUp(requested) > 0
  {
    exists v: int {:trigger Served(s, AlignedRequest(requested, bytes), v)} ::
      Served(s, AlignedRequest(requested, bytes), v) && FirstAligned(v + 16, RoundUp(requested), addr)
  }

  /** up is the least multiple of the alignment above mem, and the next one is larger by the alignment. */
  lemma NextMultiple(mem: int, up: int, alignment: nat)
    requires alignment > 0 && mem < up < mem + alignment && up % alignment == 0
    ensures forall x {:trigger x % alignment} :: mem < x < up + alignment && x % alignment == 0 ==> x == up
  {
    forall x {:trigger x % alignment} | mem < x < up + alignment && x % alignment == 0 ensures x == up {
      SameMultiple(x, up, alignment);
    }
  }

  lemma SameMultiple(x: int, y: int, a: int)
    requires a > 0 && x % a == 0 && y % a == 0 && -a < x - y < a
    ensures x == y
  {
    var d := x / a - y / a;
    assert x - y == d * a;
    if d >= 1 { TimesAtLeast(d, a); } else if d <= -1 { TimesAtLeast(-d, a); }
  }

  lemma SixteenSum(a: int, b: int)
    requires a % 16 == 0 && b % 16 == 0
    ensures (a + b) % 16 == 0
  {
  }

  lemma LeadAt(p: nat, size: nat, alignment: nat, nb: nat, at: nat)
    requires p % 16 == 0 && at % 16 == 0 && size % 16 == 0 && nb % 16 == 0 && alignment % 16 == 0
    requires 32 <= nb && size >= nb + alignment + 32 && 32 <= at - 16 - p < alignment + 32
    ensures var lead := at - 16 - p; lead % 16 == 0 && size - lead >= nb && size - lead >= 32 && (size - lead) % 16 == 0
  {
    Aligned(at, p);
    Aligned(at - p, 16);
    Aligned(size, at - 16 - p);
  }

  // ---------- Chains ----------

  /** A new block from which the leading part was cut off and given back. */
  lemma LeadGone(ch0: Chunks, m0: seq<int>, ch1: Chunks, m1: seq<int>, ch2: Chunks, m2: seq<int>, ch3: Chunks, m3: seq<int>,
      p: int, lead: nat, size: nat, r: int, rest: nat)
    requires HandedOut(ch0, m0, ch1, m1, p, size)
    requires Reshaped(Blocks(ch1), m1, Blocks(ch2) - {r}, m2, p, lead) && r !in Blocks(ch1)
    requires r in Blocks(ch2) && Blocks(ch2)[r] == rest && GivenBack(ch2, m2, ch3, m3, p)
    ensures HandedOut(ch0, m0, ch3, m3, r, rest)
  {
    hide Untouched, Blocks;
    var B := Blocks(ch0);
    forall q | q in Blocks(ch2) ensures q in B || q == p || q == r {
      if q != r { assert q in Blocks(ch2) - {r}; }
    }
    forall q | q in B ensures q in Blocks(ch2) && Blocks(ch2)[q] == B[q] {
      assert q in Blocks(ch2) - {r};
    }
    assert Blocks(ch3) == B[r := rest];
    UntouchedFewer(Blocks(ch1)[p := if lead < Blocks(ch1)[p] then lead else Blocks(ch1)[p]], B, m1, m2);
    UntouchedFewer(Blocks(ch3), B, m2, m3);
    UntouchedTrans(B, m0, m1, m2);
    UntouchedTrans(B, m0, m2, m3);
  }

  /** A new block from which the end was cut off and given back. */
  lemma TailGone(ch0: Chunks, m0: seq<int>, ch1: Chunks, m1: seq<int>, ch2: Chunks, m2: seq<int>, p: int, size: nat, nb: nat)
    requires HandedOut(ch0, m0, ch1, m1, p, size) && Reshaped(Blocks(ch1), m1, Blocks(ch2), m2, p, nb)
    ensures HandedOut(ch0, m0, ch2, m2, p, nb)
  {
    hide Untouched, Blocks;
    var B := Blocks(ch0);
    assert Blocks(ch2) == B[p := nb];
    UntouchedFewer(Blocks(ch1)[p := if nb < Blocks(ch1)[p] then nb else Blocks(ch1)[p]], B, m1, m2);
    UntouchedTrans(B, m0, m1, m2);
  }
}

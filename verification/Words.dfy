/**
  Machine words as natural numbers: powers of two, right shifts, and the head
  word of a chunk.
 */
module Words {
  const WORD: int := 0x1_0000_0000_0000_0000
  const HALF_WORD: int := 0x8000_0000_0000_0000

  /** 2 to the k. */
  function Pow2(k: nat): (r: nat)
    ensures r > 0
  {
    if k == 0 then 1 else 2 * Pow2(k - 1)
  }

  /** s >> k, one bit at a time. */
  function Shr(s: nat, k: nat): nat {
    if k == 0 then s else Shr(s, k - 1) / 2
  }

  /** Bit k of s. */
  function Bit(s: nat, k: nat): (b: nat)
    ensures b <= 1
  {
    Shr(s, k) % 2
  }

  /** The k low bits of s. */
  function Low(s: nat, k: nat): nat {
    if k == 0 then 0 else Low(s, k - 1) + Bit(s, k - 1) * Pow2(k - 1)
  }

  lemma Pow2At64()
    ensures Pow2(64) == WORD
    ensures Pow2(63) == HALF_WORD
    ensures Pow2(32) == 0x1_0000_0000
    ensures Pow2(16) == 0x1_0000
    ensures Pow2(40) == 0x100_0000_0000
  {
    assert Pow2(8) == 256;
    Pow2Add(8, 8);
    Pow2Add(16, 16);
    Pow2Add(32, 8);
    Pow2Add(32, 32);
  }

  lemma {:induction false} Pow2Add(j: nat, k: nat)
    ensures Pow2(j + k) == Pow2(j) * Pow2(k)
  {
    if k > 0 {
      Pow2Add(j, k - 1);
      assert Pow2(j + k) == 2 * (Pow2(j) * Pow2(k - 1)) == Pow2(j) * (2 * Pow2(k - 1));
    }
  }

  lemma {:induction false} Pow2Mono(j: nat, k: nat)
    requires j <= k
    ensures Pow2(j) <= Pow2(k)
    decreases k - j
  {
    if j < k {
      Pow2Mono(j + 1, k);
    }
  }

  lemma {:induction false} ShrMono(s: nat, t: nat, k: nat)
    requires s <= t
    ensures Shr(s, k) <= Shr(t, k)
  {
    if k > 0 {
      ShrMono(s, t, k - 1);
    }
  }

  lemma {:induction false} ShrTwice(s: nat, j: nat, k: nat)
    ensures Shr(Shr(s, j), k) == Shr(s, j + k)
  {
    if k > 0 {
      ShrTwice(s, j, k - 1);
    }
  }

  /** A shift is a division: the quotient q is the one with q*2^k <= s < (q+1)*2^k. */
  lemma {:induction false} ShrIsQuotient(s: nat, k: nat, q: nat)
    ensures Shr(s, k) == q <==> q * Pow2(k) <= s < (q + 1) * Pow2(k)
  {
    if k > 0 {
      var h := Shr(s, k - 1);
      ShrIsQuotient(s, k - 1, h);
      ShrIsQuotient(s, k - 1, 2 * q);
      ShrIsQuotient(s, k - 1, 2 * q + 1);
      var w := Pow2(k - 1);
      assert q * Pow2(k) == (2 * q) * w;
      assert (q + 1) * Pow2(k) == (2 * q + 2) * w;
      assert (2 * q + 1) * w == (2 * q) * w + w;
      assert (2 * q + 2) * w == (2 * q) * w + 2 * w;
    }
  }

  /** h*w for h split into its half and its low bit. */
  lemma SplitHalf(h: nat, w: nat, low: nat)
    ensures h * w + low == (h / 2) * (2 * w) + (low + (h % 2) * w)
  {
    var g := h / 2;
    assert h == 2 * g + h % 2;
    assert (2 * g + h % 2) * w == g * (2 * w) + (h % 2) * w;
  }

  /** The bits kept and the bits dropped by a shift make up the number. */
  lemma {:induction false} LowSplits(s: nat, k: nat)
    ensures s == Shr(s, k) * Pow2(k) + Low(s, k)
    ensures Low(s, k) < Pow2(k)
  {
    if k > 0 {
      LowSplits(s, k - 1);
      SplitHalf(Shr(s, k - 1), Pow2(k - 1), Low(s, k - 1));
    }
  }

  /**
    The search key of a size once r of its bits are left to inspect: those bits moved up
    against the sign bit of a 64-bit word.
   */
  function SearchKey(s: nat, r: nat): nat
    requires r <= 64
  {
    Low(s, r) * Pow2(64 - r)
  }

  lemma ScaleLess(l: nat, w: nat, q: nat)
    requires l < w && q > 0
    ensures l * q < w * q
  {
    assert (w - l) * q > 0;
  }

  lemma ScaleSum(h: nat, p: nat, l: nat, q: nat)
    ensures (h * p + l) * q == h * (p * q) + l * q
  {
    assert (h * p) * q == h * (p * q);
  }

  /** Shifting a size left by 64-r discards all but its r low bits. */
  lemma SearchKeyStart(s: nat, r: nat)
    requires r <= 64
    ensures (s * Pow2(64 - r)) % WORD == SearchKey(s, r) < WORD
  {
    LowSplits(s, r);
    Pow2Add(r, 64 - r);
    Pow2At64();
    ScaleSum(Shr(s, r), Pow2(r), Low(s, r), Pow2(64 - r));
    ScaleLess(Low(s, r), Pow2(r), Pow2(64 - r));
    ModOf(Shr(s, r), SearchKey(s, r), s * Pow2(64 - r));
  }

  lemma ModOf(h: nat, low: nat, x: nat)
    requires x == h * WORD + low
    requires low < WORD
    ensures x % WORD == low
  {
  }

  /** The sign bit of the key is the next bit of the size, and doubling the key moves on by one bit. */
  lemma SearchKeyStep(s: nat, r: nat)
    requires 0 < r <= 64
    ensures SearchKey(s, r) < WORD
    ensures SearchKey(s, r) / HALF_WORD == Bit(s, r - 1)
    ensures (2 * SearchKey(s, r)) % WORD == SearchKey(s, r - 1)
  {
    LowSplits(s, r - 1);
    Pow2Add(r - 1, 64 - r);
    Pow2At64();
    ScaleLess(Low(s, r - 1), Pow2(r - 1), Pow2(64 - r));
    KeySplit(Low(s, r - 1), Bit(s, r - 1), Pow2(r - 1), Pow2(64 - r));
  }

  lemma KeySplit(l: nat, b: nat, w: nat, q: nat)
    requires w * q == HALF_WORD
    requires b <= 1
    requires l * q < HALF_WORD
    ensures (l + b * w) * q < WORD
    ensures (l + b * w) * q / HALF_WORD == b
    ensures (2 * ((l + b * w) * q)) % WORD == l * (2 * q)
  {
    ScaleSum(b, w, l, q);
    assert l * (2 * q) == 2 * (l * q);
  }
}

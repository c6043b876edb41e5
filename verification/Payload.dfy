/**
  Bytes within words, and what a program may do inside the blocks it was given.
 */
module Payload {
  import opened Arith
  import opened BinIndex
  import opened BinMap
  import opened Memory
  import opened TreeBins
  import opened TreeInsert
  import opened SmallBins
  import opened Layout
  import opened Heap
  import opened BinStores
  import opened Carving

  // ---------- Bytes ----------

  function Pow256(k: nat): (r: nat)
    ensures r > 0
  {
    if k == 0 then 1 else 256 * Pow256(k - 1)
  }

  /** Byte j of a word, least significant first. */
  function ByteOf(w: int, j: nat): int { w / Pow256(j) % 256 }

  function WithByte(w: int, j: nat, b: int): int { w + (b - ByteOf(w, j)) * Pow256(j) }

  function WordOf(a: int): int { a - a % 8 }

  function Byte(m: seq<int>, a: int): int { ByteOf(W(m, WordOf(a)), a % 8) }

  function SetByte(m: seq<int>, a: int, b: int): (r: seq<int>)
    requires 0 <= a < |m|
    ensures |r| == |m|
  {
    m[WordOf(a) := WithByte(m[WordOf(a)], a % 8, b)]
  }

  lemma {:induction false} Pow256Add(j: nat, k: nat)
    ensures Pow256(j + k) == Pow256(j) * Pow256(k)
  {
    if k > 0 {
      Pow256Add(j, k - 1);
      assert Pow256(j + k) == 256 * (Pow256(j) * Pow256(k - 1)) == Pow256(j) * (256 * Pow256(k - 1));
    }
  }

  lemma SameByteSet(w: int, j: nat, b: int)
    requires 0 <= b < 256
    ensures ByteOf(WithByte(w, j, b), j) == b
  {
    var p, old_b := Pow256(j), ByteOf(w, j);
    DivAdd(w, b - old_b, p);
    var q := w / p;
    assert q == q / 256 * 256 + old_b;
    DivIs(q + b - old_b, q / 256, 256, b);
  }

  lemma LowerByteKept(w: int, j: nat, b: int, i: nat)
    requires i < j
    ensures ByteOf(WithByte(w, j, b), i) == ByteOf(w, i)
  {
    var d, p, c := b - ByteOf(w, j), Pow256(i), Pow256(j - i - 1);
    Pow256Add(i, j - i);
    ThreeFactors(d, p, c);
    DivAdd(w, d * c * 256, p);
    var q := w / p;
    DivIs(q + d * c * 256, q / 256 + d * c, 256, q % 256);
  }

  lemma ThreeFactors(d: int, p: int, c: int)
    ensures d * (p * (256 * c)) == d * c * 256 * p
  {
    assert p * (256 * c) == c * 256 * p;
    assert d * (c * 256 * p) == d * c * (256 * p);
  }

  lemma HigherByteKept(w: int, j: nat, b: int, i: nat)
    requires j < i && 0 <= b < 256
    ensures ByteOf(WithByte(w, j, b), i) == ByteOf(w, i)
  {
    var p, c := Pow256(j), Pow256(i - j - 1);
    var w' := WithByte(w, j, b);
    Pow256Add(j, i - j);
    assert Pow256(i) == (p * 256) * c;
    DivDiv(w, p * 256, c);
    DivDiv(w', p * 256, c);
    DivDiv(w, p, 256);
    DivDiv(w', p, 256);
    DivAdd(w, b - ByteOf(w, j), p);
    var q := w / p;
    assert q == q / 256 * 256 + ByteOf(w, j);
    DivIs(q + b - ByteOf(w, j), q / 256, 256, b);
  }

  /** Storing a byte changes that byte and no other. */
  lemma SetByteReads(m: seq<int>, a: int, b: int)
    requires 0 <= a < |m| && 0 <= b < 256
    ensures var r := SetByte(m, a, b);
            && Byte(r, a) == b
            && (forall a' {:trigger Byte(r, a')} :: a' != a ==> Byte(r, a') == Byte(m, a'))
            && (forall k {:trigger W(r, k)} :: k != WordOf(a) ==> W(r, k) == W(m, k))
  {
    hide ByteOf, WithByte;
    var r := SetByte(m, a, b);
    var w := m[WordOf(a)];
    SameByteSet(w, a % 8, b);
    forall a' {:trigger Byte(r, a')} | a' != a
      ensures Byte(r, a') == Byte(m, a')
    {
      if WordOf(a') == WordOf(a) {
        if a' % 8 < a % 8 { LowerByteKept(w, a % 8, b, a' % 8); } else { HigherByteKept(w, a % 8, b, a' % 8); }
      }
    }
  }

  lemma ByteInRange(m: seq<int>, a: int)
    ensures 0 <= Byte(m, a) < 256
  {
  }

  /** Equal words have equal bytes. */
  lemma SameBytes(m: seq<int>, m': seq<int>, p: int, size: int, a: int)
    requires SamePayload(m, m', p, size) && p % 16 == 0 && size % 16 == 0 && p + FD <= a < p + size + 8
    ensures Byte(m', a) == Byte(m, a)
  {
    hide W, ByteOf, WordOf;
    var k := WordOf(a);
    PayloadWord(p, size, a);
    assert W(m', k) == W(m, k);
  }

  /** The words that hold the bytes of a payload. */
  lemma PayloadWord(p: int, size: int, a: int)
    requires p % 16 == 0 && size % 16 == 0 && p + FD <= a < p + size + 8
    ensures p + FD <= WordOf(a) <= p + size
  {
    Eights(p / 16, size / 16, a / 8, a % 8);
  }

  lemma Eights(i: int, j: int, k: int, r: int)
    requires 16 * i + 16 <= 8 * k + r < 16 * i + 16 * j + 8 && 0 <= r < 8
    ensures 16 * i + 16 <= 8 * k <= 16 * i + 16 * j
  {
    NotBelow(k, 2 * i + 2, r);
    NotBelow(2 * i + 2 * j + 1, k + 1, 0);
  }

  lemma NotBelow(k: int, n: int, r: int)
    requires 8 * n <= 8 * k + r && 0 <= r < 8
    ensures n <= k
  {
  }

  // ---------- Writing to a block ----------

  /** Only the payload of the block q is written. */
  ghost predicate WithinBlock(s: State, q: int, m': seq<int>) {
    && q in s.ch && s.ch[q].inuse && |m'| == |s.m|
    && forall k {:trigger W(m', k)} :: !(q + FD <= k <= q + s.ch[q].size) ==> W(m', k) == W(s.m, k)
  }

  /** A tag word of another chunk, or a link word of a free one, is not in the payload. */
  lemma OutsideBlock(s: State, q: int, m': seq<int>, p: int, k: int)
    requires Ok(s, {}) && WithinBlock(s, q, m') && p in s.ch
    requires k == p + HEAD || (p != q && p + HEAD <= k < p + s.ch[p].size) || (p != q && k == p + s.ch[p].size)
    ensures W(m', k) == W(s.m, k)
  {
    hide W, TreeOk, SmallOk, Binned, Tagged, ChunkOk;
    LoIsPlaced(s.ch, s.base, s.End(), q);
    LoIsPlaced(s.ch, s.base, s.End(), p);
    ChunksApart(s.ch, s.base, s.End(), p, q);
  }

  lemma BlockTags(s: State, q: int, m': seq<int>)
    requires Ok(s, {}) && WithinBlock(s, q, m')
    ensures Tagged(m', s.ch, s.base, s.End())
  {
    hide W, TreeOk, SmallOk, Binned, Laid, HeadWord, PrevInuse, WithinBlock;
    assert |m'| == |s.m| by { BlockLength(s, q, m'); }
    forall p {:trigger TagOk(m', s.ch, s.base, s.End(), p)} | p in s.ch
      ensures TagOk(m', s.ch, s.base, s.End(), p)
    {
      assert TagOk(s.m, s.ch, s.base, s.End(), p);
      BlockLength(s, q, m');
      OutsideBlock(s, q, m', p, p + HEAD);
      if p != q { OutsideBlock(s, q, m', p, p + s.ch[p].size); }
    }
  }

  lemma BlockLength(s: State, q: int, m': seq<int>)
    requires WithinBlock(s, q, m')
    ensures |m'| == |s.m| && q in s.ch && s.ch[q].inuse
  {
  }

  lemma BlockTopFoot(s: State, q: int, m': seq<int>)
    requires Ok(s, {}) && WithinBlock(s, q, m')
    ensures W(m', s.End() + HEAD) == TOP_FOOT_SIZE
  {
    hide W, TreeOk, SmallOk, Binned, Laid;
    ChunkTag(s, {}, q);
  }

  lemma BlockTree(s: State, q: int, m': seq<int>)
    requires Ok(s, {}) && WithinBlock(s, q, m')
    ensures TreeOk(m', s.tn, s.treemap)
  {
    hide W, Path, Dir, TreeIndex, Marked, OnRing, UnderParent, OverChild, Framed, Binned, SmallOk;
    BinSets(s, {});
    ChunkTag(s, {}, q);
    forall p {:trigger s.tn[p]} | p in s.tn
      ensures SameNode(s.m, m', p) && p + s.tn[p].size <= |m'|
    {
      assert p in s.tn;
      assert NodeOk(s.m, s.tn, p);
      ChunkTag(s, {}, p);
      forall k | k == p + HEAD || k == p + FD || k == p + BK || k == p + CHILD || k == p + CHILD + 8 || k == p + PARENT || k == p + INDEX
        ensures W(m', k) == W(s.m, k)
      {
        OutsideBlock(s, q, m', p, k);
      }
    }
    KeepTree(s.m, m', s.tn, s.treemap);
  }

  lemma BlockSmall(s: State, q: int, m': seq<int>)
    requires Ok(s, {}) && WithinBlock(s, q, m')
    ensures SmallOk(m', s.sn, s.smallmap)
  {
    hide W, Marked, ChunkSize, Listed, HeaderOk, SmallApart, Framed, Binned, TreeOk;
    BinSets(s, {});
    ChunkTag(s, {}, q);
    forall p {:trigger s.sn[p]} | p in s.sn
      ensures p + s.sn[p].size <= |m'| && W(m', p + HEAD) == W(s.m, p + HEAD)
        && W(m', p + FD) == W(s.m, p + FD) && W(m', p + BK) == W(s.m, p + BK)
    {
      assert p in s.sn;
      assert SmallNodeOk(s.m, s.sn, s.smallmap, p);
      ChunkTag(s, {}, p);
      OutsideBlock(s, q, m', p, p + HEAD);
      OutsideBlock(s, q, m', p, p + FD);
      OutsideBlock(s, q, m', p, p + BK);
    }
    KeepSmall(s.m, m', s.sn, s.smallmap);
  }

  /** A program that writes only inside its own blocks cannot break the heap or other blocks. */
  lemma BlockWrites(s: State, q: int, m': seq<int>)
    requires Ok(s, {}) && WithinBlock(s, q, m')
    ensures Ok(s.(m := m'), {}) && Untouched(Blocks(s.ch) - {q}, s.m, m')
  {
    hide W, TreeOk, SmallOk, Laid, Tagged;
    BlockTags(s, q, m');
    BlockTopFoot(s, q, m');
    BlockTree(s, q, m');
    BlockSmall(s, q, m');
    var s' := s.(m := m');
    forall p {:trigger InSmall(s', p)} | p in s'.sn ensures InSmall(s', p) { assert InSmall(s, p); }
    forall p {:trigger InLarge(s', p)} | p in s'.tn ensures InLarge(s', p) { assert InLarge(s, p); }
    forall p {:trigger Somewhere(s', {}, p)} ensures Somewhere(s', {}, p) { assert Somewhere(s, {}, p); }
    OtherBlocks(s, q, m');
  }

  lemma OtherBlocks(s: State, q: int, m': seq<int>)
    requires Ok(s, {}) && WithinBlock(s, q, m')
    ensures Untouched(Blocks(s.ch) - {q}, s.m, m')
  {
    hide W, TreeOk, SmallOk, Binned, Tagged, ChunkOk;
    var B := Blocks(s.ch) - {q};
    forall p {:trigger p in B} | p in B
      ensures SamePayload(s.m, m', p, B[p])
    {
      ChunksApart(s.ch, s.base, s.End(), p, q);
    }
  }
  // ---------- Stores of a program ----------

  function ByteAt(m: seq<int>, a: int, i: int): int { Byte(m, a + i) }

  /** The n bytes at a' are what the n bytes at a were. */
  ghost predicate SameContents(m: seq<int>, a: int, m': seq<int>, a': int, n: int) {
    forall i {:trigger ByteAt(m', a', i)} :: 0 <= i < n ==> ByteAt(m', a', i) == ByteAt(m, a, i)
  }

  ghost predicate ByteStored(m: seq<int>, m': seq<int>, a: int, b: int) {
    Byte(m', a) == b && forall a' {:trigger Byte(m', a')} :: a' != a ==> Byte(m', a') == Byte(m, a')
  }

  lemma StoreRoom(s: State, q: int, a: int)
    requires Ok(s, {}) && q in s.ch && s.ch[q].inuse && q + 16 <= a < q + s.ch[q].size + 8
    ensures 0 <= a < |s.m| && q + 16 <= WordOf(a) <= q + s.ch[q].size
  {
    hide Ok, WordOf;
    ChunkTag(s, {}, q);
    PayloadWord(q, s.ch[q].size, a);
  }

  lemma StoreOk(s: State, q: int, a: int, b: int, m': seq<int>)
    requires Ok(s, {}) && q in s.ch && s.ch[q].inuse && 0 <= a < |s.m| && 0 <= b < 256
    requires q + 16 <= WordOf(a) <= q + s.ch[q].size && m' == SetByte(s.m, a, b)
    ensures Ok(s.(m := m'), {}) && WithinBlock(s, q, m') && ByteStored(s.m, m', a, b)
    ensures Untouched(Blocks(s.ch) - {q}, s.m, m')
  {
    hide Ok, Byte, WordOf, SetByte, W, Blocks, Untouched;
    SetByteReads(s.m, a, b);
    BlockWrites(s, q, m');
  }

  /** One more byte copied, from a source the writes do not reach. */
  lemma CopyStep(m0: seq<int>, m: seq<int>, m': seq<int>, dest: int, src: int, n: nat, num: nat)
    requires SameContents(m0, src, m, dest, n) && SameContents(m0, src, m, src, num) && n < num
    requires ByteStored(m, m', dest + n, Byte(m, src + n)) && (src + num <= dest || dest + num <= src)
    ensures SameContents(m0, src, m', dest, n + 1) && SameContents(m0, src, m', src, num)
  {
    hide Byte;
    forall i {:trigger ByteAt(m', dest, i)} | 0 <= i < n + 1 ensures ByteAt(m', dest, i) == ByteAt(m0, src, i) {
      if i < n {
        assert ByteAt(m, dest, i) == ByteAt(m0, src, i);
      } else {
        assert ByteAt(m, src, n) == ByteAt(m0, src, n);
      }
    }
    forall i {:trigger ByteAt(m', src, i)} | 0 <= i < num ensures ByteAt(m', src, i) == ByteAt(m0, src, i) {
      assert ByteAt(m, src, i) == ByteAt(m0, src, i);
    }
  }

  lemma WithinTrans(s: State, q: int, m1: seq<int>, m2: seq<int>)
    requires WithinBlock(s, q, m1) && WithinBlock(s.(m := m1), q, m2)
    ensures WithinBlock(s, q, m2)
  {
    hide W;
  }

  lemma SameHere(m: seq<int>, a: int, n: int)
    ensures SameContents(m, a, m, a, n)
  {
  }

  lemma NoneYet(s: State, q: int, src: int, dest: int)
    requires q in s.ch && s.ch[q].inuse
    ensures WithinBlock(s, q, s.m) && SameContents(s.m, src, s.m, dest, 0)
  {
  }
}

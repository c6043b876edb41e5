/**
  What realloc and memalign promise about the blocks and their contents.
 */
module Results {
  import opened TreeBins
  import opened SmallBins
  import opened Layout
  import opened Heap
  import opened BinStores
  import opened Carving
  import opened ChunkMoves
  import opened Merging
  import opened Requests
  import opened Reshaping
  import opened Payload

  /** The chunk p can be given nb bytes where it is. */
  ghost predicate FitsInPlace(s: State, p: int, nb: nat)
    requires p in s.ch
  {
    var n := p + s.ch[p].size;
    || nb <= s.ch[p].size
    || (n in s.ch && !s.ch[n].inuse
        && if n == s.top then nb < s.ch[p].size + s.topsize else nb <= s.ch[p].size + s.ch[n].size)
  }

  /** The designated victim after the chunk at p got nb bytes in place: it stays unless it follows the chunk, and gives or takes the difference then. */
  ghost predicate DvAfterResize(s: State, p: int, nb: int, dv: int, dvsize: int)
    requires p in s.ch
  {
    var size := s.ch[p].size;
    var room := size + s.dvsize - nb;
    if s.dv != p + size || nb <= size < nb + 32 then dv == s.dv && dvsize == s.dvsize
    else if room >= 32 then dv == p + nb && dvsize == room
    else dv == 0 && dvsize == 0
  }

  /** The smaller of a request and what a chunk can hold. */
  function Kept(bytes: int, size: int): int { if bytes < size - 8 then bytes else size - 8 }

  /**
    The block at mem has become the block at mem', large enough for bytes. The bytes that fit
    both the old and the new request are the old ones; all other blocks are as before.
   */
  ghost predicate Reallocated(B: map<int, nat>, m: seq<int>, B': map<int, nat>, m': seq<int>, mem: int, mem': int, bytes: nat) {
    var p, q := mem - 16, mem' - 16;
    && p in B && q in B' && B' == (B - {p})[q := B'[q]] && (q == p || q !in B)
    && mem' % 16 == 0 && Padded(bytes) <= B'[q] < Padded(bytes) + 32
    && Untouched(B - {p}, m, m')
    && SameContents(m, mem, m', mem', Kept(bytes, B[p]))
  }

  lemma InPlace(s: State, B': map<int, nat>, m': seq<int>, mem: int, bytes: nat, size: nat)
    requires Ok(s, {}) && Reshaped(Blocks(s.ch), s.m, B', m', mem - 16, size)
    requires Padded(bytes) <= size < Padded(bytes) + 32 && size % 16 == 0
    ensures Reallocated(Blocks(s.ch), s.m, B', m', mem, mem, bytes)
  {
    hide Ok, SamePayload, Byte, Padded;
    var B, p := Blocks(s.ch), mem - 16;
    PaddedFits(bytes);
    ChunkTag(s, {}, p);
    var least := if size < B[p] then size else B[p];
    UntouchedFewer(B[p := least], B - {p}, s.m, m');
    assert B[p := size] == (B - {p})[p := size];
    assert p in B[p := least] && SamePayload(s.m, m', p, least);
    forall i {:trigger ByteAt(m', mem, i)} | 0 <= i < bytes && i < B[p] - 8
      ensures ByteAt(m', mem, i) == ByteAt(s.m, mem, i)
    {
      SameBytes(s.m, m', p, least, mem + i);
    }
  }

  lemma InPlaceAt(s: State, s': State, mem: int, bytes: nat)
    requires Ok(s, {}) && Ok(s', {}) && mem - 16 in s'.ch
    requires Padded(bytes) <= s'.ch[mem - 16].size < Padded(bytes) + 32
    requires Reshaped(Blocks(s.ch), s.m, Blocks(s'.ch), s'.m, mem - 16, s'.ch[mem - 16].size)
    ensures Reallocated(Blocks(s.ch), s.m, Blocks(s'.ch), s'.m, mem, mem, bytes)
  {
    hide Ok, Reshaped, Reallocated, Blocks, Padded;
    ChunkTag(s', {}, mem - 16);
    InPlace(s, Blocks(s'.ch), s'.m, mem, bytes, s'.ch[mem - 16].size);
  }

  /** The source of a copy is out of reach of the writes to its destination. */
  lemma SourceApart(s: State, q: int, p: int, num: nat)
    requires Ok(s, {}) && p in s.ch && q in s.ch && p != q && num + 8 <= s.ch[p].size && num + 8 <= s.ch[q].size
    ensures p + 16 + num <= q + 16 || q + 16 + num <= p + 16
  {
    hide TreeOk, SmallOk, Binned, Tagged, Laid;
    ChunkTag(s, {}, p);
    ChunksApart(s.ch, s.base, s.End(), p, q);
  }

  lemma BothBlocks(s: State, ch: Chunks, m: seq<int>, oldmem: int, mem: int, bytes: nat)
    requires Allocated(s.ch, s.m, ch, m, mem, bytes) && oldmem - 16 in Blocks(s.ch)
    ensures var p, q := oldmem - 16, mem - 16;
            && p in Blocks(ch) && q in Blocks(ch) && p != q && p in ch && q in ch
            && ch[p].size == Blocks(s.ch)[p] && bytes + 8 <= ch[q].size
            && ch[p].inuse && ch[q].inuse
  {
    hide Untouched;
    PaddedFits(bytes);
    assert mem - 16 in Blocks(ch) && oldmem - 16 in Blocks(ch);
    assert Blocks(ch)[oldmem - 16] == Blocks(s.ch)[oldmem - 16];
  }

  /** Allocate, copy, free. */
  lemma Moved(s: State, s1: State, m2: seq<int>, ch': Chunks, m': seq<int>, oldmem: int, mem: int, bytes: nat)
    requires Ok(s, {}) && Ok(s1, {}) && oldmem - 16 in Blocks(s.ch) && Allocated(s.ch, s.m, s1.ch, s1.m, mem, bytes)
    requires WithinBlock(s1, mem - 16, m2) && GivenBack(s1.ch, m2, ch', m', oldmem - 16)
    requires SameContents(s1.m, oldmem, m2, mem, Kept(bytes, Blocks(s.ch)[oldmem - 16]))
    ensures Reallocated(Blocks(s.ch), s.m, Blocks(ch'), m', oldmem, mem, bytes)
  {
    hide Ok, Untouched, SamePayload, Byte, Padded, WithinBlock;
    var B, B1, B' := Blocks(s.ch), Blocks(s1.ch), Blocks(ch');
    var p, q := oldmem - 16, mem - 16;
    BothBlocks(s, s1.ch, s1.m, oldmem, mem, bytes);
    BlockWrites(s1, q, m2);
    UntouchedFewer(B, B - {p}, s.m, s1.m);
    UntouchedFewer(B1 - {q}, B - {p}, s1.m, m2);
    UntouchedFewer(B', B - {p}, m2, m');
    UntouchedTrans(B - {p}, s.m, s1.m, m2);
    UntouchedTrans(B - {p}, s.m, m2, m');
    assert B' == (B - {p})[q := B'[q]];
    PaddedFits(bytes);
    ChunkTag(s, {}, p);
    ChunkTag(s1, {}, q);
    OneBlock(B', m2, m', q);
    OneBlock(B, s.m, s1.m, p);
    forall i {:trigger ByteAt(m', mem, i)} | 0 <= i < bytes && i < B[p] - 8
      ensures ByteAt(m', mem, i) == ByteAt(s.m, oldmem, i)
    {
      assert ByteAt(m2, mem, i) == ByteAt(s1.m, oldmem, i);
      SameBytes(m2, m', q, B'[q], mem + i);
      SameBytes(s.m, s1.m, p, B[p], oldmem + i);
    }
  }

  lemma OneBlock(B: map<int, nat>, m: seq<int>, m': seq<int>, p: int)
    requires Untouched(B, m, m') && p in B
    ensures SamePayload(m, m', p, B[p])
  {
  }

  /** The block at mem is new and aligned as asked, with room for bytes. */
  ghost predicate AlignedBlock(ch: Chunks, m: seq<int>, ch': Chunks, m': seq<int>, mem: int, alignment: nat, bytes: nat) {
    var p := mem - 16;
    && alignment > 0 && mem % alignment == 0
    && p in ch' && Padded(bytes) <= ch'[p].size <= Padded(bytes) + 32
    && HandedOut(ch, m, ch', m', p, ch'[p].size)
  }
}

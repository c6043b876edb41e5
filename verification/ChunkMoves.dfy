/**
  The stores with which dlmalloc.c hands out, splits and merges chunks, and what each does to
  the blocks in use.
 */
module ChunkMoves {
  import opened BinIndex
  import opened Memory
  import opened TreeBins
  import opened SmallBins
  import opened Layout
  import opened Heap
  import opened BinStores
  import opened Carving

  // ---------- The designated victim ----------

  /** Seen without its role, the designated victim is a loose chunk. */
  lemma DvLoose(s: State, loose: set<int>)
    requires Ok(s, loose) && s.dv != 0
    ensures s.dv in s.ch && !s.ch[s.dv].inuse && s.ch[s.dv].size == s.dvsize && s.dv !in loose && s.dv != s.top
    ensures Ok(s.(dv := 0, dvsize := 0), loose + {s.dv})
  {
    hide TreeOk, SmallOk, Laid, Tagged;
    var s' := s.(dv := 0, dvsize := 0);
    assert s.dv in s.sn ==> InSmall(s, s.dv);
    assert s.dv in s.tn ==> InLarge(s, s.dv);
    assert s.dv in loose ==> IsLoose(s, s.dv);
    NullIsNoChunk(s, loose);
    forall p {:trigger InSmall(s', p)} | p in s'.sn ensures InSmall(s', p) { assert InSmall(s, p); }
    forall p {:trigger InLarge(s', p)} | p in s'.tn ensures InLarge(s', p) { assert InLarge(s, p); }
    forall p {:trigger IsLoose(s', p)} | p in loose + {s.dv} ensures IsLoose(s', p) {
      assert p in loose ==> IsLoose(s, p);
    }
    forall p {:trigger Somewhere(s', loose + {s.dv}, p)} ensures Somewhere(s', loose + {s.dv}, p) {
      assert Somewhere(s, loose, p);
    }
  }

  lemma NullIsNoChunk(s: State, loose: set<int>)
    requires Ok(s, loose)
    ensures forall p {:trigger p in s.ch} :: p in s.ch ==> GM_END <= s.base <= p
  {
    hide TreeOk, SmallOk, Binned, Tagged;
    forall p {:trigger p in s.ch} | p in s.ch ensures GM_END <= s.base <= p {
      LoIsPlaced(s.ch, s.base, s.End(), p);
    }
  }

  /** A loose chunk may become the designated victim if there is none. */
  lemma LooseDv(s: State, loose: set<int>, p: int)
    requires Ok(s, loose) && s.dv == 0 && p in loose
    ensures p in s.ch && s.ch[p].size > 0 && Ok(s.(dv := p, dvsize := s.ch[p].size), loose - {p})
  {
    hide TreeOk, SmallOk, Laid, Tagged;
    assert IsLoose(s, p);
    NullIsNoChunk(s, loose);
    ChunkTag(s, loose, p);
    var s' := s.(dv := p, dvsize := s.ch[p].size);
    forall q {:trigger InSmall(s', q)} | q in s'.sn ensures InSmall(s', q) { assert InSmall(s, q); }
    forall q {:trigger InLarge(s', q)} | q in s'.tn ensures InLarge(s', q) { assert InLarge(s, q); }
    forall q {:trigger IsLoose(s', q)} | q in loose - {p} ensures IsLoose(s', q) { assert IsLoose(s, q); }
    forall q {:trigger Somewhere(s', loose - {p}, q)} ensures Somewhere(s', loose - {p}, q) {
      assert Somewhere(s, loose, q);
    }
  }

  /** A chunk is the only one in its extent. */
  lemma OnlyChunk(ch: Chunks, base: int, end: int, p: int, q: int)
    requires Laid(ch, base, end) && p in ch && q in ch && p <= q < p + ch[p].size
    ensures q == p
  {
    hide ChunkOk;
    assert Apart(ch, p, q);
  }

  // ---------- Handing out a free chunk ----------

  /** What an operation that hands out p does to the blocks. */
  ghost predicate HandedOut(ch: Chunks, m: seq<int>, ch': Chunks, m': seq<int>, p: int, size: nat) {
    && p !in Blocks(ch) && Blocks(ch') == Blocks(ch)[p := size]
    && Untouched(Blocks(ch), m, m')
  }

  /** Where a loose chunk lies. */
  lemma LooseRun(s: State, loose: set<int>, p: int)
    requires Ok(s, loose) && Coalesced(s.ch) && p in loose
    ensures p in s.ch && !s.ch[p].inuse && p != s.top && p != s.dv
    ensures var hi := p + s.ch[p].size;
            && hi in s.ch && s.ch[hi].inuse && hi != s.End() && hi < s.End()
            && PrevInuse(s.ch, s.base, p)
            && p + 32 <= hi && hi + 32 <= |s.m| && 0 < p && p % 16 == 0 && hi % 16 == 0
            && ChunkSize(W(s.m, p + HEAD)) == s.ch[p].size
            && SetPinuse(W(s.m, hi + HEAD)) == HeadWord(s.ch[hi].size, true, true)
            && W(s.m, hi + HEAD) == HeadWord(s.ch[hi].size, true, false)
  {
    hide TreeOk, SmallOk, W, HeadWord, Coalesced, Laid, Tagged, PrevInuse, ChunkSize, SetPinuse;
    assert IsLoose(s, p);
    ChunkTag(s, loose, p);
    TopIsLast(s, loose, p);
    NeighboursInUse(s.ch, s.base, s.End(), p);
    LoIsPlaced(s.ch, s.base, s.End(), p);
    ChunkTag(s, loose, p + s.ch[p].size);
    PrevOf(s.ch, s.base, s.End(), p);
  }

  lemma PrevOf(ch: Chunks, base: int, end: int, p: int)
    requires Laid(ch, base, end) && p in ch && p + ch[p].size != end
    ensures p + ch[p].size in ch && PrevInuse(ch, base, p + ch[p].size) == ch[p].inuse
  {
    hide Apart;
    LoIsPlaced(ch, base, end, p);
  }

  lemma LooseCarvable(s: State, loose: set<int>, p: int, mid: int, u: bool, v: bool)
    requires Ok(s, loose) && Coalesced(s.ch) && p in loose && p in s.ch
    requires mid % 16 == 0 && p + 32 <= mid
    requires var hi := p + s.ch[p].size; mid == hi || mid + 32 <= hi
    ensures Carvable(s, loose, p, mid, p + s.ch[p].size, u, v)
  {
    hide TreeOk, SmallOk, W, HeadWord, Coalesced, Binned, Tagged, Laid;
    LooseRun(s, loose, p);
    var hi := p + s.ch[p].size;
    assert Run(s.ch, s.base, s.End(), p, mid, hi);
    forall q {:trigger s.ch[q]} | q in s.ch && p <= q < hi ensures q in loose {
      OnlyChunk(s.ch, s.base, s.End(), p, q);
    }
    if s.dv in s.ch && p <= s.dv < hi { OnlyChunk(s.ch, s.base, s.End(), p, s.dv); }
    assert !(p <= s.dv < hi) by {
      if s.dv == 0 { NullIsNoChunk(s, loose); } else { DvLoose(s, loose); }
    }
  }

  /** set_inuse_and_pinuse of a whole free chunk. */
  lemma TakeStores(s: State, loose: set<int>, p: int, hi: int, m': seq<int>)
    requires Ok(s, loose) && Coalesced(s.ch) && p in loose && p in s.ch && hi == p + s.ch[p].size
    requires p + 32 <= hi && hi + 32 <= |s.m| && 0 < p
    requires m' == s.m[p + HEAD := s.ch[p].size + 3][hi + HEAD := SetPinuse(s.m[hi + HEAD])]
    ensures TagsWritten(s, p, hi, hi, true, true, m')
  {
    hide Ok, Coalesced, SetPinuse;
    LooseRun(s, loose, p);
  }

  lemma TakeMove(s: State, loose: set<int>, p: int, hi: int, m': seq<int>)
    requires Ok(s, loose) && Coalesced(s.ch) && p in loose && p in s.ch && hi == p + s.ch[p].size
    requires TagsWritten(s, p, hi, hi, true, true, m') && p < hi
    ensures var s' := s.(m := m', ch := Carve(s.ch, p, hi, hi, true, true));
            && Ok(s', loose - {p}) && Coalesced(s'.ch)
            && HandedOut(s.ch, s.m, s'.ch, m', p, hi - p)
  {
    hide Ok, Coalesced, Carvable, TagsWritten, Carve, Untouched, PrevInuse;
    LooseRun(s, loose, p);
    LooseCarvable(s, loose, p, hi, true, true);
    CarveOk(s, loose, p, hi, hi, true, true, m');
    LooseMinus(s, loose, p);
    assert Loosened(s, loose, p, hi, hi, true, true) == loose - {p};
    CarvableRun(s, loose, p, hi, hi, true, true);
    CarveCoalesced(s.ch, s.base, s.End(), p, hi, hi, true, true);
    Handed(s, loose, p, hi, hi, true, m');
  }

  lemma CarvableRun(s: State, loose: set<int>, lo: int, mid: int, hi: int, u: bool, v: bool)
    requires Carvable(s, loose, lo, mid, hi, u, v)
    ensures Run(s.ch, s.base, s.End(), lo, mid, hi)
  {
  }

  /** Of the loose chunks, p is the only one in its extent. */
  lemma LooseMinus(s: State, loose: set<int>, p: int)
    requires Ok(s, loose) && p in loose && p in s.ch
    ensures (set q | q in loose && !(p <= q < p + s.ch[p].size)) == loose - {p}
  {
    hide TreeOk, SmallOk, Tagged, Laid;
    ChunkTag(s, loose, p);
    forall q | q in loose && p <= q < p + s.ch[p].size ensures q == p {
      assert IsLoose(s, q);
      OnlyChunk(s.ch, s.base, s.End(), p, q);
    }
  }

  /** The piece of a free chunk that is handed out is a new block; the others are as before. */
  lemma Handed(s: State, loose: set<int>, lo: int, mid: int, hi: int, v: bool, m': seq<int>)
    requires Ok(s, loose) && Carvable(s, loose, lo, mid, hi, true, v) && TagsWritten(s, lo, mid, hi, true, v, m')
    requires (mid < hi ==> !v) && lo in s.ch && !s.ch[lo].inuse && lo < mid <= hi == lo + s.ch[lo].size
    ensures HandedOut(s.ch, s.m, Carve(s.ch, lo, mid, hi, true, v), m', lo, mid - lo)
  {
    hide Ok, TagsWritten, Carve, Untouched;
    CarvableRun(s, loose, lo, mid, hi, true, v);
    CarveBlocks(s.ch, s.base, s.End(), lo, mid, hi, true, v);
    var B, B' := Blocks(s.ch), Blocks(Carve(s.ch, lo, mid, hi, true, v));
    forall q | q in B ensures q < lo || hi <= q {
      if lo <= q < hi { OnlyChunk(s.ch, s.base, s.End(), lo, q); }
    }
    assert forall q :: q in B' <==> q in B || q == lo;
    assert B' == B[lo := mid - lo];
    CarveLeavesBlocks(s, loose, lo, mid, hi, true, v, m', B);
  }

  /** The three stores that split a free chunk: the lower part in use, the upper part free. */
  lemma SplitStores(s: State, loose: set<int>, p: int, r: int, hi: int, m': seq<int>)
    requires Ok(s, loose) && Coalesced(s.ch) && p in loose && p in s.ch && hi == p + s.ch[p].size
    requires p + 32 <= r && r + 32 <= hi && hi + 32 <= |s.m| && 0 < p && r % 16 == 0
    requires m' == s.m[p + HEAD := r - p + 3][r + HEAD := hi - r + 1][hi := hi - r]
    ensures TagsWritten(s, p, r, hi, true, false, m')
  {
    hide Ok, Coalesced, SetPinuse;
    LooseRun(s, loose, p);
  }

  lemma SplitMove(s: State, loose: set<int>, p: int, r: int, hi: int, m': seq<int>)
    requires Ok(s, loose) && Coalesced(s.ch) && p in loose && p in s.ch && hi == p + s.ch[p].size
    requires p + 32 <= r && r + 32 <= hi && r % 16 == 0
    requires TagsWritten(s, p, r, hi, true, false, m')
    ensures var s' := s.(m := m', ch := Carve(s.ch, p, r, hi, true, false));
            && Ok(s', loose - {p} + {r}) && Coalesced(s'.ch)
            && r in s'.ch && s'.ch[r].size == hi - r
            && HandedOut(s.ch, s.m, s'.ch, m', p, r - p)
  {
    hide Ok, Coalesced, Carvable, TagsWritten, Carve, Untouched, PrevInuse;
    LooseRun(s, loose, p);
    LooseCarvable(s, loose, p, r, true, false);
    CarveOk(s, loose, p, r, hi, true, false, m');
    LooseMinus(s, loose, p);
    assert Loosened(s, loose, p, r, hi, true, false) == loose - {p} + {r};
    CarvableRun(s, loose, p, r, hi, true, false);
    CarveCoalesced(s.ch, s.base, s.End(), p, r, hi, true, false);
    Handed(s, loose, p, r, hi, false, m');
    CarveOutside(s.ch, p, r, hi, true, false);
  }

  // ---------- The top chunk ----------

  lemma TopRun(s: State, loose: set<int>)
    requires Ok(s, loose) && Coalesced(s.ch)
    ensures s.top in s.ch && !s.ch[s.top].inuse && s.ch[s.top].size == s.topsize && s.topsize >= 16 && s.topsize % 16 == 0
    ensures PrevInuse(s.ch, s.base, s.top) && GM_END <= s.base <= s.top && s.top % 16 == 0
    ensures s.End() + 80 == |s.m| <= MEMORY_LIMIT && W(s.m, s.End() + HEAD) == TOP_FOOT_SIZE
    ensures W(s.m, s.top + HEAD) == s.topsize + 1
    ensures !(s.top <= s.dv < s.End())
  {
    hide TreeOk, SmallOk, W, Coalesced, Laid, PrevInuse, ChunkSize, SetPinuse, TagOk;
    ChunkTag(s, loose, s.top);
    NeighboursInUse(s.ch, s.base, s.End(), s.top);
    if s.dv != 0 {
      TopIsLast(s, loose, s.dv);
    }
  }

  lemma TopCarvable(s: State, loose: set<int>, mid: int)
    requires Ok(s, loose) && Coalesced(s.ch) && mid % 16 == 0 && s.top + 32 <= mid < s.End()
    ensures Carvable(s, loose, s.top, mid, s.End(), true, false)
  {
    hide TreeOk, SmallOk, W, HeadWord, Coalesced, Tagged, Laid, PrevInuse;
    TopRun(s, loose);
    Aligned(s.top, s.topsize);
    Aligned(s.End(), mid);
    assert Run(s.ch, s.base, s.End(), s.top, mid, s.End());
    forall q {:trigger s.ch[q]} | q in s.ch && s.top <= q < s.End() ensures q == s.top {
      OnlyChunk(s.ch, s.base, s.End(), s.top, q);
    }
  }

  lemma TopStores(s: State, loose: set<int>, r: int, m': seq<int>)
    requires Ok(s, loose) && Coalesced(s.ch)
    requires s.top + 32 <= r < s.End() && 0 < s.top && s.End() + 80 == |s.m|
    requires m' == s.m[r + HEAD := s.End() - r + 1][s.top + HEAD := r - s.top + 3]
    ensures s.top in s.ch && TagsWritten(s, s.top, r, s.End(), true, false, m')
  {
    hide Ok, Coalesced, Laid;
    TopRun(s, loose);
    EndIsNoChunk(s, loose);
  }

  lemma EndIsNoChunk(s: State, loose: set<int>)
    requires Ok(s, loose)
    ensures s.End() !in s.ch
  {
    hide TreeOk, SmallOk, Tagged, Laid;
    if s.End() in s.ch { LoIsPlaced(s.ch, s.base, s.End(), s.End()); }
  }

  lemma TopMove(s: State, loose: set<int>, r: int, m': seq<int>)
    requires Ok(s, loose) && Coalesced(s.ch) && r % 16 == 0 && s.top + 32 <= r < s.End() && s.top in s.ch
    requires TagsWritten(s, s.top, r, s.End(), true, false, m')
    ensures var s' := s.(m := m', ch := Carve(s.ch, s.top, r, s.End(), true, false), top := r, topsize := s.End() - r);
            && Ok(s', loose) && Coalesced(s'.ch)
            && HandedOut(s.ch, s.m, s'.ch, m', s.top, r - s.top)
  {
    hide Ok, Coalesced, Carvable, TagsWritten, Carve, Untouched, PrevInuse;
    TopRun(s, loose);
    TopCarvable(s, loose, r);
    CarveOk(s, loose, s.top, r, s.End(), true, false, m');
    TopNotLoose(s, loose);
    assert Loosened(s, loose, s.top, r, s.End(), true, false) == loose;
    CarvableRun(s, loose, s.top, r, s.End(), true, false);
    EndIsNoChunk(s, loose);
    CarveCoalesced(s.ch, s.base, s.End(), s.top, r, s.End(), true, false);
    Handed(s, loose, s.top, r, s.End(), false, m');
  }

  lemma TopNotLoose(s: State, loose: set<int>)
    requires Ok(s, loose)
    ensures forall q {:trigger q in loose} :: q in loose ==> q < s.top
  {
    hide TreeOk, SmallOk, Tagged, Laid;
    forall q {:trigger q in loose} | q in loose ensures q < s.top {
      assert IsLoose(s, q);
      TopIsLast(s, loose, q);
    }
  }

  // ---------- Which bin ----------

  lemma LooseSize(s: State, loose: set<int>, p: int)
    requires Ok(s, loose) && p in loose
    ensures p in s.ch && !s.ch[p].inuse && s.ch[p].size >= 32 && s.ch[p].size % 16 == 0
  {
    hide TreeOk, SmallOk, Tagged, Laid;
    assert IsLoose(s, p);
    ChunkTag(s, loose, p);
    TopIsLast(s, loose, p);
    LoIsPlaced(s.ch, s.base, s.End(), p);
  }

  lemma BinBySize(s: State, loose: set<int>, p: int)
    requires Ok(s, loose) && (p in s.sn || p in s.tn)
    ensures p in s.ch
    ensures if s.ch[p].size / 8 < 32 then p in s.sn && s.sn[p].size == s.ch[p].size else p in s.tn
  {
    hide TreeOk, SmallOk, Framed;
    BinSets(s, loose);
  }

  /** 0 is never a chunk, and there is no victim exactly if its size is 0. */
  lemma NoDv(s: State, loose: set<int>)
    requires Ok(s, loose)
    ensures s.dvsize == 0 <==> s.dv == 0
    ensures s.dv == 0 ==> s == s.(dv := 0, dvsize := 0)
  {
    hide TreeOk, SmallOk, Framed;
  }

  lemma DvIsSmall(s: State, loose: set<int>)
    requires Ok(s, loose) && s.dv != 0 && s.dvsize < MIN_LARGE_SIZE
    ensures IsSmallSize(s.dvsize)
  {
    hide TreeOk, SmallOk, Framed;
    DvLoose(s, loose);
    LooseSize(s.(dv := 0, dvsize := 0), loose + {s.dv}, s.dv);
  }

  lemma LinkWritesOfDv(s: State, m': seq<int>)
    requires LinkWrites(s.(dv := 0, dvsize := 0), m')
    ensures LinkWrites(s, m')
  {
  }

  lemma NoLinkWrites(s: State)
    ensures LinkWrites(s, s.m)
  {
  }
}

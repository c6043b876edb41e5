/**
  The segment growing and shrinking at its end: only the extent of the top chunk changes.
 */
module Segment {
  import opened BinIndex
  import opened BinMap
  import opened Memory
  import opened TreeBins
  import opened TreeInsert
  import opened SmallBins
  import opened Layout
  import opened Heap
  import opened BinStores
  import opened Carving
  import opened ChunkMoves

  const PAGE := 4096

  /** Memory up to the links of top is as before, except for its head; init_top has run. */
  ghost predicate TopMoved(s: State, end: int, m': seq<int>) {
    && s.top + 16 <= end && end % 16 == 0
    && |m'| == end + TOP_FOOT_SIZE <= MEMORY_LIMIT
    && W(m', s.top + HEAD) == end - s.top + 1
    && W(m', end + HEAD) == TOP_FOOT_SIZE
    && forall k {:trigger W(m', k)} :: k < s.top + FD && k != s.top + HEAD ==> W(m', k) == W(s.m, k)
  }

  ghost function Resized(s: State, end: int, m': seq<int>): State
    requires s.top in s.ch && s.top <= end
  {
    s.(m := m', topsize := end - s.top, ch := s.ch[s.top := Chunk(end - s.top, false, s.ch[s.top].prev)])
  }

  lemma ResizeLaid(s: State, end: int)
    requires Ok(s, {}) && Coalesced(s.ch) && s.top + 16 <= end && end % 16 == 0 && s.top in s.ch
    ensures Laid(s.ch[s.top := Chunk(end - s.top, false, s.ch[s.top].prev)], s.base, end)
  {
    hide Ok, Coalesced, ChunkOk, Apart;
    LaidIs(s);
    var c := s.ch[s.top := Chunk(end - s.top, false, s.ch[s.top].prev)];
    TopRun(s, {});
    forall p {:trigger ChunkOk(c, s.base, end, p)} | p in c
      ensures ChunkOk(c, s.base, end, p)
    {
      ResizedChunk(s, end, p);
    }
    forall p, q {:trigger Apart(c, p, q)} | p in c && q in c
      ensures Apart(c, p, q)
    {
      TopIsLast(s, {}, q);
      ChunksApart(s.ch, s.base, s.End(), p, q);
      LoIsPlaced(s.ch, s.base, s.End(), q);
      LoIsPlaced(s.ch, s.base, s.End(), p);
      ApartIs(c, p, q);
    }
  }

  lemma ApartIs(c: Chunks, p: int, q: int)
    requires p in c && q in c && (p < q ==> p + c[p].size <= q)
    ensures Apart(c, p, q)
  {
  }

  lemma LaidIs(s: State)
    requires Ok(s, {})
    ensures Laid(s.ch, s.base, s.End()) && s.top in s.ch && !s.ch[s.top].inuse
  {
  }

  lemma ResizedChunk(s: State, end: int, p: int)
    requires Ok(s, {}) && Coalesced(s.ch) && s.top + 16 <= end && end % 16 == 0 && s.top in s.ch && p in s.ch
    ensures ChunkOk(s.ch[s.top := Chunk(end - s.top, false, s.ch[s.top].prev)], s.base, end, p)
  {
    hide Ok, Coalesced, Apart;
    LaidIs(s);
    TopRun(s, {});
    Aligned(end, s.top);
    TopIsLast(s, {}, p);
    LoIsPlaced(s.ch, s.base, s.End(), p);
    if p != s.top { TopIsLast(s, {}, p + s.ch[p].size); }
    if p != s.base {
      PrevIsPlaced(s.ch, s.base, s.End(), p);
      TopIsLast(s, {}, s.ch[p].prev);
    }
    assert ChunkOk(s.ch, s.base, s.End(), p);
  }

  /** The binned chunks and the other tags lie below top. */
  lemma BelowTop(s: State, q: int)
    requires Ok(s, {}) && q in s.ch && q != s.top
    ensures GM_END <= q && q + s.ch[q].size <= s.top
  {
    hide TreeOk, SmallOk, Binned, Tagged;
    TopIsLast(s, {}, q);
    ChunksApart(s.ch, s.base, s.End(), q, s.top);
    LoIsPlaced(s.ch, s.base, s.End(), q);
    LoIsPlaced(s.ch, s.base, s.End(), s.top);
  }

  lemma ResizeTags(s: State, end: int, m': seq<int>)
    requires Ok(s, {}) && Coalesced(s.ch) && TopMoved(s, end, m') && s.top in s.ch
    ensures Tagged(m', Resized(s, end, m').ch, s.base, end)
  {
    hide Coalesced, TreeOk, SmallOk, Binned, Laid, W, HeadWord, PrevInuse;
    TopRun(s, {});
    var c := Resized(s, end, m').ch;
    forall p {:trigger TagOk(m', c, s.base, end, p)} | p in c
      ensures TagOk(m', c, s.base, end, p)
    {
      assert TagOk(s.m, s.ch, s.base, s.End(), p);
      SamePrev(s, c, end - s.top, p);
      if p != s.top {
        BelowTop(s, p);
        TopIsLast(s, {}, p);
      } else {
        HeadIs(end - s.top);
      }
    }
  }

  lemma HeadIs(size: int)
    ensures HeadWord(size, false, true) == size + 1
  {
  }

  lemma SamePrev(s: State, c: Chunks, size: nat, p: int)
    requires p in s.ch && s.top in s.ch && !s.ch[s.top].inuse && c == s.ch[s.top := Chunk(size, false, s.ch[s.top].prev)]
    ensures PrevInuse(c, s.base, p) == PrevInuse(s.ch, s.base, p)
  {
  }

  lemma ResizeTree(s: State, end: int, m': seq<int>)
    requires Ok(s, {}) && Coalesced(s.ch) && TopMoved(s, end, m')
    ensures TreeOk(m', s.tn, s.treemap)
  {
    hide W, Path, Dir, TreeIndex, Marked, OnRing, UnderParent, OverChild, Framed, Binned, SmallOk, Coalesced;
    BinSets(s, {});
    TopRun(s, {});
    forall p {:trigger s.tn[p]} | p in s.tn
      ensures SameNode(s.m, m', p) && p + s.tn[p].size <= |m'|
    {
      assert p in s.tn;
      NotTop(s, p);
      BelowTop(s, p);
      assert NodeOk(s.m, s.tn, p);
    }
    KeepTree(s.m, m', s.tn, s.treemap);
  }

  lemma NotTop(s: State, p: int)
    requires Ok(s, {}) && (p in s.sn || p in s.tn)
    ensures p != s.top
  {
    hide TreeOk, SmallOk, Framed;
    assert p in s.sn ==> InSmall(s, p);
    assert p in s.tn ==> InLarge(s, p);
  }

  lemma ResizeSmall(s: State, end: int, m': seq<int>)
    requires Ok(s, {}) && Coalesced(s.ch) && TopMoved(s, end, m')
    ensures SmallOk(m', s.sn, s.smallmap)
  {
    hide W, Marked, ChunkSize, Listed, HeaderOk, SmallApart, Framed, Binned, TreeOk, Coalesced;
    BinSets(s, {});
    TopRun(s, {});
    forall p {:trigger s.sn[p]} | p in s.sn
      ensures p + s.sn[p].size <= |m'| && W(m', p + HEAD) == W(s.m, p + HEAD)
        && W(m', p + FD) == W(s.m, p + FD) && W(m', p + BK) == W(s.m, p + BK)
    {
      assert p in s.sn;
      NotTop(s, p);
      BelowTop(s, p);
      assert SmallNodeOk(s.m, s.sn, s.smallmap, p);
    }
    KeepSmall(s.m, m', s.sn, s.smallmap);
  }

  lemma ResizeBinned(s: State, end: int, m': seq<int>)
    requires Ok(s, {}) && s.top in s.ch && s.top <= end
    ensures Binned(Resized(s, end, m'), {})
  {
    hide TreeOk, SmallOk, Framed;
    var s' := Resized(s, end, m');
    forall p {:trigger InSmall(s', p)} | p in s'.sn ensures InSmall(s', p) { assert InSmall(s, p); }
    forall p {:trigger InLarge(s', p)} | p in s'.tn ensures InLarge(s', p) { assert InLarge(s, p); }
    forall p {:trigger Somewhere(s', {}, p)} ensures Somewhere(s', {}, p) {
      assert Somewhere(s, {}, p);
    }
  }

  /** Growing or shrinking the segment keeps the invariant and every block. */
  lemma ResizeMove(s: State, end: int, m': seq<int>)
    requires Ok(s, {}) && Coalesced(s.ch) && TopMoved(s, end, m') && s.top in s.ch
    ensures var s' := Resized(s, end, m');
            && Ok(s', {}) && Coalesced(s'.ch) && s'.End() == end
            && Blocks(s'.ch) == Blocks(s.ch) && Untouched(Blocks(s.ch), s.m, m')
  {
    hide W, Coalesced, Laid, Tagged, TreeOk, SmallOk, Binned, Untouched;
    LaidIs(s);
    ResizeLaid(s, end);
    ResizeTags(s, end, m');
    ResizeTree(s, end, m');
    ResizeSmall(s, end, m');
    ResizeBinned(s, end, m');
    ResizeBlocks(s, end, m');
  }

  lemma ResizeBlocks(s: State, end: int, m': seq<int>)
    requires Ok(s, {}) && Coalesced(s.ch) && TopMoved(s, end, m') && s.top in s.ch
    ensures var s' := Resized(s, end, m');
            Coalesced(s'.ch) && Blocks(s'.ch) == Blocks(s.ch) && Untouched(Blocks(s.ch), s.m, m')
  {
    hide W, Ok;
    LaidIs(s);
    var c := Resized(s, end, m').ch;
    forall p {:trigger c[p]} | p in c && !c[p].inuse && p + c[p].size in c
      ensures c[p + c[p].size].inuse
    {
      if p != s.top { BelowTop(s, p); TopRun(s, {}); TopPrev(s, p); } else { BeyondTop(s, end); }
    }
    forall p {:trigger p in Blocks(s.ch)} | p in Blocks(s.ch)
      ensures SamePayload(s.m, m', p, Blocks(s.ch)[p])
    {
      BelowTop(s, p);
    }
    assert Blocks(c) == Blocks(s.ch);
  }

  /** The chunk below top is in use. */
  lemma TopPrev(s: State, p: int)
    requires Ok(s, {}) && Coalesced(s.ch) && p in s.ch && p != s.top && !s.ch[p].inuse
    ensures p + s.ch[p].size != s.top
  {
    hide TreeOk, SmallOk, Tagged, Laid, Coalesced;
    TopIsLast(s, {}, p);
    NeighboursInUse(s.ch, s.base, s.End(), p);
  }

  lemma BeyondTop(s: State, end: int)
    requires Ok(s, {}) && s.top < end
    ensures end !in s.ch
  {
    hide TreeOk, SmallOk, Tagged, Laid, Binned;
    if end in s.ch { TopIsLast(s, {}, end); }
  }

  // ---------- The first segment ----------

  /** malloc_state before first use: all zero. */
  ghost predicate Blank(m: seq<int>) {
    GM_END <= |m| && forall i: nat {:trigger Root(m, i)} :: i < TREE_BINS ==> Root(m, i) == 0
  }

  ghost function FirstState(m: seq<int>, base: int, end: int): State {
    State(m, 0, 0, 0, 0, base, end - base, base, map[base := Chunk(if end < base then 0 else end - base, false, base)], map[], map[])
  }

  /** One free chunk, top, fills the first segment. */
  lemma FirstOk(m: seq<int>, base: int, end: int)
    requires Blank(m) && GM_END <= base && base + 16 <= end && base % 16 == 0 && end % 16 == 0
    requires |m| == end + TOP_FOOT_SIZE <= MEMORY_LIMIT
    requires W(m, base + HEAD) == end - base + 1 && W(m, end + HEAD) == TOP_FOOT_SIZE
    ensures var s := FirstState(m, base, end); Ok(s, {}) && Coalesced(s.ch) && Blocks(s.ch) == map[]
  {
    hide W, Marked;
    var s := FirstState(m, base, end);
    Aligned(end, base);
    HeadIs(end - base);
    assert ChunkOk(s.ch, base, end, base);
    assert Apart(s.ch, base, base);
    assert TagOk(m, s.ch, base, end, base);
    ZeroMap(0);
    FirstBins(m);
    assert forall p {:trigger Somewhere(s, {}, p)} :: Somewhere(s, {}, p);
  }

  lemma FirstBins(m: seq<int>)
    requires Blank(m)
    ensures TreeOk(m, map[], 0) && SmallOk(m, map[], 0)
  {
    hide W, Marked;
    ZeroMap(0);
    forall i: nat {:trigger RootOk(m, map[], 0, i)} | i < TREE_BINS
      ensures RootOk(m, map[], 0, i)
    {
      assert Root(m, i) == 0;
      assert !Marked(0, i);
    }
    forall i: nat {:trigger HeaderOk(m, map[], 0, i)} | i < SMALL_BIN_COUNT
      ensures HeaderOk(m, map[], 0, i)
    {
      assert !Marked(0, i);
    }
  }
}

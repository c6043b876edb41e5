/**
  The state of the allocator and its invariant, on values: the chunk layout with its
  boundary tags, the two kinds of bins, the designated victim and the top chunk.
 */
module Heap {
  import opened BinIndex
  import opened BinMap
  import opened Memory
  import opened TreeBins
  import opened TreeInsert
  import opened SmallBins
  import opened Layout

  const TOP_FOOT_SIZE := 80
  const MEMORY_LIMIT := 0x80_0000_0000 // the kernel half ends 2^39 bytes above the heap's image

  /** The fields of malloc_state, and the ghost picture of what they describe. */
  datatype State = State(
    m: seq<int>, smallmap: binmap, treemap: binmap,
    dv: int, dvsize: int, top: int, topsize: int, base: int,
    ch: Chunks, sn: Smalls, tn: Nodes)
  {
    function End(): int { top + topsize }
  }

  ghost predicate IsFree(ch: Chunks, p: int) { p in ch && !ch[p].inuse }

  /** p is in a bin, with the size it has in the layout. */
  ghost predicate InSmall(s: State, p: int) {
    p in s.sn && IsFree(s.ch, p) && s.ch[p].size == s.sn[p].size && p != s.top && p != s.dv
  }

  ghost predicate InLarge(s: State, p: int) {
    p in s.tn && IsFree(s.ch, p) && s.ch[p].size == s.tn[p].size && p != s.top && p != s.dv
  }

  ghost predicate IsLoose(s: State, p: int) {
    IsFree(s.ch, p) && p != s.top && p != s.dv && p !in s.sn && p !in s.tn
  }

  ghost predicate Somewhere(s: State, loose: set<int>, p: int) {
    IsFree(s.ch, p) ==> p == s.top || p == s.dv || p in s.sn || p in s.tn || p in loose
  }

  /**
    Every free chunk is exactly one of: top, dv, in a small bin, in a tree bin, or loose.
    Loose chunks exist only in the middle of an operation.
   */
  ghost predicate Binned(s: State, loose: set<int>) {
    && IsFree(s.ch, s.top) && s.ch[s.top].size == s.topsize
    && (s.dv == 0 <==> s.dvsize == 0)
    && (s.dv != 0 ==> IsFree(s.ch, s.dv) && s.ch[s.dv].size == s.dvsize && s.dv != s.top)
    && (forall p {:trigger InSmall(s, p)} :: p in s.sn ==> InSmall(s, p))
    && (forall p {:trigger InLarge(s, p)} :: p in s.tn ==> InLarge(s, p))
    && (forall p {:trigger IsLoose(s, p)} :: p in loose ==> IsLoose(s, p))
    && (forall p {:trigger Somewhere(s, loose, p)} :: Somewhere(s, loose, p))
  }

  /** The segment is [base, |m|): the chunks tile it up to the top foot. */
  ghost predicate Framed(s: State) {
    && Laid(s.ch, s.base, s.End())
    && Tagged(s.m, s.ch, s.base, s.End())
    && |s.m| == s.End() + TOP_FOOT_SIZE <= MEMORY_LIMIT
    && W(s.m, s.End() + HEAD) == TOP_FOOT_SIZE
  }

  ghost predicate Ok(s: State, loose: set<int>) {
    && Framed(s) && Binned(s, loose)
    && TreeOk(s.m, s.tn, s.treemap) && SmallOk(s.m, s.sn, s.smallmap)
  }

  // ---------- Writes to the links of free chunks ----------

  ghost predicate InLinks(ch: Chunks, N: set<int>, k: int) {
    exists q {:trigger q in N} :: q in N && q in ch && q + FD <= k < q + ch[q].size
  }

  /** Only link words of the chunks in N, and malloc_state words from lo to hi, are written. */
  ghost predicate AreaWrites(m: seq<int>, m': seq<int>, ch: Chunks, N: set<int>, lo: int, hi: int) {
    && |m'| == |m|
    && forall k {:trigger W(m', k)} :: W(m', k) == W(m, k) || lo <= k < hi || InLinks(ch, N, k)
  }

  /** A word of a chunk that is not in N is not written. */
  lemma NotWritten(m: seq<int>, m': seq<int>, ch: Chunks, base: int, end: int, N: set<int>, lo: int, hi: int, p: int, k: int)
    requires Laid(ch, base, end) && AreaWrites(m, m', ch, N, lo, hi)
    requires p in ch && p !in N && p <= k < p + ch[p].size + FD && hi <= GM_END
    ensures W(m', k) == W(m, k)
  {
    hide W, ChunkOk;
    LoIsPlaced(ch, base, end, p);
    forall q {:trigger q in N} | q in N && q in ch
      ensures !(q + FD <= k < q + ch[q].size)
    {
      assert Apart(ch, p, q) && Apart(ch, q, p);
    }
  }

  /** The two tag words of any chunk are not links. */
  lemma TagsNotWritten(m: seq<int>, m': seq<int>, ch: Chunks, base: int, end: int, N: set<int>, lo: int, hi: int, p: int)
    requires Laid(ch, base, end) && AreaWrites(m, m', ch, N, lo, hi) && p in ch && hi <= GM_END
    ensures W(m', p) == W(m, p) && W(m', p + HEAD) == W(m, p + HEAD)
  {
    hide W, ChunkOk;
    LoIsPlaced(ch, base, end, p);
    forall q {:trigger q in N} | q in N && q in ch
      ensures !(q + FD <= p < q + ch[q].size) && !(q + FD <= p + HEAD < q + ch[q].size)
    {
      assert Apart(ch, p, q) && Apart(ch, q, p);
      LoIsPlaced(ch, base, end, q);
    }
  }

  lemma AreaLength(m: seq<int>, m': seq<int>, ch: Chunks, N: set<int>, lo: int, hi: int)
    requires AreaWrites(m, m', ch, N, lo, hi)
    ensures |m'| == |m|
  {
  }

  lemma AreaKeepsTags(m: seq<int>, m': seq<int>, ch: Chunks, base: int, end: int, N: set<int>, lo: int, hi: int)
    requires Laid(ch, base, end) && Tagged(m, ch, base, end) && AreaWrites(m, m', ch, N, lo, hi) && hi <= GM_END
    ensures Tagged(m', ch, base, end)
  {
    hide W, ChunkOk, Apart, AreaWrites, HeadWord, PrevInuse;
    assert |m'| == |m| by { AreaLength(m, m', ch, N, lo, hi); }
    forall p {:trigger TagOk(m', ch, base, end, p)} | p in ch
      ensures TagOk(m', ch, base, end, p)
    {
      assert TagOk(m, ch, base, end, p);
      TagsNotWritten(m, m', ch, base, end, N, lo, hi, p);
      LoIsPlaced(ch, base, end, p);
      if p + ch[p].size != end {
        TagsNotWritten(m, m', ch, base, end, N, lo, hi, p + ch[p].size);
      }
    }
  }

  /** Writes elsewhere keep the tree bins. */
  lemma AreaKeepsTree(s: State, m': seq<int>, N: set<int>, lo: int, hi: int)
    requires Laid(s.ch, s.base, s.End()) && TreeOk(s.m, s.tn, s.treemap)
    requires forall p {:trigger p in s.tn} :: p in s.tn ==> p in s.ch && s.ch[p].size == s.tn[p].size && p !in N
    requires AreaWrites(s.m, m', s.ch, N, lo, hi) && hi <= TREE_ROOTS
    requires forall q {:trigger q in N} :: q in N ==> q in s.ch
    ensures TreeOk(m', s.tn, s.treemap)
  {
    hide Path, Dir, TreeIndex, Marked, W, OnRing, UnderParent, OverChild, ChunkOk, Apart, AreaWrites;
    AreaLength(s.m, m', s.ch, N, lo, hi);
    forall p {:trigger s.tn[p]} | p in s.tn
      ensures SameNode(s.m, m', p) && p + s.tn[p].size <= |m'|
    {
      assert NodeOk(s.m, s.tn, p);
      forall k | k == p + HEAD || k == p + FD || k == p + BK || k == p + CHILD || k == p + CHILD + 8 || k == p + PARENT || k == p + INDEX
        ensures W(m', k) == W(s.m, k)
      {
        NotWritten(s.m, m', s.ch, s.base, s.End(), N, lo, hi, p, k);
      }
    }
    RootsNotWritten(s, m', N, lo, hi);
    KeepTree(s.m, m', s.tn, s.treemap);
  }

  lemma RootsNotWritten(s: State, m': seq<int>, N: set<int>, lo: int, hi: int)
    requires Laid(s.ch, s.base, s.End())
    requires AreaWrites(s.m, m', s.ch, N, lo, hi) && hi <= TREE_ROOTS
    requires forall q {:trigger q in N} :: q in N ==> q in s.ch
    ensures forall i: nat {:trigger Root(m', i)} :: i < TREE_BINS ==> Root(m', i) == Root(s.m, i)
  {
    hide W, ChunkOk, Apart;
    forall i: nat, q {:trigger Root(m', i), q in N} | i < TREE_BINS && q in N
      ensures !(q + FD <= TreeBinAt(i))
    {
      LoIsPlaced(s.ch, s.base, s.End(), q);
    }
  }

  /** A tree none of whose words changed. */
  lemma KeepTree(m: seq<int>, m': seq<int>, t: Nodes, tm: binmap)
    requires TreeOk(m, t, tm) && GM_END <= |m'|
    requires forall p {:trigger t[p]} :: p in t ==> SameNode(m, m', p) && p + t[p].size <= |m'|
    requires forall i: nat {:trigger Root(m', i)} :: i < TREE_BINS ==> Root(m', i) == Root(m, i)
    ensures TreeOk(m', t, tm)
  {
    hide Path, Dir, TreeIndex, Marked, W, Child, OnRing, OverChild, Root, TreeBinAt, PairOk, SameNode;
    forall p {:trigger NodeOk(m', t, p)} | p in t
      ensures NodeOk(m', t, p)
    {
      assert NodeOk(m, t, p);
      KeepNode(m, t, m', t, p);
    }
    forall i: nat {:trigger RootOk(m', t, tm, i)} | i < TREE_BINS
      ensures RootOk(m', t, tm, i)
    {
      assert RootOk(m, t, tm, i);
    }
  }

  /** Small bins none of whose words changed. */
  lemma KeepSmall(m: seq<int>, m': seq<int>, sn: Smalls, sm: binmap)
    requires SmallOk(m, sn, sm) && GM_END <= |m'|
    requires forall p {:trigger sn[p]} :: p in sn ==>
               p + sn[p].size <= |m'| && W(m', p + HEAD) == W(m, p + HEAD)
               && W(m', p + FD) == W(m, p + FD) && W(m', p + BK) == W(m, p + BK)
    requires forall i: nat {:trigger SmallBinAt(i)} :: i < SMALL_BIN_COUNT ==>
               W(m', SmallBinAt(i) + FD) == W(m, SmallBinAt(i) + FD) && W(m', SmallBinAt(i) + BK) == W(m, SmallBinAt(i) + BK)
    ensures SmallOk(m', sn, sm)
  {
    hide W, Marked, ChunkSize, SmallBinAt, IsSmallSize, RankOf, SmallApart;
    forall p {:trigger SmallNodeOk(m', sn, sm, p)} | p in sn
      ensures SmallNodeOk(m', sn, sm, p)
    {
      assert SmallNodeOk(m, sn, sm, p);
      SizeOfSmall(m, sn, sm, p);
    }
    forall i: nat {:trigger HeaderOk(m', sn, sm, i)} | i < SMALL_BIN_COUNT
      ensures HeaderOk(m', sn, sm, i)
    {
      assert HeaderOk(m, sn, sm, i);
    }
  }

  /** Writes elsewhere keep the small bins. */
  lemma AreaKeepsSmall(s: State, m': seq<int>, N: set<int>, lo: int, hi: int)
    requires Laid(s.ch, s.base, s.End()) && SmallOk(s.m, s.sn, s.smallmap)
    requires forall p {:trigger p in s.sn} :: p in s.sn ==> p in s.ch && s.ch[p].size == s.sn[p].size && p !in N
    requires AreaWrites(s.m, m', s.ch, N, lo, hi) && TREE_ROOTS <= lo && hi <= GM_END
    requires forall q {:trigger q in N} :: q in N ==> q in s.ch
    ensures SmallOk(m', s.sn, s.smallmap)
  {
    hide W, Marked, ChunkSize, Listed, HeaderOk, SmallApart, ChunkOk, Apart, AreaWrites;
    AreaLength(s.m, m', s.ch, N, lo, hi);
    forall p {:trigger s.sn[p]} | p in s.sn
      ensures p + s.sn[p].size <= |m'| && W(m', p + HEAD) == W(s.m, p + HEAD)
        && W(m', p + FD) == W(s.m, p + FD) && W(m', p + BK) == W(s.m, p + BK)
    {
      assert SmallNodeOk(s.m, s.sn, s.smallmap, p);
      NotWritten(s.m, m', s.ch, s.base, s.End(), N, lo, hi, p, p + HEAD);
      NotWritten(s.m, m', s.ch, s.base, s.End(), N, lo, hi, p, p + FD);
      NotWritten(s.m, m', s.ch, s.base, s.End(), N, lo, hi, p, p + BK);
    }
    HeadersNotWritten(s, m', N, lo, hi);
    KeepSmall(s.m, m', s.sn, s.smallmap);
  }

  lemma HeadersNotWritten(s: State, m': seq<int>, N: set<int>, lo: int, hi: int)
    requires Laid(s.ch, s.base, s.End())
    requires AreaWrites(s.m, m', s.ch, N, lo, hi) && TREE_ROOTS <= lo
    requires forall q {:trigger q in N} :: q in N ==> q in s.ch
    ensures forall i: nat {:trigger SmallBinAt(i)} :: i < SMALL_BIN_COUNT ==>
              W(m', SmallBinAt(i) + FD) == W(s.m, SmallBinAt(i) + FD) && W(m', SmallBinAt(i) + BK) == W(s.m, SmallBinAt(i) + BK)
  {
    hide W, ChunkOk, Apart;
    forall i: nat, q {:trigger SmallBinAt(i), q in N} | i < SMALL_BIN_COUNT && q in N
      ensures !(q + FD <= SmallBinAt(i) + BK)
    {
      LoIsPlaced(s.ch, s.base, s.End(), q);
    }
  }

  // ---------- Moving one chunk into or out of the bins ----------

  ghost function FreeSet(ch: Chunks): set<int> { set p | p in ch && !ch[p].inuse }

  /** Only links of free chunks and words of malloc_state are written. */
  ghost predicate LinkWrites(s: State, m': seq<int>) {
    AreaWrites(s.m, m', s.ch, FreeSet(s.ch), 0, GM_END)
  }

  /** Nothing but bins and links differs between the two states. */
  ghost predicate SameLayout(s: State, s': State) {
    && s'.ch == s.ch && s'.base == s.base && s'.top == s.top && s'.topsize == s.topsize
    && s'.dv == s.dv && s'.dvsize == s.dvsize
  }

  lemma LinkFrame(s: State, loose: set<int>, s': State, N: set<int>, lo: int, hi: int)
    requires Framed(s) && SameLayout(s, s')
    requires AreaWrites(s.m, s'.m, s.ch, N, lo, hi) && 0 <= lo && hi <= GM_END
    requires forall q {:trigger q in N} :: q in N ==> IsFree(s.ch, q)
    ensures Framed(s') && LinkWrites(s, s'.m)
  {
    hide W, ChunkOk, Apart, TagOk;
    AreaKeepsTags(s.m, s'.m, s.ch, s.base, s.End(), N, lo, hi);
    TopFootNotWritten(s, s'.m, N, lo, hi);
    AreaWiden(s.m, s'.m, s.ch, N, lo, hi);
  }

  lemma TopFootNotWritten(s: State, m': seq<int>, N: set<int>, lo: int, hi: int)
    requires Laid(s.ch, s.base, s.End())
    requires AreaWrites(s.m, m', s.ch, N, lo, hi) && hi <= GM_END
    ensures W(m', s.End() + HEAD) == W(s.m, s.End() + HEAD)
  {
    hide W;
    forall q {:trigger q in N} | q in N && q in s.ch
      ensures q + s.ch[q].size <= s.End()
    {
      LoIsPlaced(s.ch, s.base, s.End(), q);
    }
    LoIsPlaced(s.ch, s.base, s.End(), s.base);
  }

  lemma AreaWiden(m: seq<int>, m': seq<int>, ch: Chunks, N: set<int>, lo: int, hi: int)
    requires AreaWrites(m, m', ch, N, lo, hi) && 0 <= lo && hi <= GM_END
    requires forall q {:trigger q in N} :: q in N ==> IsFree(ch, q)
    ensures AreaWrites(m, m', ch, FreeSet(ch), 0, GM_END)
  {
    hide W;
    forall k {:trigger W(m', k)} | InLinks(ch, N, k)
      ensures InLinks(ch, FreeSet(ch), k)
    {
      var q :| q in N && q in ch && q + FD <= k < q + ch[q].size;
      assert q in FreeSet(ch);
    }
  }

  const ROOTS_END := TREE_ROOTS + 8 * 32

  lemma TreeGrew(s: State, loose: set<int>, x: int, n: Node, s': State)
    requires Ok(s, loose) && x in loose && x in s.ch && s.ch[x].size == n.size
    requires s' == s.(m := s'.m, treemap := s'.treemap, tn := s.tn[x := n])
    requires TreeOk(s'.m, s'.tn, s'.treemap)
    requires AreaWrites(s.m, s'.m, s.ch, s.tn.Keys + {x}, TREE_ROOTS, ROOTS_END)
    ensures Ok(s', loose - {x}) && LinkWrites(s, s'.m)
  {
    hide AreaWrites, TreeOk, Framed, SmallOk, Tagged;
    BinSets(s, loose);
    LinkFrame(s, loose, s', s.tn.Keys + {x}, TREE_ROOTS, ROOTS_END);
    AreaKeepsSmall(s, s'.m, s.tn.Keys + {x}, TREE_ROOTS, ROOTS_END);
    Rebinned(s, loose, s', loose - {x}, x);
  }

  /** The bins are disjoint sets of free chunks of the layout. */
  lemma BinSets(s: State, loose: set<int>)
    requires Ok(s, loose)
    ensures Framed(s) && Laid(s.ch, s.base, s.End())
    ensures forall p {:trigger p in s.sn} :: p in s.sn ==>
              IsFree(s.ch, p) && s.ch[p].size == s.sn[p].size && p !in loose && p !in s.tn && s.sn[p].size < MIN_LARGE_SIZE
    ensures forall p {:trigger p in s.tn} :: p in s.tn ==>
              IsFree(s.ch, p) && s.ch[p].size == s.tn[p].size && p !in loose && p !in s.sn && s.tn[p].size >= MIN_LARGE_SIZE
    ensures forall p {:trigger p in loose} :: p in loose ==> IsLoose(s, p)
  {
    hide Laid, Tagged, W, OnRing, UnderParent, OverChild, Listed, HeaderOk, RootOk, PairOk, SmallApart;
    forall p {:trigger p in s.sn} | p in s.sn
      ensures IsFree(s.ch, p) && s.ch[p].size == s.sn[p].size && s.sn[p].size < MIN_LARGE_SIZE && p !in loose
    {
      SizeOfSmall(s.m, s.sn, s.smallmap, p);
      assert InSmall(s, p) && (p in loose ==> IsLoose(s, p));
    }
    forall p {:trigger p in s.tn} | p in s.tn
      ensures IsFree(s.ch, p) && s.ch[p].size == s.tn[p].size && s.tn[p].size >= MIN_LARGE_SIZE && p !in loose
    {
      assert NodeOk(s.m, s.tn, p);
      assert InLarge(s, p) && (p in loose ==> IsLoose(s, p));
    }
    forall p {:trigger p in loose} | p in loose
      ensures IsLoose(s, p)
    {
    }
  }

  /** Chunks outside the bins may move between loose and a bin. */
  lemma Rebinned(s: State, loose: set<int>, s': State, loose': set<int>, x: int)
    requires Binned(s, loose) && SameLayout(s, s')
    requires x in s.ch && IsFree(s.ch, x) && x != s.top && x != s.dv
    requires forall p {:trigger p in s'.sn} :: p != x ==> (p in s'.sn <==> p in s.sn) && (p in s.sn ==> s'.sn[p].size == s.sn[p].size)
    requires forall p {:trigger p in s'.tn} :: p != x ==> (p in s'.tn <==> p in s.tn) && (p in s.tn ==> s'.tn[p].size == s.tn[p].size)
    requires forall p {:trigger p in loose'} :: p != x ==> (p in loose' <==> p in loose)
    requires x in s'.sn ==> s'.sn[x].size == s.ch[x].size && x !in loose'
    requires x in s'.tn ==> s'.tn[x].size == s.ch[x].size && x !in loose'
    requires x in s'.sn || x in s'.tn || x in loose'
    ensures Binned(s', loose')
  {
    forall p {:trigger InSmall(s', p)} | p in s'.sn
      ensures InSmall(s', p)
    {
      assert p != x ==> InSmall(s, p);
    }
    forall p {:trigger InLarge(s', p)} | p in s'.tn
      ensures InLarge(s', p)
    {
      assert p != x ==> InLarge(s, p);
    }
    forall p {:trigger IsLoose(s', p)} | p in loose'
      ensures IsLoose(s', p)
    {
      assert p != x ==> IsLoose(s, p);
      assert p in s'.sn ==> p != x;
      assert p in s'.tn ==> p != x;
    }
    forall p {:trigger Somewhere(s', loose', p)}
      ensures Somewhere(s', loose', p)
    {
      assert Somewhere(s, loose, p);
      assert p in s.sn && p != x ==> p in s'.sn;
      assert p in s.tn && p != x ==> p in s'.tn;
    }
  }

  lemma TreeShrank(s: State, loose: set<int>, x: int, s': State)
    requires Ok(s, loose) && x in s.tn
    requires s' == s.(m := s'.m, treemap := s'.treemap, tn := s'.tn)
    requires s'.tn.Keys == s.tn.Keys - {x}
    requires forall p {:trigger s'.tn[p]} :: p in s'.tn ==> s'.tn[p].size == s.tn[p].size
    requires TreeOk(s'.m, s'.tn, s'.treemap)
    requires AreaWrites(s.m, s'.m, s.ch, s.tn.Keys, TREE_ROOTS, ROOTS_END)
    ensures Ok(s', loose + {x}) && LinkWrites(s, s'.m)
  {
    hide AreaWrites, TreeOk, Framed, SmallOk, Tagged;
    BinSets(s, loose);
    LinkFrame(s, loose, s', s.tn.Keys, TREE_ROOTS, ROOTS_END);
    AreaKeepsSmall(s, s'.m, s.tn.Keys, TREE_ROOTS, ROOTS_END);
    assert InLarge(s, x);
    Rebinned(s, loose, s', loose + {x}, x);
  }

  lemma SmallGrew(s: State, loose: set<int>, x: int, n: Small, s': State)
    requires Ok(s, loose) && x in loose && x in s.ch && s.ch[x].size == n.size
    requires s' == s.(m := s'.m, smallmap := s'.smallmap, sn := s.sn[x := n])
    requires SmallOk(s'.m, s'.sn, s'.smallmap)
    requires AreaWrites(s.m, s'.m, s.ch, s.sn.Keys + {x}, SMALL_BINS, TREE_ROOTS)
    ensures Ok(s', loose - {x}) && LinkWrites(s, s'.m)
  {
    hide AreaWrites, SmallOk, Framed, TreeOk, Tagged;
    BinSets(s, loose);
    LinkFrame(s, loose, s', s.sn.Keys + {x}, SMALL_BINS, TREE_ROOTS);
    AreaKeepsTree(s, s'.m, s.sn.Keys + {x}, SMALL_BINS, TREE_ROOTS);
    Rebinned(s, loose, s', loose - {x}, x);
  }

  lemma SmallShrank(s: State, loose: set<int>, x: int, s': State)
    requires Ok(s, loose) && x in s.sn
    requires s' == s.(m := s'.m, smallmap := s'.smallmap, sn := SmallMinus(s.sn, x))
    requires SmallOk(s'.m, s'.sn, s'.smallmap)
    requires AreaWrites(s.m, s'.m, s.ch, s.sn.Keys, SMALL_BINS, TREE_ROOTS)
    ensures Ok(s', loose + {x}) && LinkWrites(s, s'.m)
  {
    hide AreaWrites, SmallOk, Framed, TreeOk, Tagged;
    BinSets(s, loose);
    LinkFrame(s, loose, s', s.sn.Keys, SMALL_BINS, TREE_ROOTS);
    AreaKeepsTree(s, s'.m, s.sn.Keys, SMALL_BINS, TREE_ROOTS);
    assert InSmall(s, x);
    Rebinned(s, loose, s', loose + {x}, x);
  }
}

/**
  Giving a chunk back: it is merged with its free neighbours, which dlfree and dispose_chunk
  both do.
 */
module Merging {
  import opened Memory
  import opened TreeBins
  import opened SmallBins
  import opened Layout
  import opened Heap
  import opened BinStores
  import opened Carving
  import opened ChunkMoves

  /** The run that becomes one free chunk when c is given back. */
  ghost function MergeLo(ch: Chunks, base: int, c: int): int
    requires c in ch
  {
    if PrevInuse(ch, base, c) then c else ch[c].prev
  }

  ghost function MergeHi(ch: Chunks, c: int): int
    requires c in ch
  {
    var n := c + ch[c].size;
    if n in ch && !ch[n].inuse then n + ch[n].size else n
  }

  /** Its free chunks, apart from top. */
  ghost function MergeLoose(ch: Chunks, base: int, top: int, c: int): set<int>
    requires c in ch
  {
    var lo, n := MergeLo(ch, base, c), c + ch[c].size;
    (if lo < c then {lo} else {}) + (if n in ch && !ch[n].inuse && n != top then {n} else {})
  }

  /** The designated victim after c is given back: it stays, or grows into the run it is part of, or goes into top with it. */
  ghost predicate DvAfterFree(s: State, c: int, dv: int, dvsize: int)
    requires c in s.ch
  {
    if s.dv !in MergeLoose(s.ch, s.base, s.top, c) then dv == s.dv && dvsize == s.dvsize
    else if c + s.ch[c].size == s.top then dv == 0 && dvsize == 0
    else dv == MergeLo(s.ch, s.base, c) && dvsize == MergeHi(s.ch, c) - dv
  }

  /** If c is merged into a small chunk that is neither top nor the victim, that is the first of its bin. */
  ghost predicate BinnedFirst(s: State, c: int, s': State)
    requires c in s.ch
  {
    var size := MergeHi(s.ch, c) - MergeLo(s.ch, s.base, c);
    s.dv !in MergeLoose(s.ch, s.base, s.top, c) && c + s.ch[c].size != s.top && size < 256 ==>
      FirstInBin(s', MergeLo(s.ch, s.base, c)) && s'.sn[MergeLo(s.ch, s.base, c)].size == size
  }

  /** Around a chunk in use. */
  lemma MergeRun(s: State, loose: set<int>, c: int)
    requires Ok(s, loose) && Coalesced(s.ch) && c in s.ch && s.ch[c].inuse
    ensures var lo, n, hi := MergeLo(s.ch, s.base, c), c + s.ch[c].size, MergeHi(s.ch, c);
            && n in s.ch && lo in s.ch && GM_END <= lo <= c && c + 32 <= n <= hi && hi + 32 <= |s.m|
            && lo % 16 == 0 && n % 16 == 0 && hi % 16 == 0
            && (lo < c ==> s.ch[lo].size == c - lo && !s.ch[lo].inuse && c - lo >= 32)
            && (n < hi ==> !s.ch[n].inuse && s.ch[n].size == hi - n) && (n == hi ==> s.ch[n].inuse)
            && PrevInuse(s.ch, s.base, lo)
            && (hi == s.End() <==> n == s.top) && (n == s.top ==> n < hi) && (hi != s.End() ==> hi in s.ch && s.ch[hi].inuse)
            && MergeTags(s, c)
  {
    hide TreeOk, SmallOk, W, HeadWord, Coalesced, Laid, Tagged, PrevInuse, ChunkSize, SetPinuse, ClearPinuse, Cinuse, Pinuse, MergeTags;
    var n := c + s.ch[c].size;
    ChunkTag(s, loose, c);
    TopIsLast(s, loose, c);
    LoIsPlaced(s.ch, s.base, s.End(), c);
    LoIsPlaced(s.ch, s.base, s.End(), n);
    TopIsLast(s, loose, n);
    TopRun(s, loose);
    if !s.ch[n].inuse {
      NeighboursInUse(s.ch, s.base, s.End(), n);
    }
    MergeBack(s, loose, c);
    TagsAround(s, loose, c);
  }

  /** The tags on both sides of a chunk in use. */
  ghost predicate MergeTags(s: State, c: int)
    requires c in s.ch && c + s.ch[c].size in s.ch
  {
    var lo, n, hi := MergeLo(s.ch, s.base, c), c + s.ch[c].size, MergeHi(s.ch, c);
    && Pinuse(W(s.m, c + HEAD)) == (lo == c)
    && (lo < c ==> W(s.m, c) == c - lo)
    && Cinuse(W(s.m, n + HEAD)) == (n == hi) && Pinuse(W(s.m, n + HEAD))
    && ChunkSize(W(s.m, n + HEAD)) == s.ch[n].size && ChunkSize(W(s.m, c + HEAD)) == s.ch[c].size
  }

  lemma TagsAround(s: State, loose: set<int>, c: int)
    requires Ok(s, loose) && Coalesced(s.ch) && c in s.ch && s.ch[c].inuse
    ensures c + s.ch[c].size in s.ch && MergeTags(s, c)
  {
    hide TreeOk, SmallOk, W, HeadWord, Coalesced, Laid, Tagged, PrevInuse, ChunkSize, SetPinuse, ClearPinuse, Cinuse, Pinuse;
    var n := c + s.ch[c].size;
    ChunkTag(s, loose, c);
    TopIsLast(s, loose, c);
    LoIsPlaced(s.ch, s.base, s.End(), c);
    PrevOf(s.ch, s.base, s.End(), c);
    ChunkTag(s, loose, n);
    LoIsPlaced(s.ch, s.base, s.End(), n);
    MergeBack(s, loose, c);
  }

  lemma MergeBack(s: State, loose: set<int>, c: int)
    requires Ok(s, loose) && Coalesced(s.ch) && c in s.ch && s.ch[c].inuse
    ensures var lo := MergeLo(s.ch, s.base, c);
            && lo in s.ch && GM_END <= lo <= c && lo % 16 == 0 && PrevInuse(s.ch, s.base, lo)
            && PrevInuse(s.ch, s.base, c) == (lo == c)
            && (lo < c ==> s.ch[lo].size == c - lo && !s.ch[lo].inuse && c - lo >= 32 && W(s.m, c) == c - lo)
  {
    hide TreeOk, SmallOk, W, HeadWord, Coalesced, Laid, ChunkSize, SetPinuse, ClearPinuse, Cinuse, Pinuse;
    ChunkTag(s, loose, c);
    LoIsPlaced(s.ch, s.base, s.End(), c);
    if !PrevInuse(s.ch, s.base, c) {
      PrevIsPlaced(s.ch, s.base, s.End(), c);
      var lo := s.ch[c].prev;
      LoIsPlaced(s.ch, s.base, s.End(), lo);
      NeighboursInUse(s.ch, s.base, s.End(), lo);
      assert TagOk(s.m, s.ch, s.base, s.End(), lo);
    }
  }

  /** Nothing else lies in the run. */
  lemma MergeMembers(s: State, loose: set<int>, c: int, q: int)
    requires Ok(s, loose) && Coalesced(s.ch) && c in s.ch && s.ch[c].inuse && q in s.ch
    requires MergeLo(s.ch, s.base, c) <= q < MergeHi(s.ch, c)
    ensures q == c || q in MergeLoose(s.ch, s.base, s.top, c) || (q == s.top && MergeHi(s.ch, c) == s.End())
  {
    hide TreeOk, SmallOk, W, Coalesced, Laid, Tagged, PrevInuse, MergeHi, MergeLo;
    MergeRun(s, loose, c);
    var lo, n := MergeLo(s.ch, s.base, c), c + s.ch[c].size;
    if q < c {
      OnlyChunk(s.ch, s.base, s.End(), lo, q);
    } else if q < n {
      OnlyChunk(s.ch, s.base, s.End(), c, q);
    } else {
      OnlyChunk(s.ch, s.base, s.End(), n, q);
    }
  }

  /** If the designated victim is about to be merged, it is a loose chunk from now on. */
  ghost function Bare(s: State, c: int): State
    requires c in s.ch
  {
    if s.dv in MergeLoose(s.ch, s.base, s.top, c) then s.(dv := 0, dvsize := 0) else s
  }

  lemma BareOk(s: State, c: int)
    requires c in s.ch && s.ch[c].inuse && Coalesced(s.ch)
    requires Ok(s, MergeLoose(s.ch, s.base, s.top, c) - {s.dv})
    ensures Ok(Bare(s, c), MergeLoose(s.ch, s.base, s.top, c))
    ensures !(MergeLo(s.ch, s.base, c) <= Bare(s, c).dv < MergeHi(s.ch, c))
    ensures s.dv == 0 ==> s.dv !in MergeLoose(s.ch, s.base, s.top, c)
  {
    hide Ok, Coalesced, MergeHi, MergeLo, MergeLoose;
    var X := MergeLoose(s.ch, s.base, s.top, c);
    MergeRun(s, X - {s.dv}, c);
    NoDv(s, X - {s.dv});
    if s.dv != 0 {
      DvLoose(s, X - {s.dv});
      if s.dv in X { assert X - {s.dv} + {s.dv} == X; } else { assert X - {s.dv} == X; }
    } else {
      LooseMembers(s, X - {s.dv}, c);
      assert X - {s.dv} == X;
    }
    if Bare(s, c).dv in s.ch && MergeLo(s.ch, s.base, c) <= Bare(s, c).dv < MergeHi(s.ch, c) {
      MergeMembers(s, X - {s.dv}, c, Bare(s, c).dv);
    }
  }

  lemma LooseMembers(s: State, loose: set<int>, c: int)
    requires Ok(s, loose) && Coalesced(s.ch) && c in s.ch && s.ch[c].inuse
    ensures forall q :: q in MergeLoose(s.ch, s.base, s.top, c) ==>
              q in s.ch && !s.ch[q].inuse && q > 0 && MergeLo(s.ch, s.base, c) <= q < MergeHi(s.ch, c)
    ensures var lo := MergeLo(s.ch, s.base, c); lo < c ==> lo in MergeLoose(s.ch, s.base, s.top, c)
  {
    hide Ok, Coalesced, MergeHi, MergeLo;
    MergeRun(s, loose, c);
  }

  lemma MergeCarvable(s: State, c: int)
    requires c in s.ch && s.ch[c].inuse && Coalesced(s.ch)
    requires Ok(s, MergeLoose(s.ch, s.base, s.top, c))
    requires !(MergeLo(s.ch, s.base, c) <= s.dv < MergeHi(s.ch, c))
    ensures var lo, hi := MergeLo(s.ch, s.base, c), MergeHi(s.ch, c); Carvable(s, MergeLoose(s.ch, s.base, s.top, c), lo, hi, hi, false, false)
  {
    hide TreeOk, SmallOk, W, HeadWord, Coalesced, Binned, Tagged, Laid, MergeHi, MergeLo, MergeLoose;
    var X := MergeLoose(s.ch, s.base, s.top, c);
    MergeRun(s, X, c);
    var lo, hi := MergeLo(s.ch, s.base, c), MergeHi(s.ch, c);
    assert Run(s.ch, s.base, s.End(), lo, hi, hi);
    forall q {:trigger s.ch[q]} | q in s.ch && lo <= q < hi ensures s.ch[q].inuse || q in X || q == s.top {
      MergeMembers(s, X, c, q);
    }
  }

  /** What giving back c does to the blocks. */
  ghost predicate GivenBack(ch: Chunks, m: seq<int>, ch': Chunks, m': seq<int>, c: int) {
    && Blocks(ch') == Blocks(ch) - {c}
    && Untouched(Blocks(ch'), m, m')
  }

  /** The merged run is one free chunk: top if it reaches the end, loose otherwise. */
  lemma MergeMove(s: State, c: int, lo: int, hi: int, m': seq<int>)
    requires c in s.ch && s.ch[c].inuse && Coalesced(s.ch)
    requires Ok(s, MergeLoose(s.ch, s.base, s.top, c))
    requires lo == MergeLo(s.ch, s.base, c) && hi == MergeHi(s.ch, c) && !(lo <= s.dv < hi)
    requires lo in s.ch && TagsWritten(s, lo, hi, hi, false, false, m') && lo < hi
    ensures var s' := Recarved(s, lo, hi, hi, false, false, m');
            && Ok(s', if hi == s.End() then {} else {lo}) && Coalesced(s'.ch) && s'.End() == s.End()
            && lo in s'.ch && s'.ch[lo].size == hi - lo
            && GivenBack(s.ch, s.m, s'.ch, m', c)
  {
    hide Ok, Coalesced, Carvable, TagsWritten, Carve, Untouched, PrevInuse, MergeHi, MergeLo, MergeLoose;
    var X := MergeLoose(s.ch, s.base, s.top, c);
    MergeRun(s, X, c);
    MergeCarvable(s, c);
    CarveOk(s, X, lo, hi, hi, false, false, m');
    LooseMembers(s, X, c);
    assert Loosened(s, X, lo, hi, hi, false, false) == if hi == s.End() then {} else {lo};
    CarvableRun(s, X, lo, hi, hi, false, false);
    EndIsNoChunk(s, X);
    PrevOfLo(s, lo);
    CarveCoalesced(s.ch, s.base, s.End(), lo, hi, hi, false, false);
    CarveOutside(s.ch, lo, hi, hi, false, false);
    MergeBlocks(s, c, lo, hi, m');
  }

  lemma PrevOfLo(s: State, lo: int)
    requires lo in s.ch && PrevInuse(s.ch, s.base, lo)
    ensures lo != s.base ==> s.ch[lo].prev in s.ch && s.ch[s.ch[lo].prev].inuse
  {
  }

  lemma MergeBlocks(s: State, c: int, lo: int, hi: int, m': seq<int>)
    requires c in s.ch && s.ch[c].inuse && Coalesced(s.ch)
    requires Ok(s, MergeLoose(s.ch, s.base, s.top, c))
    requires lo == MergeLo(s.ch, s.base, c) && hi == MergeHi(s.ch, c) && !(lo <= s.dv < hi)
    requires lo in s.ch && TagsWritten(s, lo, hi, hi, false, false, m') && lo < hi
    ensures GivenBack(s.ch, s.m, Carve(s.ch, lo, hi, hi, false, false), m', c)
  {
    hide Ok, Coalesced, Carvable, TagsWritten, Carve, Untouched, PrevInuse, MergeHi, MergeLo, MergeLoose;
    var X := MergeLoose(s.ch, s.base, s.top, c);
    MergeRun(s, X, c);
    MergeCarvable(s, c);
    CarvableRun(s, X, lo, hi, hi, false, false);
    CarveBlocks(s.ch, s.base, s.End(), lo, hi, hi, false, false);
    LooseMembers(s, X, c);
    TopRun(s, X);
    var B, B' := Blocks(s.ch), Blocks(Carve(s.ch, lo, hi, hi, false, false));
    forall q | q in B && q != c ensures q < lo || hi <= q {
      if lo <= q < hi { MergeMembers(s, X, c, q); }
    }
    assert forall q :: q in B' <==> q in B && q != c;
    assert B' == B - {c};
    CarveLeavesBlocks(s, X, lo, hi, hi, false, false, m', B');
  }

  // ---------- The stores ----------

  /** Merging into top. */
  lemma TopGrowStores(s: State, loose: set<int>, c: int, lo: int, hi: int, m': seq<int>)
    requires Ok(s, loose) && Coalesced(s.ch) && c in s.ch && s.ch[c].inuse
    requires lo == MergeLo(s.ch, s.base, c) && hi == MergeHi(s.ch, c) == s.End()
    requires lo in s.ch && 0 <= lo && lo + 32 <= hi && hi + 32 <= |s.m|
    requires m' == s.m[lo + HEAD := hi - lo + 1]
    ensures TagsWritten(s, lo, hi, hi, false, false, m')
  {
    hide Ok, Coalesced, PrevInuse, MergeLo, MergeHi;
    MergeRun(s, loose, c);
    EndIsNoChunk(s, loose);
    TopRun(s, loose);
  }

  /** set_free_with_pinuse: the chunk after the run is in use. */
  lemma FreeStores(s: State, loose: set<int>, c: int, lo: int, hi: int, m': seq<int>)
    requires Ok(s, loose) && Coalesced(s.ch) && c in s.ch && s.ch[c].inuse
    requires lo == MergeLo(s.ch, s.base, c) && hi == MergeHi(s.ch, c) == c + s.ch[c].size
    requires lo in s.ch && 0 <= lo && lo + 32 <= hi && hi + 32 <= |s.m|
    requires m' == s.m[hi + HEAD := ClearPinuse(s.m[hi + HEAD])][lo + HEAD := hi - lo + 1][hi := hi - lo]
    ensures TagsWritten(s, lo, hi, hi, false, false, m')
  {
    hide Ok, Coalesced, PrevInuse, MergeLo, MergeHi, ClearPinuse;
    MergeRun(s, loose, c);
    ChunkTag(s, loose, hi);
    EndIsNoChunk(s, loose);
  }

  /** set_size_and_pinuse_of_free_chunk: the run ends with a free chunk. */
  lemma GrowStores(s: State, loose: set<int>, c: int, lo: int, hi: int, m': seq<int>)
    requires Ok(s, loose) && Coalesced(s.ch) && c in s.ch && s.ch[c].inuse
    requires lo == MergeLo(s.ch, s.base, c) && c + s.ch[c].size < hi == MergeHi(s.ch, c) != s.End()
    requires lo in s.ch && 0 <= lo && lo + 32 <= hi && hi + 32 <= |s.m|
    requires m' == s.m[lo + HEAD := hi - lo + 1][hi := hi - lo]
    ensures TagsWritten(s, lo, hi, hi, false, false, m')
  {
    hide Ok, Coalesced, PrevInuse, MergeLo, MergeHi, ClearPinuse;
    MergeRun(s, loose, c);
    ChunkTag(s, loose, hi);
    EndIsNoChunk(s, loose);
    LaidOf(s, loose);
    PrevOf(s.ch, s.base, s.End(), c + s.ch[c].size);
  }

  lemma LaidOf(s: State, loose: set<int>)
    requires Ok(s, loose)
    ensures Laid(s.ch, s.base, s.End())
  {
  }
  // ---------- Putting the steps together ----------

  lemma MergeLooseIs(s: State, loose: set<int>, c: int)
    requires Ok(s, loose) && Coalesced(s.ch) && c in s.ch && s.ch[c].inuse
    ensures var lo, n, hi := MergeLo(s.ch, s.base, c), c + s.ch[c].size, MergeHi(s.ch, c);
            MergeLoose(s.ch, s.base, s.top, c)
            == (if lo < c then {lo} else {}) + (if n < hi && n != s.top then {n} else {})
  {
    hide Ok, Coalesced, MergeLo;
    MergeRun(s, loose, c);
  }

  /** Of a chunk r that was cut off the end of a chunk in use. */
  lemma DvAfterCut(s: State, p: int, r: int)
    requires Ok(s, {}) && Coalesced(s.ch) && p in s.ch && s.ch[p].inuse && r == p + s.ch[p].size && r in s.ch && s.ch[r].inuse
    ensures MergeLo(s.ch, s.base, r) == r
    ensures s.dv in MergeLoose(s.ch, s.base, s.top, r) <==> s.dv == r + s.ch[r].size
    ensures s.dv == r + s.ch[r].size ==> s.dv != s.top && MergeHi(s.ch, r) == s.dv + s.dvsize
  {
    hide TreeOk, SmallOk, Binned, Tagged, Coalesced, Laid;
    MergeRun(s, {}, r);
    PrevOf(s.ch, s.base, s.End(), p);
    DvIsFree(s, {});
  }

  /** The chunk after a free one is in use. */
  lemma DvNotAfterFree(s: State, q: int)
    requires Ok(s, {}) && Coalesced(s.ch) && q in s.ch && !s.ch[q].inuse
    ensures s.dv != q + s.ch[q].size
  {
    hide TreeOk, SmallOk, Binned, Tagged, Laid;
    DvIsFree(s, {});
    ChunkTag(s, {}, q);
  }

  /** After the merge of a run that does not reach the end. */
  ghost predicate Merged(s: State, c: int, s': State) {
    && c in s.ch
    && var lo, hi := MergeLo(s.ch, s.base, c), MergeHi(s.ch, c);
    && s' == Bare(s, c).(m := s'.m, ch := s'.ch)
    && Ok(s', {lo}) && Coalesced(s'.ch) && lo in s'.ch && s'.ch[lo].size == hi - lo
    && GivenBack(s.ch, s.m, s'.ch, s'.m, c)
  }

  lemma MergedIs(s: State, c: int, lo: int, hi: int, m': seq<int>)
    requires c in s.ch && s.ch[c].inuse && Coalesced(s.ch)
    requires Ok(s, MergeLoose(s.ch, s.base, s.top, c) - {s.dv})
    requires lo == MergeLo(s.ch, s.base, c) && hi == MergeHi(s.ch, c) && lo in s.ch && lo < hi && hi != s.End()
    requires TagsWritten(Bare(s, c), lo, hi, hi, false, false, m')
    ensures Merged(s, c, Bare(s, c).(m := m', ch := Carve(s.ch, lo, hi, hi, false, false)))
  {
    hide Ok, Coalesced, Carve, TagsWritten, GivenBack, MergeLo, MergeHi, MergeLoose;
    BareOk(s, c);
    MergeMove(Bare(s, c), c, lo, hi, m');
  }

  /** The merged chunk becomes the designated victim. */
  lemma MergedDv(s: State, c: int, s': State, s'': State)
    requires c in s.ch && Merged(s, c, s') && s'.dv == 0
    requires var lo := MergeLo(s.ch, s.base, c); s'' == s'.(dv := lo, dvsize := MergeHi(s.ch, c) - lo)
    ensures Ok(s'', {})
  {
    hide Ok, Coalesced, GivenBack, MergeLo, MergeHi, Bare;
    var lo := MergeLo(s.ch, s.base, c);
    LooseDv(s', {lo}, lo);
    assert {lo} - {lo} == {};
  }

  lemma InSomeBin(s: State, loose: set<int>, p: int)
    requires Ok(s, loose) && IsFree(s.ch, p) && p != s.top && p != s.dv && p !in loose
    ensures p in s.sn || p in s.tn
  {
    hide TreeOk, SmallOk, Framed;
    assert Somewhere(s, loose, p);
  }

  lemma GivenBackAfter(ch: Chunks, m: seq<int>, m1: seq<int>, ch': Chunks, m': seq<int>, c: int)
    requires Untouched(Blocks(ch), m, m1) && GivenBack(ch, m1, ch', m', c)
    ensures GivenBack(ch, m, ch', m', c)
  {
    hide Untouched;
    UntouchedFewer(Blocks(ch), Blocks(ch'), m, m1);
    UntouchedTrans(Blocks(ch'), m, m1, m');
  }

  lemma GivenBackThen(ch: Chunks, m: seq<int>, s: State, loose: set<int>, m': seq<int>, c: int)
    requires GivenBack(ch, m, s.ch, s.m, c) && Ok(s, loose) && LinkWrites(s, m')
    ensures GivenBack(ch, m, s.ch, m', c)
  {
    hide Untouched, Ok, LinkWrites;
    LinksLeaveBlocks(s, loose, m');
    UntouchedTrans(Blocks(s.ch), m, s.m, m');
  }

  lemma MergeLength(s: State, loose: set<int>, c: int)
    requires Ok(s, loose) && Coalesced(s.ch) && c in s.ch && s.ch[c].inuse
    ensures var lo, hi := MergeLo(s.ch, s.base, c), MergeHi(s.ch, c);
            lo in s.ch && 0 < lo && lo + 32 <= hi && hi + 32 <= |s.m|
  {
    MergeRun(s, loose, c);
  }

  lemma MergeEnd(s: State, loose: set<int>, c: int)
    requires Ok(s, loose) && Coalesced(s.ch) && c in s.ch && s.ch[c].inuse
    ensures MergeHi(s.ch, c) == c + s.ch[c].size ==> MergeHi(s.ch, c) != s.End()
  {
    hide Ok, Coalesced, MergeHi, MergeLo;
    MergeRun(s, loose, c);
    TopRun(s, loose);
  }

  lemma MergedBack(s: State, c: int, s': State)
    requires c in s.ch && Merged(s, c, s')
    ensures GivenBack(s.ch, s.m, s'.ch, s'.m, c) && Coalesced(s'.ch) && Ok(s', {MergeLo(s.ch, s.base, c)})
    ensures var lo := MergeLo(s.ch, s.base, c); lo in s'.ch && s'.ch[lo].size == MergeHi(s.ch, c) - lo
  {
  }

  /** The chunk below a chunk in use is not top. */
  lemma FreeIsNotTop(s: State, loose: set<int>, c: int, p: int)
    requires Ok(s, loose) && c in s.ch && p in s.ch && p <= c && s.ch[c].inuse
    ensures p != s.top
  {
    hide TreeOk, SmallOk, Framed;
    TopIsLast(s, loose, c);
  }

  lemma DvIsFree(s: State, loose: set<int>)
    requires Ok(s, loose)
    ensures s.dv != s.top
    ensures s.dv in s.ch ==> !s.ch[s.dv].inuse && s.ch[s.dv].size == s.dvsize
    ensures s.dv > 0 ==> s.dv in s.ch
    ensures s.dv in s.ch || s.dv == 0
  {
    hide TreeOk, SmallOk;
    NullIsNoChunk(s, loose);
  }

  lemma FreeIsNotLoose(s: State, loose: set<int>, c: int)
    requires Ok(s, loose) && Coalesced(s.ch) && c in s.ch && s.ch[c].inuse
    requires forall q :: q in loose ==> q < c
    ensures c + s.ch[c].size !in loose
  {
  }

  lemma GivenBackSame(ch: Chunks, m: seq<int>, ch1: Chunks, m1: seq<int>, ch': Chunks, m': seq<int>, c: int)
    requires GivenBack(ch, m, ch1, m1, c) && Blocks(ch') == Blocks(ch1) && Untouched(Blocks(ch'), m1, m')
    ensures GivenBack(ch, m, ch', m', c)
  {
    hide Untouched, Blocks;
    UntouchedTrans(Blocks(ch'), m, m1, m');
  }
}

/**
  Splitting and merging chunks in place: what one rewrite of boundary tags does to the
  invariant, to the blocks handed out and to their contents.
 */
module Carving {
  import opened BinIndex
  import opened BinMap
  import opened Memory
  import opened TreeBins
  import opened TreeInsert
  import opened SmallBins
  import opened Layout
  import opened Heap

  /** Only the tags of the pieces lo .. mid .. hi and of the chunk at hi are written. */
  ghost predicate TagWrites(m: seq<int>, m': seq<int>, lo: int, mid: int, hi: int, u: bool, v: bool) {
    && |m'| == |m|
    && forall k {:trigger W(m', k)} :: W(m', k) == W(m, k)
         || k == lo + HEAD || k == mid + HEAD || k == hi + HEAD
         || (k == mid && !u) || (k == hi && mid < hi && !v)
  }

  /** The tags of the pieces hold what the new layout asks for. */
  ghost predicate TagsWritten(s: State, lo: int, mid: int, hi: int, u: bool, v: bool, m': seq<int>)
    requires lo in s.ch
  {
    var last := if mid < hi then v else u;
    && TagWrites(s.m, m', lo, mid, hi, u, v)
    && W(m', lo + HEAD) == HeadWord(mid - lo, u, PrevInuse(s.ch, s.base, lo))
    && (mid < hi ==> W(m', mid + HEAD) == HeadWord(hi - mid, v, u))
    && (hi == s.End() ==> W(m', hi + HEAD) == TOP_FOOT_SIZE)
    && (hi in s.ch ==> W(m', hi + HEAD) == HeadWord(s.ch[hi].size, s.ch[hi].inuse, last))
    && (hi in s.ch && !s.ch[hi].inuse ==> W(m', hi + HEAD) == W(s.m, hi + HEAD))
    && (!u && mid != s.End() ==> W(m', mid) == mid - lo)
    && (mid < hi && !v && hi != s.End() ==> W(m', hi) == hi - mid)
  }

  /** The state after the chunks of lo .. hi became lo .. mid and mid .. hi. */
  ghost function Recarved(s: State, lo: int, mid: int, hi: int, u: bool, v: bool, m': seq<int>): State
    requires lo in s.ch && lo < mid <= hi
  {
    var last := if mid < hi then mid else lo;
    s.(m := m', ch := Carve(s.ch, lo, mid, hi, u, v),
       top := if hi == s.End() then last else s.top,
       topsize := if hi == s.End() then hi - last else s.topsize)
  }

  /** The loose chunks after that. */
  ghost function Loosened(s: State, loose: set<int>, lo: int, mid: int, hi: int, u: bool, v: bool): set<int> {
    (set q | q in loose && !(lo <= q < hi))
    + (if !u && !(hi == s.End() && mid == hi) then {lo} else {})
    + (if mid < hi && !v && hi != s.End() then {mid} else {})
  }

  /** Only chunks outside the bins are carved. */
  ghost predicate Carvable(s: State, loose: set<int>, lo: int, mid: int, hi: int, u: bool, v: bool) {
    && Run(s.ch, s.base, s.End(), lo, mid, hi)
    && !(lo <= s.dv < hi)
    && (hi == s.End() ==> if mid < hi then !v else !u)
    && forall q {:trigger s.ch[q]} :: q in s.ch && lo <= q < hi ==> s.ch[q].inuse || q in loose || q == s.top
  }

  // ---------- The tags ----------

  lemma FromTagWrites(s: State, lo: int, mid: int, hi: int, u: bool, v: bool, m': seq<int>)
    requires Run(s.ch, s.base, s.End(), lo, mid, hi) && s.End() <= |s.m|
    requires TagsWritten(s, lo, mid, hi, u, v, m')
    ensures Retagged(s.m, s.ch, s.base, s.End(), lo, mid, hi, u, v, m')
  {
    hide W, HeadWord, Apart, ChunkOk;
    RunBounds(s.ch, s.base, s.End(), lo, mid, hi);
    forall q {:trigger s.ch[q]} | q in s.ch && (q < lo || hi < q)
      ensures W(m', q + HEAD) == W(s.m, q + HEAD)
    {
      LoIsPlaced(s.ch, s.base, s.End(), q);
      WordsMiss(s, lo, mid, hi, q);
    }
    forall q {:trigger s.ch[q]} | q in s.ch && (q < lo || hi <= q) && !s.ch[q].inuse && q + s.ch[q].size != s.End()
      ensures W(m', q + s.ch[q].size) == W(s.m, q + s.ch[q].size)
    {
      LoIsPlaced(s.ch, s.base, s.End(), q);
      WordsMiss(s, lo, mid, hi, q);
    }
  }

  lemma WordsMiss(s: State, lo: int, mid: int, hi: int, q: int)
    requires Run(s.ch, s.base, s.End(), lo, mid, hi) && q in s.ch && (q < lo || hi <= q)
    ensures q + s.ch[q].size <= lo || (hi <= q && q + s.ch[q].size > hi + HEAD)
    ensures hi + HEAD != q + s.ch[q].size && lo + HEAD != q + s.ch[q].size && mid + HEAD != q + s.ch[q].size
    ensures q + HEAD != mid && q + HEAD != hi
  {
    hide ChunkOk;
    LoIsPlaced(s.ch, s.base, s.End(), q);
    assert Apart(s.ch, q, lo);
    SixteenApart(q, mid);
    SixteenApart(q, hi);
    Aligned(q, s.ch[q].size);
    SixteenApart(lo, q + s.ch[q].size);
    SixteenApart(mid, q + s.ch[q].size);
    SixteenApart(hi, q + s.ch[q].size);
  }

  lemma SixteenApart(a: int, b: int)
    requires a % 16 == 0 && b % 16 == 0
    ensures a + HEAD != b
  {
  }

  // ---------- The bins ----------

  /** The link words of a chunk outside the run are not tags. */
  lemma LinksMiss(s: State, lo: int, mid: int, hi: int, q: int, k: int)
    requires Run(s.ch, s.base, s.End(), lo, mid, hi) && q in s.ch && (q < lo || hi <= q)
    requires q + HEAD <= k < q + s.ch[q].size && (q == hi ==> k != q + HEAD)
    ensures k != lo + HEAD && k != mid + HEAD && k != hi + HEAD && k != mid && k != hi
  {
    hide ChunkOk;
    LoIsPlaced(s.ch, s.base, s.End(), q);
    assert Apart(s.ch, q, lo);
  }

  lemma BinnedOutside(s: State, loose: set<int>, lo: int, mid: int, hi: int, u: bool, v: bool, q: int)
    requires Ok(s, loose) && Carvable(s, loose, lo, mid, hi, u, v) && (q in s.sn || q in s.tn)
    ensures q in s.ch && !s.ch[q].inuse && !(lo <= q < hi)
    ensures q in s.sn ==> s.ch[q].size == s.sn[q].size
    ensures q in s.tn ==> s.ch[q].size == s.tn[q].size
    ensures q != s.top
  {
    hide Framed, TreeOk, SmallOk, Run;
    BinSets(s, loose);
    if q in s.sn { assert InSmall(s, q); }
    if q in s.tn { assert InLarge(s, q); }
  }

  lemma TagsKeepWord(s: State, loose: set<int>, lo: int, mid: int, hi: int, u: bool, v: bool, m': seq<int>, q: int, k: int)
    requires Ok(s, loose) && Carvable(s, loose, lo, mid, hi, u, v) && TagsWritten(s, lo, mid, hi, u, v, m')
    requires (q in s.sn || q in s.tn) && q in s.ch && q + HEAD <= k < q + s.ch[q].size
    ensures W(m', k) == W(s.m, k) && |m'| == |s.m| && q + s.ch[q].size <= |m'|
  {
    hide W, HeadWord, TreeOk, SmallOk, Binned, Run;
    BinnedOutside(s, loose, lo, mid, hi, u, v, q);
    LoIsPlaced(s.ch, s.base, s.End(), q);
    if q != hi || k != q + HEAD {
      LinksMiss(s, lo, mid, hi, q, k);
    }
  }

  lemma HeaderWord(s: State, loose: set<int>, lo: int, mid: int, hi: int, u: bool, v: bool, m': seq<int>, k: int)
    requires Ok(s, loose) && Carvable(s, loose, lo, mid, hi, u, v) && TagsWritten(s, lo, mid, hi, u, v, m')
    requires k < GM_END
    ensures W(m', k) == W(s.m, k)
  {
    hide W, HeadWord, TreeOk, SmallOk, Binned;
    RunBounds(s.ch, s.base, s.End(), lo, mid, hi);
  }

  lemma CarveKeepsTree(s: State, loose: set<int>, lo: int, mid: int, hi: int, u: bool, v: bool, m': seq<int>)
    requires Ok(s, loose) && Carvable(s, loose, lo, mid, hi, u, v) && TagsWritten(s, lo, mid, hi, u, v, m')
    ensures TreeOk(m', s.tn, s.treemap)
  {
    hide W, Path, Dir, TreeIndex, Marked, OnRing, UnderParent, OverChild, Carvable, TagsWritten, Framed, Binned, SmallOk;
    forall p {:trigger s.tn[p]} | p in s.tn
      ensures SameNode(s.m, m', p) && p + s.tn[p].size <= |m'|
    {
      BinnedOutside(s, loose, lo, mid, hi, u, v, p);
      assert NodeOk(s.m, s.tn, p);
      TagsKeepWord(s, loose, lo, mid, hi, u, v, m', p, p + HEAD);
      forall k | k == p + HEAD || k == p + FD || k == p + BK || k == p + CHILD || k == p + CHILD + 8 || k == p + PARENT || k == p + INDEX
        ensures W(m', k) == W(s.m, k)
      {
        TagsKeepWord(s, loose, lo, mid, hi, u, v, m', p, k);
      }
    }
    forall i: nat {:trigger Root(m', i)} | i < TREE_BINS
      ensures Root(m', i) == Root(s.m, i)
    {
      HeaderWord(s, loose, lo, mid, hi, u, v, m', TreeBinAt(i));
    }
    CarvedLength(s, loose, lo, mid, hi, u, v, m');
    KeepTree(s.m, m', s.tn, s.treemap);
  }

  lemma CarvedLength(s: State, loose: set<int>, lo: int, mid: int, hi: int, u: bool, v: bool, m': seq<int>)
    requires Ok(s, loose) && Carvable(s, loose, lo, mid, hi, u, v) && TagsWritten(s, lo, mid, hi, u, v, m')
    ensures GM_END <= |m'| == |s.m| == s.End() + TOP_FOOT_SIZE
  {
    hide W, HeadWord, TreeOk, SmallOk, Binned;
    RunBounds(s.ch, s.base, s.End(), lo, mid, hi);
  }

  lemma CarveKeepsSmall(s: State, loose: set<int>, lo: int, mid: int, hi: int, u: bool, v: bool, m': seq<int>)
    requires Ok(s, loose) && Carvable(s, loose, lo, mid, hi, u, v) && TagsWritten(s, lo, mid, hi, u, v, m')
    ensures SmallOk(m', s.sn, s.smallmap)
  {
    hide W, Marked, ChunkSize, Listed, HeaderOk, SmallApart, Carvable, TagsWritten, Framed, Binned, TreeOk;
    forall p {:trigger s.sn[p]} | p in s.sn
      ensures p + s.sn[p].size <= |m'| && W(m', p + HEAD) == W(s.m, p + HEAD)
        && W(m', p + FD) == W(s.m, p + FD) && W(m', p + BK) == W(s.m, p + BK)
    {
      BinnedOutside(s, loose, lo, mid, hi, u, v, p);
      assert SmallNodeOk(s.m, s.sn, s.smallmap, p);
      TagsKeepWord(s, loose, lo, mid, hi, u, v, m', p, p + HEAD);
      TagsKeepWord(s, loose, lo, mid, hi, u, v, m', p, p + FD);
      TagsKeepWord(s, loose, lo, mid, hi, u, v, m', p, p + BK);
    }
    forall i: nat {:trigger SmallBinAt(i)} | i < SMALL_BIN_COUNT
      ensures W(m', SmallBinAt(i) + FD) == W(s.m, SmallBinAt(i) + FD) && W(m', SmallBinAt(i) + BK) == W(s.m, SmallBinAt(i) + BK)
    {
      HeaderWord(s, loose, lo, mid, hi, u, v, m', SmallBinAt(i) + FD);
      HeaderWord(s, loose, lo, mid, hi, u, v, m', SmallBinAt(i) + BK);
    }
    CarvedLength(s, loose, lo, mid, hi, u, v, m');
    KeepSmall(s.m, m', s.sn, s.smallmap);
  }

  lemma TopIsLast(s: State, loose: set<int>, p: int)
    requires Ok(s, loose) && p in s.ch
    ensures s.top in s.ch && s.ch[s.top].size == s.topsize && p <= s.top
    ensures p + s.ch[p].size == s.End() <==> p == s.top
  {
    hide TreeOk, SmallOk, Tagged, ChunkOk;
    LoIsPlaced(s.ch, s.base, s.End(), p);
    LoIsPlaced(s.ch, s.base, s.End(), s.top);
    assert Apart(s.ch, p, s.top) && Apart(s.ch, s.top, p);
  }

  lemma CarveBinned(s: State, loose: set<int>, lo: int, mid: int, hi: int, u: bool, v: bool, m': seq<int>)
    requires Ok(s, loose) && Carvable(s, loose, lo, mid, hi, u, v)
    ensures Binned(Recarved(s, lo, mid, hi, u, v, m'), Loosened(s, loose, lo, mid, hi, u, v))
  {
    hide Ok, Carvable, Recarved, Loosened, InSmall, InLarge, IsLoose, Somewhere;
    CarveDv(s, loose, lo, mid, hi, u, v);
    CarveTop(s, loose, lo, mid, hi, u, v, m');
    var s', loose' := Recarved(s, lo, mid, hi, u, v, m'), Loosened(s, loose, lo, mid, hi, u, v);
    forall p {:trigger InSmall(s', p)} | p in s'.sn
      ensures InSmall(s', p)
    {
      CarveKeepsBinned(s, loose, lo, mid, hi, u, v, m', p);
    }
    forall p {:trigger InLarge(s', p)} | p in s'.tn
      ensures InLarge(s', p)
    {
      CarveKeepsBinned(s, loose, lo, mid, hi, u, v, m', p);
    }
    forall p {:trigger IsLoose(s', p)} | p in loose'
      ensures IsLoose(s', p)
    {
      CarveLoose(s, loose, lo, mid, hi, u, v, m', p);
    }
    forall p {:trigger Somewhere(s', loose', p)}
      ensures Somewhere(s', loose', p)
    {
      CarveSomewhere(s, loose, lo, mid, hi, u, v, m', p);
    }
  }

  /** top is always the last chunk, and dv stays where it is. */
  lemma CarveTop(s: State, loose: set<int>, lo: int, mid: int, hi: int, u: bool, v: bool, m': seq<int>)
    requires Ok(s, loose) && Carvable(s, loose, lo, mid, hi, u, v)
    ensures var s' := Recarved(s, lo, mid, hi, u, v, m');
            && s'.sn == s.sn && s'.tn == s.tn && s'.dv == s.dv && s'.dvsize == s.dvsize
            && IsFree(s'.ch, s'.top) && s'.ch[s'.top].size == s'.topsize
            && (s'.dv == 0 <==> s'.dvsize == 0)
            && (s'.dv != 0 ==> IsFree(s'.ch, s'.dv) && s'.ch[s'.dv].size == s'.dvsize && s'.dv != s'.top && s.dv in s.ch)
            && (hi == s.End() ==> lo <= s.top < hi && lo <= s'.top < hi)
            && (hi != s.End() ==> s.top >= hi && s'.top == s.top)
  {
    hide TreeOk, SmallOk, Framed, Carve, ChunkOk, Apart;
    BinSets(s, loose);
    RunBounds(s.ch, s.base, s.End(), lo, mid, hi);
    CarveOutside(s.ch, lo, mid, hi, u, v);
    TopIsLast(s, loose, lo);
    if hi in s.ch { TopIsLast(s, loose, hi); }
    LoIsPlaced(s.ch, s.base, s.End(), s.top);
  }

  lemma CarveKeepsBinned(s: State, loose: set<int>, lo: int, mid: int, hi: int, u: bool, v: bool, m': seq<int>, p: int)
    requires Ok(s, loose) && Carvable(s, loose, lo, mid, hi, u, v) && (p in s.sn || p in s.tn)
    ensures p in s.sn ==> InSmall(Recarved(s, lo, mid, hi, u, v, m'), p)
    ensures p in s.tn ==> InLarge(Recarved(s, lo, mid, hi, u, v, m'), p)
  {
    hide TreeOk, SmallOk, Framed, Carve, ChunkOk, Apart, Carvable;
    CarveDv(s, loose, lo, mid, hi, u, v);
    CarveTop(s, loose, lo, mid, hi, u, v, m');
    BinnedOutside(s, loose, lo, mid, hi, u, v, p);
    CarveOutside(s.ch, lo, mid, hi, u, v);
    assert p in s.sn ==> InSmall(s, p);
    assert p in s.tn ==> InLarge(s, p);
  }

  lemma CarveLoose(s: State, loose: set<int>, lo: int, mid: int, hi: int, u: bool, v: bool, m': seq<int>, p: int)
    requires Ok(s, loose) && Carvable(s, loose, lo, mid, hi, u, v) && p in Loosened(s, loose, lo, mid, hi, u, v)
    ensures IsLoose(Recarved(s, lo, mid, hi, u, v, m'), p)
  {
    hide TreeOk, SmallOk, Framed, Carve, ChunkOk, Apart, Carvable, Run;
    CarveTop(s, loose, lo, mid, hi, u, v, m');
    CarveDv(s, loose, lo, mid, hi, u, v);
    CarveOutside(s.ch, lo, mid, hi, u, v);
    if p in loose { assert IsLoose(s, p); }
    if p in s.sn || p in s.tn { BinnedOutside(s, loose, lo, mid, hi, u, v, p); }
  }

  lemma CarveDv(s: State, loose: set<int>, lo: int, mid: int, hi: int, u: bool, v: bool)
    requires Ok(s, loose) && Carvable(s, loose, lo, mid, hi, u, v)
    ensures !(lo <= s.dv < hi) && lo in s.ch && lo < mid <= hi
  {
  }

  lemma CarveSomewhere(s: State, loose: set<int>, lo: int, mid: int, hi: int, u: bool, v: bool, m': seq<int>, p: int)
    requires Ok(s, loose) && Carvable(s, loose, lo, mid, hi, u, v)
    ensures Somewhere(Recarved(s, lo, mid, hi, u, v, m'), Loosened(s, loose, lo, mid, hi, u, v), p)
  {
    hide TreeOk, SmallOk, Framed, Carve, ChunkOk, Apart, Carvable, Run;
    CarveTop(s, loose, lo, mid, hi, u, v, m');
    CarveDv(s, loose, lo, mid, hi, u, v);
    CarveOutside(s.ch, lo, mid, hi, u, v);
    assert Somewhere(s, loose, p);
  }

  /** Rewriting tags keeps the whole invariant. */
  lemma CarveOk(s: State, loose: set<int>, lo: int, mid: int, hi: int, u: bool, v: bool, m': seq<int>)
    requires Ok(s, loose) && Carvable(s, loose, lo, mid, hi, u, v) && TagsWritten(s, lo, mid, hi, u, v, m')
    ensures Ok(Recarved(s, lo, mid, hi, u, v, m'), Loosened(s, loose, lo, mid, hi, u, v))
  {
    hide TreeOk, SmallOk, Binned, Carve, Loosened, ChunkOk, Apart, TagOk;
    RunBounds(s.ch, s.base, s.End(), lo, mid, hi);
    FromTagWrites(s, lo, mid, hi, u, v, m');
    CarveLaid(s.ch, s.base, s.End(), lo, mid, hi, u, v);
    CarveTags(s.m, s.ch, s.base, s.End(), lo, mid, hi, u, v, m');
    CarveKeepsTree(s, loose, lo, mid, hi, u, v, m');
    CarveKeepsSmall(s, loose, lo, mid, hi, u, v, m');
    CarveBinned(s, loose, lo, mid, hi, u, v, m');
    CarvedLength(s, loose, lo, mid, hi, u, v, m');
    TopFootKept(s, loose, lo, mid, hi, u, v, m');
  }

  lemma TopFootKept(s: State, loose: set<int>, lo: int, mid: int, hi: int, u: bool, v: bool, m': seq<int>)
    requires Ok(s, loose) && Carvable(s, loose, lo, mid, hi, u, v) && TagsWritten(s, lo, mid, hi, u, v, m')
    ensures W(m', s.End() + HEAD) == TOP_FOOT_SIZE
    ensures Recarved(s, lo, mid, hi, u, v, m').End() == s.End()
  {
    hide W, HeadWord, TreeOk, SmallOk, Binned;
    RunBounds(s.ch, s.base, s.End(), lo, mid, hi);
  }

  // ---------- Coalescing ----------

  lemma CarveCoalesced(ch: Chunks, base: int, end: int, lo: int, mid: int, hi: int, u: bool, v: bool)
    requires Run(ch, base, end, lo, mid, hi) && Coalesced(ch)
    requires !u && lo != base ==> ch[lo].prev in ch && ch[ch[lo].prev].inuse
    requires !u && mid < hi ==> v
    requires !(if mid < hi then v else u) && hi in ch ==> ch[hi].inuse
    ensures Coalesced(Carve(ch, lo, mid, hi, u, v))
  {
    hide Carve, ChunkOk;
    var c := Carve(ch, lo, mid, hi, u, v);
    RunBounds(ch, base, end, lo, mid, hi);
    CarveOutside(ch, lo, mid, hi, u, v);
    forall p {:trigger c[p]} | p in c && !c[p].inuse && p + c[p].size in c
      ensures c[p + c[p].size].inuse
    {
      if p < lo {
        LoIsPlaced(ch, base, end, p);
        assert Apart(ch, p, lo);
      } else if p >= hi {
        LoIsPlaced(ch, base, end, p);
      }
    }
  }

  /** In a coalesced layout the neighbours of a free chunk are in use. */
  lemma NeighboursInUse(ch: Chunks, base: int, end: int, p: int)
    requires Laid(ch, base, end) && Coalesced(ch) && p in ch && !ch[p].inuse
    ensures PrevInuse(ch, base, p)
    ensures p + ch[p].size != end ==> p + ch[p].size in ch && ch[p + ch[p].size].inuse
  {
    hide Apart, ChunkOk;
    LoIsPlaced(ch, base, end, p);
    if p != base { PrevIsPlaced(ch, base, end, p); }
  }

  // ---------- The blocks handed out ----------

  /** The chunks in use, with their sizes. */
  ghost function Blocks(ch: Chunks): map<int, nat> {
    map p | p in ch && ch[p].inuse :: ch[p].size
  }

  /** The payload of a block: from two words past the chunk up to the word that overlaps the next chunk. */
  ghost predicate SamePayload(m: seq<int>, m': seq<int>, p: int, size: int) {
    forall k {:trigger W(m', k)} :: p + FD <= k <= p + size ==> W(m', k) == W(m, k)
  }

  /** The payload of every block in B is as it was. */
  ghost predicate Untouched(B: map<int, nat>, m: seq<int>, m': seq<int>) {
    forall p {:trigger p in B} :: p in B ==> SamePayload(m, m', p, B[p])
  }

  lemma UntouchedTrans(B: map<int, nat>, m: seq<int>, m1: seq<int>, m2: seq<int>)
    requires Untouched(B, m, m1) && Untouched(B, m1, m2)
    ensures Untouched(B, m, m2)
  {
    hide W;
    forall p {:trigger p in B} | p in B
      ensures SamePayload(m, m2, p, B[p])
    {
      assert SamePayload(m, m1, p, B[p]) && SamePayload(m1, m2, p, B[p]);
    }
  }

  lemma UntouchedSame(B: map<int, nat>, m: seq<int>)
    ensures Untouched(B, m, m)
  {
  }

  lemma UntouchedFewer(B: map<int, nat>, B': map<int, nat>, m: seq<int>, m': seq<int>)
    requires Untouched(B, m, m')
    requires forall p {:trigger p in B'} :: p in B' ==> p in B && B'[p] <= B[p]
    ensures Untouched(B', m, m')
  {
    hide W;
    forall p {:trigger p in B'} | p in B'
      ensures SamePayload(m, m', p, B'[p])
    {
      assert SamePayload(m, m', p, B[p]);
    }
  }

  /** Moving free chunks between bins touches no block. */
  lemma LinksLeaveBlocks(s: State, loose: set<int>, m': seq<int>)
    requires Ok(s, loose) && LinkWrites(s, m')
    ensures Untouched(Blocks(s.ch), s.m, m')
  {
    hide W, TreeOk, SmallOk, Binned, ChunkOk, Tagged;
    forall p {:trigger p in Blocks(s.ch)} | p in Blocks(s.ch)
      ensures SamePayload(s.m, m', p, Blocks(s.ch)[p])
    {
      LoIsPlaced(s.ch, s.base, s.End(), p);
      forall q {:trigger q in FreeSet(s.ch)} | q in FreeSet(s.ch)
        ensures q + s.ch[q].size <= p || p + s.ch[p].size <= q
      {
        assert Apart(s.ch, p, q) && Apart(s.ch, q, p);
      }
    }
  }

  /** Carving touches no block outside the run, nor the payload of a piece left in use. */
  lemma CarveLeavesBlocks(s: State, loose: set<int>, lo: int, mid: int, hi: int, u: bool, v: bool, m': seq<int>, B: map<int, nat>)
    requires Ok(s, loose) && Carvable(s, loose, lo, mid, hi, u, v) && TagsWritten(s, lo, mid, hi, u, v, m')
    requires forall p {:trigger p in B} :: p in B ==>
               (p in s.ch && (p < lo || hi <= p) && B[p] <= s.ch[p].size) || (p == lo && u && p + B[p] <= mid)
    ensures Untouched(B, s.m, m')
  {
    hide W, HeadWord, TreeOk, SmallOk, Binned, ChunkOk, Tagged;
    RunBounds(s.ch, s.base, s.End(), lo, mid, hi);
    forall p {:trigger p in B} | p in B
      ensures SamePayload(s.m, m', p, B[p])
    {
      if p in s.ch && (p < lo || hi <= p) {
        LoIsPlaced(s.ch, s.base, s.End(), p);
        assert Apart(s.ch, p, lo);
      }
    }
  }

  /** The blocks after carving. */
  lemma CarveBlocks(ch: Chunks, base: int, end: int, lo: int, mid: int, hi: int, u: bool, v: bool)
    requires Run(ch, base, end, lo, mid, hi)
    ensures var B, B' := Blocks(ch), Blocks(Carve(ch, lo, mid, hi, u, v));
            && (forall q {:trigger q in B'} :: q in B' <==>
                 (q in B && (q < lo || hi <= q)) || (q == lo && u) || (q == mid && mid < hi && v))
            && (forall q {:trigger B'[q]} :: q in B' && (q < lo || hi <= q) ==> B'[q] == B[q])
            && (u ==> B'[lo] == mid - lo) && (mid < hi && v ==> B'[mid] == hi - mid)
  {
    hide Carve, ChunkOk, Apart;
    RunBounds(ch, base, end, lo, mid, hi);
    CarveOutside(ch, lo, mid, hi, u, v);
  }
}

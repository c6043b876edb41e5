/**
  Changing the extent of a chunk in use: cutting it in two, and growing it into the free
  chunk that follows.
 */
module Reshaping {
  import opened Memory
  import opened TreeBins
  import opened SmallBins
  import opened Layout
  import opened Heap
  import opened BinStores
  import opened Carving
  import opened ChunkMoves
  import opened Merging

  /** set_inuse: the head of p keeps its PINUSE bit, the next chunk gets one. */
  function SetInuse(m: seq<int>, p: int, size: nat): (r: seq<int>)
    requires 0 <= p && p + size + 16 <= |m|
    ensures |r| == |m|
  {
    var m1 := m[p + HEAD := m[p + HEAD] % 2 + size + 2];
    m1[p + size + HEAD := SetPinuse(m1[p + size + HEAD])]
  }

  /** The run p .. hi: the chunk p in use and, if more is wanted, the free chunk after it. */
  ghost predicate Reach(s: State, p: int, hi: int) {
    && p in s.ch && s.ch[p].inuse
    && var n := p + s.ch[p].size;
    hi == n || (hi > n && n in s.ch && !s.ch[n].inuse && hi == n + s.ch[n].size && s.dv != n)
  }

  ghost function ReachLoose(s: State, p: int, hi: int): set<int>
    requires p in s.ch
  {
    var n := p + s.ch[p].size;
    if hi == n || n == s.top then {} else {n}
  }

  lemma ReachBounds(s: State, p: int, hi: int)
    requires Reach(s, p, hi) && Ok(s, ReachLoose(s, p, hi)) && Coalesced(s.ch)
    ensures var n := p + s.ch[p].size;
            && GM_END <= s.base <= p && p + 32 <= n <= hi && hi + 32 <= |s.m| && p % 16 == 0 && hi % 16 == 0 && n % 16 == 0
            && n in s.ch && s.ch[n].prev == p
            && (hi == s.End() <==> n == s.top && n < hi)
            && (hi != s.End() ==> hi in s.ch && (n < hi ==> s.ch[hi].inuse))
            && PrevInuse(s.ch, s.base, n)
    ensures p in s.ch && W(s.m, p + HEAD) % 2 == if PrevInuse(s.ch, s.base, p) then 1 else 0
  {
    hide TreeOk, SmallOk, W, Coalesced, Laid, Tagged, PrevInuse, MergeLo, MergeHi, ReachLoose;
    MergeRun(s, ReachLoose(s, p, hi), p);
    ChunkTag(s, ReachLoose(s, p, hi), p);
    LaidOf(s, ReachLoose(s, p, hi));
    LoIsPlaced(s.ch, s.base, s.End(), p);
    PrevOf(s.ch, s.base, s.End(), p);
    MergeHiIs(s.ch, p);
    PinuseIs(W(s.m, p + HEAD));
    TopRun(s, ReachLoose(s, p, hi));
    if hi == p + s.ch[p].size { TopIsLast(s, ReachLoose(s, p, hi), hi); EndIsNoChunk(s, ReachLoose(s, p, hi)); }
  }

  lemma PinuseIs(head: int)
    ensures Pinuse(head) <==> head % 2 == 1
  {
  }

  lemma MergeHiIs(ch: Chunks, p: int)
    requires p in ch
    ensures var n := p + ch[p].size; MergeHi(ch, p) == if n in ch && !ch[n].inuse then n + ch[n].size else n
  {
  }

  lemma ReachCarvable(s: State, p: int, mid: int, hi: int, v: bool)
    requires Reach(s, p, hi) && Ok(s, ReachLoose(s, p, hi)) && Coalesced(s.ch)
    requires mid % 16 == 0 && p + 32 <= mid && (if hi == s.End() then mid < hi && !v else mid == hi || mid + 32 <= hi)
    ensures Carvable(s, ReachLoose(s, p, hi), p, mid, hi, true, v)
  {
    hide TreeOk, SmallOk, W, HeadWord, Coalesced, Binned, Tagged, Laid, PrevInuse, ReachLoose;
    var X := ReachLoose(s, p, hi);
    ReachBounds(s, p, hi);
    assert Run(s.ch, s.base, s.End(), p, mid, hi);
    forall q {:trigger s.ch[q]} | q in s.ch && p <= q < hi ensures s.ch[q].inuse || q in X || q == s.top {
      ReachMembers(s, p, hi, q);
    }
    if s.dv in s.ch && p <= s.dv < hi { ReachMembers(s, p, hi, s.dv); }
    assert !(p <= s.dv < hi) by { DvIsFree(s, X); }
  }

  lemma ReachMembers(s: State, p: int, hi: int, q: int)
    requires Reach(s, p, hi) && Ok(s, ReachLoose(s, p, hi)) && Coalesced(s.ch) && q in s.ch && p <= q < hi
    ensures q == p || (q == p + s.ch[p].size && !s.ch[q].inuse && (q in ReachLoose(s, p, hi) || q == s.top))
  {
    hide TreeOk, SmallOk, W, Coalesced, Binned, Tagged, Laid, PrevInuse;
    ReachBounds(s, p, hi);
    if q < p + s.ch[p].size {
      OnlyChunk(s.ch, s.base, s.End(), p, q);
    } else {
      OnlyChunk(s.ch, s.base, s.End(), p + s.ch[p].size, q);
    }
  }

  /** p is a block of size bytes now; its contents up to the smaller size and all other blocks are as before. */
  ghost predicate Reshaped(B: map<int, nat>, m: seq<int>, B': map<int, nat>, m': seq<int>, p: int, size: nat) {
    && p in B && B' == B[p := size]
    && Untouched(B[p := if size < B[p] then size else B[p]], m, m')
  }

  lemma ReshapeMove(s: State, p: int, mid: int, hi: int, v: bool, m': seq<int>)
    requires Reach(s, p, hi) && Ok(s, ReachLoose(s, p, hi)) && Coalesced(s.ch)
    requires mid % 16 == 0 && p + 32 <= mid && (if hi == s.End() then mid < hi && !v else mid == hi || mid + 32 <= hi)
    requires mid < hi && !v ==> p + s.ch[p].size < hi
    requires TagsWritten(s, p, mid, hi, true, v, m')
    ensures var s' := Recarved(s, p, mid, hi, true, v, m');
            && Ok(s', if mid < hi && !v && hi != s.End() then {mid} else {}) && Coalesced(s'.ch) && s'.End() == s.End()
            && p in s'.ch && s'.ch[p] == Chunk(mid - p, true, s.ch[p].prev)
            && (mid < hi ==> mid in s'.ch && s'.ch[mid] == Chunk(hi - mid, v, p) && mid !in Blocks(s.ch))
            && var B' := if mid < hi && v then Blocks(s'.ch) - {mid} else Blocks(s'.ch);
            Reshaped(Blocks(s.ch), s.m, B', m', p, mid - p)
  {
    hide Ok, Coalesced, Carvable, TagsWritten, Carve, Untouched, PrevInuse, ReachLoose;
    var X := ReachLoose(s, p, hi);
    ReachBounds(s, p, hi);
    ReachCarvable(s, p, mid, hi, v);
    CarveOk(s, X, p, mid, hi, true, v, m');
    ReachLooseIs(s, p, hi);
    assert Loosened(s, X, p, mid, hi, true, v) == if mid < hi && !v && hi != s.End() then {mid} else {};
    CarvableRun(s, X, p, mid, hi, true, v);
    EndIsNoChunk(s, X);
    CarveCoalesced(s.ch, s.base, s.End(), p, mid, hi, true, v);
    CarveOutside(s.ch, p, mid, hi, true, v);
    ReshapeBlocks(s, p, mid, hi, v, m');
  }

  lemma ReachLooseIs(s: State, p: int, hi: int)
    requires Reach(s, p, hi)
    ensures forall q :: q in ReachLoose(s, p, hi) ==> p <= q < hi
  {
  }

  lemma ReshapeBlocks(s: State, p: int, mid: int, hi: int, v: bool, m': seq<int>)
    requires Reach(s, p, hi) && Ok(s, ReachLoose(s, p, hi)) && Coalesced(s.ch)
    requires Carvable(s, ReachLoose(s, p, hi), p, mid, hi, true, v) && p < mid <= hi
    requires TagsWritten(s, p, mid, hi, true, v, m')
    ensures var B1 := Blocks(Carve(s.ch, p, mid, hi, true, v));
            var B' := if mid < hi && v then B1 - {mid} else B1;
            Reshaped(Blocks(s.ch), s.m, B', m', p, mid - p)
    ensures mid < hi ==> mid !in Blocks(s.ch)
  {
    hide Ok, Coalesced, Carvable, TagsWritten, Carve, Untouched, PrevInuse, ReachLoose;
    var X := ReachLoose(s, p, hi);
    ReachBounds(s, p, hi);
    CarvableRun(s, X, p, mid, hi, true, v);
    CarveBlocks(s.ch, s.base, s.End(), p, mid, hi, true, v);
    var B, B1 := Blocks(s.ch), Blocks(Carve(s.ch, p, mid, hi, true, v));
    forall q | q in B && q != p ensures q < p || hi <= q {
      if p <= q < hi { ReachMembers(s, p, hi, q); }
    }
    var B' := if mid < hi && v then B1 - {mid} else B1;
    assert forall q :: q in B' <==> q in B;
    assert B' == B[p := mid - p];
    CarveLeavesBlocks(s, X, p, mid, hi, true, v, m', B[p := if mid - p < B[p] then mid - p else B[p]]);
  }

  // ---------- The stores ----------

  lemma SetInuseWords(m: seq<int>, p: int, size: nat)
    requires 0 <= p && 0 < size && p + size + 16 <= |m|
    ensures var r := SetInuse(m, p, size);
            && W(r, p + HEAD) == W(m, p + HEAD) % 2 + size + 2
            && W(r, p + size + HEAD) == SetPinuse(W(m, p + size + HEAD))
            && forall k {:trigger W(r, k)} :: k != p + HEAD && k != p + size + HEAD ==> W(r, k) == W(m, k)
  {
    hide SetPinuse;
  }

  lemma StoreWords(m: seq<int>, a: int, x: int, m': seq<int>)
    requires 0 <= a < |m| && m' == m[a := x]
    ensures |m'| == |m| && W(m', a) == x
    ensures forall k {:trigger W(m', k)} :: k != a ==> W(m', k) == W(m, k)
  {
  }

  lemma TailWords(s: State, p: int, hi: int)
    requires Reach(s, p, hi) && Ok(s, ReachLoose(s, p, hi)) && Coalesced(s.ch) && hi != s.End()
    ensures hi in s.ch && SetPinuse(W(s.m, hi + HEAD)) == HeadWord(s.ch[hi].size, s.ch[hi].inuse, true)
    ensures !s.ch[hi].inuse ==> SetPinuse(W(s.m, hi + HEAD)) == W(s.m, hi + HEAD)
    ensures hi > p + s.ch[p].size ==> W(s.m, hi + HEAD) == HeadWord(s.ch[hi].size, s.ch[hi].inuse, false)
    ensures ClearPinuse(W(s.m, hi + HEAD)) == HeadWord(s.ch[hi].size, s.ch[hi].inuse, false)
  {
    hide Ok, Coalesced, W, HeadWord, SetPinuse, ClearPinuse, PrevInuse, ReachLoose;
    ReachBounds(s, p, hi);
    ChunkTag(s, ReachLoose(s, p, hi), hi);
    LaidOf(s, ReachLoose(s, p, hi));
    if hi > p + s.ch[p].size { PrevOf(s.ch, s.base, s.End(), p + s.ch[p].size); }
  }

  lemma HeadIsWord(s: State, p: int, size: nat)
    requires p in s.ch && W(s.m, p + HEAD) % 2 == if PrevInuse(s.ch, s.base, p) then 1 else 0
    ensures W(s.m, p + HEAD) % 2 + size + 2 == HeadWord(size, true, PrevInuse(s.ch, s.base, p))
  {
  }

  /** set_inuse over the whole run. */
  lemma WholeStores(s: State, p: int, hi: int, m': seq<int>)
    requires Reach(s, p, hi) && Ok(s, ReachLoose(s, p, hi)) && Coalesced(s.ch) && hi != s.End()
    requires 0 <= p < hi && hi + 16 <= |s.m| && m' == SetInuse(s.m, p, hi - p)
    ensures TagsWritten(s, p, hi, hi, true, true, m')
  {
    hide Ok, Coalesced, W, HeadWord, SetPinuse, PrevInuse, ReachLoose, SetInuse;
    ReachBounds(s, p, hi);
    SetInuseWords(s.m, p, hi - p);
    TailWords(s, p, hi);
    HeadIsWord(s, p, hi - p);
  }

  /** set_inuse of both pieces, in either order. */
  lemma CutStores(s: State, p: int, r: int, hi: int, m': seq<int>)
    requires Reach(s, p, hi) && Ok(s, ReachLoose(s, p, hi)) && Coalesced(s.ch) && hi != s.End()
    requires 0 <= p && p + 32 <= r && r + 32 <= hi && hi + 16 <= |s.m| && r % 16 == 0
    requires m' == SetInuse(SetInuse(s.m, p, r - p), r, hi - r) || m' == SetInuse(SetInuse(s.m, r, hi - r), p, r - p)
    ensures TagsWritten(s, p, r, hi, true, true, m')
  {
    hide Ok, Coalesced, W, HeadWord, SetPinuse, PrevInuse, ReachLoose, SetInuse, Reach;
    ReachBounds(s, p, hi);
    SetInuseWords(s.m, p, r - p);
    SetInuseWords(SetInuse(s.m, p, r - p), r, hi - r);
    SetInuseWords(s.m, r, hi - r);
    SetInuseWords(SetInuse(s.m, r, hi - r), p, r - p);
    TailWords(s, p, hi);
    HeadIsWord(s, p, r - p);
    Aligned(hi, r);
    CutHead(W(s.m, r + HEAD), hi - r);
  }

  lemma CutHead(h: int, size: int)
    requires size % 16 == 0
    ensures SetPinuse(h) % 2 + size + 2 == HeadWord(size, true, true)
    ensures SetPinuse(h % 2 + size + 2) == HeadWord(size, true, true)
  {
  }

  /** Growing into top. */
  lemma IntoTopStores(s: State, p: int, r: int, m': seq<int>)
    requires Reach(s, p, s.End()) && Ok(s, {}) && Coalesced(s.ch) && p + s.ch[p].size == s.top
    requires 0 <= p && p + 32 <= r < s.End() && s.End() + 16 <= |s.m| && r % 16 == 0
    requires m' == SetInuse(s.m, p, r - p)[r + HEAD := s.End() - r + 1]
    ensures TagsWritten(s, p, r, s.End(), true, false, m')
  {
    hide Ok, Coalesced, W, HeadWord, SetPinuse, PrevInuse, SetInuse, Reach;
    ReachBounds(s, p, s.End());
    SetInuseWords(s.m, p, r - p);
    StoreWords(SetInuse(s.m, p, r - p), r + HEAD, s.End() - r + 1, m');
    HeadIsWord(s, p, r - p);
    TopRun(s, {});
    EndIsNoChunk(s, {});
    FreeHead(s.End() - r);
  }

  lemma FreeHead(size: int)
    ensures HeadWord(size, false, true) == size + 1
  {
  }

  /** Growing into the designated victim, leaving a smaller one. */
  lemma IntoDvStores(s: State, p: int, r: int, hi: int, m': seq<int>)
    requires Reach(s, p, hi) && Ok(s, ReachLoose(s, p, hi)) && Coalesced(s.ch) && hi != s.End() && hi > p + s.ch[p].size
    requires 0 <= p && p + 32 <= r && r + 32 <= hi && hi + 16 <= |s.m| && r % 16 == 0
    requires var m1 := SetInuse(s.m, p, r - p)[r + HEAD := hi - r + 1][hi := hi - r];
             m' == m1[hi + HEAD := ClearPinuse(m1[hi + HEAD])]
    ensures TagsWritten(s, p, r, hi, true, false, m')
  {
    hide Ok, Coalesced, W, HeadWord, SetPinuse, ClearPinuse, PrevInuse, SetInuse, Reach, ReachLoose;
    ReachInUse(s, p, hi);
    SetInuseWords(s.m, p, r - p);
    var m0 := SetInuse(s.m, p, r - p);
    var m1 := m0[r + HEAD := hi - r + 1][hi := hi - r];
    StoreWords(m0, r + HEAD, hi - r + 1, m0[r + HEAD := hi - r + 1]);
    StoreWords(m0[r + HEAD := hi - r + 1], hi, hi - r, m1);
    WordAt(m1, hi + HEAD);
    StoreWords(m1, hi + HEAD, ClearPinuse(m1[hi + HEAD]), m');
    HeadIsWord(s, p, r - p);
    TailWords(s, p, hi);
    FreeHead(hi - r);
  }

  lemma WordAt(m: seq<int>, a: int)
    requires 0 <= a < |m|
    ensures W(m, a) == m[a]
  {
  }

  lemma ReachInUse(s: State, p: int, hi: int)
    requires Reach(s, p, hi) && Ok(s, ReachLoose(s, p, hi)) && Coalesced(s.ch) && hi != s.End() && hi > p + s.ch[p].size
    ensures p in s.ch && hi in s.ch && s.ch[hi].inuse && W(s.m, p + HEAD) % 2 == if PrevInuse(s.ch, s.base, p) then 1 else 0
  {
    ReachBounds(s, p, hi);
  }
  // ---------- Chains of steps ----------

  lemma ReshapedThen(B: map<int, nat>, m: seq<int>, ch1: Chunks, m1: seq<int>, ch2: Chunks, m2: seq<int>, p: int, r: int, size: nat)
    requires p in B && Reshaped(B, m, Blocks(ch1) - {r}, m1, p, size) && r != p && r !in B
    requires GivenBack(ch1, m1, ch2, m2, r)
    ensures Reshaped(B, m, Blocks(ch2), m2, p, size)
  {
    hide Untouched, Blocks;
    var B0 := B[p := if size < B[p] then size else B[p]];
    UntouchedFewer(Blocks(ch2), B0, m1, m2);
    UntouchedTrans(B0, m, m1, m2);
  }

  lemma ReshapedAfter(B: map<int, nat>, m: seq<int>, m1: seq<int>, B': map<int, nat>, m': seq<int>, p: int, size: nat)
    requires Untouched(B, m, m1) && Reshaped(B, m1, B', m', p, size)
    ensures Reshaped(B, m, B', m', p, size)
  {
    hide Untouched;
    var B0 := B[p := if size < B[p] then size else B[p]];
    UntouchedFewer(B, B0, m, m1);
    UntouchedTrans(B0, m, m1, m');
  }

  lemma ReshapedSame(B: map<int, nat>, m: seq<int>, p: int)
    requires p in B
    ensures Reshaped(B, m, B, m, p, B[p])
  {
    assert B[p := B[p]] == B;
    UntouchedSame(B, m);
  }

  lemma BlockOf(ch: Chunks, p: int)
    requires p in ch && ch[p].inuse
    ensures p in Blocks(ch) && Blocks(ch)[p] == ch[p].size
  {
  }

  lemma BlockSize(ch: Chunks, p: int, B: map<int, nat>, m: seq<int>, m': seq<int>, size: nat)
    requires Reshaped(B, m, Blocks(ch), m', p, size)
    ensures p in ch && ch[p].inuse && ch[p].size == size
  {
    hide Untouched;
    assert p in Blocks(ch);
  }

  lemma ReachSelf(s: State, p: int)
    requires Ok(s, {}) && Coalesced(s.ch) && p in s.ch && s.ch[p].inuse
    ensures Reach(s, p, p + s.ch[p].size) && ReachLoose(s, p, p + s.ch[p].size) == {}
    ensures p + s.ch[p].size != s.End() && s.ch[p].size % 16 == 0
  {
    hide Ok, Coalesced;
    ChunkTag(s, {}, p);
    MergeRun(s, {}, p);
    EndIsNoChunk(s, {});
  }
  // ---------- Growing into top and into the victim ----------

  lemma IntoTopMove(s: State, p: int, nb: nat, m': seq<int>)
    requires Ok(s, {}) && Coalesced(s.ch) && p in s.ch && s.ch[p].inuse && p + s.ch[p].size == s.top
    requires s.ch[p].size < nb < s.ch[p].size + s.topsize && nb % 16 == 0
    requires 0 <= p && s.End() + 16 <= |s.m| && m' == SetInuse(s.m, p, nb)[p + nb + HEAD := s.End() - (p + nb) + 1]
    ensures var s' := s.(m := m', ch := Carve(s.ch, p, p + nb, s.End(), true, false), top := p + nb, topsize := s.End() - (p + nb));
            && Ok(s', {}) && Coalesced(s'.ch) && p in s'.ch && s'.ch[p].size == nb
            && Reshaped(Blocks(s.ch), s.m, Blocks(s'.ch), m', p, nb)
  {
    hide Ok, Coalesced, TagsWritten, Carve, Reshaped, SetInuse, Blocks;
    TopRun(s, {});
    ReachBounds(s, p, s.End());
    ChunkTag(s, {}, p);
    Aligned(p, nb);
    IntoTopStores(s, p, p + nb, m');
    ReshapeMove(s, p, p + nb, s.End(), false, m');
  }

  lemma IntoTopRoom(s: State, p: int)
    requires Ok(s, {}) && Coalesced(s.ch) && p in s.ch
    ensures GM_END <= p && s.End() + 80 == |s.m|
  {
    TopRun(s, {});
    ChunkTag(s, {}, p);
  }

  lemma IntoDvMove(s: State, p: int, nb: nat, m': seq<int>)
    requires Ok(s, {}) && Coalesced(s.ch) && p in s.ch && s.ch[p].inuse && p + s.ch[p].size == s.dv && s.dv != 0
    requires s.ch[p].size < nb && nb + 32 <= s.ch[p].size + s.dvsize && nb % 16 == 0
    requires var r, hi := p + nb, s.dv + s.dvsize;
             0 <= p && r < hi && hi + 16 <= |s.m|
             && var m1 := SetInuse(s.m, p, nb)[r + HEAD := hi - r + 1][hi := hi - r];
             m' == m1[hi + HEAD := ClearPinuse(m1[hi + HEAD])]
    ensures var r, hi := p + nb, s.dv + s.dvsize;
            var s' := s.(m := m', ch := Carve(s.ch, p, r, hi, true, false), dv := r, dvsize := hi - r);
            && Ok(s', {}) && Coalesced(s'.ch) && p in s'.ch && s'.ch[p].size == nb
            && Reshaped(Blocks(s.ch), s.m, Blocks(s'.ch), m', p, nb)
  {
    hide Ok, Coalesced, TagsWritten, Carve, Reshaped, SetInuse, ClearPinuse, Blocks;
    var r, hi := p + nb, s.dv + s.dvsize;
    DvLoose(s, {});
    var s1 := s.(dv := 0, dvsize := 0);
    assert {} + {s.dv} == {s.dv};
    ReachBounds(s1, p, hi);
    ChunkTag(s, {}, p);
    Aligned(p, nb);
    IntoDvStores(s1, p, r, hi, m');
    ReshapeMove(s1, p, r, hi, false, m');
    LooseDv(Recarved(s1, p, r, hi, true, false, m'), {r}, r);
    assert {r} - {r} == {};
  }

  lemma IntoDvRoom(s: State, p: int)
    requires Ok(s, {}) && Coalesced(s.ch) && p in s.ch && s.dv in s.ch
    ensures GM_END <= p && s.dv + s.dvsize + 80 <= |s.m| && s.dv != 0
    ensures s.dv + s.dvsize != s.End() && Ok(s.(dv := 0, dvsize := 0), {s.dv})
  {
    hide Ok, Coalesced;
    NullIsNoChunk(s, {});
    DvLoose(s, {});
    assert {} + {s.dv} == {s.dv};
    ChunkTag(s, {}, p);
    ChunkTag(s, {}, s.dv);
    TopIsLast(s, {}, s.dv);
  }
}

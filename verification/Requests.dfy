/**
  Request sizes: padding, page rounding, and what of the allocator's answers follows from them.
 */
module Requests {
  import opened Words
  import opened BinIndex
  import opened BinMap
  import opened Memory
  import opened TreeBins
  import opened TreeSearch
  import opened SmallBins
  import opened Layout
  import opened Heap
  import opened BinStores
  import opened Carving
  import opened ChunkMoves
  import opened Segment

  const MAX_REQUEST := WORD - 128
  const MAX_SMALL_REQUEST := 232
  const SYS_ALLOC_PADDING := TOP_FOOT_SIZE + 16
  const HALF_MAX_SIZE := HALF_WORD - 1
  const TRIM_THRESHOLD := 0x20_0000

  /** What the allocator returns to its caller, or the kernel panic it ends in. */
  datatype Outcome = Mem(addr: int) | Null | Panic

  /** request2size: room for the head word, rounded up to 16, at least a minimal chunk. */
  function Padded(bytes: nat): nat {
    if bytes < 23 then 32 else (bytes + 23) / 16 * 16
  }

  /** granularity_align on 64-bit words. */
  function PageAlign(x: nat): nat { (x + 4095) % WORD / PAGE * PAGE }

  /** The size of a system request that leaves need bytes beside the overhead of a segment. */
  function SystemSize(need: nat): nat { PageAlign((need + SYS_ALLOC_PADDING) % WORD) }

  predicate OnPage(x: int) { x % PAGE == 0 }

  /** grown is the least number of whole pages for need bytes and the overhead of a segment. */
  predicate LeastPages(grown: int, need: int) { grown % 4096 == 0 && need + 96 <= grown < need + 96 + 4096 }

  /** Padding loses nothing and wastes less than one alignment unit beyond the head word. */
  lemma PaddedFits(bytes: nat)
    ensures Padded(bytes) % 16 == 0 && 32 <= Padded(bytes) && bytes + 8 <= Padded(bytes)
    ensures Padded(bytes) == 32 || Padded(bytes) < bytes + 24
    ensures bytes <= MAX_SMALL_REQUEST ==> Padded(bytes) <= 240
    ensures bytes > MAX_SMALL_REQUEST ==> Padded(bytes) >= MIN_LARGE_SIZE
  {
    var q := (bytes + 23) / 16;
    assert Padded(bytes) == if bytes < 23 then 32 else q * 16;
    MultipleOf16(q);
  }

  lemma MultipleOf16(q: int)
    ensures q * 16 % 16 == 0
  {
  }

  /** Rounding to pages, when it does not wrap around. */
  lemma PageAligned(x: nat)
    requires x + 4095 < WORD
    ensures x <= PageAlign(x) < x + PAGE && PageAlign(x) % PAGE == 0
  {
    NoWrap(x + 4095);
    var q := (x + 4095) / PAGE;
    PageMultiple(q);
  }

  lemma NoWrap(x: nat)
    requires x < WORD
    ensures x % WORD == x
  {
  }

  lemma PageMultiple(q: int)
    ensures q * PAGE % PAGE == 0
  {
  }

  /** sys_alloc sees that nb plus its padding wraps around. */
  predicate Unserviceable(nb: nat) { nb + SYS_ALLOC_PADDING + 4095 >= WORD }

  lemma WrapIsSeen(nb: nat)
    requires nb < WORD && nb >= 32
    ensures SystemSize(nb) <= nb <==> Unserviceable(nb)
  {
    var x := nb + SYS_ALLOC_PADDING;
    if x + 4095 < WORD {
      NoWrap(x);
      PageAligned(x);
    } else if x < WORD {
      NoWrap(x);
      Wrapped(x + 4095);
      SmallPage((x + 4095) % WORD);
    } else {
      Wrapped(x);
      NoWrap(x % WORD + 4095);
      SmallPages(x % WORD + 4095);
    }
  }

  lemma Wrapped(x: nat)
    requires WORD <= x < 2 * WORD
    ensures x % WORD == x - WORD
  {
  }

  lemma SmallPage(x: nat)
    requires x < PAGE
    ensures x / PAGE * PAGE == 0
  {
  }

  lemma SmallPages(x: nat)
    requires x < 2 * PAGE
    ensures x / PAGE * PAGE <= PAGE
  {
  }

  /** The amount sys_trim gives back: whole pages, leaving more than pad in top. */
  lemma TrimAmount(topsize: nat, pad: nat)
    requires topsize > pad
    ensures var extra := TrimExtra(topsize, pad);
            && 0 <= extra && OnPage(extra) && extra < topsize - pad <= extra + PAGE
  {
    var q := (topsize - pad + 4095) / PAGE;
    PageMultiple(q - 1);
  }

  lemma PageIs16(x: int)
    requires x % PAGE == 0
    ensures x % 16 == 0
  {
    var q := x / PAGE;
    assert x == 16 * (256 * q);
    By16(256 * q);
  }

  lemma By16(q: int)
    ensures 16 * q % 16 == 0
  {
  }

  lemma PageSum(x: int, y: int)
    requires x % PAGE == 0 && y % PAGE == 0
    ensures (x + y) % PAGE == 0 && (x - y) % PAGE == 0
  {
    var q, r := x / PAGE, y / PAGE;
    assert x + y == (q + r) * PAGE && x - y == (q - r) * PAGE;
    PageMultiple(q + r);
    PageMultiple(q - r);
  }

  // ---------- What an allocation promises ----------

  /** No free chunk has room for nb bytes; top would have to be larger than that. */
  ghost predicate NothingFits(s: State, nb: nat) {
    && s.topsize <= nb
    && forall q {:trigger s.ch[q]} :: q in s.ch && !s.ch[q].inuse && q != s.top ==> s.ch[q].size < nb
  }

  /** p has room for nb bytes and no free chunk fits more tightly; top is only the last resort. */
  ghost predicate BestFit(s: State, nb: nat, p: int) {
    && (p in s.ch && !s.ch[p].inuse && p != s.top ==> nb <= s.ch[p].size)
    && forall q {:trigger s.ch[q]} :: q in s.ch && !s.ch[q].inuse && q != s.top && nb <= s.ch[q].size ==>
         p in s.ch && !s.ch[p].inuse && p != s.top && s.ch[p].size <= s.ch[q].size
  }

  /** The block at mem is new, aligned, and has at least bytes and at most 54 more usable bytes. */
  ghost predicate Allocated(ch: Chunks, m: seq<int>, ch': Chunks, m': seq<int>, mem: int, bytes: nat) {
    var p := mem - 16;
    && p in ch' && mem % 16 == 0 && Padded(bytes) <= ch'[p].size < Padded(bytes) + 32
    && HandedOut(ch, m, ch', m', p, ch'[p].size)
  }

  lemma HandedIn(ch: Chunks, m: seq<int>, ch': Chunks, m': seq<int>, p: int, size: nat)
    requires HandedOut(ch, m, ch', m', p, size)
    ensures p in ch' && ch'[p].inuse && ch'[p].size == size
  {
    hide Untouched;
    assert p in Blocks(ch');
  }

  lemma HandedAfter(ch: Chunks, m: seq<int>, m1: seq<int>, ch': Chunks, m': seq<int>, p: int, size: nat)
    requires Untouched(Blocks(ch), m, m1) && HandedOut(ch, m1, ch', m', p, size)
    ensures HandedOut(ch, m, ch', m', p, size)
  {
    hide Untouched;
    UntouchedTrans(Blocks(ch), m, m1, m');
  }

  /** Having moved only free chunks between bins, an operation hands out the same block. */
  lemma HandedThen(ch: Chunks, m: seq<int>, s: State, loose: set<int>, m': seq<int>, p: int, size: nat)
    requires HandedOut(ch, m, s.ch, s.m, p, size) && Ok(s, loose) && LinkWrites(s, m')
    ensures HandedOut(ch, m, s.ch, m', p, size)
  {
    hide Untouched, Ok, LinkWrites;
    LinksLeaveBlocks(s, loose, m');
    UntouchedFewer(Blocks(s.ch), Blocks(ch), s.m, m');
    UntouchedTrans(Blocks(ch), m, s.m, m');
  }

  // ---------- Which chunks fit ----------

  /** No chunk of the small bins has room for nb bytes. */
  ghost predicate NoSmallChunk(s: State, nb: nat) {
    forall q {:trigger s.sn[q]} :: q in s.sn ==> s.sn[q].size < nb
  }

  /** Without a marked bin from the one for nb on, no small bin holds a chunk for nb. */
  lemma NoSmallFits(s: State, nb: nat)
    requires Ok(s, {}) && IsSmallSize(nb)
    requires forall j: nat {:trigger Marked(s.smallmap, j)} :: SmallIndex(nb) <= j < 32 ==> !Marked(s.smallmap, j)
    ensures NoSmallChunk(s, nb)
  {
    hide TreeOk, Framed, Binned, HeaderOk, SmallApart, Listed, Marked;
    forall q {:trigger s.sn[q]} | q in s.sn ensures s.sn[q].size < nb {
      assert SmallNodeOk(s.m, s.sn, s.smallmap, q);
      SizeOfSmall(s.m, s.sn, s.smallmap, q);
      SizeInRange(s.sn[q].size);
      SizeInRange(nb);
    }
  }

  lemma NoTree(s: State)
    requires Ok(s, {}) && s.treemap == 0
    ensures s.tn == map[]
  {
    hide Framed, Binned, SmallOk, TreeOk, Marked, TreeIndex;
    ZeroMap(0);
    OkTree(s, {});
    forall p ensures p !in s.tn {
      if p in s.tn {
        var h := HeadOf(s.m, s.tn, s.treemap, p);
        BelowRoot(s.m, s.tn, s.treemap, h);
      }
    }
  }

  /** A free chunk apart from top is the victim or binned with its own size. */
  lemma FreeChunk(s: State, q: int)
    requires Ok(s, {}) && IsFree(s.ch, q) && q != s.top
    ensures (q == s.dv && s.dvsize == s.ch[q].size) || (q in s.sn && s.sn[q].size == s.ch[q].size)
         || (q in s.tn && s.tn[q].size == s.ch[q].size)
  {
    hide TreeOk, SmallOk, Framed;
    NullIsNoChunk(s, {});
    assert Somewhere(s, {}, q);
    assert q in s.sn ==> InSmall(s, q);
    assert q in s.tn ==> InLarge(s, q);
  }

  lemma BestOfTree(s: State, nb: nat, v: int)
    requires Ok(s, {}) && nb >= MIN_LARGE_SIZE && IsBest(s.tn, nb, v) && v != 0
    requires s.dvsize < nb || s.tn[v].size <= s.dvsize
    ensures BestFit(s, nb, v)
  {
    hide TreeOk, SmallOk, Framed;
    BinSets(s, {});
    assert InLarge(s, v);
    forall q {:trigger s.ch[q]} | q in s.ch && !s.ch[q].inuse && q != s.top && nb <= s.ch[q].size
      ensures s.ch[v].size <= s.ch[q].size
    {
      FreeChunk(s, q);
      assert q in s.tn ==> s.tn[q].size == s.ch[q].size;
    }
  }

  // ---------- Chunks of the bins ----------

  lemma TreeChunk(s: State, loose: set<int>, v: int)
    requires Ok(s, loose) && v in s.tn
    ensures v in s.ch && s.ch[v].size == s.tn[v].size < WORD && v > 0
  {
    hide TreeOk, SmallOk, Framed;
    BinSets(s, loose);
    NullIsNoChunk(s, loose);
    ChunkTag(s, loose, v);
  }

  lemma SmallChunk(s: State, loose: set<int>, p: int)
    requires Ok(s, loose) && p in s.sn
    ensures p in s.ch && s.ch[p].size == s.sn[p].size && IsSmallSize(s.sn[p].size) && p > 0
  {
    hide TreeOk, SmallOk, Framed;
    BinSets(s, loose);
    SmallNeighbours(s, loose, p);
  }

  lemma SmallBinFits(s: State, loose: set<int>, i: nat)
    requires Ok(s, loose) && i < 32
    ensures 0 <= SmallBinAt(i) && SmallBinAt(i) + 32 <= |s.m|
  {
    hide TreeOk, SmallOk, Binned;
    LoIsPlaced(s.ch, s.base, s.End(), s.base);
  }

  lemma DvBelowWord(s: State, loose: set<int>)
    requires Ok(s, loose)
    ensures 0 <= s.dvsize < WORD
  {
    hide TreeOk, SmallOk, Framed;
    NoDv(s, loose);
    if s.dv != 0 {
      DvLoose(s, loose);
      ChunkTag(s, loose, s.dv);
    }
  }

  /** dvsize - nb as an unsigned word. */
  lemma VictimRest(dvsize: nat, nb: nat)
    requires dvsize < WORD && nb < WORD
    ensures (dvsize - nb) % WORD == if nb <= dvsize then dvsize - nb else WORD + dvsize - nb
  {
    if nb <= dvsize {
      NoWrap(dvsize - nb);
    } else {
      BelowZero(dvsize - nb);
    }
  }

  lemma BelowZero(x: int)
    requires -WORD < x < 0
    ensures x % WORD == x + WORD
  {
  }
  // ---------- The segment ----------

  /** Mapping more memory leaves the words below as they were. */
  lemma StillBlank(m: seq<int>, m': seq<int>)
    requires Blank(m) && SameBelow(m', m, |m|)
    ensures forall i: nat {:trigger Root(m', i)} :: i < TREE_BINS ==> Root(m', i) == 0
  {
    forall i: nat {:trigger Root(m', i)} | i < TREE_BINS ensures Root(m', i) == 0 {
      assert m'[..|m|][TreeBinAt(i)] == m[TreeBinAt(i)];
      assert Root(m, i) == 0;
    }
  }

  lemma FirstStores(m: seq<int>, base: int, end: int, m': seq<int>)
    requires GM_END <= base && base + 16 <= end && |m| == end + TOP_FOOT_SIZE
    requires forall i: nat {:trigger Root(m, i)} :: i < TREE_BINS ==> Root(m, i) == 0
    requires m' == m[base + HEAD := end - base + 1][end + HEAD := TOP_FOOT_SIZE]
    ensures Blank(m') && W(m', base + HEAD) == end - base + 1 && W(m', end + HEAD) == TOP_FOOT_SIZE
  {
    forall i: nat {:trigger Root(m', i)} | i < TREE_BINS ensures Root(m', i) == 0 {
      assert Root(m, i) == 0;
    }
  }

  /** init_top after the segment has grown or shrunk to end. */
  lemma MoveStores(s: State, m: seq<int>, end: int, m': seq<int>)
    requires 0 <= s.top && s.top + 16 <= end && end % 16 == 0 && |m| == end + TOP_FOOT_SIZE <= MEMORY_LIMIT
    requires s.top + 16 <= |s.m| && m[..s.top + 16] == s.m[..s.top + 16]
    requires m' == m[s.top + HEAD := end - s.top + 1][end + HEAD := TOP_FOOT_SIZE]
    ensures TopMoved(s, end, m')
  {
    forall k {:trigger W(m', k)} | k < s.top + FD && k != s.top + HEAD ensures W(m', k) == W(s.m, k) {
      if 0 <= k {
        assert m[..s.top + 16][k] == s.m[..s.top + 16][k];
      }
    }
  }

  lemma HandedSame(ch: Chunks, m: seq<int>, ch1: Chunks, m1: seq<int>, ch': Chunks, m': seq<int>, p: int, size: nat)
    requires Blocks(ch1) == Blocks(ch) && Untouched(Blocks(ch), m, m1)
    requires HandedOut(ch1, m1, ch', m', p, size)
    ensures HandedOut(ch, m, ch', m', p, size)
  {
    hide Untouched;
    UntouchedTrans(Blocks(ch), m, m1, m');
  }

  lemma UntouchedNone(m: seq<int>, m': seq<int>)
    ensures Untouched(map[], m, m')
  {
  }

  lemma EndOf(s: State)
    requires Ok(s, {})
    ensures |s.m| == s.End() + TOP_FOOT_SIZE && s.top > 0 && s.topsize >= 16
  {
    TopRunSize(s);
  }

  lemma TopRunSize(s: State)
    requires Ok(s, {})
    ensures s.top > 0 && s.topsize >= 16
  {
    hide TreeOk, SmallOk;
    ChunkTag(s, {}, s.top);
  }

  lemma HeaderStores(m: seq<int>, i: nat, m': seq<int>)
    requires GM_END <= |m| && i < SMALL_BIN_COUNT
    requires var bin := SmallBinAt(i); m' == m[bin + BK := bin][bin + FD := bin]
    ensures |m'| == |m| && W(m', SmallBinAt(i) + FD) == SmallBinAt(i) == W(m', SmallBinAt(i) + BK)
    ensures forall j: nat {:trigger SmallBinAt(j)} :: j < i ==>
              W(m', SmallBinAt(j) + FD) == W(m, SmallBinAt(j) + FD) && W(m', SmallBinAt(j) + BK) == W(m, SmallBinAt(j) + BK)
    ensures forall j: nat {:trigger Root(m', j)} :: Root(m', j) == Root(m, j)
  {
  }

  lemma FirstFits(nb: nat)
    requires nb < WORD && !Unserviceable(nb)
    ensures var ssize := SystemSize(nb);
            OnPage(ssize) && nb + SYS_ALLOC_PADDING <= ssize && LeastPages(ssize, nb)
  {
    hide PageAlign;
    NoWrap(nb + SYS_ALLOC_PADDING);
    PageAligned(nb + SYS_ALLOC_PADDING);
  }

  lemma GrowFits(nb: nat, topsize: nat)
    requires topsize <= nb < WORD && !Unserviceable(nb)
    ensures var ssize := SystemSize(nb - topsize);
            OnPage(ssize) && nb - topsize + SYS_ALLOC_PADDING <= ssize && LeastPages(ssize, nb - topsize)
  {
    hide PageAlign;
    NoWrap(nb - topsize + SYS_ALLOC_PADDING);
    PageAligned(nb - topsize + SYS_ALLOC_PADDING);
  }

  lemma FirstDone(m: seq<int>, start: int, ssize: nat, m': seq<int>)
    requires GM_END <= start && OnPage(start) && OnPage(ssize) && ssize >= 96 && |m| == start + ssize <= MEMORY_LIMIT
    requires forall i: nat {:trigger Root(m, i)} :: i < TREE_BINS ==> Root(m, i) == 0
    requires m' == m[start + HEAD := ssize - TOP_FOOT_SIZE + 1][start + (ssize - TOP_FOOT_SIZE) + HEAD := TOP_FOOT_SIZE]
    ensures OnPage(|m'|)
    ensures var s := FirstState(m', start, start + ssize - TOP_FOOT_SIZE); Ok(s, {}) && Coalesced(s.ch) && Blocks(s.ch) == map[]
  {
    hide Ok, Coalesced, Blocks;
    var end := start + ssize - TOP_FOOT_SIZE;
    PageIs16(start);
    PageIs16(ssize);
    Aligned(start, ssize);
    Aligned(start + ssize, 80);
    PageSum(start, ssize);
    FirstStores(m, start, end, m');
    FirstOk(m', start, end);
  }

  /** Both memories hold the same words below k. */
  ghost predicate SameBelow(m: seq<int>, m0: seq<int>, k: int) {
    0 <= k <= |m0| && k <= |m| && m[..k] == m0[..k]
  }

  lemma SameBelowLess(m: seq<int>, m0: seq<int>, k: int, j: int)
    requires SameBelow(m, m0, k) && 0 <= j <= k
    ensures SameBelow(m, m0, j)
  {
    assert m[..k][..j] == m[..j] && m0[..k][..j] == m0[..j];
  }

  lemma MovedTop(s: State, m: seq<int>, end: int, m': seq<int>)
    requires Ok(s, {}) && Coalesced(s.ch) && s.top in s.ch && s.top > 0 && s.top + 16 <= end
    requires OnPage(|m|) && |m| == end + TOP_FOOT_SIZE <= MEMORY_LIMIT && SameBelow(m, s.m, s.top + 16)
    requires m' == m[s.top + HEAD := end - s.top + 1][end + HEAD := TOP_FOOT_SIZE]
    ensures var s' := Resized(s, end, m');
            && Ok(s', {}) && Coalesced(s'.ch) && s'.End() == end
            && Blocks(s'.ch) == Blocks(s.ch) && Untouched(Blocks(s.ch), s.m, m')
  {
    hide Ok, Coalesced, Blocks, Untouched, W, TopMoved;
    PageIs16(|m|);
    Aligned(|m|, 80);
    MoveStores(s, m, end, m');
    ResizeMove(s, end, m');
  }

  lemma PagesAdd(x: int, y: int)
    requires OnPage(x) && OnPage(y)
    ensures OnPage(x + y) && OnPage(x - y)
  {
    PageSum(x, y);
  }

  /** The amount sys_trim asks back. */
  function TrimExtra(topsize: nat, pad: nat): int
    requires topsize > pad
  {
    ((topsize - pad + 4095) / PAGE - 1) * PAGE
  }

  lemma CutBelow(m: seq<int>, n: nat, k: int, m': seq<int>)
    requires n <= |m| && m' == m[..|m| - n] && 0 <= k <= |m| - n
    ensures SameBelow(m', m, k)
  {
    assert m[..|m| - n][..k] == m[..k];
  }

  lemma NothingCut(m: seq<int>, m': seq<int>)
    requires |m'| == |m| && exists n {:trigger m[..n]} :: 0 <= n <= |m| && m' == m[..n]
    ensures m' == m
  {
  }
}

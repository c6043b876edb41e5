/**
  What the stores of the bin operations of dlmalloc.c do to the heap, store by store.
 */
module BinStores {
  import opened BinIndex
  import opened BinMap
  import opened Memory
  import opened TreeBins
  import opened TreeInsert
  import opened TreeUnlink
  import opened TreeSearch
  import opened SmallBins
  import opened Layout
  import opened Heap

  /** The four stores of insert_small_chunk. */
  lemma SmallStores(m: seq<int>, b: int, f: int, p: int, m': seq<int>)
    requires 0 <= b && b + 32 <= |m| && 0 <= f && f + 32 <= |m| && 0 <= p && p + 32 <= |m|
    requires b == f || b + 32 <= f
    requires b + 32 <= p && (f + 32 <= p || p + 32 <= f)
    requires m' == m[b + FD := p][f + BK := p][p + FD := f][p + BK := b]
    ensures LinksOnly(m, m', p, b, f)
    ensures W(m', b + FD) == p && W(m', f + BK) == p && W(m', p + FD) == f && W(m', p + BK) == b
  {
  }

  /** p is the first chunk of its small bin, and so the next one to be used of its size. */
  ghost predicate FirstInBin(s: State, p: int) { p in s.sn && p == W(s.m, SmallBinAt(SmallIndex(s.sn[p].size)) + FD) }

  /** List surgery in a small bin only writes links of that list. */
  lemma SmallArea(s: State, loose: set<int>, size: nat, m': seq<int>, x: int, b: int, f: int)
    requires Ok(s, loose) && IsSmallSize(size) && x in s.ch && s.ch[x].size == size
    requires LinksOnly(s.m, m', x, b, f) && InList(s.sn, size, b) && InList(s.sn, size, f)
    ensures AreaWrites(s.m, m', s.ch, s.sn.Keys + {x}, SMALL_BINS, TREE_ROOTS)
  {
    hide Framed, TreeOk, SmallOk, W;
    BinSets(s, loose);
    SizeInRange(size);
    var N := s.sn.Keys + {x};
    forall k {:trigger W(m', k)} | W(m', k) != W(s.m, k)
      ensures SMALL_BINS <= k < TREE_ROOTS || InLinks(s.ch, N, k)
    {
      assert x in N && (b in s.sn ==> b in N) && (f in s.sn ==> f in N);
      assert k == b + FD || k == f + BK || k == x + FD || k == x + BK;
    }
  }

  /** Room for the stores of an insertion. */
  lemma SmallRoom(s: State, loose: set<int>, p: int, size: nat)
    requires Ok(s, loose) && p in loose && p in s.ch && s.ch[p].size == size && IsSmallSize(size)
    ensures SmallFresh(s.m, s.sn, p, size) && SmallIndex(size) < SMALL_BIN_COUNT && SmallOk(s.m, s.sn, s.smallmap)
    ensures var b, f := Header(size), FrontOf(s.m, s.smallmap, size);
            && 0 <= b && b + 32 <= GM_END <= p && p + 32 <= |s.m|
            && (f == b || (b + 32 <= f && f + 32 <= |s.m| && (f + 32 <= p || p + 32 <= f)))
            && InList(s.sn, size, b) && InList(s.sn, size, f)
  {
    hide TreeOk, W, Listed, HeaderOk, SmallApart, Marked;
    BinSets(s, loose);
    SizeInRange(size);
    FrontIsInList(s.m, s.sn, s.smallmap, size);
    var f := FrontOf(s.m, s.smallmap, size);
    SmallFreshAt(s, loose, p, size);
    if f in s.sn {
      SizeOfSmall(s.m, s.sn, s.smallmap, f);
    }
  }

  lemma SmallFreshAt(s: State, loose: set<int>, p: int, size: nat)
    requires Ok(s, loose) && p in loose && p in s.ch && s.ch[p].size == size && IsSmallSize(size)
    ensures SmallFresh(s.m, s.sn, p, size)
  {
    hide TreeOk, W, SmallOk, Binned, Laid, Tagged, ChunkSize;
    BinSets(s, loose);
    ChunkTag(s, loose, p);
    forall q {:trigger s.sn[q]} | q in s.sn
      ensures q + s.sn[q].size <= p || p + size <= q
    {
      assert q in s.sn;
      ChunksApart(s.ch, s.base, s.End(), p, q);
    }
  }

  lemma ChunksApart(ch: Chunks, base: int, end: int, p: int, q: int)
    requires Laid(ch, base, end) && p in ch && q in ch
    ensures p == q || p + ch[p].size <= q || q + ch[q].size <= p
  {
    hide ChunkOk;
    assert Apart(ch, p, q) && Apart(ch, q, p);
  }

  /** The place of a chunk and what its head word says. */
  lemma ChunkTag(s: State, loose: set<int>, p: int)
    requires Ok(s, loose) && p in s.ch
    ensures Laid(s.ch, s.base, s.End()) && GM_END <= s.base <= p < p + s.ch[p].size <= s.End()
    ensures s.End() + 80 == |s.m| <= MEMORY_LIMIT
    ensures p % 16 == 0 && s.ch[p].size % 16 == 0 && s.ch[p].size >= 16
    ensures var h := W(s.m, p + HEAD);
            && h == HeadWord(s.ch[p].size, s.ch[p].inuse, PrevInuse(s.ch, s.base, p))
            && ChunkSize(h) == s.ch[p].size && Cinuse(h) == s.ch[p].inuse && Pinuse(h) == PrevInuse(s.ch, s.base, p)
            && SetPinuse(h) == HeadWord(s.ch[p].size, s.ch[p].inuse, true)
            && ClearPinuse(h) == HeadWord(s.ch[p].size, s.ch[p].inuse, false)
  {
    hide TreeOk, W, SmallOk, Binned, ChunkOk, Apart, HeadWord, ChunkSize, Cinuse, Pinuse, SetPinuse, ClearPinuse, PrevInuse;
    LoIsPlaced(s.ch, s.base, s.End(), p);
    assert TagOk(s.m, s.ch, s.base, s.End(), p);
    HeadWordFields(s.ch[p].size, s.ch[p].inuse, PrevInuse(s.ch, s.base, p));
  }

  /** The two stores of an unlink. */
  lemma TwoStores(m: seq<int>, x: int, b: int, f: int, m': seq<int>)
    requires 0 <= b && b + 32 <= |m| && 0 <= f && f + 32 <= |m|
    requires b + 32 <= f || f + 32 <= b
    requires m' == m[f + BK := b][b + FD := f]
    ensures LinksOnly(m, m', x, b, f)
    ensures W(m', f + BK) == b && W(m', b + FD) == f
  {
  }

  /** Where the neighbours of a chunk in a small bin can be. */
  lemma SmallNeighbours(s: State, loose: set<int>, p: int)
    requires Ok(s, loose) && p in s.sn
    ensures SmallOk(s.m, s.sn, s.smallmap) && p in s.ch && IsFree(s.ch, p) && s.ch[p].size == s.sn[p].size
    ensures IsSmallSize(s.sn[p].size) && SmallIndex(s.sn[p].size) < SMALL_BIN_COUNT && GM_END <= p && p + 32 <= |s.m|
    ensures var f, b := W(s.m, p + FD), W(s.m, p + BK);
            && 0 <= f && f + 32 <= |s.m| && 0 <= b && b + 32 <= |s.m|
            && InList(s.sn, s.sn[p].size, f) && InList(s.sn, s.sn[p].size, b)
            && (f != b ==> f + 32 <= b || b + 32 <= f)
  {
    hide TreeOk, W, Framed, HeaderOk;
    BinSets(s, loose);
    SizeOfSmall(s.m, s.sn, s.smallmap, p);
    assert SmallNodeOk(s.m, s.sn, s.smallmap, p);
    var f, b := W(s.m, p + FD), W(s.m, p + BK);
    if f in s.sn { SizeOfSmall(s.m, s.sn, s.smallmap, f); }
    if b in s.sn { SizeOfSmall(s.m, s.sn, s.smallmap, b); }
    if f in s.sn && b in s.sn {
      assert SmallApart(s.sn, f, b) && SmallApart(s.sn, b, f);
    }
  }

  lemma NoWrites(m: seq<int>, ch: Chunks, N: set<int>, lo: int, hi: int)
    ensures AreaWrites(m, m, ch, N, lo, hi)
  {
  }

  // ---------- Large chunks ----------

  /** The walk of insert_large_chunk stands at tree node t, on the path of the size. */
  ghost predicate OnWay(t: Nodes, size: nat, at: int) {
    && InTree(t, at) && TreeIndex(t[at].size) == TreeIndex(size)
    && t[at].depth <= OpenBits(TreeIndex(size))
    && Path(size, t[at].depth) == Path(t[at].size, t[at].depth)
    && forall y {:trigger t[y]} :: InTree(t, y) && t[y].size == size ==> t[y].depth >= t[at].depth
  }

  lemma WayBegin(m: seq<int>, t: Nodes, tm: binmap, size: nat)
    requires TreeOk(m, t, tm) && IsLargeSize(size) && Marked(tm, TreeIndex(size))
    ensures var c := Root(m, TreeIndex(size)); c != 0 && InTree(t, c) && OnWay(t, size, c) && t[c].depth == 0
  {
    hide Path, Dir, TreeIndex, NodeOk, PairOk, W, Root, Marked;
    var c := Root(m, TreeIndex(size));
    assert RootOk(m, t, tm, TreeIndex(size));
    ChildDepth(m, t, tm, c);
    PathStart(t[c].size, size);
  }

  /** If the sizes differ there is a next bit, and a child in its direction is on the way again. */
  lemma WayOn(m: seq<int>, t: Nodes, tm: binmap, size: nat, at: int)
    requires TreeOk(m, t, tm) && OnWay(t, size, at) && t[at].size != size
    ensures t[at].depth < OpenBits(TreeIndex(size))
    ensures var c := Child(m, at, Dir(size, t[at].depth));
            if c != 0 then InTree(t, c) && OnWay(t, size, c) && t[c].depth == t[at].depth + 1
            else OpenSlot(m, t, at, size)
  {
    hide Path, Dir, TreeIndex, PairOk, RootOk, W;
    var d := t[at].depth;
    if d == OpenBits(TreeIndex(size)) {
      PathFull(size);
      PathFull(t[at].size);
    }
    var c := Child(m, at, Dir(size, d));
    if c != 0 {
      assert NodeOk(m, t, at);
      assert NodeOk(m, t, c);
      PathStep(size, d);
      PathStep(t[c].size, d);
      forall y {:trigger t[y]} | InTree(t, y) && t[y].size == size
        ensures t[y].depth >= d + 1
      {
        if t[y].depth == d {
          NodeAtPath(m, t, tm, y, at);
        }
      }
    }
  }

  /** The words of a fresh chunk may be written without touching the tree. */
  lemma FreshWrites(m: seq<int>, t: Nodes, tm: binmap, x: int, size: nat, m': seq<int>)
    requires TreeOk(m, t, tm) && Fresh(m, t, x, size) && WritesOnly(m, m', x, x + FD, x + FD)
    ensures TreeOk(m', t, tm) && Fresh(m', t, x, size)
  {
    hide Path, Dir, TreeIndex, Marked, OnRing, UnderParent, OverChild, RootOk, PairOk;
    forall p {:trigger t[p]} | p in t
      ensures SameNode(m, m', p) && p + t[p].size <= |m'|
    {
      assert NodeOk(m, t, p);
      WritesMiss(m, t, tm, x, size, m', x + FD, x + FD, p);
    }
    KeepTree(m, m', t, tm);
  }

  lemma LargeFresh(s: State, loose: set<int>, p: int, size: nat)
    requires Ok(s, loose) && p in loose && p in s.ch && s.ch[p].size == size && size >= MIN_LARGE_SIZE
    ensures Fresh(s.m, s.tn, p, size) && IsLargeSize(size) && p + 64 <= |s.m| && GM_END <= p
    ensures TreeOk(s.m, s.tn, s.treemap)
  {
    hide TreeOk, W, SmallOk, Binned, Laid, Tagged, ChunkSize;
    BinSets(s, loose);
    ChunkTag(s, loose, p);
    forall q {:trigger s.tn[q]} | q in s.tn
      ensures q + s.tn[q].size <= p || p + size <= q
    {
      assert q in s.tn;
      ChunksApart(s.ch, s.base, s.End(), p, q);
    }
  }

  /** A link word of a chunk of the tree, or a root. */
  ghost predicate TreeWord(t: Nodes, k: int) {
    (TREE_ROOTS <= k < ROOTS_END) || exists q {:trigger t[q]} :: q in t && q + FD <= k <= q + INDEX
  }

  lemma LargeArea(s: State, loose: set<int>, m': seq<int>, x: int, a: int, b: int)
    requires Ok(s, loose) && x in s.ch && s.ch[x].size >= MIN_LARGE_SIZE
    requires WritesOnly(s.m, m', x, a, b) && TreeWord(s.tn, a) && TreeWord(s.tn, b)
    ensures AreaWrites(s.m, m', s.ch, s.tn.Keys + {x}, TREE_ROOTS, ROOTS_END)
  {
    hide Framed, TreeOk, SmallOk, W;
    BinSets(s, loose);
    var N := s.tn.Keys + {x};
    forall k {:trigger W(m', k)} | W(m', k) != W(s.m, k)
      ensures TREE_ROOTS <= k < ROOTS_END || InLinks(s.ch, N, k)
    {
      if x + FD <= k <= x + INDEX {
        assert x in N;
      } else {
        assert TreeWord(s.tn, k);
        if !(TREE_ROOTS <= k < ROOTS_END) {
          var q :| q in s.tn && q + FD <= k <= q + INDEX;
          assert q in N && q in s.tn;
        }
      }
    }
  }

  /** The stores that make a fresh chunk a leaf linked from slot a. */
  lemma LeafStores(m: seq<int>, x: int, a: int, parent: int, m': seq<int>)
    requires 0 <= x && x + 64 <= |m| && 0 <= a < |m| && (a < x || x + 64 <= a)
    requires m' == m[a := x][x + PARENT := parent][x + BK := x][x + FD := x]
    ensures WritesOnly(m, m', x, a, a) && W(m', a) == x
    ensures W(m', x + PARENT) == parent && W(m', x + FD) == x && W(m', x + BK) == x
    ensures Child(m', x, 0) == Child(m, x, 0) && Child(m', x, 1) == Child(m, x, 1)
    ensures W(m', x + INDEX) == W(m, x + INDEX)
  {
  }

  lemma RingStores(m: seq<int>, x: int, T: int, F: int, m': seq<int>)
    requires 0 <= x && x + 64 <= |m| && 0 <= T && T + 64 <= |m| && 0 <= F && F + 64 <= |m|
    requires Far(x, T) && Far(x, F) && Far(T, F) && x != T && x != F
    requires m' == m[F + BK := x][T + FD := x][x + FD := F][x + BK := T][x + PARENT := 0]
    ensures WritesOnly(m, m', x, T + FD, F + BK)
    ensures W(m', x + FD) == F && W(m', x + BK) == T && W(m', T + FD) == x && W(m', F + BK) == x
    ensures W(m', x + PARENT) == 0 && Child(m', x, 0) == Child(m, x, 0) && Child(m', x, 1) == Child(m, x, 1)
    ensures W(m', x + INDEX) == W(m, x + INDEX)
  {
  }

  lemma NodeFar(m: seq<int>, t: Nodes, tm: binmap, p: int, q: int)
    requires TreeOk(m, t, tm) && p in t && q in t
    ensures Far(p, q) && GM_END <= p && p + 64 <= |m| && GM_END <= q && q + 64 <= |m|
  {
    hide Path, Dir, TreeIndex, OnRing, UnderParent, OverChild, RootOk;
    assert NodeOk(m, t, p) && NodeOk(m, t, q);
    assert PairOk(t, p, q) && PairOk(t, q, p);
  }

  lemma RingOf(m: seq<int>, t: Nodes, tm: binmap, p: int)
    requires TreeOk(m, t, tm) && p in t
    ensures W(m, p + FD) in t && W(m, p + BK) in t
    ensures t[W(m, p + FD)].size == t[p].size && t[W(m, p + BK)].size == t[p].size
  {
    hide Path, Dir, TreeIndex, UnderParent, OverChild, RootOk, W;
    assert NodeOk(m, t, p);
  }

  lemma ClearedLinks(m: seq<int>, x: int, i: int, m': seq<int>)
    requires 0 <= x && x + 64 <= |m|
    requires m' == m[x + INDEX := i][x + CHILD + 8 := 0][x + CHILD := 0]
    ensures WritesOnly(m, m', x, x + FD, x + FD)
    ensures W(m', x + INDEX) == i && Child(m', x, 0) == 0 && Child(m', x, 1) == 0
  {
  }

  lemma LeafAtRoot(m: seq<int>, x: int, size: nat)
    requires W(m, x + FD) == x && W(m, x + BK) == x && W(m, x + PARENT) == TreeBinAt(TreeIndex(size))
    requires W(m, x + INDEX) == TreeIndex(size) && Child(m, x, 0) == 0 && Child(m, x, 1) == 0
    requires W(m, TreeBinAt(TreeIndex(size))) == x
    ensures NewLeaf(m, x, size, TreeBinAt(TreeIndex(size))) && Root(m, TreeIndex(size)) == x
    ensures forall t: Nodes {:trigger TreeWord(t, TreeBinAt(TreeIndex(size)))} :: TreeWord(t, TreeBinAt(TreeIndex(size)))
  {
    hide W, Child, TreeIndex;
  }

  lemma LeafAt(m: seq<int>, x: int, size: nat, parent: int)
    requires W(m, x + FD) == x && W(m, x + BK) == x && W(m, x + PARENT) == parent
    requires W(m, x + INDEX) == TreeIndex(size) && Child(m, x, 0) == 0 && Child(m, x, 1) == 0
    ensures NewLeaf(m, x, size, parent)
  {
    hide W, Child, TreeIndex;
  }

  lemma RingAt(m: seq<int>, x: int, size: nat, T: int, F: int)
    requires W(m, x + FD) == F && W(m, x + BK) == T && W(m, T + FD) == x && W(m, F + BK) == x
    requires Child(m, x, 0) == 0 && Child(m, x, 1) == 0
    requires W(m, x + PARENT) == 0 && W(m, x + INDEX) == TreeIndex(size)
    ensures RingLinks(m, x, size, T, F)
  {
    hide W, Child, TreeIndex;
  }

  lemma SlotWord(t: Nodes, p: int, b: nat)
    requires p in t && b <= 1
    ensures TreeWord(t, p + CHILD + 8 * b)
  {
    assert p in t && t[p] == t[p];
  }

  lemma RingWords(t: Nodes, p: int, q: int)
    requires p in t && q in t
    ensures TreeWord(t, p + FD) && TreeWord(t, q + BK) && TreeWord(t, p + BK) && TreeWord(t, q + FD)
  {
    assert t[p] == t[p] && t[q] == t[q];
  }

  lemma ChildWord(m: seq<int>, p: int, b: nat)
    requires 0 <= p && p + 64 <= |m| && b <= 1
    ensures Child(m, p, b) == m[p + CHILD + 8 * b]
  {
  }

  lemma WayDepth(t: Nodes, size: nat, at: int)
    requires OnWay(t, size, at)
    ensures forall y {:trigger t[y]} :: InTree(t, y) && t[y].size == size ==> t[y].depth >= t[at].depth
  {
  }

  lemma FreshFar(m: seq<int>, t: Nodes, tm: binmap, x: int, size: nat, p: int)
    requires TreeOk(m, t, tm) && Fresh(m, t, x, size) && p in t
    ensures Far(x, p) && x != p && x >= GM_END && x + 64 <= |m|
  {
    hide Path, Dir, TreeIndex, OnRing, UnderParent, OverChild, RootOk, PairOk;
    assert NodeOk(m, t, p);
    assert p + t[p].size <= x || x + size <= p;
  }

  lemma WritesTrans(m: seq<int>, m1: seq<int>, m2: seq<int>, x: int, a: int, b: int)
    requires WritesOnly(m, m1, x, x + FD, x + FD) && WritesOnly(m1, m2, x, a, b)
    ensures WritesOnly(m, m2, x, a, b)
  {
    hide W;
  }

  lemma FirstOfBin(s: State, loose: set<int>, i: nat)
    requires Ok(s, loose) && i < SMALL_BIN_COUNT && Marked(s.smallmap, i)
    ensures var p := W(s.m, SmallBinAt(i) + FD);
            p in s.sn && s.sn[p].size == 8 * i && W(s.m, p + BK) == SmallBinAt(i)
  {
    hide TreeOk, Framed, Binned, W, Marked, Listed, SmallApart;
    assert HeaderOk(s.m, s.sn, s.smallmap, i);
    SizeOfSmall(s.m, s.sn, s.smallmap, W(s.m, SmallBinAt(i) + FD));
  }

  // ---------- Unlinking a large chunk ----------

  /** What linking r in place of x stores, child by child. */
  ghost function LinkChild(m: seq<int>, r: int, b: nat, c: int): seq<int>
    requires 0 <= r && r + 64 <= |m| && 0 <= c && c + 64 <= |m| && b <= 1
  {
    if c != 0 then m[r + CHILD + 8 * b := c][c + PARENT := r] else m
  }

  lemma PlaceStores(m: seq<int>, t: Nodes, tm: binmap, x: int, r: int, m': seq<int>)
    requires Handover(m, t, tm, x, r)
    requires r + 64 <= |m| && 0 <= r && 0 <= SlotOf(m, t, x) < |m|
    requires var c0, c1 := Child(m, x, 0), Child(m, x, 1);
             && 0 <= c0 && c0 + 64 <= |m| && 0 <= c1 && c1 + 64 <= |m|
             && m' == LinkChild(LinkChild(m[SlotOf(m, t, x) := r][r + PARENT := W(m, x + PARENT)], r, 0, c0), r, 1, c1)
    ensures PlaceTaken(m, t, x, r, m')
  {
    hide Path, Dir, TreeIndex, Settled, OnRing, RootOk, HandoverPairs;
    var c0, c1, q := Child(m, x, 0), Child(m, x, 1), W(m, x + PARENT);
    HandoverFar(m, t, tm, x, r, r, x);
    if c0 != 0 { HandoverFar(m, t, tm, x, r, c0, r); }
    if c1 != 0 { HandoverFar(m, t, tm, x, r, c1, r); }
    if c0 != 0 && c1 != 0 { HandoverFar(m, t, tm, x, r, c0, c1); }
    if t[x].depth > 0 {
      HandoverFar(m, t, tm, x, r, q, r);
      if c0 != 0 { HandoverFar(m, t, tm, x, r, q, c0); }
      if c1 != 0 { HandoverFar(m, t, tm, x, r, q, c1); }
    }
    assert t[x].depth > 0 ==> q != r && q != c0 && q != c1;
    assert c0 != 0 ==> c0 != c1;
    PlaceStoresAt(m, t, x, r, m');
  }

  lemma PlaceStoresAt(m: seq<int>, t: Nodes, x: int, r: int, m': seq<int>)
    requires x in t && GM_END <= r && r + 64 <= |m| && 0 <= SlotOf(m, t, x) < |m|
    requires Child(m, r, 0) == 0 && Child(m, r, 1) == 0
    requires var c0, c1, q, slot := Child(m, x, 0), Child(m, x, 1), W(m, x + PARENT), SlotOf(m, t, x);
             && (c0 == 0 || (GM_END <= c0 && c0 + 64 <= |m| && Far(r, c0) && c0 != r && c0 != c1))
             && (c1 == 0 || (GM_END <= c1 && c1 + 64 <= |m| && Far(r, c1) && c1 != r))
             && (c0 == 0 || c1 == 0 || Far(c0, c1))
             && (t[x].depth > 0 ==>
                   && q != r && Far(q, r) && (c0 != 0 ==> q != c0 && Far(q, c0)) && (c1 != 0 ==> q != c1 && Far(q, c1)))
             && m' == LinkChild(LinkChild(m[slot := r][r + PARENT := q], r, 0, c0), r, 1, c1)
    ensures PlaceTaken(m, t, x, r, m')
  {
    hide Path, Dir, TreeIndex;
    var c0, c1, q, slot := Child(m, x, 0), Child(m, x, 1), W(m, x + PARENT), SlotOf(m, t, x);
    assert t[x].depth == 0 ==> slot < GM_END;
    PlaceNumbers(m, slot, r, q, c0, c1, m');
  }

  /** The same on bare addresses. */
  lemma PlaceNumbers(m: seq<int>, slot: int, r: int, q: int, c0: int, c1: int, m': seq<int>)
    requires 0 <= r && r + 64 <= |m| && 0 <= slot < |m| && (slot < r || r + 64 <= slot)
    requires W(m, r + CHILD) == 0 && W(m, r + CHILD + 8) == 0
    requires 0 <= c0 && c0 + 64 <= |m| && (c0 == 0 || ((r + 64 <= c0 || c0 + 64 <= r) && (slot < c0 || c0 + 64 <= slot)))
    requires 0 <= c1 && c1 + 64 <= |m| && (c1 == 0 || ((r + 64 <= c1 || c1 + 64 <= r) && (slot < c1 || c1 + 64 <= slot)))
    requires c0 == 0 || c1 == 0 || c0 + 64 <= c1 || c1 + 64 <= c0
    requires m' == LinkChild(LinkChild(m[slot := r][r + PARENT := q], r, 0, c0), r, 1, c1)
    ensures |m'| == |m|
    ensures forall k {:trigger W(m', k)} ::
              (&& k != slot && k != r + PARENT && k != r + CHILD && k != r + CHILD + 8
               && (c0 == 0 || k != c0 + PARENT) && (c1 == 0 || k != c1 + PARENT)) ==> W(m', k) == W(m, k)
    ensures W(m', slot) == r && W(m', r + PARENT) == q && W(m', r + CHILD) == c0 && W(m', r + CHILD + 8) == c1
    ensures (c0 != 0 ==> W(m', c0 + PARENT) == r) && (c1 != 0 ==> W(m', c1 + PARENT) == r)
  {
  }

  /** r is a proper descendant of x, and rp the address of the word that points to it. */
  ghost predicate Descendant(m: seq<int>, t: Nodes, x: int, r: int, rp: int) {
    InTree(t, x) && InTree(t, r) && r != x && Below(t, x, r) && t[r].depth > 0 && rp == SlotOf(m, t, r)
  }

  lemma DescendantChild(m: seq<int>, t: Nodes, tm: binmap, x: int, p: int, b: nat)
    requires TreeOk(m, t, tm) && InTree(t, x) && b <= 1 && Child(m, p, b) != 0
    requires p == x || (InTree(t, p) && p != x && Below(t, x, p))
    ensures Descendant(m, t, x, Child(m, p, b), p + CHILD + 8 * b) && t[Child(m, p, b)].depth == t[p].depth + 1 <= 64
  {
    hide Path, Dir, TreeIndex, PairOk, RootOk, W;
    var c := Child(m, p, b);
    assert NodeOk(m, t, p);
    assert NodeOk(m, t, c);
    assert Below(t, c, c);
    ChildBelow(m, t, tm, p, b, c);
    if p != x {
      BelowTrans(t, x, p, c);
    }
  }

  lemma DescendantIs(m: seq<int>, t: Nodes, x: int, r: int, rp: int)
    requires Descendant(m, t, x, r, rp)
    ensures InTree(t, x) && InTree(t, r) && r != x && Below(t, x, r)
  {
  }

  lemma SlotInRange(m: seq<int>, t: Nodes, tm: binmap, r: int)
    requires TreeOk(m, t, tm) && InTree(t, r)
    ensures 0 <= SlotOf(m, t, r) < |m| && TreeWord(t, SlotOf(m, t, r)) && W(m, SlotOf(m, t, r)) == r
    ensures t[r].depth == 0 <==> Root(m, TreeIndex(t[r].size)) == r
    ensures t[r].depth > 0 ==>
              var q := W(m, r + PARENT);
              && InTree(t, q) && GM_END <= q && q + 64 <= |m| && q != r
              && SlotOf(m, t, r) == q + CHILD + 8 * Dir(t[r].size, t[r].depth - 1)
              && (Child(m, q, 0) == r <==> Dir(t[r].size, t[r].depth - 1) == 0)
    ensures W(m, r + INDEX) == TreeIndex(t[r].size) && W(m, r + PARENT) != 0
  {
    hide Path, Dir, TreeIndex, OnRing, PairOk;
    assert NodeOk(m, t, r);
    assert RootOk(m, t, tm, TreeIndex(t[r].size));
    if t[r].depth > 0 {
      var q := W(m, r + PARENT);
      assert NodeOk(m, t, q);
      SlotWord(t, q, Dir(t[r].size, t[r].depth - 1));
    }
  }

  lemma ClearStores(m: seq<int>, t: Nodes, r: int, m': seq<int>)
    requires r in t && 0 <= SlotOf(m, t, r) < |m| && m' == m[SlotOf(m, t, r) := 0]
    ensures SlotCleared(m, t, r, m')
  {
    hide SlotOf;
  }

  /** Everything the code reads to find the word that points down to x. */
  ghost predicate SlotKnown(m: seq<int>, t: Nodes, x: int)
    requires x in t
  {
    var i, q := TreeIndex(t[x].size), W(m, x + PARENT);
    && 0 <= x && x + 64 <= |m| && GM_END <= |m| && i < TREE_BINS
    && 0 <= SlotOf(m, t, x) < |m| && W(m, x + INDEX) == i
    && (t[x].depth == 0 <==> Root(m, i) == x)
    && (t[x].depth > 0 ==> 0 <= q && q + 64 <= |m| && (Child(m, q, 0) == x <==> Dir(t[x].size, t[x].depth - 1) == 0))
  }

  lemma SlotKnownInTree(m: seq<int>, t: Nodes, tm: binmap, x: int)
    requires TreeOk(m, t, tm) && InTree(t, x)
    ensures SlotKnown(m, t, x)
  {
    hide Path, Dir, TreeIndex, TreeOk, TreeWord, Root, SlotOf, Child;
    ChildDepth(m, t, tm, x);
    SlotInRange(m, t, tm, x);
  }

  lemma SlotKnownInHandover(m: seq<int>, t: Nodes, tm: binmap, x: int, r: int)
    requires Handover(m, t, tm, x, r)
    ensures SlotKnown(m, t, x)
    ensures GM_END <= r && r + 64 <= |m| && GM_END <= x && x + 64 <= |m|
    ensures var c0, c1 := Child(m, x, 0), Child(m, x, 1);
            0 <= c0 && c0 + 64 <= |m| && 0 <= c1 && c1 + 64 <= |m|
  {
    hide Path, Dir, TreeIndex, OnRing, HandoverPairs;
    HandoverPlaced(m, t, tm, x, r, x);
    HandoverPlaced(m, t, tm, x, r, r);
    assert RootOk(m, t, tm, TreeIndex(t[x].size));
    if t[x].depth > 0 {
      HandoverPlaced(m, t, tm, x, r, W(m, x + PARENT));
      assert Settled(m, t, x, r, W(m, x + PARENT));
    }
    if Child(m, x, 0) != 0 { HandoverPlaced(m, t, tm, x, r, Child(m, x, 0)); }
    if Child(m, x, 1) != 0 { HandoverPlaced(m, t, tm, x, r, Child(m, x, 1)); }
  }

  lemma HandoverPlaced(m: seq<int>, t: Nodes, tm: binmap, x: int, r: int, p: int)
    requires Handover(m, t, tm, x, r) && p in t
    ensures GM_END <= p && p + 64 <= |m|
  {
    hide Path, Dir, TreeIndex, OnRing, HandoverPairs, UnderParent, OverChild, RootOk;
    assert p != x && p != r ==> Settled(m, t, x, r, p);
  }

  /** Nothing that SlotKnown speaks of depends on the ring links. */
  lemma HandoverSizes(m: seq<int>, t: Nodes, tm: binmap, x: int, r: int)
    requires Handover(m, t, tm, x, r)
    ensures InTree(t, x) && InTree(t, r) && x != r
  {
  }

  /** Only link words of tree chunks, and roots, are written. */
  ghost predicate TreeWrites(m: seq<int>, m': seq<int>, t: Nodes) {
    |m'| == |m| && forall k {:trigger W(m', k)} :: W(m', k) == W(m, k) || TreeWord(t, k)
  }

  lemma TreeWritesTrans(m: seq<int>, m1: seq<int>, m2: seq<int>, t: Nodes, t1: Nodes)
    requires TreeWrites(m, m1, t) && TreeWrites(m1, m2, t1) && t1.Keys == t.Keys
    ensures TreeWrites(m, m2, t)
  {
    hide W;
    forall k {:trigger W(m2, k)}
      ensures W(m2, k) == W(m, k) || TreeWord(t, k)
    {
      if TreeWord(t1, k) && !(TREE_ROOTS <= k < ROOTS_END) {
        var q :| q in t1 && q + FD <= k <= q + INDEX;
        assert t[q] == t[q];
      }
      assert W(m1, k) == W(m1, k);
    }
  }

  lemma TreeWritesArea(s: State, loose: set<int>, m': seq<int>)
    requires Ok(s, loose) && TreeWrites(s.m, m', s.tn)
    ensures AreaWrites(s.m, m', s.ch, s.tn.Keys, TREE_ROOTS, ROOTS_END)
  {
    hide Framed, TreeOk, SmallOk, W;
    BinSets(s, loose);
    forall k {:trigger W(m', k)} | W(m', k) != W(s.m, k)
      ensures TREE_ROOTS <= k < ROOTS_END || InLinks(s.ch, s.tn.Keys, k)
    {
      if !(TREE_ROOTS <= k < ROOTS_END) {
        var q :| q in s.tn && q + FD <= k <= q + INDEX;
        assert q in s.tn.Keys && q in s.tn;
      }
    }
  }

  /** The two stores that close the ring around x. */
  lemma RingStoresClosed(m: seq<int>, t: Nodes, tm: binmap, x: int, m': seq<int>)
    requires TreeOk(m, t, tm) && x in t && W(m, x + BK) != x
    requires var r, f := W(m, x + BK), W(m, x + FD);
             && 0 <= f && f + 64 <= |m| && 0 <= r && r + 64 <= |m|
             && m' == m[f + BK := r][r + FD := f]
    ensures RingClosed(m, m', x) && TreeWrites(m, m', t) && W(m', x + PARENT) == W(m, x + PARENT)
  {
    hide Path, Dir, TreeIndex, TreeOk, TreeWord;
    RingOf(m, t, tm, x);
    var r, f := W(m, x + BK), W(m, x + FD);
    NodeFar(m, t, tm, r, f);
    NodeFar(m, t, tm, x, f);
    NodeFar(m, t, tm, x, r);
    RingWords(t, r, f);
  }

  lemma SlotWrites(m: seq<int>, t: Nodes, tm: binmap, r: int, v: int, m': seq<int>)
    requires TreeOk(m, t, tm) && InTree(t, r) && 0 <= SlotOf(m, t, r) < |m| && m' == m[SlotOf(m, t, r) := v]
    ensures TreeWrites(m, m', t)
    ensures forall p {:trigger t[p]} :: p in t ==> W(m', p + PARENT) == W(m, p + PARENT)
  {
    hide TreeOk, TreeWord, SlotOf, TreeIndex, Path, Dir;
    SlotInRange(m, t, tm, r);
    SlotPlace(m, t, tm, r);
    forall p {:trigger t[p]} | p in t
      ensures W(m', p + PARENT) == W(m, p + PARENT)
    {
      NodeFar(m, t, tm, p, p);
      if t[r].depth > 0 { NodeFar(m, t, tm, p, W(m, r + PARENT)); }
    }
  }

  lemma SlotPlace(m: seq<int>, t: Nodes, tm: binmap, r: int)
    requires TreeOk(m, t, tm) && InTree(t, r)
    ensures t[r].depth == 0 ==> SlotOf(m, t, r) < GM_END
  {
    hide TreeOk, TreeIndex, Path, Dir;
  }

  lemma PlaceWrites(m: seq<int>, t: Nodes, tm: binmap, x: int, r: int, m': seq<int>)
    requires Handover(m, t, tm, x, r) && PlaceTaken(m, t, x, r, m')
    ensures TreeWrites(m, m', t)
  {
    hide Path, Dir, TreeIndex, Settled, OnRing, RootOk, HandoverPairs, W;
    var c0, c1, q := Child(m, x, 0), Child(m, x, 1), W(m, x + PARENT);
    if t[x].depth > 0 { SlotWord(t, q, Dir(t[x].size, t[x].depth - 1)); }
    forall k {:trigger W(m', k)} | W(m', k) != W(m, k)
      ensures TreeWord(t, k)
    {
      assert t[r] == t[r];
      assert c0 != 0 ==> t[c0] == t[c0];
      assert c1 != 0 ==> t[c1] == t[c1];
    }
  }

  /** After the slot of x is set, its own links still read the same. */
  lemma SlotMissesX(m: seq<int>, t: Nodes, tm: binmap, x: int, r: int)
    requires Handover(m, t, tm, x, r) && 0 <= SlotOf(m, t, x) < |m|
    ensures var m' := m[SlotOf(m, t, x) := r];
            Child(m', x, 0) == Child(m, x, 0) && Child(m', x, 1) == Child(m, x, 1) && W(m', x + PARENT) == W(m, x + PARENT)
    ensures var c0, c1 := Child(m, x, 0), Child(m, x, 1);
            && (c0 != 0 ==> x + 64 <= c0 || c0 + 64 <= x) && (x + 64 <= r || r + 64 <= x)
  {
    hide Path, Dir, TreeIndex, Settled, OnRing, RootOk, HandoverPairs;
    HandoverFar(m, t, tm, x, r, x, r);
    if Child(m, x, 0) != 0 { HandoverFar(m, t, tm, x, r, x, Child(m, x, 0)); }
    if t[x].depth > 0 { HandoverFar(m, t, tm, x, r, x, W(m, x + PARENT)); }
  }

  lemma OkTree(s: State, loose: set<int>)
    requires Ok(s, loose)
    ensures TreeOk(s.m, s.tn, s.treemap) && SmallOk(s.m, s.sn, s.smallmap) && Framed(s) && Binned(s, loose)
  {
  }

  lemma NoTreeWrites(m: seq<int>, t: Nodes)
    ensures TreeWrites(m, m, t)
  {
  }

  lemma KnownSlot(m: seq<int>, t: Nodes, x: int)
    requires x in t && SlotKnown(m, t, x)
    ensures 0 <= SlotOf(m, t, x) < |m|
  {
  }

  lemma DescendantSlot(m: seq<int>, t: Nodes, tm: binmap, x: int, r: int, rp: int)
    requires TreeOk(m, t, tm) && Descendant(m, t, x, r, rp)
    ensures r in t && rp == SlotOf(m, t, r) && 0 <= rp < |m|
  {
    hide SlotOf, TreeWord, TreeOk;
    SlotInRange(m, t, tm, r);
  }

  /** A chunk that is not in the tree has company on its ring. */
  lemma RingMember(m: seq<int>, t: Nodes, tm: binmap, x: int)
    requires TreeOk(m, t, tm) && x in t
    ensures GM_END <= x && x + 64 <= |m|
    ensures if t[x].rank == 0 then W(m, x + PARENT) != 0 else W(m, x + PARENT) == 0 && W(m, x + BK) != x
    ensures var r, f := W(m, x + BK), W(m, x + FD);
            && r in t && f in t && 0 <= f && f + 64 <= |m| && 0 < r && r + 64 <= |m|
  {
    hide Path, Dir, TreeIndex, OverChild, RootOk, PairOk;
    assert NodeOk(m, t, x);
    assert NodeOk(m, t, W(m, x + BK)) && NodeOk(m, t, W(m, x + FD));
    if t[x].rank == 0 { SlotInRange(m, t, tm, x); }
  }
}

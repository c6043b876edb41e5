/**
  The allocator of dlmalloc.c as the kernel configures it: one segment grown and shrunk by
  sbrk, 16-byte alignment, no mmap, no locks.
 */
module DlMalloc {
  import opened Words
  import opened BinIndex
  import opened BinMap
  import opened Memory
  import opened TreeBins
  import opened TreeInsert
  import opened TreeUnlink
  import opened TreeSearch
  import opened SmallBins
  import opened Layout
  import opened Heap
  import opened BinStores
  import opened Carving
  import opened ChunkMoves
  import opened Merging
  import opened Segment
  import opened Requests
  import opened Fitting
  import opened Reshaping
  import opened Payload
  import opened Results
  import opened Alignment

  class MallocState {
    var m: seq<int>
    var smallmap: binmap
    var treemap: binmap
    var dv: int
    var dvsize: int
    var top: int
    var topsize: int
    var base: int
    var segsize: int
    var footprint: int
    var maxFootprint: int
    var trimCheck: int
    const breakBegin: int
    const breakEnd: int
    ghost var ch: Chunks
    ghost var sn: Smalls
    ghost var tn: Nodes

    ghost function S(): State
      reads this
    {
      State(m, smallmap, treemap, dv, dvsize, top, topsize, base, ch, sn, tn)
    }

    ghost function End(): int
      reads this
    {
      top + topsize
    }

    /** The program break is |m|; the segment reaches up to it, and footprint counts it. */
    ghost predicate Ready()
      reads this
    {
      && Ok(S(), {}) && Coalesced(ch)
      && base == breakBegin && segsize == |m| - base == footprint <= maxFootprint
      && OnPage(|m|) && |m| <= breakEnd && trimCheck in {0x20_0000, WORD - 1}
    }

    /** malloc_state before the first request. */
    ghost predicate Idle()
      reads this
    {
      && S() == State(m, 0, 0, 0, 0, 0, 0, base, map[], map[], map[])
      && Blank(m) && |m| == breakBegin && segsize == footprint == 0 <= maxFootprint
    }

    ghost predicate Valid()
      reads this
    {
      && GM_END <= breakBegin <= breakEnd <= MEMORY_LIMIT && OnPage(breakBegin) && OnPage(breakEnd)
      && if top == 0 then Idle() else Ready()
    }

    ghost method ValidIsSound()
      requires Valid()
      ensures Sound(S())
      ensures Empty(S()) <==> top == 0
    {
      hide Ok, Coalesced;
    }

    /** The kernel image has been loaded; its bss is zero. */
    constructor (begin: nat, end: nat)
      requires GM_END <= begin <= end <= MEMORY_LIMIT && OnPage(begin) && OnPage(end)
      ensures Valid() && Blocks(ch) == map[] && breakBegin == begin && breakEnd == end
    {
      m := seq(begin, _ => 0);
      smallmap, treemap, dv, dvsize, top, topsize, base := 0, 0, 0, 0, 0, 0, 0;
      segsize, footprint, maxFootprint, trimCheck := 0, 0, 0, 0;
      breakBegin, breakEnd := begin, end;
      ch, sn, tn := map[], map[], map[];
    }

    method InsertSmallChunk(ghost loose: set<int>, p: int, size: nat)
      requires Ok(S(), loose) && p in loose && p in ch && ch[p].size == size && IsSmallSize(size)
      modifies `m, `smallmap, `sn
      ensures Ok(S(), loose - {p}) && LinkWrites(old(S()), m)
      ensures FirstInBin(S(), p) && sn[p].size == size
    {
      hide Marked, Mark, Ok, LinkWrites, SmallFresh, LinksOnly, RankOf, AreaWrites;
      ghost var s := S();
      SmallRoom(s, loose, p, size);
      var i := SmallIndex(size);
      var b := SmallBinAt(i);
      var f := b;
      if !Marked(smallmap, i) {
        smallmap := Mark(smallmap, i);
      } else {
        f := m[b + FD];
      }
      m := m[b + FD := p];
      m := m[f + BK := p];
      m := m[p + FD := f];
      m := m[p + BK := b];
      SmallStores(s.m, b, f, p, m);
      ghost var n := Small(size, RankOf(s.sn, size, f) + 1);
      if Marked(s.smallmap, i) { MarkAgain(s.smallmap, i); }
      InsertSmall(s.m, s.sn, s.smallmap, p, size, m);
      SmallArea(s, loose, size, m, p, b, f);
      sn := sn[p := n];
      SmallGrew(s, loose, p, n, S());
    }

    method UnlinkSmallChunk(ghost loose: set<int>, p: int, size: nat)
      requires Ok(S(), loose) && p in sn && sn[p].size == size
      modifies `m, `smallmap, `sn
      ensures Ok(S(), loose + {p}) && LinkWrites(old(S()), m)
    {
      hide Marked, Clear, Ok, LinkWrites, LinksOnly, RankOf, AreaWrites, SmallOk;
      ghost var s := S();
      SmallNeighbours(s, loose, p);
      var f := m[p + FD];
      var b := m[p + BK];
      var i := SmallIndex(size);
      if b == f {
        smallmap := Clear(smallmap, i);
        UnlinkOnly(s.m, s.sn, s.smallmap, p);
        NoWrites(s.m, s.ch, s.sn.Keys, SMALL_BINS, TREE_ROOTS);
      } else {
        m := m[f + BK := b];
        m := m[b + FD := f];
        TwoStores(s.m, p, b, f, m);
        UnlinkSmall(s.m, s.sn, s.smallmap, p, m);
        SmallArea(s, loose, size, m, p, b, f);
        assert s.sn.Keys + {p} == s.sn.Keys;
      }
      sn := SmallMinus(sn, p);
      SmallShrank(s, loose, p, S());
    }

    /** unlink_first_small_chunk: p is the first chunk of the marked bin i. */
    method UnlinkFirstSmallChunk(ghost loose: set<int>, b: int, p: int, i: nat)
      requires Ok(S(), loose) && i < SMALL_BIN_COUNT && Marked(smallmap, i)
      requires b == SmallBinAt(i) && p == W(m, b + FD)
      modifies `m, `smallmap, `sn
      ensures p in old(sn) && old(sn)[p].size == 8 * i
      ensures Ok(S(), loose + {p}) && LinkWrites(old(S()), m)
    {
      hide Marked, Clear, Ok, LinkWrites, LinksOnly, RankOf, AreaWrites, SmallOk;
      ghost var s := S();
      FirstOfBin(s, loose, i);
      SmallNeighbours(s, loose, p);
      var f := m[p + FD];
      if b == f {
        smallmap := Clear(smallmap, i);
        UnlinkOnly(s.m, s.sn, s.smallmap, p);
        NoWrites(s.m, s.ch, s.sn.Keys, SMALL_BINS, TREE_ROOTS);
      } else {
        m := m[f + BK := b];
        m := m[b + FD := f];
        TwoStores(s.m, p, b, f, m);
        UnlinkSmall(s.m, s.sn, s.smallmap, p, m);
        SmallArea(s, loose, 8 * i, m, p, b, f);
        assert s.sn.Keys + {p} == s.sn.Keys;
      }
      sn := SmallMinus(sn, p);
      SmallShrank(s, loose, p, S());
    }

    method InsertLargeChunk(ghost loose: set<int>, p: int, size: nat)
      requires Ok(S(), loose) && p in loose && p in ch && ch[p].size == size && size >= MIN_LARGE_SIZE
      modifies `m, `treemap, `tn
      ensures Ok(S(), loose - {p}) && LinkWrites(old(S()), m)
    {
      hide Marked, Mark, Ok, LinkWrites, AreaWrites, TreeOk, Path, Dir, TreeIndex, Fresh,
        IsLargeSize, Root, TreeWord, WritesOnly, Child, NewLeaf;
      ghost var s := S();
      LargeFresh(s, loose, p, size);
      var i := TreeIndex(size);
      var h := TreeBinAt(i);
      m := m[p + INDEX := i];
      m := m[p + CHILD + 8 := 0];
      m := m[p + CHILD := 0];
      ghost var m1 := m;
      ClearedLinks(s.m, p, i, m1);
      FreshWrites(s.m, s.tn, s.treemap, p, size, m1);
      ghost var a, b, n;
      if !Marked(treemap, i) {
        treemap := Mark(treemap, i);
        m := m[h := p];
        m := m[p + PARENT := h];
        m := m[p + BK := p];
        m := m[p + FD := p];
        a, b, n := h, h, Node(size, 0, 0);
        LeafStores(m1, p, h, h, m);
        LeafAtRoot(m, p, size);
        InsertRoot(m1, s.tn, s.treemap, p, size, m);
      } else {
        a, b, n := InsertIntoTree(p, size);
      }
      WritesTrans(s.m, m1, m, p, a, b);
      LargeArea(s, loose, m, p, a, b);
      tn := tn[p := n];
      TreeGrew(s, loose, p, n, S());
    }

    /** p joins the ring of the tree node t, which has its size. */
    method JoinRing(p: int, size: nat, t: int) returns (ghost a: int, ghost b: int, ghost n: Node)
      requires TreeOk(m, tn, treemap) && Fresh(m, tn, p, size) && InTree(tn, t) && tn[t].size == size
      requires W(m, p + INDEX) == TreeIndex(size) && Child(m, p, 0) == 0 && Child(m, p, 1) == 0
      modifies `m
      ensures n.size == size && TreeOk(m, tn[p := n], treemap)
      ensures WritesOnly(old(m), m, p, a, b) && TreeWord(tn, a) && TreeWord(tn, b)
    {
      hide TreeOk, Path, Dir, TreeIndex, IsLargeSize, TreeWord, WritesOnly, Child, RingLinks;
      RingOf(m, tn, treemap, t);
      NodeFar(m, tn, treemap, t, t);
      FreshFar(m, tn, treemap, p, size, t);
      var f := m[t + FD];
      NodeFar(m, tn, treemap, t, f);
      FreshFar(m, tn, treemap, p, size, f);
      m := m[f + BK := p];
      m := m[t + FD := p];
      m := m[p + FD := f];
      m := m[p + BK := t];
      m := m[p + PARENT := 0];
      RingStores(old(m), p, t, f, m);
      RingAt(m, p, size, t, f);
      RingWords(tn, t, f);
      a, b, n := t + FD, f + BK, Node(size, tn[f].rank + 1, 0);
      InsertRing(old(m), tn, treemap, p, size, t, m);
    }

    /** p becomes a leaf in the slot c below t. */
    method HangLeaf(p: int, size: nat, t: int, c: int) returns (ghost a: int, ghost b: int, ghost n: Node)
      requires TreeOk(m, tn, treemap) && Fresh(m, tn, p, size)
      requires W(m, p + INDEX) == TreeIndex(size) && Child(m, p, 0) == 0 && Child(m, p, 1) == 0
      requires OnWay(tn, size, t) && OpenSlot(m, tn, t, size)
      requires c == t + CHILD + 8 * Dir(size, tn[t].depth) && TreeWord(tn, c) && 0 <= t + CHILD <= c <= t + CHILD + 8 && c < |m|
      modifies `m
      ensures n.size == size && TreeOk(m, tn[p := n], treemap)
      ensures WritesOnly(old(m), m, p, a, b) && TreeWord(tn, a) && TreeWord(tn, b)
    {
      hide Marked, TreeOk, Path, Dir, TreeIndex, OnWay, IsLargeSize, Root, TreeWord, WritesOnly, Child, NewLeaf, RingLinks;
      FreshFar(m, tn, treemap, p, size, t);
      m := m[c := p];
      m := m[p + PARENT := t];
      m := m[p + BK := p];
      m := m[p + FD := p];
      LeafStores(old(m), p, c, t, m);
      LeafAt(m, p, size, t);
      a, b, n := c, c, Node(size, 0, tn[t].depth + 1);
      WayDepth(tn, size, t);
      InsertChild(old(m), tn, treemap, p, size, t, m);
    }

    /** The loop of insert_large_chunk, for a bin that is not empty. */
    method InsertIntoTree(p: int, size: nat) returns (ghost a: int, ghost b: int, ghost n: Node)
      requires TreeOk(m, tn, treemap) && Fresh(m, tn, p, size) && Marked(treemap, TreeIndex(size))
      requires W(m, p + INDEX) == TreeIndex(size) && Child(m, p, 0) == 0 && Child(m, p, 1) == 0
      modifies `m
      ensures n.size == size && TreeOk(m, tn[p := n], treemap)
      ensures WritesOnly(old(m), m, p, a, b) && TreeWord(tn, a) && TreeWord(tn, b)
    {
      hide Marked, TreeOk, Path, Dir, TreeIndex, OnWay, OpenSlot, IsLargeSize, SearchKey, Root,
        TreeWord, WritesOnly, Child, NewLeaf, RingLinks;
      ghost var i := TreeIndex(size);
      WayBegin(m, tn, treemap, size);
      var t := Root(m, TreeIndex(size));
      SearchKeyStart(size, OpenBits(i));
      var k := size * Pow2(LeftShift(TreeIndex(size))) % WORD;
      ghost var d := 0;
      while true
        invariant m == old(m) && InTree(tn, t) && OnWay(tn, size, t) && tn[t].depth == d <= OpenBits(i) <= 64
        invariant k == SearchKey(size, OpenBits(i) - d)
        decreases 65 - d
      {
        ChildDepth(m, tn, treemap, t);
        if ChunkSize(m[t + HEAD]) != size {
          WayOn(m, tn, treemap, size, t);
          NextDirection(size, d);
          var c := t + CHILD + 8 * (k / HALF_WORD % 2);
          SlotWord(tn, t, Dir(size, d));
          k := 2 * k % WORD;
          ChildWord(m, t, Dir(size, d));
          if m[c] != 0 {
            t := m[c];
          } else {
            a, b, n := HangLeaf(p, size, t, c);
            return;
          }
        } else {
          a, b, n := JoinRing(p, size, t);
          return;
        }
        d := d + 1;
      }
    }

    /**
      For a chunk alone on its ring: the rightmost leaf below it, and the word pointing to
      that leaf; 0 if the chunk is a leaf itself.
     */
    method FindReplacement(x: int) returns (r: int, rp: int)
      requires TreeOk(m, tn, treemap) && InTree(tn, x)
      ensures r == 0 ==> Leaf(m, tn, x)
      ensures r != 0 ==> Leaf(m, tn, r) && Descendant(m, tn, x, r, rp)
    {
      hide TreeOk, Path, Dir, TreeIndex, Descendant, Below, Child;
      ChildDepth(m, tn, treemap, x);
      ChildWord(m, x, 0);
      ChildWord(m, x, 1);
      rp := x + CHILD + 8;
      r := m[rp];
      if r != 0 {
        DescendantChild(m, tn, treemap, x, x, 1);
      } else {
        rp := x + CHILD;
        r := m[rp];
        if r == 0 {
          return;
        }
        DescendantChild(m, tn, treemap, x, x, 0);
      }
      DescendantIs(m, tn, x, r, rp);
      while true
        invariant InTree(tn, r) && r != x && Below(tn, x, r) && Descendant(m, tn, x, r, rp) && r != 0
        decreases 65 - tn[r].depth
      {
        ChildDepth(m, tn, treemap, r);
        ChildWord(m, r, 0);
        ChildWord(m, r, 1);
        var cp := r + CHILD + 8;
        if m[cp] != 0 {
          DescendantChild(m, tn, treemap, x, r, 1);
        } else {
          cp := r + CHILD;
          if m[cp] == 0 {
            return;
          }
          DescendantChild(m, tn, treemap, x, r, 0);
        }
        rp := cp;
        r := m[rp];
        DescendantIs(m, tn, x, r, rp);
        ChildDepth(m, tn, treemap, r);
      }
    }

    /** Store r in the word that points down to x; an emptied bin is unmarked. */
    method SetSlot(x: int, xp: int, r: int, ghost t: Nodes)
      requires x in t && SlotKnown(m, t, x) && xp == W(m, x + PARENT)
      modifies `m, `treemap
      ensures m == old(m)[SlotOf(old(m), t, x) := r]
      ensures treemap == if r == 0 && t[x].depth == 0 then Clear(old(treemap), TreeIndex(t[x].size)) else old(treemap)
    {
      hide TreeIndex, Dir, Clear;
      var i := m[x + INDEX];
      var h := TreeBinAt(i);
      if x == m[h] {
        m := m[h := r];
        if r == 0 {
          treemap := Clear(treemap, i);
        }
      } else if m[xp + CHILD] == x {
        m := m[xp + CHILD := r];
      } else {
        m := m[xp + CHILD + 8 := r];
      }
    }

    /** r gets the parent and the children of x. */
    method Adopt(x: int, xp: int, r: int)
      requires 0 <= x && x + 64 <= |m| && 0 <= r && r + 64 <= |m| && (x + 64 <= r || r + 64 <= x)
      requires var c0, c1 := Child(m, x, 0), Child(m, x, 1);
               && 0 <= c0 && c0 + 64 <= |m| && 0 <= c1 && c1 + 64 <= |m|
               && (c0 != 0 ==> x + 64 <= c0 || c0 + 64 <= x)
      modifies `m
      ensures m == LinkChild(LinkChild(old(m)[r + PARENT := xp], r, 0, Child(old(m), x, 0)), r, 1, Child(old(m), x, 1))
    {
      m := m[r + PARENT := xp];
      var c0 := m[x + CHILD];
      if c0 != 0 {
        m := m[r + CHILD := c0];
        m := m[c0 + PARENT := r];
      }
      var c1 := m[x + CHILD + 8];
      if c1 != 0 {
        m := m[r + CHILD + 8 := c1];
        m := m[c1 + PARENT := r];
      }
    }

    /**
      The first part of unlink_large_chunk: close the ring around x, or else take the
      rightmost leaf below x out of its slot. r is what will replace x, if anything.
     */
    method FreeReplacement(x: int) returns (r: int, ghost t: Nodes)
      requires TreeOk(m, tn, treemap) && x in tn
      modifies `m
      ensures TreeWrites(old(m), m, tn) && W(m, x + PARENT) == W(old(m), x + PARENT) && t.Keys == tn.Keys
      ensures forall p {:trigger t[p]} :: p in t ==> t[p].size == tn[p].size
      ensures tn[x].rank > 0 ==> TreeOk(m, Minus(tn, x), treemap)
      ensures tn[x].rank == 0 && r == 0 ==> m == old(m) && Leaf(m, tn, x) && W(m, x + BK) == x
      ensures tn[x].rank == 0 && r != 0 ==> Handover(m, t, treemap, x, r)
    {
      hide TreeOk, Path, Dir, TreeIndex, RingClosed, TreeWrites, Handover, SlotCleared,
        Descendant, Below, SlotOf, Child, Leaf;
      ghost var m0 := m;
      RingMember(m, tn, treemap, x);
      r, t := 0, tn;
      if m[x + BK] != x {
        var f := m[x + FD];
        r := m[x + BK];
        m := m[f + BK := r];
        m := m[r + FD := f];
        RingStoresClosed(m0, tn, treemap, x, m);
        if tn[x].rank > 0 {
          RingLeave(m0, tn, treemap, x, m);
        } else {
          HandoverFromRing(m0, tn, treemap, x, m);
          t := tn[r := Node(tn[r].size, 0, 0)];
        }
      } else {
        var rp;
        r, rp := FindReplacement(x);
        NoTreeWrites(m, tn);
        if r != 0 {
          DescendantIs(m, tn, x, r, rp);
          DescendantSlot(m, tn, treemap, x, r, rp);
          m := m[rp := 0];
          ClearStores(m0, tn, r, m);
          SlotWrites(m0, tn, treemap, r, 0, m);
          assert tn[x] == tn[x];
          HandoverFromLeaf(m0, tn, treemap, x, r, m);
        }
      }
    }

    method UnlinkLargeChunk(ghost loose: set<int>, x: int)
      requires Ok(S(), loose) && x in tn
      modifies `m, `treemap, `tn
      ensures Ok(S(), loose + {x}) && LinkWrites(old(S()), m)
    {
      hide Ok, TreeOk, Path, Dir, TreeIndex, TreeWord, TreeWrites, Handover, SlotCleared,
        SlotKnown, SlotOf, Child, AreaWrites, Clear, LinkWrites, Leaf;
      ghost var s := S();
      OkTree(s, loose);
      RingMember(m, tn, treemap, x);
      var xp := m[x + PARENT];
      var r;
      ghost var t1;
      r, t1 := FreeReplacement(x);
      ghost var m1 := m;
      if xp == 0 {
        tn := Minus(tn, x);
      } else if r != 0 {
        HandoverSizes(m, t1, treemap, x, r);
        Replace(x, xp, r, t1);
        TreeWritesTrans(s.m, m1, m, tn, t1);
        tn := Replaced(t1, x, r);
        assert tn.Keys == s.tn.Keys - {x};
      } else {
        SlotKnownInTree(m, tn, treemap, x);
        SlotInRange(m, tn, treemap, x);
        SetSlot(x, xp, 0, tn);
        ClearStores(s.m, tn, x, m);
        SlotWrites(s.m, tn, s.treemap, x, 0, m);
        RemoveLeaf(s.m, tn, s.treemap, x, m);
        tn := Minus(tn, x);
      }
      TreeWritesArea(s, loose, m);
      TreeShrank(s, loose, x, S());
    }

    /** The last part of unlink_large_chunk, when there is a replacement. */
    method Replace(x: int, xp: int, r: int, ghost t: Nodes)
      requires Handover(m, t, treemap, x, r) && xp == W(m, x + PARENT) && r != 0
      modifies `m, `treemap
      ensures treemap == old(treemap) && TreeWrites(old(m), m, t)
      ensures x in t && r in t && TreeOk(m, Replaced(t, x, r), treemap)
    {
      hide Handover, Path, Dir, TreeIndex, TreeOk, PlaceTaken, SlotOf, TreeWrites, SlotKnown, Child, LinkChild;
      ghost var m0 := m;
      HandoverSizes(m, t, treemap, x, r);
      SlotKnownInHandover(m, t, treemap, x, r);
      KnownSlot(m, t, x);
      SlotMissesX(m, t, treemap, x, r);
      SetSlot(x, xp, r, t);
      Adopt(x, xp, r);
      PlaceStores(m0, t, treemap, x, r, m);
      PlaceWrites(m0, t, treemap, x, r, m);
      TakePlace(m0, t, treemap, x, r, m);
    }

    // ---------- Any bin ----------

    /** insert_chunk. */
    method InsertChunk(ghost loose: set<int>, p: int, size: nat)
      requires Ok(S(), loose) && p in loose && p in ch && ch[p].size == size
      modifies `m, `smallmap, `sn, `treemap, `tn
      ensures Ok(S(), loose - {p}) && LinkWrites(old(S()), m)
      ensures size < 256 ==> FirstInBin(S(), p) && sn[p].size == size
    {
      hide Ok, LinkWrites, FirstInBin;
      LooseSize(S(), loose, p);
      if size / 8 < 32 {
        InsertSmallChunk(loose, p, size);
      } else {
        InsertLargeChunk(loose, p, size);
      }
    }

    /** unlink_chunk. */
    method UnlinkChunk(ghost loose: set<int>, p: int, size: nat)
      requires Ok(S(), loose) && (p in sn || p in tn) && p in ch && ch[p].size == size
      modifies `m, `smallmap, `sn, `treemap, `tn
      ensures Ok(S(), loose + {p}) && LinkWrites(old(S()), m)
    {
      hide Ok, LinkWrites;
      BinBySize(S(), loose, p);
      if size / 8 < 32 {
        UnlinkSmallChunk(loose, p, size);
      } else {
        UnlinkLargeChunk(loose, p);
      }
    }

    /** replace_dv: the old designated victim, known to be small, goes into its bin. */
    method ReplaceDv(ghost loose: set<int>, p: int, size: nat)
      requires Ok(S(), loose) && p in loose && p in ch && ch[p].size == size && dvsize < MIN_LARGE_SIZE
      modifies `m, `smallmap, `sn, `dv, `dvsize
      ensures Ok(S(), loose - {p}) && dv == p && dvsize == size
      ensures LinkWrites(old(S()), m)
    {
      hide Ok, LinkWrites;
      ghost var s := S();
      var dvs, old_dv := dvsize, dv;
      dvsize, dv := 0, 0;
      NoDv(s, loose);
      if dvs != 0 {
        DvLoose(s, loose);
        DvIsSmall(s, loose);
        InsertSmallChunk(loose + {old_dv}, old_dv, dvs);
        assert loose + {old_dv} - {old_dv} == loose;
        LinkWritesOfDv(s, m);
      } else {
        NoLinkWrites(s);
      }
      LooseDv(S(), loose, p);
      dvsize := size;
      dv := p;
    }

    // ---------- Handing out chunks ----------

    /** set_inuse_and_pinuse of a whole free chunk. */
    method TakeWhole(ghost loose: set<int>, p: int, size: nat)
      requires Ok(S(), loose) && Coalesced(ch) && p in loose && p in ch && ch[p].size == size
      modifies `m, `ch
      ensures Ok(S(), loose - {p}) && Coalesced(ch)
      ensures HandedOut(old(ch), old(m), ch, m, p, size)
    {
      hide Ok, Coalesced, HandedOut, TagsWritten, Carve, SetPinuse;
      ghost var s := S();
      LooseRun(s, loose, p);
      var n := p + size;
      m := m[p + HEAD := size + 3];
      m := m[n + HEAD := SetPinuse(m[n + HEAD])];
      TakeStores(s, loose, p, n, m);
      TakeMove(s, loose, p, n, m);
      ch := Carve(ch, p, n, n, true, true);
    }

    /** The lower nb bytes of a free chunk are put to use, the rest stays free. */
    method SplitOff(ghost loose: set<int>, p: int, nb: nat, rsize: nat) returns (r: int)
      requires Ok(S(), loose) && Coalesced(ch) && p in loose && p in ch && ch[p].size == nb + rsize
      requires 32 <= nb && nb % 16 == 0 && 32 <= rsize
      modifies `m, `ch
      ensures r == p + nb && r in ch && ch[r].size == rsize
      ensures Ok(S(), loose - {p} + {r}) && Coalesced(ch)
      ensures HandedOut(old(ch), old(m), ch, m, p, nb)
    {
      hide Ok, Coalesced, HandedOut, TagsWritten, Carve, SetPinuse;
      ghost var s := S();
      LooseRun(s, loose, p);
      r := p + nb;
      m := m[p + HEAD := nb + 3];
      m := m[r + HEAD := rsize + 1];
      m := m[r + rsize := rsize];
      SplitStores(s, loose, p, r, r + rsize, m);
      SplitMove(s, loose, p, r, r + rsize, m);
      ch := Carve(ch, p, r, r + rsize, true, false);
    }

    /** The lower nb bytes of the top chunk are put to use. */
    method SplitTop(nb: nat) returns (p: int)
      requires Ok(S(), {}) && Coalesced(ch) && 32 <= nb < topsize && nb % 16 == 0
      modifies `m, `ch, `top, `topsize
      ensures Ok(S(), {}) && Coalesced(ch) && End() == old(End())
      ensures p == old(top) && HandedOut(old(ch), old(m), ch, m, p, nb)
      ensures topsize == old(topsize) - nb
    {
      hide Ok, Coalesced, HandedOut, TagsWritten, Carve;
      ghost var s := S();
      TopRun(s, {});
      topsize := topsize - nb;
      p := top;
      top := p + nb;
      m := m[top + HEAD := topsize + 1];
      m := m[p + HEAD := nb + 3];
      TopStores(s, {}, top, m);
      TopMove(s, {}, top, m);
      ch := Carve(ch, p, top, s.End(), true, false);
    }

    // ---------- Taking chunks back ----------

    /** set_free_with_pinuse: a run followed by a chunk in use becomes free. */
    method SetFreeWithPinuse(ghost c: int, p: int, size: nat, n: int)
      requires c in ch && ch[c].inuse && Coalesced(ch) && Ok(S(), MergeLoose(ch, base, top, c) - {dv})
      requires p == MergeLo(ch, base, c) && p + size == n == MergeHi(ch, c) == c + ch[c].size
      modifies `m, `ch
      ensures Merged(old(S()), c, Bare(old(S()), c).(m := m, ch := ch))
    {
      hide Ok, Coalesced, Carve, TagsWritten, Merged, MergeLo, MergeHi, MergeLoose, ClearPinuse;
      ghost var s := S();
      BareOk(s, c);
      MergeLength(s, MergeLoose(ch, base, top, c) - {dv}, c);
      MergeEnd(s, MergeLoose(ch, base, top, c) - {dv}, c);
      m := m[n + HEAD := ClearPinuse(m[n + HEAD])];
      m := m[p + HEAD := size + 1];
      m := m[n := size];
      FreeStores(Bare(s, c), MergeLoose(ch, base, top, c), c, p, n, m);
      MergedIs(s, c, p, n, m);
      ch := Carve(ch, p, n, n, false, false);
    }

    /** set_size_and_pinuse_of_free_chunk, for a run that ends with a free chunk. */
    method SetSizeOfFree(ghost c: int, p: int, size: nat)
      requires c in ch && ch[c].inuse && Coalesced(ch) && Ok(S(), MergeLoose(ch, base, top, c) - {dv})
      requires p == MergeLo(ch, base, c) && c + ch[c].size < p + size == MergeHi(ch, c) != End()
      modifies `m, `ch
      ensures Merged(old(S()), c, Bare(old(S()), c).(m := m, ch := ch))
    {
      hide Ok, Coalesced, Carve, TagsWritten, Merged, MergeLo, MergeHi, MergeLoose, ClearPinuse;
      ghost var s := S();
      BareOk(s, c);
      MergeLength(s, MergeLoose(ch, base, top, c) - {dv}, c);
      m := m[p + HEAD := size + 1];
      m := m[p + size := size];
      GrowStores(Bare(s, c), MergeLoose(ch, base, top, c), c, p, p + size, m);
      MergedIs(s, c, p, p + size, m);
      ch := Carve(ch, p, p + size, p + size, false, false);
    }

    /** A run that reaches top becomes part of it. */
    method GrowTop(ghost c: int, p: int, size: nat)
      requires c in ch && ch[c].inuse && Coalesced(ch) && Ok(S(), MergeLoose(ch, base, top, c) - {dv})
      requires p == MergeLo(ch, base, c) && p + size == top && MergeHi(ch, c) == End()
      requires p == dv ==> dv in MergeLoose(ch, base, top, c)
      requires dv in MergeLoose(ch, base, top, c) ==> p == dv
      modifies `m, `ch, `top, `topsize, `dv, `dvsize
      ensures Ok(S(), {}) && Coalesced(ch) && End() == old(End()) && topsize == old(topsize) + size
      ensures GivenBack(old(ch), old(m), ch, m, c)
      ensures if p == old(dv) then dv == 0 && dvsize == 0 else dv == old(dv) && dvsize == old(dvsize)
    {
      hide Ok, Coalesced, Carve, TagsWritten, GivenBack, MergeLo, MergeHi, MergeLoose;
      ghost var s := S();
      BareOk(s, c);
      MergeLength(s, MergeLoose(ch, base, top, c) - {dv}, c);
      topsize := topsize + size;
      top := p;
      m := m[p + HEAD := topsize + 1];
      if p == dv {
        dv := 0;
        dvsize := 0;
      }
      TopGrowStores(Bare(s, c), MergeLoose(s.ch, base, s.top, c), c, p, s.End(), m);
      MergeMove(Bare(s, c), c, p, s.End(), m);
      ch := Carve(ch, p, s.End(), s.End(), false, false);
    }

    /**
      The common part of dlfree and dispose_chunk: the chunk c is merged with its free
      neighbours and becomes part of top or of the designated victim, or is binned.
     */
    method Consolidate(c: int, csize: nat) returns (topped: bool)
      requires Ok(S(), {}) && Coalesced(ch) && c in ch && ch[c].inuse && ch[c].size == csize
      modifies `m, `smallmap, `sn, `treemap, `tn, `ch, `dv, `dvsize, `top, `topsize
      ensures Ok(S(), {}) && Coalesced(ch) && End() == old(End())
      ensures GivenBack(old(ch), old(m), ch, m, c)
      ensures DvAfterFree(old(S()), c, dv, dvsize) && BinnedFirst(old(S()), c, S())
      ensures topped <==> c + csize == old(top)
      ensures topped ==> topsize > old(topsize)
      ensures !topped ==> top == old(top) && topsize == old(topsize)
    {
      hide FirstInBin, Ok, Coalesced, LinkWrites, GivenBack, MergeLo, MergeHi, MergeLoose, Merged,
        Untouched, ChunkSize, Cinuse, Pinuse, PrevInuse, Blocks;
      ghost var s0 := S();
      MergeRun(s0, {}, c);
      MergeLooseIs(s0, {}, c);
      DvIsFree(s0, {});
      UntouchedSame(Blocks(ch), m);
      var p, psize, next := c, csize, c + csize;
      ghost var loose: set<int> := {};
      if !Pinuse(m[p + HEAD]) {
        var prevsize := m[p];
        psize := psize + prevsize;
        p := p - prevsize;
        if p != dv {
          FreeIsNotTop(s0, {}, c, p);
          InSomeBin(S(), {}, p);
          UnlinkChunk({}, p, prevsize);
          loose := {} + {p};
          LinksLeaveBlocks(s0, {}, m);
        } else if Cinuse(m[next + HEAD]) && Pinuse(m[next + HEAD]) {
          SetFreeWithPinuse(c, p, psize, next);
          dvsize := psize;
          MergedDv(s0, c, s0.(m := m, ch := ch, dv := 0, dvsize := 0), S());
          MergedBack(s0, c, s0.(m := m, ch := ch, dv := 0, dvsize := 0));
          return false;
        }
      }
      ghost var m1 := m;
      topped := MergeForward(c, p, psize, next, loose);
      GivenBackAfter(s0.ch, s0.m, m1, ch, m, c);
    }

    /** The next chunk is free and binned: it is taken out of its bin and merged. */
    method AbsorbNext(ghost c: int, p: int, csize: nat, next: int, ghost loose: set<int>) returns (psize: nat)
      requires Ok(S(), loose) && Coalesced(ch) && c in ch && ch[c].inuse
      requires p == MergeLo(ch, base, c) && p + csize == next == c + ch[c].size < MergeHi(ch, c)
      requires loose == if p < c && p != dv then {p} else {}
      requires next != top && next != dv
      modifies `m, `smallmap, `sn, `treemap, `tn, `ch
      ensures Ok(if p == dv then S().(dv := 0, dvsize := 0) else S(), {p}) && Coalesced(ch)
      ensures p in ch && ch[p].size == psize == old(MergeHi(ch, c)) - p && GivenBack(old(ch), old(m), ch, m, c)
    {
      hide Ok, Coalesced, LinkWrites, GivenBack, MergeLo, MergeHi, MergeLoose, Merged,
        Untouched, ChunkSize, Cinuse, Pinuse, PrevInuse, Blocks;
      ghost var s0 := S();
      MergeRun(s0, loose, c);
      MergeLooseIs(s0, loose, c);
      DvIsFree(s0, loose);
      FreeIsNotLoose(s0, loose, c);
      var nsize := ChunkSize(m[next + HEAD]);
      psize := csize + nsize;
      InSomeBin(s0, loose, next);
      UnlinkChunk(loose, next, nsize);
      LinksLeaveBlocks(s0, loose, m);
      ghost var s1 := S();
      assert loose + {next} == MergeLoose(ch, base, top, c) - {dv};
      assert p == dv <==> dv in MergeLoose(ch, base, top, c);
      SetSizeOfFree(c, p, psize);
      MergedBack(s1, c, Bare(s1, c).(m := m, ch := ch));
      GivenBackAfter(s0.ch, s0.m, s1.m, ch, m, c);
    }

    /** The next chunk is in use. */
    method FreeBefore(ghost c: int, p: int, csize: nat, next: int, ghost loose: set<int>)
      requires Ok(S(), loose) && Coalesced(ch) && c in ch && ch[c].inuse
      requires p == MergeLo(ch, base, c) && p + csize == next == c + ch[c].size == MergeHi(ch, c)
      requires loose == if p < c then {p} else {}
      requires p != dv
      modifies `m, `ch
      ensures Ok(S(), {p}) && Coalesced(ch) && p in ch && ch[p].size == csize && GivenBack(old(ch), old(m), ch, m, c)
    {
      hide Ok, Coalesced, GivenBack, MergeLo, MergeHi, MergeLoose, Merged, Untouched, ChunkSize, Blocks;
      ghost var s0 := S();
      MergeRun(s0, loose, c);
      MergeLooseIs(s0, loose, c);
      NoDv(s0, loose);
      DvIsFree(s0, loose);
      assert loose == MergeLoose(ch, base, top, c) - {dv};
      SetFreeWithPinuse(c, p, csize, next);
      MergedBack(s0, c, S());
    }

    /** The part of MergeForward for a chunk before the designated victim. */
    method MergeIntoDv(ghost c: int, p: int, psize: nat, ghost loose: set<int>)
      requires Ok(S(), loose) && Coalesced(ch) && c in ch && ch[c].inuse
      requires p == MergeLo(ch, base, c) && p + psize == dv == c + ch[c].size
      requires loose == if p < c then {p} else {}
      modifies `m, `ch, `dv, `dvsize
      ensures Ok(S(), {}) && Coalesced(ch) && GivenBack(old(ch), old(m), ch, m, c)
      ensures dv == p && dvsize == old(MergeHi(ch, c)) - p
    {
      hide Ok, Coalesced, LinkWrites, GivenBack, MergeLo, MergeHi, MergeLoose, Merged, MergeTags,
        Untouched, ChunkSize, Cinuse, Pinuse, PrevInuse, Blocks;
      ghost var s0 := S();
      MergeRun(s0, loose, c);
      MergeLooseIs(s0, loose, c);
      NoDv(s0, loose);
      DvIsFree(s0, loose);
      SetSizeOfFree(c, p, dvsize + psize);
      dvsize := dvsize + psize;
      dv := p;
      MergedDv(s0, c, s0.(m := m, ch := ch, dv := 0, dvsize := 0), S());
      MergedBack(s0, c, s0.(m := m, ch := ch, dv := 0, dvsize := 0));
    }

    /** The second half of Consolidate: the free chunk below, if any, is part of p already. */
    method MergeForward(ghost c: int, p: int, csize: nat, next: int, ghost loose: set<int>) returns (topped: bool)
      requires Ok(S(), loose) && Coalesced(ch) && c in ch && ch[c].inuse
      requires p == MergeLo(ch, base, c) && p + csize == next == c + ch[c].size
      requires loose == if p < c && p != dv then {p} else {}
      requires p == dv ==> next < MergeHi(ch, c)
      modifies `m, `smallmap, `sn, `treemap, `tn, `ch, `dv, `dvsize, `top, `topsize
      ensures Ok(S(), {}) && Coalesced(ch) && End() == old(End())
      ensures GivenBack(old(ch), old(m), ch, m, c)
      ensures DvAfterFree(old(S()), c, dv, dvsize) && BinnedFirst(old(S()), c, S())
      ensures topped <==> next == old(top)
      ensures topped ==> topsize > old(topsize)
      ensures !topped ==> top == old(top) && topsize == old(topsize)
    {
      hide FirstInBin, Ok, Coalesced, LinkWrites, GivenBack, MergeLo, MergeHi, MergeLoose, Merged,
        Untouched, ChunkSize, Cinuse, Pinuse, PrevInuse, Blocks;
      ghost var s0 := S();
      var psize := csize;
      MergeRun(s0, loose, c);
      MergeLooseIs(s0, loose, c);
      NoDv(s0, loose);
      FreeIsNotTop(s0, loose, c, p);
      DvIsFree(s0, loose);
      FreeIsNotLoose(s0, loose, c);
      if !Cinuse(m[next + HEAD]) {
        if next == top {
          assert loose == MergeLoose(ch, base, top, c) - {dv};
          GrowTop(c, p, psize);
          return true;
        } else if next == dv {
          MergeIntoDv(c, p, psize, loose);
          return false;
        } else {
          psize := AbsorbNext(c, p, csize, next, loose);
          if p == dv {
            dvsize := psize;
            LooseDv(S().(dv := 0, dvsize := 0), {p}, p);
            assert {p} - {p} == {};
            return false;
          }
        }
      } else {
        FreeBefore(c, p, csize, next, loose);
      }
      ghost var s3 := S();
      InsertChunk({p}, p, psize);
      assert {p} - {p} == {};
      GivenBackThen(s0.ch, s0.m, s3, {p}, m, c);
      topped := false;
    }

    // ---------- Allocating from what is there ----------

    /** The smallest tree chunk serves a small request; what is left becomes the victim. */
    method TmallocSmall(nb: nat) returns (v: int)
      requires Ok(S(), {}) && Coalesced(ch) && treemap != 0 && IsSmallSize(nb) && dvsize < nb
      modifies `m, `smallmap, `sn, `treemap, `tn, `ch, `dv, `dvsize
      ensures Ok(S(), {}) && Coalesced(ch)
      ensures v > 0 && v in ch && nb <= ch[v].size < nb + 32 && HandedOut(old(ch), old(m), ch, m, v, ch[v].size)
      ensures v in old(tn) && IsBest(old(tn), nb, v)
      ensures if old(tn)[v].size < nb + 32 then dv == old(dv) && dvsize == old(dvsize) else dv == v + nb && dvsize == old(tn)[v].size - nb
    {
      hide Ok, Coalesced, HandedOut, LinkWrites, Untouched, TreeOk, IsBest;
      ghost var s := S();
      OkTree(s, {});
      var rsize;
      v, rsize := FindSmall(m, tn, treemap, nb);
      TreeChunk(s, {}, v);
      UnlinkLargeChunk({}, v);
      assert {} + {v} == {v};
      LinksLeaveBlocks(s, {}, m);
      ghost var m1 := m;
      if rsize < MIN_CHUNK_SIZE {
        TakeWhole({v}, v, rsize + nb);
        assert {v} - {v} == {};
      } else {
        var r := SplitOff({v}, v, nb, rsize);
        ghost var s2 := S();
        assert {v} - {v} + {r} == {r};
        ReplaceDv({r}, r, rsize);
        assert {r} - {r} == {};
        HandedThen(s.ch, m1, s2, {r}, m, v, nb);
      }
      HandedAfter(s.ch, s.m, m1, ch, m, v, if rsize < MIN_CHUNK_SIZE then rsize + nb else nb);
      HandedIn(s.ch, s.m, ch, m, v, if rsize < MIN_CHUNK_SIZE then rsize + nb else nb);
    }

    /** The best fitting tree chunk, unless the designated victim fits at least as tightly. */
    method TmallocLarge(nb: nat) returns (v: int)
      requires Ok(S(), {}) && Coalesced(ch) && MIN_LARGE_SIZE <= nb < WORD && nb % 16 == 0
      modifies `m, `smallmap, `sn, `treemap, `tn, `ch
      ensures Ok(S(), {}) && Coalesced(ch)
      ensures v != 0 ==> v in ch && nb <= ch[v].size < nb + 32 && HandedOut(old(ch), old(m), ch, m, v, ch[v].size)
      ensures v != 0 ==> BestFit(old(S()), nb, v)
      ensures v != 0 ==> v in old(tn) && (old(dvsize) < nb || old(tn)[v].size < old(dvsize)) && IsBest(old(tn), nb, v)
      ensures v == 0 ==> S() == old(S())
      ensures v == 0 ==> forall y {:trigger tn[y]} :: y in tn && nb <= tn[y].size ==> nb <= dvsize <= tn[y].size
    {
      hide Ok, Coalesced, HandedOut, LinkWrites, Untouched, TreeOk, BestFit;
      ghost var s := S();
      OkTree(s, {});
      var rsize;
      v, rsize := FindLarge(m, tn, treemap, nb);
      DvBelowWord(s, {});
      VictimRest(dvsize, nb);
      if v != 0 { TreeChunk(s, {}, v); }
      if v != 0 && rsize < (dvsize - nb) % WORD {
        BestOfTree(s, nb, v);
        UnlinkLargeChunk({}, v);
        assert {} + {v} == {v};
        LinksLeaveBlocks(s, {}, m);
        ghost var m1 := m;
        if rsize < MIN_CHUNK_SIZE {
          TakeWhole({v}, v, rsize + nb);
          assert {v} - {v} == {};
        } else {
          var r := SplitOff({v}, v, nb, rsize);
          ghost var s2 := S();
          assert {v} - {v} + {r} == {r};
          InsertChunk({r}, r, rsize);
          assert {r} - {r} == {};
          HandedThen(s.ch, m1, s2, {r}, m, v, nb);
        }
        HandedAfter(s.ch, s.m, m1, ch, m, v, if rsize < MIN_CHUNK_SIZE then rsize + nb else nb);
        HandedIn(s.ch, s.m, ch, m, v, if rsize < MIN_CHUNK_SIZE then rsize + nb else nb);
      } else {
        v := 0;
      }
    }

    /** A chunk of the marked small bin i serves the request. */
    method TakeSmall(i: nat, nb: nat) returns (p: int)
      requires Ok(S(), {}) && Coalesced(ch) && i < 32 && Marked(smallmap, i) && IsSmallSize(nb) && nb <= 8 * i
      requires 8 * i >= nb + 32 ==> dvsize < nb
      modifies `m, `smallmap, `sn, `ch, `dv, `dvsize
      ensures Ok(S(), {}) && Coalesced(ch)
      ensures p > 0 && p in ch && nb <= ch[p].size < nb + 32 && HandedOut(old(ch), old(m), ch, m, p, ch[p].size)
      ensures p in old(sn) && old(sn)[p].size == 8 * i && FirstInBin(old(S()), p)
      ensures if 8 * i < nb + 32 then dv == old(dv) && dvsize == old(dvsize) else dv == p + nb && dvsize == 8 * i - nb
    {
      hide Ok, Coalesced, HandedOut, LinkWrites, Untouched, Marked;
      ghost var s := S();
      FirstOfBin(s, {}, i);
      SmallBinFits(s, {}, i);
      var b := SmallBinAt(i);
      p := m[b + FD];
      SmallChunk(s, {}, p);
      UnlinkFirstSmallChunk({}, b, p, i);
      assert {} + {p} == {p};
      LinksLeaveBlocks(s, {}, m);
      ghost var m1 := m;
      var rsize := 8 * i - nb;
      if rsize < MIN_CHUNK_SIZE {
        TakeWhole({p}, p, 8 * i);
        assert {p} - {p} == {};
      } else {
        var r := SplitOff({p}, p, nb, rsize);
        ghost var s2 := S();
        assert {p} - {p} + {r} == {r};
        ReplaceDv({r}, r, rsize);
        assert {r} - {r} == {};
        HandedThen(s.ch, m1, s2, {r}, m, p, nb);
      }
      HandedAfter(s.ch, s.m, m1, ch, m, p, if rsize < MIN_CHUNK_SIZE then 8 * i else nb);
      HandedIn(s.ch, s.m, ch, m, p, if rsize < MIN_CHUNK_SIZE then 8 * i else nb);
    }

    /** The designated victim serves the request, whole or split. */
    method TakeDv(nb: nat) returns (p: int)
      requires Ok(S(), {}) && Coalesced(ch) && 32 <= nb <= dvsize && nb % 16 == 0
      modifies `m, `ch, `dv, `dvsize
      ensures Ok(S(), {}) && Coalesced(ch) && p == old(dv)
      ensures p in ch && nb <= ch[p].size < nb + 32 && HandedOut(old(ch), old(m), ch, m, p, ch[p].size)
      ensures if old(dvsize) >= nb + 32 then dv == p + nb && dvsize == old(dvsize) - nb else dv == 0 && dvsize == 0
    {
      hide Ok, Coalesced, HandedOut;
      ghost var s := S();
      NoDv(s, {});
      DvLoose(s, {});
      var rsize := dvsize - nb;
      p := dv;
      assert {} + {p} == {p};
      if rsize >= MIN_CHUNK_SIZE {
        dv := 0;
        dvsize := 0;
        var r := SplitOff({p}, p, nb, rsize);
        assert {p} - {p} + {r} == {r};
        LooseDv(S(), {r}, r);
        assert {r} - {r} == {};
        dv := r;
        dvsize := rsize;
      } else {
        var dvs := dvsize;
        dvsize := 0;
        dv := 0;
        TakeWhole({p}, p, dvs);
        assert {p} - {p} == {};
      }
      HandedIn(s.ch, s.m, ch, m, p, if rsize < MIN_CHUNK_SIZE then rsize + nb else nb);
    }

    // ---------- The segment ----------

    /** sbrk for a page multiple n: map n fresh bytes, or panic past the end or without frames. */
    method Sbrk(n: nat) returns (ok: bool)
      requires OnPage(n)
      modifies `m
      ensures ok ==> |m| == old(|m|) + n <= breakEnd && SameBelow(m, old(m), old(|m|))
      ensures !ok ==> m == old(m)
    {
      var frames: bool := *;
      ok := |m| + n <= breakEnd && frames;
      if ok {
        var room := new int[n];
        m := m + room[..];
      }
    }

    /** sbrk of a negative page multiple: the last pages are unmapped. */
    method SbrkBack(n: nat)
      requires OnPage(n) && n <= |m| - breakBegin && 0 <= breakBegin
      modifies `m
      ensures m == old(m)[..old(|m|) - n]
    {
      m := m[..|m| - n];
    }

    method InitBins()
      requires GM_END <= |m|
      modifies `m
      ensures |m| == old(|m|)
      ensures forall i: nat {:trigger SmallBinAt(i)} :: i < SMALL_BIN_COUNT ==>
                W(m, SmallBinAt(i) + FD) == SmallBinAt(i) == W(m, SmallBinAt(i) + BK)
      ensures forall i: nat {:trigger Root(m, i)} :: Root(m, i) == Root(old(m), i)
    {
      hide W;
      for i := 0 to SMALL_BIN_COUNT
        invariant |m| == old(|m|)
        invariant forall j: nat {:trigger SmallBinAt(j)} :: j < i ==>
                    W(m, SmallBinAt(j) + FD) == SmallBinAt(j) == W(m, SmallBinAt(j) + BK)
        invariant forall j: nat {:trigger Root(m, j)} :: Root(m, j) == Root(old(m), j)
      {
        ghost var m1 := m;
        var bin := SmallBinAt(i);
        m := m[bin + BK := bin];
        m := m[bin + FD := bin];
        HeaderStores(m1, i, m);
      }
    }

    /** init_top; chunks are aligned already. */
    method InitTop(p: int, psize: nat)
      requires 0 <= p && 16 <= psize && p + psize + 80 <= |m|
      modifies `m, `top, `topsize, `trimCheck
      ensures top == p && topsize == psize && trimCheck == TRIM_THRESHOLD
      ensures m == old(m)[p + HEAD := psize + 1][p + psize + HEAD := TOP_FOOT_SIZE]
    {
      top := p;
      topsize := psize;
      m := m[p + HEAD := psize + 1];
      m := m[p + psize + HEAD := TOP_FOOT_SIZE];
      trimCheck := TRIM_THRESHOLD;
    }

    /** The first initialisation: the bins, and one free chunk that fills the segment. */
    method InitSegment(start: int, ssize: nat)
      requires S() == State(m, 0, 0, 0, 0, 0, 0, base, map[], map[], map[]) && base == start
      requires GM_END <= start && OnPage(start) && OnPage(ssize) && 96 <= ssize && |m| == start + ssize <= MEMORY_LIMIT
      requires forall i: nat {:trigger Root(m, i)} :: i < TREE_BINS ==> Root(m, i) == 0
      modifies `m, `top, `topsize, `trimCheck, `ch
      ensures Ok(S(), {}) && Coalesced(ch) && Blocks(ch) == map[] && top == start && topsize == ssize - TOP_FOOT_SIZE
      ensures |m| == old(|m|) && OnPage(|m|) && trimCheck == TRIM_THRESHOLD
    {
      hide Ok, Coalesced, Blocks, W, OnPage, Root;
      InitBins();
      ghost var m1 := m;
      InitTop(start, ssize - TOP_FOOT_SIZE);
      FirstDone(m1, start, ssize, m);
      ch := FirstState(m, start, start + ssize - TOP_FOOT_SIZE).ch;
    }

    /** sys_alloc of the first request: the segment starts at the break. */
    method FirstSegment(nb: nat, asize: nat) returns (ok: bool)
      requires Valid() && top == 0 && nb < WORD && !Unserviceable(nb) && asize == SystemSize(nb)
      modifies this
      ensures ok ==> Valid() && top != 0 && nb < topsize && Blocks(ch) == map[]
      ensures ok ==> LeastPages(|m| - old(|m|), nb) && topsize == |m| - old(|m|) - TOP_FOOT_SIZE && trimCheck == 0x20_0000
    {
      hide Ok, Coalesced, Blocks, W, SystemSize, OnPage, SameBelow, Root, LeastPages;
      FirstFits(nb);
      var start := |m|;
      var ssize := asize;
      if ssize <= nb || ssize >= HALF_MAX_SIZE {
        return false;
      }
      ok := Sbrk(ssize);
      if !ok {
        return;
      }
      footprint := footprint + ssize;
      if footprint > maxFootprint {
        maxFootprint := footprint;
      }
      base := start;
      segsize := ssize;
      StillBlank(old(m), m);
      InitSegment(start, ssize);
    }

    /**
      init_top at the old top, after the break has moved: memory was s.m, and is the same up to
      the links of top.
     */
    method MoveTop(ghost s: State, psize: nat)
      requires Ok(s, {}) && Coalesced(s.ch) && S() == s.(m := m) && 16 <= psize && OnPage(|s.m|)
      requires OnPage(|m|) && |m| == top + psize + TOP_FOOT_SIZE <= MEMORY_LIMIT
      requires SameBelow(m, s.m, top + 16)
      modifies `m, `top, `topsize, `trimCheck, `ch
      ensures Ok(S(), {}) && Coalesced(ch) && top == old(top) && topsize == psize && |m| == old(|m|)
      ensures Blocks(ch) == Blocks(s.ch) && Untouched(Blocks(s.ch), s.m, m)
      ensures trimCheck == TRIM_THRESHOLD
    {
      hide Ok, Coalesced, Untouched, Blocks, W, OnPage, TopMoved, SameBelow;
      TopRun(s, {});
      InitTop(top, psize);
      MovedTop(s, old(m), s.top + psize, m);
      ch := Resized(s, s.top + psize, m).ch;
    }

    /** The break moves by ssize, and top grows by it. */
    method ExtendTop(ssize: nat) returns (ok: bool)
      requires Valid() && top != 0 && OnPage(ssize)
      modifies this
      ensures ok ==> Valid() && top == old(top) && topsize == old(topsize) + ssize && |m| == old(|m|) + ssize && trimCheck == 0x20_0000
      ensures ok ==> Blocks(ch) == old(Blocks(ch)) && Untouched(Blocks(ch), old(m), m)
    {
      hide Ok, Coalesced, Untouched, Blocks, W, OnPage, SameBelow, Idle;
      ghost var s := S();
      TopRun(s, {});
      ok := Sbrk(ssize);
      if !ok {
        return;
      }
      footprint := footprint + ssize;
      if footprint > maxFootprint {
        maxFootprint := footprint;
      }
      segsize := segsize + ssize;
      SameBelowLess(m, s.m, |s.m|, top + 16);
      PagesAdd(|s.m|, ssize);
      MoveTop(s, topsize + ssize);
    }

    /** sys_alloc of later requests: the segment is extended, and top with it. */
    method GrowSegment(nb: nat) returns (ok: bool)
      requires Valid() && top != 0 && topsize <= nb < WORD && !Unserviceable(nb)
      modifies this
      ensures ok ==> Valid() && top == old(top) && nb < topsize
      ensures ok ==> LeastPages(|m| - old(|m|), nb - old(topsize)) && topsize == old(topsize) + (|m| - old(|m|)) && trimCheck == 0x20_0000
      ensures ok ==> Blocks(ch) == old(Blocks(ch)) && Untouched(Blocks(ch), old(m), m)
    {
      hide Ok, Coalesced, Untouched, Blocks, SystemSize, OnPage, LeastPages, Idle, Unserviceable;
      TopRun(S(), {});
      GrowFits(nb, topsize);
      var ssize := SystemSize(nb - topsize);
      if ssize >= HALF_MAX_SIZE {
        return false;
      }
      ok := ExtendTop(ssize);
    }

    /** sys_alloc: extend the segment at the break, then serve the request from top. */
    method SysAlloc(nb: nat) returns (r: Outcome)
      requires Valid() && 32 <= nb < WORD && topsize <= nb && (nb % 16 == 0 || Unserviceable(nb))
      modifies this
      ensures !r.Panic? ==> Valid()
      ensures r.Null? <==> Unserviceable(nb)
      ensures r.Null? ==> S() == old(S())
      ensures r.Mem? ==> var p := r.addr - 16; p in ch && ch[p].size == nb && HandedOut(old(ch), old(m), ch, m, p, nb)
      ensures r.Mem? && old(top) != 0 ==> r.addr - 16 == old(top)
      ensures r.Mem? ==> LeastPages(|m| - old(|m|), nb - old(topsize)) && trimCheck == 0x20_0000
    {
      hide Ok, Coalesced, HandedOut, Untouched, Blocks, SystemSize, OnPage, LeastPages;
      WrapIsSeen(nb);
      var asize := SystemSize(nb);
      if asize <= nb {
        return Null;
      }
      var ok;
      if top == 0 {
        IdleBlocks();
        ok := FirstSegment(nb, asize);
        UntouchedNone(old(m), m);
      } else {
        ok := GrowSegment(nb);
      }
      if !ok {
        return Panic;
      }
      ghost var ch1, m1 := ch, m;
      TopRun(S(), {});
      EndOf(S());
      var p := SplitTop(nb);
      HandedSame(old(ch), old(m), ch1, m1, ch, m, p, nb);
      HandedIn(ch1, m1, ch, m, p, nb);
      EndOf(S());
      return Mem(p + 16);
    }

    /** The whole pages of top beyond pad bytes are given back, so that at most a page more than pad is left. */
    method ReleaseTop(pad: nat) returns (released: nat)
      requires Valid() && top != 0 && TOP_FOOT_SIZE <= pad < topsize
      modifies `m, `top, `topsize, `trimCheck, `ch, `segsize, `footprint
      ensures Valid() && top == old(top) && Blocks(ch) == old(Blocks(ch)) && Untouched(Blocks(ch), old(m), m)
      ensures |m| == old(|m|) - released && topsize == old(topsize) - released && pad < topsize <= pad + PAGE
      ensures trimCheck == if released != 0 then 0x20_0000 else old(trimCheck)
    {
      hide Ok, Coalesced, Untouched, Blocks, W, OnPage, SameBelow, TrimExtra, Idle;
      UntouchedSame(Blocks(ch), m);
      TopRun(S(), {});
      released := 0;
      var extra := TrimExtra(topsize, pad);
      TrimAmount(topsize, pad);
      ghost var s := S();
      var oldBreak := |m|;
      if oldBreak == base + segsize {
        SbrkBack(extra);
        released := oldBreak - |m|;
      }
      if released != 0 {
        segsize := segsize - released;
        footprint := footprint - released;
        CutBelow(s.m, extra, top + 16, m);
        PagesAdd(|s.m|, extra);
        MoveTop(s, topsize - released);
      } else {
        NothingCut(s.m, m);
      }
    }

    /**
      Memory is given back exactly when the block has made top larger than the threshold; at most a
      page beyond the overhead of the segment is left of it then.
     */
    ghost predicate TrimmedIfLarge(topsize0: int, break0: int, threshold: int)
      reads this
    {
      var merged := topsize + break0 - |m|;
      && topsize0 <= merged
      && if topsize0 < merged && threshold < merged then |m| < break0 && topsize <= 80 + 4096 && trimCheck == 0x20_0000
         else |m| == break0 && trimCheck == threshold
    }

    /** sys_trim: give whole pages at the end of top back, keeping more than pad bytes of it. */
    method SysTrim(request: nat) returns (trimmed: bool)
      requires Valid()
      modifies `m, `top, `topsize, `trimCheck, `ch, `segsize, `footprint
      ensures Valid() && top == old(top) && Blocks(ch) == old(Blocks(ch)) && Untouched(Blocks(ch), old(m), m)
      ensures |m| - topsize == old(|m| - topsize) && topsize <= old(topsize) && trimmed == (topsize < old(topsize))
      ensures top != 0 && request < MAX_REQUEST && old(topsize) > request + TOP_FOOT_SIZE ==>
                request + TOP_FOOT_SIZE < topsize <= request + TOP_FOOT_SIZE + PAGE
      ensures !(request < MAX_REQUEST && old(topsize) > request + TOP_FOOT_SIZE) ==> topsize == old(topsize)
      ensures trimCheck == if trimmed then 0x20_0000
                           else if request < MAX_REQUEST && top != 0 && topsize > old(trimCheck) then WORD - 1
                           else old(trimCheck)
    {
      hide Ok, Coalesced, Untouched, Blocks, OnPage;
      UntouchedSame(Blocks(ch), m);
      var released := 0;
      if request < MAX_REQUEST && top != 0 {
        var pad := request + TOP_FOOT_SIZE;
        if topsize > pad {
          released := ReleaseTop(pad);
        }
        if released == 0 && topsize > trimCheck {
          trimCheck := WORD - 1;
        }
      }
      trimmed := released != 0;
    }

    /** The bins beyond the two that fit without a remainder: the next small bin, or the tree bins. */
    method FromLaterBins(nb: nat) returns (v: int)
      requires Sound(S()) && (Ok(S(), {}) ==> Coalesced(ch)) && IsSmallSize(nb) && nb <= 240 && dvsize < nb && Low2(Right(smallmap, SmallIndex(nb))) == 0
      modifies `m, `smallmap, `sn, `treemap, `tn, `ch, `dv, `dvsize
      ensures v != 0 ==> Ok(old(S()), {}) && Ok(S(), {}) && Coalesced(ch) && v in ch && nb <= ch[v].size < nb + 32 && HandedOut(old(ch), old(m), ch, m, v, ch[v].size)
      ensures v != 0 && v in old(sn) ==> forall q {:trigger old(sn)[q]} :: q in old(sn) && nb <= old(sn)[q].size ==>
                old(sn)[v].size <= old(sn)[q].size
      ensures v != 0 && v !in old(sn) ==> v in old(tn) && IsBest(old(tn), nb, v) && NoSmallChunk(old(S()), nb)
      ensures v == 0 ==> S() == old(S()) && BinsTooSmall(S(), nb) && NotInBins(S(), nb)
      ensures v != 0 ==> ServedSmall(old(S()), nb, v) && RestIsDv(old(S()), S(), nb, v)
    {
      hide FirstInBin, HasExact, LeastSmall, LeastTree, ServedSmall, NotInBins, Ok, Coalesced, HandedOut, Untouched, BestFit, NoSmallChunk,
        Marked, Right, Left, Both, LeastBit, LeftBits, IdxBit, TrailingZeros, W, OnPage, Low1, Low2, BinsTooSmall, Sound, Blank, IsBest;
      ghost var s := S();
      v := 0;
      var idx := SmallIndex(nb);
      var smallbits := Right(smallmap, idx);
      SmallSearch(smallmap, idx);
      if smallbits != 0 {
        var leftbits := Both(Left(smallbits, idx), LeftBits(IdxBit(idx)));
        var i := TrailingZeros(LeastBit(leftbits), 0);
        SmallFirst(s, nb, i);
        v := TakeSmall(i, nb);
        LaterChunk(s, nb, i, v);
      } else if treemap != 0 {
        TreesAreOk(s);
        NoSmallFits(s, nb);
        v := TmallocSmall(nb);
        TreeIsNotSmall(s, v);
        TreeServes(s, nb, v);
        TreeChunk(s, {}, v);
        NotTopOrDv(s, v);
      } else {
        NoneSmall(s, nb);
        NothingInBins(s, nb);
      }
    }

    // ---------- malloc and free ----------

    /** A small request looks at its two bins, and with too small a designated victim at the later ones. */
    method LookInBins(nb: nat) returns (v: int)
      requires Sound(S()) && (Ok(S(), {}) ==> Coalesced(ch)) && IsSmallSize(nb) && nb <= 240
      modifies `m, `smallmap, `sn, `treemap, `tn, `ch, `dv, `dvsize
      ensures v != 0 ==> Ok(old(S()), {}) && Ok(S(), {}) && Coalesced(ch) && v in ch
      ensures v != 0 ==> nb <= ch[v].size < nb + 32 && HandedOut(old(ch), old(m), ch, m, v, ch[v].size)
      ensures v != 0 && v in old(sn) ==> forall q {:trigger old(sn)[q]} :: q in old(sn) && nb <= old(sn)[q].size ==>
                old(sn)[v].size <= old(sn)[q].size
      ensures v != 0 && v !in old(sn) ==> v in old(tn) && IsBest(old(tn), nb, v) && NoSmallChunk(old(S()), nb)
      ensures v == 0 ==> S() == old(S())
      ensures v == 0 && dvsize < nb ==> BinsTooSmall(S(), nb)
      ensures if v != 0 then ServedSmall(old(S()), nb, v) && RestIsDv(old(S()), S(), nb, v) else NotInBins(S(), nb)
    {
      hide FirstInBin, HasExact, LeastSmall, LeastTree, ServedSmall, Ok, Coalesced, HandedOut, Untouched, BestFit, NoSmallChunk, Marked,
        Right, Left, Both, LeastBit, LeftBits, IdxBit, TrailingZeros, W, OnPage, Low1, Low2, BinsTooSmall, Sound, Blank, IsBest;
      ghost var s := S();
      v := 0;
      var idx := SmallIndex(nb);
      var smallbits := Right(smallmap, idx);
      SmallSearch(smallmap, idx);
      if Low2(smallbits) != 0 {
        var i := idx + (if Low1(smallbits) == 0 then 1 else 0);
        SmallFirst(s, nb, i);
        v := TakeSmall(i, nb);
        ExactServes(s, nb, i, v);
        SmallChunk(s, {}, v);
        NotTopOrDv(s, v);
      } else {
        NoExact(s, nb);
        if nb > dvsize {
          v := FromLaterBins(nb);
        }
      }
    }

    /** The part of dlmalloc that looks at the bins for a small request; 0 if nothing is found. */
    method FromBinsSmall(nb: nat) returns (v: int)
      requires Valid() && IsSmallSize(nb) && nb <= 240
      modifies `m, `smallmap, `sn, `treemap, `tn, `ch, `dv, `dvsize
      ensures Valid() && |m| == old(|m|)
      ensures v != 0 ==> v in ch && nb <= ch[v].size < nb + 32 && HandedOut(old(ch), old(m), ch, m, v, ch[v].size)
      ensures v != 0 && v in old(sn) ==> forall q {:trigger old(sn)[q]} :: q in old(sn) && nb <= old(sn)[q].size ==>
                old(sn)[v].size <= old(sn)[q].size
      ensures v != 0 && v !in old(sn) ==> v in old(tn) && IsBest(old(tn), nb, v) && NoSmallChunk(old(S()), nb)
      ensures v == 0 ==> S() == old(S())
      ensures v == 0 && dvsize < nb ==> BinsTooSmall(S(), nb)
      ensures if v != 0 then ServedSmall(old(S()), nb, v) && RestIsDv(old(S()), S(), nb, v) else NotInBins(S(), nb)
    {
      hide ServedSmall, RestIsDv, NotInBins, Ok, Coalesced, HandedOut, NoSmallChunk, OnPage, BinsTooSmall, Sound, Blank, IsBest;
      ValidIsSound();
      if Ok(S(), {}) { EndOf(S()); }
      v := LookInBins(nb);
      if v != 0 { EndOf(S()); }
    }

    /** The same for a large request, or one too large for any chunk. */
    method FromBinsLarge(bytes: nat, nb: nat) returns (v: int)
      requires Valid() && bytes > MAX_SMALL_REQUEST && nb == RequestSize(bytes)
      modifies `m, `smallmap, `sn, `treemap, `tn, `ch
      ensures Valid() && |m| == old(|m|)
      ensures v != 0 ==> v in ch && nb <= ch[v].size < nb + 32 && HandedOut(old(ch), old(m), ch, m, v, ch[v].size)
      ensures v != 0 ==> BestFit(old(S()), nb, v)
      ensures v == 0 ==> S() == old(S()) && DvIsBest(S(), nb)
      ensures v == 0 && dvsize < nb ==> BinsTooSmall(S(), nb)
      ensures if v != 0 then ServedLarge(old(S()), nb, v) else bytes < MAX_REQUEST ==> DvTighter(S(), nb)
    {
      hide ServedLarge, IsBest, Ok, Coalesced, HandedOut, Untouched, BestFit, Padded, W, OnPage, BinsTooSmall, DvIsBest, Sound, Blank;
      ghost var s := S();
      ValidIsSound();
      if top != 0 { EndOf(s); }
      PaddedFits(bytes);
      v := 0;
      if bytes < MAX_REQUEST {
        if treemap != 0 {
          v := TmallocLarge(nb);
        }
        if v == 0 {
          NoneLarge(s, nb);
          NoTreeAtAll(s);
        } else {
          LargeServes(s, nb, v);
        }
      } else {
        NoneHuge(s);
      }
      if v != 0 { EndOf(S()); }
    }

    /** The part of dlmalloc that splits the victim or top; 0 if neither is large enough. */
    method FromDvOrTop(nb: nat) returns (v: int)
      requires Valid() && 32 <= nb && (nb % 16 == 0 || Unserviceable(nb))
      modifies `m, `ch, `dv, `dvsize, `top, `topsize
      ensures Valid() && |m| == old(|m|)
      ensures v != 0 ==> v in ch && nb <= ch[v].size < nb + 32 && HandedOut(old(ch), old(m), ch, m, v, ch[v].size)
      ensures v != 0 ==> old(top) != 0 && v == if nb <= old(dvsize) then old(dv) else old(top)
      ensures v == 0 ==> S() == old(S()) && dvsize < nb && topsize <= nb
      ensures v != 0 ==> RestIsDv(old(S()), S(), nb, v)
    {
      hide Ok, Coalesced, HandedOut, W, OnPage, Blank;
      ghost var s := S();
      v := 0;
      if nb <= dvsize {
        EndOf(s);
        SizesAreSmall(s);
        DvLooseSize(s);
        v := TakeDv(nb);
        EndOf(S());
      } else if nb < topsize {
        EndOf(s);
        SizesAreSmall(s);
        v := SplitTop(nb);
        HandedIn(s.ch, s.m, ch, m, v, nb);
        EndOf(S());
      }
    }

    ghost method IdleIsEmpty()
      requires Valid()
      ensures top == 0 ==> ch == map[]
    {
      hide Ok, Coalesced, Blank;
    }

    /**
      dlmalloc. A null pointer is returned only for requests whose padding wraps around; the
      system is asked, and may panic, only when no free chunk is large enough.
     */
    method DlMalloc(bytes: nat) returns (r: Outcome)
      requires Valid() && bytes < WORD
      modifies this
      ensures !r.Panic? ==> Valid()
      ensures r.Null? <==> Unserviceable(RequestSize(bytes))
      ensures r.Null? ==> S() == old(S())
      ensures r.Mem? ==> Allocated(old(ch), old(m), ch, m, r.addr, bytes)
      ensures r.Panic? || |m| != old(|m|) ==> NothingFits(old(S()), RequestSize(bytes))
      ensures r.Mem? && bytes > MAX_SMALL_REQUEST ==> BestFit(old(S()), RequestSize(bytes), r.addr - 16)
      ensures r.Mem? ==> Served(old(S()), bytes, r.addr - 16)
      ensures r.Mem? && bytes <= MAX_SMALL_REQUEST ==> RestIsDv(old(S()), S(), RequestSize(bytes), r.addr - 16)
    {
      hide ServedSmall, ServedLarge, NotInBins, DvTighter, Ok, Coalesced, HandedOut, Untouched, BestFit, Padded, W, OnPage, BinsTooSmall,
        DvIsBest, Sound, Blank, NothingFits, Empty, Idle, Ready;
      ghost var s := S();
      ValidIsSound();
      RequestFits(bytes);
      var nb, v := RequestSize(bytes), 0;
      if bytes <= MAX_SMALL_REQUEST {
        v := FromBinsSmall(nb);
      } else {
        v := FromBinsLarge(bytes, nb);
      }
      if v == 0 {
        Fallback(s, nb);
        v := FromDvOrTop(nb);
        RestAnswer(s, bytes, nb);
        assert v != 0 ==> FromRest(s, nb, v);
      }
      if v != 0 {
        BlockAligned(v);
        return Mem(v + 16);
      }
      IdleIsEmpty();
      r := SysAlloc(nb);
      if r.Mem? {
        BlockAligned(r.addr - 16);
        assert FromRest(s, nb, r.addr - 16);
      }
    }

    /** dlfree: the block at mem is taken back; a large top may be trimmed. */
    method DlFree(mem: int)
      requires Valid() && (mem == 0 || mem - 16 in Blocks(ch))
      modifies this
      ensures Valid()
      ensures mem == 0 ==> S() == old(S())
      ensures mem != 0 ==> GivenBack(old(ch), old(m), ch, m, mem - 16) && mem - 16 in old(ch)
      ensures mem != 0 ==> DvAfterFree(old(S()), mem - 16, dv, dvsize) && BinnedFirst(old(S()), mem - 16, S())
      ensures mem != 0 ==> TrimmedIfLarge(old(topsize), old(|m|), old(trimCheck))
    {
      hide Ok, Coalesced, GivenBack, Untouched, OnPage, Idle, DvAfterFree, Blocks, FirstInBin, MergeLo, MergeHi, MergeLoose;
      if mem != 0 {
        var p := mem - 16;
        ghost var ch0, m0 := ch, m;
        var topped := FreeChunk(p);
        if topped && topsize > trimCheck {
          ghost var ch1, m1 := ch, m;
          var _ := SysTrim(0);
          GivenBackSame(ch0, m0, ch1, m1, ch, m, p);
        }
      }
    }

    /** dlfree, but for the trimming. */
    method FreeChunk(p: int) returns (topped: bool)
      requires Valid() && p in Blocks(ch)
      modifies `m, `smallmap, `sn, `treemap, `tn, `ch, `dv, `dvsize, `top, `topsize
      ensures Valid() && |m| == old(|m|) && top != 0 && p in old(ch)
      ensures GivenBack(old(ch), old(m), ch, m, p) && DvAfterFree(old(S()), p, dv, dvsize) && BinnedFirst(old(S()), p, S())
      ensures topped == (p + old(ch)[p].size == old(top)) && if topped then topsize > old(topsize) else topsize == old(topsize)
    {
      hide Ok, Coalesced, GivenBack, Untouched, OnPage, Blank, ChunkSize, DvAfterFree, BinnedFirst, Blocks;
      InUse(p);
      EndOf(S());
      ChunkTag(S(), {}, p);
      var psize := ChunkSize(m[p + HEAD]);
      topped := Consolidate(p, psize);
      EndOf(S());
    }

    ghost method InUse(p: int)
      requires Valid() && p in Blocks(ch)
      ensures Ready() && Ok(S(), {}) && Coalesced(ch) && p in ch && ch[p].inuse
    {
      hide Ok, Coalesced;
    }

    ghost method BlockAligned(p: int)
      requires Valid() && p in ch
      ensures (p + 16) % 16 == 0 && p >= GM_END && ch[p].size <= MEMORY_LIMIT
    {
      hide Ok, Coalesced;
      ChunkTag(S(), {}, p);
    }

    // ---------- realloc and memalign ----------

    /** Two set_inuse calls cut the run from p, nb + rsize bytes long, into two chunks in use. */
    method CutInUse(p: int, nb: nat, rsize: nat, upperFirst: bool) returns (r: int)
      requires var hi := p + nb + rsize;
               Reach(S(), p, hi) && Ok(S(), ReachLoose(S(), p, hi)) && Coalesced(ch) && hi != End()
      requires 32 <= nb && nb % 16 == 0 && 32 <= rsize
      modifies `m, `ch
      ensures r == p + nb && Ok(S(), {}) && Coalesced(ch) && p in ch && ch[p].inuse && ch[p].size == nb
      ensures End() == old(End())
      ensures r in ch && ch[r].inuse && ch[r].size == rsize && r !in old(Blocks(ch))
      ensures Reshaped(old(Blocks(ch)), old(m), Blocks(ch) - {r}, m, p, nb)
    {
      hide Ok, Coalesced, Reach, ReachLoose, TagsWritten, Carve, Reshaped, SetInuse;
      ghost var s, hi := S(), p + nb + rsize;
      ReachBounds(s, p, hi);
      r := p + nb;
      if upperFirst {
        m := SetInuse(m, r, rsize);
        m := SetInuse(m, p, nb);
      } else {
        m := SetInuse(m, p, nb);
        m := SetInuse(m, r, rsize);
      }
      CutStores(s, p, r, hi, m);
      ReshapeMove(s, p, r, hi, true, m);
      ch := Carve(ch, p, r, hi, true, true);
    }

    /** The run from p to hi becomes one chunk in use. */
    method UseWhole(p: int, size: nat)
      requires Reach(S(), p, p + size) && Ok(S(), ReachLoose(S(), p, p + size)) && Coalesced(ch) && p + size != End()
      modifies `m, `ch
      ensures Ok(S(), {}) && Coalesced(ch) && p in ch && ch[p].size == size
      ensures Reshaped(old(Blocks(ch)), old(m), Blocks(ch), m, p, size)
    {
      hide Ok, Coalesced, Reach, ReachLoose, TagsWritten, Carve, Reshaped, SetInuse;
      ghost var s, hi := S(), p + size;
      ReachBounds(s, p, hi);
      m := SetInuse(m, p, size);
      WholeStores(s, p, hi, m);
      ReshapeMove(s, p, hi, hi, true, m);
      ch := Carve(ch, p, hi, hi, true, true);
    }

    method DisposeChunk(p: int, psize: nat)
      requires Ok(S(), {}) && Coalesced(ch) && p in ch && ch[p].inuse && ch[p].size == psize
      modifies `m, `smallmap, `sn, `treemap, `tn, `ch, `dv, `dvsize, `top, `topsize
      ensures Ok(S(), {}) && Coalesced(ch) && End() == old(End())
      ensures GivenBack(old(ch), old(m), ch, m, p) && DvAfterFree(old(S()), p, dv, dvsize)
    {
      var _ := Consolidate(p, psize);
    }

    /** try_realloc_chunk, the chunk is large enough: a remainder is split off and given back. */
    method Shrink(p: int, oldsize: nat, nb: nat)
      requires Ok(S(), {}) && Coalesced(ch) && p in ch && ch[p].inuse && ch[p].size == oldsize
      requires 32 <= nb <= oldsize && nb % 16 == 0
      modifies `m, `smallmap, `sn, `treemap, `tn, `ch, `dv, `dvsize, `top, `topsize
      ensures Ok(S(), {}) && Coalesced(ch) && End() == old(End()) && p in ch && nb <= ch[p].size < nb + 32
      ensures Reshaped(old(Blocks(ch)), old(m), Blocks(ch), m, p, ch[p].size)
      ensures DvAfterResize(old(S()), p, nb, dv, dvsize)
    {
      hide Ok, Coalesced, ReachLoose, Reshaped, GivenBack, Blocks;
      ghost var s := S();
      BlockOf(ch, p);
      var rsize := oldsize - nb;
      if rsize >= MIN_CHUNK_SIZE {
        ReachSelf(s, p);
        var r := CutInUse(p, nb, rsize, false);
        ghost var ch1, m1 := ch, m;
        DvAfterCut(S(), p, r);
        DisposeChunk(r, rsize);
        ReshapedThen(Blocks(s.ch), s.m, ch1, m1, ch, m, p, r, nb);
        BlockSize(ch, p, Blocks(s.ch), s.m, m, nb);
      } else {
        ReshapedSame(Blocks(ch), m, p);
      }
    }

    /** try_realloc_chunk, the next chunk is top. */
    method GrowIntoTop(p: int, oldsize: nat, nb: nat)
      requires Ok(S(), {}) && Coalesced(ch) && p in ch && ch[p].inuse && ch[p].size == oldsize && p + oldsize == top
      requires oldsize < nb < oldsize + topsize && nb % 16 == 0
      modifies `m, `ch, `top, `topsize
      ensures Ok(S(), {}) && Coalesced(ch) && End() == old(End()) && p in ch && ch[p].size == nb
      ensures Reshaped(old(Blocks(ch)), old(m), Blocks(ch), m, p, nb)
    {
      hide Ok, Coalesced, Carve, Reshaped, SetInuse, Blocks;
      ghost var s := S();
      IntoTopRoom(s, p);
      var newsize := oldsize + topsize;
      var newtopsize := newsize - nb;
      var newtop := p + nb;
      m := SetInuse(m, p, nb);
      m := m[newtop + HEAD := newtopsize + 1];
      top := newtop;
      topsize := newtopsize;
      IntoTopMove(s, p, nb, m);
      ch := Carve(ch, p, newtop, s.End(), true, false);
    }

    /** try_realloc_chunk, the next chunk is the designated victim. */
    method GrowIntoDv(p: int, oldsize: nat, nb: nat)
      requires Ok(S(), {}) && Coalesced(ch) && p in ch && ch[p].inuse && ch[p].size == oldsize && p + oldsize == dv && dv in ch
      requires oldsize < nb <= oldsize + dvsize && nb % 16 == 0
      modifies `m, `ch, `dv, `dvsize
      ensures Ok(S(), {}) && Coalesced(ch) && p in ch && nb <= ch[p].size < nb + 32
      ensures Reshaped(old(Blocks(ch)), old(m), Blocks(ch), m, p, ch[p].size)
      ensures DvAfterResize(old(S()), p, nb, dv, dvsize)
    {
      hide Ok, Coalesced, Carve, Reshaped, SetInuse, ClearPinuse, Blocks;
      ghost var s := S();
      IntoDvRoom(s, p);
      DvIsFree(s, {});
      var dsize := oldsize + dvsize - nb;
      if dsize >= MIN_CHUNK_SIZE {
        var r := p + nb;
        var n := r + dsize;
        m := SetInuse(m, p, nb);
        m := m[r + HEAD := dsize + 1];
        m := m[n := dsize];
        m := m[n + HEAD := ClearPinuse(m[n + HEAD])];
        dvsize := dsize;
        dv := r;
        IntoDvMove(s, p, nb, m);
        ch := Carve(ch, p, r, n, true, false);
      } else {
        var newsize := oldsize + dvsize;
        dvsize := 0;
        dv := 0;
        UseWhole(p, newsize);
      }
    }

    /** try_realloc_chunk, the next chunk is in a bin. */
    method GrowIntoFree(p: int, oldsize: nat, next: int, nextsize: nat, nb: nat)
      requires Ok(S(), {}) && Coalesced(ch) && p in ch && ch[p].inuse && ch[p].size == oldsize
      requires next == p + oldsize && next in ch && !ch[next].inuse && next != top && next != dv && ch[next].size == nextsize
      requires oldsize < nb <= oldsize + nextsize && nb % 16 == 0
      modifies `m, `smallmap, `sn, `treemap, `tn, `ch, `dv, `dvsize, `top, `topsize
      ensures Ok(S(), {}) && Coalesced(ch) && End() == old(End()) && p in ch && nb <= ch[p].size < nb + 32
      ensures Reshaped(old(Blocks(ch)), old(m), Blocks(ch), m, p, ch[p].size)
      ensures DvAfterResize(old(S()), p, nb, dv, dvsize)
    {
      hide Ok, Coalesced, Reshaped, GivenBack, Blocks, Untouched, LinkWrites;
      ghost var s := S();
      BlockOf(ch, p);
      ChunkTag(s, {}, p);
      InSomeBin(s, {}, next);
      DvNotAfterFree(s, next);
      var rsize := oldsize + nextsize - nb;
      UnlinkChunk({}, next, nextsize);
      assert {} + {next} == {next};
      LinksLeaveBlocks(s, {}, m);
      ghost var s1 := S();
      ReachBounds(s1, p, next + nextsize);
      if rsize < MIN_CHUNK_SIZE {
        var newsize := oldsize + nextsize;
        UseWhole(p, newsize);
        ReshapedAfter(Blocks(s.ch), s.m, s1.m, Blocks(ch), m, p, newsize);
      } else {
        var r := CutInUse(p, nb, rsize, false);
        ghost var ch1, m1 := ch, m;
        DvAfterCut(S(), p, r);
        DisposeChunk(r, rsize);
        ReshapedThen(Blocks(s.ch), s1.m, ch1, m1, ch, m, p, r, nb);
        BlockSize(ch, p, Blocks(s.ch), s1.m, m, nb);
        ReshapedAfter(Blocks(s.ch), s.m, s1.m, Blocks(ch), m, p, nb);
      }
    }

    /** try_realloc_chunk. */
    method TryRealloc(p: int, nb: nat) returns (done: bool)
      requires Ok(S(), {}) && Coalesced(ch) && p in ch && ch[p].inuse && 32 <= nb && nb % 16 == 0
      modifies `m, `smallmap, `sn, `treemap, `tn, `ch, `dv, `dvsize, `top, `topsize
      ensures done <==> FitsInPlace(old(S()), p, nb)
      ensures !done ==> S() == old(S())
      ensures Ok(S(), {}) && Coalesced(ch) && End() == old(End())
      ensures done ==> p in ch && nb <= ch[p].size < nb + 32 && Reshaped(old(Blocks(ch)), old(m), Blocks(ch), m, p, ch[p].size)
      ensures done ==> DvAfterResize(old(S()), p, nb, dv, dvsize)
    {
      hide Ok, Coalesced, Reshaped, Blocks, MergeLo, MergeHi, ChunkSize, Cinuse, Pinuse, PrevInuse;
      ghost var s := S();
      ChunkTag(s, {}, p);
      MergeRun(s, {}, p);
      MergeHiIs(ch, p);
      DvIsFree(s, {});
      TopRun(s, {});
      var oldsize := ChunkSize(m[p + HEAD]);
      var next := p + oldsize;
      done := false;
      if oldsize >= nb {
        Shrink(p, oldsize, nb);
        done := true;
      } else if next == top {
        if oldsize + topsize > nb {
          GrowIntoTop(p, oldsize, nb);
          done := true;
        }
      } else if next == dv {
        if oldsize + dvsize >= nb {
          GrowIntoDv(p, oldsize, nb);
          done := true;
        }
      } else if !Cinuse(m[next + HEAD]) {
        var nextsize := ChunkSize(m[next + HEAD]);
        if oldsize + nextsize >= nb {
          GrowIntoFree(p, oldsize, next, nextsize, nb);
          done := true;
        }
      }
    }

    /** A program stores a byte in one of its blocks. */
    method StoreByte(ghost q: int, a: int, b: int)
      requires Valid() && q in Blocks(ch) && q + 16 <= a < q + ch[q].size + 8 && 0 <= b < 256
      modifies `m
      ensures Valid() && ByteStored(old(m), m, a, b) && WithinBlock(old(S()), q, m)
      ensures Untouched(Blocks(ch) - {q}, old(m), m)
    {
      hide Ok, Coalesced, ByteStored, SetByte, OnPage, Untouched;
      ghost var s := S();
      InUse(q);
      StoreRoom(s, q, a);
      m := SetByte(m, a, b);
      StoreOk(s, q, a, b, m);
    }

    /** memcpy from one block into another. */
    method Memcpy(dest: int, src: int, num: nat)
      requires Valid() && dest - 16 in Blocks(ch) && src - 16 in Blocks(ch) && dest != src
      requires num + 8 <= ch[dest - 16].size && num + 8 <= ch[src - 16].size
      modifies `m
      ensures Valid() && WithinBlock(old(S()), dest - 16, m)
      ensures SameContents(old(m), src, m, dest, num)
    {
      hide Ok, Coalesced, Byte, SameContents, ByteStored, OnPage, Idle, Ready, WithinBlock, Untouched;
      ghost var s := S();
      InUse(dest - 16);
      InUse(src - 16);
      SourceApart(s, dest - 16, src - 16, num);
      SameHere(m, src, num);
      NoneYet(s, dest - 16, src, dest);
      var n := 0;
      while n < num
        invariant 0 <= n <= num && Valid() && WithinBlock(s, dest - 16, m)
        invariant SameContents(s.m, src, m, dest, n) && SameContents(s.m, src, m, src, num)
      {
        ByteInRange(m, src + n);
        ghost var m1 := m;
        StoreByte(dest - 16, dest + n, Byte(m, src + n));
        CopyStep(s.m, m1, m, dest, src, n, num);
        WithinTrans(s, dest - 16, m1, m);
        n := n + 1;
      }
    }

    /** dlrealloc of an existing block. */
    method DlRealloc(mem: int, bytes: nat) returns (r: Outcome)
      requires Valid() && bytes < WORD && (mem == 0 || mem - 16 in Blocks(ch))
      modifies this
      ensures !r.Panic? ==> Valid()
      ensures mem == 0 && r.Mem? ==> Allocated(old(ch), old(m), ch, m, r.addr, bytes)
      ensures mem != 0 && r.Mem? ==> Reallocated(old(Blocks(ch)), old(m), Blocks(ch), m, mem, r.addr, bytes)
      ensures mem != 0 && bytes < MAX_REQUEST && FitsInPlace(old(S()), mem - 16, Padded(bytes)) ==>
                r == Mem(mem) && DvAfterResize(old(S()), mem - 16, Padded(bytes), dv, dvsize)
      ensures r.Mem? && (mem == 0 || !FitsInPlace(old(S()), mem - 16, Padded(bytes))) ==> Served(old(S()), bytes, r.addr - 16)
      ensures mem != 0 && bytes >= MAX_REQUEST ==> r == Panic
      ensures r.Null? ==> S() == old(S()) && Unserviceable(RequestSize(bytes))
      ensures r.Panic? ==> (mem != 0 && bytes >= MAX_REQUEST) || NothingFits(old(S()), RequestSize(bytes))
    {
      hide Ok, Coalesced, Blocks, Reallocated, Allocated, FitsInPlace, Padded, OnPage, NothingFits, BestFit, Idle, Ready, Served, DvAfterResize;
      if mem == 0 {
        r := DlMalloc(bytes);
        return;
      }
      if bytes >= MAX_REQUEST {
        return Panic;
      }
      ghost var s := S();
      InUse(mem - 16);
      var done := ReallocInPlace(mem, bytes);
      if done {
        return Mem(mem);
      }
      r := DlMalloc(bytes);
      if r.Mem? {
        r := MoveBlock(s, mem, r.addr, bytes);
      }
    }

    /** The first attempt of dlrealloc. */
    method ReallocInPlace(mem: int, bytes: nat) returns (done: bool)
      requires Valid() && bytes < MAX_REQUEST && mem - 16 in Blocks(ch)
      modifies `m, `smallmap, `sn, `treemap, `tn, `ch, `dv, `dvsize, `top, `topsize
      ensures Valid() && (done <==> FitsInPlace(old(S()), mem - 16, Padded(bytes)))
      ensures done ==> Reallocated(old(Blocks(ch)), old(m), Blocks(ch), m, mem, mem, bytes)
      ensures done ==> mem - 16 in old(ch) && DvAfterResize(old(S()), mem - 16, Padded(bytes), dv, dvsize)
      ensures !done ==> S() == old(S())
    {
      hide Ok, Coalesced, Blocks, Reshaped, Reallocated, FitsInPlace, Padded, OnPage, Idle, DvAfterResize;
      PaddedFits(bytes);
      var nb := Padded(bytes);
      var oldp := mem - 16;
      ghost var s := S();
      InUse(oldp);
      EndOf(s);
      BlockOf(ch, oldp);
      done := TryRealloc(oldp, nb);
      EndOf(S());
      if done {
        InPlaceAt(s, S(), mem, bytes);
      }
    }

    /** The part of dlrealloc after a new block was found: copy and free the old one. */
    method MoveBlock(ghost s: State, oldmem: int, mem: int, bytes: nat) returns (r: Outcome)
      requires Valid() && oldmem != 0 && oldmem - 16 in Blocks(s.ch) && Ok(s, {}) && Allocated(s.ch, s.m, ch, m, mem, bytes)
      modifies this
      ensures Valid() && r == Mem(mem)
      ensures Reallocated(Blocks(s.ch), s.m, Blocks(ch), m, oldmem, mem, bytes)
    {
      hide Ok, Coalesced, Reallocated, Allocated, Padded, OnPage, GivenBack, Idle, Ready, Untouched, ChunkSize, SameContents;
      ghost var s1 := S();
      BothBlocks(s, ch, m, oldmem, mem, bytes);
      InUse(oldmem - 16);
      ChunkTag(s1, {}, oldmem - 16);
      var oc := ChunkSize(m[oldmem - 16 + HEAD]) - 8;
      var num := if oc < bytes then oc else bytes;
      Memcpy(mem, oldmem, num);
      ghost var s2 := S();
      BlockWrites(s1, mem - 16, m);
      DlFree(oldmem);
      Moved(s, s1, s2.m, ch, m, oldmem, mem, bytes);
      r := Mem(mem);
    }

    /**
      internal_memalign's rounding of the alignment. For alignments beyond 2^63 that are not
      powers of two the loop does not end.
     */
    method RoundAlignment(requested: nat) returns (alignment: nat)
      requires requested <= HALF_WORD
      ensures alignment == RoundUp(requested)
    {
      alignment := requested;
      if alignment < MIN_CHUNK_SIZE {
        alignment := MIN_CHUNK_SIZE;
      }
      ThirtyTwo();
      if !PowerOfTwo(alignment) {
        var a := 32;
        while a < alignment
          invariant 0 < a < WORD && Doubled(a, alignment) == Doubled(32, alignment)
          decreases alignment - a
        {
          NoWrap(2 * a);
          a := 2 * a % WORD;
        }
        alignment := a;
      }
    }

    /** internal_memalign. */
    method InternalMemalign(requested: nat, bytes: nat) returns (r: Outcome)
      requires Valid() && requested <= HALF_WORD && bytes < WORD
      modifies this
      ensures !r.Panic? ==> Valid()
      ensures bytes >= MAX_REQUEST - RoundUp(requested) ==> r == Panic
      ensures r.Mem? ==> AlignedBlock(old(ch), old(m), ch, m, r.addr, RoundUp(requested), bytes) && ServedAligned(old(S()), requested, bytes, r.addr)
      ensures r.Null? ==> S() == old(S()) && Unserviceable(RequestSize(AlignedRequest(requested, bytes)))
      ensures r.Panic? && bytes < MAX_REQUEST - RoundUp(requested) ==>
                NothingFits(old(S()), RequestSize(AlignedRequest(requested, bytes)))
    {
      hide Ok, Coalesced, HandedOut, Untouched, Blocks, RoundUp, AlignUp, Padded, OnPage, Idle, NothingFits, BestFit, Served;
      RoundUpIsLeast(requested);
      var alignment := RoundAlignment(requested);
      if bytes >= MAX_REQUEST - alignment {
        return Panic;
      }
      PaddedFits(bytes);
      var nb := Padded(bytes);
      var req := nb + alignment + MIN_CHUNK_SIZE - 8;
      assert req == AlignedRequest(requested, bytes);
      r := DlMalloc(req);
      if r.Mem? {
        PaddedFits(req);
        assert Served(old(S()), req, r.addr - 16);
        var p := AlignChunk(old(ch), old(m), r.addr, alignment, nb, ch[r.addr - 16].size);
        r := Mem(p + 16);
      }
    }

    /** The part of internal_memalign after dlmalloc: give back what precedes and follows. */
    method AlignChunk(ghost ch0: Chunks, ghost m0: seq<int>, mem: int, alignment: nat, nb: nat, ghost size: nat) returns (p: int)
      requires Valid() && 32 <= nb && nb % 16 == 0 && 32 <= alignment && alignment % 16 == 0
      requires mem - 16 in ch && ch[mem - 16].size == size >= nb + alignment + 32 && HandedOut(ch0, m0, ch, m, mem - 16, size)
      modifies this
      ensures Valid() && p in ch && nb <= ch[p].size <= nb + 32 && FirstAligned(mem, alignment, p + 16)
      ensures HandedOut(ch0, m0, ch, m, p, ch[p].size)
    {
      hide Ok, Coalesced, HandedOut, Untouched, Blocks, AlignUp, OnPage, Idle, Reshaped, GivenBack, ChunkSize;
      p := mem - 16;
      HandedIn(ch0, m0, ch, m, p, size);
      BlockOf(ch, p);
      InUse(p);
      ChunkTag(S(), {}, p);
      EndOf(S());
      if mem % alignment != 0 {
        p := CutLead(ch0, m0, p, alignment, nb, size);
      }
      EndOf(S());
      ChunkTag(S(), {}, p);
      var csize := ChunkSize(m[p + HEAD]);
      if csize > nb + MIN_CHUNK_SIZE {
        ghost var ch1, m1 := ch, m;
        Shrink(p, csize, nb);
        EndOf(S());
        Aligned(csize, nb);
        TailGone(ch0, m0, ch1, m1, ch, m, p, csize, ch[p].size);
      }
    }

    /** The chunk starts too low: its beginning is cut off and disposed of. */
    method CutLead(ghost ch0: Chunks, ghost m0: seq<int>, p: int, alignment: nat, nb: nat, ghost size: nat) returns (newp: int)
      requires Ok(S(), {}) && Coalesced(ch) && 32 <= nb && nb % 16 == 0 && 32 <= alignment && alignment % 16 == 0
      requires p in ch && ch[p].inuse && ch[p].size == size >= nb + alignment + 32
      requires HandedOut(ch0, m0, ch, m, p, size) && (p + 16) % alignment != 0
      modifies `m, `smallmap, `sn, `treemap, `tn, `ch, `dv, `dvsize, `top, `topsize
      ensures Ok(S(), {}) && Coalesced(ch) && End() == old(End())
      ensures newp in ch && ch[newp].inuse && nb <= ch[newp].size && FirstAligned(p + 16, alignment, newp + 16)
      ensures HandedOut(ch0, m0, ch, m, newp, ch[newp].size)
    {
      hide Ok, Coalesced, HandedOut, Untouched, Blocks, AlignedChunk, Reshaped, GivenBack, ChunkSize, Reach, ReachLoose, FirstAligned;
      ChunkTag(S(), {}, p);
      LeadFits(p, size, alignment, nb);
      newp := AlignedChunk(p, alignment);
      var leadsize := newp - p;
      var newsize := ChunkSize(m[p + HEAD]) - leadsize;
      ReachSelf(S(), p);
      assert p + leadsize + newsize == p + ch[p].size;
      ghost var ch1, m1 := ch, m;
      var r := CutInUse(p, leadsize, newsize, true);
      ghost var ch2, m2 := ch, m;
      BlockOf(ch, newp);
      DisposeChunk(p, leadsize);
      LeadGone(ch0, m0, ch1, m1, ch2, m2, ch, m, p, leadsize, size, newp, newsize);
      HandedIn(ch0, m0, ch, m, newp, newsize);
    }

    ghost method IdleBlocks()
      requires Idle()
      ensures Blocks(ch) == map[] && ch == map[]
    {
    }
  }
}

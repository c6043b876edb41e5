/**
  unlink_large_chunk on the words of memory. The replacement R of a tree node x is first
  freed from its own position (the ring, or a leaf of the subtree), then it takes the
  position of x.
 */
module TreeUnlink {
  import opened BinIndex
  import opened BinMap
  import opened Memory
  import opened TreeBins
  import opened TreeInsert

  /** Only the words at a and b are written. */
  ghost predicate WritesTwo(m: seq<int>, m': seq<int>, a: int, b: int) {
    && |m'| == |m|
    && forall k {:trigger W(m', k)} :: k != a && k != b ==> W(m', k) == W(m, k)
  }

  function Minus(t: Nodes, x: int): Nodes { map p | p in t && p != x :: t[p] }

  /** x is unlinked from the ring between its neighbours R and F. */
  ghost predicate RingClosed(m: seq<int>, m': seq<int>, x: int) {
    var R, F := W(m, x + BK), W(m, x + FD);
    WritesTwo(m, m', F + BK, R + FD) && W(m', F + BK) == R && W(m', R + FD) == F
  }

  /** What closing the ring does to the words of the other chunks. */
  lemma RingClosedWords(m: seq<int>, t: Nodes, tm: binmap, x: int, m': seq<int>)
    requires TreeOk(m, t, tm) && x in t && RingClosed(m, m', x)
    ensures |m'| == |m|
    ensures var R, F := W(m, x + BK), W(m, x + FD);
            && W(m', F + BK) == R && W(m', R + FD) == F
            && (forall p {:trigger t[p]} :: p in t ==> SameButRing(m, m', p, R, F))
            && forall i: nat {:trigger Root(m', i)} :: i < TREE_BINS ==> Root(m', i) == Root(m, i)
  {
    hide UnderParent, OverChild, TreeIndex;
    var R, F := W(m, x + BK), W(m, x + FD);
    assert NodeOk(m, t, x);
    assert NodeOk(m, t, R) && NodeOk(m, t, F);
    hide OnRing;
    forall p {:trigger t[p]} | p in t
      ensures SameButRing(m, m', p, R, F)
    {
      assert NodeOk(m, t, p);
      assert PairOk(t, p, R) && PairOk(t, R, p) && PairOk(t, p, F) && PairOk(t, F, p);
    }
  }

  lemma PairsMinus(t: Nodes, x: int)
    requires forall p, q {:trigger PairOk(t, p, q)} :: p in t && q in t ==> PairOk(t, p, q)
    ensures var t' := Minus(t, x);
            forall p, q {:trigger PairOk(t', p, q)} :: p in t' && q in t' ==> PairOk(t', p, q)
  {
    var t' := Minus(t, x);
    forall p, q {:trigger PairOk(t', p, q)} | p in t' && q in t'
      ensures PairOk(t', p, q)
    {
      assert PairOk(t, p, q);
    }
  }

  /** A chunk that is not in the tree just leaves its ring. */
  lemma RingLeave(m: seq<int>, t: Nodes, tm: binmap, x: int, m': seq<int>)
    requires TreeOk(m, t, tm) && x in t && t[x].rank > 0
    requires RingClosed(m, m', x)
    ensures TreeOk(m', Minus(t, x), tm)
  {
    hide Path, Dir, TreeIndex, Marked, Placed, OnRing, UnderParent, OverChild;
    var t' := Minus(t, x);
    RingClosedWords(m, t, tm, x, m');
    forall p {:trigger NodeOk(m', t', p)} | p in t'
      ensures NodeOk(m', t', p)
    {
      assert NodeOk(m, t, p);
      assert NodeOk(m, t, x);
      RingLeaveNode(m, t, x, m', p);
    }
    hide NodeOk;
    PairsMinus(t, x);
    forall i: nat {:trigger RootOk(m', t', tm, i)} | i < TREE_BINS
      ensures RootOk(m', t', tm, i)
    {
      assert RootOk(m, t, tm, i);
    }
  }

  lemma RingLeaveNode(m: seq<int>, t: Nodes, x: int, m': seq<int>, p: int)
    requires x in t && t[x].rank > 0 && NodeOk(m, t, x)
    requires p in t && p != x && NodeOk(m, t, p)
    requires |m'| == |m|
    requires var R, F := W(m, x + BK), W(m, x + FD);
             && (forall q {:trigger t[q]} :: q in t ==> SameButRing(m, m', q, R, F))
             && W(m', F + BK) == R && W(m', R + FD) == F
    requires forall i: nat {:trigger Root(m', i)} :: i < TREE_BINS ==> Root(m', i) == Root(m, i)
    ensures NodeOk(m', Minus(t, x), p)
  {
    hide Path, Dir, TreeIndex, W, Child, Root, ChunkSize, IsLargeSize, TreeBinAt;
    assert OnRing(m, t, x) && OnRing(m, t, p);
  }

  /**
    Between freeing the replacement r and giving it the position of x: x is in the tree but
    on no ring, r is on its ring but not in the tree, everything else is as it should be.
   */
  ghost predicate Handover(m: seq<int>, t: Nodes, tm: binmap, x: int, r: int) {
    && GM_END <= |m| && x != r && InTree(t, x) && InTree(t, r)
    && (forall p {:trigger Settled(m, t, x, r, p)} :: p in t && p != x && p != r ==> Settled(m, t, x, r, p))
    && OffTree(m, t, x, r) && OffRing(m, t, x, r)
    && HandoverPairs(t, x, r)
    && (forall i: nat {:trigger RootOk(m, t, tm, i)} :: i < TREE_BINS ==> RootOk(m, t, tm, i))
    && (forall i: nat {:trigger Root(m, i)} :: i < TREE_BINS ==> Root(m, i) != r)
    && TreeIndex(t[r].size) == TreeIndex(t[x].size)
    && Path(t[r].size, t[x].depth) == Path(t[x].size, t[x].depth)
  }

  ghost predicate OffTree(m: seq<int>, t: Nodes, x: int, r: int)
    requires r in t
  {
    && Placed(m, t, r) && OnRing(m, t, r) && W(m, r + FD) != x && W(m, r + BK) != x
    && Child(m, r, 0) == 0 && Child(m, r, 1) == 0
  }

  ghost predicate OffRing(m: seq<int>, t: Nodes, x: int, r: int)
    requires x in t
  {
    && Placed(m, t, x) && t[x].depth <= OpenBits(TreeIndex(t[x].size))
    && UnderParent(m, t, x) && OverChild(m, t, x, 0) && OverChild(m, t, x, 1)
    && Child(m, x, 0) != r && Child(m, x, 1) != r
  }

  ghost predicate HandoverPairs(t: Nodes, x: int, r: int)
    requires x in t && r in t
  {
    && (forall p, q {:trigger PairOk(t, p, q)} ::
          p in t && q in t && !(p == x && q == r) && !(p == r && q == x) ==> PairOk(t, p, q))
    && (x < r ==> x + t[x].size <= r) && (r < x ==> r + t[r].size <= x)
  }

  ghost predicate Settled(m: seq<int>, t: Nodes, x: int, r: int, p: int)
    requires p in t
  {
    && NodeOk(m, t, p)
    && W(m, p + FD) != x && W(m, p + BK) != x && Child(m, p, 0) != r && Child(m, p, 1) != r
  }

  /** The word that points down to x. */
  function SlotOf(m: seq<int>, t: Nodes, x: int): int
    requires x in t
  {
    if t[x].depth == 0 then TreeBinAt(TreeIndex(t[x].size))
    else W(m, x + PARENT) + CHILD + 8 * Dir(t[x].size, t[x].depth - 1)
  }

  /** x is child b of p. */
  predicate IsSlot(m: seq<int>, t: Nodes, x: int, p: int, b: int)
    requires x in t
  {
    t[x].depth > 0 && p == W(m, x + PARENT) && b == Dir(t[x].size, t[x].depth - 1)
  }

  /** r has been linked in place of x. */
  ghost predicate PlaceTaken(m: seq<int>, t: Nodes, x: int, r: int, m': seq<int>)
    requires x in t
  {
    var slot, c0, c1 := SlotOf(m, t, x), Child(m, x, 0), Child(m, x, 1);
    && |m'| == |m|
    && (forall k {:trigger W(m', k)} ::
          (&& k != slot && k != r + PARENT && k != r + CHILD && k != r + CHILD + 8
           && (c0 == 0 || k != c0 + PARENT) && (c1 == 0 || k != c1 + PARENT)) ==> W(m', k) == W(m, k))
    && W(m', slot) == r && W(m', r + PARENT) == W(m, x + PARENT)
    && Child(m', r, 0) == c0 && Child(m', r, 1) == c1
    && (c0 != 0 ==> W(m', c0 + PARENT) == r) && (c1 != 0 ==> W(m', c1 + PARENT) == r)
  }

  /** The words of chunk p after r has taken the place of x. */
  ghost predicate TakenWords(m: seq<int>, t: Nodes, x: int, r: int, m': seq<int>, p: int)
    requires x in t
  {
    && W(m', p + HEAD) == W(m, p + HEAD) && W(m', p + INDEX) == W(m, p + INDEX)
    && W(m', p + FD) == W(m, p + FD) && W(m', p + BK) == W(m, p + BK)
    && (p != r && p != Child(m, x, 0) && p != Child(m, x, 1) ==> W(m', p + PARENT) == W(m, p + PARENT))
    && (p != r ==> Child(m', p, 0) == if IsSlot(m, t, x, p, 0) then r else Child(m, p, 0))
    && (p != r ==> Child(m', p, 1) == if IsSlot(m, t, x, p, 1) then r else Child(m, p, 1))
  }

  /** Same chunk, or no word in common. */
  predicate Far(p: int, q: int) { p == q || p + 64 <= q || q + 64 <= p }

  lemma HandoverFar(m: seq<int>, t: Nodes, tm: binmap, x: int, r: int, p: int, q: int)
    requires Handover(m, t, tm, x, r) && p in t && q in t
    ensures Far(p, q) && GM_END <= p
  {
    hide Path, Dir, TreeIndex, OnRing, UnderParent, OverChild;
    assert p != x && p != r ==> Settled(m, t, x, r, p);
    assert q != x && q != r ==> Settled(m, t, x, r, q);
    assert !(p == x && q == r) && !(p == r && q == x) ==> PairOk(t, p, q) && PairOk(t, q, p);
  }

  lemma PlaceTakenWords(m: seq<int>, t: Nodes, tm: binmap, x: int, r: int, m': seq<int>, p: int)
    requires Handover(m, t, tm, x, r) && PlaceTaken(m, t, x, r, m') && p in t
    ensures TakenWords(m, t, x, r, m', p)
  {
    hide Path, Dir, TreeIndex;
    var c0, c1, q := Child(m, x, 0), Child(m, x, 1), W(m, x + PARENT);
    HandoverFar(m, t, tm, x, r, p, r);
    if c0 != 0 { HandoverFar(m, t, tm, x, r, p, c0); }
    if c1 != 0 { HandoverFar(m, t, tm, x, r, p, c1); }
    if t[x].depth > 0 { HandoverFar(m, t, tm, x, r, p, q); }
    hide Handover, Settled;
    PlaceTakenAt(m, t, x, r, m', p);
  }

  lemma PlaceTakenAt(m: seq<int>, t: Nodes, x: int, r: int, m': seq<int>, p: int)
    requires x in t && PlaceTaken(m, t, x, r, m')
    requires GM_END <= p && Far(p, r)
    requires Child(m, x, 0) == 0 || Far(p, Child(m, x, 0))
    requires Child(m, x, 1) == 0 || Far(p, Child(m, x, 1))
    requires t[x].depth == 0 || Far(p, W(m, x + PARENT))
    ensures TakenWords(m, t, x, r, m', p)
  {
    hide Path, Dir, TreeIndex, W;
    var slot := SlotOf(m, t, x);
    assert t[x].depth == 0 ==> slot < GM_END;
    if p != r { PlaceTakenChildren(m, t, x, r, m', p); }
    hide IsSlot;
  }

  lemma PlaceTakenChildren(m: seq<int>, t: Nodes, x: int, r: int, m': seq<int>, p: int)
    requires x in t && PlaceTaken(m, t, x, r, m')
    requires GM_END <= p && Far(p, r) && p != r
    requires Child(m, x, 0) == 0 || Far(p, Child(m, x, 0))
    requires Child(m, x, 1) == 0 || Far(p, Child(m, x, 1))
    requires t[x].depth == 0 || Far(p, W(m, x + PARENT))
    ensures Child(m', p, 0) == if IsSlot(m, t, x, p, 0) then r else Child(m, p, 0)
    ensures Child(m', p, 1) == if IsSlot(m, t, x, p, 1) then r else Child(m, p, 1)
  {
    hide Path, Dir, TreeIndex, W;
    assert t[x].depth == 0 ==> SlotOf(m, t, x) < GM_END;
  }

  function Replaced(t: Nodes, x: int, r: int): Nodes
    requires x in t && r in t
  {
    Minus(t, x)[r := Node(t[r].size, 0, t[x].depth)]
  }

  lemma RootsTaken(m: seq<int>, t: Nodes, tm: binmap, x: int, r: int, m': seq<int>)
    requires Handover(m, t, tm, x, r) && PlaceTaken(m, t, x, r, m')
    ensures forall i: nat {:trigger Root(m', i)} :: i < TREE_BINS ==>
              Root(m', i) == if t[x].depth == 0 && i == TreeIndex(t[x].size) then r else Root(m, i)
    ensures forall i: nat {:trigger RootOk(m', Replaced(t, x, r), tm, i)} :: i < TREE_BINS ==>
              RootOk(m', Replaced(t, x, r), tm, i)
  {
    hide Path, Dir, TreeIndex, Marked, OnRing, Settled;
    var c0, c1, q := Child(m, x, 0), Child(m, x, 1), W(m, x + PARENT);
    if c0 != 0 { HandoverFar(m, t, tm, x, r, c0, c0); }
    if c1 != 0 { HandoverFar(m, t, tm, x, r, c1, c1); }
    if t[x].depth > 0 { HandoverFar(m, t, tm, x, r, q, q); }
    assert RootOk(m, t, tm, TreeIndex(t[x].size));
    assert forall i: nat {:trigger Root(m', i)} :: i < TREE_BINS ==>
              Root(m', i) == if t[x].depth == 0 && i == TreeIndex(t[x].size) then r else Root(m, i);
    hide PlaceTaken, W;
    forall i: nat {:trigger RootOk(m', Replaced(t, x, r), tm, i)} | i < TREE_BINS
      ensures RootOk(m', Replaced(t, x, r), tm, i)
    {
      assert RootOk(m, t, tm, i);
    }
  }

  lemma TakeNodeReplaced(m: seq<int>, t: Nodes, tm: binmap, x: int, r: int, m': seq<int>)
    requires Handover(m, t, tm, x, r) && PlaceTaken(m, t, x, r, m')
    requires forall p {:trigger t[p]} :: p in t ==> TakenWords(m, t, x, r, m', p)
    requires t[x].depth > 0 ==>
               && Path(t[r].size, t[x].depth - 1) == Path(t[x].size, t[x].depth - 1)
               && Dir(t[r].size, t[x].depth - 1) == Dir(t[x].size, t[x].depth - 1)
    ensures NodeOk(m', Replaced(t, x, r), r)
  {
    hide Path, Dir, TreeIndex, Marked, ChunkSize, IsLargeSize, W, Settled, RootOk, PairOk;
    var d := t[x].depth;
    assert d > 0 ==> W(m, x + PARENT) != r && W(m, x + PARENT) != x;
  }

  lemma TakeNodeOther(m: seq<int>, t: Nodes, tm: binmap, x: int, r: int, m': seq<int>, p: int)
    requires x in t && r in t && x != r && InTree(t, r)
    requires p in t && p != x && p != r && Settled(m, t, x, r, p)
    requires |m'| == |m| && PlaceTaken(m, t, x, r, m')
    requires forall q {:trigger t[q]} :: q in t ==> TakenWords(m, t, x, r, m', q) && q >= GM_END
    requires forall i: nat {:trigger Root(m', i)} :: i < TREE_BINS ==>
               Root(m', i) == if t[x].depth == 0 && i == TreeIndex(t[x].size) then r else Root(m, i)
    requires UnderParent(m, t, x) && OverChild(m, t, x, 0) && OverChild(m, t, x, 1)
    requires Child(m, r, 0) == 0 && Child(m, r, 1) == 0
    requires TreeIndex(t[r].size) == TreeIndex(t[x].size)
    requires Path(t[r].size, t[x].depth) == Path(t[x].size, t[x].depth)
    requires t[x].depth > 0 ==> Dir(t[r].size, t[x].depth - 1) == Dir(t[x].size, t[x].depth - 1)
    ensures NodeOk(m', Replaced(t, x, r), p)
  {
    hide Path, Dir, TreeIndex, Marked, ChunkSize, IsLargeSize, W, Root, Child;
    if t[p].rank == 0 {
      TakeNodeOver(m, t, x, r, m', p, 0);
      TakeNodeOver(m, t, x, r, m', p, 1);
      TakeNodeUnder(m, t, x, r, m', p);
    }
    hide OverChild, UnderParent, PlaceTaken;
  }

  lemma TakeNodeUnder(m: seq<int>, t: Nodes, x: int, r: int, m': seq<int>, p: int)
    requires x in t && x != r && InTree(t, r)
    requires InTree(t, p) && p != x && p != r && UnderParent(m, t, p)
    requires PlaceTaken(m, t, x, r, m') && UnderParent(m, t, x)
    requires OverChild(m, t, x, 0) && OverChild(m, t, x, 1)
    requires Child(m, r, 0) == 0 && Child(m, r, 1) == 0
    requires forall q {:trigger t[q]} :: q in t ==> TakenWords(m, t, x, r, m', q) && q >= GM_END
    requires forall i: nat {:trigger Root(m', i)} :: i < TREE_BINS ==>
               Root(m', i) == if t[x].depth == 0 && i == TreeIndex(t[x].size) then r else Root(m, i)
    requires TreeIndex(t[r].size) == TreeIndex(t[x].size)
    requires Path(t[r].size, t[x].depth) == Path(t[x].size, t[x].depth)
    ensures UnderParent(m', Replaced(t, x, r), p)
  {
    hide Path, Dir, TreeIndex, W, Root, Child;
  }

  lemma TakeNodeOver(m: seq<int>, t: Nodes, x: int, r: int, m': seq<int>, p: int, b: nat)
    requires x in t && x != r && InTree(t, r)
    requires InTree(t, p) && p != x && p != r && b <= 1 && OverChild(m, t, p, b) && Child(m, p, b) != r
    requires PlaceTaken(m, t, x, r, m') && UnderParent(m, t, x)
    requires OverChild(m, t, x, 0) && OverChild(m, t, x, 1)
    requires forall q {:trigger t[q]} :: q in t ==> TakenWords(m, t, x, r, m', q) && q >= GM_END
    requires TreeIndex(t[r].size) == TreeIndex(t[x].size)
    requires t[x].depth > 0 ==> Dir(t[r].size, t[x].depth - 1) == Dir(t[x].size, t[x].depth - 1)
    ensures OverChild(m', Replaced(t, x, r), p, b)
  {
    hide Path, Dir, TreeIndex, W, Root, Child;
  }

  /** r takes the position of x, and x is gone. */
  lemma TakePlace(m: seq<int>, t: Nodes, tm: binmap, x: int, r: int, m': seq<int>)
    requires Handover(m, t, tm, x, r) && PlaceTaken(m, t, x, r, m')
    ensures TreeOk(m', Replaced(t, x, r), tm)
  {
    hide Path, Dir, TreeIndex, Marked, PlaceTaken, TakenWords, OnRing, UnderParent, OverChild, Placed, NodeOk,
      PairOk, HandoverPairs, RootOk, Root, W, Child, Settled;
    var d, t' := t[x].depth, Replaced(t, x, r);
    RootsTaken(m, t, tm, x, r, m');
    PlaceTakenLength(m, t, x, r, m');
    if d > 0 {
      PathUp(t[r].size, t[x].size, d, d - 1);
    }
    forall p {:trigger t[p]} | p in t
      ensures TakenWords(m, t, x, r, m', p) && p >= GM_END
    {
      PlaceTakenWords(m, t, tm, x, r, m', p);
      HandoverFar(m, t, tm, x, r, p, p);
    }
    TakeNodeReplaced(m, t, tm, x, r, m');
    forall p {:trigger NodeOk(m', t', p)} | p in t'
      ensures NodeOk(m', t', p)
    {
      if p != r {
        TakeNodeOther(m, t, tm, x, r, m', p);
      }
    }
    PairsReplaced(m, t, tm, x, r);
  }

  lemma PlaceTakenLength(m: seq<int>, t: Nodes, x: int, r: int, m': seq<int>)
    requires x in t && PlaceTaken(m, t, x, r, m')
    ensures |m'| == |m|
  {
  }

  lemma PairsReplaced(m: seq<int>, t: Nodes, tm: binmap, x: int, r: int)
    requires Handover(m, t, tm, x, r)
    ensures var t' := Replaced(t, x, r);
            forall p, q {:trigger PairOk(t', p, q)} :: p in t' && q in t' ==> PairOk(t', p, q)
  {
    hide Path, Dir, TreeIndex, Marked, Settled, OnRing, UnderParent, OverChild, RootOk;
    var t' := Replaced(t, x, r);
    forall p, q {:trigger PairOk(t', p, q)} | p in t' && q in t'
      ensures PairOk(t', p, q)
    {
      assert PairOk(t, p, q);
    }
  }

  // ---------- The first half: freeing the replacement ----------

  /** A tree node with company on its ring: its bk neighbour will replace it. */
  lemma HandoverFromRing(m: seq<int>, t: Nodes, tm: binmap, x: int, m': seq<int>)
    requires TreeOk(m, t, tm) && InTree(t, x) && W(m, x + BK) != x && RingClosed(m, m', x)
    ensures var r := W(m, x + BK);
            && r in t && W(m, r + PARENT) == 0
            && Handover(m', t[r := Node(t[r].size, 0, 0)], tm, x, r)
  {
    hide Path, Dir, TreeIndex, Marked, OverChild, UnderParent, W, Child, Root, OnRing, RingClosed,
      NodeOk, Placed, Settled, SameButRing, OffTree, OffRing, HandoverPairs, PairOk;
    var r := W(m, x + BK);
    RingCompany(m, t, tm, x);
    RingClosedWords(m, t, tm, x, m');
    RingHandoverEnds(m, t, x, m');
    RingHandoverPairs(t, x, r);
    var t' := t[r := Node(t[r].size, 0, 0)];
    forall p {:trigger Settled(m', t', x, r, p)} | p in t' && p != x && p != r
      ensures Settled(m', t', x, r, p)
    {
      NotNull(m, t, tm, p);
      RingHandoverNode(m, t, x, m', p);
    }
    forall i: nat {:trigger RootOk(m', t', tm, i)} {:trigger Root(m', i)} | i < TREE_BINS
      ensures RootOk(m', t', tm, i) && Root(m', i) != r
    {
      assert RootOk(m, t, tm, i);
    }
  }

  lemma NotNull(m: seq<int>, t: Nodes, tm: binmap, p: int)
    requires TreeOk(m, t, tm) && p in t
    ensures NodeOk(m, t, p) && GM_END <= p
  {
    hide Path, Dir, TreeIndex, OnRing, UnderParent, OverChild, W, Child;
    assert NodeOk(m, t, p);
  }

  /** The ring neighbours of a tree node that is not alone on its ring. */
  lemma RingCompany(m: seq<int>, t: Nodes, tm: binmap, x: int)
    requires TreeOk(m, t, tm) && InTree(t, x) && W(m, x + BK) != x
    ensures GM_END <= x && NodeOk(m, t, x)
    ensures var r := W(m, x + BK);
            && r in t && NodeOk(m, t, r) && t[r].size == t[x].size && t[r].rank > 0
            && W(m, r + PARENT) == 0 && GM_END <= r
    ensures W(m, x + FD) in t
  {
    hide Path, Dir, TreeIndex, UnderParent, OverChild, W, Child, ChunkSize, IsLargeSize;
    assert NodeOk(m, t, x);
    assert NodeOk(m, t, W(m, x + BK));
    assert PairOk(t, x, W(m, x + BK));
  }

  lemma RingHandoverPairs(t: Nodes, x: int, r: int)
    requires forall p, q {:trigger PairOk(t, p, q)} :: p in t && q in t ==> PairOk(t, p, q)
    requires InTree(t, x) && r in t && r != x && t[r].size == t[x].size
    ensures HandoverPairs(t[r := Node(t[r].size, 0, 0)], x, r)
  {
    var t' := t[r := Node(t[r].size, 0, 0)];
    forall p, q {:trigger PairOk(t', p, q)} | p in t' && q in t' && !(p == x && q == r) && !(p == r && q == x)
      ensures PairOk(t', p, q)
    {
      assert PairOk(t, p, q);
      assert PairOk(t, p, x);
      assert PairOk(t, x, q);
    }
    assert PairOk(t, x, r) && PairOk(t, r, x);
  }

  lemma RingHandoverNode(m: seq<int>, t: Nodes, x: int, m': seq<int>, p: int)
    requires InTree(t, x) && NodeOk(m, t, x) && W(m, x + BK) != x
    requires p in t && p != x && p != W(m, x + BK) && NodeOk(m, t, p)
    requires |m'| == |m|
    requires var r, f := W(m, x + BK), W(m, x + FD);
             && NodeOk(m, t, r) && t[r].rank > 0
             && (forall q {:trigger t[q]} :: q in t ==> SameButRing(m, m', q, r, f))
             && W(m', f + BK) == r && W(m', r + FD) == f
    requires forall i: nat {:trigger Root(m', i)} :: i < TREE_BINS ==> Root(m', i) == Root(m, i)
    requires p != 0
    ensures var r := W(m, x + BK);
            Settled(m', t[r := Node(t[r].size, 0, 0)], x, r, p)
  {
    hide Path, Dir, TreeIndex, W, Child, Root, ChunkSize, IsLargeSize, TreeBinAt;
    assert OnRing(m, t, x) && OnRing(m, t, p) && OnRing(m, t, W(m, x + BK));
  }

  lemma RingHandoverEnds(m: seq<int>, t: Nodes, x: int, m': seq<int>)
    requires InTree(t, x) && NodeOk(m, t, x) && W(m, x + BK) != x && |m'| == |m| && x != 0
    requires var r, f := W(m, x + BK), W(m, x + FD);
             && NodeOk(m, t, r) && t[r].rank > 0
             && (forall q {:trigger t[q]} :: q in t ==> SameButRing(m, m', q, r, f))
             && W(m', f + BK) == r && W(m', r + FD) == f
    requires forall i: nat {:trigger Root(m', i)} :: i < TREE_BINS ==> Root(m', i) == Root(m, i)
    ensures var r := W(m, x + BK);
            var t' := t[r := Node(t[r].size, 0, 0)];
            OffTree(m', t', x, r) && OffRing(m', t', x, r)
  {
    hide Path, Dir, TreeIndex, W, Child, Root, ChunkSize, IsLargeSize, TreeBinAt;
    assert OnRing(m, t, x) && OnRing(m, t, W(m, x + BK));
  }

  /** The slot of tree node r has been emptied. */
  ghost predicate SlotCleared(m: seq<int>, t: Nodes, r: int, m': seq<int>)
    requires r in t
  {
    WritesTwo(m, m', SlotOf(m, t, r), SlotOf(m, t, r)) && W(m', SlotOf(m, t, r)) == 0
  }

  ghost predicate Leaf(m: seq<int>, t: Nodes, r: int) {
    InTree(t, r) && Child(m, r, 0) == 0 && Child(m, r, 1) == 0
  }

  /** All the words of p as before, except the slot of r, which is now 0. */
  ghost predicate SameButSlot(m: seq<int>, t: Nodes, r: int, m': seq<int>, p: int)
    requires r in t
  {
    && W(m', p + HEAD) == W(m, p + HEAD) && W(m', p + INDEX) == W(m, p + INDEX)
    && W(m', p + FD) == W(m, p + FD) && W(m', p + BK) == W(m, p + BK)
    && W(m', p + PARENT) == W(m, p + PARENT)
    && Child(m', p, 0) == (if IsSlot(m, t, r, p, 0) then 0 else Child(m, p, 0))
    && Child(m', p, 1) == (if IsSlot(m, t, r, p, 1) then 0 else Child(m, p, 1))
  }

  lemma SlotClearedWords(m: seq<int>, t: Nodes, tm: binmap, r: int, m': seq<int>)
    requires TreeOk(m, t, tm) && InTree(t, r) && SlotCleared(m, t, r, m')
    ensures forall p {:trigger t[p]} :: p in t ==> SameButSlot(m, t, r, m', p) && p >= GM_END
    ensures forall i: nat {:trigger Root(m', i)} :: i < TREE_BINS ==>
              Root(m', i) == if t[r].depth == 0 && i == TreeIndex(t[r].size) then 0 else Root(m, i)
  {
    hide Path, Dir, TreeIndex, OnRing, OverChild;
    assert NodeOk(m, t, r);
    var q := W(m, r + PARENT);
    assert t[r].depth > 0 ==> NodeOk(m, t, q);
    forall p {:trigger t[p]} | p in t
      ensures SameButSlot(m, t, r, m', p) && p >= GM_END
    {
      assert NodeOk(m, t, p);
      assert t[r].depth > 0 ==> PairOk(t, p, q) && PairOk(t, q, p);
    }
  }

  /** A leaf below x is taken out of its slot to replace x. */
  lemma HandoverFromLeaf(m: seq<int>, t: Nodes, tm: binmap, x: int, r: int, m': seq<int>)
    requires TreeOk(m, t, tm) && InTree(t, x) && W(m, x + BK) == x
    requires Leaf(m, t, r) && r != x && Below(t, x, r)
    requires SlotCleared(m, t, r, m')
    ensures Handover(m', t, tm, x, r)
  {
    hide Path, Dir, TreeIndex, Marked, W, Child, OnRing, OverChild, UnderParent, SlotOf;
    assert r != 0 by { assert NodeOk(m, t, r); }
    LeafHandoverNodes(m, t, tm, x, r, m');
    assert HandoverPairs(t, x, r) by { assert PairOk(t, x, r) && PairOk(t, r, x); }
    hide HandoverPairs, OffTree, OffRing, Settled;
    forall i: nat {:trigger RootOk(m', t, tm, i)} {:trigger Root(m', i)} | i < TREE_BINS
      ensures RootOk(m', t, tm, i) && Root(m', i) != r
    {
      assert RootOk(m, t, tm, i);
    }
  }

  lemma LeafHandoverNodes(m: seq<int>, t: Nodes, tm: binmap, x: int, r: int, m': seq<int>)
    requires TreeOk(m, t, tm) && InTree(t, x) && W(m, x + BK) == x
    requires Leaf(m, t, r) && r != x && Below(t, x, r)
    requires SlotCleared(m, t, r, m')
    ensures t[r].depth > 0
    ensures forall p {:trigger Settled(m', t, x, r, p)} :: p in t && p != x && p != r ==> Settled(m', t, x, r, p)
    ensures OffTree(m', t, x, r) && OffRing(m', t, x, r)
    ensures forall i: nat {:trigger Root(m', i)} :: i < TREE_BINS ==> Root(m', i) == Root(m, i)
  {
    hide Path, Dir, TreeIndex, Marked, W, Child, Root, OnRing, OverChild, UnderParent, SameButSlot, Placed;
    assert NodeOk(m, t, x) && NodeOk(m, t, r);
    if t[r].depth == 0 {
      NodeAtPath(m, t, tm, x, r);
    }
    SlotClearedWords(m, t, tm, r, m');
    hide SlotCleared;
    forall p {:trigger Settled(m', t, x, r, p)} | p in t && p != x && p != r
      ensures Settled(m', t, x, r, p)
    {
      assert NodeOk(m, t, p);
      LeafHandoverNode(m, t, x, r, m', p);
    }
    LeafHandoverNode(m, t, x, r, m', x);
    LeafHandoverNode(m, t, x, r, m', r);
    LeafHandoverEnd(m, t, x, r, m');
  }

  lemma LeafHandoverEnd(m: seq<int>, t: Nodes, x: int, r: int, m': seq<int>)
    requires Leaf(m, t, r) && NodeOk(m, t, r) && |m'| == |m|
    requires forall q {:trigger t[q]} :: q in t ==> SameButSlot(m, t, r, m', q) && q >= GM_END
    ensures Placed(m', t, r) && OnRing(m', t, r) && Child(m', r, 0) == 0 && Child(m', r, 1) == 0
  {
    hide Path, Dir, TreeIndex, W, Child, ChunkSize, IsLargeSize, UnderParent, OverChild;
  }

  lemma LeafHandoverNode(m: seq<int>, t: Nodes, x: int, r: int, m': seq<int>, p: int)
    requires InTree(t, x) && NodeOk(m, t, x) && W(m, x + BK) == x
    requires Leaf(m, t, r) && NodeOk(m, t, r) && t[r].depth > 0 && r != x
    requires p in t && NodeOk(m, t, p) && |m'| == |m|
    requires forall q {:trigger t[q]} :: q in t ==> SameButSlot(m, t, r, m', q) && q >= GM_END
    requires forall i: nat {:trigger Root(m', i)} :: i < TREE_BINS ==> Root(m', i) == Root(m, i)
    ensures p != r ==> NodeOk(m', t, p) && Child(m', p, 0) != r && Child(m', p, 1) != r
    ensures p != x ==> W(m', p + FD) != x && W(m', p + BK) != x
  {
    hide Path, Dir, TreeIndex, W, Child, Root, ChunkSize, IsLargeSize, TreeBinAt;
    assert OnRing(m, t, x) && OnRing(m, t, p);
  }

  /** The last chunk of its size, in a leaf, is simply taken out of its slot. */
  lemma RemoveLeaf(m: seq<int>, t: Nodes, tm: binmap, x: int, m': seq<int>)
    requires TreeOk(m, t, tm) && Leaf(m, t, x) && W(m, x + BK) == x
    requires SlotCleared(m, t, x, m')
    ensures TreeOk(m', Minus(t, x), if t[x].depth == 0 then Clear(tm, TreeIndex(t[x].size)) else tm)
  {
    hide Path, Dir, TreeIndex, Marked, Clear;
    var t', tm' := Minus(t, x), if t[x].depth == 0 then Clear(tm, TreeIndex(t[x].size)) else tm;
    assert NodeOk(m, t, x);
    SlotClearedWords(m, t, tm, x, m');
    hide SlotCleared, Root;
    forall p {:trigger NodeOk(m', t', p)} | p in t'
      ensures NodeOk(m', t', p)
    {
      assert NodeOk(m, t, p);
      RemoveLeafNode(m, t, x, m', p);
    }
    hide NodeOk, W, Child;
    PairsMinus(t, x);
    forall i: nat {:trigger RootOk(m', t', tm', i)} | i < TREE_BINS
      ensures RootOk(m', t', tm', i)
    {
      assert RootOk(m, t, tm, i);
      if t[x].depth == 0 {
        ClearBin(tm, TreeIndex(t[x].size), i);
      }
    }
  }

  lemma RemoveLeafNode(m: seq<int>, t: Nodes, x: int, m': seq<int>, p: int)
    requires Leaf(m, t, x) && NodeOk(m, t, x) && W(m, x + BK) == x
    requires p in t && p != x && NodeOk(m, t, p) && |m'| == |m|
    requires forall q {:trigger t[q]} :: q in t ==> SameButSlot(m, t, x, m', q) && q >= GM_END
    requires forall i: nat {:trigger Root(m', i)} :: i < TREE_BINS ==>
               Root(m', i) == if t[x].depth == 0 && i == TreeIndex(t[x].size) then 0 else Root(m, i)
    ensures NodeOk(m', Minus(t, x), p)
  {
    hide Path, Dir, TreeIndex, W, Child, Root, ChunkSize, IsLargeSize, TreeBinAt;
    assert OnRing(m, t, x) && OnRing(m, t, p);
  }
}

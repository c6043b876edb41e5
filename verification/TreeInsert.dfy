/**
  insert_large_chunk on the words of memory: each of its three outcomes keeps the tree
  bins well formed and adds exactly the new chunk.
 */
module TreeInsert {
  import opened BinIndex
  import opened BinMap
  import opened Memory
  import opened TreeBins

  /** x is a free chunk of size s that is in no tree bin and overlaps none of their chunks. */
  ghost predicate Fresh(m: seq<int>, t: Nodes, x: int, s: nat) {
    && x !in t && x % 16 == 0 && GM_END <= x && x + s <= |m|
    && IsLargeSize(s) && ChunkSize(W(m, x + HEAD)) == s
    && forall p {:trigger t[p]} :: p in t ==> p + t[p].size <= x || x + s <= p
  }

  /** All the words of node p are as before. */
  ghost predicate SameNode(m: seq<int>, m': seq<int>, p: int) {
    && W(m', p + HEAD) == W(m, p + HEAD)
    && W(m', p + FD) == W(m, p + FD) && W(m', p + BK) == W(m, p + BK)
    && Child(m', p, 0) == Child(m, p, 0) && Child(m', p, 1) == Child(m, p, 1)
    && W(m', p + PARENT) == W(m, p + PARENT) && W(m', p + INDEX) == W(m, p + INDEX)
  }

  /** Only the link words of x, and the words at a and b, are written. */
  ghost predicate WritesOnly(m: seq<int>, m': seq<int>, x: int, a: int, b: int) {
    && |m'| == |m|
    && forall k {:trigger W(m', k)} :: !(x + FD <= k <= x + INDEX) && k != a && k != b ==> W(m', k) == W(m, k)
  }

  /** The links of x after it has been made a tree node without children, alone on its ring. */
  ghost predicate NewLeaf(m: seq<int>, x: int, s: nat, parent: int) {
    && W(m, x + FD) == x && W(m, x + BK) == x
    && Child(m, x, 0) == 0 && Child(m, x, 1) == 0
    && W(m, x + PARENT) == parent && W(m, x + INDEX) == TreeIndex(s)
  }

  /** Such writes miss every chunk whose words do not include a or b. */
  lemma WritesMiss(m: seq<int>, t: Nodes, tm: binmap, x: int, s: nat, m': seq<int>, a: int, b: int, p: int)
    requires TreeOk(m, t, tm) && Fresh(m, t, x, s) && p in t
    requires WritesOnly(m, m', x, a, b)
    requires a < p || p + t[p].size <= a
    requires b < p || p + t[p].size <= b
    ensures SameNode(m, m', p)
  {
    hide OnRing, UnderParent, OverChild, TreeIndex;
    assert NodeOk(m, t, p);
  }

  /** Adding x as a tree node of a size no tree node has, or as a further ring member. */
  lemma PairsAfterInsert(m: seq<int>, t: Nodes, x: int, n: Node)
    requires forall p, q {:trigger PairOk(t, p, q)} :: p in t && q in t ==> PairOk(t, p, q)
    requires Fresh(m, t, x, n.size)
    requires n.rank > 0 || forall p {:trigger t[p]} :: InTree(t, p) ==> t[p].size != n.size
    ensures var t' := t[x := n];
            forall p, q {:trigger PairOk(t', p, q)} :: p in t' && q in t' ==> PairOk(t', p, q)
  {
    var t' := t[x := n];
    forall p, q {:trigger PairOk(t', p, q)} | p in t' && q in t'
      ensures PairOk(t', p, q)
    {
      if p != x && q != x {
        assert PairOk(t, p, q);
      }
    }
  }

  /** The bin was empty. */
  lemma InsertRoot(m: seq<int>, t: Nodes, tm: binmap, x: int, s: nat, m': seq<int>)
    requires TreeOk(m, t, tm) && Fresh(m, t, x, s)
    requires var i := TreeIndex(s);
             && !Marked(tm, i) && WritesOnly(m, m', x, TreeBinAt(i), TreeBinAt(i))
             && NewLeaf(m', x, s, TreeBinAt(i)) && Root(m', i) == x
    ensures TreeOk(m', t[x := Node(s, 0, 0)], Mark(tm, TreeIndex(s)))
  {
    hide Path, Dir, TreeIndex, Marked, Mark, Placed, OnRing, OverChild, UnderParent;
    InsertRootNodes(m, t, tm, x, s, m');
    forall p {:trigger t[p]} | InTree(t, p)
      ensures t[p].size != s
    {
      if t[p].size == s {
        BelowRoot(m, t, tm, p);
      }
    }
    PairsAfterInsert(m, t, x, Node(s, 0, 0));
    var i, tm' := TreeIndex(s), Mark(tm, TreeIndex(s));
    var t' := t[x := Node(s, 0, 0)];
    forall j: nat {:trigger RootOk(m', t', tm', j)} | j < TREE_BINS
      ensures RootOk(m', t', tm', j)
    {
      assert RootOk(m, t, tm, j);
      MarkBin(tm, i, j);
    }
  }

  lemma InsertRootNodes(m: seq<int>, t: Nodes, tm: binmap, x: int, s: nat, m': seq<int>)
    requires TreeOk(m, t, tm) && Fresh(m, t, x, s)
    requires var i := TreeIndex(s);
             && !Marked(tm, i) && WritesOnly(m, m', x, TreeBinAt(i), TreeBinAt(i))
             && NewLeaf(m', x, s, TreeBinAt(i)) && Root(m', i) == x
    ensures var t' := t[x := Node(s, 0, 0)];
            forall p {:trigger NodeOk(m', t', p)} :: p in t' ==> NodeOk(m', t', p)
  {
    hide Path, Dir, TreeIndex, Marked, OverChild;
    var t', i := t[x := Node(s, 0, 0)], TreeIndex(s);
    assert RootOk(m, t, tm, i);
    forall p {:trigger t[p]} | p in t
      ensures SameNode(m, m', p)
    {
      assert NodeOk(m, t, p);
      WritesMiss(m, t, tm, x, s, m', TreeBinAt(i), TreeBinAt(i), p);
    }
    forall p {:trigger NodeOk(m', t', p)} | p in t'
      ensures NodeOk(m', t', p)
    {
      if p != x {
        assert NodeOk(m, t, p);
        hide OnRing, WritesOnly, NewLeaf, SameNode;
        KeepNode(m, t, m', t', p);
      } else {
        LeafOk(m', t', x);
      }
    }
  }

  /** A node without children, alone on its ring, is well formed if its parent link is. */
  lemma LeafOk(m: seq<int>, t: Nodes, x: int)
    requires x in t && t[x].rank == 0 && t[x].depth <= OpenBits(TreeIndex(t[x].size))
    requires Placed(m, t, x) && UnderParent(m, t, x)
    requires W(m, x + FD) == x && W(m, x + BK) == x
    requires Child(m, x, 0) == 0 && Child(m, x, 1) == 0
    ensures NodeOk(m, t, x)
  {
    hide Path, Dir, TreeIndex, Placed, UnderParent, W, Child;
  }

  /** A node none of whose words changed, in a tree whose other nodes did not change either. */
  lemma KeepNode(m: seq<int>, t: Nodes, m': seq<int>, t': Nodes, p: int)
    requires p in t && NodeOk(m, t, p) && p + t[p].size <= |m'|
    requires forall q {:trigger t[q]} :: q in t ==> q in t' && t'[q] == t[q] && SameNode(m, m', q)
    requires t[p].depth == 0 && t[p].rank == 0 ==> Root(m', TreeIndex(t[p].size)) == p
    ensures NodeOk(m', t', p)
  {
    hide Path, Dir, TreeIndex, ChunkSize, IsLargeSize, W, Child, Root, TreeBinAt;
  }

  /** An open child slot of T, in the direction the size takes there. */
  ghost predicate OpenSlot(m: seq<int>, t: Nodes, T: int, s: nat) {
    && InTree(t, T) && TreeIndex(t[T].size) == TreeIndex(s) && t[T].size != s
    && t[T].depth < OpenBits(TreeIndex(s))
    && Path(s, t[T].depth) == Path(t[T].size, t[T].depth)
    && Child(m, T, Dir(s, t[T].depth)) == 0
  }

  lemma InsertChild(m: seq<int>, t: Nodes, tm: binmap, x: int, s: nat, T: int, m': seq<int>)
    requires TreeOk(m, t, tm) && Fresh(m, t, x, s)
    requires OpenSlot(m, t, T, s)
    requires forall y {:trigger t[y]} :: InTree(t, y) && t[y].size == s ==> t[y].depth >= t[T].depth
    requires var a := T + CHILD + 8 * Dir(s, t[T].depth);
             WritesOnly(m, m', x, a, a) && W(m', a) == x && NewLeaf(m', x, s, T)
    ensures TreeOk(m', t[x := Node(s, 0, t[T].depth + 1)], tm)
  {
    hide Path, Dir, TreeIndex, Marked, OnRing, OverChild, UnderParent;
    var n := Node(s, 0, t[T].depth + 1);
    forall y {:trigger t[y]} | InTree(t, y)
      ensures t[y].size != s
    {
      if t[y].size == s {
        BelowChild(m, t, tm, T, y);
      }
    }
    PairsAfterInsert(m, t, x, n);
    InsertChildNodes(m, t, tm, x, s, T, m');
    var a := T + CHILD + 8 * Dir(s, t[T].depth);
    assert a >= GM_END by { assert NodeOk(m, t, T); assert Placed(m, t, T); }
    KeepRoots(m, t, tm, m', t[x := n], x, a, a);
  }

  /** Writes that miss the roots keep them. */
  lemma KeepRoots(m: seq<int>, t: Nodes, tm: binmap, m': seq<int>, t': Nodes, x: int, a: int, b: int)
    requires TreeOk(m, t, tm)
    requires x >= GM_END && a >= GM_END && b >= GM_END && WritesOnly(m, m', x, a, b)
    requires forall p {:trigger t[p]} :: p in t ==> p in t' && t'[p] == t[p]
    ensures forall i: nat {:trigger RootOk(m', t', tm, i)} :: i < TREE_BINS ==> RootOk(m', t', tm, i)
  {
    hide TreeIndex, Marked, NodeOk, PairOk;
    forall i: nat {:trigger RootOk(m', t', tm, i)} | i < TREE_BINS
      ensures RootOk(m', t', tm, i)
    {
      assert RootOk(m, t, tm, i);
    }
  }

  /** All the words of p but its child b are as before. */
  ghost predicate SameBut(m: seq<int>, m': seq<int>, p: int, b: int) {
    && W(m', p + HEAD) == W(m, p + HEAD)
    && W(m', p + FD) == W(m, p + FD) && W(m', p + BK) == W(m, p + BK)
    && Child(m', p, 1 - b) == Child(m, p, 1 - b)
    && W(m', p + PARENT) == W(m, p + PARENT) && W(m', p + INDEX) == W(m, p + INDEX)
  }

  lemma InsertChildNodes(m: seq<int>, t: Nodes, tm: binmap, x: int, s: nat, T: int, m': seq<int>)
    requires TreeOk(m, t, tm) && Fresh(m, t, x, s)
    requires OpenSlot(m, t, T, s)
    requires var a := T + CHILD + 8 * Dir(s, t[T].depth);
             WritesOnly(m, m', x, a, a) && W(m', a) == x && NewLeaf(m', x, s, T)
    ensures var t' := t[x := Node(s, 0, t[T].depth + 1)];
            forall p {:trigger NodeOk(m', t', p)} :: p in t' ==> NodeOk(m', t', p)
  {
    hide Path, Dir, TreeIndex, Marked, OverChild, OnRing;
    var t', b := t[x := Node(s, 0, t[T].depth + 1)], Dir(s, t[T].depth);
    var a := T + CHILD + 8 * b;
    assert NodeOk(m, t, T);
    forall p {:trigger t[p]} | p in t && p != T
      ensures SameNode(m, m', p)
    {
      assert NodeOk(m, t, p);
      assert PairOk(t, p, T) && PairOk(t, T, p);
      WritesMiss(m, t, tm, x, s, m', a, a, p);
    }
    assert SameBut(m, m', T, b);
    assert forall i: nat {:trigger Root(m', i)} :: i < TREE_BINS ==> Root(m', i) == Root(m, i);
    forall p {:trigger NodeOk(m', t', p)} | p in t'
      ensures NodeOk(m', t', p)
    {
      hide WritesOnly, W;
      if p != x {
        assert NodeOk(m, t, p);
        KeepNodeBut(m, t, m', t', p, T, b, x);
      } else {
        assert UnderParent(m', t', x) by { NewUnder(m, t, m', t', x, s, T, b); }
        LeafOk(m', t', x);
      }
    }
  }

  lemma NewUnder(m: seq<int>, t: Nodes, m': seq<int>, t': Nodes, x: int, s: nat, T: int, b: int)
    requires OpenSlot(m, t, T, s) && T != x && b == Dir(s, t[T].depth)
    requires t' == t[x := Node(s, 0, t[T].depth + 1)]
    requires W(m', x + PARENT) == T && Child(m', T, b) == x
    ensures UnderParent(m', t', x)
  {
    hide Path, Dir, TreeIndex, W, Child;
  }

  /** As KeepNode, when the open slot b of T has been given the new child x. */
  lemma KeepNodeBut(m: seq<int>, t: Nodes, m': seq<int>, t': Nodes, p: int, T: int, b: nat, x: int)
    requires p in t && NodeOk(m, t, p) && |m'| == |m|
    requires T in t && b <= 1 && Child(m, T, b) == 0 && Child(m', T, b) == x && x != 0
    requires SameBut(m, m', T, b)
    requires forall q {:trigger t[q]} :: q in t ==> q in t' && t'[q] == t[q] && (q == T || SameNode(m, m', q))
    requires InTree(t', x) && W(m', x + PARENT) == T && t'[x].depth == t[T].depth + 1
    requires TreeIndex(t'[x].size) == TreeIndex(t[T].size) && Dir(t'[x].size, t[T].depth) == b
    requires t[T].rank == 0 && (t[p].depth == 0 && t[p].rank == 0 ==> Root(m', TreeIndex(t[p].size)) == p)
    requires p != 0
    ensures NodeOk(m', t', p)
  {
    hide Path, Dir, TreeIndex, ChunkSize, IsLargeSize, W, Child, Root, TreeBinAt;
  }

  /** A tree node T of that size exists: x joins its ring right after T. */
  lemma InsertRing(m: seq<int>, t: Nodes, tm: binmap, x: int, s: nat, T: int, m': seq<int>)
    requires TreeOk(m, t, tm) && Fresh(m, t, x, s)
    requires InTree(t, T) && t[T].size == s
    requires var F := W(m, T + FD);
             && F in t && WritesOnly(m, m', x, T + FD, F + BK)
             && RingLinks(m', x, s, T, F)
    ensures TreeOk(m', t[x := Node(s, t[W(m, T + FD)].rank + 1, 0)], tm)
  {
    hide Path, Dir, TreeIndex, Marked, OverChild, UnderParent;
    var F := W(m, T + FD);
    var n := Node(s, t[F].rank + 1, 0);
    assert NodeOk(m, t, T);
    assert NodeOk(m, t, F);
    PairsAfterInsert(m, t, x, n);
    InsertRingNodes(m, t, tm, x, s, T, m');
    KeepRoots(m, t, tm, m', t[x := n], x, T + FD, F + BK);
  }

  /** The links around x once it stands between T and F. */
  ghost predicate RingLinks(m: seq<int>, x: int, s: nat, T: int, F: int) {
    && W(m, x + FD) == F && W(m, x + BK) == T && W(m, T + FD) == x && W(m, F + BK) == x
    && Child(m, x, 0) == 0 && Child(m, x, 1) == 0
    && W(m, x + PARENT) == 0 && W(m, x + INDEX) == TreeIndex(s)
  }

  /** All the words of p as before, except fd if p is T and bk if p is F. */
  ghost predicate SameButRing(m: seq<int>, m': seq<int>, p: int, T: int, F: int) {
    && W(m', p + HEAD) == W(m, p + HEAD)
    && (p != T ==> W(m', p + FD) == W(m, p + FD))
    && (p != F ==> W(m', p + BK) == W(m, p + BK))
    && Child(m', p, 0) == Child(m, p, 0) && Child(m', p, 1) == Child(m, p, 1)
    && W(m', p + PARENT) == W(m, p + PARENT) && W(m', p + INDEX) == W(m, p + INDEX)
  }

  lemma WritesMissBut(m: seq<int>, t: Nodes, tm: binmap, x: int, s: nat, m': seq<int>, T: int, F: int, p: int)
    requires TreeOk(m, t, tm) && Fresh(m, t, x, s) && p in t && T in t && F in t
    requires WritesOnly(m, m', x, T + FD, F + BK)
    ensures SameButRing(m, m', p, T, F)
  {
    hide OnRing, UnderParent, OverChild, TreeIndex;
    assert NodeOk(m, t, p) && NodeOk(m, t, T) && NodeOk(m, t, F);
    assert PairOk(t, p, T) && PairOk(t, T, p) && PairOk(t, p, F) && PairOk(t, F, p);
  }

  lemma RingWrites(m: seq<int>, t: Nodes, tm: binmap, x: int, s: nat, m': seq<int>, T: int, F: int)
    requires TreeOk(m, t, tm) && Fresh(m, t, x, s) && T in t && F in t
    requires WritesOnly(m, m', x, T + FD, F + BK)
    ensures forall p {:trigger t[p]} :: p in t ==> SameButRing(m, m', p, T, F)
    ensures forall i: nat {:trigger Root(m', i)} :: i < TREE_BINS ==> Root(m', i) == Root(m, i)
  {
    hide OnRing, UnderParent, OverChild, TreeIndex, SameButRing, PairOk;
    forall p {:trigger t[p]} | p in t
      ensures SameButRing(m, m', p, T, F)
    {
      WritesMissBut(m, t, tm, x, s, m', T, F, p);
    }
    assert NodeOk(m, t, T) && NodeOk(m, t, F);
  }

  lemma InsertRingNodes(m: seq<int>, t: Nodes, tm: binmap, x: int, s: nat, T: int, m': seq<int>)
    requires TreeOk(m, t, tm) && Fresh(m, t, x, s)
    requires InTree(t, T) && t[T].size == s
    requires var F := W(m, T + FD);
             && F in t && WritesOnly(m, m', x, T + FD, F + BK)
             && RingLinks(m', x, s, T, F)
    ensures var t' := t[x := Node(s, t[W(m, T + FD)].rank + 1, 0)];
            forall p {:trigger NodeOk(m', t', p)} :: p in t' ==> NodeOk(m', t', p)
  {
    hide Path, Dir, TreeIndex, Marked, OverChild;
    var F := W(m, T + FD);
    var t' := t[x := Node(s, t[F].rank + 1, 0)];
    assert NodeOk(m, t, T);
    assert NodeOk(m, t, F);
    assert t[F].size == s;
    hide OnRing, SameButRing;
    RingWrites(m, t, tm, x, s, m', T, F);
    assert Placed(m', t', x);
    hide WritesOnly, W, ChunkSize, IsLargeSize, Placed, Root, Child, RingLinks, PairOk, RootOk;
    forall p {:trigger NodeOk(m', t', p)} | p in t'
      ensures NodeOk(m', t', p)
    {
      if p != x {
        assert NodeOk(m, t, p);
        KeepNodeRing(m, t, m', t', p, x, T, F);
      } else {
        RingMemberOk(m', t', x, T, F);
      }
    }
  }

  lemma RingMemberOk(m: seq<int>, t: Nodes, x: int, T: int, F: int)
    requires x in t && T in t && F in t && t[x].rank > t[F].rank
    requires Placed(m, t, x) && t[T].size == t[x].size == t[F].size
    requires RingLinks(m, x, t[x].size, T, F)
    ensures NodeOk(m, t, x)
  {
    hide Path, Dir, TreeIndex, Placed, W, Child;
  }

  lemma KeepNodeRing(m: seq<int>, t: Nodes, m': seq<int>, t': Nodes, p: int, x: int, T: int, F: int)
    requires p in t && NodeOk(m, t, p) && |m'| == |m|
    requires InTree(t, T) && F == W(m, T + FD) && OnRing(m, t, T) && F in t && OnRing(m, t, F)
    requires RingLinks(m', x, t[T].size, T, F)
    requires x in t' && t'[x].size == t[T].size && t'[x].rank > t[F].rank
    requires forall q {:trigger t[q]} :: q in t ==> q in t' && t'[q] == t[q] && SameButRing(m, m', q, T, F)
    requires t[p].depth == 0 && t[p].rank == 0 ==> Root(m', TreeIndex(t[p].size)) == p
    ensures NodeOk(m', t', p)
  {
    hide Path, Dir, TreeIndex, ChunkSize, IsLargeSize, W, Child, Root, TreeBinAt;
  }
}

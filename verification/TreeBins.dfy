/**
  The tree bins of dlmalloc.c: bitwise tries of free chunks keyed by size, with chunks of
  one size on a ring of which one member is in the tree.

  The ghost map of type Nodes lists the chunks in the tree bins. Every clause below speaks
  of one node and its immediate neighbours; the global facts (a size is found by walking
  its bits, the minimum is on the leftmost path) are lemmas.
 */
module TreeBins {
  import opened Words
  import opened BinIndex
  import opened BinMap
  import opened Memory

  /**
    rank 0: in the tree, depth levels below the root. Otherwise a further chunk of that size
    on the ring, and rank says how many fd steps away from the tree node it is at most.
   */
  datatype Node = Node(size: nat, rank: nat, depth: nat)
  type Nodes = map<int, Node>

  /** The bits of a size that are fixed d levels below the root of its bin. */
  function Path(size: nat, d: nat): nat {
    Shr(size, if d <= OpenBits(TreeIndex(size)) then OpenBits(TreeIndex(size)) - d else 0)
  }

  /** The child taken by a size at depth d. */
  function Dir(size: nat, d: nat): (b: nat)
    ensures b <= 1
  {
    if d < OpenBits(TreeIndex(size)) then Bit(size, OpenBits(TreeIndex(size)) - 1 - d) else 0
  }

  function Child(m: seq<int>, p: int, b: int): int { W(m, p + CHILD + 8 * b) }

  function Root(m: seq<int>, i: nat): int { W(m, TreeBinAt(i)) }

  predicate IsLargeSize(size: int) {
    MIN_LARGE_SIZE <= size < SIZE_LIMIT && size % 16 == 0
  }

  ghost predicate InTree(t: Nodes, p: int) { p in t && t[p].rank == 0 }

  ghost predicate Placed(m: seq<int>, t: Nodes, p: int)
    requires p in t
  {
    && p % 16 == 0 && GM_END <= p && p + t[p].size <= |m|
    && IsLargeSize(t[p].size)
    && ChunkSize(W(m, p + HEAD)) == t[p].size
    && W(m, p + INDEX) == TreeIndex(t[p].size)
  }

  /** p sits between its ring neighbours, and fd leads towards the tree node. */
  ghost predicate OnRing(m: seq<int>, t: Nodes, p: int)
    requires p in t
  {
    var f, b := W(m, p + FD), W(m, p + BK);
    && f in t && t[f].size == t[p].size && W(m, f + BK) == p
    && b in t && t[b].size == t[p].size && W(m, b + FD) == p
    && (t[p].rank > 0 ==> t[f].rank < t[p].rank)
  }

  /** What the parent link of tree node p must be. */
  ghost predicate UnderParent(m: seq<int>, t: Nodes, p: int)
    requires p in t
  {
    var s, d, q := t[p].size, t[p].depth, W(m, p + PARENT);
    if d == 0 then q == TreeBinAt(TreeIndex(s)) && Root(m, TreeIndex(s)) == p
    else
      && InTree(t, q) && TreeIndex(t[q].size) == TreeIndex(s) && t[q].depth == d - 1
      && Path(t[q].size, d - 1) == Path(s, d - 1)
      && Child(m, q, Dir(s, d - 1)) == p
  }

  ghost predicate OverChild(m: seq<int>, t: Nodes, p: int, b: int)
    requires p in t
  {
    var c := Child(m, p, b);
    c != 0 ==>
      && InTree(t, c) && W(m, c + PARENT) == p && t[c].depth == t[p].depth + 1
      && TreeIndex(t[c].size) == TreeIndex(t[p].size)
      && Dir(t[c].size, t[p].depth) == b
  }

  ghost predicate NodeOk(m: seq<int>, t: Nodes, p: int)
    requires p in t
  {
    && Placed(m, t, p)
    && OnRing(m, t, p)
    && (if t[p].rank == 0 then
          && t[p].depth <= OpenBits(TreeIndex(t[p].size))
          && UnderParent(m, t, p)
          && OverChild(m, t, p, 0) && OverChild(m, t, p, 1)
        else
          && W(m, p + PARENT) == 0 && Child(m, p, 0) == 0 && Child(m, p, 1) == 0)
  }

  ghost predicate RootOk(m: seq<int>, t: Nodes, treemap: binmap, i: nat) {
    var r := Root(m, i);
    && (Marked(treemap, i) <==> r != 0)
    && (r != 0 ==> InTree(t, r) && t[r].depth == 0 && TreeIndex(t[r].size) == i)
  }

  /** Two different tree nodes differ in size, and two different chunks do not overlap. */
  ghost predicate PairOk(t: Nodes, p: int, q: int)
    requires p in t && q in t
  {
    && (t[p].rank == 0 && t[q].rank == 0 && t[p].size == t[q].size ==> p == q)
    && (p < q ==> p + t[p].size <= q)
  }

  ghost predicate TreeOk(m: seq<int>, t: Nodes, treemap: binmap) {
    && GM_END <= |m|
    && (forall p {:trigger NodeOk(m, t, p)} :: p in t ==> NodeOk(m, t, p))
    && (forall p, q {:trigger PairOk(t, p, q)} :: p in t && q in t ==> PairOk(t, p, q))
    && (forall i: nat {:trigger RootOk(m, t, treemap, i)} :: i < TREE_BINS ==> RootOk(m, t, treemap, i))
  }

  // ---------- Paths ----------

  /** One level down fixes one more bit. */
  lemma PathStep(s: nat, d: nat)
    requires d < OpenBits(TreeIndex(s))
    ensures Path(s, d + 1) == 2 * Path(s, d) + Dir(s, d)
  {
    var k := OpenBits(TreeIndex(s)) - d;
    assert Shr(s, k) == Shr(s, k - 1) / 2;
  }

  /** Sizes that agree down to depth d agree on every level above it. */
  lemma {:induction false} PathUp(s: nat, u: nat, d: nat, k: nat)
    requires TreeIndex(s) == TreeIndex(u) && k <= d <= OpenBits(TreeIndex(s))
    requires Path(s, d) == Path(u, d)
    ensures Path(s, k) == Path(u, k)
    ensures k < d ==> Dir(s, k) == Dir(u, k)
    decreases d - k
  {
    hide Path, Dir;
    if k < d {
      PathUp(s, u, d, k + 1);
      PathStep(s, k);
      PathStep(u, k);
    }
  }

  /** At full depth the path is the whole size. */
  lemma PathFull(s: nat)
    ensures Path(s, OpenBits(TreeIndex(s))) == s
  {
  }

  /** All sizes of a bin start from the same path. */
  lemma PathStart(s: nat, u: nat)
    requires IsLargeSize(s) && IsLargeSize(u) && TreeIndex(s) == TreeIndex(u)
    ensures Path(s, 0) == Path(u, 0)
  {
    SameBinSameTop(s, u);
  }

  /** A smaller path means a smaller size. */
  lemma PathOrder(s: nat, u: nat, d: nat)
    requires TreeIndex(s) == TreeIndex(u) && d <= OpenBits(TreeIndex(s))
    requires Path(s, d) < Path(u, d)
    ensures s < u
  {
    if u <= s {
      ShrMono(u, s, OpenBits(TreeIndex(s)) - d);
    }
  }

  // ---------- Where a node sits is determined by its size ----------

  /** In one bin, depth and path determine the tree node. */
  lemma {:induction false} NodeAtPath(m: seq<int>, t: Nodes, tm: binmap, p: int, q: int)
    requires TreeOk(m, t, tm)
    requires InTree(t, p) && InTree(t, q)
    requires TreeIndex(t[p].size) == TreeIndex(t[q].size) && t[p].depth == t[q].depth
    requires Path(t[p].size, t[p].depth) == Path(t[q].size, t[p].depth)
    ensures p == q
    decreases t[p].depth
  {
    hide Path, Dir, TreeIndex;
    assert NodeOk(m, t, p) && NodeOk(m, t, q);
    var d := t[p].depth;
    if d > 0 {
      PathUp(t[p].size, t[q].size, d, d - 1);
      NodeAtPath(m, t, tm, W(m, p + PARENT), W(m, q + PARENT));
    }
  }

  /** The ancestor of tree node y at depth k. */
  lemma {:induction false} Ancestor(m: seq<int>, t: Nodes, tm: binmap, y: int, k: nat) returns (a: int)
    requires TreeOk(m, t, tm)
    requires InTree(t, y) && k <= t[y].depth
    ensures InTree(t, a) && t[a].depth == k && TreeIndex(t[a].size) == TreeIndex(t[y].size)
    ensures Path(t[a].size, k) == Path(t[y].size, k)
    ensures k < t[y].depth ==> Child(m, a, Dir(t[y].size, k)) != 0
    decreases t[y].depth
  {
    hide Path, Dir, TreeIndex;
    assert NodeOk(m, t, y);
    if k == t[y].depth {
      a := y;
    } else {
      var q := W(m, y + PARENT);
      assert NodeOk(m, t, q);
      if k == t[q].depth {
        a := q;
      } else {
        a := Ancestor(m, t, tm, q, k);
        PathUp(t[y].size, t[q].size, t[q].depth, k);
      }
    }
  }

  /** y is in the subtree hanging from a. */
  ghost predicate Below(t: Nodes, a: int, y: int)
    requires a in t
  {
    && InTree(t, y) && TreeIndex(t[y].size) == TreeIndex(t[a].size)
    && t[a].depth <= t[y].depth
    && Path(t[y].size, t[a].depth) == Path(t[a].size, t[a].depth)
  }

  /** A node strictly below a is below the child of a that its size selects. */
  lemma BelowChild(m: seq<int>, t: Nodes, tm: binmap, a: int, y: int)
    requires TreeOk(m, t, tm)
    requires InTree(t, a) && Below(t, a, y) && y != a
    ensures t[a].depth < OpenBits(TreeIndex(t[a].size))
    ensures var c := Child(m, a, Dir(t[y].size, t[a].depth));
            c != 0 && InTree(t, c) && Below(t, c, y)
  {
    hide Path, Dir, TreeIndex;
    var d := t[a].depth;
    if t[y].depth == d {
      NodeAtPath(m, t, tm, a, y);
    }
    assert NodeOk(m, t, y) && NodeOk(m, t, a);
    var c := Ancestor(m, t, tm, y, d + 1);
    assert NodeOk(m, t, c);
    var q := W(m, c + PARENT);
    PathUp(t[c].size, t[y].size, d + 1, d);
    NodeAtPath(m, t, tm, a, q);
  }

  /** Conversely everything below a child of a is below a. */
  lemma ChildBelow(m: seq<int>, t: Nodes, tm: binmap, a: int, b: nat, y: int)
    requires TreeOk(m, t, tm)
    requires InTree(t, a) && b <= 1
    requires var c := Child(m, a, b); c != 0 && c in t && Below(t, c, y)
    ensures Below(t, a, y) && y != a && Dir(t[y].size, t[a].depth) == b
  {
    hide Path, Dir, TreeIndex;
    var c, d := Child(m, a, b), t[a].depth;
    assert NodeOk(m, t, a);
    assert NodeOk(m, t, c);
    PathUp(t[c].size, t[y].size, d + 1, d);
  }

  /** Every chunk in the tree bins shares its size with a tree node. */
  lemma {:induction false} HeadOf(m: seq<int>, t: Nodes, tm: binmap, y: int) returns (h: int)
    requires TreeOk(m, t, tm) && y in t
    ensures InTree(t, h) && t[h].size == t[y].size
    decreases t[y].rank
  {
    hide Path, Dir, TreeIndex;
    assert NodeOk(m, t, y);
    if t[y].rank == 0 {
      h := y;
    } else {
      h := HeadOf(m, t, tm, W(m, y + FD));
    }
  }

  /** Every tree node is below the root of its bin; so the map marks its bin. */
  lemma BelowRoot(m: seq<int>, t: Nodes, tm: binmap, y: int)
    requires TreeOk(m, t, tm) && InTree(t, y)
    ensures var r := Root(m, TreeIndex(t[y].size));
            r != 0 && InTree(t, r) && t[r].depth == 0 && Below(t, r, y)
    ensures Marked(tm, TreeIndex(t[y].size))
  {
    hide Path, Dir, Marked, TreeIndex;
    assert NodeOk(m, t, y);
    var a := Ancestor(m, t, tm, y, 0);
    assert NodeOk(m, t, a);
    assert RootOk(m, t, tm, TreeIndex(t[y].size));
  }
}

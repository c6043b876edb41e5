/**
  Searching the tree bins: the walk by the bits of a request, and the walk down the
  leftmost children. Both keep the set of chunks that could still beat the best one seen.
 */
module TreeSearch {
  import opened Words
  import opened BinIndex
  import opened BinMap
  import opened Memory
  import opened TreeBins

  /** leftmost_child. */
  function LeftmostChild(m: seq<int>, p: int): int {
    if Child(m, p, 0) != 0 then Child(m, p, 0) else Child(m, p, 1)
  }

  /** y is in the tree, large enough, and smaller than the best chunk v found so far (0: none). */
  ghost predicate Better(t: Nodes, nb: nat, v: int, y: int) {
    InTree(t, y) && nb <= t[y].size && (v in t ==> t[y].size < t[v].size)
  }

  /** Nothing beats v. */
  ghost predicate IsBest(t: Nodes, nb: nat, v: int) {
    && (v != 0 ==> InTree(t, v) && nb <= t[v].size)
    && forall y {:trigger t[y]} :: y in t && nb <= t[y].size ==> v != 0 && t[v].size <= t[y].size
  }

  /**
    What the leftmost walk at c still has to cover: everything better than v is below c, or
    is at least larger than c itself, and c is large enough.
   */
  ghost predicate Covers(t: Nodes, nb: nat, v: int, c: int, y: int) {
    && InTree(t, c) && y in t
    && (Below(t, c, y) || (nb <= t[c].size < t[y].size))
  }

  /** Below a, the leftmost child is below-or-smaller than anything but a. */
  lemma LeftmostStep(m: seq<int>, t: Nodes, tm: binmap, a: int, y: int)
    requires TreeOk(m, t, tm)
    requires InTree(t, a) && Below(t, a, y) && y != a
    ensures var c := LeftmostChild(m, a);
            && c != 0 && InTree(t, c) && t[c].depth == t[a].depth + 1 && Below(t, a, c)
            && (Below(t, c, y) || t[c].size < t[y].size)
  {
    hide Path, Dir, TreeIndex;
    var d, c := t[a].depth, LeftmostChild(m, a);
    BelowChild(m, t, tm, a, y);
    assert NodeOk(m, t, a);
    assert NodeOk(m, t, c);
    ChildBelow(m, t, tm, a, if Child(m, a, 0) != 0 then 0 else 1, c);
    if Child(m, a, 0) != 0 && Dir(t[y].size, d) == 1 {
      PathStep(t[y].size, d);
      PathStep(t[c].size, d);
      PathOrder(t[c].size, t[y].size, d + 1);
    }
  }

  lemma LeftmostIsNode(m: seq<int>, t: Nodes, tm: binmap, a: int)
    requires TreeOk(m, t, tm) && InTree(t, a)
    ensures var c := LeftmostChild(m, a);
            c != 0 ==> InTree(t, c) && t[c].depth == t[a].depth + 1 <= 64 && Below(t, a, c)
  {
    hide Path, Dir, TreeIndex;
    assert NodeOk(m, t, a);
    var c := LeftmostChild(m, a);
    if c != 0 {
      assert NodeOk(m, t, c);
      ChildBelow(m, t, tm, a, if Child(m, a, 0) != 0 then 0 else 1, c);
    }
  }

  lemma BelowTrans(t: Nodes, a: int, c: int, y: int)
    requires InTree(t, a) && InTree(t, c) && Below(t, a, c) && Below(t, c, y)
    requires t[c].depth <= OpenBits(TreeIndex(t[c].size))
    ensures Below(t, a, y)
  {
    hide Path, Dir, TreeIndex;
    PathUp(t[y].size, t[c].size, t[c].depth, t[a].depth);
  }

  /** The state of a search: v is the best chunk so far, rsize what it leaves over. */
  ghost predicate Found(t: Nodes, nb: nat, v: int, rsize: int) {
    if v == 0 then rsize == WORD - nb
    else InTree(t, v) && nb <= t[v].size && rsize == t[v].size - nb
  }

  /** Everything better than v is still covered by the walk at c; past 2^40 nothing can be. */
  ghost predicate Covered(t: Nodes, nb: nat, v: int, c: int) {
    nb < SIZE_LIMIT ==>
      forall y {:trigger Better(t, nb, v, y)} :: Better(t, nb, v, y) ==> c != 0 && Covers(t, nb, v, c, y)
  }

  ghost predicate AllFit(t: Nodes, nb: nat, c: int)
    requires c in t
  {
    forall z {:trigger t[z]} :: Below(t, c, z) ==> nb <= t[z].size
  }

  /** trem: the unsigned difference chunksize(t) - nb. */
  function Trem(size: int, nb: nat): int { (size - nb) % WORD }

  /** Comparing trem with rsize is comparing c with the best chunk so far. */
  lemma TremLess(t: Nodes, nb: nat, v: int, rsize: int, c: int)
    requires InTree(t, c) && 0 < nb < WORD && t[c].size < SIZE_LIMIT && Found(t, nb, v, rsize)
    requires v != 0 ==> t[v].size < SIZE_LIMIT
    ensures Trem(t[c].size, nb) < rsize <==>
            nb <= t[c].size && (v == 0 || t[c].size < t[v].size)
    ensures nb <= t[c].size ==> Trem(t[c].size, nb) == t[c].size - nb
  {
    if t[c].size < nb {
      assert (t[c].size - nb) % WORD == t[c].size - nb + WORD;
    }
  }

  /** One turn of the leftmost walk: look at c, then go on to its leftmost child. */
  lemma LeastStep(m: seq<int>, t: Nodes, tm: binmap, nb: nat, v: int, c: int, v': int)
    requires TreeOk(m, t, tm) && InTree(t, c)
    requires v != 0 ==> v in t
    requires Covered(t, nb, v, c)
    requires v' == if nb <= t[c].size && (v == 0 || t[c].size < t[v].size) then c else v
    requires nb < SIZE_LIMIT ==> AllFit(t, nb, c) || (v in t && t[v].size == nb)
    ensures var c' := LeftmostChild(m, c);
            && Covered(t, nb, v', c')
            && (nb < SIZE_LIMIT && c' != 0 ==> c' in t && (AllFit(t, nb, c') || (v' in t && t[v'].size == nb)))
  {
    hide Path, Dir, TreeIndex, NodeOk, PairOk, RootOk;
    var c' := LeftmostChild(m, c);
    LeftmostIsNode(m, t, tm, c);
    NullIsNoNode(m, t, tm);
    if nb < SIZE_LIMIT {
      forall y {:trigger Better(t, nb, v', y)} | Better(t, nb, v', y)
        ensures c' != 0 && Covers(t, nb, v', c', y)
      {
        LeastStepAt(m, t, tm, nb, v, c, v', y);
      }
      if c' != 0 && !(v in t && t[v].size == nb) {
        forall z {:trigger t[z]} | Below(t, c', z)
          ensures nb <= t[z].size
        {
          ChildDepth(m, t, tm, c');
          BelowTrans(t, c, c', z);
        }
      }
    }
  }

  lemma ChildDepth(m: seq<int>, t: Nodes, tm: binmap, c: int)
    requires TreeOk(m, t, tm) && InTree(t, c)
    ensures t[c].depth <= OpenBits(TreeIndex(t[c].size)) <= 64
    ensures IsLargeSize(t[c].size) && GM_END <= c && c + 64 <= |m|
    ensures ChunkSize(W(m, c + HEAD)) == t[c].size
  {
    hide Path, Dir, TreeIndex, OnRing, UnderParent, OverChild;
    assert NodeOk(m, t, c);
  }

  lemma LeastStepAt(m: seq<int>, t: Nodes, tm: binmap, nb: nat, v: int, c: int, v': int, y: int)
    requires TreeOk(m, t, tm) && InTree(t, c)
    requires v != 0 ==> v in t
    requires Covered(t, nb, v, c) && nb < SIZE_LIMIT
    requires v' == if nb <= t[c].size && (v == 0 || t[c].size < t[v].size) then c else v
    requires AllFit(t, nb, c) || (v in t && t[v].size == nb)
    requires Better(t, nb, v', y)
    ensures var c' := LeftmostChild(m, c);
            c' != 0 && Covers(t, nb, v', c', y)
  {
    hide Path, Dir, TreeIndex, NodeOk, PairOk, RootOk, W, Child;
    NullIsNoNode(m, t, tm);
    assert Better(t, nb, v, y);
    if y != c && Below(t, c, y) {
      LeftmostStep(m, t, tm, c, y);
    }
  }

  lemma NullIsNoNode(m: seq<int>, t: Nodes, tm: binmap)
    requires TreeOk(m, t, tm)
    ensures 0 !in t
  {
    hide Path, Dir, TreeIndex, OnRing, UnderParent, OverChild;
    assert 0 in t ==> NodeOk(m, t, 0);
  }

  /** When the walk is over, v is the least chunk that fits, ring members included. */
  lemma WalkDone(m: seq<int>, t: Nodes, tm: binmap, nb: nat, v: int, rsize: int)
    requires TreeOk(m, t, tm) && Found(t, nb, v, rsize) && Covered(t, nb, v, 0)
    ensures IsBest(t, nb, v)
  {
    hide Path, Dir, TreeIndex, NodeOk, PairOk, RootOk;
    NullIsNoNode(m, t, tm);
    forall y {:trigger t[y]} | y in t && nb <= t[y].size
      ensures v != 0 && t[v].size <= t[y].size
    {
      var h := HeadOf(m, t, tm, y);
      ChildDepth(m, t, tm, h);
      assert !Better(t, nb, v, h);
    }
  }

  // ---------- The walk by the bits of the request ----------

  /**
    The walk stands at c, on the path of nb; rst is the deepest right subtree it left aside,
    branching off at a level where nb went left.
   */
  ghost predicate OnPath(t: Nodes, nb: nat, c: int, rst: int) {
    && InTree(t, c) && TreeIndex(t[c].size) == TreeIndex(nb)
    && t[c].depth <= OpenBits(TreeIndex(nb))
    && Path(t[c].size, t[c].depth) == Path(nb, t[c].depth)
    && (rst != 0 ==> Aside(t, nb, rst) && t[rst].depth <= t[c].depth)
  }

  ghost predicate Aside(t: Nodes, nb: nat, rst: int) {
    && InTree(t, rst) && TreeIndex(t[rst].size) == TreeIndex(nb)
    && t[rst].depth <= OpenBits(TreeIndex(nb))
    && Path(nb, t[rst].depth) < Path(t[rst].size, t[rst].depth)
  }

  /** In the bin of nb, everything better than v is below c, below rst, or larger than rst. */
  ghost predicate PathCovered(t: Nodes, nb: nat, v: int, c: int, rst: int) {
    forall y {:trigger Better(t, nb, v, y)} ::
      Better(t, nb, v, y) && TreeIndex(t[y].size) == TreeIndex(nb) ==>
        (c != 0 && c in t && Below(t, c, y)) || (rst != 0 && Covers(t, nb, v, rst, y))
  }

  /** Everything below a subtree left aside is larger than the request, and than anything on the path. */
  lemma AsideIsLarger(t: Nodes, nb: nat, rst: int, y: int)
    requires Aside(t, nb, rst) && Below(t, rst, y)
    ensures nb < t[y].size
    ensures forall z {:trigger t[z]} ::
              z in t && TreeIndex(t[z].size) == TreeIndex(nb) && Path(t[z].size, t[rst].depth) == Path(nb, t[rst].depth)
              ==> t[z].size < t[y].size
  {
    hide Path, Dir, TreeIndex;
    var k := t[rst].depth;
    PathOrder(nb, t[y].size, k);
    forall z {:trigger t[z]} | z in t && TreeIndex(t[z].size) == TreeIndex(nb) && Path(t[z].size, k) == Path(nb, k)
      ensures t[z].size < t[y].size
    {
      PathOrder(t[z].size, t[y].size, k);
    }
  }

  /** The bits of nb lead on to the child go; a right child not taken becomes the new rst. */
  lemma PathStepDown(m: seq<int>, t: Nodes, tm: binmap, nb: nat, v: int, c: int, rst: int, v': int, go: nat)
    requires TreeOk(m, t, tm) && OnPath(t, nb, c, rst)
    requires v != 0 ==> v in t && nb <= t[v].size
    requires PathCovered(t, nb, v, c, rst)
    requires v' == if nb <= t[c].size && (v == 0 || t[c].size < t[v].size) then c else v
    requires v' == 0 || t[v'].size != nb
    requires go == Dir(nb, t[c].depth)
    ensures t[c].depth < OpenBits(TreeIndex(nb))
    ensures var rt, c' := Child(m, c, 1), Child(m, c, go);
            var rst' := if rt != 0 && rt != c' then rt else rst;
            && (c' != 0 ==> OnPath(t, nb, c', rst') && t[c'].depth == t[c].depth + 1)
            && (rst' != 0 ==> Aside(t, nb, rst'))
            && PathCovered(t, nb, v', c', rst')
  {
    hide Path, Dir, TreeIndex, PairOk, RootOk;
    NullIsNoNode(m, t, tm);
    var d := t[c].depth;
    if d == OpenBits(TreeIndex(nb)) {
      PathFull(nb);
      PathFull(t[c].size);
    }
    PathStepNodes(m, t, tm, nb, c, rst, go);
    hide OnPath, Aside, NodeOk;
    var rt, c' := Child(m, c, 1), Child(m, c, go);
    var rst' := if rt != 0 && rt != c' then rt else rst;
    forall y {:trigger Better(t, nb, v', y)} | Better(t, nb, v', y) && TreeIndex(t[y].size) == TreeIndex(nb)
      ensures (c' != 0 && c' in t && Below(t, c', y)) || (rst' != 0 && Covers(t, nb, v', rst', y))
    {
      PathStepAt(m, t, tm, nb, v, c, rst, v', go, y);
    }
  }

  lemma PathStepNodes(m: seq<int>, t: Nodes, tm: binmap, nb: nat, c: int, rst: int, go: nat)
    requires TreeOk(m, t, tm) && OnPath(t, nb, c, rst)
    requires t[c].depth < OpenBits(TreeIndex(nb)) && go == Dir(nb, t[c].depth)
    ensures var rt, c' := Child(m, c, 1), Child(m, c, go);
            var rst' := if rt != 0 && rt != c' then rt else rst;
            && (c' != 0 ==> OnPath(t, nb, c', rst') && t[c'].depth == t[c].depth + 1)
            && (rst' != 0 ==> Aside(t, nb, rst'))
            && (rt != 0 && rt != c' ==> go == 0)
  {
    hide Path, Dir, TreeIndex, PairOk, RootOk, W;
    var d := t[c].depth;
    assert NodeOk(m, t, c);
    var rt, c' := Child(m, c, 1), Child(m, c, go);
    PathStep(nb, d);
    if c' != 0 {
      assert NodeOk(m, t, c');
      PathStep(t[c'].size, d);
    }
    if rt != 0 {
      assert NodeOk(m, t, rt);
      PathStep(t[rt].size, d);
    }
  }

  lemma PathStepAt(m: seq<int>, t: Nodes, tm: binmap, nb: nat, v: int, c: int, rst: int, v': int, go: nat, y: int)
    requires TreeOk(m, t, tm) && OnPath(t, nb, c, rst) && t[c].depth < OpenBits(TreeIndex(nb))
    requires 0 !in t && (v != 0 ==> v in t)
    requires PathCovered(t, nb, v, c, rst)
    requires v' == if nb <= t[c].size && (v == 0 || t[c].size < t[v].size) then c else v
    requires v' == 0 || t[v'].size != nb
    requires go == Dir(nb, t[c].depth)
    requires Better(t, nb, v', y) && TreeIndex(t[y].size) == TreeIndex(nb)
    requires var rt, c' := Child(m, c, 1), Child(m, c, go);
             rt != 0 && rt != c' ==> Aside(t, nb, rt)
    ensures var rt, c' := Child(m, c, 1), Child(m, c, go);
            var rst' := if rt != 0 && rt != c' then rt else rst;
            (c' != 0 && c' in t && Below(t, c', y)) || (rst' != 0 && Covers(t, nb, v', rst', y))
  {
    hide Path, Dir, TreeIndex, NodeOk, PairOk, RootOk, W, Child;
    assert Better(t, nb, v, y);
    var d, rt, c' := t[c].depth, Child(m, c, 1), Child(m, c, go);
    if Below(t, c, y) && y != c {
      BelowChild(m, t, tm, c, y);
      if Dir(t[y].size, d) != go && go == 1 {
        PathStep(nb, d);
        PathStep(t[y].size, d);
        PathOrder(t[y].size, nb, d + 1);
      }
    } else if rst != 0 && Covers(t, nb, v, rst, y) && rt != 0 && rt != c' {
      var w := if Below(t, rst, y) then y else rst;
      AsideIsLarger(t, nb, rst, w);
      PathUp(t[c].size, nb, d, t[rst].depth);
      ChildPath(m, t, tm, c, 1, t[rst].depth);
      ChildDepth(m, t, tm, rt);
      AsideIsLarger(t, nb, rt, rt);
    }
  }

  /** A child agrees with its parent on every level above. */
  lemma ChildPath(m: seq<int>, t: Nodes, tm: binmap, c: int, b: nat, k: nat)
    requires TreeOk(m, t, tm) && InTree(t, c) && b <= 1 && k <= t[c].depth
    requires Child(m, c, b) != 0
    ensures var x := Child(m, c, b);
            InTree(t, x) && TreeIndex(t[x].size) == TreeIndex(t[c].size) && Path(t[x].size, k) == Path(t[c].size, k)
  {
    hide Path, Dir, TreeIndex, PairOk, RootOk, W;
    var x := Child(m, c, b);
    assert NodeOk(m, t, c);
    assert NodeOk(m, t, x);
    PathUp(t[x].size, t[c].size, t[c].depth, k);
  }

  // ---------- From one walk to the next ----------

  /** The walk by bits starts at the root of the bin, if there is one. */
  lemma PathBegin(m: seq<int>, t: Nodes, tm: binmap, nb: nat)
    requires TreeOk(m, t, tm) && IsLargeSize(nb)
    ensures var c := Root(m, TreeIndex(nb));
            && (c != 0 ==> OnPath(t, nb, c, 0) && t[c].depth == 0)
            && PathCovered(t, nb, 0, c, 0)
  {
    hide Path, Dir, TreeIndex, NodeOk, PairOk, W, Root;
    var c := Root(m, TreeIndex(nb));
    assert RootOk(m, t, tm, TreeIndex(nb));
    if c != 0 {
      ChildDepth(m, t, tm, c);
      PathStart(t[c].size, nb);
    }
    forall y {:trigger Better(t, nb, 0, y)} | Better(t, nb, 0, y) && TreeIndex(t[y].size) == TreeIndex(nb)
      ensures c != 0 && c in t && Below(t, c, y)
    {
      BelowRoot(m, t, tm, y);
    }
  }

  /** The bits of nb ran out: what is left is below rst, or there is no bin of this size left to search. */
  lemma PathEnd(m: seq<int>, t: Nodes, tm: binmap, nb: nat, v: int, rst: int)
    requires TreeOk(m, t, tm) && IsLargeSize(nb)
    requires PathCovered(t, nb, v, 0, rst) && (rst != 0 ==> Aside(t, nb, rst))
    requires v != 0 ==> InTree(t, v) && TreeIndex(t[v].size) == TreeIndex(nb)
    ensures v != 0 || rst != 0 ==> Covered(t, nb, v, rst)
    ensures rst != 0 ==> AllFit(t, nb, rst)
    ensures v == 0 && rst == 0 ==>
              forall y {:trigger Better(t, nb, 0, y)} :: Better(t, nb, 0, y) ==> TreeIndex(t[y].size) > TreeIndex(nb)
  {
    hide Path, Dir, TreeIndex, NodeOk, PairOk, RootOk;
    NullIsNoNode(m, t, tm);
    if rst != 0 {
      forall z {:trigger t[z]} | Below(t, rst, z)
        ensures nb <= t[z].size
      {
        AsideIsLarger(t, nb, rst, z);
      }
      assert Below(t, rst, rst);
    }
    forall y {:trigger Better(t, nb, v, y)} | Better(t, nb, v, y)
      ensures TreeIndex(t[y].size) >= TreeIndex(nb)
      ensures v != 0 || rst != 0 ==> rst != 0 && Covers(t, nb, v, rst, y)
    {
      ChildDepth(m, t, tm, y);
      TreeIndexMonotone(nb, t[y].size);
      if TreeIndex(t[y].size) > TreeIndex(nb) {
        if v != 0 {
          ChildDepth(m, t, tm, v);
          LargerBin(t[v].size, t[y].size);
        } else if rst != 0 {
          ChildDepth(m, t, tm, rst);
          LargerBin(t[rst].size, t[y].size);
        }
      }
    }
  }

  lemma LargerBin(s: nat, u: nat)
    requires IsLargeSize(s) && IsLargeSize(u) && TreeIndex(s) < TreeIndex(u)
    ensures s < u
  {
    hide TreeIndex;
    if u <= s {
      TreeIndexMonotone(u, s);
    }
  }

  /** The root of the first marked bin above every candidate-free bin covers all that is left. */
  lemma RootCovers(m: seq<int>, t: Nodes, tm: binmap, nb: nat, k: nat)
    requires TreeOk(m, t, tm) && k < TREE_BINS && Marked(tm, k)
    requires forall y {:trigger Better(t, nb, 0, y)} :: Better(t, nb, 0, y) ==> TreeIndex(t[y].size) >= k
    requires forall z {:trigger t[z]} :: z in t && TreeIndex(t[z].size) == k ==> nb <= t[z].size
    ensures var c := Root(m, k);
            c != 0 && InTree(t, c) && t[c].depth == 0 && Covered(t, nb, 0, c) && AllFit(t, nb, c)
  {
    hide Path, Dir, TreeIndex, NodeOk, PairOk, W, Root, Marked;
    assert RootOk(m, t, tm, k);
    var c := Root(m, k);
    ChildDepth(m, t, tm, c);
    forall y {:trigger Better(t, nb, 0, y)} | Better(t, nb, 0, y)
      ensures Covers(t, nb, 0, c, y)
    {
      if TreeIndex(t[y].size) == k {
        BelowRoot(m, t, tm, y);
      } else {
        ChildDepth(m, t, tm, y);
        LargerBin(t[c].size, t[y].size);
      }
    }
  }

  /** The next non-empty bin above the bin of nb. */
  lemma NextBin(m: seq<int>, t: Nodes, tm: binmap, nb: nat)
    requires TreeOk(m, t, tm) && IsLargeSize(nb)
    requires forall y {:trigger Better(t, nb, 0, y)} :: Better(t, nb, 0, y) ==> TreeIndex(t[y].size) > TreeIndex(nb)
    ensures var above := Both(LeftBits(IdxBit(TreeIndex(nb))), tm);
            if above == 0 then Covered(t, nb, 0, 0)
            else
              var k := TrailingZeros(LeastBit(above), 0);
              && k < TREE_BINS
              && var c := Root(m, k);
                 c != 0 && InTree(t, c) && t[c].depth == 0 && Covered(t, nb, 0, c) && AllFit(t, nb, c)
  {
    hide Path, Dir, TreeIndex, NodeOk, PairOk, RootOk, W, Root, Marked, Both, LeftBits, IdxBit, LeastBit, TrailingZeros;
    FirstAbove(tm, TreeIndex(nb));
    var above := Both(LeftBits(IdxBit(TreeIndex(nb))), tm);
    forall y {:trigger Better(t, nb, 0, y)} | Better(t, nb, 0, y)
      ensures Marked(tm, TreeIndex(t[y].size))
    {
      BelowRoot(m, t, tm, y);
    }
    if above != 0 {
      var k := TrailingZeros(LeastBit(above), 0);
      forall z {:trigger t[z]} | z in t && TreeIndex(t[z].size) == k
        ensures nb <= t[z].size
      {
        SizeOf(m, t, tm, z);
        LargerBin(nb, t[z].size);
      }
      RootCovers(m, t, tm, nb, k);
    }
  }

  lemma SizeOf(m: seq<int>, t: Nodes, tm: binmap, z: int)
    requires TreeOk(m, t, tm) && z in t
    ensures IsLargeSize(t[z].size)
  {
    hide Path, Dir, TreeIndex, OnRing, UnderParent, OverChild;
    assert NodeOk(m, t, z);
  }

  // ---------- The searches of tmalloc_large and tmalloc_small ----------

  /** The rest of a search: down the leftmost children from c. */
  method FindLeast(m: seq<int>, ghost t: Nodes, ghost tm: binmap, nb: nat, c: int, v: int, rsize: int)
    returns (best: int, left: int)
    requires TreeOk(m, t, tm) && 0 < nb < WORD && Found(t, nb, v, rsize) && (c != 0 ==> InTree(t, c))
    requires Covered(t, nb, v, c)
    requires nb < SIZE_LIMIT && c != 0 ==> AllFit(t, nb, c) || rsize == 0
    ensures Found(t, nb, best, left) && IsBest(t, nb, best)
  {
    hide Path, Dir, TreeIndex, NodeOk, PairOk, RootOk, W, Child, Covered, AllFit, Root;
    var p := c;
    best, left := v, rsize;
    NullIsNoNode(m, t, tm);
    while p != 0
      invariant Found(t, nb, best, left) && (p != 0 ==> InTree(t, p))
      invariant Covered(t, nb, best, p)
      invariant nb < SIZE_LIMIT && p != 0 ==> AllFit(t, nb, p) || left == 0
      decreases if p != 0 && p in t then 65 - t[p].depth else 0
    {
      LeftmostIsNode(m, t, tm, p);
      ChildDepth(m, t, tm, p);
      ghost var was := best;
      best, left := Consider(m, t, tm, nb, p, best, left);
      LeastStep(m, t, tm, nb, was, p, best);
      p := LeftmostChild(m, p);
    }
    WalkDone(m, t, tm, nb, best, left);
  }

  /** What the walk by bits leaves for the rest of the search to do at c. */
  ghost predicate WalkLeft(t: Nodes, nb: nat, c: int, v: int, rsize: int) {
    && Found(t, nb, v, rsize) && (c != 0 ==> InTree(t, c))
    && (c != 0 || v != 0 ==> Covered(t, nb, v, c))
    && (c != 0 && nb < SIZE_LIMIT ==> AllFit(t, nb, c) || rsize == 0)
    && (c == 0 && v == 0 && nb < SIZE_LIMIT ==>
          forall y {:trigger Better(t, nb, 0, y)} :: Better(t, nb, 0, y) ==> TreeIndex(t[y].size) > TreeIndex(nb))
  }

  /** The first loop of tmalloc_large: down the bits of nb from the root of its bin. */
  method WalkBits(m: seq<int>, ghost t: Nodes, ghost tm: binmap, nb: nat) returns (c: int, v: int, rsize: int)
    requires TreeOk(m, t, tm) && MIN_LARGE_SIZE <= nb < WORD && nb % 16 == 0
    requires Root(m, TreeIndex(nb)) != 0
    ensures WalkLeft(t, nb, c, v, rsize)
  {
    hide Path, Dir, TreeIndex, NodeOk, PairOk, RootOk, W, Child, Root, Covered, AllFit,
      OnPath, PathCovered, Aside, SearchKey;
    v, rsize := 0, WORD - nb;
    ghost var idx := TreeIndex(nb);
    c := Root(m, TreeIndex(nb));
    var rst := 0;
    RootIsNode(m, t, tm, idx);
    if nb < SIZE_LIMIT { PathBegin(m, t, tm, nb); }
    SearchKeyStart(nb, OpenBits(idx));
    var sizebits := nb * Pow2(LeftShift(TreeIndex(nb))) % WORD;
    ghost var d := 0;
    while true
      invariant InTree(t, c) && t[c].depth == d && TreeIndex(t[c].size) == idx
      invariant d <= OpenBits(idx) <= 64 && sizebits == SearchKey(nb, OpenBits(idx) - d)
      invariant Found(t, nb, v, rsize) && (v != 0 ==> TreeIndex(t[v].size) == idx && rsize != 0)
      invariant rst != 0 ==> InTree(t, rst)
      invariant nb < SIZE_LIMIT ==> OnPath(t, nb, c, rst) && PathCovered(t, nb, v, c, rst)
      invariant nb < SIZE_LIMIT && rst != 0 ==> Aside(t, nb, rst)
      decreases 65 - d
    {
      ghost var was := v;
      v, rsize := Consider(m, t, tm, nb, c, v, rsize);
      if rsize == 0 {
        ExactFit(t, nb, v, c);
        return;
      }
      NextDirection(nb, d);
      ChildIsNode(m, t, tm, c, 1);
      ChildIsNode(m, t, tm, c, Dir(nb, d));
      if nb < SIZE_LIMIT { PathStepDown(m, t, tm, nb, was, c, rst, v, Dir(nb, d)); }
      var rt := Child(m, c, 1);
      c := Child(m, c, sizebits / HALF_WORD % 2);
      if rt != 0 && rt != c {
        rst := rt;
      }
      if c == 0 {
        if nb < SIZE_LIMIT { PathEnd(m, t, tm, nb, v, rst); } else { TooLargeCovered(t, nb, v, rst); }
        c := rst;
        return;
      }
      ChildDepth(m, t, tm, c);
      sizebits := 2 * sizebits % WORD;
      d := d + 1;
    }
  }

  /** Compare c with the best chunk so far, by unsigned remainders. */
  method Consider(m: seq<int>, ghost t: Nodes, ghost tm: binmap, nb: nat, c: int, v: int, rsize: int)
    returns (v': int, rsize': int)
    requires TreeOk(m, t, tm) && InTree(t, c) && 0 < nb < WORD && Found(t, nb, v, rsize)
    ensures Found(t, nb, v', rsize')
    ensures v' == if nb <= t[c].size && (v == 0 || t[c].size < t[v].size) then c else v
  {
    hide Path, Dir, TreeIndex, NodeOk, PairOk, RootOk, Trem;
    NullIsNoNode(m, t, tm);
    ChildDepth(m, t, tm, c);
    if v != 0 { ChildDepth(m, t, tm, v); }
    TremLess(t, nb, v, rsize, c);
    v', rsize' := v, rsize;
    var trem := Trem(ChunkSize(m[c + HEAD]), nb);
    if trem < rsize {
      rsize' := trem;
      v' := c;
    }
  }

  /**
    The search of tmalloc_large. For any request, however large, v is the least chunk that
    fits over all tree bins, or 0 when none fits. Past 2^40 the index macro picks an
    unrelated bin; the unsigned comparison of remainders then rejects every chunk.
   */
  method FindLarge(m: seq<int>, ghost t: Nodes, tm: binmap, nb: nat) returns (v: int, rsize: int)
    requires TreeOk(m, t, tm) && MIN_LARGE_SIZE <= nb < WORD && nb % 16 == 0
    ensures Found(t, nb, v, rsize) && IsBest(t, nb, v)
  {
    hide Path, Dir, TreeIndex, NodeOk, PairOk, RootOk, W, Root, Covered, AllFit,
      PathCovered, IsBest, Both, LeftBits, LeastBit, IdxBit, TrailingZeros;
    v, rsize := 0, WORD - nb;
    var idx := TreeIndex(nb);
    var c := Root(m, idx);
    NullIsNoNode(m, t, tm);
    if c != 0 {
      c, v, rsize := WalkBits(m, t, tm, nb);
    } else if nb < SIZE_LIMIT {
      PathBegin(m, t, tm, nb);
      PathEnd(m, t, tm, nb, 0, 0);
    }
    if c == 0 && v == 0 {
      var above := Both(LeftBits(IdxBit(idx)), tm);
      if nb < SIZE_LIMIT { NextBin(m, t, tm, nb); }
      if above != 0 {
        FirstAbove(tm, idx);
        var i := TrailingZeros(LeastBit(above), 0);
        c := Root(m, i);
        RootIsNode(m, t, tm, i);
      }
      if nb >= SIZE_LIMIT { TooLargeCovered(t, nb, v, c); }
    }
    v, rsize := FindLeast(m, t, tm, nb, c, v, rsize);
  }

  lemma TooLargeCovered(t: Nodes, nb: nat, v: int, c: int)
    requires nb >= SIZE_LIMIT
    ensures Covered(t, nb, v, c)
  {
  }

  lemma ExactFit(t: Nodes, nb: nat, v: int, c: int)
    requires v in t && t[v].size == nb
    ensures Covered(t, nb, v, c)
  {
  }

  /** The sign bit of the shifted request is the direction to take, and shifting moves on. */
  lemma NextDirection(nb: nat, d: nat)
    requires d <= OpenBits(TreeIndex(nb)) <= 64
    ensures var key := SearchKey(nb, OpenBits(TreeIndex(nb)) - d);
            && key / HALF_WORD % 2 == Dir(nb, d)
            && (d < OpenBits(TreeIndex(nb)) ==> 2 * key % WORD == SearchKey(nb, OpenBits(TreeIndex(nb)) - d - 1))
  {
    hide TreeIndex;
    if d < OpenBits(TreeIndex(nb)) {
      SearchKeyStep(nb, OpenBits(TreeIndex(nb)) - d);
      hide Low;
    }
  }

  lemma RootIsNode(m: seq<int>, t: Nodes, tm: binmap, i: nat)
    requires TreeOk(m, t, tm) && i < TREE_BINS
    ensures var r := Root(m, i);
            r != 0 ==> InTree(t, r) && t[r].depth == 0 && TreeIndex(t[r].size) == i
  {
    hide Path, Dir, TreeIndex, NodeOk, PairOk, W, Marked;
    assert RootOk(m, t, tm, i);
  }

  lemma ChildIsNode(m: seq<int>, t: Nodes, tm: binmap, c: int, b: nat)
    requires TreeOk(m, t, tm) && InTree(t, c) && b <= 1
    ensures var x := Child(m, c, b);
            x != 0 ==> InTree(t, x) && t[x].depth == t[c].depth + 1 && TreeIndex(t[x].size) == TreeIndex(t[c].size)
  {
    hide Path, Dir, TreeIndex, PairOk, RootOk, W, Child;
    assert NodeOk(m, t, c);
  }

  /** The search of tmalloc_small: the least chunk of the first marked bin is the least of all. */
  method FindSmall(m: seq<int>, ghost t: Nodes, tm: binmap, nb: nat) returns (v: int, rsize: int)
    requires TreeOk(m, t, tm) && tm != 0 && 0 < nb < MIN_LARGE_SIZE
    ensures v != 0 && Found(t, nb, v, rsize) && IsBest(t, nb, v)
  {
    hide Path, Dir, TreeIndex, NodeOk, PairOk, RootOk, Child, Root, Covered, AllFit, IsBest,
      Marked, LeastBit, TrailingZeros;
    FirstMarked(tm);
    var i := TrailingZeros(LeastBit(tm), 0);
    var p := Root(m, i);
    v := p;
    FirstBin(m, t, tm, nb, i);
    NullIsNoNode(m, t, tm);
    ChildDepth(m, t, tm, p);
    rsize := ChunkSize(m[p + HEAD]) - nb;
    LeastStep(m, t, tm, nb, 0, p, v);
    LeftmostIsNode(m, t, tm, p);
    p := LeftmostChild(m, p);
    while p != 0
      invariant v != 0 && Found(t, nb, v, rsize) && (p != 0 ==> InTree(t, p))
      invariant Covered(t, nb, v, p)
      invariant p != 0 ==> AllFit(t, nb, p) || (v in t && t[v].size == nb)
      decreases if p != 0 && p in t then 65 - t[p].depth else 0
    {
      LeftmostIsNode(m, t, tm, p);
      ChildDepth(m, t, tm, p);
      ghost var was := v;
      v, rsize := Consider(m, t, tm, nb, p, v, rsize);
      LeastStep(m, t, tm, nb, was, p, v);
      p := LeftmostChild(m, p);
    }
    WalkDone(m, t, tm, nb, v, rsize);
  }

  lemma FirstBin(m: seq<int>, t: Nodes, tm: binmap, nb: nat, k: nat)
    requires TreeOk(m, t, tm) && nb < MIN_LARGE_SIZE && k < TREE_BINS && Marked(tm, k)
    requires forall j: nat {:trigger Marked(tm, j)} :: j < k ==> !Marked(tm, j)
    ensures var c := Root(m, k);
            c != 0 && InTree(t, c) && t[c].depth == 0 && Covered(t, nb, 0, c) && AllFit(t, nb, c)
  {
    hide Path, Dir, TreeIndex, NodeOk, PairOk, RootOk, W, Root, Marked, Covered, AllFit;
    forall y {:trigger Better(t, nb, 0, y)} | Better(t, nb, 0, y)
      ensures TreeIndex(t[y].size) >= k
    {
      BelowRoot(m, t, tm, y);
    }
    forall z {:trigger t[z]} | z in t
      ensures nb <= t[z].size
    {
      SizeOf(m, t, tm, z);
    }
    RootCovers(m, t, tm, nb, k);
  }
}

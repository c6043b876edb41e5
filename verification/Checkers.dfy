/**
  The consistency checks that dlmalloc.c compiles in under DEBUG. They read nothing but
  memory and malloc_state; the invariant makes every one of them succeed.
 */
module Checkers {
  import opened Words
  import opened BinIndex
  import opened BinMap
  import opened Memory
  import opened TreeBins
  import opened TreeInsert
  import opened TreeSearch
  import opened SmallBins
  import opened Layout
  import opened Heap
  import opened BinStores
  import opened Carving
  import opened ChunkMoves
  import opened Merging
  import opened Requests

  // ---------- Everything in a list is reached from its head ----------

  ghost function MaxOf(S: set<nat>): (r: nat)
    ensures forall x :: x in S ==> x <= r
  {
    if S == {} then 0
    else
      var x :| x in S;
      var rest := MaxOf(S - {x});
      assert forall y :: y in S ==> y == x || y in S - {x};
      if x > rest then x else rest
  }

  ghost function MaxRank(n: Smalls): (r: nat)
    ensures forall p {:trigger n[p]} :: p in n ==> n[p].rank <= r
  {
    var ranks := set p | p in n :: n[p].rank;
    assert forall p {:trigger n[p]} :: p in n ==> n[p].rank in ranks;
    MaxOf(ranks)
  }

  ghost function MaxTreeRank(t: Nodes): (r: nat)
    ensures forall p {:trigger t[p]} :: p in t ==> t[p].rank <= r
  {
    var ranks := set p | p in t :: t[p].rank;
    assert forall p {:trigger t[p]} :: p in t ==> t[p].rank in ranks;
    MaxOf(ranks)
  }

  /** A set of visited list members that is closed under fd, apart from the last one visited. */
  ghost predicate ListVisited(s: State, size: nat, V: set<int>, last: int) {
    && Header(size) in V && last in V
    && forall q {:trigger s.sn[q]} :: q in s.sn && s.sn[q].size == size && q !in V ==>
         W(s.m, q + BK) !in V || W(s.m, q + BK) == last
  }

  ghost predicate ListDone(s: State, size: nat, V: set<int>) {
    && Header(size) in V
    && forall q {:trigger s.sn[q]} :: q in s.sn && s.sn[q].size == size && q !in V ==> W(s.m, q + BK) !in V
  }

  lemma {:induction false} ListReached(s: State, size: nat, V: set<int>, y: int)
    requires Ok(s, {}) && ListDone(s, size, V) && y in s.sn && s.sn[y].size == size
    ensures y in V
    decreases MaxRank(s.sn) - s.sn[y].rank
  {
    hide TreeOk, Framed, Binned, W, HeaderOk, SmallApart, Marked, SmallBinAt;
    if y !in V {
      assert SmallNodeOk(s.m, s.sn, s.smallmap, y);
      var z := W(s.m, y + BK);
      assert z in s.sn && s.sn[z].size == size;
      assert SmallNodeOk(s.m, s.sn, s.smallmap, z);
      NotTheHeader(s, y, size);
      ListReached(s, size, V, z);
    }
  }

  lemma NotTheHeader(s: State, y: int, size: nat)
    requires Ok(s, {}) && y in s.sn && IsSmallSize(size)
    ensures y != Header(size)
  {
    hide TreeOk, Framed, Binned, W, HeaderOk, SmallApart, Marked;
    SizeInRange(size);
    assert SmallNodeOk(s.m, s.sn, s.smallmap, y);
  }

  /** The list of a bin, starting at its header, up to x or back to the header. */
  method FindInList(s: State, size: nat, x: int) returns (found: bool)
    requires Ok(s, {}) && IsSmallSize(size) && Marked(s.smallmap, SmallIndex(size)) && x >= GM_END
    ensures found <==> x in s.sn && s.sn[x].size == size
  {
    hide TreeOk, Framed, Binned, Listed, HeaderOk, SmallApart, Marked, SmallBinAt, Laid, Ok, ListVisited, ListDone, InList;
    var b := SmallBinAt(SmallIndex(size));
    var p := b;
    ghost var V := {b};
    ListBegins(s, size);
    while true
      invariant InList(s.sn, size, p) && ListVisited(s, size, V, p)
      invariant forall q :: q in V && q != p ==> q != x
      invariant V == {b} || p != b
      decreases if p == b then MaxRank(s.sn) + 1 else if p in s.sn then s.sn[p].rank else 0
    {
      if p == x {
        FoundInList(s, size, x);
        return true;
      }
      ListStep(s, size, V, p);
      p := s.m[p + FD];
      if p == b {
        break;
      }
      V := V + {p};
    }
    if x in s.sn && s.sn[x].size == size {
      ListReached(s, size, V, x);
    }
    return false;
  }

  lemma ListBegins(s: State, size: nat)
    requires Ok(s, {}) && IsSmallSize(size) && Marked(s.smallmap, SmallIndex(size))
    ensures InList(s.sn, size, Header(size)) && ListVisited(s, size, {Header(size)}, Header(size))
    ensures Header(size) < GM_END
  {
    SizeInRange(size);
  }

  lemma FoundInList(s: State, size: nat, x: int)
    requires InList(s.sn, size, x) && x >= GM_END && IsSmallSize(size)
    ensures x in s.sn && s.sn[x].size == size
  {
    SizeInRange(size);
  }

  /** One fd step through the list of a bin. */
  lemma ListStep(s: State, size: nat, V: set<int>, p: int)
    requires Ok(s, {}) && IsSmallSize(size) && Marked(s.smallmap, SmallIndex(size))
    requires InList(s.sn, size, p) && ListVisited(s, size, V, p)
    ensures 0 <= p && p + 32 <= |s.m|
    ensures var f, b := W(s.m, p + FD), Header(size);
            && InList(s.sn, size, f)
            && (f == b ==> ListDone(s, size, V))
            && (f != b ==> f in s.sn && ListVisited(s, size, V + {f}, f) && (p != b ==> p in s.sn && s.sn[f].rank < s.sn[p].rank))
  {
    hide TreeOk, W, Marked, SmallApart, SmallBinAt, Binned;
    var f, b := W(s.m, p + FD), Header(size);
    ListLinks(s, size, p);
    forall q {:trigger s.sn[q]} | q in s.sn && s.sn[q].size == size && q !in V && q != f
      ensures W(s.m, q + BK) !in V
    {
      assert W(s.m, q + BK) !in V || W(s.m, q + BK) == p;
      assert SmallNodeOk(s.m, s.sn, s.smallmap, q);
    }
    if f == b {
      forall q {:trigger s.sn[q]} | q in s.sn && s.sn[q].size == size && q !in V
        ensures W(s.m, q + BK) !in V
      {
        NotTheHeader(s, q, size);
      }
    }
  }

  lemma ListLinks(s: State, size: nat, p: int)
    requires Ok(s, {}) && IsSmallSize(size) && Marked(s.smallmap, SmallIndex(size)) && InList(s.sn, size, p)
    ensures 0 <= p && p + 32 <= |s.m|
    ensures var f, b := W(s.m, p + FD), Header(size);
            InList(s.sn, size, f) && (p != b && f != b ==> p in s.sn && f in s.sn && s.sn[f].rank < s.sn[p].rank)
  {
    hide TreeOk, W, Marked, SmallApart, SmallBinAt, Binned;
    SmallBinFits(s, {}, SmallIndex(size));
    SizeInRange(size);
    if p == Header(size) {
      assert HeaderOk(s.m, s.sn, s.smallmap, SmallIndex(size));
      var f := W(s.m, p + FD);
      assert SmallNodeOk(s.m, s.sn, s.smallmap, f);
      SizeInRange(s.sn[f].size);
    } else {
      assert SmallNodeOk(s.m, s.sn, s.smallmap, p);
      if W(s.m, p + FD) in s.sn { NotTheHeader(s, W(s.m, p + FD), size); }
    }
  }
  // ---------- Rings of the trees ----------

  ghost predicate RingVisited(s: State, size: nat, V: set<int>, last: int) {
    && last in V
    && forall q {:trigger s.tn[q]} :: q in s.tn && s.tn[q].size == size && q !in V ==>
         W(s.m, q + BK) !in V || W(s.m, q + BK) == last
  }

  ghost predicate RingDone(s: State, size: nat, h: int, V: set<int>) {
    && InTree(s.tn, h) && s.tn[h].size == size && h in V
    && forall q {:trigger s.tn[q]} :: q in s.tn && s.tn[q].size == size && q !in V ==> W(s.m, q + BK) !in V
  }

  lemma {:induction false} RingReached(s: State, size: nat, h: int, V: set<int>, y: int)
    requires Ok(s, {}) && RingDone(s, size, h, V) && y in s.tn && s.tn[y].size == size
    ensures y in V
    decreases MaxTreeRank(s.tn) - s.tn[y].rank
  {
    hide SmallOk, Framed, Binned, W, UnderParent, OverChild, RootOk, TreeIndex;
    if y !in V {
      assert NodeOk(s.m, s.tn, y);
      var z := W(s.m, y + BK);
      assert NodeOk(s.m, s.tn, z);
      assert PairOk(s.tn, y, h) && PairOk(s.tn, z, h);
      if s.tn[y].rank > 0 {
        RingReached(s, size, h, V, z);
      }
    }
  }

  /** One fd step round the ring of the tree node h. */
  lemma RingStep(s: State, h: int, V: set<int>, u: int)
    requires Ok(s, {}) && InTree(s.tn, h) && u in s.tn && s.tn[u].size == s.tn[h].size && RingVisited(s, s.tn[h].size, V, u) && h in V
    ensures 0 <= u && u + 64 <= |s.m|
    ensures var f, size := W(s.m, u + FD), s.tn[h].size;
            && f in s.tn && s.tn[f].size == size
            && (f == h ==> RingDone(s, size, h, V))
            && (f != h ==> RingVisited(s, size, V + {f}, f) && s.tn[f].rank > 0 && (u != h ==> s.tn[f].rank < s.tn[u].rank))
  {
    hide SmallOk, Framed, Binned, W, UnderParent, OverChild, RootOk, TreeIndex;
    var f, size := W(s.m, u + FD), s.tn[h].size;
    assert NodeOk(s.m, s.tn, u);
    assert PairOk(s.tn, f, h) && PairOk(s.tn, u, h);
    forall q {:trigger s.tn[q]} | q in s.tn && s.tn[q].size == size && q !in V && q != f
      ensures W(s.m, q + BK) !in V
    {
      assert W(s.m, q + BK) !in V || W(s.m, q + BK) == u;
      assert NodeOk(s.m, s.tn, q);
    }
  }

  lemma RingBegins(s: State, h: int)
    requires Ok(s, {}) && InTree(s.tn, h)
    ensures RingVisited(s, s.tn[h].size, {h}, h)
  {
  }

  /** The ring of the tree node h, up to x or back to h. */
  method FindInRing(s: State, h: int, x: int) returns (found: bool)
    requires Ok(s, {}) && InTree(s.tn, h)
    ensures found <==> x in s.tn && s.tn[x].size == s.tn[h].size
  {
    hide Ok, RingVisited, RingDone, W;
    var u := h;
    ghost var V, size := {h}, s.tn[h].size;
    RingBegins(s, h);
    while true
      invariant u in s.tn && s.tn[u].size == size && h in V && RingVisited(s, size, V, u)
      invariant forall q :: q in V && q != u ==> q != x
      invariant u != h ==> s.tn[u].rank > 0
      decreases if u == h then MaxTreeRank(s.tn) + 1 else s.tn[u].rank
    {
      if u == x {
        return true;
      }
      RingStep(s, h, V, u);
      WordAtFd(s.m, u);
      u := s.m[u + FD];
      if u == h {
        break;
      }
      V := V + {u};
    }
    if x in s.tn && s.tn[x].size == size {
      RingReached(s, size, h, V, x);
    }
    return false;
  }

  lemma WordAtFd(m: seq<int>, u: int)
    requires 0 <= u && u + 64 <= |m|
    ensures W(m, u + FD) == m[u + FD] && W(m, u + PARENT) == m[u + PARENT]
  {
  }

  // ---------- bin_find ----------

  /** A size that no tree node on the way has been found for has no tree node at all. */
  lemma NoSuchNode(s: State, size: nat, at: int)
    requires Ok(s, {}) && OnWay(s.tn, size, at) && s.tn[at].size != size
    requires Child(s.m, at, Dir(size, s.tn[at].depth)) == 0
    ensures forall y {:trigger s.tn[y]} :: y in s.tn ==> s.tn[y].size != size
  {
    hide SmallOk, Framed, Binned, TreeOk, Path, Dir, TreeIndex;
    OkTree(s, {});
    forall y {:trigger s.tn[y]} | y in s.tn && s.tn[y].size == size
      ensures false
    {
      var h := HeadOf(s.m, s.tn, s.treemap, y);
      BelowChild(s.m, s.tn, s.treemap, at, h);
    }
  }

  lemma NoSuchBin(s: State, size: nat)
    requires Ok(s, {}) && !Marked(s.treemap, TreeIndex(size))
    ensures forall y {:trigger s.tn[y]} :: y in s.tn ==> s.tn[y].size != size
  {
    hide SmallOk, Framed, Binned, TreeOk, Path, Dir, TreeIndex, Marked;
    OkTree(s, {});
    forall y {:trigger s.tn[y]} | y in s.tn
      ensures s.tn[y].size != size
    {
      var h := HeadOf(s.m, s.tn, s.treemap, y);
      BelowRoot(s.m, s.tn, s.treemap, h);
    }
  }

  /** The tree node of a size, following the size's bits from the root; 0 if there is none. */
  method FindNode(s: State, size: nat) returns (t: int)
    requires Ok(s, {}) && IsLargeSize(size) && Marked(s.treemap, TreeIndex(size))
    ensures t != 0 ==> InTree(s.tn, t) && s.tn[t].size == size
    ensures t == 0 ==> forall y {:trigger s.tn[y]} :: y in s.tn ==> s.tn[y].size != size
  {
    hide Ok, TreeOk, Marked, Path, Dir, TreeIndex, OnWay, OpenSlot, IsLargeSize, SearchKey, Root, Child, ChunkSize, W;
    OkTree(s, {});
    ghost var i := TreeIndex(size);
    WayBegin(s.m, s.tn, s.treemap, size);
    t := Root(s.m, TreeIndex(size));
    SearchKeyStart(size, OpenBits(i));
    var sizebits := size * Pow2(LeftShift(TreeIndex(size))) % WORD;
    ghost var d := 0;
    while t != 0 && ChunkSize(W(s.m, t + HEAD)) != size
      invariant t != 0 ==> InTree(s.tn, t) && OnWay(s.tn, size, t) && s.tn[t].depth == d <= OpenBits(i) <= 64
      invariant t != 0 ==> sizebits == SearchKey(size, OpenBits(i) - d)
      invariant t == 0 ==> forall y {:trigger s.tn[y]} :: y in s.tn ==> s.tn[y].size != size
      decreases if t != 0 then 65 - d else 0
    {
      ChildDepth(s.m, s.tn, s.treemap, t);
      WayOn(s.m, s.tn, s.treemap, size, t);
      NextDirection(size, d);
      ghost var at := t;
      t := Child(s.m, t, sizebits / HALF_WORD % 2);
      sizebits := 2 * sizebits % WORD;
      if t == 0 {
        NoSuchNode(s, size, at);
      }
      d := d + 1;
    }
    if t != 0 {
      ChildDepth(s.m, s.tn, s.treemap, t);
    }
  }

  /** bin_find: looking a chunk up through the bin maps, links and search bits finds it exactly if it is binned. */
  method BinFind(s: State, x: int) returns (found: bool)
    requires Ok(s, {}) && x in s.ch && s.ch[x].size >= 32
    ensures found <==> x in s.sn || x in s.tn
  {
    hide Ok, TreeOk, Marked, TreeIndex, ChunkSize, W;
    ChunkTag(s, {}, x);
    BinsOf(s, x);
    var size := ChunkSize(W(s.m, x + HEAD));
    if size / 8 < 32 {
      if Marked(s.smallmap, SmallIndex(size)) {
        found := FindInList(s, size, x);
      } else {
        NoSuchList(s, size);
        found := false;
      }
    } else {
      if Marked(s.treemap, TreeIndex(size)) {
        var t := FindNode(s, size);
        if t != 0 {
          found := FindInRing(s, t, x);
          return;
        }
        return false;
      }
      NoSuchBin(s, size);
      found := false;
    }
  }

  lemma BinsOf(s: State, x: int)
    requires Ok(s, {}) && x in s.ch
    ensures x in s.sn ==> s.sn[x].size == s.ch[x].size && s.ch[x].size < MIN_LARGE_SIZE
    ensures x in s.tn ==> s.tn[x].size == s.ch[x].size && s.ch[x].size >= MIN_LARGE_SIZE
  {
    hide TreeOk, SmallOk, Framed;
    BinSets(s, {});
  }

  lemma NoSuchList(s: State, size: nat)
    requires Ok(s, {}) && !Marked(s.smallmap, SmallIndex(size))
    ensures forall y {:trigger s.sn[y]} :: y in s.sn ==> s.sn[y].size != size
  {
    hide TreeOk, Framed, Binned, Marked, HeaderOk, SmallApart;
    forall y {:trigger s.sn[y]} | y in s.sn
      ensures s.sn[y].size != size
    {
      assert SmallNodeOk(s.m, s.sn, s.smallmap, y);
    }
  }
  // ---------- The other checks ----------

  predicate IsInuse(head: int) { Cinuse(head) || !Pinuse(head) }

  /** next_chunk. */
  function NextChunk(m: seq<int>, p: int): int { p + ChunkSize(W(m, p + HEAD)) }

  /** do_check_inuse_chunk. */
  predicate CheckInuseChunk(m: seq<int>, p: int) {
    && p % 16 == 0
    && IsInuse(W(m, p + HEAD)) && Pinuse(W(m, NextChunk(m, p) + HEAD))
    && (Pinuse(W(m, p + HEAD)) || NextChunk(m, p - W(m, p)) == p)
  }

  /** do_check_free_chunk. */
  predicate CheckFreeChunk(s: State, p: int) {
    var m, size := s.m, ChunkSize(W(s.m, p + HEAD));
    var next := p + size;
    && p % 16 == 0
    && !IsInuse(W(m, p + HEAD)) && !Pinuse(W(m, next + HEAD))
    && (p != s.dv && p != s.top ==>
          && size >= 32 && size % 16 == 0
          && W(m, next) == size && Pinuse(W(m, p + HEAD))
          && (next == s.top || IsInuse(W(m, next + HEAD)))
          && W(m, W(m, p + FD) + BK) == p && W(m, W(m, p + BK) + FD) == p)
  }

  /** do_check_top_chunk, with its segment from base to segend. */
  predicate CheckTopChunk(s: State, segend: int) {
    var size := W(s.m, s.top + HEAD) - W(s.m, s.top + HEAD) % 4;
    && s.top % 16 == 0 && s.base <= s.top < segend
    && size == s.topsize > 0 && size == segend - s.top - TOP_FOOT_SIZE
    && Pinuse(W(s.m, s.top + HEAD)) && !Pinuse(W(s.m, s.top + size + HEAD))
  }

  lemma InuseChecks(s: State, p: int)
    requires Ok(s, {}) && Coalesced(s.ch) && p in s.ch && s.ch[p].inuse
    ensures CheckInuseChunk(s.m, p)
  {
    hide Ok, Coalesced, W, MergeLo, MergeHi, ChunkSize, Cinuse, Pinuse, PrevInuse;
    ChunkTag(s, {}, p);
    MergeRun(s, {}, p);
    var lo := MergeLo(s.ch, s.base, p);
    MergeBack(s, {}, p);
    ChunkTag(s, {}, lo);
  }

  lemma FreeChecks(s: State, p: int)
    requires Ok(s, {}) && Coalesced(s.ch) && p in s.ch && !s.ch[p].inuse && p != s.top
    ensures CheckFreeChunk(s, p)
  {
    hide Ok, Coalesced, W, ChunkSize, Cinuse, Pinuse, PrevInuse, HeadWord;
    ChunkTag(s, {}, p);
    TopIsLast(s, {}, p);
    FreeFoot(s, p);
    NeighboursInUse(s.ch, s.base, s.End(), p);
    ChunkTag(s, {}, p + s.ch[p].size);
    PrevOf(s.ch, s.base, s.End(), p);
    if p != s.dv {
      InSomeBin(s, {}, p);
      BinLinks(s, p);
    }
  }

  lemma FreeFoot(s: State, p: int)
    requires Ok(s, {}) && Coalesced(s.ch) && p in s.ch && !s.ch[p].inuse && p + s.ch[p].size != s.End()
    ensures Laid(s.ch, s.base, s.End()) && W(s.m, p + s.ch[p].size) == s.ch[p].size && s.ch[p].size >= 32
  {
    hide TreeOk, SmallOk, Binned, W, HeadWord, Coalesced, PrevInuse, Laid;
    assert TagOk(s.m, s.ch, s.base, s.End(), p);
    LoIsPlaced(s.ch, s.base, s.End(), p);
  }

  lemma BinLinks(s: State, p: int)
    requires Ok(s, {}) && (p in s.sn || p in s.tn)
    ensures W(s.m, W(s.m, p + FD) + BK) == p && W(s.m, W(s.m, p + BK) + FD) == p
  {
    hide Framed, Binned, W, UnderParent, OverChild, RootOk, PairOk, HeaderOk, SmallApart, Marked, TreeIndex;
    if p in s.sn {
      assert SmallNodeOk(s.m, s.sn, s.smallmap, p);
    } else {
      assert NodeOk(s.m, s.tn, p);
    }
  }

  lemma TopChecks(s: State)
    requires Ok(s, {}) && Coalesced(s.ch)
    ensures CheckTopChunk(s, |s.m|)
  {
    hide Ok, Coalesced, W;
    TopRun(s, {});
    FourFlags(s.topsize);
  }

  lemma FourFlags(size: int)
    requires size % 16 == 0
    ensures (size + 1) % 4 == 1 && Pinuse(size + 1) && !Pinuse(TOP_FOOT_SIZE)
  {
    var q := size / 4;
    assert size == 4 * q;
  }

  // ---------- traverse_and_check ----------

  /** The walk stands at chunk q, just after lastq. */
  ghost predicate Walked(s: State, q: int, lastq: int) {
    && q in s.ch
    && if q == s.base then lastq == 0 else lastq == s.ch[q].prev
  }

  lemma WalkStep(s: State, q: int, lastq: int)
    requires Ok(s, {}) && Coalesced(s.ch) && Walked(s, q, lastq) && q != s.top
    ensures var n := NextChunk(s.m, q); q < n && n == q + s.ch[q].size && Walked(s, n, q) && n <= s.top
    ensures IsInuse(W(s.m, q + HEAD)) == s.ch[q].inuse
    ensures lastq != 0 ==> lastq in s.ch && IsInuse(W(s.m, lastq + HEAD)) == s.ch[lastq].inuse
    ensures lastq != 0 && !s.ch[q].inuse ==> s.ch[lastq].inuse
    ensures s.ch[q].size >= 32 && s.base <= q
  {
    hide Ok, Coalesced, W, Pinuse, Cinuse, ChunkSize, HeadWord, PrevInuse, Laid;
    LaidOf(s, {});
    ChunkTag(s, {}, q);
    TopIsLast(s, {}, q);
    LoIsPlaced(s.ch, s.base, s.End(), q);
    var n := q + s.ch[q].size;
    TopIsLast(s, {}, n);
    FlagsOf(s, q);
    if lastq != 0 {
      PrevIsPlaced(s.ch, s.base, s.End(), q);
      TopIsLast(s, {}, lastq);
      FlagsOf(s, lastq);
      if !s.ch[q].inuse { NeighboursInUse(s.ch, s.base, s.End(), q); PrevInUse(s, q); }
    }
  }

  lemma PrevInUse(s: State, q: int)
    requires q in s.ch && PrevInuse(s.ch, s.base, q) && q != s.base
    ensures s.ch[q].prev in s.ch && s.ch[s.ch[q].prev].inuse
  {
  }

  /** is_inuse reads the flag right: a free chunk always has PINUSE set. */
  lemma FlagsOf(s: State, q: int)
    requires Ok(s, {}) && Coalesced(s.ch) && q in s.ch
    ensures IsInuse(W(s.m, q + HEAD)) == s.ch[q].inuse
  {
    hide Ok, Coalesced, W, Pinuse, Cinuse, ChunkSize, HeadWord, PrevInuse, Laid;
    ChunkTag(s, {}, q);
    LaidOf(s, {});
    if !s.ch[q].inuse { NeighboursInUse(s.ch, s.base, s.End(), q); }
  }

  /**
    traverse_and_check, walking the chunks through their head words alone: all checks pass,
    and the sizes add up to the whole segment.
   */
  method TraverseAndCheck(s: State, segsize: int) returns (sum: int, ok: bool)
    requires Ok(s, {}) && Coalesced(s.ch) && segsize == |s.m| - s.base
    ensures ok && sum == segsize
  {
    hide Ok, Coalesced, W, CheckInuseChunk, CheckFreeChunk, IsInuse, NextChunk, Pinuse;
    sum := s.topsize + TOP_FOOT_SIZE;
    var q, lastq := s.base, 0;
    WalkBegins(s);
    ok := Pinuse(W(s.m, q + HEAD));
    while s.base <= q < s.base + segsize && q != s.top
      invariant Walked(s, q, lastq) && s.base <= q <= s.top < s.base + segsize
      invariant ok && sum == s.topsize + TOP_FOOT_SIZE + (q - s.base)
      decreases s.top - q
    {
      WalkStep(s, q, lastq);
      sum := sum + ChunkSize(W(s.m, q + HEAD));
      ChunkTag(s, {}, q);
      var found := BinFind(s, q);
      BinnedIsFree(s, q);
      if IsInuse(W(s.m, q + HEAD)) {
        InuseChecks(s, q);
        ok := ok && !found && CheckInuseChunk(s.m, q);
      } else {
        FreeChecks(s, q);
        ok := ok && (q == s.dv || found) && (lastq == 0 || IsInuse(W(s.m, lastq + HEAD))) && CheckFreeChunk(s, q);
      }
      lastq := q;
      q := NextChunk(s.m, q);
    }
    EndOf(s);
  }

  lemma WalkBegins(s: State)
    requires Ok(s, {}) && Coalesced(s.ch)
    ensures Walked(s, s.base, 0) && Pinuse(W(s.m, s.base + HEAD)) && s.base <= s.top < |s.m|
    ensures |s.m| == s.top + s.topsize + TOP_FOOT_SIZE
  {
    hide TreeOk, SmallOk, W, Pinuse, HeadWord, Coalesced;
    ChunkTag(s, {}, s.base);
    TopIsLast(s, {}, s.base);
    TopRun(s, {});
  }

  lemma BinnedIsFree(s: State, q: int)
    requires Ok(s, {}) && q in s.ch
    ensures q in s.sn || q in s.tn ==> !s.ch[q].inuse
    ensures !s.ch[q].inuse && q != s.top && q != s.dv ==> q in s.sn || q in s.tn
  {
    hide TreeOk, SmallOk, Framed;
    BinSets(s, {});
    assert Somewhere(s, {}, q);
  }
}

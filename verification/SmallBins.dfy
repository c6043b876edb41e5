/**
  The small bins of dlmalloc.c: one circular list of equal-sized free chunks per bin, closed
  through a header inside malloc_state. When a bin is empty only its map bit says so: the
  links of the header keep whatever they held.
 */
module SmallBins {
  import opened BinMap
  import opened Memory

  const SMALL_BIN_COUNT := 32
  const MIN_CHUNK_SIZE := 32

  /** rank: how many fd steps the chunk is away from the header at most. */
  datatype Small = Small(size: nat, rank: nat)
  type Smalls = map<int, Small>

  /** small_index. */
  function SmallIndex(size: nat): nat { size / 8 }

  function Header(size: nat): int { SmallBinAt(SmallIndex(size)) }

  predicate IsSmallSize(size: int) { MIN_CHUNK_SIZE <= size < 256 && size % 16 == 0 }

  ghost predicate SmallPlaced(m: seq<int>, s: Smalls, p: int)
    requires p in s
  {
    && p % 16 == 0 && GM_END <= p && p + s[p].size <= |m|
    && IsSmallSize(s[p].size) && s[p].rank > 0
    && ChunkSize(W(m, p + HEAD)) == s[p].size
  }

  /** The list position of a link target: the header has rank 0. */
  ghost predicate InList(s: Smalls, size: nat, q: int) {
    q == Header(size) || (q in s && s[q].size == size)
  }

  ghost function RankOf(s: Smalls, size: nat, q: int): nat {
    if q in s && q != Header(size) then s[q].rank else 0
  }

  ghost predicate Listed(m: seq<int>, s: Smalls, p: int)
    requires p in s
  {
    var z, f, b := s[p].size, W(m, p + FD), W(m, p + BK);
    && InList(s, z, f) && W(m, f + BK) == p && RankOf(s, z, f) < s[p].rank
    && InList(s, z, b) && W(m, b + FD) == p
  }

  ghost predicate SmallNodeOk(m: seq<int>, s: Smalls, smallmap: binmap, p: int)
    requires p in s
  {
    SmallPlaced(m, s, p) && Listed(m, s, p) && Marked(smallmap, SmallIndex(s[p].size))
  }

  /** A marked bin is not empty: its header points at both ends of the list. */
  ghost predicate HeaderOk(m: seq<int>, s: Smalls, smallmap: binmap, i: nat) {
    var h := SmallBinAt(i);
    Marked(smallmap, i) ==>
      var f, b := W(m, h + FD), W(m, h + BK);
      && f in s && SmallIndex(s[f].size) == i && W(m, f + BK) == h
      && b in s && SmallIndex(s[b].size) == i && W(m, b + FD) == h
  }

  ghost predicate SmallApart(s: Smalls, p: int, q: int)
    requires p in s && q in s
  {
    p < q ==> p + s[p].size <= q
  }

  ghost predicate SmallOk(m: seq<int>, s: Smalls, smallmap: binmap) {
    && GM_END <= |m|
    && (forall p {:trigger SmallNodeOk(m, s, smallmap, p)} :: p in s ==> SmallNodeOk(m, s, smallmap, p))
    && (forall p, q {:trigger SmallApart(s, p, q)} :: p in s && q in s ==> SmallApart(s, p, q))
    && (forall i: nat {:trigger HeaderOk(m, s, smallmap, i)} :: i < SMALL_BIN_COUNT ==> HeaderOk(m, s, smallmap, i))
  }

  /** x is a free chunk in no small bin that overlaps none of their chunks. */
  ghost predicate SmallFresh(m: seq<int>, s: Smalls, x: int, size: nat) {
    && x !in s && x % 16 == 0 && GM_END <= x && x + size <= |m|
    && IsSmallSize(size) && ChunkSize(W(m, x + HEAD)) == size
    && forall p {:trigger s[p]} :: p in s ==> p + s[p].size <= x || x + size <= p
  }

  /** The links of p, except fd if p is B and bk if p is F. */
  ghost predicate LinksKept(m: seq<int>, m': seq<int>, p: int, B: int, F: int) {
    && (p != B ==> W(m', p + FD) == W(m, p + FD))
    && (p != F ==> W(m', p + BK) == W(m, p + BK))
  }

  /** Only the links of x, the fd link of B and the bk link of F are written. */
  ghost predicate LinksOnly(m: seq<int>, m': seq<int>, x: int, B: int, F: int) {
    && |m'| == |m|
    && forall k {:trigger W(m', k)} ::
         k != x + FD && k != x + BK && k != B + FD && k != F + BK ==> W(m', k) == W(m, k)
  }

  /** The same place, or no link in common. */
  predicate Spaced(p: int, q: int) { p == q || p + 16 <= q || q + 16 <= p }

  lemma SizeInRange(size: nat)
    requires IsSmallSize(size)
    ensures 4 <= SmallIndex(size) < SMALL_BIN_COUNT && size == 8 * SmallIndex(size)
    ensures Header(size) + 32 <= GM_END
  {
  }

  lemma SmallGaps(m: seq<int>, s: Smalls, sm: binmap, size: nat, p: int, q: int)
    requires SmallOk(m, s, sm) && p in s && IsSmallSize(size) && InList(s, size, q)
    ensures Spaced(p, q) && GM_END <= p && (q in s || q + 32 <= GM_END)
    ensures q in s && p != q ==> p + 32 <= q || q + 32 <= p
  {
    hide Marked, Listed, HeaderOk, ChunkSize;
    SizeInRange(size);
    assert SmallNodeOk(m, s, sm, p);
    if q in s {
      assert SmallNodeOk(m, s, sm, q);
      assert SmallApart(s, p, q) && SmallApart(s, q, p);
    }
  }

  /** What list surgery between B and F does to the other chunks and to the headers. */
  lemma SmallWords(m: seq<int>, s: Smalls, sm: binmap, size: nat, m': seq<int>, x: int, B: int, F: int)
    requires SmallOk(m, s, sm) && IsSmallSize(size)
    requires LinksOnly(m, m', x, B, F) && GM_END <= x
    requires InList(s, size, B) && InList(s, size, F)
    requires x in s ==> s[x].size == size
    requires x !in s ==> forall p {:trigger s[p]} :: p in s ==> p + s[p].size <= x || x + size <= p
    ensures forall p {:trigger s[p]} :: p in s && p != x ==>
              LinksKept(m, m', p, B, F) && W(m', p + HEAD) == W(m, p + HEAD)
    ensures forall i: nat {:trigger SmallBinAt(i)} :: i < SMALL_BIN_COUNT ==> LinksKept(m, m', SmallBinAt(i), B, F)
    ensures W(m', x + HEAD) == W(m, x + HEAD)
  {
    hide Marked, Listed, HeaderOk, ChunkSize, W;
    SizeInRange(size);
    if B in s { SmallGaps(m, s, sm, size, B, B); }
    if F in s { SmallGaps(m, s, sm, size, F, F); }
    if x in s && B in s { SmallGaps(m, s, sm, size, x, B); }
    if x in s && F in s { SmallGaps(m, s, sm, size, x, F); }
    forall p {:trigger s[p]} | p in s && p != x
      ensures LinksKept(m, m', p, B, F) && W(m', p + HEAD) == W(m, p + HEAD)
    {
      SmallGaps(m, s, sm, size, p, B);
      SmallGaps(m, s, sm, size, p, F);
      if x in s {
        SmallGaps(m, s, sm, size, p, x);
      } else {
        assert SmallNodeOk(m, s, sm, p);
      }
    }
    forall i: nat {:trigger SmallBinAt(i)} | i < SMALL_BIN_COUNT
      ensures LinksKept(m, m', SmallBinAt(i), B, F)
    {
    }
  }

  /** The node that insertion puts in front: the old first chunk, or the header of an empty bin. */
  function FrontOf(m: seq<int>, sm: binmap, size: nat): int {
    if Marked(sm, SmallIndex(size)) then W(m, Header(size) + FD) else Header(size)
  }

  /** insert_small_chunk. */
  lemma InsertSmall(m: seq<int>, s: Smalls, sm: binmap, x: int, size: nat, m': seq<int>)
    requires SmallOk(m, s, sm) && SmallFresh(m, s, x, size)
    requires var B, F := Header(size), FrontOf(m, sm, size);
             && LinksOnly(m, m', x, B, F)
             && W(m', B + FD) == x && W(m', F + BK) == x && W(m', x + FD) == F && W(m', x + BK) == B
    ensures var n := Small(size, RankOf(s, size, FrontOf(m, sm, size)) + 1);
            SmallOk(m', s[x := n], Mark(sm, SmallIndex(size)))
  {
    hide Marked, Mark, FrontOf, Header, SmallBinAt, W, HeaderOk, SmallNodeOk, SmallApart, Inserted;
    var F := FrontOf(m, sm, size);
    var s', sm' := s[x := Small(size, RankOf(s, size, F) + 1)], Mark(sm, SmallIndex(size));
    InsertSmallStart(m, s, sm, x, size, m');
    forall p {:trigger SmallNodeOk(m', s', sm', p)} | p in s'
      ensures SmallNodeOk(m', s', sm', p)
    {
      if p == x {
        InsertedNode(m, s, sm, x, size, m');
      } else {
        InsertSmallNode(m, s, sm, x, size, m', p);
      }
    }
    forall p, q {:trigger SmallApart(s', p, q)} | p in s' && q in s'
      ensures SmallApart(s', p, q)
    {
      InsertSmallApart(m, s, sm, x, size, p, q);
      assert s' == s[x := Small(size, RankOf(s, size, F) + 1)];
    }
    forall i: nat {:trigger HeaderOk(m', s', sm', i)} | i < SMALL_BIN_COUNT
      ensures HeaderOk(m', s', sm', i)
    {
      InsertSmallHeader(m, s, sm, x, size, m', i);
    }
  }

  lemma FrontIsInList(m: seq<int>, s: Smalls, sm: binmap, size: nat)
    requires SmallOk(m, s, sm) && IsSmallSize(size)
    ensures var F := FrontOf(m, sm, size);
            && InList(s, size, F) && InList(s, size, Header(size))
            && (Marked(sm, SmallIndex(size)) ==> F in s && W(m, F + BK) == Header(size))
            && (F in s ==> Marked(sm, SmallIndex(size)))
  {
    hide ChunkSize, Marked, Listed, IsSmallSize;
    SizeInRange(size);
    assert HeaderOk(m, s, sm, SmallIndex(size));
    var F := FrontOf(m, sm, size);
    if F in s {
      assert SmallNodeOk(m, s, sm, F);
      SizeInRange(s[F].size);
    }
  }

  /** The conditions under which the four stores of an insertion are made. */
  ghost predicate Inserted(m: seq<int>, s: Smalls, sm: binmap, x: int, size: nat, m': seq<int>) {
    var B, F := Header(size), FrontOf(m, sm, size);
    && SmallOk(m, s, sm) && SmallFresh(m, s, x, size)
    && |m'| == |m| && W(m', x + HEAD) == W(m, x + HEAD)
    && InList(s, size, F) && (Marked(sm, SmallIndex(size)) ==> F in s && W(m, F + BK) == B)
    && (F in s ==> Marked(sm, SmallIndex(size)))
    && W(m', B + FD) == x && W(m', F + BK) == x && W(m', x + FD) == F && W(m', x + BK) == B
    && (forall p {:trigger s[p]} :: p in s && p != x ==>
          LinksKept(m, m', p, B, F) && W(m', p + HEAD) == W(m, p + HEAD))
    && (forall i: nat {:trigger SmallBinAt(i)} :: i < SMALL_BIN_COUNT ==> LinksKept(m, m', SmallBinAt(i), B, F))
  }

  lemma InsertSmallStart(m: seq<int>, s: Smalls, sm: binmap, x: int, size: nat, m': seq<int>)
    requires SmallOk(m, s, sm) && SmallFresh(m, s, x, size)
    requires var B, F := Header(size), FrontOf(m, sm, size);
             && LinksOnly(m, m', x, B, F)
             && W(m', B + FD) == x && W(m', F + BK) == x && W(m', x + FD) == F && W(m', x + BK) == B
    ensures Inserted(m, s, sm, x, size, m')
  {
    hide Marked, FrontOf, Header, SmallBinAt, W, HeaderOk, SmallNodeOk, SmallApart, LinksKept;
    FrontIsInList(m, s, sm, size);
    SmallWords(m, s, sm, size, m', x, Header(size), FrontOf(m, sm, size));
  }

  lemma InsertedNode(m: seq<int>, s: Smalls, sm: binmap, x: int, size: nat, m': seq<int>)
    requires Inserted(m, s, sm, x, size, m')
    ensures var n := Small(size, RankOf(s, size, FrontOf(m, sm, size)) + 1);
            SmallNodeOk(m', s[x := n], Mark(sm, SmallIndex(size)), x)
  {
    hide ChunkSize, Marked, Mark, W, FrontOf, SmallOk, LinksKept;
    SizeInRange(size);
    MarkBin(sm, SmallIndex(size), SmallIndex(size));
  }

  lemma HeadersDiffer(size: nat, other: nat)
    requires IsSmallSize(size) && IsSmallSize(other)
    ensures Header(size) == Header(other) <==> size == other
    ensures Header(size) < GM_END
  {
  }

  lemma InsertSmallNode(m: seq<int>, s: Smalls, sm: binmap, x: int, size: nat, m': seq<int>, p: int)
    requires Inserted(m, s, sm, x, size, m') && p in s
    ensures var n := Small(size, RankOf(s, size, FrontOf(m, sm, size)) + 1);
            SmallNodeOk(m', s[x := n], Mark(sm, SmallIndex(size)), p)
  {
    hide ChunkSize, Marked, Mark, W, IsSmallSize, HeaderOk, SmallApart, SmallBinAt, SmallIndex;
    assert SmallNodeOk(m, s, sm, p);
    var z := s[p].size;
    SizeInRange(size);
    SizeInRange(z);
    MarkBin(sm, SmallIndex(size), SmallIndex(z));
    HeadersDiffer(z, size);
    var f, b := W(m, p + FD), W(m, p + BK);
    NodeAbove(m, s, sm, f);
    NodeAbove(m, s, sm, b);
    assert f != FrontOf(m, sm, size);
    assert p != FrontOf(m, sm, size) ==> b != Header(size);
  }

  lemma NodeAbove(m: seq<int>, s: Smalls, sm: binmap, p: int)
    requires SmallOk(m, s, sm)
    ensures p in s ==> GM_END <= p
  {
    hide Marked, Listed, HeaderOk, ChunkSize;
    assert p in s ==> SmallNodeOk(m, s, sm, p);
  }

  lemma InsertSmallApart(m: seq<int>, s: Smalls, sm: binmap, x: int, size: nat, p: int, q: int)
    requires SmallOk(m, s, sm) && SmallFresh(m, s, x, size)
    requires (p in s || p == x) && (q in s || q == x)
    ensures forall r: nat {:trigger Small(size, r)} :: SmallApart(s[x := Small(size, r)], p, q)
  {
    hide Marked, SmallNodeOk, HeaderOk, ChunkSize, W;
    if p in s && q in s {
      assert SmallApart(s, p, q);
    }
  }

  lemma InsertSmallHeader(m: seq<int>, s: Smalls, sm: binmap, x: int, size: nat, m': seq<int>, i: nat)
    requires Inserted(m, s, sm, x, size, m') && i < SMALL_BIN_COUNT
    ensures var n := Small(size, RankOf(s, size, FrontOf(m, sm, size)) + 1);
            HeaderOk(m', s[x := n], Mark(sm, SmallIndex(size)), i)
  {
    hide ChunkSize, Marked, Mark, W, IsSmallSize, SmallApart, SmallBinAt, SmallIndex, Listed, SmallPlaced, SmallNodeOk;
    SizeInRange(size);
    MarkBin(sm, SmallIndex(size), i);
    BinsDiffer(i, SmallIndex(size));
    assert HeaderOk(m, s, sm, i);
    var h := SmallBinAt(i);
    NodeAbove(m, s, sm, W(m, h + FD));
    NodeAbove(m, s, sm, W(m, h + BK));
    assert Header(size) == SmallBinAt(SmallIndex(size));
  }

  lemma BinsDiffer(i: nat, j: nat)
    requires i < SMALL_BIN_COUNT
    ensures SmallBinAt(i) == SmallBinAt(j) <==> i == j
    ensures SmallBinAt(i) < GM_END
  {
  }

  function SmallMinus(s: Smalls, x: int): Smalls { map p | p in s && p != x :: s[p] }

  // ---------- unlink_small_chunk and unlink_first_small_chunk ----------

  /** With equal neighbours the chunk is the only one of its bin: both neighbours are the header. */
  lemma OnlyInBin(m: seq<int>, s: Smalls, sm: binmap, x: int)
    requires SmallOk(m, s, sm) && x in s && W(m, x + FD) == W(m, x + BK)
    ensures W(m, x + FD) == Header(s[x].size)
    ensures forall p {:trigger s[p]} :: p in s && s[p].size == s[x].size ==> p == x
  {
    hide ChunkSize, Marked, W, IsSmallSize, HeaderOk, SmallApart, SmallBinAt, SmallIndex, Header, SmallPlaced;
    assert SmallNodeOk(m, s, sm, x);
    SizeOfSmall(m, s, sm, x);
    var f := W(m, x + FD);
    assert f in s ==> SmallNodeOk(m, s, sm, f);
    forall p {:trigger s[p]} | p in s && s[p].size == s[x].size
      ensures p == x
    {
      OneInBin(m, s, sm, x, p);
    }
  }

  lemma {:induction false} OneInBin(m: seq<int>, s: Smalls, sm: binmap, x: int, p: int)
    requires SmallOk(m, s, sm) && x in s && p in s && s[p].size == s[x].size
    requires W(m, x + FD) == W(m, x + BK) == Header(s[x].size)
    ensures p == x
    decreases s[p].rank
  {
    hide ChunkSize, Marked, W, HeaderOk, SmallApart;
    assert SmallNodeOk(m, s, sm, x) && SmallNodeOk(m, s, sm, p);
    SizeInRange(s[x].size);
    hide SmallBinAt, SmallIndex, IsSmallSize;
    var f := W(m, p + FD);
    if f in s && f != Header(s[x].size) {
      OneInBin(m, s, sm, x, f);
    }
  }

  /** The last chunk of a bin goes by clearing the bit alone. */
  lemma UnlinkOnly(m: seq<int>, s: Smalls, sm: binmap, x: int)
    requires SmallOk(m, s, sm) && x in s && W(m, x + FD) == W(m, x + BK)
    ensures SmallOk(m, SmallMinus(s, x), Clear(sm, SmallIndex(s[x].size)))
  {
    hide ChunkSize, Marked, Clear, W, SmallBinAt, SmallIndex, Header, RankOf;
    var i, s', sm' := SmallIndex(s[x].size), SmallMinus(s, x), Clear(sm, SmallIndex(s[x].size));
    OnlyInBin(m, s, sm, x);
    SizeOfSmall(m, s, sm, x);
    forall p {:trigger SmallNodeOk(m, s', sm', p)} | p in s'
      ensures SmallNodeOk(m, s', sm', p)
    {
      UnlinkOnlyNode(m, s, sm, x, p);
    }
    forall p, q {:trigger SmallApart(s', p, q)} | p in s' && q in s'
      ensures SmallApart(s', p, q)
    {
      assert SmallApart(s, p, q);
    }
    forall j: nat {:trigger HeaderOk(m, s', sm', j)} | j < SMALL_BIN_COUNT
      ensures HeaderOk(m, s', sm', j)
    {
      assert HeaderOk(m, s, sm, j);
      ClearBin(sm, i, j);
    }
  }

  lemma SizeOfSmall(m: seq<int>, s: Smalls, sm: binmap, p: int)
    requires SmallOk(m, s, sm) && p in s
    ensures IsSmallSize(s[p].size) && GM_END <= p && p + 32 <= |m|
    ensures SmallIndex(s[p].size) < SMALL_BIN_COUNT && s[p].size == 8 * SmallIndex(s[p].size)
    ensures Header(s[p].size) < GM_END
    ensures ChunkSize(W(m, p + HEAD)) == s[p].size && p % 16 == 0
  {
    hide Marked, Listed, HeaderOk;
    assert SmallNodeOk(m, s, sm, p);
  }

  lemma UnlinkOnlyNode(m: seq<int>, s: Smalls, sm: binmap, x: int, p: int)
    requires SmallOk(m, s, sm) && x in s && p in s && p != x && s[p].size != s[x].size
    ensures SmallNodeOk(m, SmallMinus(s, x), Clear(sm, SmallIndex(s[x].size)), p)
  {
    hide ChunkSize, Marked, Clear, W, HeaderOk, SmallApart, SmallBinAt, IsSmallSize, SmallIndex, Header;
    assert SmallNodeOk(m, s, sm, p);
    SizeOfSmall(m, s, sm, x);
    SizeOfSmall(m, s, sm, p);
    ClearBin(sm, SmallIndex(s[x].size), SmallIndex(s[p].size));
    NodeAbove(m, s, sm, W(m, p + FD));
  }

  /** Otherwise its neighbours are linked to each other. */
  lemma UnlinkSmall(m: seq<int>, s: Smalls, sm: binmap, x: int, m': seq<int>)
    requires SmallOk(m, s, sm) && x in s && W(m, x + FD) != W(m, x + BK)
    requires var F, B := W(m, x + FD), W(m, x + BK);
             LinksOnly(m, m', x, B, F) && W(m', F + BK) == B && W(m', B + FD) == F
    ensures SmallOk(m', SmallMinus(s, x), sm)
  {
    hide ChunkSize, Marked, W, SmallBinAt, SmallIndex, Header, RankOf, IsSmallSize, Listed, SmallPlaced;
    var s' := SmallMinus(s, x);
    var F, B := W(m, x + FD), W(m, x + BK);
    UnlinkWords(m, s, sm, x, m');
    forall p {:trigger SmallNodeOk(m', s', sm, p)} | p in s'
      ensures SmallNodeOk(m', s', sm, p)
    {
      assert SmallNodeOk(m, s, sm, p);
      UnlinkSmallNode(m, s, sm, x, m', p);
    }
    forall p, q {:trigger SmallApart(s', p, q)} | p in s' && q in s'
      ensures SmallApart(s', p, q)
    {
      assert SmallApart(s, p, q);
    }
    forall i: nat {:trigger HeaderOk(m', s', sm, i)} | i < SMALL_BIN_COUNT
      ensures HeaderOk(m', s', sm, i)
    {
      UnlinkSmallHeader(m, s, sm, x, m', i);
    }
  }

  /** The chunk has been cut out between B and F. */
  ghost predicate CutOut(m: seq<int>, s: Smalls, sm: binmap, x: int, m': seq<int>) {
    && SmallOk(m, s, sm) && x in s && |m'| == |m|
    && var F, B, z := W(m, x + FD), W(m, x + BK), s[x].size;
    && F != B && F != x && B != x
    && InList(s, z, F) && W(m, F + BK) == x && RankOf(s, z, F) < s[x].rank
    && InList(s, z, B) && W(m, B + FD) == x && (B in s ==> s[x].rank < s[B].rank)
    && W(m', F + BK) == B && W(m', B + FD) == F
    && (forall p {:trigger s[p]} :: p in s && p != x ==>
          LinksKept(m, m', p, B, F) && W(m', p + HEAD) == W(m, p + HEAD))
    && (forall i: nat {:trigger SmallBinAt(i)} :: i < SMALL_BIN_COUNT ==> LinksKept(m, m', SmallBinAt(i), B, F))
  }

  lemma UnlinkWords(m: seq<int>, s: Smalls, sm: binmap, x: int, m': seq<int>)
    requires SmallOk(m, s, sm) && x in s && W(m, x + FD) != W(m, x + BK)
    requires var F, B := W(m, x + FD), W(m, x + BK);
             LinksOnly(m, m', x, B, F) && W(m', F + BK) == B && W(m', B + FD) == F
    ensures CutOut(m, s, sm, x, m')
  {
    hide ChunkSize, Marked, W, SmallBinAt, IsSmallSize, SmallIndex, Header, HeaderOk, SmallApart, LinksKept;
    assert SmallNodeOk(m, s, sm, x);
    var F, B := W(m, x + FD), W(m, x + BK);
    SizeOfSmall(m, s, sm, x);
    NodeAbove(m, s, sm, B);
    assert B in s ==> SmallNodeOk(m, s, sm, B);
    SmallWords(m, s, sm, s[x].size, m', x, B, F);
  }

  lemma UnlinkSmallNode(m: seq<int>, s: Smalls, sm: binmap, x: int, m': seq<int>, p: int)
    requires CutOut(m, s, sm, x, m') && p in s && p != x
    ensures SmallNodeOk(m', SmallMinus(s, x), sm, p)
  {
    hide ChunkSize, Marked, W, HeaderOk, SmallApart, SmallBinAt, IsSmallSize, SmallIndex;
    assert SmallNodeOk(m, s, sm, p);
    var z := s[p].size;
    SizeOfSmall(m, s, sm, p);
    SizeOfSmall(m, s, sm, x);
    HeadersDiffer(z, s[x].size);
    NodeAbove(m, s, sm, W(m, p + FD));
    NodeAbove(m, s, sm, W(m, p + BK));
    NodeAbove(m, s, sm, W(m, x + FD));
    NodeAbove(m, s, sm, W(m, x + BK));
  }

  lemma UnlinkSmallHeader(m: seq<int>, s: Smalls, sm: binmap, x: int, m': seq<int>, i: nat)
    requires CutOut(m, s, sm, x, m') && i < SMALL_BIN_COUNT
    ensures HeaderOk(m', SmallMinus(s, x), sm, i)
  {
    hide ChunkSize, Marked, W, SmallApart, SmallBinAt, IsSmallSize, SmallIndex, SmallNodeOk;
    SizeOfSmall(m, s, sm, x);
    assert HeaderOk(m, s, sm, i);
    BinsDiffer(i, SmallIndex(s[x].size));
    NodeAbove(m, s, sm, W(m, SmallBinAt(i) + FD));
    NodeAbove(m, s, sm, W(m, SmallBinAt(i) + BK));
    NodeAbove(m, s, sm, W(m, x + FD));
    NodeAbove(m, s, sm, W(m, x + BK));
  }
}

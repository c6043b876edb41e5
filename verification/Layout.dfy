/**
  The chunks of the segment, as a map from chunk address to what lies there, and the
  boundary tags that memory must hold for them.
 */
module Layout {
  import opened Memory

  /** prev is the address of the chunk just below. */
  datatype Chunk = Chunk(size: nat, inuse: bool, prev: int)
  type Chunks = map<int, Chunk>

  /** The chunk at p and its neighbours fit together within [base, end). */
  ghost predicate ChunkOk(ch: Chunks, base: int, end: int, p: int)
    requires p in ch
  {
    var n := p + ch[p].size;
    && base <= p && p % 16 == 0 && ch[p].size % 16 == 0 && n <= end
    && ch[p].size >= (if n == end then 16 else 32)
    && (n != end ==> n in ch && ch[n].prev == p)
    && (p != base ==> ch[p].prev in ch && ch[p].prev + ch[ch[p].prev].size == p)
  }

  ghost predicate Apart(ch: Chunks, p: int, q: int)
    requires p in ch && q in ch
  {
    p < q ==> p + ch[p].size <= q
  }

  /** The chunks tile [base, end). */
  ghost predicate Laid(ch: Chunks, base: int, end: int) {
    && base in ch && GM_END <= base
    && (forall p {:trigger ChunkOk(ch, base, end, p)} :: p in ch ==> ChunkOk(ch, base, end, p))
    && (forall p, q {:trigger Apart(ch, p, q)} :: p in ch && q in ch ==> Apart(ch, p, q))
  }

  ghost predicate PrevInuse(ch: Chunks, base: int, p: int)
    requires p in ch
  {
    p == base || (ch[p].prev in ch && ch[ch[p].prev].inuse)
  }

  /** head and, for a free chunk below another chunk, foot. */
  ghost predicate TagOk(m: seq<int>, ch: Chunks, base: int, end: int, p: int)
    requires p in ch
  {
    var n := p + ch[p].size;
    && W(m, p + HEAD) == HeadWord(ch[p].size, ch[p].inuse, PrevInuse(ch, base, p))
    && (!ch[p].inuse && n != end ==> W(m, n) == ch[p].size)
  }

  ghost predicate Tagged(m: seq<int>, ch: Chunks, base: int, end: int) {
    && end <= |m|
    && forall p {:trigger TagOk(m, ch, base, end, p)} :: p in ch ==> TagOk(m, ch, base, end, p)
  }

  /** No two neighbouring chunks are both free. */
  ghost predicate Coalesced(ch: Chunks) {
    forall p {:trigger ch[p]} :: p in ch && !ch[p].inuse && p + ch[p].size in ch ==> ch[p + ch[p].size].inuse
  }

  // ---------- Splitting and merging ----------

  /** lo .. hi is a run of whole chunks. */
  ghost predicate Run(ch: Chunks, base: int, end: int, lo: int, mid: int, hi: int) {
    && Laid(ch, base, end)
    && lo in ch && (hi in ch || hi == end) && lo < mid <= hi
    && lo % 16 == 0 && mid % 16 == 0 && hi % 16 == 0
    && mid - lo >= 16 && (mid != end ==> mid - lo >= 32) && (mid < hi && hi != end ==> hi - mid >= 32)
  }

  /** The chunks of the run lo .. hi are replaced by lo .. mid and, if it is not empty, mid .. hi. */
  ghost function Carve(ch: Chunks, lo: int, mid: int, hi: int, u: bool, v: bool): Chunks
    requires lo in ch && lo < mid <= hi
  {
    var outer := map p | p in ch && (p <= lo || hi <= p) ::
      if p == lo then Chunk(mid - lo, u, ch[lo].prev)
      else if p == hi then Chunk(ch[hi].size, ch[hi].inuse, if mid < hi then mid else lo)
      else ch[p];
    if mid < hi then outer[mid := Chunk(hi - mid, v, lo)] else outer
  }

  lemma CarveLaid(ch: Chunks, base: int, end: int, lo: int, mid: int, hi: int, u: bool, v: bool)
    requires Run(ch, base, end, lo, mid, hi)
    ensures Laid(Carve(ch, lo, mid, hi, u, v), base, end)
  {
    hide ChunkOk, Apart;
    var c := Carve(ch, lo, mid, hi, u, v);
    LoIsPlaced(ch, base, end, lo);
    forall p {:trigger ChunkOk(c, base, end, p)} | p in c
      ensures ChunkOk(c, base, end, p)
    {
      CarveChunk(ch, base, end, lo, mid, hi, u, v, p);
    }
    forall p, q {:trigger Apart(c, p, q)} | p in c && q in c
      ensures Apart(c, p, q)
    {
      CarveApart(ch, base, end, lo, mid, hi, u, v, p, q);
    }
  }

  lemma LoIsPlaced(ch: Chunks, base: int, end: int, p: int)
    requires Laid(ch, base, end) && p in ch
    ensures base <= p < p + ch[p].size <= end && p % 16 == 0 && ch[p].size % 16 == 0 && ch[p].size >= 16
    ensures p + ch[p].size == end || (p + ch[p].size in ch && ch[p + ch[p].size].prev == p && ch[p].size >= 32)
  {
    hide Apart;
    assert ChunkOk(ch, base, end, p);
  }

  lemma CarveChunk(ch: Chunks, base: int, end: int, lo: int, mid: int, hi: int, u: bool, v: bool, p: int)
    requires Run(ch, base, end, lo, mid, hi) && p in Carve(ch, lo, mid, hi, u, v)
    ensures ChunkOk(Carve(ch, lo, mid, hi, u, v), base, end, p)
  {
    hide ChunkOk;
    if p == lo || (p == mid && mid < hi) {
      CarveInner(ch, base, end, lo, mid, hi, u, v);
    } else if p < lo {
      CarveBefore(ch, base, end, lo, mid, hi, u, v, p);
    } else {
      CarveAfter(ch, base, end, lo, mid, hi, u, v, p);
    }
  }

  lemma PrevIsPlaced(ch: Chunks, base: int, end: int, p: int)
    requires Laid(ch, base, end) && p in ch && p != base
    ensures var q := ch[p].prev; q in ch && base <= q < p && q + ch[q].size == p
  {
    hide Apart;
    assert ChunkOk(ch, base, end, p);
    LoIsPlaced(ch, base, end, ch[p].prev);
  }

  lemma Aligned(a: int, b: int)
    requires a % 16 == 0 && b % 16 == 0
    ensures (a - b) % 16 == 0 && (a + b) % 16 == 0
  {
  }

  lemma CarveInner(ch: Chunks, base: int, end: int, lo: int, mid: int, hi: int, u: bool, v: bool)
    requires Run(ch, base, end, lo, mid, hi)
    ensures ChunkOk(Carve(ch, lo, mid, hi, u, v), base, end, lo)
    ensures mid < hi ==> ChunkOk(Carve(ch, lo, mid, hi, u, v), base, end, mid)
  {
    hide Apart, Carve;
    LoIsPlaced(ch, base, end, lo);
    Aligned(mid, lo);
    if lo != base { PrevIsPlaced(ch, base, end, lo); }
    if hi in ch { LoIsPlaced(ch, base, end, hi); }
    CarveOutside(ch, lo, mid, hi, u, v);
    if mid < hi {
      InnerUpper(ch, base, end, lo, mid, hi, u, v);
    }
  }

  lemma InnerUpper(ch: Chunks, base: int, end: int, lo: int, mid: int, hi: int, u: bool, v: bool)
    requires Run(ch, base, end, lo, mid, hi) && mid < hi
    ensures ChunkOk(Carve(ch, lo, mid, hi, u, v), base, end, mid)
  {
    hide Apart, Carve;
    LoIsPlaced(ch, base, end, lo);
    Aligned(hi, mid);
    if hi in ch { LoIsPlaced(ch, base, end, hi); }
    CarveOutside(ch, lo, mid, hi, u, v);
  }

  lemma CarveBefore(ch: Chunks, base: int, end: int, lo: int, mid: int, hi: int, u: bool, v: bool, p: int)
    requires Run(ch, base, end, lo, mid, hi) && p in ch && p < lo
    ensures ChunkOk(Carve(ch, lo, mid, hi, u, v), base, end, p)
  {
    assert ChunkOk(ch, base, end, p);
    assert p != base ==> ChunkOk(ch, base, end, ch[p].prev);
    LoIsPlaced(ch, base, end, lo);
    assert Apart(ch, p, lo);
    hide Apart, Carve;
    CarveOutside(ch, lo, mid, hi, u, v);
  }

  lemma CarveAfter(ch: Chunks, base: int, end: int, lo: int, mid: int, hi: int, u: bool, v: bool, p: int)
    requires Run(ch, base, end, lo, mid, hi) && p in ch && hi <= p
    ensures ChunkOk(Carve(ch, lo, mid, hi, u, v), base, end, p)
  {
    assert ChunkOk(ch, base, end, p);
    var q := ch[p].prev;
    assert p != base ==> ChunkOk(ch, base, end, q);
    LoIsPlaced(ch, base, end, lo);
    if p > hi {
      assert p + ch[p].size <= end;
      assert hi in ch ==> Apart(ch, q, hi);
    }
    hide Apart, Carve;
    CarveOutside(ch, lo, mid, hi, u, v);
  }

  /** What carving keeps, and what it writes. */
  lemma CarveOutside(ch: Chunks, lo: int, mid: int, hi: int, u: bool, v: bool)
    requires lo in ch && lo < mid <= hi
    ensures var c := Carve(ch, lo, mid, hi, u, v);
            && (forall q {:trigger c[q]} {:trigger ch[q]} :: q in ch && (q < lo || hi < q) ==> q in c && c[q] == ch[q])
            && (forall q {:trigger c[q]} :: q in c ==> q in ch || q == mid)
            && lo in c && c[lo] == Chunk(mid - lo, u, ch[lo].prev)
            && (mid < hi ==> mid in c && c[mid] == Chunk(hi - mid, v, lo))
            && (hi in ch ==> hi in c && c[hi] == Chunk(ch[hi].size, ch[hi].inuse, if mid < hi then mid else lo))
            && (hi !in ch && mid == hi ==> hi !in c)
            && forall q {:trigger c[q]} :: q in c && lo < q < hi ==> q == mid
  {
  }

  lemma CarveApart(ch: Chunks, base: int, end: int, lo: int, mid: int, hi: int, u: bool, v: bool, p: int, q: int)
    requires Run(ch, base, end, lo, mid, hi)
    requires p in Carve(ch, lo, mid, hi, u, v) && q in Carve(ch, lo, mid, hi, u, v)
    ensures Apart(Carve(ch, lo, mid, hi, u, v), p, q)
  {
    hide ChunkOk;
    if p in ch {
      assert Apart(ch, p, lo);
      if q in ch { assert Apart(ch, p, q); }
    }
  }

  // ---------- Tags ----------

  /** The tags of the new chunks are in place and the tags of the others are as before. */
  ghost predicate Retagged(m: seq<int>, ch: Chunks, base: int, end: int, lo: int, mid: int, hi: int, u: bool, v: bool, m': seq<int>)
    requires lo in ch
  {
    && end <= |m'|
    && W(m', lo + HEAD) == HeadWord(mid - lo, u, PrevInuse(ch, base, lo))
    && (mid < hi ==> W(m', mid + HEAD) == HeadWord(hi - mid, v, u))
    && (hi in ch ==> W(m', hi + HEAD) == HeadWord(ch[hi].size, ch[hi].inuse, if mid < hi then v else u))
    && (!u && mid != end ==> W(m', mid) == mid - lo)
    && (mid < hi && !v && hi != end ==> W(m', hi) == hi - mid)
    && (forall q {:trigger ch[q]} :: q in ch && (q < lo || hi < q) ==> W(m', q + HEAD) == W(m, q + HEAD))
    && (forall q {:trigger ch[q]} :: q in ch && (q < lo || hi <= q) && !ch[q].inuse && q + ch[q].size != end ==>
          W(m', q + ch[q].size) == W(m, q + ch[q].size))
  }

  lemma CarveTags(m: seq<int>, ch: Chunks, base: int, end: int, lo: int, mid: int, hi: int, u: bool, v: bool, m': seq<int>)
    requires Run(ch, base, end, lo, mid, hi) && Tagged(m, ch, base, end)
    requires Retagged(m, ch, base, end, lo, mid, hi, u, v, m')
    ensures Tagged(m', Carve(ch, lo, mid, hi, u, v), base, end)
  {
    hide Carve, W, HeadWord, ChunkOk, Apart, Run, Retagged, TagOk;
    RunBounds(ch, base, end, lo, mid, hi);
    var c := Carve(ch, lo, mid, hi, u, v);
    CarveOutside(ch, lo, mid, hi, u, v);
    assert end <= |m'| by { RetaggedLength(m, ch, base, end, lo, mid, hi, u, v, m'); }
    forall p {:trigger TagOk(m', c, base, end, p)} | p in c
      ensures TagOk(m', c, base, end, p)
    {
      if p in ch && (p < lo || hi < p) {
        TagOutside(m, ch, base, end, lo, mid, hi, u, v, m', p);
      } else {
        TagInside(m, ch, base, end, lo, mid, hi, u, v, m', p);
      }
    }
  }

  lemma RetaggedLength(m: seq<int>, ch: Chunks, base: int, end: int, lo: int, mid: int, hi: int, u: bool, v: bool, m': seq<int>)
    requires lo in ch && Retagged(m, ch, base, end, lo, mid, hi, u, v, m')
    ensures end <= |m'|
  {
  }

  lemma RunBounds(ch: Chunks, base: int, end: int, lo: int, mid: int, hi: int)
    requires Run(ch, base, end, lo, mid, hi)
    ensures lo in ch && lo < mid <= hi && (hi in ch || hi == end) && base <= lo && hi <= end
    ensures hi in ch ==> hi < end
  {
    LoIsPlaced(ch, base, end, lo);
    if hi in ch { LoIsPlaced(ch, base, end, hi); }
  }

  lemma TagOutside(m: seq<int>, ch: Chunks, base: int, end: int, lo: int, mid: int, hi: int, u: bool, v: bool, m': seq<int>, p: int)
    requires Run(ch, base, end, lo, mid, hi) && Tagged(m, ch, base, end)
    requires Retagged(m, ch, base, end, lo, mid, hi, u, v, m')
    requires p in ch && (p < lo || hi < p)
    ensures p in Carve(ch, lo, mid, hi, u, v)
    ensures TagOk(m', Carve(ch, lo, mid, hi, u, v), base, end, p)
  {
    hide Carve, W, HeadWord, ChunkOk;
    assert TagOk(m, ch, base, end, p);
    CarveOutside(ch, lo, mid, hi, u, v);
    if p != base {
      PrevIsPlaced(ch, base, end, p);
      var q := ch[p].prev;
      if hi < p && q < hi {
        assert hi in ch ==> Apart(ch, q, hi);
        LoIsPlaced(ch, base, end, p);
        RunBounds(ch, base, end, lo, mid, hi);
      }
    }
  }

  lemma TagInside(m: seq<int>, ch: Chunks, base: int, end: int, lo: int, mid: int, hi: int, u: bool, v: bool, m': seq<int>, p: int)
    requires Run(ch, base, end, lo, mid, hi) && Tagged(m, ch, base, end)
    requires Retagged(m, ch, base, end, lo, mid, hi, u, v, m')
    requires p in Carve(ch, lo, mid, hi, u, v) && (p == lo || (p == mid && mid < hi) || (p == hi && hi in ch))
    ensures TagOk(m', Carve(ch, lo, mid, hi, u, v), base, end, p)
  {
    hide Carve, W, HeadWord, ChunkOk, Apart;
    CarveOutside(ch, lo, mid, hi, u, v);
    LoIsPlaced(ch, base, end, lo);
    if lo != base { PrevIsPlaced(ch, base, end, lo); }
    if hi in ch {
      LoIsPlaced(ch, base, end, hi);
      assert TagOk(m, ch, base, end, hi);
    }
  }
}

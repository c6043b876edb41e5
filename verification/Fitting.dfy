/**
  Which free chunk dlmalloc picks, and why it turns to the system only when nothing fits.
 */
module Fitting {
  import opened Words
  import opened BinIndex
  import opened BinMap
  import opened Memory
  import opened TreeBins
  import opened TreeSearch
  import opened SmallBins
  import opened Heap
  import opened BinStores
  import opened ChunkMoves
  import opened Requests

  /** The chunk size dlmalloc looks for; requests too large for any chunk ask for the largest word. */
  function RequestSize(bytes: nat): nat {
    if bytes < MAX_REQUEST then Padded(bytes) else WORD - 1
  }

  /** Before the first request there are no chunks. */
  ghost predicate Empty(s: State) {
    && s.ch == map[] && s.sn == map[] && s.tn == map[] && s.smallmap == 0 && s.treemap == 0
    && s.dv == 0 && s.dvsize == 0 && s.topsize == 0 && s.top == 0
  }

  ghost predicate Sound(s: State) { Empty(s) || Ok(s, {}) }

  /** No chunk of a bin has room for nb bytes. */
  ghost predicate BinsTooSmall(s: State, nb: nat) {
    forall q {:trigger s.ch[q]} :: q in s.ch && !s.ch[q].inuse && q != s.top && q != s.dv ==> s.ch[q].size < nb
  }

  /** If anything but top fits at all, the designated victim fits best. */
  ghost predicate DvIsBest(s: State, nb: nat) {
    forall q {:trigger s.ch[q]} :: q in s.ch && !s.ch[q].inuse && q != s.top && nb <= s.ch[q].size ==>
      nb <= s.dvsize <= s.ch[q].size
  }

  /** The first marked bin from the one of nb on holds the smallest small chunks that fit. */
  lemma SmallFirst(s: State, nb: nat, i: nat)
    requires Sound(s) && IsSmallSize(nb) && SmallIndex(nb) <= i < 32 && Marked(s.smallmap, i)
    requires forall j: nat {:trigger Marked(s.smallmap, j)} :: SmallIndex(nb) <= j < i ==> !Marked(s.smallmap, j)
    ensures Ok(s, {}) && !Empty(s) && nb <= 8 * i
    ensures forall q {:trigger s.sn[q]} :: q in s.sn && nb <= s.sn[q].size ==> 8 * i <= s.sn[q].size
  {
    hide TreeOk, Framed, Binned, HeaderOk, SmallApart, Listed, Marked;
    ZeroMap(s.smallmap);
    SizeInRange(nb);
    forall q {:trigger s.sn[q]} | q in s.sn && nb <= s.sn[q].size ensures 8 * i <= s.sn[q].size {
      assert SmallNodeOk(s.m, s.sn, s.smallmap, q);
      SizeOfSmall(s.m, s.sn, s.smallmap, q);
      SizeInRange(s.sn[q].size);
    }
  }

  // ---------- Where a request is served from ----------

  /** The small bins hold a chunk of exactly the size asked for. */
  ghost predicate HasExact(s: State, nb: nat) { exists q {:trigger s.sn[q]} :: q in s.sn && s.sn[q].size == nb }

  /** v is a least chunk of the small bins that fits. */
  ghost predicate LeastSmall(s: State, nb: nat, v: int) {
    v in s.sn && nb <= s.sn[v].size && forall q {:trigger s.sn[q]} :: q in s.sn && nb <= s.sn[q].size ==> s.sn[v].size <= s.sn[q].size
  }

  /** v is a least chunk of the trees that fits. */
  ghost predicate LeastTree(s: State, nb: nat, v: int) {
    v in s.tn && nb <= s.tn[v].size && forall q {:trigger s.tn[q]} :: q in s.tn && nb <= s.tn[q].size ==> s.tn[v].size <= s.tn[q].size
  }

  /** Without a chunk of a bin: the designated victim if it is large enough, else top, which may have to grow first. */
  ghost predicate FromRest(s: State, nb: nat, v: int) { if nb <= s.dvsize then v == s.dv else s.top != 0 ==> v == s.top }

  /**
    A small request is served by a chunk of its own size in the small bins, else by the designated
    victim, else by a least chunk of the later small bins, else of the trees, else by top.
   */
  ghost predicate ServedSmall(s: State, nb: nat, v: int) {
    if HasExact(s, nb) then v in s.sn && s.sn[v].size == nb && FirstInBin(s, v)
    else if nb <= s.dvsize then v == s.dv
    else if !NoSmallChunk(s, nb) then LeastSmall(s, nb, v) && FirstInBin(s, v)
    else if s.tn != map[] then LeastTree(s, nb, v)
    else FromRest(s, nb, v)
  }

  /** A tree chunk fits, and more tightly than the designated victim. */
  ghost predicate TreeIsTighter(s: State, nb: nat) {
    exists q {:trigger s.tn[q]} :: q in s.tn && nb <= s.tn[q].size && (s.dvsize < nb || s.tn[q].size < s.dvsize)
  }

  /** A large request is served by a least chunk of the trees if that is tighter than the victim, else by the victim, else by top. */
  ghost predicate ServedLarge(s: State, nb: nat, v: int) {
    if TreeIsTighter(s, nb) then LeastTree(s, nb, v) else FromRest(s, nb, v)
  }

  ghost predicate Served(s: State, bytes: nat, v: int) {
    if bytes <= MAX_SMALL_REQUEST then ServedSmall(s, RequestSize(bytes), v) else ServedLarge(s, RequestSize(bytes), v)
  }

  /** What the bins of a small request have to say when they serve nothing. */
  ghost predicate NotInBins(s: State, nb: nat) { !HasExact(s, nb) && (s.dvsize < nb ==> NoSmallChunk(s, nb) && s.tn == map[]) }

  /** The smallest of the two bins that are looked at first holds chunks of size nb, and the other one none: sizes are multiples of 16. */
  lemma ExactServes(s: State, nb: nat, i: nat, v: int)
    requires Ok(s, {}) && IsSmallSize(nb) && v in s.sn && s.sn[v].size == 8 * i && (i == SmallIndex(nb) || i == SmallIndex(nb) + 1)
    requires FirstInBin(s, v)
    ensures s.sn[v].size == nb && ServedSmall(s, nb, v)
  {
    hide TreeOk, Framed, Binned, HeaderOk, SmallApart, Listed, Marked;
    SizeOfSmall(s.m, s.sn, s.smallmap, v);
    SizeInRange(nb);
    assert HasExact(s, nb);
  }

  /** An unmarked bin holds no chunk. */
  lemma NoExact(s: State, nb: nat)
    requires Sound(s) && IsSmallSize(nb) && !Marked(s.smallmap, SmallIndex(nb))
    ensures !HasExact(s, nb)
  {
    hide TreeOk, Framed, Binned, HeaderOk, SmallApart, Listed, Marked;
    forall q {:trigger s.sn[q]} | q in s.sn ensures s.sn[q].size != nb {
      assert SmallNodeOk(s.m, s.sn, s.smallmap, q);
    }
  }

  /** The second of the two bins is always empty: bins are 8 bytes apart, sizes 16. */
  lemma NextBinIsEmpty(s: State, nb: nat)
    requires Ok(s, {}) && IsSmallSize(nb) && SmallIndex(nb) + 1 < 32
    ensures !Marked(s.smallmap, SmallIndex(nb) + 1)
  {
    hide TreeOk, Framed, Binned, SmallApart, Listed, Marked;
    var i := SmallIndex(nb) + 1;
    SizeInRange(nb);
    if Marked(s.smallmap, i) {
      assert HeaderOk(s.m, s.sn, s.smallmap, i);
      var f := W(s.m, SmallBinAt(i) + FD);
      SizeOfSmall(s.m, s.sn, s.smallmap, f);
    }
  }

  /**
    A chunk of the small bins that would leave no remainder, of nb or nb + 16 bytes, is used
    exactly if there is one of nb bytes, or the designated victim is too small.
   */
  lemma RemainderlessIff(s: State, nb: nat, q: int, v: int)
    requires Ok(s, {}) && IsSmallSize(nb) && q in s.sn && nb <= s.sn[q].size < nb + MIN_CHUNK_SIZE && ServedSmall(s, nb, v)
    ensures v in s.sn && nb <= s.sn[v].size < nb + MIN_CHUNK_SIZE <==> HasExact(s, nb) || s.dvsize < nb
  {
    hide Ok;
    if nb <= s.dvsize {
      NoDv(s, {});
      if s.dv in s.sn { NotTopOrDv(s, s.dv); }
    }
  }

  lemma LaterServes(s: State, nb: nat, v: int)
    requires !HasExact(s, nb) && s.dvsize < nb && LeastSmall(s, nb, v) && FirstInBin(s, v)
    ensures ServedSmall(s, nb, v)
  {
  }

  lemma TreeServes(s: State, nb: nat, v: int)
    requires NoSmallChunk(s, nb) && s.dvsize < nb && v in s.tn && v != 0 && IsBest(s.tn, nb, v)
    ensures ServedSmall(s, nb, v) && LeastTree(s, nb, v)
  {
  }

  lemma RestServes(s: State, nb: nat, v: int)
    requires NotInBins(s, nb) && FromRest(s, nb, v)
    ensures ServedSmall(s, nb, v)
  {
  }

  lemma NothingInBins(s: State, nb: nat)
    requires Sound(s) && IsSmallSize(nb) && s.treemap == 0
    requires forall j: nat {:trigger Marked(s.smallmap, j)} :: SmallIndex(nb) <= j < 32 ==> !Marked(s.smallmap, j)
    ensures NotInBins(s, nb)
  {
    hide Ok, Marked;
    NoExact(s, nb);
    if !Empty(s) {
      NoSmallFits(s, nb);
      NoTree(s);
    }
  }

  /** No tree chunk is tighter than the victim. */
  ghost predicate DvTighter(s: State, nb: nat) {
    forall y {:trigger s.tn[y]} :: y in s.tn && nb <= s.tn[y].size ==> nb <= s.dvsize <= s.tn[y].size
  }

  lemma LargeServes(s: State, nb: nat, v: int)
    requires v in s.tn && v != 0 && IsBest(s.tn, nb, v) && (s.dvsize < nb || s.tn[v].size < s.dvsize)
    ensures ServedLarge(s, nb, v)
  {
    assert TreeIsTighter(s, nb);
  }

  lemma LargeRest(s: State, nb: nat, v: int)
    requires DvTighter(s, nb) && FromRest(s, nb, v)
    ensures ServedLarge(s, nb, v)
  {
  }

  /**
    What is left of the chunk that served a small request becomes the designated victim if it is
    32 bytes or more; top keeps its own rest.
   */
  ghost predicate RestIsDv(s: State, s': State, nb: nat, v: int) {
    v in s.ch && v != s.top ==>
      if s.ch[v].size >= nb + MIN_CHUNK_SIZE then s'.dv == v + nb && s'.dvsize == s.ch[v].size - nb
      else if v == s.dv then s'.dv == 0 && s'.dvsize == 0
      else s'.dv == s.dv && s'.dvsize == s.dvsize
  }

  lemma LaterChunk(s: State, nb: nat, i: nat, v: int)
    requires Ok(s, {}) && IsSmallSize(nb) && !Marked(s.smallmap, SmallIndex(nb)) && s.dvsize < nb
    requires v in s.sn && s.sn[v].size == 8 * i && nb <= 8 * i && FirstInBin(s, v)
    requires forall q {:trigger s.sn[q]} :: q in s.sn && nb <= s.sn[q].size ==> 8 * i <= s.sn[q].size
    ensures ServedSmall(s, nb, v) && v in s.ch && s.ch[v].size == 8 * i && v != s.top && v != s.dv
  {
    hide Ok, Marked, FirstInBin;
    NoExact(s, nb);
    SmallChunk(s, {}, v);
    NotTopOrDv(s, v);
    LaterServes(s, nb, v);
  }

  /** A binned chunk is neither top nor the designated victim. */
  lemma NotTopOrDv(s: State, v: int)
    requires Ok(s, {}) && (v in s.sn || v in s.tn)
    ensures v != s.top && v != s.dv
  {
    hide TreeOk, SmallOk, Framed;
    assert v in s.sn ==> InSmall(s, v);
    assert v in s.tn ==> InLarge(s, v);
  }

  lemma NoTreeAtAll(s: State)
    requires Sound(s)
    ensures s.treemap == 0 ==> s.tn == map[]
  {
    hide Ok;
    if s.treemap == 0 && !Empty(s) {
      NoTree(s);
    }
  }

  /** Whatever the rest of dlmalloc picks is what the bins leave to it. */
  lemma RestAnswer(s: State, bytes: nat, nb: nat)
    requires nb == RequestSize(bytes)
    requires if bytes <= MAX_SMALL_REQUEST then NotInBins(s, nb) else bytes < MAX_REQUEST ==> DvTighter(s, nb)
    ensures bytes < MAX_REQUEST ==> forall v {:trigger FromRest(s, nb, v)} :: FromRest(s, nb, v) ==> Served(s, bytes, v)
  {
    hide NotInBins, FromRest, ServedSmall, ServedLarge, DvTighter;
    forall v | FromRest(s, nb, v) && bytes < MAX_REQUEST ensures Served(s, bytes, v) {
      if bytes <= MAX_SMALL_REQUEST { RestServes(s, nb, v); } else { LargeRest(s, nb, v); }
    }
  }

  lemma TreesAreOk(s: State)
    requires Sound(s) && s.treemap != 0
    ensures Ok(s, {})
  {
  }

  lemma NoneSmall(s: State, nb: nat)
    requires Sound(s) && IsSmallSize(nb) && s.treemap == 0
    requires forall j: nat {:trigger Marked(s.smallmap, j)} :: SmallIndex(nb) <= j < 32 ==> !Marked(s.smallmap, j)
    ensures BinsTooSmall(s, nb)
  {
    hide Ok, Marked;
    if !Empty(s) {
      NoSmallFits(s, nb);
      NoTree(s);
      forall q {:trigger s.ch[q]} | q in s.ch && !s.ch[q].inuse && q != s.top && q != s.dv ensures s.ch[q].size < nb {
        FreeChunk(s, q);
      }
    }
  }

  lemma NoneLarge(s: State, nb: nat)
    requires Sound(s) && nb >= MIN_LARGE_SIZE
    requires s.treemap != 0 ==>
               forall y {:trigger s.tn[y]} :: y in s.tn && nb <= s.tn[y].size ==> nb <= s.dvsize <= s.tn[y].size
    ensures DvIsBest(s, nb) && (s.dvsize < nb ==> BinsTooSmall(s, nb))
  {
    hide TreeOk, SmallOk, Framed, Marked;
    if !Empty(s) {
      BinSets(s, {});
      if s.treemap == 0 { NoTree(s); }
      forall q {:trigger s.ch[q]} | q in s.ch && !s.ch[q].inuse && q != s.top && nb <= s.ch[q].size
        ensures nb <= s.dvsize <= s.ch[q].size
      {
        FreeChunk(s, q);
        assert q in s.tn ==> s.tn[q].size == s.ch[q].size;
      }
    }
  }

  /** No chunk is as large as the largest word. */
  lemma NoneHuge(s: State)
    requires Sound(s)
    ensures DvIsBest(s, WORD - 1) && BinsTooSmall(s, WORD - 1) && 0 <= s.dvsize < WORD - 1 && 0 <= s.topsize < WORD - 1
  {
    hide TreeOk, SmallOk, Framed;
    if !Empty(s) {
      forall q {:trigger s.ch[q]} | q in s.ch ensures s.ch[q].size < WORD - 1 {
        ChunkTag(s, {}, q);
      }
      NoDv(s, {});
      assert IsFree(s.ch, s.top);
    }
  }

  lemma DvAnswer(s: State, nb: nat)
    requires Ok(s, {}) && DvIsBest(s, nb) && nb <= s.dvsize && nb > 0
    ensures BestFit(s, nb, s.dv)
  {
    hide Ok;
    NoDv(s, {});
    DvLoose(s, {});
  }

  lemma DvLooseSize(s: State)
    requires Ok(s, {})
    ensures s.dv in s.ch ==> s.ch[s.dv].size == s.dvsize
  {
    hide Ok;
    NullIsNoChunk(s, {});
    if s.dv != 0 { DvLoose(s, {}); }
  }

  lemma TopAnswer(s: State, nb: nat)
    requires Sound(s) && BinsTooSmall(s, nb) && s.dvsize < nb
    ensures BestFit(s, nb, s.top)
    ensures s.topsize <= nb ==> NothingFits(s, nb)
  {
    hide TreeOk, SmallOk, Framed;
    if !Empty(s) {
      forall q {:trigger s.ch[q]} | q in s.ch && !s.ch[q].inuse && q != s.top ensures s.ch[q].size < nb {
        DvLooseSize(s);
      }
    }
  }

  /** A chunk that fits best in the trees is in no small bin. */
  lemma TreeIsNotSmall(s: State, v: int)
    requires Ok(s, {}) && v in s.tn
    ensures v !in s.sn
  {
    hide TreeOk, SmallOk, Framed;
    BinSets(s, {});
  }

  lemma RequestFits(bytes: nat)
    ensures var nb := RequestSize(bytes);
            && 32 <= nb < WORD && (nb % 16 == 0 || Unserviceable(nb))
            && (bytes >= MAX_REQUEST ==> Unserviceable(nb))
            && (bytes < MAX_REQUEST ==> nb == Padded(bytes) && nb % 16 == 0)
            && (bytes <= MAX_SMALL_REQUEST ==> IsSmallSize(nb) && nb <= 240)
            && (bytes > MAX_SMALL_REQUEST ==> nb >= MIN_LARGE_SIZE)
  {
    PaddedFits(bytes);
  }

  lemma SizesAreSmall(s: State)
    requires Ok(s, {})
    ensures 0 <= s.dvsize <= MEMORY_LIMIT && 16 <= s.topsize <= MEMORY_LIMIT
    ensures s.dvsize > 0 ==> s.dv > 0
  {
    hide TreeOk, SmallOk, Framed;
    NoDv(s, {});
    if s.dv != 0 {
      DvLoose(s, {});
      ChunkTag(s, {}, s.dv);
    }
    ChunkTag(s, {}, s.top);
  }

  /** What is left when the bins have nothing to offer. */
  lemma Fallback(s: State, nb: nat)
    requires Sound(s) && nb > 0 && (s.dvsize < nb ==> BinsTooSmall(s, nb))
    ensures DvIsBest(s, nb) && nb <= s.dvsize ==> BestFit(s, nb, s.dv)
    ensures s.dvsize < nb ==> BestFit(s, nb, s.top) && (s.topsize <= nb ==> NothingFits(s, nb))
    ensures Empty(s) ==> forall p :: BestFit(s, nb, p)
  {
    hide Ok, BestFit, NothingFits, BinsTooSmall, DvIsBest;
    if DvIsBest(s, nb) && nb <= s.dvsize { DvAnswer(s, nb); }
    if s.dvsize < nb { TopAnswer(s, nb); }
    EmptyAnswer(s, nb);
  }

  lemma EmptyAnswer(s: State, nb: nat)
    ensures Empty(s) ==> forall p :: BestFit(s, nb, p)
  {
  }
}

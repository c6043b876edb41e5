/**
  The allocator as its callers see it: a map from block addresses to byte strings. Every
  operation on the heap is an operation on that map.
 */
module Client {
  import opened Words
  import opened TreeBins
  import opened SmallBins
  import opened Layout
  import opened Heap
  import opened BinStores
  import opened Carving
  import opened ChunkMoves
  import opened Requests
  import opened Fitting
  import opened Payload
  import opened Results
  import opened Alignment
  import opened DlMalloc

  /** The bytes at mem are those of c. */
  ghost predicate ContentIs(m: seq<int>, mem: int, c: seq<int>) {
    forall i {:trigger c[i]} :: 0 <= i < |c| ==> ByteAt(m, mem, i) == c[i]
  }

  ghost predicate BlockHolds(m: seq<int>, B: map<int, nat>, mem: int, c: seq<int>) {
    mem - 16 in B && |c| + 8 <= B[mem - 16] && ContentIs(m, mem, c)
  }

  /** The blocks in use are those of the map, and hold its bytes. */
  ghost predicate Holds(m: seq<int>, B: map<int, nat>, blocks: map<int, seq<int>>) {
    && (forall mem {:trigger mem in blocks} :: mem in blocks ==> BlockHolds(m, B, mem, blocks[mem]))
    && (forall p {:trigger p in B} :: p in B ==> p + 16 in blocks)
  }

  ghost predicate Refines(h: MallocState, blocks: map<int, seq<int>>)
    reads h
  {
    h.Valid() && Holds(h.m, Blocks(h.ch), blocks)
  }

  /** Sizes and places of blocks are multiples of 16. */
  ghost predicate Even(B: map<int, nat>) {
    forall p {:trigger p in B} :: p in B ==> p % 16 == 0 && B[p] % 16 == 0
  }

  ghost method BlocksAreEven(h: MallocState)
    requires h.Valid()
    ensures Even(Blocks(h.ch))
  {
    hide Ok, Coalesced;
    if h.top != 0 {
      EvenBlocks(h.S());
    }
  }

  lemma EvenBlocks(s: State)
    requires Ok(s, {})
    ensures Even(Blocks(s.ch))
  {
    hide Ok;
    forall p {:trigger p in Blocks(s.ch)} | p in Blocks(s.ch)
      ensures p % 16 == 0 && Blocks(s.ch)[p] % 16 == 0
    {
      ChunkTag(s, {}, p);
    }
  }

  /** Two different blocks have no byte in common. */
  lemma BlocksApart(s: State, p: int, q: int)
    requires Ok(s, {}) && p in Blocks(s.ch) && q in Blocks(s.ch) && p != q
    ensures p + Blocks(s.ch)[p] + 8 <= q + 16 || q + Blocks(s.ch)[q] + 8 <= p + 16
    ensures s.base + 16 <= p + 16 && p + Blocks(s.ch)[p] + 8 <= s.top + 8
  {
    hide TreeOk, SmallOk, Tagged;
    ChunkTag(s, {}, p);
    ChunksApart(s.ch, s.base, s.End(), p, q);
    TopIsLast(s, {}, p);
    ChunksApart(s.ch, s.base, s.End(), p, s.top);
  }

  /** A block whose payload is untouched holds what it held. */
  lemma StillHolds(m: seq<int>, m': seq<int>, B: map<int, nat>, B': map<int, nat>, U: map<int, nat>, mem: int, c: seq<int>)
    requires Even(B) && Untouched(U, m, m') && BlockHolds(m, B, mem, c)
    requires mem - 16 in U && U[mem - 16] == B[mem - 16] && mem - 16 in B' && B'[mem - 16] == B[mem - 16]
    ensures BlockHolds(m', B', mem, c)
  {
    hide SamePayload, Byte;
    var p := mem - 16;
    assert p in B && SamePayload(m, m', p, U[p]);
    forall i {:trigger c[i]} | 0 <= i < |c| ensures ByteAt(m', mem, i) == c[i] {
      SameBytes(m, m', p, B[p], mem + i);
    }
  }

  /** A new block adds its bytes to the map. */
  lemma AddsBlock(m: seq<int>, B: map<int, nat>, blocks: map<int, seq<int>>, m': seq<int>, B': map<int, nat>, mem: int, c: seq<int>)
    requires Even(B) && Holds(m, B, blocks) && Untouched(B, m, m')
    requires mem - 16 !in B && mem - 16 in B' && B' == B[mem - 16 := B'[mem - 16]] && BlockHolds(m', B', mem, c)
    ensures mem !in blocks && Holds(m', B', blocks[mem := c])
  {
    hide ContentIs, Untouched;
    var blocks' := blocks[mem := c];
    assert mem in blocks ==> BlockHolds(m, B, mem, blocks[mem]);
    forall a {:trigger a in blocks'} | a in blocks' ensures BlockHolds(m', B', a, blocks'[a]) {
      if a != mem { StillHolds(m, m', B, B', B, a, blocks[a]); }
    }
    forall p {:trigger p in B'} | p in B' ensures p + 16 in blocks' {
      assert p in B || p == mem - 16;
    }
  }

  lemma RemovesBlock(m: seq<int>, B: map<int, nat>, blocks: map<int, seq<int>>, m': seq<int>, mem: int)
    requires Even(B) && Holds(m, B, blocks) && mem in blocks && Untouched(B - {mem - 16}, m, m')
    ensures Holds(m', B - {mem - 16}, blocks - {mem})
  {
    hide ContentIs, Untouched;
    var B', blocks' := B - {mem - 16}, blocks - {mem};
    forall a {:trigger a in blocks'} | a in blocks' ensures BlockHolds(m', B', a, blocks'[a]) {
      assert a in blocks;
      StillHolds(m, m', B, B', B', a, blocks[a]);
    }
    forall p {:trigger p in B'} | p in B' ensures p + 16 in blocks' {
      assert p in B;
    }
  }

  lemma NothingTouched(m: seq<int>, B: map<int, nat>, blocks: map<int, seq<int>>, m': seq<int>)
    requires Even(B) && Holds(m, B, blocks) && Untouched(B, m, m')
    ensures Holds(m', B, blocks)
  {
    hide ContentIs, Untouched;
    forall a {:trigger a in blocks} | a in blocks ensures BlockHolds(m', B, a, blocks[a]) {
      StillHolds(m, m', B, B, B, a, blocks[a]);
    }
  }

  /** The n bytes at mem. */
  function BytesAt(m: seq<int>, mem: int, n: nat): (c: seq<int>)
    ensures |c| == n
  {
    seq(n, i => ByteAt(m, mem, i))
  }

  lemma BytesAtHold(m: seq<int>, B: map<int, nat>, mem: int, n: nat)
    requires mem - 16 in B && n + 8 <= B[mem - 16]
    ensures BlockHolds(m, B, mem, BytesAt(m, mem, n))
  {
    hide Byte;
  }

  method Malloc(h: MallocState, blocks: map<int, seq<int>>, bytes: nat) returns (r: Outcome, blocks': map<int, seq<int>>)
    requires Refines(h, blocks) && bytes < WORD
    modifies h
    ensures !r.Panic? ==> Refines(h, blocks')
    ensures r.Null? ==> blocks' == blocks
    ensures r.Null? <==> Unserviceable(RequestSize(bytes))
    ensures r.Panic? ==> NothingFits(old(h.S()), RequestSize(bytes))
    ensures r.Mem? ==> r.addr !in blocks && r.addr % 16 == 0 && r.addr in blocks' && |blocks'[r.addr]| == bytes
    ensures r.Mem? ==> blocks' == blocks[r.addr := blocks'[r.addr]]
    ensures r.Mem? ==> Served(old(h.S()), bytes, r.addr - 16)
  {
    hide Served, Holds, BlockHolds, Untouched, Blocks, Padded;
    BlocksAreEven(h);
    blocks' := blocks;
    r := h.DlMalloc(bytes);
    if r.Mem? {
      PaddedFits(bytes);
      var c := BytesAt(h.m, r.addr, bytes);
      blocks' := blocks[r.addr := c];
      SizeOfNew(old(h.ch), old(h.m), h.ch, h.m, r.addr - 16, h.ch[r.addr - 16].size);
      BytesAtHold(h.m, Blocks(h.ch), r.addr, bytes);
      AddsBlock(old(h.m), old(Blocks(h.ch)), blocks, h.m, Blocks(h.ch), r.addr, c);
    }
  }

  lemma SizeOfNew(ch: Chunks, m: seq<int>, ch': Chunks, m': seq<int>, p: int, size: nat)
    requires HandedOut(ch, m, ch', m', p, size)
    ensures p !in Blocks(ch) && p in Blocks(ch') && Blocks(ch')[p] == size && Untouched(Blocks(ch), m, m')
    ensures Blocks(ch') == Blocks(ch)[p := Blocks(ch')[p]]
  {
  }

  /** dlmemalign serves an alignment of 16 or less with dlmalloc. */
  function AlignmentUsed(alignment: nat): nat { if alignment <= 16 then 16 else RoundUp(alignment) }

  function MemalignRequest(alignment: nat, bytes: nat): nat { if alignment <= 16 then bytes else AlignedRequest(alignment, bytes) }

  lemma AlignmentIsPositive(alignment: nat)
    ensures AlignmentUsed(alignment) >= 16
  {
    RoundUpIsLeast(alignment);
  }

  method Memalign(h: MallocState, blocks: map<int, seq<int>>, alignment: nat, bytes: nat) returns (r: Outcome, blocks': map<int, seq<int>>)
    requires Refines(h, blocks) && alignment <= HALF_WORD && bytes < WORD
    modifies h
    ensures !r.Panic? ==> Refines(h, blocks')
    ensures r.Null? ==> blocks' == blocks
    ensures r.Mem? ==> r.addr !in blocks && r.addr in blocks' && |blocks'[r.addr]| == bytes
    ensures r.Mem? ==> blocks' == blocks[r.addr := blocks'[r.addr]]
    ensures r.Mem? ==> AlignmentUsed(alignment) > 0 && r.addr % AlignmentUsed(alignment) == 0
    ensures r.Mem? && alignment > 16 ==> RoundUp(alignment) > 0 && ServedAligned(old(h.S()), alignment, bytes, r.addr)
    ensures r.Null? ==> Unserviceable(RequestSize(MemalignRequest(alignment, bytes)))
    ensures r.Panic? ==> (alignment > 16 && bytes >= MAX_REQUEST - RoundUp(alignment)) ||
                         NothingFits(old(h.S()), RequestSize(MemalignRequest(alignment, bytes)))
  {
    hide Holds, BlockHolds, Untouched, Blocks, Padded, RoundUp, NothingFits, AlignedRequest, ServedAligned;
    AlignmentIsPositive(alignment);
    if alignment <= 16 {
      r, blocks' := Malloc(h, blocks, bytes);
      return;
    }
    BlocksAreEven(h);
    blocks' := blocks;
    r := h.InternalMemalign(alignment, bytes);
    if r.Mem? {
      PaddedFits(bytes);
      var c := BytesAt(h.m, r.addr, bytes);
      blocks' := blocks[r.addr := c];
      SizeOfNew(old(h.ch), old(h.m), h.ch, h.m, r.addr - 16, h.ch[r.addr - 16].size);
      BytesAtHold(h.m, Blocks(h.ch), r.addr, bytes);
      AddsBlock(old(h.m), old(Blocks(h.ch)), blocks, h.m, Blocks(h.ch), r.addr, c);
    }
  }

  method Free(h: MallocState, blocks: map<int, seq<int>>, mem: int) returns (blocks': map<int, seq<int>>)
    requires Refines(h, blocks) && (mem == 0 || mem in blocks)
    modifies h
    ensures Refines(h, blocks') && blocks' == if mem == 0 then blocks else blocks - {mem}
  {
    hide BlockHolds, Untouched, Blocks;
    BlocksAreEven(h);
    MemIsBlock(h.m, Blocks(h.ch), blocks, mem);
    h.DlFree(mem);
    blocks' := if mem == 0 then blocks else blocks - {mem};
    if mem != 0 {
      RemovesBlock(old(h.m), old(Blocks(h.ch)), blocks, h.m, mem);
    }
  }

  lemma MemIsBlock(m: seq<int>, B: map<int, nat>, blocks: map<int, seq<int>>, mem: int)
    requires Holds(m, B, blocks)
    ensures mem in blocks ==> mem - 16 in B && BlockHolds(m, B, mem, blocks[mem])
  {
  }

  /** realloc keeps the bytes that fit both sizes, whether or not the block moves. */
  method Realloc(h: MallocState, blocks: map<int, seq<int>>, mem: int, bytes: nat) returns (r: Outcome, blocks': map<int, seq<int>>)
    requires Refines(h, blocks) && mem in blocks && bytes < WORD && mem != 0
    modifies h
    ensures !r.Panic? ==> Refines(h, blocks')
    ensures r.Null? ==> blocks' == blocks && Unserviceable(RequestSize(bytes))
    ensures r.Panic? ==> bytes >= MAX_REQUEST || NothingFits(old(h.S()), RequestSize(bytes))
    ensures r.Mem? ==>
              if FitsInPlace(old(h.S()), mem - 16, Padded(bytes)) then r.addr == mem else Served(old(h.S()), bytes, r.addr - 16)
    ensures r.Mem? ==> (r.addr == mem || r.addr !in blocks) && r.addr in blocks' && |blocks'[r.addr]| == bytes
    ensures r.Mem? ==> blocks' == (blocks - {mem})[r.addr := blocks'[r.addr]]
    ensures r.Mem? ==> var n := if bytes < |blocks[mem]| then bytes else |blocks[mem]|;
                       blocks'[r.addr][..n] == blocks[mem][..n]
  {
    hide Holds, BlockHolds, Untouched, Blocks, Padded, SameContents, FitsInPlace, Served;
    BlocksAreEven(h);
    MemIsBlock(h.m, Blocks(h.ch), blocks, mem);
    blocks' := blocks;
    ghost var B, m0 := Blocks(h.ch), h.m;
    r := h.DlRealloc(mem, bytes);
    if r.Mem? {
      PaddedFits(bytes);
      var c := BytesAt(h.m, r.addr, bytes);
      blocks' := (blocks - {mem})[r.addr := c];
      ReallocHolds(m0, B, blocks, h.m, Blocks(h.ch), mem, r.addr, bytes, c);
    }
  }

  lemma ReallocHolds(m: seq<int>, B: map<int, nat>, blocks: map<int, seq<int>>, m': seq<int>, B': map<int, nat>,
      mem: int, mem': int, bytes: nat, c: seq<int>)
    requires Even(B) && Holds(m, B, blocks) && mem in blocks && Reallocated(B, m, B', m', mem, mem', bytes)
    requires c == BytesAt(m', mem', bytes)
    ensures Holds(m', B', (blocks - {mem})[mem' := c]) && (mem' == mem || mem' !in blocks)
    ensures var n := if bytes < |blocks[mem]| then bytes else |blocks[mem]|; c[..n] == blocks[mem][..n]
  {
    hide Holds, Untouched, Padded, Byte;
    PaddedFits(bytes);
    MemIsBlock(m, B, blocks, mem);
    MemIsBlock(m, B, blocks, mem');
    RemovesBlock(m, B, blocks, m', mem);
    BytesAtHold(m', B', mem', bytes);
    UntouchedSame(B - {mem - 16}, m');
    assert Even(B - {mem - 16});
    AddsBlock(m', B - {mem - 16}, blocks - {mem}, m', B', mem', c);
    var n := if bytes < |blocks[mem]| then bytes else |blocks[mem]|;
    forall i | 0 <= i < n ensures c[i] == blocks[mem][i] {
      assert ByteAt(m', mem', i) == ByteAt(m, mem, i);
    }
  }

  /** A program writes one byte of a block. */
  method Write(h: MallocState, blocks: map<int, seq<int>>, mem: int, i: nat, b: int) returns (blocks': map<int, seq<int>>)
    requires Refines(h, blocks) && mem in blocks && i < |blocks[mem]| && 0 <= b < 256
    modifies h
    ensures Refines(h, blocks') && blocks' == blocks[mem := blocks[mem][i := b]]
  {
    hide Holds, Untouched, Blocks, WithinBlock, ByteStored, ContentIs;
    BlocksAreEven(h);
    MemIsBlock(h.m, Blocks(h.ch), blocks, mem);
    blocks' := blocks[mem := blocks[mem][i := b]];
    ghost var B, m0 := Blocks(h.ch), h.m;
    BlockIsChunk(h.ch, mem - 16);
    h.StoreByte(mem - 16, mem + i, b);
    WriteHolds(m0, B, blocks, h.m, mem, i, b);
  }

  lemma BlockIsChunk(ch: Chunks, p: int)
    requires p in Blocks(ch)
    ensures p in ch && ch[p].size == Blocks(ch)[p]
  {
  }

  lemma WriteHolds(m: seq<int>, B: map<int, nat>, blocks: map<int, seq<int>>, m': seq<int>, mem: int, i: nat, b: int)
    requires Even(B) && Holds(m, B, blocks) && mem in blocks && i < |blocks[mem]|
    requires ByteStored(m, m', mem + i, b) && Untouched(B - {mem - 16}, m, m')
    ensures Holds(m', B, blocks[mem := blocks[mem][i := b]])
  {
    hide Untouched, Byte;
    var blocks' := blocks[mem := blocks[mem][i := b]];
    forall a {:trigger a in blocks'} | a in blocks' ensures BlockHolds(m', B, a, blocks'[a]) {
      assert BlockHolds(m, B, a, blocks[a]);
      if a != mem {
        StillHolds(m, m', B, B, B - {mem - 16}, a, blocks[a]);
      } else {
        forall j {:trigger blocks'[mem][j]} | 0 <= j < |blocks[mem]| ensures ByteAt(m', mem, j) == blocks'[mem][j] {
          assert ByteAt(m, mem, j) == blocks[mem][j];
        }
      }
    }
    forall p {:trigger p in B} | p in B ensures p + 16 in blocks' {
    }
  }

  /** malloc_trim does not show. */
  method Trim(h: MallocState, blocks: map<int, seq<int>>, pad: nat)
    requires Refines(h, blocks)
    modifies h
    ensures Refines(h, blocks)
  {
    hide Holds, Untouched, Blocks;
    BlocksAreEven(h);
    var _ := h.SysTrim(pad);
    NothingTouched(old(h.m), old(Blocks(h.ch)), blocks, h.m);
  }

  /** One call or store of a program. */
  datatype Command =
    | DoMalloc(bytes: nat)
    | DoMemalign(alignment: nat, bytes: nat)
    | DoRealloc(mem: int, bytes: nat)
    | DoFree(mem: int)
    | DoWrite(mem: int, i: nat, b: int)
    | DoTrim(pad: nat)

  /** What the interfaces ask of their callers. */
  predicate Legal(blocks: map<int, seq<int>>, c: Command) {
    match c
    case DoMalloc(bytes) => bytes < WORD
    case DoMemalign(alignment, bytes) => alignment <= HALF_WORD && bytes < WORD
    case DoRealloc(mem, bytes) => mem in blocks && mem != 0 && bytes < WORD
    case DoFree(mem) => mem == 0 || mem in blocks
    case DoWrite(mem, i, b) => mem in blocks && i < |blocks[mem]| && 0 <= b < 256
    case DoTrim(pad) => true
  }

  /** Why a command may make the kernel panic: the request is too large, or no free chunk fits and the system has no memory. */
  ghost predicate PanicReason(s: State, c: Command) {
    match c
    case DoMalloc(bytes) => NothingFits(s, RequestSize(bytes))
    case DoMemalign(alignment, bytes) =>
      || (alignment > 16 && bytes >= MAX_REQUEST - RoundUp(alignment))
      || NothingFits(s, RequestSize(MemalignRequest(alignment, bytes)))
    case DoRealloc(_, bytes) => bytes >= MAX_REQUEST || NothingFits(s, RequestSize(bytes))
    case _ => false
  }

  /** A null pointer is the answer to requests whose size wraps around, and to nothing else. */
  predicate NullReason(c: Command) {
    match c
    case DoMalloc(bytes) => Unserviceable(RequestSize(bytes))
    case DoMemalign(alignment, bytes) => Unserviceable(RequestSize(MemalignRequest(alignment, bytes)))
    case DoRealloc(_, bytes) => Unserviceable(RequestSize(bytes))
    case _ => true
  }

  /** What a command does to the map. */
  ghost predicate Effect(blocks: map<int, seq<int>>, c: Command, r: Outcome, blocks': map<int, seq<int>>) {
    match c
    case DoMalloc(bytes) => if r.Mem? then Adds(blocks, r.addr, bytes, 16, blocks') else r.Null? && blocks' == blocks
    case DoMemalign(alignment, bytes) =>
      if r.Mem? then Adds(blocks, r.addr, bytes, AlignmentUsed(alignment), blocks') else r.Null? && blocks' == blocks
    case DoRealloc(mem, bytes) => mem in blocks && if r.Mem? then Replaces(blocks, mem, r.addr, bytes, blocks') else r.Null? && blocks' == blocks
    case DoFree(mem) => r.Null? && blocks' == if mem == 0 then blocks else blocks - {mem}
    case DoWrite(mem, i, b) => r.Null? && mem in blocks && i < |blocks[mem]| && blocks' == blocks[mem := blocks[mem][i := b]]
    case DoTrim(_) => r.Null? && blocks' == blocks
  }

  /** One new block of the length asked for. */
  ghost predicate Adds(blocks: map<int, seq<int>>, mem: int, bytes: nat, alignment: nat, blocks': map<int, seq<int>>) {
    && mem !in blocks && mem in blocks' && |blocks'[mem]| == bytes && blocks' == blocks[mem := blocks'[mem]]
    && alignment > 0 && mem % alignment == 0
  }

  /** One block in the place of another, with its leading bytes. */
  ghost predicate Replaces(blocks: map<int, seq<int>>, mem: int, mem': int, bytes: nat, blocks': map<int, seq<int>>)
    requires mem in blocks
  {
    && (mem' == mem || mem' !in blocks) && mem' in blocks' && |blocks'[mem']| == bytes
    && blocks' == (blocks - {mem})[mem' := blocks'[mem']]
    && var n := if bytes < |blocks[mem]| then bytes else |blocks[mem]|;
    blocks'[mem'][..n] == blocks[mem][..n]
  }

  /** One legal command. */
  method Perform(h: MallocState, blocks: map<int, seq<int>>, c: Command) returns (r: Outcome, blocks': map<int, seq<int>>)
    requires Refines(h, blocks) && Legal(blocks, c)
    modifies h
    ensures r.Panic? ==> PanicReason(old(h.S()), c)
    ensures !r.Panic? ==> Refines(h, blocks') && Effect(blocks, c, r, blocks') && (r.Null? ==> NullReason(c))
  {
    hide Refines, RoundUp, NothingFits, AlignedRequest;
    r, blocks' := Null, blocks;
    match c
    case DoMalloc(bytes) => r, blocks' := Malloc(h, blocks, bytes);
    case DoMemalign(alignment, bytes) =>
      AlignmentIsPositive(alignment);
      r, blocks' := Memalign(h, blocks, alignment, bytes);
    case DoRealloc(mem, bytes) => r, blocks' := Realloc(h, blocks, mem, bytes);
    case DoFree(mem) => blocks' := Free(h, blocks, mem);
    case DoWrite(mem, i, b) => blocks' := Write(h, blocks, mem, i, b);
    case DoTrim(pad) => Trim(h, blocks, pad);
  }

  /** The answer to a command: nothing for one that no caller may give, else what it returns. */
  datatype Reply = Skipped | Done(r: Outcome)

  datatype Snapshot = Snapshot(blocks: map<int, seq<int>>, s: State)

  /** The allocator is in order, and its blocks are those of the map, with its bytes. */
  ghost predicate InOrder(x: Snapshot) { Sound(x.s) && Holds(x.s.m, Blocks(x.s.ch), x.blocks) }

  ghost predicate Step(x: Snapshot, c: Command, reply: Reply, y: Snapshot) {
    if reply.Skipped? then !Legal(x.blocks, c) && y == x
    else Legal(x.blocks, c) && !reply.r.Panic? && Effect(x.blocks, c, reply.r, y.blocks) && (reply.r.Null? ==> NullReason(c))
  }

  /** One command after the other, each from where the one before has left the map. */
  ghost predicate IsRun(history: seq<Snapshot>, program: seq<Command>, replies: seq<Reply>) {
    && |history| == |replies| + 1 && |replies| <= |program|
    && (forall k: nat {:trigger history[k]} :: k < |history| ==> InOrder(history[k]))
    && (forall k: nat {:trigger replies[k]} :: k < |replies| ==> Step(history[k], program[k], replies[k], history[k + 1]))
  }

  lemma RunGoesOn(history: seq<Snapshot>, program: seq<Command>, replies: seq<Reply>, reply: Reply, y: Snapshot)
    requires IsRun(history, program, replies) && |replies| < |program|
    requires InOrder(y) && Step(history[|replies|], program[|replies|], reply, y)
    ensures IsRun(history + [y], program, replies + [reply])
  {
    hide InOrder, Step;
    var h, p := history + [y], replies + [reply];
    forall k: nat {:trigger h[k]} | k < |h| ensures InOrder(h[k]) {
      if k < |history| { assert h[k] == history[k]; }
    }
    forall k: nat {:trigger p[k]} | k < |p| ensures Step(h[k], program[k], p[k], h[k + 1]) {
      if k < |replies| { assert p[k] == replies[k]; }
    }
  }

  ghost method RefinesInOrder(h: MallocState, blocks: map<int, seq<int>>)
    requires Refines(h, blocks)
    ensures InOrder(Snapshot(blocks, h.S()))
  {
    hide Holds, Blocks, Sound;
    h.ValidIsSound();
  }

  /**
    Any program of calls and stores: every command does to the map what it should, and every
    state on the way is in order and holds the bytes of the map. The program is not finished only
    if the kernel panics, for one of the reasons a command has.
   */
  method Run(h: MallocState, program: seq<Command>) returns (blocks: map<int, seq<int>>, panicked: bool,
      ghost history: seq<Snapshot>, ghost replies: seq<Reply>)
    requires h.Valid() && Blocks(h.ch) == map[]
    modifies h
    ensures IsRun(history, program, replies) && history[0] == Snapshot(map[], old(h.S()))
    ensures !panicked ==> |replies| == |program| && Refines(h, blocks) && history[|replies|] == Snapshot(blocks, h.S())
    ensures panicked ==> |replies| < |program| && Legal(history[|replies|].blocks, program[|replies|])
                         && PanicReason(history[|replies|].s, program[|replies|])
  {
    blocks, panicked := map[], false;
    assert Refines(h, blocks);
    hide Refines, Legal, InOrder, Step, Effect, NullReason, PanicReason, IsRun, Blocks;
    RefinesInOrder(h, blocks);
    history, replies := [Snapshot(blocks, h.S())], [];
    RunBegins(history, program);
    for k := 0 to |program|
      invariant !panicked && Refines(h, blocks) && |replies| == k && |history| == k + 1
      invariant IsRun(history, program, replies) && history[k] == Snapshot(blocks, h.S()) && history[0] == Snapshot(map[], old(h.S()))
    {
      ghost var x := Snapshot(blocks, h.S());
      ghost var reply := Skipped;
      if Legal(blocks, program[k]) {
        var r;
        r, blocks := Perform(h, blocks, program[k]);
        if r.Panic? {
          panicked := true;
          return;
        }
        RefinesInOrder(h, blocks);
        reply := Done(r);
      } else {
        RefinesInOrder(h, blocks);
      }
      ghost var y := Snapshot(blocks, h.S());
      StepIs(x, program[k], reply, y);
      RunGoesOn(history, program, replies, reply, y);
      history, replies := history + [y], replies + [reply];
    }
  }

  lemma StepIs(x: Snapshot, c: Command, reply: Reply, y: Snapshot)
    requires if reply.Skipped? then !Legal(x.blocks, c) && y == x
             else Legal(x.blocks, c) && !reply.r.Panic? && Effect(x.blocks, c, reply.r, y.blocks) && (reply.r.Null? ==> NullReason(c))
    ensures Step(x, c, reply, y)
  {
  }

  lemma RunBegins(history: seq<Snapshot>, program: seq<Command>)
    requires |history| == 1 && InOrder(history[0])
    ensures IsRun(history, program, [])
  {
  }
}

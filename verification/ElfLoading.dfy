/**
  The part of load_kernel that places the program segments, and the hand-over of the table
  behind the window through which the kernel looks at physical memory.
 */
module ElfLoading {
  import opened Arith
  import opened Paging
  import opened LoaderPaging
  import opened IdentityPaging

  /** offset is given in pages. */
  datatype Phdr = Phdr(load: bool, offset: nat, vaddr: nat, filesz: nat, memsz: nat)

  /** Page k of a segment is one that the loop visits. */
  predicate Visits(s: Phdr, k: nat) { s.load && k * PAGE_SIZE < s.memsz }

  /** It is backed by the file. */
  predicate InFile(s: Phdr, k: nat) { k * PAGE_SIZE < s.filesz }

  function Virt(s: Phdr, k: nat): nat { s.vaddr + k * PAGE_SIZE }

  function FilePage(start: nat, s: Phdr, k: nat): nat { start + s.offset + k }

  function FrameBytes(mem: Memory, f: nat): seq<int> {
    if f < |mem| && mem[f].Bytes? then mem[f].bytes else []
  }

  predicate IsBytes(mem: Memory, f: nat) { |FrameBytes(mem, f)| == PAGE_SIZE }

  /** What page k of a segment must contain: the file up to filesz, zeros after that. */
  function Image(mem: Memory, start: nat, s: Phdr, k: nat): (c: seq<int>)
    requires InFile(s, k) ==> IsBytes(mem, FilePage(start, s, k))
    ensures |c| == PAGE_SIZE
  {
    seq(PAGE_SIZE, j requires 0 <= j < PAGE_SIZE =>
      if k * PAGE_SIZE + j < s.filesz then FrameBytes(mem, FilePage(start, s, k))[j] else 0)
  }

  /** What map_page asserts of the segments, and where the file lies. */
  ghost predicate Placed(mem: Memory, t: Tables, used: nat, start: nat, s: Phdr, k: nat) {
    Visits(s, k) ==>
      && Canonical(Virt(s, k)) && PageAligned(Virt(s, k))
      && (InFile(s, k) ==>
            var f := FilePage(start, s, k);
            f < used && f < |mem| && f !in t && IsBytes(mem, f))
  }

  /** Different pages of the segments have different addresses and different pages of the file. */
  ghost predicate Separate(start: nat, a: Phdr, k: nat, b: Phdr, j: nat) {
    Visits(a, k) && Visits(b, j) ==>
      && Virt(a, k) != Virt(b, j)
      && (InFile(a, k) && InFile(b, j) ==> FilePage(start, a, k) != FilePage(start, b, j))
  }

  ghost predicate WellFormed(mem: Memory, t: Tables, used: nat, start: nat, phdrs: seq<Phdr>) {
    && (forall a: nat, k: nat {:trigger Visits(phdrs[a], k)} :: a < |phdrs| ==> Placed(mem, t, used, start, phdrs[a], k))
    && (forall a: nat, k: nat, b: nat, j: nat {:trigger Visits(phdrs[a], k), Visits(phdrs[b], j)} ::
          a < |phdrs| && b < |phdrs| && (a, k) != (b, j) ==> Separate(start, phdrs[a], k, phdrs[b], j))
  }

  /** Pages visited before page n of segment pi. */
  predicate Before(a: nat, k: nat, pi: nat, n: nat) { a < pi || (a == pi && k < n) }

  /** Page k of the segment is mapped to a frame with its image: its file page or a new one. */
  ghost predicate PageLoaded(m0: Memory, u0: nat, start: nat, mem: Memory, t: Tables, used: nat, pml4: nat, s: Phdr, k: nat)
    requires InFile(s, k) ==> IsBytes(m0, FilePage(start, s, k))
  {
    var tr := Translate(mem, pml4, Indices(Virt(s, k)));
    && tr.Page? && tr.entry.flags == IDENTITY
    && var f := tr.entry.frame;
    && f < used && f < |mem| && f !in t && mem[f] == Bytes(Image(m0, start, s, k))
    && (f >= u0 || (InFile(s, k) && f == FilePage(start, s, k)))
  }

  ghost predicate LoadState(m0: Memory, t0: Tables, u0: nat, start: nat, phdrs: seq<Phdr>,
      mem: Memory, t: Tables, used: nat, pml4: nat, pi: nat, n: nat)
    requires WellFormed(m0, t0, u0, start, phdrs)
  {
    && u0 <= used && |mem| == |m0| && Grown(t0, u0, t)
    && (forall a: nat, k: nat {:trigger Visits(phdrs[a], k)} :: a < |phdrs| && Visits(phdrs[a], k) && Before(a, k, pi, n) ==>
          assert Placed(m0, t0, u0, start, phdrs[a], k); PageLoaded(m0, u0, start, mem, t, used, pml4, phdrs[a], k))
    && (forall a: nat, k: nat {:trigger Visits(phdrs[a], k)} ::
          a < |phdrs| && Visits(phdrs[a], k) && InFile(phdrs[a], k) && !Before(a, k, pi, n) ==>
          var f := FilePage(start, phdrs[a], k); f < |mem| && f < |m0| && mem[f] == m0[f])
  }

  /** ix translates a page visited before page n of segment pi. */
  ghost predicate IsLoaded(phdrs: seq<Phdr>, pi: nat, n: nat, ix: seq<nat>) {
    exists a: nat, k: nat {:trigger Visits(phdrs[a], k)} ::
      a < |phdrs| && Visits(phdrs[a], k) && Before(a, k, pi, n) && ix == Indices(Virt(phdrs[a], k))
  }

  /** The table at place p is one of those on the way to such a page. */
  ghost predicate OnTheWay(phdrs: seq<Phdr>, pi: nat, n: nat, p: seq<nat>) {
    exists a: nat, k: nat {:trigger Visits(phdrs[a], k)} ::
      a < |phdrs| && Visits(phdrs[a], k) && Before(a, k, pi, n) && p in Places(Indices(Virt(phdrs[a], k)))
  }

  ghost predicate IsFilePage(start: nat, phdrs: seq<Phdr>, f: nat) {
    exists a: nat, k: nat {:trigger Visits(phdrs[a], k)} ::
      a < |phdrs| && Visits(phdrs[a], k) && InFile(phdrs[a], k) && f == FilePage(start, phdrs[a], k)
  }

  /** Pages that belong to no segment are translated as before. */
  ghost predicate OthersKept(m0: Memory, r0: nat, phdrs: seq<Phdr>, mem: Memory, pml4: nat, pi: nat, n: nat) {
    forall ix {:trigger Translate(mem, pml4, ix)} :: IsPath(ix, 4) && !IsLoaded(phdrs, pi, n, ix) ==>
      Translate(mem, pml4, ix) == Translate(m0, r0, ix)
  }

  /** Only tables on the way to the pages are added. */
  ghost predicate PlacesKept(t0: Tables, phdrs: seq<Phdr>, t: Tables, pi: nat, n: nat) {
    forall p {:trigger p in t.Values} :: p in t.Values ==> p in t0.Values || OnTheWay(phdrs, pi, n, p)
  }

  /** Frames in use that are neither tables nor pages of the file stay as they are. */
  ghost predicate FramesKept(m0: Memory, t0: Tables, u0: nat, start: nat, phdrs: seq<Phdr>, mem: Memory) {
    forall f: nat {:trigger mem[f]} :: f < u0 && f < |m0| && f < |mem| && f !in t0 && !IsFilePage(start, phdrs, f) ==> mem[f] == m0[f]
  }

  /** What the first pages of the segments leave alone. */
  ghost predicate LoadFrame(m0: Memory, t0: Tables, u0: nat, r0: nat, start: nat, phdrs: seq<Phdr>,
      mem: Memory, t: Tables, pml4: nat, pi: nat, n: nat)
  {
    && OthersKept(m0, r0, phdrs, mem, pml4, pi, n)
    && PlacesKept(t0, phdrs, t, pi, n)
    && FramesKept(m0, t0, u0, start, phdrs, mem)
  }

  function PageCount(s: Phdr): nat {
    if s.load then (s.memsz + PAGE_SIZE - 1) / PAGE_SIZE else 0
  }

  /** Each page needs at most itself and four tables. */
  function RoomNeeded(phdrs: seq<Phdr>): nat {
    if phdrs == [] then 0 else 5 * PageCount(phdrs[0]) + RoomNeeded(phdrs[1..])
  }

  // ---------- One page ----------

  /** memset(page + filesz - i, 0, i + PAGE_SIZE - filesz), or nothing. */
  function Trimmed(bytes: seq<int>, keep: int): (r: seq<int>)
    requires |bytes| == PAGE_SIZE && 0 < keep
    ensures |r| == PAGE_SIZE
  {
    if keep < PAGE_SIZE then bytes[..keep] + seq(PAGE_SIZE - keep, _ => 0) else bytes
  }

  lemma TrimmedIsImage(m0: Memory, start: nat, s: Phdr, k: nat)
    requires InFile(s, k) && IsBytes(m0, FilePage(start, s, k))
    ensures Trimmed(FrameBytes(m0, FilePage(start, s, k)), s.filesz - k * PAGE_SIZE) == Image(m0, start, s, k)
  {
  }

  lemma ZeroIsImage(m0: Memory, start: nat, s: Phdr, k: nat)
    requires !InFile(s, k)
    ensures Image(m0, start, s, k) == seq(PAGE_SIZE, _ => 0)
  {
  }

  /** The body of the inner loop. */
  method LoadPage(l: Loader, start: nat, s: Phdr, k: nat) returns (ghost page: nat)
    requires l.Valid() && Visits(s, k) && Placed(l.mem, l.t, l.used, start, s, k) && l.used + 5 <= |l.mem|
    modifies l
    ensures l.Valid() && |l.mem| == old(|l.mem|) && old(l.used) <= l.used <= old(l.used) + 5
    ensures Translate(l.mem, l.pml4, Indices(Virt(s, k))) == Page(Entry(page, IDENTITY))
    ensures OtherPages(old(l.mem), old(l.pml4), l.mem, l.pml4, Indices(Virt(s, k))) && Grown(old(l.t), old(l.used), l.t)
    ensures l.t.Values == old(l.t.Values) + Places(Indices(Virt(s, k)))
    ensures page < l.used && page < |l.mem| && page !in l.t
    ensures l.mem[page] == Bytes(Image(old(l.mem), start, s, k))
    ensures if InFile(s, k) then page == FilePage(start, s, k) else page >= old(l.used)
    ensures forall f: nat {:trigger l.mem[f]} :: f < old(l.used) && f < |l.mem| && f !in old(l.t) && f != page ==> l.mem[f] == old(l.mem)[f]
    ensures Writable(l.mem, l.pml4, Indices(Virt(s, k))) && WritesKept(old(l.mem), old(l.pml4), l.mem, l.pml4)
  {
    hide Writable, WritesKept, RightsKept, Asked, HasBit, Indices, Translate, TreeOk, Grown, OtherPages, Missing, Places, With, Image,
      Trimmed, Walk, Canonical, SameWalks;
    ghost var m0, t0, u0, r0 := l.mem, l.t, l.used, l.pml4;
    var frame := FilePage(start, s, k);
    if InFile(s, k) {
      TrimmedIsImage(m0, start, s, k);
      if s.filesz < k * PAGE_SIZE + PAGE_SIZE {
        var bytes := l.mem[frame].bytes;
        l.mem := l.mem[frame := Bytes(Trimmed(bytes, s.filesz - k * PAGE_SIZE))];
      }
      WholePage(m0, start, s, k);
    } else {
      ZeroIsImage(m0, start, s, k);
      frame := l.NewZeroPage();
      NoTable(m0, t0, u0, r0, frame);
    }
    ghost var m1, u1 := l.mem, l.used;
    BytesStored(m0, r0, t0, u0, frame, m1, u1);
    BytesKeepWrites(m0, r0, t0, u0, frame, m1);
    MissingAtMost(l.t.Values, Indices(Virt(s, k)));
    ghost var _ := l.MapPage(Virt(s, k), frame, With(PAGE_RW_BIT, PAGE_G_BIT));
    FlagsAre();
    WritesTrans(m0, r0, m1, r0, l.mem, l.pml4);
    page := frame;
    OthersFrom(m0, m1, r0, l.mem, l.pml4, Indices(Virt(s, k)));
    Kept(m1, t0, u1, l.mem, l.t, page);
    GrownFrom(t0, u0, u1, l.t);
  }

  lemma NoTable(mem: Memory, t: Tables, limit: nat, r: nat, f: nat)
    requires TreeOk(mem, t, limit, r) && f >= limit
    ensures f !in t
  {
    assert r != 0 && f in t ==> TableOk(mem, t, limit, f);
  }

  lemma MissingAtMost(places: set<seq<nat>>, ix: seq<nat>)
    requires |ix| == 4
    ensures Missing(places, ix) <= 4
  {
  }

  lemma WholePage(m0: Memory, start: nat, s: Phdr, k: nat)
    requires InFile(s, k) && IsBytes(m0, FilePage(start, s, k))
    ensures s.filesz >= k * PAGE_SIZE + PAGE_SIZE ==> Image(m0, start, s, k) == FrameBytes(m0, FilePage(start, s, k))
  {
  }

  /** Storing bytes outside the tables. */
  lemma BytesStored(m0: Memory, r: nat, t: Tables, u0: nat, f: nat, m1: Memory, u1: nat)
    requires TreeOk(m0, t, u0, r) && u0 <= u1 && |m1| == |m0| && f !in t
    requires forall g: nat {:trigger m1[g]} :: g < |m0| && g != f ==> m1[g] == m0[g]
    ensures TreeOk(m1, t, u1, r)
    ensures forall ix {:trigger Translate(m1, r, ix)} :: IsPath(ix, 4) ==> Translate(m1, r, ix) == Translate(m0, r, ix)
  {
    hide Walk, LinkOk, HasParent, SettledBut;
    if r != 0 {
      forall g: nat {:trigger SameFrame(m0, m1, g)} | g in t ensures SameFrame(m0, m1, g) {
        assert TableOk(m0, t, u0, g);
      }
      FramesKeepTables(m0, t, u0, r, m1);
    }
    LimitGrows(m1, t, u0, r, u1);
  }

  lemma BytesKeepWrites(m0: Memory, r: nat, t: Tables, u0: nat, f: nat, m1: Memory)
    requires TreeOk(m0, t, u0, r) && |m1| == |m0| && f !in t
    requires forall g: nat {:trigger m1[g]} :: g < |m0| && g != f ==> m1[g] == m0[g]
    ensures WritesKept(m0, r, m1, r)
  {
    hide Walk, LinkOk, HasParent, SettledBut, Writable, Unaliased;
    forall g: nat {:trigger SameFrame(m0, m1, g)} | g in t ensures SameFrame(m0, m1, g) {
      assert r != 0 ==> TableOk(m0, t, u0, g);
    }
    FramesKeepWrites(m0, t, u0, r, m1);
  }

  /** The pages visited before page n of segment pi can be written, and none can be written less than before. */
  ghost predicate LoadedWritable(m0: Memory, r0: nat, phdrs: seq<Phdr>, mem: Memory, pml4: nat, pi: nat, n: nat) {
    && WritesKept(m0, r0, mem, pml4)
    && forall a: nat, k: nat {:trigger Visits(phdrs[a], k)} ::
         a < |phdrs| && Visits(phdrs[a], k) && Before(a, k, pi, n) ==> Writable(mem, pml4, Indices(Virt(phdrs[a], k)))
  }

  lemma WritableBegins(m: Memory, r: nat, phdrs: seq<Phdr>)
    ensures LoadedWritable(m, r, phdrs, m, r, 0, 0)
  {
    hide Writable, Indices, Visits;
  }

  lemma OneMoreWritable(m0: Memory, r0: nat, phdrs: seq<Phdr>, m1: Memory, r1: nat, pi: nat, n: nat, m2: Memory, r2: nat)
    requires LoadedWritable(m0, r0, phdrs, m1, r1, pi, n) && WritesKept(m1, r1, m2, r2)
    requires pi < |phdrs| && Writable(m2, r2, Indices(Virt(phdrs[pi], n)))
    ensures LoadedWritable(m0, r0, phdrs, m2, r2, pi, n + 1)
  {
    hide Writable, Indices, Visits;
    WritesTrans(m0, r0, m1, r1, m2, r2);
    forall a: nat, k: nat {:trigger Visits(phdrs[a], k)} | a < |phdrs| && Visits(phdrs[a], k) && Before(a, k, pi, n + 1)
      ensures Writable(m2, r2, Indices(Virt(phdrs[a], k)))
    {
      if Before(a, k, pi, n) { assert Writable(m1, r1, Indices(Virt(phdrs[a], k))); }
    }
  }

  lemma WritableNext(m0: Memory, r0: nat, phdrs: seq<Phdr>, m: Memory, r: nat, pi: nat, n: nat)
    requires LoadedWritable(m0, r0, phdrs, m, r, pi, n) && pi < |phdrs|
    requires forall k: nat {:trigger Visits(phdrs[pi], k)} :: k >= n ==> !Visits(phdrs[pi], k)
    ensures LoadedWritable(m0, r0, phdrs, m, r, pi + 1, 0)
  {
    hide Writable, Indices, Visits;
    forall a: nat, k: nat {:trigger Visits(phdrs[a], k)} | a < |phdrs| && Visits(phdrs[a], k) && Before(a, k, pi + 1, 0)
      ensures Writable(m, r, Indices(Virt(phdrs[a], k)))
    {
      assert Before(a, k, pi, n);
    }
  }

  lemma OthersFrom(m0: Memory, m1: Memory, r0: nat, m2: Memory, r2: nat, but: seq<nat>)
    requires forall ix {:trigger Translate(m1, r0, ix)} :: IsPath(ix, 4) ==> Translate(m1, r0, ix) == Translate(m0, r0, ix)
    requires OtherPages(m1, r0, m2, r2, but)
    ensures OtherPages(m0, r0, m2, r2, but)
  {
    hide Translate;
    forall ix {:trigger Translate(m2, r2, ix)} | IsPath(ix, 4) && ix != but ensures Translate(m2, r2, ix) == Translate(m0, r0, ix) {
      assert Translate(m1, r0, ix) == Translate(m0, r0, ix);
    }
  }

  lemma Kept(m1: Memory, t0: Tables, u1: nat, m2: Memory, t2: Tables, page: nat)
    requires DataKept(m1, t0, u1, m2) && Grown(t0, u1, t2) && page < u1 && page !in t0 && page < |m1|
    ensures page < |m2| && m2[page] == m1[page] && page !in t2
  {
    assert m2[page] == m1[page];
    assert page in t2 ==> page in t0;
  }

  lemma GrownFrom(t0: Tables, u0: nat, u1: nat, t2: Tables)
    requires Grown(t0, u1, t2) && u0 <= u1
    ensures Grown(t0, u0, t2)
  {
  }

  // ---------- All segments ----------

  lemma {:induction false} RoomOf(phdrs: seq<Phdr>, pi: nat)
    requires pi < |phdrs|
    ensures RoomNeeded(phdrs[pi..]) == 5 * PageCount(phdrs[pi]) + RoomNeeded(phdrs[pi + 1..])
  {
    assert phdrs[pi..][1..] == phdrs[pi + 1..];
  }

  lemma PagesOf(s: Phdr, k: nat)
    requires s.load
    ensures Visits(s, k) <==> k < PageCount(s)
  {
    var q := (s.memsz + PAGE_SIZE - 1) / PAGE_SIZE;
    if k < q { assert k * PAGE_SIZE <= (q - 1) * PAGE_SIZE; }
  }

  lemma LoadBegins(m0: Memory, t0: Tables, u0: nat, start: nat, phdrs: seq<Phdr>, r: nat)
    requires WellFormed(m0, t0, u0, start, phdrs)
    ensures LoadState(m0, t0, u0, start, phdrs, m0, t0, u0, r, 0, 0)
  {
    hide Translate, Image, Indices;
    forall a: nat, k: nat {:trigger Visits(phdrs[a], k)} |
      a < |phdrs| && Visits(phdrs[a], k) && InFile(phdrs[a], k) && !Before(a, k, 0, 0)
      ensures var f := FilePage(start, phdrs[a], k); f < |m0|
    {
      assert Placed(m0, t0, u0, start, phdrs[a], k);
    }
  }

  /** The page about to be loaded still has its file contents. */
  lemma NextPage(m0: Memory, t0: Tables, u0: nat, start: nat, phdrs: seq<Phdr>, mem: Memory, t: Tables, used: nat, r: nat, pi: nat, n: nat)
    requires WellFormed(m0, t0, u0, start, phdrs) && LoadState(m0, t0, u0, start, phdrs, mem, t, used, r, pi, n)
    requires pi < |phdrs| && Visits(phdrs[pi], n)
    ensures Placed(mem, t, used, start, phdrs[pi], n) && Placed(m0, t0, u0, start, phdrs[pi], n)
    ensures Image(mem, start, phdrs[pi], n) == Image(m0, start, phdrs[pi], n)
  {
    hide Translate, Indices, Canonical, PageLoaded;
    assert Visits(phdrs[pi], n) && Placed(m0, t0, u0, start, phdrs[pi], n);
    if InFile(phdrs[pi], n) {
      var f := FilePage(start, phdrs[pi], n);
      assert mem[f] == m0[f];
      assert f in t ==> f in t0;
    }
  }

  /** Loading one more page leaves those loaded before, and the files of those to come. */
  lemma PageDone(m0: Memory, t0: Tables, u0: nat, start: nat, phdrs: seq<Phdr>,
      m1: Memory, t1: Tables, u1: nat, r1: nat, pi: nat, n: nat, m2: Memory, t2: Tables, u2: nat, r2: nat, page: nat)
    requires WellFormed(m0, t0, u0, start, phdrs) && LoadState(m0, t0, u0, start, phdrs, m1, t1, u1, r1, pi, n)
    requires pi < |phdrs| && Visits(phdrs[pi], n) && u1 <= u2 && |m2| == |m1| && Grown(t1, u1, t2)
    requires (InFile(phdrs[pi], n) ==> IsBytes(m0, FilePage(start, phdrs[pi], n)))
    requires Translate(m2, r2, Indices(Virt(phdrs[pi], n))) == Page(Entry(page, IDENTITY))
    requires OtherPages(m1, r1, m2, r2, Indices(Virt(phdrs[pi], n)))
    requires page < u2 && page < |m2| && page !in t2 && m2[page] == Bytes(Image(m0, start, phdrs[pi], n))
    requires if InFile(phdrs[pi], n) then page == FilePage(start, phdrs[pi], n) else page >= u1
    requires forall f: nat {:trigger m2[f]} :: f < u1 && f < |m2| && f !in t1 && f != page ==> m2[f] == m1[f]
    ensures LoadState(m0, t0, u0, start, phdrs, m2, t2, u2, r2, pi, n + 1)
  {
    hide Translate, Image, Indices, Canonical, OtherPages, Grown, PageLoaded;
    GrownTrans(t0, u0, t1, u1, t2);
    forall a: nat, k: nat {:trigger Visits(phdrs[a], k)} | a < |phdrs| && Visits(phdrs[a], k) && Before(a, k, pi, n + 1)
      ensures Placed(m0, t0, u0, start, phdrs[a], k)
      ensures PageLoaded(m0, u0, start, m2, t2, u2, r2, phdrs[a], k)
    {
      assert Placed(m0, t0, u0, start, phdrs[a], k);
      if (a, k) == (pi, n) {
        ThisLoaded(m0, u0, u1, start, m2, t2, u2, r2, phdrs[a], k, page);
      } else {
        assert Separate(start, phdrs[a], k, phdrs[pi], n);
        assert Placed(m0, t0, u0, start, phdrs[pi], n);
        StillLoaded(m0, t0, u0, start, m1, t1, u1, r1, m2, t2, u2, r2, phdrs[a], k, phdrs[pi], n, page);
      }
    }
    forall a: nat, k: nat {:trigger Visits(phdrs[a], k)} |
      a < |phdrs| && Visits(phdrs[a], k) && InFile(phdrs[a], k) && !Before(a, k, pi, n + 1)
      ensures var f := FilePage(start, phdrs[a], k); f < |m2| && f < |m0| && m2[f] == m0[f]
    {
      assert Placed(m0, t0, u0, start, phdrs[a], k);
      assert (a, k) != (pi, n) && Separate(start, phdrs[a], k, phdrs[pi], n);
      var f := FilePage(start, phdrs[a], k);
      NotNew(t0, u0, t1, f);
      assert m1[f] == m0[f];
      assert m2[f] == m1[f];
    }
  }

  lemma NotNew(t0: Tables, u0: nat, t1: Tables, f: nat)
    requires Grown(t0, u0, t1) && f < u0 && f !in t0
    ensures f !in t1
  {
  }

  lemma ThisLoaded(m0: Memory, u0: nat, u1: nat, start: nat, m2: Memory, t2: Tables, u2: nat, r2: nat, s: Phdr, k: nat, page: nat)
    requires (InFile(s, k) ==> IsBytes(m0, FilePage(start, s, k))) && u0 <= u1
    requires Translate(m2, r2, Indices(Virt(s, k))) == Page(Entry(page, IDENTITY))
    requires page < u2 && page < |m2| && page !in t2 && m2[page] == Bytes(Image(m0, start, s, k))
    requires if InFile(s, k) then page == FilePage(start, s, k) else page >= u1
    ensures PageLoaded(m0, u0, start, m2, t2, u2, r2, s, k)
  {
    hide Translate, Image, Indices;
  }

  lemma StillLoaded(m0: Memory, t0: Tables, u0: nat, start: nat, m1: Memory, t1: Tables, u1: nat, r1: nat, m2: Memory, t2: Tables, u2: nat, r2: nat,
      s: Phdr, k: nat, b: Phdr, n: nat, page: nat)
    requires Placed(m0, t0, u0, start, s, k) && Visits(s, k) && PageLoaded(m0, u0, start, m1, t1, u1, r1, s, k)
    requires Visits(b, n) && Separate(start, s, k, b, n) && Placed(m0, t0, u0, start, b, n)
    requires OtherPages(m1, r1, m2, r2, Indices(Virt(b, n))) && Grown(t1, u1, t2) && u1 <= u2 && |m2| == |m1| && u0 <= u1
    requires if InFile(b, n) then page == FilePage(start, b, n) else page >= u1
    requires forall f: nat {:trigger m2[f]} :: f < u1 && f < |m2| && f !in t1 && f != page ==> m2[f] == m1[f]
    ensures PageLoaded(m0, u0, start, m2, t2, u2, r2, s, k)
  {
    hide Translate, Image, Indices, Canonical;
    if Indices(Virt(s, k)) == Indices(Virt(b, n)) { IndicesInjective(Virt(s, k), Virt(b, n)); }
    assert Translate(m2, r2, Indices(Virt(s, k))) == Translate(m1, r1, Indices(Virt(s, k)));
    var f := Translate(m1, r1, Indices(Virt(s, k))).entry.frame;
    assert f in t2 ==> f in t1;
    assert f != page;
    assert m2[f] == m1[f];
  }

  lemma NextSegment(m0: Memory, t0: Tables, u0: nat, start: nat, phdrs: seq<Phdr>, mem: Memory, t: Tables, used: nat, r: nat, pi: nat, n: nat)
    requires WellFormed(m0, t0, u0, start, phdrs) && LoadState(m0, t0, u0, start, phdrs, mem, t, used, r, pi, n)
    requires pi < |phdrs| && forall k: nat {:trigger Visits(phdrs[pi], k)} :: k >= n ==> !Visits(phdrs[pi], k)
    ensures LoadState(m0, t0, u0, start, phdrs, mem, t, used, r, pi + 1, 0)
  {
    hide Translate, Image, Indices, Canonical, PageLoaded;
    forall a: nat, k: nat {:trigger Visits(phdrs[a], k)} | a < |phdrs| && Visits(phdrs[a], k) && Before(a, k, pi + 1, 0)
      ensures Placed(m0, t0, u0, start, phdrs[a], k) && PageLoaded(m0, u0, start, mem, t, used, r, phdrs[a], k)
    {
      assert Before(a, k, pi, n);
      assert Placed(m0, t0, u0, start, phdrs[a], k);
    }
  }

  /** One more page is loaded, and nothing else changes. */
  lemma FrameStep(m0: Memory, t0: Tables, u0: nat, r0: nat, start: nat, phdrs: seq<Phdr>,
      m1: Memory, t1: Tables, u1: nat, r1: nat, pi: nat, n: nat, m2: Memory, t2: Tables, r2: nat, page: nat)
    requires LoadFrame(m0, t0, u0, r0, start, phdrs, m1, t1, r1, pi, n) && pi < |phdrs| && Visits(phdrs[pi], n)
    requires u0 <= u1 && |m1| == |m0| == |m2| && Grown(t0, u0, t1)
    requires OtherPages(m1, r1, m2, r2, Indices(Virt(phdrs[pi], n)))
    requires t2.Values == t1.Values + Places(Indices(Virt(phdrs[pi], n)))
    requires if InFile(phdrs[pi], n) then page == FilePage(start, phdrs[pi], n) else page >= u1
    requires forall f: nat {:trigger m2[f]} :: f < u1 && f < |m2| && f !in t1 && f != page ==> m2[f] == m1[f]
    ensures LoadFrame(m0, t0, u0, r0, start, phdrs, m2, t2, r2, pi, n + 1)
  {
    hide Translate, Indices, Visits, Places;
    assert Visits(phdrs[pi], n);
    forall ix {:trigger Translate(m2, r2, ix)} | IsPath(ix, 4) && !IsLoaded(phdrs, pi, n + 1, ix)
      ensures Translate(m2, r2, ix) == Translate(m0, r0, ix)
    {
      assert Before(pi, n, pi, n + 1);
      assert ix != Indices(Virt(phdrs[pi], n));
      assert !IsLoaded(phdrs, pi, n, ix);
      assert Translate(m1, r1, ix) == Translate(m0, r0, ix);
    }
    forall p {:trigger p in t2.Values} | p in t2.Values ensures p in t0.Values || OnTheWay(phdrs, pi, n + 1, p) {
      if p in t1.Values {
        assert p in t0.Values || OnTheWay(phdrs, pi, n, p);
      } else {
        assert Before(pi, n, pi, n + 1);
      }
    }
    forall f: nat {:trigger m2[f]} | f < u0 && f < |m0| && f !in t0 && !IsFilePage(start, phdrs, f) ensures m2[f] == m0[f] {
      assert f !in t1;
      assert m1[f] == m0[f];
    }
  }

  lemma FrameNext(m0: Memory, t0: Tables, u0: nat, r0: nat, start: nat, phdrs: seq<Phdr>, mem: Memory, t: Tables, r: nat, pi: nat, n: nat)
    requires LoadFrame(m0, t0, u0, r0, start, phdrs, mem, t, r, pi, n)
    ensures LoadFrame(m0, t0, u0, r0, start, phdrs, mem, t, r, pi + 1, 0)
  {
    hide Translate, Indices, Visits, Places;
    forall ix {:trigger Translate(mem, r, ix)} | IsPath(ix, 4) && !IsLoaded(phdrs, pi + 1, 0, ix)
      ensures Translate(mem, r, ix) == Translate(m0, r0, ix)
    {
      assert !IsLoaded(phdrs, pi, n, ix);
    }
    forall p {:trigger p in t.Values} | p in t.Values ensures p in t0.Values || OnTheWay(phdrs, pi + 1, 0, p) {
      assert p in t0.Values || OnTheWay(phdrs, pi, n, p);
    }
  }

  lemma FrameBegins(m0: Memory, t0: Tables, u0: nat, r0: nat, start: nat, phdrs: seq<Phdr>)
    ensures LoadFrame(m0, t0, u0, r0, start, phdrs, m0, t0, r0, 0, 0)
  {
    hide Translate, Indices, Visits, Places;
  }

  /** The program-header loop of load_kernel: every page of every segment ends up loaded. */
  method LoadSegments(l: Loader, start: nat, phdrs: seq<Phdr>)
    requires l.Valid() && WellFormed(l.mem, l.t, l.used, start, phdrs) && l.used + RoomNeeded(phdrs) <= |l.mem|
    modifies l
    ensures l.Valid()
    ensures LoadState(old(l.mem), old(l.t), old(l.used), start, phdrs, l.mem, l.t, l.used, l.pml4, |phdrs|, 0)
    ensures LoadFrame(old(l.mem), old(l.t), old(l.used), old(l.pml4), start, phdrs, l.mem, l.t, l.pml4, |phdrs|, 0)
    ensures l.used <= old(l.used) + RoomNeeded(phdrs)
    ensures LoadedWritable(old(l.mem), old(l.pml4), phdrs, l.mem, l.pml4, |phdrs|, 0)
  {
    hide LoadedWritable, Writable, WritesKept, Indices, Translate, TreeOk, Grown, OtherPages, Image, LoadState, LoadFrame, WellFormed,
      Placed, Visits, Places;
    ghost var m0, t0, u0, r0 := l.mem, l.t, l.used, l.pml4;
    LoadBegins(m0, t0, u0, start, phdrs, l.pml4);
    FrameBegins(m0, t0, u0, r0, start, phdrs);
    WritableBegins(m0, r0, phdrs);
    var pi := 0;
    assert phdrs[0..] == phdrs;
    while pi < |phdrs|
      invariant pi <= |phdrs| && l.Valid() && WellFormed(m0, t0, u0, start, phdrs)
      invariant LoadState(m0, t0, u0, start, phdrs, l.mem, l.t, l.used, l.pml4, pi, 0)
      invariant LoadFrame(m0, t0, u0, r0, start, phdrs, l.mem, l.t, l.pml4, pi, 0)
      invariant LoadedWritable(m0, r0, phdrs, l.mem, l.pml4, pi, 0)
      invariant |l.mem| == |m0| && l.used + RoomNeeded(phdrs[pi..]) <= u0 + RoomNeeded(phdrs)
    {
      var s := phdrs[pi];
      RoomOf(phdrs, pi);
      var k := 0;
      if s.load {
        PagesOf(s, 0);
        while k * PAGE_SIZE < s.memsz
          invariant k <= PageCount(s) && l.Valid() && WellFormed(m0, t0, u0, start, phdrs)
          invariant LoadState(m0, t0, u0, start, phdrs, l.mem, l.t, l.used, l.pml4, pi, k)
          invariant LoadFrame(m0, t0, u0, r0, start, phdrs, l.mem, l.t, l.pml4, pi, k)
          invariant LoadedWritable(m0, r0, phdrs, l.mem, l.pml4, pi, k)
          invariant |l.mem| == |m0| && l.used + 5 * (PageCount(s) - k) + RoomNeeded(phdrs[pi + 1..]) <= u0 + RoomNeeded(phdrs)
          decreases PageCount(s) - k
        {
          VisitsNow(s, k);
          PagesOf(s, k);
          ghost var m1, t1, u1, r1 := l.mem, l.t, l.used, l.pml4;
          NextPage(m0, t0, u0, start, phdrs, m1, t1, u1, r1, pi, k);
          BackedByFile(m0, t0, u0, start, s, k);
          ghost var page := LoadPage(l, start, s, k);
          StateSays(m0, t0, u0, start, phdrs, m1, t1, u1, r1, pi, k);
          PageDone(m0, t0, u0, start, phdrs, m1, t1, u1, r1, pi, k, l.mem, l.t, l.used, l.pml4, page);
          FrameStep(m0, t0, u0, r0, start, phdrs, m1, t1, u1, r1, pi, k, l.mem, l.t, l.pml4, page);
          OneMoreWritable(m0, r0, phdrs, m1, r1, pi, k, l.mem, l.pml4);
          k := k + 1;
        }
      }
      NoMore(s, k);
      WritableNext(m0, r0, phdrs, l.mem, l.pml4, pi, k);
      NextSegment(m0, t0, u0, start, phdrs, l.mem, l.t, l.used, l.pml4, pi, k);
      FrameNext(m0, t0, u0, r0, start, phdrs, l.mem, l.t, l.pml4, pi, k);
      pi := pi + 1;
    }
  }

  lemma StateSays(m0: Memory, t0: Tables, u0: nat, start: nat, phdrs: seq<Phdr>, mem: Memory, t: Tables, used: nat, r: nat, pi: nat, n: nat)
    requires WellFormed(m0, t0, u0, start, phdrs) && LoadState(m0, t0, u0, start, phdrs, mem, t, used, r, pi, n)
    ensures u0 <= used && |mem| == |m0| && Grown(t0, u0, t)
  {
  }

  lemma VisitsNow(s: Phdr, k: nat)
    requires s.load && k * PAGE_SIZE < s.memsz
    ensures Visits(s, k)
  {
  }

  lemma BackedByFile(m0: Memory, t0: Tables, u0: nat, start: nat, s: Phdr, k: nat)
    requires Placed(m0, t0, u0, start, s, k) && Visits(s, k)
    ensures InFile(s, k) ==> IsBytes(m0, FilePage(start, s, k))
  {
  }

  lemma NoMore(s: Phdr, n: nat)
    requires !s.load || n * PAGE_SIZE >= s.memsz
    ensures forall k: nat {:trigger Visits(s, k)} :: k >= n ==> !Visits(s, k)
  {
  }

  // ---------- Reading through the tables ----------

  /** The byte that the processor reads at a virtual address; -1 if there is none. */
  function ReadByte(mem: Memory, pml4: nat, virt: nat): int {
    var tr := Translate(mem, pml4, Indices(virt));
    if tr.Page? && IsBytes(mem, tr.entry.frame) then FrameBytes(mem, tr.entry.frame)[virt % PAGE_SIZE] else -1
  }

  /** Byte o of the file image at start. */
  function FileByte(mem: Memory, start: nat, o: nat): int {
    if IsBytes(mem, start + o / PAGE_SIZE) then FrameBytes(mem, start + o / PAGE_SIZE)[o % PAGE_SIZE] else -1
  }

  /**
    Reading a loaded segment gives the file's byte below p_filesz and 0 from there to p_memsz
    (System V Application Binary Interface, chapter 5, "Program Header").
   */
  lemma SegmentReadsBack(m0: Memory, t0: Tables, u0: nat, start: nat, phdrs: seq<Phdr>, mem: Memory, t: Tables, used: nat, pml4: nat,
      a: nat, b: nat)
    requires WellFormed(m0, t0, u0, start, phdrs)
    requires LoadState(m0, t0, u0, start, phdrs, mem, t, used, pml4, |phdrs|, 0)
    requires a < |phdrs| && phdrs[a].load && b < phdrs[a].memsz
    ensures ReadByte(mem, pml4, phdrs[a].vaddr + b)
         == if b < phdrs[a].filesz then FileByte(m0, start, phdrs[a].offset * PAGE_SIZE + b) else 0
  {
    hide Translate, Indices;
    var s, k, j := phdrs[a], b / PAGE_SIZE, b % PAGE_SIZE;
    assert Visits(s, k);
    assert Placed(m0, t0, u0, start, s, k);
    assert PageLoaded(m0, u0, start, mem, t, used, pml4, s, k);
    SameIndices(Virt(s, k), j);
    DivIs(s.offset * PAGE_SIZE + b, s.offset + k, PAGE_SIZE, j);
  }

  /** All bytes of a page are translated alike. */
  lemma SameIndices(v: nat, j: nat)
    requires PageAligned(v) && j < PAGE_SIZE
    ensures Indices(v + j) == Indices(v) && (v + j) % PAGE_SIZE == j
  {
    var p := v / PAGE_SIZE;
    DivIs(v + j, p, PAGE_SIZE, j);
    DivIs(v, p, PAGE_SIZE, 0);
    DivDiv(v, BIT_12, 512); DivDiv(v + j, BIT_12, 512);
    DivDiv(v, BIT_21, 512); DivDiv(v + j, BIT_21, 512);
    DivDiv(v, BIT_30, 512); DivDiv(v + j, BIT_30, 512);
  }
  // ---------- The window ----------

  const WINDOW_SIZE := 4
  const WINDOW_PAGES := 0xffff_ffff_ffff_c000 // _phys_window_pages of linker.ld
  const WINDOW_PT := 0xffff_ffff_ffff_b000 // _phys_window_pt
  const WINDOW_PATH: seq<nat> := [511, 511, 511]
  const PT_PATH: seq<nat> := [511, 511, 511, 507]

  /** The window pages and the page that shows their table lie in one leaf table. */
  lemma WindowIndices(k: nat)
    requires k < WINDOW_SIZE
    ensures Indices(WINDOW_PAGES + k * PAGE_SIZE) == [511, 511, 511, 508 + k] && Indices(WINDOW_PT) == PT_PATH
    ensures Canonical(WINDOW_PAGES + k * PAGE_SIZE) && PageAligned(WINDOW_PAGES + k * PAGE_SIZE)
    ensures Canonical(WINDOW_PT) && PageAligned(WINDOW_PT)
  {
  }

  ghost predicate WindowMapped(mem: Memory, pml4: nat, n: nat) {
    forall k: nat {:trigger Indices(WINDOW_PAGES + k * PAGE_SIZE)} :: k < n ==>
      Translate(mem, pml4, Indices(WINDOW_PAGES + k * PAGE_SIZE)) == Page(Entry(0, IDENTITY))
  }

  /** The four window pages and the page that shows their table. */
  predicate IsReserved(ix: seq<nat>) { |ix| == 4 && ix[..3] == WINDOW_PATH && ix[3] >= 507 }

  ghost predicate WindowWritable(mem: Memory, pml4: nat, n: nat) {
    forall k: nat {:trigger Indices(WINDOW_PAGES + k * PAGE_SIZE)} :: k < n ==> Writable(mem, pml4, Indices(WINDOW_PAGES + k * PAGE_SIZE))
  }

  lemma KeepsWritable(m1: Memory, r1: nat, m2: Memory, r2: nat, n: nat)
    requires WindowWritable(m1, r1, n) && WritesKept(m1, r1, m2, r2)
    ensures WindowWritable(m2, r2, n)
  {
    hide Writable, Indices;
    forall k: nat {:trigger Indices(WINDOW_PAGES + k * PAGE_SIZE)} | k < n ensures Writable(m2, r2, Indices(WINDOW_PAGES + k * PAGE_SIZE)) {
      assert Writable(m1, r1, Indices(WINDOW_PAGES + k * PAGE_SIZE));
    }
  }

  lemma MoreWritable(m1: Memory, r1: nat, m2: Memory, r2: nat, n: nat)
    requires (n > 0 ==> WindowWritable(m1, r1, n)) && WritesKept(m1, r1, m2, r2) && Writable(m2, r2, Indices(WINDOW_PAGES + n * PAGE_SIZE))
    ensures WindowWritable(m2, r2, n + 1)
  {
    hide Writable, Indices;
    if n > 0 { KeepsWritable(m1, r1, m2, r2, n); }
    forall k: nat {:trigger Indices(WINDOW_PAGES + k * PAGE_SIZE)} | k < n + 1 ensures Writable(m2, r2, Indices(WINDOW_PAGES + k * PAGE_SIZE)) {
      assert k < n || k == n;
    }
  }

  /** All other translations are as before. */
  ghost predicate OutsideWindow(m0: Memory, r0: nat, m1: Memory, r1: nat) {
    forall ix {:trigger Translate(m1, r1, ix)} :: IsPath(ix, 4) && !IsReserved(ix) ==> Translate(m1, r1, ix) == Translate(m0, r0, ix)
  }

  /** The other pages of the last 2 MiB fault. */
  ghost predicate RestFaults(mem: Memory, pml4: nat) {
    forall ix {:trigger Translate(mem, pml4, ix)} :: IsPath(ix, 4) && ix[..3] == WINDOW_PATH && ix[3] < 507 ==> Translate(mem, pml4, ix) == Fault
  }

  /**
    The end of load_kernel. If the last 2 MiB had no table yet, the first window page creates
    it as the newest page, so the page before the end of used memory is the table itself: it
    becomes visible at _phys_window_pt.
   */
  method HandOver(l: Loader) returns (ghost pt: nat)
    requires l.Valid() && WINDOW_PATH !in l.t.Values && l.used + 4 <= |l.mem|
    modifies l
    ensures l.Valid() && l.pml4 != 0 && pt in l.t && l.t[pt] == WINDOW_PATH && pt == l.used - 1
    ensures Translate(l.mem, l.pml4, Indices(WINDOW_PT)) == Page(Entry(pt, IDENTITY))
    ensures WindowMapped(l.mem, l.pml4, WINDOW_SIZE)
    ensures OutsideWindow(old(l.mem), old(l.pml4), l.mem, l.pml4) && RestFaults(l.mem, l.pml4)
    ensures DataKept(old(l.mem), old(l.t), old(l.used), l.mem) && Grown(old(l.t), old(l.used), l.t)
    ensures old(l.used) <= l.used <= old(l.used) + 4
    ensures WindowWritable(l.mem, l.pml4, WINDOW_SIZE) && Writable(l.mem, l.pml4, PT_PATH) && WritesKept(old(l.mem), old(l.pml4), l.mem, l.pml4)
  {
    hide Writable, WritesKept, WindowWritable, RightsKept, Asked, HasBit;
    hide Indices, Translate, TreeOk, Grown, OtherPages, With, Canonical, DataKept, Places, Missing, OutsideWindow, RestFaults, IsReserved;
    ghost var m0, t0, u0, r0 := l.mem, l.t, l.used, l.pml4;
    WindowIndices(0);
    WindowRoom(l.t.Values);
    pt := l.MapPage(WINDOW_PAGES, 0, With(PAGE_RW_BIT, PAGE_G_BIT));
    FlagsAre();
    Outside(m0, r0, m0, r0, l.mem, l.pml4, 508);
    MoreWritable(m0, r0, l.mem, l.pml4, 0);
    var wi := 1;
    while wi < WINDOW_SIZE
      invariant 1 <= wi <= WINDOW_SIZE && l.Valid() && l.pml4 != 0 && pt in l.t && l.t[pt] == WINDOW_PATH && pt == l.used - 1
      invariant Places([511, 511, 511, 0]) <= l.t.Values && WindowMapped(l.mem, l.pml4, wi) && OutsideWindow(m0, r0, l.mem, l.pml4)
      invariant DataKept(m0, t0, u0, l.mem) && Grown(t0, u0, l.t) && |l.mem| == |m0| && u0 <= l.used <= u0 + 4
      invariant WindowWritable(l.mem, l.pml4, wi) && WritesKept(m0, r0, l.mem, l.pml4)
    {
      ghost var m1, r1, t1, u1 := l.mem, l.pml4, l.t, l.used;
      WindowIndices(wi);
      NoneMissing(l.t.Values, 508 + wi);
      ghost var _ := l.MapPage(WINDOW_PAGES + wi * PAGE_SIZE, 0, With(PAGE_RW_BIT, PAGE_G_BIT));
      Outside(m0, r0, m1, r1, l.mem, l.pml4, 508 + wi);
      MoreWindow(m1, r1, l.mem, l.pml4, wi);
      MoreWritable(m1, r1, l.mem, l.pml4, wi);
      WritesTrans(m0, r0, m1, r1, l.mem, l.pml4);
      GrownKeeps(t1, u1, l.t, pt);
      KeptTrans(m0, t0, u0, m1, t1, u1, l.mem);
      GrownTrans(t0, u0, t1, u1, l.t);
      wi := wi + 1;
    }
    ghost var m1, r1, t1, u1 := l.mem, l.pml4, l.t, l.used;
    NoneMissing(l.t.Values, 507);
    ghost var _ := l.MapPage(WINDOW_PT, l.used - 1, With(PAGE_RW_BIT, PAGE_G_BIT));
    Outside(m0, r0, m1, r1, l.mem, l.pml4, 507);
    KeepsWindow(m1, r1, l.mem, l.pml4);
    KeepsWritable(m1, r1, l.mem, l.pml4, WINDOW_SIZE);
    WritesTrans(m0, r0, m1, r1, l.mem, l.pml4);
    GrownKeeps(t1, u1, l.t, pt);
    KeptTrans(m0, t0, u0, m1, t1, u1, l.mem);
    GrownTrans(t0, u0, t1, u1, l.t);
    NoTableFaults(m0, t0, u0, r0, l.mem, l.pml4);
  }

  /** Where the tree has no leaf table every page faults. */
  lemma {:induction false} FaultsBelow(mem: Memory, t: Tables, limit: nat, root: nat, f: nat, rest: seq<nat>)
    requires TablesOk(mem, t, limit, root) && f in t && |t[f]| + |rest| == 4 && IsPath(rest, |rest|) && 0 < |rest|
    requires t[f] + rest[..|rest| - 1] !in t.Values
    ensures Walk(mem, f, rest) == Fault
    decreases |rest|
  {
    assert TableOk(mem, t, limit, f);
    assert t[f] + [] == t[f] && rest[..0] == [];
    if |rest| > 1 {
      assert LinkOk(mem, t, f, rest[0]);
      var e := EntryAt(mem, f, rest[0]);
      if Present(e) {
        assert t[f] + rest[..|rest| - 1] == t[e.frame] + rest[1..][..|rest[1..]| - 1];
        FaultsBelow(mem, t, limit, root, e.frame, rest[1..]);
      }
    }
  }

  lemma NoTableFaults(m0: Memory, t0: Tables, u0: nat, r0: nat, m1: Memory, r1: nat)
    requires TreeOk(m0, t0, u0, r0) && WINDOW_PATH !in t0.Values && OutsideWindow(m0, r0, m1, r1)
    ensures RestFaults(m1, r1)
  {
    hide Walk, TablesOk;
    forall ix {:trigger Translate(m1, r1, ix)} | IsPath(ix, 4) && ix[..3] == WINDOW_PATH && ix[3] < 507
      ensures Translate(m1, r1, ix) == Fault
    {
      assert Translate(m1, r1, ix) == Translate(m0, r0, ix);
      if r0 != 0 {
        RootAt(m0, t0, u0, r0);
        assert t0[r0] + ix[..3] == ix[..3];
        FaultsBelow(m0, t0, u0, r0, r0, ix);
      }
    }
  }

  lemma RootAt(mem: Memory, t: Tables, limit: nat, root: nat)
    requires TablesOk(mem, t, limit, root)
    ensures root in t && t[root] == []
  {
  }

  lemma WindowRoom(places: set<seq<nat>>)
    ensures Missing(places, [511, 511, 511, 508]) <= 4
    ensures [511, 511, 511, 508][..3] == [511, 511, 511] && PT_PATH[..3] == [511, 511, 511]
    ensures Places([511, 511, 511, 508]) == Places([511, 511, 511, 0])
    ensures forall k: nat {:trigger [511, 511, 511, k]} :: [511, 511, 511, k][..3] == [511, 511, 511]
  {
    assert [511, 511, 511, 508][..2] == [511, 511, 511, 0][..2] && [511, 511, 511, 508][..1] == [511, 511, 511, 0][..1];
    assert [511, 511, 511, 508][..3] == [511, 511, 511, 0][..3];
  }

  lemma NoneMissing(places: set<seq<nat>>, k: nat)
    requires Places([511, 511, 511, 0]) <= places
    ensures Missing(places, [511, 511, 511, k]) == 0 && places + Places([511, 511, 511, k]) == places
  {
    var a, b := [511, 511, 511, k], [511, 511, 511, 0];
    assert a[..1] == b[..1] && a[..2] == b[..2] && a[..3] == b[..3];
  }

  lemma Outside(m0: Memory, r0: nat, m1: Memory, r1: nat, m2: Memory, r2: nat, last: nat)
    requires 507 <= last && OtherPages(m1, r1, m2, r2, [511, 511, 511, last])
    requires (m1 == m0 && r1 == r0) || OutsideWindow(m0, r0, m1, r1)
    ensures OutsideWindow(m0, r0, m2, r2)
  {
    hide Translate;
    forall jx {:trigger Translate(m2, r2, jx)} | IsPath(jx, 4) && !IsReserved(jx)
      ensures Translate(m2, r2, jx) == Translate(m0, r0, jx)
    {
      assert [511, 511, 511, last][..3] == [511, 511, 511];
      assert Translate(m2, r2, jx) == Translate(m1, r1, jx);
    }
  }

  lemma MoreWindow(m1: Memory, r1: nat, m2: Memory, r2: nat, wi: nat)
    requires wi < WINDOW_SIZE && WindowMapped(m1, r1, wi) && OtherPages(m1, r1, m2, r2, [511, 511, 511, 508 + wi])
    requires Translate(m2, r2, [511, 511, 511, 508 + wi]) == Page(Entry(0, IDENTITY))
    ensures WindowMapped(m2, r2, wi + 1)
  {
    hide Translate, Indices;
    forall k: nat {:trigger Indices(WINDOW_PAGES + k * PAGE_SIZE)} | k < wi + 1
      ensures Translate(m2, r2, Indices(WINDOW_PAGES + k * PAGE_SIZE)) == Page(Entry(0, IDENTITY))
    {
      WindowIndices(k);
      if k < wi {
        assert [511, 511, 511, 508 + k][3] != [511, 511, 511, 508 + wi][3];
        assert Translate(m2, r2, Indices(WINDOW_PAGES + k * PAGE_SIZE)) == Translate(m1, r1, Indices(WINDOW_PAGES + k * PAGE_SIZE));
      }
    }
  }

  lemma KeepsWindow(m1: Memory, r1: nat, m2: Memory, r2: nat)
    requires WindowMapped(m1, r1, WINDOW_SIZE) && OtherPages(m1, r1, m2, r2, PT_PATH)
    ensures WindowMapped(m2, r2, WINDOW_SIZE)
  {
    hide Translate, Indices;
    forall k: nat {:trigger Indices(WINDOW_PAGES + k * PAGE_SIZE)} | k < WINDOW_SIZE
      ensures Translate(m2, r2, Indices(WINDOW_PAGES + k * PAGE_SIZE)) == Page(Entry(0, IDENTITY))
    {
      WindowIndices(k);
      assert [511, 511, 511, 508 + k][3] != PT_PATH[3];
      assert Translate(m2, r2, Indices(WINDOW_PAGES + k * PAGE_SIZE)) == Translate(m1, r1, Indices(WINDOW_PAGES + k * PAGE_SIZE));
    }
  }
}

/**
  From an empty tree of tables to the kernel's mapper: the loader's main loads the kernel, maps
  used memory to itself, and enters the kernel, which goes on with the loader's tables.
 */
module BootPaging {
  import opened Paging
  import opened LoaderPaging
  import opened IdentityPaging
  import opened ElfLoading
  import opened KernelMapper
  import opened Words

  const BIT_32 := 0x1_0000_0000

  /** Every page of the segments lies between these addresses. */
  ghost predicate Between(phdrs: seq<Phdr>, low: nat, high: nat) {
    forall a: nat, k: nat {:trigger Visits(phdrs[a], k)} :: a < |phdrs| && Visits(phdrs[a], k) ==> low <= Virt(phdrs[a], k) < high
  }

  /** Nothing at such a page changes from one tree to another. */
  ghost predicate PagesSame(phdrs: seq<Phdr>, m1: Memory, r1: nat, m2: Memory, r2: nat) {
    forall a: nat, k: nat {:trigger Visits(phdrs[a], k)} :: a < |phdrs| && Visits(phdrs[a], k) ==>
      Translate(m2, r2, Indices(Virt(phdrs[a], k))) == Translate(m1, r1, Indices(Virt(phdrs[a], k)))
  }

  /** A page below the last 2 MiB has no index in the window's table. */
  lemma BelowWindow(v: nat)
    requires Canonical(v) && PageAligned(v) && v < WORD - BIT_21
    ensures Indices(v)[..3] != WINDOW_PATH
  {
    IndicesArePage(v);
    PageNumber(v);
    var ix := Indices(v);
    assert ix[..3][0] == ix[0] && ix[..3][1] == ix[1] && ix[..3][2] == ix[2];
  }

  lemma NotLow(v: nat, j: nat)
    requires Canonical(v) && PageAligned(v) && v >= BIT_32 && j < FRAMES_BELOW_4G
    ensures Indices(v) != Indices(j * PAGE_SIZE)
  {
    hide Indices;
    LowPage(j);
    if Indices(v) == Indices(j * PAGE_SIZE) {
      IndicesInjective(v, j * PAGE_SIZE);
    }
  }

  /** Loaded segments stay loaded while their translations and the frames in use stay. */
  lemma StaysLoaded(m0: Memory, t0: Tables, u0: nat, start: nat, phdrs: seq<Phdr>,
      m1: Memory, t1: Tables, u1: nat, r1: nat, m2: Memory, t2: Tables, u2: nat, r2: nat)
    requires WellFormed(m0, t0, u0, start, phdrs) && LoadState(m0, t0, u0, start, phdrs, m1, t1, u1, r1, |phdrs|, 0)
    requires PagesSame(phdrs, m1, r1, m2, r2) && DataKept(m1, t1, u1, m2) && Grown(t1, u1, t2) && u1 <= u2
    ensures LoadState(m0, t0, u0, start, phdrs, m2, t2, u2, r2, |phdrs|, 0)
  {
    hide Translate, Image, Indices, Canonical;
    GrownTrans(t0, u0, t1, u1, t2);
    forall a: nat, k: nat {:trigger Visits(phdrs[a], k)} | a < |phdrs| && Visits(phdrs[a], k) && Before(a, k, |phdrs|, 0)
      ensures Placed(m0, t0, u0, start, phdrs[a], k) && PageLoaded(m0, u0, start, m2, t2, u2, r2, phdrs[a], k)
    {
      assert Placed(m0, t0, u0, start, phdrs[a], k);
      assert PageLoaded(m0, u0, start, m1, t1, u1, r1, phdrs[a], k);
      var f := Translate(m1, r1, Indices(Virt(phdrs[a], k))).entry.frame;
      assert m2[f] == m1[f];
    }
  }

  lemma WindowSpares(m0: Memory, t0: Tables, u0: nat, start: nat, phdrs: seq<Phdr>, m1: Memory, r1: nat, m2: Memory, r2: nat, low: nat)
    requires WellFormed(m0, t0, u0, start, phdrs) && Between(phdrs, low, WORD - BIT_21) && OutsideWindow(m1, r1, m2, r2)
    ensures PagesSame(phdrs, m1, r1, m2, r2)
  {
    hide Translate, Indices, Canonical;
    forall a: nat, k: nat {:trigger Visits(phdrs[a], k)} | a < |phdrs| && Visits(phdrs[a], k)
      ensures Translate(m2, r2, Indices(Virt(phdrs[a], k))) == Translate(m1, r1, Indices(Virt(phdrs[a], k)))
    {
      assert Placed(m0, t0, u0, start, phdrs[a], k);
      BelowWindow(Virt(phdrs[a], k));
    }
  }

  lemma IdentitySpares(m0: Memory, t0: Tables, u0: nat, start: nat, phdrs: seq<Phdr>, m1: Memory, r1: nat, m2: Memory, r2: nat, n: nat, high: nat)
    requires WellFormed(m0, t0, u0, start, phdrs) && Between(phdrs, BIT_32, high) && BeyondKept(m1, r1, m2, r2, n) && n <= FRAMES_BELOW_4G
    ensures PagesSame(phdrs, m1, r1, m2, r2)
  {
    hide Translate, Indices, Canonical;
    forall a: nat, k: nat {:trigger Visits(phdrs[a], k)} | a < |phdrs| && Visits(phdrs[a], k)
      ensures Translate(m2, r2, Indices(Virt(phdrs[a], k))) == Translate(m1, r1, Indices(Virt(phdrs[a], k)))
    {
      assert Placed(m0, t0, u0, start, phdrs[a], k);
      forall j: nat | j < n ensures Indices(Virt(phdrs[a], k)) != Indices(j * PAGE_SIZE) {
        NotLow(Virt(phdrs[a], k), j);
      }
    }
  }

  /** The leaf table of the window does not come from a segment. */
  lemma WindowStillEmpty(m0: Memory, t0: Tables, u0: nat, start: nat, phdrs: seq<Phdr>, t: Tables, low: nat)
    requires WellFormed(m0, t0, u0, start, phdrs) && Between(phdrs, low, WORD - BIT_21)
    requires WINDOW_PATH !in t0.Values && PlacesKept(t0, phdrs, t, |phdrs|, 0)
    ensures WINDOW_PATH !in t.Values
  {
    hide Indices, Canonical;
    forall p | p in t.Values ensures p != WINDOW_PATH {
      if p !in t0.Values {
        assert OnTheWay(phdrs, |phdrs|, 0, p);
        var a: nat, k: nat :| a < |phdrs| && Visits(phdrs[a], k) && p in Places(Indices(Virt(phdrs[a], k)));
        assert Placed(m0, t0, u0, start, phdrs[a], k);
        BelowWindow(Virt(phdrs[a], k));
        var ix := Indices(Virt(phdrs[a], k));
        assert |ix[..1]| == 1 && |ix[..2]| == 2;
      }
    }
  }

  /** Translations of pages that belong neither to a segment nor to the window. */
  ghost predicate RestKept(m0: Memory, r0: nat, phdrs: seq<Phdr>, mem: Memory, pml4: nat) {
    forall ix {:trigger Translate(mem, pml4, ix)} :: IsPath(ix, 4) && !IsLoaded(phdrs, |phdrs|, 0, ix) && !IsReserved(ix) ==>
      Translate(mem, pml4, ix) == Translate(m0, r0, ix)
  }

  lemma RestIs(m0: Memory, r0: nat, phdrs: seq<Phdr>, m1: Memory, r1: nat, m2: Memory, r2: nat)
    requires OthersKept(m0, r0, phdrs, m1, r1, |phdrs|, 0) && OutsideWindow(m1, r1, m2, r2)
    ensures RestKept(m0, r0, phdrs, m2, r2)
  {
    hide Translate, IsLoaded, IsReserved;
    forall ix {:trigger Translate(m2, r2, ix)} | IsPath(ix, 4) && !IsLoaded(phdrs, |phdrs|, 0, ix) && !IsReserved(ix)
      ensures Translate(m2, r2, ix) == Translate(m0, r0, ix)
    {
      assert Translate(m1, r1, ix) == Translate(m0, r0, ix);
    }
  }

  /** Every page of every segment can be written. */
  ghost predicate SegmentsWritable(mem: Memory, pml4: nat, phdrs: seq<Phdr>) {
    forall a: nat, k: nat {:trigger Visits(phdrs[a], k)} :: a < |phdrs| && Visits(phdrs[a], k) ==> Writable(mem, pml4, Indices(Virt(phdrs[a], k)))
  }

  lemma SegmentsStayWritable(m0: Memory, r0: nat, phdrs: seq<Phdr>, m1: Memory, r1: nat, m2: Memory, r2: nat)
    requires LoadedWritable(m0, r0, phdrs, m1, r1, |phdrs|, 0) && WritesKept(m1, r1, m2, r2)
    ensures SegmentsWritable(m2, r2, phdrs) && WritesKept(m0, r0, m2, r2)
  {
    hide Writable, Indices, Visits;
    WritesTrans(m0, r0, m1, r1, m2, r2);
    forall a: nat, k: nat {:trigger Visits(phdrs[a], k)} | a < |phdrs| && Visits(phdrs[a], k) ensures Writable(m2, r2, Indices(Virt(phdrs[a], k))) {
      assert Before(a, k, |phdrs|, 0);
      assert Writable(m1, r1, Indices(Virt(phdrs[a], k)));
    }
  }

  lemma WritableAfter(phdrs: seq<Phdr>, m1: Memory, r1: nat, m2: Memory, r2: nat)
    requires SegmentsWritable(m1, r1, phdrs) && WindowWritable(m1, r1, WINDOW_SIZE) && Writable(m1, r1, PT_PATH) && WritesKept(m1, r1, m2, r2)
    ensures SegmentsWritable(m2, r2, phdrs) && WindowWritable(m2, r2, WINDOW_SIZE) && Writable(m2, r2, PT_PATH)
  {
    hide Writable, Indices, Visits;
    KeepsWritable(m1, r1, m2, r2, WINDOW_SIZE);
    forall a: nat, k: nat {:trigger Visits(phdrs[a], k)} | a < |phdrs| && Visits(phdrs[a], k) ensures Writable(m2, r2, Indices(Virt(phdrs[a], k))) {
      assert Writable(m1, r1, Indices(Virt(phdrs[a], k)));
    }
    assert Writable(m2, r2, PT_PATH) || !Writable(m2, r2, PT_PATH);
  }

  /** The table pt of the window is in place, and the page before the window shows it. */
  ghost predicate WindowReady(mem: Memory, t: Tables, pml4: nat, pt: nat) {
    && pml4 != 0 && pt in t && t[pt] == WINDOW_PATH
    && Translate(mem, pml4, PT_PATH) == Page(Entry(pt, IDENTITY))
    && RestFaults(mem, pml4)
  }

  /**
    load_kernel: the segments are in place, the window's table is visible, and every other page
    is translated as before.
   */
  method LoadKernel(l: Loader, start: nat, phdrs: seq<Phdr>) returns (ghost pt: nat)
    requires l.Valid() && WellFormed(l.mem, l.t, l.used, start, phdrs) && Between(phdrs, 0, WORD - BIT_21)
    requires l.used + RoomNeeded(phdrs) + 4 <= |l.mem| && WINDOW_PATH !in l.t.Values
    modifies l
    ensures l.Valid() && WindowReady(l.mem, l.t, l.pml4, pt) && WindowMapped(l.mem, l.pml4, WINDOW_SIZE)
    ensures LoadState(old(l.mem), old(l.t), old(l.used), start, phdrs, l.mem, l.t, l.used, l.pml4, |phdrs|, 0)
    ensures RestKept(old(l.mem), old(l.pml4), phdrs, l.mem, l.pml4)
    ensures l.used <= old(l.used) + RoomNeeded(phdrs) + 4 && |l.mem| == old(|l.mem|)
    ensures SegmentsWritable(l.mem, l.pml4, phdrs) && WindowWritable(l.mem, l.pml4, WINDOW_SIZE) && Writable(l.mem, l.pml4, PT_PATH)
    ensures WritesKept(old(l.mem), old(l.pml4), l.mem, l.pml4)
  {
    hide SegmentsWritable, WindowWritable, LoadedWritable, Writable, WritesKept, Indices, Translate, TreeOk, Grown, LoadState, WellFormed,
      OthersKept, PlacesKept, FramesKept, OutsideWindow, RestFaults, Between, DataKept, WindowMapped, Image, RestKept;
    ghost var m0, t0, u0, r0 := l.mem, l.t, l.used, l.pml4;
    LoadSegments(l, start, phdrs);
    ghost var m1, t1, u1, r1 := l.mem, l.t, l.used, l.pml4;
    StateSays(m0, t0, u0, start, phdrs, m1, t1, u1, r1, |phdrs|, 0);
    WindowStillEmpty(m0, t0, u0, start, phdrs, t1, 0);
    pt := HandOver(l);
    WindowIndices(0);
    WindowSpares(m0, t0, u0, start, phdrs, m1, r1, l.mem, l.pml4, 0);
    StaysLoaded(m0, t0, u0, start, phdrs, m1, t1, u1, r1, l.mem, l.t, l.used, l.pml4);
    StateSays(m0, t0, u0, start, phdrs, l.mem, l.t, l.used, l.pml4, |phdrs|, 0);
    RestIs(m0, r0, phdrs, m1, r1, l.mem, l.pml4);
    SegmentsStayWritable(m0, r0, phdrs, m1, r1, l.mem, l.pml4);
  }

  lemma ReadyAfterIdentity(m1: Memory, t1: Tables, u1: nat, r1: nat, pt: nat, m2: Memory, t2: Tables, r2: nat, n: nat)
    requires WindowReady(m1, t1, r1, pt) && BeyondKept(m1, r1, m2, r2, n) && Grown(t1, u1, t2) && r2 == r1 && n <= FRAMES_BELOW_4G
    ensures WindowReady(m2, t2, r2, pt)
  {
    hide Translate, Indices;
    assert t1[pt] == t2[pt];
    WindowIndices(0);
    assert IsPath(PT_PATH, 4);
    forall j: nat | j < n ensures PT_PATH != Indices(j * PAGE_SIZE) {
      LowIndices(j);
    }
    forall ix {:trigger Translate(m2, r2, ix)} | IsPath(ix, 4) && ix[..3] == WINDOW_PATH && ix[3] < 507 ensures Translate(m2, r2, ix) == Fault {
      assert ix[..3][0] == ix[0];
      forall j: nat | j < n ensures ix != Indices(j * PAGE_SIZE) {
        LowIndices(j);
      }
      assert Translate(m1, r1, ix) == Fault;
    }
  }

  /** The loader's main from load_kernel on: used memory is mapped to itself as well. */
  method BuildTables(l: Loader, start: nat, phdrs: seq<Phdr>, ghost limit: nat) returns (ghost pt: nat)
    requires l.Valid() && WellFormed(l.mem, l.t, l.used, start, phdrs) && Between(phdrs, BIT_32, WORD - BIT_21)
    requires l.used + RoomNeeded(phdrs) + 4 + RoomFor(limit) <= limit <= |l.mem| && WINDOW_PATH !in l.t.Values
    modifies l
    ensures l.Valid() && WindowReady(l.mem, l.t, l.pml4, pt) && Identity(l.mem, l.pml4, l.used)
    ensures LoadState(old(l.mem), old(l.t), old(l.used), start, phdrs, l.mem, l.t, l.used, l.pml4, |phdrs|, 0)
    ensures SegmentsWritable(l.mem, l.pml4, phdrs) && WindowWritable(l.mem, l.pml4, WINDOW_SIZE) && Writable(l.mem, l.pml4, PT_PATH)
    ensures IdentityWritable(l.mem, l.pml4, l.used)
  {
    hide SegmentsWritable, WindowWritable, IdentityWritable, Writable, WritesKept;
    hide Indices, Translate, TreeOk, Grown, LoadState, WellFormed, RestKept, WindowReady, Between, DataKept, WindowMapped, Image,
      Identity, BeyondKept, Lacking, RoomFor;
    ghost var m0, t0, u0 := l.mem, l.t, l.used;
    BetweenLess(phdrs, BIT_32, 0, WORD - BIT_21);
    pt := LoadKernel(l, start, phdrs);
    ghost var m1, t1, u1, r1 := l.mem, l.t, l.used, l.pml4;
    RoomSuffices(limit, t1);
    ReadyHasRoot(m1, t1, r1, pt);
    SetupIdentityPaging(l, limit);
    IdentitySpares(m0, t0, u0, start, phdrs, m1, r1, l.mem, l.pml4, l.used, WORD - BIT_21);
    StaysLoaded(m0, t0, u0, start, phdrs, m1, t1, u1, r1, l.mem, l.t, l.used, l.pml4);
    ReadyAfterIdentity(m1, t1, u1, r1, pt, l.mem, l.t, l.pml4, l.used);
    WritableAfter(phdrs, m1, r1, l.mem, l.pml4);
  }

  lemma BetweenLess(phdrs: seq<Phdr>, low: nat, low': nat, high: nat)
    requires Between(phdrs, low, high) && low' <= low
    ensures Between(phdrs, low', high)
  {
  }

  lemma ReadyHasRoot(mem: Memory, t: Tables, pml4: nat, pt: nat)
    requires WindowReady(mem, t, pml4, pt)
    ensures pml4 != 0
  {
  }

  /** mapper_init on the tables the loader leaves: the kernel's mapper can work, and no frame is free yet. */
  method EnterKernel(l: Loader, ghost pt: nat) returns (k: Kernel)
    requires l.Valid() && WindowReady(l.mem, l.t, l.pml4, pt)
    ensures fresh(k) && k.Valid() && k.blocks == [] && k.mem == l.mem && k.pml4 == l.pml4 && k.t == l.t
  {
    hide TablesOk, SettledBut, Walk, RestFaults;
    LimitGrows(l.mem, l.t, l.used, l.pml4, |l.mem|);
    k := new Kernel(l.mem, l.pml4, l.t, pt);
  }

  /** From the first table to the kernel's mapper; nothing is asked but of the state at the start. */
  method Boot(l: Loader, start: nat, phdrs: seq<Phdr>, ghost limit: nat) returns (k: Kernel)
    requires l.Valid() && WellFormed(l.mem, l.t, l.used, start, phdrs) && Between(phdrs, BIT_32, WORD - BIT_21)
    requires l.used + RoomNeeded(phdrs) + 4 + RoomFor(limit) <= limit <= |l.mem| && WINDOW_PATH !in l.t.Values
    modifies l
    ensures fresh(k) && k.Valid() && k.blocks == []
    ensures Reads(old(l.mem), start, phdrs, k.mem, k.pml4, k.t) && SegmentsWritable(k.mem, k.pml4, phdrs)
    ensures WindowWritable(k.mem, k.pml4, WINDOW_SIZE) && Writable(k.mem, k.pml4, PT_PATH) && IdentityWritable(k.mem, k.pml4, l.used)
  {
    hide SegmentsWritable, WindowWritable, IdentityWritable, Writable;
    hide Indices, Translate, TreeOk, Grown, LoadState, WellFormed, WindowReady, Between, Identity, RoomFor, Image, Reads;
    ghost var m0, t0, u0 := l.mem, l.t, l.used;
    ghost var pt := BuildTables(l, start, phdrs, limit);
    ReadsBack(m0, t0, u0, start, phdrs, l.mem, l.t, l.used, l.pml4);
    k := EnterKernel(l, pt);
  }

  /** Every byte of every segment is read through the tables, and lies outside of them. */
  ghost predicate Reads(m0: Memory, start: nat, phdrs: seq<Phdr>, mem: Memory, root: nat, t: Tables) {
    forall a: nat, b: nat {:trigger ReadsAt(m0, start, phdrs[a], mem, root, t, b)} :: a < |phdrs| && phdrs[a].load && b < phdrs[a].memsz ==>
      ReadsAt(m0, start, phdrs[a], mem, root, t, b)
  }

  ghost predicate ReadsAt(m0: Memory, start: nat, s: Phdr, mem: Memory, root: nat, t: Tables, b: nat) {
    && ReadByte(mem, root, s.vaddr + b) == (if b < s.filesz then FileByte(m0, start, s.offset * PAGE_SIZE + b) else 0)
    && !IsWindow(Indices(s.vaddr + b))
    && (Translate(mem, root, Indices(s.vaddr + b)).Page? ==> Translate(mem, root, Indices(s.vaddr + b)).entry.frame !in t)
  }

  lemma ReadsBack(m0: Memory, t0: Tables, u0: nat, start: nat, phdrs: seq<Phdr>, mem: Memory, t: Tables, used: nat, root: nat)
    requires WellFormed(m0, t0, u0, start, phdrs) && Between(phdrs, BIT_32, WORD - BIT_21)
    requires LoadState(m0, t0, u0, start, phdrs, mem, t, used, root, |phdrs|, 0)
    ensures Reads(m0, start, phdrs, mem, root, t)
  {
    hide ReadsAt, WellFormed, Between, LoadState;
    forall a: nat, b: nat | a < |phdrs| && phdrs[a].load && b < phdrs[a].memsz ensures ReadsAt(m0, start, phdrs[a], mem, root, t, b) {
      ReadsOne(m0, t0, u0, start, phdrs, mem, t, used, root, a, b);
    }
  }

  lemma ReadsOne(m0: Memory, t0: Tables, u0: nat, start: nat, phdrs: seq<Phdr>, mem: Memory, t: Tables, used: nat, root: nat, a: nat, b: nat)
    requires WellFormed(m0, t0, u0, start, phdrs) && Between(phdrs, BIT_32, WORD - BIT_21)
    requires LoadState(m0, t0, u0, start, phdrs, mem, t, used, root, |phdrs|, 0)
    requires a < |phdrs| && phdrs[a].load && b < phdrs[a].memsz
    ensures ReadsAt(m0, start, phdrs[a], mem, root, t, b)
  {
    hide Indices, Translate, Image, Canonical, ReadByte, FileByte;
    SegmentReadsBack(m0, t0, u0, start, phdrs, mem, t, used, root, a, b);
    var s, k, j := phdrs[a], b / PAGE_SIZE, b % PAGE_SIZE;
    assert Visits(s, k);
    assert Placed(m0, t0, u0, start, s, k) && PageLoaded(m0, u0, start, mem, t, used, root, s, k);
    SameIndices(Virt(s, k), j);
    BelowWindow(Virt(s, k));
  }

  /** Looking at physical memory leaves the segments as they are read. */
  lemma LookKeepsReads(m0: Memory, start: nat, phdrs: seq<Phdr>, m1: Memory, m2: Memory, root: nat, t: Tables)
    requires Reads(m0, start, phdrs, m1, root, t) && SameOutside(m1, m2, root) && DataSame(m1, m2, t) && root != 0
    ensures Reads(m0, start, phdrs, m2, root, t)
  {
    hide ReadsAt, SameOutside, DataSame;
    forall a: nat, b: nat | a < |phdrs| && phdrs[a].load && b < phdrs[a].memsz ensures ReadsAt(m0, start, phdrs[a], m2, root, t, b) {
      assert ReadsAt(m0, start, phdrs[a], m1, root, t, b);
      LookKeepsByte(m0, start, phdrs[a], m1, m2, root, t, b);
    }
  }

  lemma LookKeepsByte(m0: Memory, start: nat, s: Phdr, m1: Memory, m2: Memory, root: nat, t: Tables, b: nat)
    requires ReadsAt(m0, start, s, m1, root, t, b) && SameOutside(m1, m2, root) && DataSame(m1, m2, t) && root != 0
    ensures ReadsAt(m0, start, s, m2, root, t, b)
  {
    hide Indices, Walk, FileByte, IsWindow;
    var ix := Indices(s.vaddr + b);
    assert Walk(m2, root, ix) == Walk(m1, root, ix);
    var tr := Walk(m1, root, ix);
    if tr.Page? && tr.entry.frame < |m1| {
      assert m2[tr.entry.frame] == m1[tr.entry.frame];
    }
  }

  /** phys_look after load_kernel: the window shows the frames from f on, and the kernel reads its segments as before. */
  method LookAfterBoot(k: Kernel, f: nat, ghost m0: Memory, ghost start: nat, ghost phdrs: seq<Phdr>)
    requires k.Valid() && Reads(m0, start, phdrs, k.mem, k.pml4, k.t)
    modifies k`mem
    ensures k.Valid() && Looking(k.mem, k.pml4, f, 4) && SameOutside(old(k.mem), k.mem, k.pml4)
    ensures Reads(m0, start, phdrs, k.mem, k.pml4, k.t)
  {
    hide Sane, BlocksOk, Chain, GentleBut, Walk, Looking, Reads, SameOutside, DataSame;
    ghost var m1 := k.mem;
    k.Look(f);
    LookKeepsReads(m0, start, phdrs, m1, k.mem, k.pml4, k.t);
  }
}

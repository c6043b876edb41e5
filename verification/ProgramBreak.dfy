/**
  sbrk: the pages from prog_break_begin to prog_break are mapped, each to a frame of its own.
 */
module ProgramBreak {
  import opened Arith
  import opened Paging
  import opened ElfLoading
  import opened IdentityPaging
  import opened KernelMapper
  import opened Words

  datatype BreakResult = Previous(addr: nat) | Panic

  function PageAt(begin: nat, i: nat): nat { begin + i * PAGE_SIZE }

  /** The frame behind page i. */
  function FrameAt(mem: Memory, root: nat, begin: nat, i: nat): nat {
    var tr := Walk(mem, root, Indices(PageAt(begin, i)));
    if tr.Page? then tr.entry.frame else 0
  }

  /** Page i is mapped to a frame that is in use. */
  ghost predicate Backed(mem: Memory, root: nat, t: Tables, blocks: seq<Block>, begin: nat, i: nat) {
    var tr := Walk(mem, root, Indices(PageAt(begin, i)));
    tr.Page? && tr.entry.flags == IDENTITY && !IsFree(blocks, tr.entry.frame) && tr.entry.frame !in t
  }

  ghost predicate Unbacked(mem: Memory, root: nat, begin: nat, i: nat) {
    Walk(mem, root, Indices(PageAt(begin, i))) == Fault
  }

  /** Of the pages 0 .. N, exactly those below n are present, and no two share a frame. */
  ghost predicate HeapPages(mem: Memory, root: nat, t: Tables, blocks: seq<Block>, begin: nat, n: nat, N: nat) {
    && (forall i: nat {:trigger Backed(mem, root, t, blocks, begin, i)} :: i < n ==> Backed(mem, root, t, blocks, begin, i))
    && (forall i: nat {:trigger Unbacked(mem, root, begin, i)} :: n <= i < N ==> Unbacked(mem, root, begin, i))
    && (forall i: nat, j: nat {:trigger FrameAt(mem, root, begin, i), FrameAt(mem, root, begin, j)} :: i < j < n ==>
          FrameAt(mem, root, begin, i) != FrameAt(mem, root, begin, j))
  }

  /** The pages of the heap can be written. */
  ghost predicate HeapWritable(mem: Memory, root: nat, begin: nat, n: nat) {
    forall i: nat {:trigger PageAt(begin, i)} :: i < n ==> Writable(mem, root, Indices(PageAt(begin, i)))
  }

  /** An operation on page k leaves the others writable. */
  lemma OthersWritable(m0: Memory, m1: Memory, root: nat, begin: nat, N: nat, k: nat, n: nat)
    requires InRegion(begin, N) && k < N && n <= k && HeapWritable(m0, root, begin, n) && RightsHeld(m0, m1, root, Indices(PageAt(begin, k)))
    ensures HeapWritable(m1, root, begin, n)
  {
    hide Grants, Indices, IsWindow, IsReserved, InRegion;
    forall i: nat {:trigger PageAt(begin, i)} | i < n ensures Writable(m1, root, Indices(PageAt(begin, i))) {
      RegionPage(begin, N, i);
      RegionDistinct(begin, N, i, k);
      assert Writable(m0, root, Indices(PageAt(begin, i)));
      assert Grants(m1, root, Indices(PageAt(begin, i)), 0x002) || !Grants(m1, root, Indices(PageAt(begin, i)), 0x002);
    }
  }

  lemma HeapGrewWritable(m0: Memory, m1: Memory, root: nat, begin: nat, N: nat, n: nat)
    requires InRegion(begin, N) && n < N && HeapWritable(m0, root, begin, n) && RightsHeld(m0, m1, root, Indices(PageAt(begin, n)))
    requires Writable(m1, root, Indices(PageAt(begin, n)))
    ensures HeapWritable(m1, root, begin, n + 1)
  {
    hide Writable, RightsHeld, Indices, InRegion;
    OthersWritable(m0, m1, root, begin, N, n, n);
    forall i: nat {:trigger PageAt(begin, i)} | i < n + 1 ensures Writable(m1, root, Indices(PageAt(begin, i))) {
      assert i < n || i == n;
    }
  }

  lemma FewerWritable(m: Memory, root: nat, begin: nat, n: nat)
    requires n > 0 && HeapWritable(m, root, begin, n)
    ensures HeapWritable(m, root, begin, n - 1)
  {
  }

  lemma IdentityWrites()
    ensures HasBit(IDENTITY, PAGE_RW_BIT)
  {
  }

  /** The upper tables for page i exist: map_page never makes them. */
  ghost predicate Reachable(mem: Memory, root: nat, begin: nat, i: nat) { Led(mem, root, Indices(PageAt(begin, i))) }

  ghost predicate InRegion(begin: nat, N: nat) {
    PageAligned(begin) && WORD - BIT_47 <= begin && begin + N * PAGE_SIZE <= WINDOW_PT
  }

  /** The region holds different canonical pages, none of them reserved. */
  lemma RegionPage(begin: nat, N: nat, i: nat)
    requires InRegion(begin, N) && i < N
    ensures Canonical(PageAt(begin, i)) && PageAligned(PageAt(begin, i)) && !IsReserved(Indices(PageAt(begin, i)))
    ensures !IsWindow(Indices(PageAt(begin, i)))
  {
    var v := PageAt(begin, i);
    DivIs(v, begin / PAGE_SIZE + i, PAGE_SIZE, 0);
    assert v < WINDOW_PT;
    NotReserved(v);
  }

  lemma NotReserved(v: nat)
    requires Canonical(v) && PageAligned(v) && v < WINDOW_PT
    ensures !IsReserved(Indices(v)) && !IsWindow(Indices(v))
  {
    hide Indices, Canonical;
    var ix := Indices(v);
    if ix[..3] == WINDOW_PATH && ix[3] >= 507 {
      var k := ix[3];
      assert ix == [511, 511, 511, k] by { assert ix == ix[..3] + [ix[3]]; }
      if k == 507 {
        WindowIndices(0);
        IndicesInjective(v, WINDOW_PT);
      } else {
        WindowIndices(k - 508);
        IndicesInjective(v, WINDOW_PAGES + (k - 508) * PAGE_SIZE);
      }
    }
  }

  lemma RegionDistinct(begin: nat, N: nat, i: nat, j: nat)
    requires InRegion(begin, N) && i < N && j < N && i != j
    ensures Indices(PageAt(begin, i)) != Indices(PageAt(begin, j))
  {
    hide Indices, Canonical, IsReserved, IsWindow, InRegion;
    RegionPage(begin, N, i);
    RegionPage(begin, N, j);
    if Indices(PageAt(begin, i)) == Indices(PageAt(begin, j)) {
      IndicesInjective(PageAt(begin, i), PageAt(begin, j));
    }
  }

  /** A page not operated on stays backed, or not. */
  lemma PageKept(m0: Memory, m1: Memory, root: nat, t: Tables, b0: seq<Block>, b1: seq<Block>, begin: nat, N: nat, k: nat, i: nat)
    requires InRegion(begin, N) && k < N && i < N && i != k && SameOutsideBut(m0, m1, root, Indices(PageAt(begin, k)))
    requires forall g: nat {:trigger IsFree(b1, g)} :: IsFree(b1, g) ==> IsFree(b0, g)
    ensures Backed(m0, root, t, b0, begin, i) ==> Backed(m1, root, t, b1, begin, i)
    ensures Unbacked(m0, root, begin, i) ==> Unbacked(m1, root, begin, i)
    ensures FrameAt(m1, root, begin, i) == FrameAt(m0, root, begin, i)
  {
    hide Walk, Indices, IsFree, IsWindow, IsReserved, InRegion;
    RegionPage(begin, N, i);
    RegionDistinct(begin, N, i, k);
    assert Walk(m1, root, Indices(PageAt(begin, i))) == Walk(m0, root, Indices(PageAt(begin, i)));
  }

  lemma Grew(m0: Memory, m1: Memory, root: nat, t: Tables, b0: seq<Block>, b1: seq<Block>, begin: nat, n: nat, N: nat)
    requires InRegion(begin, N) && n < N && HeapPages(m0, root, t, b0, begin, n, N)
    requires SameOutsideBut(m0, m1, root, Indices(PageAt(begin, n)))
    requires var tr := Walk(m1, root, Indices(PageAt(begin, n)));
             && tr.Page? && tr.entry.flags == IDENTITY && IsFree(b0, tr.entry.frame) && tr.entry.frame !in t
             && forall g: nat {:trigger IsFree(b1, g)} :: IsFree(b1, g) <==> IsFree(b0, g) && g != tr.entry.frame
    ensures HeapPages(m1, root, t, b1, begin, n + 1, N)
  {
    hide Walk, Indices, IsFree, SameOutsideBut, InRegion;
    forall i: nat {:trigger Backed(m1, root, t, b1, begin, i)} | i < n + 1 ensures Backed(m1, root, t, b1, begin, i) {
      if i < n {
        assert Backed(m0, root, t, b0, begin, i);
        PageKept(m0, m1, root, t, b0, b1, begin, N, n, i);
      }
    }
    forall i: nat {:trigger Unbacked(m1, root, begin, i)} | n + 1 <= i < N ensures Unbacked(m1, root, begin, i) {
      assert Unbacked(m0, root, begin, i);
      PageKept(m0, m1, root, t, b0, b1, begin, N, n, i);
    }
    forall i: nat, j: nat {:trigger FrameAt(m1, root, begin, i), FrameAt(m1, root, begin, j)} | i < j < n + 1
      ensures FrameAt(m1, root, begin, i) != FrameAt(m1, root, begin, j)
    {
      PageKept(m0, m1, root, t, b0, b1, begin, N, n, i);
      assert Backed(m0, root, t, b0, begin, i);
      if j < n {
        PageKept(m0, m1, root, t, b0, b1, begin, N, n, j);
        assert FrameAt(m0, root, begin, i) != FrameAt(m0, root, begin, j);
      }
    }
  }

  lemma Shrank(m0: Memory, m1: Memory, root: nat, t: Tables, b: seq<Block>, begin: nat, n: nat, N: nat)
    requires InRegion(begin, N) && 0 < n <= N && HeapPages(m0, root, t, b, begin, n, N)
    requires SameOutsideBut(m0, m1, root, Indices(PageAt(begin, n - 1))) && Walk(m1, root, Indices(PageAt(begin, n - 1))) == Fault
    ensures HeapPages(m1, root, t, b, begin, n - 1, N)
  {
    hide Walk, Indices, IsFree, SameOutsideBut, InRegion;
    forall i: nat {:trigger Backed(m1, root, t, b, begin, i)} | i < n - 1 ensures Backed(m1, root, t, b, begin, i) {
      assert Backed(m0, root, t, b, begin, i);
      PageKept(m0, m1, root, t, b, b, begin, N, n - 1, i);
    }
    forall i: nat {:trigger Unbacked(m1, root, begin, i)} | n - 1 <= i < N ensures Unbacked(m1, root, begin, i) {
      if i >= n {
        assert Unbacked(m0, root, begin, i);
        PageKept(m0, m1, root, t, b, b, begin, N, n - 1, i);
      }
    }
    forall i: nat, j: nat {:trigger FrameAt(m1, root, begin, i), FrameAt(m1, root, begin, j)} | i < j < n - 1
      ensures FrameAt(m1, root, begin, i) != FrameAt(m1, root, begin, j)
    {
      PageKept(m0, m1, root, t, b, b, begin, N, n - 1, i);
      PageKept(m0, m1, root, t, b, b, begin, N, n - 1, j);
      assert FrameAt(m0, root, begin, i) != FrameAt(m0, root, begin, j);
    }
  }

  ghost predicate ReachableFrom(mem: Memory, root: nat, begin: nat, n: nat, N: nat) {
    forall i: nat {:trigger Reachable(mem, root, begin, i)} :: n <= i < N ==> Reachable(mem, root, begin, i)
  }

  lemma StillReachable(m0: Memory, m1: Memory, root: nat, begin: nat, k: nat, n: nat, top: nat, N: nat)
    requires InRegion(begin, N) && k < N && top <= N && ReachableFrom(m0, root, begin, n, top)
    requires LedKept(m0, m1, root, Indices(PageAt(begin, k))) && n > k
    ensures ReachableFrom(m1, root, begin, n, top)
  {
    hide Led, Indices, LeafEntry, IsWindow, IsReserved, InRegion;
    forall i: nat {:trigger Reachable(m1, root, begin, i)} | n <= i < top ensures Reachable(m1, root, begin, i) {
      assert Reachable(m0, root, begin, i);
      RegionPage(begin, N, i);
      RegionDistinct(begin, N, i, k);
    }
  }

  /** The page past the break can be mapped. */
  lemma FirstUnbacked(mem: Memory, root: nat, t: Tables, blocks: seq<Block>, begin: nat, n: nat, N: nat, top: nat)
    requires InRegion(begin, N) && n < top <= N && HeapPages(mem, root, t, blocks, begin, n, N) && ReachableFrom(mem, root, begin, n, top)
    ensures Walk(mem, root, Indices(PageAt(begin, n))) == Fault && Led(mem, root, Indices(PageAt(begin, n)))
    ensures !IsReserved(Indices(PageAt(begin, n))) && HasBit(IDENTITY, PAGE_P_BIT)
  {
    hide Walk, Led, Indices, InRegion;
    assert Unbacked(mem, root, begin, n);
    assert Reachable(mem, root, begin, n);
    RegionPage(begin, N, n);
  }

  /** The page below the break can be unmapped: its frame is not marked to be freed. */
  lemma LastPage(mem: Memory, root: nat, t: Tables, blocks: seq<Block>, begin: nat, n: nat, N: nat)
    requires InRegion(begin, N) && 0 < n <= N && HeapPages(mem, root, t, blocks, begin, n, N)
    ensures !IsReserved(Indices(PageAt(begin, n - 1)))
    ensures var ix := Indices(PageAt(begin, n - 1)); Led(mem, root, ix) && !HasBit(LeafEntry(mem, root, ix).flags, PAGE_F_BIT)
  {
    hide Walk, Led, Indices, LeafEntry, InRegion;
    assert Backed(mem, root, t, blocks, begin, n - 1);
    NotFaultLed(mem, root, Indices(PageAt(begin, n - 1)));
    RegionPage(begin, N, n - 1);
  }

  lemma FewerReachable(mem: Memory, root: nat, begin: nat, n: nat, top: nat)
    requires ReachableFrom(mem, root, begin, n, top)
    ensures ReachableFrom(mem, root, begin, n + 1, top)
  {
  }

  /** A page boundary is some number of pages away. */
  function PagesUpTo(begin: nat, addr: int): (n: int)
  {
    (addr - begin) / PAGE_SIZE
  }

  lemma CountIs(begin: nat, addr: int)
    requires PageAligned(begin) && addr % PAGE_SIZE == 0 && begin <= addr
    ensures PagesUpTo(begin, addr) >= 0 && PageAt(begin, PagesUpTo(begin, addr)) == addr
  {
    var q, r := begin / PAGE_SIZE, addr / PAGE_SIZE;
    DivIs(addr - begin, r - q, PAGE_SIZE, 0);
  }

  function RoundUp(a: int): int { (a + 4095) / 4096 * 4096 }

  lemma RoundedUp(a: int)
    ensures RoundUp(a) % PAGE_SIZE == 0 && a <= RoundUp(a) < a + PAGE_SIZE
  {
    var q := (a + 4095) / 4096;
    MultipleMod(q, PAGE_SIZE);
  }

  lemma RegionAligned(begin: nat, N: nat)
    requires InRegion(begin, N)
    ensures PageAligned(begin)
  {
  }

  class Break {
    const k: Kernel
    const begin: nat
    const pages: nat // of the region up to prog_break_end
    var brk: nat
    ghost var n: nat

    ghost predicate Valid()
      reads this, k
    {
      && k.Valid() && InRegion(begin, pages) && n <= pages && brk == PageAt(begin, n)
      && HeapPages(k.mem, k.pml4, k.t, k.blocks, begin, n, pages) && HeapWritable(k.mem, k.pml4, begin, n)
    }

    constructor (kernel: Kernel, start: nat, count: nat)
      requires kernel.Valid() && InRegion(start, count) && HeapPages(kernel.mem, kernel.pml4, kernel.t, kernel.blocks, start, 0, count)
      ensures Valid() && k == kernel && begin == start && pages == count && n == 0
    {
      k, begin, pages := kernel, start, count;
      brk, n := start, 0;
    }

    method MapNext(ghost top: nat) returns (ok: bool)
      requires Valid() && n < top <= pages && ReachableFrom(k.mem, k.pml4, begin, n, top)
      modifies this`brk, this`n, k
      ensures ok ==> Valid() && brk == old(brk) + PAGE_SIZE && n == old(n) + 1 && ReachableFrom(k.mem, k.pml4, begin, n, top)
      ensures !ok ==> k.blocks == []
    {
      hide HeapPages, HeapWritable, RightsHeld, Grants, Writable, Indices, Walk, Led, InRegion, SameOutsideBut, LedKept, IsFree, ReachableFrom;
      ghost var m0, b0 := k.mem, k.blocks;
      IdentityWrites();
      FirstUnbacked(k.mem, k.pml4, k.t, k.blocks, begin, n, pages, top);
      ok := k.MapPresent(brk, 0, IDENTITY);
      if ok {
        Grew(m0, k.mem, k.pml4, k.t, b0, k.blocks, begin, n, pages);
        HeapGrewWritable(m0, k.mem, k.pml4, begin, pages, n);
        FewerReachable(m0, k.pml4, begin, n, top);
        StillReachable(m0, k.mem, k.pml4, begin, n, n + 1, top, pages);
        brk := brk + PAGE_SIZE;
        n := n + 1;
      }
    }

    method UnmapLast()
      requires Valid() && n > 0
      modifies this`brk, this`n, k
      ensures Valid() && brk == old(brk) - PAGE_SIZE && n == old(n) - 1
    {
      hide HeapPages, HeapWritable, RightsHeld, Grants, Writable, Indices, Walk, Led, InRegion, SameOutsideBut, LedKept, IsFree;
      ghost var m0 := k.mem;
      LastPage(k.mem, k.pml4, k.t, k.blocks, begin, n, pages);
      k.UnmapPage(brk - PAGE_SIZE);
      Shrank(m0, k.mem, k.pml4, k.t, k.blocks, begin, n, pages);
      FewerWritable(m0, k.pml4, begin, n);
      OthersWritable(m0, k.mem, k.pml4, begin, pages, n - 1, n - 1);
      brk := brk - PAGE_SIZE;
      n := n - 1;
    }

    /**
      sbrk. The break moves to the next page boundary; the pages below it are present with
      frames of their own, those above it are not. Running out of pages or out of the region
      is a panic.
     */
    method Sbrk(difference: int) returns (r: BreakResult)
      requires Valid()
      requires forall top: nat :: top <= pages && PageAt(begin, top) <= RoundUp(brk + difference) ==>
                 ReachableFrom(k.mem, k.pml4, begin, n, top)
      modifies this`brk, this`n, k
      ensures r.Previous? ==> Valid() && r.addr == old(brk) && brk == RoundUp(old(brk) + difference)
      ensures r.Panic? && RoundUp(old(brk) + difference) <= PageAt(begin, pages) ==>
                RoundUp(old(brk) + difference) < begin || (difference > 0 && k.blocks == [])
    {
      hide HeapPages, HeapWritable, Indices, Walk, Led, InRegion, SameOutsideBut, LedKept, IsFree, ReachableFrom;
      var newBreak := RoundUp(brk + difference);
      var previous := brk;
      if newBreak > PageAt(begin, pages) || newBreak < begin {
        return Panic;
      }
      RegionAligned(begin, pages);
      RoundedUp(brk + difference);
      CountIs(begin, newBreak);
      ghost var top := PagesUpTo(begin, newBreak);
      if difference > 0 {
        while brk < newBreak
          invariant Valid() && brk <= newBreak == PageAt(begin, top) && n <= top <= pages
          invariant ReachableFrom(k.mem, k.pml4, begin, n, top)
          decreases newBreak - brk
        {
          var ok := MapNext(top);
          if !ok {
            return Panic;
          }
        }
      } else {
        while brk > newBreak
          invariant Valid() && brk >= newBreak == PageAt(begin, top) && top <= n
          decreases brk - newBreak
        {
          UnmapLast();
        }
      }
      return Previous(previous);
    }
  }
}

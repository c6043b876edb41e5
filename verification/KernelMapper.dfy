/**
  The kernel's mapper: physical memory is reached only through a window of four virtual pages
  whose entries phys_look rewrites, and the list of free pages is kept in the free pages.
 */
module KernelMapper {
  import opened Paging
  import opened LoaderPaging
  import opened ElfLoading

  const LOOKED: flags := 0x003 // PAGE_P_BIT | PAGE_RW_BIT

  function WindowPath(k: nat): seq<nat> { [511, 511, 511, 508 + k] }

  predicate IsWindow(ix: seq<nat>) { |ix| == 4 && ix[..3] == WINDOW_PATH && ix[3] >= 508 }

  /** The tables are sound, and _phys_window_pt shows the leaf table pt of the window. */
  ghost predicate Sane(mem: Memory, t: Tables, root: nat, pt: nat) {
    && TablesOk(mem, t, |mem|, root) && Settled(mem, t)
    && pt in t && t[pt] == WINDOW_PATH
    && Walk(mem, root, PT_PATH).Page? && Walk(mem, root, PT_PATH).entry.frame == pt
  }

  ghost predicate SameOutside(m0: Memory, m1: Memory, root: nat) {
    forall ix {:trigger Walk(m1, root, ix)} :: IsPath(ix, 4) && !IsWindow(ix) ==> Walk(m1, root, ix) == Walk(m0, root, ix)
  }

  ghost predicate SameOutsideBut(m0: Memory, m1: Memory, root: nat, but: seq<nat>) {
    forall ix {:trigger Walk(m1, root, ix)} :: IsPath(ix, 4) && !IsWindow(ix) && ix != but ==> Walk(m1, root, ix) == Walk(m0, root, ix)
  }

  /** Only the window entries of table pt differ. */
  ghost predicate OnlyWindow(m0: Memory, m1: Memory, t: Tables, pt: nat) {
    && |m1| == |m0| && pt < |m0| && IsTable(m0, pt) && IsTable(m1, pt)
    && (forall g: nat {:trigger m1[g]} :: g < |m0| && g != pt ==> m1[g] == m0[g])
    && (forall j: nat {:trigger EntryAt(m1, pt, j)} :: j < 508 ==> EntryAt(m1, pt, j) == EntryAt(m0, pt, j))
  }

  /** The first n window pages show the frames from f on. */
  ghost predicate Looking(mem: Memory, root: nat, f: nat, n: nat) {
    forall k: nat {:trigger WindowPath(k)} :: k < n ==> Walk(mem, root, WindowPath(k)) == Page(Entry(f + k, LOOKED))
  }

  // ---------- Changes that spare the tree ----------

  /** The three upper entries on the way of an address are present. */
  predicate Led(mem: Memory, f: nat, ix: seq<nat>)
    decreases |ix|
  {
    && |ix| > 0 && IsTable(mem, f) && ix[0] < 512
    && (|ix| > 1 ==>
          var e := EntryAt(mem, f, ix[0]);
          Present(e) && !Large(e) && Led(mem, e.frame, ix[1..]))
  }

  /** The leaf entry of an address, present or not. */
  function LeafEntry(mem: Memory, f: nat, ix: seq<nat>): Entry
    requires Led(mem, f, ix)
    decreases |ix|
  {
    var e := EntryAt(mem, f, ix[0]);
    if |ix| == 1 then e else LeafEntry(mem, e.frame, ix[1..])
  }

  lemma {:induction false} NotFaultLed(mem: Memory, f: nat, ix: seq<nat>)
    requires Walk(mem, f, ix).Page?
    ensures Led(mem, f, ix) && Present(LeafEntry(mem, f, ix)) && Walk(mem, f, ix) == Page(LeafEntry(mem, f, ix))
    decreases |ix|
  {
    hide Present, Large;
    if |ix| > 1 {
      NotFaultLed(mem, EntryAt(mem, f, ix[0]).frame, ix[1..]);
    }
  }

  lemma {:induction false} LedWalk(mem: Memory, f: nat, ix: seq<nat>)
    requires Led(mem, f, ix)
    ensures Walk(mem, f, ix) == if Present(LeafEntry(mem, f, ix)) then Page(LeafEntry(mem, f, ix)) else Fault
    decreases |ix|
  {
    hide Present, Large;
    if |ix| > 1 {
      LedWalk(mem, EntryAt(mem, f, ix[0]).frame, ix[1..]);
    }
  }

  /** An upper entry keeps its table and its presence; other flags may be added. */
  ghost predicate UpperKept(m0: Memory, m1: Memory, f: nat, j: nat) {
    && IsTable(m0, f) && IsTable(m1, f) && j < 512
    && EntryAt(m1, f, j).frame == EntryAt(m0, f, j).frame
    && Present(EntryAt(m1, f, j)) == Present(EntryAt(m0, f, j))
    && (Present(EntryAt(m1, f, j)) ==> !Large(EntryAt(m1, f, j)))
    && HasAll(EntryAt(m1, f, j).flags, EntryAt(m0, f, j).flags)
  }

  ghost predicate LeafKept(m0: Memory, m1: Memory, f: nat, j: nat) {
    IsTable(m0, f) && IsTable(m1, f) && j < 512 && EntryAt(m1, f, j) == EntryAt(m0, f, j)
  }

  /** No table changes but in flags of upper entries, the window entries and entry i of leaf table T. */
  ghost predicate GentleBut(m0: Memory, m1: Memory, t: Tables, pt: nat, T: nat, i: nat) {
    && |m1| == |m0|
    && (forall f: nat, j: nat {:trigger UpperKept(m0, m1, f, j)} :: f in t && |t[f]| < 3 && j < 512 ==> UpperKept(m0, m1, f, j))
    && (forall f: nat, j: nat {:trigger LeafKept(m0, m1, f, j)} ::
          f in t && |t[f]| == 3 && j < 512 && !(f == pt && j >= 508) && !(f == T && j == i) ==> LeafKept(m0, m1, f, j))
  }

  ghost predicate DataSame(m0: Memory, m1: Memory, t: Tables) {
    |m1| == |m0| && forall g: nat {:trigger m1[g]} :: g < |m0| && g !in t ==> m1[g] == m0[g]
  }

  ghost predicate Gentle(m0: Memory, m1: Memory, t: Tables, pt: nat) { GentleBut(m0, m1, t, pt, 0, 0) }

  lemma {:induction false} GentleWalk(m0: Memory, m1: Memory, t: Tables, root: nat, pt: nat, T: nat, i: nat, f: nat, rest: seq<nat>)
    requires TablesOk(m0, t, |m0|, root) && GentleBut(m0, m1, t, pt, T, i) && pt in t && t[pt] == WINDOW_PATH
    requires f in t && |t[f]| + |rest| == 4 && IsPath(rest, |rest|) && !IsWindow(t[f] + rest)
    requires T in t ==> t[f] + rest != t[T] + [i]
    ensures Walk(m1, f, rest) == Walk(m0, f, rest)
    ensures Led(m0, f, rest) ==> Led(m1, f, rest) && LeafEntry(m1, f, rest) == LeafEntry(m0, f, rest)
    decreases |rest|
  {
    hide Present, Large, HasParent;
    assert TableOk(m0, t, |m0|, f);
    var j := rest[0];
    if |rest| > 1 {
      assert LinkOk(m0, t, f, j);
      assert UpperKept(m0, m1, f, j);
      if Present(EntryAt(m0, f, j)) {
        assert t[f] + rest == (t[f] + [j]) + rest[1..];
        GentleWalk(m0, m1, t, root, pt, T, i, EntryAt(m0, f, j).frame, rest[1..]);
      }
    } else {
      assert rest == [j];
      if f == pt { assert (t[f] + rest)[3] == j && (t[f] + rest)[..3] == t[f]; }
      assert LeafKept(m0, m1, f, j);
    }
  }

  /** Nor do they take a right from a page, or from a part of its way. */
  lemma {:induction false} GentleGrants(m0: Memory, m1: Memory, t: Tables, root: nat, pt: nat, T: nat, i: nat, f: nat, rest: seq<nat>, bits: flags)
    requires TablesOk(m0, t, |m0|, root) && GentleBut(m0, m1, t, pt, T, i) && pt in t && t[pt] == WINDOW_PATH
    requires f in t && |t[f]| + |rest| <= 4 && IsPath(rest, |rest|) && Grants(m0, f, rest, bits)
    requires |t[f]| + |rest| == 4 ==> !IsWindow(t[f] + rest) && (T in t ==> t[f] + rest != t[T] + [i])
    ensures Grants(m1, f, rest, bits)
    decreases |rest|
  {
    hide Present, Large, HasParent, HasAll;
    assert TableOk(m0, t, |m0|, f);
    var j := rest[0];
    if |t[f]| < 3 {
      assert LinkOk(m0, t, f, j);
      assert UpperKept(m0, m1, f, j);
      HasAllTrans(EntryAt(m1, f, j).flags, EntryAt(m0, f, j).flags, bits);
      if |rest| > 1 {
        assert t[f] + rest == (t[f] + [j]) + rest[1..];
        GentleGrants(m0, m1, t, root, pt, T, i, EntryAt(m0, f, j).frame, rest[1..], bits);
      }
    } else {
      assert rest == [j];
      if f == pt { assert (t[f] + rest)[3] == j && (t[f] + rest)[..3] == t[f]; }
      assert LeafKept(m0, m1, f, j);
    }
  }

  /** No page outside the window but one loses a right. */
  ghost predicate RightsHeld(m0: Memory, m1: Memory, root: nat, but: seq<nat>) {
    forall ix, bits: flags {:trigger Grants(m1, root, ix, bits)} ::
      IsPath(ix, 4) && !IsWindow(ix) && ix != but && Grants(m0, root, ix, bits) ==> Grants(m1, root, ix, bits)
  }

  lemma GentleRights(m0: Memory, m1: Memory, t: Tables, root: nat, pt: nat, T: nat, i: nat, but: seq<nat>)
    requires TablesOk(m0, t, |m0|, root) && GentleBut(m0, m1, t, pt, T, i) && pt in t && t[pt] == WINDOW_PATH && (T in t ==> but == t[T] + [i])
    ensures RightsHeld(m0, m1, root, but)
  {
    hide Grants, GentleBut, IsWindow, TablesOk;
    RootOf(m0, t, |m0|, root);
    forall ix, bits: flags {:trigger Grants(m1, root, ix, bits)} | IsPath(ix, 4) && !IsWindow(ix) && ix != but && Grants(m0, root, ix, bits)
      ensures Grants(m1, root, ix, bits)
    {
      assert [] + ix == ix;
      GentleGrants(m0, m1, t, root, pt, T, i, root, ix, bits);
    }
  }

  /** The first k entries on the way of ix keep their rights. */
  lemma PrefixKept(m0: Memory, m1: Memory, t: Tables, root: nat, pt: nat, T: nat, i: nat, ix: seq<nat>, k: nat, bits: flags)
    requires TablesOk(m0, t, |m0|, root) && GentleBut(m0, m1, t, pt, T, i) && pt in t && t[pt] == WINDOW_PATH
    requires IsPath(ix, 4) && k <= 3 && (k > 0 ==> Grants(m0, root, ix[..k], bits))
    ensures k > 0 ==> Grants(m1, root, ix[..k], bits)
  {
    hide Grants, GentleBut, TablesOk;
    RootOf(m0, t, |m0|, root);
    if k > 0 {
      GentleGrants(m0, m1, t, root, pt, T, i, root, ix[..k], bits);
    }
  }

  /** One more entry on the way. */
  lemma {:induction false} GrantsExtend(m: Memory, t: Tables, root: nat, f: nat, rest: seq<nat>, c: nat, j: nat, bits: flags)
    requires TablesOk(m, t, |m|, root) && f in t && c in t && t[f] + rest == t[c] && j < 512 && IsTable(m, c)
    requires Present(EntryAt(m, c, j)) && HasAll(EntryAt(m, c, j).flags, bits) && (rest != [] ==> Grants(m, f, rest, bits))
    ensures Grants(m, f, rest + [j], bits)
    decreases |rest|
  {
    hide Present, Large, HasParent, HasAll;
    assert TableOk(m, t, |m|, f) && TableOk(m, t, |m|, c);
    var r := rest + [j];
    if rest == [] {
      assert t[f] == t[c] && Unaliased(t, f, c);
    } else {
      assert LinkOk(m, t, f, rest[0]);
      var e := EntryAt(m, f, rest[0]);
      assert t[e.frame] + rest[1..] == t[c];
      assert r[1..] == rest[1..] + [j];
      GrantsExtend(m, t, root, e.frame, rest[1..], c, j, bits);
    }
  }

  lemma NextGrants(m: Memory, t: Tables, root: nat, pt: nat, ix: seq<nat>, k: nat, c: nat, bits: flags)
    requires Sane(m, t, root, pt) && IsPath(ix, 4) && k <= 3 && c in t && t[c] == ix[..k] && IsTable(m, c)
    requires Present(EntryAt(m, c, ix[k])) && HasAll(EntryAt(m, c, ix[k]).flags, bits) && (k > 0 ==> Grants(m, root, ix[..k], bits))
    ensures Grants(m, root, ix[..k + 1], bits)
  {
    hide Grants, Present, HasAll, SettledBut, Walk;
    RootOf(m, t, |m|, root);
    assert ix[..k] + [ix[k]] == ix[..k + 1];
    assert [] + ix[..k] == ix[..k];
    GrantsExtend(m, t, root, root, ix[..k], c, ix[k], bits);
  }

  lemma LevelGrants(m0: Memory, m1: Memory, t: Tables, root: nat, pt: nat, ix: seq<nat>, k: nat, c: nat, bits: flags)
    requires Sane(m0, t, root, pt) && Sane(m1, t, root, pt) && Gentle(m0, m1, t, pt) && AtLevel(m0, t, root, ix, k, c) && k < 3
    requires IsTable(m1, c) && Present(EntryAt(m1, c, ix[k])) && HasAll(EntryAt(m1, c, ix[k]).flags, bits)
    ensures (k > 0 ==> Grants(m0, root, ix[..k], bits)) ==> Grants(m1, root, ix[..k + 1], bits)
  {
    hide Grants, Present, HasAll, SettledBut, Walk, Led, TablesOk, GentleBut;
    if k > 0 ==> Grants(m0, root, ix[..k], bits) {
      PrefixKept(m0, m1, t, root, pt, 0, 0, ix, k, bits);
      NextGrants(m1, t, root, pt, ix, k, c, bits);
    }
  }

  /** The rights on the first three levels stay while the window moves. */
  lemma StillGranted(m0: Memory, m1: Memory, t: Tables, root: nat, pt: nat, ix: seq<nat>, bits: flags)
    requires Sane(m0, t, root, pt) && Gentle(m0, m1, t, pt) && IsPath(ix, 4) && Grants(m0, root, ix[..3], bits)
    ensures Grants(m1, root, ix[..3], bits)
  {
    hide Grants, SettledBut, Walk, TablesOk, GentleBut;
    PrefixKept(m0, m1, t, root, pt, 0, 0, ix, 3, bits);
  }

  /** The leaf entry completes the rights of the page. */
  lemma LeafGranted(m0: Memory, m1: Memory, t: Tables, root: nat, pt: nat, ix: seq<nat>, c: nat, e: Entry, bits: flags)
    requires Sane(m0, t, root, pt) && Sane(m1, t, root, pt) && AtLevel(m0, t, root, ix, 3, c) && m1 == SetEntry(m0, c, ix[3], e)
    requires Present(e) && HasAll(e.flags, bits) && Grants(m0, root, ix[..3], bits)
    ensures Grants(m1, root, ix, bits)
  {
    hide Grants, Present, HasAll, SettledBut, Walk, Led, TablesOk, OnlySlot, GentleBut;
    SetSlot(m0, t, root, c, ix[3], e);
    LeafGentle(m0, m1, t, root, pt, c, ix[3]);
    PrefixKept(m0, m1, t, root, pt, c, ix[3], ix, 3, bits);
    StoredEntry(m0, c, ix[3], e);
    NextGrants(m1, t, root, pt, ix, 3, c, bits);
    assert ix[..4] == ix;
  }

  lemma SetSlot(m: Memory, t: Tables, root: nat, c: nat, i: nat, e: Entry)
    requires TablesOk(m, t, |m|, root) && c in t && i < 512 && IsTable(m, c)
    ensures OnlySlot(m, SetEntry(m, c, i, e), t, c, i)
  {
    hide OnlySlot, TablesOk;
    forall f: nat {:trigger SameFrame(m, m, f)} | f in t ensures SameFrame(m, m, f) {
      FreshIsNot(m, t, |m|, root, f);
    }
    SetIsOnlySlot(m, m, t, |m|, root, c, i, e);
  }

  /** What map_page lets through to the upper entries. */
  lemma OrGives(f: flags, g: flags)
    ensures HasAll(With(f, UpperFlags(g)), UpperFlags(g)) && HasAll(With(f, UpperFlags(g)), f)
    ensures HasAll(LeafFlags(g), UpperFlags(g))
  {
  }

  lemma MayWrite(m: Memory, root: nat, ix: seq<nat>, g: flags)
    requires Grants(m, root, ix, UpperFlags(g)) && HasBit(g, PAGE_RW_BIT) && root != 0
    ensures Writable(m, root, ix)
  {
    hide Grants, HasBit, HasAll;
    RwIsUpper(g);
    GrantsLess(m, root, ix, UpperFlags(g), 0x002);
  }

  lemma RwIsUpper(g: flags)
    requires HasBit(g, PAGE_RW_BIT)
    ensures HasAll(UpperFlags(g), 0x002)
  {
  }

  lemma {:induction false} GrantsLess(m: Memory, f: nat, ix: seq<nat>, bits: flags, less: flags)
    requires Grants(m, f, ix, bits) && HasAll(bits, less)
    ensures Grants(m, f, ix, less)
    decreases |ix|
  {
    hide HasAll, Present, Large;
    var e := EntryAt(m, f, ix[0]);
    HasAllTrans(e.flags, bits, less);
    if |ix| > 1 {
      GrantsLess(m, e.frame, ix[1..], bits, less);
    }
  }

  ghost predicate LedKept(m0: Memory, m1: Memory, root: nat, but: seq<nat>) {
    forall ix {:trigger Led(m1, root, ix)} :: IsPath(ix, 4) && !IsWindow(ix) && ix != but && Led(m0, root, ix) ==>
      Led(m1, root, ix) && LeafEntry(m1, root, ix) == LeafEntry(m0, root, ix)
  }

  lemma GentleFromRoot(m0: Memory, m1: Memory, t: Tables, root: nat, pt: nat, T: nat, i: nat)
    requires TablesOk(m0, t, |m0|, root) && GentleBut(m0, m1, t, pt, T, i) && pt in t && t[pt] == WINDOW_PATH
    ensures T in t ==> SameOutsideBut(m0, m1, root, t[T] + [i]) && LedKept(m0, m1, root, t[T] + [i])
    ensures T !in t ==> SameOutside(m0, m1, root) && LedKept(m0, m1, root, [])
  {
    hide Walk, Led, GentleBut, LinkOk, HasParent, IsWindow, LeafEntry;
    forall ix | IsPath(ix, 4) && !IsWindow(ix) && (T in t ==> ix != t[T] + [i])
      ensures Walk(m1, root, ix) == Walk(m0, root, ix)
      ensures Led(m0, root, ix) ==> Led(m1, root, ix) && LeafEntry(m1, root, ix) == LeafEntry(m0, root, ix)
    {
      assert t[root] + ix == ix;
      GentleWalk(m0, m1, t, root, pt, T, i, root, ix);
    }
  }

  lemma GentleTrans(m0: Memory, m1: Memory, m2: Memory, t: Tables, pt: nat, T: nat, i: nat)
    requires Gentle(m0, m1, t, pt) && GentleBut(m1, m2, t, pt, T, i) && 0 !in t
    ensures GentleBut(m0, m2, t, pt, T, i)
  {
    hide Present, Large, EntryAt, HasAll;
    forall f: nat, j: nat {:trigger UpperKept(m0, m2, f, j)} | f in t && |t[f]| < 3 && j < 512 ensures UpperKept(m0, m2, f, j) {
      assert UpperKept(m0, m1, f, j) && UpperKept(m1, m2, f, j);
      HasAllTrans(EntryAt(m2, f, j).flags, EntryAt(m1, f, j).flags, EntryAt(m0, f, j).flags);
    }
    forall f: nat, j: nat {:trigger LeafKept(m0, m2, f, j)} |
      f in t && |t[f]| == 3 && j < 512 && !(f == pt && j >= 508) && !(f == T && j == i) ensures LeafKept(m0, m2, f, j) {
      assert LeafKept(m0, m1, f, j) && LeafKept(m1, m2, f, j);
    }
  }

  // ---------- The free list ----------

  datatype Block = Block(start: nat, size: nat)

  /** The list stored in the free pages, from the page first on. */
  ghost predicate Chain(mem: Memory, first: nat, blocks: seq<Block>)
    decreases |blocks|
  {
    if blocks == [] then first == 0
    else
      var b := blocks[0];
      && first == b.start && b.start < |mem| && mem[b.start].Free? && mem[b.start].size == b.size
      && Chain(mem, mem[b.start].next, blocks[1..])
  }

  ghost predicate InBlock(b: Block, f: nat) { b.start <= f < b.start + b.size }

  ghost predicate IsFree(blocks: seq<Block>, f: nat) {
    exists i: nat {:trigger blocks[i]} :: i < |blocks| && InBlock(blocks[i], f)
  }

  /** Blocks of at least one page, apart from each other, from null and from the tables. */
  ghost predicate BlockOk(mem: Memory, t: Tables, b: Block) {
    && 0 < b.start && 0 < b.size && b.start + b.size <= |mem|
    && forall f: nat {:trigger f in t} :: InBlock(b, f) ==> f !in t
  }

  ghost predicate BlocksOk(mem: Memory, t: Tables, blocks: seq<Block>) {
    && (forall i: nat {:trigger blocks[i]} :: i < |blocks| ==> BlockOk(mem, t, blocks[i]))
    && (forall i: nat, j: nat {:trigger blocks[i], blocks[j]} :: i < j < |blocks| ==> BlocksDisjoint(blocks[i], blocks[j]))
  }

  ghost predicate BlocksDisjoint(a: Block, b: Block) { a.start + a.size <= b.start || b.start + b.size <= a.start }

  lemma {:induction false} ChainKept(m0: Memory, m1: Memory, first: nat, blocks: seq<Block>)
    requires Chain(m0, first, blocks) && |m1| == |m0|
    requires forall i: nat {:trigger blocks[i]} :: i < |blocks| && blocks[i].start < |m0| ==> m1[blocks[i].start] == m0[blocks[i].start]
    ensures Chain(m1, first, blocks)
    decreases |blocks|
  {
    if blocks != [] {
      var rest := blocks[1..];
      forall i: nat {:trigger rest[i]} | i < |rest| && rest[i].start < |m0| ensures m1[rest[i].start] == m0[rest[i].start] {
        assert rest[i] == blocks[i + 1];
      }
      assert blocks[0].start < |m0|;
      ChainKept(m0, m1, m0[blocks[0].start].next, rest);
    }
  }

  /** A frame that a page may give back: it is neither a table nor free already. */
  ghost predicate Owned(mem: Memory, t: Tables, blocks: seq<Block>, f: nat) { 0 < f < |mem| && f !in t && !IsFree(blocks, f) }

  /** The page is present and marked to be freed. */
  predicate Stuck(mem: Memory, root: nat, ix: seq<nat>) {
    Led(mem, root, ix) && Present(LeafEntry(mem, root, ix)) && HasBit(LeafEntry(mem, root, ix).flags, PAGE_F_BIT)
  }

  /** Mapping phys frees the frame of the entry. */
  predicate Replaces(e: Entry, phys: nat) { phys != e.frame && HasBit(e.flags, PAGE_F_BIT) }

  lemma StuckIs(m0: Memory, m1: Memory, t: Tables, root: nat, pt: nat, ix: seq<nat>, e: Entry)
    requires Sane(m0, t, root, pt) && Sane(m1, t, root, pt) && Gentle(m0, m1, t, pt) && IsPath(ix, 4) && !IsReserved(ix)
    requires Led(m1, root, ix) && e == LeafEntry(m1, root, ix)
    ensures Stuck(m0, root, ix) <==> Present(e) && HasBit(e.flags, PAGE_F_BIT)
    ensures Led(m0, root, ix) && LeafEntry(m0, root, ix) == e
  {
    hide Sane, GentleBut, Led, LeafEntry, Present, HasBit;
    SameLeaf(m0, m1, t, root, pt, ix);
  }

  /** A store outside the tables does not move the window. */
  lemma WindowStays(m: Memory, t: Tables, root: nat, pt: nat, f: nat, m': Memory)
    requires Sane(m, t, root, pt) && f !in t && f < |m| && |m'| == |m| && m' == m[f := m'[f]]
    ensures Walk(m', root, WindowPath(0)) == Walk(m, root, WindowPath(0))
  {
    hide Walk, SettledBut, LinkOk, HasParent;
    forall g: nat {:trigger SameFrame(m, m', g)} | g in t ensures SameFrame(m, m', g) {
      assert TableOk(m, t, |m|, g);
    }
    FrameWalk(m, m', t, |m|, root, root, WindowPath(0));
  }

  lemma NotStuck(mem: Memory, root: nat, ix: seq<nat>)
    requires !Led(mem, root, ix)
    ensures !Stuck(mem, root, ix)
  {
  }

  /** A header of size 0 is no block. */
  lemma HeaderLost(m: Memory, m': Memory, first: nat, f: nat, t: Tables, blocks: seq<Block>)
    requires Chain(m, first, blocks) && blocks != [] && blocks[0] == Block(f, 1)
    requires f < |m| && m[f].Free? && m' == m[f := m[f].(size := m[f].size / 2 * 2)]
    ensures !(Chain(m', first, blocks) && BlocksOk(m', t, blocks))
  {
    assert blocks[0] == blocks[0];
  }

  lemma OwnedKept(m0: Memory, t: Tables, pt: nat, blocks: seq<Block>, f: nat, m1: Memory)
    requires Owned(m0, t, blocks, f) && Gentle(m0, m1, t, pt)
    ensures Owned(m1, t, blocks, f) && 0 < f < |m1| && f !in t && !IsFree(blocks, f)
  {
  }

  class Kernel {
    var mem: Memory
    var first: nat // first_free_block, in frames; 0 is null
    var pml4: nat
    ghost var t: Tables
    ghost var pt: nat
    ghost var blocks: seq<Block>

    ghost predicate Valid()
      reads this
    {
      && Sane(mem, t, pml4, pt) && pml4 != 0
      && Chain(mem, first, blocks) && BlocksOk(mem, t, blocks)
    }

    /** mapper_init: the tables are those the loader has built, and no frame is free yet. */
    constructor (memory: Memory, root: nat, ghost tables: Tables, ghost table: nat)
      requires Sane(memory, tables, root, table) && root != 0
      ensures Valid() && mem == memory && pml4 == root && t == tables && pt == table && blocks == []
    {
      mem, first, pml4 := memory, 0, root;
      t, pt, blocks := tables, table, [];
    }

    /** The frame that the first window page shows. */
    function Window(): nat
      reads this
    {
      var tr := Walk(mem, pml4, WindowPath(0));
      if tr.Page? then tr.entry.frame else 0
    }

    /** phys_look: the window shows the four frames from f on; nothing else changes. */
    method PhysLook(f: nat)
      requires Sane(mem, t, pml4, pt)
      modifies `mem
      ensures Sane(mem, t, pml4, pt) && Looking(mem, pml4, f, 4) && Window() == f
      ensures SameOutside(old(mem), mem, pml4) && OnlyWindow(old(mem), mem, t, pt)
      ensures Gentle(old(mem), mem, t, pt) && DataSame(old(mem), mem, t) && |mem| == old(|mem|)
    {
      hide Sane, TablesOk, SettledBut, Walk, OnlyWindow, SameOutside, IsWindow, GentleBut;
      ghost var m0 := mem;
      LookBegins(mem, t, pml4, pt, f);
      var i := 0;
      while i < WINDOW_SIZE
        invariant i <= WINDOW_SIZE && Sane(mem, t, pml4, pt) && Looking(mem, pml4, f, i)
        invariant SameOutside(m0, mem, pml4) && OnlyWindow(m0, mem, t, pt)
      {
        ghost var m1 := mem;
        WindowTable(mem, t, pml4, pt);
        var table := Walk(mem, pml4, PT_PATH).entry.frame;
        mem := SetEntry(mem, table, PAGE_TABLE_SIZE - WINDOW_SIZE + i, Entry(f + i, LOOKED));
        LookStep(m0, m1, mem, t, pml4, pt, f, i);
        i := i + 1;
      }
      LookEnds(mem, pml4, f);
      LookIsGentle(m0, mem, t, pml4, pt);
    }

    /** phys_look with the free list in place: the pages of the list are not tables. */
    method Look(f: nat)
      requires Valid()
      modifies `mem
      ensures Valid() && Window() == f && Looking(mem, pml4, f, 4) && SameOutside(old(mem), mem, pml4)
      ensures Gentle(old(mem), mem, t, pt) && DataSame(old(mem), mem, t)
    {
      hide Sane, BlocksOk, Chain, GentleBut, OnlyWindow, SameOutside, Walk, Looking, DataSame;
      ghost var m0 := mem;
      PhysLook(f);
      ListKept(m0, mem, t, first, blocks);
    }

    /**
      add_phys_mem for a page-aligned block of memory. A block of less than a page would be
      entered with size 0, and a block at address 0 would end the list.
     */
    method AddPhysMem(start: nat, length: nat)
      requires Valid() && start > 0 && length >= PAGE_SIZE && start + length / PAGE_SIZE <= |mem|
      requires forall f: nat {:trigger f in t} :: start <= f < start + length / PAGE_SIZE ==> f !in t
      requires forall i: nat {:trigger blocks[i]} :: i < |blocks| ==> BlocksDisjoint(Block(start, length / PAGE_SIZE), blocks[i])
      modifies `mem, `first, `blocks
      ensures Valid() && Gentle(old(mem), mem, t, pt)
      ensures forall f: nat {:trigger IsFree(blocks, f)} :: IsFree(blocks, f) <==> IsFree(old(blocks), f) || start <= f < start + length / PAGE_SIZE
    {
      hide Sane, BlocksOk, Chain, GentleBut, Walk, Looking, IsFree;
      ghost var m0, size := mem, length / PAGE_SIZE;
      Look(start);
      ghost var m1 := mem;
      assert start in t ==> start !in t;
      mem := mem[Window() := Free(length / PAGE_SIZE, first)];
      SaneOutside(m1, t, pml4, pt, start, mem);
      PushBlock(m1, t, first, blocks, start, size, mem);
      GentleTrans2(m0, m1, mem, t, pml4, pt);
      first := start;
      blocks := [Block(start, size)] + blocks;
    }

    /** free_page. */
    method FreePage(f: nat)
      requires Valid() && 0 < f < |mem| && f !in t && !IsFree(blocks, f)
      modifies `mem, `first, `blocks
      ensures Valid() && Gentle(old(mem), mem, t, pt)
      ensures forall g: nat {:trigger IsFree(blocks, g)} :: IsFree(blocks, g) <==> IsFree(old(blocks), g) || g == f
      ensures blocks == [Block(f, 1)] + old(blocks) && Window() == f && mem[f].Free? && mem[f].size == 1
    {
      hide Sane, BlocksOk, Chain, GentleBut, Walk, Looking;
      ghost var m0 := mem;
      Look(f);
      ghost var m1 := mem;
      mem := mem[Window() := Free(1, first)];
      WindowStays(m1, t, pml4, pt, f, mem);
      SaneOutside(m1, t, pml4, pt, f, mem);
      forall i: nat {:trigger blocks[i]} | i < |blocks| ensures BlocksDisjoint(Block(f, 1), blocks[i]) {
        assert !InBlock(blocks[i], f);
        BlockIsOk(m1, t, blocks, i);
      }
      PushBlock(m1, t, first, blocks, f, 1, mem);
      GentleTrans2(m0, m1, mem, t, pml4, pt);
      first := f;
      blocks := [Block(f, 1)] + blocks;
    }

    /** alloc_page; false stands for the panic when there is no page left. */
    method AllocPage() returns (ok: bool, f: nat)
      requires Valid()
      modifies `mem, `first, `blocks
      ensures Valid() && Gentle(old(mem), mem, t, pt) && ok == (old(blocks) != [])
      ensures !ok ==> blocks == old(blocks)
      ensures ok ==> IsFree(old(blocks), f) && 0 < f < |mem| && f !in t
      ensures ok ==> forall g: nat {:trigger IsFree(blocks, g)} :: IsFree(blocks, g) <==> IsFree(old(blocks), g) && g != f
    {
      hide Sane, BlocksOk, GentleBut, Walk, Looking, IsFree, OnlyWindow, SameOutside, DataSame, Chain;
      ghost var m0 := mem;
      GentleSame(mem, t, pml4, pt);
      NullIsEmpty(mem, t, first, blocks);
      if first == 0 {
        return false, 0;
      }
      f := first;
      Look(first);
      ghost var m1 := mem;
      FirstBlock(m1, t, first, blocks);
      ok := true;
      if mem[Window()].size == 1 {
        first := mem[Window()].next;
        PopBlock(m1, t, blocks);
        blocks := blocks[1..];
      } else {
        var header := mem[Window()];
        first := first + 1;
        PhysLook(first);
        ghost var m2 := mem;
        ListKept(m1, m2, t, f, blocks);
        SecondPage(m1, t, blocks);
        mem := mem[Window() := Free(header.size - 1, header.next)];
        SaneOutside(m2, t, pml4, pt, first, mem);
        FirstBlock(m2, t, f, blocks);
        SameHeader(m1, m2, t, f);
        ShrinkBlock(m2, t, blocks, mem);
        GentleTrans2(m0, m1, m2, t, pml4, pt);
        GentleTrans2(m0, m2, mem, t, pml4, pt);
        blocks := [Block(first, header.size - 1)] + blocks[1..];
      }
    }

    /** *entry |= flags & MASK through the window; the table that the entry names. */
    method OrUpper(T: nat, i: nat, flags: flags) returns (next: nat)
      requires Valid() && T in t && |t[T]| < 3 && i < 512 && IsTable(mem, T) && Present(EntryAt(mem, T, i))
      modifies `mem
      ensures Valid() && Gentle(old(mem), mem, t, pt) && next == old(EntryAt(mem, T, i)).frame
      ensures IsTable(mem, T) && Present(EntryAt(mem, T, i)) && HasAll(EntryAt(mem, T, i).flags, UpperFlags(flags))
    {
      hide Sane, BlocksOk, Chain, GentleBut, Walk, Looking, HasBit, With, UpperFlags, Present, Large, TablesOk, SettledBut, HasAll;
      ghost var m0 := mem;
      Look(T);
      ghost var m1 := mem;
      GentleUpper(m0, m1, t, pml4, pt, T, i);
      var e := mem[Window()].entries[i];
      mem := SetEntry(mem, Window(), i, e.(flags := With(e.flags, UpperFlags(flags))));
      OrGives(e.flags, flags);
      StoredEntry(m1, T, i, e.(flags := With(e.flags, UpperFlags(flags))));
      UpperStored(m1, t, pml4, pt, T, i, flags, mem);
      GentleUpper(m1, mem, t, pml4, pt, T, i);
      ListKept(m1, mem, t, first, blocks);
      GentleTrans2(m0, m1, mem, t, pml4, pt);
      next := e.frame;
    }

    /** One level of unmap_page: look at the table and read the entry on the way of ix. */
    method StepDown(ghost m0: Memory, ix: seq<nat>, level: nat, table: nat) returns (present: bool, next: nat)
      requires Valid() && IsPath(ix, 4) && !IsReserved(ix) && level < 3
      requires Sane(m0, t, pml4, pt) && Gentle(m0, mem, t, pt) && AtLevel(mem, t, pml4, ix, level, table)
      modifies `mem
      ensures Valid() && Gentle(m0, mem, t, pt)
      ensures present ==> AtLevel(mem, t, pml4, ix, level + 1, next)
      ensures !present ==> Walk(mem, pml4, ix) == Fault && !Led(mem, pml4, ix) && SameOutsideBut(m0, mem, pml4, ix)
                           && LedKept(m0, mem, pml4, ix) && (Led(m0, pml4, ix) ==> Led(mem, pml4, ix)) && RightsHeld(m0, mem, pml4, ix)
    {
      hide RightsHeld, Sane, BlocksOk, Chain, GentleBut, Walk, Looking, Present, Large, Led, IsReserved, AtLevel, SameOutsideBut, LedKept, LeafEntry;
      ghost var m1 := mem;
      Look(table);
      LevelKept(m1, mem, t, pml4, pt, ix, level, table);
      GentleTrans2(m0, m1, mem, t, pml4, pt);
      LevelTable(mem, t, pml4, ix, level, table);
      var e := mem[Window()].entries[ix[level]];
      NextLevel(mem, t, pml4, pt, ix, level, table);
      GentleOutcome(m0, mem, t, pml4, pt, ix);
      present, next := Present(e), e.frame;
    }

    /** One level of map_page: add the flags to the entry on the way of ix and follow it. */
    method OrDown(ghost m0: Memory, ix: seq<nat>, level: nat, table: nat, flags: flags) returns (next: nat)
      requires Valid() && IsPath(ix, 4) && !IsReserved(ix) && level < 3 && Led(mem, pml4, ix)
      requires Sane(m0, t, pml4, pt) && Gentle(m0, mem, t, pt) && AtLevel(mem, t, pml4, ix, level, table)
      modifies `mem
      ensures Valid() && Gentle(m0, mem, t, pt) && AtLevel(mem, t, pml4, ix, level + 1, next) && Led(mem, pml4, ix)
      ensures Gentle(old(mem), mem, t, pt)
      ensures (level > 0 ==> old(Grants(mem, pml4, ix[..level], UpperFlags(flags)))) ==> Grants(mem, pml4, ix[..level + 1], UpperFlags(flags))
    {
      hide Sane, BlocksOk, Chain, GentleBut, Walk, Looking, Present, Large, Led, IsReserved, AtLevel, LeafEntry, Grants, HasAll;
      ghost var m1 := mem;
      NextLevel(mem, t, pml4, pt, ix, level, table);
      LevelTable(mem, t, pml4, ix, level, table);
      next := OrUpper(table, ix[level], flags);
      LevelKept(m1, mem, t, pml4, pt, ix, level + 1, next);
      GentleTrans2(m0, m1, mem, t, pml4, pt);
      LevelGrants(m1, mem, t, pml4, pt, ix, level, table, UpperFlags(flags));
    }

    /** The end of unmap_page for a page marked to be freed: the store meets the header of the freed frame. */
    method FreeStuck(ghost m0: Memory, f: nat, ix: seq<nat>)
      requires Valid() && Sane(m0, t, pml4, pt) && Gentle(m0, mem, t, pt) && IsPath(ix, 4) && !IsReserved(ix)
      requires Owned(mem, t, blocks, f)
      modifies `mem, `first, `blocks
      ensures IsFree(blocks, f) && (Valid() <==> ix[3] != 0)
      ensures SameOutsideBut(m0, mem, pml4, ix) && LedKept(m0, mem, pml4, ix) && Walk(mem, pml4, ix) == Walk(m0, pml4, ix)
      ensures (Led(m0, pml4, ix) ==> Led(mem, pml4, ix)) && RightsHeld(m0, mem, pml4, ix)
    {
      hide RightsHeld, Sane, BlocksOk, GentleBut, Walk, Looking, TablesOk, Led, SameOutsideBut, LedKept, LeafEntry, DataSame, IsFree;
      ghost var m1 := mem;
      FreePage(f);
      GentleTrans2(m0, m1, mem, t, pml4, pt);
      ghost var m2 := mem;
      // the store to entry ix[3] of the window: word 0 of the frame is the size, word 1 the next page
      if ix[3] == 0 {
        mem := mem[Window() := mem[Window()].(size := mem[Window()].size / 2 * 2)];
        HeaderLost(m2, mem, first, f, t, blocks);
      }
      SaneOutside(m2, t, pml4, pt, f, mem);
      GentleTrans2(m0, m2, mem, t, pml4, pt);
      GentleOutcome(m0, mem, t, pml4, pt, ix);
    }

    /**
      unmap_page: all other pages are translated as before. The page faults afterwards, unless it
      was present and marked to be freed: free_page has moved the window, so that the store
      that clears the present bit goes to the freed frame, and the page keeps it.
     */
    method UnmapPage(virt: nat)
      requires Valid() && !IsReserved(Indices(virt))
      requires Stuck(mem, pml4, Indices(virt)) ==> Owned(mem, t, blocks, LeafEntry(mem, pml4, Indices(virt)).frame)
      modifies `mem, `first, `blocks
      ensures Walk(mem, pml4, Indices(virt)) == Fault <==> !old(Stuck(mem, pml4, Indices(virt)))
      ensures !old(Stuck(mem, pml4, Indices(virt))) ==> Valid() && blocks == old(blocks)
      ensures old(Stuck(mem, pml4, Indices(virt))) ==>
                && Walk(mem, pml4, Indices(virt)) == old(Walk(mem, pml4, Indices(virt)))
                && IsFree(blocks, Walk(mem, pml4, Indices(virt)).entry.frame)
                && (Valid() <==> Indices(virt)[3] != 0)
      ensures SameOutsideBut(old(mem), mem, pml4, Indices(virt)) && LedKept(old(mem), mem, pml4, Indices(virt))
      ensures old(Led(mem, pml4, Indices(virt))) ==> Led(mem, pml4, Indices(virt))
      ensures RightsHeld(old(mem), mem, pml4, Indices(virt))
    {
      hide RightsHeld, Sane, BlocksOk, Chain, GentleBut, Walk, Looking, HasBit, Without, Present, Large, TablesOk, SettledBut, Led,
        Indices, IsReserved, AtLevel, SameOutsideBut, LedKept, SameOutside, LeafEntry, DataSame, IsWindow, Owned, Stuck, IsFree;
      var ix := Indices(virt);
      ghost var m0 := mem;
      GentleSame(mem, t, pml4, pt);
      TopLevel(mem, t, pml4, pt, ix);
      var present, pdp := StepDown(m0, ix, 0, pml4);
      if !present {
        NotStuck(m0, pml4, ix);
        return;
      }
      var pd;
      present, pd := StepDown(m0, ix, 1, pdp);
      if !present {
        NotStuck(m0, pml4, ix);
        return;
      }
      var table;
      present, table := StepDown(m0, ix, 2, pd);
      if !present {
        NotStuck(m0, pml4, ix);
        return;
      }
      ghost var m1 := mem;
      Look(table);
      LevelKept(m1, mem, t, pml4, pt, ix, 3, table);
      GentleTrans2(m0, m1, mem, t, pml4, pt);
      ghost var m2 := mem;
      LeafLevel(m2, t, pml4, pt, ix, table);
      LevelTable(mem, t, pml4, ix, 3, table);
      var e := mem[Window()].entries[ix[3]];
      GentleOutcome(m0, m2, t, pml4, pt, ix);
      StuckIs(m0, m2, t, pml4, pt, ix, e);
      if Present(e) && HasBit(e.flags, PAGE_F_BIT) {
        OwnedKept(m0, t, pt, blocks, e.frame, mem);
        FreeStuck(m0, e.frame, ix);
      } else if Present(e) {
        SameLeaf(m0, m2, t, pml4, pt, ix);
        mem := SetEntry(mem, Window(), ix[3], e.(flags := Without(e.flags, PAGE_P_BIT)));
        LeafWritten(m0, m2, t, pml4, pt, ix, table, e.(flags := Without(e.flags, PAGE_P_BIT)), mem);
        ListKept(m2, mem, t, first, blocks);
        PresentCleared(e);
      }
    }

    /** The way down to the leaf table, with the flags put into the tables above; pte is the entry found there. */
    method OrPath(ix: seq<nat>, flags: flags) returns (table: nat, pte: Entry)
      requires Valid() && IsPath(ix, 4) && !IsReserved(ix) && Led(mem, pml4, ix)
      modifies `mem
      ensures Valid() && old(Sane(mem, t, pml4, pt)) && Gentle(old(mem), mem, t, pt) && AtLevel(mem, t, pml4, ix, 3, table)
      ensures Grants(mem, pml4, ix[..3], UpperFlags(flags))
      ensures pte == old(LeafEntry(mem, pml4, ix)) && old(Walk(mem, pml4, ix)) == if Present(pte) then Page(pte) else Fault
    {
      hide Grants, Sane, BlocksOk, Chain, GentleBut, Walk, Looking, HasBit, Present, Large, TablesOk, SettledBut, Led, IsReserved,
        AtLevel, SameOutside, LeafEntry, DataSame, IsWindow;
      ghost var m0 := mem;
      GentleSame(mem, t, pml4, pt);
      TopLevel(mem, t, pml4, pt, ix);
      var pdp := OrDown(m0, ix, 0, pml4, flags);
      var pd := OrDown(m0, ix, 1, pdp, flags);
      table := OrDown(m0, ix, 2, pd, flags);
      ghost var m1 := mem;
      Look(table);
      LevelKept(m1, mem, t, pml4, pt, ix, 3, table);
      GentleTrans2(m0, m1, mem, t, pml4, pt);
      StillGranted(m1, mem, t, pml4, pt, ix, UpperFlags(flags));
      LeafLevel(mem, t, pml4, pt, ix, table);
      SameLeaf(m0, mem, t, pml4, pt, ix);
      LevelTable(mem, t, pml4, ix, 3, table);
      pte := mem[Window()].entries[ix[3]];
    }

    /** The frame that map_page will enter; the one it replaces is freed if it is marked so. */
    method ChooseFrame(ghost m0: Memory, ghost ix: seq<nat>, ghost table: nat, pte: Entry, phys: nat, ghost flags: flags) returns (ok: bool, frame: nat)
      requires Valid() && Gentle(m0, mem, t, pt) && AtLevel(mem, t, pml4, ix, 3, table) && !IsReserved(ix)
      requires Grants(mem, pml4, ix[..3], UpperFlags(flags))
      requires phys != 0 && Replaces(pte, phys) ==> Owned(m0, t, blocks, pte.frame)
      modifies `mem, `first, `blocks
      ensures ok ==> Valid() && Gentle(m0, mem, t, pt) && AtLevel(mem, t, pml4, ix, 3, table) && Grants(mem, pml4, ix[..3], UpperFlags(flags))
      ensures ok && phys != 0 ==> frame == phys
      ensures ok && phys != 0 ==>
                forall g: nat {:trigger IsFree(blocks, g)} :: IsFree(blocks, g) <==> IsFree(old(blocks), g) || (Replaces(pte, phys) && g == pte.frame)
      ensures ok && phys == 0 && Present(pte) ==> frame == pte.frame && blocks == old(blocks)
      ensures ok && phys == 0 && !Present(pte) ==> IsFree(old(blocks), frame) && frame !in t
      ensures ok && phys == 0 && !Present(pte) ==>
                forall g: nat {:trigger IsFree(blocks, g)} :: IsFree(blocks, g) <==> IsFree(old(blocks), g) && g != frame
      ensures !ok ==> old(blocks) == [] && blocks == []
    {
      hide Grants, Sane, BlocksOk, Chain, GentleBut, Walk, Looking, HasBit, Present, TablesOk, Led, AtLevel, IsReserved, LeafEntry, IsFree, Owned;
      ghost var m1 := mem;
      ok, frame := true, phys;
      if phys == 0 {
        if Present(pte) {
          return true, pte.frame;
        }
        ok, frame := AllocPage();
      } else if phys != pte.frame && HasBit(pte.flags, PAGE_F_BIT) {
        OwnedKept(m0, t, pt, blocks, pte.frame, mem);
        FreePage(pte.frame);
      } else {
        return;
      }
      AtLevelPath(m1, t, pml4, ix, table);
      LevelKept(m1, mem, t, pml4, pt, ix, 3, table);
      GentleTrans2(m0, m1, mem, t, pml4, pt);
      StillGranted(m1, mem, t, pml4, pt, ix, UpperFlags(flags));
    }

    /** The last part of map_page: the entry of the leaf table. */
    method StoreLeaf(ghost m0: Memory, ix: seq<nat>, table: nat, frame: nat, flags: flags)
      requires Valid() && Sane(m0, t, pml4, pt) && Gentle(m0, mem, t, pt) && AtLevel(mem, t, pml4, ix, 3, table) && !IsReserved(ix)
      requires HasBit(flags, PAGE_P_BIT) && Grants(mem, pml4, ix[..3], UpperFlags(flags))
      modifies `mem
      ensures Valid() && Led(mem, pml4, ix) && Walk(mem, pml4, ix) == Page(Entry(frame, flags))
      ensures SameOutsideBut(m0, mem, pml4, ix) && LedKept(m0, mem, pml4, ix) && RightsHeld(m0, mem, pml4, ix)
      ensures Grants(mem, pml4, ix, UpperFlags(flags)) && (HasBit(flags, PAGE_RW_BIT) ==> Writable(mem, pml4, ix))
    {
      hide RightsHeld, Grants, Writable, HasAll, Sane, BlocksOk, Chain, GentleBut, Walk, Looking, HasBit, LeafFlags, Present, Large, TablesOk,
        SettledBut, Led, IsReserved, SameOutsideBut, LedKept, SameOutside, LeafEntry, DataSame, IsWindow;
      ghost var m3 := mem;
      Look(table);
      LevelKept(m3, mem, t, pml4, pt, ix, 3, table);
      GentleTrans2(m0, m3, mem, t, pml4, pt);
      StillGranted(m3, mem, t, pml4, pt, ix, UpperFlags(flags));
      ghost var m4 := mem;
      LeafLevel(m4, t, pml4, pt, ix, table);
      LevelTable(mem, t, pml4, ix, 3, table);
      AllFlags(flags, frame);
      mem := SetEntry(mem, Window(), ix[3], Entry(frame, LeafFlags(flags)));
      LeafWritten(m0, m4, t, pml4, pt, ix, table, Entry(frame, LeafFlags(flags)), mem);
      ListKept(m4, mem, t, first, blocks);
      OrGives(0, flags);
      LeafGranted(m4, mem, t, pml4, pt, ix, table, Entry(frame, LeafFlags(flags)), UpperFlags(flags));
      if HasBit(flags, PAGE_RW_BIT) { MayWrite(mem, pml4, ix, flags); }
    }

    /**
      map_page for a present mapping. phys 0 stands for MAP_ANON: the frame mapped already is
      kept, otherwise a free one is taken; false is the panic if there is none.
     */
    method MapPresent(virt: nat, phys: nat, flags: flags) returns (ok: bool)
      requires Valid() && !IsReserved(Indices(virt)) && Led(mem, pml4, Indices(virt)) && HasBit(flags, PAGE_P_BIT)
      requires phys != 0 && Replaces(LeafEntry(mem, pml4, Indices(virt)), phys) ==>
                 Owned(mem, t, blocks, LeafEntry(mem, pml4, Indices(virt)).frame)
      modifies `mem, `first, `blocks
      ensures ok ==> Valid() && Led(mem, pml4, Indices(virt))
      ensures ok ==> Walk(mem, pml4, Indices(virt)).Page? && Walk(mem, pml4, Indices(virt)).entry.flags == flags
      ensures ok ==> SameOutsideBut(old(mem), mem, pml4, Indices(virt)) && LedKept(old(mem), mem, pml4, Indices(virt))
      ensures ok && phys != 0 ==> Walk(mem, pml4, Indices(virt)).entry.frame == phys
      ensures ok && phys != 0 ==>
                var e := old(LeafEntry(mem, pml4, Indices(virt)));
                forall g: nat {:trigger IsFree(blocks, g)} :: IsFree(blocks, g) <==> IsFree(old(blocks), g) || (Replaces(e, phys) && g == e.frame)
      ensures ok && phys == 0 ==>
                var f, was := Walk(mem, pml4, Indices(virt)).entry.frame, old(Walk(mem, pml4, Indices(virt)));
                if was.Page? then f == was.entry.frame && blocks == old(blocks) else IsFree(old(blocks), f) && f !in t
      ensures ok && phys == 0 && old(Walk(mem, pml4, Indices(virt))) == Fault ==>
                var f := Walk(mem, pml4, Indices(virt)).entry.frame;
                forall g: nat {:trigger IsFree(blocks, g)} :: IsFree(blocks, g) <==> IsFree(old(blocks), g) && g != f
      ensures !ok ==> old(blocks) == [] && blocks == []
      ensures ok ==> Grants(mem, pml4, Indices(virt), UpperFlags(flags)) && RightsHeld(old(mem), mem, pml4, Indices(virt))
      ensures ok && HasBit(flags, PAGE_RW_BIT) ==> Writable(mem, pml4, Indices(virt))
    {
      hide RightsHeld, Grants, Writable, HasAll, Sane, BlocksOk, Chain, GentleBut, Walk, Looking, HasBit, UpperFlags, Present, Large, TablesOk,
        SettledBut, Led, Indices, IsReserved, AtLevel, SameOutsideBut, LedKept, LeafEntry, DataSame, IsWindow, IsFree, Owned, Replaces;
      var ix := Indices(virt);
      ghost var m0 := mem;
      var table, pte := OrPath(ix, flags);
      var frame;
      ok, frame := ChooseFrame(m0, ix, table, pte, phys, flags);
      if !ok {
        return;
      }
      StoreLeaf(m0, ix, table, frame, flags);
    }
  }

  // ---------- Walking down through the window ----------

  /** The walk of ix has come down to table c. */
  ghost predicate AtLevel(mem: Memory, t: Tables, root: nat, ix: seq<nat>, k: nat, c: nat) {
    && IsPath(ix, 4) && k <= 3 && c in t && t[c] == ix[..k] && |t[c]| == k && IsTable(mem, c)
    && Walk(mem, root, ix) == Walk(mem, c, ix[k..])
    && (Led(mem, root, ix) <==> Led(mem, c, ix[k..]))
    && (Led(mem, root, ix) ==> LeafEntry(mem, root, ix) == LeafEntry(mem, c, ix[k..]))
  }

  lemma LevelTable(mem: Memory, t: Tables, root: nat, ix: seq<nat>, k: nat, c: nat)
    requires AtLevel(mem, t, root, ix, k, c)
    ensures c in t && |t[c]| == k && IsTable(mem, c) && |mem[c].entries| == 512 && c < |mem| && ix[k] < 512
  {
  }

  lemma AtLevelPath(mem: Memory, t: Tables, root: nat, ix: seq<nat>, c: nat)
    requires AtLevel(mem, t, root, ix, 3, c)
    ensures IsPath(ix, 4)
  {
  }

  lemma TopLevel(mem: Memory, t: Tables, root: nat, pt: nat, ix: seq<nat>)
    requires Sane(mem, t, root, pt) && IsPath(ix, 4)
    ensures AtLevel(mem, t, root, ix, 0, root)
  {
    hide Walk, Led, LeafEntry, LinkOk, HasParent, SettledBut;
    RootOf(mem, t, |mem|, root);
    assert ix[0..] == ix && ix[..0] == [];
  }

  lemma NextLevel(mem: Memory, t: Tables, root: nat, pt: nat, ix: seq<nat>, k: nat, c: nat)
    requires Sane(mem, t, root, pt) && AtLevel(mem, t, root, ix, k, c) && k < 3
    ensures var e := EntryAt(mem, c, ix[k]);
            && (Present(e) ==> AtLevel(mem, t, root, ix, k + 1, e.frame))
            && (!Present(e) ==> Walk(mem, root, ix) == Fault && !Led(mem, root, ix))
  {
    hide Present, Large, HasParent, SettledBut;
    assert TableOk(mem, t, |mem|, c) && LinkOk(mem, t, c, ix[k]);
    var e := EntryAt(mem, c, ix[k]);
    assert ix[k..][0] == ix[k] && ix[k..][1..] == ix[k + 1..];
    assert ix[..k] + [ix[k]] == ix[..k + 1];
    if Present(e) {
      assert TableOk(mem, t, |mem|, e.frame);
    }
  }

  /** Gentle changes leave a level reached reached. */
  lemma LevelKept(m0: Memory, m1: Memory, t: Tables, root: nat, pt: nat, ix: seq<nat>, k: nat, c: nat)
    requires Sane(m0, t, root, pt) && Sane(m1, t, root, pt) && Gentle(m0, m1, t, pt) && AtLevel(m0, t, root, ix, k, c) && !IsReserved(ix)
    ensures AtLevel(m1, t, root, ix, k, c) && (Led(m0, root, ix) ==> Led(m1, root, ix)) && Walk(m1, root, ix) == Walk(m0, root, ix)
  {
    hide Walk, Led, LeafEntry, HasParent, SettledBut, GentleBut, LinkOk;
    GentleSame(m0, t, root, pt);
    assert TableOk(m1, t, |m1|, c);
    assert t[root] + ix == ix && t[c] + ix[k..] == ix;
    GentleWalk(m0, m1, t, root, pt, 0, 0, root, ix);
    GentleWalk(m0, m1, t, root, pt, 0, 0, c, ix[k..]);
    if Led(m1, c, ix[k..]) || Led(m1, root, ix) {
      GentleBack(m0, m1, t, root, pt, root, ix);
      GentleBack(m0, m1, t, root, pt, c, ix[k..]);
    }
  }

  /** Gentle changes add no upper entries. */
  lemma {:induction false} GentleBack(m0: Memory, m1: Memory, t: Tables, root: nat, pt: nat, f: nat, rest: seq<nat>)
    requires TablesOk(m0, t, |m0|, root) && Gentle(m0, m1, t, pt) && f in t && |t[f]| + |rest| == 4 && IsPath(rest, |rest|)
    ensures Led(m1, f, rest) ==> Led(m0, f, rest)
    decreases |rest|
  {
    hide Present, Large, HasParent;
    assert TableOk(m0, t, |m0|, f);
    if |rest| > 1 {
      assert LinkOk(m0, t, f, rest[0]);
      assert UpperKept(m0, m1, f, rest[0]);
      if Present(EntryAt(m0, f, rest[0])) {
        GentleBack(m0, m1, t, root, pt, EntryAt(m0, f, rest[0]).frame, rest[1..]);
      }
    }
  }

  lemma LeafLevel(mem: Memory, t: Tables, root: nat, pt: nat, ix: seq<nat>, c: nat)
    requires Sane(mem, t, root, pt) && AtLevel(mem, t, root, ix, 3, c)
    ensures Led(mem, root, ix) && LeafEntry(mem, root, ix) == EntryAt(mem, c, ix[3])
    ensures Walk(mem, root, ix) == (var e := EntryAt(mem, c, ix[3]); if Present(e) then Page(e) else Fault)
  {
    hide Present, Large, HasParent, SettledBut, TablesOk;
    assert ix[3..] == [ix[3]];
  }

  /** What gentle changes mean for one page and the others. */
  lemma GentleOutcome(m0: Memory, m1: Memory, t: Tables, root: nat, pt: nat, ix: seq<nat>)
    requires Sane(m0, t, root, pt) && Gentle(m0, m1, t, pt) && IsPath(ix, 4) && !IsReserved(ix)
    ensures SameOutsideBut(m0, m1, root, ix) && LedKept(m0, m1, root, ix) && Walk(m1, root, ix) == Walk(m0, root, ix)
    ensures Led(m0, root, ix) ==> Led(m1, root, ix)
    ensures RightsHeld(m0, m1, root, ix)
  {
    hide Walk, Led, LeafEntry, GentleBut, SettledBut, TablesOk, SameOutside, SameOutsideBut, LedKept, Grants;
    GentleSame(m0, t, root, pt);
    GentleRights(m0, m1, t, root, pt, 0, 0, ix);
    GentleFromRoot(m0, m1, t, root, pt, 0, 0);
    OutsideBut(m0, m1, root, ix);
  }

  lemma OutsideBut(m0: Memory, m1: Memory, root: nat, ix: seq<nat>)
    requires SameOutside(m0, m1, root) && LedKept(m0, m1, root, []) && IsPath(ix, 4) && !IsWindow(ix)
    ensures SameOutsideBut(m0, m1, root, ix) && LedKept(m0, m1, root, ix) && Walk(m1, root, ix) == Walk(m0, root, ix)
    ensures Led(m0, root, ix) ==> Led(m1, root, ix)
  {
    hide Walk, Led, LeafEntry, IsWindow;
    forall jx {:trigger Led(m1, root, jx)} | IsPath(jx, 4) && !IsWindow(jx) && Led(m0, root, jx)
      ensures Led(m1, root, jx) && LeafEntry(m1, root, jx) == LeafEntry(m0, root, jx)
    {
      assert jx != [];
      assert Led(m1, root, jx) || !Led(m1, root, jx);
    }
    assert Led(m1, root, ix) || !Led(m1, root, ix);
  }

  lemma SameLeaf(m0: Memory, m1: Memory, t: Tables, root: nat, pt: nat, ix: seq<nat>)
    requires Sane(m0, t, root, pt) && Sane(m1, t, root, pt) && Gentle(m0, m1, t, pt) && IsPath(ix, 4) && !IsReserved(ix) && Led(m1, root, ix)
    ensures Led(m0, root, ix) && LeafEntry(m0, root, ix) == LeafEntry(m1, root, ix) && Walk(m0, root, ix) == Walk(m1, root, ix)
  {
    hide Walk, Led, LeafEntry, GentleBut, SettledBut, TablesOk;
    GentleSame(m0, t, root, pt);
    RootOf(m0, t, |m0|, root);
    GentleBack(m0, m1, t, root, pt, root, ix);
    assert t[root] + ix == ix;
    GentleWalk(m0, m1, t, root, pt, 0, 0, root, ix);
  }

  lemma GentleUpper(m0: Memory, m1: Memory, t: Tables, root: nat, pt: nat, T: nat, i: nat)
    requires Gentle(m0, m1, t, pt) && T in t && |t[T]| < 3 && i < 512 && IsTable(m0, T) && Present(EntryAt(m0, T, i))
    ensures IsTable(m1, T) && EntryAt(m1, T, i).frame == EntryAt(m0, T, i).frame && Present(EntryAt(m1, T, i))
  {
    hide Present, Large;
    assert UpperKept(m0, m1, T, i);
  }

  /** Adding flags to a present upper entry. */
  lemma UpperStored(m0: Memory, t: Tables, root: nat, pt: nat, T: nat, i: nat, flags: flags, m1: Memory)
    requires Sane(m0, t, root, pt) && T in t && |t[T]| < 3 && i < 512 && IsTable(m0, T) && Present(EntryAt(m0, T, i))
    requires var e := EntryAt(m0, T, i); m1 == SetEntry(m0, T, i, e.(flags := With(e.flags, UpperFlags(flags))))
    ensures Sane(m1, t, root, pt) && Gentle(m0, m1, t, pt) && DataSame(m0, m1, t)
  {
    hide HasBit, With, UpperFlags, Walk, HasParent, OnlySlot, SettledBut, HasAll;
    var e := EntryAt(m0, T, i);
    OrGives(e.flags, flags);
    var e' := e.(flags := With(e.flags, UpperFlags(flags)));
    assert TableOk(m0, t, |m0|, T) && LinkOk(m0, t, T, i);
    OrKeepsPresent(e.flags, flags);
    SlotKeepsTables(m0, t, |m0|, root, T, i, e');
    HarmlessFromRoot(m0, m1, t, |m0|, root, T, i);
    assert Walk(m1, root, PT_PATH) == Walk(m0, root, PT_PATH);
    SettledHere(m0, m1, t, T, i);
    UpperGentle(m0, m1, t, root, pt, T, i);
  }

  lemma SettledHere(m0: Memory, m1: Memory, t: Tables, T: nat, i: nat)
    requires Settled(m0, t) && OnlySlot(m0, m1, t, T, i) && i < 512 && IsTable(m1, T) && Present(EntryAt(m1, T, i))
    ensures Settled(m1, t)
  {
    hide SettledBut, OnlySlot;
    SettledLess(m0, m1, t, {}, T, i);
    assert {} - {(T, i)} == {};
  }

  lemma UpperGentle(m0: Memory, m1: Memory, t: Tables, root: nat, pt: nat, T: nat, i: nat)
    requires TablesOk(m0, t, |m0|, root) && OnlySlot(m0, m1, t, T, i) && T in t && |t[T]| < 3 && i < 512 && IsTable(m0, T) && IsTable(m1, T) && |m1| == |m0|
    requires EntryAt(m1, T, i).frame == EntryAt(m0, T, i).frame && Present(EntryAt(m1, T, i)) && Present(EntryAt(m0, T, i)) && !Large(EntryAt(m1, T, i))
    requires HasAll(EntryAt(m1, T, i).flags, EntryAt(m0, T, i).flags)
    ensures Gentle(m0, m1, t, pt)
  {
    hide Present, Large, HasParent, HasAll;
    forall f: nat, j: nat {:trigger UpperKept(m0, m1, f, j)} | f in t && |t[f]| < 3 && j < 512 ensures UpperKept(m0, m1, f, j) {
      assert TableOk(m0, t, |m0|, f) && LinkOk(m0, t, f, j) && BothTables(m0, m1, f);
      if (f, j) != (T, i) { assert EntryAt(m1, f, j) == EntryAt(m0, f, j); }
      HasAllTrans(EntryAt(m0, f, j).flags, 0, 0);
    }
    forall f: nat, j: nat {:trigger LeafKept(m0, m1, f, j)} |
      f in t && |t[f]| == 3 && j < 512 && !(f == pt && j >= 508) && !(f == 0 && j == 0) ensures LeafKept(m0, m1, f, j) {
      assert BothTables(m0, m1, f);
      assert EntryAt(m1, f, j) == EntryAt(m0, f, j);
    }
  }

  /** The store to the leaf entry, after gentle changes. */
  lemma LeafWritten(m0: Memory, m1: Memory, t: Tables, root: nat, pt: nat, ix: seq<nat>, c: nat, e: Entry, m2: Memory)
    requires Sane(m0, t, root, pt) && Sane(m1, t, root, pt) && Gentle(m0, m1, t, pt) && AtLevel(m1, t, root, ix, 3, c) && !IsReserved(ix)
    requires m2 == SetEntry(m1, c, ix[3], e)
    ensures Sane(m2, t, root, pt) && DataSame(m1, m2, t) && Led(m2, root, ix)
    ensures Walk(m2, root, ix) == if Present(e) then Page(e) else Fault
    ensures SameOutsideBut(m0, m2, root, ix) && LedKept(m0, m2, root, ix) && RightsHeld(m0, m2, root, ix)
  {
    hide Walk, Led, LeafEntry, HasParent, SettledBut, LinkOk, OnlySlot, Present, Large, TablesOk, IsWindow, GentleBut, RightsHeld;
    Prefixes(ix);
    SlotKeepsTables(m1, t, |m1|, root, c, ix[3], e);
    LeafFromRoot(m1, m2, t, |m1|, root, c, ix[3]);
    LeafSettled(m1, m2, t, c, ix[3]);
    assert PT_PATH[..3] == WINDOW_PATH;
    assert Walk(m2, root, PT_PATH) == Walk(m1, root, PT_PATH);
    LeafGentle(m1, m2, t, root, pt, c, ix[3]);
    GentleSame(m1, t, root, pt);
    GentleTrans(m0, m1, m2, t, pt, c, ix[3]);
    GentleFromRoot(m0, m2, t, root, pt, c, ix[3]);
    GentleRights(m0, m2, t, root, pt, c, ix[3], ix);
    LeafLevel(m1, t, root, pt, ix, c);
    LeafReached(m1, m2, t, root, pt, ix, c, e);
  }

  lemma LeafGentle(m0: Memory, m1: Memory, t: Tables, root: nat, pt: nat, T: nat, i: nat)
    requires TablesOk(m0, t, |m0|, root) && OnlySlot(m0, m1, t, T, i) && T in t && |t[T]| == 3 && i < 512 && |m1| == |m0|
    ensures GentleBut(m0, m1, t, pt, T, i)
  {
    hide Present, Large, HasParent, HasAll;
    forall f: nat, j: nat {:trigger UpperKept(m0, m1, f, j)} | f in t && |t[f]| < 3 && j < 512 ensures UpperKept(m0, m1, f, j) {
      assert TableOk(m0, t, |m0|, f) && LinkOk(m0, t, f, j) && BothTables(m0, m1, f);
      assert EntryAt(m1, f, j) == EntryAt(m0, f, j);
      HasAllTrans(EntryAt(m0, f, j).flags, 0, 0);
    }
    forall f: nat, j: nat {:trigger LeafKept(m0, m1, f, j)} |
      f in t && |t[f]| == 3 && j < 512 && !(f == pt && j >= 508) && !(f == T && j == i) ensures LeafKept(m0, m1, f, j) {
      assert BothTables(m0, m1, f);
      assert EntryAt(m1, f, j) == EntryAt(m0, f, j);
    }
  }

  lemma LeafReached(m1: Memory, m2: Memory, t: Tables, root: nat, pt: nat, ix: seq<nat>, c: nat, e: Entry)
    requires Sane(m1, t, root, pt) && AtLevel(m1, t, root, ix, 3, c) && Led(m1, root, ix)
    requires m2 == SetEntry(m1, c, ix[3], e) && OnlySlot(m1, m2, t, c, ix[3])
    ensures Led(m2, root, ix) && Walk(m2, root, ix) == if Present(e) then Page(e) else Fault
  {
    hide HasParent, SettledBut, LinkOk, OnlySlot, Present, Large, EntryAt;
    var c1, c2, c3 := Way(m1, t, root, ix);
    assert Unaliased(t, c3, c);
    StaysPresent(m1, m2, t, c, ix[3], root, ix[0]);
    StaysPresent(m1, m2, t, c, ix[3], c1, ix[1]);
    StaysPresent(m1, m2, t, c, ix[3], c2, ix[2]);
    StoredEntry(m1, c, ix[3], e);
    FourSteps(m2, root, ix, c1, c2, c3);
    assert ix[1..][1..] == ix[2..] && ix[2..][1..] == ix[3..] && ix[3..] == [ix[3]];
    assert Led(m2, c3, ix[3..]);
    assert Led(m2, c2, ix[2..]);
    assert Led(m2, c1, ix[1..]);
  }

  lemma StoredEntry(m: Memory, c: nat, i: nat, e: Entry)
    requires IsTable(m, c) && i < 512
    ensures EntryAt(SetEntry(m, c, i, e), c, i) == e
  {
  }

  lemma PresentCleared(e: Entry)
    ensures !Present(e.(flags := Without(e.flags, PAGE_P_BIT)))
  {
  }

  lemma AllFlags(f: flags, frame: nat)
    requires HasBit(f, PAGE_P_BIT)
    ensures LeafFlags(f) == f && Present(Entry(frame, LeafFlags(f)))
  {
    LeafIsPresent(f);
  }

  lemma ListKept(m0: Memory, m1: Memory, t: Tables, first: nat, blocks: seq<Block>)
    requires Chain(m0, first, blocks) && BlocksOk(m0, t, blocks) && DataSame(m0, m1, t)
    ensures Chain(m1, first, blocks) && BlocksOk(m1, t, blocks)
  {
    hide Chain;
    forall i: nat {:trigger blocks[i]} | i < |blocks| && blocks[i].start < |m0| ensures m1[blocks[i].start] == m0[blocks[i].start] {
      assert BlockOk(m0, t, blocks[i]) && InBlock(blocks[i], blocks[i].start);
    }
    ChainKept(m0, m1, first, blocks);
    forall i: nat {:trigger blocks[i]} | i < |blocks| ensures BlockOk(m1, t, blocks[i]) {
      assert BlockOk(m0, t, blocks[i]);
    }
  }

  lemma BlockIsOk(mem: Memory, t: Tables, blocks: seq<Block>, i: nat)
    requires BlocksOk(mem, t, blocks) && i < |blocks|
    ensures BlockOk(mem, t, blocks[i])
  {
  }

  /** A store to a frame that is no table. */
  lemma SaneOutside(m: Memory, t: Tables, root: nat, pt: nat, f: nat, m': Memory)
    requires Sane(m, t, root, pt) && f !in t && f < |m| && |m'| == |m| && m' == m[f := m'[f]]
    ensures Sane(m', t, root, pt) && Gentle(m, m', t, pt)
  {
    hide Walk, Present, Large, HasParent;
    forall g: nat {:trigger SameFrame(m, m', g)} | g in t ensures SameFrame(m, m', g) {
      assert TableOk(m, t, |m|, g);
    }
    FramesKeepTables(m, t, |m|, root, m');
    assert Walk(m', root, PT_PATH) == Walk(m, root, PT_PATH);
    forall g: nat, j: nat {:trigger UpperKept(m, m', g, j)} | g in t && |t[g]| < 3 && j < 512 ensures UpperKept(m, m', g, j) {
      assert TableOk(m, t, |m|, g) && LinkOk(m, t, g, j) && SameFrame(m, m', g);
    }
    forall g: nat, j: nat {:trigger LeafKept(m, m', g, j)} |
      g in t && |t[g]| == 3 && j < 512 && !(g == pt && j >= 508) && !(g == 0 && j == 0) ensures LeafKept(m, m', g, j) {
      assert TableOk(m, t, |m|, g) && SameFrame(m, m', g);
    }
  }

  lemma PushBlock(m: Memory, t: Tables, first: nat, blocks: seq<Block>, start: nat, size: nat, m': Memory)
    requires Chain(m, first, blocks) && BlocksOk(m, t, blocks) && 0 < start && 0 < size && start + size <= |m|
    requires forall f: nat {:trigger f in t} :: start <= f < start + size ==> f !in t
    requires forall i: nat {:trigger blocks[i]} :: i < |blocks| ==> BlocksDisjoint(Block(start, size), blocks[i])
    requires m' == m[start := Free(size, first)]
    ensures Chain(m', start, [Block(start, size)] + blocks) && BlocksOk(m', t, [Block(start, size)] + blocks)
    ensures forall f: nat {:trigger IsFree([Block(start, size)] + blocks, f)} ::
              IsFree([Block(start, size)] + blocks, f) <==> IsFree(blocks, f) || start <= f < start + size
  {
    var more := [Block(start, size)] + blocks;
    forall i: nat {:trigger blocks[i]} | i < |blocks| && blocks[i].start < |m| ensures m'[blocks[i].start] == m[blocks[i].start] {
      assert BlockOk(m, t, blocks[i]);
    }
    ChainKept(m, m', first, blocks);
    assert more[1..] == blocks;
    forall i: nat {:trigger more[i]} | i < |more| ensures BlockOk(m', t, more[i]) {
      if i > 0 { assert BlockOk(m, t, blocks[i - 1]); }
    }
    forall i: nat, j: nat {:trigger more[i], more[j]} | i < j < |more| ensures BlocksDisjoint(more[i], more[j]) {
      assert more[j] == blocks[j - 1];
      if i > 0 { assert more[i] == blocks[i - 1]; }
    }
    forall f: nat {:trigger IsFree(more, f)} ensures IsFree(more, f) <==> IsFree(blocks, f) || start <= f < start + size {
      if IsFree(blocks, f) {
        var i: nat :| i < |blocks| && InBlock(blocks[i], f);
        assert InBlock(more[i + 1], f);
      }
      if start <= f < start + size { assert InBlock(more[0], f); }
      if IsFree(more, f) {
        var i: nat :| i < |more| && InBlock(more[i], f);
        if i > 0 { assert InBlock(blocks[i - 1], f); }
      }
    }
  }

  lemma GentleSame(m: Memory, t: Tables, root: nat, pt: nat)
    requires Sane(m, t, root, pt)
    ensures Gentle(m, m, t, pt) && 0 !in t
  {
    hide Walk, Present, Large, HasParent, HasAll;
    forall g: nat, j: nat {:trigger UpperKept(m, m, g, j)} | g in t && |t[g]| < 3 && j < 512 ensures UpperKept(m, m, g, j) {
      assert TableOk(m, t, |m|, g) && LinkOk(m, t, g, j);
      HasAllTrans(EntryAt(m, g, j).flags, 0, 0);
    }
    forall g: nat, j: nat {:trigger LeafKept(m, m, g, j)} |
      g in t && |t[g]| == 3 && j < 512 && !(g == pt && j >= 508) && !(g == 0 && j == 0) ensures LeafKept(m, m, g, j) {
      assert TableOk(m, t, |m|, g);
    }
    assert 0 in t ==> TableOk(m, t, |m|, 0);
  }

  lemma GentleTrans2(m0: Memory, m1: Memory, m2: Memory, t: Tables, root: nat, pt: nat)
    requires Sane(m2, t, root, pt) && Gentle(m0, m1, t, pt) && Gentle(m1, m2, t, pt)
    ensures Gentle(m0, m2, t, pt)
  {
    hide GentleBut, Sane;
    GentleSame(m2, t, root, pt);
    GentleTrans(m0, m1, m2, t, pt, 0, 0);
  }

  lemma NullIsEmpty(mem: Memory, t: Tables, first: nat, blocks: seq<Block>)
    requires Chain(mem, first, blocks) && BlocksOk(mem, t, blocks)
    ensures first == 0 <==> blocks == []
  {
    if blocks != [] { assert BlockOk(mem, t, blocks[0]); }
  }

  lemma FirstBlock(mem: Memory, t: Tables, first: nat, blocks: seq<Block>)
    requires Chain(mem, first, blocks) && BlocksOk(mem, t, blocks) && blocks != []
    ensures var b := blocks[0];
            && b.start == first && 0 < first < |mem| && first !in t && b.size > 0 && first + b.size <= |mem| && IsFree(blocks, first)
            && mem[first].Free? && mem[first].size == b.size && Chain(mem, mem[first].next, blocks[1..])
  {
    assert BlockOk(mem, t, blocks[0]) && InBlock(blocks[0], blocks[0].start);
  }

  lemma PopBlock(mem: Memory, t: Tables, blocks: seq<Block>)
    requires BlocksOk(mem, t, blocks) && blocks != [] && blocks[0].size == 1
    ensures BlocksOk(mem, t, blocks[1..])
    ensures forall g: nat {:trigger IsFree(blocks[1..], g)} :: IsFree(blocks[1..], g) <==> IsFree(blocks, g) && g != blocks[0].start
  {
    var rest := blocks[1..];
    forall i: nat {:trigger rest[i]} | i < |rest| ensures BlockOk(mem, t, rest[i]) {
      assert rest[i] == blocks[i + 1];
    }
    forall i: nat, j: nat {:trigger rest[i], rest[j]} | i < j < |rest| ensures BlocksDisjoint(rest[i], rest[j]) {
      assert rest[i] == blocks[i + 1] && rest[j] == blocks[j + 1];
    }
    forall g: nat {:trigger IsFree(rest, g)} ensures IsFree(rest, g) <==> IsFree(blocks, g) && g != blocks[0].start {
      RestFree(mem, t, blocks, g);
    }
  }

  /** The pages of the other blocks are not in the first one. */
  lemma RestFree(mem: Memory, t: Tables, blocks: seq<Block>, g: nat)
    requires BlocksOk(mem, t, blocks) && blocks != []
    ensures IsFree(blocks[1..], g) <==> IsFree(blocks, g) && !InBlock(blocks[0], g)
  {
    var rest := blocks[1..];
    if IsFree(rest, g) {
      var i: nat :| i < |rest| && InBlock(rest[i], g);
      assert rest[i] == blocks[i + 1] && InBlock(blocks[i + 1], g) && BlocksDisjoint(blocks[0], blocks[i + 1]);
    }
    if IsFree(blocks, g) && !InBlock(blocks[0], g) {
      var i: nat :| i < |blocks| && InBlock(blocks[i], g);
      assert InBlock(rest[i - 1], g);
    }
  }

  lemma SecondPage(mem: Memory, t: Tables, blocks: seq<Block>)
    requires BlocksOk(mem, t, blocks) && blocks != [] && blocks[0].size > 1
    ensures var f := blocks[0].start + 1; f < |mem| && f !in t
  {
    assert BlockOk(mem, t, blocks[0]) && InBlock(blocks[0], blocks[0].start + 1);
  }

  lemma SameHeader(m1: Memory, m2: Memory, t: Tables, f: nat)
    requires DataSame(m1, m2, t) && f !in t && f < |m1|
    ensures f < |m2| && m2[f] == m1[f]
  {
  }

  /** The blocks when the first one loses its first page. */
  ghost function Less(blocks: seq<Block>): (less: seq<Block>)
    requires blocks != [] && blocks[0].size > 1
    ensures |less| == |blocks| && less[1..] == blocks[1..]
  {
    [Block(blocks[0].start + 1, blocks[0].size - 1)] + blocks[1..]
  }

  lemma LessChain(m: Memory, t: Tables, blocks: seq<Block>, m': Memory)
    requires BlocksOk(m, t, blocks) && blocks != [] && blocks[0].size > 1 && Chain(m, blocks[0].start, blocks)
    requires blocks[0].start + 1 < |m| && m[blocks[0].start].Free?
    requires m' == m[blocks[0].start + 1 := Free(blocks[0].size - 1, m[blocks[0].start].next)]
    ensures Chain(m', blocks[0].start + 1, Less(blocks))
  {
    var b, rest := blocks[0], blocks[1..];
    forall i: nat {:trigger rest[i]} | i < |rest| && rest[i].start < |m| ensures m'[rest[i].start] == m[rest[i].start] {
      assert rest[i] == blocks[i + 1] && BlockOk(m, t, blocks[i + 1]) && BlocksDisjoint(blocks[0], blocks[i + 1]);
    }
    ChainKept(m, m', m[b.start].next, rest);
  }

  lemma LessOk(m: Memory, t: Tables, blocks: seq<Block>, m': Memory)
    requires BlocksOk(m, t, blocks) && blocks != [] && blocks[0].size > 1 && |m'| == |m|
    ensures BlocksOk(m', t, Less(blocks))
  {
    var less := Less(blocks);
    forall i: nat {:trigger less[i]} | i < |less| ensures BlockOk(m', t, less[i]) {
      if i > 0 { assert less[i] == blocks[i]; }
      assert BlockOk(m, t, blocks[i]);
      forall f: nat {:trigger f in t} | InBlock(less[i], f) ensures f !in t {
        assert InBlock(blocks[i], f);
      }
    }
    forall i: nat, j: nat {:trigger less[i], less[j]} | i < j < |less| ensures BlocksDisjoint(less[i], less[j]) {
      assert less[j] == blocks[j] && BlocksDisjoint(blocks[i], blocks[j]);
      if i > 0 { assert less[i] == blocks[i]; }
    }
  }

  lemma LessFree(m: Memory, t: Tables, blocks: seq<Block>, g: nat)
    requires BlocksOk(m, t, blocks) && blocks != [] && blocks[0].size > 1
    ensures IsFree(Less(blocks), g) <==> IsFree(blocks, g) && g != blocks[0].start
  {
    hide BlocksOk;
    var rest, less := blocks[1..], Less(blocks);
    RestFree(m, t, blocks, g);
    if IsFree(less, g) {
      var i: nat :| i < |less| && InBlock(less[i], g);
      if i > 0 { assert less[i] == rest[i - 1] && InBlock(rest[i - 1], g); } else { assert InBlock(blocks[0], g); }
    }
    if IsFree(rest, g) {
      var i: nat :| i < |rest| && InBlock(rest[i], g);
      assert InBlock(less[i + 1], g);
    }
    if InBlock(blocks[0], g) {
      if g != blocks[0].start { assert InBlock(less[0], g); }
    }
  }

  /** The first block loses its first page; the header moves to the second. */
  lemma ShrinkBlock(m: Memory, t: Tables, blocks: seq<Block>, m': Memory)
    requires BlocksOk(m, t, blocks) && blocks != [] && blocks[0].size > 1 && Chain(m, blocks[0].start, blocks)
    requires blocks[0].start + 1 < |m| && m[blocks[0].start].Free?
    requires m' == m[blocks[0].start + 1 := Free(blocks[0].size - 1, m[blocks[0].start].next)]
    ensures var b := blocks[0]; var less := [Block(b.start + 1, b.size - 1)] + blocks[1..];
            && Chain(m', b.start + 1, less) && BlocksOk(m', t, less)
            && forall g: nat {:trigger IsFree(less, g)} :: IsFree(less, g) <==> IsFree(blocks, g) && g != b.start
  {
    hide Chain, BlocksOk, IsFree;
    LessChain(m, t, blocks, m');
    LessOk(m, t, blocks, m');
    forall g: nat {:trigger IsFree(Less(blocks), g)} ensures IsFree(Less(blocks), g) <==> IsFree(blocks, g) && g != blocks[0].start {
      LessFree(m, t, blocks, g);
    }
  }

  lemma LookBegins(mem: Memory, t: Tables, root: nat, pt: nat, f: nat)
    requires Sane(mem, t, root, pt)
    ensures Looking(mem, root, f, 0) && SameOutside(mem, mem, root) && OnlyWindow(mem, mem, t, pt)
  {
    hide Walk, SettledBut, LinkOk, HasParent;
    assert TableOk(mem, t, |mem|, pt);
  }

  lemma LookIsGentle(m0: Memory, m1: Memory, t: Tables, root: nat, pt: nat)
    requires Sane(m0, t, root, pt) && OnlyWindow(m0, m1, t, pt)
    ensures Gentle(m0, m1, t, pt) && DataSame(m0, m1, t)
  {
    hide Present, Large, Walk, SettledBut, HasParent, HasAll;
    forall f: nat, j: nat {:trigger UpperKept(m0, m1, f, j)} | f in t && |t[f]| < 3 && j < 512 ensures UpperKept(m0, m1, f, j) {
      assert TableOk(m0, t, |m0|, f) && LinkOk(m0, t, f, j);
      assert m1[f] == m0[f];
      HasAllTrans(EntryAt(m0, f, j).flags, 0, 0);
    }
    forall f: nat, j: nat {:trigger LeafKept(m0, m1, f, j)} |
      f in t && |t[f]| == 3 && j < 512 && !(f == pt && j >= 508) && !(f == 0 && j == 0) ensures LeafKept(m0, m1, f, j) {
      assert TableOk(m0, t, |m0|, f);
      if f != pt { assert m1[f] == m0[f]; } else { assert EntryAt(m1, pt, j) == EntryAt(m0, pt, j); }
    }
  }

  lemma LookEnds(mem: Memory, root: nat, f: nat)
    requires Looking(mem, root, f, 4)
    ensures Walk(mem, root, WindowPath(0)) == Page(Entry(f, LOOKED))
  {
    hide Walk;
    assert Walk(mem, root, WindowPath(0)) == Page(Entry(f + 0, LOOKED));
  }

  lemma WindowTable(mem: Memory, t: Tables, root: nat, pt: nat)
    requires Sane(mem, t, root, pt)
    ensures var tr := Walk(mem, root, PT_PATH); tr.Page? && tr.entry.frame == pt && IsTable(mem, pt)
  {
    hide Walk, SettledBut, LinkOk, HasParent;
    assert TableOk(mem, t, |mem|, pt);
  }

  /** Storing one window entry. */
  lemma LookStep(m0: Memory, m1: Memory, m2: Memory, t: Tables, root: nat, pt: nat, f: nat, i: nat)
    requires Sane(m1, t, root, pt) && i < 4 && Looking(m1, root, f, i)
    requires SameOutside(m0, m1, root) && OnlyWindow(m0, m1, t, pt)
    requires IsTable(m1, pt) && m2 == SetEntry(m1, pt, 508 + i, Entry(f + i, LOOKED))
    ensures Sane(m2, t, root, pt) && Looking(m2, root, f, i + 1)
    ensures SameOutside(m0, m2, root) && OnlyWindow(m0, m2, t, pt)
  {
    hide Walk, SettledBut, TablesOk, OnlySlot;
    SlotKeepsTables(m1, t, |m1|, root, pt, 508 + i, Entry(f + i, LOOKED));
    LeafFromRoot(m1, m2, t, |m1|, root, pt, 508 + i);
    LeafSettled(m1, m2, t, pt, 508 + i);
    assert t[pt] + [508 + i] == WindowPath(i);
    LookHits(m1, m2, t, root, pt, i, Entry(f + i, LOOKED));
    assert PT_PATH[3] != WindowPath(i)[3];
    assert Walk(m2, root, PT_PATH) == Walk(m1, root, PT_PATH);
    forall k: nat {:trigger WindowPath(k)} | k < i + 1 ensures Walk(m2, root, WindowPath(k)) == Page(Entry(f + k, LOOKED)) {
      if k < i {
        assert WindowPath(k)[3] != WindowPath(i)[3];
        assert Walk(m2, root, WindowPath(k)) == Walk(m1, root, WindowPath(k));
      }
    }
    WindowSlot(m0, m1, t, pt, 508 + i, Entry(f + i, LOOKED));
    forall ix {:trigger Walk(m2, root, ix)} | IsPath(ix, 4) && !IsWindow(ix) ensures Walk(m2, root, ix) == Walk(m0, root, ix) {
      assert IsWindow(WindowPath(i)) by { assert WindowPath(i)[..3] == WINDOW_PATH; }
      assert Walk(m2, root, ix) == Walk(m1, root, ix);
      assert Walk(m1, root, ix) == Walk(m0, root, ix);
    }
  }

  lemma WindowSlot(m0: Memory, m1: Memory, t: Tables, pt: nat, i: nat, e: Entry)
    requires OnlyWindow(m0, m1, t, pt) && 508 <= i < 512
    ensures OnlyWindow(m0, SetEntry(m1, pt, i, e), t, pt)
  {
    var m2 := SetEntry(m1, pt, i, e);
    forall g: nat {:trigger m2[g]} | g < |m0| && g != pt ensures m2[g] == m0[g] {
      assert m1[g] == m0[g];
    }
    forall j: nat {:trigger EntryAt(m2, pt, j)} | j < 508 ensures EntryAt(m2, pt, j) == EntryAt(m0, pt, j) {
      assert EntryAt(m1, pt, j) == EntryAt(m0, pt, j);
    }
  }

  /** The table pt is on the way of every address of the window region. */
  lemma LookHits(m1: Memory, m2: Memory, t: Tables, root: nat, pt: nat, i: nat, e: Entry)
    requires Sane(m1, t, root, pt) && OnlySlot(m1, m2, t, pt, 508 + i) && i < 4
    requires IsTable(m1, pt) && IsTable(m2, pt) && EntryAt(m2, pt, 508 + i) == e && e.flags == LOOKED
    ensures Walk(m2, root, WindowPath(i)) == Page(e)
  {
    hide SettledBut, LinkOk, HasParent, OnlySlot, Large, EntryAt;
    NotFaultLed(m1, root, PT_PATH);
    var c1, c2, c3 := Way(m1, t, root, PT_PATH);
    assert Unaliased(t, c3, pt);
    StaysPresent(m1, m2, t, pt, 508 + i, root, 511);
    StaysPresent(m1, m2, t, pt, 508 + i, c1, 511);
    StaysPresent(m1, m2, t, pt, 508 + i, c2, 511);
    FourSteps(m2, root, WindowPath(i), c1, c2, c3);
  }

  /** The tables that a present translation goes through. */
  lemma Way(mem: Memory, t: Tables, root: nat, ix: seq<nat>) returns (c1: nat, c2: nat, c3: nat)
    requires TablesOk(mem, t, |mem|, root) && IsPath(ix, 4) && Led(mem, root, ix)
    ensures root in t && c1 in t && c2 in t && c3 in t && t[root] == [] && t[c1] == ix[..1] && t[c2] == ix[..2] && t[c3] == ix[..3]
    ensures IsTable(mem, root) && IsTable(mem, c1) && IsTable(mem, c2) && IsTable(mem, c3)
    ensures var e0 := EntryAt(mem, root, ix[0]); Present(e0) && !Large(e0) && e0.frame == c1
    ensures var e1 := EntryAt(mem, c1, ix[1]); Present(e1) && !Large(e1) && e1.frame == c2
    ensures var e2 := EntryAt(mem, c2, ix[2]); Present(e2) && !Large(e2) && e2.frame == c3
    ensures root != c3 && c1 != c3 && c2 != c3
  {
    hide Present, Large, HasParent;
    Prefixes(ix);
    assert TableOk(mem, t, |mem|, root);
    assert LinkOk(mem, t, root, ix[0]);
    c1 := EntryAt(mem, root, ix[0]).frame;
    assert TableOk(mem, t, |mem|, c1);
    assert Led(mem, c1, ix[1..]);
    assert ix[1..][0] == ix[1] && LinkOk(mem, t, c1, ix[1]);
    c2 := EntryAt(mem, c1, ix[1]).frame;
    assert TableOk(mem, t, |mem|, c2);
    assert ix[1..][1..] == ix[2..] && Led(mem, c2, ix[2..]);
    assert ix[2..][0] == ix[2] && LinkOk(mem, t, c2, ix[2]);
    c3 := EntryAt(mem, c2, ix[2]).frame;
    assert TableOk(mem, t, |mem|, c3);
    assert |ix[..1]| == 1 && |ix[..2]| == 2 && |ix[..3]| == 3;
  }

  // ---------- What the two operations need ----------

  /**
    map_page sets the present bit of an upper entry before it tests it, so that it never makes
    a table: the tree survives exactly if the table was there.
   */
  lemma OrKeepsTreeIff(mem: Memory, t: Tables, limit: nat, root: nat, T: nat, i: nat, flags: flags)
    requires TablesOk(mem, t, limit, root) && Settled(mem, t) && T in t && |t[T]| < 3 && i < 512 && IsTable(mem, T)
    requires HasBit(flags, PAGE_P_BIT)
    ensures var e := EntryAt(mem, T, i);
            var e' := e.(flags := With(e.flags, UpperFlags(flags)));
            Present(e') && (TablesOk(SetEntry(mem, T, i, e'), t, limit, root) <==> Present(e))
  {
    hide Present, Large, HasBit, With, UpperFlags, HasParent;
    var e := EntryAt(mem, T, i);
    var e' := e.(flags := With(e.flags, UpperFlags(flags)));
    OrIsPresent(e, flags);
    assert TableOk(mem, t, limit, T) && LinkOk(mem, t, T, i);
    if Present(e) {
      SlotKeepsTables(mem, t, limit, root, T, i, e');
    } else {
      assert e.frame == 0;
      var mem' := SetEntry(mem, T, i, e');
      assert !LinkOk(mem', t, T, i);
      assert !TableOk(mem', t, limit, T);
    }
  }

  lemma OrIsPresent(e: Entry, flags: flags)
    requires HasBit(flags, PAGE_P_BIT)
    ensures Present(e.(flags := With(e.flags, UpperFlags(flags))))
    ensures !Large(e) ==> !Large(e.(flags := With(e.flags, UpperFlags(flags))))
  {
    OrKeepsPresent(e.flags, flags);
  }

  /** Some list from the page first on holds the frames of blocks and those from start on. */
  ghost predicate Lists(mem: Memory, t: Tables, first: nat, blocks: seq<Block>, start: nat, size: nat) {
    exists more: seq<Block> {:trigger Chain(mem, first, more)} ::
      && Chain(mem, first, more) && BlocksOk(mem, t, more)
      && forall f: nat {:trigger IsFree(more, f)} :: IsFree(more, f) <==> IsFree(blocks, f) || start <= f < start + size
  }

  /**
    add_phys_mem adds a block to the list exactly if the block has at least a page and does not
    start at address 0: a header of size 0 is no block, and a block at 0 ends the list. Only if
    nothing is to be listed at all, no page at address 0 and none before, is the end of the list right.
   */
  lemma AddsIff(m: Memory, t: Tables, first: nat, blocks: seq<Block>, start: nat, length: nat)
    requires Chain(m, first, blocks) && BlocksOk(m, t, blocks) && start < |m| && start + length / PAGE_SIZE <= |m|
    requires forall f: nat {:trigger f in t} :: start <= f < start + length / PAGE_SIZE ==> f !in t
    requires forall i: nat {:trigger blocks[i]} :: i < |blocks| ==> BlocksDisjoint(Block(start, length / PAGE_SIZE), blocks[i])
    ensures var size := length / PAGE_SIZE;
      Lists(m[start := Free(size, first)], t, start, blocks, start, size) <==>
        (start != 0 && length >= PAGE_SIZE) || (start == 0 && length < PAGE_SIZE && blocks == [])
  {
    var size := length / PAGE_SIZE;
    var m' := m[start := Free(size, first)];
    if start != 0 && size > 0 {
      PushBlock(m, t, first, blocks, start, size, m');
      assert Chain(m', start, [Block(start, size)] + blocks);
    }
    if blocks == [] {
      assert start == 0 ==> Chain(m', start, []);
    } else {
      assert BlockOk(m, t, blocks[0]) && IsFree(blocks, blocks[0].start);
    }
    forall more: seq<Block> | Chain(m', start, more) && BlocksOk(m', t, more) ensures more == [] ==> start == 0 && forall f: nat :: !IsFree(more, f)
      ensures more != [] ==> start != 0 && size > 0
    {
      if more != [] {
        assert BlockOk(m', t, more[0]);
      }
    }
  }
}

/**
  The loader's page-table builder: tables are taken from the end of used memory, which only
  grows, and hung into the tree as pages are mapped.
 */
module LoaderPaging {
  import opened Paging

  const FRAMES_BELOW_4G := 0x10_0000

  /** The places of the four tables that translate an address. */
  ghost function Places(ix: seq<nat>): set<seq<nat>>
    requires |ix| == 4
  {
    {[], ix[..1], ix[..2], ix[..3]}
  }

  /** How many of these tables are not among places yet. */
  ghost function Missing(places: set<seq<nat>>, ix: seq<nat>): nat
    requires |ix| == 4
  {
    (if [] in places then 0 else 1) + (if ix[..1] in places then 0 else 1)
    + (if ix[..2] in places then 0 else 1) + (if ix[..3] in places then 0 else 1)
  }

  ghost predicate TreeOk(mem: Memory, t: Tables, limit: nat, pml4: nat) {
    if pml4 == 0 then t == map[] else TablesOk(mem, t, limit, pml4) && Settled(mem, t)
  }

  function Translate(mem: Memory, pml4: nat, ix: seq<nat>): Translation {
    if pml4 == 0 then Fault else Walk(mem, pml4, ix)
  }

  /** Frames in use that are not tables stay as they are. */
  ghost predicate DataKept(mem: Memory, t: Tables, used: nat, mem': Memory) {
    |mem'| == |mem| && forall f: nat {:trigger mem'[f]} :: f < used && f < |mem| && f !in t ==> mem'[f] == mem[f]
  }

  class Loader {
    var mem: Memory
    var used: nat // used_memory, in frames
    var pml4: nat // 0 is the null pointer
    ghost var t: Tables

    ghost predicate Valid()
      reads this
    {
      && 0 < used <= |mem| <= FRAMES_BELOW_4G
      && TreeOk(mem, t, used, pml4)
    }

    /** Before the first page is mapped there are no tables; used memory starts behind the loader. */
    constructor (memory: Memory, start: nat)
      requires 0 < start <= |memory| <= FRAMES_BELOW_4G
      ensures Valid() && mem == memory && used == start && pml4 == 0 && t == map[]
    {
      mem, used, pml4, t := memory, start, 0, map[];
    }

    /** extend_used_memory, for an end address. */
    method ExtendUsedMemory(addr: nat)
      requires Valid() && 0 < addr <= |mem| * PAGE_SIZE
      modifies `used
      ensures Valid() && used >= old(used) && used * PAGE_SIZE >= addr
      ensures used == old(used) || (used - 1) * PAGE_SIZE < addr
    {
      var frame := (addr - 1) / PAGE_SIZE + 1;
      if frame > used {
        LimitGrows(mem, t, used, pml4, frame);
        used := frame;
      }
    }

    method NewPhysPage() returns (f: nat)
      requires used < |mem|
      modifies `used
      ensures f == old(used) && used == old(used) + 1
    {
      f := used;
      used := used + 1;
    }

    /** new_phys_zero_page, when the page becomes a table. */
    method NewTable() returns (f: nat)
      requires used < |mem|
      modifies `used, `mem
      ensures f == old(used) && used == old(used) + 1 && mem == old(mem)[f := ZeroTable()]
    {
      f := NewPhysPage();
      mem := mem[f := ZeroTable()];
    }

    /** new_phys_zero_page, when the page will hold plain bytes. */
    method NewZeroPage() returns (f: nat)
      requires Valid() && used < |mem|
      modifies `used, `mem
      ensures Valid() && f == old(used) && used == old(used) + 1
      ensures mem == old(mem)[f := Bytes(seq(PAGE_SIZE, _ => 0))]
      ensures pml4 != 0 ==> SameWalks(old(mem), mem, pml4)
      ensures WritesKept(old(mem), pml4, mem, pml4)
    {
      hide Writable, Grants;
      f := NewPhysPage();
      ghost var mem0 := mem;
      mem := mem[f := Bytes(seq(PAGE_SIZE, _ => 0))];
      if pml4 != 0 { PageOutside(mem0, t, f, pml4, f, mem); }
      OutsideKeepsWrites(mem0, t, f, pml4, f, mem);
      LimitGrows(mem, t, f, pml4, used);
    }

    /** One level of map_page: make sure that entry i of table T names a table. */
    method EnsureTable(T: nat, i: nat, ghost S: set<(nat, nat)>) returns (c: nat)
      requires pml4 != 0 && 0 < used <= |mem| && TablesOk(mem, t, used, pml4) && SettledBut(mem, t, S)
      requires T in t && |t[T]| < 3 && i < 512 && IsTable(mem, T) && (T, i) !in S
      requires t[T] + [i] !in t.Values ==> used < |mem|
      modifies `mem, `used, `t
      ensures |mem| == old(|mem|) && used <= |mem| && TablesOk(mem, t, used, pml4) && SameWalks(old(mem), mem, pml4)
      ensures SettledBut(mem, t, S + {(T, i)})
      ensures QuietStep(old(mem), mem, old(t), T, i) && Pending(mem, T, i, c)
      ensures c in t && t[c] == old(t[T]) + [i] && EntryAt(mem, T, i).frame == c && IsTable(mem, c)
      ensures Grown(old(t), old(used), t) && t.Values == old(t.Values) + {old(t[T]) + [i]}
      ensures used == old(used) + (if old(t[T] + [i] in t.Values) then 0 else 1)
      ensures old(t[T]) + [i] !in old(t.Values) ==> c == old(used)
      ensures DataKept(old(mem), old(t), old(used), mem) && WiderBut(old(mem), mem, old(t), 0, 0)
    {
      hide Present, Large, TablesOk, HasParent, TableOk, LinkOk, SettledBut, Walk, OnlySlot, AllAbsent, WiderBut;
      ghost var mem0, t0 := mem, t;
      SlotSays(mem, t, used, pml4, T, i, S);
      if !Present(EntryAt(mem, T, i)) {
        AddTable(mem, t, used, pml4, T, i);
        FreshIsNot(mem, t, used, pml4, T);
        c := NewTable();
        mem := SetEntry(mem, T, i, Entry(c, 0));
        StillAbsent(mem0, mem, t, c, pml4, T, i);
        FreshSettled(mem0, mem, t, c, pml4, T, i, S);
        t := t[c := t[T] + [i]];
        StepValues(t0, t0.Values, t0[T] + [i], c, t);
      } else {
        c := EntryAt(mem, T, i).frame;
        NothingChanged(mem, t, used, pml4, T, i);
        SettledMore(mem, t, S, (T, i));
        FreshIsNot(mem, t, used, pml4, c);
        StepValues(t0, t0.Values, t0[T] + [i], c, t);
      }
      StepPending(mem0, mem, t0, pml4, T, i, c);
      StepIsWider(mem0, mem, t0, T, i);
    }

    /** The first part of map_page: all four tables exist. */
    method BuildPath(ix: seq<nat>) returns (c1: nat, c2: nat, c3: nat)
      requires pml4 != 0 && 0 < used <= |mem| && TablesOk(mem, t, used, pml4) && Settled(mem, t) && IsPath(ix, 4)
      requires used + Missing(t.Values, ix) <= |mem|
      modifies `mem, `used, `t
      ensures |mem| == old(|mem|) && used <= |mem| && TablesOk(mem, t, used, pml4) && SameWalks(old(mem), mem, pml4)
      ensures Spine(mem, t, pml4, ix, c1, c2, c3)
      ensures Pending(mem, pml4, ix[0], c1) && Pending(mem, c1, ix[1], c2) && Pending(mem, c2, ix[2], c3)
      ensures SettledBut(mem, t, {(pml4, ix[0]), (c1, ix[1]), (c2, ix[2])})
      ensures used == old(used) + Missing(old(t.Values), ix) && t.Values == old(t.Values) + Places(ix)
      ensures ix[..3] !in old(t.Values) ==> c3 == used - 1
      ensures DataKept(old(mem), old(t), old(used), mem) && Grown(old(t), old(used), t) && WiderBut(old(mem), mem, old(t), 0, 0)
    {
      hide Present, Large, TablesOk, HasParent, TableOk, LinkOk, SettledBut, Walk, OnlySlot, AllAbsent, DataKept, EntryAt, SameWalks,
        QuietStep, Pending, Grown, WiderBut;
      ghost var m0, t0, u0 := mem, t, used;
      RootOf(mem, t, used, pml4);
      Prefixes(ix);
      c1 := EnsureTable(pml4, ix[0], {});
      ghost var m1, t1, u1 := mem, t, used;
      GrownKeeps(t0, u0, t1, pml4);
      c2 := EnsureTable(c1, ix[1], {} + {(pml4, ix[0])});
      ghost var m2, t2, u2 := mem, t, used;
      GrownKeeps(t1, u1, t2, pml4);
      GrownKeeps(t1, u1, t2, c1);
      EarlierSlot(m1, m2, t1, c1, ix[1], pml4, ix[0], c1);
      c3 := EnsureTable(c2, ix[2], {} + {(pml4, ix[0])} + {(c1, ix[1])});
      EarlierSlot(m2, mem, t2, c2, ix[2], pml4, ix[0], c1);
      EarlierSlot(m2, mem, t2, c2, ix[2], c1, ix[1], c2);
      GrownKeeps(t2, u2, t, pml4);
      GrownKeeps(t2, u2, t, c1);
      GrownKeeps(t2, u2, t, c2);
      SameWalksTrans(m0, m1, m2, pml4);
      SameWalksTrans(m0, m2, mem, pml4);
      KeptTrans(m0, t0, u0, m1, t1, u1, m2);
      GrownTrans(t0, u0, t1, u1, t2);
      KeptTrans(m0, t0, u0, m2, t2, u2, mem);
      GrownTrans(t0, u0, t2, u2, t);
      WiderStep(m0, t0, u0, m1, t1, m2);
      WiderStep(m0, t0, u0, m2, t2, mem);
      assert {} + {(pml4, ix[0])} + {(c1, ix[1])} + {(c2, ix[2])} == {(pml4, ix[0]), (c1, ix[1]), (c2, ix[2])};
      PlacesGrow(t0.Values, ix, pml4, t0);
    }

    /** *entry |= flags & MASK, for an upper entry on the way of a page being mapped. */
    method OrFlags(T: nat, i: nat, ghost c: nat, flags: flags, ghost S: set<(nat, nat)>)
      requires pml4 != 0 && TablesOk(mem, t, used, pml4) && SettledBut(mem, t, S) && HasBit(flags, PAGE_P_BIT)
      requires T in t && |t[T]| < 3 && Pending(mem, T, i, c) && EntryAt(mem, T, i).frame == c && c in t && c != 0
      modifies `mem
      ensures |mem| == old(|mem|) && TablesOk(mem, t, used, pml4) && SettledBut(mem, t, S - {(T, i)})
      ensures IsTable(mem, T) && Present(EntryAt(mem, T, i)) && !Large(EntryAt(mem, T, i)) && EntryAt(mem, T, i).frame == c
      ensures OnlySlot(old(mem), mem, t, T, i) && SameWalks(old(mem), mem, pml4)
      ensures mem == SetEntry(old(mem), T, i, Entry(c, With(old(EntryAt(mem, T, i)).flags, UpperFlags(flags))))
      ensures EntryAt(mem, T, i).flags == With(old(EntryAt(mem, T, i)).flags, UpperFlags(flags)) && WiderBut(old(mem), mem, t, 0, 0)
    {
      hide HasBit, With, UpperFlags, TablesOk, OnlySlot, Walk, SettledBut, AllAbsent, WiderBut, HasAll;
      ghost var m0 := mem;
      var e := EntryAt(mem, T, i);
      OrKeepsPresent(e.flags, flags);
      SlotKeepsTables(mem, t, used, pml4, T, i, e.(flags := With(e.flags, UpperFlags(flags))));
      mem := SetEntry(mem, T, i, e.(flags := With(e.flags, UpperFlags(flags))));
      EmptyStays(m0, mem, t, used, pml4, T, i, c);
      HarmlessFromRoot(m0, mem, t, used, pml4, T, i);
      SettledLess(m0, mem, t, S, T, i);
      OrIsWider(e.flags, UpperFlags(flags), 0);
      SlotIsWider(m0, mem, t, T, i);
    }

    /**
      map_page: afterwards the page is translated to phys with the given flags, and every other
      page as before. phys is a frame number.
     */
    method MapPage(virt: nat, phys: nat, flags: flags) returns (ghost leaf: nat)
      requires Valid() && Canonical(virt) && PageAligned(virt)
      requires used + Missing(t.Values, Indices(virt)) <= |mem|
      modifies `mem, `used, `t, `pml4
      ensures Valid() && pml4 != 0 && |mem| == old(|mem|) && (old(pml4) != 0 ==> pml4 == old(pml4))
      ensures leaf in t && t[leaf] == Indices(virt)[..3] && (Indices(virt)[..3] !in old(t.Values) ==> leaf == used - 1)
      ensures Translate(mem, pml4, Indices(virt)) == Page(Entry(phys, With(flags, PAGE_P_BIT)))
      ensures OtherPages(old(mem), old(pml4), mem, pml4, Indices(virt))
      ensures used == old(used) + Missing(old(t.Values), Indices(virt)) && t.Values == old(t.Values) + Places(Indices(virt))
      ensures DataKept(old(mem), old(t), old(used), mem) && Grown(old(t), old(used), t)
      ensures forall bits: flags {:trigger Allows(mem, pml4, Indices(virt), bits)} :: Asked(flags, bits) ==> Allows(mem, pml4, Indices(virt), bits)
      ensures RightsKept(old(mem), old(pml4), mem, pml4, Indices(virt))
      ensures HasBit(flags, PAGE_RW_BIT) ==> Writable(mem, pml4, Indices(virt)) && WritesKept(old(mem), old(pml4), mem, pml4)
    {
      hide Writable, HasBit, With, UpperFlags, TablesOk, OnlySlot, Walk, SettledBut, AllAbsent, Pending, Indices, LeafFlags, DataKept,
        Grown, SameWalks, SameWalksBut, Grants, Asked;
      ghost var m0, t0, u0, r0 := mem, t, used, pml4;
      var ix := Indices(virt);
      if pml4 == 0 {
        pml4 := NewTable();
        t := map[pml4 := []];
        FirstTable(mem, pml4);
        FirstKept(m0, u0, mem, pml4, t);
      } else {
        RootOf(mem, t, used, pml4);
        NothingChanged(mem, t, used, pml4, pml4, 0);
        GrownSame(t, used);
      }
      ghost var ma, ta, ua := mem, t, used;
      StartWalks(m0, r0, mem, pml4);
      FirstMissing(t0.Values, t, pml4, ix);
      leaf := MapHere(ix, phys, flags);
      OthersThen(m0, r0, ma, mem, pml4, ix);
      KeptTrans(m0, t0, u0, ma, ta, ua, mem);
      GrownTrans(t0, u0, ta, ua, t);
      if HasBit(flags, PAGE_RW_BIT) { WriteMapped(m0, r0, mem, pml4, ix, flags); }
    }

    /** map_page once there is a root table. */
    method MapHere(ix: seq<nat>, phys: nat, flags: flags) returns (ghost leaf: nat)
      requires Valid() && pml4 != 0 && IsPath(ix, 4) && used + Missing(t.Values, ix) <= |mem|
      modifies `mem, `used, `t
      ensures Valid() && |mem| == old(|mem|)
      ensures leaf in t && t[leaf] == ix[..3] && (ix[..3] !in old(t.Values) ==> leaf == used - 1)
      ensures Walk(mem, pml4, ix) == Page(Entry(phys, With(flags, PAGE_P_BIT))) && SameWalksBut(old(mem), mem, pml4, ix)
      ensures used == old(used) + Missing(old(t.Values), ix) && t.Values == old(t.Values) + Places(ix)
      ensures DataKept(old(mem), old(t), old(used), mem) && Grown(old(t), old(used), t)
      ensures forall bits: flags {:trigger Allows(mem, pml4, ix, bits)} :: Asked(flags, bits) ==> Allows(mem, pml4, ix, bits)
      ensures RightsKept(old(mem), pml4, mem, pml4, ix)
    {
      hide HasBit, With, UpperFlags, TablesOk, OnlySlot, Walk, SettledBut, AllAbsent, Pending, LeafFlags, DataKept, Grown, SameWalks,
        SameWalksBut, EntryAt, Present, Large, Spine, Allows, Asked, RightsKept, WiderBut;
      ghost var m0, t0, u0 := mem, t, used;
      var c1, c2, c3 := BuildPath(ix);
      leaf := c3;
      ghost var m1 := mem;
      SpineIs(mem, t, used, pml4, ix, c1, c2, c3);
      OrLemma(flags, phys);
      var f := With(flags, PAGE_P_BIT);
      ghost var S := {(pml4, ix[0]), (c1, ix[1]), (c2, ix[2])};
      OrFlags(pml4, ix[0], c1, f, S);
      ghost var m2 := mem;
      StaysPending(m1, m2, t, pml4, ix[0], c1, ix[1], c2);
      StaysPending(m1, m2, t, pml4, ix[0], c2, ix[2], c3);
      OrFlags(c1, ix[1], c2, f, S - {(pml4, ix[0])});
      ghost var m3 := mem;
      StaysPending(m2, m3, t, c1, ix[1], c2, ix[2], c3);
      StaysPresent(m2, m3, t, c1, ix[1], pml4, ix[0]);
      OrFlags(c2, ix[2], c3, f, S - {(pml4, ix[0])} - {(c1, ix[1])});
      ghost var m4 := mem;
      StaysPresent(m3, m4, t, c2, ix[2], pml4, ix[0]);
      StaysPresent(m3, m4, t, c2, ix[2], c1, ix[1]);
      assert S - {(pml4, ix[0])} - {(c1, ix[1])} - {(c2, ix[2])} == {};
      FreshIsNot(mem, t, used, pml4, c3);
      mem := SetEntry(mem, c3, ix[3], Entry(phys, LeafFlags(f)));
      LeafStored(m4, t, used, pml4, ix, c1, c2, c3, Entry(phys, LeafFlags(f)), mem);
      SameWalksTrans(m0, m1, m2, pml4);
      SameWalksTrans(m0, m2, m3, pml4);
      SameWalksTrans(m0, m3, m4, pml4);
      SameWalksThen(m0, m4, mem, pml4, ix);
      TableStores(m0, t0, u0, m1, t, m2, pml4);
      TableStores(m0, t0, u0, m2, t, m3, c1);
      TableStores(m0, t0, u0, m3, t, m4, c2);
      TableStores(m0, t0, u0, m4, t, mem, c3);
      WiderStep(m0, t0, u0, m1, t, m2);
      WiderStep(m0, t0, u0, m2, t, m3);
      WiderStep(m0, t0, u0, m3, t, m4);
      LeafRights(m0, t0, u0, m4, mem, t, pml4, c3, ix);
      forall bits: flags {:trigger Allows(mem, pml4, ix, bits)} | Asked(flags, bits) ensures Allows(mem, pml4, ix, bits) {
        SpineGrants(m1, m2, m3, m4, mem, t, pml4, ix, c1, c2, c3, flags, phys, bits);
      }
    }
  }

  /** All translations but that of one page are as they were. */
  ghost predicate OtherPages(m0: Memory, r0: nat, m1: Memory, r1: nat, but: seq<nat>) {
    forall ix {:trigger Translate(m1, r1, ix)} :: IsPath(ix, 4) && ix != but ==> Translate(m1, r1, ix) == Translate(m0, r0, ix)
  }

  lemma StepIsWider(m0: Memory, m1: Memory, t: Tables, T: nat, i: nat)
    requires OnlySlot(m0, m1, t, T, i) && T in t && i < 512 && IsTable(m0, T) && IsTable(m1, T)
    requires m1 == m0 || !Present(EntryAt(m0, T, i))
    ensures WiderBut(m0, m1, t, 0, 0)
  {
    hide Present, Large, HasAll;
    HasAllTrans(EntryAt(m0, T, i).flags, 0, 0);
    SlotIsWider(m0, m1, t, T, i);
  }

  /** Another step, with the tables there are by then. */
  lemma WiderStep(m0: Memory, t0: Tables, u0: nat, m1: Memory, t1: Tables, m2: Memory)
    requires WiderBut(m0, m1, t0, 0, 0) && WiderBut(m1, m2, t1, 0, 0) && Grown(t0, u0, t1)
    ensures WiderBut(m0, m2, t0, 0, 0)
  {
    hide WiderAt;
    WiderTrans(m0, m1, m2, t0, t1, 0, 0);
  }

  /** The last store of map_page takes no right from any other page. */
  lemma LeafRights(m0: Memory, t0: Tables, u0: nat, m4: Memory, m5: Memory, t: Tables, root: nat, c3: nat, ix: seq<nat>)
    requires TablesOk(m0, t0, u0, root) && WiderBut(m0, m4, t0, 0, 0) && Grown(t0, u0, t)
    requires IsPath(ix, 4) && c3 in t && t[c3] == ix[..3] && OnlySlot(m4, m5, t, c3, ix[3])
    ensures RightsKept(m0, root, m5, root, ix)
  {
    hide WiderAt, WiderBut, TableOk, LinkOk, HasParent, Unaliased, RightsKept, OnlySlot;
    FreshIsNot(m0, t0, u0, root, root);
    NullIsNoTable(m0, t0, u0, root);
    SlotIsWider(m4, m5, t, c3, ix[3]);
    WiderLess(m0, m4, t0, c3, ix[3]);
    WiderTrans(m0, m4, m5, t0, t, c3, ix[3]);
    assert ix[..3] + [ix[3]] == ix;
    RightsFromRoot(m0, m5, t0, u0, root, c3, ix[3], ix);
  }

  /** Mapping a page for writing takes the right to write from no page. */
  lemma WriteMapped(m0: Memory, r0: nat, m1: Memory, r1: nat, ix: seq<nat>, flags: flags)
    requires HasBit(flags, PAGE_RW_BIT) && RightsKept(m0, r0, m1, r1, ix)
    requires forall bits: flags {:trigger Allows(m1, r1, ix, bits)} :: Asked(flags, bits) ==> Allows(m1, r1, ix, bits)
    ensures Writable(m1, r1, ix) && WritesKept(m0, r0, m1, r1)
  {
    hide Allows, Asked, HasBit;
    WriteIsAsked(flags);
    assert Allows(m1, r1, ix, 0x002);
    forall jx {:trigger Writable(m1, r1, jx)} | IsPath(jx, 4) && Writable(m0, r0, jx) ensures Writable(m1, r1, jx) {
      assert Allows(m1, r1, jx, 0x002) || !Allows(m1, r1, jx, 0x002);
    }
  }

  lemma WritesTrans(m0: Memory, r0: nat, m1: Memory, r1: nat, m2: Memory, r2: nat)
    requires WritesKept(m0, r0, m1, r1) && WritesKept(m1, r1, m2, r2)
    ensures WritesKept(m0, r0, m2, r2)
  {
    hide Writable;
    forall ix {:trigger Writable(m2, r2, ix)} | IsPath(ix, 4) && Writable(m0, r0, ix) ensures Writable(m2, r2, ix) {
      assert Writable(m1, r1, ix);
    }
  }

  /** Stores outside the tables change no right. */
  lemma FramesKeepWrites(m0: Memory, t: Tables, limit: nat, r: nat, m1: Memory)
    requires TreeOk(m0, t, limit, r)
    requires forall g: nat {:trigger SameFrame(m0, m1, g)} :: g in t ==> SameFrame(m0, m1, g)
    ensures WritesKept(m0, r, m1, r)
  {
    hide LinkOk, HasParent, SettledBut, HasAll, Grants;
    if r != 0 {
      forall f: nat, j: nat {:trigger WiderAt(m0, m1, f, j)} | f in t && j < 512 ensures WiderAt(m0, m1, f, j) {
        assert TableOk(m0, t, limit, f) && SameFrame(m0, m1, f);
        HasAllTrans(EntryAt(m0, f, j).flags, 0, 0);
      }
      NullIsNoTable(m0, t, limit, r);
      RightsFromRoot(m0, m1, t, limit, r, 0, 0, []);
      forall ix {:trigger Writable(m1, r, ix)} | IsPath(ix, 4) && Writable(m0, r, ix) ensures Writable(m1, r, ix) {
        assert Allows(m1, r, ix, 0x002) || !Allows(m1, r, ix, 0x002);
      }
    }
  }

  lemma OutsideKeepsWrites(m0: Memory, t: Tables, limit: nat, r: nat, f: nat, m1: Memory)
    requires TreeOk(m0, t, limit, r) && f >= limit && f < |m0| && |m1| == |m0|
    requires forall g: nat {:trigger m1[g]} :: g < |m0| && g != f ==> m1[g] == m0[g]
    ensures WritesKept(m0, r, m1, r)
  {
    hide LinkOk, HasParent, SettledBut, Writable, Unaliased;
    forall g: nat {:trigger SameFrame(m0, m1, g)} | g in t ensures SameFrame(m0, m1, g) {
      assert r != 0 ==> TableOk(m0, t, limit, g);
    }
    FramesKeepWrites(m0, t, limit, r, m1);
  }

  lemma NullIsNoTable(m: Memory, t: Tables, limit: nat, root: nat)
    requires TablesOk(m, t, limit, root)
    ensures 0 !in t
  {
    assert 0 in t ==> TableOk(m, t, limit, 0);
  }

  /** The page that was mapped has every right that was asked for. */
  lemma SpineGrants(m1: Memory, m2: Memory, m3: Memory, m4: Memory, m5: Memory, t: Tables, root: nat, ix: seq<nat>,
      c1: nat, c2: nat, c3: nat, flags: flags, phys: nat, bits: flags)
    requires IsPath(ix, 4) && root in t && c1 in t && c2 in t && c3 in t
    requires root != c1 && root != c2 && root != c3 && c1 != c2 && c1 != c3 && c2 != c3 && root != 0
    requires IsTable(m1, root) && IsTable(m2, root) && IsTable(m2, c1) && IsTable(m3, c1) && IsTable(m3, c2) && IsTable(m4, c2) && IsTable(m4, c3)
    requires OnlySlot(m1, m2, t, root, ix[0]) && OnlySlot(m2, m3, t, c1, ix[1]) && OnlySlot(m3, m4, t, c2, ix[2]) && OnlySlot(m4, m5, t, c3, ix[3])
    requires var e := EntryAt(m2, root, ix[0]); Present(e) && !Large(e) && e.frame == c1 && e.flags == With(EntryAt(m1, root, ix[0]).flags, UpperFlags(With(flags, PAGE_P_BIT)))
    requires var e := EntryAt(m3, c1, ix[1]); Present(e) && !Large(e) && e.frame == c2 && e.flags == With(EntryAt(m2, c1, ix[1]).flags, UpperFlags(With(flags, PAGE_P_BIT)))
    requires var e := EntryAt(m4, c2, ix[2]); Present(e) && !Large(e) && e.frame == c3 && e.flags == With(EntryAt(m3, c2, ix[2]).flags, UpperFlags(With(flags, PAGE_P_BIT)))
    requires m5 == SetEntry(m4, c3, ix[3], Entry(phys, LeafFlags(With(flags, PAGE_P_BIT)))) && Asked(flags, bits)
    ensures Allows(m5, root, ix, bits)
  {
    hide Present, Large, HasAll, OnlySlot, With, UpperFlags, LeafFlags, Asked, Grants;
    var g := UpperFlags(With(flags, PAGE_P_BIT));
    StaysPresent(m2, m3, t, c1, ix[1], root, ix[0]);
    StaysPresent(m3, m4, t, c2, ix[2], root, ix[0]);
    StaysPresent(m3, m4, t, c2, ix[2], c1, ix[1]);
    StaysPresent(m4, m5, t, c3, ix[3], root, ix[0]);
    StaysPresent(m4, m5, t, c3, ix[3], c1, ix[1]);
    StaysPresent(m4, m5, t, c3, ix[3], c2, ix[2]);
    AskedIsStored(flags, bits);
    OrIsWider(EntryAt(m1, root, ix[0]).flags, g, bits);
    OrIsWider(EntryAt(m2, c1, ix[1]).flags, g, bits);
    OrIsWider(EntryAt(m3, c2, ix[2]).flags, g, bits);
    OrLemma(flags, phys);
    FourGrants(m5, root, ix, c1, c2, c3, bits);
  }

  lemma OrLemma(g: flags, frame: nat)
    ensures Present(Entry(frame, With(g, PAGE_P_BIT)))
    ensures HasBit(With(g, PAGE_P_BIT), PAGE_P_BIT) && LeafFlags(With(g, PAGE_P_BIT)) == With(g, PAGE_P_BIT)
  {
    LeafIsPresent(g);
    LeafIsPresent(With(g, PAGE_P_BIT));
  }

  lemma EmptyStays(m0: Memory, m1: Memory, t: Tables, limit: nat, root: nat, T: nat, i: nat, c: nat)
    requires TablesOk(m0, t, limit, root) && OnlySlot(m0, m1, t, T, i) && T in t && |t[T]| < 3 && Pending(m0, T, i, c) && c in t
    requires EntryAt(m0, T, i).frame == c && c != 0 && IsTable(m1, T) && EntryAt(m1, T, i).frame == c
    requires Present(EntryAt(m1, T, i)) && !Large(EntryAt(m1, T, i))
    ensures IsTable(m0, T) && Harmless(m0, m1, t, T, i)
  {
    hide Present, Large;
    assert BothTables(m0, m1, T) && BothTables(m0, m1, c);
    assert TableOk(m0, t, limit, T);
    assert LinkOk(m0, t, T, i);
    assert c != T by { assert |t[c]| == |t[T]| + 1; }
    if AllAbsent(m0, c) {
      forall k: nat {:trigger EntryAt(m1, c, k)} | k < 512 ensures !Present(EntryAt(m1, c, k)) {
        assert !Present(EntryAt(m0, c, k));
      }
    }
  }

  lemma SettledLess(m0: Memory, m1: Memory, t: Tables, S: set<(nat, nat)>, T: nat, i: nat)
    requires SettledBut(m0, t, S) && OnlySlot(m0, m1, t, T, i) && i < 512 && IsTable(m1, T) && Present(EntryAt(m1, T, i))
    ensures SettledBut(m1, t, S - {(T, i)})
  {
    hide Present;
    forall f: nat, j: nat {:trigger EntryAt(m1, f, j)} |
      f in t && |t[f]| < 3 && IsTable(m1, f) && j < 512 && (f, j) !in S - {(T, i)} && EntryAt(m1, f, j).frame != 0
      ensures Present(EntryAt(m1, f, j))
    {
      assert BothTables(m0, m1, f);
      if (f, j) != (T, i) { assert EntryAt(m1, f, j) == EntryAt(m0, f, j); }
    }
  }

  /** A change of another entry, above: the pending entry and its table are untouched. */
  lemma StaysPending(m0: Memory, m1: Memory, t: Tables, T: nat, i: nat, U: nat, j: nat, c: nat)
    requires OnlySlot(m0, m1, t, T, i) && U in t && c in t && U != T && c != T && Pending(m0, U, j, c)
    ensures IsTable(m0, U) && j < 512 && IsTable(m1, U) && EntryAt(m1, U, j) == EntryAt(m0, U, j) && Pending(m1, U, j, c)
  {
    hide Present, Large;
    assert BothTables(m0, m1, U) && BothTables(m0, m1, c);
    if AllAbsent(m0, c) {
      forall k: nat {:trigger EntryAt(m1, c, k)} | k < 512 ensures !Present(EntryAt(m1, c, k)) {
        assert !Present(EntryAt(m0, c, k));
      }
    }
  }

  lemma StaysPresent(m0: Memory, m1: Memory, t: Tables, T: nat, i: nat, U: nat, j: nat)
    requires OnlySlot(m0, m1, t, T, i) && U in t && U != T && j < 512
    ensures IsTable(m0, U) && IsTable(m1, U) && EntryAt(m1, U, j) == EntryAt(m0, U, j)
  {
    assert BothTables(m0, m1, U);
  }

  lemma SpineIs(mem: Memory, t: Tables, limit: nat, root: nat, ix: seq<nat>, c1: nat, c2: nat, c3: nat)
    requires TablesOk(mem, t, limit, root) && Spine(mem, t, root, ix, c1, c2, c3)
    ensures root in t && c1 in t && c2 in t && c3 in t && |t[root]| == 0 && |t[c1]| == 1 && |t[c2]| == 2 && |t[c3]| == 3
    ensures t[c3] == ix[..3] && c1 != 0 && c2 != 0 && c3 != 0
    ensures root != c1 && root != c2 && root != c3 && c1 != c2 && c1 != c3 && c2 != c3
    ensures IsTable(mem, root) && IsTable(mem, c1) && IsTable(mem, c2) && IsTable(mem, c3)
    ensures EntryAt(mem, root, ix[0]).frame == c1 && EntryAt(mem, c1, ix[1]).frame == c2 && EntryAt(mem, c2, ix[2]).frame == c3
  {
    hide LinkOk, HasParent, Unaliased;
    assert TableOk(mem, t, limit, root) && TableOk(mem, t, limit, c1) && TableOk(mem, t, limit, c2) && TableOk(mem, t, limit, c3);
  }

  /** The last store of map_page. */
  lemma LeafStored(m: Memory, t: Tables, limit: nat, root: nat, ix: seq<nat>, c1: nat, c2: nat, c3: nat, e: Entry, m': Memory)
    requires TablesOk(m, t, limit, root) && Settled(m, t) && IsPath(ix, 4)
    requires root in t && c1 in t && c2 in t && c3 in t && t[c3] == ix[..3] && root != c3 && c1 != c3 && c2 != c3
    requires IsTable(m, root) && IsTable(m, c1) && IsTable(m, c2) && IsTable(m, c3)
    requires var e0 := EntryAt(m, root, ix[0]); Present(e0) && !Large(e0) && e0.frame == c1
    requires var e1 := EntryAt(m, c1, ix[1]); Present(e1) && !Large(e1) && e1.frame == c2
    requires var e2 := EntryAt(m, c2, ix[2]); Present(e2) && !Large(e2) && e2.frame == c3
    requires Present(e) && m' == SetEntry(m, c3, ix[3], e)
    ensures TablesOk(m', t, limit, root) && Settled(m', t) && SameWalksBut(m, m', root, ix) && Walk(m', root, ix) == Page(e)
    ensures OnlySlot(m, m', t, c3, ix[3])
  {
    hide Present, Large, TablesOk, SettledBut, OnlySlot;
    SlotKeepsTables(m, t, limit, root, c3, ix[3], e);
    LeafFromRoot(m, m', t, limit, root, c3, ix[3]);
    Prefixes(ix);
    StaysPresent(m, m', t, c3, ix[3], root, ix[0]);
    StaysPresent(m, m', t, c3, ix[3], c1, ix[1]);
    StaysPresent(m, m', t, c3, ix[3], c2, ix[2]);
    LeafSettled(m, m', t, c3, ix[3]);
    FourSteps(m', root, ix, c1, c2, c3);
  }

  lemma LeafSettled(m: Memory, m': Memory, t: Tables, T: nat, i: nat)
    requires Settled(m, t) && OnlySlot(m, m', t, T, i) && T in t && |t[T]| == 3
    ensures Settled(m', t)
  {
    hide Present;
    forall f: nat, j: nat {:trigger EntryAt(m', f, j)} |
      f in t && |t[f]| < 3 && IsTable(m', f) && j < 512 && EntryAt(m', f, j).frame != 0
      ensures Present(EntryAt(m', f, j))
    {
      assert BothTables(m, m', f);
      assert EntryAt(m', f, j) == EntryAt(m, f, j);
    }
  }

  /** A translation step by step. */
  lemma FourSteps(m: Memory, root: nat, ix: seq<nat>, c1: nat, c2: nat, c3: nat)
    requires IsPath(ix, 4) && IsTable(m, root) && IsTable(m, c1) && IsTable(m, c2) && IsTable(m, c3)
    requires var e0 := EntryAt(m, root, ix[0]); Present(e0) && !Large(e0) && e0.frame == c1
    requires var e1 := EntryAt(m, c1, ix[1]); Present(e1) && !Large(e1) && e1.frame == c2
    requires var e2 := EntryAt(m, c2, ix[2]); Present(e2) && !Large(e2) && e2.frame == c3
    ensures Walk(m, root, ix) == Walk(m, c3, ix[3..])
    ensures Walk(m, root, ix) == var e := EntryAt(m, c3, ix[3]); if Present(e) then Page(e) else Fault
  {
    hide Present, Large, EntryAt;
    assert ix[1..][1..] == ix[2..] && ix[2..][1..] == ix[3..];
    assert Walk(m, root, ix) == Walk(m, c1, ix[1..]);
    assert Walk(m, c1, ix[1..]) == Walk(m, c2, ix[2..]);
    assert Walk(m, c2, ix[2..]) == Walk(m, c3, ix[3..]);
  }

  /** A store to a table keeps other frames. */
  lemma TableStores(m0: Memory, t0: Tables, u0: nat, m1: Memory, t: Tables, m2: Memory, T: nat)
    requires DataKept(m0, t0, u0, m1) && Grown(t0, u0, t) && T in t && |m2| == |m1|
    requires forall f: nat {:trigger m2[f]} :: f < |m1| && f != T ==> m2[f] == m1[f]
    ensures DataKept(m0, t0, u0, m2)
  {
  }

  lemma FirstKept(m0: Memory, u0: nat, m: Memory, f: nat, t: Tables)
    requires f == u0 && f < |m0| && m == m0[f := ZeroTable()] && t == map[f := []]
    ensures DataKept(m0, map[], u0, m) && Grown(map[], u0, t)
  {
  }

  lemma GrownSame(t: Tables, u: nat)
    ensures Grown(t, u, t)
  {
  }

  /** Creating the root changes no translation. */
  lemma StartWalks(m0: Memory, r0: nat, m1: Memory, r1: nat)
    requires if r0 == 0 then r1 != 0 && (forall ix :: IsPath(ix, 4) ==> Walk(m1, r1, ix) == Fault) else r1 == r0 && m1 == m0
    ensures forall ix {:trigger Translate(m1, r1, ix)} :: IsPath(ix, 4) ==> Translate(m1, r1, ix) == Translate(m0, r0, ix)
  {
    hide Walk;
  }

  lemma FirstMissing(p0: set<seq<nat>>, t: Tables, root: nat, ix: seq<nat>)
    requires IsPath(ix, 4) && root in t && t[root] == []
    ensures (p0 == {} && t == map[root := []]) ==> Missing(p0, ix) == 1 + Missing(t.Values, ix) && t.Values + Places(ix) == Places(ix)
    ensures [] in t.Values && (t == map[root := []] ==> ix[..3] !in t.Values)
  {
    if t == map[root := []] {
      assert t.Values == {[]};
      assert |ix[..1]| == 1 && |ix[..2]| == 2 && |ix[..3]| == 3;
    }
  }

  lemma OthersThen(m0: Memory, r0: nat, m1: Memory, m2: Memory, r: nat, but: seq<nat>)
    requires forall ix {:trigger Translate(m1, r, ix)} :: IsPath(ix, 4) ==> Translate(m1, r, ix) == Translate(m0, r0, ix)
    requires r != 0 && SameWalksBut(m1, m2, r, but)
    ensures OtherPages(m0, r0, m2, r, but)
  {
    hide Walk;
    forall ix {:trigger Translate(m2, r, ix)} | IsPath(ix, 4) && ix != but ensures Translate(m2, r, ix) == Translate(m0, r0, ix) {
      assert Translate(m1, r, ix) == Translate(m0, r0, ix);
      assert Walk(m2, r, ix) == Walk(m1, r, ix);
    }
  }

  /** Tables keep their places; new ones lie above u. */
  ghost predicate Grown(t0: Tables, u: nat, t1: Tables) {
    && (forall f: nat {:trigger t0[f]} :: f in t0 ==> f in t1 && t1[f] == t0[f])
    && (forall f: nat {:trigger f in t1} :: f in t1 && f < u ==> f in t0)
  }

  lemma GrownKeeps(t0: Tables, u: nat, t1: Tables, f: nat)
    requires Grown(t0, u, t1) && f in t0
    ensures f in t1 && t1[f] == t0[f]
  {
    assert t0[f] == t0[f];
  }

  lemma GrownTrans(t0: Tables, u0: nat, t1: Tables, u1: nat, t2: Tables)
    requires Grown(t0, u0, t1) && Grown(t1, u1, t2) && u0 <= u1
    ensures Grown(t0, u0, t2)
  {
    forall f: nat {:trigger t0[f]} | f in t0 ensures f in t2 && t2[f] == t0[f] {
      assert t1[f] == t0[f];
    }
  }

  /** A change of one entry that leaves it absent, or no change at all. */
  ghost predicate QuietStep(m0: Memory, m1: Memory, t: Tables, T: nat, i: nat) {
    && OnlySlot(m0, m1, t, T, i) && IsTable(m1, T) && i < 512
    && (m1 == m0 || !Present(EntryAt(m1, T, i)))
  }

  lemma PlacesGrow(places: set<seq<nat>>, ix: seq<nat>, root: nat, t: Tables)
    requires IsPath(ix, 4) && root in t && t[root] == [] && places == t.Values
    ensures [] in places && places + {ix[..1]} + {ix[..2]} + {ix[..3]} == places + Places(ix)
    ensures ix[..2] !in {ix[..1]} && ix[..3] !in {ix[..1], ix[..2]}
  {
    assert |ix[..1]| == 1 && |ix[..2]| == 2 && |ix[..3]| == 3;
  }

  /** The tables on the path of ix. */
  ghost predicate Spine(mem: Memory, t: Tables, root: nat, ix: seq<nat>, c1: nat, c2: nat, c3: nat) {
    && IsPath(ix, 4) && root in t && c1 in t && c2 in t && c3 in t
    && t[root] == [] && t[c1] == ix[..1] && t[c2] == ix[..2] && t[c3] == ix[..3]
    && IsTable(mem, root) && IsTable(mem, c1) && IsTable(mem, c2) && IsTable(mem, c3)
    && EntryAt(mem, root, ix[0]).frame == c1 && EntryAt(mem, c1, ix[1]).frame == c2 && EntryAt(mem, c2, ix[2]).frame == c3
  }

  /** An entry that is not present yet: nothing is mapped below it. */
  ghost predicate Pending(mem: Memory, T: nat, i: nat, c: nat) {
    && IsTable(mem, T) && i < 512 && !Large(EntryAt(mem, T, i))
    && (Present(EntryAt(mem, T, i)) || AllAbsent(mem, c))
  }

  lemma Prefixes(ix: seq<nat>)
    requires IsPath(ix, 4)
    ensures [] + [ix[0]] == ix[..1] && ix[..1] + [ix[1]] == ix[..2] && ix[..2] + [ix[2]] == ix[..3] && ix[..3] + [ix[3]] == ix
  {
  }

  lemma StepValues(t0: Tables, v0: set<seq<nat>>, p: seq<nat>, c: nat, t1: Tables)
    requires v0 == t0.Values && c in t1 && t1[c] == p
    requires if p in v0 then t1 == t0 else c !in t0 && t1 == t0[c := p]
    ensures t1.Values == v0 + {p}
  {
    if p !in v0 {
      forall q | q in v0 ensures q in t1.Values {
        var f :| f in t0 && t0[f] == q;
        assert t1[f] == q;
      }
      assert t1[c] == p;
    }
  }

  /** After a step the entry is pending or present. */
  lemma StepPending(m0: Memory, m1: Memory, t0: Tables, root: nat, T: nat, i: nat, c: nat)
    requires OnlySlot(m0, m1, t0, T, i) && IsTable(m1, T) && i < 512 && c < |m1|
    requires (m1 == m0 && Present(EntryAt(m1, T, i)) && !Large(EntryAt(m1, T, i)))
          || (EntryAt(m1, T, i) == Entry(c, 0) && m1[c] == ZeroTable())
    ensures Pending(m1, T, i, c) && QuietStep(m0, m1, t0, T, i)
  {
    hide OnlySlot, AllAbsent;
    NoFlags();
    if !Present(EntryAt(m1, T, i)) { ZeroIsAbsent(m1, c); }
  }

  lemma NoFlags()
    ensures !HasBit(0, 0x080) && !HasBit(0, PAGE_P_BIT)
  {
  }

  /** A later step leaves an earlier entry alone, and its table empty if it was. */
  lemma EarlierSlot(m0: Memory, m1: Memory, t: Tables, T: nat, i: nat, U: nat, j: nat, c: nat)
    requires QuietStep(m0, m1, t, T, i) && U in t && c in t && U != T && Pending(m0, U, j, c)
    ensures IsTable(m0, U) && j < 512 && IsTable(m1, U) && EntryAt(m1, U, j) == EntryAt(m0, U, j) && Pending(m1, U, j, c) && IsTable(m1, c)
  {
    hide Present, Large;
    assert BothTables(m0, m1, U) && BothTables(m0, m1, c);
    if AllAbsent(m0, c) {
      forall k: nat {:trigger EntryAt(m1, c, k)} | k < 512 ensures !Present(EntryAt(m1, c, k)) {
        assert !Present(EntryAt(m0, c, k));
      }
    }
  }

  lemma KeptTrans(m0: Memory, t0: Tables, u0: nat, m1: Memory, t1: Tables, u1: nat, m2: Memory)
    requires DataKept(m0, t0, u0, m1) && DataKept(m1, t1, u1, m2) && u0 <= u1
    requires Grown(t0, u0, t1)
    ensures DataKept(m0, t0, u0, m2)
  {
  }

  /** What the entry shows about the tree. */
  lemma SlotSays(mem: Memory, t: Tables, limit: nat, root: nat, T: nat, i: nat, S: set<(nat, nat)>)
    requires TablesOk(mem, t, limit, root) && SettledBut(mem, t, S) && T in t && |t[T]| < 3 && i < 512 && IsTable(mem, T) && (T, i) !in S
    ensures var e := EntryAt(mem, T, i);
            if Present(e) then e.frame in t && t[e.frame] == t[T] + [i] && t[T] + [i] in t.Values && !Large(e)
            else e.frame == 0 && t[T] + [i] !in t.Values
  {
    hide Present, Large, HasParent;
    LinkHere(mem, t, limit, root, T, i);
    if !Present(EntryAt(mem, T, i)) {
      NoOneThere(mem, t, limit, root, T, i);
    }
  }

  lemma FreshSettled(mem: Memory, mem': Memory, t: Tables, limit: nat, root: nat, T: nat, i: nat, S: set<(nat, nat)>)
    requires TablesOk(mem, t, limit, root) && SettledBut(mem, t, S) && OnlySlot(mem, mem', t, T, i) && T in t
    requires limit < |mem'| && limit !in t && mem'[limit] == ZeroTable()
    ensures SettledBut(mem', t[limit := t[T] + [i]], S + {(T, i)})
  {
    hide Present, TablesOk;
    ZeroIsAbsent(mem', limit);
    var t' := t[limit := t[T] + [i]];
    forall f: nat, j: nat {:trigger EntryAt(mem', f, j)} |
      f in t' && |t'[f]| < 3 && IsTable(mem', f) && j < 512 && (f, j) !in S + {(T, i)} && EntryAt(mem', f, j).frame != 0
      ensures Present(EntryAt(mem', f, j))
    {
      if f != limit {
        assert BothTables(mem, mem', f);
        assert EntryAt(mem', f, j) == EntryAt(mem, f, j);
      }
    }
  }

  lemma SettledMore(mem: Memory, t: Tables, S: set<(nat, nat)>, x: (nat, nat))
    requires SettledBut(mem, t, S)
    ensures SettledBut(mem, t, S + {x})
  {
    hide Present;
  }

  lemma LimitGrows(mem: Memory, t: Tables, used: nat, pml4: nat, limit: nat)
    requires TreeOk(mem, t, used, pml4) && used <= limit
    ensures TreeOk(mem, t, limit, pml4)
  {
    hide Present, Large, LinkOk, HasParent, Settled;
    if pml4 != 0 {
      forall f: nat {:trigger TableOk(mem, t, limit, f)} | f in t ensures TableOk(mem, t, limit, f) {
        assert TableOk(mem, t, used, f);
      }
    }
  }

  /** A store to a frame that is no table. */
  lemma PageOutside(mem: Memory, t: Tables, limit: nat, pml4: nat, f: nat, mem': Memory)
    requires TreeOk(mem, t, limit, pml4) && pml4 != 0 && f >= limit && f < |mem| && |mem'| == |mem|
    requires forall g: nat {:trigger mem'[g]} :: g < |mem| && g != f ==> mem'[g] == mem[g]
    ensures TreeOk(mem', t, limit, pml4) && SameWalks(mem, mem', pml4)
  {
    hide Walk, Present, Large, EntryAt;
    forall g: nat {:trigger SameFrame(mem, mem', g)} | g in t ensures SameFrame(mem, mem', g) {
      assert TableOk(mem, t, limit, g);
    }
    FramesKeepTables(mem, t, limit, pml4, mem');
  }

  /** If no table changes, neither the tree nor any translation does. */
  lemma FramesKeepTables(mem: Memory, t: Tables, limit: nat, root: nat, mem': Memory)
    requires TablesOk(mem, t, limit, root) && Settled(mem, t)
    requires forall g: nat {:trigger SameFrame(mem, mem', g)} :: g in t ==> SameFrame(mem, mem', g)
    ensures TablesOk(mem', t, limit, root) && Settled(mem', t) && SameWalks(mem, mem', root)
  {
    hide Walk, Present, Large;
    forall f: nat {:trigger TableOk(mem', t, limit, f)} | f in t ensures TableOk(mem', t, limit, f) {
      assert TableOk(mem, t, limit, f) && SameFrame(mem, mem', f);
      forall i: nat {:trigger LinkOk(mem', t, f, i)} | |t[f]| < 3 && i < 512 ensures LinkOk(mem', t, f, i) {
        assert LinkOk(mem, t, f, i);
      }
    }
    forall g: nat {:trigger HasParent(mem', t, g)} | g in t ensures HasParent(mem', t, g) {
      assert HasParent(mem, t, g);
      if t[g] != [] {
        var f: nat :| IsParent(mem, t, f, g);
        assert SameFrame(mem, mem', f) && IsParent(mem', t, f, g);
      }
    }
    forall f: nat, i: nat {:trigger EntryAt(mem', f, i)} | f in t && |t[f]| < 3 && IsTable(mem', f) && i < 512 && EntryAt(mem', f, i).frame != 0
      ensures Present(EntryAt(mem', f, i))
    {
      assert SameFrame(mem, mem', f) && EntryAt(mem, f, i) == EntryAt(mem', f, i);
    }
    RootOf(mem, t, limit, root);
    forall ix {:trigger Walk(mem', root, ix)} | IsPath(ix, 4) ensures Walk(mem', root, ix) == Walk(mem, root, ix) {
      FrameWalk(mem, mem', t, limit, root, root, ix);
    }
  }

  lemma FreshIsNot(mem: Memory, t: Tables, limit: nat, root: nat, T: nat)
    requires TablesOk(mem, t, limit, root) && T in t
    ensures T < limit && T != limit && limit !in t && IsTable(mem, T) && |t[T]| <= 3
  {
    assert TableOk(mem, t, limit, T);
    assert limit in t ==> TableOk(mem, t, limit, limit);
  }

  lemma StillAbsent(mem: Memory, mem': Memory, t: Tables, limit: nat, root: nat, T: nat, i: nat)
    requires TablesOk(mem, t, limit, root) && OnlySlot(mem, mem', t, T, i) && T in t && i < 512 && |t[T]| < 3
    requires IsTable(mem, T) && IsTable(mem', T) && !Present(EntryAt(mem, T, i)) && EntryAt(mem', T, i).flags == 0
    ensures SameWalks(mem, mem', root)
  {
    hide TablesOk, OnlySlot, Walk;
    HarmlessFromRoot(mem, mem', t, limit, root, T, i);
  }

  lemma LinkHere(mem: Memory, t: Tables, limit: nat, root: nat, T: nat, i: nat)
    requires TablesOk(mem, t, limit, root) && T in t && |t[T]| < 3 && i < 512 && IsTable(mem, T)
    ensures var e := EntryAt(mem, T, i); Present(e) ==> e.frame in t && t[e.frame] == t[T] + [i] && !Large(e) && e.frame != 0
  {
    hide Present, Large;
    assert TableOk(mem, t, limit, T);
    assert LinkOk(mem, t, T, i);
  }

  lemma NothingChanged(mem: Memory, t: Tables, limit: nat, root: nat, T: nat, i: nat)
    requires TablesOk(mem, t, limit, root)
    ensures OnlySlot(mem, mem, t, T, i) && SameWalks(mem, mem, root) && DataKept(mem, t, limit, mem)
  {
    hide Walk, Present, Large, LinkOk, HasParent;
    forall f: nat {:trigger BothTables(mem, mem, f)} | f in t ensures BothTables(mem, mem, f) {
      assert TableOk(mem, t, limit, f);
    }
  }
}

/**
  Four-level page tables in physical memory and the long-mode translation through them
  (section 5.3 of AMD64 Architecture Programmer's Manual Volume 2).

  Physical memory is a sequence of 4096-byte frames, each used either as a page table, as
  plain bytes or as the head of a block of free pages. An entry is the frame number in
  PAGE_ADDR_BITS and the other 24 bits: bits 0 to 11 and, above them, bits 52 to 63.
 */
module Paging {
  import opened Arith
  import opened Words

  type flags = bv24

  datatype Entry = Entry(frame: nat, flags: flags)

  datatype Frame =
    | Table(entries: seq<Entry>)
    | Bytes(bytes: seq<int>)
    | Free(size: nat, next: nat)

  type Memory = seq<Frame>

  const PAGE_P_BIT: flags := 0x001
  const PAGE_RW_BIT: flags := 0x002
  const PAGE_G_BIT: flags := 0x100
  const PAGE_F_BIT: flags := 0x200
  const PAGE_SIZE := 4096
  const PAGE_TABLE_SIZE := 512

  predicate Present(e: Entry) { HasBit(e.flags, PAGE_P_BIT) }

  /** Bit 7 turns an upper entry into the mapping of a large page. */
  predicate Large(e: Entry) { HasBit(e.flags, 0x080) }

  predicate HasBit(f: flags, bit: flags) { f & bit != 0 }

  function With(f: flags, g: flags): flags { f | g }

  function Without(f: flags, g: flags): flags { f & !g }

  /** PML4_FLAGS_MASK, PDP_FLAGS_MASK and PD_FLAGS_MASK are the same. */
  function UpperFlags(f: flags): flags { f & 0xfffe3f }

  /** PT_FLAGS_MASK. */
  function LeafFlags(f: flags): flags { f & 0xffffff }

  // ---------- Virtual addresses ----------

  const BIT_12 := 0x1000
  const BIT_21 := 0x20_0000
  const BIT_30 := 0x4000_0000
  const BIT_39 := 0x80_0000_0000
  const BIT_47 := 0x8000_0000_0000
  const BIT_48 := 0x1_0000_0000_0000

  /** BITS(virt, 47, 64) is 0 or 0x1ffff. */
  predicate Canonical(virt: nat) { virt < BIT_47 || WORD - BIT_47 <= virt < WORD }

  predicate PageAligned(a: nat) { a % PAGE_SIZE == 0 }

  /** The four table indices of a virtual address, PML4 first. */
  function Indices(virt: nat): (ix: seq<nat>)
    ensures IsPath(ix, 4)
  {
    [virt / BIT_39 % 512, virt / BIT_30 % 512, virt / BIT_21 % 512, virt / BIT_12 % 512]
  }

  predicate IsPath(ix: seq<nat>, n: nat) { |ix| == n && forall k :: 0 <= k < |ix| ==> ix[k] < 512 }

  function PageOf(ix: seq<nat>): nat
    requires |ix| == 4
  {
    ((ix[0] * 512 + ix[1]) * 512 + ix[2]) * 512 + ix[3]
  }

  lemma SplitBy512(x: nat)
    ensures x / 512 * 512 + x % 512 == x
  {
  }

  /** The indices spell the low 36 bits of the page number. */
  lemma IndicesArePage(virt: nat)
    ensures PageOf(Indices(virt)) == virt / BIT_12 % 0x10_0000_0000
  {
    var x := virt / BIT_12;
    DivDiv(virt, BIT_12, 512);
    DivDiv(virt, BIT_21, 512);
    DivDiv(virt, BIT_30, 512);
    assert virt / BIT_21 == x / 512 && virt / BIT_30 == x / 512 / 512 && virt / BIT_39 == x / 512 / 512 / 512;
    FourDigits(x);
  }

  lemma FourDigits(x: nat)
    ensures ((x / 512 / 512 / 512 % 512 * 512 + x / 512 / 512 % 512) * 512 + x / 512 % 512) * 512 + x % 512 == x % 0x10_0000_0000
  {
    var a, b, c := x / 512, x / 512 / 512, x / 512 / 512 / 512;
    var r := ((c % 512 * 512 + b % 512) * 512 + a % 512) * 512 + x % 512;
    SplitBy512(x); SplitBy512(a); SplitBy512(b); SplitBy512(c);
    assert x == c / 512 * 0x10_0000_0000 + r;
    DivIs(x, c / 512, 0x10_0000_0000, r);
  }

  /** Different canonical pages have different indices. */
  lemma IndicesInjective(v: nat, w: nat)
    requires Canonical(v) && Canonical(w) && PageAligned(v) && PageAligned(w) && Indices(v) == Indices(w)
    ensures v == w
  {
    IndicesArePage(v);
    IndicesArePage(w);
    PageNumber(v);
    PageNumber(w);
  }

  /** Sign extension: a canonical address is determined by its low 48 bits. */
  lemma PageNumber(v: nat)
    requires Canonical(v) && PageAligned(v)
    ensures var n := v / BIT_12 % 0x10_0000_0000;
            v == if n < 0x8_0000_0000 then n * BIT_12 else n * BIT_12 + (WORD - BIT_48)
  {
    var p := v / BIT_12;
    assert v == p * BIT_12;
    if v < BIT_47 {
      DivIs(p, 0, 0x10_0000_0000, p);
    } else {
      DivIs(p, 0xffff, 0x10_0000_0000, p - 0xffff * 0x10_0000_0000);
    }
  }

  // ---------- Translation ----------

  datatype Translation = Fault | LargePage(entry: Entry) | Page(entry: Entry)

  predicate IsTable(mem: Memory, f: nat) {
    f < |mem| && mem[f].Table? && |mem[f].entries| == PAGE_TABLE_SIZE
  }

  function EntryAt(mem: Memory, f: nat, i: nat): Entry
    requires IsTable(mem, f) && i < 512
  {
    mem[f].entries[i]
  }

  function SetEntry(mem: Memory, f: nat, i: nat, e: Entry): (r: Memory)
    requires IsTable(mem, f) && i < 512
    ensures |r| == |mem| && IsTable(r, f)
  {
    mem[f := Table(mem[f].entries[i := e])]
  }

  /** The walk from table f through the indices that are left. */
  function Walk(mem: Memory, f: nat, ix: seq<nat>): Translation
    decreases |ix|
  {
    if |ix| == 0 || !IsTable(mem, f) || ix[0] >= 512 then Fault
    else
      var e := EntryAt(mem, f, ix[0]);
      if !Present(e) then Fault
      else if |ix| == 1 then Page(e)
      else if Large(e) then LargePage(e)
      else Walk(mem, e.frame, ix[1..])
  }

  // ---------- The tables form a tree ----------

  /** Where each table hangs: the indices that lead to it from the root. */
  type Tables = map<nat, seq<nat>>

  /** An entry of an upper table names the table one level down, or nothing. */
  ghost predicate LinkOk(mem: Memory, t: Tables, f: nat, i: nat)
    requires f in t && IsTable(mem, f) && i < 512
  {
    var e := EntryAt(mem, f, i);
    && (e.frame != 0 ==> e.frame in t && t[e.frame] == t[f] + [i])
    && (Present(e) ==> e.frame != 0 && !Large(e))
  }

  ghost predicate TableOk(mem: Memory, t: Tables, limit: nat, f: nat)
    requires f in t
  {
    && 0 < f < limit && IsTable(mem, f) && |t[f]| <= 3 && IsPath(t[f], |t[f]|)
    && (|t[f]| < 3 ==> forall i: nat {:trigger LinkOk(mem, t, f, i)} :: i < 512 ==> LinkOk(mem, t, f, i))
  }

  ghost predicate Unaliased(t: Tables, f: nat, g: nat)
    requires f in t && g in t
  {
    t[f] == t[g] ==> f == g
  }

  ghost predicate IsParent(mem: Memory, t: Tables, f: nat, g: nat)
    requires g in t
  {
    && |t[g]| > 0 && f in t && IsTable(mem, f)
    && var i := t[g][|t[g]| - 1];
    i < 512 && t[g] == t[f] + [i] && EntryAt(mem, f, i).frame == g
  }

  ghost predicate HasParent(mem: Memory, t: Tables, g: nat)
    requires g in t
  {
    t[g] == [] || exists f: nat {:trigger IsParent(mem, t, f, g)} :: IsParent(mem, t, f, g)
  }

  /** All tables lie below limit, no two at the same place of the tree, each in its parent. */
  ghost predicate TablesOk(mem: Memory, t: Tables, limit: nat, root: nat) {
    && root in t && t[root] == []
    && (forall f: nat {:trigger TableOk(mem, t, limit, f)} :: f in t ==> TableOk(mem, t, limit, f))
    && (forall f: nat, g: nat {:trigger Unaliased(t, f, g)} :: f in t && g in t ==> Unaliased(t, f, g))
    && (forall g: nat {:trigger HasParent(mem, t, g)} :: g in t ==> HasParent(mem, t, g))
  }

  /** Every table that hangs from an entry is reached by translations, entries in S apart. */
  ghost predicate SettledBut(mem: Memory, t: Tables, S: set<(nat, nat)>) {
    forall f: nat, i: nat {:trigger EntryAt(mem, f, i)} ::
      f in t && |t[f]| < 3 && IsTable(mem, f) && i < 512 && (f, i) !in S && EntryAt(mem, f, i).frame != 0 ==> Present(EntryAt(mem, f, i))
  }

  ghost predicate Settled(mem: Memory, t: Tables) { SettledBut(mem, t, {}) }

  ghost predicate BothTables(mem: Memory, mem': Memory, f: nat) { IsTable(mem, f) && IsTable(mem', f) }

  /** The tables of t are the same but for entry i of table T. */
  ghost predicate OnlySlot(mem: Memory, mem': Memory, t: Tables, T: nat, i: nat) {
    && (forall f: nat {:trigger BothTables(mem, mem', f)} :: f in t ==> BothTables(mem, mem', f))
    && (forall f: nat, j: nat {:trigger EntryAt(mem', f, j)} ::
          f in t && IsTable(mem, f) && IsTable(mem', f) && j < 512 && !(f == T && j == i) ==> EntryAt(mem', f, j) == EntryAt(mem, f, j))
  }

  ghost predicate AllAbsent(mem: Memory, f: nat) {
    IsTable(mem, f) && forall i: nat {:trigger EntryAt(mem, f, i)} :: i < 512 ==> !Present(EntryAt(mem, f, i))
  }

  /** A change of an upper entry that no translation notices. */
  ghost predicate Harmless(mem: Memory, mem': Memory, t: Tables, T: nat, i: nat)
    requires T in t && IsTable(mem, T) && IsTable(mem', T) && i < 512
  {
    var e, e' := EntryAt(mem, T, i), EntryAt(mem', T, i);
    && |t[T]| < 3
    && (|| (!Present(e) && !Present(e'))
        || (Present(e) && Present(e') && !Large(e') && e'.frame == e.frame)
        || (!Present(e) && Present(e') && !Large(e') && e'.frame in t && AllAbsent(mem', e'.frame)))
  }

  lemma {:induction false} HarmlessWalk(mem: Memory, mem': Memory, t: Tables, limit: nat, root: nat, T: nat, i: nat, f: nat, rest: seq<nat>)
    requires TablesOk(mem, t, limit, root) && OnlySlot(mem, mem', t, T, i) && T in t && i < 512
    requires IsTable(mem, T) && IsTable(mem', T) && Harmless(mem, mem', t, T, i)
    requires f in t && |t[f]| + |rest| == 4 && IsPath(rest, |rest|)
    ensures Walk(mem', f, rest) == Walk(mem, f, rest)
    decreases |rest|
  {
    hide Present, Large;
    assert TableOk(mem, t, limit, f);
    assert BothTables(mem, mem', f);
    var j := rest[0];
    var e := EntryAt(mem, f, j);
    assert |t[f]| < 3 ==> LinkOk(mem, t, f, j);
    if |rest| > 1 {
      if Present(e) {
        HarmlessWalk(mem, mem', t, limit, root, T, i, e.frame, rest[1..]);
      } else if f == T && j == i && Present(EntryAt(mem', T, i)) {
        var c := EntryAt(mem', T, i).frame;
        assert !Present(EntryAt(mem', c, rest[1..][0]));
      }
    }
  }

  /** Writing a leaf entry changes the translation of its page and of no other. */
  lemma {:induction false} LeafWalk(mem: Memory, mem': Memory, t: Tables, limit: nat, root: nat, T: nat, i: nat, f: nat, rest: seq<nat>)
    requires TablesOk(mem, t, limit, root) && OnlySlot(mem, mem', t, T, i) && T in t && i < 512
    requires IsTable(mem, T) && IsTable(mem', T) && |t[T]| == 3
    requires f in t && |t[f]| + |rest| == 4 && IsPath(rest, |rest|)
    ensures t[f] + rest != t[T] + [i] ==> Walk(mem', f, rest) == Walk(mem, f, rest)
    ensures t[f] + rest == t[T] + [i] && Walk(mem, f, rest) != Fault ==>
              Walk(mem', f, rest) == if Present(EntryAt(mem', T, i)) then Page(EntryAt(mem', T, i)) else Fault
    decreases |rest|
  {
    hide Present, Large;
    assert TableOk(mem, t, limit, f);
    assert BothTables(mem, mem', f);
    var j := rest[0];
    var e := EntryAt(mem, f, j);
    assert |t[f]| < 3 ==> LinkOk(mem, t, f, j);
    if |rest| > 1 {
      if Present(e) {
        LeafWalk(mem, mem', t, limit, root, T, i, e.frame, rest[1..]);
        assert t[f] + rest == (t[f] + [j]) + rest[1..];
      }
    } else {
      assert t[f] + rest == t[T] + [i] <==> t[f] == t[T] && j == i by { LastOf(t[f], t[T], j, i, rest); }
      if t[f] == t[T] { assert Unaliased(t, f, T); }
    }
  }

  lemma LastOf(p: seq<nat>, q: seq<nat>, j: nat, i: nat, rest: seq<nat>)
    requires |rest| == 1 && rest[0] == j
    ensures p + rest == q + [i] <==> p == q && j == i
  {
    if p + rest == q + [i] {
      assert |p| == |q|;
      assert p == (p + rest)[..|p|] == (q + [i])[..|q|] == q;
      assert (p + rest)[|p|] == j && (q + [i])[|q|] == i;
    }
  }

  ghost predicate SameFrame(mem: Memory, mem': Memory, g: nat) {
    g < |mem| && g < |mem'| && mem'[g] == mem[g]
  }

  /** Memory outside the tables does not matter. */
  lemma {:induction false} FrameWalk(mem: Memory, mem': Memory, t: Tables, limit: nat, root: nat, f: nat, rest: seq<nat>)
    requires TablesOk(mem, t, limit, root) && f in t && |t[f]| + |rest| == 4 && IsPath(rest, |rest|)
    requires forall g: nat {:trigger SameFrame(mem, mem', g)} :: g in t ==> SameFrame(mem, mem', g)
    ensures Walk(mem', f, rest) == Walk(mem, f, rest)
    decreases |rest|
  {
    hide Present, Large;
    assert TableOk(mem, t, limit, f);
    assert SameFrame(mem, mem', f);
    var e := EntryAt(mem, f, rest[0]);
    assert |t[f]| < 3 ==> LinkOk(mem, t, f, rest[0]);
    if |rest| > 1 && Present(e) {
      FrameWalk(mem, mem', t, limit, root, e.frame, rest[1..]);
    }
  }

  // ---------- Changes seen from the root ----------

  ghost predicate SameWalks(mem: Memory, mem': Memory, root: nat) {
    forall ix {:trigger Walk(mem', root, ix)} :: IsPath(ix, 4) ==> Walk(mem', root, ix) == Walk(mem, root, ix)
  }

  ghost predicate SameWalksBut(mem: Memory, mem': Memory, root: nat, but: seq<nat>) {
    forall ix {:trigger Walk(mem', root, ix)} :: IsPath(ix, 4) && ix != but ==> Walk(mem', root, ix) == Walk(mem, root, ix)
  }

  /** The table reached at the place p of the tree, if the upper entries on the way are present. */
  ghost predicate Reaches(mem: Memory, f: nat, p: seq<nat>, g: nat)
    decreases |p|
  {
    if p == [] then f == g
    else
      && IsTable(mem, f) && p[0] < 512
      && var e := EntryAt(mem, f, p[0]);
      Present(e) && !Large(e) && Reaches(mem, e.frame, p[1..], g)
  }

  /** A walk goes through the tables on its way. */
  lemma {:induction false} WalkThrough(mem: Memory, f: nat, p: seq<nat>, g: nat, rest: seq<nat>)
    requires Reaches(mem, f, p, g) && |rest| > 0
    ensures Walk(mem, f, p + rest) == Walk(mem, g, rest)
    decreases |p|
  {
    hide Present, Large;
    if p == [] {
      assert p + rest == rest;
    } else {
      WalkThrough(mem, EntryAt(mem, f, p[0]).frame, p[1..], g, rest);
      assert (p + rest)[1..] == p[1..] + rest;
    }
  }

  lemma {:induction false} ReachesTable(mem: Memory, t: Tables, limit: nat, root: nat, f: nat, p: seq<nat>, g: nat)
    requires TablesOk(mem, t, limit, root) && f in t && |t[f]| + |p| <= 3 && Reaches(mem, f, p, g)
    ensures g in t && t[g] == t[f] + p
    decreases |p|
  {
    hide Present, Large;
    assert TableOk(mem, t, limit, f);
    if p == [] {
      assert t[f] + p == t[f];
    } else {
      assert LinkOk(mem, t, f, p[0]);
      ReachesTable(mem, t, limit, root, EntryAt(mem, f, p[0]).frame, p[1..], g);
      assert t[f] + p == (t[f] + [p[0]]) + p[1..];
    }
  }

  // ---------- Keeping the tree ----------

  /** Writing an entry without moving the table it names. */
  lemma SlotKeepsTables(mem: Memory, t: Tables, limit: nat, root: nat, T: nat, i: nat, e': Entry)
    requires TablesOk(mem, t, limit, root) && T in t && i < 512 && IsTable(mem, T)
    requires |t[T]| < 3 ==> e'.frame == EntryAt(mem, T, i).frame && (Present(e') ==> e'.frame != 0 && !Large(e'))
    ensures var mem' := SetEntry(mem, T, i, e');
            TablesOk(mem', t, limit, root) && OnlySlot(mem, mem', t, T, i) && EntryAt(mem', T, i) == e'
  {
    hide Present, Large;
    var mem' := SetEntry(mem, T, i, e');
    forall f: nat {:trigger TableOk(mem', t, limit, f)} | f in t
      ensures TableOk(mem', t, limit, f)
    {
      assert TableOk(mem, t, limit, f);
      forall j: nat {:trigger LinkOk(mem', t, f, j)} | |t[f]| < 3 && j < 512 ensures LinkOk(mem', t, f, j) {
        assert LinkOk(mem, t, f, j);
      }
    }
    forall g: nat {:trigger HasParent(mem', t, g)} | g in t
      ensures HasParent(mem', t, g)
    {
      assert HasParent(mem, t, g);
      if t[g] != [] {
        var f: nat :| IsParent(mem, t, f, g);
        assert TableOk(mem, t, limit, f) && TableOk(mem, t, limit, g);
        assert IsParent(mem', t, f, g);
      }
    }
    forall f: nat {:trigger SameFrame(mem, mem, f)} | f in t ensures SameFrame(mem, mem, f) {
      assert TableOk(mem, t, limit, f);
    }
    SetIsOnlySlot(mem, mem, t, limit, root, T, i, e');
  }

  /** A store to one entry, with frames outside the tables changed before. */
  lemma SetIsOnlySlot(mem: Memory, mem0: Memory, t: Tables, limit: nat, root: nat, T: nat, i: nat, e': Entry)
    requires TablesOk(mem, t, limit, root) && T in t && i < 512 && IsTable(mem0, T)
    requires forall f: nat {:trigger SameFrame(mem, mem0, f)} :: f in t ==> SameFrame(mem, mem0, f)
    ensures OnlySlot(mem, SetEntry(mem0, T, i, e'), t, T, i)
  {
    hide Present, Large, LinkOk, HasParent, Unaliased;
    var mem' := SetEntry(mem0, T, i, e');
    forall f: nat {:trigger BothTables(mem, mem', f)} | f in t ensures BothTables(mem, mem', f) {
      assert TableOk(mem, t, limit, f) && SameFrame(mem, mem0, f);
    }
    forall f: nat, j: nat {:trigger EntryAt(mem', f, j)} | f in t && IsTable(mem, f) && IsTable(mem', f) && j < 512 && !(f == T && j == i)
      ensures EntryAt(mem', f, j) == EntryAt(mem, f, j)
    {
      assert SameFrame(mem, mem0, f);
    }
  }

  const EMPTY := Entry(0, 0)

  function ZeroTable(): (r: Frame)
    ensures r.Table? && |r.entries| == 512
  {
    Table(seq(512, _ => EMPTY))
  }

  lemma ZeroIsAbsent(mem: Memory, f: nat)
    requires f < |mem| && mem[f] == ZeroTable()
    ensures AllAbsent(mem, f)
    ensures forall i: nat {:trigger EntryAt(mem, f, i)} :: i < 512 ==> EntryAt(mem, f, i) == EMPTY
  {
  }

  /** A fresh zero page hung into an empty upper entry, not present yet. */
  lemma AddTable(mem: Memory, t: Tables, limit: nat, root: nat, T: nat, i: nat)
    requires TablesOk(mem, t, limit, root) && T in t && i < 512 && IsTable(mem, T) && |t[T]| < 3
    requires EntryAt(mem, T, i).frame == 0 && 0 < limit < |mem|
    ensures var mem' := SetEntry(mem[limit := ZeroTable()], T, i, Entry(limit, 0));
            var t' := t[limit := t[T] + [i]];
            && limit !in t && TablesOk(mem', t', limit + 1, root) && OnlySlot(mem, mem', t, T, i)
            && EntryAt(mem', T, i) == Entry(limit, 0) && mem'[limit] == ZeroTable()
  {
    hide Large;
    var mem0 := mem[limit := ZeroTable()];
    assert limit in t ==> TableOk(mem, t, limit, limit);
    var mem', t' := SetEntry(mem0, T, i, Entry(limit, 0)), t[limit := t[T] + [i]];
    assert TableOk(mem, t, limit, T);
    forall f: nat {:trigger TableOk(mem', t', limit + 1, f)} | f in t'
      ensures TableOk(mem', t', limit + 1, f)
    {
      if f in t {
        assert TableOk(mem, t, limit, f);
        forall j: nat {:trigger LinkOk(mem', t', f, j)} | |t[f]| < 3 && j < 512 ensures LinkOk(mem', t', f, j) {
          assert LinkOk(mem, t, f, j);
        }
      }
    }
    NoOneThere(mem, t, limit, root, T, i);
    forall f: nat, g: nat {:trigger Unaliased(t', f, g)} | f in t' && g in t'
      ensures Unaliased(t', f, g)
    {
      assert f in t && g in t ==> Unaliased(t, f, g);
    }
    forall g: nat {:trigger HasParent(mem', t', g)} | g in t'
      ensures HasParent(mem', t', g)
    {
      if g == limit {
        assert IsParent(mem', t', T, g);
      } else if t[g] != [] {
        assert HasParent(mem, t, g);
        var f: nat :| IsParent(mem, t, f, g);
        assert TableOk(mem, t, limit, f) && TableOk(mem, t, limit, g);
        assert IsParent(mem', t', f, g);
      }
    }
    forall f: nat {:trigger SameFrame(mem, mem0, f)} | f in t ensures SameFrame(mem, mem0, f) {
      assert TableOk(mem, t, limit, f);
    }
    SetIsOnlySlot(mem, mem0, t, limit, root, T, i, Entry(limit, 0));
  }

  /** An empty entry: nothing hangs at its place of the tree. */
  lemma NoOneThere(mem: Memory, t: Tables, limit: nat, root: nat, T: nat, i: nat)
    requires TablesOk(mem, t, limit, root) && T in t && i < 512 && IsTable(mem, T) && EntryAt(mem, T, i).frame == 0
    ensures forall g: nat {:trigger t[g]} :: g in t ==> t[g] != t[T] + [i]
  {
    hide Present, Large;
    forall g: nat {:trigger t[g]} | g in t ensures t[g] != t[T] + [i] {
      assert HasParent(mem, t, g) && TableOk(mem, t, limit, g);
      if t[g] != [] {
        var f: nat :| IsParent(mem, t, f, g);
        var j := t[g][|t[g]| - 1];
        LastOf(t[f], t[T], j, i, [j]);
        assert Unaliased(t, f, T);
      }
    }
  }

  /** The first table. */
  lemma FirstTable(mem: Memory, f: nat)
    requires 0 < f < |mem| && mem[f] == ZeroTable()
    ensures TablesOk(mem, map[f := []], f + 1, f) && Settled(mem, map[f := []])
    ensures forall ix :: IsPath(ix, 4) ==> Walk(mem, f, ix) == Fault
  {
    hide Large;
    var t: Tables := map[f := []];
    assert TableOk(mem, t, f + 1, f);
  }

  lemma SameWalksTrans(m0: Memory, m1: Memory, m2: Memory, root: nat)
    requires SameWalks(m0, m1, root) && SameWalks(m1, m2, root)
    ensures SameWalks(m0, m2, root)
  {
    hide Walk;
    forall ix {:trigger Walk(m2, root, ix)} | IsPath(ix, 4) ensures Walk(m2, root, ix) == Walk(m0, root, ix) {
      assert Walk(m1, root, ix) == Walk(m0, root, ix);
    }
  }

  lemma SameWalksThen(m0: Memory, m1: Memory, m2: Memory, root: nat, but: seq<nat>)
    requires SameWalks(m0, m1, root) && SameWalksBut(m1, m2, root, but)
    ensures SameWalksBut(m0, m2, root, but)
  {
    hide Walk;
    forall ix {:trigger Walk(m2, root, ix)} | IsPath(ix, 4) && ix != but ensures Walk(m2, root, ix) == Walk(m0, root, ix) {
      assert Walk(m1, root, ix) == Walk(m0, root, ix);
    }
  }

  lemma HarmlessFromRoot(mem: Memory, mem': Memory, t: Tables, limit: nat, root: nat, T: nat, i: nat)
    requires TablesOk(mem, t, limit, root) && OnlySlot(mem, mem', t, T, i) && T in t && i < 512
    requires IsTable(mem, T) && IsTable(mem', T) && Harmless(mem, mem', t, T, i)
    ensures SameWalks(mem, mem', root)
  {
    hide Walk, Harmless, OnlySlot, TablesOk;
    assert root in t && t[root] == [] by { RootOf(mem, t, limit, root); }
    forall ix {:trigger Walk(mem', root, ix)} | IsPath(ix, 4) ensures Walk(mem', root, ix) == Walk(mem, root, ix) {
      HarmlessWalk(mem, mem', t, limit, root, T, i, root, ix);
    }
  }

  lemma RootOf(mem: Memory, t: Tables, limit: nat, root: nat)
    requires TablesOk(mem, t, limit, root)
    ensures root in t && t[root] == [] && IsTable(mem, root) && 0 < root < limit
  {
    assert TableOk(mem, t, limit, root);
  }

  lemma LeafFromRoot(mem: Memory, mem': Memory, t: Tables, limit: nat, root: nat, T: nat, i: nat)
    requires TablesOk(mem, t, limit, root) && OnlySlot(mem, mem', t, T, i) && T in t && i < 512
    requires IsTable(mem, T) && IsTable(mem', T) && |t[T]| == 3
    ensures SameWalksBut(mem, mem', root, t[T] + [i])
  {
    hide Walk, OnlySlot, TablesOk;
    RootOf(mem, t, limit, root);
    forall ix {:trigger Walk(mem', root, ix)} | IsPath(ix, 4) && ix != t[T] + [i] ensures Walk(mem', root, ix) == Walk(mem, root, ix) {
      assert [] + ix == ix;
      LeafWalk(mem, mem', t, limit, root, T, i, root, ix);
    }
  }

  // ---------- Rights ----------

  /** All entries on the way of a page have these bits: the processor grants a right only if every level does. */
  predicate Grants(mem: Memory, f: nat, ix: seq<nat>, bits: flags)
    decreases |ix|
  {
    && |ix| > 0 && IsTable(mem, f) && ix[0] < 512
    && var e := EntryAt(mem, f, ix[0]);
    && Present(e) && HasAll(e.flags, bits)
    && (|ix| == 1 || (!Large(e) && Grants(mem, e.frame, ix[1..], bits)))
  }

  predicate HasAll(f: flags, bits: flags) { f & bits == bits }

  /** The same through a root that may be missing. */
  predicate Allows(mem: Memory, root: nat, ix: seq<nat>, bits: flags) { root != 0 && Grants(mem, root, ix, bits) }

  /** Long mode lets a page be written only if the R/W bit is set at all four levels. */
  predicate Writable(mem: Memory, root: nat, ix: seq<nat>) { Allows(mem, root, ix, 0x002) }

  /** The bits that map_page is asked for and that the masks of the upper tables let through, with the present bit. */
  predicate Asked(f: flags, bits: flags) { HasAll((f | 0x001) & 0xfffe3f, bits) }

  /** No page but one loses a right. */
  ghost predicate RightsKept(m0: Memory, r0: nat, m1: Memory, r1: nat, but: seq<nat>) {
    forall ix, bits: flags {:trigger Allows(m1, r1, ix, bits)} :: IsPath(ix, 4) && ix != but && Allows(m0, r0, ix, bits) ==> Allows(m1, r1, ix, bits)
  }

  /** No page can be written less than before. */
  ghost predicate WritesKept(m0: Memory, r0: nat, m1: Memory, r1: nat) {
    forall ix {:trigger Writable(m1, r1, ix)} :: IsPath(ix, 4) && Writable(m0, r0, ix) ==> Writable(m1, r1, ix)
  }

  predicate WiderEntry(e: Entry, e': Entry) {
    Present(e) ==> Present(e') && e'.frame == e.frame && HasAll(e'.flags, e.flags) && (!Large(e) ==> !Large(e'))
  }

  ghost predicate WiderAt(m0: Memory, m1: Memory, f: nat, j: nat) {
    IsTable(m0, f) && IsTable(m1, f) && j < 512 && WiderEntry(EntryAt(m0, f, j), EntryAt(m1, f, j))
  }

  /** The entries of the tables have no fewer flags, entry i of T apart. */
  ghost predicate WiderBut(m0: Memory, m1: Memory, t: Tables, T: nat, i: nat) {
    forall f: nat, j: nat {:trigger WiderAt(m0, m1, f, j)} :: f in t && j < 512 && !(f == T && j == i) ==> WiderAt(m0, m1, f, j)
  }

  lemma HasAllTrans(f: flags, g: flags, h: flags)
    ensures HasAll(f, f)
    ensures HasAll(f, g) && HasAll(g, h) ==> HasAll(f, h)
  {
  }

  /** Setting more flags takes no right away. */
  lemma OrIsWider(f: flags, g: flags, bits: flags)
    ensures HasAll(With(f, g), f)
    ensures HasAll(g, bits) ==> HasAll(With(f, g), bits)
  {
  }

  /** The masks of the upper tables hold back the dirty, the page-size and the global bit, and nothing else. */
  lemma UpperFlagsAre(g: flags)
    ensures UpperFlags(g) & 0x1c0 == 0 && UpperFlags(g) | (g & 0x1c0) == g
  {
  }

  /** What is asked for is stored at every level. */
  lemma AskedIsStored(g: flags, bits: flags)
    requires Asked(g, bits)
    ensures HasAll(UpperFlags(With(g, PAGE_P_BIT)), bits) && HasAll(LeafFlags(With(g, PAGE_P_BIT)), bits)
  {
  }

  lemma WriteIsAsked(g: flags)
    requires HasBit(g, PAGE_RW_BIT)
    ensures Asked(g, 0x002)
  {
  }

  lemma {:induction false} GrantsWider(m0: Memory, m1: Memory, t: Tables, limit: nat, root: nat, T: nat, i: nat, f: nat, rest: seq<nat>, bits: flags)
    requires TablesOk(m0, t, limit, root) && WiderBut(m0, m1, t, T, i)
    requires f in t && |t[f]| + |rest| == 4 && IsPath(rest, |rest|) && (T in t ==> t[f] + rest != t[T] + [i])
    requires (T in t ==> |t[T]| == 3) && Grants(m0, f, rest, bits)
    ensures Grants(m1, f, rest, bits)
    decreases |rest|
  {
    hide Present, Large, HasAll, HasParent;
    assert TableOk(m0, t, limit, f);
    var j := rest[0];
    var e := EntryAt(m0, f, j);
    assert WiderAt(m0, m1, f, j);
    HasAllTrans(EntryAt(m1, f, j).flags, e.flags, bits);
    if |rest| > 1 {
      assert LinkOk(m0, t, f, j);
      assert t[f] + rest == (t[f] + [j]) + rest[1..];
      GrantsWider(m0, m1, t, limit, root, T, i, e.frame, rest[1..], bits);
    }
  }

  lemma RightsFromRoot(m0: Memory, m1: Memory, t: Tables, limit: nat, root: nat, T: nat, i: nat, but: seq<nat>)
    requires TablesOk(m0, t, limit, root) && WiderBut(m0, m1, t, T, i) && (T in t ==> |t[T]| == 3 && but == t[T] + [i])
    ensures RightsKept(m0, root, m1, root, but)
  {
    hide Grants, WiderBut, TablesOk;
    RootOf(m0, t, limit, root);
    forall ix, bits: flags {:trigger Allows(m1, root, ix, bits)} | IsPath(ix, 4) && ix != but && Allows(m0, root, ix, bits) ensures Allows(m1, root, ix, bits) {
      assert [] + ix == ix;
      GrantsWider(m0, m1, t, limit, root, T, i, root, ix, bits);
    }
  }

  lemma WiderTrans(m0: Memory, m1: Memory, m2: Memory, t0: Tables, t1: Tables, T: nat, i: nat)
    requires WiderBut(m0, m1, t0, T, i) && WiderBut(m1, m2, t1, T, i) && forall f :: f in t0 ==> f in t1
    ensures WiderBut(m0, m2, t0, T, i)
  {
    hide Present, Large, HasAll;
    forall f: nat, j: nat {:trigger WiderAt(m0, m2, f, j)} | f in t0 && j < 512 && !(f == T && j == i) ensures WiderAt(m0, m2, f, j) {
      assert WiderAt(m0, m1, f, j) && WiderAt(m1, m2, f, j);
      HasAllTrans(EntryAt(m2, f, j).flags, EntryAt(m1, f, j).flags, EntryAt(m0, f, j).flags);
    }
  }

  lemma WiderLess(m0: Memory, m1: Memory, t: Tables, T: nat, i: nat)
    requires WiderBut(m0, m1, t, 0, 0) && 0 !in t
    ensures WiderBut(m0, m1, t, T, i)
  {
    hide WiderAt;
  }

  /** A change of one entry. */
  lemma SlotIsWider(m0: Memory, m1: Memory, t: Tables, T: nat, i: nat)
    requires OnlySlot(m0, m1, t, T, i)
    ensures WiderBut(m0, m1, t, T, i)
    ensures T in t && i < 512 && IsTable(m0, T) && IsTable(m1, T) && WiderEntry(EntryAt(m0, T, i), EntryAt(m1, T, i)) ==> WiderBut(m0, m1, t, 0, 0)
  {
    hide Present, Large, HasAll;
    forall f: nat, j: nat {:trigger WiderAt(m0, m1, f, j)} | f in t && j < 512 && !(f == T && j == i) ensures WiderAt(m0, m1, f, j) {
      assert BothTables(m0, m1, f);
      assert EntryAt(m1, f, j) == EntryAt(m0, f, j);
      HasAllTrans(EntryAt(m0, f, j).flags, 0, 0);
    }
  }

  /** The rights of a page, level by level. */
  lemma FourGrants(m: Memory, root: nat, ix: seq<nat>, c1: nat, c2: nat, c3: nat, bits: flags)
    requires IsPath(ix, 4) && IsTable(m, root) && IsTable(m, c1) && IsTable(m, c2) && IsTable(m, c3)
    requires var e0 := EntryAt(m, root, ix[0]); Present(e0) && !Large(e0) && e0.frame == c1 && HasAll(e0.flags, bits)
    requires var e1 := EntryAt(m, c1, ix[1]); Present(e1) && !Large(e1) && e1.frame == c2 && HasAll(e1.flags, bits)
    requires var e2 := EntryAt(m, c2, ix[2]); Present(e2) && !Large(e2) && e2.frame == c3 && HasAll(e2.flags, bits)
    requires var e3 := EntryAt(m, c3, ix[3]); Present(e3) && HasAll(e3.flags, bits)
    ensures Grants(m, root, ix, bits)
  {
    hide Present, Large, HasAll, EntryAt;
    assert ix[1..][1..] == ix[2..] && ix[2..][1..] == ix[3..];
    assert Grants(m, c3, ix[3..], bits);
    assert Grants(m, c2, ix[2..], bits);
    assert Grants(m, c1, ix[1..], bits);
  }

  // ---------- Flag arithmetic ----------

  lemma OrKeepsPresent(f: flags, g: flags)
    ensures HasBit(With(f, UpperFlags(With(g, PAGE_P_BIT))), PAGE_P_BIT)
    ensures !HasBit(f, 0x080) ==> !HasBit(With(f, UpperFlags(g)), 0x080)
    ensures HasBit(f, PAGE_P_BIT) ==> HasBit(With(f, UpperFlags(g)), PAGE_P_BIT)
    ensures HasBit(g, PAGE_P_BIT) ==> HasBit(With(f, UpperFlags(g)), PAGE_P_BIT)
    ensures With(g, PAGE_P_BIT) & 0x080 == g & 0x080
  {
  }

  lemma LeafIsPresent(g: flags)
    ensures HasBit(LeafFlags(With(g, PAGE_P_BIT)), PAGE_P_BIT)
    ensures LeafFlags(g) == g
  {
  }
}

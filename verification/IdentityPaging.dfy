/**
  setup_identity_paging: it maps all used memory to itself while its own tables extend used
  memory.
 */
module IdentityPaging {
  import opened Arith
  import opened Paging
  import opened LoaderPaging

  const IDENTITY: flags := 0x103 // PAGE_P_BIT | PAGE_RW_BIT | PAGE_G_BIT

  /** The places of all tables that translate the first limit pages. */
  ghost function Required(limit: nat): set<seq<nat>> {
    set i: nat, k: nat | 0 <= i < limit && 0 <= k < 4 :: Indices(i * PAGE_SIZE)[..k]
  }

  /** Tables still to be made for the first limit pages. */
  ghost function Lacking(limit: nat, t: Tables): nat { |Required(limit) - t.Values| }

  /** The first n pages are mapped to themselves. */
  ghost predicate Identity(mem: Memory, pml4: nat, n: nat) {
    forall j: nat {:trigger Indices(j * PAGE_SIZE)} :: j < n ==> Translate(mem, pml4, Indices(j * PAGE_SIZE)) == Page(Entry(j, IDENTITY))
  }

  /** And they can be written. */
  ghost predicate IdentityWritable(mem: Memory, pml4: nat, n: nat) {
    forall j: nat {:trigger Indices(j * PAGE_SIZE)} :: j < n ==> Writable(mem, pml4, Indices(j * PAGE_SIZE))
  }

  /** Addresses other than those of the first n pages are translated as before. */
  ghost predicate BeyondKept(m0: Memory, r0: nat, m1: Memory, r1: nat, n: nat) {
    forall ix {:trigger Translate(m1, r1, ix)} :: IsPath(ix, 4) && (forall j: nat :: j < n ==> ix != Indices(j * PAGE_SIZE)) ==>
      Translate(m1, r1, ix) == Translate(m0, r0, ix)
  }

  /**
    The loop ends: each new table fills one of the finitely many places that the pages below
    limit need, so used memory stays below limit.
   */
  method SetupIdentityPaging(l: Loader, ghost limit: nat)
    requires l.Valid() && l.used + Lacking(limit, l.t) <= limit <= |l.mem|
    modifies l
    ensures l.Valid() && old(l.used) <= l.used <= limit && |l.mem| == old(|l.mem|)
    ensures Identity(l.mem, l.pml4, l.used)
    ensures BeyondKept(old(l.mem), old(l.pml4), l.mem, l.pml4, l.used)
    ensures DataKept(old(l.mem), old(l.t), old(l.used), l.mem) && Grown(old(l.t), old(l.used), l.t)
    ensures old(l.pml4) != 0 ==> l.pml4 == old(l.pml4)
    ensures IdentityWritable(l.mem, l.pml4, l.used) && WritesKept(old(l.mem), old(l.pml4), l.mem, l.pml4)
  {
    hide Writable, WritesKept, IdentityWritable, RightsKept, HasBit, Asked, Indices, Translate, TreeOk, Required, Grown, DataKept, Lacking,
      Identity, BeyondKept, OtherPages, Missing, Places, With;
    ghost var m0, t0, u0, r0 := l.mem, l.t, l.used, l.pml4;
    Begin(m0, r0, t0, u0);
    var i := 0;
    while i < l.used
      invariant l.Valid() && i <= l.used && l.used + Lacking(limit, l.t) <= limit <= |l.mem| == |m0| && u0 <= l.used
      invariant Identity(l.mem, l.pml4, i) && BeyondKept(m0, r0, l.mem, l.pml4, i)
      invariant DataKept(m0, t0, u0, l.mem) && Grown(t0, u0, l.t) && (r0 != 0 ==> l.pml4 == r0)
      invariant IdentityWritable(l.mem, l.pml4, i) && WritesKept(m0, r0, l.mem, l.pml4)
      decreases limit - i
    {
      ghost var m1, t1, u1, r1 := l.mem, l.t, l.used, l.pml4;
      LowPage(i);
      LackingStep(limit, t1, i);
      ghost var _ := l.MapPage(i * PAGE_SIZE, i, With(PAGE_RW_BIT, PAGE_G_BIT));
      LackingIs(limit, t1, i, l.t);
      FlagsAre();
      IdentityStep(m0, r0, m1, r1, l.mem, l.pml4, i);
      WritableStep(m1, r1, l.mem, l.pml4, i);
      WritesTrans(m0, r0, m1, r1, l.mem, l.pml4);
      KeptTrans(m0, t0, u0, m1, t1, u1, l.mem);
      GrownTrans(t0, u0, t1, u1, l.t);
      i := i + 1;
    }
  }

  lemma FlagsAre()
    ensures With(With(PAGE_RW_BIT, PAGE_G_BIT), PAGE_P_BIT) == IDENTITY && HasBit(With(PAGE_RW_BIT, PAGE_G_BIT), PAGE_RW_BIT)
  {
  }

  lemma Begin(m: Memory, r: nat, t: Tables, u: nat)
    ensures Identity(m, r, 0) && BeyondKept(m, r, m, r, 0) && DataKept(m, t, u, m) && Grown(t, u, t)
    ensures IdentityWritable(m, r, 0) && WritesKept(m, r, m, r)
  {
    hide Translate, Indices, Writable;
  }

  lemma WritableStep(m1: Memory, r1: nat, m2: Memory, r2: nat, i: nat)
    requires IdentityWritable(m1, r1, i) && WritesKept(m1, r1, m2, r2) && Writable(m2, r2, Indices(i * PAGE_SIZE))
    ensures IdentityWritable(m2, r2, i + 1)
  {
    hide Writable, Indices;
    forall j: nat {:trigger Indices(j * PAGE_SIZE)} | j < i + 1 ensures Writable(m2, r2, Indices(j * PAGE_SIZE)) {
      if j < i { assert Writable(m1, r1, Indices(j * PAGE_SIZE)); }
    }
  }

  lemma LowPage(i: nat)
    requires i < FRAMES_BELOW_4G
    ensures Canonical(i * PAGE_SIZE) && PageAligned(i * PAGE_SIZE)
  {
  }

  lemma IdentityStep(m0: Memory, r0: nat, m1: Memory, r1: nat, m2: Memory, r2: nat, i: nat)
    requires i < FRAMES_BELOW_4G && Identity(m1, r1, i) && BeyondKept(m0, r0, m1, r1, i)
    requires OtherPages(m1, r1, m2, r2, Indices(i * PAGE_SIZE))
    requires Translate(m2, r2, Indices(i * PAGE_SIZE)) == Page(Entry(i, IDENTITY))
    ensures Identity(m2, r2, i + 1) && BeyondKept(m0, r0, m2, r2, i + 1)
  {
    hide Translate, Indices;
    forall j: nat {:trigger Indices(j * PAGE_SIZE)} | j < i + 1
      ensures Translate(m2, r2, Indices(j * PAGE_SIZE)) == Page(Entry(j, IDENTITY))
    {
      if j < i {
        LowPage(i);
        LowPage(j);
        if Indices(j * PAGE_SIZE) == Indices(i * PAGE_SIZE) { IndicesInjective(j * PAGE_SIZE, i * PAGE_SIZE); }
        assert Translate(m1, r1, Indices(j * PAGE_SIZE)) == Page(Entry(j, IDENTITY));
      }
    }
    forall ix {:trigger Translate(m2, r2, ix)} | IsPath(ix, 4) && (forall j: nat :: j < i + 1 ==> ix != Indices(j * PAGE_SIZE))
      ensures Translate(m2, r2, ix) == Translate(m0, r0, ix)
    {
      assert ix != Indices(i * PAGE_SIZE);
      assert Translate(m1, r1, ix) == Translate(m0, r0, ix);
    }
  }

  // ---------- Counting tables ----------

  lemma RemoveOne<T>(S: set<T>, x: T)
    ensures |S - {x}| == |S| - (if x in S then 1 else 0)
  {
    if x !in S { assert S - {x} == S; }
  }

  lemma RemoveTwo<T>(S: set<T>, a: T, b: T)
    requires a != b
    ensures |S| == (if a in S then 1 else 0) + (if b in S then 1 else 0) + |S - {a, b}|
  {
    RemoveOne(S, a);
    RemoveOne(S - {a}, b);
    assert S - {a} - {b} == S - {a, b};
  }

  lemma RemoveFour<T>(S: set<T>, a: T, b: T, c: T, d: T)
    requires a != b && a != c && a != d && b != c && b != d && c != d
    ensures |S| == (if a in S then 1 else 0) + (if b in S then 1 else 0) + (if c in S then 1 else 0) + (if d in S then 1 else 0)
                   + |S - {a, b, c, d}|
  {
    RemoveTwo(S, a, b);
    RemoveTwo(S - {a, b}, c, d);
    assert S - {a, b} - {c, d} == S - {a, b, c, d};
  }

  lemma PlacesRequired(limit: nat, i: nat)
    requires i < limit
    ensures Places(Indices(i * PAGE_SIZE)) <= Required(limit)
  {
    hide Indices;
    var ix := Indices(i * PAGE_SIZE);
    assert ix[..0] == [];
    assert ix[..0] in Required(limit) && ix[..1] in Required(limit) && ix[..2] in Required(limit) && ix[..3] in Required(limit);
  }

  lemma LackingIs(limit: nat, t: Tables, i: nat, t': Tables)
    requires i < limit && t'.Values == t.Values + Places(Indices(i * PAGE_SIZE))
    ensures Lacking(limit, t) == Missing(t.Values, Indices(i * PAGE_SIZE)) + Lacking(limit, t')
  {
    hide Indices, Required;
    var ix := Indices(i * PAGE_SIZE);
    PlacesRequired(limit, i);
    MissingCount(Required(limit), t.Values, ix);
    assert Required(limit) - t'.Values == Required(limit) - t.Values - Places(ix);
  }

  lemma MissingCount(R: set<seq<nat>>, V: set<seq<nat>>, ix: seq<nat>)
    requires |ix| == 4 && Places(ix) <= R
    ensures |R - V| == Missing(V, ix) + |R - V - Places(ix)|
  {
    assert |ix[..1]| == 1 && |ix[..2]| == 2 && |ix[..3]| == 3;
    RemoveFour(R - V, [], ix[..1], ix[..2], ix[..3]);
  }

  lemma LackingStep(limit: nat, t: Tables, i: nat)
    requires i < limit
    ensures Missing(t.Values, Indices(i * PAGE_SIZE)) <= Lacking(limit, t)
  {
    hide Indices, Required;
    PlacesRequired(limit, i);
    MissingCount(Required(limit), t.Values, Indices(i * PAGE_SIZE));
  }

  /** One root, one table below it, one table per GiB and one per 2 MiB. */
  function RoomFor(limit: nat): nat { 2 + (limit + 0x3_ffff) / 0x4_0000 + (limit + 511) / 512 }

  ghost function Twos(n: nat): set<seq<nat>> { set g: nat | g < n :: [0, g] }

  ghost function Threes(n: nat): set<seq<nat>> { set g: nat | g < n :: [0, g / 512, g % 512] }

  lemma {:induction false} TwosCount(n: nat)
    ensures |Twos(n)| <= n
  {
    if n > 0 {
      TwosCount(n - 1);
      assert Twos(n) == Twos(n - 1) + {[0, n - 1]};
    }
  }

  lemma {:induction false} ThreesCount(n: nat)
    ensures |Threes(n)| <= n
  {
    if n > 0 {
      ThreesCount(n - 1);
      assert Threes(n) == Threes(n - 1) + {[0, (n - 1) / 512, (n - 1) % 512]};
    }
  }

  lemma LowIndices(i: nat)
    requires i < FRAMES_BELOW_4G
    ensures Indices(i * PAGE_SIZE) == [0, i / 0x4_0000, i / 512 % 512, i % 512]
  {
    var v := i * PAGE_SIZE;
    DivIs(v, i, BIT_12, 0);
    DivDiv(v, BIT_12, 512);
    DivDiv(v, BIT_21, 512);
    DivDiv(v, BIT_30, 512);
    DivDiv(i, 512, 512);
    Below(i);
  }

  lemma Below(i: nat)
    requires i < FRAMES_BELOW_4G
    ensures i / 512 / 512 / 512 == 0 && i / 0x4_0000 % 512 == i / 0x4_0000
  {
  }

  /** The number of tables the first limit pages need: enough room is easy to check. */
  lemma RoomSuffices(limit: nat, t: Tables)
    requires limit <= FRAMES_BELOW_4G
    ensures Lacking(limit, t) <= RoomFor(limit)
  {
    hide Indices;
    var a, b := (limit + 0x3_ffff) / 0x4_0000, (limit + 511) / 512;
    TwosCount(a);
    ThreesCount(b);
    var All := {[], [0]} + Twos(a) + Threes(b);
    forall p | p in Required(limit) ensures p in All {
      var i: nat, k: nat :| i < limit && k < 4 && p == Indices(i * PAGE_SIZE)[..k];
      LowIndices(i);
      Groups(i, limit);
      InAll(i, k, a, b);
    }
    assert Required(limit) - t.Values <= All;
    SubsetCount(Required(limit) - t.Values, All);
    assert |All| <= 2 + a + b;
  }

  lemma Groups(i: nat, limit: nat)
    requires i < limit
    ensures i / 0x4_0000 < (limit + 0x3_ffff) / 0x4_0000 && i / 512 < (limit + 511) / 512
    ensures i / 512 / 512 == i / 0x4_0000
  {
    DivDiv(i, 512, 512);
  }

  lemma InAll(i: nat, k: nat, a: nat, b: nat)
    requires k < 4 && i / 0x4_0000 < a && i / 512 < b && i / 512 / 512 == i / 0x4_0000
    ensures [0, i / 0x4_0000, i / 512 % 512, i % 512][..k] in {[], [0]} + Twos(a) + Threes(b)
  {
    var ix := [0, i / 0x4_0000, i / 512 % 512, i % 512];
    var g := i / 512;
    assert ix[..0] == [] && ix[..1] == [0] && ix[..2] == [0, i / 0x4_0000] && ix[..3] == [0, g / 512, g % 512];
    assert ix[..2] in Twos(a) && ix[..3] in Threes(b);
  }

  lemma SubsetCount(A: set<seq<nat>>, B: set<seq<nat>>)
    requires A <= B
    ensures |A| <= |B|
  {
    assert B == A + (B - A);
  }
}

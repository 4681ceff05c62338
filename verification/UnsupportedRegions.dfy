/** What the table holds after a region was added that the builder does not support. */
module UnsupportedRegions {
  import opened Common
  import opened Bits
  import opened Descriptors
  import opened PageTree
  import opened FillSpec
  import opened Builder
  import opened Landing
  import opened Placement
  import opened Misplacement
  import opened Walk
  import opened Regions
  import opened RegionTheorems

  /** Where a run leaves the entry it starts in, the first page beyond the entry never gets its
      frame, whatever the counters and whatever else is mapped. */
  lemma FrameMissing(m: Memory, s: State, m1: Memory, s1: State, g: Region, ias: nat, oas: nat) returns (x: nat)
    requires IasOk(ias) && Added(m, s, m1, s1, g, ias, oas) && StartLevel(ias) < 3
    requires var r := RegionRun(g, ias);
             && r.lo < r.touched <= Pow2(ias - 12) && !Stays(StartLevel(ias), r)
             && Unmapped(s.tree, StartLevel(ias), r.lo, r.touched)
    ensures var l, r := StartLevel(ias), RegionRun(g, ias);
            && r.lo < x < Min(r.touched, r.lo + Span(l + 1)) && Num(l + 1, x) == Num(l + 1, r.lo) + 1
            && Lookup(s1.tree, l, x) != Some(Mapping(r.op + (x - r.lo), r.attr))
  {
    hide Lookup, Landed, Pow2, StartLevel, StartShift, RegionRun, Once, Added, Num, Span, Stays, InTable;
    var l, nbits, r := StartLevel(ias), ias - StartShift(ias), RegionRun(g, ias);
    AddedRun(m, s, m1, s1, g, ias, oas);
    RootRun(r, ias);
    x := Misplaced(l, nbits, r, s.counters);
    AddedLooks(m, s, m1, s1, g, ias, oas, x);
    assert Lookup(s.tree, l, x) == None;
  }

  /** Into an empty table, and with counters that do not clip it, a region within the input range is
      added without a page in a wrong place if and only if the builder supports it. */
  lemma PlacedIff(m: Memory, s: State, m1: Memory, s1: State, g: Region, ias: nat, oas: nat)
    requires IasOk(ias) && Added(m, s, m1, s1, g, ias, oas) && NothingMapped(s.tree, StartLevel(ias))
    requires var r := RegionRun(g, ias);
             r.lo < r.touched <= Pow2(ias - 12) && NoClip(StartLevel(ias), r, s.counters)
    ensures Agrees(s.tree, s1.tree, StartLevel(ias), StartLevel(ias), 0, RegionRun(g, ias)) <==>
            RegionDomain(StartLevel(ias), RegionRun(g, ias))
  {
    hide Lookup, Landed, Pow2, StartLevel, StartShift, RegionRun, Once, Added, Num, NoClip, Agrees, RegionDomain,
         Shape, InTable, OwnOnly;
    var l, nbits, r := StartLevel(ias), ias - StartShift(ias), RegionRun(g, ias);
    AddedRun(m, s, m1, s1, g, ias, oas);
    RootRun(r, ias);
    RunWindow(l, nbits, r);
    DomainIff(l, r);
    RootSlot(ias, r.lo);
    if RegionDomain(l, r) {
      ShapeAgrees(m, s, m1, s1, g, ias, oas);
    }
    if Agrees(s.tree, s1.tree, l, l, 0, r) {
      AgreesOwn(m, s, m1, s1, g, ias, oas);
      OwnShape(l, nbits, r, s.counters);
    }
  }

  lemma ShapeAgrees(m: Memory, s: State, m1: Memory, s1: State, g: Region, ias: nat, oas: nat)
    requires IasOk(ias) && Added(m, s, m1, s1, g, ias, oas) && NothingMapped(s.tree, StartLevel(ias))
    requires var r := RegionRun(g, ias); r.lo < r.touched <= Pow2(ias - 12) && Shape(StartLevel(ias), r)
    ensures Agrees(s.tree, s1.tree, StartLevel(ias), StartLevel(ias), 0, RegionRun(g, ias))
  {
    hide Lookup, Pow2, StartLevel, StartShift, RegionRun, Num, NoClip, Agrees, Shape, Built, Sound, TableAt,
         CountersOk, AttrOk, InTable, After,
         Complete, Once;
    var l, nbits, r := StartLevel(ias), ias - StartShift(ias), RegionRun(g, ias);
    RootRun(r, ias);
    RootSlot(ias, r.lo);
    RunWindow(l, nbits, r);
    InTableSlots(l, nbits, r);
    BuiltFills(l, nbits, ias, 0, r, s);
  }

  lemma InTableSlots(l: nat, nbits: nat, r: Run)
    requires InTable(l, nbits, r)
    ensures InSlots(l, nbits, r)
  {
  }

  lemma AgreesOwn(m: Memory, s: State, m1: Memory, s1: State, g: Region, ias: nat, oas: nat)
    requires IasOk(ias) && Added(m, s, m1, s1, g, ias, oas) && NothingMapped(s.tree, StartLevel(ias))
    requires var r := RegionRun(g, ias); r.lo < r.touched <= Pow2(ias - 12)
    requires Agrees(s.tree, s1.tree, StartLevel(ias), StartLevel(ias), 0, RegionRun(g, ias))
    ensures StartLevel(ias) <= 3 && 1 <= ias - StartShift(ias) <= 9
    ensures OwnOnly(StartLevel(ias), ias - StartShift(ias), RegionRun(g, ias), s.counters, 0)
  {
    hide Lookup, Landed, Pow2, StartLevel, StartShift, RegionRun, Added, Num, InTable, Once, Slot, Index;
    var l, nbits, r := StartLevel(ias), ias - StartShift(ias), RegionRun(g, ias);
    RootRun(r, ias);
    forall vp: nat | Num(l, vp) == 0 && Slot(l, nbits, vp) == Index(l, vp) && Landed(l, nbits, r, s.counters, vp).Some?
      ensures Landed(l, nbits, r, s.counters, vp) == Some(vp)
    {
      AgreeingPage(m, s, m1, s1, g, ias, oas, vp);
    }
  }

  lemma AgreeingPage(m: Memory, s: State, m1: Memory, s1: State, g: Region, ias: nat, oas: nat, vp: nat)
    requires IasOk(ias) && Added(m, s, m1, s1, g, ias, oas) && NothingMapped(s.tree, StartLevel(ias))
    requires StartLevel(ias) <= 3 && 1 <= ias - StartShift(ias) <= 9 && Once(StartLevel(ias), ias - StartShift(ias), RegionRun(g, ias))
    requires Agrees(s.tree, s1.tree, StartLevel(ias), StartLevel(ias), 0, RegionRun(g, ias))
    requires Num(StartLevel(ias), vp) == 0 && Slot(StartLevel(ias), ias - StartShift(ias), vp) == Index(StartLevel(ias), vp)
    requires Landed(StartLevel(ias), ias - StartShift(ias), RegionRun(g, ias), s.counters, vp).Some?
    ensures Landed(StartLevel(ias), ias - StartShift(ias), RegionRun(g, ias), s.counters, vp) == Some(vp)
  {
    hide Lookup, Landed, StartLevel, StartShift, RegionRun, Num, Once, Slot, Index, Built, Sound, TableAt, CountersOk, AttrOk;
    var l, nbits, r := StartLevel(ias), ias - StartShift(ias), RegionRun(g, ias);
    BuiltLooks(l, nbits, ias, r, s, vp);
    assert PageAgrees(s.tree, s1.tree, l, vp, r);
    assert Lookup(s.tree, l, vp) == None;
  }

  // ---- Beyond the input range ----

  /** An aligned run that goes beyond the input range wraps: the first page beyond, whatever the
      counters and whatever was there, gets the place of VA 0. */
  lemma {:induction false} Beyond(m: Memory, s: State, m1: Memory, s1: State, g: Region, ias: nat, oas: nat)
    requires IasOk(ias) && Added(m, s, m1, s1, g, ias, oas)
    requires var r, p := RegionRun(g, ias), Pow2(ias - 12);
             r.lo % Span(StartLevel(ias) + 1) == 0 && r.lo < p < r.touched <= r.lo + p
    ensures var r := RegionRun(g, ias);
            Lookup(s1.tree, StartLevel(ias), 0) == Some(Mapping(r.op + (Pow2(ias - 12) - r.lo), r.attr))
  {
    hide Lookup, Landed, Pow2, StartLevel, StartShift, RegionRun, Num, Span, Built, Sound, TableAt, CountersOk, AttrOk, Slot;
    var l, nbits, r, p := StartLevel(ias), ias - StartShift(ias), RegionRun(g, ias), Pow2(ias - 12);
    RootPages(ias);
    WrapsTo0(l, nbits, p);
    AlignedLands(l, nbits, r, s.counters, p, 0);
    AddedLooks(m, s, m1, s1, g, ias, oas, 0);
  }

  lemma WrapsTo0(l: nat, nbits: nat, p: nat)
    requires l <= 3 && nbits <= 9 && p == Pow2(nbits) * Span(l + 1)
    ensures p % Span(l + 1) == 0 == 0 % Span(l + 1) && Slot(l, nbits, p) == Slot(l, nbits, 0)
  {
    hide Pow2, Span, Num;
    DivUnique(p, Span(l + 1), Pow2(nbits), 0);
    DivUnique(0, Span(l + 1), 0, 0);
    NumOfFirst(l + 1, Pow2(nbits));
    NumOfFirst(l + 1, 0);
    DivUnique(Pow2(nbits), Pow2(nbits), 1, 0);
    DivUnique(0, Pow2(nbits), 0, 0);
  }

  // ---- Two inputs ----

  /** 2 MiB from VA 0x1000 on pass the builder's checks but are not supported. Into an empty table and
      from zero counters, the last page goes to VA 0, outside the region, and VA 0x200000 is not
      mapped; the rest is right. */
  lemma {:induction false} UnsupportedRegion(m: Memory, s: State, m1: Memory, s1: State, pa: nat, attr: nat, oas: nat, vp: nat)
    requires Added(m, s, m1, s1, Region(pa, 0x1000, 0x20_0000, attr), 48, oas) && s.counters == ZERO_COUNTERS
    requires NothingMapped(s.tree, 0) && vp <= 512
    ensures !RegionDomain(0, RegionRun(Region(pa, 0x1000, 0x20_0000, attr), 48))
    ensures Lookup(s1.tree, 0, vp) ==
            if vp == 512 then None
            else if vp == 0 then Some(Mapping(pa / 0x1000 + 511, attr))
            else Some(Mapping(pa / 0x1000 + vp - 1, attr))
  {
    hide Lookup, Landed, Pow2, Num, Span, Built, Sound, TableAt, Once, InTable;
    var g := Region(pa, 0x1000, 0x20_0000, attr);
    assert StartLevel(48) == 0 && StartShift(48) == 39;
    SmallVa();
    var r := RegionRun(g, 48);
    assert r == Run(1, 513, 513, pa / 0x1000, attr);
    SmallRange();
    RootRun(r, 48);
    AddedLooks(m, s, m1, s1, g, 48, oas, vp);
    TwoMegabytes(0, r, vp);
    assert Lookup(s.tree, 0, vp) == None;
    NotInDomain(r);
  }

  lemma SmallRange()
    ensures 513 <= Pow2(48 - 12)
  {
    hide Pow2;
    PowMono(12, 36);
    PowValues();
  }

  lemma NotInDomain(r: Run)
    requires r.lo == 1 && r.touched == 513
    ensures !RegionDomain(0, r)
  {
    hide Span, Num;
    SpanValues();
    assert Num(3, 1) == 0 && Num(3, 512) == 1 by { NumIsDiv(3, 1); NumIsDiv(3, 512); }
    forall m | 0 <= m <= 3 ensures r.lo % Span(m + 1) != 0 || Num(m, r.lo) != Num(m, r.touched - 1) {
      if m < 3 { assert r.lo % Span(m + 1) == 1; }
    }
  }

  /** 1 TiB from VA 2^39 on, in a 40-bit input range: the second half does not fit, and its first page
      goes to VA 0. */
  lemma {:induction false} WrappedRegion(m: Memory, s: State, m1: Memory, s1: State, attr: nat, oas: nat)
    requires Added(m, s, m1, s1, Region(0x1000, 0x80_0000_0000, 0x100_0000_0000, attr), 40, oas)
    ensures RegionDomain(0, RegionRun(Region(0x1000, 0x80_0000_0000, 0x100_0000_0000, attr), 40))
    ensures Lookup(s1.tree, 0, 0) == Some(Mapping(1 + 0x800_0000, attr))
  {
    hide Lookup, Landed, Num, Span, Built, Sound, TableAt, Once, InTable, Pow2;
    var g := Region(0x1000, 0x80_0000_0000, 0x100_0000_0000, attr);
    assert StartLevel(40) == 0 && StartShift(40) == 39;
    Pow40();
    SpanValues();
    var r := RegionRun(g, 40);
    assert r == Run(0x800_0000, 0x1800_0000, 0x1800_0000, 1, attr);
    assert Num(0, r.lo) == Num(0, r.touched - 1) by { NumIsDiv(0, r.lo); NumIsDiv(0, r.touched - 1); }
    assert r.lo % Span(0 + 1) == 0;
    Beyond(m, s, m1, s1, g, 40, oas);
  }

  lemma Pow40()
    ensures Pow2(40) == 0x100_0000_0000 && Pow2(40 - 12) == 0x1000_0000
  {
    PowValues();
    PowAdd(12, 12); PowAdd(24, 4); PowAdd(28, 12);
  }

  /** 512 GiB from VA 0 to PA 0 become one block at level 0 of a 48-bit table: hardware translates
      none of it. */
  lemma {:induction false} TopRegion(m: Memory, s: State, m1: Memory, s1: State, attr: nat, oas: nat, va: nat)
    requires Added(m, s, m1, s1, Region(0, 0, 0x80_0000_0000, attr), 48, oas) && va < 0x80_0000_0000
    ensures RegionDomain(0, RegionRun(Region(0, 0, 0x80_0000_0000, attr), 48))
    ensures Translate(m1, s1.tree.page, 0, va) == None && Lookup(s1.tree, 0, va / 0x1000) == Some(Mapping(va / 0x1000, attr))
  {
    hide Lookup, Translate, Num, Span, Built, Sound, TableAt, Pow2;
    var g := Region(0, 0, 0x80_0000_0000, attr);
    assert StartLevel(48) == 0;
    SpanValues();
    ZeroVa();
    var r := RegionRun(g, 48);
    assert r == Run(0, 0x800_0000, 0x800_0000, 0, attr);
    assert Num(0, r.lo) == Num(0, r.touched - 1) by { NumIsDiv(0, r.lo); NumIsDiv(0, r.touched - 1); }
    assert r.lo % Span(0 + 1) == 0;
    TopBlock(m, s, m1, s1, g, 48, oas, va);
  }

  lemma ZeroVa()
    ensures 0 % Pow2(48) == 0 && 0x800_0000 <= Pow2(48 - 12)
  {
    hide Pow2;
    Pow40();
    PowMono(28, 36);
    DivUnique(0, Pow2(48), 0, 0);
  }
}

/** Memory regions as the caller gives them, the ones the builder supports, and the
    tables that ias-bit input addresses start from. */
module Regions {
  import opened Common
  import opened Bits
  import opened Descriptors
  import opened PageTree
  import opened FillSpec
  import opened FillProof
  import opened CounterProof
  import opened BuildSteps
  import opened Builder
  import opened PageBudget
  import opened Walk

  /** A memory region descriptor: byte addresses, length in bytes, attribute bits. */
  datatype Region = Region(pa: nat, va: nat, length: nat, attr: nat)

  /** The addresses pass the builder's checks. */
  predicate Accepted(g: Region, oas: nat) {
    g.va % 0x1000 == 0 && g.pa % 0x1000 == 0 && g.pa < Pow2(oas)
  }

  /** The run of pages a region asks for; input addresses are taken modulo 2^ias. */
  function RegionRun(g: Region, ias: nat): Run {
    var base := g.va % Pow2(ias);
    if g.length == 0 then Run(base / 0x1000, base / 0x1000, base / 0x1000, g.pa / 0x1000, g.attr)
    else RunOf(base, base + g.length - 1, g.pa, g.attr)
  }

  /** The runs the builder supports from level l down: for some level m they start on an
      entry boundary and lie in one table. With
      4 KiB pages this is: inside one 2 MiB window; or 2 MiB-aligned inside one 1 GiB window;
      or 1 GiB-aligned inside one 512 GiB window; or 512 GiB-aligned. */
  predicate RegionDomain(l: nat, r: Run)
    requires r.lo < r.touched
  {
    exists m :: l <= m <= 3 && r.lo % Span(m + 1) == 0 && Num(m, r.lo) == Num(m, r.touched - 1)
  }

  /** A run the builder describes rightly for ias-bit input addresses: within the range, supported,
      and nothing that becomes a block at level 0, which the architecture does not have. */
  predicate Supported(r: Run, ias: nat)
    requires IasOk(ias) && r.lo < r.touched
  {
    r.touched <= Pow2(ias - 12) && RegionDomain(StartLevel(ias), r) && (StartLevel(ias) == 0 ==> !Blockable(0, r))
  }

  /** A region that can be mapped into t as a whole, counters permitting. */
  predicate Mappable(t: Tree, g: Region, ias: nat)
    requires IasOk(ias)
  {
    var r := RegionRun(g, ias);
    RunOk(r) && (r.lo < r.touched ==> Supported(r, ias) && Unmapped(t, StartLevel(ias), r.lo, r.touched))
  }

  /** The root table uses no entry beyond the input address range. */
  predicate InRange(t: Tree, ias: nat)
    requires IasOk(ias)
  {
    forall i :: Pow2(ias - StartShift(ias)) <= i < |t.entries| ==> t.entries[i] == Empty
  }

  /** t is a table for ias-bit input addresses, in memory at its page. */
  ghost predicate TableAt(m: Memory, t: Tree, ias: nat)
    requires IasOk(ias)
  {
    Wf(t, StartLevel(ias), ias) && Rep(m, t, StartLevel(ias)) && InRange(t, ias)
  }

  /** Pages of the input range lie under the root table and within its used entries. */
  lemma {:induction false} RootWindow(ias: nat, vp: nat)
    requires IasOk(ias)
    ensures vp < Pow2(ias - 12) ==> Num(StartLevel(ias), vp) == 0
    ensures vp < Pow2(ias - 12) <==> Num(StartLevel(ias) + 1, vp) < Pow2(ias - StartShift(ias))
  {
    hide Pow2, Span, Num, StartLevel, StartShift;
    StartFacts(ias);
    var l, nb := StartLevel(ias), ias - StartShift(ias);
    BlockBytes(l);
    PowPage(StartShift(ias));
    PowAdd(nb, StartShift(ias) - 12);
    PowMono(nb, 9);
    PowValues();
    NumIsDiv(l + 1, vp);
    QuotientBound(vp, Pow2(nb), Span(l + 1));
    NumStep(l, vp);
  }

  lemma NumStep(l: nat, vp: nat)
    requires l <= 3
    ensures Num(l, vp) == Num(l + 1, vp) / 512
  {
  }

  lemma QuotientBound(v: nat, a: nat, s: nat)
    requires s > 0
    ensures v / s < a <==> v < a * s
  {
    var q, r := DivParts(v, s);
    if q < a { MulMono(q + 1, a, s); } else { MulMono(a, q, s); }
  }

  /** Within one table of level l, the supported runs are exactly those the builder can
      describe: every run it hands down stays under its entry. */
  lemma {:induction false} DomainIff(l: nat, r: Run)
    requires l <= 3 && r.lo < r.touched && r.lo <= r.whole <= r.touched && Num(l, r.lo) == Num(l, r.touched - 1)
    ensures RegionDomain(l, r) <==> Shape(l, r)
    decreases 3 - l
  {
    hide Num, Span, Shape, Blockable;
    SpanValues();
    if l == 3 {
      ShapeLast(r);
      assert r.lo % Span(4) == 0;
    } else if r.lo % Span(l + 1) == 0 {
      AlignedShape(l, r);
    } else {
      NotBoundary(l, r);
      if Num(l + 1, r.lo) == Num(l + 1, r.touched - 1) {
        DomainIff(l + 1, r);
        OneEntry(l, r);
      } else {
        SplitsEntry(l, r);
      }
    }
  }

  lemma ShapeLast(r: Run)
    ensures Shape(3, r)
  {
  }

  lemma NotBlockNext(r: Run)
    requires !Blockable(0, r)
    ensures !Blockable(0, From(r, r.lo + Span(1)))
  {
    SpanValues();
  }

  lemma NotBoundary(l: nat, r: Run)
    requires l < 3 && r.lo % Span(l + 1) != 0
    ensures !Blockable(l, r)
  {
  }

  /** A run under one entry that is no block is a question to the table below. */
  lemma OneEntry(l: nat, r: Run)
    requires l < 3 && r.lo < r.touched && r.lo <= r.whole <= r.touched && !Blockable(l, r)
    requires Num(l + 1, r.lo) == Num(l + 1, r.touched - 1) && r.lo % Span(l + 1) != 0
    ensures Shape(l, r) <==> Shape(l + 1, r)
    ensures RegionDomain(l, r) <==> RegionDomain(l + 1, r)
  {
    hide Num, Span;
    NumClose(l + 1, r.lo, r.touched - 1);
    assert Cut(r, r.lo + Span(l + 1)) == r;
    StaysIff(l, r);
  }

  /** A run that crosses entries away from a boundary is not describable, and not supported. */
  lemma SplitsEntry(l: nat, r: Run)
    requires l < 3 && r.lo < r.touched && !Blockable(l, r)
    requires Num(l + 1, r.lo) != Num(l + 1, r.touched - 1) && r.lo % Span(l + 1) != 0
    ensures !Shape(l, r) && !RegionDomain(l, r)
  {
    hide Num, Span, Blockable;
    StaysIff(l, r);
    forall m | l <= m <= 3 && r.lo % Span(m + 1) == 0 ensures Num(m, r.lo) != Num(m, r.touched - 1) {
      if m > l { NumDown(l + 1, m, r.lo, r.touched - 1); }
    }
  }

  lemma {:induction false} NumDown(l: nat, m: nat, a: nat, b: nat)
    requires l <= m <= 4 && Num(l, a) != Num(l, b)
    ensures Num(m, a) != Num(m, b)
    decreases m - l
  {
    if l < m { NumDown(l + 1, m, a, b); }
  }

  lemma SmallVa()
    ensures 0x1000 % Pow2(48) == 0x1000
  {
    PowMono(21, 48);
    PowAdd(9, 12);
    PowValues();
    hide Pow2;
    DivUnique(0x1000, Pow2(48), 0, 0x1000);
  }

  /** What passes the builder's checks is what it is asked to fill with at the root. */
  lemma {:induction false} RootFillable(t: Tree, g: Region, ias: nat, c: Counters)
    requires IasOk(ias) && Mappable(t, g, ias) && CountersOk(c, StartLevel(ias))
    ensures StartLevel(ias) <= 3 && RunOk(RegionRun(g, ias)) && Fillable(t, StartLevel(ias), 0, RegionRun(g, ias), c)
    ensures InSlots(StartLevel(ias), ias - StartShift(ias), RegionRun(g, ias))
  {
    hide Num, Span, Shape, RegionDomain, RegionRun, StartLevel, StartShift, Unmapped, AttrOk, CountersOk, Pow2;
    StartFacts(ias);
    var r := RegionRun(g, ias);
    if r.lo < r.touched {
      RootWindow(ias, r.lo);
      RootWindow(ias, r.touched - 1);
      DomainIff(StartLevel(ias), r);
    }
  }

  /** The builder keeps to the entries that nbits bits select. */
  lemma {:induction false} BuiltLow(l: nat, nbits: nat, r: Run, s: State, i: nat)
    requires l <= 3 && nbits <= 9 && Built(l, nbits, r, s).Some? && i >= Pow2(nbits)
    ensures At(Built(l, nbits, r, s).value.tree, i) == At(s.tree, i) && |Built(l, nbits, r, s).value.tree.entries| == |s.tree.entries|
    decreases r.touched - r.lo
  {
    hide Built, Stepped, Span, At;
    if r.lo >= r.touched {
      BuiltNone(l, nbits, r, s);
    } else {
      BuiltStep(l, nbits, r, s);
      SteppedLow(l, nbits, r, s, i);
      BuiltLow(l, nbits, From(r, r.lo + Span(l + 1)), Stepped(l, nbits, r, s).value, i);
    }
  }

  lemma SteppedLow(l: nat, nbits: nat, r: Run, s: State, i: nat)
    requires l <= 3 && nbits <= 9 && r.lo < r.touched && Stepped(l, nbits, r, s).Some? && i >= Pow2(nbits)
    ensures At(Stepped(l, nbits, r, s).value.tree, i) == At(s.tree, i)
    ensures |Stepped(l, nbits, r, s).value.tree.entries| == |s.tree.entries|
  {
    hide Built, Span, Num, Pow2;
  }

  lemma BuiltInRange(r: Run, s: State, ias: nat)
    requires IasOk(ias) && StartLevel(ias) <= 3 && 1 <= ias - StartShift(ias) <= 9 && InRange(s.tree, ias)
    requires Built(StartLevel(ias), ias - StartShift(ias), r, s).Some?
    ensures InRange(Built(StartLevel(ias), ias - StartShift(ias), r, s).value.tree, ias)
  {
    hide Built, Pow2, StartLevel, StartShift;
    var l, nbits := StartLevel(ias), ias - StartShift(ias);
    var t' := Built(l, nbits, r, s).value.tree;
    BuiltLow(l, nbits, r, s, Pow2(nbits));
    forall i | Pow2(nbits) <= i < |t'.entries| ensures t'.entries[i] == Empty { BuiltLow(l, nbits, r, s, i); }
  }

  /** The masks the builder applies to accepted addresses. */
  lemma {:induction false} MaskedAddresses(g: Region, ias: nat, oas: nat)
    ensures And(g.va, 0xFFF) == g.va % 0x1000 && And(g.pa, 0xFFF) == g.pa % 0x1000
    ensures And(g.va, Pow2(ias) - 1) == g.va % Pow2(ias)
    ensures And(g.va % Pow2(ias), Pow2(ias) - 1) == g.va % Pow2(ias)
    ensures g.pa < Pow2(oas) ==> And(g.pa, Pow2(oas) - 1) == g.pa
  {
    hide And;
    PowValues();
    hide Pow2;
    AndLow(12, g.va);
    AndLow(12, g.pa);
    AndLow(ias, g.va);
    AndOnes(ias, g.va % Pow2(ias));
    if g.pa < Pow2(oas) { AndOnes(oas, g.pa); }
  }

  lemma {:induction false} TruncatedAligned(va: nat, ias: nat)
    requires IasOk(ias) && va % 0x1000 == 0
    ensures va % Pow2(ias) % 0x1000 == 0
  {
    hide Pow2;
    PowPage(ias);
    var q, r := DivParts(va, Pow2(ias));
    var p := Pow2(ias - 12);
    assert q * (p * 0x1000) == (q * p) * 0x1000;
    DivUnique(va, 0x1000, q * p + r / 0x1000, r % 0x1000);
  }

  lemma ZeroTableInRange(page: nat, ias: nat)
    requires IasOk(ias)
    ensures InRange(ZeroTable(page), ias) && NothingMapped(ZeroTable(page), StartLevel(ias))
  {
  }

  // ---- What creating a table comes to ----

  /** The root a create works on: the table given, or a new page. */
  function Root(pgtBase: nat, t: Tree): Entry { if pgtBase == 0 then Empty else Sub(t) }

  /** The state a create of one region leaves, or nothing where it fails. */
  function Created(g: Region, root: Entry, ias: nat, oas: nat, c: Counters, pool: seq<nat>): Option<State>
    requires IasOk(ias)
  {
    StartFacts(ias);
    var u := Under(root, pool);
    if u.None? then None
    else
      var s := State(u.value.0, c, u.value.1, {});
      if g.length == 0 then Some(s)
      else if !Accepted(g, oas) then None
      else Built(StartLevel(ias), ias - StartShift(ias), RegionRun(g, ias), s)
  }

  /** A root table and the free pages are apart. */
  predicate RootOk(root: Entry, ias: nat, pool: seq<nat>)
    requires IasOk(ias)
  {
    && NoDup(pool) && (forall p :: p in pool ==> PageOk(p, ias))
    && (root.Sub? ==> Wf(root.table, StartLevel(ias), ias) && InRange(root.table, ias) && Pages(root.table) !! Elems(pool))
    && !root.Leaf?
  }

  lemma RootSound(root: Entry, ias: nat, pool: seq<nat>, c: Counters)
    requires IasOk(ias) && RootOk(root, ias, pool) && Under(root, pool).Some?
    ensures var u := Under(root, pool).value; var s := State(u.0, c, u.1, {});
            && Sound(s, StartLevel(ias), ias) && InRange(s.tree, ias) && Total(s) == PagesOf(root) + Elems(pool)
            && Elems(u.1) <= Elems(pool)
  {
    hide Wf, Pages, StartLevel, StartShift, Pow2, PageOk;
    StartFacts(ias);
    if root.Sub? {
      SubPages(root);
    } else {
      PoolTail(pool);
      ZeroTableWf(pool[0], StartLevel(ias), ias);
    }
  }

  /** A create makes a table out of the root's pages and free ones. No page appears or disappears;
      those of tables that a block took the place of are lost to it. */
  lemma CreatedOwns(g: Region, root: Entry, ias: nat, oas: nat, c: Counters, pool: seq<nat>)
    requires IasOk(ias) && RootOk(root, ias, pool) && CountersOk(c, StartLevel(ias))
    requires g.length > 0 && Accepted(g, oas) ==> RunOk(RegionRun(g, ias))
    requires Created(g, root, ias, oas, c, pool).Some?
    ensures var s := Created(g, root, ias, oas, c, pool).value;
            && Sound(s, StartLevel(ias), ias) && InRange(s.tree, ias) && CountersOk(s.counters, StartLevel(ias))
            && Total(s) == PagesOf(root) + Elems(pool) && Elems(s.pool) <= Elems(pool)
            && (root.Sub? ==> s.tree.page == root.table.page)
  {
    hide Built, Sound, InRange, CountersOk, RootOk, StartLevel, StartShift, RegionRun, Total, Pages, PagesOf, Pow2, Elems;
    StartFacts(ias);
    RootSound(root, ias, pool, c);
    var u := Under(root, pool).value;
    var l, nbits, r, s := StartLevel(ias), ias - StartShift(ias), RegionRun(g, ias), State(u.0, c, u.1, {});
    if g.length > 0 {
      BuiltOwns(l, nbits, ias, r, s);
      BuiltCounters(l, nbits, r, s);
      FillKeeps(l, r, c);
      BuiltInRange(r, s, ias);
    }
  }

  /** A region it can map is mapped, as far as the counters allow, and no page is lost. */
  lemma CreatedFills(g: Region, root: Entry, t: Tree, ias: nat, oas: nat, c: Counters, pool: seq<nat>)
    requires IasOk(ias) && RootOk(root, ias, pool) && CountersOk(c, StartLevel(ias)) && RootLooks(root, t, StartLevel(ias))
    requires g.length > 0 && Mappable(t, g, ias) && Created(g, root, ias, oas, c, pool).Some?
    ensures var s := Created(g, root, ias, oas, c, pool).value;
            && RunOk(RegionRun(g, ias)) && s.lost == {}
            && Filled(t, s.tree, StartLevel(ias), 0, RegionRun(g, ias), c, s.counters)
  {
    hide Built, Sound, InRange, CountersOk, RootOk, StartLevel, StartShift, RegionRun, Total, Pages, PagesOf, Pow2, Elems, Filled,
         Mappable, RootLooks, RunOk, Fillable, InSlots;
    StartFacts(ias);
    RootSound(root, ias, pool, c);
    var u := Under(root, pool).value;
    var l, nbits, r, s := StartLevel(ias), ias - StartShift(ias), RegionRun(g, ias), State(u.0, c, u.1, {});
    RootIs(root, t, l, pool);
    SameMappable(t, u.0, g, ias);
    RootFillable(u.0, g, ias, c);
    BuiltFills(l, nbits, ias, 0, r, s);
    SameFilled(t, u.0, Built(l, nbits, r, s).value.tree, l, r, c, Built(l, nbits, r, s).value.counters);
  }

  /** t translates as the root does: a new root maps nothing. */
  ghost predicate RootLooks(root: Entry, t: Tree, l: nat) {
    if root.Sub? then t == root.table else NothingMapped(t, l)
  }

  ghost predicate SameLookup(t: Tree, t': Tree, l: nat) {
    forall vp: nat :: Lookup(t', l, vp) == Lookup(t, l, vp)
  }

  lemma RootIs(root: Entry, t: Tree, l: nat, pool: seq<nat>)
    requires RootLooks(root, t, l) && Under(root, pool).Some?
    ensures SameLookup(t, Under(root, pool).value.0, l)
  {
  }

  lemma SameMappable(t: Tree, t0: Tree, g: Region, ias: nat)
    requires IasOk(ias) && SameLookup(t, t0, StartLevel(ias)) && Mappable(t, g, ias)
    ensures Mappable(t0, g, ias)
  {
    hide Lookup, RegionRun, RegionDomain, StartLevel;
  }

  lemma SameFilled(t: Tree, t0: Tree, t': Tree, l: nat, r: Run, c: Counters, c': Counters)
    requires RunOk(r) && SameLookup(t, t0, l) && Filled(t0, t', l, 0, r, c, c')
    ensures Filled(t, t', l, 0, r, c, c')
  {
    hide Lookup, Num, NoClip, Complete, After;
    forall vp: nat | Num(l, vp) == 0 ensures PageAgrees(t, t', l, vp, r) {
      assert PageAgrees(t0, t', l, vp, r);
    }
  }

  /** Pages a region may need besides a new root. */
  function RegionBudget(g: Region, ias: nat): nat
    requires IasOk(ias)
  {
    var r := RegionRun(g, ias);
    Budget(StartLevel(ias), r.lo, r.touched)
  }

  /** With that many pages, and one for a new root, a create of a region it can map succeeds. */
  lemma CreatedWithin(g: Region, root: Entry, t: Tree, ias: nat, oas: nat, c: Counters, pool: seq<nat>)
    requires IasOk(ias) && CountersOk(c, StartLevel(ias)) && Accepted(g, oas) && Mappable(t, g, ias)
    requires |pool| >= RegionBudget(g, ias) + if root.Sub? then 0 else 1
    ensures Created(g, root, ias, oas, c, pool).Some?
  {
    hide Built, CountersOk, StartLevel, StartShift, RegionRun, Pow2, Mappable, Shape, Budget;
    StartFacts(ias);
    RootFillable(t, g, ias, c);
    var u := Under(root, pool).value;
    var l, nbits, r, s := StartLevel(ias), ias - StartShift(ias), RegionRun(g, ias), State(u.0, c, u.1, {});
    if r.lo < r.touched { BuiltWithin(l, nbits, r, s); } else { BuiltNone(l, nbits, r, s); }
  }

  lemma {:induction false} RunLength(g: Region, ias: nat)
    requires IasOk(ias) && g.va % 0x1000 == 0 && g.length > 0
    ensures var r := RegionRun(g, ias); r.touched - r.lo <= g.length / 0x1000 + 1
  {
    hide Pow2;
    TruncatedAligned(g.va, ias);
    var base := g.va % Pow2(ias);
    var p := base / 0x1000;
    assert base == p * 0x1000;
    DivUnique(base, 0x1000, p, 0);
    assert (base + g.length - 1 + 0xFFF) / 0x1000 == p + (g.length + 0xFFE) / 0x1000;
  }

  /** With pages enough for any region of its length, a create fails only by the checks: a virtual or
      physical address that is not aligned, or a physical address beyond the output range. */
  lemma CreatedEnough(g: Region, root: Entry, ias: nat, oas: nat, c: Counters, pool: seq<nat>)
    requires IasOk(ias) && CountersOk(c, StartLevel(ias)) && |pool| >= 1 + 3 * (g.length / 0x1000 + 1)
    requires g.length > 0 && Accepted(g, oas) ==> RunOk(RegionRun(g, ias))
    ensures Created(g, root, ias, oas, c, pool).Some? <==>
            g.length == 0 || (g.va % 0x1000 == 0 && g.pa % 0x1000 == 0 && g.pa < Pow2(oas))
  {
    hide Built, CountersOk, StartLevel, StartShift, RegionRun, Pow2, RunOk;
    StartFacts(ias);
    if g.length > 0 && Accepted(g, oas) {
      RunLength(g, ias);
      var u := Under(root, pool).value;
      var l, r := StartLevel(ias), RegionRun(g, ias);
      RunSpan(r);
      AtMostThree(3 - l, r.touched - r.lo, g.length / 0x1000 + 1);
      BuiltEnough(l, ias - StartShift(ias), r, State(u.0, c, u.1, {}));
    }
  }

  lemma RunSpan(r: Run)
    requires RunOk(r)
    ensures r.lo <= r.touched
  {
  }

  lemma AtMostThree(k: nat, n: nat, m: nat)
    requires k <= 3 && n <= m
    ensures k * n <= 3 * m
  {
    MulMono(k, 3, n);
  }
}

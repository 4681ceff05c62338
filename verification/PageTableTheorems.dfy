/** The walker on the builder's tables: when the two meet, and where they do not. */
module PageTableTheorems {
  import opened Common
  import opened Bits
  import opened Descriptors
  import opened PageTree
  import opened FillSpec
  import opened BuildSteps
  import opened Builder
  import opened Walk
  import opened Regions
  import opened Pgt
  import opened RegionTheorems

  // ---- The walker ----

  /** Input sizes for which every level the walker leaves resolves nine bits. */
  predicate WalkerAligned(ias: nat) { ias <= 21 || (ias - 12) % 9 == 0 }

  /** The walker's answer for an address is the table's: the attributes of the mapped page,
      and the error status for an unmapped one. */
  ghost predicate WalkerRight(m: Memory, t: Tree, ias: nat, va: nat)
    requires IasOk(ias)
  {
    Answers(WalkFrom(m, t.page, StartLevel(ias), StartShift(ias), ias - StartShift(ias), ias, va),
            Lookup(t, StartLevel(ias), va / 0x1000))
  }

  lemma {:induction false} AlignedBits(ias: nat)
    requires IasOk(ias)
    ensures WalkerAligned(ias) <==> StartLevel(ias) == 3 || ias - StartShift(ias) == 9
  {
  }

  lemma {:induction false} RootNineBits(ias: nat, va: nat)
    requires IasOk(ias) && WalkerAligned(ias) && va < Pow2(ias)
    ensures NineBits(StartLevel(ias), StartShift(ias), ias - StartShift(ias), va)
  {
    hide Num, Pow2, StartLevel, StartShift, Levels;
    StartFacts(ias);
    AlignedBits(ias);
    PageBelow(ias, va);
    RootWindow(ias, va / 0x1000);
  }

  lemma {:induction false} WalkerIsRight(m: Memory, t: Tree, ias: nat, va: nat)
    requires IasOk(ias) && WalkerAligned(ias) && TableAt(m, t, ias) && va < Pow2(ias)
    requires Lookup(t, StartLevel(ias), va / 0x1000).Some?
    ensures WalkerRight(m, t, ias, va)
  {
    hide Wf, Rep, Lookup, WalkFrom, Num, InRange, Pow2, StartLevel, StartShift, Levels, Answers, NineBits;
    StartFacts(ias);
    RootNineBits(ias, va);
    WalkMeetsLookup(m, t, StartLevel(ias), StartShift(ias), ias - StartShift(ias), ias, va);
  }

  /** The walk of an address from the root of a table. */
  function Walked(m: Memory, t: Tree, ias: nat, va: nat): WalkResult
    requires IasOk(ias)
  {
    WalkFrom(m, t.page, StartLevel(ias), StartShift(ias), ias - StartShift(ias), ias, va)
  }

  /** What the walker makes of an unmapped address: the error status if and only if the empty
      entry is in a table of level 3, provided nothing lies at address 0. Otherwise it reads
      on at address 0, and answers whatever it finds there. */
  lemma {:induction false} WalkerUnmapped(m: Memory, t: Tree, ias: nat, va: nat)
    requires IasOk(ias) && WalkerAligned(ias) && TableAt(m, t, ias) && va < Pow2(ias)
    requires Lookup(t, StartLevel(ias), va / 0x1000) == None
    ensures var e, w := EmptyLevel(t, StartLevel(ias), va / 0x1000), Walked(m, t, ias, va);
            && e <= 3
            && (e == 3 ==> w == NotMapped)
            && (e < 3 ==> w == WalkFrom(m, 0, e + 1, 12 + 9 * (2 - e), 9, ias, va))
            && (0 !in m ==> (w == NotMapped <==> e == 3) && (w == Fault <==> e < 3))
  {
    hide Wf, Rep, Lookup, Num, InRange, Pow2, StartLevel, StartShift, Levels, NineBits, And, Shr, EmptyLevel;
    StartFacts(ias);
    RootNineBits(ias, va);
    WalkUnmapped(m, t, StartLevel(ias), StartShift(ias), ias - StartShift(ias), ias, va);
  }

  /** With words at address 0 the walker returns success and their attributes for an address
      that an empty table does not map. */
  lemma {:induction false} NullTableRead(word: nat)
    requires IsBlock(word)
    ensures var t := ZeroTable(0x1000);
            var m: Memory := map[0x1000 := seq(512, _ => 0), 0 := seq(512, _ => word)];
            && TableAt(m, t, 48) && Lookup(t, StartLevel(48), 0) == None
            && Walked(m, t, 48, 0) == Found(Attributes(word))
  {
    hide And, Pow2, Shr, IsBlock, Attributes, AddressMask, Wf, Rep, InRange, WalkFrom, Pages;
    var t := ZeroTable(0x1000);
    var m: Memory := map[0x1000 := seq(512, _ => 0), 0 := seq(512, _ => word)];
    assert StartLevel(48) == 0;
    FirstPageOk();
    ZeroTableOk(m, 0x1000, 0, 48);
    ZeroTableInRange(0x1000, 48);
    PowBelow(48);
    assert Lookup(t, 0, 0) == None;
    WalkerUnmapped(m, t, 48, 0);
    assert EmptyLevel(t, 0, 0) == 0;
    NullRead(m, word);
  }

  lemma FirstPageOk()
    ensures PageOk(0x1000, 48)
  {
    hide Pow2;
    PowMono(21, 48);
    PowAdd(9, 12);
    PowValues();
  }

  lemma NullRead(m: Memory, word: nat)
    requires IsBlock(word) && 0 in m && m[0] == seq(512, _ => word)
    ensures WalkFrom(m, 0, 1, 30, 9, 48, 0) == Found(Attributes(word))
  {
    hide And, Pow2, Shr, IsBlock, Attributes, AddressMask;
    ShiftZero(30);
    AndZero(Pow2(9) - 1);
  }

  lemma PowBelow(ias: nat)
    ensures 0 < Pow2(ias)
  {
  }

  lemma {:induction false} ShiftZero(n: nat)
    ensures Shr(0, n) == 0
  {
    ShrIsDiv(0, n);
  }

  /** A chain of tables from level l down that maps virtual page 1 and nothing else. */
  function Chain(l: nat, page: nat): Tree
    decreases 3 - l
  {
    if l >= 3 then Tree(page, seq(512, i => if i == 1 then Leaf(0, 0) else Empty))
    else Tree(page, seq(512, i => if i == 0 then Sub(Chain(l + 1, page + 0x1000)) else Empty))
  }

  function ChainWords(l: nat, page: nat): seq<nat> {
    seq(512, i requires 0 <= i < 512 => Word(Chain(l, page).entries[i], l))
  }

  function ChainMemory(l: nat, page: nat): Memory
    decreases 3 - l
  {
    if l >= 3 then map[page := ChainWords(l, page)]
    else ChainMemory(l + 1, page + 0x1000)[page := ChainWords(l, page)]
  }

  lemma {:induction false} ChainPages(l: nat, page: nat)
    requires l <= 3
    ensures ChainMemory(l, page).Keys == Pages(Chain(l, page))
    ensures forall p :: p in Pages(Chain(l, page)) ==> page <= p
    decreases 3 - l
  {
    var t := Chain(l, page);
    if l < 3 {
      ChainPages(l + 1, page + 0x1000);
      KidPagesTail(t.entries, 1, 512);
      assert KidPages(t.entries, 1) == KidPages(t.entries, 0) + PagesOf(t.entries[0]);
    } else {
      EmptyKidsOf(t.entries, 512);
    }
  }

  lemma {:induction false} EmptyKidsOf(es: seq<Entry>, k: nat)
    requires k <= |es| && forall i :: 0 <= i < |es| ==> !es[i].Sub?
    ensures KidPages(es, k) == {}
  {
    if k > 0 { EmptyKidsOf(es, k - 1); }
  }

  lemma {:induction false} ChainTable(l: nat, page: nat, ias: nat)
    requires l <= 3 && IasOk(ias) && page % 0x1000 == 0 && 0 < page && page + 0x1000 * (3 - l) < Pow2(ias)
    ensures Wf(Chain(l, page), l, ias) && NonEmpty(Chain(l, page))
    decreases 3 - l
  {
    var t := Chain(l, page);
    if l < 3 {
      ChainTable(l + 1, page + 0x1000, ias);
      ChainPages(l + 1, page + 0x1000);
      assert !t.entries[0].Empty?;
      assert EntryOk(t.entries[0], l, ias, page);
    } else {
      assert !t.entries[1].Empty?;
      AttrZero();
      SpanValues();
    }
  }

  lemma AttrZero()
    ensures AttrOk(0)
  {
    AndZero(ATTRIBUTES_MASK);
  }

  lemma {:induction false} ChainImage(l: nat, page: nat)
    requires l <= 3
    ensures Rep(ChainMemory(l, page), Chain(l, page), l)
    decreases 3 - l
  {
    hide Pages, Word;
    var t := Chain(l, page);
    if l < 3 {
      ChainImage(l + 1, page + 0x1000);
      ChainPages(l + 1, page + 0x1000);
      RepFrame(ChainMemory(l + 1, page + 0x1000), ChainMemory(l, page), Chain(l + 1, page + 0x1000), l + 1);
      assert t.entries[0] == Sub(Chain(l + 1, page + 0x1000));
    }
  }

  lemma {:induction false} ChainLookup(l: nat, page: nat, vp: nat)
    requires l <= 3
    ensures Lookup(Chain(l, page), l, vp).Some? ==> Index(3, vp) == 1 && (l < 3 ==> Num(l + 1, vp) % 512 == 0)
    ensures vp == 1 ==> Lookup(Chain(l, page), l, vp) == Some(Mapping(0, 0))
    decreases 3 - l
  {
    SpanValues();
    NumIsDiv(l + 1, vp);
    if l < 3 { ChainLookup(l + 1, page + 0x1000, vp); }
  }

  lemma ChainFirst(m: Memory, l: nat, page: nat)
    requires l <= 3 && Rep(m, Chain(l, page), l)
    ensures page in m && |m[page]| == 512
    ensures l < 3 ==> m[page][0] == TableDescriptor(page + 0x1000) && Rep(m, Chain(l + 1, page + 0x1000), l + 1)
    ensures l == 3 ==> m[page][0] == 0
  {
    var t := Chain(l, page);
    assert m[page][0] == Word(t.entries[0], l);
    if l < 3 { assert t.entries[0] == Sub(Chain(l + 1, page + 0x1000)); }
  }

  lemma ChainPageOk(l: nat, page: nat, ias: nat)
    requires l <= 3 && page % 0x1000 == 0 && 0 < page && page + 0x1000 * (3 - l) < Pow2(ias)
    ensures PageOk(page, ias)
  {
  }

  /** With a shift too large for its level the walker reads the empty entry 0 of the last
      table of the chain instead of the mapped entry 1. */
  lemma {:induction false} ChainMisread(m: Memory, l: nat, page: nat, shift: nat, nbits: nat, ias: nat)
    requires IasOk(ias) && l <= 3 && nbits <= 9 && shift >= 12 + 9 * (3 - l) && shift > 12
    requires l == 3 || shift - nbits > 12 + 9 * (2 - l)
    requires page % 0x1000 == 0 && 0 < page && page + 0x1000 * (3 - l) < Pow2(ias)
    requires Rep(m, Chain(l, page), l)
    ensures WalkFrom(m, page, l, shift, nbits, ias, 0x1000) == NotMapped
    decreases 3 - l
  {
    hide And, Pow2, Shr, Rep, Chain, AddressMask, TableDescriptor, IsBlock, IsPage;
    ShiftAway(shift);
    AndZero(Pow2(nbits) - 1);
    ChainFirst(m, l, page);
    if l < 3 {
      ChainPageOk(l + 1, page + 0x1000, ias);
      TableWord(page + 0x1000, ias);
      ChainMisread(m, l + 1, page + 0x1000, shift - nbits, 9, ias);
    } else {
      ZeroWord();
    }
  }

  lemma {:induction false} ShiftAway(shift: nat)
    requires shift > 12
    ensures Shr(0x1000, shift) == 0
  {
    ShrIsDiv(0x1000, shift);
    PowMono(13, shift);
    assert Pow2(13) == 2 * Pow2(12);
    PowValues();
    DivUnique(0x1000, Pow2(shift), 0, 0x1000);
  }

  lemma {:induction false} ChainInRange(ias: nat)
    requires IasOk(ias) && StartLevel(ias) < 3
    ensures InRange(Chain(StartLevel(ias), 0x1000), ias)
  {
    PowBelow(ias - StartShift(ias));
  }

  /** The walker meets the builder's tables for every mapped address exactly at the input
      sizes where ias - 12 is a multiple of nine or one table suffices. At any other size a
      table that maps page 1 makes it report that page as not mapped. */
  lemma {:induction false} WalkerRightIff(ias: nat)
    requires IasOk(ias)
    ensures WalkerAligned(ias) <==>
            forall m: Memory, t: Tree, va: nat ::
              TableAt(m, t, ias) && va < Pow2(ias) && Lookup(t, StartLevel(ias), va / 0x1000).Some? ==> WalkerRight(m, t, ias, va)
  {
    hide TableAt, WalkerRight, Pow2, StartLevel, StartShift, Levels, Lookup;
    if WalkerAligned(ias) {
      forall m: Memory, t: Tree, va: nat | TableAt(m, t, ias) && va < Pow2(ias) && Lookup(t, StartLevel(ias), va / 0x1000).Some?
        ensures WalkerRight(m, t, ias, va)
      {
        WalkerIsRight(m, t, ias, va);
      }
    } else {
      WalkerWrong(ias);
    }
  }

  lemma {:induction false} WalkerWrong(ias: nat)
    requires IasOk(ias) && !WalkerAligned(ias)
    ensures var l := StartLevel(ias);
            var m, t := ChainMemory(l, 0x1000), Chain(l, 0x1000);
            && TableAt(m, t, ias) && 0x1000 < Pow2(ias)
            && Lookup(t, l, 1) == Some(Mapping(0, 0)) && Walked(m, t, ias, 0x1000) == NotMapped && !WalkerRight(m, t, ias, 0x1000)
  {
    hide Lookup, WalkFrom, Wf, Rep, Pow2, StartLevel, StartShift, Levels, Pages, InRange, ChainMemory;
    var l := StartLevel(ias);
    StartFacts(ias);
    AlignedBits(ias);
    assert Pow2(ias) > 0x4000 by { PowMono(21, ias); PowAdd(9, 12); PowValues(); }
    ChainTable(l, 0x1000, ias);
    ChainImage(l, 0x1000);
    ChainPages(l, 0x1000);
    ChainInRange(ias);
    ChainLookup(l, 0x1000, 1);
    ChainMisread(ChainMemory(l, 0x1000), l, 0x1000, StartShift(ias), ias - StartShift(ias), ias);
  }

  /** For every block at level 0, which hardware does not translate, the walker returns the region's
      attributes. */
  lemma {:induction false} TopWalked(m: Memory, s: State, m1: Memory, s1: State, g: Region, ias: nat, oas: nat, va: nat)
    requires IasOk(ias) && Added(m, s, m1, s1, g, ias, oas) && StartLevel(ias) == 0 && WalkerAligned(ias) && va < Pow2(ias)
    requires var r := RegionRun(g, ias);
             r.lo < r.touched <= Pow2(ias - 12) && Blockable(0, r) && r.lo <= va / 0x1000 < r.lo + Span(1)
    ensures Walked(m1, s1.tree, ias, va) == Found(g.attr) && Translate(m1, s1.tree.page, 0, va) == None
  {
    hide Lookup, Translate, Built, Sound, TableAt, Pow2, WalkFrom, RegionRun, Span, Blockable;
    TopBlock(m, s, m1, s1, g, ias, oas, va);
    WalkerIsRight(m1, s1.tree, ias, va);
  }

  // ---- Build, then walk ----

  /** Creating a table is adding the region to its root. */
  lemma CreatedAdds(m: Memory, m1: Memory, g: Region, root: Entry, ias: nat, oas: nat, c: Counters, pool: seq<nat>)
    requires IasOk(ias) && RootOk(root, ias, pool) && CountersOk(c, StartLevel(ias)) && g.length > 0
    requires Accepted(g, oas) ==> RunOk(RegionRun(g, ias))
    requires Created(g, root, ias, oas, c, pool).Some? && TableAt(m1, Created(g, root, ias, oas, c, pool).value.tree, ias)
    requires TableAt(m, Under(root, pool).value.0, ias)
    ensures var u := Under(root, pool).value;
            Added(m, State(u.0, c, u.1, {}), m1, Created(g, root, ias, oas, c, pool).value, g, ias, oas)
  {
    hide Built, Sound, TableAt, CountersOk, RootOk, StartLevel, StartShift, RegionRun, RunOk, Under;
    StartFacts(ias);
    RootSound(root, ias, pool, c);
  }

  lemma NewRoot(pool: seq<nat>, ias: nat) returns (m: Memory)
    requires IasOk(ias) && RootOk(Empty, ias, pool) && pool != []
    ensures TableAt(m, ZeroTable(pool[0]), ias) && NothingMapped(ZeroTable(pool[0]), StartLevel(ias))
  {
    hide StartLevel, Levels, InRange, Wf, Rep, Pages, Pow2;
    StartFacts(ias);
    m := map[pool[0] := seq(512, _ => 0)];
    ZeroTableOk(m, pool[0], StartLevel(ias), ias);
    ZeroTableInRange(pool[0], ias);
  }

  lemma NewMappable(page: nat, g: Region, ias: nat)
    requires IasOk(ias) && Mappable(ZeroTable(0), g, ias)
    ensures Mappable(ZeroTable(page), g, ias)
  {
    hide RegionRun, Supported, StartLevel, Lookup;
    ZeroTableInRange(0, ias);
    ZeroTableInRange(page, ias);
  }

  /** What a new table for a region gives at an address. */
  lemma NewByte(m1: Memory, g: Region, ias: nat, oas: nat, c: Counters, pool: seq<nat>, va: nat)
    requires IasOk(ias) && Accepted(g, oas) && g.length > 0 && Mappable(ZeroTable(0), g, ias) && pool != []
    requires RootOk(Empty, ias, pool) && CountersOk(c, StartLevel(ias)) && NoClip(StartLevel(ias), RegionRun(g, ias), c)
    requires Created(g, Empty, ias, oas, c, pool).Some? && TableAt(m1, Created(g, Empty, ias, oas, c, pool).value.tree, ias)
    requires InRegion(g, ias, va) && va < Pow2(ias) && (g.length % 0x1000 == 1 ==> va != g.va % Pow2(ias) + g.length - 1)
    ensures var t := Created(g, Empty, ias, oas, c, pool).value.tree;
            && StartLevel(ias) <= 3 && Translate(m1, t.page, StartLevel(ias), va) == Wanted(g, ias, va)
            && Lookup(t, StartLevel(ias), va / 0x1000).Some? && Lookup(t, StartLevel(ias), va / 0x1000).value.attr == g.attr
  {
    hide TableAt, CountersOk, RootOk, StartLevel, StartShift, RegionRun, Mappable, Created, NoClip, Lookup, Translate,
         Added, Wanted, Pow2,
         ZeroTable;
    var m := NewRoot(pool, ias);
    NewMappable(pool[0], g, ias);
    MappableRun(g, ias);
    CreatedAdds(m, m1, g, Empty, ias, oas, c, pool);
    RegionPages(g, ias, va);
    MappedByte(m, State(ZeroTable(pool[0]), c, pool[1..], {}), m1, Created(g, Empty, ias, oas, c, pool).value, g, ias, oas, va);
    StartFacts(ias);
  }

  lemma MappableRun(g: Region, ias: nat)
    requires IasOk(ias) && Mappable(ZeroTable(0), g, ias)
    ensures RunOk(RegionRun(g, ias))
  {
  }

  /** Create a new table for a region and read an address back: with counters that do not
      clip the region, and pages enough, every byte of it (but for a last byte alone on its
      page) has the wanted output address, and the walker returns the region's attributes. */
  method {:induction false} BuildThenWalk(pt: PageTables, g: Region, ias: nat, oas: nat, va: nat) returns (w: WalkResult, base: nat)
    requires IasOk(ias) && WalkerAligned(ias) && Accepted(g, oas) && g.length > 0 && Mappable(ZeroTable(0), g, ias)
    requires pt.AllocatorOk(ias) && |pt.pool| >= 1 + RegionBudget(g, ias)
    requires CountersOk(pt.Carried(), StartLevel(ias)) && NoClip(StartLevel(ias), RegionRun(g, ias), pt.Carried())
    requires InRegion(g, ias, va) && va < Pow2(ias)
    requires g.length % 0x1000 == 1 ==> va != g.va % Pow2(ias) + g.length - 1
    modifies pt
    ensures w == Found(g.attr)
    ensures Translate(pt.mem, base, StartLevel(ias), va) == Wanted(g, ias, va)
  {
    hide Wf, Rep, Lookup, Translate, Pages, InRange, Pow2, StartLevel, StartShift, Levels, RegionRun, Created, Wanted, InRegion,
         Mappable, TableAt, PageOk, Elems, PoolOk, RegionBudget, WalkFrom, NoClip, CountersOk, ZeroTable, RunOk,
         RootOk, Accepted, Stored;
    ghost var s;
    var ok;
    ghost var c, pool := pt.Carried(), pt.pool;
    EmptyRoot(pool, pt.mem.Keys, ias);
    MappableRun(g, ias);
    CreatedWithin(g, Empty, ZeroTable(0), ias, oas, c, pool);
    ok, base, s := pt.Create(g, 0, ias, oas, ZeroTable(0));
    NewByte(pt.mem, g, ias, oas, c, pool, va);
    WalkerIsRight(pt.mem, s.tree, ias, va);
    w := pt.GetAttributes(base, ias, va);
  }

  lemma EmptyRoot(pool: seq<nat>, used: set<nat>, ias: nat)
    requires IasOk(ias) && PoolOk(pool, used, ias)
    ensures RootOk(Empty, ias, pool)
  {
  }
}

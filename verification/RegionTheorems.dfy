/** What adding one region to a table does, in byte addresses, for every accepted region: when it
    is right, and what becomes of the regions the builder does not support. */
module RegionTheorems {
  import opened Common
  import opened Bits
  import opened Descriptors
  import opened PageTree
  import opened FillSpec
  import opened CounterProof
  import opened BuildSteps
  import opened Builder
  import opened Landing
  import opened Placement
  import opened Walk
  import opened Regions
  import opened Pgt

  // ---- One region ----

  /** va, an ias-bit address, lies in the region. */
  predicate InRegion(g: Region, ias: nat, va: nat) {
    g.va % Pow2(ias) <= va < g.va % Pow2(ias) + g.length
  }

  predicate InRun(r: Run, vp: nat) { r.lo <= vp < r.touched }

  /** The bytes of a region lie in the pages of its run, except a last byte that is alone
      on its page. */
  lemma RegionPages(g: Region, ias: nat, va: nat)
    requires IasOk(ias) && g.va % 0x1000 == 0 && g.length > 0 && InRegion(g, ias, va)
    ensures var r := RegionRun(g, ias);
            && r.lo <= va / 0x1000 <= r.touched && r.lo * 0x1000 == g.va % Pow2(ias)
            && (va / 0x1000 == r.touched <==> g.length % 0x1000 == 1 && va == g.va % Pow2(ias) + g.length - 1)
  {
    hide Pow2, RegionRun;
    RegionBytes(g, ias);
    var base := g.va % Pow2(ias);
    BytePages(base / 0x1000, base, g.length, va);
  }

  lemma BytePages(p: nat, base: nat, length: nat, va: nat)
    requires base == p * 0x1000 && base <= va < base + length
    ensures base / 0x1000 == p <= va / 0x1000 <= (base + length - 1 + 0xFFF) / 0x1000
    ensures va / 0x1000 == (base + length - 1 + 0xFFF) / 0x1000 <==> length % 0x1000 == 1 && va == base + length - 1
  {
    var q, r := DivParts(length - 1, 0x1000);
    var k, m := DivParts(va - base, 0x1000);
    DivUnique(base, 0x1000, p, 0);
    DivUnique(va, 0x1000, p + k, m);
    if r == 0 {
      DivUnique(base + length - 1 + 0xFFF, 0x1000, p + q, 0xFFF);
      LengthOne(length, q);
    } else {
      DivUnique(base + length - 1 + 0xFFF, 0x1000, p + q + 1, r - 1);
      LengthMore(length, q, r);
    }
  }

  lemma LengthOne(length: nat, q: nat)
    requires length == q * 0x1000 + 1
    ensures length % 0x1000 == 1
  {
    DivUnique(length, 0x1000, q, 1);
  }

  lemma LengthMore(length: nat, q: nat, r: nat)
    requires length == q * 0x1000 + r + 1 && 0 < r < 0x1000
    ensures length % 0x1000 != 1
  {
    if r < 0xFFF { DivUnique(length, 0x1000, q, r + 1); } else { DivUnique(length, 0x1000, q + 1, 0); }
  }

  /** Each page of the run holds a byte of the region, its first. */
  lemma PageInRegion(g: Region, ias: nat, vp: nat)
    requires IasOk(ias) && g.va % 0x1000 == 0 && g.length > 0 && InRun(RegionRun(g, ias), vp)
    ensures InRegion(g, ias, vp * 0x1000)
  {
    hide Pow2;
    TruncatedAligned(g.va, ias);
    var base := g.va % Pow2(ias);
    assert RegionRun(g, ias).touched == (base + g.length - 1 + 0xFFF) / 0x1000;
  }

  /** The translation the region asks for. */
  function Wanted(g: Region, ias: nat, va: nat): Option<Mapping>
    requires InRegion(g, ias, va)
  {
    Some(Mapping(g.pa + (va - g.va % Pow2(ias)), g.attr))
  }

  /** Every byte of the region is translated as wanted. */
  ghost predicate AllTranslated(m: Memory, base: nat, g: Region, ias: nat)
    requires IasOk(ias)
  {
    forall va: nat :: InRegion(g, ias, va) ==> Translate(m, base, StartLevel(ias), va) == Wanted(g, ias, va)
  }

  // ---- Adding a region ----

  /** The builder added region g to the table of s in memory m; m1 holds the table of s1 it left. */
  ghost predicate Added(m: Memory, s: State, m1: Memory, s1: State, g: Region, ias: nat, oas: nat)
    requires IasOk(ias)
  {
    var l, nbits, r := StartLevel(ias), ias - StartShift(ias), RegionRun(g, ias);
    && l <= 3 && 1 <= nbits <= 9 && Accepted(g, oas) && g.length > 0 && RunOk(r) && CountersOk(s.counters, l)
    && Sound(s, l, ias) && TableAt(m, s.tree, ias) && TableAt(m1, s1.tree, ias) && Built(l, nbits, r, s) == Some(s1)
  }

  /** The run has its own entries in the root table, each once. */
  lemma {:induction false} RootRun(r: Run, ias: nat)
    requires IasOk(ias) && r.touched <= Pow2(ias - 12)
    ensures StartLevel(ias) <= 3 && 1 <= ias - StartShift(ias) <= 9
    ensures InTable(StartLevel(ias), ias - StartShift(ias), r) && Once(StartLevel(ias), ias - StartShift(ias), r)
  {
    hide Pow2, Num, Span, StartLevel, StartShift;
    StartFacts(ias);
    RootPages(ias);
    if r.lo < r.touched {
      RootWindow(ias, r.lo);
      RootWindow(ias, r.touched - 1);
    }
  }

  lemma {:induction false} RootPages(ias: nat)
    requires IasOk(ias)
    ensures StartLevel(ias) <= 3 && Pow2(ias - 12) == Pow2(ias - StartShift(ias)) * Span(StartLevel(ias) + 1)
  {
    hide Pow2, Span, StartLevel, StartShift;
    StartFacts(ias);
    BlockBytes(StartLevel(ias));
    PowPage(StartShift(ias));
    PowAdd(ias - StartShift(ias), StartShift(ias) - 12);
  }

  lemma {:induction false} RootSlot(ias: nat, vp: nat)
    requires IasOk(ias) && vp < Pow2(ias - 12)
    ensures 1 <= ias - StartShift(ias) <= 9 && Slot(StartLevel(ias), ias - StartShift(ias), vp) == Index(StartLevel(ias), vp)
    ensures Num(StartLevel(ias), vp) == 0
  {
    hide Pow2, Num, StartLevel, StartShift;
    StartFacts(ias);
    RootWindow(ias, vp);
    var nbits, q := ias - StartShift(ias), Num(StartLevel(ias) + 1, vp);
    PowMono(nbits, 9);
    PowValues();
    DivUnique(q, Pow2(nbits), 0, q);
    DivUnique(q, 512, 0, q);
  }

  /** What a page translates to after the region was added. */
  lemma AddedLooks(m: Memory, s: State, m1: Memory, s1: State, g: Region, ias: nat, oas: nat, vp: nat)
    requires IasOk(ias) && Added(m, s, m1, s1, g, ias, oas) && vp < Pow2(ias - 12)
    requires Once(StartLevel(ias), ias - StartShift(ias), RegionRun(g, ias))
    ensures Looks(StartLevel(ias), ias - StartShift(ias), RegionRun(g, ias), s, s1, vp)
  {
    hide Pow2, Num, StartLevel, StartShift, RegionRun, Sound, TableAt, Built, Once, Looks, Slot, Index;
    RootSlot(ias, vp);
    BuiltLooks(StartLevel(ias), ias - StartShift(ias), ias, RegionRun(g, ias), s, vp);
  }

  lemma AddedFills(m: Memory, s: State, m1: Memory, s1: State, g: Region, ias: nat, oas: nat)
    requires IasOk(ias) && Added(m, s, m1, s1, g, ias, oas) && Mappable(s.tree, g, ias)
    ensures RunOk(RegionRun(g, ias)) && Filled(s.tree, s1.tree, StartLevel(ias), 0, RegionRun(g, ias), s.counters, s1.counters)
  {
    hide Pow2, StartLevel, StartShift, RegionRun, Sound, TableAt, Built, Fillable, Filled, Mappable, InSlots;
    RootFillable(s.tree, g, ias, s.counters);
    BuiltFills(StartLevel(ias), ias - StartShift(ias), ias, 0, RegionRun(g, ias), s);
  }

  /** Hardware reads the image of the table. */
  lemma AddedReads(m: Memory, s: State, m1: Memory, s1: State, g: Region, ias: nat, oas: nat, va: nat)
    requires IasOk(ias) && Added(m, s, m1, s1, g, ias, oas)
    ensures StartLevel(ias) <= 3
    ensures Translate(m, s.tree.page, StartLevel(ias), va) == TreeTranslate(s.tree, StartLevel(ias), va)
    ensures Translate(m1, s1.tree.page, StartLevel(ias), va) == TreeTranslate(s1.tree, StartLevel(ias), va)
  {
    hide Wf, Rep, Translate, TreeTranslate, StartLevel, StartShift, Built, Sound, RegionRun, InRange;
    ImageTranslates(m, s.tree, StartLevel(ias), ias, va);
    ImageTranslates(m1, s1.tree, StartLevel(ias), ias, va);
  }

  // ---- Leaves of level 0 ----

  /** Both tables have the same leaves. */
  predicate SameLeaves(t: Tree, t': Tree) {
    |t.entries| == |t'.entries| && forall i :: 0 <= i < |t.entries| && (t.entries[i].Leaf? || t'.entries[i].Leaf?) ==>
        t'.entries[i] == t.entries[i]
  }

  /** The run selects no entry that is a leaf. */
  predicate NoLeafUnder(t: Tree, nbits: nat, r: Run)
    requires nbits <= 9
  {
    forall vp: nat :: r.lo <= vp < r.touched ==> !At(t, Slot(0, nbits, vp)).Leaf?
  }

  /** At level 0 a run that does not start with a block leaves every leaf alone, and adds none. */
  lemma {:induction false} TopKept(nbits: nat, r: Run, s: State)
    requires nbits <= 9 && !Blockable(0, r) && NoLeafUnder(s.tree, nbits, r) && Built(0, nbits, r, s).Some?
    ensures SameLeaves(s.tree, Built(0, nbits, r, s).value.tree)
    decreases r.touched - r.lo
  {
    hide Built, Stepped, Span, Slot, Blockable;
    if r.lo >= r.touched {
      BuiltNone(0, nbits, r, s);
    } else {
      BuiltStep(0, nbits, r, s);
      TopStep(nbits, r, s);
      NotBlockNext(r);
      TopKept(nbits, From(r, r.lo + Span(1)), Stepped(0, nbits, r, s).value);
    }
  }

  lemma TopStep(nbits: nat, r: Run, s: State)
    requires nbits <= 9 && r.lo < r.touched && !Blockable(0, r) && NoLeafUnder(s.tree, nbits, r) && Stepped(0, nbits, r, s).Some?
    ensures var s1 := Stepped(0, nbits, r, s).value; SameLeaves(s.tree, s1.tree) && NoLeafUnder(s1.tree, nbits, r)
  {
    hide Built, Span, Slot, Blockable, Increment;
    assert !At(s.tree, Slot(0, nbits, r.lo)).Leaf?;
  }

  /** A region that can be mapped leaves the leaves of level 0 as they were. */
  lemma AddedTop(m: Memory, s: State, m1: Memory, s1: State, g: Region, ias: nat, oas: nat)
    requires IasOk(ias) && Added(m, s, m1, s1, g, ias, oas) && Mappable(s.tree, g, ias) && StartLevel(ias) == 0
    ensures SameLeaves(s.tree, s1.tree)
  {
    hide Pow2, StartShift, RegionRun, Sound, TableAt, Built, Num, Slot, RegionDomain, AttrOk, CountersOk;
    var nbits, r := ias - StartShift(ias), RegionRun(g, ias);
    if r.lo >= r.touched {
      BuiltNone(0, nbits, r, s);
    } else {
      forall vp: nat | r.lo <= vp < r.touched ensures !At(s.tree, Slot(0, nbits, vp)).Leaf? {
        RootSlot(ias, vp);
        assert Lookup(s.tree, 0, vp) == None;
      }
      TopKept(nbits, r, s);
    }
  }

  // ---- Regions that can be mapped ----

  /** After a region that can be mapped was added: every byte of the region that hardware
      translates is translated as wanted, and every address whose page is not the region's
      is translated as before. */
  lemma RegionSound(m: Memory, s: State, m1: Memory, s1: State, g: Region, ias: nat, oas: nat, va: nat)
    requires IasOk(ias) && Added(m, s, m1, s1, g, ias, oas) && Mappable(s.tree, g, ias) && va < Pow2(ias)
    ensures var r, now := RegionRun(g, ias), Translate(m1, s1.tree.page, StartLevel(ias), va);
            && (InRegion(g, ias, va) && InRun(r, va / 0x1000) ==> now == None || now == Wanted(g, ias, va))
            && (!InRun(r, va / 0x1000) ==> now == Translate(m, s.tree.page, StartLevel(ias), va))
  {
    hide Added, Lookup, Translate, Pow2, StartLevel, StartShift, RegionRun, Mappable, TreeTranslate, InRegion, Wanted,
         ToBytes, SameLeaves;
    var l, r, vp := StartLevel(ias), RegionRun(g, ias), va / 0x1000;
    AddedAgrees(m, s, m1, s1, g, ias, oas, va);
    AddedReads(m, s, m1, s1, g, ias, oas, va);
    if InRun(r, vp) {
      if InRegion(g, ias, va) { InRegionWanted(s1.tree, g, ias, oas, va); }
    } else {
      if l == 0 { AddedTop(m, s, m1, s1, g, ias, oas); }
      SameTranslation(s.tree, s1.tree, l, va);
    }
  }

  lemma AddedAgrees(m: Memory, s: State, m1: Memory, s1: State, g: Region, ias: nat, oas: nat, va: nat)
    requires IasOk(ias) && Added(m, s, m1, s1, g, ias, oas) && Mappable(s.tree, g, ias) && va < Pow2(ias)
    ensures Accepted(g, oas) && g.length > 0 && PageAgrees(s.tree, s1.tree, StartLevel(ias), va / 0x1000, RegionRun(g, ias))
  {
    hide Lookup, Num, NoClip, Complete, After, Pow2, StartLevel, StartShift, RegionRun, AttrOk, Mappable, Built, Sound, TableAt,
         Accepted, CountersOk, PageAgrees;
    PageBelow(ias, va);
    RootSlot(ias, va / 0x1000);
    AddedFills(m, s, m1, s1, g, ias, oas);
  }

  lemma SameTranslation(t: Tree, t': Tree, l: nat, va: nat)
    requires l == 0 ==> SameLeaves(t, t')
    requires Lookup(t', l, va / 0x1000) == Lookup(t, l, va / 0x1000)
    ensures TreeTranslate(t', l, va) == TreeTranslate(t, l, va)
  {
  }

  /** A byte of the region whose page has the wanted frame has the wanted address. */
  lemma InRegionWanted(t: Tree, g: Region, ias: nat, oas: nat, va: nat)
    requires IasOk(ias) && Accepted(g, oas) && g.length > 0 && InRegion(g, ias, va)
    requires var r := RegionRun(g, ias); InRun(r, va / 0x1000)
    ensures var r, x := RegionRun(g, ias), Lookup(t, StartLevel(ias), va / 0x1000);
            && (x == Some(Mapping(r.op + (va / 0x1000 - r.lo), r.attr)) <==> ToBytes(x, va) == Wanted(g, ias, va))
            && (x == None ==> TreeTranslate(t, StartLevel(ias), va) == None)
            && (TreeTranslate(t, StartLevel(ias), va) == None || TreeTranslate(t, StartLevel(ias), va) == ToBytes(x, va))
  {
    hide Lookup, Pow2, StartLevel, RegionRun;
    RegionPages(g, ias, va);
    RegionStart(g, ias, oas);
  }

  lemma RegionStart(g: Region, ias: nat, oas: nat)
    requires IasOk(ias) && Accepted(g, oas)
    ensures RegionRun(g, ias).op * 0x1000 == g.pa && RegionRun(g, ias).attr == g.attr
  {
  }

  lemma {:induction false} PageBelow(ias: nat, va: nat)
    requires IasOk(ias) && va < Pow2(ias)
    ensures va / 0x1000 < Pow2(ias - 12)
  {
    PowPage(ias);
    QuotientBound(va, Pow2(ias - 12), 0x1000);
  }

  // ---- Blocks at level 0 ----

  /** A run that starts with a block at level 0 leaves that block in its entry. */
  lemma TopEntry(nbits: nat, ias: nat, r: Run, s: State)
    requires nbits <= 9 && RunOk(r) && r.lo < r.touched && Blockable(0, r) && Once(0, nbits, r) && CountersOk(s.counters, 0)
    requires Sound(s, 0, ias) && Built(0, nbits, r, s).Some?
    ensures At(Built(0, nbits, r, s).value.tree, Slot(0, nbits, r.lo)) == Leaf(r.op, r.attr)
  {
    hide Built, Sound, Span, Slot, Blockable, CountersOk, AttrOk, Once, NonEmpty, Stepped;
    SoundParts(s, 0, ias);
    BuiltStep(0, nbits, r, s);
    SteppedLeaf(0, nbits, r, s);
    SteppedOwns(0, nbits, ias, r, s);
    LastsOn(0, nbits, ias, r, Stepped(0, nbits, r, s).value);
    PutAt(s.tree, Slot(0, nbits, r.lo), Leaf(r.op, r.attr));
  }

  lemma PutAt(t: Tree, i: nat, e: Entry)
    requires i < |t.entries|
    ensures At(Put(t, i, e), i) == e
  {
  }

  /** Wherever the builder can write a block at level 0 it does, and hardware translates none of the
      block's addresses: the architecture has no blocks at that level. */
  lemma TopBlock(m: Memory, s: State, m1: Memory, s1: State, g: Region, ias: nat, oas: nat, va: nat)
    requires IasOk(ias) && Added(m, s, m1, s1, g, ias, oas) && StartLevel(ias) == 0
    requires var r := RegionRun(g, ias);
             r.lo < r.touched <= Pow2(ias - 12) && Blockable(0, r) && r.lo <= va / 0x1000 < r.lo + Span(1)
    ensures Translate(m1, s1.tree.page, 0, va) == None
    ensures Lookup(s1.tree, 0, va / 0x1000) ==
            Some(Mapping(RegionRun(g, ias).op + (va / 0x1000 - RegionRun(g, ias).lo), g.attr))
  {
    hide Translate, Num, Pow2, StartShift, RegionRun, Span, Slot, Built, Sound, TableAt, CountersOk, AttrOk, Once, InTable;
    var nbits, r, vp := ias - StartShift(ias), RegionRun(g, ias), va / 0x1000;
    RootRun(r, ias);
    TopEntry(nbits, ias, r, s);
    RootSlot(ias, r.lo);
    NumAligned(1, r.lo, vp);
    RegionStart(g, ias, oas);
    AddedReads(m, s, m1, s1, g, ias, oas, va);
  }

  // ---- The exact condition ----

  lemma RunUnmapped(t: Tree, g: Region, ias: nat)
    requires IasOk(ias) && g.va % 0x1000 == 0 && g.length > 0
    requires forall va: nat :: InRegion(g, ias, va) ==> Lookup(t, StartLevel(ias), va / 0x1000) == None
    ensures Unmapped(t, StartLevel(ias), RegionRun(g, ias).lo, RegionRun(g, ias).touched)
  {
    hide Lookup, RegionRun, InRegion, StartLevel;
    var r := RegionRun(g, ias);
    forall vp: nat | r.lo <= vp < r.touched ensures Lookup(t, StartLevel(ias), vp) == None {
      PageInRegion(g, ias, vp);
      assert vp * 0x1000 / 0x1000 == vp;
    }
  }

  lemma {:induction false} RunInRange(g: Region, ias: nat)
    requires IasOk(ias) && g.va % 0x1000 == 0 && g.length > 0 && g.va % Pow2(ias) + g.length <= Pow2(ias)
    ensures RegionRun(g, ias).touched <= Pow2(ias - 12)
  {
    hide RegionRun, Pow2;
    RegionBytes(g, ias);
    PowPage(ias);
  }

  /** A byte whose translation is the wanted one has a page that landed in its own place. */
  lemma WantedLands(m: Memory, s: State, m1: Memory, s1: State, g: Region, ias: nat, oas: nat, va: nat)
    requires IasOk(ias) && Added(m, s, m1, s1, g, ias, oas) && va < Pow2(ias) && InRegion(g, ias, va)
    requires Once(StartLevel(ias), ias - StartShift(ias), RegionRun(g, ias)) && Lookup(s.tree, StartLevel(ias), va / 0x1000) == None
    requires Translate(m1, s1.tree.page, StartLevel(ias), va) == Wanted(g, ias, va)
    ensures Landed(StartLevel(ias), ias - StartShift(ias), RegionRun(g, ias), s.counters, va / 0x1000) == Some(va / 0x1000)
    ensures InRun(RegionRun(g, ias), va / 0x1000) && !TopLeaf(s1.tree, StartLevel(ias), va / 0x1000)
  {
    hide Lookup, Translate, Landed, Pow2, StartLevel, StartShift, RegionRun, Once, Added, TopLeaf;
    var l, nbits, r, vp := StartLevel(ias), ias - StartShift(ias), RegionRun(g, ias), va / 0x1000;
    PageBelow(ias, va);
    AddedLooks(m, s, m1, s1, g, ias, oas, vp);
    AddedReads(m, s, m1, s1, g, ias, oas, va);
    AddedRun(m, s, m1, s1, g, ias, oas);
    RegionPages(g, ias, va);
    RegionStart(g, ias, oas);
  }

  lemma AddedRun(m: Memory, s: State, m1: Memory, s1: State, g: Region, ias: nat, oas: nat)
    requires IasOk(ias) && Added(m, s, m1, s1, g, ias, oas)
    ensures StartLevel(ias) <= 3 && 1 <= ias - StartShift(ias) <= 9
    ensures Accepted(g, oas) && g.length > 0 && RunOk(RegionRun(g, ias)) && RegionRun(g, ias).whole <= RegionRun(g, ias).touched
  {
  }

  /** Only a supported region that the counters do not clip is translated as a whole. */
  lemma OnlySupported(m: Memory, s: State, m1: Memory, s1: State, g: Region, ias: nat, oas: nat)
    requires IasOk(ias) && Added(m, s, m1, s1, g, ias, oas) && g.va % Pow2(ias) + g.length <= Pow2(ias)
    requires forall va: nat :: InRegion(g, ias, va) ==> Lookup(s.tree, StartLevel(ias), va / 0x1000) == None
    requires AllTranslated(m1, s1.tree.page, g, ias)
    ensures var r := RegionRun(g, ias);
            r.lo < r.touched && Supported(r, ias) && NoClip(StartLevel(ias), r, s.counters) && g.length % 0x1000 != 1
  {
    hide Lookup, Translate, Landed, Pow2, StartLevel, StartShift, RegionRun, Once, Added, NoClip, RegionDomain, Shape, TopLeaf, InTable,
         Num, Blockable, Wanted;
    var l, nbits, r, base := StartLevel(ias), ias - StartShift(ias), RegionRun(g, ias), g.va % Pow2(ias);
    AddedRun(m, s, m1, s1, g, ias, oas);
    RunInRange(g, ias);
    RootRun(r, ias);
    WantedLands(m, s, m1, s1, g, ias, oas, base + g.length - 1);
    RegionPages(g, ias, base + g.length - 1);
    forall vp: nat | r.lo <= vp < r.touched ensures Landed(l, nbits, r, s.counters, vp) == Some(vp) {
      PageInRegion(g, ias, vp);
      assert vp * 0x1000 / 0x1000 == vp;
      WantedLands(m, s, m1, s1, g, ias, oas, vp * 0x1000);
    }
    LandsShape(l, nbits, r, s.counters);
    RunWindow(l, nbits, r);
    DomainIff(l, r);
    if l == 0 && Blockable(0, r) {
      PageInRegion(g, ias, r.lo);
      assert r.lo * 0x1000 / 0x1000 == r.lo;
      FirstOfBlock(r);
      TopBlock(m, s, m1, s1, g, ias, oas, r.lo * 0x1000);
      assert Translate(m1, s1.tree.page, l, r.lo * 0x1000) == Wanted(g, ias, r.lo * 0x1000);
      WantedSome(g, ias, r.lo * 0x1000);
    }
  }

  lemma WantedSome(g: Region, ias: nat, va: nat)
    requires InRegion(g, ias, va)
    ensures Wanted(g, ias, va).Some?
  {
  }

  lemma FirstOfBlock(r: Run)
    ensures r.lo < r.lo + Span(1)
  {
  }

  lemma RunWindow(l: nat, nbits: nat, r: Run)
    requires InTable(l, nbits, r) && r.lo < r.touched
    ensures Num(l, r.lo) == Num(l, r.touched - 1)
  {
  }

  /** A region of unmapped bytes within the input range is translated as wanted, all of it, if and
      only if the builder supports its run of pages, no part of it becomes a block at level 0, the
      counters carried into the call do not clip it, and it does not end in a single byte on a page
      of its own. */
  lemma RegionComplete(m: Memory, s: State, m1: Memory, s1: State, g: Region, ias: nat, oas: nat)
    requires IasOk(ias) && Added(m, s, m1, s1, g, ias, oas) && g.va % Pow2(ias) + g.length <= Pow2(ias)
    requires forall va: nat :: InRegion(g, ias, va) ==> Lookup(s.tree, StartLevel(ias), va / 0x1000) == None
    ensures var r := RegionRun(g, ias);
            AllTranslated(m1, s1.tree.page, g, ias) <==>
            r.lo < r.touched && Supported(r, ias) && NoClip(StartLevel(ias), r, s.counters) && g.length % 0x1000 != 1
  {
    hide Lookup, Translate, Pow2, StartLevel, StartShift, RegionRun, Added, NoClip, Supported, InRegion, Wanted;
    var l, r := StartLevel(ias), RegionRun(g, ias);
    AddedRun(m, s, m1, s1, g, ias, oas);
    if AllTranslated(m1, s1.tree.page, g, ias) {
      OnlySupported(m, s, m1, s1, g, ias, oas);
    }
    if r.lo < r.touched && Supported(r, ias) && NoClip(l, r, s.counters) && g.length % 0x1000 != 1 {
      forall va: nat | InRegion(g, ias, va) ensures Translate(m1, s1.tree.page, l, va) == Wanted(g, ias, va) {
        SupportedByte(m, s, m1, s1, g, ias, oas, va);
      }
    }
  }

  lemma SupportedByte(m: Memory, s: State, m1: Memory, s1: State, g: Region, ias: nat, oas: nat, va: nat)
    requires IasOk(ias) && Added(m, s, m1, s1, g, ias, oas) && g.va % Pow2(ias) + g.length <= Pow2(ias)
    requires forall va: nat :: InRegion(g, ias, va) ==> Lookup(s.tree, StartLevel(ias), va / 0x1000) == None
    requires var r := RegionRun(g, ias);
             r.lo < r.touched && Supported(r, ias) && NoClip(StartLevel(ias), r, s.counters) && g.length % 0x1000 != 1
    requires InRegion(g, ias, va)
    ensures Translate(m1, s1.tree.page, StartLevel(ias), va) == Wanted(g, ias, va)
  {
    hide Lookup, Translate, Pow2, StartLevel, StartShift, RegionRun, Added, NoClip, Supported, Wanted, AttrOk, Unmapped;
    AddedRun(m, s, m1, s1, g, ias, oas);
    RunUnmapped(s.tree, g, ias);
    RegionPages(g, ias, va);
    MappedByte(m, s, m1, s1, g, ias, oas, va);
  }

  /** A region that can be mapped and is not clipped: every byte on its pages is mapped, and
      hardware translates it as wanted. */
  lemma MappedByte(m: Memory, s: State, m1: Memory, s1: State, g: Region, ias: nat, oas: nat, va: nat)
    requires IasOk(ias) && Added(m, s, m1, s1, g, ias, oas) && Mappable(s.tree, g, ias) && va < Pow2(ias) && InRegion(g, ias, va)
    requires var r := RegionRun(g, ias); NoClip(StartLevel(ias), r, s.counters) && InRun(r, va / 0x1000)
    ensures var x := Lookup(s1.tree, StartLevel(ias), va / 0x1000); x.Some? && x.value.attr == g.attr
    ensures Translate(m1, s1.tree.page, StartLevel(ias), va) == Wanted(g, ias, va)
  {
    hide Lookup, Translate, Pow2, StartLevel, StartShift, RegionRun, Added, NoClip, Agrees, TreeTranslate, After, AttrOk,
         Wanted, ToBytes, InRegion, SameLeaves;
    var l, r, vp := StartLevel(ias), RegionRun(g, ias), va / 0x1000;
    AddedFills(m, s, m1, s1, g, ias, oas);
    assert Lookup(s1.tree, l, vp).Some?;
    AddedAgrees(m, s, m1, s1, g, ias, oas, va);
    AddedReads(m, s, m1, s1, g, ias, oas, va);
    InRegionWanted(s1.tree, g, ias, oas, va);
    RegionStart(g, ias, oas);
    if TopLeaf(s1.tree, l, vp) {
      AddedTop(m, s, m1, s1, g, ias, oas);
      TopLeafMapped(s.tree, s1.tree, vp);
      assert false;
    }
    NotTop(s1.tree, l, va);
  }

  lemma NotTop(t: Tree, l: nat, va: nat)
    requires !TopLeaf(t, l, va / 0x1000)
    ensures TreeTranslate(t, l, va) == ToBytes(Lookup(t, l, va / 0x1000), va)
  {
  }

  lemma TopLeafMapped(t: Tree, t': Tree, vp: nat)
    requires SameLeaves(t, t') && TopLeaf(t', 0, vp)
    ensures Lookup(t, 0, vp).Some?
  {
  }

  // ---- From zero counters ----

  /** Zero counters leave a supported region whole if and only if it lies in one 1 GiB window, or has
      2 MiB-aligned output addresses, or ends 2 MiB before the end of the second window. */
  lemma ZeroCountersIff(g: Region, ias: nat)
    requires IasOk(ias)
    requires var r := RegionRun(g, ias); RunOk(r) && r.lo < r.touched && Supported(r, ias)
    ensures var r := RegionRun(g, ias);
            && CountersOk(ZERO_COUNTERS, StartLevel(ias))
            && (NoClip(StartLevel(ias), r, ZERO_COUNTERS) <==> Smooth(r) || r.touched <= r.lo + 2 * Span(2) - Span(3))
  {
    hide NoClip, Shape, RegionRun, StartLevel, StartShift, Smooth, AttrOk, Span, RegionDomain, Num, Pow2, InTable, Once, Blockable;
    var l, r := StartLevel(ias), RegionRun(g, ias);
    RootRun(r, ias);
    RunWindow(l, ias - StartShift(ias), r);
    DomainIff(l, r);
    ZeroClips(l, r, ZERO_COUNTERS);
  }
}

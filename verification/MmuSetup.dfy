/** A list of regions, one create each, into one table. */
module MmuSetup {
  import opened Common
  import opened Bits
  import opened Descriptors
  import opened PageTree
  import opened FillSpec
  import opened Builder
  import opened Walk
  import opened Regions
  import opened Pgt
  import opened RegionTheorems

  // ---- Any list of regions ----

  /** The state after the first k creates, or nothing once one fails. */
  function SetUp(gs: seq<Region>, k: nat, ias: nat, oas: nat, s: State): Option<State>
    requires IasOk(ias) && k <= |gs|
  {
    if k == 0 then Some(s)
    else
      var before := SetUp(gs, k - 1, ias, oas, s);
      if before.None? then None
      else
        var p := before.value;
        var next := Created(gs[k - 1], Sub(p.tree), ias, oas, p.counters, p.pool);
        if next.None? then None else Some(next.value.(lost := p.lost + next.value.lost))
  }

  lemma {:induction false} SetUpStops(gs: seq<Region>, k: nat, n: nat, ias: nat, oas: nat, s: State)
    requires IasOk(ias) && k <= n <= |gs| && SetUp(gs, k, ias, oas, s) == None
    ensures SetUp(gs, n, ias, oas, s) == None
    decreases n
  {
    if k < n { SetUpStops(gs, k, n - 1, ias, oas, s); }
  }

  predicate RunsOk(gs: seq<Region>, ias: nat, oas: nat) {
    forall k :: 0 <= k < |gs| && gs[k].length > 0 && Accepted(gs[k], oas) ==> RunOk(RegionRun(gs[k], ias))
  }

  /** A sound state with a table for ias-bit addresses. */
  predicate Ready(s: State, ias: nat)
    requires IasOk(ias)
  {
    Sound(s, StartLevel(ias), ias) && InRange(s.tree, ias) && CountersOk(s.counters, StartLevel(ias))
  }

  lemma ReadyRoot(s: State, ias: nat)
    requires IasOk(ias) && Ready(s, ias)
    ensures RootOk(Sub(s.tree), ias, s.pool) && PagesOf(Sub(s.tree)) == Pages(s.tree) && CountersOk(s.counters, StartLevel(ias))
  {
    hide Wf, InRange, Pages, StartLevel, NoDup, PageOk;
    SubPages(Sub(s.tree));
  }

  /** One more create. */
  lemma CreatedReady(g: Region, s: State, ias: nat, oas: nat)
    requires IasOk(ias) && Ready(s, ias) && (g.length > 0 && Accepted(g, oas) ==> RunOk(RegionRun(g, ias)))
    requires Created(g, Sub(s.tree), ias, oas, s.counters, s.pool).Some?
    ensures var next := Created(g, Sub(s.tree), ias, oas, s.counters, s.pool).value;
            var s1 := next.(lost := s.lost + next.lost);
            && Ready(s1, ias) && Total(s1) == Total(s) && s1.tree.page == s.tree.page
            && s.lost <= s1.lost && Elems(s1.pool) <= Elems(s.pool)
  {
    hide Wf, InRange, Pages, StartLevel, NoDup, PageOk, CountersOk, Created, RegionRun, RunOk, RootOk, PagesOf, Elems;
    ReadyRoot(s, ias);
    CreatedOwns(g, Sub(s.tree), ias, oas, s.counters, s.pool);
  }

  /** Whatever regions are mapped, over whatever is there: no page appears or disappears, and
      tables, lost and free pages stay apart. */
  lemma {:induction false} SetUpOwns(gs: seq<Region>, k: nat, ias: nat, oas: nat, s: State)
    requires IasOk(ias) && k <= |gs| && RunsOk(gs, ias, oas) && Ready(s, ias) && SetUp(gs, k, ias, oas, s).Some?
    ensures var s1 := SetUp(gs, k, ias, oas, s).value;
            && Ready(s1, ias) && Total(s1) == Total(s) && s1.tree.page == s.tree.page
            && s.lost <= s1.lost && Elems(s1.pool) <= Elems(s.pool)
  {
    hide Ready, Total, Created, RunOk, RegionRun, Elems, Accepted;
    if k > 0 {
      SetUpOwns(gs, k - 1, ias, oas, s);
      CreatedReady(gs[k - 1], SetUp(gs, k - 1, ias, oas, s).value, ias, oas);
    }
  }

  // ---- Regions that can all be mapped ----

  predicate Disjoint(a: Run, b: Run) { a.touched <= b.lo || b.touched <= a.lo }

  /** Regions that can be mapped one after the other: each on its own, none touching a
      page of another. */
  predicate RegionsOk(t: Tree, gs: seq<Region>, ias: nat, oas: nat)
    requires IasOk(ias)
  {
    && (forall k :: 0 <= k < |gs| ==> gs[k].length > 0 && Accepted(gs[k], oas) && Mappable(t, gs[k], ias))
    && (forall j, k :: 0 <= j < k < |gs| ==> Disjoint(RegionRun(gs[j], ias), RegionRun(gs[k], ias)))
  }

  /** The pages of the first k regions are unmapped or rightly mapped, all others as in t. */
  ghost predicate MappedUpTo(t: Tree, t': Tree, gs: seq<Region>, k: nat, ias: nat)
    requires IasOk(ias) && k <= |gs|
  {
    && (forall j, vp: nat :: 0 <= j < k && InRun(RegionRun(gs[j], ias), vp) ==> RightOrNone(t', RegionRun(gs[j], ias), vp, ias))
    && (forall vp: nat :: Num(StartLevel(ias), vp) == 0 && Outside(gs, k, vp, ias) ==>
          Lookup(t', StartLevel(ias), vp) == Lookup(t, StartLevel(ias), vp))
  }

  predicate RightOrNone(t: Tree, r: Run, vp: nat, ias: nat)
    requires IasOk(ias) && InRun(r, vp)
  {
    var m := Lookup(t, StartLevel(ias), vp);
    m == None || m == Some(Mapping(r.op + (vp - r.lo), r.attr))
  }

  predicate Outside(gs: seq<Region>, k: nat, vp: nat, ias: nat)
    requires k <= |gs|
  {
    forall j :: 0 <= j < k ==> !InRun(RegionRun(gs[j], ias), vp)
  }

  lemma RunInWindow(t: Tree, g: Region, ias: nat, vp: nat)
    requires IasOk(ias) && Mappable(t, g, ias) && InRun(RegionRun(g, ias), vp)
    ensures Num(StartLevel(ias), vp) == 0
  {
    hide Num, Pow2, RegionRun, RegionDomain, StartLevel;
    RootWindow(ias, vp);
  }

  /** A region apart from those mapped so far is still unmapped. */
  lemma StillMappable(t: Tree, t': Tree, gs: seq<Region>, k: nat, ias: nat, oas: nat)
    requires IasOk(ias) && RegionsOk(t, gs, ias, oas) && k < |gs| && MappedUpTo(t, t', gs, k, ias)
    ensures Mappable(t', gs[k], ias)
  {
    hide Num, Pow2, RegionRun, RegionDomain, StartLevel, Lookup, AttrOk;
    var l, r := StartLevel(ias), RegionRun(gs[k], ias);
    forall vp: nat | r.lo <= vp < r.touched
      ensures Lookup(t', l, vp) == None
    {
      RunInWindow(t, gs[k], ias, vp);
      assert Outside(gs, k, vp, ias);
      assert Lookup(t, l, vp) == None;
    }
  }

  lemma MapOneMore(t: Tree, t1: Tree, t2: Tree, gs: seq<Region>, k: nat, ias: nat, oas: nat, c: Counters, c': Counters)
    requires IasOk(ias) && RegionsOk(t, gs, ias, oas) && k < |gs| && MappedUpTo(t, t1, gs, k, ias)
    requires RunOk(RegionRun(gs[k], ias)) && Filled(t1, t2, StartLevel(ias), 0, RegionRun(gs[k], ias), c, c')
    ensures MappedUpTo(t, t2, gs, k + 1, ias)
  {
    hide Num, Pow2, RegionRun, RegionDomain, StartLevel, Lookup, NoClip, After, Complete, AttrOk, Mappable;
    var l, r := StartLevel(ias), RegionRun(gs[k], ias);
    forall j, vp: nat | 0 <= j < k + 1 && InRun(RegionRun(gs[j], ias), vp)
      ensures RightOrNone(t2, RegionRun(gs[j], ias), vp, ias)
    {
      assert Mappable(t, gs[j], ias);
      RunInWindow(t, gs[j], ias, vp);
      assert PageAgrees(t1, t2, l, vp, r);
      if j < k {
        assert Disjoint(RegionRun(gs[j], ias), r);
        assert RightOrNone(t1, RegionRun(gs[j], ias), vp, ias);
      }
    }
    forall vp: nat | Num(l, vp) == 0 && Outside(gs, k + 1, vp, ias)
      ensures Lookup(t2, l, vp) == Lookup(t, l, vp)
    {
      assert PageAgrees(t1, t2, l, vp, r);
      assert Outside(gs, k, vp, ias);
    }
  }

  /** The counters when region k comes up. */
  function CountersBefore(gs: seq<Region>, k: nat, ias: nat, c: Counters): Counters
    requires IasOk(ias) && k <= |gs|
  {
    if k == 0 then c else After(StartLevel(ias), RegionRun(gs[k - 1], ias), CountersBefore(gs, k - 1, ias, c))
  }

  /** Each of the first k regions is mapped as a whole exactly when the counters at its turn
      do not clip it. */
  ghost predicate WholeUpTo(t: Tree, gs: seq<Region>, k: nat, ias: nat, c: Counters)
    requires IasOk(ias) && k <= |gs|
  {
    forall j :: 0 <= j < k ==>
      var r := RegionRun(gs[j], ias);
      Complete(t, StartLevel(ias), r.lo, r.touched) <==> NoClip(StartLevel(ias), r, CountersBefore(gs, j, ias, c))
  }

  lemma WholeOneMore(t: Tree, t1: Tree, t2: Tree, gs: seq<Region>, k: nat, ias: nat, oas: nat, c0: Counters, c: Counters, c': Counters)
    requires IasOk(ias) && RegionsOk(t, gs, ias, oas) && k < |gs| && WholeUpTo(t1, gs, k, ias, c0) && c == CountersBefore(gs, k, ias, c0)
    requires RunOk(RegionRun(gs[k], ias)) && Filled(t1, t2, StartLevel(ias), 0, RegionRun(gs[k], ias), c, c')
    ensures WholeUpTo(t2, gs, k + 1, ias, c0) && c' == CountersBefore(gs, k + 1, ias, c0)
  {
    hide Num, Pow2, RegionRun, RegionDomain, StartLevel, Lookup, NoClip, After, AttrOk, Mappable, Complete, Agrees;
    var l, r := StartLevel(ias), RegionRun(gs[k], ias);
    forall j | 0 <= j < k
      ensures var q := RegionRun(gs[j], ias); Complete(t2, l, q.lo, q.touched) <==> Complete(t1, l, q.lo, q.touched)
    {
      SamePages(t, t1, t2, gs[j], r, ias);
    }
  }

  /** A region apart from the one mapped keeps its translation. */
  lemma SamePages(t: Tree, t1: Tree, t2: Tree, g: Region, r: Run, ias: nat)
    requires IasOk(ias) && Mappable(t, g, ias) && Disjoint(RegionRun(g, ias), r)
             && Agrees(t1, t2, StartLevel(ias), StartLevel(ias), 0, r)
    ensures var q := RegionRun(g, ias); Complete(t2, StartLevel(ias), q.lo, q.touched) <==>
            Complete(t1, StartLevel(ias), q.lo, q.touched)
  {
    hide Num, Pow2, RegionRun, RegionDomain, StartLevel, Lookup, AttrOk, Mappable;
    var l, q := StartLevel(ias), RegionRun(g, ias);
    forall vp: nat | q.lo <= vp < q.touched ensures Lookup(t2, l, vp) == Lookup(t1, l, vp) {
      RunInWindow(t, g, ias, vp);
      assert PageAgrees(t1, t2, l, vp, r);
    }
  }

  lemma NoneMapped(t: Tree, gs: seq<Region>, ias: nat, c: Counters)
    requires IasOk(ias)
    ensures MappedUpTo(t, t, gs, 0, ias) && WholeUpTo(t, gs, 0, ias, c) && CountersBefore(gs, 0, ias, c) == c
  {
  }

  /** Regions apart from each other that can each be mapped: every page of a region is mapped rightly
      or not at all, every other page as before, a region is mapped as a whole exactly when
      the counters at its turn do not clip it, and no page is lost. */
  lemma {:induction false} SetUpMaps(gs: seq<Region>, k: nat, ias: nat, oas: nat, s: State)
    requires IasOk(ias) && k <= |gs| && RegionsOk(s.tree, gs, ias, oas) && Ready(s, ias) && SetUp(gs, k, ias, oas, s).Some?
    ensures var s1 := SetUp(gs, k, ias, oas, s).value;
            && MappedUpTo(s.tree, s1.tree, gs, k, ias) && WholeUpTo(s1.tree, gs, k, ias, s.counters)
            && s1.counters == CountersBefore(gs, k, ias, s.counters) && s1.lost == s.lost
  {
    hide Ready, Created, RunOk, RegionRun, Accepted, MappedUpTo, WholeUpTo, CountersBefore, Mappable, Filled, RootOk,
         CountersOk, PagesOf,
         StartLevel, NothingMapped;
    if k == 0 {
      NoneMapped(s.tree, gs, ias, s.counters);
    } else {
      var p := SetUp(gs, k - 1, ias, oas, s).value;
      SetUpMaps(gs, k - 1, ias, oas, s);
      RegionsRun(s.tree, gs, ias, oas);
      SetUpOwns(gs, k - 1, ias, oas, s);
      ReadyRoot(p, ias);
      StillMappable(s.tree, p.tree, gs, k - 1, ias, oas);
      CreatedFills(gs[k - 1], Sub(p.tree), p.tree, ias, oas, p.counters, p.pool);
      var q := Created(gs[k - 1], Sub(p.tree), ias, oas, p.counters, p.pool).value;
      MapOneMore(s.tree, p.tree, q.tree, gs, k - 1, ias, oas, p.counters, q.counters);
      WholeOneMore(s.tree, p.tree, q.tree, gs, k - 1, ias, oas, s.counters, p.counters, q.counters);
    }
  }

  lemma RegionsRun(t: Tree, gs: seq<Region>, ias: nat, oas: nat)
    requires IasOk(ias) && RegionsOk(t, gs, ias, oas)
    ensures RunsOk(gs, ias, oas)
  {
    hide RegionRun, Supported, Unmapped, RunOk;
  }

  // ---- A table lost ----

  /** 4 KiB at VA 0, and then 2 MiB at VA 0 to PA 0. */
  function PageThenBlock(attr: nat): seq<Region> {
    [Region(0x1000, 0, 0x1000, attr), Region(0, 0, 0x20_0000, attr)]
  }

  /** In a 30-bit input range the page needs a table below the root, and the block takes its place: the
      table's page is lost. */
  lemma {:induction false} TableLost(root: nat, page: nat, attr: nat, oas: nat)
    requires PageOk(root, 30) && PageOk(page, 30) && root != page && AttrOk(attr) && 13 <= oas
    ensures var s := State(ZeroTable(root), ZERO_COUNTERS, [page], {});
            var end := SetUp(PageThenBlock(attr), 2, 30, oas, s);
            && Ready(s, 30) && RunsOk(PageThenBlock(attr), 30, oas) && end.Some?
            && end.value.lost == {page} && end.value.pool == []
  {
    hide Built, Wf, Pages, Pow2, Num, Span, Slot, AttrOk, Sound, InRange;
    var gs, s := PageThenBlock(attr), State(ZeroTable(root), ZERO_COUNTERS, [page], {});
    assert StartLevel(30) == 2 && StartShift(30) == 21;
    TwoRuns(attr, oas);
    RootReady(root, page);
    var s1 := OnePage(s, page, RegionRun(gs[0], 30));
    NextCreate(gs, 0, oas, s, s);
    assert s.lost + s1.lost == {};
    assert SetUp(gs, 1, 30, oas, s) == Some(s1);
    SetUpOwns(gs, 1, 30, oas, s);
    SlotZero();
    PagesOfNew(page, attr);
    BlockLoses(2, 9, 30, RegionRun(gs[1], 30), s1);
    BlockAlone(RegionRun(gs[1], 30), s1);
    NextCreate(gs, 1, oas, s, s1);
  }

  lemma PagesOfNew(page: nat, attr: nat)
    ensures PagesOf(Sub(Put(ZeroTable(page), 0, Leaf(1, attr)))) == {page}
  {
    hide Pages;
    var t := Put(ZeroTable(page), 0, Leaf(1, attr));
    forall p ensures p in Pages(t) <==> p == page { PagesMember(t, p); }
  }

  /** One more create in a 30-bit range, with nothing lost so far. */
  lemma NextCreate(gs: seq<Region>, k: nat, oas: nat, s: State, s1: State)
    requires k < |gs| && SetUp(gs, k, 30, oas, s) == Some(s1) && s1.lost == {} && gs[k].length > 0 && Accepted(gs[k], oas)
    ensures var next := Built(2, 9, RegionRun(gs[k], 30), s1);
            SetUp(gs, k + 1, 30, oas, s) == if next.None? then None else Some(next.value.(lost := s1.lost + next.value.lost))
  {
    hide Built, RegionRun, Accepted;
    assert StartLevel(30) == 2 && StartShift(30) == 21;
    assert s1 == State(s1.tree, s1.counters, s1.pool, {});
  }

  lemma TwoRuns(attr: nat, oas: nat)
    requires AttrOk(attr) && 13 <= oas
    ensures var gs := PageThenBlock(attr);
            && RegionRun(gs[0], 30) == Run(0, 1, 1, 1, attr) && RegionRun(gs[1], 30) == Run(0, 512, 512, 0, attr)
            && Accepted(gs[0], oas) && Accepted(gs[1], oas) && RunsOk(gs, 30, oas)
            && !Blockable(2, RegionRun(gs[0], 30)) && Blockable(2, RegionRun(gs[1], 30)) && Span(3) == 512
  {
    hide Pow2, Span, AttrOk;
    SpanValues();
    PowMono(13, oas);
    AbovePage();
    DivUnique(0, Pow2(30), 0, 0);
  }

  lemma AbovePage()
    ensures Pow2(13) > 0x1000 && Pow2(30) > 0
  {
    assert Pow2(13) == 2 * Pow2(12);
    PowValues();
  }

  lemma RootReady(root: nat, page: nat)
    requires PageOk(root, 30) && PageOk(page, 30) && root != page
    ensures Ready(State(ZeroTable(root), ZERO_COUNTERS, [page], {}), 30)
  {
    hide Wf, Pages, Pow2;
    assert StartLevel(30) == 2 && StartShift(30) == 21;
    ZeroTableWf(root, 2, 30);
    ZeroTableInRange(root, 30);
  }

  lemma SlotZero()
    ensures Slot(2, 9, 0) == 0 && Slot(3, 9, 0) == 0
  {
    hide Pow2;
    PowValues();
    NumIsDiv(3, 0);
    NumIsDiv(4, 0);
    SpanValues();
    DivUnique(0, 512, 0, 0);
  }

  /** The page goes to a new table below entry 0. */
  lemma {:induction false} OnePage(s: State, page: nat, r: Run) returns (s1: State)
    requires s.tree == ZeroTable(s.tree.page) && s.counters == ZERO_COUNTERS && s.pool == [page] && s.lost == {}
    requires r.lo == 0 && r.whole == 1 == r.touched && r.op == 1 && !Blockable(2, r)
    ensures Built(2, 9, r, s) == Some(s1) && s1.pool == [] && s1.lost == {}
    ensures s1.tree == Put(s.tree, 0, Sub(Put(ZeroTable(page), 0, Leaf(1, r.attr))))
  {
    hide Pow2, Num, Slot, Blockable;
    SpanValues();
    SlotZero();
    ZeroRooms();
    var c := ZERO_COUNTERS;
    var start := State(ZeroTable(page), c, [], {});
    var inner := State(Put(ZeroTable(page), 0, Leaf(1, r.attr)), Increment(c, 3), [], {});
    assert Fed(2, r, c) == r && At(start.tree, 0) == Empty == At(s.tree, 0);
    assert start.lost + PagesOf(Empty) == {} && s.lost + inner.lost == {} && s.pool[1..] == [];
    assert Stepped(3, 9, r, start) == Some(inner);
    BuiltStep(3, 9, r, start);
    BuiltNone(3, 9, From(r, 1), inner);
    s1 := State(Put(s.tree, 0, Sub(inner.tree)), inner.counters, [], {});
    assert Stepped(2, 9, r, s) == Some(s1);
    BuiltStep(2, 9, r, s);
    BuiltNone(2, 9, From(r, 512), s1);
  }

  lemma ZeroRooms()
    ensures Room(2, ZERO_COUNTERS) == Span(3) && Increment(ZERO_COUNTERS, 2) == ZERO_COUNTERS
  {
  }

  /** The block takes no page and the table has one. */
  lemma BlockAlone(r: Run, s: State)
    requires r.lo == 0 && r.touched == 512 == Span(3) && Blockable(2, r) && |s.tree.entries| == 512
    ensures Built(2, 9, r, s).Some? && Built(2, 9, r, s).value.pool == s.pool
  {
    hide Slot, Blockable, Built;
    BuiltStep(2, 9, r, s);
    BuiltNone(2, 9, From(r, 512), Stepped(2, 9, r, s).value);
  }

  // ---- The code ----

  lemma SetUpReady(m: Memory, t: Tree, ias: nat, pool: seq<nat>, c: Counters)
    requires IasOk(ias) && TableAt(m, t, ias) && PoolOk(pool, m.Keys, ias) && CountersOk(c, StartLevel(ias))
    ensures Ready(State(t, c, pool, {}), ias)
  {
    hide Wf, Rep, InRange, StartLevel, Pages, Sound, CountersOk, PoolOk;
    TableIsRoot(m, t, ias, pool, c);
  }

  /** The table of a later state owns nothing but old table pages and pages taken. */
  lemma TakenPages(s: State, s1: State, ias: nat)
    requires IasOk(ias) && Ready(s, ias) && Ready(s1, ias) && Total(s1) == Total(s) && s.lost <= s1.lost && s.lost == {}
    requires Elems(s1.pool) <= Elems(s.pool)
    ensures PagesOf(Sub(s1.tree)) <= Pages(s.tree) + (Elems(s.pool) - Elems(s1.pool))
  {
    hide Wf, Pages, InRange, CountersOk, StartLevel, Elems, NoDup, PageOk;
    SubPages(Sub(s1.tree));
  }

  /** Maps a list of regions, one create per region, into the table at base. It leaves exactly the state
      that SetUp gives, and fails exactly where SetUp does. */
  method {:induction false} SetupMmu(pt: PageTables, gs: seq<Region>, base: nat, ias: nat, oas: nat, ghost t: Tree)
    returns (ok: bool, ghost s: State)
    requires IasOk(ias) && pt.AllocatorOk(ias) && RunsOk(gs, ias, oas)
    requires base != 0 && TableAt(pt.mem, t, ias) && t.page == base
    requires CountersOk(pt.Carried(), StartLevel(ias))
    modifies pt
    ensures var s0 := State(t, old(pt.Carried()), old(pt.pool), {});
            (ok <==> SetUp(gs, |gs|, ias, oas, s0).Some?) && (ok ==> Some(s) == SetUp(gs, |gs|, ias, oas, s0))
    ensures ok ==> pt.AllocatorOk(ias) && pt.pool == s.pool && pt.Carried() == s.counters
    ensures ok ==> TableAt(pt.mem, s.tree, ias) && s.tree.page == base
    ensures ok ==> Stored(old(pt.mem), old(Elems(pt.pool)), pt.mem, Elems(pt.pool), Pages(t))
  {
    hide Wf, Rep, Pages, InRange, Pow2, StartLevel, StartShift, Levels, RegionRun, TableAt, PageOk, Elems, PoolOk,
         CountersOk, Stored, RunOk,
         Accepted, Created, Sound, Total, PagesOf;
    ghost var s0 := State(t, pt.Carried(), pt.pool, {});
    s := s0;
    var i := 0;
    SetUpReady(pt.mem, t, ias, pt.pool, pt.Carried());
    StoredStill(pt.mem, Elems(pt.pool), Pages(t));
    PoolApart(pt.pool, pt.mem.Keys, ias);
    while i < |gs|
      invariant i <= |gs| && Some(s) == SetUp(gs, i, ias, oas, s0)
      invariant pt.AllocatorOk(ias) && pt.pool == s.pool && pt.Carried() == s.counters
      invariant TableAt(pt.mem, s.tree, ias) && s.tree.page == base
      invariant Stored(old(pt.mem), old(Elems(pt.pool)), pt.mem, Elems(pt.pool), Pages(t))
    {
      SetUpOwns(gs, i, ias, oas, s0);
      ghost var m1, s1, next := pt.mem, s, s;
      var b;
      ok, b, next := pt.Create(gs[i], base, ias, oas, s1.tree);
      if !ok {
        SetUpStops(gs, i + 1, |gs|, ias, oas, s0);
        return false, s;
      }
      TakenPages(s0, s1, ias);
      StoredTwice(old(pt.mem), old(Elems(pt.pool)), m1, Elems(s1.pool), pt.mem, Elems(pt.pool), Pages(t), PagesOf(Sub(s1.tree)));
      s := next.(lost := s1.lost + next.lost);
      i := i + 1;
    }
    ok := true;
  }

  /** Destroying the table of a state gives back all its pages; the lost ones stay in use. */
  lemma GivenBack(m0: Memory, m1: Memory, s0: State, s: State, ias: nat)
    requires IasOk(ias) && Ready(s0, ias) && Ready(s, ias) && s0.lost == {} && Total(s) == Total(s0) && Elems(s0.pool) !! m0.Keys
    requires Pages(s0.tree) <= m0.Keys && Stored(m0, Elems(s0.pool), m1, Elems(s.pool), Pages(s0.tree))
    ensures Elems(s.pool) + Pages(s.tree) == (Elems(s0.pool) + Pages(s0.tree)) - s.lost
    ensures (m1 - Pages(s.tree)).Keys == (m0.Keys - Pages(s0.tree)) + s.lost
    ensures forall p :: p in m0 && p !in Pages(s0.tree) ==> p in m1 - Pages(s.tree) && (m1 - Pages(s.tree))[p] == m0[p]
  {
    hide Wf, Pages, InRange, CountersOk, StartLevel, Elems, NoDup, PageOk;
  }

  /** Destroying the table after any run of creates gives the allocator back exactly the pages the
      creates took and the pages the table had before, each once, but for the pages of tables that
      a block took the place of; all other memory is as it was. */
  method {:induction false} SetupThenDestroy(pt: PageTables, gs: seq<Region>, base: nat, ias: nat, oas: nat, ghost t: Tree)
    returns (ok: bool, ghost lost: set<nat>)
    requires IasOk(ias) && pt.AllocatorOk(ias) && RunsOk(gs, ias, oas)
    requires base != 0 && TableAt(pt.mem, t, ias) && t.page == base
    requires CountersOk(pt.Carried(), StartLevel(ias))
    modifies pt
    ensures var s0 := State(t, old(pt.Carried()), old(pt.pool), {});
            && (ok <==> SetUp(gs, |gs|, ias, oas, s0).Some?)
            && (ok ==> lost == SetUp(gs, |gs|, ias, oas, s0).value.lost)
    ensures ok ==> pt.AllocatorOk(ias) && Elems(pt.pool) == old(Elems(pt.pool)) + Pages(t) - lost
    ensures ok ==> pt.mem.Keys == (old(pt.mem).Keys - Pages(t)) + lost
    ensures ok ==> forall p :: p in old(pt.mem) && p !in Pages(t) ==> p in pt.mem && pt.mem[p] == old(pt.mem)[p]
    ensures ok && RegionsOk(t, gs, ias, oas) ==> lost == {}
  {
    hide Wf, Rep, Pages, InRange, Pow2, StartLevel, Levels, RegionsOk, TableAt, PageOk, Elems, PoolOk, CountersOk, MappedUpTo, WholeUpTo,
         Stored, SetUp, Sound, Total, RunsOk, Ready;
    ghost var s0, s := State(t, pt.Carried(), pt.pool, {}), State(t, pt.Carried(), pt.pool, {});
    PoolApart(pt.pool, pt.mem.Keys, ias);
    SetUpReady(pt.mem, t, ias, pt.pool, pt.Carried());
    RootFacts(pt.mem, t, ias);
    lost := {};
    ok, s := SetupMmu(pt, gs, base, ias, oas, t);
    if ok {
      lost := s.lost;
      SetUpOwns(gs, |gs|, ias, oas, s0);
      GivenBack(old(pt.mem), pt.mem, s0, s, ias);
      if RegionsOk(t, gs, ias, oas) { SetUpMaps(gs, |gs|, ias, oas, s0); }
      pt.Destroy(base, ias, s.tree);
    }
  }
}

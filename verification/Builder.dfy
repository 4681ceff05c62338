/** What the builder makes of a table, for every run of pages: the tree it leaves, the counters,
    the pages it takes from the allocator, and the pages of tables it overwrites and loses. */
module Builder {
  import opened Common
  import opened Bits
  import opened Descriptors
  import opened PageTree
  import opened FillSpec
  import opened FillProof
  import opened CounterProof
  import opened BuildSteps
  import opened LoopProof

  function Elems(s: seq<nat>): set<nat> { set x | x in s }

  predicate NoDup(s: seq<nat>) { forall i, j :: 0 <= i < j < |s| ==> s[i] != s[j] }

  datatype State = State(tree: Tree, counters: Counters, pool: seq<nat>, lost: set<nat>)

  /** The entry that page vp selects in a table of nbits-bit indices. */
  function Slot(l: nat, nbits: nat, vp: nat): (r: nat)
    requires nbits <= 9
    ensures r < 512
  {
    PowMono(nbits, 9);
    PowValues();
    Num(l + 1, vp) % Pow2(nbits)
  }

  function At(t: Tree, i: nat): Entry { if i < |t.entries| then t.entries[i] else Empty }

  function Set(t: Tree, i: nat, e: Entry): Tree { if i < |t.entries| then Put(t, i, e) else t }

  /** The table below an entry: the one there, or a new page where there is none. */
  function Under(e: Entry, pool: seq<nat>): Option<(Tree, seq<nat>)> {
    if e.Sub? then Some((e.table, pool)) else if pool == [] then None else Some((ZeroTable(pool[0]), pool[1..]))
  }

  /** The whole loop over a run, or nothing when the allocator runs out of pages. */
  function Built(l: nat, nbits: nat, r: Run, s: State): Option<State>
    requires l <= 3 && nbits <= 9
    decreases 3 - l, r.touched - r.lo, 1
  {
    if r.lo >= r.touched then Some(s)
    else
      var next := Stepped(l, nbits, r, s);
      if next.None? then None else Built(l, nbits, From(r, r.lo + Span(l + 1)), next.value)
  }

  /** One step of the loop: a page or block, whatever was there, or a table below. */
  function Stepped(l: nat, nbits: nat, r: Run, s: State): Option<State>
    requires l <= 3 && nbits <= 9 && r.lo < r.touched
    decreases 3 - l, r.touched - r.lo, 0
  {
    var i := Slot(l, nbits, r.lo);
    if l == 3 || Blockable(l, r) then
      Some(State(Set(s.tree, i, Leaf(r.op, r.attr)), Increment(s.counters, l), s.pool, s.lost + PagesOf(At(s.tree, i))))
    else
      var under := Under(At(s.tree, i), s.pool);
      if under.None? then None
      else
        var inner := Built(l + 1, 9, Fed(l, r, s.counters), State(under.value.0, Increment(s.counters, l), under.value.1, {}));
        if inner.None? then None
        else
          Some(State(Set(s.tree, i, Sub(inner.value.tree)), inner.value.counters, inner.value.pool, s.lost + inner.value.lost))
  }

  lemma BuiltStep(l: nat, nbits: nat, r: Run, s: State)
    requires l <= 3 && nbits <= 9 && r.lo < r.touched
    ensures var next := Stepped(l, nbits, r, s);
            Built(l, nbits, r, s) == if next.None? then None else Built(l, nbits, From(r, r.lo + Span(l + 1)), next.value)
  {
  }

  lemma BuiltNone(l: nat, nbits: nat, r: Run, s: State)
    requires l <= 3 && nbits <= 9 && r.lo >= r.touched
    ensures Built(l, nbits, r, s) == Some(s)
  {
  }

  // ---- Counters ----

  /** The counters depend on the run and the counters alone. */
  lemma {:induction false} BuiltCounters(l: nat, nbits: nat, r: Run, s: State)
    requires l <= 3 && nbits <= 9 && Built(l, nbits, r, s).Some?
    ensures Built(l, nbits, r, s).value.counters == After(l, r, s.counters)
    decreases 3 - l, r.touched - r.lo, 1
  {
    hide Built, Stepped, After, Span;
    if r.lo >= r.touched {
      BuiltNone(l, nbits, r, s);
      AfterNone(l, r, s.counters);
    } else {
      BuiltStep(l, nbits, r, s);
      SteppedCounters(l, nbits, r, s);
      BuiltCounters(l, nbits, From(r, r.lo + Span(l + 1)), Stepped(l, nbits, r, s).value);
      if l == 3 || Blockable(l, r) { AfterLeaf(l, r, s.counters); } else { AfterEntry(l, r, s.counters); }
    }
  }

  lemma {:induction false} SteppedCounters(l: nat, nbits: nat, r: Run, s: State)
    requires l <= 3 && nbits <= 9 && r.lo < r.touched && Stepped(l, nbits, r, s).Some?
    ensures Stepped(l, nbits, r, s).value.counters ==
            if l == 3 || Blockable(l, r) then Increment(s.counters, l) else After(l + 1, Fed(l, r, s.counters), Increment(s.counters, l))
    decreases 3 - l, r.touched - r.lo, 0
  {
    hide Built, After, Span, Blockable, Fed, Slot;
    if l < 3 && !Blockable(l, r) {
      var under := Under(At(s.tree, Slot(l, nbits, r.lo)), s.pool);
      BuiltCounters(l + 1, 9, Fed(l, r, s.counters), State(under.value.0, Increment(s.counters, l), under.value.1, {}));
    }
  }

  // ---- Pages ----

  /** A well-formed table; free pages that can be tables; tables, lost and free pages apart. */
  predicate Sound(s: State, l: nat, ias: nat) {
    && Wf(s.tree, l, ias) && NoDup(s.pool) && (forall p :: p in s.pool ==> PageOk(p, ias))
    && Pages(s.tree) !! s.lost && Pages(s.tree) !! Elems(s.pool) && s.lost !! Elems(s.pool)
  }

  /** Every page there is. */
  function Total(s: State): set<nat> { Pages(s.tree) + s.lost + Elems(s.pool) }

  /** From s to s1 no page appears or disappears, only free pages are taken, and a lost page stays
      lost. */
  predicate Conserves(s: State, s1: State, l: nat, ias: nat) {
    && Sound(s1, l, ias) && Total(s1) == Total(s) && s1.tree.page == s.tree.page
    && s.lost <= s1.lost && Elems(s1.pool) <= Elems(s.pool)
  }

  lemma PoolTail(pool: seq<nat>)
    requires NoDup(pool) && pool != []
    ensures NoDup(pool[1..]) && Elems(pool[1..]) == Elems(pool) - {pool[0]} && pool[0] in Elems(pool)
    ensures forall p :: p in pool[1..] ==> p in pool
  {
  }

  /** The table below an entry, with the pages left, is sound in itself. */
  lemma UnderSound(s: State, l: nat, ias: nat, i: nat)
    requires l < 3 && i < 512 && Sound(s, l, ias) && Under(s.tree.entries[i], s.pool).Some?
    ensures var u := Under(s.tree.entries[i], s.pool).value;
            && Wf(u.0, l + 1, ias) && NoDup(u.1) && (forall p :: p in u.1 ==> PageOk(p, ias)) && Pages(u.0) !! Elems(u.1)
            && Pages(u.0) + Elems(u.1) == PagesOf(s.tree.entries[i]) + Elems(s.pool) && Elems(u.1) <= Elems(s.pool)
  {
    var e := s.tree.entries[i];
    assert EntryOk(e, l, ias, s.tree.page);
    PagesOfEntry(s.tree, l, ias, i);
    hide Wf, Pages;
    if e.Sub? {
      SubPages(e);
    } else {
      assert PagesOf(e) == {};
      PoolTail(s.pool);
      ZeroTableWf(s.pool[0], l + 1, ias);
    }
  }

  lemma SubPages(e: Entry)
    requires e.Sub?
    ensures PagesOf(e) == Pages(e.table)
  {
  }

  lemma LeafOk(l: nat, ias: nat, r: Run, page: nat)
    requires l <= 3 && RunOk(r) && r.lo < r.touched && (l == 3 || Blockable(l, r))
    ensures EntryOk(Leaf(r.op, r.attr), l, ias, page) && PagesOf(Leaf(r.op, r.attr)) == {}
  {
    assert Span(4) == 1;
  }

  lemma LeafOwns(l: nat, nbits: nat, ias: nat, r: Run, s: State)
    requires l <= 3 && nbits <= 9 && r.lo < r.touched && RunOk(r) && Sound(s, l, ias) && (l == 3 || Blockable(l, r))
    ensures var next := Stepped(l, nbits, r, s);
            next.Some? && Conserves(s, next.value, l, ias) && NonEmpty(next.value.tree)
  {
    var i, e := Slot(l, nbits, r.lo), Leaf(r.op, r.attr);
    LeafOk(l, ias, r, s.tree.page);
    assert |s.tree.entries| == 512;
    PutWf(s.tree, l, ias, i, e, {});
    PutPagesExact(s.tree, l, ias, i, e);
    assert Put(s.tree, i, e).entries[i] == e;
  }

  /** Linking a filled table conserves the pages. */
  lemma LinkOwns(l: nat, ias: nat, i: nat, s: State, inner: State)
    requires l < 3 && i < 512 && Sound(s, l, ias) && Sound(inner, l + 1, ias) && NonEmpty(inner.tree)
    requires Total(inner) == PagesOf(s.tree.entries[i]) + Elems(s.pool) && Elems(inner.pool) <= Elems(s.pool)
    ensures var s1 := State(Put(s.tree, i, Sub(inner.tree)), inner.counters, inner.pool, s.lost + inner.lost);
            Conserves(s, s1, l, ias) && NonEmpty(s1.tree)
  {
    var e := Sub(inner.tree);
    SubPages(e);
    PagesOfEntry(s.tree, l, ias, i);
    PutPagesExact(s.tree, l, ias, i, e);
    assert EntryOk(e, l, ias, s.tree.page);
    PutWf(s.tree, l, ias, i, e, Elems(s.pool));
    assert Put(s.tree, i, e).entries[i] == e;
    hide Wf, Pages, PagesOf, EntryOk, NonEmpty;
  }

  lemma {:induction false} SteppedOwns(l: nat, nbits: nat, ias: nat, r: Run, s: State)
    requires l <= 3 && nbits <= 9 && r.lo < r.touched && RunOk(r) && CountersOk(s.counters, l) && Sound(s, l, ias)
    requires Stepped(l, nbits, r, s).Some?
    ensures var s1 := Stepped(l, nbits, r, s).value;
            Conserves(s, s1, l, ias) && NonEmpty(s1.tree) && CountersOk(s1.counters, l)
    decreases 3 - l, r.touched - r.lo, 0
  {
    hide Wf, Pages, PagesOf, Span, Blockable, Slot, Built, Num, NonEmpty, CountersOk, Room, Increment, After;
    SteppedCounters(l, nbits, r, s);
    if l == 3 || Blockable(l, r) {
      LeafOwns(l, nbits, ias, r, s);
      LeafCounters(l, s.counters);
    } else {
      var i, c := Slot(l, nbits, r.lo), s.counters;
      EntryCountersOk(l, r, c);
      FedOk(l, r, c);
      Entries512(s.tree, l, ias);
      UnderSound(s, l, ias, i);
      var u := Under(s.tree.entries[i], s.pool).value;
      var start := State(u.0, Increment(c, l), u.1, {});
      assert Sound(start, l + 1, ias);
      BuiltOwns(l + 1, 9, ias, Fed(l, r, c), start);
      LinkOwns(l, ias, i, s, Built(l + 1, 9, Fed(l, r, c), start).value);
    }
  }

  lemma Entries512(t: Tree, l: nat, ias: nat)
    requires Wf(t, l, ias)
    ensures |t.entries| == 512
  {
  }

  lemma FedOk(l: nat, r: Run, c: Counters)
    requires l < 3 && RunOk(r) && r.lo < r.touched && CountersOk(c, l)
    ensures var f := Fed(l, r, c); RunOk(f) && f.lo < f.touched && CountersOk(Increment(c, l), l + 1)
  {
    RoomBounds(l, c);
  }

  /** The builder conserves pages for every run: tables, lost and free pages stay apart, and no
      page appears or disappears. */
  lemma {:induction false} BuiltOwns(l: nat, nbits: nat, ias: nat, r: Run, s: State)
    requires l <= 3 && nbits <= 9 && RunOk(r) && CountersOk(s.counters, l) && Sound(s, l, ias) && Built(l, nbits, r, s).Some?
    ensures var s1 := Built(l, nbits, r, s).value;
            Conserves(s, s1, l, ias) && (r.lo < r.touched || NonEmpty(s.tree) ==> NonEmpty(s1.tree))
    decreases 3 - l, r.touched - r.lo, 1
  {
    hide Built, Stepped, Sound, Total, Span, NonEmpty, CountersOk, AttrOk;
    if r.lo >= r.touched {
      BuiltNone(l, nbits, r, s);
    } else {
      BuiltStep(l, nbits, r, s);
      SteppedOwns(l, nbits, ias, r, s);
      var rest := From(r, r.lo + Span(l + 1));
      if rest.lo >= rest.touched {
        BuiltNone(l, nbits, rest, Stepped(l, nbits, r, s).value);
      } else {
        RestOk(l, r);
        BuiltOwns(l, nbits, ias, rest, Stepped(l, nbits, r, s).value);
      }
    }
  }

  /** One block loses pages if and only if a table was in its place, and then the pages of that table. */
  lemma BlockLoses(l: nat, nbits: nat, ias: nat, r: Run, s: State)
    requires l < 3 && nbits <= 9 && Blockable(l, r) && r.lo < r.touched == r.lo + Span(l + 1) && RunOk(r) && Sound(s, l, ias)
    ensures Built(l, nbits, r, s).Some?
    ensures var s1, e := Built(l, nbits, r, s).value, At(s.tree, Slot(l, nbits, r.lo));
            s1.lost == s.lost + PagesOf(e) && (s1.lost != s.lost <==> e.Sub?)
  {
    hide Built, Stepped, Span, Blockable, Slot, Wf, Pages, Num, AttrOk;
    BuiltStep(l, nbits, r, s);
    BlockStep(l, nbits, r, s);
    BuiltNone(l, nbits, From(r, r.lo + Span(l + 1)), Stepped(l, nbits, r, s).value);
    Entries512(s.tree, l, ias);
    var i := Slot(l, nbits, r.lo);
    PagesOfEntry(s.tree, l, ias, i);
    if s.tree.entries[i].Sub? {
      SubPages(s.tree.entries[i]);
      PagesMember(s.tree.entries[i].table, s.tree.entries[i].table.page);
    }
  }

  lemma BlockStep(l: nat, nbits: nat, r: Run, s: State)
    requires l < 3 && nbits <= 9 && Blockable(l, r) && r.lo < r.touched
    ensures Stepped(l, nbits, r, s).Some?
    ensures Stepped(l, nbits, r, s).value.lost == s.lost + PagesOf(At(s.tree, Slot(l, nbits, r.lo)))
  {
    hide Span, Slot, Blockable, PagesOf, At, Set;
  }

  lemma RestOk(l: nat, r: Run)
    requires RunOk(r) && r.lo + Span(l + 1) < r.touched
    ensures RunOk(From(r, r.lo + Span(l + 1)))
  {
  }

  // ---- Supported runs ----

  /** Pages of the run select the same entry by nbits bits as by nine. */
  predicate InSlots(l: nat, nbits: nat, r: Run) {
    nbits < 9 && r.lo < r.touched ==> Num(l + 1, r.touched - 1) < Pow2(nbits)
  }

  lemma SlotIsIndex(l: nat, nbits: nat, r: Run, vp: nat)
    requires l <= 3 && nbits <= 9 && InSlots(l, nbits, r) && r.lo <= vp < r.touched
    ensures Slot(l, nbits, vp) == Index(l, vp)
  {
    hide Num, Pow2;
    PowMono(nbits, 9);
    PowValues();
    if nbits < 9 {
      NumMono(l + 1, vp, r.touched - 1);
      DivUnique(Num(l + 1, vp), Pow2(nbits), 0, Num(l + 1, vp));
      DivUnique(Num(l + 1, vp), 512, 0, Num(l + 1, vp));
    }
  }

  lemma NineSlots(l: nat, r: Run)
    ensures InSlots(l, 9, r)
  {
  }

  /** A run of unmapped pages finds no leaf where it needs a table, and nothing where it puts a leaf. */
  lemma EntryReady(t: Tree, l: nat, ias: nat, n: nat, r: Run, c: Counters)
    requires l <= 3 && Wf(t, l, ias) && Fillable(t, l, n, r, c) && r.lo < r.touched
    ensures !t.entries[Index(l, r.lo)].Leaf?
    ensures l == 3 || Blockable(l, r) ==> t.entries[Index(l, r.lo)] == Empty
  {
    assert Lookup(t, l, r.lo) == None;
    if l == 3 || Blockable(l, r) {
      LeafRun(l, r, c);
      hide Shape, Num, Span, Lookup, Wf, NoClip;
      EntryEmpty(t, l, ias, r.lo);
    }
  }

  /** The table below an unmapped page translates the entry's pages as the entry does. */
  lemma UnderIs(s: State, l: nat, ias: nat, lo: nat)
    requires l < 3 && Sound(s, l, ias) && !s.tree.entries[Index(l, lo)].Leaf? && Under(s.tree.entries[Index(l, lo)], s.pool).Some?
    ensures SubOf(s.tree, Under(s.tree.entries[Index(l, lo)], s.pool).value.0, l, lo)
  {
    var e := s.tree.entries[Index(l, lo)];
    if e == Empty { ZeroTableWf(s.pool[0], l + 1, ias); }
    hide Wf, Lookup, Pages;
    SubOfEntry(s.tree, Under(e, s.pool).value.0, l, lo);
  }

  /** One step of the loop over a supported run. */
  lemma {:induction false} SteppedFills(l: nat, nbits: nat, ias: nat, n: nat, r: Run, s: State)
    requires l <= 3 && nbits <= 9 && r.lo < r.touched && InSlots(l, nbits, r) && Sound(s, l, ias)
    requires Fillable(s.tree, l, n, r, s.counters) && Stepped(l, nbits, r, s).Some?
    ensures var s1 := Stepped(l, nbits, r, s).value;
            |s.tree.entries| == 512 && StepTaken(s.tree, s1.tree, l, r, s.counters, s1.counters) && s1.lost == s.lost
    decreases 3 - l, r.touched - r.lo, 0
  {
    hide Wf, Pages, Span, Blockable, Slot, Built, Num, NonEmpty, CountersOk, Room, Increment, After, Shape, NoClip, Lookup, Unmapped,
         EntryFilled, Index, Filled, SubOf;
    Entries512(s.tree, l, ias);
    SlotIsIndex(l, nbits, r, r.lo);
    EntryReady(s.tree, l, ias, n, r, s.counters);
    var i, c := Index(l, r.lo), s.counters;
    if l < 3 && !Blockable(l, r) {
      UnderSound(s, l, ias, i);
      UnderIs(s, l, ias, r.lo);
      var u := Under(s.tree.entries[i], s.pool).value;
      var start, f := State(u.0, Increment(c, l), u.1, {}), Fed(l, r, c);
      assert Sound(start, l + 1, ias);
      DescendFillable(s.tree, u.0, l, n, r, c);
      NineSlots(l + 1, f);
      BuiltFills(l + 1, 9, ias, Num(l + 1, r.lo), f, start);
      LinkFilled(s.tree, u.0, Built(l + 1, 9, f, start).value.tree, l, n, r, c, Built(l + 1, 9, f, start).value.counters);
    }
  }

  /** Whatever is supported is taken up: each page of the run is mapped rightly or not at all,
      every other page as before, the whole run exactly when the counters do not clip it, and
      no page is lost. */
  lemma {:induction false} BuiltFills(l: nat, nbits: nat, ias: nat, n: nat, r: Run, s: State)
    requires l <= 3 && nbits <= 9 && InSlots(l, nbits, r) && Sound(s, l, ias)
    requires Fillable(s.tree, l, n, r, s.counters) && Built(l, nbits, r, s).Some?
    ensures var s1 := Built(l, nbits, r, s).value;
            Filled(s.tree, s1.tree, l, n, r, s.counters, s1.counters) && s1.lost == s.lost
    decreases 3 - l, r.touched - r.lo, 2
  {
    hide Progress, Filled, Fillable, Built, Sound, InSlots;
    ProgressStart(s.tree, l, n, r, s.counters);
    assert From(r, r.lo) == r;
    LoopFills(s.tree, l, nbits, ias, n, r, r.lo, s.counters, s);
  }

  /** The rest of the loop, from page ip on. */
  lemma {:induction false} LoopFills(t: Tree, l: nat, nbits: nat, ias: nat, n: nat, r: Run, ip: nat, c0: Counters, s: State)
    requires l <= 3 && nbits <= 9 && InSlots(l, nbits, r) && Sound(s, l, ias) && Fillable(t, l, n, r, c0)
    requires r.lo <= ip && (r.lo >= r.touched ==> ip == r.lo) && Progress(t, s.tree, l, n, r, ip, c0, s.counters)
    requires Built(l, nbits, From(r, ip), s).Some?
    ensures var s1 := Built(l, nbits, From(r, ip), s).value;
            RunOk(r) && Filled(t, s1.tree, l, n, r, c0, s1.counters) && s1.lost == s.lost
    decreases 3 - l, r.touched - ip, 1
  {
    hide Progress, Filled, Built, Stepped, Sound, Span, StepTaken, CountersOk, Shape, Unmapped, AttrOk, Num, Pow2;
    if ip >= r.touched {
      BuiltNone(l, nbits, From(r, ip), s);
      ProgressDone(t, s.tree, l, n, r, ip, c0, s.counters);
    } else {
      var rest, b := From(r, ip), Span(l + 1);
      BuiltStep(l, nbits, rest, s);
      StepFillable(t, s.tree, l, n, r, ip, c0, s.counters);
      SteppedFills(l, nbits, ias, n, rest, s);
      SteppedOwns(l, nbits, ias, rest, s);
      var s1 := Stepped(l, nbits, rest, s).value;
      ProgressStep(t, s.tree, s1.tree, l, n, r, ip, c0, s.counters, s1.counters);
      assert From(rest, ip + b) == From(r, ip + b);
      LoopFills(t, l, nbits, ias, n, r, ip + b, c0, s1);
    }
  }
}

/** The page-table builder, walker and destroyer. The object's fields are the file's
    globals plus the memory they work on: `mem` holds the pages in use as tables, `pool`
    is the page allocator's free list. */
module Pgt {
  import opened Common
  import opened Bits
  import opened Descriptors
  import opened PageTree
  import opened FillSpec
  import opened BuildSteps
  import opened Builder
  import opened Walk
  import opened Regions

  /** Free pages are distinct, fit to be tables, and not in use. */
  predicate PoolOk(pool: seq<nat>, used: set<nat>, ias: nat) {
    NoDup(pool) && forall p :: p in pool ==> PageOk(p, ias) && p !in used
  }

  lemma PoolApart(pool: seq<nat>, used: set<nat>, ias: nat)
    requires PoolOk(pool, used, ias)
    ensures Elems(pool) !! used
  {
  }

  lemma PutWordKeys(m: Memory, page: nat, i: nat, word: nat)
    requires page in m && i < |m[page]|
    ensures PutWord(m, page, i, word).Keys == m.Keys
  {
  }

  /** Every taken page is in memory now, and no page outside `own` changed. */
  ghost predicate Stored(m0: Memory, p0: set<nat>, m1: Memory, p1: set<nat>, own: set<nat>) {
    && p1 <= p0 && m1.Keys == m0.Keys + (p0 - p1)
    && forall p :: p in m0 && p !in own ==> m1[p] == m0[p]
  }

  lemma StoredStill(m: Memory, p: set<nat>, own: set<nat>)
    ensures Stored(m, p, m, p, own)
  {
  }

  /** Two stores, where the second changed only what the first owned or took. */
  lemma StoredTwice(m0: Memory, p0: set<nat>, m1: Memory, p1: set<nat>, m2: Memory, p2: set<nat>, own: set<nat>, own1: set<nat>)
    requires p0 !! m0.Keys && Stored(m0, p0, m1, p1, own) && Stored(m1, p1, m2, p2, own1) && own1 <= own + (p0 - p1)
    ensures Stored(m0, p0, m2, p2, own)
  {
  }

  lemma OwnedPages(s: State, s1: State, l: nat, ias: nat)
    requires Sound(s, l, ias) && Conserves(s, s1, l, ias)
    ensures Pages(s1.tree) <= Pages(s.tree) + (Elems(s.pool) - Elems(s1.pool)) && Elems(s1.pool) <= Elems(s.pool)
  {
    hide Wf, Pages, Elems;
  }

  /** The builder's index computation selects the slot of the page. */
  lemma {:induction false} SlotOfStep(level: nat, vp: nat, nbits: nat)
    requires level <= 3 && nbits <= 9
    ensures And(Shr(vp * 0x1000, 12 + 9 * (3 - level)), Pow2(nbits) - 1) == Slot(level, nbits, vp)
  {
    hide And, Shr, Num, Pow2;
    ShiftIsNum(level, vp);
    AndLow(nbits, Num(level + 1, vp));
  }

  /** The builder's test for a block descriptor. */
  lemma {:induction false} BlockTest(level: nat, r: Run, inputTop: nat)
    requires level <= 3 && r.whole == WholePages(inputTop)
    ensures (&& And(r.lo * 0x1000, Pow2(12 + 9 * (3 - level)) - 1) == 0
             && And(r.op * 0x1000, Pow2(12 + 9 * (3 - level)) - 1) == 0
             && inputTop >= r.lo * 0x1000 + Pow2(12 + 9 * (3 - level)) - 1) <==> Blockable(level, r)
  {
    hide And, Span, Pow2;
    AlignTest(level, r.lo);
    AlignTest(level, r.op);
    BlockBytes(level);
  }

  lemma RunBytes(base: nat, last: nat, output: nat, attr: nat)
    requires base % 0x1000 == 0 && output % 0x1000 == 0
    ensures var r := RunOf(base, last, output, attr);
            && r.lo == base / 0x1000 && r.lo * 0x1000 == base && r.op * 0x1000 == output && r.attr == attr
            && r.whole == WholePages(last)
  {
  }

  lemma SteppedLeaf(l: nat, nbits: nat, r: Run, s: State)
    requires l <= 3 && nbits <= 9 && r.lo < r.touched && (l == 3 || Blockable(l, r)) && |s.tree.entries| == 512
    ensures var next, i := Stepped(l, nbits, r, s), Slot(l, nbits, r.lo);
            next.Some? && next.value.pool == s.pool && next.value.counters == Increment(s.counters, l)
            && next.value.tree == Put(s.tree, i, Leaf(r.op, r.attr))
  {
  }

  /** A step through the table below an entry. */
  lemma SteppedEntry(l: nat, nbits: nat, r: Run, s: State)
    requires l < 3 && nbits <= 9 && r.lo < r.touched && !Blockable(l, r) && |s.tree.entries| == 512
    ensures var next, i := Stepped(l, nbits, r, s), Slot(l, nbits, r.lo);
            var u := Under(s.tree.entries[i], s.pool);
            && (next.Some? ==> u.Some?)
            && (u.Some? ==>
                  var inner := Built(l + 1, 9, Fed(l, r, s.counters), State(u.value.0, Increment(s.counters, l), u.value.1, {}));
                  && (next.Some? <==> inner.Some?)
                  && (inner.Some? ==> && next.value.tree == Put(s.tree, i, Sub(inner.value.tree))
                                      && next.value.pool == inner.value.pool && next.value.counters == inner.value.counters))
  {
    hide Built;
  }

  /** Memory after the table below an entry was taken, filled and linked. */
  lemma LinkStored(m0: Memory, m1: Memory, m2: Memory, t: Tree, l: nat, ias: nat, i: nat, pool: seq<nat>, start: State, inner: State)
    requires IasOk(ias) && l < 3 && i < 512 && Wf(t, l, ias) && Rep(m0, t, l) && PoolOk(pool, m0.Keys, ias)
    requires Sound(State(t, inner.counters, pool, {}), l, ias) && Under(t.entries[i], pool) == Some((start.tree, start.pool))
    requires start.lost == {} && Sound(start, l + 1, ias) && Conserves(start, inner, l + 1, ias)
    requires Stored(m0, Elems(pool), m1, Elems(start.pool), {})
    requires Stored(m1, Elems(start.pool), m2, Elems(inner.pool), Pages(start.tree)) && Rep(m2, inner.tree, l + 1)
    ensures t.page in m2 && |m2[t.page]| == 512
    ensures var m3 := PutWord(m2, t.page, i, TableDescriptor(inner.tree.page));
            && Rep(m3, Put(t, i, Sub(inner.tree)), l) && m3.Keys == m2.Keys
            && Stored(m0, Elems(pool), m3, Elems(inner.pool), Pages(t))
  {
    hide Wf, Rep, Pages, PagesOf, Elems, TableDescriptor, NoDup, Put;
    var s := State(t, inner.counters, pool, {});
    UnderSound(s, l, ias, i);
    PoolApart(pool, m0.Keys, ias);
    EntryFacts(m0, t, l, ias, i);
    OwnedPages(start, inner, l + 1, ias);
    assert forall p :: p in m0 && p !in PagesOf(t.entries[i]) ==> p in m2 && m2[p] == m0[p] by {
      UnderPages(t.entries[i], pool);
    }
    Linked(m0, m2, t, l, ias, i, inner.tree);
    PutWordKeys(m2, t.page, i, TableDescriptor(inner.tree.page));
  }

  lemma UnderPages(e: Entry, pool: seq<nat>)
    requires Under(e, pool).Some?
    ensures Pages(Under(e, pool).value.0) <= PagesOf(e) + Elems(pool)
  {
    if !e.Sub? { EmptyKids(ZeroTable(pool[0]).entries, 512); }
  }

  lemma TakenStep(s0: State, s: State, s1: State, l: nat, ias: nat)
    requires Conserves(s0, s, l, ias) && Conserves(s, s1, l, ias)
    ensures Conserves(s0, s1, l, ias)
  {
    hide Wf, Pages, Elems;
  }

  lemma {:induction false} RegionBytes(g: Region, ias: nat)
    requires IasOk(ias) && g.va % 0x1000 == 0 && g.length > 0
    ensures RegionRun(g, ias) == RunOf(g.va % Pow2(ias), g.va % Pow2(ias) + g.length - 1, g.pa, g.attr)
    ensures g.va % Pow2(ias) % 0x1000 == 0
  {
    TruncatedAligned(g.va, ias);
  }

  lemma TableParts(m: Memory, t: Tree, ias: nat)
    requires IasOk(ias) && TableAt(m, t, ias)
    ensures Wf(t, StartLevel(ias), ias) && Rep(m, t, StartLevel(ias)) && InRange(t, ias)
  {
  }

  /** The builder reads its shift amounts off the page size: the lowest set bit. */
  method {:induction false} Log2PageSize(size: nat) returns (bit: nat)
    ensures forall k: nat :: size == Pow2(k) ==> bit == k
  {
    var rest := size;
    bit := 0;
    while rest != 0
      invariant rest * Pow2(bit) == size
      decreases rest
    {
      if And(rest, 1) != 0 {
        AndLow(1, rest);
        forall k: nat | size == Pow2(k) ensures bit == k { OddPart(rest, bit, k); }
        return;
      }
      AndLow(1, rest);
      assert rest == 2 * (rest / 2);
      assert (rest / 2) * (2 * Pow2(bit)) == rest * Pow2(bit);
      rest := rest / 2;
      bit := bit + 1;
    }
    bit := 0;
  }

  /** The level, shift and index width of the root table for ias-bit input addresses. */
  method {:induction false} Geometry(ias: nat) returns (level: nat, sizeLog2: nat, nbits: nat)
    requires IasOk(ias)
    ensures level == StartLevel(ias) <= 3 && sizeLog2 == StartShift(ias) == 12 + 9 * (3 - level)
    ensures 1 <= nbits <= 9 && nbits == ias - sizeLog2
  {
    var pageSizeLog2 := Log2PageSize(PAGE_SIZE);
    assert pageSizeLog2 == 12 by { PowValues(); }
    var bitsPerLevel := pageSizeLog2 - 3;
    var levels := (ias - pageSizeLog2 + bitsPerLevel - 1) / bitsPerLevel;
    levels := if levels > 4 then 4 else levels;
    level := 4 - levels;
    sizeLog2 := (levels - 1) * bitsPerLevel + pageSizeLog2;
    nbits := ias - sizeLog2;
  }

  lemma {:induction false} OddPart(odd: nat, b: nat, k: nat)
    requires odd % 2 == 1 && odd * Pow2(b) == Pow2(k)
    ensures b == k
  {
    if b > 0 {
      assert odd * Pow2(b) == 2 * (odd * Pow2(b - 1));
      if k > 0 { OddPart(odd, b - 1, k - 1); }
    }
  }

  // ---- Freeing ----

  lemma {:induction false} KidPagesTail(es: seq<Entry>, k: nat, n: nat)
    requires k <= n <= |es| && forall i :: k <= i < n ==> es[i] == Empty
    ensures KidPages(es, n) == KidPages(es, k)
    decreases n
  {
    if k < n { KidPagesTail(es, k, n - 1); }
  }

  /** What hangs off the used entries of a table is all it owns besides itself. */
  lemma FreeFacts(t: Tree, l: nat, ias: nat, nbits: nat)
    requires l <= 3 && nbits <= 9 && Wf(t, l, ias) && forall i :: Pow2(nbits) <= i < 512 ==> t.entries[i] == Empty
    ensures Pow2(nbits) <= 512 && |t.entries| == 512
    ensures Pages(t) - {t.page} == KidPages(t.entries, Pow2(nbits)) && KidPages(t.entries, 0) == {}
    ensures l == 3 ==> Pages(t) - {t.page} == {}
  {
    PowMono(nbits, 9);
    PowValues();
    KidPagesTail(t.entries, Pow2(nbits), 512);
    forall p | p in KidPages(t.entries, 512) ensures p != t.page && l < 3 {
      KidPagesMember(t.entries, 512, p);
      var i :| 0 <= i < 512 && p in PagesOf(t.entries[i]);
      assert EntryOk(t.entries[i], l, ias, t.page);
    }
  }

  /** At entry i, with the tables of the earlier entries gone from memory. */
  lemma FreeStep(m: Memory, t: Tree, l: nat, ias: nat, i: nat)
    requires IasOk(ias) && l < 3 && i < 512 && Wf(t, l, ias) && Rep(m, t, l)
    ensures var m' := m - KidPages(t.entries, i);
            var e := t.entries[i];
            && t.page in m' && |m'[t.page]| == 512
            && (e.Sub? <==> m'[t.page][i] != 0 && !IsBlock(m'[t.page][i]))
            && (e.Sub? ==> && And(m'[t.page][i], AddressMask(ias)) == e.table.page && e.table.page != 0
                           && Wf(e.table, l + 1, ias) && Rep(m', e.table, l + 1) && PageOk(e.table.page, ias)
                           && |e.table.entries| == 512 && e.table.page in Pages(e.table) && Pages(e.table) <= m'.Keys)
            && KidPages(t.entries, i + 1) == KidPages(t.entries, i) + PagesOf(e)
            && PagesOf(e) == (if e.Sub? then Pages(e.table) else {})
    ensures Pow2(9) == 512
  {
    hide Wf, Rep, KidPages, Pages, And, IsBlock, Pow2, AddressMask, PageOk;
    PowValues();
    EntryFacts(m, t, l, ias, i);
    var m', e := m - KidPages(t.entries, i), t.entries[i];
    KidsApart(t, l, ias, i);
    KidPagesStep(t.entries, i);
    EntryWord(m, t, l, ias, i);
    if e.Sub? {
      SubPages(e);
      RepFrame(m, m', e.table, l + 1);
    }
  }

  lemma KidPagesStep(es: seq<Entry>, i: nat)
    requires i < |es|
    ensures KidPages(es, i + 1) == KidPages(es, i) + PagesOf(es[i])
  {
  }

  lemma KidsApart(t: Tree, l: nat, ias: nat, i: nat)
    requires Wf(t, l, ias) && i < 512
    ensures t.page !in KidPages(t.entries, i) && KidPages(t.entries, i) !! PagesOf(t.entries[i])
  {
    forall p | p in KidPages(t.entries, i) ensures p != t.page && p !in PagesOf(t.entries[i]) {
      KidPagesMember(t.entries, i, p);
      var j :| 0 <= j < i && p in PagesOf(t.entries[j]);
      assert EntryOk(t.entries[j], l, ias, t.page);
      assert PagesOf(t.entries[j]) !! PagesOf(t.entries[i]);
    }
  }

  lemma EntryWord(m: Memory, t: Tree, l: nat, ias: nat, i: nat)
    requires IasOk(ias) && l < 3 && i < 512 && Wf(t, l, ias) && Rep(m, t, l)
    ensures var e, word := t.entries[i], m[t.page][i];
            && (e.Sub? <==> word != 0 && !IsBlock(word))
            && (e.Sub? ==> && And(word, AddressMask(ias)) == e.table.page && e.table.page != 0
                           && Wf(e.table, l + 1, ias) && Rep(m, e.table, l + 1) && PageOk(e.table.page, ias)
                           && |e.table.entries| == 512 && e.table.page in Pages(e.table))
  {
    var e := t.entries[i];
    assert EntryOk(e, l, ias, t.page);
    match e
    case Empty =>
    case Leaf(_, _) =>
      var h, low := LeafWord(e, l, ias, t.page);
    case Sub(s) =>
      assert Wf(s, l + 1, ias);
      TableWord(s.page, ias);
      PagesMember(s, s.page);
  }

  lemma PoolGains(pool: seq<nat>, used: set<nat>, ias: nat, page: nat)
    requires PoolOk(pool, used, ias) && page in used && PageOk(page, ias)
    ensures PoolOk(pool + [page], used - {page}, ias) && Elems(pool + [page]) == Elems(pool) + {page}
  {
  }

  /** Beyond the input range the root table has only empty entries. */
  lemma {:induction false} RootFacts(m: Memory, t: Tree, ias: nat)
    requires IasOk(ias) && TableAt(m, t, ias)
    ensures Wf(t, StartLevel(ias), ias) && Rep(m, t, StartLevel(ias)) && |t.entries| == 512
    ensures forall i :: Pow2(ias - StartShift(ias)) <= i < 512 ==> t.entries[i] == Empty
    ensures PageOk(t.page, ias) && t.page in Pages(t) && Pages(t) <= m.Keys
  {
    RepPages(m, t, StartLevel(ias));
    PagesMember(t, t.page);
  }

  /** A table in memory, with the allocator's pages, is a root to work on. */
  lemma TableIsRoot(m: Memory, t: Tree, ias: nat, pool: seq<nat>, c: Counters)
    requires IasOk(ias) && TableAt(m, t, ias) && PoolOk(pool, m.Keys, ias)
    ensures RootOk(Sub(t), ias, pool) && Sound(State(t, c, pool, {}), StartLevel(ias), ias)
  {
    hide Wf, Rep, Pages, InRange, PageOk, StartLevel, Elems;
    PoolApart(pool, m.Keys, ias);
    RepPages(m, t, StartLevel(ias));
  }

  // ---- Parts of a state ----

  lemma PoolHead(pool: seq<nat>)
    requires pool != []
    ensures pool[0] in Elems(pool)
  {
  }

  lemma SoundParts(s: State, l: nat, ias: nat)
    requires Sound(s, l, ias)
    ensures Wf(s.tree, l, ias) && |s.tree.entries| == 512
  {
  }

  lemma StartSound(s: State, l: nat, ias: nat, i: nat, start: State)
    requires l < 3 && i < 512 && Sound(s, l, ias) && Under(At(s.tree, i), s.pool) == Some((start.tree, start.pool)) && start.lost == {}
    ensures Sound(start, l + 1, ias)
  {
    hide Wf, Pages, PagesOf, Elems, NoDup, PageOk;
    Entries512(s.tree, l, ias);
    UnderSound(s, l, ias, i);
  }

  lemma PageOfInner(s: State, s1: State, l: nat, ias: nat)
    requires Conserves(s, s1, l, ias)
    ensures s1.tree.page == s.tree.page
  {
  }

  lemma ResetLost(s: State, c: Counters, l: nat, ias: nat)
    requires Sound(s, l, ias)
    ensures Sound(State(s.tree, c, s.pool, {}), l, ias)
  {
    hide Wf, Pages, Elems, NoDup, PageOk;
  }

  lemma ConservesStill(s: State, l: nat, ias: nat)
    requires Sound(s, l, ias)
    ensures Conserves(s, s, l, ias)
  {
    hide Sound, Pages, Elems;
  }

  /** The loop's state is sound, and owns what the loop started with or took. */
  lemma StateParts(s: State, s1: State, l: nat, ias: nat)
    requires Sound(s, l, ias) && Conserves(s, s1, l, ias)
    ensures Sound(s1, l, ias) && s1.tree.page == s.tree.page
    ensures Pages(s1.tree) <= Pages(s.tree) + (Elems(s.pool) - Elems(s1.pool))
  {
    hide Wf, Pages, Elems, NoDup;
    OwnedPages(s, s1, l, ias);
  }

  lemma TableOf(s0: State, s: State, m: Memory, ias: nat)
    requires IasOk(ias) && Conserves(s0, s, StartLevel(ias), ias) && Rep(m, s.tree, StartLevel(ias)) && InRange(s.tree, ias)
    ensures TableAt(m, s.tree, ias) && s.tree.page == s0.tree.page
  {
  }

  class PageTables {
    var mem: Memory
    var pool: seq<nat>
    var counters: Counters
    var initialised: bool
    var offset: nat
    var addressMask: nat

    constructor (pages: seq<nat>)
      ensures mem == map[] && pool == pages && !initialised
    {
      mem, pool, counters, initialised, offset, addressMask := map[], pages, ZERO_COUNTERS, false, 0, 0;
    }

    /** The allocator hands out distinct pages that are not in use. */
    ghost predicate AllocatorOk(ias: nat)
      reads this`pool, this`mem
    {
      PoolOk(pool, mem.Keys, ias)
    }

    /** The counters a fill starts from: the first one of all resets them. */
    function Carried(): Counters
      reads this
    {
      if initialised then counters else ZERO_COUNTERS
    }

    /** One zeroed page, or 0 when there is none. */
    method AllocZeroedPage(ghost ias: nat) returns (page: nat)
      requires AllocatorOk(ias)
      modifies this`mem, this`pool
      ensures AllocatorOk(ias)
      ensures old(pool) == [] ==> page == 0 && mem == old(mem) && pool == old(pool)
      ensures old(pool) != [] ==>
                && PageOk(page, ias) && page !in old(mem) && page == old(pool)[0]
                && mem == old(mem)[page := seq(512, _ => 0)] && pool == old(pool)[1..]
                && Elems(pool) == Elems(old(pool)) - {page}
    {
      if pool == [] {
        return 0;
      }
      page := pool[0];
      pool := pool[1..];
      mem := mem[page := seq(512, _ => 0)];
    }

    method FreePage(page: nat)
      modifies this`mem, this`pool
      ensures pool == old(pool) + [page] && mem == old(mem) - {page}
    {
      pool := pool + [page];
      mem := mem - {page};
    }

    /** The object's state is the image of s. */
    ghost predicate Holds(s: State, l: nat, ias: nat)
      reads this
    {
      AllocatorOk(ias) && pool == s.pool && Carried() == s.counters && Rep(mem, s.tree, l)
    }

    /** Stores a leaf, whatever was in the entry. */
    method StoreLeaf(ttBase: nat, tableIndex: nat, word: nat, ghost t: Tree, ghost l: nat, ghost ias: nat, ghost e: Entry)
      requires Wf(t, l, ias) && Rep(mem, t, l) && t.page == ttBase && tableIndex < 512 && e.Leaf? && word == Word(e, l)
      modifies this`mem
      ensures Rep(mem, Put(t, tableIndex, e), l)
      ensures Stored(old(mem), Elems(pool), mem, Elems(pool), Pages(t)) && mem.Keys == old(mem).Keys
    {
      EntryFacts(mem, t, l, ias, tableIndex);
      PutWordKeys(mem, ttBase, tableIndex, word);
      mem := PutWord(mem, ttBase, tableIndex, word);
      hide Wf, Rep, Pages, PagesOf, Word;
      PutRep(old(mem), mem, t, l, ias, tableIndex, e);
    }

    /** The table below an entry: the one there, or a new page where there is none or a block. */
    method TableBelow(ttBase: nat, tableIndex: nat, ghost l: nat, ghost ias: nat, ghost t: Tree) returns (next: nat, ghost sub: Tree)
      requires IasOk(ias) && addressMask == AddressMask(ias) && AllocatorOk(ias) && l < 3
      requires Wf(t, l, ias) && Rep(mem, t, l) && t.page == ttBase && tableIndex < 512
      modifies this`mem, this`pool
      ensures AllocatorOk(ias)
      ensures next == 0 <==> Under(t.entries[tableIndex], old(pool)) == None
      ensures next != 0 ==> Under(t.entries[tableIndex], old(pool)) == Some((sub, pool)) && sub.page == next && Rep(mem, sub, l + 1)
      ensures next != 0 ==> Stored(old(mem), old(Elems(pool)), mem, Elems(pool), {})
    {
      hide Wf, Rep, Pages, PagesOf, EntryOk, And, AddressMask, PageOk, IsBlock, Elems;
      EntryFacts(mem, t, l, ias, tableIndex);
      EntryWord(mem, t, l, ias, tableIndex);
      StoredStill(mem, Elems(pool), {});
      var desc := mem[ttBase][tableIndex];
      if desc == 0 || IsBlock(desc) {
        next := AllocZeroedPage(ias);
        if next == 0 {
          return 0, t;
        }
        ZeroTableOk(mem, next, l + 1, ias);
        sub := ZeroTable(next);
        PoolHead(old(pool));
      } else {
        next := And(desc, addressMask);
        sub := t.entries[tableIndex].table;
      }
    }

    /** One entry that needs a next-level table: take the table there or a new page,
        fill it up to the clip, and link it. */
    method {:induction false} Descend(ttBase: nat, tableIndex: nat, ia: nat, oa: nat, inputTop: nat,
                                      level: nat, sizeLog2: nat, attr: nat,
                                      ghost ias: nat, ghost nbits: nat, ghost r: Run, ghost s: State)
      returns (ok: bool, ghost s': State)
      requires IasOk(ias) && addressMask == AddressMask(ias) && initialised && level < 3 && sizeLog2 == 12 + 9 * (3 - level)
      requires ia % 0x1000 == 0 && oa % 0x1000 == 0 && r == RunOf(ia, inputTop, oa, attr) && r.lo < r.touched && RunOk(r)
      requires nbits <= 9 && tableIndex == Slot(level, nbits, r.lo) && !Blockable(level, r)
      requires Sound(s, level, ias) && s.tree.page == ttBase && CountersOk(s.counters, level) && Holds(s, level, ias)
      modifies this
      ensures addressMask == old(addressMask)
      ensures ok <==> Stepped(level, nbits, r, s).Some?
      ensures ok ==> Some(s') == Stepped(level, nbits, r, s) && Holds(s', level, ias) && initialised && offset == 0
      ensures ok ==> Stored(old(mem), old(Elems(pool)), mem, Elems(pool), Pages(s.tree))
      decreases 3 - level, 0
    {
      hide Wf, Rep, Pages, PagesOf, Num, Span, Blockable, Pow2, AttrOk, Room, FilledBytes, Increment, CountersOk, After,
           TableDescriptor, NonEmpty, AddressMask, PageOk, RunOf, Elems, PoolOk, PutWord, Slot, Built, Stepped, Under,
           Stored, Put, Sound, Conserves;
      RunBytes(ia, inputTop, oa, attr);
      SoundParts(s, level, ias);
      SteppedEntry(level, nbits, r, s);
      ghost var c0 := counters;
      var next;
      ghost var sub, inner;
      next, sub := TableBelow(ttBase, tableIndex, level, ias, s.tree);
      if next == 0 {
        return false, s;
      }
      ghost var mem1, start, f := mem, State(sub, Increment(c0, level), pool, {}), Fed(level, r, c0);
      StartSound(s, level, ias, tableIndex, start);
      FedOk(level, r, c0);
      ClipTop(level, ia, inputTop, oa, attr, counters);
      offset := FilledBytes(level, counters);
      var maxAllowed := ia + Pow2(sizeLog2) - offset - 1;
      var nextTop := Min(inputTop, maxAllowed);
      counters := Increment(counters, level);
      ok, inner := FillTranslationTable(next, ia, nextTop, oa, level + 1, sizeLog2 - 9, 9, attr, ias, f, start);
      if !ok {
        FreePage(next);
        return false, s;
      }
      BuiltOwns(level + 1, 9, ias, f, start);
      PageOfInner(start, inner, level + 1, ias);
      ResetLost(s, inner.counters, level, ias);
      LinkStored(old(mem), mem1, mem, s.tree, level, ias, tableIndex, s.pool, start, inner);
      mem := PutWord(mem, ttBase, tableIndex, TableDescriptor(next));
      s' := Stepped(level, nbits, r, s).value;
    }

    /** One step of the builder's loop: a page, a block, or a table below. */
    method {:induction false} FillEntry(ttBase: nat, ia: nat, oa: nat, inputTop: nat,
                     level: nat, sizeLog2: nat, nbits: nat, attr: nat,
                     ghost ias: nat, ghost r: Run, ghost s: State)
      returns (ok: bool, ghost s': State)
      requires IasOk(ias) && addressMask == AddressMask(ias) && initialised
      requires level <= 3 && sizeLog2 == 12 + 9 * (3 - level) && nbits <= 9
      requires ia % 0x1000 == 0 && oa % 0x1000 == 0 && r == RunOf(ia, inputTop, oa, attr) && r.lo < r.touched && RunOk(r)
      requires Sound(s, level, ias) && s.tree.page == ttBase && CountersOk(s.counters, level) && Holds(s, level, ias)
      modifies this
      ensures addressMask == old(addressMask)
      ensures ok <==> Stepped(level, nbits, r, s).Some?
      ensures ok ==> Some(s') == Stepped(level, nbits, r, s) && Holds(s', level, ias) && initialised && offset == 0
      ensures ok ==> Stored(old(mem), old(Elems(pool)), mem, Elems(pool), Pages(s.tree))
      decreases 3 - level, 1
    {
      hide Wf, Rep, Pages, PagesOf, Num, Span, Blockable, Pow2, AttrOk, Increment, CountersOk, AddressMask, PageOk, Elems, PoolOk,
           And, Shr, PageDescriptor, BlockDescriptor, RunOf, Stepped, Put, Slot, Sound, Stored;
      RunBytes(ia, inputTop, oa, attr);
      SoundParts(s, level, ias);
      var tableIndex := And(Shr(ia, sizeLog2), Pow2(nbits) - 1);
      SlotOfStep(level, r.lo, nbits);
      BlockTest(level, r, inputTop);
      var blockSize := Pow2(sizeLog2);
      if level == 3 {
        SteppedLeaf(level, nbits, r, s);
        StoreLeaf(ttBase, tableIndex, PageDescriptor(oa, attr), s.tree, level, ias, Leaf(r.op, attr));
        counters := Increment(counters, level);
        offset := 0;
        s' := Stepped(level, nbits, r, s).value;
      } else if And(ia, blockSize - 1) == 0 && And(oa, blockSize - 1) == 0 && inputTop >= ia + blockSize - 1 {
        SteppedLeaf(level, nbits, r, s);
        StoreLeaf(ttBase, tableIndex, BlockDescriptor(oa, sizeLog2, attr), s.tree, level, ias, Leaf(r.op, attr));
        counters := Increment(counters, level);
        offset := 0;
        s' := Stepped(level, nbits, r, s).value;
      } else {
        ok, s' := Descend(ttBase, tableIndex, ia, oa, inputTop, level, sizeLog2, attr, ias, nbits, r, s);
        if !ok {
          return false, s;
        }
      }
      ok := true;
    }

    /** Describes a run of pages by the table at ttBase, whatever is there. It leaves exactly the state
        that Built gives: tree, counters, and pages taken; and it fails exactly where Built does. */
    method {:induction false} FillTranslationTable(ttBase: nat, inputBase: nat, inputTop: nat, outputBase: nat,
                                level: nat, sizeLog2: nat, nbits: nat, attr: nat,
                                ghost ias: nat, ghost r: Run, ghost s: State)
      returns (ok: bool, ghost s': State)
      requires IasOk(ias) && addressMask == AddressMask(ias)
      requires level <= 3 && sizeLog2 == 12 + 9 * (3 - level) && nbits <= 9
      requires inputBase % 0x1000 == 0 && outputBase % 0x1000 == 0 && r == RunOf(inputBase, inputTop, outputBase, attr) && RunOk(r)
      requires Sound(s, level, ias) && s.tree.page == ttBase && CountersOk(s.counters, level) && Holds(s, level, ias)
      modifies this
      ensures addressMask == old(addressMask)
      ensures ok <==> Built(level, nbits, r, s).Some?
      ensures ok ==> Some(s') == Built(level, nbits, r, s) && Holds(s', level, ias) && initialised
      ensures ok && r.lo < r.touched ==> offset == 0
      ensures ok ==> Stored(old(mem), old(Elems(pool)), mem, Elems(pool), Pages(s.tree))
      decreases 3 - level, 2
    {
      hide Wf, Rep, Pages, Num, Span, And, Pow2, AttrOk, CountersOk, AddressMask, PageOk, PoolOk, Elems, Sound, Stored, Built, Stepped,
           Conserves, NonEmpty;
      if !initialised {
        counters := ZERO_COUNTERS;
        initialised := true;
      }
      var blockSize := Pow2(sizeLog2);
      var ia, oa := inputBase, outputBase;
      ghost var b, ip := Span(level + 1), r.lo;
      BlockBytes(level);
      PoolApart(pool, mem.Keys, ias);
      s' := s;
      StoredStill(mem, Elems(pool), Pages(s.tree));
      ConservesStill(s, level, ias);
      assert From(r, ip) == r;
      while ia < inputTop
        invariant r.lo <= ip && ia == ip * 0x1000 && oa == (r.op + (ip - r.lo)) * 0x1000
        invariant ip == r.lo || (r.lo < r.touched && ip < r.touched + b)
        invariant initialised && addressMask == old(addressMask) && Holds(s', level, ias)
        invariant Conserves(s, s', level, ias) && CountersOk(s'.counters, level)
        invariant Stored(old(mem), old(Elems(pool)), mem, Elems(pool), Pages(s.tree))
        invariant Built(level, nbits, r, s) == Built(level, nbits, From(r, ip), s')
        invariant r.lo < ip ==> offset == 0
        decreases inputTop - ia
      {
        ghost var mem1, cur, rest := mem, s', From(r, ip);
        assert ip < r.touched && rest == RunOf(ia, inputTop, oa, attr);
        StateParts(s, cur, level, ias);
        BuiltStep(level, nbits, rest, cur);
        ok, s' := FillEntry(ttBase, ia, oa, inputTop, level, sizeLog2, nbits, attr, ias, rest, cur);
        if !ok {
          return false, s;
        }
        SteppedOwns(level, nbits, ias, rest, cur);
        TakenStep(s, cur, s', level, ias);
        StoredTwice(old(mem), old(Elems(pool)), mem1, Elems(cur.pool), mem, Elems(pool), Pages(s.tree), Pages(cur.tree));
        assert From(rest, ip + b) == From(r, ip + b);
        ia, oa := ia + (blockSize - offset), oa + (blockSize - offset);
        ip := ip + b;
      }
      BuiltNone(level, nbits, From(r, ip), s');
      ok := true;
    }

    /** Creates a table for the region, or adds the region to the table at pgtBase, whatever is
        mapped there. It leaves exactly the state that Created gives, and fails exactly where
        Created does. */
    method {:induction false} Create(g: Region, pgtBase: nat, ias: nat, oas: nat, ghost t: Tree)
      returns (ok: bool, base: nat, ghost s: State)
      requires IasOk(ias) && AllocatorOk(ias) && CountersOk(Carried(), StartLevel(ias))
      requires pgtBase != 0 ==> TableAt(mem, t, ias) && t.page == pgtBase
      requires g.length > 0 && Accepted(g, oas) ==> RunOk(RegionRun(g, ias))
      modifies this
      ensures ok <==> Created(g, Root(pgtBase, t), ias, oas, old(Carried()), old(pool)).Some?
      ensures ok ==> Some(s) == Created(g, Root(pgtBase, t), ias, oas, old(Carried()), old(pool))
      ensures ok ==> AllocatorOk(ias) && pool == s.pool && Carried() == s.counters
      ensures ok ==> TableAt(mem, s.tree, ias) && base == s.tree.page != 0 && (pgtBase != 0 ==> base == pgtBase)
      ensures ok ==> Stored(old(mem), old(Elems(pool)), mem, Elems(pool), PagesOf(Root(pgtBase, t)))
      // with pages enough it fails by the checks alone
      ensures |old(pool)| >= 1 + 3 * (g.length / 0x1000 + 1) ==>
                (ok <==> g.length == 0 || (g.va % 0x1000 == 0 && g.pa % 0x1000 == 0 && g.pa < Pow2(oas)))
      ensures ok && g.length > 0 ==> g.va % 0x1000 == 0 && g.pa % 0x1000 == 0 && g.pa < Pow2(oas)
      // a region that fails the checks
      ensures g.length > 0 && !Accepted(g, oas) ==> !ok
      ensures g.length > 0 && !Accepted(g, oas) && pgtBase != 0 ==> mem == old(mem) && pool == old(pool)
      ensures g.length > 0 && !Accepted(g, oas) && pgtBase == 0 && old(pool) != [] ==>
                pool == old(pool)[1..] && old(pool)[0] in mem
      // running out of pages: the root goes to the free list, also one that the caller still holds
      ensures !ok && g.length > 0 && Accepted(g, oas) && pgtBase != 0 ==>
                pool != [] && pool[|pool| - 1] == pgtBase && pgtBase !in mem
    {
      hide Wf, Rep, Pages, PagesOf, And, Pow2, AddressMask, CountersOk, PageOk, PoolOk, Elems, Stored, TableAt, InRange, RegionRun,
           StartLevel, StartShift, Levels, RunOk, Built, Sound, Conserves;
      var level, sizeLog2, nbits := Geometry(ias);
      PoolApart(pool, mem.Keys, ias);
      ghost var r := RegionRun(g, ias);
      if |pool| >= 1 + 3 * (g.length / 0x1000 + 1) { CreatedEnough(g, Root(pgtBase, t), ias, oas, Carried(), pool); }
      var ttBase;
      ttBase, s := RootTable(pgtBase, ias, t);
      if ttBase == 0 {
        return false, pgtBase, s;
      }
      ghost var mem1, s0 := mem, s;
      addressMask := AddressMask(ias);
      if g.length != 0 {
        MaskedAddresses(g, ias, oas);
        if And(g.va, PAGE_SIZE - 1) != 0 || And(g.pa, PAGE_SIZE - 1) != 0 {
          return false, pgtBase, s;
        }
        if g.pa >= Pow2(oas) {
          return false, pgtBase, s;
        }
        var va := g.va;
        if va >= Pow2(ias) {
          va := And(va, Pow2(ias) - 1);
        }
        var inputBase := And(va, Pow2(ias) - 1);
        var inputTop := inputBase + g.length - 1;
        var outputBase := And(g.pa, Pow2(oas) - 1);
        RegionBytes(g, ias);
        TableParts(mem, s0.tree, ias);
        ok, s := FillTranslationTable(ttBase, inputBase, inputTop, outputBase, level, sizeLog2, nbits, g.attr, ias, r, s0);
        if !ok {
          FreePage(ttBase);
          return false, pgtBase, s;
        }
        BuiltOwns(level, nbits, ias, r, s0);
        BuiltInRange(r, s0, ias);
        StoredTwice(old(mem), old(Elems(pool)), mem1, Elems(s0.pool), mem, Elems(pool), PagesOf(Root(pgtBase, t)), Pages(s0.tree));
        TableOf(s0, s, mem, ias);
      }
      ok, base := true, ttBase;
    }

    /** The root to work on: the one given, or a new empty page. */
    method RootTable(pgtBase: nat, ghost ias: nat, ghost t: Tree) returns (ttBase: nat, ghost s: State)
      requires IasOk(ias) && AllocatorOk(ias)
      requires pgtBase != 0 ==> TableAt(mem, t, ias) && t.page == pgtBase
      modifies this`mem, this`pool
      ensures AllocatorOk(ias)
      ensures pgtBase != 0 ==> ttBase == pgtBase && mem == old(mem) && pool == old(pool)
      ensures pgtBase == 0 && old(pool) != [] ==> ttBase == old(pool)[0] && pool == old(pool)[1..] && ttBase in mem
      ensures ttBase == 0 <==> Under(Root(pgtBase, t), old(pool)) == None
      ensures ttBase != 0 ==> Under(Root(pgtBase, t), old(pool)) == Some((s.tree, pool)) && s == State(s.tree, old(Carried()), pool, {})
      ensures ttBase != 0 ==> TableAt(mem, s.tree, ias) && s.tree.page == ttBase && Sound(s, StartLevel(ias), ias)
      ensures ttBase != 0 ==> Stored(old(mem), old(Elems(pool)), mem, Elems(pool), PagesOf(Root(pgtBase, t)))
      ensures ttBase != 0 ==> Pages(s.tree) <= PagesOf(Root(pgtBase, t)) + (old(Elems(pool)) - Elems(pool))
    {
      hide Wf, Rep, Pages, StartLevel, Levels, InRange, Elems, Sound, PageOk;
      StartFacts(ias);
      StoredStill(mem, Elems(pool), Pages(t));
      if pgtBase == 0 {
        ttBase := AllocZeroedPage(ias);
        s := State(ZeroTable(ttBase), Carried(), pool, {});
        if ttBase != 0 {
          PoolHead(old(pool));
          ZeroTableOk(mem, ttBase, StartLevel(ias), ias);
          ZeroTableInRange(ttBase, ias);
          TableIsRoot(mem, s.tree, ias, pool, Carried());
        }
      } else {
        ttBase, s := pgtBase, State(t, Carried(), pool, {});
        SubPages(Root(pgtBase, t));
        RootFacts(mem, t, ias);
        TableIsRoot(mem, t, ias, pool, Carried());
      }
    }

    /** Attributes of the leaf that maps a virtual address, by walking the table at pgtBase. */
    method {:induction false} GetAttributes(pgtBase: nat, ias: nat, va: nat) returns (w: WalkResult)
      requires IasOk(ias)
      ensures w == if pgtBase == 0 then NotMapped
                   else WalkFrom(mem, pgtBase, StartLevel(ias), StartShift(ias), ias - StartShift(ias), ias, va)
    {
      hide And, Pow2, Shr, IsPage, IsBlock, Attributes, AddressMask, StartLevel, StartShift, Levels;
      StartFacts(ias);
      if pgtBase == 0 {
        return NotMapped;
      }
      var level, shift, nbits := Geometry(ias);
      var base := pgtBase;
      while true
        invariant level <= 3 && nbits <= 9 && shift >= 12 + 9 * (3 - level)
        invariant WalkFrom(mem, pgtBase, StartLevel(ias), StartShift(ias), ias - StartShift(ias), ias, va) ==
                  WalkFrom(mem, base, level, shift, nbits, ias, va)
        decreases 3 - level
      {
        var index := And(Shr(va, shift), Pow2(nbits) - 1);
        if base !in mem || index >= |mem[base]| {
          return Fault;
        }
        var word := mem[base][index];
        if level == 3 {
          if !IsPage(word) {
            return NotMapped;
          }
          return Found(Attributes(word));
        }
        if IsBlock(word) {
          return Found(Attributes(word));
        }
        base := And(word, AddressMask(ias));
        level := level + 1;
        shift := shift - nbits;
        nbits := 9;
      }
    }

    /** Frees every table below the one at ttBase. Freed pages leave memory, so no table
        is read after it was freed. */
    method {:induction false} FreeTranslationTable(ttBase: nat, nbits: nat, level: nat, ghost ias: nat, ghost t: Tree)
      requires IasOk(ias) && addressMask == AddressMask(ias) && AllocatorOk(ias) && level <= 3 && nbits <= 9
      requires Wf(t, level, ias) && Rep(mem, t, level) && t.page == ttBase
      requires forall i :: Pow2(nbits) <= i < 512 ==> t.entries[i] == Empty
      modifies this`mem, this`pool
      ensures AllocatorOk(ias)
      ensures Elems(pool) == old(Elems(pool)) + (Pages(t) - {ttBase})
      ensures mem == old(mem) - (Pages(t) - {ttBase})
      decreases 3 - level
    {
      hide Wf, Rep, Pages, KidPages, And, Pow2, AddressMask, IsBlock, PoolOk, Elems;
      FreeFacts(t, level, ias, nbits);
      if level == 3 {
        return;
      }
      var index := 0;
      while index < Pow2(nbits)
        invariant index <= Pow2(nbits) && AllocatorOk(ias)
        invariant Elems(pool) == old(Elems(pool)) + KidPages(t.entries, index)
        invariant mem == old(mem) - KidPages(t.entries, index)
      {
        FreeStep(old(mem), t, level, ias, index);
        var word := mem[ttBase][index];
        if word != 0 && !IsBlock(word) {
          var next := And(word, addressMask);
          ghost var sub := t.entries[index].table;
          if next != 0 {
            FreeTranslationTable(next, 9, level + 1, ias, sub);
            PoolGains(pool, mem.Keys, ias, next);
            FreePage(next);
          }
        }
        index := index + 1;
      }
    }

    /** Frees a whole table. */
    method Destroy(pgtBase: nat, ias: nat, ghost t: Tree)
      requires IasOk(ias) && AllocatorOk(ias)
      requires pgtBase != 0 ==> TableAt(mem, t, ias) && t.page == pgtBase
      modifies this
      ensures AllocatorOk(ias)
      ensures pgtBase != 0 ==> Elems(pool) == old(Elems(pool)) + Pages(t) && mem == old(mem) - Pages(t)
      ensures pgtBase != 0 ==> old(Elems(pool)) !! Pages(t)
      ensures pgtBase == 0 ==> pool == old(pool) && mem == old(mem)
    {
      hide Wf, Rep, Pages, Pow2, AddressMask, InRange, PoolOk, Elems, PageOk, StartLevel, StartShift, Levels, TableAt;
      if pgtBase == 0 {
        return;
      }
      var level, sizeLog2, nbits := Geometry(ias);
      addressMask := AddressMask(ias);
      RootFacts(mem, t, ias);
      PoolApart(pool, mem.Keys, ias);
      FreeTranslationTable(pgtBase, nbits, level, ias, t);
      PoolGains(pool, mem.Keys, ias, pgtBase);
      FreePage(pgtBase);
    }
  }
}

/** The abstract value of a translation table: a tree of 512-entry tables, the
    translation it defines, the pages it owns, and the memory image it stands for.
    Addresses are page numbers here (byte address / 4096); a table at level 0..3
    resolves nine bits of the page number, level 3 the last nine. */
module PageTree {
  import opened Common
  import opened Bits
  import opened Descriptors

  datatype Entry = Empty | Leaf(frame: nat, attr: nat) | Sub(table: Tree)
  datatype Tree = Tree(page: nat, entries: seq<Entry>)

  /** What a lookup yields: the physical page number and the leaf's attributes. */
  datatype Mapping = Mapping(frame: nat, attr: nat)

  type Memory = map<nat, seq<nat>>

  // ---- Address arithmetic ----

  /** Pages spanned by one table at level l; one entry at level l spans Span(l + 1). */
  function Span(l: nat): (r: nat)
    ensures r >= 1
    decreases 4 - l
  {
    if l >= 4 then 1 else 512 * Span(l + 1)
  }

  /** The ordinal, among all tables of level l, of the table that covers page vp. */
  function Num(l: nat, vp: nat): nat
    decreases 4 - l
  {
    if l >= 4 then vp else Num(l + 1, vp) / 512
  }

  /** The entry of a level-l table that page vp selects. */
  function Index(l: nat, vp: nat): (r: nat)
    ensures r < 512
  {
    Num(l + 1, vp) % 512
  }

  lemma SpanValues()
    ensures Span(4) == 1 && Span(3) == 0x200 && Span(2) == 0x4_0000
    ensures Span(1) == 0x800_0000 && Span(0) == 0x10_0000_0000
  {
    assert Span(4) == 1;
    assert Span(3) == 512 * Span(4);
    assert Span(2) == 512 * Span(3);
    assert Span(1) == 512 * Span(2);
    assert Span(0) == 512 * Span(1);
  }

  lemma SpanStep(l: nat)
    requires l < 4
    ensures Span(l) == 512 * Span(l + 1)
  {
  }

  lemma NumIsDiv(l: nat, vp: nat)
    requires l <= 4
    ensures Num(l, vp) == vp / Span(l)
  {
    SpanValues();
    assert Num(4, vp) == vp;
    assert Num(3, vp) == Num(4, vp) / 512;
    assert Num(2, vp) == Num(3, vp) / 512;
    assert Num(1, vp) == Num(2, vp) / 512;
    assert Num(0, vp) == Num(1, vp) / 512;
  }

  /** The first page under ordinal q of level l. */
  lemma {:induction false} NumOfFirst(l: nat, q: nat)
    requires l <= 4
    ensures Num(l, q * Span(l)) == q
    decreases 4 - l
  {
    hide Span;
    if l == 4 {
      SpanValues();
    } else {
      SpanStep(l);
      NumOfFirst(l + 1, q * 512);
      assert (q * 512) * Span(l + 1) == q * (512 * Span(l + 1));
    }
  }

  /** Two pages under one ordinal are less than a span apart. */
  lemma NumClose(l: nat, a: nat, b: nat)
    requires l <= 4 && a <= b && Num(l, a) == Num(l, b)
    ensures b < a + Span(l)
  {
    SpanValues();
    NumIsDiv(l, a);
    NumIsDiv(l, b);
  }

  /** The pages under one ordinal, counted from its aligned first page. */
  lemma NumAligned(l: nat, a: nat, b: nat)
    requires l <= 4 && a % Span(l) == 0
    ensures Num(l, b) == Num(l, a) <==> a <= b < a + Span(l)
    ensures a <= b < a + Span(l) ==> b % Span(l) == b - a
  {
    hide Num, Span;
    var s := Span(l);
    NumIsDiv(l, a);
    NumIsDiv(l, b);
    var q, r := DivParts(a, s);
    if a <= b < a + s {
      DivUnique(b, s, q, b - a);
    } else {
      var p, m := DivParts(b, s);
    }
  }

  /** Alignment to a span is kept by adding a span and implies alignment to smaller ones. */
  lemma Aligned(l: nat, a: nat)
    requires l <= 4 && a % Span(l) == 0
    ensures (a + Span(l)) % Span(l) == 0
    ensures l < 4 ==> a % Span(l + 1) == 0
  {
    var q := a / Span(l);
    assert a == q * Span(l);
    DivUnique(a + Span(l), Span(l), q + 1, 0);
    if l < 4 {
      assert q * Span(l) == (512 * q) * Span(l + 1);
      DivUnique(a, Span(l + 1), 512 * q, 0);
    }
  }

  lemma NumMono(l: nat, a: nat, b: nat)
    requires l <= 4 && a <= b
    ensures Num(l, a) <= Num(l, b)
    decreases 4 - l
  {
    if l < 4 { NumMono(l + 1, a, b); }
  }

  // ---- Lookup ----

  /** The translation of page vp by a table at level l. */
  function Lookup(t: Tree, l: nat, vp: nat): Option<Mapping> {
    var i := Index(l, vp);
    if i >= |t.entries| then None
    else match t.entries[i]
      case Empty => None
      case Leaf(frame, attr) => Some(Mapping(frame + vp % Span(l + 1), attr))
      case Sub(s) => Lookup(s, l + 1, vp)
  }

  // ---- Ownership ----

  function Pages(t: Tree): set<nat>
  {
    {t.page} + KidPages(t.entries, |t.entries|)
  }

  function PagesOf(e: Entry): set<nat> {
    if e.Sub? then Pages(e.table) else {}
  }

  /** The pages of the tables hanging off the first k entries. */
  function KidPages(es: seq<Entry>, k: nat): set<nat>
    requires k <= |es|
    decreases es, k
  {
    if k == 0 then {} else KidPages(es, k - 1) + PagesOf(es[k - 1])
  }

  lemma {:induction false} KidPagesMember(es: seq<Entry>, k: nat, p: nat)
    requires k <= |es|
    ensures p in KidPages(es, k) <==> exists i :: 0 <= i < k && p in PagesOf(es[i])
  {
    if k > 0 {
      KidPagesMember(es, k - 1, p);
    }
  }

  lemma PagesMember(t: Tree, p: nat)
    ensures p in Pages(t) <==> p == t.page || exists i :: 0 <= i < |t.entries| && p in PagesOf(t.entries[i])
  {
    KidPagesMember(t.entries, |t.entries|, p);
  }

  /** A page that can hold a table: 4 KiB aligned, not null, below 2^ias. */
  predicate PageOk(p: nat, ias: nat)
  {
    p % 0x1000 == 0 && 0 < p < Pow2(ias)
  }

  predicate EntryOk(e: Entry, l: nat, ias: nat, page: nat)
    decreases e, 0
  {
    match e
    case Empty => true
    case Leaf(frame, attr) =>
      // aligned to its size; level 0 included, where the architecture knows no blocks
      frame % Span(l + 1) == 0 && frame + Span(l + 1) <= 0x10_0000_0000 && AttrOk(attr)
    case Sub(s) => l < 3 && Wf(s, l + 1, ias) && NonEmpty(s) && page !in Pages(s)
  }

  /** A well-formed table: 512 entries, kinds legal at their level, no empty
      subtable, and no page owned twice. */
  predicate Wf(t: Tree, l: nat, ias: nat)
    decreases t
  {
    && l <= 3 && |t.entries| == 512 && PageOk(t.page, ias)
    && (forall i :: 0 <= i < 512 ==> EntryOk(t.entries[i], l, ias, t.page))
    && (forall i, j :: 0 <= i < j < 512 ==> PagesOf(t.entries[i]) !! PagesOf(t.entries[j]))
  }

  predicate NonEmpty(t: Tree) { exists i :: 0 <= i < |t.entries| && !t.entries[i].Empty? }

  // ---- Memory image ----

  function PutWord(m: Memory, page: nat, i: nat, word: nat): Memory
    requires page in m && i < |m[page]|
  {
    var words: seq<nat> := m[page];
    var words': seq<nat> := words[i := word];
    m[page := words']
  }

  /** The descriptor word that stands for an entry of a level-l table. */
  function Word(e: Entry, l: nat): nat {
    match e
    case Empty => 0
    case Leaf(frame, attr) =>
      if l >= 3 then PageDescriptor(frame * 0x1000, attr)
      else BlockDescriptor(frame * 0x1000, 12 + 9 * (3 - l), attr)
    case Sub(s) => TableDescriptor(s.page)
  }

  /** Memory holds the image of table t at level l. */
  predicate Rep(mem: Memory, t: Tree, l: nat)
    decreases t
  {
    && t.page in mem && |mem[t.page]| == |t.entries|
    && (forall i :: 0 <= i < |t.entries| ==> mem[t.page][i] == Word(t.entries[i], l))
    && (forall i :: 0 <= i < |t.entries| && t.entries[i].Sub? ==> Rep(mem, t.entries[i].table, l + 1))
  }

  lemma {:induction false} RepPages(mem: Memory, t: Tree, l: nat)
    requires Rep(mem, t, l)
    ensures Pages(t) <= mem.Keys
    decreases t
  {
    forall p | p in Pages(t)
      ensures p in mem
    {
      PagesMember(t, p);
      if p != t.page {
        var i :| 0 <= i < |t.entries| && p in PagesOf(t.entries[i]);
        RepPages(mem, t.entries[i].table, l + 1);
      }
    }
  }

  /** Only the pages a table owns matter to its image. */
  lemma {:induction false} RepFrame(m0: Memory, m1: Memory, t: Tree, l: nat)
    requires Rep(m0, t, l)
    requires forall p :: p in Pages(t) ==> p in m1 && p in m0 && m1[p] == m0[p]
    ensures Rep(m1, t, l)
    decreases t
  {
    PagesMember(t, t.page);
    forall i | 0 <= i < |t.entries| && t.entries[i].Sub?
      ensures Rep(m1, t.entries[i].table, l + 1)
    {
      forall p | p in Pages(t.entries[i].table) ensures p in Pages(t) {
        assert p in PagesOf(t.entries[i]);
        PagesMember(t, p);
      }
      RepFrame(m0, m1, t.entries[i].table, l + 1);
    }
  }

  // ---- Replacing one entry ----

  function Put(t: Tree, i: nat, e: Entry): Tree
    requires i < |t.entries|
  {
    t.(entries := t.entries[i := e])
  }

  lemma PutPages(t: Tree, i: nat, e: Entry, p: nat)
    requires i < |t.entries|
    ensures p in Pages(Put(t, i, e)) ==> p in Pages(t) || p in PagesOf(e)
    ensures p in PagesOf(e) ==> p in Pages(Put(t, i, e))
    ensures p in Pages(t) && p !in PagesOf(t.entries[i]) ==> p in Pages(Put(t, i, e))
  {
    var t' := Put(t, i, e);
    PagesMember(t, p);
    PagesMember(t', p);
    assert t'.entries[i] == e;
    assert forall j :: 0 <= j < |t.entries| && j != i ==> t'.entries[j] == t.entries[j];
  }

  /** In a well-formed table the pages of an entry give way exactly to those of its successor. */
  lemma PutPagesExact(t: Tree, l: nat, ias: nat, i: nat, e: Entry)
    requires Wf(t, l, ias) && i < 512
    ensures Pages(Put(t, i, e)) == (Pages(t) - PagesOf(t.entries[i])) + PagesOf(e)
    ensures PagesOf(t.entries[i]) <= Pages(t) && t.page !in PagesOf(t.entries[i])
  {
    hide Pages, PagesOf;
    var t' := Put(t, i, e);
    forall p ensures p in Pages(t') <==> p in (Pages(t) - PagesOf(t.entries[i])) + PagesOf(e) {
      PutPages(t, i, e, p);
      if p in PagesOf(t.entries[i]) && p !in PagesOf(e) { PagesGone(t, l, ias, i, e, p); }
    }
    PagesOfEntry(t, l, ias, i);
  }

  lemma PagesOfEntry(t: Tree, l: nat, ias: nat, i: nat)
    requires Wf(t, l, ias) && i < 512
    ensures PagesOf(t.entries[i]) <= Pages(t) && t.page !in PagesOf(t.entries[i]) && t.page in Pages(t)
  {
    assert EntryOk(t.entries[i], l, ias, t.page);
    PagesMember(t, t.page);
    forall p | p in PagesOf(t.entries[i]) ensures p in Pages(t) { PagesMember(t, p); }
  }

  lemma PagesGone(t: Tree, l: nat, ias: nat, i: nat, e: Entry, p: nat)
    requires Wf(t, l, ias) && i < 512 && p in PagesOf(t.entries[i]) && p !in PagesOf(e)
    ensures p !in Pages(Put(t, i, e))
  {
    hide Pages, PagesOf;
    var t' := Put(t, i, e);
    PagesMember(t', p);
    PagesOfEntry(t, l, ias, i);
    forall j | 0 <= j < 512 ensures p !in PagesOf(t'.entries[j]) {
      if j < i { assert PagesOf(t.entries[j]) !! PagesOf(t.entries[i]); }
      if j > i { assert PagesOf(t.entries[i]) !! PagesOf(t.entries[j]); }
    }
  }

  /** Replacing one entry by a sound one whose pages are its own old pages or new
      to the table keeps the table well-formed. */
  lemma PutWf(t: Tree, l: nat, ias: nat, i: nat, e: Entry, unused: set<nat>)
    requires Wf(t, l, ias) && i < 512 && EntryOk(e, l, ias, t.page)
    requires unused !! Pages(t) && PagesOf(e) <= PagesOf(t.entries[i]) + unused
    ensures Wf(Put(t, i, e), l, ias)
  {
    var t' := Put(t, i, e);
    forall a, b | 0 <= a < b < 512
      ensures PagesOf(t'.entries[a]) !! PagesOf(t'.entries[b])
    {
      if a == i || b == i {
        var j := if a == i then b else a;
        assert PagesOf(t.entries[i]) !! PagesOf(t.entries[j]);
        forall p | p in PagesOf(t.entries[j]) ensures p in Pages(t) { PagesMember(t, p); }
      }
    }
  }

  /** The image after a store to one entry: memory changed only at that word, on
      the old pages of the entry and on pages that were not in use. */
  lemma PutRep(m0: Memory, m1: Memory, t: Tree, l: nat, ias: nat, i: nat, e: Entry)
    requires Wf(t, l, ias) && Rep(m0, t, l) && i < 512
    requires e.Sub? ==> Rep(m1, e.table, l + 1)
    requires t.page in m1 && m1[t.page] == m0[t.page][i := Word(e, l)]
    requires forall p :: p in m0 && p != t.page && p !in PagesOf(t.entries[i]) ==> p in m1 && m1[p] == m0[p]
    ensures Rep(m1, Put(t, i, e), l)
  {
    var t' := Put(t, i, e);
    forall j | 0 <= j < 512 && t'.entries[j].Sub?
      ensures Rep(m1, t'.entries[j].table, l + 1)
    {
      if j != i {
        var s := t.entries[j].table;
        assert EntryOk(t.entries[j], l, ias, t.page);
        assert PagesOf(t.entries[i]) !! PagesOf(t.entries[j]);
        RepPages(m0, s, l + 1);
        RepFrame(m0, m1, s, l + 1);
      }
    }
  }

  /** An entry replaced at index i decides exactly the pages that select i. */
  lemma PutLookup(t: Tree, l: nat, i: nat, e: Entry, vp: nat)
    requires i < |t.entries|
    ensures Index(l, vp) != i ==> Lookup(Put(t, i, e), l, vp) == Lookup(t, l, vp)
    ensures Index(l, vp) == i ==>
              Lookup(Put(t, i, e), l, vp) ==
              match e
              case Empty => None
              case Leaf(frame, attr) => Some(Mapping(frame + vp % Span(l + 1), attr))
              case Sub(s) => Lookup(s, l + 1, vp)
  {
  }

  // ---- Freshly zeroed table ----

  ghost predicate NothingMapped(t: Tree, l: nat) { forall vp: nat :: Lookup(t, l, vp) == None }

  function ZeroTable(page: nat): Tree { Tree(page, seq(512, _ => Empty)) }

  lemma {:induction false} EmptyKids(es: seq<Entry>, k: nat)
    requires k <= |es| && forall i :: 0 <= i < |es| ==> es[i] == Empty
    ensures KidPages(es, k) == {}
  {
    if k > 0 { EmptyKids(es, k - 1); }
  }

  lemma ZeroTableWf(page: nat, l: nat, ias: nat)
    requires l <= 3 && PageOk(page, ias)
    ensures Wf(ZeroTable(page), l, ias) && ZeroTable(page).page == page && Pages(ZeroTable(page)) == {page}
    ensures NothingMapped(ZeroTable(page), l)
  {
    EmptyKids(ZeroTable(page).entries, 512);
  }

  lemma ZeroTableOk(mem: Memory, page: nat, l: nat, ias: nat)
    requires l <= 3 && PageOk(page, ias) && page in mem && mem[page] == seq(512, _ => 0)
    ensures Wf(ZeroTable(page), l, ias) && Rep(mem, ZeroTable(page), l)
    ensures ZeroTable(page).page == page && Pages(ZeroTable(page)) == {page}
    ensures NothingMapped(ZeroTable(page), l)
  {
    ZeroTableWf(page, l, ias);
  }

  // ---- No table is empty ----

  /** A non-empty table maps some page of every window it may stand for. */
  lemma {:induction false} SomeMapped(t: Tree, l: nat, ias: nat, n: nat) returns (vp: nat)
    requires Wf(t, l, ias) && NonEmpty(t)
    ensures Num(l, vp) == n && Lookup(t, l, vp).Some?
    decreases t
  {
    hide Span, Lookup;
    var i :| 0 <= i < |t.entries| && !t.entries[i].Empty?;
    var q := n * 512 + i;
    assert EntryOk(t.entries[i], l, ias, t.page);
    if t.entries[i].Leaf? {
      vp := q * Span(l + 1);
      NumOfFirst(l + 1, q);
    } else {
      vp := SomeMapped(t.entries[i].table, l + 1, ias, q);
    }
    UnderEntry(t, l, n, i, vp);
  }

  /** A page under entry i of window n of level l. */
  lemma UnderEntry(t: Tree, l: nat, n: nat, i: nat, vp: nat)
    requires l <= 3 && i < 512 == |t.entries| && Num(l + 1, vp) == n * 512 + i
    ensures Num(l, vp) == n && Index(l, vp) == i
    ensures t.entries[i].Leaf? ==> Lookup(t, l, vp).Some?
    ensures t.entries[i].Sub? ==> Lookup(t, l, vp) == Lookup(t.entries[i].table, l + 1, vp)
  {
    hide Span;
    DivUnique(n * 512 + i, 512, n, i);
  }

  lemma MappedNonEmpty(t: Tree, l: nat, vp: nat)
    requires Lookup(t, l, vp).Some?
    ensures NonEmpty(t)
  {
    assert !t.entries[Index(l, vp)].Empty?;
  }
}

/** Reading a table: the walker's loop, and the translation the architecture defines on
    the words themselves (VMSAv8-64, 4 KiB granule: section D8.3 of Arm DDI 0487). */
module Walk {
  import opened Common
  import opened Bits
  import opened Descriptors
  import opened PageTree
  import opened BuildSteps

  /** Outcome of a walk: the leaf's attributes, an error status, or a read outside the tables. */
  datatype WalkResult = Found(attr: nat) | NotMapped | Fault

  // ---- Address split, from the input address size ----

  function Levels(ias: nat): nat
    requires ias >= 4
  {
    (ias - 12 + 9 - 1) / 9
  }

  predicate IasOk(ias: nat) { 12 < ias <= 48 }

  function StartLevel(ias: nat): nat
    requires IasOk(ias)
  {
    4 - Levels(ias)
  }

  function StartShift(ias: nat): nat
    requires IasOk(ias)
  {
    (Levels(ias) - 1) * 9 + 12
  }

  lemma StartFacts(ias: nat)
    requires IasOk(ias)
    ensures 1 <= Levels(ias) <= 4 && StartLevel(ias) <= 3
    ensures StartShift(ias) == 12 + 9 * (3 - StartLevel(ias)) && 1 <= ias - StartShift(ias) <= 9
  {
  }

  // ---- The walker ----

  /** The walker from one table on. Each step shifts by the bits of the level it leaves. */
  function WalkFrom(mem: Memory, base: nat, level: nat, shift: nat, nbits: nat, ias: nat, va: nat): WalkResult
    requires 12 <= ias && level <= 3 && nbits <= 9 && shift >= 12 + 9 * (3 - level)
    decreases 3 - level
  {
    var index := And(Shr(va, shift), Pow2(nbits) - 1);
    if base !in mem || index >= |mem[base]| then Fault
    else
      var word := mem[base][index];
      if level == 3 then
        if IsPage(word) then Found(Attributes(word)) else NotMapped
      else if IsBlock(word) then Found(Attributes(word))
      else WalkFrom(mem, And(word, AddressMask(ias)), level + 1, shift - nbits, 9, ias, va)
  }

  /** The walker's answer agrees with the tree's translation: the leaf's attributes for a
      mapped page, the error status for any other. */
  predicate Answers(w: WalkResult, m: Option<Mapping>) {
    match m
    case Some(x) => w == Found(x.attr)
    case None => w == NotMapped
  }

  /** The level of the table where the lookup of an unmapped page meets an empty entry. */
  function EmptyLevel(t: Tree, l: nat, vp: nat): (r: nat)
    requires Lookup(t, l, vp) == None
    ensures r >= l
  {
    var i := Index(l, vp);
    if i < |t.entries| && t.entries[i].Sub? then EmptyLevel(t.entries[i].table, l + 1, vp) else l
  }

  lemma {:induction false} EmptyLevelBound(t: Tree, l: nat, ias: nat, vp: nat)
    requires Wf(t, l, ias) && Lookup(t, l, vp) == None
    ensures EmptyLevel(t, l, vp) <= 3
    decreases t
  {
    var e := t.entries[Index(l, vp)];
    assert EntryOk(e, l, ias, t.page);
    if e.Sub? { EmptyLevelBound(e.table, l + 1, ias, vp); }
  }

  lemma LeafWord(e: Entry, l: nat, ias: nat, page: nat) returns (h: nat, low: nat)
    requires l <= 3 && e.Leaf? && EntryOk(e, l, ias, page)
    ensures Fields(h, e.frame, low, if l == 3 then 3 else 1) && e.attr == Compose(h, 0, low, 0)
    ensures Word(e, l) == Compose(h, e.frame, low, if l == 3 then 3 else 1)
    ensures Attributes(Word(e, l)) == e.attr && IsPage(Word(e, l)) == (l == 3) && IsBlock(Word(e, l)) == (l < 3)
  {
    hide Attributes, AttrOk, PageDescriptor, BlockDescriptor, Compose, Span, Pow2;
    if l == 3 {
      h, low := PageFields(e.frame, e.attr);
      KindOf(h, e.frame, low, 3);
      MaskAttributes(h, e.frame, low, 3);
    } else {
      BlockAligned(l, e.frame);
      h, low := BlockFields(e.frame, 12 + 9 * (3 - l), e.attr);
      KindOf(h, e.frame, low, 1);
      MaskAttributes(h, e.frame, low, 1);
    }
  }

  lemma BlockAligned(l: nat, frame: nat)
    requires l <= 3 && frame % Span(l + 1) == 0
    ensures frame * 0x1000 % Pow2(12 + 9 * (3 - l)) == 0
  {
    BlockBytes(l);
    var q, r := DivParts(frame, Span(l + 1));
    assert frame * 0x1000 == q * (0x1000 * Span(l + 1));
    DivUnique(frame * 0x1000, 0x1000 * Span(l + 1), q, 0);
  }

  lemma ZeroWord()
    ensures !IsPage(0) && !IsBlock(0)
  {
    AndZero(3);
  }

  lemma {:induction false} ZeroNext(ias: nat)
    requires 12 <= ias
    ensures And(0, AddressMask(ias)) == 0
  {
    AndZero(AddressMask(ias));
  }

  /** Every level the walker leaves has nine bits, and the address lies under the table. */
  predicate NineBits(l: nat, shift: nat, nbits: nat, va: nat) {
    && l <= 3 && shift == 12 + 9 * (3 - l) && nbits <= 9 && (l < 3 ==> nbits == 9)
    && (nbits < 9 ==> Num(l + 1, va / 0x1000) < Pow2(nbits))
  }

  /** One step of the walker on the image of a table. */
  lemma {:induction false} WalkStep(mem: Memory, t: Tree, l: nat, shift: nat, nbits: nat, ias: nat, va: nat)
    requires IasOk(ias) && Wf(t, l, ias) && Rep(mem, t, l) && NineBits(l, shift, nbits, va)
    ensures |t.entries| == 512
    ensures var e := t.entries[Index(l, va / 0x1000)];
            WalkFrom(mem, t.page, l, shift, nbits, ias, va) ==
            match e
            case Empty => if l == 3 then NotMapped else WalkFrom(mem, 0, l + 1, shift - 9, 9, ias, va)
            case Leaf(_, attr) => Found(attr)
            case Sub(s) => if l == 3 then NotMapped else WalkFrom(mem, s.page, l + 1, shift - 9, 9, ias, va)
    ensures var e := t.entries[Index(l, va / 0x1000)];
            e.Sub? ==> l < 3 && Wf(e.table, l + 1, ias) && Rep(mem, e.table, l + 1)
  {
    hide And, Pow2, Shr, Span, Num, Attributes, IsPage, IsBlock, AddressMask, AttrOk, TableDescriptor, PageDescriptor,
         BlockDescriptor, Pages;
    var vp := va / 0x1000;
    var i := Index(l, vp);
    ShiftBytes(l, va);
    LowBits(Num(l + 1, vp), nbits);
    var e := t.entries[i];
    assert EntryOk(e, l, ias, t.page) && mem[t.page][i] == Word(e, l);
    match e
    case Empty =>
      ZeroWord();
      ZeroNext(ias);
    case Leaf(_, _) =>
      var h, low := LeafWord(e, l, ias, t.page);
    case Sub(s) =>
      assert Wf(s, l + 1, ias);
      TableWord(s.page, ias);
  }

  /** On the image of a table the walker finds the leaf of a mapped page, provided every
      level it leaves has nine bits. */
  lemma {:induction false} WalkMeetsLookup(mem: Memory, t: Tree, l: nat, shift: nat, nbits: nat, ias: nat, va: nat)
    requires IasOk(ias) && Wf(t, l, ias) && Rep(mem, t, l) && NineBits(l, shift, nbits, va)
    requires Lookup(t, l, va / 0x1000).Some?
    ensures Answers(WalkFrom(mem, t.page, l, shift, nbits, ias, va), Lookup(t, l, va / 0x1000))
    decreases t
  {
    hide WalkFrom, Wf, Rep, Num, Span, Pow2;
    WalkStep(mem, t, l, shift, nbits, ias, va);
    var e := t.entries[Index(l, va / 0x1000)];
    if e.Sub? { WalkMeetsLookup(mem, e.table, l + 1, shift - 9, 9, ias, va); }
  }

  /** For an unmapped page it reports an error when the empty entry is in a table of level 3.
      An empty entry higher up it takes for a table at address 0, and goes on reading there. */
  lemma {:induction false} WalkUnmapped(mem: Memory, t: Tree, l: nat, shift: nat, nbits: nat, ias: nat, va: nat)
    requires IasOk(ias) && Wf(t, l, ias) && Rep(mem, t, l) && NineBits(l, shift, nbits, va)
    requires Lookup(t, l, va / 0x1000) == None
    ensures var m := EmptyLevel(t, l, va / 0x1000);
            && m <= 3
            && WalkFrom(mem, t.page, l, shift, nbits, ias, va) ==
               if m == 3 then NotMapped else WalkFrom(mem, 0, m + 1, 12 + 9 * (2 - m), 9, ias, va)
    decreases t
  {
    hide WalkFrom, Wf, Rep, Num, Span, Pow2;
    EmptyLevelBound(t, l, ias, va / 0x1000);
    WalkStep(mem, t, l, shift, nbits, ias, va);
    var e := t.entries[Index(l, va / 0x1000)];
    if e.Sub? { WalkUnmapped(mem, e.table, l + 1, shift - 9, 9, ias, va); }
  }

  /** The shift drops the byte offset with the pages below the entry. */
  lemma ShiftBytes(l: nat, va: nat)
    requires l <= 3
    ensures Shr(va, 12 + 9 * (3 - l)) == Num(l + 1, va / 0x1000)
  {
    hide Shr, Pow2;
    ShrIsDiv(va, 12 + 9 * (3 - l));
    BlockBytes(l);
    SpanValues();
    NumIsDiv(l + 1, va / 0x1000);
  }

  // ---- The architecture's translation ----

  /** The frame number field of a descriptor, bits 47:12. */
  function FrameField(word: nat): nat { word / 0x1000 % 0x10_0000_0000 }

  function AttrField(word: nat): nat { word / 0x10_0000_0000_0000 * 0x10_0000_0000_0000 + word % 0x1000 / 4 * 4 }

  /** What hardware makes of the words: the output address and the attributes. A block is
      reserved at level 0, and bit 0 clear means no translation. */
  function Translate(mem: Memory, base: nat, l: nat, va: nat): Option<Mapping>
    requires l <= 3
    decreases 3 - l
  {
    var i := va / (0x1000 * Span(l + 1)) % 512;
    if base !in mem || i >= |mem[base]| then None
    else
      var word := mem[base][i];
      if l == 3 then
        if word % 4 == 3 then Some(Mapping(FrameField(word) * 0x1000 + va % 0x1000, AttrField(word))) else None
      else if word % 4 == 1 && l > 0 then
        var size := 0x1000 * Span(l + 1);
        Some(Mapping(FrameField(word) * 0x1000 / size * size + va % size, AttrField(word)))
      else if word % 4 == 3 then Translate(mem, FrameField(word) * 0x1000, l + 1, va)
      else None
  }

  function ToBytes(m: Option<Mapping>, va: nat): Option<Mapping> {
    match m
    case Some(x) => Some(Mapping(x.frame * 0x1000 + va % 0x1000, x.attr))
    case None => None
  }

  lemma ComposedFields(h: nat, frame: nat, low: nat, kind: nat)
    requires Fields(h, frame, low, kind) && frame < 0x10_0000_0000
    ensures var w := Compose(h, frame, low, kind);
            w % 4 == kind && FrameField(w) == frame && AttrField(w) == Compose(h, 0, low, 0)
  {
    var w := Compose(h, frame, low, kind);
    DivUnique(w, 4, h * 0x4_0000_0000_0000 + frame * 0x400 + low, kind);
    DivUnique(w, 0x1000, h * 0x100_0000_0000 + frame, low * 4 + kind);
    DivUnique(h * 0x100_0000_0000 + frame, 0x10_0000_0000, h * 16, frame);
    DivUnique(w, 0x10_0000_0000_0000, h, frame * 0x1000 + low * 4 + kind);
  }

  lemma {:induction false} BlockOffset(l: nat, frame: nat, va: nat)
    requires l <= 3 && frame % Span(l + 1) == 0
    ensures var size := 0x1000 * Span(l + 1);
            frame * 0x1000 / size * size + va % size == (frame + va / 0x1000 % Span(l + 1)) * 0x1000 + va % 0x1000
  {
    hide Span;
    var s := Span(l + 1);
    var q, r := DivParts(frame, s);
    var k, m := DivParts(va / 0x1000, s);
    assert q * s * 0x1000 == q * (0x1000 * s) && k * s * 0x1000 == k * (0x1000 * s);
    DivUnique(frame * 0x1000, 0x1000 * s, q, 0);
    DivUnique(va, 0x1000 * s, k, m * 0x1000 + va % 0x1000);
  }

  /** The address falls on a leaf of level 0. */
  predicate TopLeaf(t: Tree, l: nat, vp: nat) {
    l == 0 && Index(0, vp) < |t.entries| && t.entries[Index(0, vp)].Leaf?
  }

  /** What hardware makes of a table: its lookup, except that a leaf of level 0 counts for nothing. */
  function TreeTranslate(t: Tree, l: nat, va: nat): Option<Mapping> {
    if TopLeaf(t, l, va / 0x1000) then None else ToBytes(Lookup(t, l, va / 0x1000), va)
  }

  /** The words of a table's image mean to hardware what the tree says. */
  lemma {:induction false} ImageTranslates(mem: Memory, t: Tree, l: nat, ias: nat, va: nat)
    requires IasOk(ias) && l <= 3 && Wf(t, l, ias) && Rep(mem, t, l)
    ensures Translate(mem, t.page, l, va) == TreeTranslate(t, l, va)
    decreases t
  {
    hide Span, Num, Index, FrameField, AttrField, Compose, AttrOk, TableDescriptor, PageDescriptor, BlockDescriptor, And, Pages;
    var vp := va / 0x1000;
    var i := Index(l, vp);
    IndexBytes(l, va);
    var e := t.entries[i];
    assert EntryOk(e, l, ias, t.page) && mem[t.page][i] == Word(e, l);
    match e
    case Empty =>
    case Leaf(frame, attr) =>
      var h, low := LeafWord(e, l, ias, t.page);
      ComposedFields(h, frame, low, if l == 3 then 3 else 1);
      if l == 3 { SpanValues(); } else if l > 0 { BlockOffset(l, frame, va); }
    case Sub(s) =>
      assert Wf(s, l + 1, ias) && Rep(mem, s, l + 1);
      TableTranslates(s.page, ias);
      ImageTranslates(mem, s, l + 1, ias, va);
  }

  lemma FrameBelow48(f: nat, ias: nat)
    requires IasOk(ias) && f < Pow2(ias - 12)
    ensures f < 0x10_0000_0000
  {
    PowMono(ias - 12, 36);
    PowAdd(36, 4);
    PowValues();
  }

  lemma TableTranslates(page: nat, ias: nat)
    requires IasOk(ias) && PageOk(page, ias)
    ensures TableDescriptor(page) % 4 == 3 && FrameField(TableDescriptor(page)) * 0x1000 == page
  {
    hide TableDescriptor, Pow2, FrameField, Compose;
    var f := FrameOf(page, ias);
    TableFields(f);
    FrameBelow48(f, ias);
    ComposedFields(0, f, 0, 3);
  }

  lemma IndexBytes(l: nat, va: nat)
    requires l <= 3
    ensures va / (0x1000 * Span(l + 1)) % 512 == Index(l, va / 0x1000)
  {
    SpanValues();
    NumIsDiv(l + 1, va / 0x1000);
  }
}

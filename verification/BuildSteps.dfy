/** The builder's byte arithmetic and its memory steps, as facts about values. */
module BuildSteps {
  import opened Common
  import opened Bits
  import opened Descriptors
  import opened PageTree
  import opened FillSpec
  import opened FillProof

  /** Bytes described by one entry at a level. The product is computed in 32 bits, so
      level 0 wraps to zero; it is never asked for. */
  function GetBlockSize(level: nat): nat {
    match level
    case 0 => (PAGE_SIZE * ENTRIES * ENTRIES * ENTRIES) % U32
    case 1 => PAGE_SIZE * ENTRIES * ENTRIES
    case 2 => PAGE_SIZE * ENTRIES
    case 3 => PAGE_SIZE
    case _ => 0
  }

  /** Bytes the builder takes to be filled already in the table below: its `offset`. */
  function FilledBytes(l: nat, c: Counters): nat {
    CounterAt(c, l + 1) * GetBlockSize(l + 1)
  }

  lemma BlockBytes(level: nat)
    requires level <= 3
    ensures Pow2(12 + 9 * (3 - level)) == 0x1000 * Span(level + 1)
    ensures level < 3 ==> GetBlockSize(level + 1) == 0x1000 * Span(level + 2)
  {
    SpanValues();
    PowValues();
    PowAdd(12, 9); PowAdd(21, 9); PowAdd(30, 9);
  }

  lemma ShiftIsNum(level: nat, vp: nat)
    requires level <= 3
    ensures Shr(vp * 0x1000, 12 + 9 * (3 - level)) == Num(level + 1, vp)
  {
    hide Shr, Pow2;
    ShrIsDiv(vp * 0x1000, 12 + 9 * (3 - level));
    BlockBytes(level);
    SpanValues();
    NumIsDiv(level + 1, vp);
  }

  lemma {:induction false} LowBits(q: nat, nbits: nat)
    requires nbits <= 9 && (nbits < 9 ==> q < Pow2(nbits))
    ensures And(q, Pow2(nbits) - 1) == q % 512
  {
    hide And, Pow2;
    AndLow(nbits, q);
    PowValues();
    if nbits < 9 {
      PowMono(nbits, 9);
      DivUnique(q, Pow2(nbits), 0, q);
    }
  }

  /** The block test on byte addresses is alignment of the page number. */
  lemma {:induction false} AlignTest(level: nat, vp: nat)
    requires level <= 3
    ensures And(vp * 0x1000, Pow2(12 + 9 * (3 - level)) - 1) == 0 <==> vp % Span(level + 1) == 0
  {
    hide And, Pow2, Span;
    AndLow(12 + 9 * (3 - level), vp * 0x1000);
    BlockBytes(level);
    var s := Span(level + 1);
    var q, r := DivParts(vp, s);
    assert q * s * 0x1000 == q * (0x1000 * s);
    DivUnique(vp * 0x1000, 0x1000 * s, q, r * 0x1000);
  }

  lemma {:induction false} PowPage(ias: nat)
    requires 12 <= ias <= 52
    ensures Pow2(ias) == Pow2(ias - 12) * 0x1000 && Pow2(ias) <= 0x10_0000_0000_0000
  {
    PowAdd(ias - 12, 12);
    PowMono(ias, 52);
    PowValues();
  }

  lemma {:induction false} FrameOf(p: nat, ias: nat) returns (frame: nat)
    requires 12 < ias <= 48 && PageOk(p, ias)
    ensures p == frame * 0x1000 && 0 < frame < 0x100_0000_0000 && frame < Pow2(ias - 12)
  {
    frame := p / 0x1000;
    PowPage(ias);
    assert frame * 0x1000 < Pow2(ias - 12) * 0x1000;
  }

  /** A table descriptor is neither empty nor a block, and masks to its table. */
  lemma {:induction false} TableWord(p: nat, ias: nat)
    requires 12 < ias <= 48 && PageOk(p, ias)
    ensures TableDescriptor(p) != 0 && !IsBlock(TableDescriptor(p)) && IsPage(TableDescriptor(p))
    ensures And(TableDescriptor(p), AddressMask(ias)) == p
  {
    var frame := FrameOf(p, ias);
    TableFields(frame);
    KindOf(0, frame, 0, 3);
    NextTable(frame, ias);
  }

  lemma RoomBounds(l: nat, c: Counters)
    requires l < 3 && CountersOk(c, l)
    ensures 0 < Room(l, c) <= Span(l + 1)
    ensures FilledBytes(l, c) == 0x1000 * (Span(l + 1) - Room(l, c))
  {
    SpanValues();
    BlockBytes(l);
  }

  // ---- One step of the loop in 64 bits ----

  const U64: nat := 0x1_0000_0000_0000_0000

  /** The bound on what the table below may take up, in 64-bit arithmetic. */
  function Bound64(l: nat, c: Counters, ia: nat): nat
    requires l <= 3
  {
    (ia + Pow2(12 + 9 * (3 - l)) - FilledBytes(l, c) - 1) % U64
  }

  /** The address the loop goes on at after an entry with a table below. Where the bound lies at or
      before the address itself, the loop below takes no step and leaves the offset as it is. */
  function NextAddress(l: nat, c: Counters, ia: nat, top: nat): nat
    requires l <= 3
  {
    var b := Pow2(12 + 9 * (3 - l));
    if Min(top, Bound64(l, c, ia)) <= ia then (ia + b - FilledBytes(l, c)) % U64 else (ia + b) % U64
  }

  lemma Wrap(x: int)
    ensures 0 <= x < U64 ==> x % U64 == x
    ensures x < 0 <= x + U64 ==> x % U64 == x + U64
  {
  }

  /** The loop stalls if and only if the next level's counter is 512 and the address is not 0. Below
      512 it goes on by one entry; above, it falls back, or, where the bound wraps around, goes on
      with nothing cut off. */
  lemma StepExact(l: nat, c: Counters, ia: nat, top: nat)
    requires l < 3 && CounterAt(c, l + 1) < U32 && ia < top < 0x4000_0000_0000_0000 && ia % 0x1000 == 0
    ensures var n, b, f, next := CounterAt(c, l + 1), Pow2(12 + 9 * (3 - l)), FilledBytes(l, c), NextAddress(l, c, ia, top);
            && (next == ia <==> n == ENTRIES && ia > 0)
            && (next < ia <==> n > ENTRIES && ia + b > f)
            && (n < ENTRIES ==> next == ia + b && Bound64(l, c, ia) == ia + b - f - 1)
            && (n >= ENTRIES && ia + b <= f ==> next == ia + b && Min(top, Bound64(l, c, ia)) == top)
            && (n >= ENTRIES && ia + b <= f ==> Bound64(l, c, ia) == ia + b - f - 1 + 0x1_0000_0000_0000_0000)
            && (n > ENTRIES && ia + b > f ==> next == ia - (f - b))
  {
    hide Pow2;
    SpanValues();
    BlockBytes(l);
    var n, b, f := CounterAt(c, l + 1), Pow2(12 + 9 * (3 - l)), FilledBytes(l, c);
    FilledAgainst(l, c);
    Wrap(ia + b - f - 1);
    Wrap(ia + b - f);
    Wrap(ia + b);
  }

  lemma FilledAgainst(l: nat, c: Counters)
    requires l < 3 && CounterAt(c, l + 1) < U32
    ensures var n, b, f := CounterAt(c, l + 1), Pow2(12 + 9 * (3 - l)), FilledBytes(l, c);
            && 0x1000 < b <= 0x80_0000_0000 && f < 0x4000_0000_0000_0000
            && (n < ENTRIES ==> f + 0x1000 <= b) && (n == ENTRIES ==> f == b) && (n > ENTRIES ==> f > b)
  {
    hide Pow2;
    SpanValues();
    BlockBytes(l);
  }

  /** The last address handed to the next level cuts the run at the room left there. */
  lemma ClipTop(l: nat, ia: nat, inputTop: nat, oa: nat, attr: nat, c: Counters)
    requires l < 3 && CountersOk(c, l) && ia % 0x1000 == 0
    ensures var bound := ia + Pow2(12 + 9 * (3 - l)) - FilledBytes(l, c) - 1;
            && 0 < bound
            && RunOf(ia, Min(inputTop, bound), oa, attr) == Cut(RunOf(ia, inputTop, oa, attr), ia / 0x1000 + Room(l, c))
  {
    hide Room, FilledBytes, Span, Pow2;
    RoomBounds(l, c);
    BlockBytes(l);
    ClipRun(ia, inputTop, oa, attr, ia / 0x1000 + Room(l, c));
  }

  // ---- Images ----

  lemma EntryFacts(m: Memory, t: Tree, l: nat, ias: nat, i: nat)
    requires Wf(t, l, ias) && Rep(m, t, l) && i < 512
    ensures Pages(t) <= m.Keys && t.page in Pages(t) && |m[t.page]| == |t.entries| == 512
    ensures t.page !in PagesOf(t.entries[i]) && PagesOf(t.entries[i]) <= Pages(t)
  {
    RepPages(m, t, l);
    PagesOfEntry(t, l, ias, i);
  }

  /** sub translates the pages of an entry as the entry does. */
  ghost predicate SubOf(t: Tree, sub: Tree, l: nat, lo: nat) {
    forall vp: nat :: Num(l + 1, vp) == Num(l + 1, lo) ==> Lookup(sub, l + 1, vp) == Lookup(t, l, vp)
  }

  lemma SubOfEntry(t: Tree, sub: Tree, l: nat, lo: nat)
    requires |t.entries| == 512
    requires var e := t.entries[Index(l, lo)];
             e == Sub(sub) || (e == Empty && NothingMapped(sub, l + 1))
    ensures SubOf(t, sub, l, lo)
  {
  }

  /** The image after linking a filled table: memory m2 differs from the image m0 of t at most on
      the old pages of the entry and on pages that were not in use. */
  lemma Linked(m0: Memory, m2: Memory, t: Tree, l: nat, ias: nat, i: nat, sub: Tree)
    requires l < 3 && i < 512 && Wf(t, l, ias) && Rep(m0, t, l) && Rep(m2, sub, l + 1) && t.page !in Pages(sub)
    requires forall p :: p in m0 && p !in PagesOf(t.entries[i]) ==> p in m2 && m2[p] == m0[p]
    ensures t.page in m2 && |m2[t.page]| == 512
    ensures Rep(PutWord(m2, t.page, i, TableDescriptor(sub.page)), Put(t, i, Sub(sub)), l)
  {
    EntryFacts(m0, t, l, ias, i);
    hide Wf, Pages, PagesOf, EntryOk, TableDescriptor;
    var m3 := PutWord(m2, t.page, i, TableDescriptor(sub.page));
    assert Rep(m3, sub, l + 1) by {
      RepPages(m2, sub, l + 1);
      RepFrame(m2, m3, sub, l + 1);
    }
    hide Rep;
    PutRep(m0, m3, t, l, ias, i, Sub(sub));
  }

  // ---- Translations ----

  /** The run handed to the next level, where sub is the table below the entry. */
  lemma DescendFillable(t: Tree, sub: Tree, l: nat, n: nat, r: Run, c: Counters)
    requires l < 3 && r.lo < r.touched && Fillable(t, l, n, r, c) && !Blockable(l, r) && SubOf(t, sub, l, r.lo)
    ensures 0 < Room(l, c) <= Span(l + 1)
    ensures Fillable(sub, l + 1, Num(l + 1, r.lo), Fed(l, r, c), Increment(c, l))
  {
    hide Shape, Lookup, Num, Span, Blockable, Room;
    RoomBounds(l, c);
    var b, room := Span(l + 1), Room(l, c);
    var r' := Cut(r, r.lo + room);
    assert RunOk(r');
    DescendShape(l, r);
    ShapeCut(l + 1, Cut(r, r.lo + b), r.lo + room);
    assert Cut(Cut(r, r.lo + b), r.lo + room) == r';
    var m := l + 1;
    forall vp: nat | r.lo <= vp < r'.touched
      ensures Lookup(sub, m, vp) == None
    {
      InEntry(l, r, vp);
      assert Lookup(t, l, vp) == None;
    }
    InEntry(l, r, r'.touched - 1);
  }

  /** One entry at level l took its part of the run up. */
  ghost predicate EntryFilled(t: Tree, t': Tree, l: nat, r: Run, c: Counters, c': Counters)
  {
    var end, hi := Min(r.touched, r.lo + Span(l + 1)), Min(r.touched, r.lo + Room(l, c));
    && OnlyEntry(t, t', Index(l, r.lo))
    && r.lo < hi <= end && Agrees(t, t', l, l + 1, Num(l + 1, r.lo), Cut(r, hi))
    && Lookup(t', l, r.lo).Some?
    && (Complete(t', l, r.lo, end) <==> end <= r.lo + Room(l, c) && NoClip(l + 1, Cut(r, r.lo + Span(l + 1)), Increment(c, l)))
    && c' == After(l + 1, Fed(l, r, c), Increment(c, l))
  }

  /** The linked table translates the entry's pages as the filled one does. */
  lemma LinkedLookup(t: Tree, sub: Tree, sub': Tree, l: nat, r: Run)
    requires l < 3 && |t.entries| == 512 && SubOf(t, sub, l, r.lo)
    requires Agrees(sub, sub', l + 1, l + 1, Num(l + 1, r.lo), r)
    ensures var t' := Put(t, Index(l, r.lo), Sub(sub'));
            SubOf(t', sub', l, r.lo) && Agrees(t, t', l, l + 1, Num(l + 1, r.lo), r)
  {
    var i := Index(l, r.lo);
    var t' := Put(t, i, Sub(sub'));
    forall vp: nat | Num(l + 1, vp) == Num(l + 1, r.lo)
      ensures Lookup(t', l, vp) == Lookup(sub', l + 1, vp) && PageAgrees(t, t', l, vp, r)
    {
      PutLookup(t, l, i, Sub(sub'), vp);
      assert PageAgrees(sub, sub', l + 1, vp, r);
    }
  }

  /** The entry is complete exactly when the clip spares it and its table is complete. */
  lemma LinkedComplete(t: Tree, t': Tree, sub': Tree, l: nat, r: Run, c: Counters)
    requires l < 3 && RunOk(r) && r.lo < r.touched && 0 < Room(l, c) <= Span(l + 1)
    requires Shape(l, r) && SubOf(t', sub', l, r.lo) && Unmapped(t, l, r.lo, r.touched)
    requires Agrees(t, t', l, l + 1, Num(l + 1, r.lo), Fed(l, r, c))
    requires Complete(sub', l + 1, r.lo, Min(r.touched, r.lo + Room(l, c))) <==> NoClip(l + 1, Fed(l, r, c), Increment(c, l))
    ensures var end := Min(r.touched, r.lo + Span(l + 1));
            Complete(t', l, r.lo, end) <==>
            end <= r.lo + Room(l, c) && NoClip(l + 1, Cut(r, r.lo + Span(l + 1)), Increment(c, l))
  {
    hide Shape, Lookup, Num, Span, Blockable, NoClip, Room, Increment;
    var b, room := Span(l + 1), Room(l, c);
    var end, hi := Min(r.touched, r.lo + b), Min(r.touched, r.lo + room);
    var m := l + 1;
    forall vp: nat | r.lo <= vp < end
      ensures Lookup(t', l, vp) == Lookup(sub', m, vp)
      ensures vp >= hi ==> Lookup(t', l, vp) == None
    {
      InEntry(l, r, vp);
      assert PageAgrees(t, t', l, vp, Fed(l, r, c));
    }
    if hi < end {
      assert Lookup(t', l, hi) == None;
    } else {
      assert Fed(l, r, c) == Cut(r, r.lo + b);
    }
  }

  /** Filling the table below an entry takes that entry's part of the run up. */
  lemma LinkFilled(t: Tree, sub: Tree, sub': Tree, l: nat, n: nat, r: Run, c: Counters, c2: Counters)
    requires l < 3 && |t.entries| == 512 && r.lo < r.touched && Fillable(t, l, n, r, c) && SubOf(t, sub, l, r.lo)
    requires 0 < Room(l, c) <= Span(l + 1) && RunOk(Fed(l, r, c))
    requires Filled(sub, sub', l + 1, Num(l + 1, r.lo), Fed(l, r, c), Increment(c, l), c2)
    ensures NonEmpty(sub') && EntryFilled(t, Put(t, Index(l, r.lo), Sub(sub')), l, r, c, c2)
  {
    hide Shape, Num, Span, NoClip, Room, Agrees, SubOf, Increment, After;
    var t' := Put(t, Index(l, r.lo), Sub(sub'));
    PutLookup(t, l, Index(l, r.lo), Sub(sub'), r.lo);
    MappedNonEmpty(sub', l + 1, r.lo);
    hide Lookup, Index;
    LinkedLookup(t, sub, sub', l, Fed(l, r, c));
    LinkedComplete(t, t', sub', l, r, c);
  }
}

/** When every page lands in its own place, and where pages land that do not. */
module Placement {
  import opened Common
  import opened Bits
  import opened Descriptors
  import opened PageTree
  import opened FillSpec
  import opened CounterProof
  import opened Builder
  import opened Landing

  /** A page that lands in its own place is put there by its own step. */
  lemma OwnStep(l: nat, nbits: nat, r: Run, c: Counters, vp: nat)
    requires l <= 3 && nbits <= 9 && r.whole <= r.touched && r.lo <= vp < r.touched && Landed(l, nbits, r, c, vp) == Some(vp)
    ensures vp < r.lo + Span(l + 1) ==> StepLanded(l, nbits, r, c, vp) == Some(vp)
    ensures vp >= r.lo + Span(l + 1) ==> Landed(l, nbits, From(r, r.lo + Span(l + 1)), NextCounters(l, r, c), vp) == Some(vp)
  {
    hide Landed, StepLanded, Span, NextCounters;
    LandedStep(l, nbits, r, c, vp);
    LandedRange(l, nbits, From(r, r.lo + Span(l + 1)), NextCounters(l, r, c), vp);
    StepRange(l, nbits, r, c, vp);
  }

  // ---- All pages in their own place ----

  predicate LandsAll(l: nat, nbits: nat, r: Run, c: Counters)
    requires l <= 3 && nbits <= 9
  {
    forall vp: nat :: r.lo <= vp < r.touched ==> Landed(l, nbits, r, c, vp) == Some(vp)
  }

  /** The run lies in one table, within its used entries. */
  predicate InTable(l: nat, nbits: nat, r: Run) {
    InSlots(l, nbits, r) && (r.lo < r.touched ==> Num(l, r.lo) == Num(l, r.touched - 1))
  }

  lemma SameSlot(l: nat, nbits: nat, r: Run, vp: nat)
    requires l <= 3 && nbits <= 9 && InTable(l, nbits, r) && r.lo <= vp < r.touched
    ensures Slot(l, nbits, vp) == Slot(l, nbits, r.lo) <==> Num(l + 1, vp) == Num(l + 1, r.lo)
  {
    hide Pow2, Num, Slot;
    SlotIsIndex(l, nbits, r, vp);
    SlotIsIndex(l, nbits, r, r.lo);
    NumMono(l, r.lo, vp);
    NumMono(l, vp, r.touched - 1);
    SameIndex(l, r.lo, vp);
  }

  lemma SameIndex(l: nat, a: nat, b: nat)
    requires l <= 3 && Num(l, a) == Num(l, b)
    ensures Index(l, a) == Index(l, b) <==> Num(l + 1, a) == Num(l + 1, b)
  {
  }

  lemma RestInTable(l: nat, nbits: nat, r: Run)
    requires l <= 3 && nbits <= 9 && InTable(l, nbits, r)
    ensures InTable(l, nbits, From(r, r.lo + Span(l + 1)))
  {
    hide Num, Pow2, Span;
    if r.lo + Span(l + 1) < r.touched {
      NumMono(l, r.lo, r.lo + Span(l + 1));
      NumMono(l, r.lo + Span(l + 1), r.touched - 1);
    }
  }

  lemma RestLands(l: nat, nbits: nat, r: Run, c: Counters)
    requires l <= 3 && nbits <= 9 && r.whole <= r.touched && LandsAll(l, nbits, r, c)
    ensures LandsAll(l, nbits, From(r, r.lo + Span(l + 1)), NextCounters(l, r, c))
  {
    hide Landed, StepLanded, Span, NextCounters;
    forall vp: nat | r.lo + Span(l + 1) <= vp < r.touched
      ensures Landed(l, nbits, From(r, r.lo + Span(l + 1)), NextCounters(l, r, c), vp) == Some(vp)
    {
      OwnStep(l, nbits, r, c, vp);
    }
  }

  lemma PageLands(l: nat, nbits: nat, r: Run, c: Counters, vp: nat)
    requires l < 3 && nbits <= 9 && r.whole <= r.touched && InTable(l, nbits, r) && Landed(l, nbits, r, c, vp) == Some(vp)
    requires !Blockable(l, r) && r.lo <= vp < Min(r.touched, r.lo + Span(l + 1))
    ensures Landed(l + 1, 9, Fed(l, r, c), Increment(c, l), vp) == Some(vp)
    ensures Num(l + 1, vp) == Num(l + 1, r.lo) && vp < r.lo + Room(l, c)
  {
    hide Landed, Span, Num, Increment, Slot, Blockable, Room, InTable;
    OwnStep(l, nbits, r, c, vp);
    SameSlot(l, nbits, r, vp);
    LandedRange(l + 1, 9, Fed(l, r, c), Increment(c, l), vp);
  }

  /** Then the first step hands down a run that stays under its entry, unclipped, and lands all of it. */
  lemma EntryLands(l: nat, nbits: nat, r: Run, c: Counters)
    requires l < 3 && nbits <= 9 && r.whole <= r.touched && r.lo < r.touched && InTable(l, nbits, r) && LandsAll(l, nbits, r, c)
    requires !Blockable(l, r)
    ensures Stays(l, r) && Min(r.touched, r.lo + Span(l + 1)) <= r.lo + Room(l, c)
    ensures LandsAll(l + 1, 9, Cut(r, r.lo + Span(l + 1)), Increment(c, l))
  {
    hide Landed, Span, Num, Increment, Blockable, Room, InTable;
    var m, f, c' := l + 1, Cut(r, r.lo + Span(l + 1)), Increment(c, l);
    PageLands(l, nbits, r, c, f.touched - 1);
    RoomAtMost(l, c);
    assert f == Fed(l, r, c);
    forall vp: nat | f.lo <= vp < f.touched ensures Landed(m, 9, f, c', vp) == Some(vp) {
      PageLands(l, nbits, r, c, vp);
    }
  }

  lemma RoomAtMost(l: nat, c: Counters)
    ensures Room(l, c) <= Span(l + 1)
  {
  }

  /** The builder puts every page in its own place only where it supports the run and the
      counters do not clip it. */
  lemma {:induction false} LandsShape(l: nat, nbits: nat, r: Run, c: Counters)
    requires l <= 3 && nbits <= 9 && r.whole <= r.touched && InTable(l, nbits, r) && LandsAll(l, nbits, r, c)
    ensures Shape(l, r) && NoClip(l, r, c)
    decreases 3 - l, r.touched - r.lo
  {
    hide Landed, Span, Num, LandsAll, InTable, NoClip, Increment, After, Room, Stays;
    if l >= 3 || r.lo >= r.touched {
      NoClipNone(l, r, c);
    } else {
      var rest := From(r, r.lo + Span(l + 1));
      RestInTable(l, nbits, r);
      RestLands(l, nbits, r, c);
      LandsShape(l, nbits, rest, NextCounters(l, r, c));
      if Blockable(l, r) {
        NoClipLeaf(l, r, c);
      } else {
        EntryLands(l, nbits, r, c);
        CutInTable(l, r);
        LandsShape(l + 1, 9, Cut(r, r.lo + Span(l + 1)), Increment(c, l));
        NoClipEntry(l, r, c);
      }
    }
  }

  lemma CutInTable(l: nat, r: Run)
    requires l < 3 && r.lo < r.touched && Stays(l, r)
    ensures InTable(l + 1, 9, Cut(r, r.lo + Span(l + 1)))
  {
  }

  // ---- No page in another's place ----

  /** Whatever lands in a place of window n belongs there. */
  ghost predicate OwnOnly(l: nat, nbits: nat, r: Run, c: Counters, n: nat)
    requires l <= 3 && nbits <= 9
  {
    forall vp: nat :: Num(l, vp) == n && Slot(l, nbits, vp) == Index(l, vp) && Landed(l, nbits, r, c, vp).Some? ==>
      Landed(l, nbits, r, c, vp) == Some(vp)
  }

  /** Below the root a place is its last bits alone. */
  lemma {:induction false} LandedResidue(l: nat, r: Run, c: Counters, v: nat, w: nat)
    requires l <= 3 && v % Span(l) == w % Span(l)
    ensures Landed(l, 9, r, c, v) == Landed(l, 9, r, c, w)
    decreases 3 - l, r.touched - r.lo
  {
    hide Landed, Span, Num, Increment, NextCounters, Slot;
    if r.lo >= r.touched {
      LandedNone(l, 9, r, c, v);
      LandedNone(l, 9, r, c, w);
    } else {
      LandedStep(l, 9, r, c, v);
      LandedStep(l, 9, r, c, w);
      LandedResidue(l, From(r, r.lo + Span(l + 1)), NextCounters(l, r, c), v, w);
      Residues(l, v, w);
      if l < 3 { LandedResidue(l + 1, Fed(l, r, c), Increment(c, l), v, w); }
    }
  }

  lemma Residues(l: nat, v: nat, w: nat)
    requires l <= 3 && v % Span(l) == w % Span(l)
    ensures Slot(l, 9, v) == Slot(l, 9, w) && v % Span(l + 1) == w % Span(l + 1)
  {
    hide Span, Num;
    PowValues();
    hide Pow2;
    var s, m := Span(l + 1), v % Span(l);
    SpanStep(l);
    Residue(l, v);
    Residue(l, w);
  }

  lemma Residue(l: nat, v: nat)
    requires l <= 3
    ensures Num(l + 1, v) % 512 == v % Span(l) / Span(l + 1) && v % Span(l + 1) == v % Span(l) % Span(l + 1)
  {
    hide Span, Num;
    var s := Span(l + 1);
    SpanStep(l);
    NumIsDiv(l + 1, v);
    var q, m := DivParts(v, Span(l));
    var a, b := DivParts(m, s);
    assert (q * 512 + a) * s == q * (512 * s) + a * s;
    DivUnique(v, s, q * 512 + a, b);
    QuotientBelow(m, 512, s);
    DivUnique(q * 512 + a, 512, q, a);
  }

  lemma QuotientBelow(v: nat, a: nat, s: nat)
    requires s > 0 && v < a * s
    ensures v / s < a
  {
    var q, r := DivParts(v, s);
    if q >= a { MulMono(a, q, s); }
  }

  /** Unclipped, the last page of a run lands somewhere. */
  lemma {:induction false} LastLands(l: nat, nbits: nat, r: Run, c: Counters) returns (vp: nat)
    requires l <= 3 && nbits <= 9 && RunOk(r) && r.lo < r.touched && NoClip(l, r, c)
    ensures Landed(l, nbits, r, c, vp) == Some(r.touched - 1)
    decreases 3 - l, r.touched - r.lo
  {
    hide Landed, Span, Num, Increment, After, Room, NoClip, StepLanded, Blockable, AttrOk;
    var rest, c' := From(r, r.lo + Span(l + 1)), NextCounters(l, r, c);
    if rest.lo < rest.touched {
      RestOk(l, r);
      if l == 3 { NoClipNone(3, rest, c'); } else if Blockable(l, r) { NoClipLeaf(l, r, c); } else { NoClipEntry(l, r, c); }
      vp := LastLands(l, nbits, rest, c');
    } else if l == 3 || Blockable(l, r) {
      vp := LastOfLeaf(l, nbits, r, c);
      LandedNone(l, nbits, rest, c', vp);
    } else {
      NoClipEntry(l, r, c);
      assert Fed(l, r, c) == r == Cut(r, r.lo + Span(l + 1));
      vp := LastLandsUnder(l + 1, r, Increment(c, l), Num(l + 1, r.lo));
      StepIsInner(l, nbits, r, c, vp);
      LandedNone(l, nbits, rest, c', vp);
    }
    LandedStep(l, nbits, r, c, vp);
  }

  lemma StepIsInner(l: nat, nbits: nat, r: Run, c: Counters, vp: nat)
    requires l < 3 && nbits <= 9 && r.lo < r.touched && !Blockable(l, r) && Num(l + 1, vp) == Num(l + 1, r.lo)
    ensures StepLanded(l, nbits, r, c, vp) == Landed(l + 1, 9, Fed(l, r, c), Increment(c, l), vp)
  {
    hide Landed, Span, Num, Increment, Room, Blockable;
  }

  lemma LastOfLeaf(l: nat, nbits: nat, r: Run, c: Counters) returns (vp: nat)
    requires l <= 3 && nbits <= 9 && RunOk(r) && r.lo < r.touched <= r.lo + Span(l + 1) && (l == 3 || Blockable(l, r))
    ensures StepLanded(l, nbits, r, c, vp) == Some(r.touched - 1)
  {
    hide Num, Span, Pow2;
    SpanValues();
    vp := r.touched - 1;
    NumAligned(l + 1, r.lo, vp);
  }

  /** In any window of the table it is handed to. */
  lemma {:induction false} LastLandsUnder(l: nat, r: Run, c: Counters, q: nat) returns (vp: nat)
    requires 1 <= l <= 3 && RunOk(r) && r.lo < r.touched && NoClip(l, r, c)
    ensures Num(l, vp) == q && Landed(l, 9, r, c, vp) == Some(r.touched - 1)
    decreases 3 - l, r.touched - r.lo + 1
  {
    hide Landed, Span, Num, NoClip;
    var v := LastLands(l, 9, r, c);
    var s := Span(l);
    var m := v % s;
    vp := q * s + m;
    DivUnique(vp, s, q, m);
    NumIsDiv(l, vp);
    LandedResidue(l, r, c, v, vp);
  }

  /** Later steps of a run in one table do not reach the entries before them. */
  lemma {:induction false} LaterMisses(l: nat, nbits: nat, r: Run, c: Counters, vp: nat)
    requires l <= 3 && nbits <= 9 && InTable(l, nbits, r) && Slot(l, nbits, vp) == Index(l, vp)
    requires r.lo < r.touched ==> Num(l, vp) == Num(l, r.lo) && Num(l + 1, vp) < Num(l + 1, r.lo)
    ensures Landed(l, nbits, r, c, vp) == None
    decreases r.touched - r.lo
  {
    hide Landed, Span, Num, NextCounters, Slot, InTable, Index;
    if r.lo >= r.touched {
      LandedNone(l, nbits, r, c, vp);
    } else {
      var rest := From(r, r.lo + Span(l + 1));
      LandedStep(l, nbits, r, c, vp);
      SlotInTable(l, nbits, r);
      SameIndex(l, r.lo, vp);
      RestInTable(l, nbits, r);
      if rest.lo < rest.touched {
        StaysInTable(l, nbits, r, rest.lo);
        NumMono(l + 1, r.lo, rest.lo);
      }
      LaterMisses(l, nbits, rest, NextCounters(l, r, c), vp);
    }
  }

  lemma SlotInTable(l: nat, nbits: nat, r: Run)
    requires l <= 3 && nbits <= 9 && InTable(l, nbits, r) && r.lo < r.touched
    ensures Slot(l, nbits, r.lo) == Index(l, r.lo)
  {
    SlotIsIndex(l, nbits, r, r.lo);
  }

  lemma StaysInTable(l: nat, nbits: nat, r: Run, vp: nat)
    requires l <= 3 && InTable(l, nbits, r) && r.lo <= vp < r.touched
    ensures Num(l, vp) == Num(l, r.lo)
  {
    hide Num;
    NumMono(l, r.lo, vp);
    NumMono(l, vp, r.touched - 1);
  }

  lemma RestOwnOnly(l: nat, nbits: nat, r: Run, c: Counters, n: nat)
    requires l <= 3 && nbits <= 9 && r.lo < r.touched && OwnOnly(l, nbits, r, c, n)
    ensures OwnOnly(l, nbits, From(r, r.lo + Span(l + 1)), NextCounters(l, r, c), n)
  {
    hide Landed, Span, Num, NextCounters, Slot, Index, StepLanded;
    var rest, c' := From(r, r.lo + Span(l + 1)), NextCounters(l, r, c);
    forall vp: nat | Num(l, vp) == n && Slot(l, nbits, vp) == Index(l, vp) && Landed(l, nbits, rest, c', vp).Some?
      ensures Landed(l, nbits, rest, c', vp) == Some(vp)
    {
      LandedStep(l, nbits, r, c, vp);
    }
  }

  /** What lands under the first entry is what the first step puts there. */
  lemma EntryOwn(l: nat, nbits: nat, r: Run, c: Counters, vp: nat)
    requires l < 3 && nbits <= 9 && InTable(l, nbits, r) && r.lo < r.touched && !Blockable(l, r)
    requires OwnOnly(l, nbits, r, c, Num(l, r.lo)) && Num(l + 1, vp) == Num(l + 1, r.lo)
    requires Landed(l + 1, 9, Fed(l, r, c), Increment(c, l), vp).Some?
    ensures Landed(l + 1, 9, Fed(l, r, c), Increment(c, l), vp) == Some(vp)
  {
    hide Landed, Span, NextCounters, Increment, Room, StepLanded, Blockable, InTable, Num, Slot, Index;
    var rest := From(r, r.lo + Span(l + 1));
    SlotInTable(l, nbits, r);
    UnderSlot(l, nbits, r.lo, vp);
    LandedStep(l, nbits, r, c, vp);
    StepIsInner(l, nbits, r, c, vp);
    RestInTable(l, nbits, r);
    if rest.lo < rest.touched {
      StaysInTable(l, nbits, r, rest.lo);
      NumNext(l + 1, r.lo);
    }
    LaterMisses(l, nbits, rest, NextCounters(l, r, c), vp);
  }

  lemma UnderSlot(l: nat, nbits: nat, a: nat, b: nat)
    requires l <= 3 && nbits <= 9 && Num(l + 1, a) == Num(l + 1, b)
    ensures Num(l, a) == Num(l, b) && Slot(l, nbits, a) == Slot(l, nbits, b) && Index(l, a) == Index(l, b)
  {
  }

  lemma UnderOwnOnly(l: nat, nbits: nat, r: Run, c: Counters)
    requires l < 3 && nbits <= 9 && InTable(l, nbits, r) && r.lo < r.touched && !Blockable(l, r)
    requires OwnOnly(l, nbits, r, c, Num(l, r.lo))
    ensures OwnOnly(l + 1, 9, Fed(l, r, c), Increment(c, l), Num(l + 1, r.lo))
  {
    hide Landed, Span, Increment, Room, Blockable, InTable, Slot, Index, Num, Fed;
    var m, f, c' := l + 1, Fed(l, r, c), Increment(c, l);
    forall vp: nat | Num(m, vp) == Num(m, r.lo) && Slot(m, 9, vp) == Index(m, vp) && Landed(m, 9, f, c', vp).Some?
      ensures Landed(m, 9, f, c', vp) == Some(vp)
    {
      EntryOwn(l, nbits, r, c, vp);
    }
  }

  /** Then the last page handed down lies under the entry. */
  lemma LastStays(l: nat, nbits: nat, r: Run, c: Counters)
    requires l < 3 && nbits <= 9 && RunOk(r) && InTable(l, nbits, r) && r.lo < r.touched && !Blockable(l, r) && NoClip(l, r, c)
    requires OwnOnly(l, nbits, r, c, Num(l, r.lo))
    ensures Stays(l, r) && Fed(l, r, c) == Cut(r, r.lo + Span(l + 1)) && NoClip(l + 1, Fed(l, r, c), Increment(c, l))
  {
    hide Landed, Span, Increment, Room, Blockable, InTable, OwnOnly, Num, NoClip, AttrOk;
    NoClipEntry(l, r, c);
    RoomAtMost(l, c);
    var f := Fed(l, r, c);
    assert f == Cut(r, r.lo + Span(l + 1));
    var vp := LastLandsUnder(l + 1, f, Increment(c, l), Num(l + 1, r.lo));
    EntryOwn(l, nbits, r, c, vp);
  }

  /** Unclipped, the builder puts no page in another's place only where it supports the run. */
  lemma {:induction false} OwnShape(l: nat, nbits: nat, r: Run, c: Counters)
    requires l <= 3 && nbits <= 9 && RunOk(r) && InTable(l, nbits, r) && NoClip(l, r, c)
    requires r.lo < r.touched ==> OwnOnly(l, nbits, r, c, Num(l, r.lo))
    ensures Shape(l, r)
    decreases 3 - l, r.touched - r.lo
  {
    hide Landed, Span, Increment, Room, InTable, OwnOnly, Num, NoClip, AttrOk, Stays, NextCounters, Fed, Blockable, After;
    if l < 3 && r.lo < r.touched {
      var rest := From(r, r.lo + Span(l + 1));
      RestInTable(l, nbits, r);
      RestOwnOnly(l, nbits, r, c, Num(l, r.lo));
      RestUnclipped(l, r, c);
      if rest.lo < rest.touched {
        RestOk(l, r);
        StaysInTable(l, nbits, r, rest.lo);
        OwnShape(l, nbits, rest, NextCounters(l, r, c));
      } else {
        ShapeNone(l, rest);
      }
      if !Blockable(l, r) {
        LastStays(l, nbits, r, c);
        UnderOwnOnly(l, nbits, r, c);
        CutInTable(l, r);
        OwnShape(l + 1, 9, Cut(r, r.lo + Span(l + 1)), Increment(c, l));
      }
    }
  }

  lemma ShapeNone(l: nat, r: Run)
    requires r.lo >= r.touched
    ensures Shape(l, r)
  {
  }

  lemma RestUnclipped(l: nat, r: Run, c: Counters)
    requires l < 3 && r.lo < r.touched && NoClip(l, r, c)
    ensures NoClip(l, From(r, r.lo + Span(l + 1)), NextCounters(l, r, c))
  {
    if Blockable(l, r) { NoClipLeaf(l, r, c); } else { NoClipEntry(l, r, c); }
  }
}

/** The steps of the builder's loop, as facts about trees and counters. */
module FillProof {
  import opened Common
  import opened Bits
  import opened PageTree
  import opened FillSpec

  // ---- Shapes ----

  /** The run handed down stays under its entry exactly when all of it lies under one entry
      or it starts on an entry boundary. */
  lemma StaysIff(l: nat, r: Run)
    requires l <= 3 && r.lo < r.touched
    ensures Stays(l, r) <==> Num(l + 1, r.lo) == Num(l + 1, r.touched - 1) || r.lo % Span(l + 1) == 0
  {
    hide Num, Span;
    var b := Span(l + 1);
    var last := Min(r.touched, r.lo + b) - 1;
    NumMono(l + 1, r.lo, last);
    NumMono(l + 1, last, r.touched - 1);
    if r.lo % b == 0 {
      NumAligned(l + 1, r.lo, last);
    } else if r.touched >= r.lo + b {
      NumCrosses(l + 1, r.lo);
    }
  }

  /** A span that does not start on a boundary crosses one. */
  lemma NumCrosses(l: nat, a: nat)
    requires l <= 4 && a % Span(l) != 0
    ensures Num(l, a + Span(l) - 1) == Num(l, a) + 1
  {
    hide Span, Num;
    var s := Span(l);
    NumIsDiv(l, a);
    NumIsDiv(l, a + s - 1);
    var q, r := DivParts(a, s);
    assert (q + 1) * s == q * s + s;
    DivUnique(a + s - 1, s, q + 1, r - 1);
  }

  /** A run that starts on an entry boundary is describable. */
  lemma {:induction false} AlignedShape(l: nat, r: Run)
    requires l <= 3 && r.lo % Span(l + 1) == 0
    ensures Shape(l, r)
    decreases 3 - l, r.touched - r.lo
  {
    hide Span, Num, Blockable;
    var b := Span(l + 1);
    if l < 3 && r.lo < r.touched {
      Aligned(l + 1, r.lo);
      AlignedShape(l, From(r, r.lo + b));
      if !Blockable(l, r) {
        StaysIff(l, r);
        AlignedShape(l + 1, Cut(r, r.lo + b));
      }
    }
  }

  /** Cutting a run short keeps its shape describable. */
  lemma {:induction false} ShapeCut(l: nat, r: Run, x: nat)
    requires l <= 3 && Shape(l, r) && r.whole <= r.touched
    ensures Shape(l, Cut(r, x))
    decreases 3 - l, r.touched - r.lo
  {
    hide Span, Num, Blockable, Stays;
    var b, s := Span(l + 1), Cut(r, x);
    if l < 3 && s.lo < s.touched {
      assert From(s, r.lo + b) == Cut(From(r, r.lo + b), x);
      ShapeCut(l, From(r, r.lo + b), x);
      BlockCut(l, r, x);
      if Blockable(l, r) {
        if !Blockable(l, s) { AlignedShape(l, s); }
      } else {
        assert Cut(s, r.lo + b) == Cut(Cut(r, r.lo + b), x);
        ShapeCut(l + 1, Cut(r, r.lo + b), x);
        StaysCut(l, r, x);
      }
    }
  }

  lemma BlockCut(l: nat, r: Run, x: nat)
    ensures Blockable(l, Cut(r, x)) ==> Blockable(l, r)
    ensures Blockable(l, r) ==> r.lo % Span(l + 1) == 0
  {
    hide Span;
  }

  lemma StaysCut(l: nat, r: Run, x: nat)
    requires l <= 3 && r.lo < Min(r.touched, x) && Stays(l, r)
    ensures Stays(l, Cut(r, x))
  {
    hide Span, Num;
    var s := Cut(r, x);
    StaysIff(l, r);
    StaysIff(l, s);
    NumMono(l + 1, r.lo, s.touched - 1);
    NumMono(l + 1, s.touched - 1, r.touched - 1);
  }

  /** The pages of one loop step lie under one entry. */
  lemma InEntry(l: nat, r: Run, vp: nat)
    requires l <= 3 && r.lo < r.touched && Shape(l, r) && r.lo <= vp < Min(r.touched, r.lo + Span(l + 1))
    ensures Num(l + 1, vp) == Num(l + 1, r.lo)
  {
    hide Span, Num;
    if l == 3 {
      SpanValues();
    } else if Blockable(l, r) {
      NumAligned(l + 1, r.lo, vp);
    } else {
      NumMono(l + 1, r.lo, vp);
      NumMono(l + 1, vp, Min(r.touched, r.lo + Span(l + 1)) - 1);
    }
  }

  /** What one step hands to the next level is describable there. */
  lemma DescendShape(l: nat, r: Run)
    requires l < 3 && r.lo < r.touched && Shape(l, r) && !Blockable(l, r)
    ensures Shape(l + 1, Cut(r, r.lo + Span(l + 1)))
  {
  }

  /** What is left after one step is describable, and starts on an entry boundary. */
  lemma NextShape(l: nat, r: Run)
    requires l <= 3 && Shape(l, r) && r.lo + Span(l + 1) < r.touched
    ensures Shape(l, From(r, r.lo + Span(l + 1)))
    ensures r.lo % Span(l + 1) == 0
  {
    hide Span, Num;
    if l == 3 {
      SpanValues();
    } else if !Blockable(l, r) {
      StaysIff(l, r);
      if Num(l + 1, r.lo) == Num(l + 1, r.touched - 1) { NumClose(l + 1, r.lo, r.touched - 1); }
    }
  }

  // ---- One entry replaced ----

  predicate OnlyEntry(t: Tree, t': Tree, i: nat) {
    && |t.entries| == |t'.entries|
    && forall j :: 0 <= j < |t.entries| && j != i ==> t'.entries[j] == t.entries[j]
  }

  lemma OtherEntries(t: Tree, t': Tree, l: nat, ip: nat, vp: nat)
    requires OnlyEntry(t, t', Index(l, ip)) && l <= 3
    requires Num(l, vp) == Num(l, ip) && Num(l + 1, vp) != Num(l + 1, ip)
    ensures Lookup(t', l, vp) == Lookup(t, l, vp)
  {
  }

  /** Writing a leaf over an aligned run of pages. */
  lemma LeafAgrees(t: Tree, l: nat, r: Run)
    requires l <= 3 && |t.entries| == 512 && r.lo % Span(l + 1) == 0 && r.touched >= r.lo + Span(l + 1)
    ensures var t' := Put(t, Index(l, r.lo), Leaf(r.op, r.attr));
            && OnlyEntry(t, t', Index(l, r.lo))
            && Agrees(t, t', l, l + 1, Num(l + 1, r.lo), Cut(r, r.lo + Span(l + 1)))
            && Complete(t', l, r.lo, r.lo + Span(l + 1))
  {
    var b, i := Span(l + 1), Index(l, r.lo);
    var t' := Put(t, i, Leaf(r.op, r.attr));
    forall vp: nat | Num(l + 1, vp) == Num(l + 1, r.lo)
      ensures r.lo <= vp < r.lo + b && Lookup(t', l, vp) == Some(Mapping(r.op + (vp - r.lo), r.attr))
    {
      NumAligned(l + 1, r.lo, vp);
      PutLookup(t, l, i, Leaf(r.op, r.attr), vp);
    }
    forall vp: nat | r.lo <= vp < r.lo + b
      ensures Lookup(t', l, vp).Some?
    {
      NumAligned(l + 1, r.lo, vp);
    }
  }

  lemma SubEntryMapped(t: Tree, l: nat, ias: nat, ip: nat) returns (vp: nat)
    requires l <= 3 && Wf(t, l, ias) && ip % Span(l + 1) == 0 && t.entries[Index(l, ip)].Sub?
    ensures ip <= vp < ip + Span(l + 1) && Lookup(t, l, vp).Some?
  {
    var e := t.entries[Index(l, ip)];
    assert EntryOk(e, l, ias, t.page);
    vp := SomeMapped(e.table, l + 1, ias, Num(l + 1, ip));
    NumAligned(l + 1, ip, vp);
  }

  /** Where the pages of an aligned entry are all unmapped, the entry is empty. */
  lemma EntryEmpty(t: Tree, l: nat, ias: nat, ip: nat)
    requires l <= 3 && Wf(t, l, ias) && ip % Span(l + 1) == 0 && Unmapped(t, l, ip, ip + Span(l + 1))
    ensures t.entries[Index(l, ip)] == Empty
  {
    if t.entries[Index(l, ip)].Sub? {
      var vp := SubEntryMapped(t, l, ias, ip);
      assert false;
    }
    assert Lookup(t, l, ip) == None;
  }

  lemma StepPage(t: Tree, cur: Tree, cur': Tree, l: nat, r: Run, ip: nat, hi: nat, end: nat, vp: nat)
    requires l <= 3 && r.lo <= ip < hi <= end <= r.touched && Num(l, vp) == Num(l, ip)
    requires PageAgrees(t, cur, l, vp, Cut(r, ip))
    requires r.lo <= vp < end ==> Lookup(t, l, vp) == None
    requires OnlyEntry(cur, cur', Index(l, ip))
    requires Num(l + 1, vp) == Num(l + 1, ip) ==> PageAgrees(cur, cur', l, vp, Cut(From(r, ip), hi))
    requires ip <= vp < end ==> Num(l + 1, vp) == Num(l + 1, ip)
    ensures PageAgrees(t, cur', l, vp, Cut(r, end))
  {
    if Num(l + 1, vp) != Num(l + 1, ip) {
      OtherEntries(cur, cur', l, ip, vp);
    }
  }

  /** One step of the loop extends what is known of the pages done so far. */
  lemma StepAgrees(t: Tree, cur: Tree, cur': Tree, l: nat, r: Run, ip: nat, hi: nat, end: nat)
    requires l <= 3 && r.lo <= ip < r.touched && end == Min(r.touched, ip + Span(l + 1)) && ip < hi <= end
    requires Shape(l, From(r, ip))
    requires Agrees(t, cur, l, l, Num(l, ip), Cut(r, ip)) && Unmapped(t, l, r.lo, r.touched)
    requires OnlyEntry(cur, cur', Index(l, ip))
    requires Agrees(cur, cur', l, l + 1, Num(l + 1, ip), Cut(From(r, ip), hi))
    ensures Agrees(t, cur', l, l, Num(l, ip), Cut(r, end))
  {
    hide Shape, Lookup, Index, Num, Span, OnlyEntry;
    forall vp: nat | Num(l, vp) == Num(l, ip)
      ensures PageAgrees(t, cur', l, vp, Cut(r, end))
    {
      if ip <= vp < end {
        InEntry(l, From(r, ip), vp);
      }
      StepPage(t, cur, cur', l, r, ip, hi, end, vp);
    }
  }

  /** A step touches no page before it. */
  lemma Earlier(cur: Tree, cur': Tree, l: nat, r: Run, ip: nat, hi: nat, vp: nat)
    requires l <= 3 && r.lo <= vp < ip && Num(l, r.lo) == Num(l, ip)
    requires OnlyEntry(cur, cur', Index(l, ip))
    requires Agrees(cur, cur', l, l + 1, Num(l + 1, ip), Cut(From(r, ip), hi))
    ensures Lookup(cur', l, vp) == Lookup(cur, l, vp)
  {
    NumMono(l, r.lo, vp);
    NumMono(l, vp, ip);
    if Num(l + 1, vp) == Num(l + 1, ip) {
      assert PageAgrees(cur, cur', l, vp, Cut(From(r, ip), hi));
    } else {
      OtherEntries(cur, cur', l, ip, vp);
    }
  }

  lemma StepComplete(cur: Tree, cur': Tree, l: nat, r: Run, ip: nat, hi: nat, end: nat)
    requires l <= 3 && r.lo <= ip < hi <= end && Num(l, r.lo) == Num(l, ip)
    requires OnlyEntry(cur, cur', Index(l, ip))
    requires Agrees(cur, cur', l, l + 1, Num(l + 1, ip), Cut(From(r, ip), hi))
    ensures Complete(cur', l, r.lo, end) <==> Complete(cur, l, r.lo, ip) && Complete(cur', l, ip, end)
    ensures r.lo < ip ==> Lookup(cur', l, r.lo) == Lookup(cur, l, r.lo)
  {
    hide Lookup, Index, Num, OnlyEntry, Agrees;
    forall vp: nat | r.lo <= vp < ip
      ensures Lookup(cur', l, vp) == Lookup(cur, l, vp)
    {
      Earlier(cur, cur', l, r, ip, hi, vp);
    }
  }
}

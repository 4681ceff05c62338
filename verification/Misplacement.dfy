/** Where pages go that do not land in their own place. */
module Misplacement {
  import opened Common
  import opened Bits
  import opened Descriptors
  import opened PageTree
  import opened FillSpec
  import opened LoopProof
  import opened Builder
  import opened Landing
  import opened Placement

  /** Where the run handed down leaves its entry, the first page x beyond does not land in its
      own place, whatever the counters. */
  lemma Misplaced(l: nat, nbits: nat, r: Run, c: Counters) returns (x: nat)
    requires l < 3 && 1 <= nbits <= 9 && r.lo < r.touched && r.whole <= r.touched && !Stays(l, r)
    ensures r.lo < x < Min(r.touched, r.lo + Span(l + 1)) && Num(l + 1, x) == Num(l + 1, r.lo) + 1
    ensures Landed(l, nbits, r, c, x) != Some(x)
  {
    hide Num, Span, Landed, Pow2;
    x := FirstBeyond(l, r);
    PowMono(1, nbits);
    TwoSlots();
    ModApart(Num(l + 1, r.lo), 1, Pow2(nbits));
    if Landed(l, nbits, r, c, x) == Some(x) { OwnStep(l, nbits, r, c, x); }
  }

  lemma TwoSlots()
    ensures Pow2(1) == 2
  {
    assert Pow2(0) == 1;
  }

  lemma FirstBeyond(l: nat, r: Run) returns (x: nat)
    requires l < 3 && r.lo < r.touched && !Stays(l, r)
    ensures r.lo < x < Min(r.touched, r.lo + Span(l + 1)) && Num(l + 1, x) == Num(l + 1, r.lo) + 1
  {
    hide Num, Span;
    var s, q := Span(l + 1), Num(l + 1, r.lo);
    var last := Min(r.touched, r.lo + s) - 1;
    NumMono(l + 1, r.lo, last);
    InWindow(l + 1, r.lo, r.lo);
    InWindow(l + 1, r.lo, last);
    NumOfFirst(l + 1, q + 1);
    x := (q + 1) * s;
  }

  /** The pages of a's window of level l. */
  lemma InWindow(l: nat, a: nat, b: nat)
    requires l <= 4
    ensures Num(l, b) == Num(l, a) <==> Num(l, a) * Span(l) <= b < (Num(l, a) + 1) * Span(l)
  {
    hide Num, Span;
    var s, q := Span(l), Num(l, a);
    NumIsDiv(l, a);
    NumIsDiv(l, b);
    assert (q + 1) * s == q * s + s;
    var e, m := DivParts(b, s);
    if q * s <= b < q * s + s { DivUnique(b, s, q, b - q * s); }
  }

  // ---- Aligned runs ----

  /** A run does not land in an entry that it does not reach. */
  lemma {:induction false} LandedMisses(l: nat, nbits: nat, r: Run, c: Counters, vp: nat, d: nat)
    requires l <= 3 && nbits <= 9 && Ahead(l, nbits, r, Slot(l, nbits, vp), d)
    ensures Landed(l, nbits, r, c, vp) == None
    decreases d
  {
    hide Landed, Span, NextCounters, Slot, Ahead, Pow2;
    if r.lo >= r.touched {
      LandedNone(l, nbits, r, c, vp);
    } else {
      LandedStep(l, nbits, r, c, vp);
      AheadStep(l, nbits, r, Slot(l, nbits, vp), d);
      LandedMisses(l, nbits, From(r, r.lo + Span(l + 1)), NextCounters(l, r, c), vp, d - 1);
    }
  }

  /** In the entry of its first step a run lands what that step puts there. */
  lemma FirstEntry(l: nat, nbits: nat, r: Run, c: Counters, vp: nat)
    requires l <= 3 && nbits <= 9 && r.lo < r.touched && Once(l, nbits, r) && Slot(l, nbits, vp) == Slot(l, nbits, r.lo)
    ensures Landed(l, nbits, r, c, vp) ==
            if l == 3 || Blockable(l, r) then Some(r.lo + vp % Span(l + 1)) else Landed(l + 1, 9, Fed(l, r, c), Increment(c, l), vp)
  {
    hide Landed, Span, NextCounters, Slot, Ahead, Pow2, Once, Increment, Room, Blockable;
    AllAhead(l, nbits, r);
    LandedMisses(l, nbits, From(r, r.lo + Span(l + 1)), NextCounters(l, r, c), vp, Pow2(nbits) - 1);
    LandedStep(l, nbits, r, c, vp);
  }

  /** The first page of an aligned run lands in the first place of the table. */
  lemma {:induction false} FirstLands(l: nat, r: Run, c: Counters, vp: nat)
    requires 1 <= l <= 3 && RunOk(r) && CountersOk(c, l) && r.lo < r.touched && Once(l, 9, r)
    requires r.lo % Span(l) == 0 == vp % Span(l)
    ensures Landed(l, 9, r, c, vp) == Some(r.lo)
    decreases 3 - l
  {
    hide Landed, Span, Slot, Once, Increment, Room, Blockable, CountersOk, AttrOk;
    Residues(l, r.lo, vp);
    Aligned(l, r.lo);
    Aligned(l, vp);
    FirstEntry(l, 9, r, c, vp);
    if l < 3 && !Blockable(l, r) {
      FedOk(l, r, c);
      FedOnce(l, r, c);
      FirstLands(l + 1, Fed(l, r, c), Increment(c, l), vp);
    }
  }

  /** In an aligned run the first page of every entry lands where its index bits say, whatever
      the counters: its own place, or, beyond the range of the table, another's. */
  lemma {:induction false} AlignedLands(l: nat, nbits: nat, r: Run, c: Counters, x: nat, vp: nat)
    requires l <= 3 && nbits <= 9 && RunOk(r) && CountersOk(c, l) && Once(l, nbits, r) && r.lo <= x < r.touched
    requires r.lo % Span(l + 1) == 0 == x % Span(l + 1) && vp % Span(l + 1) == 0 && Slot(l, nbits, vp) == Slot(l, nbits, x)
    ensures Landed(l, nbits, r, c, vp) == Some(x)
    decreases x - r.lo
  {
    hide Landed, Span, Slot, Increment, Room, Blockable, CountersOk, AttrOk, Once, NextCounters;
    if x == r.lo {
      FirstEntry(l, nbits, r, c, vp);
      if l < 3 && !Blockable(l, r) {
        FedOk(l, r, c);
        FedOnce(l, r, c);
        FirstLands(l + 1, Fed(l, r, c), Increment(c, l), vp);
      }
    } else {
      NextAligned(l, r.lo, x);
      RestOk(l, r);
      RestOnce(l, nbits, r);
      NextOk(l, r, c);
      Aligned(l + 1, r.lo);
      AlignedLands(l, nbits, From(r, r.lo + Span(l + 1)), NextCounters(l, r, c), x, vp);
      LandedStep(l, nbits, r, c, vp);
    }
  }

  lemma NextAligned(l: nat, a: nat, x: nat)
    requires l <= 3 && a < x && a % Span(l + 1) == 0 == x % Span(l + 1)
    ensures a + Span(l + 1) <= x
  {
    hide Span;
    NumAligned(l + 1, a, x);
  }

  lemma RestOnce(l: nat, nbits: nat, r: Run)
    requires Once(l, nbits, r)
    ensures Once(l, nbits, From(r, r.lo + Span(l + 1)))
  {
    hide Span, Pow2;
  }

  lemma NextOk(l: nat, r: Run, c: Counters)
    requires l <= 3 && CountersOk(c, l)
    ensures CountersOk(NextCounters(l, r, c), l)
  {
    hide Increment, After, CountersOk;
    if l == 3 || Blockable(l, r) { LeafCounters(l, c); } else { EntryCountersOk(l, r, c); }
  }

  // ---- Runs of single pages ----

  /** A page lands in the entry of its last nine bits, the last such page of the run. */
  lemma {:induction false} PagesLand(r: Run, c: Counters, vp: nat)
    ensures var w := Landed(3, 9, r, c, vp);
            if w.Some? then r.lo <= w.value < r.touched && w.value % 512 == vp % 512
            else forall x: nat :: r.lo <= x < r.touched ==> x % 512 != vp % 512
    decreases r.touched - r.lo
  {
    hide NextCounters, Landed;
    if r.lo >= r.touched {
      LandedNone(3, 9, r, c, vp);
    } else {
      assert Span(4) == 1;
      LandedStep(3, 9, r, c, vp);
      PowValues();
      assert Slot(3, 9, r.lo) == r.lo % 512 && Slot(3, 9, vp) == vp % 512;
      PagesLand(From(r, r.lo + 1), NextCounters(3, r, c), vp);
    }
  }

  /** Under one entry that needs a table, a run is a question to that table. */
  lemma UnderOneEntry(l: nat, nbits: nat, r: Run, c: Counters, vp: nat)
    requires l < 3 && nbits <= 9 && r.lo < r.touched <= r.lo + Span(l + 1) && !Blockable(l, r)
    ensures Landed(l, nbits, r, c, vp) ==
            if Slot(l, nbits, r.lo) == Slot(l, nbits, vp) then Landed(l + 1, 9, Fed(l, r, c), Increment(c, l), vp) else None
  {
    hide Landed, Span, Slot, NextCounters, Room, Increment, Blockable;
    LandedStep(l, nbits, r, c, vp);
    LandedNone(l, nbits, From(r, r.lo + Span(l + 1)), NextCounters(l, r, c), vp);
  }

  /** 2 MiB from page 1 on, from zero counters: page 512 lands in the place of page 0, and
      nothing in its own. */
  lemma {:induction false} TwoMegabytes(l: nat, r: Run, vp: nat)
    requires l < 3 && r.lo == 1 && r.whole <= r.touched == 513 && vp <= 512
    ensures Landed(l, 9, r, ZERO_COUNTERS, vp) == if vp == 512 then None else if vp == 0 then Some(512) else Some(vp)
    decreases 3 - l
  {
    hide Landed, Slot, Blockable, Room, Span;
    SpanValues();
    NotBlock(l, r);
    UnderOneEntry(l, 9, r, ZERO_COUNTERS, vp);
    SmallSlots(l, vp);
    ZeroRoom(l);
    assert Fed(l, r, ZERO_COUNTERS) == r;
    if l < 2 {
      TwoMegabytes(l + 1, r, vp);
    } else {
      PagesLand(r, ZERO_COUNTERS, vp);
      if vp == 0 { assert 512 % 512 == 0; } else if vp < 512 { assert vp % 512 == vp; }
    }
  }

  lemma NotBlock(l: nat, r: Run)
    requires l < 3 && r.lo == 1
    ensures !Blockable(l, r)
  {
    SpanValues();
  }

  lemma ZeroRoom(l: nat)
    requires l < 3
    ensures Room(l, ZERO_COUNTERS) == Span(l + 1) && Increment(ZERO_COUNTERS, l) == ZERO_COUNTERS
  {
  }

  /** The entries of the first 513 pages. */
  lemma SmallSlots(l: nat, vp: nat)
    requires l < 3 && vp <= 512
    ensures Slot(l, 9, 1) == 0 && Slot(l, 9, vp) == if l == 2 && vp == 512 then 1 else 0
  {
    hide Num, Span, Pow2;
    SpanValues();
    NumIsDiv(l + 1, vp);
    NumIsDiv(l + 1, 1);
    PowValues();
    if l < 2 {
      DivUnique(vp, Span(l + 1), 0, vp);
      DivUnique(1, Span(l + 1), 0, 1);
    }
  }
}

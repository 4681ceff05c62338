/** Where the builder puts each page of a run, for every run and all counters: not always in the
    page's own entry. */
module Landing {
  import opened Common
  import opened Bits
  import opened Descriptors
  import opened PageTree
  import opened FillSpec
  import opened Builder

  /** The counters after the first step of a run. */
  function NextCounters(l: nat, r: Run, c: Counters): Counters {
    if l >= 3 || Blockable(l, r) then Increment(c, l) else After(l + 1, Fed(l, r, c), Increment(c, l))
  }

  /** The page of the run whose frame ends up in the place of page vp, if any: the last one put
      there. */
  function Landed(l: nat, nbits: nat, r: Run, c: Counters, vp: nat): Option<nat>
    requires l <= 3 && nbits <= 9
    decreases 3 - l, r.touched - r.lo, 1
  {
    if r.lo >= r.touched then None
    else
      var later := Landed(l, nbits, From(r, r.lo + Span(l + 1)), NextCounters(l, r, c), vp);
      if later.Some? then later else StepLanded(l, nbits, r, c, vp)
  }

  /** So for the first step alone. */
  function StepLanded(l: nat, nbits: nat, r: Run, c: Counters, vp: nat): Option<nat>
    requires l <= 3 && nbits <= 9 && r.lo < r.touched
    decreases 3 - l, r.touched - r.lo, 0
  {
    if Slot(l, nbits, r.lo) != Slot(l, nbits, vp) then None
    else if l == 3 || Blockable(l, r) then Some(r.lo + vp % Span(l + 1))
    else Landed(l + 1, 9, Fed(l, r, c), Increment(c, l), vp)
  }

  lemma LandedStep(l: nat, nbits: nat, r: Run, c: Counters, vp: nat)
    requires l <= 3 && nbits <= 9 && r.lo < r.touched
    ensures var later := Landed(l, nbits, From(r, r.lo + Span(l + 1)), NextCounters(l, r, c), vp);
            Landed(l, nbits, r, c, vp) == if later.Some? then later else StepLanded(l, nbits, r, c, vp)
  {
  }

  lemma LandedNone(l: nat, nbits: nat, r: Run, c: Counters, vp: nat)
    requires l <= 3 && nbits <= 9 && r.lo >= r.touched
    ensures Landed(l, nbits, r, c, vp) == None
  {
  }

  /** What lands is a page of the run. */
  lemma {:induction false} LandedRange(l: nat, nbits: nat, r: Run, c: Counters, vp: nat)
    requires l <= 3 && nbits <= 9 && r.whole <= r.touched
    ensures Landed(l, nbits, r, c, vp).Some? ==> r.lo <= Landed(l, nbits, r, c, vp).value < r.touched
    decreases 3 - l, r.touched - r.lo, 1
  {
    hide Landed, StepLanded, Span, NextCounters;
    if r.lo >= r.touched {
      LandedNone(l, nbits, r, c, vp);
    } else {
      LandedStep(l, nbits, r, c, vp);
      LandedRange(l, nbits, From(r, r.lo + Span(l + 1)), NextCounters(l, r, c), vp);
      StepRange(l, nbits, r, c, vp);
    }
  }

  lemma {:induction false} StepRange(l: nat, nbits: nat, r: Run, c: Counters, vp: nat)
    requires l <= 3 && nbits <= 9 && r.lo < r.touched && r.whole <= r.touched
    ensures var w := StepLanded(l, nbits, r, c, vp); w.Some? ==> r.lo <= w.value < Min(r.touched, r.lo + Span(l + 1))
    decreases 3 - l, r.touched - r.lo, 0
  {
    hide Landed, Slot, Increment;
    if l == 3 {
      assert Span(4) == 1;
    } else if !Blockable(l, r) {
      LandedRange(l + 1, 9, Fed(l, r, c), Increment(c, l), vp);
    }
  }

  // ---- The table the builder leaves ----

  /** What page vp translates to once the builder is done with a table: the frame of what landed
      in its place, and otherwise what it was before, unless a block had to give way to a table. */
  predicate Looks(l: nat, nbits: nat, r: Run, s: State, s1: State, vp: nat)
    requires l <= 3 && nbits <= 9
  {
    var w, old_, new_ := Landed(l, nbits, r, s.counters, vp), Lookup(s.tree, l, vp), Lookup(s1.tree, l, vp);
    if w.Some? then r.lo <= w.value < r.touched && new_ == Some(Mapping(r.op + (w.value - r.lo), r.attr))
    else new_ == old_ || new_ == None
  }

  /** The run has no more steps than the table has entries. */
  predicate Once(l: nat, nbits: nat, r: Run) { r.touched <= r.lo + Pow2(nbits) * Span(l + 1) }

  lemma NumNext(l: nat, vp: nat)
    requires l <= 4
    ensures Num(l, vp + Span(l)) == Num(l, vp) + 1
  {
    hide Num, Span;
    NumIsDiv(l, vp);
    NumIsDiv(l, vp + Span(l));
    var q, r := DivParts(vp, Span(l));
    assert (q + 1) * Span(l) == q * Span(l) + Span(l);
    DivUnique(vp + Span(l), Span(l), q + 1, r);
  }

  lemma ModApart(n: nat, d: nat, p: nat)
    requires 0 < d < p
    ensures (n + d) % p != n % p
  {
    var q, r := DivParts(n, p);
    assert (q + 1) * p == q * p + p;
    if r + d < p { DivUnique(n + d, p, q, r + d); } else { DivUnique(n + d, p, q + 1, r + d - p); }
  }

  /** The run ends within d steps, and entry i is the one d steps on. */
  predicate Ahead(l: nat, nbits: nat, r: Run, i: nat, d: nat) {
    d < Pow2(nbits) && (Num(l + 1, r.lo) + d) % Pow2(nbits) == i && r.touched <= r.lo + d * Span(l + 1)
  }

  lemma AheadStep(l: nat, nbits: nat, r: Run, i: nat, d: nat)
    requires l <= 3 && nbits <= 9 && r.lo < r.touched && Ahead(l, nbits, r, i, d)
    ensures d > 0 && Slot(l, nbits, r.lo) != i && Ahead(l, nbits, From(r, r.lo + Span(l + 1)), i, d - 1)
  {
    hide Num, Pow2, Span;
    ModApart(Num(l + 1, r.lo), d, Pow2(nbits));
    NumNext(l + 1, r.lo);
    assert (d - 1) * Span(l + 1) == d * Span(l + 1) - Span(l + 1);
  }

  /** After its first step a run does not come back to the entry it started in. */
  lemma AllAhead(l: nat, nbits: nat, r: Run)
    requires l <= 3 && nbits <= 9 && Once(l, nbits, r)
    ensures Ahead(l, nbits, From(r, r.lo + Span(l + 1)), Slot(l, nbits, r.lo), Pow2(nbits) - 1)
  {
    hide Num, Pow2, Span;
    var b, p, n := Span(l + 1), Pow2(nbits), Num(l + 1, r.lo);
    NumNext(l + 1, r.lo);
    var q, m := DivParts(n, p);
    assert (q + 1) * p == q * p + p;
    DivUnique(n + p, p, q + 1, m);
    assert (p - 1) * b == p * b - b;
  }

  /** A run leaves an entry that it does not reach alone. */
  lemma {:induction false} BuiltMisses(l: nat, nbits: nat, ias: nat, r: Run, s: State, i: nat, d: nat)
    requires l <= 3 && nbits <= 9 && RunOk(r) && CountersOk(s.counters, l) && Sound(s, l, ias) && Built(l, nbits, r, s).Some?
    requires Ahead(l, nbits, r, i, d)
    ensures At(Built(l, nbits, r, s).value.tree, i) == At(s.tree, i)
    decreases d
  {
    hide Built, Stepped, Sound, Span, NonEmpty, CountersOk, AttrOk, Slot, Ahead, At;
    if r.lo >= r.touched {
      BuiltNone(l, nbits, r, s);
    } else {
      var rest := From(r, r.lo + Span(l + 1));
      BuiltStep(l, nbits, r, s);
      SteppedOwns(l, nbits, ias, r, s);
      AheadStep(l, nbits, r, i, d);
      StepMisses(l, nbits, r, s, i);
      var s1 := Stepped(l, nbits, r, s).value;
      if rest.lo < rest.touched {
        RestOk(l, r);
        BuiltMisses(l, nbits, ias, rest, s1, i, d - 1);
      } else {
        BuiltNone(l, nbits, rest, s1);
      }
    }
  }

  lemma StepMisses(l: nat, nbits: nat, r: Run, s: State, i: nat)
    requires l <= 3 && nbits <= 9 && r.lo < r.touched && Stepped(l, nbits, r, s).Some? && Slot(l, nbits, r.lo) != i
    ensures At(Stepped(l, nbits, r, s).value.tree, i) == At(s.tree, i)
  {
    hide Built, Span, Num, Room, Increment, Slot;
  }

  /** What the first step put in its entry stays there. */
  lemma LastsOn(l: nat, nbits: nat, ias: nat, r: Run, s: State)
    requires l <= 3 && nbits <= 9 && Once(l, nbits, r) && RunOk(r) && r.lo < r.touched && CountersOk(s.counters, l) && Sound(s, l, ias)
    requires Built(l, nbits, From(r, r.lo + Span(l + 1)), s).Some?
    ensures var i := Slot(l, nbits, r.lo); At(Built(l, nbits, From(r, r.lo + Span(l + 1)), s).value.tree, i) == At(s.tree, i)
  {
    hide Built, Sound, Span, CountersOk, AttrOk, Slot, Ahead, Once, At;
    if r.lo + Span(l + 1) < r.touched {
      RestOk(l, r);
      AllAhead(l, nbits, r);
      BuiltMisses(l, nbits, ias, From(r, r.lo + Span(l + 1)), s, Slot(l, nbits, r.lo), Pow2(nbits) - 1);
    } else {
      BuiltNone(l, nbits, From(r, r.lo + Span(l + 1)), s);
    }
  }

  lemma SameEntry(t: Tree, t': Tree, l: nat, vp: nat)
    requires At(t, Index(l, vp)) == At(t', Index(l, vp))
    ensures Lookup(t, l, vp) == Lookup(t', l, vp)
  {
  }

  lemma LeafLooks(l: nat, nbits: nat, r: Run, s: State, vp: nat)
    requires l <= 3 && nbits <= 9 && r.lo < r.touched && |s.tree.entries| == 512 && Slot(l, nbits, vp) == Index(l, vp)
    requires l == 3 || Blockable(l, r)
    ensures var s1, w := Stepped(l, nbits, r, s).value, StepLanded(l, nbits, r, s.counters, vp);
            Lookup(s1.tree, l, vp) == if w.Some? then Some(Mapping(r.op + (w.value - r.lo), r.attr)) else Lookup(s.tree, l, vp)
  {
    hide Slot, Num, Span;
    PutLookup(s.tree, l, Slot(l, nbits, r.lo), Leaf(r.op, r.attr), vp);
  }

  lemma {:induction false} StepLooks(l: nat, nbits: nat, ias: nat, r: Run, s: State, vp: nat)
    requires l <= 3 && nbits <= 9 && r.lo < r.touched && RunOk(r) && CountersOk(s.counters, l) && Sound(s, l, ias)
    requires Slot(l, nbits, vp) == Index(l, vp) && Stepped(l, nbits, r, s).Some?
    ensures var s1, w := Stepped(l, nbits, r, s).value, StepLanded(l, nbits, r, s.counters, vp);
            var new_ := Lookup(s1.tree, l, vp);
            if w.Some? then r.lo <= w.value && new_ == Some(Mapping(r.op + (w.value - r.lo), r.attr))
            else new_ == Lookup(s.tree, l, vp) || new_ == None
    decreases 3 - l, r.touched - r.lo, 0
  {
    hide Wf, Pages, PagesOf, Span, Blockable, Slot, Built, Num, NonEmpty, CountersOk, Room, Increment, After, Landed, Index, Lookup;
    Entries512(s.tree, l, ias);
    if l == 3 || Blockable(l, r) {
      LeafLooks(l, nbits, r, s, vp);
    } else {
      var i, c := Slot(l, nbits, r.lo), s.counters;
      FedOk(l, r, c);
      UnderSound(s, l, ias, i);
      var u := Under(s.tree.entries[i], s.pool).value;
      var start, f := State(u.0, Increment(c, l), u.1, {}), Fed(l, r, c);
      assert Sound(start, l + 1, ias);
      var inner := Built(l + 1, 9, f, start).value;
      PutLookup(s.tree, l, i, Sub(inner.tree), vp);
      if i == Slot(l, nbits, vp) {
        NineBits(l + 1, vp);
        FedOnce(l, r, c);
        BuiltLooks(l + 1, 9, ias, f, start, vp);
        UnderLooks(s, l, ias, i, vp);
      }
    }
  }

  lemma FedOnce(l: nat, r: Run, c: Counters)
    requires l < 3
    ensures Once(l + 1, 9, Fed(l, r, c))
  {
    PowValues();
    SpanStep(l + 1);
  }

  lemma NineBits(l: nat, vp: nat)
    ensures Slot(l, 9, vp) == Index(l, vp)
  {
    hide Num;
    PowValues();
  }

  lemma UnderLooks(s: State, l: nat, ias: nat, i: nat, vp: nat)
    requires l < 3 && i < 512 && Sound(s, l, ias) && Under(s.tree.entries[i], s.pool).Some? && i == Index(l, vp)
    ensures var x := Lookup(Under(s.tree.entries[i], s.pool).value.0, l + 1, vp); x == Lookup(s.tree, l, vp) || x == None
  {
    if !s.tree.entries[i].Sub? { ZeroTableWf(s.pool[0], l + 1, ias); }
  }

  /** For every run, every table and all counters in range, whatever is mapped already. */
  lemma {:induction false} BuiltLooks(l: nat, nbits: nat, ias: nat, r: Run, s: State, vp: nat)
    requires l <= 3 && nbits <= 9 && RunOk(r) && CountersOk(s.counters, l) && Sound(s, l, ias)
    requires Slot(l, nbits, vp) == Index(l, vp) && Built(l, nbits, r, s).Some? && Once(l, nbits, r)
    ensures Looks(l, nbits, r, s, Built(l, nbits, r, s).value, vp)
    decreases 3 - l, r.touched - r.lo, 1
  {
    hide Built, Stepped, Sound, Span, NonEmpty, CountersOk, AttrOk, Landed, StepLanded, Slot, Index, Lookup, NextCounters, Pow2;
    var b := Span(l + 1);
    if r.lo >= r.touched {
      BuiltNone(l, nbits, r, s);
      LandedNone(l, nbits, r, s.counters, vp);
    } else {
      BuiltStep(l, nbits, r, s);
      LandedStep(l, nbits, r, s.counters, vp);
      LandedRange(l, nbits, r, s.counters, vp);
      SteppedOwns(l, nbits, ias, r, s);
      StepLooks(l, nbits, ias, r, s, vp);
      var s1 := Stepped(l, nbits, r, s).value;
      NextIs(l, nbits, r, s);
      if r.lo + b < r.touched {
        RestOk(l, r);
        BuiltLooks(l, nbits, ias, From(r, r.lo + b), s1, vp);
        if StepLanded(l, nbits, r, s.counters, vp).Some? {
          StepSelects(l, nbits, r, s.counters, vp);
          LastsOn(l, nbits, ias, r, s1);
          SameEntry(Built(l, nbits, From(r, r.lo + b), s1).value.tree, s1.tree, l, vp);
        }
      } else {
        BuiltNone(l, nbits, From(r, r.lo + b), s1);
        LandedNone(l, nbits, From(r, r.lo + b), s1.counters, vp);
      }
    }
  }

  lemma StepSelects(l: nat, nbits: nat, r: Run, c: Counters, vp: nat)
    requires l <= 3 && nbits <= 9 && r.lo < r.touched && StepLanded(l, nbits, r, c, vp).Some?
    ensures Slot(l, nbits, r.lo) == Slot(l, nbits, vp)
  {
  }

  lemma NextIs(l: nat, nbits: nat, r: Run, s: State)
    requires l <= 3 && nbits <= 9 && r.lo < r.touched && Stepped(l, nbits, r, s).Some?
    ensures Stepped(l, nbits, r, s).value.counters == NextCounters(l, r, s.counters)
  {
    hide Stepped, After;
    SteppedCounters(l, nbits, r, s);
  }
}

/** How many pages the builder needs at most. */
module PageBudget {
  import opened Common
  import opened Descriptors
  import opened PageTree
  import opened FillSpec
  import opened FillProof
  import opened BuildSteps
  import opened LoopProof
  import opened Builder

  /** Windows of level m that a run of pages touches. */
  function Windows(m: nat, lo: nat, touched: nat): (r: nat)
    requires m <= 4 && lo < touched
    ensures r >= 1
  {
    NumMono(m, lo, touched - 1);
    Num(m, touched - 1) - Num(m, lo) + 1
  }

  /** Enough pages to describe a run from level l down: one for each window touched at each
      level below. */
  function Budget(l: nat, lo: nat, touched: nat): nat
    decreases 3 - l
  {
    if l >= 3 || lo >= touched then 0 else Windows(l + 1, lo, touched) + Budget(l + 1, lo, touched)
  }

  lemma {:induction false} BudgetMono(l: nat, lo: nat, lo': nat, touched: nat)
    requires l <= 3 && lo <= lo'
    ensures Budget(l, lo', touched) <= Budget(l, lo, touched)
    decreases 3 - l
  {
    hide Num;
    if l < 3 && lo' < touched {
      NumMono(l + 1, lo, lo');
      BudgetMono(l + 1, lo, lo', touched);
    }
  }

  /** Two parts of a run that no window of a lower level straddles. */
  lemma {:induction false} BudgetSplit(l: nat, ip: nat, hi: nat, x: nat, touched: nat)
    requires l <= 3 && ip < hi <= x < touched && (l < 3 ==> x % Span(l + 1) == 0)
    ensures Budget(l, ip, hi) + Budget(l, x, touched) <= Budget(l, ip, touched)
    decreases 3 - l
  {
    hide Num, Span;
    if l < 3 {
      Aligned(l + 1, x);
      NumBefore(l + 1, hi - 1, x);
      BudgetSplit(l + 1, ip, hi, x, touched);
    }
  }

  lemma NumBefore(l: nat, a: nat, x: nat)
    requires l <= 4 && a < x && x % Span(l) == 0
    ensures Num(l, a) < Num(l, x)
  {
    hide Num, Span;
    NumMono(l, a, x);
    NumAligned(l, x, a);
  }

  lemma BudgetEntry(l: nat, ip: nat, hi: nat, touched: nat)
    requires l < 3 && ip < hi <= Min(touched, ip + Span(l + 1)) && (ip + Span(l + 1) < touched ==> ip % Span(l + 1) == 0)
    ensures 1 + Budget(l + 1, ip, hi) + Budget(l, ip + Span(l + 1), touched) <= Budget(l, ip, touched)
  {
    hide Num, Span;
    var x := ip + Span(l + 1);
    if x < touched {
      Aligned(l + 1, ip);
      Aligned(l + 1, x);
      NumBefore(l + 1, ip, x);
      BudgetSplit(l + 1, ip, hi, x, touched);
    } else {
      BudgetShorter(l + 1, ip, hi, touched);
    }
  }

  lemma {:induction false} BudgetShorter(l: nat, ip: nat, hi: nat, touched: nat)
    requires l <= 3 && ip < hi <= touched
    ensures Budget(l, ip, hi) <= Budget(l, ip, touched)
    decreases 3 - l
  {
    hide Num;
    if l < 3 {
      NumMono(l + 1, hi - 1, touched - 1);
      BudgetShorter(l + 1, ip, hi, touched);
    }
  }

  // ---- The builder keeps within it ----

  /** The builder goes through, with at most the pages of the budget. */
  predicate Within(next: Option<State>, s: State, n: nat) { next.Some? && |s.pool| <= |next.value.pool| + n }

  lemma {:induction false} SteppedWithin(l: nat, nbits: nat, r: Run, s: State)
    requires l <= 3 && nbits <= 9 && r.lo < r.touched && RunOk(r) && CountersOk(s.counters, l) && Shape(l, r)
    requires |s.pool| >= Budget(l, r.lo, r.touched)
    ensures Budget(l, r.lo + Span(l + 1), r.touched) <= Budget(l, r.lo, r.touched)
    ensures Within(Stepped(l, nbits, r, s), s, Budget(l, r.lo, r.touched) - Budget(l, r.lo + Span(l + 1), r.touched))
    decreases 3 - l, r.touched - r.lo, 0
  {
    hide Budget, Span, Num, Slot, Blockable, Shape, CountersOk, AttrOk, Room, Increment, Built;
    BudgetMono(l, r.lo, r.lo + Span(l + 1), r.touched);
    if l < 3 && !Blockable(l, r) {
      var c := s.counters;
      FedOk(l, r, c);
      RoomBounds(l, c);
      FedShape(l, r, c);
      if r.lo + Span(l + 1) < r.touched { NextShape(l, r); }
      BudgetEntry(l, r.lo, Fed(l, r, c).touched, r.touched);
      var under := Under(At(s.tree, Slot(l, nbits, r.lo)), s.pool);
      BuiltWithin(l + 1, 9, Fed(l, r, c), State(under.value.0, Increment(c, l), under.value.1, {}));
    }
  }

  lemma FedShape(l: nat, r: Run, c: Counters)
    requires l < 3 && r.lo < r.touched && r.whole <= r.touched && Shape(l, r) && !Blockable(l, r) && Room(l, c) <= Span(l + 1)
    ensures Shape(l + 1, Fed(l, r, c))
  {
    hide Shape, Blockable, Room, Span;
    DescendShape(l, r);
    ShapeCut(l + 1, Cut(r, r.lo + Span(l + 1)), r.lo + Room(l, c));
    assert Cut(Cut(r, r.lo + Span(l + 1)), r.lo + Room(l, c)) == Fed(l, r, c);
  }

  /** With the pages of the budget at hand the builder does not run out of pages. */
  lemma {:induction false} BuiltWithin(l: nat, nbits: nat, r: Run, s: State)
    requires l <= 3 && nbits <= 9 && RunOk(r) && CountersOk(s.counters, l) && Shape(l, r)
    requires |s.pool| >= Budget(l, r.lo, r.touched)
    ensures Within(Built(l, nbits, r, s), s, Budget(l, r.lo, r.touched))
    decreases 3 - l, r.touched - r.lo, 1
  {
    hide Budget, Span, Shape, CountersOk, AttrOk, Built, Stepped, Increment, After;
    if r.lo >= r.touched {
      BuiltNone(l, nbits, r, s);
    } else {
      BuiltStep(l, nbits, r, s);
      SteppedWithin(l, nbits, r, s);
      var rest, s1 := From(r, r.lo + Span(l + 1)), Stepped(l, nbits, r, s).value;
      SteppedCounters(l, nbits, r, s);
      if l == 3 || Blockable(l, r) { LeafCounters(l, s.counters); } else { EntryCountersOk(l, r, s.counters); }
      if rest.lo < rest.touched {
        RestOk(l, r);
        NextShape(l, r);
        BuiltWithin(l, nbits, rest, s1);
      } else {
        BuiltNone(l, nbits, rest, s1);
      }
    }
  }

  // ---- Any run ----

  lemma StepBudget(k: nat, n: nat, rest: nat, len: nat)
    requires 1 <= k && 1 <= n && n + rest <= len
    ensures 1 + (k - 1) * n + k * rest <= k * len && (k - 1) * n <= k * len && k * rest <= k * len
  {
    assert k * n == (k - 1) * n + n;
    assert k * (n + rest) == k * n + k * rest;
    MulMono(n + rest, len, k);
    assert (n + rest) * k == k * (n + rest) && len * k == k * len;
  }

  /** How much of a run is left after its first step. */
  function Rest(l: nat, r: Run): nat { if r.lo + Span(l + 1) < r.touched then r.touched - (r.lo + Span(l + 1)) else 0 }

  lemma {:induction false} SteppedEnough(l: nat, nbits: nat, r: Run, s: State)
    requires l <= 3 && nbits <= 9 && r.lo < r.touched && RunOk(r) && CountersOk(s.counters, l)
    requires |s.pool| >= (3 - l) * (r.touched - r.lo)
    ensures (3 - l) * Rest(l, r) <= (3 - l) * (r.touched - r.lo)
    ensures Within(Stepped(l, nbits, r, s), s, (3 - l) * (r.touched - r.lo) - (3 - l) * Rest(l, r))
    decreases 3 - l, r.touched - r.lo, 0
  {
    hide Span, Num, Slot, Blockable, CountersOk, AttrOk, Room, Increment, Built;
    var len, rest, k := r.touched - r.lo, Rest(l, r), 3 - l;
    if l == 3 || Blockable(l, r) {
      if k > 0 { StepBudget(k, len - rest, rest, len); }
    } else {
      var c := s.counters;
      FedOk(l, r, c);
      RoomBounds(l, c);
      var f := Fed(l, r, c);
      var n := f.touched - f.lo;
      StepBudget(k, n, rest, len);
      var under := Under(At(s.tree, Slot(l, nbits, r.lo)), s.pool);
      BuiltEnough(l + 1, 9, f, State(under.value.0, Increment(c, l), under.value.1, {}));
    }
  }

  /** For every run, supported or not, one page for each of its pages and each level below is enough. */
  lemma {:induction false} BuiltEnough(l: nat, nbits: nat, r: Run, s: State)
    requires l <= 3 && nbits <= 9 && RunOk(r) && CountersOk(s.counters, l) && |s.pool| >= (3 - l) * (r.touched - r.lo)
    ensures Within(Built(l, nbits, r, s), s, (3 - l) * (r.touched - r.lo))
    decreases 3 - l, r.touched - r.lo, 1
  {
    hide Span, CountersOk, AttrOk, Built, Stepped, Increment, After;
    if r.lo >= r.touched {
      BuiltNone(l, nbits, r, s);
    } else {
      BuiltStep(l, nbits, r, s);
      SteppedEnough(l, nbits, r, s);
      var rest, s1 := From(r, r.lo + Span(l + 1)), Stepped(l, nbits, r, s).value;
      SteppedCounters(l, nbits, r, s);
      if l == 3 || Blockable(l, r) { LeafCounters(l, s.counters); } else { EntryCountersOk(l, r, s.counters); }
      if rest.lo < rest.touched {
        RestOk(l, r);
        BuiltEnough(l, nbits, rest, s1);
      } else {
        BuiltNone(l, nbits, rest, s1);
      }
    }
  }
}

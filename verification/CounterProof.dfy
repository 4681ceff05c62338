/** How the builder's running counters move: they stay in range under one input size, and
    from zero they clip only runs that cross 1 GiB windows without 2 MiB-aligned frames. */
module CounterProof {
  import opened Common
  import opened PageTree
  import opened FillSpec
  import opened FillProof

  // ---- One table ----

  lemma AfterNone(l: nat, r: Run, c: Counters)
    requires r.lo >= r.touched
    ensures After(l, r, c) == c
  {
  }

  lemma AfterLeaf(l: nat, r: Run, c: Counters)
    requires r.lo < r.touched && (l >= 3 || Blockable(l, r))
    ensures After(l, r, c) == After(l, From(r, r.lo + Span(l + 1)), Increment(c, l))
  {
  }

  lemma AfterEntry(l: nat, r: Run, c: Counters)
    requires r.lo < r.touched && l < 3 && !Blockable(l, r)
    ensures After(l, r, c) == After(l, From(r, r.lo + Span(l + 1)), After(l + 1, Fed(l, r, c), Increment(c, l)))
  {
  }

  /** Pages that fit what is left of a table: the page counter wraps at most once. */
  lemma {:induction false} PagesAfter(r: Run, c: Counters)
    requires r.lo <= r.touched && c.l3 < ENTRIES && c.l3 + (r.touched - r.lo) <= ENTRIES
    ensures var n, c' := r.touched - r.lo, After(3, r, c);
            c' == if c.l3 + n < ENTRIES then c.(l3 := c.l3 + n) else c.(l3 := 0, l2 := (c.l2 + 1) % U32)
    decreases r.touched - r.lo
  {
    hide After, Span;
    SpanValues();
    if r.lo == r.touched {
      AfterNone(3, r, c);
    } else {
      AfterLeaf(3, r, c);
      var c1 := Increment(c, 3);
      if c1.l3 == 0 {
        AfterNone(3, From(r, r.lo + 1), c1);
      } else {
        PagesAfter(From(r, r.lo + 1), c1);
      }
    }
  }

  /** One 2 MiB entry with a table. */
  lemma EntryAfter(r: Run, c: Counters)
    requires r.lo < r.touched && c.l3 < ENTRIES
    ensures var n, c1 := Min(r.touched - r.lo, ENTRIES - c.l3), Increment(c, 2);
            After(3, Fed(2, r, c), c1) == if c.l3 + n < ENTRIES then c1.(l3 := c.l3 + n) else c1.(l3 := 0, l2 := (c1.l2 + 1) % U32)
  {
    hide After, Span;
    SpanValues();
    PagesAfter(Fed(2, r, c), Increment(c, 2));
  }

  // ---- Counters stay in range ----

  /** Filling below one level-1 entry carries into the level-1 counter at most once. */
  lemma {:induction false} Carry(r: Run, c: Counters)
    requires c.l2 < ENTRIES && c.l3 < ENTRIES && r.touched - r.lo <= (ENTRIES - c.l2) * ENTRIES
    ensures var c' := After(2, r, c); c'.l2 < ENTRIES && c'.l3 < ENTRIES && c'.l1 <= c.l1 + 1
    decreases r.touched - r.lo
  {
    hide After, Span, Blockable, Fed;
    SpanValues();
    if r.lo >= r.touched {
      AfterNone(2, r, c);
    } else {
      var c1;
      if Blockable(2, r) {
        AfterLeaf(2, r, c);
        c1 := Increment(c, 2);
      } else {
        AfterEntry(2, r, c);
        EntryAfter(r, c);
        c1 := After(3, Fed(2, r, c), Increment(c, 2));
      }
      if c.l2 == ENTRIES - 1 {
        AfterNone(2, From(r, r.lo + 512), c1);
      } else {
        Carry(From(r, r.lo + 512), c1);
      }
    }
  }

  /** Counters below 512 from a level on stay so when a table of that level is filled. */
  lemma {:induction false} AfterKeeps(l: nat, r: Run, c: Counters)
    requires 1 <= l <= 3 && CountersOk(c, l - 1)
    ensures CountersOk(After(l, r, c), l - 1)
    decreases 3 - l, r.touched - r.lo
  {
    hide After, Span, Blockable, Fed;
    SpanValues();
    if r.lo >= r.touched {
      AfterNone(l, r, c);
    } else if l == 3 || Blockable(l, r) {
      AfterLeaf(l, r, c);
      AfterKeeps(l, From(r, r.lo + Span(l + 1)), Increment(c, l));
    } else {
      AfterEntry(l, r, c);
      if l == 2 {
        EntryAfter(r, c);
      } else {
        RoomBelow(r, c);
        Carry(Fed(1, r, c), Increment(c, 1));
      }
      AfterKeeps(l, From(r, r.lo + Span(l + 1)), After(l + 1, Fed(l, r, c), Increment(c, l)));
    }
  }

  lemma RoomBelow(r: Run, c: Counters)
    requires r.lo < r.touched && c.l2 < ENTRIES
    ensures var f := Fed(1, r, c); f.touched - f.lo <= (ENTRIES - c.l2) * ENTRIES && Increment(c, 1).l2 == c.l2
  {
    SpanValues();
  }

  /** Filling a whole run at a level keeps the counters in range for that level. */
  lemma {:induction false} FillKeeps(l: nat, r: Run, c: Counters)
    requires l <= 3 && CountersOk(c, l)
    ensures CountersOk(After(l, r, c), l)
    decreases r.touched - r.lo
  {
    hide After, Span, Blockable, Fed;
    if r.lo >= r.touched {
      AfterNone(l, r, c);
    } else if l == 3 || Blockable(l, r) {
      AfterLeaf(l, r, c);
      FillKeeps(l, From(r, r.lo + Span(l + 1)), Increment(c, l));
    } else {
      AfterEntry(l, r, c);
      AfterKeeps(l + 1, Fed(l, r, c), Increment(c, l));
      FillKeeps(l, From(r, r.lo + Span(l + 1)), After(l + 1, Fed(l, r, c), Increment(c, l)));
    }
  }

  // ---- From zero counters ----

  predicate Zeros(c: Counters) { c.l1 == 0 && c.l2 == 0 && c.l3 == 0 }

  lemma ZeroRoom(l: nat, r: Run, c: Counters)
    requires l <= 2 && Zeros(c)
    ensures Room(l, c) == Span(l + 1) && Fed(l, r, c) == Cut(r, r.lo + Span(l + 1)) && Zeros(Increment(c, l))
  {
  }

  /** Whole 2 MiB windows from an entry boundary of level l on, with 2 MiB-aligned frames. */
  predicate Blocks(l: nat, r: Run) {
    r.lo % Span(l + 1) == 0 && r.op % 512 == 0 && r.whole == r.touched && r.touched % 512 == 0
  }

  lemma BlocksNext(l: nat, r: Run)
    requires l <= 2 && Blocks(l, r)
    ensures Blocks(l, From(r, r.lo + Span(l + 1)))
  {
    Aligned(l + 1, r.lo);
    SpanValues();
  }

  lemma BlocksFed(l: nat, r: Run)
    requires l <= 2 && Blocks(l, r) && r.lo < r.touched && !Blockable(l, r)
    ensures l < 2 && Blocks(l + 1, Cut(r, r.lo + Span(l + 1)))
  {
    Aligned(l + 1, r.lo);
    SpanValues();
  }

  /** Blocks leave zero counters at zero. */
  lemma {:induction false} ZeroStays(l: nat, r: Run, c: Counters)
    requires l <= 2 && Zeros(c) && Blocks(l, r)
    ensures Zeros(After(l, r, c))
    decreases 3 - l, r.touched - r.lo
  {
    hide After, Span, Blockable, Blocks, Zeros, Fed, Room, Increment;
    var b := Span(l + 1);
    if r.lo >= r.touched {
      AfterNone(l, r, c);
    } else {
      ZeroRoom(l, r, c);
      BlocksNext(l, r);
      if Blockable(l, r) {
        AfterLeaf(l, r, c);
        ZeroStays(l, From(r, r.lo + b), Increment(c, l));
      } else {
        BlocksFed(l, r);
        AfterEntry(l, r, c);
        ZeroStays(l + 1, Fed(l, r, c), Increment(c, l));
        ZeroStays(l, From(r, r.lo + b), After(l + 1, Fed(l, r, c), Increment(c, l)));
      }
    }
  }

  lemma NoClipNone(l: nat, r: Run, c: Counters)
    requires l >= 3 || r.lo >= r.touched
    ensures NoClip(l, r, c)
  {
  }

  lemma NoClipLeaf(l: nat, r: Run, c: Counters)
    requires l < 3 && r.lo < r.touched && Blockable(l, r)
    ensures NoClip(l, r, c) <==> NoClip(l, From(r, r.lo + Span(l + 1)), Increment(c, l))
  {
  }

  lemma NoClipEntry(l: nat, r: Run, c: Counters)
    requires l < 3 && r.lo < r.touched && !Blockable(l, r)
    ensures NoClip(l, r, c) <==>
            && Min(r.touched, r.lo + Span(l + 1)) <= r.lo + Room(l, c)
            && NoClip(l + 1, Cut(r, r.lo + Span(l + 1)), Increment(c, l))
            && NoClip(l, From(r, r.lo + Span(l + 1)), After(l + 1, Fed(l, r, c), Increment(c, l)))
  {
  }

  /** Full tables leave the page counter at zero, so nothing is cut off below level 1. */
  lemma {:induction false} PagesFit(r: Run, c: Counters)
    requires c.l3 == 0
    ensures NoClip(2, r, c)
    decreases r.touched - r.lo
  {
    hide After, NoClip, Span, Blockable;
    SpanValues();
    if r.lo >= r.touched {
      NoClipNone(2, r, c);
    } else if Blockable(2, r) {
      NoClipLeaf(2, r, c);
      PagesFit(From(r, r.lo + 512), Increment(c, 2));
    } else {
      NoClipEntry(2, r, c);
      NoClipNone(3, Cut(r, r.lo + 512), Increment(c, 2));
      EntryAfter(r, c);
      var c1 := After(3, Fed(2, r, c), Increment(c, 2));
      if r.lo + 512 < r.touched {
        PagesFit(From(r, r.lo + 512), c1);
      } else {
        NoClipNone(2, From(r, r.lo + 512), c1);
      }
    }
  }

  /** One 1 GiB window, or frames aligned to 2 MiB. */
  predicate Smooth(r: Run) {
    r.lo < r.touched ==> Num(2, r.lo) == Num(2, r.touched - 1) || r.op % 512 == 0
  }

  /** With every counter at zero nothing is cut off from such a run. */
  lemma {:induction false} ZeroNeverClips(l: nat, r: Run, c: Counters)
    requires l <= 3 && Zeros(c) && Shape(l, r) && r.lo <= r.whole <= r.touched <= r.whole + 1
    requires Smooth(r)
    ensures NoClip(l, r, c)
    decreases 3 - l, r.touched - r.lo
  {
    hide After, NoClip, Span, Num, Blockable, Smooth, Zeros, Room, Fed, Increment, Blocks;
    var b := Span(l + 1);
    if r.lo >= r.touched || l == 3 {
      NoClipNone(l, r, c);
    } else if l == 2 {
      ZeroPages(c);
      PagesFit(r, c);
    } else {
      NextSmooth(l, r);
      ZeroRoom(l, r, c);
      if Blockable(l, r) {
        NoClipLeaf(l, r, c);
        BlockInside(l, r);
        ZeroNeverClips(l, From(r, r.lo + b), Increment(c, l));
      } else {
        NoClipEntry(l, r, c);
        CutSmooth(r, r.lo + b);
        ZeroNeverClips(l + 1, Cut(r, r.lo + b), Increment(c, l));
        var c1 := After(l + 1, Fed(l, r, c), Increment(c, l));
        if r.lo + b < r.touched {
          NextShape(l, r);
          FullEntry(l, r);
          ZeroStays(l + 1, Fed(l, r, c), Increment(c, l));
          ZeroNeverClips(l, From(r, r.lo + b), c1);
        } else {
          NoClipNone(l, From(r, r.lo + b), c1);
        }
      }
    }
  }

  lemma ZeroPages(c: Counters)
    requires Zeros(c)
    ensures c.l3 == 0
  {
  }

  lemma BlockInside(l: nat, r: Run)
    requires l < 3 && Blockable(l, r) && Shape(l, r) && r.lo < r.touched
    ensures r.lo + Span(l + 1) <= r.whole && Shape(l, From(r, r.lo + Span(l + 1)))
  {
  }

  /** An entry that is not the last one of an aligned run is filled with blocks. */
  lemma FullEntry(l: nat, r: Run)
    requires l <= 1 && r.lo % Span(l + 1) == 0 && r.op % 512 == 0 && r.lo + Span(l + 1) < r.touched <= r.whole + 1
    ensures Blocks(l + 1, Cut(r, r.lo + Span(l + 1)))
  {
    hide Span;
    SpanValues();
    Aligned(l + 1, r.lo);
    EndAligned(l, r.lo);
  }

  /** The end of an entry above level 2 is a 2 MiB boundary. */
  lemma EndAligned(l: nat, lo: nat)
    requires l <= 2 && lo % Span(l + 1) == 0
    ensures (lo + Span(l + 1)) % 512 == 0 && lo % 512 == 0
  {
    hide Span;
    SpanValues();
    Aligned(l + 1, lo);
    var x := lo + Span(l + 1);
    if l <= 1 {
      Aligned(2, x) by { if l == 0 { Aligned(1, x); } }
      Aligned(2, lo) by { if l == 0 { Aligned(1, lo); } }
    }
  }

  lemma NextSmooth(l: nat, r: Run)
    requires l <= 1 && r.lo < r.touched && Smooth(r)
    ensures Smooth(From(r, r.lo + Span(l + 1))) && (r.lo + Span(l + 1) < r.touched ==> r.op % 512 == 0)
  {
    SpanValues();
    if Num(2, r.lo) == Num(2, r.touched - 1) { NumClose(2, r.lo, r.touched - 1); }
  }

  lemma CutSmooth(r: Run, x: nat)
    requires r.lo < Min(r.touched, x) && Smooth(r)
    ensures Smooth(Cut(r, x))
  {
    NumMono(2, r.lo, Min(r.touched, x) - 1);
    NumMono(2, Min(r.touched, x) - 1, r.touched - 1);
  }

  // ---- Where zero counters do clip ----

  /** Tables of 512 pages each advance the level-2 counter by one. */
  lemma {:induction false} TablesAfter(r: Run, c: Counters, n: nat)
    requires c.l3 == 0 && c.l2 + n < ENTRIES && r.op % 512 != 0 && r.touched == r.lo + n * 512
    ensures After(2, r, c) == c.(l2 := c.l2 + n)
    decreases n
  {
    hide After, Span;
    SpanValues();
    if n == 0 {
      AfterNone(2, r, c);
    } else {
      AfterEntry(2, r, c);
      EntryAfter(r, c);
      TablesAfter(From(r, r.lo + 512), c.(l2 := c.l2 + 1), n - 1);
    }
  }

  /** One more table when the level-2 counter stands at its last value. */
  lemma TableWraps(r: Run, c: Counters)
    requires c.l3 == 0 && c.l2 == ENTRIES - 1 && r.op % 512 != 0 && r.touched == r.lo + 512
    ensures After(2, r, c) == c.(l1 := (c.l1 + 1) % U32, l2 := 1)
  {
    hide After, Span;
    SpanValues();
    AfterEntry(2, r, c);
    EntryAfter(r, c);
    AfterNone(2, From(r, r.lo + 512), After(3, Fed(2, r, c), Increment(c, 2)));
  }

  /** Tables up to the last value of the level-2 counter and one more. */
  lemma {:induction false} TablesThrough(r: Run, c: Counters, n: nat)
    requires c.l3 == 0 && n > 0 && c.l2 + n == ENTRIES && r.op % 512 != 0 && r.touched == r.lo + n * 512
    ensures After(2, r, c) == c.(l1 := (c.l1 + 1) % U32, l2 := 1)
    decreases n
  {
    hide After, Span;
    SpanValues();
    if n == 1 {
      TableWraps(r, c);
    } else {
      AfterEntry(2, r, c);
      EntryAfter(r, c);
      TablesThrough(From(r, r.lo + 512), c.(l2 := c.l2 + 1), n - 1);
    }
  }

  /** A run from a 1 GiB boundary on that crosses into the next window, with frames that are
      not 2 MiB-aligned, is cut off even from zero counters, unless it ends 2 MiB before the
      end of the second window. */
  lemma ZeroClipsIff(r: Run, c: Counters)
    requires Zeros(c) && r.lo % Span(2) == 0 && r.op % 512 != 0 && r.lo + Span(2) < r.touched
    ensures NoClip(1, r, c) <==> r.touched <= r.lo + 2 * Span(2) - Span(3)
  {
    hide After, NoClip, Span;
    SpanValues();
    var b := Span(2);
    FirstWindow(r, c);
    var s, c1 := From(r, r.lo + b), c.(l1 := 1, l2 := 1);
    NotAligned(s);
    NoClipEntry(1, s, c1);
    PagesFit(Cut(s, s.lo + b), Increment(c1, 1));
    if s.touched <= s.lo + b { NoClipNone(1, From(s, s.lo + b), After(2, Fed(1, s, c1), Increment(c1, 1))); }
  }

  lemma NotAligned(r: Run)
    requires r.op % 512 != 0
    ensures !Blockable(1, r) && !Blockable(2, r)
  {
    hide Span;
    SpanValues();
    if r.op % Span(2) == 0 { Aligned(2, r.op); }
  }

  lemma FirstWindow(r: Run, c: Counters)
    requires Zeros(c) && r.lo % Span(2) == 0 && r.op % 512 != 0 && r.lo + Span(2) < r.touched
    ensures NoClip(1, r, c) <==> NoClip(1, From(r, r.lo + Span(2)), c.(l1 := 1, l2 := 1))
  {
    hide After, NoClip, Span;
    SpanValues();
    NotAligned(r);
    NoClipEntry(1, r, c);
    ZeroRoom(1, r, c);
    PagesFit(Cut(r, r.lo + Span(2)), c);
    TablesThrough(Cut(r, r.lo + Span(2)), c, 512);
  }

  /** A run that is not smooth starts, at level 1, on a 1 GiB boundary and goes beyond that window. */
  lemma CrossesWindow(r: Run)
    requires r.lo < r.touched && Shape(1, r) && !Smooth(r)
    ensures r.lo % Span(2) == 0 && r.lo + Span(2) < r.touched
  {
    hide Num, Span;
    NotAligned(r);
    StaysIff(1, r);
    NumAligned(2, r.lo, r.touched - 1);
  }

  /** At level 0 such a run lies under one entry, or is cut off below the first. */
  lemma TopClips(r: Run, c: Counters)
    requires r.lo < r.touched && r.whole <= r.touched && Zeros(c) && Shape(0, r) && !Smooth(r)
    ensures NoClip(0, r, c) <==> r.touched <= r.lo + 2 * Span(2) - Span(3)
  {
    hide After, NoClip, Span, Num, Increment, Zeros, Room, Fed, Smooth, Shape, Blockable;
    SpanValues();
    var b := Span(1);
    var f := Cut(r, r.lo + b);
    NotTopBlock(r);
    NoClipEntry(0, r, c);
    ZeroRoom(0, r, c);
    DescendShape(0, r);
    if r.touched <= r.lo + b {
      assert f == r;
      CrossesWindow(r);
      ZeroClipsIff(r, Increment(c, 0));
      NoClipNone(0, From(r, r.lo + b), After(1, Fed(0, r, c), Increment(c, 0)));
    } else {
      StaysAt(0, r);
      StaysIff(0, r);
      Beyond512(r);
      ZeroClipsIff(f, Increment(c, 0));
    }
  }

  lemma StaysAt(l: nat, r: Run)
    requires l < 3 && r.lo < r.touched && Shape(l, r) && !Blockable(l, r)
    ensures Stays(l, r)
  {
  }

  lemma NotTopBlock(r: Run)
    requires !Smooth(r)
    ensures r.op % 512 != 0 && !Blockable(0, r)
  {
    SpanValues();
    if r.op % Span(1) == 0 { EndAligned(0, r.op); }
  }

  lemma Beyond512(r: Run)
    requires r.lo + Span(1) < r.touched && (Num(1, r.lo) == Num(1, r.touched - 1) || r.lo % Span(1) == 0)
    ensures r.lo % Span(1) == 0 && r.lo % Span(2) == 0
  {
    hide Num, Span;
    if Num(1, r.lo) == Num(1, r.touched - 1) { NumClose(1, r.lo, r.touched - 1); }
    Aligned(1, r.lo);
  }

  /** From zero counters a supported run in one table is left whole if and only if it lies in one
      1 GiB window, or has 2 MiB-aligned frames, or ends 2 MiB before the end of the second window. */
  lemma ZeroClips(l: nat, r: Run, c: Counters)
    requires l <= 3 && Zeros(c) && Shape(l, r) && r.lo < r.touched && r.lo <= r.whole <= r.touched <= r.whole + 1
    requires Num(l, r.lo) == Num(l, r.touched - 1)
    ensures NoClip(l, r, c) <==> Smooth(r) || r.touched <= r.lo + 2 * Span(2) - Span(3)
  {
    hide NoClip, Shape, Span, Zeros, Smooth;
    if Smooth(r) {
      ZeroNeverClips(l, r, c);
    } else {
      OneWindow(l, r);
      if l == 0 {
        TopClips(r, c);
      } else {
        CrossesWindow(r);
        NotTopBlock(r);
        ZeroClipsIff(r, c);
      }
    }
  }

  lemma OneWindow(l: nat, r: Run)
    requires l <= 3 && r.lo < r.touched && Num(l, r.lo) == Num(l, r.touched - 1) && !Smooth(r)
    ensures l < 2
  {
  }

  // ---- Counters out of range ----

  /** The counters after a list of runs, each taken up by a table of level l. */
  function AfterAll(l: nat, rs: seq<Run>, c: Counters): Counters {
    if rs == [] then c else After(l, rs[|rs| - 1], AfterAll(l, rs[..|rs| - 1], c))
  }

  /** One 2 MiB window whose frames are not 2 MiB-aligned. */
  predicate OneTable(r: Run) { r.op % 512 != 0 && r.touched == r.lo + 512 }

  /** Tables that start at level 2 carry into the level-1 counter and never reset it: it takes
      every value, in particular 512, which is out of range for a table that starts at level 0. */
  lemma {:induction false} CounterReaches(rs: seq<Run>, m: nat)
    requires m < U32 && |rs| == 1 + 511 * m && forall i :: 0 <= i < |rs| ==> OneTable(rs[i])
    ensures AfterAll(2, rs, ZERO_COUNTERS) == Counters(0, m, 1, 0)
    decreases m
  {
    hide After;
    if m == 0 {
      assert rs[..0] == [];
      TablesAfter(rs[0], ZERO_COUNTERS, 1);
    } else {
      CounterReaches(rs[..1 + 511 * (m - 1)], m - 1);
      Climb(rs, 1 + 511 * (m - 1), 510, m - 1);
      assert rs[..1 + 511 * (m - 1) + 510] == rs[..|rs| - 1];
      TableWraps(rs[|rs| - 1], Counters(0, m - 1, 511, 0));
    }
  }

  /** Tables that start at level 3 carry into the level-2 counter and never reset it: n runs of 512
      pages each bring it to n, in particular to 512, out of range for a table that starts at level 0
      or 1. */
  lemma {:induction false} PageCounterReaches(rs: seq<Run>)
    requires |rs| < U32 && forall i :: 0 <= i < |rs| ==> rs[i].touched == rs[i].lo + 512
    ensures AfterAll(3, rs, ZERO_COUNTERS) == Counters(0, 0, |rs|, 0)
    decreases |rs|
  {
    hide After;
    if |rs| > 0 {
      var n := |rs| - 1;
      PageCounterReaches(rs[..n]);
      PagesAfter(rs[n], Counters(0, 0, n, 0));
    }
  }

  lemma {:induction false} Climb(rs: seq<Run>, start: nat, n: nat, m: nat)
    requires start + n <= |rs| && n <= 510 && forall i :: 0 <= i < |rs| ==> OneTable(rs[i])
    requires AfterAll(2, rs[..start], ZERO_COUNTERS) == Counters(0, m, 1, 0)
    ensures AfterAll(2, rs[..start + n], ZERO_COUNTERS) == Counters(0, m, 1 + n, 0)
    decreases n
  {
    hide After;
    if n > 0 {
      Climb(rs, start, n - 1, m);
      var s := rs[..start + n];
      assert s[..|s| - 1] == rs[..start + (n - 1)] && s[|s| - 1] == rs[start + n - 1];
      TablesAfter(rs[start + n - 1], Counters(0, m, n, 0), 1);
    }
  }
}

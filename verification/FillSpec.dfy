/** What the table builder is asked to do and when it does all of it: the runs of
    pages it supports, and the clip that its running counters impose. */
module FillSpec {
  import opened Common
  import opened Descriptors
  import opened PageTree

  const ENTRIES: nat := 512

  // ---- The builder's counters ----

  /** The running counters, one per level; they survive from call to call. */
  datatype Counters = Counters(l0: nat, l1: nat, l2: nat, l3: nat)

  const ZERO_COUNTERS := Counters(0, 0, 0, 0)

  function CounterAt(c: Counters, level: nat): nat {
    match level
    case 0 => c.l0
    case 1 => c.l1
    case 2 => c.l2
    case 3 => c.l3
    case _ => 0
  }

  /** One descriptor was written at a level: carry the counters. Levels 1 and 2 are only
      ever reset here; they advance when the level below wraps. */
  function Increment(c: Counters, level: nat): Counters {
    match level
    case 1 => if c.l1 == ENTRIES - 1 then c.(l1 := 0, l0 := (c.l0 + 1) % U32) else c
    case 2 => if c.l2 == ENTRIES - 1 then c.(l2 := 0, l1 := (c.l1 + 1) % U32) else c
    case 3 => if c.l3 == ENTRIES - 1 then c.(l3 := 0, l2 := (c.l2 + 1) % U32) else c.(l3 := c.l3 + 1)
    case _ => c
  }

  /** Counters that keep the builder's step positive from a level down. */
  predicate CountersOk(c: Counters, level: nat) {
    && c.l3 < ENTRIES && (level <= 1 ==> c.l2 < ENTRIES) && (level <= 0 ==> c.l1 < ENTRIES)
  }

  /** Pages the builder allows itself below one entry of level l: the clip. */
  function Room(l: nat, c: Counters): nat {
    var taken := CounterAt(c, l + 1) * Span(l + 2);
    if taken <= Span(l + 1) then Span(l + 1) - taken else 0
  }

  // ---- Runs of pages ----

  /** Pages [lo, touched) to be mapped to frames from op on. Only the pages below
      `whole` are wanted to their last byte; the two differ by at most the last page. */
  datatype Run = Run(lo: nat, whole: nat, touched: nat, op: nat, attr: nat)

  function Min(a: nat, b: nat): nat { if a < b then a else b }

  /** Whole pages, and pages touched, below an inclusive last address. The builder's
      loop test `address < last` leaves out a final page of which one byte is wanted. */
  function WholePages(last: nat): nat { (last + 1) / 0x1000 }
  function TouchedPages(last: nat): nat { (last + 0xFFF) / 0x1000 }

  function RunOf(base: nat, last: nat, output: nat, attr: nat): Run {
    Run(base / 0x1000, WholePages(last), TouchedPages(last), output / 0x1000, attr)
  }

  function Cut(r: Run, x: nat): Run { r.(whole := Min(r.whole, x), touched := Min(r.touched, x)) }

  function From(r: Run, ip: nat): Run
    requires r.lo <= ip
  {
    r.(lo := ip, op := r.op + (ip - r.lo))
  }

  predicate RunOk(r: Run) {
    && r.lo <= r.whole <= r.touched <= r.whole + 1
    && r.op + (r.touched - r.lo) <= 0x10_0000_0000 && AttrOk(r.attr)
  }

  /** Clipping the last address at a page boundary cuts the run there. */
  lemma ClipRun(base: nat, last: nat, output: nat, attr: nat, x: nat)
    requires x > 0
    ensures RunOf(base, Min(last, x * 0x1000 - 1), output, attr) == Cut(RunOf(base, last, output, attr), x)
  {
  }

  /** The run starts with pages that one entry at level l can describe as a block. */
  predicate Blockable(l: nat, r: Run) {
    r.lo % Span(l + 1) == 0 && r.op % Span(l + 1) == 0 && r.whole >= r.lo + Span(l + 1)
  }

  /** What is handed to the table below an entry of level l: the run cut at the room left there. */
  function Fed(l: nat, r: Run, c: Counters): Run { Cut(r, r.lo + Room(l, c)) }

  /** With nothing cut off, the run handed down stays under the entry it starts in. */
  predicate Stays(l: nat, r: Run)
    requires r.lo < r.touched
  {
    Num(l + 1, r.lo) == Num(l + 1, Min(r.touched, r.lo + Span(l + 1)) - 1)
  }

  /** Runs that the builder can describe from level l down: every run handed down stays under
      its entry. */
  predicate Shape(l: nat, r: Run)
    decreases 3 - l, r.touched - r.lo
  {
    var b := Span(l + 1);
    if l >= 3 || r.lo >= r.touched then true
    else if Blockable(l, r) then Shape(l, From(r, r.lo + b))
    else Stays(l, r) && Shape(l + 1, Cut(r, r.lo + b)) && Shape(l, From(r, r.lo + b))
  }

  /** The counters after a table at level l took a run up. */
  function After(l: nat, r: Run, c: Counters): Counters
    decreases 3 - l, r.touched - r.lo
  {
    var b := Span(l + 1);
    if r.lo >= r.touched then c
    else if l >= 3 || Blockable(l, r) then After(l, From(r, r.lo + b), Increment(c, l))
    else After(l, From(r, r.lo + b), After(l + 1, Fed(l, r, c), Increment(c, l)))
  }

  /** The builder's own bound does not cut anything off: at every entry that needs a
      next-level table, the pages wanted there fit the room that the next level's counter
      leaves at that moment, and so on downwards. */
  predicate NoClip(l: nat, r: Run, c: Counters)
    decreases 3 - l, r.touched - r.lo
  {
    var b := Span(l + 1);
    if l >= 3 || r.lo >= r.touched then true
    else if Blockable(l, r) then NoClip(l, From(r, r.lo + b), Increment(c, l))
    else
      && Min(r.touched, r.lo + b) <= r.lo + Room(l, c)
      && NoClip(l + 1, Cut(r, r.lo + b), Increment(c, l))
      && NoClip(l, From(r, r.lo + b), After(l + 1, Fed(l, r, c), Increment(c, l)))
  }

  // ---- Outcome of a fill ----

  /** Page vp, if in the run, is now unmapped or rightly mapped, and otherwise
      translates as before. */
  predicate PageAgrees(t0: Tree, t1: Tree, l: nat, vp: nat, r: Run) {
    if r.lo <= vp < r.touched then
      Lookup(t1, l, vp) == None || Lookup(t1, l, vp) == Some(Mapping(r.op + (vp - r.lo), r.attr))
    else
      Lookup(t1, l, vp) == Lookup(t0, l, vp)
  }

  /** So for all pages under ordinal q of level m. */
  ghost predicate Agrees(t0: Tree, t1: Tree, l: nat, m: nat, q: nat, r: Run) {
    forall vp: nat :: Num(m, vp) == q ==> PageAgrees(t0, t1, l, vp, r)
  }

  predicate Complete(t: Tree, l: nat, lo: nat, hi: nat) {
    forall vp: nat :: lo <= vp < hi ==> Lookup(t, l, vp).Some?
  }

  predicate Unmapped(t: Tree, l: nat, lo: nat, hi: nat) {
    forall vp: nat :: lo <= vp < hi ==> Lookup(t, l, vp) == None
  }

  /** What a table at level l may be asked to take up. */
  predicate Fillable(t: Tree, l: nat, n: nat, r: Run, c: Counters) {
    && RunOk(r) && CountersOk(c, l)
    && (r.lo < r.touched ==>
          && Num(l, r.lo) == Num(l, r.touched - 1) == n
          && Shape(l, r) && Unmapped(t, l, r.lo, r.touched))
  }

  /** The table took the run up, as far as the counters allow. */
  ghost predicate Filled(t0: Tree, t1: Tree, l: nat, n: nat, r: Run, c0: Counters, c1: Counters)
    requires RunOk(r)
  {
    && Agrees(t0, t1, l, l, n, r)
    && (r.lo < r.touched ==> Lookup(t1, l, r.lo).Some?)
    && (Complete(t1, l, r.lo, r.touched) <==> NoClip(l, r, c0))
    && c1 == After(l, r, c0)
  }
}

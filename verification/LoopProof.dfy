/** The builder's loop over the entries of one table. */
module LoopProof {
  import opened Common
  import opened PageTree
  import opened FillSpec
  import opened FillProof
  import opened BuildSteps
  import opened CounterProof

  /** The loop filling t with run r stands at page ip with table cur and counters c. */
  ghost predicate Progress(t: Tree, cur: Tree, l: nat, n: nat, r: Run, ip: nat, c0: Counters, c: Counters)
    requires r.lo <= ip
  {
    && Agrees(t, cur, l, l, n, Cut(r, ip))
    && (r.lo < ip ==> Lookup(cur, l, r.lo).Some?)
    && (Complete(cur, l, r.lo, Min(r.touched, ip)) && NoClip(l, From(r, ip), c) <==> NoClip(l, r, c0))
    && (ip < r.touched ==> Shape(l, From(r, ip)) && Num(l, ip) == n)
    && CountersOk(c, l) && After(l, From(r, ip), c) == After(l, r, c0)
  }

  lemma ProgressStart(t: Tree, l: nat, n: nat, r: Run, c: Counters)
    requires l <= 3 && Fillable(t, l, n, r, c)
    ensures Progress(t, t, l, n, r, r.lo, c, c)
  {
    hide Lookup, Num, Shape, NoClip, After;
    assert From(r, r.lo) == r;
    forall vp: nat | Num(l, vp) == n ensures PageAgrees(t, t, l, vp, Cut(r, r.lo)) {
    }
  }

  lemma LeafCounters(l: nat, c: Counters)
    requires l <= 3 && CountersOk(c, l)
    ensures CountersOk(Increment(c, l), l)
  {
  }

  /** One leaf: a page at level 3, a block above. */
  lemma ProgressLeaf(t: Tree, cur: Tree, l: nat, n: nat, r: Run, ip: nat, c0: Counters, c: Counters)
    requires l <= 3 && |cur.entries| == 512 && Fillable(t, l, n, r, c0) && r.lo <= ip < r.touched
    requires Progress(t, cur, l, n, r, ip, c0, c) && (l == 3 || Blockable(l, From(r, ip)))
    ensures Progress(t, Put(cur, Index(l, ip), Leaf(r.op + (ip - r.lo), r.attr)), l, n, r, ip + Span(l + 1), c0, Increment(c, l))
  {
    hide Lookup, Num, Shape, NoClip, Span, Index, Blockable, Increment, OnlyEntry, Agrees, CountersOk, Put, After;
    var b, r1, c1 := Span(l + 1), From(r, ip), Increment(c, l);
    var cur' := Put(cur, Index(l, ip), Leaf(r1.op, r1.attr));
    assert From(r1, ip + b) == From(r, ip + b);
    LeafRun(l, r1, c);
    AfterLeaf(l, r1, c);
    LeafCounters(l, c);
    LeafAgrees(cur, l, r1);
    StepAgrees(t, cur, cur', l, r, ip, ip + b, ip + b);
    StepComplete(cur, cur', l, r, ip, ip + b, ip + b);
    assert Lookup(cur', l, ip).Some?;
    NextWindow(t, l, n, r, ip, c0);
  }

  /** A leading leaf: its pages lie in the run, and the clip is a question about the rest. */
  lemma LeafRun(l: nat, r: Run, c: Counters)
    requires l <= 3 && RunOk(r) && r.lo < r.touched && (l == 3 || Blockable(l, r))
    ensures r.lo % Span(l + 1) == 0 && r.lo + Span(l + 1) <= r.touched
    ensures NoClip(l, r, c) == NoClip(l, From(r, r.lo + Span(l + 1)), Increment(c, l))
  {
    hide NoClip;
    assert Span(4) == 1;
    if l == 3 {
      NoClipNone(3, r, c);
      NoClipNone(3, From(r, r.lo + 1), Increment(c, l));
    } else {
      NoClipLeaf(l, r, c);
    }
  }

  /** If the loop goes on after page ip's entry, it goes on in the same table. */
  lemma NextWindow(t: Tree, l: nat, n: nat, r: Run, ip: nat, c0: Counters)
    requires l <= 3 && Fillable(t, l, n, r, c0) && r.lo <= ip && Shape(l, From(r, ip)) && Num(l, ip) == n
    ensures ip + Span(l + 1) < r.touched ==>
              Shape(l, From(r, ip + Span(l + 1))) && Num(l, ip + Span(l + 1)) == n
  {
    hide Num, Shape, Span;
    var b := Span(l + 1);
    if ip + b < r.touched {
      NextShape(l, From(r, ip));
      assert From(From(r, ip), ip + b) == From(r, ip + b);
      NumMono(l, ip, ip + b);
      NumMono(l, ip + b, r.touched - 1);
    }
  }

  /** One entry with a next-level table. */
  lemma ProgressEntry(t: Tree, cur: Tree, cur': Tree, l: nat, n: nat, r: Run, ip: nat, c0: Counters, c: Counters, c': Counters)
    requires l < 3 && Fillable(t, l, n, r, c0) && r.lo <= ip < r.touched
    requires Progress(t, cur, l, n, r, ip, c0, c) && !Blockable(l, From(r, ip))
    requires EntryFilled(cur, cur', l, From(r, ip), c, c')
    ensures Progress(t, cur', l, n, r, ip + Span(l + 1), c0, c')
  {
    hide Lookup, Num, Shape, NoClip, Index, Blockable, OnlyEntry, Agrees, Span, Room, CountersOk, After, Increment, Fed;
    var b, r1 := Span(l + 1), From(r, ip);
    var end, hi := Min(r.touched, ip + b), Min(r.touched, ip + Room(l, c));
    NextWindow(t, l, n, r, ip, c0);
    assert From(r1, ip + b) == From(r, ip + b);
    NoClipEntry(l, r1, c);
    AfterEntry(l, r1, c);
    EntryCountersOk(l, r1, c);
    StepAgrees(t, cur, cur', l, r, ip, hi, end);
    StepComplete(cur, cur', l, r, ip, hi, end);
  }

  lemma EntryCountersOk(l: nat, r: Run, c: Counters)
    requires l < 3 && CountersOk(c, l)
    ensures CountersOk(After(l + 1, Fed(l, r, c), Increment(c, l)), l)
  {
    hide After, Fed;
    AfterKeeps(l + 1, Fed(l, r, c), Increment(c, l));
  }

  lemma ProgressDone(t: Tree, cur: Tree, l: nat, n: nat, r: Run, ip: nat, c0: Counters, c: Counters)
    requires l <= 3 && Fillable(t, l, n, r, c0) && r.lo <= ip && r.touched <= ip
    requires r.lo >= r.touched ==> ip == r.lo
    requires Progress(t, cur, l, n, r, ip, c0, c)
    ensures Filled(t, cur, l, n, r, c0, c)
  {
    hide Lookup, Shape, NoClip, Agrees, Complete, After;
    assert Cut(r, ip) == r;
    NoClipNone(l, From(r, ip), c);
    AfterNone(l, From(r, ip), c);
  }

  /** One step of the loop: a leaf, or an entry with a table below it. */
  ghost predicate StepTaken(cur: Tree, cur': Tree, l: nat, r: Run, c: Counters, c': Counters)
    requires |cur.entries| == 512
  {
    if l == 3 || Blockable(l, r)
    then cur' == Put(cur, Index(l, r.lo), Leaf(r.op, r.attr)) && c' == Increment(c, l)
    else EntryFilled(cur, cur', l, r, c, c')
  }

  lemma ProgressStep(t: Tree, cur: Tree, cur': Tree, l: nat, n: nat, r: Run, ip: nat, c0: Counters, c: Counters, c': Counters)
    requires l <= 3 && |cur.entries| == 512 && Fillable(t, l, n, r, c0) && r.lo <= ip < r.touched
    requires Progress(t, cur, l, n, r, ip, c0, c) && StepTaken(cur, cur', l, From(r, ip), c, c')
    ensures Progress(t, cur', l, n, r, ip + Span(l + 1), c0, c')
  {
    hide Progress, Fillable, Blockable, EntryFilled, Put, Index;
    if l == 3 || Blockable(l, From(r, ip)) {
      ProgressLeaf(t, cur, l, n, r, ip, c0, c);
    } else {
      ProgressEntry(t, cur, cur', l, n, r, ip, c0, c, c');
    }
  }

  // ---- What a step may rely on ----

  /** At every step the table so far can take up what is left of the run. */
  lemma StepFillable(t: Tree, cur: Tree, l: nat, n: nat, r: Run, ip: nat, c0: Counters, c: Counters)
    requires l <= 3 && Fillable(t, l, n, r, c0) && r.lo <= ip < r.touched && Progress(t, cur, l, n, r, ip, c0, c)
    ensures Fillable(cur, l, n, From(r, ip), c)
  {
    hide Lookup, Num, Shape, NoClip, CountersOk, After, Complete;
    forall vp: nat | ip <= vp < r.touched
      ensures Lookup(cur, l, vp) == None
    {
      NumMono(l, ip, vp);
      NumMono(l, vp, r.touched - 1);
      assert PageAgrees(t, cur, l, vp, Cut(r, ip));
      assert Lookup(t, l, vp) == None;
    }
  }
}

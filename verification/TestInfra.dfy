/** Selecting tests, folding status slots into a verdict, and the global counters. */
module TestInfra {
  import opened Common
  import opened Status
  import opened HartProtocol

  /** 32-bit subtraction. */
  function Sub(a: nat, b: nat): nat
    requires a < U32 && b < U32
  {
    if a >= b then a - b else a + U32 - b
  }

  lemma SubIs(a: nat, b: nat)
    requires a < 0x1_0000_0000 && b < 0x1_0000_0000
    ensures Sub(a, b) == (a + 0x1_0000_0000 - b) % 0x1_0000_0000
  {
  }

  /** User options: tests to skip (-skip), tests (-t) and modules (-m) to run. */
  datatype Options = Options(skip: seq<nat>, tests: seq<nat>, modules: seq<nat>)

  predicate Words(s: seq<nat>) { forall i :: 0 <= i < |s| ==> s[i] < U32 }

  predicate OptionsOk(o: Options) { Words(o.skip) && Words(o.tests) && Words(o.modules) }

  // ---- Selection ----

  predicate InModule(test: nat, module_: nat)
    requires test < U32 && module_ < U32
  {
    0 < Sub(test, module_) < 100
  }

  /** The test gets past initialisation. */
  predicate Selected(o: Options, test: nat)
    requires OptionsOk(o) && test < U32
  {
    && test !in o.skip
    && (|| (o.tests == [] && o.modules == [])
        || test in o.tests
        || exists i :: 0 <= i < |o.modules| && InModule(test, o.modules[i]))
  }

  /** The module is not skipped as a whole. */
  predicate ModuleKept(o: Options, base: nat)
    requires OptionsOk(o) && base < U32
  {
    || (o.tests == [] && o.modules == [])
    || base in o.modules
    || exists i :: 0 <= i < |o.tests| && Sub(o.tests[i], base) < 100
  }

  /** What the options ask for, without wrap-around: the test, or its module. */
  predicate Asked(o: Options, base: nat, test: nat) {
    test !in o.skip && ((o.tests == [] && o.modules == []) || test in o.tests || base in o.modules)
  }

  /** Modules are numbered in hundreds, and tests lie strictly inside their module. */
  predicate Numbered(o: Options, base: nat, test: nat) {
    && base % 100 == 0 && base < test < base + 100 && test < U32
    && forall i :: 0 <= i < |o.modules| ==> o.modules[i] % 100 == 0
  }

  /** The largest multiple of 100 below 2^32, the only one whose distance to a small test
      number wraps around to less than 100. */
  const LAST_MODULE: nat := 4294967200

  lemma OwnModule(base: nat, test: nat, m: nat)
    requires base % 100 == 0 && m % 100 == 0 && base < test < base + 100 && test < U32 && m < U32
    ensures InModule(test, m) <==> m == base || (m == LAST_MODULE && test < 4)
  {
    var a, b := m / 100, base / 100;
    assert m == 100 * a && base == 100 * b;
    if m <= test {
      if a < b { assert m + 100 <= base; }
    } else {
      assert Sub(test, m) == test + U32 - m;
      if m != LAST_MODULE { assert a < 42949672; }
    }
  }

  /** Selection does what the options ask for, wrap-around included, except that the module
      number 4294967200 also takes the tests 1, 2 and 3 of module 0. */
  lemma SelectionExact(o: Options, base: nat, test: nat)
    requires OptionsOk(o) && Numbered(o, base, test)
    ensures Selected(o, test) <==>
            Asked(o, base, test) || (test !in o.skip && test < 4 && LAST_MODULE in o.modules)
  {
    hide InModule;
    forall i | 0 <= i < |o.modules|
      ensures InModule(test, o.modules[i]) <==> o.modules[i] == base || (o.modules[i] == LAST_MODULE && test < 4)
    {
      OwnModule(base, test, o.modules[i]);
    }
    if base in o.modules {
      var i :| 0 <= i < |o.modules| && o.modules[i] == base;
      assert InModule(test, o.modules[i]);
    }
    if test < 4 && LAST_MODULE in o.modules {
      var i :| 0 <= i < |o.modules| && o.modules[i] == LAST_MODULE;
      assert InModule(test, o.modules[i]);
    }
  }

  /** A module is never skipped while one of its tests is asked for. */
  lemma ModuleSkipAgrees(o: Options, base: nat, test: nat)
    requires OptionsOk(o) && Numbered(o, base, test) && Asked(o, base, test)
    ensures Selected(o, test) && ModuleKept(o, base)
  {
    SelectionExact(o, base, test);
    if test in o.tests {
      var i :| 0 <= i < |o.tests| && o.tests[i] == test;
      assert Sub(o.tests[i], base) < 100;
    }
  }

  /** The exception is real: test 1 is selected while its module is skipped. */
  lemma WrappedSelection()
    ensures var o := Options([], [], [LAST_MODULE]);
            OptionsOk(o) && Numbered(o, 0, 1) && Selected(o, 1) && !Asked(o, 0, 1) && !ModuleKept(o, 0)
  {
    var o := Options([], [], [LAST_MODULE]);
    assert InModule(1, o.modules[0]);
  }

  /** A module is kept for its own number or for a test among the 100 numbers from it. */
  lemma KeptByNumber(o: Options, base: nat)
    requires OptionsOk(o) && base + 100 <= 0x1_0000_0000
    ensures ModuleKept(o, base) <==>
            (o.tests == [] && o.modules == []) || base in o.modules ||
            exists t :: t in o.tests && base <= t < base + 100
  {
    forall i | 0 <= i < |o.tests|
      ensures Sub(o.tests[i], base) < 100 <==> base <= o.tests[i] < base + 100
    {
      SubIs(o.tests[i], base);
    }
    if i :| 0 <= i < |o.tests| && Sub(o.tests[i], base) < 100 {
      assert o.tests[i] in o.tests;
    }
    if t :| t in o.tests && base <= t < base + 100 {
      var i :| 0 <= i < |o.tests| && o.tests[i] == t;
      assert Sub(o.tests[i], base) < 100;
    }
  }

  method CheckSkipModule(o: Options, base: nat) returns (skip: bool)
    requires OptionsOk(o) && base < U32
    ensures skip <==> !ModuleKept(o, base)
    ensures base + 100 <= 0x1_0000_0000 ==>
              (skip <==> && (o.tests != [] || o.modules != []) && base !in o.modules
                         && forall t :: t in o.tests ==> !(base <= t < base + 100))
  {
    if base + 100 <= 0x1_0000_0000 {
      KeptByNumber(o, base);
    }
    var count, i := 0, 0;
    while i < |o.modules|
      invariant i <= |o.modules| && (count > 0 <==> base in o.modules[..i])
    {
      if o.modules[i] == base {
        count := count + 1;
      }
      i := i + 1;
    }
    ghost var named := count > 0;
    i := 0;
    while i < |o.tests|
      invariant i <= |o.tests| && (count > 0 <==> named || exists k :: 0 <= k < i && Sub(o.tests[k], base) < 100)
    {
      if Sub(o.tests[i], base) < 100 {
        count := count + 1;
      }
      i := i + 1;
    }
    assert o.modules[..|o.modules|] == o.modules;
    return count == 0 && (|o.tests| != 0 || |o.modules| != 0);
  }

  // ---- Verdicts ----

  /** The slot that decides: the first failed or skipped one, or else the last one; with one
      hart the primary's own. */
  predicate Decides(slots: seq<Code>, me: nat, num: nat, c: Code)
    requires me < |slots| && num <= |slots|
  {
    if num == 1 then c == slots[me]
    else if exists i :: 0 <= i < num && (slots[i].Fail? || slots[i].Skip?) then
      exists i :: 0 <= i < num && c == slots[i] && (c.Fail? || c.Skip?) && forall k :: 0 <= k < i ==> !slots[k].Fail? && !slots[k].Skip?
    else c == if num == 0 then Other else slots[num - 1]
  }

  /** All slots below num pending, the others as before. */
  predicate PendingBelow(before: seq<Code>, after: seq<Code>, num: nat)
    requires num <= |before| == |after|
  {
    (forall i :: 0 <= i < num ==> after[i].Pending?) && after[num..] == before[num..]
  }

  // ---- The suite ----

  /** One test of a run: its number, how many harts, and the slots its payloads leave. */
  datatype Case = Case(test: nat, num: nat, outcome: seq<Code>)

  class Suite {
    const me: nat
    const options: Options
    var slots: seq<Code>
    var total: nat
    var pass: nat
    var fail: nat

    ghost predicate Valid()
      reads this
    {
      me < |slots| && OptionsOk(options)
    }

    /** Tests started and not counted as passed or failed. */
    ghost function Balance(): int
      reads this
    {
      total - pass - fail
    }

    constructor (me: nat, options: Options, slots: seq<Code>)
      requires me < |slots| && OptionsOk(options)
      ensures Valid() && this.me == me && this.options == options && this.slots == slots
      ensures total == 0 && pass == 0 && fail == 0
    {
      this.me, this.options, this.slots, total, pass, fail := me, options, slots, 0, 0, 0;
    }

    /** Sets the slots pending, then skips the test or counts it. */
    method InitializeTest(test: nat, num: nat) returns (skipped: bool)
      requires Valid() && test < U32 && num <= |slots|
      modifies this`slots, this`total
      ensures Valid() && |slots| == old(|slots|)
      ensures skipped <==> !Selected(options, test)
      ensures if skipped then exists mid :: |mid| == |slots| && PendingBelow(old(slots), mid, num) && slots == mid[me := Skip]
              else PendingBelow(old(slots), slots, num)
      ensures total == old(total) + if skipped then 0 else 1
    {
      var i := 0;
      while i < num
        invariant i <= num && |slots| == old(|slots|) && PendingBelow(old(slots), slots, i) && total == old(total)
      {
        slots := slots[i := Pending];
        i := i + 1;
      }
      i := 0;
      while i < |options.skip|
        invariant i <= |options.skip| && test !in options.skip[..i]
      {
        if options.skip[i] == test {
          slots := slots[me := Skip];
          return true;
        }
        i := i + 1;
      }
      var override := 0;
      i := 0;
      while i < |options.tests|
        invariant i <= |options.tests| && (override > 0 <==> test in options.tests[..i])
      {
        if test == options.tests[i] {
          override := override + 1;
        }
        i := i + 1;
      }
      ghost var named := override > 0;
      i := 0;
      while i < |options.modules|
        invariant i <= |options.modules|
        invariant override > 0 <==> named || exists k :: 0 <= k < i && InModule(test, options.modules[k])
      {
        if Sub(test, options.modules[i]) > 0 && Sub(test, options.modules[i]) < 100 {
          override := override + 1;
        }
        i := i + 1;
      }
      assert options.tests[..|options.tests|] == options.tests;
      if override == 0 && (|options.tests| != 0 || |options.modules| != 0) {
        slots := slots[me := Skip];
        return true;
      }
      total := total + 1;
      return false;
    }

    /** Counts one result. */
    method Count(c: Code) returns (v: Verdict)
      modifies this`pass, this`fail
      ensures v == VerdictOf(c)
      ensures pass == old(pass) + (if v == VPass then 1 else 0) && fail == old(fail) + (if v == VFail then 1 else 0)
    {
      if c.Pass? {
        pass := pass + 1;
        return VPass;
      }
      if c.Skip? {
        return VSkip;
      }
      fail := fail + 1;
      return VFail;
    }

    /** Folds the slots into a verdict and counts it. */
    method CheckForError(num: nat) returns (v: Verdict)
      requires Valid() && num <= |slots|
      modifies this`pass, this`fail
      ensures exists c :: Decides(slots, me, num, c) && v == VerdictOf(c)
      ensures pass == old(pass) + (if v == VPass then 1 else 0) && fail == old(fail) + (if v == VFail then 1 else 0)
    {
      var status := Other;
      if num == 1 {
        status := slots[me];
      } else {
        var i := 0;
        while i < num
          invariant i <= num && forall k :: 0 <= k < i ==> !FailSkip(slots[k])
          invariant status == if i == 0 then Other else slots[i - 1]
        {
          status := slots[i];
          if FailSkip(status) {
            break;
          }
          i := i + 1;
        }
      }
      assert Decides(slots, me, num, status);
      v := Count(status);
    }

    /** One test: initialise, run the payloads unless skipped, check. */
    method RunTest(case_: Case) returns (skipped: bool, v: Verdict)
      requires Valid() && case_.test < U32 && case_.num <= |slots| == |case_.outcome|
      modifies this`slots, this`total, this`pass, this`fail
      ensures Valid() && |slots| == old(|slots|) && (skipped <==> !Selected(options, case_.test))
      ensures Balance() - old(Balance()) == BalanceStep(options, me, case_, v)
      ensures skipped && (case_.num == 1 || me < case_.num) ==> v == VSkip
      ensures skipped && !(case_.num == 1 || me < case_.num) ==> v == VFail
    {
      skipped := InitializeTest(case_.test, case_.num);
      if !skipped {
        slots := case_.outcome;
      } else {
        ghost var before := old(slots);
        ghost var mid :| |mid| == |slots| && PendingBelow(before, mid, case_.num) && slots == mid[me := Skip];
        SkippedVerdict(before, mid, me, case_.num);
      }
      v := CheckForError(case_.num);
    }

    /** A whole run. What is started and neither passed nor failed is exactly what was started
        and then skipped, when every case obeys the rule. */
    method RunAll(cases: seq<Case>) returns (startedSkips: nat)
      requires Valid() && forall i :: 0 <= i < |cases| ==> cases[i].test < U32 && cases[i].num <= |slots| == |cases[i].outcome|
      requires forall i :: 0 <= i < |cases| ==> Counted(options, me, cases[i])
      modifies this`slots, this`total, this`pass, this`fail
      ensures Valid() && Balance() == old(Balance()) + startedSkips
      ensures old(pass + fail <= total) ==> pass + fail <= total
    {
      startedSkips := 0;
      var i := 0;
      while i < |cases|
        invariant i <= |cases| && Valid() && |slots| == old(|slots|)
        invariant Balance() == old(Balance()) + startedSkips
      {
        var skipped, v := RunTest(cases[i]);
        if !skipped && v == VSkip {
          startedSkips := startedSkips + 1;
        }
        i := i + 1;
      }
    }
  }

  /** The caller's slot is among those folded, or the test is not skipped by the options. */
  predicate Counted(o: Options, me: nat, case_: Case)
    requires OptionsOk(o) && case_.test < U32
  {
    Selected(o, case_.test) || case_.num == 1 || me < case_.num
  }

  /** How one test changes the number of tests started and neither passed nor failed. */
  function BalanceStep(o: Options, me: nat, case_: Case, v: Verdict): int
    requires OptionsOk(o) && case_.test < U32
  {
    if !Counted(o, me, case_) then -1
    else if Selected(o, case_.test) && v == VSkip then 1
    else 0
  }

  /** What the fold makes of a test skipped by the options. */
  lemma SkippedVerdict(before: seq<Code>, mid: seq<Code>, me: nat, num: nat)
    requires num <= |before| == |mid| && me < |mid| && PendingBelow(before, mid, num)
    ensures forall c :: Decides(mid[me := Skip], me, num, c) ==>
              VerdictOf(c) == if num == 1 || me < num then VSkip else VFail
  {
    var slots := mid[me := Skip];
    if num != 1 && me < num {
      assert FailSkip(slots[me]);
    }
  }
}

/** Why the guarantees ask that no wait has timed out: executions in which one has. */
module HartHazards {
  import opened Status
  import opened HartProtocol

  /** An execution from one state to another. */
  ghost predicate Leads(s: State, r: State) { exists actions: seq<Action> :: Runs(s, actions, r) }

  predicate Runs(s: State, actions: seq<Action>, r: State)
    decreases |actions|
  {
    if actions == [] then s == r
    else Shape(s) && Enabled(s, actions[0]) && Runs(Apply(s, actions[0]), actions[1..], r)
  }

  lemma {:induction false} RunsOn(s: State, a: seq<Action>, m: State, b: seq<Action>, r: State)
    requires Runs(s, a, m) && Runs(m, b, r)
    ensures Runs(s, a + b, r)
    decreases |a|
  {
    hide Shape, Enabled, Apply;
    if a == [] {
      assert a + b == b;
    } else {
      RunsOn(Apply(s, a[0]), a[1..], m, b, r);
      assert (a + b)[1..] == a[1..] + b;
    }
  }

  lemma Then(s: State, m: State, a: Action, r: State)
    requires Leads(s, m) && Shape(m) && Enabled(m, a) && r == Apply(m, a)
    ensures Leads(s, r)
  {
    hide Shape, Enabled, Apply;
    var actions :| Runs(s, actions, m);
    assert [a][1..] == [] && Runs(m, [a], r);
    RunsOn(s, actions, m, [a], r);
  }

  lemma Chain(s: State, m: State, r: State)
    requires Leads(s, m) && Leads(m, r)
    ensures Leads(s, r)
  {
    hide Runs;
    var a :| Runs(s, a, m);
    var b :| Runs(m, b, r);
    RunsOn(s, a, m, b, r);
  }

  lemma Stay(s: State)
    ensures Leads(s, s)
  {
    assert Runs(s, [], s);
  }

  /** A run of actions from an initial state is an execution. */
  lemma {:induction false} States(s: State, actions: seq<Action>, r: State) returns (states: seq<State>)
    requires Runs(s, actions, r)
    ensures |states| == |actions| + 1 && states[0] == s && states[|actions|] == r
    ensures forall k :: 0 <= k < |actions| ==>
              Shape(states[k]) && Enabled(states[k], actions[k]) && states[k + 1] == Apply(states[k], actions[k])
    decreases |actions|
  {
    hide Shape, Enabled, Apply;
    if actions == [] {
      states := [s];
    } else {
      var rest := States(Apply(s, actions[0]), actions[1..], r);
      states := [s] + rest;
      forall k | 0 <= k < |actions|
        ensures Shape(states[k]) && Enabled(states[k], actions[k]) && states[k + 1] == Apply(states[k], actions[k])
      {
        if k > 0 { assert actions[k] == actions[1..][k - 1] && states[k] == rest[k - 1] && states[k + 1] == rest[k]; }
      }
    }
  }

  // ---- Waiting in vain ----

  /** The poll stands at its start, slot 0 holds a result, the others are pending. */
  predicate Stuck(s: State) {
    && Shape(s) && s.pc.Wait? && s.pc.i == 0 && s.pc.j == 0 && s.test.num == |s.harts| >= 2
    && !s.slots[0].Pending? && (forall k :: 0 < k < |s.slots| ==> s.slots[k].Pending?)
  }

  function Scanned(s: State, i: nat): State
    requires s.pc.Wait?
  {
    s.(pc := Wait(i, if i >= 2 then i else 0, s.pc.left))
  }

  lemma {:induction false} Scan(s: State, i: nat)
    requires Stuck(s) && i <= s.test.num
    ensures Leads(s, Scanned(s, i))
  {
    hide Leads;
    if i == 0 {
      Stay(s);
      assert s == Scanned(s, 0);
    } else {
      Scan(s, i - 1);
      assert Looked(Scanned(s, i - 1)) == Scanned(s, i);
      Then(s, Scanned(s, i - 1), Look, Scanned(s, i));
    }
  }

  /** The wait gives up on the last hart. */
  function GivenUp(s: State): State
    requires Stuck(s)
  {
    var n := |s.slots|;
    s.(pc := Check(0, Other), slots := s.slots[n - 1 := Fail], timedOut := {n - 1}, late := true)
  }

  lemma {:induction false} TimesOut(s: State)
    requires Stuck(s)
    ensures Leads(s, GivenUp(s))
    decreases s.pc.left
  {
    hide Leads;
    var n := s.test.num;
    Scan(s, n);
    var end := Scanned(s, n);
    if s.pc.left == 1 {
      assert Looked(end) == GivenUp(s);
      Then(s, end, Look, GivenUp(s));
    } else {
      var again := s.(pc := Wait(0, 0, s.pc.left - 1));
      assert Looked(end) == again;
      Then(s, end, Look, again);
      TimesOut(again);
      assert GivenUp(again) == GivenUp(s);
      Chain(s, again, GivenUp(s));
    }
  }

  // ---- Two harts: a torn mailbox ----

  const FIRST := Job(1, 10)
  const SECOND := Job(2, 20)

  /** Two harts, the first one primary. */
  function Two(timeout: nat, pc: Pc, test: Test, hart: Hart, mail: Job, slots: seq<Code>, verdict: Verdict,
               posted: seq<Job>, timedOut: set<nat>, late: bool): State
  {
    State(0, timeout, pc, test, [Off, hart], [Job(0, 0), mail], slots, verdict,
          [[], posted], [[], []], [[], []], {}, timedOut, false, late, false)
  }

  lemma FirstStarts(timeout: nat)
    requires timeout >= 2
    ensures Leads(Two(timeout, Idle, Test(0, 0, FIRST), Off, Job(0, 0), [Other, Other], VFail, [], {}, false),
                  Two(timeout, Wait(0, 0, timeout - 1), Test(1, 2, FIRST), Entered, FIRST, [Pass, Pending], VFail, [FIRST], {}, false))
  {
    hide Leads;
    var test := Test(1, 2, FIRST);
    var s0 := Two(timeout, Idle, Test(0, 0, FIRST), Off, Job(0, 0), [Other, Other], VFail, [], {}, false);
    var s1 := Two(timeout, Init(0), test, Off, Job(0, 0), [Other, Other], VFail, [], {}, false);
    var s2 := Two(timeout, Init(1), test, Off, Job(0, 0), [Pending, Other], VFail, [], {}, false);
    var s3 := Two(timeout, Init(2), test, Off, Job(0, 0), [Pending, Pending], VFail, [], {}, false);
    var s4 := Two(timeout, PostPayload(1, timeout), test, Off, Job(0, 0), [Pass, Pending], VFail, [], {}, false);
    var s5 := Two(timeout, PostArg(1, timeout), test, Off, Job(1, 0), [Pass, Pending], VFail, [], {}, false);
    var s6 := Two(timeout, CallOn(1, timeout), test, Off, FIRST, [Pass, Pending], VFail, [], {}, false);
    var s7 := Two(timeout, Wait(0, 0, timeout - 1), test, Entered, FIRST, [Pass, Pending], VFail, [FIRST], {}, false);
    Stay(s0);
    Then(s0, s0, Prepare(Begin(test)), s1);
    Then(s0, s1, Prepare(InitSlot), s2);
    Then(s0, s2, Prepare(InitSlot), s3);
    Then(s0, s3, Prepare(RunOwn(Pass)), s4);
    Then(s0, s4, Launch(Post), s5);
    Then(s0, s5, Launch(Post), s6);
    assert Launched(s6, TurnOn) == s7 by {
      var none: seq<Job> := [];
      assert none + [FIRST] == [FIRST];
    }
    Then(s0, s6, Launch(TurnOn), s7);
  }

  lemma FirstFails(timeout: nat)
    requires timeout >= 2
    ensures Leads(Two(timeout, Check(0, Other), Test(1, 2, FIRST), Entered, FIRST, [Pass, Fail], VFail, [FIRST], {1}, true),
                  Two(timeout, Idle, Test(1, 2, FIRST), Loaded(1), FIRST, [Pass, Fail], VFail, [FIRST], {1}, true))
  {
    hide Leads;
    var test := Test(1, 2, FIRST);
    var s0 := Two(timeout, Check(0, Other), test, Entered, FIRST, [Pass, Fail], VFail, [FIRST], {1}, true);
    var s1 := Two(timeout, Check(1, Pass), test, Entered, FIRST, [Pass, Fail], VFail, [FIRST], {1}, true);
    var s2 := Two(timeout, Idle, test, Entered, FIRST, [Pass, Fail], VFail, [FIRST], {1}, true);
    var s3 := Two(timeout, Idle, test, Loaded(1), FIRST, [Pass, Fail], VFail, [FIRST], {1}, true);
    Stay(s0);
    Then(s0, s0, Fold, s1);
    Then(s0, s1, Fold, s2);
    Then(s0, s2, Secondary(1, Read), s3);
  }

  /** The first test times out on the secondary, which then reads the payload address. */
  lemma FirstTimesOut(timeout: nat)
    requires timeout >= 2
    ensures Leads(Two(timeout, Idle, Test(0, 0, FIRST), Off, Job(0, 0), [Other, Other], VFail, [], {}, false),
                  Two(timeout, Idle, Test(1, 2, FIRST), Loaded(1), FIRST, [Pass, Fail], VFail, [FIRST], {1}, true))
  {
    hide Leads;
    var test := Test(1, 2, FIRST);
    var s0 := Two(timeout, Idle, Test(0, 0, FIRST), Off, Job(0, 0), [Other, Other], VFail, [], {}, false);
    var s1 := Two(timeout, Wait(0, 0, timeout - 1), test, Entered, FIRST, [Pass, Pending], VFail, [FIRST], {}, false);
    var s2 := Two(timeout, Check(0, Other), test, Entered, FIRST, [Pass, Fail], VFail, [FIRST], {1}, true);
    var s3 := Two(timeout, Idle, test, Loaded(1), FIRST, [Pass, Fail], VFail, [FIRST], {1}, true);
    FirstStarts(timeout);
    TimesOut(s1);
    assert GivenUp(s1) == s2;
    FirstFails(timeout);
    Chain(s0, s1, s2);
    Chain(s0, s2, s3);
  }

  lemma SecondPosts(timeout: nat)
    requires timeout >= 2
    ensures Leads(Two(timeout, Idle, Test(1, 2, FIRST), Loaded(1), FIRST, [Pass, Fail], VFail, [FIRST], {1}, true),
                  Two(timeout, CallOn(1, timeout), Test(2, 2, SECOND), Running(Job(1, 20)), SECOND, [Pass, Pending],
                      VFail, [FIRST], {}, true))
  {
    hide Leads;
    var test, hart := Test(2, 2, SECOND), Loaded(1);
    var s0 := Two(timeout, Idle, Test(1, 2, FIRST), hart, FIRST, [Pass, Fail], VFail, [FIRST], {1}, true);
    var s1 := Two(timeout, Init(0), test, hart, FIRST, [Pass, Fail], VFail, [FIRST], {}, true);
    var s2 := Two(timeout, Init(1), test, hart, FIRST, [Pending, Fail], VFail, [FIRST], {}, true);
    var s3 := Two(timeout, Init(2), test, hart, FIRST, [Pending, Pending], VFail, [FIRST], {}, true);
    var s4 := Two(timeout, PostPayload(1, timeout), test, hart, FIRST, [Pass, Pending], VFail, [FIRST], {}, true);
    var s5 := Two(timeout, PostArg(1, timeout), test, hart, Job(2, 10), [Pass, Pending], VFail, [FIRST], {}, true);
    var s6 := Two(timeout, CallOn(1, timeout), test, hart, SECOND, [Pass, Pending], VFail, [FIRST], {}, true);
    var s7 := Two(timeout, CallOn(1, timeout), test, Running(Job(1, 20)), SECOND, [Pass, Pending], VFail, [FIRST], {}, true);
    Stay(s0);
    Then(s0, s0, Prepare(Begin(test)), s1);
    Then(s0, s1, Prepare(InitSlot), s2);
    Then(s0, s2, Prepare(InitSlot), s3);
    Then(s0, s3, Prepare(RunOwn(Pass)), s4);
    Then(s0, s4, Launch(Post), s5);
    Then(s0, s5, Launch(Post), s6);
    Then(s0, s6, Secondary(1, Read), s7);
  }

  /** After a time-out a late hart can run a job that was never posted: the payload of one
      test with the argument of the next. */
  lemma TornMailbox(timeout: nat) returns (states: seq<State>, actions: seq<Action>)
    requires timeout >= 2
    ensures Execution(states, actions) && states[0].timeout == timeout
    ensures var s := states[|actions|];
            |s.harts| == 2 == |s.posted| && s.harts[1] == Running(Job(1, 20)) && s.posted[1] == [Job(1, 10)]
  {
    hide Leads, Runs;
    var s0 := Two(timeout, Idle, Test(0, 0, FIRST), Off, Job(0, 0), [Other, Other], VFail, [], {}, false);
    var s1 := Two(timeout, Idle, Test(1, 2, FIRST), Loaded(1), FIRST, [Pass, Fail], VFail, [FIRST], {1}, true);
    var s2 := Two(timeout, CallOn(1, timeout), Test(2, 2, SECOND), Running(Job(1, 20)), SECOND, [Pass, Pending],
        VFail, [FIRST], {}, true);
    FirstTimesOut(timeout);
    SecondPosts(timeout);
    Chain(s0, s1, s2);
    actions := Actions(s0, s2);
    states := States(s0, actions, s2);
  }

  // ---- Two harts: a pass with a hart that could not be started ----

  /** The second test, with the secondary still at the job of the first. */
  function Stale(timeout: nat, pc: Pc, hart: Hart, slots: seq<Code>, verdict: Verdict, ran: seq<Job>, unstarted: set<nat>): State {
    State(0, timeout, pc, Test(2, 2, SECOND), [Off, hart], [Job(0, 0), SECOND], slots, verdict,
          [[], [FIRST]], [[], ran], [[], []], unstarted, {}, false, true, false)
  }

  lemma SecondPostsAgain(timeout: nat)
    requires timeout >= 2
    ensures Leads(Two(timeout, Idle, Test(1, 2, FIRST), Loaded(1), FIRST, [Pass, Fail], VFail, [FIRST], {1}, true),
                  Stale(timeout, CallOn(1, timeout), Running(FIRST), [Pass, Pending], VFail, [], {}))
  {
    hide Leads;
    var test, hart := Test(2, 2, SECOND), Running(FIRST);
    var s := Two(timeout, Idle, Test(1, 2, FIRST), Loaded(1), FIRST, [Pass, Fail], VFail, [FIRST], {1}, true);
    var s0 := Two(timeout, Idle, Test(1, 2, FIRST), hart, FIRST, [Pass, Fail], VFail, [FIRST], {1}, true);
    var s1 := Two(timeout, Init(0), test, hart, FIRST, [Pass, Fail], VFail, [FIRST], {}, true);
    var s2 := Two(timeout, Init(1), test, hart, FIRST, [Pending, Fail], VFail, [FIRST], {}, true);
    var s3 := Two(timeout, Init(2), test, hart, FIRST, [Pending, Pending], VFail, [FIRST], {}, true);
    var s4 := Two(timeout, PostPayload(1, timeout), test, hart, FIRST, [Pass, Pending], VFail, [FIRST], {}, true);
    var s5 := Two(timeout, PostArg(1, timeout), test, hart, Job(2, 10), [Pass, Pending], VFail, [FIRST], {}, true);
    var s6 := Two(timeout, CallOn(1, timeout), test, hart, SECOND, [Pass, Pending], VFail, [FIRST], {}, true);
    Stay(s);
    Then(s, s, Secondary(1, Read), s0);
    Then(s, s0, Prepare(Begin(test)), s1);
    Then(s, s1, Prepare(InitSlot), s2);
    Then(s, s2, Prepare(InitSlot), s3);
    Then(s, s3, Prepare(RunOwn(Pass)), s4);
    Then(s, s4, Launch(Post), s5);
    Then(s, s5, Launch(Post), s6);
  }

  /** The power-on call finds the hart on until the retries are used up. */
  lemma {:induction false} RetriesRunOut(timeout: nat, tries: nat)
    requires timeout >= 2
    ensures Leads(Stale(timeout, CallOn(1, tries), Running(FIRST), [Pass, Pending], VFail, [], {}),
                  Stale(timeout, Wait(0, 0, timeout - 1), Running(FIRST), [Pass, Fail], VFail, [], {1}))
  {
    hide Leads, Decode, StartFailure;
    var hart := Running(FIRST);
    var s0 := Stale(timeout, CallOn(1, tries), hart, [Pass, Pending], VFail, [], {});
    var end := Stale(timeout, Wait(0, 0, timeout - 1), hart, [Pass, Fail], VFail, [], {1});
    Stay(s0);
    if tries == 0 {
      PsciErrorIsFail(ALREADY_ON);
      Then(s0, s0, Launch(Busy), end);
    } else {
      var s1 := Stale(timeout, PostPayload(1, tries - 1), hart, [Pass, Pending], VFail, [], {});
      var s2 := Stale(timeout, PostArg(1, tries - 1), hart, [Pass, Pending], VFail, [], {});
      var s3 := Stale(timeout, CallOn(1, tries - 1), hart, [Pass, Pending], VFail, [], {});
      Then(s0, s0, Launch(Busy), s1);
      Then(s0, s1, Launch(Post), s2);
      Then(s0, s2, Launch(Post), s3);
      RetriesRunOut(timeout, tries - 1);
      Chain(s0, s3, end);
    }
  }

  lemma OldReport(timeout: nat)
    requires timeout >= 2
    ensures Leads(Stale(timeout, Wait(0, 0, timeout - 1), Running(FIRST), [Pass, Fail], VFail, [], {1}),
                  Stale(timeout, Idle, Leaving, [Pass, Pass], VPass, [FIRST], {1}))
  {
    hide Leads;
    var t, p := timeout - 1, [Pass, Pass];
    var s0 := Stale(timeout, Wait(0, 0, t), Running(FIRST), [Pass, Fail], VFail, [], {1});
    var s1 := Stale(timeout, Wait(0, 0, t), Leaving, p, VFail, [FIRST], {1});
    var s2 := Stale(timeout, Wait(1, 0, t), Leaving, p, VFail, [FIRST], {1});
    var s3 := Stale(timeout, Wait(2, 0, t), Leaving, p, VFail, [FIRST], {1});
    var s4 := Stale(timeout, Check(0, Other), Leaving, p, VFail, [FIRST], {1});
    var s5 := Stale(timeout, Check(1, Pass), Leaving, p, VFail, [FIRST], {1});
    var s6 := Stale(timeout, Check(2, Pass), Leaving, p, VFail, [FIRST], {1});
    var s7 := Stale(timeout, Idle, Leaving, p, VPass, [FIRST], {1});
    Stay(s0);
    assert s0.ran[1] + [FIRST] == [FIRST];
    Then(s0, s0, Secondary(1, Finish(Pass)), s1);
    Then(s0, s1, Look, s2);
    Then(s0, s2, Look, s3);
    Then(s0, s3, Look, s4);
    Then(s0, s4, Fold, s5);
    Then(s0, s5, Fold, s6);
    Then(s0, s6, Fold, s7);
  }

  /** After a time-out, a late report for the old test can stand in for a hart that could not
      be started in the new one: pass, no slot written after the wait, and the hart has not
      run the new test's job. */
  lemma StalePass(timeout: nat) returns (states: seq<State>, actions: seq<Action>)
    requires timeout >= 2
    ensures Execution(states, actions) && states[0].timeout == timeout
    ensures var s := states[|actions|];
            && s.pc.Idle? && s.verdict == VPass && !s.stray && !s.odd && s.unstarted == {1} && s.timedOut == {}
            && s.test == Test(2, 2, SECOND) && |s.ran| == 2 && s.ran[1] == [FIRST]
  {
    hide Leads, Runs;
    var s0 := Two(timeout, Idle, Test(0, 0, FIRST), Off, Job(0, 0), [Other, Other], VFail, [], {}, false);
    var s1 := Two(timeout, Idle, Test(1, 2, FIRST), Loaded(1), FIRST, [Pass, Fail], VFail, [FIRST], {1}, true);
    var s2 := Stale(timeout, CallOn(1, timeout), Running(FIRST), [Pass, Pending], VFail, [], {});
    var s3 := Stale(timeout, Wait(0, 0, timeout - 1), Running(FIRST), [Pass, Fail], VFail, [], {1});
    var s4 := Stale(timeout, Idle, Leaving, [Pass, Pass], VPass, [FIRST], {1});
    FirstTimesOut(timeout);
    SecondPostsAgain(timeout);
    RetriesRunOut(timeout, timeout);
    OldReport(timeout);
    Chain(s0, s1, s2);
    Chain(s0, s2, s3);
    Chain(s0, s3, s4);
    actions := Actions(s0, s4);
    states := States(s0, actions, s4);
  }

  lemma Actions(s: State, r: State) returns (actions: seq<Action>)
    requires Leads(s, r)
    ensures Runs(s, actions, r)
  {
    actions :| Runs(s, actions, r);
  }

  // ---- Three harts: a pass with a hart that never ran ----

  function Three(timeout: nat, pc: Pc, first: Hart, second: Hart, mail1: Job, mail2: Job, slots: seq<Code>, verdict: Verdict,
                 posted: seq<seq<Job>>, ran: seq<Job>, timedOut: set<nat>, stray: bool): State
  {
    State(0, timeout, pc, Test(1, 3, FIRST), [Off, first, second], [FIRST, mail1, mail2], slots, verdict,
          posted, [[], [], ran], [[], [], []], {}, timedOut, false, timedOut != {}, stray)
  }

  const NOBODY: seq<seq<Job>> := [[], [], []]
  const BOTH: seq<seq<Job>> := [[], [FIRST], [FIRST]]

  function ThreeIdle(timeout: nat): State {
    State(0, timeout, Idle, Test(0, 0, FIRST), [Off, Off, Off], [FIRST, FIRST, FIRST], [Other, Other, Other], VFail,
          NOBODY, NOBODY, NOBODY, {}, {}, false, false, false)
  }

  lemma BothStart(timeout: nat)
    requires timeout >= 2
    ensures Leads(ThreeIdle(timeout),
                  Three(timeout, Wait(0, 0, timeout - 1), Entered, Entered, FIRST, FIRST, [Pass, Pending, Pending],
                      VFail, BOTH, [], {}, false))
  {
    hide Leads;
    var s0, T := ThreeIdle(timeout), timeout;
    var p := [Pass, Pending, Pending];
    var one: seq<seq<Job>> := [[], [FIRST], []];
    var s1 := Three(T, Init(0), Off, Off, FIRST, FIRST, [Other, Other, Other], VFail, NOBODY, [], {}, false);
    var s4 := Three(T, Init(3), Off, Off, FIRST, FIRST, [Pending, Pending, Pending], VFail, NOBODY, [], {}, false);
    var s5 := Three(T, PostPayload(1, T), Off, Off, FIRST, FIRST, p, VFail, NOBODY, [], {}, false);
    var s8 := Three(T, PostPayload(2, T), Entered, Off, FIRST, FIRST, p, VFail, one, [], {}, false);
    Stay(s0);
    Then(s0, s0, Prepare(Begin(Test(1, 3, FIRST))), s1);
    ThreeInit(timeout);
    Chain(s0, s1, s4);
    Then(s0, s4, Prepare(RunOwn(Pass)), s5);
    ThreePost(timeout, 1, Off, NOBODY);
    assert NOBODY[1 := [FIRST]] == one;
    Chain(s0, s5, s8);
    ThreePost(timeout, 2, Entered, one);
    assert one[2 := [FIRST]] == BOTH;
    Chain(s0, s8, Three(timeout, Wait(0, 0, timeout - 1), Entered, Entered, FIRST, FIRST, p, VFail, BOTH, [], {}, false));
  }

  lemma ThreeInit(timeout: nat)
    requires timeout >= 2
    ensures Leads(Three(timeout, Init(0), Off, Off, FIRST, FIRST, [Other, Other, Other], VFail, NOBODY, [], {}, false),
                  Three(timeout, Init(3), Off, Off, FIRST, FIRST, [Pending, Pending, Pending], VFail, NOBODY, [], {}, false))
  {
    hide Leads;
    var s1 := Three(timeout, Init(0), Off, Off, FIRST, FIRST, [Other, Other, Other], VFail, NOBODY, [], {}, false);
    var s2 := Three(timeout, Init(1), Off, Off, FIRST, FIRST, [Pending, Other, Other], VFail, NOBODY, [], {}, false);
    var s3 := Three(timeout, Init(2), Off, Off, FIRST, FIRST, [Pending, Pending, Other], VFail, NOBODY, [], {}, false);
    var s4 := Three(timeout, Init(3), Off, Off, FIRST, FIRST, [Pending, Pending, Pending], VFail, NOBODY, [], {}, false);
    Stay(s1);
    Then(s1, s1, Prepare(InitSlot), s2);
    Then(s1, s2, Prepare(InitSlot), s3);
    Then(s1, s3, Prepare(InitSlot), s4);
  }

  lemma ThreePost(timeout: nat, i: nat, first: Hart, posted: seq<seq<Job>>)
    requires timeout >= 2 && |posted| == 3 && ((i == 1 && first == Off) || i == 2) && posted[i] == []
    ensures Leads(Three(timeout, PostPayload(i, timeout), first, Off, FIRST, FIRST, [Pass, Pending, Pending], VFail,
            posted, [], {}, false),
                  Three(timeout, if i == 1 then PostPayload(2, timeout) else Wait(0, 0, timeout - 1),
                        if i == 1 then Entered else first, if i == 1 then Off else Entered, FIRST, FIRST,
                        [Pass, Pending, Pending], VFail, posted[i := [FIRST]], [], {}, false))
  {
    hide Leads;
    var p := [Pass, Pending, Pending];
    var s0 := Three(timeout, PostPayload(i, timeout), first, Off, FIRST, FIRST, p, VFail, posted, [], {}, false);
    var s1 := Three(timeout, PostArg(i, timeout), first, Off, FIRST, FIRST, p, VFail, posted, [], {}, false);
    var s2 := Three(timeout, CallOn(i, timeout), first, Off, FIRST, FIRST, p, VFail, posted, [], {}, false);
    var s3 := Three(timeout, if i == 1 then PostPayload(2, timeout) else Wait(0, 0, timeout - 1),
                    if i == 1 then Entered else first, if i == 1 then Off else Entered, FIRST, FIRST,
                    p, VFail, posted[i := [FIRST]], [], {}, false);
    Stay(s0);
    Then(s0, s0, Launch(Post), s1);
    Then(s0, s1, Launch(Post), s2);
    assert posted[i] + [FIRST] == [FIRST];
    Then(s0, s2, Launch(TurnOn), s3);
  }

  lemma LateReport(timeout: nat)
    requires timeout >= 2
    ensures Leads(Three(timeout, Check(0, Other), Entered, Entered, FIRST, FIRST, [Pass, Pending, Fail], VFail, BOTH, [], {2}, false),
                  Three(timeout, Check(0, Other), Entered, Leaving, FIRST, FIRST, [Pass, Pending, Pass], VFail, BOTH,
                      [FIRST], {2}, true))
  {
    hide Leads;
    var c := Check(0, Other);
    var s0 := Three(timeout, c, Entered, Entered, FIRST, FIRST, [Pass, Pending, Fail], VFail, BOTH, [], {2}, false);
    var s1 := Three(timeout, c, Entered, Loaded(1), FIRST, FIRST, [Pass, Pending, Fail], VFail, BOTH, [], {2}, false);
    var s2 := Three(timeout, c, Entered, Running(FIRST), FIRST, FIRST, [Pass, Pending, Fail], VFail, BOTH, [], {2}, false);
    var s3 := Three(timeout, c, Entered, Leaving, FIRST, FIRST, [Pass, Pending, Pass], VFail, BOTH, [FIRST], {2}, true);
    Stay(s0);
    Then(s0, s0, Secondary(2, Read), s1);
    Then(s0, s1, Secondary(2, Read), s2);
    assert s2.ran[2] + [FIRST] == [FIRST];
    Then(s0, s2, Secondary(2, Finish(Pass)), s3);
  }

  lemma FoldsToPass(timeout: nat)
    requires timeout >= 2
    ensures Leads(Three(timeout, Check(0, Other), Entered, Leaving, FIRST, FIRST, [Pass, Pending, Pass], VFail, BOTH,
            [FIRST], {2}, true),
                  Three(timeout, Idle, Entered, Leaving, FIRST, FIRST, [Pass, Pending, Pass], VPass, BOTH, [FIRST], {2}, true))
  {
    hide Leads;
    var p := [Pass, Pending, Pass];
    var s0 := Three(timeout, Check(0, Other), Entered, Leaving, FIRST, FIRST, p, VFail, BOTH, [FIRST], {2}, true);
    var s1 := Three(timeout, Check(1, Pass), Entered, Leaving, FIRST, FIRST, p, VFail, BOTH, [FIRST], {2}, true);
    var s2 := Three(timeout, Check(2, Pending), Entered, Leaving, FIRST, FIRST, p, VFail, BOTH, [FIRST], {2}, true);
    var s3 := Three(timeout, Check(3, Pass), Entered, Leaving, FIRST, FIRST, p, VFail, BOTH, [FIRST], {2}, true);
    var s4 := Three(timeout, Idle, Entered, Leaving, FIRST, FIRST, p, VPass, BOTH, [FIRST], {2}, true);
    Stay(s0);
    Then(s0, s0, Fold, s1);
    Then(s0, s1, Fold, s2);
    Then(s0, s2, Fold, s3);
    Then(s0, s3, Fold, s4);
  }

  /** After a time-out, a hart that reports once the wait is over can turn the verdict to pass
      although another hart has not run at all. */
  lemma FalsePass(timeout: nat) returns (states: seq<State>, actions: seq<Action>)
    requires timeout >= 2
    ensures Execution(states, actions) && states[0].timeout == timeout
    ensures var s := states[|actions|];
            && s.pc.Idle? && s.verdict == VPass && s.test.num == 3 == |s.slots| == |s.ran|
            && s.slots[1].Pending? && s.ran[1] == []
  {
    hide Leads, Runs;
    var s0 := ThreeIdle(timeout);
    var s1 := Three(timeout, Wait(0, 0, timeout - 1), Entered, Entered, FIRST, FIRST, [Pass, Pending, Pending], VFail,
        BOTH, [], {}, false);
    var s2 := Three(timeout, Check(0, Other), Entered, Entered, FIRST, FIRST, [Pass, Pending, Fail], VFail, BOTH, [], {2}, false);
    var s3 := Three(timeout, Check(0, Other), Entered, Leaving, FIRST, FIRST, [Pass, Pending, Pass], VFail, BOTH, [FIRST], {2}, true);
    var s4 := Three(timeout, Idle, Entered, Leaving, FIRST, FIRST, [Pass, Pending, Pass], VPass, BOTH, [FIRST], {2}, true);
    BothStart(timeout);
    TimesOut(s1);
    assert GivenUp(s1) == s2;
    LateReport(timeout);
    FoldsToPass(timeout);
    Chain(s0, s1, s2);
    Chain(s0, s2, s3);
    Chain(s0, s3, s4);
    actions := Actions(s0, s4);
    states := States(s0, actions, s4);
  }

  // ---- Three harts: a pass with a start failure that is stored as no failure ----

  /** The first secondary could not be started. */
  function OddThree(timeout: nat, pc: Pc, second: Hart, slots: seq<Code>, verdict: Verdict, posted: seq<Job>, ran: seq<Job>): State {
    State(0, timeout, pc, Test(1, 3, FIRST), [Off, Off, second], [FIRST, FIRST, FIRST], slots, verdict,
          [[], [], posted], [[], [], ran], [[], [], []], {1}, {}, true, false, false)
  }

  lemma OddStart(timeout: nat, error: Word)
    requires timeout >= 2 && 0x120 < error < 0x1000_0000
    ensures Leads(ThreeIdle(timeout),
                  OddThree(timeout, Wait(0, 0, timeout - 1), Entered, [Pass, Other, Pending], VFail, [FIRST], []))
  {
    hide Leads, Decode, StartFailure;
    var s0, T, p := ThreeIdle(timeout), timeout, [Pass, Other, Pending];
    var s1 := Three(T, Init(0), Off, Off, FIRST, FIRST, [Other, Other, Other], VFail, NOBODY, [], {}, false);
    var s4 := Three(T, Init(3), Off, Off, FIRST, FIRST, [Pending, Pending, Pending], VFail, NOBODY, [], {}, false);
    var s5 := Three(T, PostPayload(1, T), Off, Off, FIRST, FIRST, [Pass, Pending, Pending], VFail, NOBODY, [], {}, false);
    var s6 := Three(T, PostArg(1, T), Off, Off, FIRST, FIRST, [Pass, Pending, Pending], VFail, NOBODY, [], {}, false);
    var s7 := Three(T, CallOn(1, T), Off, Off, FIRST, FIRST, [Pass, Pending, Pending], VFail, NOBODY, [], {}, false);
    var s8 := OddThree(T, PostPayload(2, T), Off, p, VFail, [], []);
    Stay(s0);
    Then(s0, s0, Prepare(Begin(Test(1, 3, FIRST))), s1);
    ThreeInit(timeout);
    Chain(s0, s1, s4);
    Then(s0, s4, Prepare(RunOwn(Pass)), s5);
    Then(s0, s5, Launch(Post), s6);
    Then(s0, s6, Launch(Post), s7);
    LargeErrorIsNotFail(error);
    Then(s0, s7, Launch(Refuse(error)), s8);
    OddSecond(timeout);
    Chain(s0, s8, OddThree(T, Wait(0, 0, T - 1), Entered, p, VFail, [FIRST], []));
  }

  lemma OddSecond(timeout: nat)
    requires timeout >= 2
    ensures Leads(OddThree(timeout, PostPayload(2, timeout), Off, [Pass, Other, Pending], VFail, [], []),
                  OddThree(timeout, Wait(0, 0, timeout - 1), Entered, [Pass, Other, Pending], VFail, [FIRST], []))
  {
    hide Leads;
    var T, p := timeout, [Pass, Other, Pending];
    var s0 := OddThree(T, PostPayload(2, T), Off, p, VFail, [], []);
    var s1 := OddThree(T, PostArg(2, T), Off, p, VFail, [], []);
    var s2 := OddThree(T, CallOn(2, T), Off, p, VFail, [], []);
    var s3 := OddThree(T, Wait(0, 0, T - 1), Entered, p, VFail, [FIRST], []);
    Stay(s0);
    Then(s0, s0, Launch(Post), s1);
    Then(s0, s1, Launch(Post), s2);
    assert s2.posted[2] + [FIRST] == [FIRST];
    Then(s0, s2, Launch(TurnOn), s3);
  }

  lemma OddReport(timeout: nat)
    requires timeout >= 2
    ensures Leads(OddThree(timeout, Wait(0, 0, timeout - 1), Entered, [Pass, Other, Pending], VFail, [FIRST], []),
                  OddThree(timeout, Check(0, Other), Leaving, [Pass, Other, Pass], VFail, [FIRST], [FIRST]))
  {
    hide Leads;
    var w, p := Wait(0, 0, timeout - 1), [Pass, Other, Pass];
    var s0 := OddThree(timeout, w, Entered, [Pass, Other, Pending], VFail, [FIRST], []);
    var s1 := OddThree(timeout, w, Loaded(1), [Pass, Other, Pending], VFail, [FIRST], []);
    var s2 := OddThree(timeout, w, Running(FIRST), [Pass, Other, Pending], VFail, [FIRST], []);
    var s3 := OddThree(timeout, w, Leaving, p, VFail, [FIRST], [FIRST]);
    var s4 := OddThree(timeout, Wait(1, 0, timeout - 1), Leaving, p, VFail, [FIRST], [FIRST]);
    var s5 := OddThree(timeout, Wait(2, 0, timeout - 1), Leaving, p, VFail, [FIRST], [FIRST]);
    var s6 := OddThree(timeout, Wait(3, 0, timeout - 1), Leaving, p, VFail, [FIRST], [FIRST]);
    var s7 := OddThree(timeout, Check(0, Other), Leaving, p, VFail, [FIRST], [FIRST]);
    Stay(s0);
    Then(s0, s0, Secondary(2, Read), s1);
    Then(s0, s1, Secondary(2, Read), s2);
    assert s2.ran[2] + [FIRST] == [FIRST];
    Then(s0, s2, Secondary(2, Finish(Pass)), s3);
    Then(s0, s3, Look, s4);
    Then(s0, s4, Look, s5);
    Then(s0, s5, Look, s6);
    Then(s0, s6, Look, s7);
  }

  lemma OddFold(timeout: nat)
    requires timeout >= 2
    ensures Leads(OddThree(timeout, Check(0, Other), Leaving, [Pass, Other, Pass], VFail, [FIRST], [FIRST]),
                  OddThree(timeout, Idle, Leaving, [Pass, Other, Pass], VPass, [FIRST], [FIRST]))
  {
    hide Leads;
    var p := [Pass, Other, Pass];
    var s0 := OddThree(timeout, Check(0, Other), Leaving, p, VFail, [FIRST], [FIRST]);
    var s1 := OddThree(timeout, Check(1, Pass), Leaving, p, VFail, [FIRST], [FIRST]);
    var s2 := OddThree(timeout, Check(2, Other), Leaving, p, VFail, [FIRST], [FIRST]);
    var s3 := OddThree(timeout, Check(3, Pass), Leaving, p, VFail, [FIRST], [FIRST]);
    var s4 := OddThree(timeout, Idle, Leaving, p, VPass, [FIRST], [FIRST]);
    Stay(s0);
    Then(s0, s0, Fold, s1);
    Then(s0, s1, Fold, s2);
    Then(s0, s2, Fold, s3);
    Then(s0, s3, Fold, s4);
  }

  /** Without any time-out, an error code above 0x120 lets a test pass although a hart could not
      be started. */
  lemma OddPass(timeout: nat, error: Word) returns (states: seq<State>, actions: seq<Action>)
    requires timeout >= 2 && 0x120 < error < 0x1000_0000
    ensures Execution(states, actions) && states[0].timeout == timeout
    ensures var s := states[|actions|];
            && s.pc.Idle? && s.verdict == VPass && !s.stray && !s.late && s.odd && s.unstarted == {1}
            && |s.ran| == 3 == s.test.num && s.ran[1] == []
  {
    hide Leads, Runs;
    var s0 := ThreeIdle(timeout);
    var s1 := OddThree(timeout, Wait(0, 0, timeout - 1), Entered, [Pass, Other, Pending], VFail, [FIRST], []);
    var s2 := OddThree(timeout, Check(0, Other), Leaving, [Pass, Other, Pass], VFail, [FIRST], [FIRST]);
    var s3 := OddThree(timeout, Idle, Leaving, [Pass, Other, Pass], VPass, [FIRST], [FIRST]);
    OddStart(timeout, error);
    OddReport(timeout);
    OddFold(timeout);
    Chain(s0, s1, s2);
    Chain(s0, s2, s3);
    actions := Actions(s0, s3);
    states := States(s0, actions, s3);
  }
}

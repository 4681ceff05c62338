/** How often the primary tries and how long it waits: power-on calls that find a hart on, the passes of
    the wait, and the verdict of a test on one hart. */
module HartTiming {
  import opened Status
  import opened HartProtocol
  import opened HartSafety
  import opened HartHazards

  // ---- Calls that find the hart on ----

  /** A power-on call for hart h is answered by "already on". */
  predicate BusyAt(s: State, a: Action, h: nat) { a == Launch(Busy) && s.pc.CallOn? && s.pc.i == h }

  predicate Begins(a: Action) { a.Prepare? && a.p.Begin? }

  /** How many such answers there were for hart h in the current test, after n actions. */
  function Busies(states: seq<State>, actions: seq<Action>, h: nat, n: nat): nat
    requires n <= |actions| <= |states|
  {
    if n == 0 || Begins(actions[n - 1]) then 0
    else Busies(states, actions, h, n - 1) + if BusyAt(states[n - 1], actions[n - 1], h) then 1 else 0
  }

  predicate Posting(pc: Pc) { pc.PostPayload? || pc.PostArg? || pc.CallOn? }

  /** n answers so far for hart h: what is left of its tries is the rest. */
  predicate TriesOk(s: State, h: nat, n: nat) {
    && n <= s.timeout + 1 && (s.pc.Init? ==> n == 0)
    && (Posting(s.pc) ==>
          s.pc.tries <= s.timeout && (h == s.pc.i ==> n == s.timeout - s.pc.tries) && (h > s.pc.i ==> n == 0))
  }

  lemma TriesStep(s: State, a: Action, h: nat, n: nat)
    requires Shape(s) && Enabled(s, a) && TriesOk(s, h, n)
    ensures TriesOk(Apply(s, a), h, if Begins(a) then 0 else n + if BusyAt(s, a, h) then 1 else 0)
  {
    match a
    case Prepare(p) => TriesPrepare(s, p, h, n);
    case Launch(l) => TriesLaunch(s, l, h, n);
    case Look => TriesElsewhere(s, a, h, n);
    case Fold => TriesElsewhere(s, a, h, n);
    case Secondary(_, _) => TriesElsewhere(s, a, h, n);
  }

  lemma TriesPrepare(s: State, p: Preparation, h: nat, n: nat)
    requires Shape(s) && MayPrepare(s, p) && TriesOk(s, h, n)
    ensures TriesOk(Prepared(s, p), h, if p.Begin? then 0 else n)
  {
    hide TestOk;
  }

  lemma TriesLaunch(s: State, l: Launching, h: nat, n: nat)
    requires Shape(s) && MayLaunch(s, l) && TriesOk(s, h, n)
    ensures TriesOk(Launched(s, l), h, n + if BusyAt(s, Launch(l), h) then 1 else 0)
  {
    hide Decode, StartFailure, TestOk;
  }

  lemma TriesElsewhere(s: State, a: Action, h: nat, n: nat)
    requires Shape(s) && Enabled(s, a) && TriesOk(s, h, n) && !a.Prepare? && !a.Launch?
    ensures TriesOk(Apply(s, a), h, n)
  {
    hide TestOk;
  }

  lemma {:induction false} TriesKept(states: seq<State>, actions: seq<Action>, h: nat, n: nat)
    requires Execution(states, actions) && n <= |actions|
    ensures TriesOk(states[n], h, Busies(states, actions, h, n))
  {
    if n > 0 {
      TriesKept(states, actions, h, n - 1);
      hide Apply, Enabled, Initial, TriesOk, Shape, BusyAt;
      TriesStep(states[n - 1], actions[n - 1], h, Busies(states, actions, h, n - 1));
    }
  }

  /** A hart found on is tried again, its mailbox posted again, until that has happened timeout + 1
      times in this test; then, and not before, it counts as not started, and its slot holds a failure. */
  lemma BusyRetries(states: seq<State>, actions: seq<Action>, k: nat)
    requires Execution(states, actions) && k < |actions| && actions[k] == Launch(Busy)
    ensures var s, r := states[k], states[k + 1];
            && s.pc.CallOn?
            && var h := s.pc.i;
               var n := Busies(states, actions, h, k + 1);
               && n <= s.timeout + 1 && h < |r.slots|
               && (n <= s.timeout ==>
                     r.pc.PostPayload? && r.pc.i == h && r.unstarted == s.unstarted && r.slots == s.slots && r.harts == s.harts)
               && (n == s.timeout + 1 ==> r.unstarted == s.unstarted + {h} && r.slots[h] == Fail)
  {
    TriesKept(states, actions, states[k].pc.i, k);
    PsciErrorIsFail(ALREADY_ON);
    hide Execution, Decode, StartFailure;
  }

  /** The word stored for a hart that stayed on: a failure with the difference of 0x120 and -4. */
  lemma StayedOnWord()
    ensures StartFailure(ALREADY_ON) == 0x8000_0124
  {
  }

  /** A hart joins those not started only through an error answer, or through timeout + 1 answers that it
      is on. */
  lemma UnstartedMeans(states: seq<State>, actions: seq<Action>, k: nat, h: nat)
    requires Execution(states, actions) && k < |actions| && h !in states[k].unstarted && h in states[k + 1].unstarted
    ensures states[k].pc.CallOn? && states[k].pc.i == h
    ensures || (actions[k].Launch? && actions[k].l.Refuse?)
            || (actions[k] == Launch(Busy) && Busies(states, actions, h, k + 1) == states[k].timeout + 1)
  {
    NewlyUnstarted(states[k], actions[k], h);
    if actions[k] == Launch(Busy) { BusyRetries(states, actions, k); }
  }

  lemma NewlyUnstarted(s: State, a: Action, h: nat)
    requires Shape(s) && Enabled(s, a) && h !in s.unstarted && h in Apply(s, a).unstarted
    ensures s.pc.CallOn? && s.pc.i == h && a.Launch? && (a.l.Refuse? || a.l.Busy?)
  {
    hide Decode, StartFailure, TestOk;
  }

  /** How many of the actions are such answers. */
  function Answers(actions: seq<Action>): nat {
    if actions == [] then 0 else (if actions[0] == Launch(Busy) then 1 else 0) + Answers(actions[1..])
  }

  lemma {:induction false} AnswersAdd(a: seq<Action>, b: seq<Action>)
    ensures Answers(a + b) == Answers(a) + Answers(b)
    decreases |a|
  {
    if a == [] {
      assert a + b == b;
    } else {
      AnswersAdd(a[1..], b);
      assert (a + b)[1..] == a[1..] + b;
    }
  }

  /** The hart that the primary calls has been started with the job of the test in its mailbox. */
  predicate StartedFrom(s: State, r: State, h: nat) {
    && h < |s.harts| && h < |r.harts| && h < |r.mail| && h < |s.posted| && h < |r.posted|
    && r.harts[h].Entered? && r.mail[h] == s.test.job && r.posted[h] == s.posted[h] + [s.test.job]
    && r.unstarted == s.unstarted && r.slots == s.slots && r.test == s.test
  }

  /** One answer "already on", and the mailbox posted again. */
  lemma OneRetry(s: State) returns (r: State)
    requires Shape(s) && s.pc.CallOn? && s.pc.tries > 0 && !s.harts[s.pc.i].Off?
    ensures Runs(s, [Launch(Busy), Launch(Post), Launch(Post)], r) && Shape(r)
    ensures r == s.(pc := CallOn(s.pc.i, s.pc.tries - 1), mail := s.mail[s.pc.i := s.test.job])
  {
    hide Runs;
    var i, a := s.pc.i, Launch(Post);
    var s1 := Apply(s, Launch(Busy));
    LaunchedShape(s, Busy);
    var s2 := Apply(s1, a);
    LaunchedShape(s1, Post);
    r := Apply(s2, a);
    LaunchedShape(s2, Post);
    assert [Launch(Busy)] + [a, a] == [Launch(Busy), a, a] && [a] + [a] == [a, a] && [a] + [] == [a];
    RunsEnd(r);
    RunsStep(s2, a, [], r);
    RunsStep(s1, a, [a], r);
    RunsStep(s, Launch(Busy), [a, a], r);
    assert r.mail == s.mail[i := s.test.job];
  }

  lemma RunsEnd(s: State)
    ensures Runs(s, [], s)
  {
  }

  lemma RunsStep(s: State, a: Action, rest: seq<Action>, r: State)
    requires Shape(s) && Enabled(s, a) && Runs(Apply(s, a), rest, r)
    ensures Runs(s, [a] + rest, r)
  {
    hide Shape, Enabled, Apply;
    assert ([a] + rest)[1..] == rest;
  }

  /** The hart goes off and the next call starts it. */
  lemma ThenStarts(s: State) returns (r: State)
    requires Shape(s) && s.pc.CallOn? && s.harts[s.pc.i].Leaving? && s.mail[s.pc.i] == s.test.job
    ensures Runs(s, [Secondary(s.pc.i, PowerOff), Launch(TurnOn)], r) && StartedFrom(s, r, s.pc.i)
  {
    hide Runs;
    var i := s.pc.i;
    var s1 := Apply(s, Secondary(i, PowerOff));
    MovedShape(s, i, PowerOff);
    r := Apply(s1, Launch(TurnOn));
    assert [Launch(TurnOn)] + [] == [Launch(TurnOn)];
    assert [Secondary(i, PowerOff)] + [Launch(TurnOn)] == [Secondary(i, PowerOff), Launch(TurnOn)];
    RunsEnd(r);
    RunsStep(s1, Launch(TurnOn), [], r);
    RunsStep(s, Secondary(i, PowerOff), [Launch(TurnOn)], r);
  }

  /** As long as tries are left a hart that is still on can be started yet: for every number n of answers
      that the tries allow there is a run with exactly n answers "already on" in which the hart goes off
      then and is started, with the test's job posted. */
  lemma {:induction false} RetryStarts(s: State, n: nat) returns (actions: seq<Action>, r: State)
    requires Shape(s) && s.pc.CallOn? && 1 <= n <= s.pc.tries && s.harts[s.pc.i].Leaving?
    ensures Runs(s, actions, r) && Answers(actions) == n && StartedFrom(s, r, s.pc.i)
    decreases n
  {
    hide Shape, Runs;
    var i, retry := s.pc.i, [Launch(Busy), Launch(Post), Launch(Post)];
    var s1 := RetryOnce(s);
    var rest;
    if n == 1 {
      r := ThenStarts(s1);
      rest := [Secondary(i, PowerOff), Launch(TurnOn)];
      NoAnswers(i);
    } else {
      rest, r := RetryStarts(s1, n - 1);
    }
    OneAnswer();
    AnswersAdd(retry, rest);
    RunsOn(s, retry, s1, rest, r);
    actions := retry + rest;
  }

  lemma RetryOnce(s: State) returns (r: State)
    requires Shape(s) && s.pc.CallOn? && s.pc.tries > 0 && s.harts[s.pc.i].Leaving?
    ensures Runs(s, [Launch(Busy), Launch(Post), Launch(Post)], r) && Shape(r)
    ensures r.pc == CallOn(s.pc.i, s.pc.tries - 1) && r.harts == s.harts && r.test == s.test && r.mail[s.pc.i] == s.test.job
    ensures r.posted == s.posted && r.unstarted == s.unstarted && r.slots == s.slots
  {
    hide Runs;
    r := OneRetry(s);
  }

  lemma OneAnswer()
    ensures Answers([Launch(Busy), Launch(Post), Launch(Post)]) == 1
  {
    assert [Launch(Busy), Launch(Post), Launch(Post)][1..] == [Launch(Post), Launch(Post)];
    assert [Launch(Post), Launch(Post)][1..] == [Launch(Post)] && [Launch(Post)][1..] == [];
  }

  lemma NoAnswers(i: nat)
    ensures Answers([Secondary(i, PowerOff), Launch(TurnOn)]) == 0
  {
    assert [Secondary(i, PowerOff), Launch(TurnOn)][1..] == [Launch(TurnOn)] && [Launch(TurnOn)][1..] == [];
  }

  // ---- The wait ----

  /** The wait gives up on a hart only after all its passes: (timeout - 1) * (num + 1) looks. */
  lemma GivesUpAfter(states: seq<State>, actions: seq<Action>, a: nat, b: nat)
    requires Execution(states, actions) && a <= b < |actions| && forall k :: a <= k <= b ==> states[k].pc.Wait?
    requires states[a].timeout >= 2 && states[a].pc == Wait(0, 0, states[a].timeout - 1)
    requires !states[b + 1].pc.Wait? && states[b + 1].timedOut != {}
    ensures Looks(actions[a..b + 1]) == (states[a].timeout - 1) * (states[a].test.num + 1)
  {
    hide LooksLeft, Execution, Shape, Enabled, Apply, HartsInv, SlotsInv;
    NoWaitYet(states, actions);
    WaitBound(states, actions, a, b);
    StepOf(states, actions, b + 1);
    ReachSlots(states, actions, b);
    LastLook(states[b], actions[b]);
    StartLooks(states[a]);
    assert actions[a..b + 1][..b - a] == actions[a..b] && actions[a..b + 1][b - a] == Look;
  }

  lemma ReachSlots(states: seq<State>, actions: seq<Action>, k: nat)
    requires Execution(states, actions) && k < |states|
    ensures SlotsInv(states[k])
  {
    hide Execution, SlotsInv;
    Reachable(states, actions, k);
  }

  lemma LastLook(s: State, a: Action)
    requires SlotsInv(s) && Enabled(s, a) && s.pc.Wait? && !Apply(s, a).pc.Wait? && Apply(s, a).timedOut != {}
    ensures a == Look && LooksLeft(s) == 1
  {
    hide SlotsOk, WaitOk, CheckOk;
  }

  /** With no slot pending the wait ends within one pass, and gives up on no hart. */
  lemma {:induction false} NothingPendingEnds(states: seq<State>, actions: seq<Action>, a: nat, b: nat)
    requires Execution(states, actions) && a <= b < |states| && forall k :: a <= k <= b ==> states[k].pc.Wait?
    requires states[a].pc.i == 0 && states[a].pc.j == 0
    requires forall k :: 0 <= k < states[a].test.num && k < |states[a].slots| ==> !states[a].slots[k].Pending?
    ensures Shape(states[b]) && NonePending(states[b]) && Looks(actions[a..b]) == states[b].pc.i <= states[b].test.num
    decreases b
  {
    hide Enabled, Apply, Initial, Shape, HartsInv, Execution;
    if a < b {
      NothingPendingEnds(states, actions, a, b - 1);
      StepOf(states, actions, b);
      QuietLook(states[b - 1], actions[b - 1]);
      assert actions[a..b][..b - 1 - a] == actions[a..b - 1];
    } else {
      ReachShape(states, actions, a);
      ShapeSlots(states[a]);
      NoWaitYet(states, actions);
      assert actions[a..b] == [];
    }
  }

  /** The step that led to state n. */
  lemma StepOf(states: seq<State>, actions: seq<Action>, n: nat)
    requires Execution(states, actions) && 0 < n < |states|
    ensures |states| == |actions| + 1 && Shape(states[n - 1]) && Enabled(states[n - 1], actions[n - 1])
    ensures states[n] == Apply(states[n - 1], actions[n - 1])
  {
    hide Shape, Enabled, Apply, Initial;
  }

  lemma NoWaitYet(states: seq<State>, actions: seq<Action>)
    requires Execution(states, actions)
    ensures |states| == |actions| + 1 && !states[0].pc.Wait?
  {
  }

  lemma ShapeSlots(s: State)
    requires Shape(s)
    ensures s.test.num <= |s.slots|
  {
  }

  /** No slot of the test is pending, and the pass has seen none. */
  predicate NonePending(s: State) {
    s.pc.Wait? && s.pc.j == 0 && s.test.num <= |s.slots| && forall k :: 0 <= k < s.test.num ==> !s.slots[k].Pending?
  }

  lemma QuietLook(s: State, a: Action)
    requires Shape(s) && Enabled(s, a) && NonePending(s) && Apply(s, a).pc.Wait?
    ensures var r := Apply(s, a);
            Shape(r) && NonePending(r) && r.test == s.test && r.pc.i == (if a == Look then s.pc.i + 1 else s.pc.i) <= r.test.num
  {
    match a
    case Look => LookedShape(s);
    case Secondary(h, m) => MovedShape(s, h, m);
  }

  /** The pass has seen the slot of hart t pending, by the look at step m, and no pending one since. */
  predicate SeenLast(states: seq<State>, actions: seq<Action>, n: nat, m: nat, t: nat)
    requires n <= |actions| < |states|
  {
    && m < n && actions[m] == Look && states[m].pc.Wait? && states[m].pc.i == t && t < |states[m].slots| && states[m].slots[t].Pending?
    && forall q :: m < q < n && actions[q] == Look ==>
         && states[q].pc.Wait? && states[q].pc.i > t
         && (states[q].pc.i < |states[q].slots| && states[q].pc.i < states[q].test.num ==>
               !states[q].slots[states[q].pc.i].Pending?)
  }

  lemma {:induction false} SeenKept(states: seq<State>, actions: seq<Action>, n: nat) returns (m: nat)
    requires Execution(states, actions) && n <= |actions| && states[n].pc.Wait? && states[n].pc.j > 0
    ensures |actions| < |states| && SeenLast(states, actions, n, m, states[n].pc.j - 1)
    decreases n
  {
    hide Execution, Shape, Enabled, Apply, Initial, SeenLast;
    NoWaitYet(states, actions);
    StepOf(states, actions, n);
    var s, a := states[n - 1], actions[n - 1];
    WaitCame(s, a);
    if a == Look && s.slots[s.pc.i].Pending? {
      m := n - 1;
      SeenNow(states, actions, m);
    } else {
      m := SeenKept(states, actions, n - 1);
      SeenStill(states, actions, n - 1, m, s.pc.j - 1);
    }
  }

  lemma SeenNow(states: seq<State>, actions: seq<Action>, m: nat)
    requires m < |actions| < |states| && actions[m] == Look && states[m].pc.Wait?
    requires states[m].pc.i < |states[m].slots| && states[m].slots[states[m].pc.i].Pending?
    ensures SeenLast(states, actions, m + 1, m, states[m].pc.i)
  {
  }

  lemma SeenStill(states: seq<State>, actions: seq<Action>, n: nat, m: nat, t: nat)
    requires n < |actions| < |states| && SeenLast(states, actions, n, m, t)
    requires actions[n] == Look ==>
               states[n].pc.Wait? && t < states[n].pc.i < |states[n].slots| && !states[n].slots[states[n].pc.i].Pending?
    ensures SeenLast(states, actions, n + 1, m, t)
  {
  }

  /** How a wait that has seen a pending slot came about. */
  lemma WaitCame(s: State, a: Action)
    requires Shape(s) && Enabled(s, a) && Apply(s, a).pc.Wait? && Apply(s, a).pc.j > 0
    ensures s.pc.Wait? && s.test.num <= |s.slots| && s.pc.j <= s.pc.i
    ensures a == Look ==> s.pc.i < s.test.num && Apply(s, a).pc.j == if s.slots[s.pc.i].Pending? then s.pc.i + 1 else s.pc.j
    ensures a != Look ==> Apply(s, a).pc.j == s.pc.j
  {
    match a
    case Prepare(p) => NoPrepareWaits(s, p);
    case Launch(l) => NoLaunchWaits(s, l);
    case Look =>
    case Fold =>
    case Secondary(_, _) =>
  }

  lemma NoPrepareWaits(s: State, p: Preparation)
    requires Shape(s) && MayPrepare(s, p)
    ensures Prepared(s, p).pc.Wait? ==> Prepared(s, p).pc.j == 0
  {
  }

  lemma NoLaunchWaits(s: State, l: Launching)
    requires Shape(s) && MayLaunch(s, l)
    ensures Launched(s, l).pc.Wait? ==> Launched(s, l).pc.j == 0
  {
    hide Decode, StartFailure;
  }

  /** The hart that the wait gives up on is the last one that its last pass saw pending. */
  lemma GivesUpOnLast(states: seq<State>, actions: seq<Action>, k: nat) returns (m: nat, t: nat)
    requires Execution(states, actions) && k < |actions| && states[k].pc.Wait? && !states[k + 1].pc.Wait? && states[k + 1].timedOut != {}
    ensures SeenLast(states, actions, k, m, t) && states[k + 1].timedOut == {t} && t < |states[k + 1].slots|
            && states[k + 1].slots[t] == Fail
    ensures states[k + 1].late
  {
    hide Execution, Shape, Enabled, Apply, HartsInv, SlotsInv, SeenLast;
    NoWaitYet(states, actions);
    StepOf(states, actions, k + 1);
    ReachSlots(states, actions, k);
    LeftLate(states[k], actions[k]);
    t := states[k].pc.j - 1;
    m := SeenKept(states, actions, k);
  }

  lemma LeftLate(s: State, a: Action)
    requires SlotsInv(s) && Enabled(s, a) && s.pc.Wait? && !Apply(s, a).pc.Wait? && Apply(s, a).timedOut != {}
    ensures s.pc.j > 0 && Apply(s, a).timedOut == {s.pc.j - 1} && Apply(s, a).late
    ensures s.pc.j - 1 < |Apply(s, a).slots| && Apply(s, a).slots[s.pc.j - 1] == Fail
  {
    hide SlotsOk, WaitOk, CheckOk;
  }

  // ---- Tests on one hart ----

  /** What the primary's own payload reported in the current test, after n actions. */
  function OwnCode(actions: seq<Action>, n: nat): Code
    requires n <= |actions|
  {
    if n == 0 || Begins(actions[n - 1]) then Other
    else if actions[n - 1].Prepare? && actions[n - 1].p.RunOwn? then actions[n - 1].p.code
    else OwnCode(actions, n - 1)
  }

  lemma {:induction false} OwnKept(states: seq<State>, actions: seq<Action>, n: nat)
    requires Execution(states, actions) && n <= |actions|
    ensures Shape(states[n]) && (states[n].pc.Check? && states[n].test.num == 1 ==> states[n].slots[states[n].me] == OwnCode(actions, n))
  {
    ReachShape(states, actions, n);
    if n > 0 {
      OwnKept(states, actions, n - 1);
      hide Apply, Enabled, Initial, Shape;
      OwnStep(states[n - 1], actions[n - 1]);
    }
  }

  lemma OwnStep(s: State, a: Action)
    requires Shape(s) && Enabled(s, a)
    ensures var r := Apply(s, a);
            && Shape(r)
            && (r.pc.Check? && r.test.num == 1 ==>
                  if a.Prepare? && a.p.RunOwn? then r.slots[r.me] == a.p.code
                  else !Begins(a) && s.pc.Check? && s.test.num == 1 && r.me == s.me && r.slots[r.me] == s.slots[s.me])
  {
    hide Decode, StartFailure, TestOk;
    match a
    case Prepare(p) => PreparedShape(s, p);
    case Launch(l) => LaunchedShape(s, l);
    case Look => LookedShape(s);
    case Fold => FoldedShape(s);
    case Secondary(h, m) => MovedShape(s, h, m);
  }

  /** A test on one hart ends in what the primary's own payload reported, whatever late harts write. */
  lemma OwnVerdict(states: seq<State>, actions: seq<Action>, k: nat)
    requires Execution(states, actions) && k < |actions| && actions[k] == Fold && states[k].test.num == 1
    ensures var r, code := states[k + 1], OwnCode(actions, k);
            && r.pc.Idle? && (r.verdict == VPass <==> code.Pass?) && (r.verdict == VSkip <==> code.Skip?)
            && (r.verdict == VFail <==> !code.Pass? && !code.Skip?)
  {
    OwnKept(states, actions, k);
    hide Execution;
  }
}

/** What every interleaving of the protocol keeps, and what a verdict means. */
module HartSafety {
  import opened Status
  import opened HartProtocol

  // ---- Slots, in every execution ----

  /** The slots of the test hold pending or a result, unless an odd word was stored. */
  predicate SlotsOk(s: State)
    requires Shape(s)
  {
    !s.odd ==> forall k :: 0 <= k < s.test.num && (s.pc.Init? ==> k < s.pc.i) ==> s.slots[k].Pending? || Final(s.slots[k])
  }

  /** A poll that has seen nothing pending so far is right about it. */
  predicate WaitOk(s: State)
    requires Shape(s)
  {
    s.pc.Wait? && s.pc.j == 0 ==> forall k :: 0 <= k < s.pc.i ==> !s.slots[k].Pending?
  }

  /** When the fold starts every slot holds a result, or the hart the wait gave up on holds a
      failure, and the fold is right about the slots it has seen. */
  predicate CheckOk(s: State)
    requires Shape(s)
  {
    s.pc.Check? && !s.stray ==>
      && (s.timedOut == {} && !s.odd ==> forall k :: 0 <= k < s.test.num && s.test.num != 1 ==> Final(s.slots[k]))
      && (forall t :: t in s.timedOut ==> t < s.test.num && s.slots[t].Fail?)
      && (forall k :: 0 <= k < s.pc.i ==> !FailSkip(s.slots[k]))
      && s.pc.last == if s.pc.i == 0 then Other else s.slots[s.pc.i - 1]
  }

  predicate SlotsInv(s: State) {
    && Shape(s) && SlotsOk(s) && WaitOk(s) && CheckOk(s)
    && (!s.pc.Check? && !s.pc.Idle? ==> s.timedOut == {})
  }

  lemma PreparedSlots(s: State, p: Preparation)
    requires SlotsInv(s) && MayPrepare(s, p)
    ensures SlotsInv(Prepared(s, p))
  {
    PreparedShape(s, p);
  }

  lemma LaunchedSlots(s: State, l: Launching)
    requires SlotsInv(s) && MayLaunch(s, l)
    ensures SlotsInv(Launched(s, l))
  {
    hide Decode, StartFailure;
    LaunchedShape(s, l);
  }

  lemma LookedSlots(s: State)
    requires SlotsInv(s) && s.pc.Wait?
    ensures SlotsInv(Looked(s))
  {
    LookedShape(s);
  }

  lemma FoldedSlots(s: State)
    requires SlotsInv(s) && s.pc.Check?
    ensures SlotsInv(Folded(s))
  {
    FoldedShape(s);
  }

  lemma MovedSlots(s: State, h: nat, m: Move)
    requires SlotsInv(s) && MayMove(s, h, m)
    ensures SlotsInv(Moved(s, h, m))
  {
    MovedShape(s, h, m);
  }

  // ---- Harts and mailboxes, as long as no wait has timed out ----

  /** The primary is between starting hart h and the end of the wait. */
  predicate Awaited(pc: Pc, h: nat) {
    match pc
    case PostPayload(i, _) => h < i
    case PostArg(i, _) => h < i
    case CallOn(i, _) => h < i
    case Wait(_, _, _) => true
    case _ => false
  }

  /** The primary is done with starting hart h in this test. */
  predicate Called(pc: Pc, h: nat) { Awaited(pc, h) || pc.Check? || pc.Idle? }

  /** A hart that has not reported yet is awaited, its slot is pending, its mailbox holds the
      test's job, and what it has read from it so far is that job. */
  predicate ActiveOk(s: State, h: nat)
    requires Shape(s) && h < |s.harts|
  {
    var job := s.test.job;
    && h < s.test.num && Awaited(s.pc, h) && s.slots[h].Pending? && h !in s.unstarted
    && s.mail[h] == job && s.posted[h] == s.ran[h] + [job]
    && (s.harts[h].Loaded? ==> s.harts[h].payload == job.payload)
    && (s.harts[h].Running? ==> s.harts[h].job == job)
  }

  /** Which harts the current test has started so far. */
  predicate Started(s: State, h: nat) {
    h < s.test.num && s.test.num != 1 && Called(s.pc, h) && h !in s.unstarted
  }

  predicate HartOk(s: State, h: nat)
    requires Shape(s) && h < |s.harts|
  {
    && (if Active(s.harts[h]) then ActiveOk(s, h) else s.posted[h] == s.ran[h])
    && (h in s.unstarted ==> Called(s.pc, h) && !Active(s.harts[h]) && (!s.odd ==> s.slots[h].Fail?))
    && s.posted[h] == s.base[h] + (if Started(s, h) then [s.test.job] else [])
    && (h < s.test.num && !Called(s.pc, h) && (s.pc.Init? ==> h < s.pc.i) ==> s.slots[h].Pending?)
    && (s.pc.CallOn? && h == s.pc.i ==> s.mail[h] == s.test.job)
    && (s.pc.PostArg? && h == s.pc.i ==> s.mail[h].payload == s.test.job.payload)
  }

  predicate HartsInv(s: State) {
    && SlotsInv(s)
    && (!s.late ==>
          && !s.stray
          && (forall h :: h in s.unstarted ==> h < s.test.num && h != s.me && s.test.num != 1)
          && forall h :: 0 <= h < |s.harts| && h != s.me ==> HartOk(s, h))
  }

  // ---- Every step keeps this ----

  lemma PreparedHarts(s: State, p: Preparation)
    requires HartsInv(s) && MayPrepare(s, p)
    ensures HartsInv(Prepared(s, p))
  {
    PreparedSlots(s, p);
    hide SlotsInv;
    PreparedShape(s, p);
    var r := Prepared(s, p);
    if !r.late {
      forall h | 0 <= h < |r.harts| && h != r.me ensures HartOk(r, h) {
        assert HartOk(s, h);
      }
    }
  }

  lemma PostedHart(s: State, h: nat)
    requires Shape(s) && MayLaunch(s, Post) && h < |s.harts| && h != s.me && HartOk(s, h)
    ensures Shape(Launched(s, Post)) && HartOk(Launched(s, Post), h)
  {
    LaunchedShape(s, Post);
  }

  lemma TurnedOnHart(s: State, h: nat)
    requires Shape(s) && MayLaunch(s, TurnOn) && h < |s.harts| && h != s.me && HartOk(s, h)
    ensures Shape(Launched(s, TurnOn)) && HartOk(Launched(s, TurnOn), h)
  {
    LaunchedShape(s, TurnOn);
  }

  lemma GivenUpHart(s: State, code: Code, h: nat)
    requires Shape(s) && s.pc.CallOn? && h < |s.harts| && h != s.me && HartOk(s, h)
    requires Shape(GiveUp(s, s.pc.i, code))
    requires !Active(s.harts[s.pc.i])
    ensures HartOk(GiveUp(s, s.pc.i, code), h)
  {
  }

  /** The hart about to be started is not busy. */
  lemma CalledIdle(s: State)
    requires Shape(s) && (s.pc.CallOn? ==> HartOk(s, s.pc.i))
    ensures s.pc.CallOn? ==> !Active(s.harts[s.pc.i])
  {
  }

  lemma LaunchedHart(s: State, l: Launching, h: nat)
    requires HartsInv(s) && MayLaunch(s, l) && !s.late && h < |s.harts| && h != s.me
    ensures Alike(s, Launched(s, l)) && HartOk(Launched(s, l), h)
  {
    hide SlotsOk, WaitOk, CheckOk, Decode, StartFailure, HartOk;
    LaunchedShape(s, l);
    assert HartOk(s, h);
    CalledIdle(s);
    match l
    case Post => PostedHart(s, h);
    case TurnOn => TurnedOnHart(s, h);
    case Busy =>
      if s.pc.tries == 0 { GivenUpHart(s, Decode(StartFailure(ALREADY_ON)), h); } else { RetriedHart(s, h); }
    case Refuse(error) =>
      GivenUpHart(s, Decode(StartFailure(error)), h);
  }

  lemma RetriedHart(s: State, h: nat)
    requires Shape(s) && s.pc.CallOn? && s.pc.tries > 0 && h < |s.harts| && h != s.me && HartOk(s, h)
    requires Shape(s.(pc := PostPayload(s.pc.i, s.pc.tries - 1)))
    ensures HartOk(s.(pc := PostPayload(s.pc.i, s.pc.tries - 1)), h)
  {
  }

  lemma LaunchedHarts(s: State, l: Launching)
    requires HartsInv(s) && MayLaunch(s, l)
    ensures HartsInv(Launched(s, l))
  {
    hide Decode, StartFailure, HartOk, SlotsOk, WaitOk, CheckOk;
    LaunchedSlots(s, l);
    var r := Launched(s, l);
    if !r.late {
      forall h | 0 <= h < |r.harts| && h != r.me ensures HartOk(r, h) {
        LaunchedHart(s, l, h);
      }
    }
  }

  lemma LookedHarts(s: State)
    requires HartsInv(s) && s.pc.Wait?
    ensures HartsInv(Looked(s))
  {
    hide SlotsOk, CheckOk, WaitOk, HartOk;
    LookedSlots(s);
    var r := Looked(s);
    if !r.late {
      forall h | 0 <= h < |r.harts| && h != r.me ensures HartOk(r, h) {
        assert HartOk(s, h);
        LookedHart(s, h);
      }
    }
  }

  lemma LookedHart(s: State, h: nat)
    requires Shape(s) && s.pc.Wait? && WaitOk(s) && h < |s.harts| && HartOk(s, h) && !Looked(s).late
    ensures Alike(s, Looked(s)) && HartOk(Looked(s), h)
  {
    LookedShape(s);
  }

  lemma FoldedHarts(s: State)
    requires HartsInv(s) && s.pc.Check?
    ensures HartsInv(Folded(s))
  {
    hide SlotsOk, CheckOk, WaitOk, HartOk;
    FoldedSlots(s);
    var r := Folded(s);
    if !r.late {
      forall h | 0 <= h < |r.harts| && h != r.me ensures HartOk(r, h) {
        assert HartOk(s, h);
        FoldedHart(s, h);
      }
    }
  }

  lemma FoldedHart(s: State, h: nat)
    requires Shape(s) && s.pc.Check? && h < |s.harts| && HartOk(s, h)
    ensures Alike(s, Folded(s)) && HartOk(Folded(s), h)
  {
    FoldedShape(s);
  }

  lemma MovedHart(s: State, h: nat, m: Move)
    requires Shape(s) && MayMove(s, h, m) && HartOk(s, h)
    ensures Alike(s, Moved(s, h, m)) && HartOk(Moved(s, h, m), h)
  {
    MovedShape(s, h, m);
  }

  lemma OtherHart(s: State, h: nat, m: Move, k: nat)
    requires Shape(s) && MayMove(s, h, m) && k < |s.harts| && k != h && HartOk(s, k)
    ensures Alike(s, Moved(s, h, m)) && HartOk(Moved(s, h, m), k)
  {
    hide HartOk;
    MovedShape(s, h, m);
    var r := Moved(s, h, m);
    assert r.harts[k] == s.harts[k] && r.slots[k] == s.slots[k] && r.ran[k] == s.ran[k];
    SameView(s, r, k);
  }

  /** A hart is judged by its own entries and by what belongs to the test. */
  lemma SameView(s: State, r: State, k: nat)
    requires Shape(s) && Shape(r) && k < |s.harts| == |r.harts| && HartOk(s, k)
    requires r.pc == s.pc && r.test == s.test && r.mail == s.mail && r.posted == s.posted && r.base == s.base
    requires r.unstarted == s.unstarted && r.odd == s.odd
    requires r.harts[k] == s.harts[k] && r.slots[k] == s.slots[k] && r.ran[k] == s.ran[k]
    ensures HartOk(r, k)
  {
    hide Shape;
  }

  /** A hart that reports is awaited, so no report comes during the fold. */
  lemma NoStray(s: State, h: nat, m: Move)
    requires Shape(s) && MayMove(s, h, m) && HartOk(s, h) && !s.stray
    ensures !Moved(s, h, m).stray
  {
  }

  lemma MovedHarts(s: State, h: nat, m: Move)
    requires HartsInv(s) && MayMove(s, h, m)
    ensures HartsInv(Moved(s, h, m))
  {
    hide SlotsOk, CheckOk, WaitOk, HartOk;
    MovedSlots(s, h, m);
    var r := Moved(s, h, m);
    if !r.late {
      assert HartOk(s, h);
      NoStray(s, h, m);
      forall k | 0 <= k < |r.harts| && k != r.me ensures HartOk(r, k) {
        assert HartOk(s, k);
        if k == h { MovedHart(s, h, m); } else { OtherHart(s, h, m, k); }
      }
    }
  }

  lemma StepKeeps(s: State, a: Action)
    requires HartsInv(s) && Enabled(s, a)
    ensures HartsInv(Apply(s, a))
  {
    hide HartsInv, MayPrepare, MayLaunch, MayMove, Prepared, Launched, Looked, Folded, Moved;
    match a
    case Prepare(p) => PreparedHarts(s, p);
    case Launch(l) => LaunchedHarts(s, l);
    case Look => LookedHarts(s);
    case Fold => FoldedHarts(s);
    case Secondary(h, m) => MovedHarts(s, h, m);
  }

  /** Every state of every execution. */
  lemma {:induction false} Reachable(states: seq<State>, actions: seq<Action>, k: nat)
    requires Execution(states, actions) && k < |states|
    ensures HartsInv(states[k])
  {
    hide Apply, Enabled;
    if k == 0 {
      InitialInv(states[0]);
    } else {
      hide HartsInv, Shape, Initial;
      Reachable(states, actions, k - 1);
      StepKeeps(states[k - 1], actions[k - 1]);
    }
  }

  lemma InitialInv(s: State)
    requires Initial(s)
    ensures HartsInv(s)
  {
  }

  // ---- What executions guarantee ----

  /** As long as no wait has timed out, each secondary has run exactly the jobs posted for it,
      in order and once each, but for the one it may be busy with, and that one it reads
      whole: it ends up running the very job posted. */
  lemma MailboxSafety(states: seq<State>, actions: seq<Action>, k: nat, h: nat)
    requires Execution(states, actions) && k < |states| && !states[k].late
    requires h < |states[k].harts| && h != states[k].me
    ensures var s := states[k];
            && Shape(s)
            && (if Active(s.harts[h]) then s.posted[h] == s.ran[h] + [s.test.job] else s.posted[h] == s.ran[h])
            && (s.harts[h].Running? ==> s.posted[h] == s.ran[h] + [s.harts[h].job])
  {
    hide Execution;
    Reachable(states, actions, k);
    assert HartOk(states[k], h);
  }

  /** Posting, also on a retry, only overwrites a mailbox whose owner has taken what it needs. */
  lemma RetriesOverwriteConsumed(states: seq<State>, actions: seq<Action>, k: nat)
    requires Execution(states, actions) && k < |actions| && !states[k].late && actions[k] == Launch(Post)
    ensures var s := states[k];
            && Shape(s) && (s.pc.PostPayload? || s.pc.PostArg?)
            && !Active(s.harts[s.pc.i]) && s.posted[s.pc.i] == s.ran[s.pc.i]
  {
    Reachable(states, actions, k);
    hide Execution;
    var s := states[k];
    assert HartOk(s, s.pc.i);
  }

  /** The step that gives a verdict on a test of several harts. */
  predicate Concludes(s: State, r: State) {
    Shape(s) && s.pc.Check? && s.test.num != 1 && r == Folded(s) && r.pc.Idle?
  }

  /** If no hart wrote its slot after the wait, the verdict is pass exactly when the last slot
      holds pass and none holds a failure or a skip. Unless an odd word was stored this means
      that all slots hold pass; a hart the wait gave up on rules it out, and before any
      time-out so does a hart that could not be started. */
  lemma VerdictSound(states: seq<State>, actions: seq<Action>, k: nat)
    requires Execution(states, actions) && k < |actions| && Concludes(states[k], states[k + 1]) && !states[k].stray
    ensures var s, r := states[k], states[k + 1];
            && (r.verdict == VPass <==>
                s.test.num > 0 && s.slots[s.test.num - 1].Pass? && forall i :: 0 <= i < s.test.num ==>
                    !s.slots[i].Fail? && !s.slots[i].Skip?)
            && (!s.odd ==> (r.verdict == VPass <==> s.test.num > 0 && forall i :: 0 <= i < s.test.num ==> s.slots[i].Pass?))
            && (s.timedOut != {} ==> r.verdict != VPass)
            && (!s.odd && !s.late && s.unstarted != {} ==> r.verdict != VPass)
  {
    Reachable(states, actions, k);
    hide Execution, HartOk;
    var s := states[k];
    if s.timedOut != {} {
      var t :| t in s.timedOut;
      assert FailSkip(s.slots[t]);
    }
    if !s.odd && !s.late && s.unstarted != {} {
      UnstartedFail(s);
      var u :| u in s.unstarted;
      assert FailSkip(s.slots[u]);
    }
  }

  lemma UnstartedFail(s: State)
    requires HartsInv(s) && !s.late && !s.odd
    ensures forall u :: u in s.unstarted ==> u < s.test.num && s.slots[u].Fail?
  {
    forall u | u in s.unstarted ensures u < s.test.num && s.slots[u].Fail? { assert HartOk(s, u); }
  }

  /** A pass without any time-out so far: every slot holds pass, no hart was left unstarted,
      and each secondary of the test has run the test's job once since the test began. */
  lemma PassMeansAllRan(states: seq<State>, actions: seq<Action>, k: nat, h: nat)
    requires Execution(states, actions) && k < |actions| && Concludes(states[k], states[k + 1])
    requires states[k + 1].verdict == VPass && !states[k].late && !states[k].odd
    requires h < states[k].test.num && h != states[k].me
    ensures var s := states[k];
            && Shape(s) && s.unstarted == {} && s.timedOut == {}
            && (forall i :: 0 <= i < s.test.num ==> s.slots[i].Pass?)
            && s.ran[h] == s.base[h] + [s.test.job]
  {
    Reachable(states, actions, k);
    VerdictSound(states, actions, k);
    hide Execution;
    var s := states[k];
    assert HartOk(s, h);
    assert s.unstarted == {};
  }

  // ---- The wait ends ----

  /** How many looks the wait still takes, at most. */
  function LooksLeft(s: State): (r: nat)
    requires Shape(s) && s.pc.Wait?
    ensures r >= 1
  {
    (s.pc.left - 1) * (s.test.num + 1) + (s.test.num - s.pc.i) + 1
  }

  /** The looks among some actions. */
  function Looks(actions: seq<Action>): nat {
    if actions == [] then 0 else Looks(actions[..|actions| - 1]) + if actions[|actions| - 1] == Look then 1 else 0
  }

  /** While the primary waits, every look uses exactly one up, and no other step changes them. */
  lemma WaitStep(s: State, a: Action)
    requires Shape(s) && Enabled(s, a) && s.pc.Wait? && Apply(s, a).pc.Wait?
    ensures Shape(Apply(s, a))
    ensures LooksLeft(Apply(s, a)) + (if a == Look then 1 else 0) == LooksLeft(s)
  {
    match a
    case Look =>
      LookedShape(s);
      var n, left := s.test.num + 1, s.pc.left;
      if left >= 2 { assert (left - 1) * n == (left - 2) * n + n; }
    case Secondary(h, m) =>
      MovedShape(s, h, m);
  }

  lemma ReachShape(states: seq<State>, actions: seq<Action>, k: nat)
    requires Execution(states, actions) && k < |states|
    ensures Shape(states[k])
  {
    hide Execution;
    Reachable(states, actions, k);
  }

  /** In every interleaving the wait ends: it takes no more looks than time-out and number of
      harts allow. */
  lemma {:induction false} WaitBound(states: seq<State>, actions: seq<Action>, a: nat, b: nat)
    requires Execution(states, actions) && a <= b < |states| && forall k :: a <= k <= b ==> states[k].pc.Wait?
    ensures Shape(states[a]) && Shape(states[b]) && Looks(actions[a..b]) + LooksLeft(states[b]) == LooksLeft(states[a])
    decreases b
  {
    hide Shape, Enabled, Apply, Initial, LooksLeft, HartsInv;
    ReachShape(states, actions, a);
    ReachShape(states, actions, b);
    if a < b {
      WaitBound(states, actions, a, b - 1);
      WaitStep(states[b - 1], actions[b - 1]);
      assert actions[a..b][..b - 1 - a] == actions[a..b - 1];
    }
  }

  /** From its start the wait takes at most (timeout - 1) * (num + 1) looks. */
  lemma WaitEnds(states: seq<State>, actions: seq<Action>, a: nat, b: nat)
    requires Execution(states, actions) && a <= b < |states| && forall k :: a <= k <= b ==> states[k].pc.Wait?
    requires states[a].timeout >= 2 && states[a].pc == Wait(0, 0, states[a].timeout - 1)
    ensures Looks(actions[a..b]) < (states[a].timeout - 1) * (states[a].test.num + 1)
  {
    hide Execution, Shape, LooksLeft;
    WaitBound(states, actions, a, b);
    StartLooks(states[a]);
  }

  lemma StartLooks(s: State)
    requires Shape(s) && s.timeout >= 2 && s.pc == Wait(0, 0, s.timeout - 1)
    ensures LooksLeft(s) == (s.timeout - 1) * (s.test.num + 1)
  {
    var n, t := s.test.num + 1, s.timeout;
    assert (t - 1) * n == (t - 2) * n + n;
  }
}

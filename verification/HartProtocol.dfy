/** The multi-hart test protocol: one primary hart posts a payload in each secondary's mailbox,
    powers the secondary on, polls the status slots and folds them into a verdict. Steps of
    the primary and of all secondaries interleave freely. */
module HartProtocol {
  import opened Status

  /** A payload and its argument. */
  datatype Job = Job(payload: nat, arg: nat)

  /** One test run on the first `num` harts. */
  datatype Test = Test(number: Word, num: nat, job: Job)

  /** A secondary: off; entered; payload address read; running; status written, not yet off. */
  datatype Hart = Off | Entered | Loaded(payload: nat) | Running(job: Job) | Leaving

  datatype Verdict = VPass | VFail | VSkip

  /** Where the primary is. */
  datatype Pc =
    | Idle
    | Init(i: nat)                        // slots below i are set to pending
    | PostPayload(i: nat, tries: nat)     // mailbox of hart i: first word
    | PostArg(i: nat, tries: nat)         // second word
    | CallOn(i: nat, tries: nat)          // power-on call
    | Wait(i: nat, j: nat, left: nat)     // poll: slots below i seen, j - 1 the last pending one
    | Check(i: nat, last: Code)           // fold: slots below i seen

  /** The machine, with the histories the properties speak of: jobs of successful power-on
      calls (posted) and jobs run (ran) for each hart, what had run when the test began
      (base), harts that could not be started and the hart the wait gave up on in this test,
      whether a start failure of this test was stored as a word that is no failure (odd),
      whether any wait ever timed out (late), and whether a slot was written during the
      fold (stray). */
  datatype State = State(
    me: nat, timeout: nat,
    pc: Pc, test: Test, harts: seq<Hart>, mail: seq<Job>, slots: seq<Code>, verdict: Verdict,
    posted: seq<seq<Job>>, ran: seq<seq<Job>>, base: seq<seq<Job>>,
    unstarted: set<nat>, timedOut: set<nat>, odd: bool, late: bool, stray: bool)

  datatype Preparation = Begin(test: Test) | InitSlot | RunOwn(code: Code)
  datatype Launching = Post | TurnOn | Busy | Refuse(error: Word)
  datatype Move = Read | Finish(code: Code) | PowerOff

  datatype Action = Prepare(p: Preparation) | Launch(l: Launching) | Look | Fold | Secondary(h: nat, m: Move)

  const ALREADY_ON: Word := 0xFFFF_FFFC

  // ---- Steps ----

  /** The loop over the harts to start: the next one that is not the primary, or the wait. */
  function NextHart(s: State, i: nat): Pc
    requires s.timeout >= 2
  {
    var k := if i == s.me then i + 1 else i;
    if k < s.test.num then PostPayload(k, s.timeout) else Wait(0, 0, s.timeout - 1)
  }

  predicate FailSkip(c: Code) { c.Fail? || c.Skip? }

  /** What a finished payload reports. */
  predicate Final(c: Code) { c.Pass? || c.Fail? || c.Skip? }

  predicate Active(h: Hart) { h.Entered? || h.Loaded? || h.Running? }

  predicate MayPrepare(s: State, p: Preparation) {
    match p
    case Begin(test) => s.pc.Idle? && test.num <= |s.harts| && TestOk(test.number)
    case InitSlot => s.pc.Init? && s.pc.i < s.test.num
    case RunOwn(code) => s.pc.Init? && s.pc.i == s.test.num && Final(code)
  }

  /** A power-on call succeeds only on a hart that is off, and reports a hart that is on. */
  predicate MayLaunch(s: State, l: Launching) {
    match l
    case Post => s.pc.PostPayload? || s.pc.PostArg?
    case TurnOn => s.pc.CallOn? && s.pc.i < |s.harts| && s.harts[s.pc.i].Off?
    case Busy => s.pc.CallOn? && s.pc.i < |s.harts| && !s.harts[s.pc.i].Off?
    case Refuse(error) => s.pc.CallOn? && error != 0 && error != ALREADY_ON
  }

  predicate MayMove(s: State, h: nat, m: Move) {
    && h != s.me && h < |s.harts|
    && match m
       case Read => s.harts[h].Entered? || s.harts[h].Loaded?
       case Finish(code) => s.harts[h].Running? && Final(code)
       case PowerOff => s.harts[h].Leaving?
  }

  predicate Enabled(s: State, a: Action) {
    match a
    case Prepare(p) => MayPrepare(s, p)
    case Launch(l) => MayLaunch(s, l)
    case Look => s.pc.Wait?
    case Fold => s.pc.Check?
    case Secondary(h, m) => MayMove(s, h, m)
  }

  /** Sizes agree and the primary's indices are in range. */
  predicate Shape(s: State) {
    var n := |s.harts|;
    && s.me < n && s.timeout >= 2 && s.test.num <= n && TestOk(s.test.number)
    && |s.mail| == n && |s.slots| == n && |s.posted| == n && |s.ran| == n && |s.base| == n
    && (s.pc.Init? ==> s.pc.i <= s.test.num)
    && (s.pc.PostPayload? || s.pc.PostArg? || s.pc.CallOn? ==> s.pc.i < s.test.num && s.pc.i != s.me && s.test.num != 1)
    && (s.pc.Wait? ==> s.pc.j <= s.pc.i <= s.test.num && s.pc.left > 0 && s.test.num != 1)
    && (s.pc.Check? ==> s.pc.i <= s.test.num)
  }

  /** Hart i could not be started: the word for the error is stored in its slot. */
  function GiveUp(s: State, i: nat, code: Code): State
    requires i < |s.slots| && s.timeout >= 2
  {
    s.(slots := s.slots[i := code], odd := s.odd || code != Fail, unstarted := s.unstarted + {i}, pc := NextHart(s, i + 1))
  }

  function VerdictOf(c: Code): Verdict { if c.Pass? then VPass else if c.Skip? then VSkip else VFail }

  function Looked(s: State): State
    requires Shape(s) && s.pc.Wait?
  {
    var Wait(i, j, left) := s.pc;
    if i < s.test.num then s.(pc := Wait(i + 1, if s.slots[i].Pending? then i + 1 else j, left))
    else if j == 0 then s.(pc := Check(0, Other))
    else if left > 1 then s.(pc := Wait(0, 0, left - 1))
    else s.(pc := Check(0, Other), slots := s.slots[j - 1 := Fail], timedOut := {j - 1}, late := true)
  }

  /** One slot of the fold; with a single hart only the primary's own slot counts. */
  function Folded(s: State): State
    requires Shape(s) && s.pc.Check?
  {
    var Check(i, last) := s.pc;
    if s.test.num == 1 then s.(pc := Idle, verdict := VerdictOf(s.slots[s.me]))
    else if i == s.test.num then s.(pc := Idle, verdict := VerdictOf(last))
    else if FailSkip(s.slots[i]) then s.(pc := Idle, verdict := VerdictOf(s.slots[i]))
    else s.(pc := Check(i + 1, s.slots[i]))
  }

  function Prepared(s: State, p: Preparation): State
    requires Shape(s) && MayPrepare(s, p)
  {
    match p
    case Begin(test) =>
      s.(pc := Init(0), test := test, base := s.ran, unstarted := {}, timedOut := {}, odd := false, stray := false)
    case InitSlot => s.(pc := Init(s.pc.i + 1), slots := s.slots[s.pc.i := Pending])
    case RunOwn(code) =>
      s.(pc := if s.test.num == 1 then Check(0, Other) else NextHart(s, 0), slots := s.slots[s.me := code])
  }

  function Launched(s: State, l: Launching): State
    requires Shape(s) && MayLaunch(s, l)
  {
    var i := s.pc.i;
    match l
    case Post =>
      if s.pc.PostPayload? then
        s.(pc := PostArg(i, s.pc.tries), mail := s.mail[i := s.mail[i].(payload := s.test.job.payload)])
      else
        s.(pc := CallOn(i, s.pc.tries), mail := s.mail[i := s.mail[i].(arg := s.test.job.arg)])
    case TurnOn =>
      s.(pc := NextHart(s, i + 1), harts := s.harts[i := Entered], posted := s.posted[i := s.posted[i] + [s.test.job]])
    case Busy => if s.pc.tries > 0 then s.(pc := PostPayload(i, s.pc.tries - 1)) else GiveUp(s, i, Decode(StartFailure(ALREADY_ON)))
    case Refuse(error) => GiveUp(s, i, Decode(StartFailure(error)))
  }

  function Moved(s: State, h: nat, m: Move): State
    requires Shape(s) && MayMove(s, h, m)
  {
    match m
    case Read =>
      if s.harts[h].Entered? then s.(harts := s.harts[h := Loaded(s.mail[h].payload)])
      else s.(harts := s.harts[h := Running(Job(s.harts[h].payload, s.mail[h].arg))])
    case Finish(code) =>
      s.(harts := s.harts[h := Leaving], slots := s.slots[h := code], ran := s.ran[h := s.ran[h] + [s.harts[h].job]],
         stray := s.stray || s.pc.Check?)
    case PowerOff => s.(harts := s.harts[h := Off])
  }

  function Apply(s: State, a: Action): (r: State)
    requires Shape(s) && Enabled(s, a)
  {
    match a
    case Prepare(p) => Prepared(s, p)
    case Launch(l) => Launched(s, l)
    case Look => Looked(s)
    case Fold => Folded(s)
    case Secondary(h, m) => Moved(s, h, m)
  }

  /** Every secondary off, nothing posted. */
  predicate Initial(s: State) {
    && Shape(s) && s.pc.Idle? && !s.late && !s.stray && s.unstarted == {} && s.timedOut == {} && !s.odd && s.test.num == 0
    && (forall h :: 0 <= h < |s.harts| ==> s.harts[h].Off? && s.posted[h] == [] && s.ran[h] == [] && s.base[h] == [])
    && s.verdict != VPass
  }

  /** An execution: states and the actions between them. */
  predicate Execution(states: seq<State>, actions: seq<Action>) {
    && |states| == |actions| + 1 && Initial(states[0])
    && forall k :: 0 <= k < |actions| ==>
         Shape(states[k]) && Enabled(states[k], actions[k]) && states[k + 1] == Apply(states[k], actions[k])
  }

  // ---- Indices stay in range ----

  predicate Alike(s: State, r: State) { Shape(r) && r.me == s.me && |r.harts| == |s.harts| }

  lemma PreparedShape(s: State, p: Preparation)
    requires Shape(s) && MayPrepare(s, p)
    ensures Alike(s, Prepared(s, p))
  {
  }

  lemma LaunchedShape(s: State, l: Launching)
    requires Shape(s) && MayLaunch(s, l)
    ensures Alike(s, Launched(s, l))
  {
    hide Decode, StartFailure, NextHart, TestOk;
    NextHartShape(s, s.pc.i + 1);
    match l
    case Post =>
    case TurnOn =>
    case Busy =>
    case Refuse(_) =>
  }

  lemma NextHartShape(s: State, i: nat)
    requires Shape(s)
    ensures var pc := NextHart(s, i);
            || (pc.PostPayload? && pc.i < s.test.num && pc.i != s.me)
            || (pc.Wait? && pc.i == 0 && pc.j == 0 && pc.left > 0)
  {
  }

  lemma LookedShape(s: State)
    requires Shape(s) && s.pc.Wait?
    ensures Alike(s, Looked(s))
  {
  }

  lemma FoldedShape(s: State)
    requires Shape(s) && s.pc.Check?
    ensures Alike(s, Folded(s))
  {
  }

  lemma MovedShape(s: State, h: nat, m: Move)
    requires Shape(s) && MayMove(s, h, m)
    ensures Alike(s, Moved(s, h, m))
  {
  }
}

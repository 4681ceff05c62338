/** 32-bit status words: a state in the top four bits, the test number above bit 12, a
    checkpoint below. */
module Status {
  type Word = bv32

  const PASS_STATE: Word := 4
  const FAIL_STATE: Word := 8
  const SKIP_STATE: Word := 9
  const PENDING_STATE: Word := 10

  function Pack(state: Word, test: Word, status: Word): Word { (state << 28) | (test << 12) | status }

  function ResultPass(test: Word, status: Word): Word { Pack(PASS_STATE, test, status) }
  function ResultFail(test: Word, status: Word): Word { Pack(FAIL_STATE, test, status) }
  function ResultSkip(test: Word, status: Word): Word { Pack(SKIP_STATE, test, status) }
  function ResultPending(test: Word): Word { Pack(PENDING_STATE, test, 0) }

  function StateOf(w: Word): Word { (w >> 28) & 0xF }

  predicate IsPass(w: Word) { StateOf(w) == PASS_STATE }
  predicate IsFail(w: Word) { StateOf(w) == FAIL_STATE }
  predicate IsSkip(w: Word) { StateOf(w) == SKIP_STATE }
  predicate IsPending(w: Word) { StateOf(w) == PENDING_STATE }

  /** What the readers of a slot tell apart. */
  datatype Code = Pass | Fail | Skip | Pending | Other

  function Decode(w: Word): Code {
    if IsPass(w) then Pass else if IsFail(w) then Fail else if IsSkip(w) then Skip else if IsPending(w) then Pending else Other
  }

  /** Test numbers that stay clear of the state bits. */
  predicate TestOk(test: Word) { test < 0x10000 }

  /** A packed word decodes to the state it was packed with. */
  lemma PackState(state: Word, test: Word, status: Word)
    requires state <= 0xF && TestOk(test) && status < 0x1000_0000
    ensures StateOf(Pack(state, test, status)) == state
  {
  }

  lemma ResultsDecode(test: Word, status: Word)
    requires TestOk(test) && status < 0x1000_0000
    ensures Decode(ResultPass(test, status)) == Pass && Decode(ResultFail(test, status)) == Fail
    ensures Decode(ResultSkip(test, status)) == Skip && Decode(ResultPending(test)) == Pending
  {
    PackState(PASS_STATE, test, status);
    PackState(FAIL_STATE, test, status);
    PackState(SKIP_STATE, test, status);
    PackState(PENDING_STATE, test, 0);
  }

  /** The fields of a result word: state in bits 28 to 31, test number in bits 12 to 27, status below. */
  predicate HasFields(w: Word, state: Word, test: Word, status: Word) {
    w >> 28 == state && (w >> 12) & 0xFFFF == test && w & 0xFFF == status
  }

  lemma PackFields(state: Word, test: Word, status: Word)
    requires state <= 0xF && TestOk(test) && status < 0x1000
    ensures HasFields(Pack(state, test, status), state, test, status)
  {
  }

  lemma WordsAre(test: Word, status: Word)
    requires TestOk(test) && status < 0x1000
    ensures HasFields(ResultPass(test, status), 4, test, status) && HasFields(ResultFail(test, status), 8, test, status)
    ensures HasFields(ResultSkip(test, status), 9, test, status) && HasFields(ResultPending(test), 10, test, 0)
  {
    hide Pack, HasFields;
    PackFields(4, test, status);
    PackFields(8, test, status);
    PackFields(9, test, status);
    PackFields(10, test, 0);
  }

  lemma DecodeIs(w: Word)
    ensures Decode(w) ==
            if 0x4000_0000 <= w <= 0x4FFF_FFFF then Pass
            else if 0x8000_0000 <= w <= 0x8FFF_FFFF then Fail
            else if 0x9000_0000 <= w <= 0x9FFF_FFFF then Skip
            else if 0xA000_0000 <= w <= 0xAFFF_FFFF then Pending
            else Other
  {
  }

  /** What is stored for a hart whose power-on call returned the error. */
  function StartFailure(error: Word): Word { ResultFail(0, 0x120 - error) }

  /** The stored word reads back as a failure exactly when the code, subtracted from 0x120,
      leaves bits 28 to 30 clear. */
  lemma StartFailureIsFail(error: Word)
    ensures Decode(StartFailure(error)) == Fail <==> (0x120 - error) & 0x7000_0000 == 0
  {
  }

  /** The error codes of PSCI are -1 to -9. */
  predicate PsciError(error: Word) { 0xFFFF_FFF7 <= error }

  lemma PsciErrorIsFail(error: Word)
    requires PsciError(error)
    ensures Decode(StartFailure(error)) == Fail
  {
  }

  /** A positive code above 0x120 leaves a word that is neither pass, fail, skip nor pending. */
  lemma LargeErrorIsNotFail(error: Word)
    requires 0x120 < error < 0x1000_0000
    ensures Decode(StartFailure(error)) == Other
  {
  }
}

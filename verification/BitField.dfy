/** Deciding a register field's attribute by writing and reading back. */
module BitField {

  type Word = bv32

  /** A bit position, or a count of bits or bytes. */
  type Place = bv8

  /** A register of read/write bits, write-1-to-clear bits, and bits that software cannot change. */
  class Register {
    const rw: Word
    const w1c: Word
    var value: Word

    constructor (rw: Word, w1c: Word, value: Word)
      requires NoneIn(rw, w1c)
      ensures this.rw == rw && this.w1c == w1c && this.value == value && Valid()
    {
      this.rw, this.w1c, this.value := rw, w1c, value;
    }

    predicate Valid() { NoneIn(rw, w1c) }

    method Write(v: Word)
      modifies this
      ensures value == Written(rw, w1c, old(value), v)
    {
      value := Written(rw, w1c, value, v);
    }
  }

  /** A register after a write: written bits where writable, ones clear, the rest stays. */
  function Written(rw: Word, w1c: Word, value: Word, v: Word): Word {
    (v & rw) | (value & !rw & !(w1c & v))
  }

  datatype Attribute = HwInit | ReadOnly | StickyRo | RsvdpRo | RsvdzRo | ReadWrite | StickyRw | Unknown

  /** A field of bits start to end, `align` bytes into the word read, and what it should hold. */
  datatype Field = Field(align: Place, start: Place, end: Place, expected: Word, attribute: Attribute)

  predicate FieldOk(f: Field) {
    f.align <= 3 && f.start <= f.end && f.end < 31 && 8 * f.align + f.end <= 31
  }

  // The operators of the macros, named so that proofs can go by their bits.

  function Up(v: Word, n: Place): Word
    requires n <= 31
  {
    v << n
  }

  function Down(v: Word, n: Place): Word
    requires n <= 31
  {
    v >> n
  }

  function Both(a: Word, b: Word): Word { a & b }

  /** The n lowest bits. */
  function Ones(n: Place): Word
    requires n <= 31
  {
    (1 << n) - 1
  }

  /** REG_MASK(end, start). */
  function RegMask(end: Place, start: Place): Word
    requires start <= end && end < 31
  {
    Down(Both(Up(0xFFFF_FFFF, start), Ones(end + 1)), start)
  }

  /** REG_SHIFT(align, start). */
  function RegShift(f: Field): (r: Place)
    requires FieldOk(f)
    ensures r <= 31 - (f.end - f.start)
  {
    f.align * 8 + f.start
  }

  /** The field's bits in the word. */
  function FieldBits(f: Field): Word
    requires FieldOk(f)
  {
    Up(RegMask(f.end, f.start), RegShift(f))
  }

  function Extract(f: Field, v: Word): Word
    requires FieldOk(f)
  {
    Both(Down(v, RegShift(f)), RegMask(f.end, f.start))
  }

  // ---- What the mask and the shift select ----

  predicate Bit(v: Word, i: Place)
    requires i <= 31
  {
    (v >> i) & 1 == 1
  }

  lemma UpZero(v: Word)
    ensures Up(v, 0) == v && !Bit(Up(v, 1), 0)
  {
  }

  lemma UpOne(v: Word, i: Place)
    requires 1 <= i && i <= 31
    ensures Bit(Up(v, 1), i) == Bit(v, i - 1)
  {
  }

  lemma UpStep(v: Word, n: Place)
    requires 1 <= n && n <= 31
    ensures Up(v, n) == Up(Up(v, n - 1), 1)
  {
  }

  lemma {:induction false} UpBit(v: Word, n: Place, i: Place)
    requires n <= 31 && i <= 31
    ensures Bit(Up(v, n), i) == (n <= i && Bit(v, i - n))
    decreases n
  {
    hide Up, Bit;
    UpZero(v);
    if n > 0 {
      UpStep(v, n);
      if i > 0 {
        UpOne(Up(v, n - 1), i);
        UpBit(v, n - 1, i - 1);
      } else {
        UpZero(Up(v, n - 1));
      }
    }
  }

  lemma DownZero(v: Word)
    ensures Down(v, 0) == v
  {
  }

  lemma DownOne(v: Word, i: Place)
    requires i <= 31
    ensures Bit(Down(v, 1), i) == (i < 31 && Bit(v, i + 1))
  {
  }

  lemma DownStep(v: Word, n: Place)
    requires 1 <= n && n <= 31
    ensures Down(v, n) == Down(Down(v, n - 1), 1)
  {
  }

  lemma {:induction false} DownBit(v: Word, n: Place, i: Place)
    requires n <= 31 && i <= 31
    ensures Bit(Down(v, n), i) == (i <= 31 - n && Bit(v, n + i))
    decreases n
  {
    hide Down, Bit;
    DownZero(v);
    if n > 0 {
      DownStep(v, n);
      DownOne(Down(v, n - 1), i);
      if i < 31 { DownBit(v, n - 1, i + 1); }
    }
  }

  lemma BothBit(a: Word, b: Word, i: Place)
    requires i <= 31
    ensures Bit(Both(a, b), i) == (Bit(a, i) && Bit(b, i))
  {
  }

  lemma HighBits(n: Place, i: Place)
    requires n <= 31 && i <= 31
    ensures Bit(Up(0xFFFF_FFFF, n), i) == (n <= i)
  {
  }

  lemma LowBits(n: Place, i: Place)
    requires n <= 31 && i <= 31
    ensures Bit(Ones(n), i) == (i < n)
  {
  }

  /** The mask has as many low bits as the field is wide. */
  lemma MaskBits(end: Place, start: Place, i: Place)
    requires start <= end && end < 31 && i <= 31
    ensures Bit(RegMask(end, start), i) == (i <= end - start)
  {
    hide Bit, Up, Down, Both, Ones;
    var high, low := Up(0xFFFF_FFFF, start), Ones(end + 1);
    DownBit(Both(high, low), start, i);
    if i <= 31 - start {
      var k := start + i;
      assert k <= 31 && start <= k && (k < end + 1 <==> i <= end - start);
      BothBit(high, low, k);
      HighBits(start, k);
      LowBits(end + 1, k);
    }
  }

  /** Bit i lies among the bits of a mask shifted up. */
  predicate Within(shift: Place, end: Place, start: Place, i: Place) { shift <= i && i - shift <= end - start }

  lemma ShiftedMask(shift: Place, end: Place, start: Place, i: Place)
    requires start <= end && end < 31 && shift <= 31 - (end - start) && i <= 31
    ensures Bit(Up(RegMask(end, start), shift), i) == Within(shift, end, start, i)
  {
    hide Bit, RegMask, Up;
    UpBit(RegMask(end, start), shift, i);
    if shift <= i { MaskBits(end, start, i - shift); }
  }

  /** Bit i of w is the bit of v that the shift leads to, for the bits of the mask, and no other
      bit is set. */
  predicate Copied(w: Word, v: Word, shift: Place, end: Place, start: Place, i: Place)
    requires start <= end && end < 31 && shift <= 31 - (end - start) && i <= 31
  {
    if i <= end - start then Bit(w, i) == Bit(v, shift + i) else !Bit(w, i)
  }

  lemma MaskedShift(shift: Place, end: Place, start: Place, v: Word, i: Place)
    requires start <= end && end < 31 && shift <= 31 - (end - start) && i <= 31
    ensures Copied(Both(Down(v, shift), RegMask(end, start)), v, shift, end, start, i)
  {
    hide Bit, RegMask, Both, Down;
    BothBit(Down(v, shift), RegMask(end, start), i);
    MaskBits(end, start, i);
    if i <= end - start { DownBit(v, shift, i); }
  }

  /** Bit i lies between the ends of the field. */
  predicate InField(f: Field, i: Place) { 8 * f.align + f.start <= i && i <= 8 * f.align + f.end }

  lemma FieldEnds(f: Field, i: Place)
    requires FieldOk(f) && i <= 31
    ensures Within(RegShift(f), f.end, f.start, i) <==> InField(f, i)
  {
  }

  /** Bit i belongs to the field's mask exactly when it lies between the ends. */
  lemma FieldBitsAre(f: Field, i: Place)
    requires FieldOk(f) && i <= 31
    ensures Bit(FieldBits(f), i) == InField(f, i)
  {
    hide Bit, RegMask, Up, RegShift, Within, InField;
    ShiftedMask(RegShift(f), f.end, f.start, i);
    FieldEnds(f, i);
  }

  /** The extracted value is the field's bits moved to the bottom. */
  lemma ExtractBit(f: Field, v: Word, i: Place)
    requires FieldOk(f) && i <= 31
    ensures Copied(Extract(f, v), v, RegShift(f), f.end, f.start, i)
  {
    hide Bit, RegMask, Down, Both, RegShift, Copied;
    MaskedShift(RegShift(f), f.end, f.start, v, i);
  }

  // ---- Words by their bits ----

  lemma LowBit(v: Word)
    ensures Bit(v, 0) <==> v & 1 == 1
    ensures v != 0 && !Bit(v, 0) ==> Down(v, 1) != 0 && Down(v, 1) < v
  {
  }

  lemma NoBits(i: Place)
    requires i <= 31
    ensures !Bit(0, i)
  {
  }

  lemma {:induction false} SomeBit(v: Word) returns (i: Place)
    requires v != 0
    ensures i <= 31 && Bit(v, i)
    decreases v
  {
    hide Bit, Down;
    LowBit(v);
    if Bit(v, 0) {
      i := 0;
    } else {
      var j := SomeBit(Down(v, 1));
      DownOne(v, j);
      i := j + 1;
    }
  }

  lemma MissingBit(v: Word, mask: Word, i: Place)
    requires i <= 31
    ensures Bit(Drop(v, mask), i) == (Bit(v, i) && !Bit(mask, i))
  {
    hide Bit, Drop, Both;
    DropIs(v, mask);
    BothBit(v, !mask, i);
    OtherBit(mask, i);
  }

  lemma DropIs(v: Word, mask: Word)
    ensures Drop(v, mask) == Both(v, !mask)
  {
  }

  lemma OtherBit(mask: Word, i: Place)
    requires i <= 31
    ensures Bit(!mask, i) == !Bit(mask, i)
  {
  }

  lemma AllInIsDrop(bits: Word, mask: Word)
    ensures AllIn(bits, mask) <==> Drop(bits, mask) == 0
    ensures NoneIn(bits, mask) <==> Both(bits, mask) == 0
  {
  }

  lemma AllInIff(bits: Word, mask: Word)
    ensures AllIn(bits, mask) <==> forall i: Place :: i <= 31 && Bit(bits, i) ==> Bit(mask, i)
  {
    hide Bit, AllIn, Drop;
    AllInIsDrop(bits, mask);
    if Drop(bits, mask) == 0 {
      forall i: Place | i <= 31 && Bit(bits, i) ensures Bit(mask, i) {
        MissingBit(bits, mask, i);
        NoBits(i);
      }
    } else {
      var i := SomeBit(Drop(bits, mask));
      MissingBit(bits, mask, i);
    }
  }

  lemma NoneInIff(bits: Word, mask: Word)
    ensures NoneIn(bits, mask) <==> forall i: Place :: i <= 31 ==> !(Bit(bits, i) && Bit(mask, i))
  {
    hide Bit, NoneIn, Both;
    AllInIsDrop(bits, mask);
    if Both(bits, mask) == 0 {
      forall i: Place | i <= 31 ensures !(Bit(bits, i) && Bit(mask, i)) {
        BothBit(bits, mask, i);
        NoBits(i);
      }
    } else {
      var i := SomeBit(Both(bits, mask));
      BothBit(bits, mask, i);
    }
  }

  // ---- What the check decides ----

  /** The register once the value read has been written back: clearable bits are cleared. */
  function Settled(w1c: Word, value: Word): Word { value & !w1c }

  predicate AllIn(bits: Word, mask: Word) { bits & mask == bits }
  predicate NoneIn(bits: Word, mask: Word) { bits & mask == 0 }
  function Flip(v: Word, bits: Word): Word { v ^ bits }
  function Drop(v: Word, bits: Word): Word { v & !bits }
  function Either(a: Word, b: Word): Word { a | b }
  function Mix(rw: Word, value: Word, v: Word): Word { (v & rw) | (value & !rw) }

  /** The register behaves as the field's attribute demands: a read/write field is writable
      throughout, a read-only field nowhere, a reserved field that must be preserved reads as
      zero, and one that must be written as zero has no writable bit set. */
  predicate Behaves(f: Field, rw: Word, value: Word)
    requires FieldOk(f)
  {
    var bits := FieldBits(f);
    match f.attribute
    case ReadWrite => AllIn(bits, rw)
    case StickyRw => AllIn(bits, rw)
    case HwInit => NoneIn(bits, rw)
    case ReadOnly => NoneIn(bits, rw)
    case StickyRo => NoneIn(bits, rw)
    case RsvdpRo => Extract(f, value) == 0
    case RsvdzRo => NoneIn(value, Both(bits, rw))
    case Unknown => false
  }

  /** What each attribute demands, by the bits between the field's ends. */
  ghost predicate Demanded(f: Field, rw: Word, value: Word) {
    match f.attribute
    case ReadWrite | StickyRw => forall i: Place :: i <= 31 && InField(f, i) ==> Bit(rw, i)
    case HwInit | ReadOnly | StickyRo => forall i: Place :: i <= 31 && InField(f, i) ==> !Bit(rw, i)
    case RsvdpRo => forall i: Place :: i <= 31 && InField(f, i) ==> !Bit(value, i)
    case RsvdzRo => forall i: Place :: i <= 31 && InField(f, i) ==> !(Bit(rw, i) && Bit(value, i))
    case Unknown => false
  }

  lemma {:induction false} BehavesIff(f: Field, rw: Word, value: Word)
    requires FieldOk(f)
    ensures Behaves(f, rw, value) <==> Demanded(f, rw, value)
  {
    hide Bit, FieldBits, InField, FieldOk, Extract, AllIn, NoneIn, Both;
    var bits := FieldBits(f);
    forall i: Place | i <= 31 ensures Bit(bits, i) == InField(f, i) { FieldBitsAre(f, i); }
    match f.attribute
    case ReadWrite => AllInIff(bits, rw);
    case StickyRw => AllInIff(bits, rw);
    case HwInit => NoneInIff(bits, rw);
    case ReadOnly => NoneInIff(bits, rw);
    case StickyRo => NoneInIff(bits, rw);
    case RsvdpRo =>
      ExtractZero(f, value);
      NoneInIff(value, bits);
    case RsvdzRo => RsvdzBits(bits, rw, value);
    case Unknown =>
  }

  lemma RsvdzBits(bits: Word, rw: Word, value: Word)
    ensures NoneIn(value, Both(bits, rw)) <==> forall i: Place :: i <= 31 && Bit(bits, i) ==> !(Bit(rw, i) && Bit(value, i))
  {
    hide Bit, NoneIn, Both;
    NoneInIff(value, Both(bits, rw));
    forall i: Place | i <= 31 ensures Bit(Both(bits, rw), i) == (Bit(bits, i) && Bit(rw, i)) { BothBit(bits, rw, i); }
  }

  lemma UpDown(s: Place, i: Place)
    requires s <= i && i <= 31
    ensures i - s <= 31 - s && s + (i - s) == i && i - s <= 31
  {
  }

  lemma DownUp(s: Place, j: Place)
    requires s <= 31 && j <= 31 - s
    ensures s <= s + j && s + j <= 31 && s + j - s == j
  {
  }

  /** A mask selects nothing from a word shifted down exactly when, shifted up, it selects nothing from
      the word. */
  lemma ShiftedNone(v: Word, mask: Word, s: Place)
    requires s <= 31
    ensures Both(Down(v, s), mask) == 0 <==> Both(v, Up(mask, s)) == 0
  {
    hide Bit, Both, Down, Up;
    if Both(v, Up(mask, s)) != 0 {
      var i := SomeBit(Both(v, Up(mask, s)));
      BothBit(v, Up(mask, s), i);
      UpBit(mask, s, i);
      UpDown(s, i);
      var j := i - s;
      DownBit(v, s, j);
      BothBit(Down(v, s), mask, j);
      NoBits(j);
    }
    if Both(Down(v, s), mask) != 0 {
      var j := SomeBit(Both(Down(v, s), mask));
      BothBit(Down(v, s), mask, j);
      DownBit(v, s, j);
      DownUp(s, j);
      var i := s + j;
      UpBit(mask, s, i);
      BothBit(v, Up(mask, s), i);
      NoBits(i);
    }
  }

  lemma ExtractZero(f: Field, value: Word)
    requires FieldOk(f)
    ensures Extract(f, value) == 0 <==> NoneIn(value, FieldBits(f))
  {
    hide Both, Down, Up, RegMask, RegShift, NoneIn;
    ShiftedNone(value, RegMask(f.end, f.start), RegShift(f));
    AllInIsDrop(value, FieldBits(f));
  }

  /** What a write does to each bit of a register. */
  lemma WrittenBit(rw: Word, w1c: Word, value: Word, v: Word, i: Place)
    requires i <= 31
    ensures Bit(Written(rw, w1c, value, v), i) == if Bit(rw, i) then Bit(v, i) else Bit(value, i) && !(Bit(w1c, i) && Bit(v, i))
  {
    hide Bit, Written, Both, Drop, Either;
    WrittenIs(rw, w1c, value, v);
    var kept := Drop(Drop(value, rw), Both(w1c, v));
    EitherBit(Both(v, rw), kept, i);
    BothBit(v, rw, i);
    MissingBit(Drop(value, rw), Both(w1c, v), i);
    MissingBit(value, rw, i);
    BothBit(w1c, v, i);
  }

  lemma WrittenIs(rw: Word, w1c: Word, value: Word, v: Word)
    ensures Written(rw, w1c, value, v) == Either(Both(v, rw), Drop(Drop(value, rw), Both(w1c, v)))
  {
  }

  lemma EitherBit(a: Word, b: Word, i: Place)
    requires i <= 31
    ensures Bit(Either(a, b), i) == (Bit(a, i) || Bit(b, i))
  {
  }

  /** The settled value has the bits of the value read but for those that a written one clears. */
  lemma SettledBit(w1c: Word, value: Word, i: Place)
    requires i <= 31
    ensures Bit(Settled(w1c, value), i) <==> Bit(value, i) && !Bit(w1c, i)
  {
  }

  lemma WriteBack(rw: Word, w1c: Word, value: Word)
    requires NoneIn(rw, w1c)
    ensures Written(rw, w1c, value, value) == Settled(w1c, value) && NoneIn(Settled(w1c, value), w1c)
  {
  }

  /** Writing to a register with nothing to clear changes its writable bits and no others. */
  lemma WrittenClear(rw: Word, w1c: Word, value: Word, v: Word)
    requires NoneIn(value, w1c)
    ensures Written(rw, w1c, value, v) == Mix(rw, value, v)
  {
    NothingToClear(rw, w1c, value, v);
  }

  lemma NothingToClear(rw: Word, w1c: Word, value: Word, v: Word)
    requires value & w1c == 0
    ensures (v & rw) | (value & !rw & !(w1c & v)) == (v & rw) | (value & !rw)
  {
  }

  lemma FlipWritable(rw: Word, w1c: Word, value: Word, bits: Word)
    requires NoneIn(value, w1c)
    ensures Written(rw, w1c, value, Flip(value, bits)) == Flip(value, Both(bits, rw))
  {
    hide Written, Mix, Flip, Both, NoneIn;
    WrittenClear(rw, w1c, value, Flip(value, bits));
    MixFlip(rw, value, bits);
  }

  lemma MixFlip(rw: Word, value: Word, bits: Word)
    ensures Mix(rw, value, Flip(value, bits)) == Flip(value, Both(bits, rw))
  {
    hide Mix, Flip, Both;
    var flipped := value ^ bits;
    assert Flip(value, bits) == flipped by { FlipIs(value, bits); }
    var common := bits & rw;
    assert Both(bits, rw) == common by { BothIs(bits, rw); }
    assert Flip(value, common) == value ^ common by { FlipIs(value, common); }
    XorMasked(rw, value, bits, flipped, common);
  }

  lemma FlipIs(v: Word, bits: Word)
    ensures Flip(v, bits) == v ^ bits
  {
  }

  lemma BothIs(a: Word, b: Word)
    ensures Both(a, b) == a & b
  {
  }

  lemma XorMasked(rw: Word, value: Word, bits: Word, flipped: Word, common: Word)
    requires flipped == value ^ bits && common == bits & rw
    ensures Mix(rw, value, flipped) == value ^ common
  {
  }

  lemma FlipKeepsClear(rw: Word, w1c: Word, value: Word, bits: Word)
    requires NoneIn(rw, w1c) && NoneIn(value, w1c)
    ensures NoneIn(Flip(value, Both(bits, rw)), w1c)
  {
  }

  lemma FlipSame(value: Word, a: Word, b: Word)
    ensures Flip(value, a) == Flip(value, b) <==> a == b
    ensures Flip(value, a) == value <==> a == 0
  {
  }

  lemma Restored(rw: Word, w1c: Word, value: Word, bits: Word)
    requires NoneIn(rw, w1c) && NoneIn(value, w1c)
    ensures Written(rw, w1c, Flip(value, Both(bits, rw)), value) == value
  {
    hide Written, Mix, Flip, Both, NoneIn;
    FlipKeepsClear(rw, w1c, value, bits);
    WrittenClear(rw, w1c, Flip(value, Both(bits, rw)), value);
    MixBack(rw, value, bits);
  }

  lemma MixBack(rw: Word, value: Word, bits: Word)
    ensures Mix(rw, Flip(value, Both(bits, rw)), value) == value
  {
  }

  lemma BothParts(bits: Word, mask: Word)
    ensures Both(bits, mask) == bits <==> AllIn(bits, mask)
    ensures Both(bits, mask) == 0 <==> NoneIn(bits, mask)
  {
  }

  /** Toggling the field of a settled register: what reads back, and that writing the settled
      value again restores it. */
  lemma Toggled(rw: Word, w1c: Word, value: Word, bits: Word)
    requires NoneIn(rw, w1c) && NoneIn(value, w1c)
    ensures var after := Written(rw, w1c, value, Flip(value, bits));
            && (after == Flip(value, bits) <==> AllIn(bits, rw))
            && (after == value <==> NoneIn(bits, rw))
            && Written(rw, w1c, after, value) == value
  {
    hide Written, Flip, Both, AllIn, NoneIn;
    FlipWritable(rw, w1c, value, bits);
    FlipSame(value, Both(bits, rw), bits);
    BothParts(bits, rw);
    Restored(rw, w1c, value, bits);
  }

  lemma DropWritable(rw: Word, w1c: Word, value: Word, bits: Word)
    requires NoneIn(value, w1c)
    ensures Written(rw, w1c, value, Drop(value, bits)) == Drop(value, Both(bits, rw))
  {
    hide Written, Mix, Drop, Both, NoneIn;
    WrittenClear(rw, w1c, value, Drop(value, bits));
    MixDrop(rw, value, bits);
  }

  lemma MixDrop(rw: Word, value: Word, bits: Word)
    ensures Mix(rw, value, Drop(value, bits)) == Drop(value, Both(bits, rw))
    ensures Mix(rw, value, value) == value
  {
    AndNotMasked(rw, value, bits);
    OrParts(rw, value);
  }

  lemma AndNotMasked(rw: Word, value: Word, bits: Word)
    ensures ((value & !bits) & rw) | (value & !rw) == value & !(bits & rw)
  {
  }

  lemma OrParts(rw: Word, value: Word)
    ensures (value & rw) | (value & !rw) == value
  {
  }

  lemma DropNone(value: Word, b: Word)
    ensures Drop(value, b) == value <==> NoneIn(value, b)
  {
  }

  lemma Zeroed(rw: Word, w1c: Word, value: Word, bits: Word)
    requires NoneIn(value, w1c)
    ensures Written(rw, w1c, value, Drop(value, bits)) == value <==> NoneIn(value, Both(bits, rw))
    ensures Written(rw, w1c, value, value) == value
  {
    hide Written, Drop, NoneIn, Both, Mix;
    WrittenClear(rw, w1c, value, value);
    MixDrop(rw, value, bits);
    DropWritable(rw, w1c, value, bits);
    DropNone(value, Both(bits, rw));
  }

  /** Checks a field's value and attribute by probing. It passes exactly when the settled
      value is the expected one and the register behaves as the attribute demands; a pass
      leaves the settled value, and a read/write probe restores it in any case. */
  method BitfieldCheck(reg: Register, f: Field) returns (pass: bool)
    requires reg.Valid() && FieldOk(f)
    modifies reg
    ensures pass <==> Extract(f, Settled(reg.w1c, old(reg.value))) == f.expected && Behaves(f, reg.rw, Settled(reg.w1c, old(reg.value)))
    ensures pass <==> Extract(f, Settled(reg.w1c, old(reg.value))) == f.expected && Demanded(f, reg.rw, Settled(reg.w1c, old(reg.value)))
    ensures pass || f.attribute.ReadWrite? || f.attribute.StickyRw? ==> reg.value == Settled(reg.w1c, old(reg.value))
  {
    hide FieldOk, FieldBits, Extract, RegMask, RegShift, Settled, Written, NoneIn, Behaves, Demanded;
    var value := reg.value;
    WriteBack(reg.rw, reg.w1c, value);
    reg.Write(value);
    value := reg.value;
    BehavesIff(f, reg.rw, value);
    if Extract(f, value) != f.expected {
      return false;
    }
    pass := Probe(reg, f, value);
  }

  /** Probes the attribute of a field in a register that holds a settled value. */
  method Probe(reg: Register, f: Field, settled: Word) returns (pass: bool)
    requires reg.Valid() && FieldOk(f) && reg.value == settled && NoneIn(settled, reg.w1c)
    modifies reg
    ensures pass <==> Behaves(f, reg.rw, settled)
    ensures pass || f.attribute.ReadWrite? || f.attribute.StickyRw? ==> reg.value == settled
  {
    hide FieldOk, FieldBits, Extract, RegMask, RegShift, Settled, Written, Flip, Drop, Both, NoneIn, AllIn;
    var value, bits, overwrite := settled, FieldBits(f), 0;
    match f.attribute {
      case HwInit | ReadOnly | StickyRo =>
        Toggled(reg.rw, reg.w1c, value, bits);
        reg.Write(Flip(value, bits));
        overwrite := reg.value;
      case RsvdpRo =>
        Zeroed(reg.rw, reg.w1c, value, bits);
        reg.Write(value);
        overwrite := Extract(f, reg.value);
        value := 0;
      case RsvdzRo =>
        Zeroed(reg.rw, reg.w1c, value, bits);
        reg.Write(Drop(value, bits));
        overwrite := reg.value;
      case ReadWrite | StickyRw =>
        Toggled(reg.rw, reg.w1c, value, bits);
        overwrite := Flip(value, bits);
        var saved := value;
        reg.Write(overwrite);
        value := reg.value;
        reg.Write(saved);
      case Unknown =>
        return false;
    }
    return overwrite == value;
  }
}

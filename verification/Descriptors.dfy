/** The 64-bit descriptor words of a translation table with 4 KiB pages: how the
    builder composes them with `|` and `&`, and how they are taken apart again. */
module Descriptors {
  import opened Bits

  const PAGE_SIZE: nat := 0x1000
  const PAGE_MASK: nat := 0xFFFF_FFFF_FFFF_F000       // ~(page_size - 1), 64 bits wide
  const ENTRY_VALID: nat := 1
  const ENTRY_TABLE_OR_PAGE: nat := 2
  const ENTRY_TYPE_MASK: nat := 3
  const ATTRIBUTES_MASK: nat := 0xFFF0_0000_0000_0FFC // bits 63:52 and 11:2
  const WORDS: nat := 0x1_0000_0000_0000_0000

  function PageDescriptor(oa: nat, attr: nat): nat {
    Or(Or(Or(ENTRY_TABLE_OR_PAGE, ENTRY_VALID), And(oa, PAGE_MASK)), attr)
  }

  function BlockDescriptor(oa: nat, sizeLog2: nat, attr: nat): nat
    requires sizeLog2 <= 64
  {
    // ~(block_size - 1), 64 bits wide
    var blockMask := (Pow2(64 - sizeLog2) - 1) * Pow2(sizeLog2);
    Or(Or(ENTRY_VALID, And(oa, blockMask)), attr)
  }

  function TableDescriptor(page: nat): nat {
    Or(Or(ENTRY_TABLE_OR_PAGE, ENTRY_VALID), And(page, PAGE_MASK))
  }

  predicate IsBlock(word: nat) { And(word, ENTRY_TYPE_MASK) == 1 }

  predicate IsPage(word: nat) { And(word, ENTRY_TYPE_MASK) == 3 }

  function Attributes(word: nat): nat { And(word, ATTRIBUTES_MASK) }

  /** The address mask for `ias` bits of input address: bits [12, ias). */
  function AddressMask(ias: nat): nat
    requires 12 <= ias
  {
    (Pow2(ias - 12) - 1) * Pow2(12)
  }

  /** Attribute words a caller may pass: no bit outside the attribute fields. */
  predicate AttrOk(attr: nat) { attr < WORDS && Attributes(attr) == attr }

  /** A word with the fields: attributes 63:52, address 51:12, attributes 11:2, type 1:0. */
  function Compose(high: nat, frame: nat, low: nat, kind: nat): nat {
    high * 0x10_0000_0000_0000 + frame * 0x1000 + low * 4 + kind
  }

  predicate Fields(high: nat, frame: nat, low: nat, kind: nat) {
    high < 0x1000 && frame < 0x100_0000_0000 && low < 0x400 && kind < 4
  }

  lemma PowValues()
    ensures Pow2(2) == 4 && Pow2(9) == 512 && Pow2(10) == 0x400 && Pow2(12) == 0x1000
    ensures Pow2(40) == 0x100_0000_0000 && Pow2(52) == 0x10_0000_0000_0000
  {
    assert Pow2(10) == 0x400;
    PowAdd(10, 10); PowAdd(20, 20); PowAdd(40, 12);
  }

  lemma {:induction false} MaskLow(m: nat, l: nat, t: nat)
    requires Fields(0, m, l, t)
    ensures And(m * 0x1000 + (l * 4 + t), 0xFFC) == l * 4
  {
    hide And, Pow2;
    PowValues();
    AndSplit(2, l, t, 0x3FF, 0);
    AndZero(t);
    AndOnes(10, l);
    AndSplit(12, m, l * 4 + t, 0, 0xFFC);
    AndZero(m);
  }

  lemma {:induction false} MaskAttributes(h: nat, m: nat, l: nat, t: nat)
    requires Fields(h, m, l, t)
    ensures Attributes(Compose(h, m, l, t)) == Compose(h, 0, l, 0)
  {
    hide And, Pow2;
    PowValues();
    MaskLow(m, l, t);
    AndOnes(12, h);
    AndSplit(52, h, m * 0x1000 + (l * 4 + t), 0xFFF, 0xFFC);
    assert 0xFFF * Pow2(52) + 0xFFC == ATTRIBUTES_MASK;
  }

  lemma {:induction false} ComposeOr(h: nat, m: nat, l: nat, t: nat)
    requires Fields(h, m, l, t)
    ensures Or(Or(t, m * 0x1000), Compose(h, 0, l, 0)) == Compose(h, m, l, t)
  {
    hide Or, Pow2;
    PowValues();
    OrSplit(12, 0, t, m, 0);
    OrZero(m); OrZero(t);
    assert Or(t, m * 0x1000) == m * 0x1000 + t;
    OrSplit(52, 0, m * 0x1000 + t, h, l * 4);
    OrZero(h);
    OrSplit(12, m, t, 0, l * 4);
    OrSplit(2, 0, t, l, 0);
    OrZero(l);
  }

  lemma AttrParts(attr: nat) returns (h: nat, l: nat)
    requires AttrOk(attr)
    ensures Fields(h, 0, l, 0) && attr == Compose(h, 0, l, 0)
  {
    hide Attributes;
    var q, low := attr / 0x1000, attr % 0x1000;
    var m := q % 0x100_0000_0000;
    h, l := q / 0x100_0000_0000, low / 4;
    assert attr == Compose(h, m, l, low % 4);
    MaskAttributes(h, m, l, low % 4);
  }

  lemma KeepFrame(m: nat)
    requires m < 0x100_0000_0000
    ensures And(m * 0x1000, PAGE_MASK) == m * 0x1000
  {
    hide And, Pow2;
    PowValues();
    AndField(12, 52, m * 0x1000);
  }

  lemma KeepBlock(oa: nat, sizeLog2: nat)
    requires sizeLog2 <= 64 && oa < WORDS && oa % Pow2(sizeLog2) == 0
    ensures And(oa, (Pow2(64 - sizeLog2) - 1) * Pow2(sizeLog2)) == oa
  {
    hide And, Pow2;
    var q, r := DivParts(oa, Pow2(sizeLog2));
    AndField(sizeLog2, 64 - sizeLog2, oa);
    PowAdd(64 - sizeLog2, sizeLog2);
    PowValues();
    PowAdd(12, 12);
    PowAdd(24, 40);
    assert WORDS == Pow2(64);
    if q >= Pow2(64 - sizeLog2) {
      MulMono(Pow2(64 - sizeLog2), q, Pow2(sizeLog2));
    }
    assert q < Pow2(64 - sizeLog2);
    DivUnique(q, Pow2(64 - sizeLog2), 0, q);
  }

  lemma MulMono(a: nat, b: nat, c: nat)
    requires a <= b
    ensures a * c <= b * c
  {
  }

  /** A page descriptor carries exactly the address, the attributes and type 3. */
  lemma PageFields(frame: nat, attr: nat) returns (h: nat, l: nat)
    requires AttrOk(attr) && frame < 0x100_0000_0000
    ensures Fields(h, frame, l, 3) && attr == Compose(h, 0, l, 0)
    ensures PageDescriptor(frame * 0x1000, attr) == Compose(h, frame, l, 3)
  {
    h, l := AttrParts(attr);
    KeepFrame(frame);
    assert Or(ENTRY_TABLE_OR_PAGE, ENTRY_VALID) == 3;
    ComposeOr(h, frame, l, 3);
  }

  /** A block descriptor carries exactly the address, the attributes and type 1. */
  lemma BlockFields(frame: nat, sizeLog2: nat, attr: nat) returns (h: nat, l: nat)
    requires AttrOk(attr) && frame < 0x100_0000_0000
    requires sizeLog2 <= 64 && frame * 0x1000 % Pow2(sizeLog2) == 0
    ensures Fields(h, frame, l, 1) && attr == Compose(h, 0, l, 0)
    ensures BlockDescriptor(frame * 0x1000, sizeLog2, attr) == Compose(h, frame, l, 1)
  {
    h, l := AttrParts(attr);
    KeepBlock(frame * 0x1000, sizeLog2);
    ComposeOr(h, frame, l, 1);
  }

  lemma TableFields(frame: nat)
    requires frame < 0x100_0000_0000
    ensures TableDescriptor(frame * 0x1000) == Compose(0, frame, 0, 3)
  {
    KeepFrame(frame);
    assert Or(ENTRY_TABLE_OR_PAGE, ENTRY_VALID) == 3;
    PowValues();
    OrSplit(12, 0, 3, frame, 0);
    OrZero(frame);
    OrZero(3);
  }

  lemma KindOf(h: nat, m: nat, l: nat, t: nat)
    requires Fields(h, m, l, t)
    ensures And(Compose(h, m, l, t), ENTRY_TYPE_MASK) == t
  {
    hide And, Pow2, Compose;
    PowValues();
    AndLow(2, Compose(h, m, l, t));
    LowestField(h, m, l, t);
  }

  lemma LowestField(h: nat, m: nat, l: nat, t: nat)
    requires t < 4
    ensures Compose(h, m, l, t) % 4 == t
  {
    DivUnique(Compose(h, m, l, t), 4, h * 0x4_0000_0000_0000 + m * 0x400 + l, t);
  }

  /** Masking a table descriptor gives back the table's address. */
  lemma NextTable(frame: nat, ias: nat)
    requires 12 <= ias && frame < 0x100_0000_0000 && frame < Pow2(ias - 12)
    ensures And(TableDescriptor(frame * 0x1000), AddressMask(ias)) == frame * 0x1000
  {
    hide And, Pow2, TableDescriptor;
    TableFields(frame);
    PowValues();
    AndField(12, ias - 12, Compose(0, frame, 0, 3));
    assert Compose(0, frame, 0, 3) / Pow2(12) == frame;
    DivUnique(frame, Pow2(ias - 12), 0, frame);
  }
}

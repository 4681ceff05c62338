/** PCIe configuration space: 4 KiB for each function, reached through ECAM windows in flat
    memory. */
module PcieConfig {
  import opened Common

  const MAX_DEV: nat := 32
  const MAX_FUNC: nat := 8
  const ALL_ONES: nat := U32 - 1

  /** One ECAM window. */
  datatype Ecam = Ecam(base: nat, segment: nat, startBus: nat, endBus: nat)

  // ---- BDF words ----

  /** Segment, bus, device and function, eight bits each. */
  datatype Bdf = Bdf(seg: nat, bus: nat, dev: nat, func: nat)

  predicate Bytes(b: Bdf) { b.seg < 256 && b.bus < 256 && b.dev < 256 && b.func < 256 }

  function CreateBdf(b: Bdf): nat { b.seg % 256 * 0x100_0000 + b.bus % 256 * 0x1_0000 + b.dev % 256 * 0x100 + b.func }

  function ExtractBdf(w: nat): (b: Bdf)
    ensures b.seg < 256 && b.bus < 256 && b.dev < 256 && b.func < 256
  {
    Bdf(w / 0x100_0000 % 256, w / 0x1_0000 % 256, w / 0x100 % 256, w % 256)
  }

  /** The four bytes of a BDF word are, from the top, segment, bus, device and function; what does not fit
      a byte of the first three is cut off. */
  lemma BdfRoundTrip(b: Bdf)
    requires b.func < 256
    ensures ExtractBdf(CreateBdf(b)) == Bdf(b.seg % 256, b.bus % 256, b.dev % 256, b.func)
    ensures Bytes(b) ==> CreateBdf(b) == b.seg * 0x100_0000 + b.bus * 0x1_0000 + b.dev * 0x100 + b.func
  {
    var w, seg, bus, dev := CreateBdf(b), b.seg % 256, b.bus % 256, b.dev % 256;
    Quotient(w, 0x100_0000, seg, bus * 0x1_0000 + dev * 0x100 + b.func);
    Quotient(w, 0x1_0000, seg * 256 + bus, dev * 0x100 + b.func);
    Quotient(w, 0x100, (seg * 256 + bus) * 256 + dev, b.func);
    Remainder(seg, bus);
    Remainder(seg * 256 + bus, dev);
    Remainder((seg * 256 + bus) * 256 + dev, b.func);
  }

  lemma Quotient(w: nat, d: nat, q: nat, r: nat)
    requires d == 0x100_0000 || d == 0x1_0000 || d == 0x100
    requires w == q * d + r && r < d
    ensures w / d == q
  {
  }

  lemma Remainder(q: nat, r: nat)
    requires r < 256
    ensures (q * 256 + r) % 256 == r
  {
  }

  // ---- Addresses ----

  /** A function's register. */
  datatype Key = Key(bdf: Bdf, offset: nat)

  predicate KeyOk(k: Key) { Bytes(k.bdf) && k.bdf.dev < MAX_DEV && k.bdf.func < MAX_FUNC && k.offset < 4096 && k.offset % 4 == 0 }

  predicate Covers(e: Ecam, b: Bdf) { e.startBus <= b.bus <= e.endBus && e.segment == b.seg }

  /** The first ECAM that covers the function, or the number of ECAMs. */
  function FindEcam(ecams: seq<Ecam>, b: Bdf): (i: nat)
    ensures i <= |ecams|
    ensures i < |ecams| ==> Covers(ecams[i], b)
    ensures forall j :: 0 <= j < i ==> !Covers(ecams[j], b)
  {
    if ecams == [] then 0 else if Covers(ecams[0], b) then 0 else 1 + FindEcam(ecams[1..], b)
  }

  function CfgOffset(b: Bdf): nat { b.bus * 0x10_0000 + b.dev * 0x8000 + b.func * 0x1000 }

  /** The function can be reached. */
  predicate Mapped(ecams: seq<Ecam>, b: Bdf) {
    b.dev < MAX_DEV && b.func < MAX_FUNC && FindEcam(ecams, b) < |ecams| && ecams[FindEcam(ecams, b)].base != 0
  }

  function Address(ecams: seq<Ecam>, k: Key): nat
    requires Mapped(ecams, k.bdf)
  {
    ecams[FindEcam(ecams, k.bdf)].base + CfgOffset(k.bdf) + k.offset
  }

  /** The memory an ECAM takes up. */
  predicate InWindow(e: Ecam, a: nat) { e.base + e.startBus * 0x10_0000 <= a < e.base + (e.endBus + 1) * 0x10_0000 }

  ghost predicate Disjoint(ecams: seq<Ecam>) {
    forall i, j, a: nat :: 0 <= i < j < |ecams| ==> !(InWindow(ecams[i], a) && InWindow(ecams[j], a))
  }

  /** Words at these addresses share bytes. */
  predicate Near(a: nat, b: nat) { a < b + 4 && b < a + 4 }

  lemma OffsetUnique(a: Key, b: Key)
    requires KeyOk(a) && KeyOk(b) && a.bdf.seg == b.bdf.seg
    requires Near(CfgOffset(a.bdf) + a.offset, CfgOffset(b.bdf) + b.offset)
    ensures a == b
  {
    var p, q := a.offset / 4, b.offset / 4;
    assert a.offset == 4 * p && b.offset == 4 * q && p < 1024 && q < 1024;
    SamePlace(a.bdf.bus, a.bdf.dev, a.bdf.func, p, b.bdf.bus, b.bdf.dev, b.bdf.func, q);
  }

  lemma SamePlace(bus: nat, dev: nat, func: nat, p: nat, bus2: nat, dev2: nat, func2: nat, q: nat)
    requires dev < 32 && dev2 < 32 && func < 8 && func2 < 8 && p < 1024 && q < 1024
    requires Near(bus * 0x10_0000 + dev * 0x8000 + func * 0x1000 + 4 * p, bus2 * 0x10_0000 + dev2 * 0x8000 + func2 * 0x1000 + 4 * q)
    ensures bus == bus2 && dev == dev2 && func == func2 && p == q
  {
    assert bus == bus2;
    assert dev == dev2;
    assert func == func2;
  }

  lemma AddressInWindow(ecams: seq<Ecam>, k: Key)
    requires KeyOk(k) && Mapped(ecams, k.bdf)
    ensures forall a :: Address(ecams, k) <= a < Address(ecams, k) + 4 ==> InWindow(ecams[FindEcam(ecams, k.bdf)], a)
  {
  }

  /** The words of different registers share no byte. */
  lemma AddressUnique(ecams: seq<Ecam>, a: Key, b: Key)
    requires Disjoint(ecams) && KeyOk(a) && KeyOk(b) && Mapped(ecams, a.bdf) && Mapped(ecams, b.bdf)
    requires Near(Address(ecams, a), Address(ecams, b))
    ensures a == b
  {
    hide CfgOffset, InWindow;
    AddressInWindow(ecams, a);
    AddressInWindow(ecams, b);
    var i, j := FindEcam(ecams, a.bdf), FindEcam(ecams, b.bdf);
    var shared := if Address(ecams, a) < Address(ecams, b) then Address(ecams, b) else Address(ecams, a);
    assert InWindow(ecams[i], shared) && InWindow(ecams[j], shared);
    assert !(i < j) && !(j < i);
    OffsetUnique(a, b);
  }

  // ---- Where a function's space lies ----

  /** The fields of an address from a base on: bits 0 to 11 the offset, 12 to 14 the function,
      15 to 19 the device, and the bus from bit 20 on. */
  predicate Locates(base: nat, b: Bdf, offset: nat, a: nat) {
    && base <= a && (a - base) % 0x1000 == offset && (a - base) / 0x1000 % 8 == b.func
    && (a - base) / 0x8000 % 32 == b.dev && (a - base) / 0x10_0000 == b.bus
  }

  lemma OffsetFields(b: Bdf, offset: nat)
    requires b.dev < 32 && b.func < 8 && offset < 0x1000
    ensures var a := CfgOffset(b) + offset;
            a % 0x1000 == offset && a / 0x1000 % 8 == b.func && a / 0x8000 % 32 == b.dev && a / 0x10_0000 == b.bus
  {
    var a := CfgOffset(b) + offset;
    var page := b.bus * 256 + b.dev * 8 + b.func;
    assert a == page * 0x1000 + offset;
    assert a / 0x1000 == page;
    assert a / 0x8000 == b.bus * 32 + b.dev;
  }

  lemma OneLocated(base: nat, b: Bdf, offset: nat, a: nat)
    requires Locates(base, b, offset, a)
    ensures a == base + b.bus * 0x10_0000 + b.dev * 0x8000 + b.func * 0x1000 + offset
  {
    var d := a - base;
    var page := d / 0x1000;
    assert d == page * 0x1000 + d % 0x1000;
    assert d / 0x8000 == page / 8 && d / 0x10_0000 == page / 8 / 32;
    assert page == page / 8 * 8 + page % 8;
    assert page / 8 == page / 8 / 32 * 32 + page / 8 % 32;
  }

  /** A register lies at the one address whose fields name it. */
  lemma AddressFields(ecams: seq<Ecam>, k: Key, a: nat)
    requires k.offset < 0x1000 && Mapped(ecams, k.bdf)
    ensures Locates(ecams[FindEcam(ecams, k.bdf)].base, k.bdf, k.offset, a) <==> a == Address(ecams, k)
  {
    hide FindEcam;
    var base := ecams[FindEcam(ecams, k.bdf)].base;
    OffsetFields(k.bdf, k.offset);
    if Locates(base, k.bdf, k.offset, a) { OneLocated(base, k.bdf, k.offset, a); }
  }

  /** ECAM i is the first whose bus range holds the bus of the function, in its segment. */
  predicate FirstFor(ecams: seq<Ecam>, b: Bdf, i: nat) {
    && i < |ecams| && ecams[i].segment == b.seg && ecams[i].startBus <= b.bus <= ecams[i].endBus
    && forall j :: 0 <= j < i ==> ecams[j].segment != b.seg || b.bus < ecams[j].startBus || ecams[j].endBus < b.bus
  }

  /** The function exists, and the first ECAM for it has a base. */
  ghost predicate Reached(ecams: seq<Ecam>, b: Bdf) {
    b.dev < 32 && b.func < 8 && exists i: nat :: FirstFor(ecams, b, i) && ecams[i].base != 0
  }

  /** Address a names the register of the function through that ECAM. */
  ghost predicate Names(ecams: seq<Ecam>, b: Bdf, offset: nat, a: nat) {
    exists i: nat :: FirstFor(ecams, b, i) && Locates(ecams[i].base, b, offset, a)
  }

  lemma FirstIs(ecams: seq<Ecam>, b: Bdf, i: nat)
    requires FirstFor(ecams, b, i)
    ensures FindEcam(ecams, b) == i
  {
    assert Covers(ecams[i], b);
  }

  lemma MappedIff(ecams: seq<Ecam>, b: Bdf)
    ensures Mapped(ecams, b) <==> Reached(ecams, b)
    ensures FindEcam(ecams, b) < |ecams| ==> FirstFor(ecams, b, FindEcam(ecams, b))
  {
    var i := FindEcam(ecams, b);
    assert i < |ecams| ==> Covers(ecams[i], b);
    hide FindEcam;
    if Reached(ecams, b) {
      var j: nat :| FirstFor(ecams, b, j) && ecams[j].base != 0;
      FirstIs(ecams, b, j);
    }
  }

  /** Such an address is the one the register is kept at. */
  lemma NamesIff(ecams: seq<Ecam>, b: Bdf, offset: nat, a: nat)
    requires offset < 0x1000 && Mapped(ecams, b)
    ensures Names(ecams, b, offset, a) <==> a == Address(ecams, Key(b, offset))
  {
    hide FindEcam, Locates, Address;
    MappedIff(ecams, b);
    AddressFields(ecams, Key(b, offset), a);
    if Names(ecams, b, offset, a) {
      var j: nat :| FirstFor(ecams, b, j) && Locates(ecams[j].base, b, offset, a);
      FirstIs(ecams, b, j);
    }
  }

  datatype ReadResult = NoMapping | Data(word: nat)

  /** Words by address; what nothing has written reads as all ones. */
  type Memory = map<nat, nat>

  function ReadWord(mem: Memory, a: nat): nat { if a in mem then mem[a] else ALL_ONES }

  /** Configuration space over flat memory. */
  class ConfigSpace {
    const ecams: seq<Ecam>
    var mem: Memory

    constructor (ecams: seq<Ecam>, mem: Memory)
      ensures this.ecams == ecams && this.mem == mem
    {
      this.ecams, this.mem := ecams, mem;
    }

    /** The contents as a map from registers to words. */
    function At(k: Key): nat
      reads this
      requires Mapped(ecams, k.bdf)
    {
      ReadWord(mem, Address(ecams, k))
    }

    /** The index of the ECAM for a function. */
    method EcamIndex(b: Bdf) returns (i: nat)
      ensures i == FindEcam(ecams, b)
    {
      i := 0;
      assert ecams[0..] == ecams;
      while i < |ecams|
        invariant i <= |ecams| && FindEcam(ecams, b) == i + FindEcam(ecams[i..], b)
      {
        if Covers(ecams[i], b) {
          return;
        }
        assert ecams[i..][1..] == ecams[i + 1..];
        i := i + 1;
      }
    }

    /** Reads a register; anything not mapped is reported. */
    method ReadCfg(bdf: nat, offset: nat) returns (r: ReadResult)
      ensures var b := ExtractBdf(bdf);
              r == if Mapped(ecams, b) then Data(At(Key(b, offset))) else NoMapping
      ensures r == NoMapping <==> !Reached(ecams, ExtractBdf(bdf))
      ensures forall a: nat :: r.Data? && offset < 0x1000 && Names(ecams, ExtractBdf(bdf), offset, a) ==> r == Data(ReadWord(mem, a))
    {
      hide CfgOffset, ExtractBdf, FindEcam, Names, Reached;
      var b := ExtractBdf(bdf);
      MappedIff(ecams, b);
      if offset < 0x1000 && Mapped(ecams, b) {
        forall a: nat | Names(ecams, b, offset, a) ensures a == Address(ecams, Key(b, offset)) { NamesIff(ecams, b, offset, a); }
      }
      if b.dev >= MAX_DEV || b.func >= MAX_FUNC {
        return NoMapping;
      }
      var i := EcamIndex(b);
      var base := if i < |ecams| then ecams[i].base else 0;
      if base == 0 {
        return NoMapping;
      }
      r := Data(ReadWord(mem, base + CfgOffset(b) + offset));
    }

    /** Writes a register: that register holds the word, every other register of every function
        keeps its own, and a function that is not mapped changes nothing. */
    method WriteCfg(bdf: nat, offset: nat, data: nat)
      requires Disjoint(ecams) && offset < 4096 && offset % 4 == 0
      modifies this`mem
      ensures forall k :: KeyOk(k) && Mapped(ecams, k.bdf) ==> At(k) == if k == Key(ExtractBdf(bdf), offset) then data else old(At(k))
      ensures !Mapped(ecams, ExtractBdf(bdf)) ==> mem == old(mem)
      ensures !Reached(ecams, ExtractBdf(bdf)) ==> mem == old(mem)
      ensures forall a: nat :: Reached(ecams, ExtractBdf(bdf)) && Names(ecams, ExtractBdf(bdf), offset, a) ==> mem == old(mem)[a := data]
    {
      hide CfgOffset, ExtractBdf, Disjoint, FindEcam, Names, Reached;
      var b := ExtractBdf(bdf);
      MappedIff(ecams, b);
      if Mapped(ecams, b) {
        forall a: nat | Names(ecams, b, offset, a) ensures a == Address(ecams, Key(b, offset)) { NamesIff(ecams, b, offset, a); }
      }
      if b.dev >= MAX_DEV || b.func >= MAX_FUNC {
        return;
      }
      var i := EcamIndex(b);
      var base := if i < |ecams| then ecams[i].base else 0;
      if base == 0 {
        return;
      }
      mem := mem[base + CfgOffset(b) + offset := data];
      ghost var key := Key(b, offset);
      forall k | KeyOk(k) && Mapped(ecams, k.bdf) && k != key
        ensures Address(ecams, k) != Address(ecams, key)
      {
        if Address(ecams, k) == Address(ecams, key) { AddressUnique(ecams, k, key); }
      }
    }
  }
}

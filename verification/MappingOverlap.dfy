/** When two ID mappings overlap, and which blocks a table's overlaps mark. */
module MappingOverlap {
  import opened Common
  import opened IoVirt

  /** Last ID of a mapping's output range, in 32-bit arithmetic. */
  function LastId(m: IdMap): nat { (m.outputBase + m.idCount + (U32 - 1)) % U32 }

  /** The test applied to a key mapping and a later one. */
  predicate Overlaps(key: IdMap, m: IdMap) {
    var keyStart, keyEnd, start, end := key.outputBase, LastId(key), m.outputBase, LastId(m);
    && m.outputRef == key.outputRef
    && (|| (keyStart >= start && keyStart <= end)
        || (keyEnd >= start && keyEnd <= end)
        || (keyStart < start && keyEnd > end))
  }

  /** A mapping whose IDs do not wrap around. */
  predicate Plain(m: IdMap) { m.idCount >= 1 && m.outputBase + m.idCount <= U32 }

  predicate HasId(m: IdMap, id: nat) { m.outputBase <= id < m.outputBase + m.idCount }

  /** On mappings that do not wrap the test is exactly a common ID with a common target. */
  lemma OverlapIff(key: IdMap, m: IdMap)
    requires Plain(key) && Plain(m)
    ensures Overlaps(key, m) <==> m.outputRef == key.outputRef && exists id :: HasId(key, id) && HasId(m, id)
  {
    assert LastId(key) == key.outputBase + key.idCount - 1 && LastId(m) == m.outputBase + m.idCount - 1;
    if Overlaps(key, m) {
      var id := if key.outputBase < m.outputBase then m.outputBase else key.outputBase;
      assert HasId(key, id) && HasId(m, id);
    }
  }

  /** The end of a range in 32 bits: an empty range at 0 ends at the last ID, and a range beyond the last
      ID wraps around. */
  lemma LastIdIs(m: IdMap)
    requires m.outputBase < 0x1_0000_0000 && m.idCount < 0x1_0000_0000
    ensures var sum := m.outputBase + m.idCount;
            LastId(m) == if sum == 0 then 0xFFFF_FFFF else if sum <= 0x1_0000_0000 then sum - 1 else sum - 0x1_0000_0000 - 1
  {
  }

  // ---- Tables ----

  /** Some block lies at the offset, and it is an ITS group. */
  predicate IsItsAt(blocks: seq<Block>, offset: nat) {
    exists i :: 0 <= i < |blocks| && OffsetOf(blocks, i) == offset && blocks[i].data.ItsGroup?
  }

  predicate IsBlockAt(blocks: seq<Block>, offset: nat) {
    exists i :: 0 <= i < |blocks| && OffsetOf(blocks, i) == offset
  }

  /** Every ID mapping refers to a block of the table. */
  predicate RefsOk(blocks: seq<Block>) {
    forall b, q :: 0 <= b < |blocks| && !blocks[b].data.ItsGroup? && 0 <= q < |blocks[b].maps| ==>
      IsBlockAt(blocks, blocks[b].maps[q].outputRef)
  }

  predicate MapsOk(blocks: seq<Block>) {
    forall b :: 0 <= b < |blocks| && !blocks[b].data.ItsGroup? ==> |blocks[b].maps| == blocks[b].num
  }

  predicate TableOk(blocks: seq<Block>) { RefsOk(blocks) && MapsOk(blocks) }

  predicate IsMap(blocks: seq<Block>, b: nat, q: nat) {
    b < |blocks| && !blocks[b].data.ItsGroup? && q < |blocks[b].maps|
  }

  /** Mapping q of block b overlaps the later mapping q2 of block b2. */
  predicate Pair(blocks: seq<Block>, b: nat, q: nat, b2: nat, q2: nat) {
    && IsMap(blocks, b, q) && IsMap(blocks, b2, q2) && (b < b2 || (b == b2 && q < q2))
    && Overlaps(blocks[b].maps[q], blocks[b2].maps[q2])
  }

  predicate ToIts(blocks: seq<Block>, b: nat, q: nat)
    requires IsMap(blocks, b, q)
  {
    IsItsAt(blocks, blocks[b].maps[q].outputRef)
  }

  /** Key mapping q of block b marks block i by an overlap with a mapping of a block before n;
      dev says which of the two flags. */
  ghost predicate KeyMarks(blocks: seq<Block>, b: nat, q: nat, n: nat, dev: bool, i: nat) {
    exists b2: nat, q2: nat :: Pair(blocks, b, q, b2, q2) && b2 < n && ToIts(blocks, b, q) == dev && (i == b || i == b2)
  }

  /** The table's overlaps mark block i. */
  ghost predicate Marks(blocks: seq<Block>, dev: bool, i: nat) {
    exists b: nat, q: nat :: IsMap(blocks, b, q) && KeyMarks(blocks, b, q, |blocks|, dev, i)
  }

  // ---- Reading behind the last mapping ----

  function TypeOf(d: Data): nat {
    match d
    case ItsGroup(_) => 0
    case NamedComponent(_) => 1
    case RootComplex(_, _, _, _) => 2
    case Smmu(major, _) => if major == 2 then 3 else 4
    case Pmcg(_, _, _) => 5
  }

  /** Four bytes of a name, the first one lowest. */
  function NameWord(name: seq<nat>, i: nat): nat {
    if i + 4 > |name| then 0
    else name[i] % 256 + name[i + 1] % 256 * 0x100 + name[i + 2] % 256 * 0x1_0000 + name[i + 3] % 256 * 0x100_0000
  }

  /** The first two words of the data union. */
  function DataWords(d: Data): (nat, nat) {
    match d
    case ItsGroup(ids) => (|ids| % U32, 0)
    case NamedComponent(name) => (NameWord(name, 0), NameWord(name, 4))
    case RootComplex(segment, ats, _, _) => (segment % U32, ats % U32)
    case Smmu(major, _) => (major % U32, 0)
    case Pmcg(base, _, _) => (base % U32, base / U32 % U32)
  }

  /** The first 16 bytes of a block, taken for an ID mapping. */
  function HeaderMap(b: Block): IdMap { IdMap(TypeOf(b.data), b.num % U32, DataWords(b.data).0, DataWords(b.data).1) }

  /** What the header of each kind of block looks like as a mapping: its map count for the count, and for
      output base and reference the segment and the ATS attribute of a root complex, the two halves of a
      PMCG's base address, and the first eight letters of a name. */
  lemma HeaderIs(b: Block, m: IdMap)
    requires m == HeaderMap(b) && b.num < 0x1_0000_0000
    ensures m.idCount == b.num
    ensures b.data.RootComplex? && b.data.segment < 0x1_0000_0000 && b.data.ats < 0x1_0000_0000 ==>
              m.inputBase == 2 && m.outputBase == b.data.segment && m.outputRef == b.data.ats
    ensures b.data.Pmcg? && b.data.pmcgBase < 0x1_0000_0000_0000_0000 ==>
              m.inputBase == 5 && b.data.pmcgBase == m.outputRef * 0x1_0000_0000 + m.outputBase && m.outputBase < 0x1_0000_0000
    ensures b.data.NamedComponent? && |b.data.name| >= 8 && (forall i :: 0 <= i < 8 ==> b.data.name[i] < 256) ==>
              var n := b.data.name;
              && m.inputBase == 1 && m.outputBase == n[0] + 0x100 * n[1] + 0x1_0000 * n[2] + 0x100_0000 * n[3]
              && m.outputRef == n[4] + 0x100 * n[5] + 0x1_0000 * n[6] + 0x100_0000 * n[7]
    ensures b.data.ItsGroup? && |b.data.ids| < 0x1_0000_0000 ==> m == IdMap(0, b.num, |b.data.ids|, 0)
    ensures b.data.Smmu? && (b.data.major == 2 || b.data.major == 3) ==> m == IdMap(b.data.major + 1, b.num, b.data.major, 0)
  {
    hide NameWord;
    if b.data.NamedComponent? && |b.data.name| >= 8 && forall i :: 0 <= i < 8 ==> b.data.name[i] < 256 {
      NameWordIs(b.data.name, 0);
      NameWordIs(b.data.name, 4);
    }
  }

  lemma NameWordIs(name: seq<nat>, i: nat)
    requires i + 4 <= |name| && name[i] < 256 && name[i + 1] < 256 && name[i + 2] < 256 && name[i + 3] < 256
    ensures NameWord(name, i) == name[i] + 0x100 * name[i + 1] + 0x1_0000 * name[i + 2] + 0x100_0000 * name[i + 3]
  {
    var a, b, c, d := name[i], name[i + 1], name[i + 2], name[i + 3];
    assert a % 256 == a && b % 256 == b && c % 256 == c && d % 256 == d;
  }

  /** Mapping q, not the first of block b, overlaps what the next block's header looks like. */
  predicate StrayHit(blocks: seq<Block>, b: nat, q: nat)
    requires IsMap(blocks, b, q)
  {
    q >= 1 && b + 1 < |blocks| && Overlaps(blocks[b].maps[q], HeaderMap(blocks[b + 1]))
  }

  /** Only behind a named component, a root complex or a PMCG can that be. */
  lemma StrayKinds(blocks: seq<Block>, b: nat, q: nat)
    requires RefsOk(blocks) && IsMap(blocks, b, q) && StrayHit(blocks, b, q)
    ensures var d := blocks[b + 1].data; !d.ItsGroup? && !d.Smmu?
  {
    assert IsBlockAt(blocks, blocks[b].maps[q].outputRef);
  }

  // ---- Marking ----

  function MarkFlags(f: Flags, dev: bool, str: bool): Flags {
    f.(devIdOverlap := f.devIdOverlap || dev, strIdOverlap := f.strIdOverlap || str)
  }

  /** The table with the device-ID flag set on the blocks in dev and the stream-ID flag on
      those in str. */
  function Marked(blocks: seq<Block>, dev: set<nat>, str: set<nat>): (r: seq<Block>)
    ensures |r| == |blocks|
    ensures forall i :: 0 <= i < |blocks| ==> r[i] == blocks[i].(flags := MarkFlags(blocks[i].flags, i in dev, i in str))
  {
    seq(|blocks|, i requires 0 <= i < |blocks| => blocks[i].(flags := MarkFlags(blocks[i].flags, i in dev, i in str)))
  }

  lemma {:induction false} MarkedOffset(blocks: seq<Block>, dev: set<nat>, str: set<nat>, i: nat)
    requires i <= |blocks|
    ensures OffsetOf(Marked(blocks, dev, str), i) == OffsetOf(blocks, i)
  {
    if i > 0 { MarkedOffset(blocks, dev, str, i - 1); }
  }

  lemma MarkedNone(blocks: seq<Block>)
    ensures Marked(blocks, {}, {}) == blocks
  {
  }

  /** Setting one flag on block b in memory marks it. */
  lemma MarkLaid(mem: Memory, blocks: seq<Block>, dev: set<nat>, str: set<nat>, b: nat, isDev: bool)
    requires b < |blocks| && LaidOut(mem, Marked(blocks, dev, str))
    ensures OffsetOf(blocks, b) in mem
    ensures var o := OffsetOf(blocks, b);
            LaidOut(mem[o := mem[o].(flags := MarkFlags(mem[o].flags, isDev, !isDev))],
                    Marked(blocks, if isDev then dev + {b} else dev, if isDev then str else str + {b}))
  {
    hide OffsetOf, Marked;
    var o := OffsetOf(blocks, b);
    var before := Marked(blocks, dev, str);
    var after := Marked(blocks, if isDev then dev + {b} else dev, if isDev then str else str + {b});
    MarkedOffset(blocks, dev, str, b);
    var mem' := mem[o := mem[o].(flags := MarkFlags(mem[o].flags, isDev, !isDev))];
    forall i | 0 <= i < |after|
      ensures OffsetOf(after, i) in mem' && mem'[OffsetOf(after, i)] == after[i]
    {
      MarkedOffset(blocks, dev, str, i);
      MarkedOffset(blocks, if isDev then dev + {b} else dev, if isDev then str else str + {b}, i);
      if i != b && OffsetOf(blocks, i) == o { OffsetInjective(blocks, i, b); }
    }
  }

  /** What memory holds at the offset of a block, whatever is marked. */
  lemma MarkedAt(mem: Memory, blocks: seq<Block>, dev: set<nat>, str: set<nat>, i: nat)
    requires i < |blocks| && LaidOut(mem, Marked(blocks, dev, str))
    ensures OffsetOf(blocks, i) in mem
    ensures mem[OffsetOf(blocks, i)] == blocks[i].(flags := MarkFlags(blocks[i].flags, i in dev, i in str))
  {
    MarkedOffset(blocks, dev, str, i);
  }

  lemma TargetAt(mem: Memory, blocks: seq<Block>, dev: set<nat>, str: set<nat>, b: nat, q: nat)
    requires IsMap(blocks, b, q) && RefsOk(blocks) && LaidOut(mem, Marked(blocks, dev, str))
    ensures var o := blocks[b].maps[q].outputRef;
            o in mem && (mem[o].data.ItsGroup? <==> ToIts(blocks, b, q))
  {
    hide OffsetOf, Marked;
    var o := blocks[b].maps[q].outputRef;
    var i :| 0 <= i < |blocks| && OffsetOf(blocks, i) == o;
    MarkedAt(mem, blocks, dev, str, i);
    forall j | 0 <= j < |blocks| && OffsetOf(blocks, j) == o ensures j == i { OffsetInjective(blocks, i, j); }
  }
}

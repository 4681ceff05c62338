/** The packed table of I/O virtualisation blocks: variable-length blocks laid end to end
    after a 24-byte header, referring to each other by byte offset. */
module IoVirt {
  const TABLE_HEADER: nat := 24
  const BLOCK_HEADER: nat := 268
  const MAP_SIZE: nat := 16
  const NAME_LENGTH: nat := 256

  /** One ID mapping of a block; the output reference is the byte offset of a block. */
  datatype IdMap = IdMap(inputBase: nat, idCount: nat, outputBase: nat, outputRef: nat)

  datatype Data =
    | ItsGroup(ids: seq<nat>)
    | NamedComponent(name: seq<nat>)
    | RootComplex(segment: nat, ats: nat, cca: nat, smmuBase: nat)
    | Smmu(major: nat, base: nat)
    | Pmcg(pmcgBase: nat, gsiv: nat, nodeRef: nat)

  datatype Flags = Flags(devIdOverlap: bool, strIdOverlap: bool, ctxInt: bool)

  const NO_FLAGS := Flags(false, false, false)

  /** `num` is num_data_map, which fixes the block's length; an ITS group keeps its IDs in
      the map area, four to a map. */
  datatype Block = Block(num: nat, data: Data, flags: Flags, maps: seq<IdMap>)

  type Memory = map<nat, Block>

  function SizeOf(num: nat): nat { BLOCK_HEADER + num * MAP_SIZE }

  /** Offset of block i of a table, and of the end of the table when i is its length. */
  function OffsetOf(blocks: seq<Block>, i: nat): (r: nat)
    requires i <= |blocks|
    ensures r >= TABLE_HEADER
  {
    if i == 0 then TABLE_HEADER else OffsetOf(blocks, i - 1) + SizeOf(blocks[i - 1].num)
  }

  function End(blocks: seq<Block>): nat { OffsetOf(blocks, |blocks|) }

  /** Maps in the first i blocks. */
  function MapsBefore(blocks: seq<Block>, i: nat): nat
    requires i <= |blocks|
  {
    if i == 0 then 0 else MapsBefore(blocks, i - 1) + blocks[i - 1].num
  }

  /** A block starts behind the 24 bytes of the table header and, for every block before it, 268 bytes
      and 16 for each of its maps. */
  lemma {:induction false} LayoutExact(blocks: seq<Block>, i: nat)
    requires i <= |blocks|
    ensures OffsetOf(blocks, i) == 24 + 268 * i + 16 * MapsBefore(blocks, i)
  {
    if i > 0 { LayoutExact(blocks, i - 1); }
  }

  /** The blocks lie end to end in memory. */
  predicate LaidOut(mem: Memory, blocks: seq<Block>) {
    forall i :: 0 <= i < |blocks| ==> OffsetOf(blocks, i) in mem && mem[OffsetOf(blocks, i)] == blocks[i]
  }

  lemma OffsetStep(blocks: seq<Block>, i: nat)
    requires i < |blocks|
    ensures OffsetOf(blocks, i + 1) == OffsetOf(blocks, i) + SizeOf(blocks[i].num)
  {
  }

  lemma {:induction false} OffsetMono(blocks: seq<Block>, i: nat, j: nat)
    requires i < j <= |blocks|
    ensures OffsetOf(blocks, i) + SizeOf(blocks[i].num) <= OffsetOf(blocks, j)
    decreases j
  {
    if i < j - 1 { OffsetMono(blocks, i, j - 1); }
  }

  lemma {:induction false} OffsetPrefix(a: seq<Block>, b: seq<Block>, i: nat)
    requires i <= |a|
    ensures i <= |a + b| && OffsetOf(a + b, i) == OffsetOf(a, i)
  {
    if i > 0 {
      OffsetPrefix(a, b, i - 1);
      assert (a + b)[i - 1] == a[i - 1];
    }
  }

  lemma OffsetInjective(blocks: seq<Block>, i: nat, j: nat)
    requires i < |blocks| && j < |blocks| && OffsetOf(blocks, i) == OffsetOf(blocks, j)
    ensures i == j
  {
    if i < j { OffsetMono(blocks, i, j); } else if j < i { OffsetMono(blocks, j, i); }
  }

  /** Writing at or beyond the end of the table leaves it laid out. */
  lemma LaidOutBeyond(mem: Memory, mem': Memory, blocks: seq<Block>)
    requires LaidOut(mem, blocks)
    requires forall o :: o in mem && o < End(blocks) ==> o in mem' && mem'[o] == mem[o]
    ensures LaidOut(mem', blocks)
  {
    forall i | 0 <= i < |blocks| ensures OffsetOf(blocks, i) < End(blocks) {
      OffsetMono(blocks, i, |blocks|);
    }
  }

  lemma EndAppend(blocks: seq<Block>, b: Block)
    ensures End(blocks + [b]) == End(blocks) + SizeOf(b.num)
  {
    OffsetPrefix(blocks, [b], |blocks|);
  }

  /** A block written at the end extends the table. */
  lemma LaidOutAppend(mem: Memory, blocks: seq<Block>, b: Block)
    requires LaidOut(mem, blocks) && End(blocks) in mem && mem[End(blocks)] == b
    ensures LaidOut(mem, blocks + [b])
  {
    hide OffsetOf;
    var all := blocks + [b];
    forall i | 0 <= i < |all|
      ensures OffsetOf(all, i) in mem && mem[OffsetOf(all, i)] == all[i]
    {
      OffsetPrefix(blocks, [b], i);
    }
  }

  // ---- The bytes find_block compares ----

  /** Type, map count and type-specific data; for an ITS group also its ID array. */
  datatype Key = Key(num: nat, data: Data)

  function KeyOf(b: Block): Key { Key(b.num, b.data) }

  /** Index of the first block with a given key, or the number of blocks. */
  function FirstMatch(blocks: seq<Block>, key: Key): (r: nat)
    ensures r <= |blocks|
    ensures r < |blocks| ==> KeyOf(blocks[r]) == key
    ensures forall i :: 0 <= i < r ==> KeyOf(blocks[i]) != key
  {
    if blocks == [] then 0
    else
      var n := |blocks| - 1;
      var r := FirstMatch(blocks[..n], key);
      if r < n then r else if KeyOf(blocks[n]) == key then n else n + 1
  }

  lemma FirstMatchIs(blocks: seq<Block>, key: Key, r: nat)
    requires r <= |blocks| && (r < |blocks| ==> KeyOf(blocks[r]) == key)
    requires forall i :: 0 <= i < r ==> KeyOf(blocks[i]) != key
    ensures FirstMatch(blocks, key) == r
  {
    hide FirstMatch;
  }
}

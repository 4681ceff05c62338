/** Building the packed table from the nodes. The object is the table under construction:
    memory by byte offset, the block count and one counter per block type. */
module IoVirtBuild {
  import opened Common
  import opened IoVirt
  import opened Iort

  /** Blocks per type. */
  datatype Counts = Counts(its: nat, named: nat, rcs: nat, smmus: nat, pmcgs: nat)

  const ZERO_COUNTS := Counts(0, 0, 0, 0, 0)

  function Bump(c: Counts, d: Data): Counts {
    match d
    case ItsGroup(_) => c.(its := c.its + 1)
    case NamedComponent(_) => c.(named := c.named + 1)
    case RootComplex(_, _, _, _) => c.(rcs := c.rcs + 1)
    case Smmu(_, _) => c.(smmus := c.smmus + 1)
    case Pmcg(_, _, _) => c.(pmcgs := c.pmcgs + 1)
  }

  function CountsOf(blocks: seq<Block>): Counts {
    if blocks == [] then ZERO_COUNTS else Bump(CountsOf(blocks[..|blocks| - 1]), blocks[|blocks| - 1].data)
  }

  /** The per-type counters add up to the number of blocks. */
  lemma {:induction false} CountsTotal(blocks: seq<Block>)
    ensures var c := CountsOf(blocks); c.its + c.named + c.rcs + c.smmus + c.pmcgs == |blocks|
  {
    if blocks != [] { CountsTotal(blocks[..|blocks| - 1]); }
  }

  lemma CountsAppend(blocks: seq<Block>, b: Block)
    ensures CountsOf(blocks + [b]) == Bump(CountsOf(blocks), b.data)
  {
    var all := blocks + [b];
    assert all[..|all| - 1] == blocks;
  }

  /** Whether the low halves of all interrupt words differ. */
  method SmmuCtxIntDistinct(ints: seq<nat>) returns (distinct: bool)
    ensures distinct <==> CtxIntsDistinct(ints)
  {
    var i := 0;
    while i < |ints| - 1
      invariant 0 <= i && (|ints| > 0 ==> i <= |ints| - 1)
      invariant forall a, b :: 0 <= a < i && a < b < |ints| ==> ints[a] % U32 != ints[b] % U32
    {
      var j := i + 1;
      while j < |ints|
        invariant i < j <= |ints|
        invariant forall b :: i < b < j ==> ints[i] % U32 != ints[b] % U32
      {
        if ints[i] % U32 == ints[j] % U32 {
          return false;
        }
        j := j + 1;
      }
      i := i + 1;
    }
    return true;
  }

  lemma OffsetFirst(blocks: seq<Block>)
    ensures OffsetOf(blocks, 0) == TABLE_HEADER
  {
  }

  lemma SkipNode(nodes: seq<Node>, k: nat)
    requires k < |nodes| && !Kept(nodes, k)
    ensures Image(nodes, k + 1) == Image(nodes, k) && Off(nodes, k + 1) == Off(nodes, k)
  {
  }

  /** What the search key of a node is made of, and that references go back. */
  lemma NodeFacts(nodes: seq<Node>, n: nat, k: nat)
    requires WellFormed(nodes) && n <= k <= |nodes| && n < |nodes| && Valid(nodes[n])
    ensures KeyOfNode(nodes, n) ==
            Key(NumMaps(nodes[n]), FreshData(nodes[n], if nodes[n].body.PmcgBody? then RefOff(nodes, n, nodes[n].body.ref) else 0))
    ensures nodes[n].body.PmcgBody? ==>
              && nodes[n].body.ref < n && IsTarget(nodes[nodes[n].body.ref])
              && RefOff(nodes, n, nodes[n].body.ref) == Place(nodes, nodes[n].body.ref)
    ensures Off(nodes, k) == End(Image(nodes, k))
  {
  }

  lemma MapsStart(nodes: seq<Node>, k: nat)
    requires k < |nodes| && Valid(nodes[k])
    ensures FinalData(nodes, k, 0) == KeyOfNode(nodes, k).data && FinalMaps(nodes, k, 0) == []
    ensures !nodes[k].body.ItsBody? ==> NumMaps(nodes[k]) == |nodes[k].maps|
    ensures Off(nodes, k) == End(Image(nodes, k))
    ensures nodes[k].body.ItsBody? ==>
              BlockOf(nodes, k) == Block(NumMaps(nodes[k]), KeyOfNode(nodes, k).data, FlagsOf(nodes[k]), [])
  {
  }

  /** One more mapping of node k. */
  lemma MapFacts(nodes: seq<Node>, k: nat, i: nat)
    requires WellFormed(nodes) && k < |nodes| && Valid(nodes[k]) && !nodes[k].body.ItsBody? && i < |nodes[k].maps|
    ensures var m := nodes[k].maps[i];
            && m.ref < k && IsTarget(nodes[m.ref])
            && FinalMaps(nodes, k, i + 1) ==
               FinalMaps(nodes, k, i) + [IdMap(m.inputBase, m.idCount, m.outputBase, Place(nodes, m.ref))]
            && FinalData(nodes, k, i + 1) == DataAfterMap(FinalData(nodes, k, i), FreshData(nodes[m.ref], 0))
  {
  }

  /** At a placed target's offset lies its block. */
  lemma TargetFacts(mem: Memory, nodes: seq<Node>, k: nat, ref: nat)
    requires k <= |nodes| && ref < k && IsTarget(nodes[ref]) && LaidOut(mem, Image(nodes, k))
    ensures Place(nodes, ref) in mem && mem[Place(nodes, ref)].data == FreshData(nodes[ref], 0) && Place(nodes, ref) < Off(nodes, k)
  {
    hide Image, OffsetOf, BlockOf, FreshData, Place, Seat;
    TargetSeat(nodes, ref, k);
    TargetKey(nodes, ref);
    OffsetMono(Image(nodes, k), Seat(nodes, ref), |Image(nodes, k)|);
  }

  /** With its mappings the block is complete and extends the table. */
  lemma BlockDone(mem: Memory, nodes: seq<Node>, k: nat)
    requires k < |nodes| && Kept(nodes, k) && LaidOut(mem, Image(nodes, k)) && Off(nodes, k) in mem
    requires var n := if nodes[k].body.ItsBody? then 0 else |nodes[k].maps|;
             mem[Off(nodes, k)] == Block(NumMaps(nodes[k]), FinalData(nodes, k, n), FlagsOf(nodes[k]), FinalMaps(nodes, k, n))
    ensures LaidOut(mem, Image(nodes, k + 1)) && |Image(nodes, k + 1)| == |Image(nodes, k)| + 1
    ensures Off(nodes, k + 1) == Off(nodes, k) + SizeOf(NumMaps(nodes[k]))
    ensures CountsOf(Image(nodes, k + 1)) == Bump(CountsOf(Image(nodes, k)), mem[Off(nodes, k)].data)
  {
    hide OffsetOf, End, CountsOf, FinalData, FinalMaps, NumMaps, Bump, KeyOfNode;
    var b := mem[Off(nodes, k)];
    assert b == BlockOf(nodes, k) && Image(nodes, k + 1) == Image(nodes, k) + [b];
    LaidOutAppend(mem, Image(nodes, k), b);
    EndAppend(Image(nodes, k), b);
    CountsAppend(Image(nodes, k), b);
  }

  lemma NotKept(nodes: seq<Node>, k: nat)
    requires k < |nodes|
    ensures !Valid(nodes[k]) ==> !Kept(nodes, k)
    ensures Place(nodes, k) == if Valid(nodes[k]) then OffsetOf(Image(nodes, k), Seat(nodes, k)) else 0
  {
  }

  lemma SeatKept(nodes: seq<Node>, k: nat)
    requires k < |nodes| && Kept(nodes, k)
    ensures Valid(nodes[k]) && Seat(nodes, k) == |Image(nodes, k)| && Place(nodes, k) == Off(nodes, k)
  {
  }

  class IoVirtTable {
    var mem: Memory
    var numBlocks: nat
    var counts: Counts

    constructor ()
      ensures mem == map[] && numBlocks == 0 && counts == ZERO_COUNTS
    {
      mem, numBlocks, counts := map[], 0, ZERO_COUNTS;
    }

    /** The object holds a table of these blocks. */
    ghost predicate Holds(blocks: seq<Block>)
      reads this
    {
      LaidOut(mem, blocks) && numBlocks == |blocks| && counts == CountsOf(blocks)
    }

    /** Offset of the first block that looks like the key, or 0. */
    method FindBlock(key: Key, ghost blocks: seq<Block>) returns (offset: nat)
      requires Holds(blocks)
      ensures offset == if FirstMatch(blocks, key) < |blocks| then OffsetOf(blocks, FirstMatch(blocks, key)) else 0
      ensures offset == 0 <==> forall i :: 0 <= i < |blocks| ==> !(blocks[i].num == key.num && blocks[i].data == key.data)
      ensures offset != 0 ==>
                exists i :: 0 <= i < |blocks| && blocks[i].num == key.num && blocks[i].data == key.data && offset == OffsetOf(blocks, i)
                            && forall j :: 0 <= j < i ==> !(blocks[j].num == key.num && blocks[j].data == key.data)
    {
      hide OffsetOf, FirstMatch, SizeOf, CountsOf;
      OffsetFirst(blocks);
      var i, block := 0, TABLE_HEADER;
      while i < numBlocks
        invariant i <= numBlocks == |blocks| && block == OffsetOf(blocks, i)
        invariant forall p :: 0 <= p < i ==> KeyOf(blocks[p]) != key
      {
        if KeyOf(mem[block]) == key {
          FirstMatchIs(blocks, key, i);
          return block;
        }
        OffsetStep(blocks, i);
        block := block + SizeOf(mem[block].num);
        i := i + 1;
      }
      FirstMatchIs(blocks, key, |blocks|);
      return 0;
    }

    /** Adds the block of node n at offset `at` unless the table has one that looks alike; returns the
        offset of the block that stands for the node and where the next block goes. The first k nodes are in the table: n is the
        next one, or one of them that others refer to. */
    method {:induction false} AddBlock(nodes: seq<Node>, n: nat, at: nat, ghost k: nat) returns (offset: nat, next: nat)
      requires WellFormed(nodes) && k <= |nodes| && n < |nodes| && Holds(Image(nodes, k))
      requires if n < k then IsTarget(nodes[n]) && at >= Off(nodes, k) else n == k && at == Off(nodes, k)
      modifies this
      ensures forall o :: o in old(mem) && o < at ==> o in mem && mem[o] == old(mem)[o]
      ensures n < k ==> next == at && Holds(Image(nodes, k))
      ensures n == k ==> next == Off(nodes, k + 1) && Holds(Image(nodes, k + 1))
      ensures offset == if Valid(nodes[n]) then Place(nodes, n) else U32 - 1
      decreases n, 1
    {
      hide Image, Off, OffsetOf, End, FirstMatch, CountsOf, BlockOf, KeyOfNode, RefOff, FreshData, NumMaps,
           WellFormed, LaidOut, Seat, Place,
           Kept;
      NotKept(nodes, n);
      if nodes[n].body.InvalidBody? {
        SkipNode(nodes, k);
        return U32 - 1, at;
      }
      var num := NumMaps(nodes[n]);
      NodeFacts(nodes, n, k);
      mem := mem[at := Block(num, FreshData(nodes[n], 0), NO_FLAGS, [])];
      LaidOutBeyond(old(mem), mem, Image(nodes, k));
      if nodes[n].body.PmcgBody? {
        var ref, _ := AddBlock(nodes, nodes[n].body.ref, at + SizeOf(num), k);
        mem := mem[at := mem[at].(data := FreshData(nodes[n], ref))];
        LaidOutBeyond(old(mem), mem, Image(nodes, k));
      }
      assert mem[at] == Block(num, KeyOfNode(nodes, n).data, NO_FLAGS, []);
      SearchResult(nodes, n, k);
      offset := FindBlock(KeyOf(mem[at]), Image(nodes, k));
      if offset != 0 {
        if n == k { SkipNode(nodes, k); }
        return offset, at;
      }
      SeatKept(nodes, k);
      next := AddMaps(nodes, n, at);
      offset := at;
    }

    /** Completes the new block of node k at offset `at`, whose header is written: flags, ID
        mappings with the offsets of the blocks they refer to, and the counters. */
    method {:induction false} AddMaps(nodes: seq<Node>, k: nat, at: nat) returns (next: nat)
      requires WellFormed(nodes) && k < |nodes| && Kept(nodes, k) && Holds(Image(nodes, k)) && at == Off(nodes, k)
      requires at in mem && mem[at] == Block(NumMaps(nodes[k]), KeyOfNode(nodes, k).data, NO_FLAGS, [])
      modifies this
      ensures forall o :: o in old(mem) && o < at ==> o in mem && mem[o] == old(mem)[o]
      ensures next == Off(nodes, k + 1) && Holds(Image(nodes, k + 1))
      decreases k, 0
    {
      hide Image, Off, OffsetOf, End, FirstMatch, CountsOf, BlockOf, KeyOfNode, RefOff, FreshData, NumMaps, WellFormed, LaidOut,
           FinalData, FinalMaps, TargetData, DataAfterMap, Bump, Seat, Place, Kept;
      SeatKept(nodes, k);
      ghost var node := nodes[k];
      next := at + SizeOf(mem[at].num);
      if nodes[k].body.SmmuBody? {
        var distinct := SmmuCtxIntDistinct(nodes[k].body.ctxInts);
        if !distinct {
          mem := mem[at := mem[at].(flags := mem[at].flags.(ctxInt := true))];
        }
      }
      MapsStart(nodes, k);
      LaidOutBeyond(old(mem), mem, Image(nodes, k));
      if !nodes[k].body.ItsBody? {
        var i := 0;
        while i < mem[at].num
          invariant at in mem && i <= |node.maps| == NumMaps(node)
          invariant mem[at] == Block(NumMaps(node), FinalData(nodes, k, i), FlagsOf(node), FinalMaps(nodes, k, i))
          invariant Holds(Image(nodes, k)) && next == at + SizeOf(NumMaps(node))
          invariant forall o :: o in old(mem) && o < at ==> o in mem && mem[o] == old(mem)[o]
        {
          var map_ := nodes[k].maps[i];
          MapFacts(nodes, k, i);
          var offset;
          ghost var before := mem;
          offset, next := AddBlock(nodes, map_.ref, next, k);
          TargetFacts(mem, nodes, k, map_.ref);
          var block := mem[at];
          block := block.(maps := block.maps + [IdMap(map_.inputBase, map_.idCount, map_.outputBase, offset)]);
          block := block.(data := DataAfterMap(block.data, mem[offset].data));
          ghost var mid := mem;
          mem := mem[at := block];
          LaidOutBeyond(mid, mem, Image(nodes, k));
          i := i + 1;
        }
      }
      BlockDone(mem, nodes, k);
      numBlocks := numBlocks + 1;
      counts := Bump(counts, mem[at].data);
    }
  }
}

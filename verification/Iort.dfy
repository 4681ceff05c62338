/** ACPI IORT nodes and the packed table they flatten to. */
module Iort {
  import opened Common
  import opened IoVirt

  /** An ID mapping of a node; the output reference names a node (by its position here). */
  datatype NodeMap = NodeMap(inputBase: nat, idCount: nat, outputBase: nat, ref: nat)

  datatype Body =
    | ItsBody(ids: seq<nat>)
    | NamedBody(name: seq<nat>)
    | RcBody(segment: nat, ats: nat, memProps: nat)
    | SmmuBody(base: nat, ctxInts: seq<nat>)
    | SmmuV3Body(base: nat)
    | PmcgBody(pmcgBase: nat, gsiv: nat, ref: nat)
    | InvalidBody

  datatype Node = Node(body: Body, maps: seq<NodeMap>)

  // ---- What the block of a node holds ----

  predicate Valid(node: Node) { !node.body.InvalidBody? }

  predicate IsSmmu(node: Node) { node.body.SmmuBody? || node.body.SmmuV3Body? }

  /** Nodes that other nodes refer to. */
  predicate IsTarget(node: Node) { IsSmmu(node) || node.body.ItsBody? }

  function NumMaps(node: Node): nat {
    if node.body.ItsBody? then (|node.body.ids| + 3) / 4 else |node.maps|
  }

  /** A name copied into a zeroed buffer, at most 255 bytes and a terminator. */
  function CopiedName(name: seq<nat>): (r: seq<nat>)
    ensures |r| == NAME_LENGTH
  {
    var n := if |name| < NAME_LENGTH then name else name[..NAME_LENGTH - 1];
    n + seq(NAME_LENGTH - |n|, _ => 0)
  }

  /** Storing zero to the root complex's smmu_base: bytes 16 to 23 of the data union, which
      only in a name carry something else. */
  function ClearSmmuBase(d: Data): Data {
    match d
    case RootComplex(s, a, c, _) => RootComplex(s, a, c, 0)
    case NamedComponent(name) =>
      if |name| < 24 then d else NamedComponent(name[..16] + [0, 0, 0, 0, 0, 0, 0, 0] + name[24..])
    case _ => d
  }

  /** The data fields before any mapping is copied; refOffset stands for a PMCG's reference. */
  function FreshData(node: Node, refOffset: nat): Data
    requires Valid(node)
  {
    match node.body
    case ItsBody(ids) => ItsGroup(ids)
    case NamedBody(name) => NamedComponent(CopiedName(name))
    case RcBody(segment, ats, memProps) => RootComplex(segment, ats, memProps % U32, 0)
    case SmmuBody(base, _) => Smmu(2, base)
    case SmmuV3Body(base) => Smmu(3, base)
    case PmcgBody(base, gsiv, _) => Pmcg(base, gsiv, refOffset)
  }

  predicate CtxIntsDistinct(ints: seq<nat>) {
    forall i, j :: 0 <= i < j < |ints| ==> ints[i] % U32 != ints[j] % U32
  }

  function FlagsOf(node: Node): Flags {
    Flags(false, false, node.body.SmmuBody? && !CtxIntsDistinct(node.body.ctxInts))
  }

  /** The data fields after one mapping: the SMMU base of the mapping's target, for a root
      complex, and zero stored over those bytes for every other type. */
  function DataAfterMap(d: Data, target: Data): Data {
    var d' := ClearSmmuBase(d);
    if d'.RootComplex? && target.Smmu? then d'.(smmuBase := target.base) else d'
  }

  // ---- The flattened table ----

  /** The blocks of the first k nodes. */
  function Image(nodes: seq<Node>, k: nat): seq<Block>
    requires k <= |nodes|
    decreases k, 0
  {
    if k == 0 then [] else Image(nodes, k - 1) + BlocksOf(nodes, k - 1)
  }

  /** A node gets a block unless a block before it looks alike to the search for duplicates. */
  function BlocksOf(nodes: seq<Node>, k: nat): seq<Block>
    requires k < |nodes|
    decreases k, 5
  {
    if Kept(nodes, k) then [BlockOf(nodes, k)] else []
  }

  predicate Kept(nodes: seq<Node>, k: nat)
    requires k < |nodes|
    decreases k, 4
  {
    Valid(nodes[k]) && Seat(nodes, k) == |Image(nodes, k)|
  }

  /** The block that stands for node k: the first one that looks alike, or else its own. */
  function Seat(nodes: seq<Node>, k: nat): (r: nat)
    requires k < |nodes| && Valid(nodes[k])
    ensures r <= |Image(nodes, k)|
    decreases k, 3
  {
    FirstMatch(Image(nodes, k), KeyOfNode(nodes, k))
  }

  /** Offset of that block. */
  function Place(nodes: seq<Node>, k: nat): nat
    requires k < |nodes|
    decreases k, 4
  {
    if Valid(nodes[k]) then OffsetOf(Image(nodes, k), Seat(nodes, k)) else 0
  }

  /** Where the block of node k goes if it gets one: the end of the table so far. */
  function Off(nodes: seq<Node>, k: nat): (r: nat)
    requires k <= |nodes|
    ensures r >= TABLE_HEADER
    decreases k, 1
  {
    End(Image(nodes, k))
  }

  /** Offset of the block a reference from node k leads to. */
  function RefOff(nodes: seq<Node>, k: nat, ref: nat): nat
    requires k <= |nodes|
    decreases k, 1
  {
    if ref < k then Place(nodes, ref) else 0
  }

  function KeyOfNode(nodes: seq<Node>, k: nat): Key
    requires k < |nodes| && Valid(nodes[k])
    decreases k, 2
  {
    var node := nodes[k];
    Key(NumMaps(node), FreshData(node, if node.body.PmcgBody? then RefOff(nodes, k, node.body.ref) else 0))
  }

  function FinalData(nodes: seq<Node>, k: nat, i: nat): Data
    requires k < |nodes| && Valid(nodes[k]) && i <= |nodes[k].maps|
    decreases k, 3, i
  {
    if i == 0 then KeyOfNode(nodes, k).data
    else DataAfterMap(FinalData(nodes, k, i - 1), TargetData(nodes, k, nodes[k].maps[i - 1].ref))
  }

  /** Data of the block a mapping of node k refers to. */
  function TargetData(nodes: seq<Node>, k: nat, ref: nat): Data
    requires k < |nodes|
  {
    if ref < k && IsTarget(nodes[ref]) then FreshData(nodes[ref], 0) else ItsGroup([])
  }

  function FinalMaps(nodes: seq<Node>, k: nat, i: nat): (r: seq<IdMap>)
    requires k < |nodes| && i <= |nodes[k].maps|
    ensures |r| == i
    decreases k, 3, i
  {
    if i == 0 then []
    else
      var m := nodes[k].maps[i - 1];
      FinalMaps(nodes, k, i - 1) + [IdMap(m.inputBase, m.idCount, m.outputBase, RefOff(nodes, k, m.ref))]
  }

  /** The block of node k. */
  function BlockOf(nodes: seq<Node>, k: nat): Block
    requires k < |nodes| && Valid(nodes[k])
    decreases k, 4
  {
    var node := nodes[k];
    var n := if node.body.ItsBody? then 0 else |node.maps|;
    Block(NumMaps(node), FinalData(nodes, k, n), FlagsOf(node), FinalMaps(nodes, k, n))
  }

  /** References go to earlier nodes of the right kind. */
  predicate WellFormed(nodes: seq<Node>) {
    && (forall k, i :: 0 <= k < |nodes| && 0 <= i < |nodes[k].maps| && !nodes[k].body.ItsBody? ==>
          nodes[k].maps[i].ref < k && IsTarget(nodes[nodes[k].maps[i].ref]))
    && (forall k :: 0 <= k < |nodes| && nodes[k].body.PmcgBody? ==>
          nodes[k].body.ref < k && IsSmmu(nodes[nodes[k].body.ref]))
  }

  // ---- Facts about the image ----

  lemma {:induction false} ImagePrefix(nodes: seq<Node>, j: nat, k: nat)
    requires j <= k <= |nodes|
    ensures Image(nodes, j) <= Image(nodes, k)
    decreases k
  {
    if j < k { ImagePrefix(nodes, j, k - 1); }
  }

  /** The block of a kept node sits at the node's offset. */
  lemma {:induction false} PlacedAt(nodes: seq<Node>, j: nat, k: nat)
    requires j < k <= |nodes| && Kept(nodes, j)
    ensures var p := |Image(nodes, j)|;
            && p < |Image(nodes, k)| && Image(nodes, k)[p] == BlockOf(nodes, j)
            && OffsetOf(Image(nodes, k), p) == Off(nodes, j) == Place(nodes, j)
  {
    hide BlockOf, OffsetOf;
    ImagePrefix(nodes, j + 1, k);
    ImagePrefix(nodes, j, j + 1);
    var a, b := Image(nodes, j), Image(nodes, k);
    assert Image(nodes, j + 1) == a + [BlockOf(nodes, j)];
    assert b == a + b[|a|..];
    OffsetPrefix(a, b[|a|..], |a|);
  }

  /** Each block of the image is the block of some kept node. */
  lemma {:induction false} NodeOfBlock(nodes: seq<Node>, k: nat, p: nat) returns (j: nat)
    requires k <= |nodes| && p < |Image(nodes, k)|
    ensures j < k && Kept(nodes, j) && |Image(nodes, j)| == p && Image(nodes, k)[p] == BlockOf(nodes, j)
    decreases k
  {
    hide BlockOf;
    if p < |Image(nodes, k - 1)| {
      j := NodeOfBlock(nodes, k - 1, p);
    } else {
      j := k - 1;
    }
  }

  /** The block of a target is found under the key it is searched by. */
  lemma TargetKey(nodes: seq<Node>, k: nat)
    requires k < |nodes| && IsTarget(nodes[k])
    ensures KeyOf(BlockOf(nodes, k)) == KeyOfNode(nodes, k) && BlockOf(nodes, k).data == FreshData(nodes[k], 0)
  {
    var n := if nodes[k].body.ItsBody? then 0 else |nodes[k].maps|;
    TargetDataKept(nodes, k, n);
  }

  lemma {:induction false} TargetDataKept(nodes: seq<Node>, k: nat, i: nat)
    requires k < |nodes| && IsTarget(nodes[k]) && i <= |nodes[k].maps|
    ensures FinalData(nodes, k, i) == KeyOfNode(nodes, k).data
  {
    if i > 0 { TargetDataKept(nodes, k, i - 1); }
  }

  // ---- Names of named components ----

  /** Bytes 16 to 23 of a name buffer are zero. */
  predicate Bare(name: seq<nat>)
    requires |name| == NAME_LENGTH
  {
    forall i :: 16 <= i < 24 ==> name[i] == 0
  }

  lemma {:induction false} NamedData(nodes: seq<Node>, k: nat, i: nat)
    requires k < |nodes| && nodes[k].body.NamedBody? && i <= |nodes[k].maps|
    ensures var copied := NamedComponent(CopiedName(nodes[k].body.name));
            FinalData(nodes, k, i) == if i == 0 then copied else ClearSmmuBase(copied)
  {
    hide CopiedName;
    if i > 0 { NamedData(nodes, k, i - 1); }
  }

  /** A named component keeps its name if and only if it has no ID mapping or bytes 16 to 23 of
      the name are zero anyway. */
  lemma NameKeptIff(nodes: seq<Node>, k: nat)
    requires k < |nodes| && nodes[k].body.NamedBody?
    ensures var name := CopiedName(nodes[k].body.name);
            BlockOf(nodes, k).data == NamedComponent(name) <==> nodes[k].maps == [] || Bare(name)
  {
    hide CopiedName, FinalData;
    var name, n := CopiedName(nodes[k].body.name), |nodes[k].maps|;
    NamedData(nodes, k, n);
    if n > 0 {
      var cleared := name[..16] + [0, 0, 0, 0, 0, 0, 0, 0] + name[24..];
      if Bare(name) { assert cleared == name; }
      if cleared == name {
        forall i | 16 <= i < 24 ensures name[i] == 0 { assert cleared[i] == 0; }
      }
    }
  }

  /** One mapping and a name of 24 bytes: the stored name is another one. */
  lemma NameLost(its: nat, letter: nat)
    requires letter != 0
    ensures var name := seq(24, _ => letter);
            var nodes := [Node(ItsBody([its]), []), Node(NamedBody(name), [NodeMap(0, 1, 0, 0)])];
            WellFormed(nodes) && Kept(nodes, 1) && BlockOf(nodes, 1).data != NamedComponent(CopiedName(name))
  {
    var name := seq(24, _ => letter);
    var nodes := [Node(ItsBody([its]), []), Node(NamedBody(name), [NodeMap(0, 1, 0, 0)])];
    NameKeptIff(nodes, 1);
    assert CopiedName(name)[16] == letter;
    NamedData(nodes, 1, 1);
    TargetKey(nodes, 0);
  }

  /** A target is found at its place later on: its own block, or the one that looks alike. */
  lemma TargetSeat(nodes: seq<Node>, n: nat, k: nat)
    requires n < k <= |nodes| && IsTarget(nodes[n])
    ensures var all := Image(nodes, k);
            && Seat(nodes, n) < |all| && KeyOf(all[Seat(nodes, n)]) == KeyOfNode(nodes, n)
            && OffsetOf(all, Seat(nodes, n)) == Place(nodes, n) && FirstMatch(all, KeyOfNode(nodes, n)) == Seat(nodes, n)
  {
    hide BlockOf, OffsetOf, FirstMatch, KeyOfNode;
    ImagePrefix(nodes, n, k);
    var a, all, p := Image(nodes, n), Image(nodes, k), Seat(nodes, n);
    assert all == a + all[|a|..];
    OffsetPrefix(a, all[|a|..], p);
    SeatIs(nodes, n);
    if p == |a| {
      PlacedAt(nodes, n, k);
      TargetKey(nodes, n);
    }
    FirstMatchIs(all, KeyOfNode(nodes, n), p);
  }

  lemma SeatIs(nodes: seq<Node>, n: nat)
    requires n < |nodes| && Valid(nodes[n])
    ensures var a, key, p := Image(nodes, n), KeyOfNode(nodes, n), Seat(nodes, n);
            (p < |a| ==> KeyOf(a[p]) == key) && (forall i :: 0 <= i < p ==> KeyOf(a[i]) != key)
  {
  }

  /** Searching for a target that was placed finds its seat; searching for the next node finds nothing
      exactly when the node is kept. */
  lemma SearchResult(nodes: seq<Node>, n: nat, k: nat)
    requires k <= |nodes| && n <= k && n < |nodes| && Valid(nodes[n]) && (n < k ==> IsTarget(nodes[n]))
    ensures FirstMatch(Image(nodes, k), KeyOfNode(nodes, n)) == Seat(nodes, n)
    ensures OffsetOf(Image(nodes, k), Seat(nodes, n)) == Place(nodes, n)
    ensures Seat(nodes, n) < |Image(nodes, k)| <==> n < k || !Kept(nodes, n)
  {
    hide BlockOf, OffsetOf, FirstMatch, KeyOfNode, Image;
    if n < k { TargetSeat(nodes, n, k); }
  }
}

/** Building the table keeps the meaning of the IORT: the lookups on the packed table answer
    what following the nodes answers. */
module IoVirtNodes {
  import opened Common
  import opened IoVirt
  import opened Iort
  import opened IoVirtBuild
  import opened MappingOverlap
  import opened OverlapCheck
  import opened IoVirtLookup

  // ---- The lookups on the nodes themselves ----

  predicate InNodeMap(m: NodeMap, id: nat) { Maps(m.inputBase, m.idCount, id) }

  /** The first mapping that takes the ID; the reference is a node. */
  function NodeMapRoute(maps: seq<NodeMap>, id: nat): Option<Route> {
    if maps == [] then None
    else if InNodeMap(maps[0], id) then Some(Route(MapId(maps[0].inputBase, maps[0].outputBase, id), maps[0].ref))
    else NodeMapRoute(maps[1..], id)
  }

  predicate IsRcNode(node: Node, segment: nat) { node.body.RcBody? && node.body.segment == segment }

  /** Over the first k nodes, the last root complex of the segment with a mapping. */
  function NodeRoute(nodes: seq<Node>, k: nat, segment: nat, rid: nat): Option<Route>
    requires k <= |nodes|
  {
    if k == 0 then None
    else if Takes(nodes, k - 1, segment, rid) then NodeMapRoute(nodes[k - 1].maps, rid)
    else NodeRoute(nodes, k - 1, segment, rid)
  }

  // ---- The lookups over the nodes that got a block ----

  /** Over the first k nodes, the last root complex of the segment with a block and a mapping. */
  function KeptRoute(nodes: seq<Node>, k: nat, segment: nat, rid: nat): Option<Route>
    requires k <= |nodes|
  {
    if k == 0 then None
    else if Kept(nodes, k - 1) && Takes(nodes, k - 1, segment, rid) then NodeMapRoute(nodes[k - 1].maps, rid)
    else KeptRoute(nodes, k - 1, segment, rid)
  }

  /** Node j is a root complex of the segment with a mapping for the ID. */
  predicate Takes(nodes: seq<Node>, j: nat, segment: nat, rid: nat)
    requires j < |nodes|
  {
    IsRcNode(nodes[j], segment) && NodeMapRoute(nodes[j].maps, rid).Some?
  }

  /** The node whose block stands for a target. */
  ghost function StandIn(nodes: seq<Node>, ref: nat): (j: nat)
    requires ref < |nodes| && IsTarget(nodes[ref])
    ensures j <= ref && Kept(nodes, j) && |Image(nodes, j)| == Seat(nodes, ref)
  {
    if Kept(nodes, ref) then ref
    else
      HasStandIn(nodes, ref);
      var j: nat :| j < ref && Kept(nodes, j) && |Image(nodes, j)| == Seat(nodes, ref);
      j
  }

  lemma HasStandIn(nodes: seq<Node>, ref: nat)
    requires ref < |nodes| && IsTarget(nodes[ref]) && !Kept(nodes, ref)
    ensures exists j: nat :: j < ref && Kept(nodes, j) && |Image(nodes, j)| == Seat(nodes, ref)
  {
    var j := NodeOfBlock(nodes, ref, Seat(nodes, ref));
  }

  predicate ItsNonEmpty(nodes: seq<Node>) {
    forall k :: 0 <= k < |nodes| && nodes[k].body.ItsBody? ==> nodes[k].body.ids != []
  }

  function FirstItsOf(node: Node): nat { if node.body.ItsBody? && node.body.ids != [] then node.body.ids[0] else 0 }

  function SmmuBaseOf(node: Node): nat
    requires IsSmmu(node)
  {
    node.body.base
  }

  // ---- Routes lead to earlier targets ----

  lemma {:induction false} NodeMapRouteFrom(maps: seq<NodeMap>, id: nat) returns (q: nat)
    requires NodeMapRoute(maps, id).Some?
    ensures q < |maps| && NodeMapRoute(maps, id).value.ref == maps[q].ref
  {
    if InNodeMap(maps[0], id) {
      q := 0;
    } else {
      q := NodeMapRouteFrom(maps[1..], id);
      q := q + 1;
    }
  }

  lemma NodeMapRefs(nodes: seq<Node>, k: nat, id: nat)
    requires WellFormed(nodes) && k < |nodes| && !nodes[k].body.ItsBody?
    ensures NodeMapRoute(nodes[k].maps, id).Some? ==>
              NodeMapRoute(nodes[k].maps, id).value.ref < k && IsTarget(nodes[NodeMapRoute(nodes[k].maps, id).value.ref])
  {
    hide KeyOfNode, BlockOf;
    if NodeMapRoute(nodes[k].maps, id).Some? {
      var q := NodeMapRouteFrom(nodes[k].maps, id);
    }
  }

  lemma {:induction false} NodeRouteRefs(nodes: seq<Node>, k: nat, segment: nat, rid: nat)
    requires WellFormed(nodes) && k <= |nodes|
    ensures NodeRoute(nodes, k, segment, rid).Some? ==>
              NodeRoute(nodes, k, segment, rid).value.ref < k && IsTarget(nodes[NodeRoute(nodes, k, segment, rid).value.ref])
    ensures KeptRoute(nodes, k, segment, rid).Some? ==>
              KeptRoute(nodes, k, segment, rid).value.ref < k && IsTarget(nodes[KeptRoute(nodes, k, segment, rid).value.ref])
  {
    hide WellFormed, Kept, NodeMapRoute;
    if k > 0 {
      if IsRcNode(nodes[k - 1], segment) { NodeMapRefs(nodes, k - 1, rid); }
      NodeRouteRefs(nodes, k - 1, segment, rid);
    }
  }

  ghost function NodeDevice(nodes: seq<Node>, segment: nat, rid: nat): DeviceInfo
    requires WellFormed(nodes)
  {
    match NodeRoute(nodes, |nodes|, segment, rid)
    case None => NoDevice
    case Some(r) =>
      NodeRouteRefs(nodes, |nodes|, segment, rid);
      var node := nodes[r.ref];
      if node.body.ItsBody? then Device(r.id, ALL_ONES, FirstItsOf(node))
      else
        match NodeMapRoute(node.maps, r.id)
        case None => NoDevice
        case Some(s) =>
          NodeMapRefs(nodes, r.ref, r.id);
          Device(s.id, r.id, FirstItsOf(nodes[s.ref]))
  }

  ghost function NodeSmmuBase(nodes: seq<Node>, segment: nat, rid: nat): nat
    requires WellFormed(nodes)
  {
    match NodeRoute(nodes, |nodes|, segment, rid)
    case None => ALL_ONES
    case Some(r) =>
      NodeRouteRefs(nodes, |nodes|, segment, rid);
      var node := nodes[r.ref];
      if IsSmmu(node) && NodeMapRoute(node.maps, r.id).Some? then SmmuBaseOf(node) else 0
  }

  /** What a route leads to over the nodes that got a block: an ITS group, or the SMMU that stands
      for the one referred to. */
  ghost function KeptDevice(nodes: seq<Node>, segment: nat, rid: nat): DeviceInfo
    requires WellFormed(nodes)
  {
    match KeptRoute(nodes, |nodes|, segment, rid)
    case None => NoDevice
    case Some(r) =>
      NodeRouteRefs(nodes, |nodes|, segment, rid);
      var j := StandIn(nodes, r.ref);
      if nodes[r.ref].body.ItsBody? then Device(r.id, ALL_ONES, FirstItsOf(nodes[r.ref]))
      else
        StandInIs(nodes, r.ref);
        match NodeMapRoute(nodes[j].maps, r.id)
        case None => NoDevice
        case Some(s) =>
          NodeMapRefs(nodes, j, r.id);
          Device(s.id, r.id, FirstItsOf(nodes[s.ref]))
  }

  ghost function KeptSmmuBase(nodes: seq<Node>, segment: nat, rid: nat): nat
    requires WellFormed(nodes)
  {
    match KeptRoute(nodes, |nodes|, segment, rid)
    case None => ALL_ONES
    case Some(r) =>
      NodeRouteRefs(nodes, |nodes|, segment, rid);
      var node := nodes[r.ref];
      if IsSmmu(node) && NodeMapRoute(nodes[StandIn(nodes, r.ref)].maps, r.id).Some? then SmmuBaseOf(node) else 0
  }

  /** The node that stands for a target has the same data: the same ITS identifiers, or the same
      SMMU at the same base. Its mappings may differ. */
  lemma StandInIs(nodes: seq<Node>, ref: nat)
    requires ref < |nodes| && IsTarget(nodes[ref])
    ensures var j := StandIn(nodes, ref);
            && BlockOf(nodes, j).data == FreshData(nodes[ref], 0)
            && (nodes[j].body.ItsBody? <==> nodes[ref].body.ItsBody?)
  {
    hide FinalMaps, FinalData, Image, Off, OffsetOf;
    var j := StandIn(nodes, ref);
    TargetSeat(nodes, ref, ref + 1);
    PlacedAt(nodes, j, ref + 1);
    TargetKey(nodes, ref);
    DataKept(nodes, j, if nodes[j].body.ItsBody? then 0 else |nodes[j].maps|);
  }

  // ---- Blocks and nodes correspond ----

  /** A route over nodes, with the reference replaced by the offset of the node's block. */
  function Placed(nodes: seq<Node>, r: Option<Route>): Option<Route>
    requires r.Some? ==> r.value.ref < |nodes|
  {
    if r.None? then None else Some(Route(r.value.id, Place(nodes, r.value.ref)))
  }

  predicate SameMap(nodes: seq<Node>, m: IdMap, n: NodeMap)
    requires n.ref < |nodes|
  {
    m == IdMap(n.inputBase, n.idCount, n.outputBase, Place(nodes, n.ref))
  }

  lemma {:induction false} FinalMapsAt(nodes: seq<Node>, k: nat, n: nat, i: nat)
    requires WellFormed(nodes) && k < |nodes| && Valid(nodes[k]) && !nodes[k].body.ItsBody? && i < n <= |nodes[k].maps|
    ensures nodes[k].maps[i].ref < k && IsTarget(nodes[nodes[k].maps[i].ref])
    ensures SameMap(nodes, FinalMaps(nodes, k, n)[i], nodes[k].maps[i])
  {
    hide WellFormed, Place, FinalData, FinalMaps, DataAfterMap, FreshData;
    MapFacts(nodes, k, n - 1);
    if i < n - 1 { FinalMapsAt(nodes, k, n - 1, i); }
  }

  lemma {:induction false} SameRoute(nodes: seq<Node>, maps: seq<IdMap>, nodeMaps: seq<NodeMap>, id: nat)
    requires |maps| == |nodeMaps|
    requires forall i :: 0 <= i < |maps| ==> nodeMaps[i].ref < |nodes| && SameMap(nodes, maps[i], nodeMaps[i])
    ensures NodeMapRoute(nodeMaps, id).Some? ==> NodeMapRoute(nodeMaps, id).value.ref < |nodes|
    ensures MapRoute(maps, id) == Placed(nodes, NodeMapRoute(nodeMaps, id))
  {
    hide Place, Maps, MapId;
    if maps != [] && !InMap(maps[0], id) { SameRoute(nodes, maps[1..], nodeMaps[1..], id); }
  }

  /** The mappings of a node's block route as the node's own. */
  lemma BlockRoute(nodes: seq<Node>, k: nat, id: nat)
    requires WellFormed(nodes) && k < |nodes| && Valid(nodes[k]) && !nodes[k].body.ItsBody?
    ensures NodeMapRoute(nodes[k].maps, id).Some? ==> NodeMapRoute(nodes[k].maps, id).value.ref < k
    ensures MapRoute(BlockOf(nodes, k).maps, id) == Placed(nodes, NodeMapRoute(nodes[k].maps, id))
  {
    hide WellFormed, SameMap, FinalMaps, FinalData, MapRoute, NodeMapRoute, Placed, Place;
    var n := |nodes[k].maps|;
    var maps := FinalMaps(nodes, k, n);
    NodeMapRefs(nodes, k, id);
    forall i | 0 <= i < |maps| ensures nodes[k].maps[i].ref < |nodes| && SameMap(nodes, maps[i], nodes[k].maps[i]) {
      FinalMapsAt(nodes, k, n, i);
    }
    SameRoute(nodes, maps, nodes[k].maps, id);
  }

  lemma {:induction false} DataKept(nodes: seq<Node>, k: nat, i: nat)
    requires k < |nodes| && Valid(nodes[k]) && i <= |nodes[k].maps|
    ensures FinalData(nodes, k, i).RootComplex? <==> nodes[k].body.RcBody?
    ensures FinalData(nodes, k, i).ItsGroup? <==> nodes[k].body.ItsBody?
    ensures nodes[k].body.RcBody? ==> FinalData(nodes, k, i).segment == nodes[k].body.segment
  {
    if i > 0 { DataKept(nodes, k, i - 1); }
  }

  lemma RcRouteAppend(blocks: seq<Block>, b: Block, segment: nat, rid: nat)
    ensures RcRoute(blocks + [b], segment, rid) ==
            if IsRc(b, segment) && MapRoute(b.maps, rid).Some? then MapRoute(b.maps, rid) else RcRoute(blocks, segment, rid)
  {
    assert (blocks + [b])[..|blocks|] == blocks;
  }

  lemma {:induction false} FlatRoute(nodes: seq<Node>, k: nat, segment: nat, rid: nat)
    requires WellFormed(nodes) && k <= |nodes|
    ensures KeptRoute(nodes, k, segment, rid).Some? ==> KeptRoute(nodes, k, segment, rid).value.ref < k
    ensures RcRoute(Image(nodes, k), segment, rid) == Placed(nodes, KeptRoute(nodes, k, segment, rid))
  {
    hide WellFormed, MapRoute, NodeMapRoute, Place, Image, BlockOf, RcRoute, IsRc;
    NodeRouteRefs(nodes, k, segment, rid);
    if k == 0 {
      NoRoute(nodes, segment, rid);
    } else {
      FlatRoute(nodes, k - 1, segment, rid);
      if Kept(nodes, k - 1) {
        LastBlock(nodes, k, segment);
        RcRouteAppend(Image(nodes, k - 1), BlockOf(nodes, k - 1), segment, rid);
        if IsRcNode(nodes[k - 1], segment) { BlockRoute(nodes, k - 1, rid); }
      } else {
        SkipNode(nodes, k - 1);
      }
    }
  }

  lemma NoRoute(nodes: seq<Node>, segment: nat, rid: nat)
    ensures RcRoute(Image(nodes, 0), segment, rid) == None
  {
  }

  lemma LastBlock(nodes: seq<Node>, k: nat, segment: nat)
    requires 0 < k <= |nodes| && Kept(nodes, k - 1)
    ensures Image(nodes, k) == Image(nodes, k - 1) + [BlockOf(nodes, k - 1)]
    ensures IsRc(BlockOf(nodes, k - 1), segment) <==> IsRcNode(nodes[k - 1], segment)
  {
    hide FinalData, FinalMaps;
    DataKept(nodes, k - 1, if nodes[k - 1].body.ItsBody? then 0 else |nodes[k - 1].maps|);
  }

  /** At the place of a target lies the block that stands for it. */
  lemma TargetBlock(nodes: seq<Node>, ref: nat)
    requires ref < |nodes| && IsTarget(nodes[ref])
    ensures var all, j := Image(nodes, |nodes|), StandIn(nodes, ref);
            IsBlockAt(all, Place(nodes, ref)) && BlockAt(all, Place(nodes, ref)) == BlockOf(nodes, j)
    ensures BlockOf(nodes, StandIn(nodes, ref)).data == FreshData(nodes[ref], 0)
  {
    hide Image, BlockOf, OffsetOf, Off, FreshData, IsBlockAt, BlockAt, KeyOfNode, Seat, Place, Kept;
    var j := StandIn(nodes, ref);
    TargetSeat(nodes, ref, |nodes|);
    PlacedAt(nodes, j, |nodes|);
    StandInIs(nodes, ref);
    BlockAtIs(Image(nodes, |nodes|), |Image(nodes, j)|);
  }

  // ---- The table of an IORT ----

  lemma ImageRefs(nodes: seq<Node>, p: nat, q: nat)
    requires WellFormed(nodes)
    requires var all := Image(nodes, |nodes|); p < |all| && !all[p].data.ItsGroup? && q < |all[p].maps|
    ensures var all := Image(nodes, |nodes|); IsBlockAt(all, all[p].maps[q].outputRef)
  {
    hide WellFormed, FinalData, FinalMaps, Off, IsBlockAt, Image, FreshData;
    var j := NodeOfBlock(nodes, |nodes|, p);
    DataKept(nodes, j, if nodes[j].body.ItsBody? then 0 else |nodes[j].maps|);
    FinalMapsAt(nodes, j, |nodes[j].maps|, q);
    TargetBlock(nodes, nodes[j].maps[q].ref);
  }

  lemma ImageBlockOk(nodes: seq<Node>, p: nat)
    requires p < |Image(nodes, |nodes|)|
    ensures var b := Image(nodes, |nodes|)[p];
            && (!b.data.ItsGroup? ==> |b.maps| == b.num)
            && (b.data.ItsGroup? && ItsNonEmpty(nodes) ==> b.data.ids != [])
  {
    hide WellFormed, FinalData, FinalMaps, Off, IsBlockAt, Image;
    var j := NodeOfBlock(nodes, |nodes|, p);
    DataKept(nodes, j, if nodes[j].body.ItsBody? then 0 else |nodes[j].maps|);
    if nodes[j].body.ItsBody? { TargetKey(nodes, j); }
  }

  /** Every ID mapping of the table refers to a block, and with an ITS in every group the table can be
      looked up. */
  lemma ImageOk(nodes: seq<Node>)
    requires WellFormed(nodes)
    ensures TableOk(Image(nodes, |nodes|)) && (ItsNonEmpty(nodes) ==> LookupOk(Image(nodes, |nodes|)))
  {
    hide WellFormed, ItsNonEmpty, IsBlockAt, Image, OffsetOf;
    var all := Image(nodes, |nodes|);
    forall b, q | 0 <= b < |all| && !all[b].data.ItsGroup? && 0 <= q < |all[b].maps|
      ensures IsBlockAt(all, all[b].maps[q].outputRef)
    {
      ImageRefs(nodes, b, q);
    }
    forall b | 0 <= b < |all|
      ensures !all[b].data.ItsGroup? ==> |all[b].maps| == all[b].num
      ensures all[b].data.ItsGroup? && ItsNonEmpty(nodes) ==> all[b].data.ids != []
    {
      ImageBlockOk(nodes, b);
    }
  }

  // ---- Without look-alikes ----

  /** No node looks like a block before it. */
  predicate NoLookAlikes(nodes: seq<Node>) {
    forall k :: 0 <= k < |nodes| && Valid(nodes[k]) ==> Kept(nodes, k)
  }

  lemma {:induction false} AllPlaced(nodes: seq<Node>, k: nat)
    requires k <= |nodes| && NoLookAlikes(nodes) && forall i :: 0 <= i < |nodes| ==> Valid(nodes[i])
    ensures |Image(nodes, k)| == k
  {
    hide BlockOf, Kept;
    if k > 0 {
      AllPlaced(nodes, k - 1);
      assert Kept(nodes, k - 1);
    }
  }

  /** One block for every node, in order; each mapping keeps its IDs and refers to the offset
      of the block of the node it referred to; the type counters add up to the node count. */
  lemma OneBlockPerNode(nodes: seq<Node>, k: nat, i: nat)
    requires WellFormed(nodes) && NoLookAlikes(nodes) && forall j :: 0 <= j < |nodes| ==> Valid(nodes[j])
    requires k < |nodes| && !nodes[k].body.ItsBody? && i < |nodes[k].maps|
    ensures var all, m := Image(nodes, |nodes|), nodes[k].maps[i];
            && |all| == |nodes| && m.ref < k && i < |all[k].maps|
            && all[k].maps[i] == IdMap(m.inputBase, m.idCount, m.outputBase, OffsetOf(all, m.ref))
            && all[m.ref].data == FreshData(nodes[m.ref], 0)
    ensures var c := CountsOf(Image(nodes, |nodes|)); c.its + c.named + c.rcs + c.smmus + c.pmcgs == |nodes|
  {
    hide WellFormed, FinalData, FinalMaps, Off, Image, FreshData, OffsetOf, CountsOf, Kept, Place;
    AllPlaced(nodes, |nodes|);
    AllPlaced(nodes, k);
    CountsTotal(Image(nodes, |nodes|));
    FinalMapsAt(nodes, k, |nodes[k].maps|, i);
    var ref := nodes[k].maps[i].ref;
    AllPlaced(nodes, ref);
    PlacedAt(nodes, k, |nodes|);
    PlacedAt(nodes, ref, |nodes|);
    TargetKey(nodes, ref);
  }

  /** Looking up the packed table answers what following the nodes that got a block answers. */
  lemma FlatteningKeepsLookups(nodes: seq<Node>, segment: nat, rid: nat)
    requires WellFormed(nodes) && ItsNonEmpty(nodes)
    ensures LookupOk(Image(nodes, |nodes|))
    ensures TableDevice(Image(nodes, |nodes|), segment, rid) == KeptDevice(nodes, segment, rid)
    ensures TableSmmuBase(Image(nodes, |nodes|), segment, rid) == KeptSmmuBase(nodes, segment, rid)
  {
    hide WellFormed, ItsNonEmpty, Image, BlockOf, Off, Place, Seat, Kept, MapRoute, NodeMapRoute, RcRoute, KeptRoute,
         LookupOk, IsBlockAt,
         BlockAt;
    ImageOk(nodes);
    FlatRoute(nodes, |nodes|, segment, rid);
    NodeRouteRefs(nodes, |nodes|, segment, rid);
    var route := KeptRoute(nodes, |nodes|, segment, rid);
    if route.Some? {
      var r := route.value;
      TargetBlock(nodes, r.ref);
      if IsSmmu(nodes[r.ref]) {
        var j := StandIn(nodes, r.ref);
        StandInIs(nodes, r.ref);
        KeptValid(nodes, j);
        BlockRoute(nodes, j, r.id);
        NodeMapRefs(nodes, j, r.id);
        var found := NodeMapRoute(nodes[j].maps, r.id);
        if found.Some? { TargetBlock(nodes, found.value.ref); }
      }
    }
  }

  lemma KeptValid(nodes: seq<Node>, k: nat)
    requires k < |nodes| && Kept(nodes, k)
    ensures Valid(nodes[k])
  {
  }

  /** Where no node looks like another, that is what following the nodes answers. */
  lemma DistinctLookups(nodes: seq<Node>, segment: nat, rid: nat)
    requires WellFormed(nodes) && NoLookAlikes(nodes)
    ensures KeptDevice(nodes, segment, rid) == NodeDevice(nodes, segment, rid)
    ensures KeptSmmuBase(nodes, segment, rid) == NodeSmmuBase(nodes, segment, rid)
  {
    hide WellFormed, Image, Kept, Seat, NodeMapRoute, KeptRoute, NodeRoute;
    SameRoutes(nodes, |nodes|, segment, rid);
    NodeRouteRefs(nodes, |nodes|, segment, rid);
    var route := NodeRoute(nodes, |nodes|, segment, rid);
    if route.Some? { assert StandIn(nodes, route.value.ref) == route.value.ref; }
  }

  lemma {:induction false} SameRoutes(nodes: seq<Node>, k: nat, segment: nat, rid: nat)
    requires k <= |nodes| && NoLookAlikes(nodes)
    ensures KeptRoute(nodes, k, segment, rid) == NodeRoute(nodes, k, segment, rid)
  {
    hide Kept, NodeMapRoute;
    if k > 0 { SameRoutes(nodes, k - 1, segment, rid); }
  }

  // ---- With look-alikes ----

  /** Let root complex d decide the route of an ID: no later one of its segment takes it. If d got a
      block, the table has that route. If d was dropped for a look-alike, the table has the route it
      had before d, or none. */
  lemma {:induction false} DecidedRoute(nodes: seq<Node>, k: nat, d: nat, segment: nat, rid: nat)
    requires d < k <= |nodes| && Takes(nodes, d, segment, rid)
    requires forall j :: d < j < k ==> !Takes(nodes, j, segment, rid)
    ensures NodeRoute(nodes, k, segment, rid) == NodeMapRoute(nodes[d].maps, rid)
    ensures KeptRoute(nodes, k, segment, rid) ==
            if Kept(nodes, d) then NodeMapRoute(nodes[d].maps, rid) else KeptRoute(nodes, d, segment, rid)
    decreases k
  {
    hide Kept, NodeMapRoute, Takes;
    if d < k - 1 { DecidedRoute(nodes, k - 1, d, segment, rid); }
  }

  /** The table has no route for an ID if and only if every root complex that takes it was dropped. */
  lemma {:induction false} RouteLostIff(nodes: seq<Node>, k: nat, segment: nat, rid: nat)
    requires k <= |nodes|
    ensures KeptRoute(nodes, k, segment, rid) == None <==> forall j :: 0 <= j < k && Takes(nodes, j, segment, rid) ==> !Kept(nodes, j)
  {
    hide Kept, NodeMapRoute;
    if k > 0 { RouteLostIff(nodes, k - 1, segment, rid); }
  }

  /** An ITS group and two root complexes of one segment with one mapping each to the group. */
  function TwoRcs(its: nat, n: nat): seq<Node> {
    [Node(ItsBody([its]), []), Node(RcBody(0, 0, 0), [NodeMap(0, n, 0, 0)]), Node(RcBody(0, 0, 0), [NodeMap(n + 1, n, n + 1, 0)])]
  }

  /** The second root complex looks like the first, gets no block, and its requester IDs have no
      device. */
  lemma {:induction false} LookAlike(its: nat, n: nat)
    requires 0 < n < 0x1000
    ensures var nodes := TwoRcs(its, n);
            && WellFormed(nodes) && ItsNonEmpty(nodes) && !Kept(nodes, 2)
            && NodeDevice(nodes, 0, n + 1) == Device(n + 1, 0xFFFF_FFFF, its) && KeptDevice(nodes, 0, n + 1) == NoDevice
  {
    hide *;
    var nodes := TwoRcs(its, n);
    TwoRcsFacts(its, n);
    LooksLike(nodes);
    SecondTakes(its, n);
    LastDropped(nodes, 0, n + 1);
    NodeItsDevice(nodes, 0, n + 1);
  }

  /** When the only root complex that takes an ID is the last node and was dropped. */
  lemma LastDropped(nodes: seq<Node>, segment: nat, rid: nat)
    requires WellFormed(nodes) && nodes != []
    requires var d := |nodes| - 1;
             Takes(nodes, d, segment, rid) && !Kept(nodes, d) && forall j :: 0 <= j < d ==> !Takes(nodes, j, segment, rid)
    ensures KeptDevice(nodes, segment, rid) == NoDevice
    ensures NodeRoute(nodes, |nodes|, segment, rid) == NodeMapRoute(nodes[|nodes| - 1].maps, rid)
  {
    hide Kept, NodeMapRoute, KeptRoute, NodeRoute, Takes, WellFormed;
    var d := |nodes| - 1;
    DecidedRoute(nodes, |nodes|, d, segment, rid);
    RouteLostIff(nodes, d, segment, rid);
  }

  lemma NodeItsDevice(nodes: seq<Node>, segment: nat, rid: nat)
    requires WellFormed(nodes) && nodes != [] && nodes[0].body.ItsBody?
    requires NodeRoute(nodes, |nodes|, segment, rid) == Some(Route(rid, 0))
    ensures NodeDevice(nodes, segment, rid) == Device(rid, 0xFFFF_FFFF, FirstItsOf(nodes[0]))
  {
    hide NodeMapRoute, NodeRoute, WellFormed;
  }

  lemma TwoRcsFacts(its: nat, n: nat)
    ensures var nodes := TwoRcs(its, n);
            && WellFormed(nodes) && ItsNonEmpty(nodes) && |nodes| == 3 && nodes[0].body.ItsBody? && FirstItsOf(nodes[0]) == its
            && nodes[1].body == nodes[2].body == RcBody(0, 0, 0)
            && |nodes[1].maps| == 1 == |nodes[2].maps| && nodes[1].maps[0].ref == 0
  {
  }

  lemma SecondTakes(its: nat, n: nat)
    requires 0 < n < 0x1000
    ensures var nodes := TwoRcs(its, n);
            && |nodes| == 3 && !Takes(nodes, 0, 0, n + 1) && !Takes(nodes, 1, 0, n + 1) && Takes(nodes, 2, 0, n + 1)
            && NodeMapRoute(nodes[2].maps, n + 1) == Some(Route(n + 1, 0))
  {
    var nodes := TwoRcs(its, n);
    OneMap(nodes[1].maps[0], n + 1);
    OneMap(nodes[2].maps[0], n + 1);
    assert nodes[1].maps == [nodes[1].maps[0]] && nodes[2].maps == [nodes[2].maps[0]];
  }

  lemma OneMap(m: NodeMap, id: nat)
    requires m.inputBase + m.idCount < 0x1_0000 && m.outputBase == m.inputBase && id < 0x1_0000
    ensures NodeMapRoute([m], id) == if m.inputBase <= id <= m.inputBase + m.idCount then Some(Route(id, m.ref)) else None
  {
    assert NodeMapRoute([], id) == None;
  }

  /** A group and a root complex get blocks of their own. */
  lemma {:induction false} TwoBlocks(nodes: seq<Node>)
    requires |nodes| >= 2 && nodes[0].body.ItsBody? && nodes[1].body.RcBody?
    ensures Image(nodes, 2) == [BlockOf(nodes, 0), BlockOf(nodes, 1)]
  {
    hide FinalData, FinalMaps, FreshData, FirstMatch;
    var a := BlockOf(nodes, 0);
    FirstBlock(nodes);
    KeysDiffer(nodes);
    FirstMatchIs([a], KeyOfNode(nodes, 1), 1);
    NextBlock(nodes, 1);
  }

  lemma {:induction false} FirstBlock(nodes: seq<Node>)
    requires |nodes| >= 1 && Valid(nodes[0])
    ensures Image(nodes, 1) == [BlockOf(nodes, 0)]
  {
    hide FinalData, FinalMaps, FreshData;
    NextBlock(nodes, 0);
  }

  lemma NextBlock(nodes: seq<Node>, k: nat)
    requires k < |nodes| && Kept(nodes, k)
    ensures Image(nodes, k + 1) == Image(nodes, k) + [BlockOf(nodes, k)]
  {
  }

  lemma {:induction false} KeysDiffer(nodes: seq<Node>)
    requires |nodes| >= 2 && nodes[0].body.ItsBody? && nodes[1].body.RcBody?
    ensures KeyOf(BlockOf(nodes, 0)) != KeyOfNode(nodes, 1)
  {
    TargetKey(nodes, 0);
  }

  lemma {:induction false} LooksLike(nodes: seq<Node>)
    requires |nodes| == 3 && nodes[0].body.ItsBody? && nodes[1].body == nodes[2].body == RcBody(0, 0, 0)
    requires |nodes[1].maps| == 1 == |nodes[2].maps| && nodes[1].maps[0].ref == 0
    ensures !Kept(nodes, 2)
  {
    hide FinalMaps;
    TwoBlocks(nodes);
    assert FinalData(nodes, 1, 0) == RootComplex(0, 0, 0, 0);
    assert FinalData(nodes, 1, 1) == RootComplex(0, 0, 0, 0);
    assert KeyOf(Image(nodes, 2)[1]) == KeyOfNode(nodes, 2);
  }

  // ---- Overlap flags do not matter to the lookups ----

  lemma {:induction false} MarkedRoute(blocks: seq<Block>, dev: set<nat>, str: set<nat>, k: nat, segment: nat, rid: nat)
    requires k <= |blocks|
    ensures RcRoute(Marked(blocks, dev, str)[..k], segment, rid) == RcRoute(blocks[..k], segment, rid)
  {
    hide Marked, MapRoute;
    if k > 0 {
      MarkedRoute(blocks, dev, str, k - 1, segment, rid);
      assert blocks[..k][..k - 1] == blocks[..k - 1];
      assert Marked(blocks, dev, str)[..k][..k - 1] == Marked(blocks, dev, str)[..k - 1];
    }
  }

  lemma MarkedBlockAt(blocks: seq<Block>, dev: set<nat>, str: set<nat>, o: nat)
    ensures IsBlockAt(Marked(blocks, dev, str), o) <==> IsBlockAt(blocks, o)
    ensures IsBlockAt(blocks, o) ==>
              var a, b := BlockAt(Marked(blocks, dev, str), o), BlockAt(blocks, o);
              a.data == b.data && a.maps == b.maps
  {
    hide OffsetOf, Marked, BlockAt;
    var marked := Marked(blocks, dev, str);
    forall i | 0 <= i < |blocks| ensures OffsetOf(marked, i) == OffsetOf(blocks, i) { MarkedOffset(blocks, dev, str, i); }
    if IsBlockAt(blocks, o) {
      var i :| 0 <= i < |blocks| && OffsetOf(blocks, i) == o;
      assert OffsetOf(marked, i) == o;
      BlockAtIs(blocks, i);
      BlockAtIs(marked, i);
    }
    if IsBlockAt(marked, o) {
      var i :| 0 <= i < |marked| && OffsetOf(marked, i) == o;
      assert OffsetOf(blocks, i) == o;
    }
  }

  lemma MarkedOk(blocks: seq<Block>, dev: set<nat>, str: set<nat>)
    requires LookupOk(blocks)
    ensures LookupOk(Marked(blocks, dev, str))
  {
    hide OffsetOf, Marked, IsBlockAt;
    var marked := Marked(blocks, dev, str);
    forall b, q | 0 <= b < |marked| && !marked[b].data.ItsGroup? && 0 <= q < |marked[b].maps|
      ensures IsBlockAt(marked, marked[b].maps[q].outputRef)
    {
      assert IsBlockAt(blocks, blocks[b].maps[q].outputRef);
      MarkedBlockAt(blocks, dev, str, blocks[b].maps[q].outputRef);
    }
  }

  lemma MarkedLookups(blocks: seq<Block>, dev: set<nat>, str: set<nat>, segment: nat, rid: nat)
    requires LookupOk(blocks)
    ensures LookupOk(Marked(blocks, dev, str))
    ensures TableDevice(Marked(blocks, dev, str), segment, rid) == TableDevice(blocks, segment, rid)
    ensures TableSmmuBase(Marked(blocks, dev, str), segment, rid) == TableSmmuBase(blocks, segment, rid)
  {
    hide OffsetOf, Marked, IsBlockAt, BlockAt, RcRoute, MapRoute, TableOk;
    MarkedOk(blocks, dev, str);
    var marked := Marked(blocks, dev, str);
    MarkedRoute(blocks, dev, str, |blocks|, segment, rid);
    assert marked[..|blocks|] == marked && blocks[..|blocks|] == blocks;
    var route := RcRoute(blocks, segment, rid);
    if route.Some? {
      RouteRefs(blocks, segment, rid);
      MarkedBlockAt(blocks, dev, str, route.value.ref);
      AtRouteRefs(blocks, route.value.ref, route.value.id);
      var found := MapRoute(BlockAt(blocks, route.value.ref).maps, route.value.id);
      if found.Some? { MarkedBlockAt(blocks, dev, str, found.value.ref); }
    }
  }

  // ---- Building the whole table ----

  /** Adds every node and marks overlaps. The table holds one block for each node that has no
      look-alike before it, in order and without gaps. */
  method CreateInfoTable(nodes: seq<Node>)
    returns (t: IoVirtTable, ghost dev: set<nat>, ghost str: set<nat>, ghost sd: set<nat>, ghost ss: set<nat>)
    requires WellFormed(nodes)
    ensures fresh(t) && HoldsMarked(t, Image(nodes, |nodes|), dev, str) && t.counts == CountsOf(Image(nodes, |nodes|))
    ensures StraysOk(Image(nodes, |nodes|), sd, true) && StraysOk(Image(nodes, |nodes|), ss, false)
    ensures forall i: nat :: i in dev <==> i in sd || Marks(Image(nodes, |nodes|), true, i)
    ensures forall i: nat :: i in str <==> i in ss || Marks(Image(nodes, |nodes|), false, i)
    ensures var all := Image(nodes, |nodes|);
            forall i: nat :: i < |all| ==>
              Carries(t.mem, OffsetOf(all, i), all[i], i in sd || Marks(all, true, i), i in ss || Marks(all, false, i))
  {
    hide Carries, WellFormed, Off, OffsetOf, CountsOf, LaidOut, LookupOk, Marks, ItsNonEmpty, TableOk, Place;
    t := new IoVirtTable();
    EmptyTable(nodes);
    hide Image;
    var i, next := 0, TABLE_HEADER;
    while i < |nodes|
      invariant i <= |nodes| && fresh(t) && next == Off(nodes, i) && t.Holds(Image(nodes, i))
    {
      var offset;
      offset, next := t.AddBlock(nodes, i, next, i);
      i := i + 1;
    }
    ImageOk(nodes);
    dev, str, sd, ss := CheckMappingOverlap(t, Image(nodes, |nodes|));
  }

  lemma EmptyTable(nodes: seq<Node>)
    ensures Image(nodes, 0) == [] && Off(nodes, 0) == TABLE_HEADER && LaidOut(map[], []) && CountsOf([]) == ZERO_COUNTS
  {
  }

  /** From IORT to answers: build the table, then look a requester ID up in it. */
  method BuildThenLookUp(nodes: seq<Node>, segment: nat, rid: nat) returns (device: DeviceInfo, base: nat)
    requires WellFormed(nodes) && ItsNonEmpty(nodes)
    ensures device == KeptDevice(nodes, segment, rid) && base == KeptSmmuBase(nodes, segment, rid)
    ensures NoLookAlikes(nodes) ==> device == NodeDevice(nodes, segment, rid) && base == NodeSmmuBase(nodes, segment, rid)
  {
    hide WellFormed, Image, OffsetOf, LaidOut, TableOk, Marks, ItsNonEmpty, TableDevice, TableSmmuBase, NodeDevice, NodeSmmuBase,
         KeptDevice, KeptSmmuBase, CountsOf, NoLookAlikes;
    var t;
    ghost var dev, str, sd, ss;
    t, dev, str, sd, ss := CreateInfoTable(nodes);
    ghost var all := Image(nodes, |nodes|);
    FlatteningKeepsLookups(nodes, segment, rid);
    if NoLookAlikes(nodes) { DistinctLookups(nodes, segment, rid); }
    MarkedLookups(all, dev, str, segment, rid);
    device := GetDeviceInfo(t, rid, segment, Marked(all, dev, str));
    base := GetRcSmmuBase(t, segment, rid, Marked(all, dev, str));
  }
}

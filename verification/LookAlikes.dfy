/** What the block of a node holds, written out, and which nodes get no block because they look like
    an earlier one. */
module LookAlikes {
  import opened Common
  import opened IoVirt
  import opened Iort
  import opened IoVirtBuild
  import opened IoVirtLookup
  import opened IoVirtNodes

  // ---- What is stored for a node ----

  /** Base of the SMMU that the last mapping of node k leads to; 0 where it leads to none. */
  function LastSmmu(nodes: seq<Node>, k: nat): nat
    requires k < |nodes|
  {
    SmmuBehind(nodes, nodes[k].maps)
  }

  function SmmuBehind(nodes: seq<Node>, maps: seq<NodeMap>): nat {
    if maps == [] then 0
    else
      var ref := maps[|maps| - 1].ref;
      if ref < |nodes| && nodes[ref].body.SmmuBody? then nodes[ref].body.base
      else if ref < |nodes| && nodes[ref].body.SmmuV3Body? then nodes[ref].body.base
      else 0
  }

  /** Byte i of a name in its buffer of 256 bytes. */
  function NameByte(name: seq<nat>, i: nat): nat { if i < 255 && i < |name| then name[i] else 0 }

  /** The same once the mappings are copied: they clear bytes 16 to 23. */
  function StoredByte(name: seq<nat>, mapped: bool, i: nat): nat { if mapped && 16 <= i < 24 then 0 else NameByte(name, i) }

  /** What the data of node k's block says. */
  predicate Stores(nodes: seq<Node>, k: nat, d: Data)
    requires k < |nodes|
  {
    match nodes[k].body
    case ItsBody(ids) => d == ItsGroup(ids)
    case NamedBody(name) =>
      && d.NamedComponent? && |d.name| == 256
      && forall i :: 0 <= i < 256 ==> d.name[i] == StoredByte(name, nodes[k].maps != [], i)
    case RcBody(segment, ats, properties) => d == RootComplex(segment, ats, properties % 0x1_0000_0000, LastSmmu(nodes, k))
    case SmmuBody(base, _) => d == Smmu(2, base)
    case SmmuV3Body(base) => d == Smmu(3, base)
    case PmcgBody(base, gsiv, ref) => ref < |nodes| && d == Pmcg(base, gsiv, Place(nodes, ref))
    case InvalidBody => false
  }

  /** The block of a node: its map count, data, mappings in order with the places of their targets,
      and the one flag for interrupts of an SMMUv2 whose low words are not all distinct. */
  lemma BlockContents(nodes: seq<Node>, k: nat)
    requires WellFormed(nodes) && k < |nodes| && Valid(nodes[k])
    ensures var b, node := BlockOf(nodes, k), nodes[k];
            && Stores(nodes, k, b.data)
            && b.num == (if node.body.ItsBody? then (|node.body.ids| + 3) / 4 else |node.maps|)
            && !b.flags.devIdOverlap && !b.flags.strIdOverlap
            && (b.flags.ctxInt <==>
                  node.body.SmmuBody? &&
                  exists i, j :: 0 <= i < j < |node.body.ctxInts|
                      && node.body.ctxInts[i] % 0x1_0000_0000 == node.body.ctxInts[j] % 0x1_0000_0000)
            && |b.maps| == (if node.body.ItsBody? then 0 else |node.maps|)
            && forall i :: 0 <= i < |b.maps| ==>
                 var m := node.maps[i];
                 m.ref < |nodes| && b.maps[i] == IdMap(m.inputBase, m.idCount, m.outputBase, Place(nodes, m.ref))
  {
    hide FinalData, FinalMaps, WellFormed, Place, Stores;
    StoredData(nodes, k);
    var n := if nodes[k].body.ItsBody? then 0 else |nodes[k].maps|;
    forall i | 0 <= i < n
      ensures nodes[k].maps[i].ref < |nodes| && SameMap(nodes, FinalMaps(nodes, k, n)[i], nodes[k].maps[i])
    {
      FinalMapsAt(nodes, k, n, i);
    }
  }

  lemma StoredData(nodes: seq<Node>, k: nat)
    requires WellFormed(nodes) && k < |nodes| && Valid(nodes[k])
    ensures Stores(nodes, k, BlockOf(nodes, k).data)
  {
    hide FinalData, FinalMaps, WellFormed, Place, CopiedName, Image;
    var node, n := nodes[k], |nodes[k].maps|;
    match node.body
    case ItsBody(_) => TargetKey(nodes, k);
    case NamedBody(name) =>
      NamedData(nodes, k, n);
      NameStored(name, n > 0);
    case RcBody(_, _, _) =>
      RcData(nodes, k, n);
      assert node.maps[..n] == node.maps;
    case SmmuBody(_, _) => TargetKey(nodes, k);
    case SmmuV3Body(_) => TargetKey(nodes, k);
    case PmcgBody(_, _, _) => PmcgData(nodes, k, n);
  }

  lemma NameStored(name: seq<nat>, mapped: bool)
    ensures var d := if mapped then ClearSmmuBase(NamedComponent(CopiedName(name))) else NamedComponent(CopiedName(name));
            && d.NamedComponent? && |d.name| == 256
            && forall i :: 0 <= i < 256 ==> d.name[i] == StoredByte(name, mapped, i)
  {
  }

  lemma {:induction false} RcData(nodes: seq<Node>, k: nat, i: nat)
    requires WellFormed(nodes) && k < |nodes| && nodes[k].body.RcBody? && i <= |nodes[k].maps|
    ensures var b := nodes[k].body;
            FinalData(nodes, k, i) == RootComplex(b.segment, b.ats, b.memProps % 0x1_0000_0000, SmmuBehind(nodes, nodes[k].maps[..i]))
  {
    hide WellFormed, FinalMaps, Place;
    if i > 0 {
      RcData(nodes, k, i - 1);
      MapFacts(nodes, k, i - 1);
      assert nodes[k].maps[..i][i - 1] == nodes[k].maps[i - 1];
    } else {
      MapsStart(nodes, k);
      assert nodes[k].maps[..0] == [];
    }
  }

  lemma {:induction false} PmcgData(nodes: seq<Node>, k: nat, i: nat)
    requires WellFormed(nodes) && k < |nodes| && nodes[k].body.PmcgBody? && i <= |nodes[k].maps|
    ensures var b := nodes[k].body; b.ref < k && FinalData(nodes, k, i) == Pmcg(b.pmcgBase, b.gsiv, Place(nodes, b.ref))
  {
    hide FinalMaps, Place, FinalData, WellFormed;
    NodeFacts(nodes, k, k);
    if i > 0 {
      PmcgData(nodes, k, i - 1);
      MapFacts(nodes, k, i - 1);
    } else {
      MapsStart(nodes, k);
    }
  }

  // ---- Look-alikes ----

  /** Two SMMUs of one kind, base and map count. */
  predicate SameSmmu(a: Node, b: Node) {
    && |a.maps| == |b.maps|
    && ((a.body.SmmuBody? && b.body.SmmuBody? && a.body.base == b.body.base)
        || (a.body.SmmuV3Body? && b.body.SmmuV3Body? && a.body.base == b.body.base))
  }

  /** What is stored for node j is what a block for node k starts from: the same kind, the same map count
      and the same fields. A root complex behind an SMMU with a base looks like no other. */
  predicate Alike(nodes: seq<Node>, j: nat, k: nat)
    requires j < |nodes| && k < |nodes|
  {
    var a, b := nodes[j], nodes[k];
    match b.body
    case ItsBody(ids) => a.body.ItsBody? && a.body.ids == ids
    case NamedBody(name) =>
      && a.body.NamedBody? && |a.maps| == |b.maps|
      && forall i :: 0 <= i < 256 ==> StoredByte(a.body.name, a.maps != [], i) == NameByte(name, i)
    case RcBody(segment, ats, properties) =>
      && a.body.RcBody? && |a.maps| == |b.maps| && a.body.segment == segment && a.body.ats == ats
      && a.body.memProps % 0x1_0000_0000 == properties % 0x1_0000_0000 && LastSmmu(nodes, j) == 0
    case SmmuBody(_, _) => SameSmmu(a, b)
    case SmmuV3Body(_) => SameSmmu(a, b)
    case PmcgBody(base, gsiv, ref) =>
      && a.body.PmcgBody? && |a.maps| == |b.maps| && a.body.pmcgBase == base && a.body.gsiv == gsiv
      && a.body.ref < |nodes| && ref < |nodes| && SameSmmu(nodes[a.body.ref], nodes[ref])
    case InvalidBody => false
  }

  /** SMMUs share a place exactly when they look alike. */
  lemma SamePlace(nodes: seq<Node>, a: nat, b: nat)
    requires a < |nodes| && b < |nodes| && IsSmmu(nodes[a]) && IsSmmu(nodes[b])
    ensures Place(nodes, a) == Place(nodes, b) <==> SameSmmu(nodes[a], nodes[b])
  {
    hide Image, OffsetOf, Place, Seat, BlockOf, FirstMatch;
    var n := |nodes|;
    TargetSeat(nodes, a, n);
    TargetSeat(nodes, b, n);
    if Place(nodes, a) == Place(nodes, b) { OffsetInjective(Image(nodes, n), Seat(nodes, a), Seat(nodes, b)); }
  }

  lemma PmcgRefs(nodes: seq<Node>, k: nat)
    requires WellFormed(nodes) && k < |nodes| && nodes[k].body.PmcgBody?
    ensures nodes[k].body.ref < k && IsSmmu(nodes[nodes[k].body.ref])
    ensures KeyOfNode(nodes, k) == Key(|nodes[k].maps|,
            Pmcg(nodes[k].body.pmcgBase, nodes[k].body.gsiv, Place(nodes, nodes[k].body.ref)))
  {
    hide Place;
  }

  /** The bytes compared are equal exactly for look-alikes. */
  lemma AlikeIff(nodes: seq<Node>, j: nat, k: nat)
    requires WellFormed(nodes) && j < |nodes| && k < |nodes| && Valid(nodes[j]) && Valid(nodes[k])
    ensures BlockOf(nodes, j).num == KeyOfNode(nodes, k).num && BlockOf(nodes, j).data == KeyOfNode(nodes, k).data <==>
            Alike(nodes, j, k)
  {
    hide BlockOf, WellFormed, Place, CopiedName, LastSmmu, SameSmmu;
    BlockContents(nodes, j);
    var b := nodes[k].body;
    match b
    case ItsBody(_) =>
    case NamedBody(name) =>
      if nodes[j].body.NamedBody? { SameName(BlockOf(nodes, j).data, nodes[j].body.name, nodes[j].maps != [], name); }
    case RcBody(_, _, _) =>
    case SmmuBody(_, _) => SmmuAlike(nodes, j, k);
    case SmmuV3Body(_) => SmmuAlike(nodes, j, k);
    case PmcgBody(_, _, _) => PmcgAlike(nodes, j, k);
  }

  lemma SameName(d: Data, stored: seq<nat>, mapped: bool, name: seq<nat>)
    requires d.NamedComponent? && |d.name| == 256 && forall i :: 0 <= i < 256 ==> d.name[i] == StoredByte(stored, mapped, i)
    ensures d == NamedComponent(CopiedName(name)) <==> forall i :: 0 <= i < 256 ==> StoredByte(stored, mapped, i) == NameByte(name, i)
  {
    hide CopiedName, StoredByte, NameByte;
    var copied := CopiedName(name);
    assert forall i :: 0 <= i < 256 ==> copied[i] == NameByte(name, i) by { CopiedBytes(name); }
    if forall i :: 0 <= i < 256 ==> StoredByte(stored, mapped, i) == NameByte(name, i) { assert d.name == copied; }
  }

  lemma CopiedBytes(name: seq<nat>)
    ensures |CopiedName(name)| == 256 && forall i :: 0 <= i < 256 ==> CopiedName(name)[i] == NameByte(name, i)
  {
  }

  lemma SmmuAlike(nodes: seq<Node>, j: nat, k: nat)
    requires j < |nodes| && k < |nodes| && IsSmmu(nodes[k]) && Valid(nodes[j]) && Stores(nodes, j, BlockOf(nodes, j).data)
    requires BlockOf(nodes, j).num == (if nodes[j].body.ItsBody? then (|nodes[j].body.ids| + 3) / 4 else |nodes[j].maps|)
    ensures BlockOf(nodes, j).num == KeyOfNode(nodes, k).num && BlockOf(nodes, j).data == KeyOfNode(nodes, k).data <==>
            Alike(nodes, j, k)
  {
    hide BlockOf, Place, LastSmmu;
  }

  lemma PmcgAlike(nodes: seq<Node>, j: nat, k: nat)
    requires WellFormed(nodes) && j < |nodes| && k < |nodes| && nodes[k].body.PmcgBody? && Valid(nodes[j])
             && Stores(nodes, j, BlockOf(nodes, j).data)
    requires BlockOf(nodes, j).num == (if nodes[j].body.ItsBody? then (|nodes[j].body.ids| + 3) / 4 else |nodes[j].maps|)
    ensures BlockOf(nodes, j).num == KeyOfNode(nodes, k).num && BlockOf(nodes, j).data == KeyOfNode(nodes, k).data <==>
            Alike(nodes, j, k)
  {
    hide BlockOf, Place, LastSmmu, WellFormed, KeyOfNode, SameSmmu;
    PmcgRefs(nodes, k);
    if nodes[j].body.PmcgBody? {
      PmcgRefs(nodes, j);
      SamePlace(nodes, nodes[j].body.ref, nodes[k].body.ref);
    }
  }

  /** A look-alike of another node that was itself dropped stores what it started from. */
  lemma DroppedKeepsFields(nodes: seq<Node>, i: nat, j: nat, k: nat)
    requires i < |nodes| && j < |nodes| && k < |nodes| && Alike(nodes, i, j) && Alike(nodes, j, k)
    ensures Alike(nodes, i, k)
  {
    hide NameByte;
    if nodes[k].body.NamedBody? {
      forall n | 0 <= n < 256 ensures StoredByte(nodes[i].body.name, nodes[i].maps != [], n) == NameByte(nodes[k].body.name, n) {
      }
    }
  }

  /** A node gets a block if and only if no node before it looks alike. */
  lemma {:induction false} KeptIff(nodes: seq<Node>, k: nat)
    requires WellFormed(nodes) && k < |nodes|
    ensures Kept(nodes, k) <==> Valid(nodes[k]) && forall j :: 0 <= j < k ==> !Alike(nodes, j, k)
    decreases k, 0
  {
    hide Image, WellFormed, Alike, BlockOf, KeyOfNode, OffsetOf;
    if Valid(nodes[k]) {
      SeatIs(nodes, k);
      if !Kept(nodes, k) {
        var j := NodeOfBlock(nodes, k, Seat(nodes, k));
        AlikeIff(nodes, j, k);
      }
      forall j | 0 <= j < k && Alike(nodes, j, k) ensures !Kept(nodes, k) {
        AlikeValid(nodes, j, k);
        var i := FirstAlike(nodes, j, k);
        PlacedAt(nodes, i, k);
        AlikeIff(nodes, i, k);
      }
    }
  }

  lemma AlikeValid(nodes: seq<Node>, j: nat, k: nat)
    requires j < |nodes| && k < |nodes| && Alike(nodes, j, k)
    ensures Valid(nodes[j]) && Valid(nodes[k])
  {
  }

  /** Among the look-alikes of a node there is one that was kept. */
  lemma {:induction false} FirstAlike(nodes: seq<Node>, j: nat, k: nat) returns (i: nat)
    requires WellFormed(nodes) && j < k < |nodes| && Alike(nodes, j, k)
    ensures i <= j && Kept(nodes, i) && Alike(nodes, i, k)
    decreases j, 1
  {
    hide Image, WellFormed, Alike, Kept;
    AlikeValid(nodes, j, k);
    KeptIff(nodes, j);
    if Kept(nodes, j) {
      i := j;
    } else {
      var h :| 0 <= h < j && Alike(nodes, h, j);
      DroppedKeepsFields(nodes, h, j, k);
      i := FirstAlike(nodes, h, k);
    }
  }

  /** The place of a target is where the block lies of the node itself or of one that looks alike. */
  lemma ReferenceLeads(nodes: seq<Node>, ref: nat) returns (j: nat)
    requires WellFormed(nodes) && ref < |nodes| && IsTarget(nodes[ref])
    ensures j <= ref && Kept(nodes, j) && (j == ref || Alike(nodes, j, ref))
    ensures var all, p := Image(nodes, |nodes|), |Image(nodes, j)|;
            p < |all| && all[p] == BlockOf(nodes, j) && Place(nodes, ref) == OffsetOf(all, p)
  {
    hide Image, WellFormed, Alike, BlockOf, KeyOfNode, OffsetOf, Place, Kept;
    j := StandIn(nodes, ref);
    TargetSeat(nodes, ref, |nodes|);
    PlacedAt(nodes, j, |nodes|);
    KeptValid(nodes, j);
    if j != ref { AlikeIff(nodes, j, ref); }
  }

  /** The lookups are those of the nodes themselves where no two of them look alike. */
  lemma DistinctIff(nodes: seq<Node>)
    requires WellFormed(nodes)
    ensures NoLookAlikes(nodes) <==> forall j, k :: 0 <= j < k < |nodes| ==> !Alike(nodes, j, k)
  {
    hide WellFormed, Alike, Kept;
    forall k | 0 <= k < |nodes| ensures Kept(nodes, k) <==> Valid(nodes[k]) && forall j :: 0 <= j < k ==> !Alike(nodes, j, k) {
      KeptIff(nodes, k);
    }
    forall j, k | 0 <= j < k < |nodes| && Alike(nodes, j, k) ensures Valid(nodes[k]) { AlikeValid(nodes, j, k); }
  }

  /** A root complex is dropped only for an earlier one that is not behind an SMMU with a base. */
  lemma RootComplexKept(nodes: seq<Node>, k: nat)
    requires WellFormed(nodes) && k < |nodes| && nodes[k].body.RcBody?
    requires forall j :: 0 <= j < k && nodes[j].body.RcBody? ==> LastSmmu(nodes, j) != 0
    ensures Kept(nodes, k)
  {
    hide WellFormed, Kept, LastSmmu;
    KeptIff(nodes, k);
  }

  // ---- An input ----

  /** An ITS group, an SMMU in front of it, and two root complexes behind the SMMU that differ only in their
      mappings. */
  function BehindSmmu(its: nat, base: nat): seq<Node> {
    [Node(ItsBody([its]), []),
     Node(SmmuV3Body(base), [NodeMap(0, 0xFFFF, 0, 0)]),
     Node(RcBody(0, 0, 0), [NodeMap(0, 0xFF, 0, 1)]),
     Node(RcBody(0, 0, 0), [NodeMap(0x100, 0xFF, 0x100, 1)])]
  }

  /** Both root complexes are kept, and the IDs of the second have their device. */
  lemma {:induction false} BothKept(its: nat, base: nat)
    requires base != 0
    ensures var nodes := BehindSmmu(its, base);
            && WellFormed(nodes) && NoLookAlikes(nodes) && Kept(nodes, 2) && Kept(nodes, 3)
            && KeptDevice(nodes, 0, 0x100) == Device(0x100, 0x100, its)
  {
    hide *;
    var nodes := BehindSmmu(its, base);
    BehindFacts(its, base);
    DistinctIff(nodes);
    AllKept(nodes);
    DistinctLookups(nodes, 0, 0x100);
    BehindDevice(its, base);
  }

  lemma BehindFacts(its: nat, base: nat)
    requires base != 0
    ensures var nodes := BehindSmmu(its, base);
            WellFormed(nodes) && |nodes| == 4 && Valid(nodes[2]) && Valid(nodes[3])
                && forall j, k :: 0 <= j < k < |nodes| ==> !Alike(nodes, j, k)
  {
  }

  lemma AllKept(nodes: seq<Node>)
    requires NoLookAlikes(nodes) && |nodes| == 4 && Valid(nodes[2]) && Valid(nodes[3])
    ensures Kept(nodes, 2) && Kept(nodes, 3)
  {
    hide Kept;
  }

  lemma BehindDevice(its: nat, base: nat)
    requires WellFormed(BehindSmmu(its, base))
    ensures NodeDevice(BehindSmmu(its, base), 0, 0x100) == Device(0x100, 0x100, its)
  {
    var nodes := BehindSmmu(its, base);
    BehindRoute(its, base);
    hide WellFormed, NodeRoute;
    assert NodeMapRoute(nodes[1].maps, 0x100) == Some(Route(0x100, 0));
  }

  lemma BehindRoute(its: nat, base: nat)
    ensures NodeRoute(BehindSmmu(its, base), 4, 0, 0x100) == Some(Route(0x100, 1))
  {
    var nodes := BehindSmmu(its, base);
    assert NodeMapRoute(nodes[3].maps, 0x100) == Some(Route(0x100, 1));
  }
}

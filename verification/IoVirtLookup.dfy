/** From a requester ID to its stream ID, device ID and SMMU: the two lookups over the packed
    table, and how they fit together. */
module IoVirtLookup {
  import opened Common
  import opened IoVirt
  import opened IoVirtBuild
  import opened MappingOverlap

  const ALL_ONES: nat := U32 - 1

  // ---- One mapping ----

  /** The lookups' range test: the upper bound is inclusive and computed in 32 bits. */
  predicate Maps(inputBase: nat, idCount: nat, id: nat) {
    id >= inputBase && id <= (inputBase + idCount) % U32
  }

  function MapId(inputBase: nat, outputBase: nat, id: nat): nat
    requires id >= inputBase
  {
    (id - inputBase + outputBase) % U32
  }

  predicate InMap(m: IdMap, id: nat) { Maps(m.inputBase, m.idCount, id) }

  /** Where an ID leads: the output ID and what the mapping refers to. */
  datatype Route = Route(id: nat, ref: nat)

  function Through(m: IdMap, id: nat): Route
    requires InMap(m, id)
  {
    Route(MapId(m.inputBase, m.outputBase, id), m.outputRef)
  }

  /** The first mapping that takes the ID. */
  function MapRoute(maps: seq<IdMap>, id: nat): Option<Route> {
    if maps == [] then None
    else if InMap(maps[0], id) then Some(Through(maps[0], id))
    else MapRoute(maps[1..], id)
  }

  /** The range of mapping m holds the ID; its end is computed in 32 bits and counts. */
  predicate Holds(m: IdMap, id: nat) { m.inputBase <= id <= (m.inputBase + m.idCount) % 0x1_0000_0000 }

  /** Mapping q is the first that holds the ID. */
  predicate FirstHolding(maps: seq<IdMap>, id: nat, q: nat) {
    q < |maps| && Holds(maps[q], id) && forall p :: 0 <= p < q ==> !Holds(maps[p], id)
  }

  /** The route through some mappings: none holds the ID, or the first that does moves it from its
      input base to its output base. */
  ghost predicate RoutesTo(maps: seq<IdMap>, id: nat, route: Option<Route>) {
    match route
    case None => forall q :: 0 <= q < |maps| ==> !Holds(maps[q], id)
    case Some(r) =>
      exists q: nat :: FirstHolding(maps, id, q)
          && r == Route((id - maps[q].inputBase + maps[q].outputBase) % 0x1_0000_0000, maps[q].outputRef)
  }

  lemma {:induction false} RouteIs(maps: seq<IdMap>, id: nat)
    ensures RoutesTo(maps, id, MapRoute(maps, id))
  {
    if maps != [] {
      if InMap(maps[0], id) {
        assert FirstHolding(maps, id, 0);
      } else {
        RouteIs(maps[1..], id);
        var route := MapRoute(maps, id);
        if route.Some? {
          var q: nat :| FirstHolding(maps[1..], id, q)
                        && route.value == Route((id - maps[1..][q].inputBase + maps[1..][q].outputBase) % 0x1_0000_0000, maps[1..][q].outputRef);
          assert FirstHolding(maps, id, q + 1);
        } else {
          forall q | 0 <= q < |maps| ensures !Holds(maps[q], id) {
            if q > 0 { assert maps[1..][q - 1] == maps[q]; }
          }
        }
      }
    }
  }

  // ---- The packed table ----

  predicate IsRc(b: Block, segment: nat) { b.data.RootComplex? && b.data.segment == segment }

  /** The last root complex of the segment with a mapping for the requester ID. */
  function RcRoute(blocks: seq<Block>, segment: nat, rid: nat): Option<Route> {
    if blocks == [] then None
    else
      var b := blocks[|blocks| - 1];
      if IsRc(b, segment) && MapRoute(b.maps, rid).Some? then MapRoute(b.maps, rid)
      else RcRoute(blocks[..|blocks| - 1], segment, rid)
  }

  /** Every ID mapping refers to a block, and every ITS group has an ITS. */
  ghost predicate LookupOk(blocks: seq<Block>) {
    && TableOk(blocks)
    && (forall i :: 0 <= i < |blocks| && blocks[i].data.ItsGroup? ==> blocks[i].data.ids != [])
  }

  /** The block at an offset. */
  ghost function BlockAt(blocks: seq<Block>, offset: nat): (b: Block)
    requires IsBlockAt(blocks, offset)
    ensures exists i :: 0 <= i < |blocks| && OffsetOf(blocks, i) == offset && blocks[i] == b
  {
    var i :| 0 <= i < |blocks| && OffsetOf(blocks, i) == offset;
    blocks[i]
  }

  lemma BlockAtIs(blocks: seq<Block>, i: nat)
    requires i < |blocks|
    ensures IsBlockAt(blocks, OffsetOf(blocks, i)) && BlockAt(blocks, OffsetOf(blocks, i)) == blocks[i]
  {
    hide OffsetOf;
    var o := OffsetOf(blocks, i);
    assert IsBlockAt(blocks, o);
    var j :| 0 <= j < |blocks| && OffsetOf(blocks, j) == o && blocks[j] == BlockAt(blocks, o);
    OffsetInjective(blocks, i, j);
  }

  /** A route found leads through one of the mappings. */
  lemma {:induction false} MapRouteFrom(maps: seq<IdMap>, id: nat) returns (q: nat)
    requires MapRoute(maps, id).Some?
    ensures q < |maps| && InMap(maps[q], id) && MapRoute(maps, id) == Some(Through(maps[q], id))
  {
    if InMap(maps[0], id) {
      q := 0;
    } else {
      q := MapRouteFrom(maps[1..], id);
      q := q + 1;
    }
  }

  /** The last block that is a root complex of the segment and holds the ID decides; without one there is
      no route. */
  ghost predicate DecidedBy(blocks: seq<Block>, segment: nat, rid: nat, route: Option<Route>) {
    match route
    case None => forall b :: 0 <= b < |blocks| && blocks[b].data.RootComplex? && blocks[b].data.segment == segment ==>
        RoutesTo(blocks[b].maps, rid, None)
    case Some(_) =>
      exists b: nat ::
        && b < |blocks| && blocks[b].data.RootComplex? && blocks[b].data.segment == segment && RoutesTo(blocks[b].maps, rid, route)
        && forall c :: b < c < |blocks| && blocks[c].data.RootComplex? && blocks[c].data.segment == segment ==>
            RoutesTo(blocks[c].maps, rid, None)
  }

  lemma {:induction false} RcRouteIs(blocks: seq<Block>, segment: nat, rid: nat)
    ensures DecidedBy(blocks, segment, rid, RcRoute(blocks, segment, rid))
    decreases |blocks|
  {
    hide RoutesTo, MapRoute;
    if blocks != [] {
      var n := |blocks| - 1;
      var b, rest := blocks[n], blocks[..n];
      RouteIs(b.maps, rid);
      RcRouteIs(rest, segment, rid);
      if IsRc(b, segment) && MapRoute(b.maps, rid).Some? {
        assert RoutesTo(blocks[n].maps, rid, RcRoute(blocks, segment, rid));
      } else if RcRoute(rest, segment, rid).Some? {
        var i: nat :| && i < |rest| && rest[i].data.RootComplex? && rest[i].data.segment == segment
                      && RoutesTo(rest[i].maps, rid, RcRoute(rest, segment, rid))
                      && forall c :: i < c < |rest| && rest[c].data.RootComplex? && rest[c].data.segment == segment ==>
                           RoutesTo(rest[c].maps, rid, None);
        assert rest[i] == blocks[i];
        forall c | i < c < |blocks| && blocks[c].data.RootComplex? && blocks[c].data.segment == segment
            ensures RoutesTo(blocks[c].maps, rid, None) {
          if c < n { assert rest[c] == blocks[c]; }
        }
      } else {
        forall c | 0 <= c < |blocks| && blocks[c].data.RootComplex? && blocks[c].data.segment == segment
            ensures RoutesTo(blocks[c].maps, rid, None) {
          if c < n { assert rest[c] == blocks[c]; }
        }
      }
    }
  }

  lemma {:induction false} RcRouteFrom(blocks: seq<Block>, segment: nat, rid: nat) returns (b: nat)
    requires RcRoute(blocks, segment, rid).Some?
    ensures b < |blocks| && IsRc(blocks[b], segment) && RcRoute(blocks, segment, rid) == MapRoute(blocks[b].maps, rid)
    decreases |blocks|
  {
    b := |blocks| - 1;
    if !(IsRc(blocks[b], segment) && MapRoute(blocks[b].maps, rid).Some?) {
      b := RcRouteFrom(blocks[..b], segment, rid);
    }
  }

  /** Routes of a table lead to its blocks. */
  lemma RouteRefs(blocks: seq<Block>, segment: nat, rid: nat)
    requires TableOk(blocks)
    ensures RcRoute(blocks, segment, rid).Some? ==> IsBlockAt(blocks, RcRoute(blocks, segment, rid).value.ref)
  {
    hide OffsetOf, IsBlockAt;
    if RcRoute(blocks, segment, rid).Some? {
      var b := RcRouteFrom(blocks, segment, rid);
      BlockRouteRefs(blocks, b, rid);
    }
  }

  lemma BlockRouteRefs(blocks: seq<Block>, b: nat, id: nat)
    requires TableOk(blocks) && b < |blocks| && !blocks[b].data.ItsGroup?
    ensures MapRoute(blocks[b].maps, id).Some? ==> IsBlockAt(blocks, MapRoute(blocks[b].maps, id).value.ref)
  {
    hide OffsetOf, IsBlockAt;
    if MapRoute(blocks[b].maps, id).Some? {
      var q := MapRouteFrom(blocks[b].maps, id);
    }
  }

  lemma AtRouteRefs(blocks: seq<Block>, offset: nat, id: nat)
    requires LookupOk(blocks) && IsBlockAt(blocks, offset)
    ensures var b := BlockAt(blocks, offset);
            && (b.data.ItsGroup? ==> b.data.ids != [])
            && (!b.data.ItsGroup? && MapRoute(b.maps, id).Some? ==> IsBlockAt(blocks, MapRoute(b.maps, id).value.ref))
  {
    var i :| 0 <= i < |blocks| && OffsetOf(blocks, i) == offset && blocks[i] == BlockAt(blocks, offset);
    if !blocks[i].data.ItsGroup? { BlockRouteRefs(blocks, i, id); }
  }

  // ---- What the lookups answer ----

  /** Device ID, stream ID (all ones without an SMMU) and ITS ID. */
  datatype DeviceInfo = NoDevice | Device(deviceId: nat, streamId: nat, itsId: nat)

  function FirstIts(d: Data): nat { if d.ItsGroup? && d.ids != [] then d.ids[0] else 0 }

  /** The answer for a requester ID of a segment. */
  ghost function TableDevice(blocks: seq<Block>, segment: nat, rid: nat): DeviceInfo
    requires LookupOk(blocks)
  {
    match RcRoute(blocks, segment, rid)
    case None => NoDevice
    case Some(r) =>
      RouteRefs(blocks, segment, rid);
      AtRouteRefs(blocks, r.ref, r.id);
      var b := BlockAt(blocks, r.ref);
      if b.data.ItsGroup? then Device(r.id, ALL_ONES, FirstIts(b.data))
      else if b.data.Smmu? then
        match MapRoute(b.maps, r.id)
        case None => NoDevice
        case Some(s) => Device(s.id, r.id, FirstIts(BlockAt(blocks, s.ref).data))
      else NoDevice
  }

  /** The SMMU base for a requester ID: all ones without a route, zero without an SMMU. */
  ghost function TableSmmuBase(blocks: seq<Block>, segment: nat, rid: nat): nat
    requires TableOk(blocks)
  {
    match RcRoute(blocks, segment, rid)
    case None => ALL_ONES
    case Some(r) =>
      RouteRefs(blocks, segment, rid);
      var b := BlockAt(blocks, r.ref);
      if b.data.Smmu? && MapRoute(b.maps, r.id).Some? then b.data.base else 0
  }

  // ---- The lookups ----

  /** Scans one block's mappings for an ID. */
  method FindMap(maps: seq<IdMap>, id: nat) returns (route: Option<Route>)
    ensures route == MapRoute(maps, id) && RoutesTo(maps, id, route)
  {
    RouteIs(maps, id);
    hide RoutesTo;
    var j := 0;
    assert maps[0..] == maps;
    while j < |maps|
      invariant j <= |maps| && MapRoute(maps[j..], id) == MapRoute(maps, id)
    {
      if InMap(maps[j], id) {
        return Some(Through(maps[j], id));
      }
      assert maps[j..][1..] == maps[j + 1..];
      j := j + 1;
    }
    return None;
  }

  /** Scans all blocks for root complexes of the segment; a later match replaces an earlier one. */
  method FindRcRoute(t: IoVirtTable, segment: nat, rid: nat, ghost blocks: seq<Block>) returns (route: Option<Route>)
    requires LaidOut(t.mem, blocks) && t.numBlocks == |blocks|
    ensures route == RcRoute(blocks, segment, rid) && DecidedBy(blocks, segment, rid, route)
  {
    hide OffsetOf, SizeOf, MapRoute, DecidedBy, RoutesTo;
    RcRouteIs(blocks, segment, rid);
    OffsetFirst(blocks);
    route := None;
    var i, block := 0, TABLE_HEADER;
    while i < t.numBlocks
      invariant i <= t.numBlocks && block == OffsetOf(blocks, i) && route == RcRoute(blocks[..i], segment, rid)
    {
      if IsRc(t.mem[block], segment) {
        var r := FindMap(t.mem[block].maps, rid);
        if r.Some? {
          route := r;
        }
      }
      assert blocks[..i + 1][..i] == blocks[..i];
      OffsetStep(blocks, i);
      block := block + SizeOf(t.mem[block].num);
      i := i + 1;
    }
    assert blocks[..i] == blocks;
  }

  lemma BlockInMemory(mem: Memory, blocks: seq<Block>, offset: nat)
    requires LaidOut(mem, blocks) && IsBlockAt(blocks, offset)
    ensures offset in mem && mem[offset] == BlockAt(blocks, offset)
  {
    var i :| 0 <= i < |blocks| && OffsetOf(blocks, i) == offset && blocks[i] == BlockAt(blocks, offset);
  }

  /** Device, stream and ITS ID for a requester ID. */
  method GetDeviceInfo(t: IoVirtTable, rid: nat, segment: nat, ghost blocks: seq<Block>) returns (r: DeviceInfo)
    requires LookupOk(blocks) && LaidOut(t.mem, blocks) && t.numBlocks == |blocks|
    ensures r == TableDevice(blocks, segment, rid)
  {
    hide OffsetOf, MapRoute, RcRoute, TableOk, LaidOut, BlockAt, IsBlockAt;
    var route := FindRcRoute(t, segment, rid, blocks);
    if route == None {
      return NoDevice;
    }
    var id, oref := route.value.id, route.value.ref;
    RouteRefs(blocks, segment, rid);
    BlockInMemory(t.mem, blocks, oref);
    AtRouteRefs(blocks, oref, id);
    var block := t.mem[oref];
    if block.data.ItsGroup? {
      return Device(id, ALL_ONES, block.data.ids[0]);
    }
    if block.data.Smmu? {
      var found := FindMap(block.maps, id);
      if found == None {
        return NoDevice;
      }
      BlockInMemory(t.mem, blocks, found.value.ref);
      AtRouteRefs(blocks, found.value.ref, 0);
      var last := t.mem[found.value.ref];
      return Device(found.value.id, id, if last.data.ItsGroup? then last.data.ids[0] else 0);
    }
    return NoDevice;
  }

  /** Base of the SMMU a requester ID goes through. */
  method GetRcSmmuBase(t: IoVirtTable, segment: nat, rid: nat, ghost blocks: seq<Block>) returns (base: nat)
    requires TableOk(blocks) && LaidOut(t.mem, blocks) && t.numBlocks == |blocks|
    ensures base == TableSmmuBase(blocks, segment, rid)
  {
    hide OffsetOf, MapRoute, RcRoute, TableOk, LaidOut, BlockAt, IsBlockAt;
    var route := FindRcRoute(t, segment, rid, blocks);
    if route == None {
      return ALL_ONES;
    }
    RouteRefs(blocks, segment, rid);
    BlockInMemory(t.mem, blocks, route.value.ref);
    var block := t.mem[route.value.ref];
    if block.data.Smmu? {
      var found := FindMap(block.maps, route.value.id);
      if found.Some? {
        return block.data.base;
      }
    }
    return 0;
  }

  // ---- The two lookups agree ----

  /** No SMMU base and no stream ID that the answers also use to say "none". */
  ghost predicate Unambiguous(blocks: seq<Block>, segment: nat, rid: nat) {
    && (forall i :: 0 <= i < |blocks| && blocks[i].data.Smmu? ==> blocks[i].data.base != 0 && blocks[i].data.base != 0xFFFF_FFFF)
    && (RcRoute(blocks, segment, rid).Some? ==> RcRoute(blocks, segment, rid).value.id != 0xFFFF_FFFF)
  }

  /** One lookup names an SMMU exactly when the other gives a stream ID, the base is that of
      the SMMU the stream ID belongs to, and the device ID is that SMMU's mapping applied to
      the root complex's mapping of the requester ID. */
  lemma TwoLookupsAgree(blocks: seq<Block>, segment: nat, rid: nat)
    requires LookupOk(blocks) && Unambiguous(blocks, segment, rid)
    ensures var base, dev := TableSmmuBase(blocks, segment, rid), TableDevice(blocks, segment, rid);
            (base != 0 && base != 0xFFFF_FFFF) <==> (dev.Device? && dev.streamId != 0xFFFF_FFFF)
    ensures var base, dev := TableSmmuBase(blocks, segment, rid), TableDevice(blocks, segment, rid);
            dev.Device? && dev.streamId != 0xFFFF_FFFF ==>
              exists c: nat, p: nat, s: nat, q: nat ::
                Composition(blocks, segment, rid, c, p, s, q, base, dev)
  {
    hide OffsetOf, MapRoute, IsBlockAt, RefsOk, MapsOk;
    var dev, base := TableDevice(blocks, segment, rid), TableSmmuBase(blocks, segment, rid);
    if RcRoute(blocks, segment, rid).Some? {
      var r := RcRoute(blocks, segment, rid).value;
      RouteRefs(blocks, segment, rid);
      var s :| 0 <= s < |blocks| && OffsetOf(blocks, s) == r.ref && blocks[s] == BlockAt(blocks, r.ref);
      if dev.Device? && dev.streamId != ALL_ONES {
        var c := RcRouteFrom(blocks, segment, rid);
        var p := MapRouteFrom(blocks[c].maps, rid);
        var q := MapRouteFrom(blocks[s].maps, r.id);
        AtRouteRefs(blocks, r.ref, r.id);
        var g: nat :| && g < |blocks| && OffsetOf(blocks, g) == blocks[s].maps[q].outputRef
                      && blocks[g] == BlockAt(blocks, blocks[s].maps[q].outputRef);
        assert ItsOf(blocks[g], dev.itsId);
        assert Composition(blocks, segment, rid, c, p, s, q, base, dev);
      }
    }
  }

  /** Mapping p of root complex c takes the requester ID to SMMU s, whose mapping q takes the
      stream ID to the device ID of an ITS group. */
  ghost predicate Composition(blocks: seq<Block>, segment: nat, rid: nat, c: nat, p: nat, s: nat, q: nat, base: nat, dev: DeviceInfo)
  {
    && dev.Device? && c < |blocks| && p < |blocks[c].maps| && s < |blocks| && q < |blocks[s].maps|
    && IsRc(blocks[c], segment) && InMap(blocks[c].maps[p], rid) && blocks[c].maps[p].outputRef == OffsetOf(blocks, s)
    && blocks[s].data.Smmu? && base == blocks[s].data.base
    && dev.streamId == Through(blocks[c].maps[p], rid).id
    && InMap(blocks[s].maps[q], dev.streamId) && dev.deviceId == Through(blocks[s].maps[q], dev.streamId).id
    && exists g: nat :: g < |blocks| && OffsetOf(blocks, g) == blocks[s].maps[q].outputRef && ItsOf(blocks[g], dev.itsId)
  }

  /** The ITS ID read from a block: the first of its group. */
  predicate ItsOf(b: Block, its: nat) {
    if b.data.ItsGroup? && b.data.ids != [] then its == b.data.ids[0] else its == 0
  }

  // ---- Overlap flags and lookups ----

  /** Two mappings with one target through which the lookups take two IDs to the same ID. */
  ghost predicate Collide(a: IdMap, b: IdMap) {
    && a.outputRef == b.outputRef
    && exists x: nat, y: nat :: InMap(a, x) && InMap(b, y) && Through(a, x).id == Through(b, y).id
  }

  /** Neither end of the mapping wraps around, the last ID included. */
  predicate Fits(m: IdMap) { m.idCount >= 1 && m.inputBase + m.idCount < U32 && m.outputBase + m.idCount < U32 }

  lemma FitsLookup(m: IdMap, id: nat)
    requires Fits(m)
    ensures InMap(m, id) <==> m.inputBase <= id <= m.inputBase + m.idCount
    ensures InMap(m, id) ==> Through(m, id).id == id - m.inputBase + m.outputBase
  {
  }

  lemma FitsOverlap(a: IdMap, b: IdMap)
    requires Fits(a) && Fits(b)
    ensures Overlaps(a, b) <==>
            a.outputRef == b.outputRef && a.outputBase < b.outputBase + b.idCount && b.outputBase < a.outputBase + a.idCount
  {
    hide Overlaps;
    OverlapIff(a, b);
    var id := if a.outputBase < b.outputBase then b.outputBase else a.outputBase;
    assert HasId(a, id) && HasId(b, id) <==> a.outputBase < b.outputBase + b.idCount && b.outputBase < a.outputBase + a.idCount;
  }

  lemma FitsCollide(a: IdMap, b: IdMap)
    requires Fits(a) && Fits(b)
    ensures Collide(a, b) <==>
            a.outputRef == b.outputRef && a.outputBase <= b.outputBase + b.idCount && b.outputBase <= a.outputBase + a.idCount
  {
    hide InMap, Through;
    if Collide(a, b) {
      var x: nat, y: nat :| InMap(a, x) && InMap(b, y) && Through(a, x).id == Through(b, y).id;
      FitsLookup(a, x);
      FitsLookup(b, y);
    }
    if a.outputRef == b.outputRef && a.outputBase <= b.outputBase + b.idCount && b.outputBase <= a.outputBase + a.idCount {
      var id := if a.outputBase < b.outputBase then b.outputBase else a.outputBase;
      var x, y := id - a.outputBase + a.inputBase, id - b.outputBase + b.inputBase;
      FitsLookup(a, x);
      FitsLookup(b, y);
      assert InMap(a, x) && InMap(b, y) && Through(a, x).id == Through(b, y).id;
    }
  }

  /** The lookups count the last ID of a mapping in, the overlap test leaves it out: mappings
      that collide go unmarked exactly when one starts at the last ID of the other. */
  lemma CollideIff(a: IdMap, b: IdMap)
    requires Fits(a) && Fits(b)
    ensures Overlaps(a, b) ==> Collide(a, b)
    ensures Collide(a, b) && !Overlaps(a, b) <==>
            a.outputRef == b.outputRef && (a.outputBase + a.idCount == b.outputBase || b.outputBase + b.idCount == a.outputBase)
  {
    hide Overlaps, Collide;
    FitsOverlap(a, b);
    FitsCollide(a, b);
  }
}

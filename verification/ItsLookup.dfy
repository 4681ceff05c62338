/** Queries about ITS groups: which group and which place in it an ITS ID has, and back. */
module ItsLookup {
  import opened IoVirt
  import opened IoVirtBuild

  datatype Query = NumGroups | GroupNumBlocks | IdForBlockIndex | GroupIndexForId | BlockIndexForId | Unsupported

  datatype Answer = Found(value: nat) | InvalidIndex | Error

  /** The ID lists of the table's ITS groups, in table order. */
  function ItsGroups(blocks: seq<Block>): seq<seq<nat>> {
    if blocks == [] then []
    else
      var b := blocks[|blocks| - 1];
      ItsGroups(blocks[..|blocks| - 1]) + if b.data.ItsGroup? then [b.data.ids] else []
  }

  predicate FirstIn(ids: seq<nat>, i: nat, id: nat) {
    i < |ids| && ids[i] == id && id !in ids[..i]
  }

  /** What each query must answer, in terms of the groups. */
  predicate Answers(groups: seq<seq<nat>>, query: Query, group: nat, param: nat, r: Answer) {
    if query == NumGroups then r == Found(|groups|)
    else if query == GroupIndexForId then
      if r.Found? then r.value < |groups| && param in groups[r.value] && forall j :: 0 <= j < r.value ==> param !in groups[j]
      else r == InvalidIndex && forall j :: 0 <= j < |groups| ==> param !in groups[j]
    else if group >= |groups| then r == InvalidIndex
    else if query == GroupNumBlocks then r == Found(|groups[group]|)
    else if query == IdForBlockIndex then r == if param < |groups[group]| then Found(groups[group][param]) else InvalidIndex
    else if query == BlockIndexForId then
      if r.Found? then FirstIn(groups[group], r.value, param) else r == InvalidIndex && param !in groups[group]
    else r == Error
  }

  lemma {:induction false} CountsGroups(blocks: seq<Block>)
    ensures CountsOf(blocks).its == |ItsGroups(blocks)|
  {
    if blocks != [] { CountsGroups(blocks[..|blocks| - 1]); }
  }

  lemma GroupsStep(blocks: seq<Block>, i: nat)
    requires i < |blocks|
    ensures ItsGroups(blocks[..i + 1]) == ItsGroups(blocks[..i]) + if blocks[i].data.ItsGroup? then [blocks[i].data.ids] else []
  {
    assert blocks[..i + 1][..i] == blocks[..i];
  }

  lemma {:induction false} GroupsPrefix(blocks: seq<Block>, i: nat)
    requires i <= |blocks|
    ensures ItsGroups(blocks[..i]) <= ItsGroups(blocks)
    decreases |blocks| - i
  {
    if i == |blocks| {
      assert blocks[..i] == blocks;
    } else {
      GroupsPrefix(blocks, i + 1);
      GroupsStep(blocks, i);
    }
  }

  /** The first place of an ID in a group. */
  method IndexOf(ids: seq<nat>, id: nat) returns (r: Answer)
    ensures if r.Found? then FirstIn(ids, r.value, id) else r == InvalidIndex && id !in ids
  {
    var i := 0;
    while i < |ids|
      invariant i <= |ids| && id !in ids[..i]
    {
      if ids[i] == id {
        return Found(i);
      }
      i := i + 1;
    }
    return InvalidIndex;
  }

  method GetItsInfo(t: IoVirtTable, query: Query, group: nat, param: nat, ghost blocks: seq<Block>) returns (r: Answer)
    requires t.Holds(blocks)
    ensures Answers(ItsGroups(blocks), query, group, param, r)
  {
    hide OffsetOf, SizeOf, CountsOf, ItsGroups;
    CountsGroups(blocks);
    if query == NumGroups {
      return Found(t.counts.its);
    }
    OffsetFirst(blocks);
    NoGroups(blocks);
    ghost var groups := ItsGroups(blocks);
    var i, j, block := 0, 0, TABLE_HEADER;
    while i < t.numBlocks
      invariant i <= t.numBlocks && block == OffsetOf(blocks, i) && j == |ItsGroups(blocks[..i])|
      invariant ItsGroups(blocks[..i]) <= groups
      invariant if query == GroupIndexForId then forall g :: 0 <= g < j ==> param !in groups[g] else group >= j
    {
      GroupsStep(blocks, i);
      GroupsPrefix(blocks, i + 1);
      if t.mem[block].data.ItsGroup? {
        var ids := t.mem[block].data.ids;
        assert groups[j] == ids;
        if query == GroupIndexForId {
          var found := IndexOf(ids, param);
          if found.Found? {
            return Found(j);
          }
        } else if group == j {
          if query == GroupNumBlocks {
            return Found(|ids|);
          } else if query == IdForBlockIndex {
            return if param < |ids| then Found(ids[param]) else InvalidIndex;
          } else if query == BlockIndexForId {
            r := IndexOf(ids, param);
            return;
          }
          return Error;
        }
        j := j + 1;
      }
      OffsetStep(blocks, i);
      block := block + SizeOf(t.mem[block].num);
      i := i + 1;
    }
    assert blocks[..i] == blocks;
    return InvalidIndex;
  }

  lemma NoGroups(blocks: seq<Block>)
    ensures ItsGroups(blocks[..0]) == []
  {
  }

  /** Finding an ID's group, then its place there, then the ID at that place leads back to the
      ID, for every ID of every group. */
  method ItsRoundTrip(t: IoVirtTable, id: nat, ghost blocks: seq<Block>) returns (back: Answer)
    requires t.Holds(blocks)
    ensures if exists g :: 0 <= g < |ItsGroups(blocks)| && id in ItsGroups(blocks)[g] then back == Found(id) else back == InvalidIndex
  {
    hide ItsGroups;
    ghost var groups := ItsGroups(blocks);
    var group := GetItsInfo(t, GroupIndexForId, 0, id, blocks);
    if !group.Found? {
      return InvalidIndex;
    }
    var place := GetItsInfo(t, BlockIndexForId, group.value, id, blocks);
    assert place.Found?;
    back := GetItsInfo(t, IdForBlockIndex, group.value, place.value, blocks);
  }
}

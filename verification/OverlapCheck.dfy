/** The pass over all pairs of ID mappings that marks overlapping blocks. */
module OverlapCheck {
  import opened IoVirt
  import opened IoVirtBuild
  import opened MappingOverlap

  /** The table t is `blocks` with the blocks in dev and str marked. */
  ghost predicate HoldsMarked(t: IoVirtTable, blocks: seq<Block>, dev: set<nat>, str: set<nat>)
    reads t
  {
    LaidOut(t.mem, Marked(blocks, dev, str)) && t.numBlocks == |blocks|
  }

  /** Memory holds block `was` with the device-ID flag set if dev says so, the stream-ID flag if str says
      so, and everything else as it was. */
  predicate Carries(mem: Memory, offset: nat, was: Block, dev: bool, str: bool) {
    && offset in mem
    && (mem[offset].flags.devIdOverlap <==> was.flags.devIdOverlap || dev)
    && (mem[offset].flags.strIdOverlap <==> was.flags.strIdOverlap || str)
    && mem[offset].flags.ctxInt == was.flags.ctxInt
    && mem[offset].num == was.num && mem[offset].data == was.data && mem[offset].maps == was.maps
  }

  lemma MarkedCarries(t: IoVirtTable, blocks: seq<Block>, dev: set<nat>, str: set<nat>)
    requires HoldsMarked(t, blocks, dev, str)
    ensures forall i: nat :: i < |blocks| ==> Carries(t.mem, OffsetOf(blocks, i), blocks[i], i in dev, i in str)
  {
    hide OffsetOf, Marked, LaidOut;
    forall i: nat | i < |blocks| ensures Carries(t.mem, OffsetOf(blocks, i), blocks[i], i in dev, i in str) {
      MarkedAt(t.mem, blocks, dev, str, i);
    }
  }

  /** Block i was marked by key mapping q of block b against the mappings of block b2. */
  ghost predicate BlockMarks(blocks: seq<Block>, b: nat, q: nat, b2: nat, n: nat, dev: bool, i: nat) {
    exists q2: nat :: q2 < n && Pair(blocks, b, q, b2, q2) && ToIts(blocks, b, q) == dev && (i == b || i == b2)
  }

  /** Sets a flag on the blocks at two offsets. */
  method SetBoth(t: IoVirtTable, keyBlock: nat, block: nat, isDev: bool,
                 ghost blocks: seq<Block>, ghost dev: set<nat>, ghost str: set<nat>, ghost b: nat, ghost b2: nat)
    requires HoldsMarked(t, blocks, dev, str) && b < |blocks| && b2 < |blocks|
    requires keyBlock == OffsetOf(blocks, b) && block == OffsetOf(blocks, b2)
    modifies t`mem
    ensures HoldsMarked(t, blocks, if isDev then dev + {b, b2} else dev, if isDev then str else str + {b, b2})
  {
    hide OffsetOf, Marked, LaidOut;
    MarkLaid(t.mem, blocks, dev, str, b, isDev);
    t.mem := t.mem[keyBlock := t.mem[keyBlock].(flags := MarkFlags(t.mem[keyBlock].flags, isDev, !isDev))];
    ghost var dev1, str1 := if isDev then dev + {b} else dev, if isDev then str else str + {b};
    MarkLaid(t.mem, blocks, dev1, str1, b2, isDev);
    t.mem := t.mem[block := t.mem[block].(flags := MarkFlags(t.mem[block].flags, isDev, !isDev))];
    assert {b} + {b2} == {b, b2};
    assert dev + {b} + {b2} == dev + {b, b2} && str + {b} + {b2} == str + {b, b2};
  }

  /** Compares key mapping q of block b with the mappings of block b2. In the key's own block
      the pass starts behind the key but keeps num - 1 as its count, so behind the block's
      last mapping it takes what bytes follow for mappings: the header of the next block first,
      and arbitrary words after that. The blocks they mark are returned in sd and ss. */
  method CompareMaps(t: IoVirtTable, keyBlock: nat, q: nat, block: nat,
                     ghost blocks: seq<Block>, ghost b: nat, ghost b2: nat, ghost dev: set<nat>, ghost str: set<nat>)
    returns (ghost dev': set<nat>, ghost str': set<nat>, ghost sd: set<nat>, ghost ss: set<nat>)
    requires TableOk(blocks) && HoldsMarked(t, blocks, dev, str) && IsMap(blocks, b, q)
    requires b <= b2 < |blocks| && !blocks[b2].data.ItsGroup?
    requires keyBlock == OffsetOf(blocks, b) && block == OffsetOf(blocks, b2)
    modifies t`mem
    ensures HoldsMarked(t, blocks, dev', str')
    ensures MarkedSoFar(blocks, b, q, b2, |blocks[b2].maps|, dev, str, dev', str', sd, ss)
    ensures StraysSoFar(blocks, b, q, b2, q + blocks[b2].num, sd, ss)
  {
    hide OffsetOf, Marked, LaidOut, RefsOk, Overlaps, ToIts, SizeOf, MarkedSoFar, StraysSoFar, HeaderMap;
    dev', str', sd, ss := dev, str, {}, {};
    MarkedAt(t.mem, blocks, dev, str, b);
    MarkedAt(t.mem, blocks, dev, str, b2);
    SameOffset(blocks, b, b2);
    var key := t.mem[keyBlock].maps[q];
    var first, n := 0, t.mem[block].num;
    if block == keyBlock {
      first, n := q + 1, n - 1;
    }
    var j := 0;
    MarkStart(blocks, b, q, b2, first, dev, str);
    StrayStart(blocks, b, q, b2, first);
    while j < n
      invariant j <= n && HoldsMarked(t, blocks, dev', str')
      invariant MarkedSoFar(blocks, b, q, b2, first + j, dev, str, dev', str', sd, ss)
      invariant StraysSoFar(blocks, b, q, b2, first + j, sd, ss)
    {
      MarkedAt(t.mem, blocks, dev', str', b2);
      TargetAt(t.mem, blocks, dev', str', b, q);
      var m: IdMap := *;
      if first + j < |t.mem[block].maps| {
        m := t.mem[block].maps[first + j];
      } else if first + j == |t.mem[block].maps| && block + SizeOf(t.mem[block].num) in t.mem {
        m := HeaderMap(t.mem[block + SizeOf(t.mem[block].num)]);
      }
      if b2 + 1 < |blocks| { NextHeader(t.mem, blocks, dev', str', b2); }
      var hit, isIts := Overlaps(key, m), t.mem[key.outputRef].data.ItsGroup?;
      MarkStep(blocks, b, q, b2, first + j, dev, str, dev', str', sd, ss, hit, m);
      StrayStep(blocks, b, q, b2, first + j, sd, ss, hit, m);
      if hit {
        OverlapRef(key, m);
        SetBoth(t, keyBlock, block, isIts, blocks, dev', str', b, b2);
        if first + j >= |blocks[b2].maps| {
          if isIts { sd := {b}; } else { ss := {b}; }
        }
        if isIts { dev' := dev' + {b, b2}; } else { str' := str' + {b, b2}; }
      }
      j := j + 1;
    }
    MarkEnd(blocks, b, q, b2, first + n, dev, str, dev', str', sd, ss);
    StrayEnd(blocks, b, q, b2, first + n, sd, ss);
  }

  /** What lies behind a block that is not the last one. */
  lemma NextHeader(mem: Memory, blocks: seq<Block>, dev: set<nat>, str: set<nat>, b: nat)
    requires b + 1 < |blocks| && LaidOut(mem, Marked(blocks, dev, str))
    ensures OffsetOf(blocks, b) + SizeOf(blocks[b].num) in mem
    ensures HeaderMap(mem[OffsetOf(blocks, b) + SizeOf(blocks[b].num)]) == HeaderMap(blocks[b + 1])
  {
    hide Marked, OffsetOf, SizeOf, LaidOut, HeaderMap;
    OffsetStep(blocks, b);
    MarkedAt(mem, blocks, dev, str, b + 1);
    SameHeader(mem[OffsetOf(blocks, b + 1)], blocks[b + 1]);
  }

  lemma SameHeader(a: Block, b: Block)
    requires a.data == b.data && a.num == b.num
    ensures HeaderMap(a) == HeaderMap(b)
  {
    hide TypeOf, DataWords;
  }

  /** The stray reads of key mapping q before position n: the first one marks exactly if it hits. */
  ghost predicate StraysSoFar(blocks: seq<Block>, b: nat, q: nat, b2: nat, n: nat, sd: set<nat>, ss: set<nat>)
    requires IsMap(blocks, b, q)
  {
    && sd <= {b} && ss <= {b} && (b in sd ==> ToIts(blocks, b, q)) && (b in ss ==> !ToIts(blocks, b, q))
    && (b2 == b && n > |blocks[b].maps| && StrayHit(blocks, b, q) ==> b in sd || b in ss)
    && (q <= 1 && b + 1 < |blocks| && (b in sd || b in ss) ==> StrayHit(blocks, b, q))
  }

  lemma StrayStart(blocks: seq<Block>, b: nat, q: nat, b2: nat, n: nat)
    requires IsMap(blocks, b, q) && (b2 == b ==> n == q + 1)
    ensures StraysSoFar(blocks, b, q, b2, n, {}, {})
  {
  }

  lemma StrayStep(blocks: seq<Block>, b: nat, q: nat, b2: nat, n: nat, sd: set<nat>, ss: set<nat>, hit: bool, m: IdMap)
    requires IsMap(blocks, b, q) && b <= b2 < |blocks| && StraysSoFar(blocks, b, q, b2, n, sd, ss)
    requires if b == b2 then q < n < q + |blocks[b].maps| else n < |blocks[b2].maps|
    requires n == |blocks[b2].maps| && b2 + 1 < |blocks| ==> m == HeaderMap(blocks[b2 + 1])
    requires hit <==> Overlaps(blocks[b].maps[q], m)
    ensures var its, stray := ToIts(blocks, b, q), n >= |blocks[b2].maps|;
            StraysSoFar(blocks, b, q, b2, n + 1, if hit && its && stray then {b} else sd, if hit && !its && stray then {b} else ss)
  {
    hide ToIts, Overlaps, HeaderMap;
  }

  lemma StrayEnd(blocks: seq<Block>, b: nat, q: nat, b2: nat, n: nat, sd: set<nat>, ss: set<nat>)
    requires IsMap(blocks, b, q) && b <= b2 < |blocks| && StraysSoFar(blocks, b, q, b2, n, sd, ss)
    requires !blocks[b2].data.ItsGroup? && |blocks[b2].maps| == blocks[b2].num
    requires if b == b2 then n == q + |blocks[b].maps| else n == |blocks[b2].maps|
    ensures StraysSoFar(blocks, b, q, b2, q + blocks[b2].num, sd, ss)
  {
    hide ToIts, StrayHit;
  }

  /** The marks after comparing with the first n mappings of block b2. */
  ghost predicate MarkedSoFar(blocks: seq<Block>, b: nat, q: nat, b2: nat, n: nat, dev: set<nat>, str: set<nat>,
                              dev': set<nat>, str': set<nat>, sd: set<nat>, ss: set<nat>) {
    && sd <= {b} && ss <= {b} && (b2 != b || q == 0 ==> sd == ss == {})
    && (forall i: nat :: i in dev' <==> i in dev || i in sd || BlockMarks(blocks, b, q, b2, n, true, i))
    && (forall i: nat :: i in str' <==> i in str || i in ss || BlockMarks(blocks, b, q, b2, n, false, i))
  }

  lemma MarkStart(blocks: seq<Block>, b: nat, q: nat, b2: nat, n: nat, dev: set<nat>, str: set<nat>)
    requires b <= b2 && n == (if b == b2 then q + 1 else 0)
    ensures MarkedSoFar(blocks, b, q, b2, n, dev, str, dev, str, {}, {})
  {
  }

  lemma MarkStep(blocks: seq<Block>, b: nat, q: nat, b2: nat, n: nat, dev: set<nat>, str: set<nat>,
                 dev1: set<nat>, str1: set<nat>, sd: set<nat>, ss: set<nat>, hit: bool, m: IdMap)
    requires IsMap(blocks, b, q) && b <= b2 < |blocks| && !blocks[b2].data.ItsGroup? && (b == b2 ==> q < n)
    requires b != b2 || q == 0 ==> n < |blocks[b2].maps|
    requires n < |blocks[b2].maps| ==> m == blocks[b2].maps[n]
    requires hit <==> Overlaps(blocks[b].maps[q], m)
    requires MarkedSoFar(blocks, b, q, b2, n, dev, str, dev1, str1, sd, ss)
    ensures var its, stray := ToIts(blocks, b, q), n >= |blocks[b2].maps|;
            MarkedSoFar(blocks, b, q, b2, n + 1, dev, str,
                        if hit && its then dev1 + {b, b2} else dev1, if hit && !its then str1 + {b, b2} else str1,
                        if hit && its && stray then {b} else sd, if hit && !its && stray then {b} else ss)
  {
    hide BlockMarks, ToIts, Overlaps;
    OneMoreMark(blocks, b, q, b2, n, hit, m);
  }

  lemma MarkEnd(blocks: seq<Block>, b: nat, q: nat, b2: nat, n: nat, dev: set<nat>, str: set<nat>,
                dev': set<nat>, str': set<nat>, sd: set<nat>, ss: set<nat>)
    requires b2 < |blocks| && n >= |blocks[b2].maps| && MarkedSoFar(blocks, b, q, b2, n, dev, str, dev', str', sd, ss)
    ensures MarkedSoFar(blocks, b, q, b2, |blocks[b2].maps|, dev, str, dev', str', sd, ss)
  {
    hide BlockMarks;
    AllMarks(blocks, b, q, b2, n);
  }

  lemma SameOffset(blocks: seq<Block>, b: nat, b2: nat)
    requires b < |blocks| && b2 < |blocks|
    ensures OffsetOf(blocks, b) == OffsetOf(blocks, b2) <==> b == b2
  {
    if OffsetOf(blocks, b) == OffsetOf(blocks, b2) { OffsetInjective(blocks, b, b2); }
  }

  lemma OverlapRef(key: IdMap, m: IdMap)
    requires Overlaps(key, m)
    ensures m.outputRef == key.outputRef
  {
  }

  lemma OneMoreMark(blocks: seq<Block>, b: nat, q: nat, b2: nat, n: nat, hit: bool, m: IdMap)
    requires IsMap(blocks, b, q) && b <= b2 < |blocks| && !blocks[b2].data.ItsGroup? && (b == b2 ==> q < n)
    requires n < |blocks[b2].maps| ==> m == blocks[b2].maps[n]
    requires hit <==> Overlaps(blocks[b].maps[q], m)
    ensures forall i: nat, dev: bool ::
              BlockMarks(blocks, b, q, b2, n + 1, dev, i) <==>
              BlockMarks(blocks, b, q, b2, n, dev, i) ||
              (n < |blocks[b2].maps| && hit && ToIts(blocks, b, q) == dev && (i == b || i == b2))
  {
    hide Overlaps, ToIts;
    forall i: nat, dev: bool
      ensures BlockMarks(blocks, b, q, b2, n + 1, dev, i) <==>
              BlockMarks(blocks, b, q, b2, n, dev, i) ||
              (n < |blocks[b2].maps| && hit && ToIts(blocks, b, q) == dev && (i == b || i == b2))
    {
      if n < |blocks[b2].maps| && hit {
        assert Pair(blocks, b, q, b2, n);
      }
    }
  }

  lemma AllMarks(blocks: seq<Block>, b: nat, q: nat, b2: nat, n: nat)
    requires b2 < |blocks| && n >= |blocks[b2].maps|
    ensures forall i: nat, dev: bool ::
              BlockMarks(blocks, b, q, b2, n, dev, i) <==> BlockMarks(blocks, b, q, b2, |blocks[b2].maps|, dev, i)
  {
    forall i: nat, dev: bool | BlockMarks(blocks, b, q, b2, n, dev, i)
      ensures BlockMarks(blocks, b, q, b2, |blocks[b2].maps|, dev, i)
    {
      var q2: nat :| q2 < n && Pair(blocks, b, q, b2, q2) && ToIts(blocks, b, q) == dev && (i == b || i == b2);
      assert q2 < |blocks[b2].maps|;
    }
  }

  // ---- One key mapping against the rest of the table ----

  ghost predicate KeyMarkedSoFar(blocks: seq<Block>, b: nat, q: nat, n: nat, dev: set<nat>, str: set<nat>,
                                 dev': set<nat>, str': set<nat>, sd: set<nat>, ss: set<nat>) {
    && sd <= {b} && ss <= {b} && (q == 0 ==> sd == ss == {})
    && (n > b ==> KeyStrays(blocks, b, q, sd, ss)) && (n <= b ==> sd == ss == {})
    && (forall i: nat :: i in dev' <==> i in dev || i in sd || KeyMarks(blocks, b, q, n, true, i))
    && (forall i: nat :: i in str' <==> i in str || i in ss || KeyMarks(blocks, b, q, n, false, i))
  }

  /** The blocks marked by the stray reads of key mapping q of block b. */
  ghost predicate KeyStrays(blocks: seq<Block>, b: nat, q: nat, sd: set<nat>, ss: set<nat>) {
    IsMap(blocks, b, q) ==>
      && (b in sd ==> ToIts(blocks, b, q)) && (b in ss ==> !ToIts(blocks, b, q))
      && (StrayHit(blocks, b, q) ==> b in sd || b in ss)
      && (q <= 1 && b + 1 < |blocks| && (b in sd || b in ss) ==> StrayHit(blocks, b, q))
  }

  lemma KeyStart(blocks: seq<Block>, b: nat, q: nat, dev: set<nat>, str: set<nat>)
    ensures KeyMarkedSoFar(blocks, b, q, b, dev, str, dev, str, {}, {})
  {
  }

  lemma OneMoreBlock(blocks: seq<Block>, b: nat, q: nat, b2: nat)
    requires b2 < |blocks|
    ensures forall i: nat, dev: bool ::
              KeyMarks(blocks, b, q, b2 + 1, dev, i) <==>
              KeyMarks(blocks, b, q, b2, dev, i) || BlockMarks(blocks, b, q, b2, |blocks[b2].maps|, dev, i)
    ensures blocks[b2].data.ItsGroup? ==> forall i: nat, dev: bool :: !BlockMarks(blocks, b, q, b2, |blocks[b2].maps|, dev, i)
  {
    hide Overlaps, ToIts;
    forall i: nat, dev: bool
      ensures KeyMarks(blocks, b, q, b2 + 1, dev, i) <==>
              KeyMarks(blocks, b, q, b2, dev, i) || BlockMarks(blocks, b, q, b2, |blocks[b2].maps|, dev, i)
    {
      if KeyMarks(blocks, b, q, b2 + 1, dev, i) && !KeyMarks(blocks, b, q, b2, dev, i) {
        var c: nat, q2: nat :| Pair(blocks, b, q, c, q2) && c < b2 + 1 && ToIts(blocks, b, q) == dev && (i == b || i == c);
        assert c == b2;
      }
    }
  }

  lemma KeyStep(blocks: seq<Block>, b: nat, q: nat, b2: nat, dev: set<nat>, str: set<nat>,
                dev1: set<nat>, str1: set<nat>, sd: set<nat>, ss: set<nat>,
                dev2: set<nat>, str2: set<nat>, sd2: set<nat>, ss2: set<nat>)
    requires b <= b2 < |blocks| && KeyMarkedSoFar(blocks, b, q, b2, dev, str, dev1, str1, sd, ss)
    requires IsMap(blocks, b, q) && |blocks[b].maps| == blocks[b].num
    requires if blocks[b2].data.ItsGroup? then dev2 == dev1 && str2 == str1 && sd2 == ss2 == {}
             else MarkedSoFar(blocks, b, q, b2, |blocks[b2].maps|, dev1, str1, dev2, str2, sd2, ss2)
                  && StraysSoFar(blocks, b, q, b2, q + blocks[b2].num, sd2, ss2)
    ensures KeyMarkedSoFar(blocks, b, q, b2 + 1, dev, str, dev2, str2, sd + sd2, ss + ss2)
  {
    hide KeyMarks, BlockMarks, ToIts, Overlaps, HeaderMap;
    OneMoreBlock(blocks, b, q, b2);
  }

  lemma NumIs(blocks: seq<Block>, b: nat)
    requires TableOk(blocks) && b < |blocks| && !blocks[b].data.ItsGroup?
    ensures |blocks[b].maps| == blocks[b].num
  {
  }

  /** Compares key mapping q of block b with all mappings behind it in the table. */
  method CompareKey(t: IoVirtTable, keyBlock: nat, q: nat, nKeyBlocks: nat,
                    ghost blocks: seq<Block>, ghost b: nat, ghost dev: set<nat>, ghost str: set<nat>)
    returns (ghost dev': set<nat>, ghost str': set<nat>, ghost sd: set<nat>, ghost ss: set<nat>)
    requires TableOk(blocks) && HoldsMarked(t, blocks, dev, str) && IsMap(blocks, b, q)
    requires keyBlock == OffsetOf(blocks, b) && nKeyBlocks == |blocks| - b
    modifies t`mem
    ensures HoldsMarked(t, blocks, dev', str')
    ensures forall i: nat :: i < |blocks| ==> Carries(t.mem, OffsetOf(blocks, i), blocks[i], i in dev', i in str')
    ensures KeyMarkedSoFar(blocks, b, q, |blocks|, dev, str, dev', str', sd, ss)
  {
    hide Carries, OffsetOf, Marked, LaidOut, TableOk, MarkedSoFar, KeyMarkedSoFar, SizeOf, StraysSoFar;
    NumIs(blocks, b);
    dev', str', sd, ss := dev, str, {}, {};
    KeyStart(blocks, b, q, dev, str);
    var block, nBlocks := keyBlock, nKeyBlocks;
    while nBlocks > 0
      invariant 0 <= nBlocks <= |blocks| - b && block == OffsetOf(blocks, |blocks| - nBlocks)
      invariant HoldsMarked(t, blocks, dev', str')
      invariant KeyMarkedSoFar(blocks, b, q, |blocks| - nBlocks, dev, str, dev', str', sd, ss)
    {
      ghost var b2, dev1, str1, sd1, ss1 := |blocks| - nBlocks, dev', str', sd, ss;
      ghost var sd2, ss2 := {}, {};
      MarkedAt(t.mem, blocks, dev', str', b2);
      if !t.mem[block].data.ItsGroup? {
        dev', str', sd2, ss2 := CompareMaps(t, keyBlock, q, block, blocks, b, b2, dev', str');
        MarkedAt(t.mem, blocks, dev', str', b2);
      }
      KeyStep(blocks, b, q, b2, dev, str, dev1, str1, sd1, ss1, dev', str', sd2, ss2);
      sd, ss := sd + sd2, ss + ss2;
      OffsetStep(blocks, b2);
      block := block + SizeOf(t.mem[block].num);
      nBlocks := nBlocks - 1;
    }
    MarkedCarries(t, blocks, dev', str');
  }

  // ---- All key mappings ----

  /** Block i is marked by a key mapping before mapping n of block m. */
  ghost predicate MarksBefore(blocks: seq<Block>, m: nat, n: nat, dev: bool, i: nat) {
    exists b: nat, q: nat :: IsMap(blocks, b, q) && (b < m || (b == m && q < n)) && KeyMarks(blocks, b, q, |blocks|, dev, i)
  }

  /** The key mappings before mapping n of block m. */
  predicate Before(b: nat, q: nat, m: nat, n: nat) { b < m || (b == m && q < n) }

  /** The blocks in s are those marked by stray reads for keys before mapping n of block m: only blocks
      with at least two ID mappings; every one whose key hits the header of the next block; and with
      two ID mappings only such. */
  ghost predicate StraysBefore(blocks: seq<Block>, m: nat, n: nat, s: set<nat>, dev: bool) {
    && (forall i: nat :: i in s ==>
          && i < |blocks| && !blocks[i].data.ItsGroup? && |blocks[i].maps| >= 2
          && (|blocks[i].maps| == 2 && i + 1 < |blocks| ==> StrayHit(blocks, i, 1) && ToIts(blocks, i, 1) == dev))
    && (forall b: nat, q: nat :: IsMap(blocks, b, q) && Before(b, q, m, n) && StrayHit(blocks, b, q) && ToIts(blocks, b, q) == dev ==>
          b in s)
  }

  /** So for the whole table. */
  ghost predicate StraysOk(blocks: seq<Block>, s: set<nat>, dev: bool) { StraysBefore(blocks, |blocks|, 0, s, dev) }

  ghost predicate TableMarked(blocks: seq<Block>, m: nat, n: nat, dev: set<nat>, str: set<nat>, sd: set<nat>, ss: set<nat>) {
    && StraysBefore(blocks, m, n, sd, true) && StraysBefore(blocks, m, n, ss, false)
    && (forall i: nat :: i in dev <==> i in sd || MarksBefore(blocks, m, n, true, i))
    && (forall i: nat :: i in str <==> i in ss || MarksBefore(blocks, m, n, false, i))
  }

  /** One more key mapping. */
  lemma StrayKey(blocks: seq<Block>, b: nat, q: nat, sd: set<nat>, ss: set<nat>, sd2: set<nat>, ss2: set<nat>)
    requires IsMap(blocks, b, q) && sd2 <= {b} && ss2 <= {b} && (q == 0 ==> sd2 == ss2 == {}) && KeyStrays(blocks, b, q, sd2, ss2)
    requires StraysBefore(blocks, b, q, sd, true) && StraysBefore(blocks, b, q, ss, false)
    ensures StraysBefore(blocks, b, q + 1, sd + sd2, true) && StraysBefore(blocks, b, q + 1, ss + ss2, false)
  {
    hide ToIts, StrayHit;
    forall c: nat, p: nat | IsMap(blocks, c, p) && Before(c, p, b, q + 1) && StrayHit(blocks, c, p)
      ensures ToIts(blocks, c, p) ==> c in sd + sd2
      ensures !ToIts(blocks, c, p) ==> c in ss + ss2
    {
      assert Before(c, p, b, q) || (c == b && p == q);
    }
  }

  lemma TableStart(blocks: seq<Block>)
    ensures TableMarked(blocks, 0, 0, {}, {}, {}, {})
  {
  }

  lemma OneMoreKey(blocks: seq<Block>, b: nat, q: nat)
    requires IsMap(blocks, b, q)
    ensures forall i: nat, dev: bool ::
              MarksBefore(blocks, b, q + 1, dev, i) <==> MarksBefore(blocks, b, q, dev, i) || KeyMarks(blocks, b, q, |blocks|, dev, i)
  {
    hide KeyMarks;
    forall i: nat, dev: bool
      ensures MarksBefore(blocks, b, q + 1, dev, i) <==> MarksBefore(blocks, b, q, dev, i) || KeyMarks(blocks, b, q, |blocks|, dev, i)
    {
      if MarksBefore(blocks, b, q + 1, dev, i) && !MarksBefore(blocks, b, q, dev, i) {
        var c: nat, p: nat :| IsMap(blocks, c, p) && (c < b || (c == b && p < q + 1)) && KeyMarks(blocks, c, p, |blocks|, dev, i);
        assert c == b && p == q;
      }
    }
  }

  lemma TableKey(blocks: seq<Block>, b: nat, q: nat, dev: set<nat>, str: set<nat>, sd: set<nat>, ss: set<nat>,
                 dev': set<nat>, str': set<nat>, sd2: set<nat>, ss2: set<nat>)
    requires IsMap(blocks, b, q) && TableMarked(blocks, b, q, dev, str, sd, ss)
    requires KeyMarkedSoFar(blocks, b, q, |blocks|, dev, str, dev', str', sd2, ss2)
    ensures TableMarked(blocks, b, q + 1, dev', str', sd + sd2, ss + ss2)
  {
    hide KeyMarks, MarksBefore, StraysBefore, KeyStrays;
    OneMoreKey(blocks, b, q);
    StrayKey(blocks, b, q, sd, ss, sd2, ss2);
  }

  /** With the last mapping of a block done, or none to do, the next block is up. */
  lemma TableBlock(blocks: seq<Block>, b: nat, n: nat, dev: set<nat>, str: set<nat>, sd: set<nat>, ss: set<nat>)
    requires b < |blocks| && TableMarked(blocks, b, n, dev, str, sd, ss)
    requires !blocks[b].data.ItsGroup? ==> n == |blocks[b].maps|
    ensures TableMarked(blocks, b + 1, 0, dev, str, sd, ss)
  {
    hide KeyMarks, StrayHit, ToIts;
    forall c: nat, p: nat | IsMap(blocks, c, p) && Before(c, p, b + 1, 0) ensures Before(c, p, b, n) {
    }
    forall i: nat, d: bool
      ensures MarksBefore(blocks, b + 1, 0, d, i) <==> MarksBefore(blocks, b, n, d, i)
    {
      if MarksBefore(blocks, b + 1, 0, d, i) {
        var c: nat, p: nat :| IsMap(blocks, c, p) && (c < b + 1 || (c == b + 1 && p < 0)) && KeyMarks(blocks, c, p, |blocks|, d, i);
        assert c < b || (c == b && p < n);
      }
    }
  }

  lemma TableDone(blocks: seq<Block>, dev: set<nat>, str: set<nat>, sd: set<nat>, ss: set<nat>)
    requires TableMarked(blocks, |blocks|, 0, dev, str, sd, ss)
    ensures forall i: nat :: i in dev <==> i in sd || Marks(blocks, true, i)
    ensures forall i: nat :: i in str <==> i in ss || Marks(blocks, false, i)
  {
    hide KeyMarks;
    forall i: nat, d: bool
      ensures MarksBefore(blocks, |blocks|, 0, d, i) <==> Marks(blocks, d, i)
    {
      if Marks(blocks, d, i) {
        var b: nat, q: nat :| IsMap(blocks, b, q) && KeyMarks(blocks, b, q, |blocks|, d, i);
        assert b < |blocks|;
      }
    }
  }

  /** Compares every pair of ID mappings of the table. The device-ID flag is set on exactly
      the blocks that have an overlap on an ITS group, the stream-ID flag on exactly those
      that have one on another target, besides blocks marked by stray reads. */
  method CheckMappingOverlap(t: IoVirtTable, ghost blocks: seq<Block>)
    returns (ghost dev: set<nat>, ghost str: set<nat>, ghost sd: set<nat>, ghost ss: set<nat>)
    requires TableOk(blocks) && t.Holds(blocks)
    modifies t`mem
    ensures HoldsMarked(t, blocks, dev, str) && StraysOk(blocks, sd, true) && StraysOk(blocks, ss, false)
    ensures forall i: nat :: i in dev <==> i in sd || Marks(blocks, true, i)
    ensures forall i: nat :: i in str <==> i in ss || Marks(blocks, false, i)
    ensures forall i: nat :: i < |blocks| ==>
              Carries(t.mem, OffsetOf(blocks, i), blocks[i], i in sd || Marks(blocks, true, i), i in ss || Marks(blocks, false, i))
  {
    MarkedNone(blocks);
    hide Carries, OffsetOf, Marked, LaidOut, KeyMarkedSoFar, SizeOf, CountsOf, RefsOk, Marks;
    dev, str, sd, ss := {}, {}, {}, {};
    TableStart(blocks);
    OffsetFirst(blocks);
    hide TableMarked;
    var keyBlock, nKeyBlocks := TABLE_HEADER, t.numBlocks;
    while nKeyBlocks > 0
      invariant 0 <= nKeyBlocks <= |blocks| && keyBlock == OffsetOf(blocks, |blocks| - nKeyBlocks)
      invariant HoldsMarked(t, blocks, dev, str)
      invariant TableMarked(blocks, |blocks| - nKeyBlocks, 0, dev, str, sd, ss)
    {
      ghost var b := |blocks| - nKeyBlocks;
      MarkedAt(t.mem, blocks, dev, str, b);
      if !t.mem[keyBlock].data.ItsGroup? {
        var q, num := 0, t.mem[keyBlock].num;
        while q < num
          invariant q <= num == |blocks[b].maps| && HoldsMarked(t, blocks, dev, str)
          invariant TableMarked(blocks, b, q, dev, str, sd, ss)
        {
          ghost var dev1, str1, sd2, ss2 := dev, str, {}, {};
          dev, str, sd2, ss2 := CompareKey(t, keyBlock, q, nKeyBlocks, blocks, b, dev, str);
          TableKey(blocks, b, q, dev1, str1, sd, ss, dev, str, sd2, ss2);
          sd, ss := sd + sd2, ss + ss2;
          q := q + 1;
        }
        TableBlock(blocks, b, q, dev, str, sd, ss);
      } else {
        TableBlock(blocks, b, 0, dev, str, sd, ss);
      }
      MarkedAt(t.mem, blocks, dev, str, b);
      OffsetStep(blocks, b);
      keyBlock := keyBlock + SizeOf(t.mem[keyBlock].num);
      nKeyBlocks := nKeyBlocks - 1;
    }
    TableDone(blocks, dev, str, sd, ss);
    TableStrays(blocks, dev, str, sd, ss);
    MarkedCarries(t, blocks, dev, str);
  }

  lemma TableStrays(blocks: seq<Block>, dev: set<nat>, str: set<nat>, sd: set<nat>, ss: set<nat>)
    requires TableMarked(blocks, |blocks|, 0, dev, str, sd, ss)
    ensures StraysOk(blocks, sd, true) && StraysOk(blocks, ss, false)
  {
  }

  /** A block with two ID mappings that is not the last one is marked by a stray read if and only if its
      second mapping overlaps the header of the next block. */
  lemma TwoMapStray(blocks: seq<Block>, s: set<nat>, dev: bool, i: nat)
    requires StraysOk(blocks, s, dev) && i + 1 < |blocks| && !blocks[i].data.ItsGroup? && |blocks[i].maps| == 2
    ensures i in s <==> StrayHit(blocks, i, 1) && ToIts(blocks, i, 1) == dev
  {
    hide ToIts, StrayHit;
    assert IsMap(blocks, i, 1) && Before(i, 1, |blocks|, 0);
  }

  /** A root complex with two disjoint mappings to an ITS group, in front of a PMCG whose base address
      has the group's offset in its upper word: it is marked although nothing overlaps. */
  lemma FalseMark(its: nat, s: set<nat>)
    requires StraysOk(PmcgBehind(its), s, true)
    ensures TableOk(PmcgBehind(its)) && 1 in s && !Marks(PmcgBehind(its), true, 1)
  {
    hide StraysOk;
    var blocks := PmcgBehind(its);
    assert OffsetOf(blocks, 0) == TABLE_HEADER;
    assert IsItsAt(blocks, TABLE_HEADER) && IsBlockAt(blocks, TABLE_HEADER);
    assert HeaderMap(blocks[2]) == IdMap(5, 0, 0x105, 24);
    assert StrayHit(blocks, 1, 1) && ToIts(blocks, 1, 1);
    TwoMapStray(blocks, s, true, 1);
  }

  function PmcgBehind(its: nat): seq<Block> {
    [Block(1, ItsGroup([its]), NO_FLAGS, []),
     Block(2, RootComplex(0, 0, 0, 0), NO_FLAGS, [IdMap(0, 1, 0, 24), IdMap(0x100, 0x10, 0x100, 24)]),
     Block(0, Pmcg(24 * 0x1_0000_0000 + 0x105, 0, 0), NO_FLAGS, [])]
  }

  /** Two distinct mappings with a common target and a common ID mark both their blocks. */
  lemma OverlapMarksBoth(blocks: seq<Block>, b: nat, q: nat, b2: nat, q2: nat, id: nat)
    requires IsMap(blocks, b, q) && IsMap(blocks, b2, q2) && (b < b2 || (b == b2 && q < q2))
    requires var k, m := blocks[b].maps[q], blocks[b2].maps[q2];
             Plain(k) && Plain(m) && k.outputRef == m.outputRef && HasId(k, id) && HasId(m, id)
    ensures Marks(blocks, ToIts(blocks, b, q), b) && Marks(blocks, ToIts(blocks, b, q), b2)
  {
    hide Overlaps, ToIts, OffsetOf;
    OverlapIff(blocks[b].maps[q], blocks[b2].maps[q2]);
    assert Pair(blocks, b, q, b2, q2);
    assert KeyMarks(blocks, b, q, |blocks|, ToIts(blocks, b, q), b) && KeyMarks(blocks, b, q, |blocks|, ToIts(blocks, b, q), b2);
  }
}

/** Searching a function's linked list of capabilities, by two implementations. */
module Capability {
  import opened Common
  import opened PcieConfig

  /** The list in the first 256 bytes, or the extended one from 0x100 on. */
  datatype Kind = Cap | ExtCap

  const CAP_POINTER: nat := 0x34
  const EXT_START: nat := 0x100

  function IdOf(kind: Kind, word: nat): nat { if kind == Cap then word % 256 else word % 0x1_0000 }

  function NextOf(kind: Kind, word: nat): (r: nat)
    ensures r < 4096
  {
    if kind == Cap then word / 256 % 256 else word / 0x10_0000 % 4096
  }

  /** A list: the memory, where the function's space begins, the kind and the first offset. */
  datatype List = List(mem: Memory, base: nat, kind: Kind, start: nat)

  function WordAt(l: List, offset: nat): nat { ReadWord(l.mem, l.base + offset) }

  /** The n-th offset of the list; 0 from its end on. */
  function Nth(l: List, n: nat): nat {
    if n == 0 then l.start
    else
      var before := Nth(l, n - 1);
      if before == 0 then 0 else NextOf(l.kind, WordAt(l, before))
  }

  /** No offset comes twice. */
  ghost predicate Acyclic(l: List) {
    l.start < 4096 && forall i: nat, j: nat :: i < j && Nth(l, i) == Nth(l, j) ==> Nth(l, i) == 0
  }

  predicate Matches(l: List, offset: nat, id: nat) { IdOf(l.kind, WordAt(l, offset)) == id }

  /** The first n capabilities exist and do not match. */
  ghost predicate Passed(l: List, id: nat, n: nat) {
    forall m: nat :: m < n ==> Nth(l, m) != 0 && !Matches(l, Nth(l, m), id)
  }

  /** The first matching capability in list order, or none when the list has none. */
  ghost predicate Finds(l: List, id: nat, r: Option<nat>) {
    exists n: nat ::
      && Passed(l, id, n)
      && match r
         case Some(offset) => offset != 0 && offset == Nth(l, n) && Matches(l, offset, id)
         case None => Nth(l, n) == 0
  }

  /** A search has one result. */
  lemma FindsUnique(l: List, id: nat, r: Option<nat>, s: Option<nat>)
    requires Finds(l, id, r) && Finds(l, id, s)
    ensures r == s
  {
    hide Nth, Matches;
    var n: nat :| Passed(l, id, n) && match r
                  case Some(offset) => offset != 0 && offset == Nth(l, n) && Matches(l, offset, id)
                  case None => Nth(l, n) == 0;
    var m: nat :| Passed(l, id, m) && match s
                  case Some(offset) => offset != 0 && offset == Nth(l, m) && Matches(l, offset, id)
                  case None => Nth(l, m) == 0;
    assert !(n < m) && !(m < n);
  }

  /** Exactly when a search fails: no capability of the list matches. */
  lemma FailsIff(l: List, id: nat, r: Option<nat>)
    requires Finds(l, id, r)
    ensures r == None <==> forall n: nat :: Nth(l, n) == 0 || !Matches(l, Nth(l, n), id)
  {
    hide Matches, Nth;
    var n: nat :| Passed(l, id, n) && match r
                  case Some(offset) => offset != 0 && offset == Nth(l, n) && Matches(l, offset, id)
                  case None => Nth(l, n) == 0;
    if r.None? {
      forall m: nat ensures Nth(l, m) == 0 || !Matches(l, Nth(l, m), id) {
        if m >= n { ZeroStays(l, n, m); }
      }
    } else {
      assert !(Nth(l, n) == 0 || !Matches(l, Nth(l, n), id));
    }
  }

  lemma {:induction false} ZeroStays(l: List, n: nat, m: nat)
    requires n <= m && Nth(l, n) == 0
    ensures Nth(l, m) == 0
  {
    if n < m { ZeroStays(l, n, m - 1); }
  }

  // ---- When a search ends ----

  /** The list ends, or a capability matches first. */
  ghost predicate Ends(l: List, id: nat) {
    exists n: nat :: Nth(l, n) == 0 || Matches(l, Nth(l, n), id)
  }

  /** An offset comes up again before any match or end. */
  ghost predicate Revisits(l: List, id: nat) {
    exists i: nat, j: nat :: i < j && Nth(l, i) == Nth(l, j) && Passed(l, id, j)
  }

  /** From an offset that comes up again on, the list repeats itself. */
  lemma {:induction false} Periodic(l: List, i: nat, j: nat, k: nat)
    requires i < j && Nth(l, i) == Nth(l, j)
    ensures Nth(l, i + k) == Nth(l, j + k)
    decreases k
  {
    hide NextOf, WordAt;
    if k > 0 { Periodic(l, i, j, k - 1); }
  }

  lemma {:induction false} PassedForEver(l: List, id: nat, i: nat, j: nat, n: nat)
    requires i < j && Nth(l, i) == Nth(l, j) && Passed(l, id, j)
    ensures Nth(l, n) != 0 && !Matches(l, Nth(l, n), id)
    decreases n
  {
    hide Nth, Matches;
    if n >= j {
      Periodic(l, i, j, n - j);
      PassedForEver(l, id, i, j, i + (n - j));
    }
  }

  predicate IsOffset(x: nat) { 0 < x < 4096 }

  /** Every offset a list can visit. */
  function Offsets(): set<nat> { set x: nat | x < 4096 && IsOffset(x) }

  /** A walk stands at the n-th offset, with the earlier ones visited. */
  ghost predicate At(l: List, id: nat, n: nat, visited: set<nat>) {
    && Nth(l, n) < 4096 && Passed(l, id, n)
    && visited <= Offsets() && forall x :: x in visited ==> Seen(l, n, x)
  }

  ghost predicate Seen(l: List, n: nat, x: nat) { exists m: nat :: m < n && Nth(l, m) == x }

  lemma SeenMore(l: List, n: nat, x: nat)
    requires Seen(l, n, x) || x == Nth(l, n)
    ensures Seen(l, n + 1, x)
  {
    hide Nth;
    var m: nat :| m <= n && Nth(l, m) == x;
  }

  lemma Advance(l: List, id: nat, n: nat, visited: set<nat>)
    requires At(l, id, n, visited) && Nth(l, n) != 0 && !Matches(l, Nth(l, n), id)
    ensures At(l, id, n + 1, visited + {Nth(l, n)}) && Nth(l, n) in Offsets()
  {
    hide Nth, Matches, NextOf, WordAt, Passed, Seen;
    var offset := Nth(l, n);
    Step(l, id, n);
    forall x | x in visited + {offset} ensures Seen(l, n + 1, x) { SeenMore(l, n, x); }
  }

  /** A walk ends or comes back to an offset: each step uses one up. */
  lemma {:induction false} EndsOrRevisits(l: List, id: nat, n: nat, visited: set<nat>)
    requires At(l, id, n, visited)
    ensures Ends(l, id) || Revisits(l, id)
    decreases Offsets() - visited
  {
    hide Nth, Matches;
    var offset := Nth(l, n);
    if offset == 0 || Matches(l, offset, id) {
      assert Ends(l, id);
    } else if offset in visited {
      var m: nat :| m < n && Nth(l, m) == offset;
      assert Revisits(l, id);
    } else {
      Advance(l, id, n, visited);
      EndsOrRevisits(l, id, n + 1, visited + {offset});
    }
  }

  /** A search runs for ever if and only if it comes back to an offset before any match. */
  lemma RunsForEverIff(l: List, id: nat)
    requires l.start < 4096
    ensures !Ends(l, id) <==> Revisits(l, id)
  {
    hide Nth, Matches;
    Start(l, id);
    EndsOrRevisits(l, id, 0, {});
    if Revisits(l, id) {
      var i: nat, j: nat :| i < j && Nth(l, i) == Nth(l, j) && Passed(l, id, j);
      forall n: nat ensures Nth(l, n) != 0 && !Matches(l, Nth(l, n), id) { PassedForEver(l, id, i, j, n); }
    }
  }

  /** On a list without cycles every search ends. */
  lemma AcyclicEnds(l: List, id: nat)
    requires Acyclic(l)
    ensures Ends(l, id)
  {
    hide Nth, Matches;
    RunsForEverIff(l, id);
  }

  /** A capability whose next pointer is its own offset: the search for any other ID never ends. */
  lemma SelfLinked(offset: nat, own: nat, id: nat)
    requires 0x40 <= offset < 256 && own < 256 && id != own
    ensures var word := offset * 256 + own;
            var l := ListOf(map[CAP_POINTER := offset, offset := word], 0, Cap);
            l.start == offset && !Ends(l, id)
  {
    var word := offset * 256 + own;
    var l := ListOf(map[CAP_POINTER := offset, offset := word], 0, Cap);
    SelfWord(offset, own);
    assert Nth(l, 0) == offset && Nth(l, 1) == offset;
    assert Passed(l, id, 1);
    RunsForEverIff(l, id);
    assert Revisits(l, id);
  }

  lemma SelfWord(offset: nat, own: nat)
    requires offset < 256 && own < 256
    ensures IdOf(Cap, offset * 256 + own) == own && NextOf(Cap, offset * 256 + own) == offset
  {
    CapFields(0, offset, own);
  }

  // ---- Lists written out in memory ----

  /** A capability header: ID in bits 0 to 7, next offset in bits 8 to 15. */
  lemma CapFields(upper: nat, next: nat, id: nat)
    requires next < 256 && id < 256
    ensures var w := upper * 0x1_0000 + next * 0x100 + id; IdOf(Cap, w) == id && NextOf(Cap, w) == next
  {
    var w := upper * 0x1_0000 + next * 0x100 + id;
    assert w == (upper * 256 + next) * 256 + id;
    assert w / 256 == upper * 256 + next;
  }

  /** An extended capability header: ID in bits 0 to 15, version in 16 to 19, next offset in 20 to 31. */
  lemma ExtCapFields(next: nat, version: nat, id: nat)
    requires next < 4096 && version < 16 && id < 0x1_0000
    ensures var w := next * 0x10_0000 + version * 0x1_0000 + id; IdOf(ExtCap, w) == id && NextOf(ExtCap, w) == next
  {
    var w := next * 0x10_0000 + version * 0x1_0000 + id;
    assert w == (next * 16 + version) * 0x1_0000 + id;
    assert w / 0x10_0000 == next;
  }

  /** A capability: its offset, its ID, and the bits of its header that the searches do not look at. */
  datatype Entry = Entry(offset: nat, id: nat, rest: nat)

  predicate EntryOk(kind: Kind, e: Entry) {
    if kind == Cap then 0 < e.offset < 256 && e.id < 256 else 0 < e.offset < 4096 && e.id < 0x1_0000 && e.rest < 16
  }

  function Header(kind: Kind, e: Entry, next: nat): nat {
    if kind == Cap then e.rest * 0x1_0000 + next * 0x100 + e.id else next * 0x10_0000 + e.rest * 0x1_0000 + e.id
  }

  /** Memory from base on holds these capabilities, each linked to the next one and the last one to
      none, from the capability pointer in byte 0x34 or from 0x100 on. */
  predicate Holds(mem: Memory, base: nat, kind: Kind, entries: seq<Entry>) {
    && (forall i :: 0 <= i < |entries| ==>
          && EntryOk(kind, entries[i])
          && ReadWord(mem, base + entries[i].offset) == Header(kind, entries[i], OffsetAt(entries, i + 1)))
    && (if kind == Cap then ReadWord(mem, base + 0x34) % 256 == OffsetAt(entries, 0) else OffsetAt(entries, 0) == 0x100)
  }

  function OffsetAt(entries: seq<Entry>, i: nat): nat { if i < |entries| then entries[i].offset else 0 }

  /** What the searches make of entry i. */
  lemma HeldAt(mem: Memory, base: nat, kind: Kind, entries: seq<Entry>, i: nat)
    requires Holds(mem, base, kind, entries) && i < |entries|
    ensures var w := ReadWord(mem, base + entries[i].offset);
            entries[i].offset != 0 && IdOf(kind, w) == entries[i].id && NextOf(kind, w) == OffsetAt(entries, i + 1)
  {
    hide IdOf, NextOf, Header;
    HeaderFields(kind, entries[i], OffsetAt(entries, i + 1));
  }

  lemma HeldStart(mem: Memory, base: nat, kind: Kind, entries: seq<Entry>)
    requires Holds(mem, base, kind, entries)
    ensures ListOf(mem, base, kind).start == OffsetAt(entries, 0)
  {
  }

  lemma {:induction false} NthOffset(mem: Memory, base: nat, kind: Kind, entries: seq<Entry>, n: nat)
    requires Holds(mem, base, kind, entries) && n <= |entries|
    ensures Nth(ListOf(mem, base, kind), n) == OffsetAt(entries, n)
    ensures n < |entries| ==> IdOf(kind, WordAt(ListOf(mem, base, kind), OffsetAt(entries, n))) == entries[n].id
  {
    hide IdOf, NextOf, Holds, Header;
    if n < |entries| { HeldAt(mem, base, kind, entries, n); }
    if n == 0 {
      HeldStart(mem, base, kind, entries);
    } else {
      NthOffset(mem, base, kind, entries, n - 1);
      HeldAt(mem, base, kind, entries, n - 1);
    }
  }

  lemma HeaderFields(kind: Kind, e: Entry, next: nat)
    requires EntryOk(kind, e) && next < if kind == Cap then 256 else 4096
    ensures IdOf(kind, Header(kind, e, next)) == e.id && NextOf(kind, Header(kind, e, next)) == next
  {
    hide IdOf, NextOf;
    if kind == Cap { CapFields(e.rest, next, e.id); } else { ExtCapFields(next, e.rest, e.id); }
  }

  /** Entry n is the first with the ID; n is the number of entries when none has it. */
  predicate FirstWith(entries: seq<Entry>, id: nat, n: nat) {
    n <= |entries| && (n < |entries| ==> entries[n].id == id) && forall i :: 0 <= i < n ==> entries[i].id != id
  }

  /** On a list that lies in memory the search ends, at the first capability with the ID or at the end. */
  lemma HeldFinds(mem: Memory, base: nat, kind: Kind, entries: seq<Entry>, id: nat, n: nat)
    requires Holds(mem, base, kind, entries) && FirstWith(entries, id, n)
    ensures var l := ListOf(mem, base, kind);
            Ends(l, id) && Finds(l, id, if n < |entries| then Some(entries[n].offset) else None)
  {
    hide Nth, IdOf, NextOf, Holds;
    var l := ListOf(mem, base, kind);
    NthOffset(mem, base, kind, entries, n);
    if n < |entries| { HeldAt(mem, base, kind, entries, n); }
    forall m: nat | m < n ensures Nth(l, m) != 0 && !Matches(l, Nth(l, m), id) {
      HeldAt(mem, base, kind, entries, m);
      NthOffset(mem, base, kind, entries, m);
    }
    Stops(l, id, n);
  }

  lemma Start(l: List, id: nat)
    ensures Passed(l, id, 0) && Nth(l, 0) == l.start
  {
  }

  lemma Step(l: List, id: nat, n: nat)
    requires Passed(l, id, n) && Nth(l, n) != 0 && !Matches(l, Nth(l, n), id)
    ensures Passed(l, id, n + 1) && Nth(l, n + 1) == NextOf(l.kind, WordAt(l, Nth(l, n)))
  {
    hide Matches, NextOf, WordAt;
  }

  lemma Stops(l: List, id: nat, n: nat)
    requires Passed(l, id, n) && (Nth(l, n) == 0 || Matches(l, Nth(l, n), id))
    ensures Finds(l, id, if Nth(l, n) == 0 then None else Some(Nth(l, n)))
  {
    hide Nth, Matches;
  }

  /** A search that ends is not past its end. */
  lemma NotPast(l: List, id: nat, n: nat, last: nat)
    requires Passed(l, id, n) && (Nth(l, last) == 0 || Matches(l, Nth(l, last), id))
    ensures n <= last
  {
    hide Nth, Matches;
  }

  lemma LastOf(l: List, id: nat) returns (last: nat)
    requires Ends(l, id)
    ensures Nth(l, last) == 0 || Matches(l, Nth(l, last), id)
  {
    hide Nth, Matches;
    last :| Nth(l, last) == 0 || Matches(l, Nth(l, last), id);
  }

  // ---- The suite's search ----

  /** Not mapped; found; reported as success without an offset; not found. */
  datatype Outcome = NotMapped | FoundAt(offset: nat) | NoOffset | NotFound

  function BaseOf(ecams: seq<Ecam>, b: Bdf): nat
    requires Mapped(ecams, b)
  {
    ecams[FindEcam(ecams, b)].base + CfgOffset(b)
  }

  /** The list a search of this kind follows. */
  function ListOf(mem: Memory, base: nat, kind: Kind): List {
    List(mem, base, kind, if kind == Cap then ReadWord(mem, base + CAP_POINTER) % 256 else EXT_START)
  }

  /** Follows the list with configuration reads, where that ends. It gives the first match in
      list order, and fails exactly when there is none; a capability pointer register that reads as all ones
      is reported as a success that sets no offset. */
  method FindCapability(space: ConfigSpace, bdf: nat, kind: Kind, id: nat) returns (r: Outcome)
    requires var b := ExtractBdf(bdf);
             if !Mapped(space.ecams, b) then kind == Cap
             else
               var base := BaseOf(space.ecams, b);
               (kind == Cap && ReadWord(space.mem, base + 0x34) == 0xFFFF_FFFF) || Ends(ListOf(space.mem, base, kind), id)
    ensures r == NotMapped <==> !Mapped(space.ecams, ExtractBdf(bdf))
    ensures Mapped(space.ecams, ExtractBdf(bdf)) ==>
              var base := BaseOf(space.ecams, ExtractBdf(bdf));
              if kind == Cap && ReadWord(space.mem, base + 0x34) == 0xFFFF_FFFF then r == NoOffset
              else r != NoOffset && Finds(ListOf(space.mem, base, kind), id, if r.FoundAt? then Some(r.offset) else None)
  {
    hide FindEcam, CfgOffset, ExtractBdf, Ends, Nth, Finds, IdOf, NextOf, Passed;
    var next: nat := EXT_START;
    if kind == Cap {
      var first := space.ReadCfg(bdf, CAP_POINTER);
      if first == NoMapping {
        return NotMapped;
      }
      if first.word == ALL_ONES {
        return NoOffset;
      }
      next := first.word % 256;
    }
    ghost var l := ListOf(space.mem, BaseOf(space.ecams, ExtractBdf(bdf)), kind);
    ghost var n: nat := 0;
    ghost var last := LastOf(l, id);
    Start(l, id);
    NotPast(l, id, 0, last);
    while next != 0
      invariant Passed(l, id, n) && next == Nth(l, n) && n <= last
      decreases last - n
    {
      var data := space.ReadCfg(bdf, next);
      assert data.word == WordAt(l, next);
      if IdOf(kind, data.word) == id {
        Stops(l, id, n);
        return FoundAt(next);
      }
      Step(l, id, n);
      NotPast(l, id, n + 1, last);
      n := n + 1;
      next := NextOf(kind, data.word);
    }
    Stops(l, id, n);
    return NotFound;
  }

  // ---- The exerciser's search ----

  /** Follows the list with reads relative to the first ECAM of the platform. */
  method FindPcieCapability(mem: Memory, ecam: nat, bdf: nat, kind: Kind, id: nat) returns (r: Option<nat>)
    requires Ends(ListOf(mem, ecam + CfgOffset(ExtractBdf(bdf)), kind), id)
    ensures Finds(ListOf(mem, ecam + CfgOffset(ExtractBdf(bdf)), kind), id, r)
  {
    hide CfgOffset, ExtractBdf, Ends, Nth, Finds, IdOf, NextOf, Passed;
    var base := ecam + CfgOffset(ExtractBdf(bdf));
    var next: nat := EXT_START;
    if kind == Cap {
      next := ReadWord(mem, base + CAP_POINTER) % 256;
    }
    ghost var l := ListOf(mem, base, kind);
    ghost var n: nat := 0;
    ghost var last := LastOf(l, id);
    Start(l, id);
    NotPast(l, id, 0, last);
    while next != 0
      invariant Passed(l, id, n) && next == Nth(l, n) && n <= last
      decreases last - n
    {
      var data := ReadWord(mem, base + next);
      if IdOf(kind, data) == id {
        Stops(l, id, n);
        return Some(next);
      }
      Step(l, id, n);
      NotPast(l, id, n + 1, last);
      n := n + 1;
      next := NextOf(kind, data);
    }
    Stops(l, id, n);
    return None;
  }

  /** For a function of the first ECAM whose capability pointer register does not read as all
      ones, both searches give the same result. */
  method SearchesAgree(space: ConfigSpace, bdf: nat, kind: Kind, id: nat) returns (r: Outcome, s: Option<nat>)
    requires var b := ExtractBdf(bdf);
             && Mapped(space.ecams, b) && FindEcam(space.ecams, b) == 0
             && Ends(ListOf(space.mem, BaseOf(space.ecams, b), kind), id)
             && (kind == Cap ==> ReadWord(space.mem, BaseOf(space.ecams, b) + 0x34) != 0xFFFF_FFFF)
    ensures r == if s.Some? then FoundAt(s.value) else NotFound
  {
    hide FindEcam, CfgOffset, ExtractBdf, Ends, Finds;
    r := FindCapability(space, bdf, kind, id);
    s := FindPcieCapability(space.mem, space.ecams[0].base, bdf, kind, id);
    FindsUnique(ListOf(space.mem, BaseOf(space.ecams, ExtractBdf(bdf)), kind), id, if r.FoundAt? then Some(r.offset) else None, s);
  }

  /** Both searches on a list that lies in the memory of a function of the first ECAM: the offset of the
      first capability with the ID, or a failure when none has it. */
  method SearchHeld(space: ConfigSpace, bdf: nat, kind: Kind, id: nat, ghost entries: seq<Entry>, ghost n: nat)
    returns (r: Outcome, s: Option<nat>)
    requires var b := ExtractBdf(bdf);
             && Mapped(space.ecams, b) && FindEcam(space.ecams, b) == 0 && FirstWith(entries, id, n)
             && Holds(space.mem, BaseOf(space.ecams, b), kind, entries)
             && (kind == Cap ==> ReadWord(space.mem, BaseOf(space.ecams, b) + 0x34) != 0xFFFF_FFFF)
    ensures r == if n < |entries| then FoundAt(entries[n].offset) else NotFound
    ensures s == if n < |entries| then Some(entries[n].offset) else None
  {
    hide FindEcam, CfgOffset, ExtractBdf, Ends, Finds, Holds;
    ghost var base := BaseOf(space.ecams, ExtractBdf(bdf));
    ghost var l := ListOf(space.mem, base, kind);
    HeldFinds(space.mem, base, kind, entries, id, n);
    r := FindCapability(space, bdf, kind, id);
    s := FindPcieCapability(space.mem, space.ecams[0].base, bdf, kind, id);
    ghost var found := if n < |entries| then Some(entries[n].offset) else None;
    FindsUnique(l, id, if r.FoundAt? then Some(r.offset) else None, found);
    FindsUnique(l, id, s, found);
    if n < |entries| { OffsetNotZero(l, id, found.value); }
  }

  lemma OffsetNotZero(l: List, id: nat, offset: nat)
    requires Finds(l, id, Some(offset))
    ensures offset != 0
  {
  }

  /** Two extended capabilities, searched for the second one. */
  lemma SecondFound(mem: Memory, base: nat)
    requires ReadWord(mem, base + 0x100) == 0x1501_0001 && ReadWord(mem, base + 0x150) == 0x0001_000D
    ensures var l := ListOf(mem, base, ExtCap); Ends(l, 0x0D) && Finds(l, 0x0D, Some(0x150))
  {
    var entries := [Entry(0x100, 1, 1), Entry(0x150, 0x0D, 1)];
    assert Holds(mem, base, ExtCap, entries);
    HeldFinds(mem, base, ExtCap, entries, 0x0D, 1);
  }
}

/** Walking all functions of all ECAMs: four nested loops on one side, a successor function on
    packed BDF words on the other. */
module BdfIterator {
  import opened PcieConfig

  function Word(e: Ecam, bus: nat, dev: nat, func: nat): nat { CreateBdf(Bdf(e.segment, bus, dev, func)) }

  /** What the nested loops still visit from the given loop variables on. */
  function Rest(ecams: seq<Ecam>, i: nat, bus: nat, dev: nat, func: nat): seq<nat>
    requires i <= |ecams| && dev <= MAX_DEV && func <= MAX_FUNC
    decreases |ecams| - i, if i < |ecams| && bus <= ecams[i].endBus then ecams[i].endBus + 1 - bus else 0, MAX_DEV - dev, MAX_FUNC - func
  {
    if i == |ecams| then []
    else if bus > ecams[i].endBus then Rest(ecams, i + 1, if i + 1 < |ecams| then ecams[i + 1].startBus else 0, 0, 0)
    else if dev == MAX_DEV then Rest(ecams, i, bus + 1, 0, 0)
    else if func == MAX_FUNC then Rest(ecams, i, bus, dev + 1, 0)
    else [Word(ecams[i], bus, dev, func)] + Rest(ecams, i, bus, dev, func + 1)
  }

  /** From the first function of ECAM i on. */
  function From(ecams: seq<Ecam>, i: nat): seq<nat>
    requires i <= |ecams|
  {
    Rest(ecams, i, if i < |ecams| then ecams[i].startBus else 0, 0, 0)
  }

  lemma AfterFuncs(ecams: seq<Ecam>, i: nat, bus: nat, dev: nat)
    requires i < |ecams| && bus <= ecams[i].endBus && dev < MAX_DEV
    ensures Rest(ecams, i, bus, dev, MAX_FUNC) == Rest(ecams, i, bus, dev + 1, 0)
  {
  }

  lemma AfterDevs(ecams: seq<Ecam>, i: nat, bus: nat)
    requires i < |ecams| && bus <= ecams[i].endBus
    ensures Rest(ecams, i, bus, MAX_DEV, 0) == Rest(ecams, i, bus + 1, 0, 0)
  {
  }

  lemma AfterBuses(ecams: seq<Ecam>, i: nat, bus: nat)
    requires i < |ecams| && bus > ecams[i].endBus
    ensures Rest(ecams, i, bus, 0, 0) == From(ecams, i + 1)
  {
  }

  lemma Here(ecams: seq<Ecam>, i: nat, bus: nat, dev: nat, func: nat)
    requires i < |ecams| && bus <= ecams[i].endBus && dev < MAX_DEV && func < MAX_FUNC
    ensures Rest(ecams, i, bus, dev, func) == [Word(ecams[i], bus, dev, func)] + Rest(ecams, i, bus, dev, func + 1)
  {
  }

  lemma NothingLeft(ecams: seq<Ecam>)
    ensures From(ecams, |ecams|) == []
  {
  }

  /** The enumeration's four loops. */
  method Enumerate(ecams: seq<Ecam>) returns (bdfs: seq<nat>)
    ensures bdfs == From(ecams, 0)
  {
    hide Rest, CreateBdf;
    NothingLeft(ecams);
    bdfs := [];
    var i := 0;
    while i < |ecams|
      invariant i <= |ecams| && bdfs + From(ecams, i) == From(ecams, 0)
    {
      var bus := ecams[i].startBus;
      while bus <= ecams[i].endBus
        invariant bdfs + Rest(ecams, i, bus, 0, 0) == From(ecams, 0)
        decreases ecams[i].endBus + 1 - bus
      {
        var dev := 0;
        while dev < MAX_DEV
          invariant dev <= MAX_DEV && bdfs + Rest(ecams, i, bus, dev, 0) == From(ecams, 0)
        {
          var func := 0;
          while func < MAX_FUNC
            invariant func <= MAX_FUNC && bdfs + Rest(ecams, i, bus, dev, func) == From(ecams, 0)
          {
            Here(ecams, i, bus, dev, func);
            bdfs := bdfs + [Word(ecams[i], bus, dev, func)];
            func := func + 1;
          }
          AfterFuncs(ecams, i, bus, dev);
          dev := dev + 1;
        }
        AfterDevs(ecams, i, bus);
        bus := bus + 1;
      }
      AfterBuses(ecams, i, bus);
      i := i + 1;
    }
  }

  // ---- The successor ----

  /** ECAMs with segments and buses that fit a BDF, no segment twice, at least one bus each. */
  predicate Tidy(ecams: seq<Ecam>) {
    && (forall i :: 0 <= i < |ecams| ==> ecams[i].segment < 256 && ecams[i].startBus <= ecams[i].endBus < 256)
    && (forall i, j :: 0 <= i < j < |ecams| ==> ecams[i].segment != ecams[j].segment)
  }

  /** The next BDF, or 0 at the end or for a segment no ECAM has. On a function `at` of ECAM i
      it gives what the nested loops visit next. */
  method IncrementBdf(ecams: seq<Ecam>, bdf: nat, ghost i: nat, ghost at: Bdf) returns (next: nat)
    ensures (forall k :: 0 <= k < |ecams| ==> ecams[k].segment != ExtractBdf(bdf).seg) ==> next == 0
    ensures Tidy(ecams) && Visited(ecams, i, at) && bdf == CreateBdf(at) ==>
              next == First(Rest(ecams, i, at.bus, at.dev, at.func + 1))
  {
    hide CreateBdf, ExtractBdf;
    if Bytes(at) { BdfRoundTrip(at); }
    if Tidy(ecams) && Visited(ecams, i, at) { StepRest(ecams, i, at); }
    hide Rest;
    var b := ExtractBdf(bdf);
    var e := |ecams| - 1;
    while e >= 0 && b.seg != ecams[e].segment
      invariant -1 <= e < |ecams| && forall k :: e < k < |ecams| ==> ecams[k].segment != b.seg
    {
      e := e - 1;
    }
    if e < 0 {
      return 0;
    }
    if b.func < MAX_FUNC - 1 {
      b := b.(func := b.func + 1);
    } else {
      b := b.(func := 0);
      if b.dev < MAX_DEV - 1 {
        b := b.(dev := b.dev + 1);
      } else {
        b := b.(dev := 0);
        if b.bus < ecams[e].endBus {
          b := b.(bus := b.bus + 1);
        } else if e + 1 < |ecams| {
          b := b.(bus := ecams[e + 1].startBus, seg := ecams[e + 1].segment);
        } else {
          return 0;
        }
      }
    }
    return CreateBdf(b);
  }

  function First(bdfs: seq<nat>): nat { if bdfs == [] then 0 else bdfs[0] }

  /** A function of ECAM i. */
  predicate Visited(ecams: seq<Ecam>, i: nat, b: Bdf) {
    i < |ecams| && b.seg == ecams[i].segment && ecams[i].startBus <= b.bus <= ecams[i].endBus && b.dev < MAX_DEV && b.func < MAX_FUNC
    && Bytes(b)
  }

  /** The first element left after a function. */
  lemma StepRest(ecams: seq<Ecam>, i: nat, b: Bdf)
    requires Tidy(ecams) && i < |ecams| && Visited(ecams, i, b)
    ensures First(Rest(ecams, i, b.bus, b.dev, b.func + 1)) ==
            if b.func < MAX_FUNC - 1 then CreateBdf(b.(func := b.func + 1))
            else if b.dev < MAX_DEV - 1 then CreateBdf(b.(func := 0, dev := b.dev + 1))
            else if b.bus < ecams[i].endBus then CreateBdf(b.(func := 0, dev := 0, bus := b.bus + 1))
            else if i + 1 < |ecams| then CreateBdf(Bdf(ecams[i + 1].segment, ecams[i + 1].startBus, 0, 0))
            else 0
  {
    hide CreateBdf;
    if b.func == MAX_FUNC - 1 {
      assert Rest(ecams, i, b.bus, b.dev, MAX_FUNC) == Rest(ecams, i, b.bus, b.dev + 1, 0);
      if b.dev == MAX_DEV - 1 {
        assert Rest(ecams, i, b.bus, MAX_DEV, 0) == Rest(ecams, i, b.bus + 1, 0, 0);
      }
    }
  }

  /** Where the loops go after a function: inside the ECAM, or to the start of the next one. */
  lemma NextPlace(ecams: seq<Ecam>, i: nat, at: Bdf) returns (i': nat, at': Bdf)
    requires Tidy(ecams) && Visited(ecams, i, at) && Rest(ecams, i, at.bus, at.dev, at.func + 1) != []
    ensures Visited(ecams, i', at')
    ensures Rest(ecams, i, at.bus, at.dev, at.func + 1) == [CreateBdf(at')] + Rest(ecams, i', at'.bus, at'.dev, at'.func + 1)
    ensures if i' == i then at' != Bdf(0, 0, 0, 0)
            else i' == i + 1 && at' == Bdf(ecams[i'].segment, ecams[i'].startBus, 0, 0)
                 && Rest(ecams, i, at.bus, at.dev, at.func + 1) == From(ecams, i')
  {
    hide CreateBdf, Rest;
    i', at' := i, at;
    if at.func < MAX_FUNC - 1 {
      at' := at.(func := at.func + 1);
    } else {
      AfterFuncs(ecams, i, at.bus, at.dev);
      if at.dev < MAX_DEV - 1 {
        at' := at.(func := 0, dev := at.dev + 1);
      } else {
        AfterDevs(ecams, i, at.bus);
        if at.bus < ecams[i].endBus {
          at' := at.(func := 0, dev := 0, bus := at.bus + 1);
        } else {
          AfterBuses(ecams, i, at.bus + 1);
          NothingLeft(ecams);
          i' := i + 1;
          at' := Bdf(ecams[i'].segment, ecams[i'].startBus, 0, 0);
        }
      }
    }
    Here(ecams, i', at'.bus, at'.dev, at'.func);
  }

  lemma ZeroWord(b: Bdf)
    requires Bytes(b) && CreateBdf(b) == 0
    ensures b == Bdf(0, 0, 0, 0)
  {
  }

  /** The first function of the ECAM has BDF 0. */
  predicate StartsAtZero(e: Ecam) { e.segment == 0 && e.startBus == 0 }

  /** The first ECAM from i on that starts at BDF 0, or the number of ECAMs. */
  function Stop(ecams: seq<Ecam>, i: nat): (r: nat)
    requires i <= |ecams|
    ensures i <= r <= |ecams| && (r < |ecams| ==> StartsAtZero(ecams[r]))
    ensures forall k :: i <= k < r ==> !StartsAtZero(ecams[k])
    decreases |ecams| - i
  {
    if i == |ecams| || StartsAtZero(ecams[i]) then i else Stop(ecams, i + 1)
  }

  /** Repeats the successor from the first BDF until it gives 0. It visits what the nested
      loops visit, in order, up to an ECAM after the first that starts at BDF 0. */
  method Iterate(ecams: seq<Ecam>) returns (bdfs: seq<nat>)
    requires Tidy(ecams) && |ecams| > 0
    ensures bdfs + From(ecams, Stop(ecams, 1)) == From(ecams, 0)
  {
    hide CreateBdf, Rest, Tidy, Stop;
    ghost var i, at := StartPlace(ecams);
    var bdf := Word(ecams[0], ecams[0].startBus, 0, 0);
    bdfs := [bdf];
    var next := IncrementBdf(ecams, bdf, i, at);
    while next != 0
      invariant Visited(ecams, i, at) && bdfs + Rest(ecams, i, at.bus, at.dev, at.func + 1) == From(ecams, 0)
      invariant next == First(Rest(ecams, i, at.bus, at.dev, at.func + 1))
      invariant forall k :: 0 < k <= i ==> !StartsAtZero(ecams[k])
      decreases |From(ecams, 0)| - |bdfs|
    {
      ghost var rest := Rest(ecams, i, at.bus, at.dev, at.func + 1);
      i, at := NextPlace(ecams, i, at);
      ZeroPlace(ecams, i, at);
      assert bdfs + rest == (bdfs + [next]) + rest[1..];
      bdfs := bdfs + [next];
      next := IncrementBdf(ecams, next, i, at);
    }
    Ended(ecams, i, at);
  }

  lemma StartPlace(ecams: seq<Ecam>) returns (i: nat, at: Bdf)
    requires Tidy(ecams) && |ecams| > 0
    ensures i == 0 && at == Bdf(ecams[0].segment, ecams[0].startBus, 0, 0) && Visited(ecams, i, at)
    ensures From(ecams, 0) == [CreateBdf(at)] + Rest(ecams, 0, at.bus, at.dev, at.func + 1)
  {
    i, at := 0, Bdf(ecams[0].segment, ecams[0].startBus, 0, 0);
  }

  lemma ZeroPlace(ecams: seq<Ecam>, i: nat, at: Bdf)
    requires Visited(ecams, i, at)
    ensures StartsAtZero(ecams[i]) && at == Bdf(ecams[i].segment, ecams[i].startBus, 0, 0) ==> CreateBdf(at) == 0
    ensures CreateBdf(at) == 0 ==> StartsAtZero(ecams[i]) && at == Bdf(0, 0, 0, 0)
  {
    ZeroWords();
    hide CreateBdf;
    if CreateBdf(at) == 0 { ZeroWord(at); }
  }

  lemma ZeroWords()
    ensures CreateBdf(Bdf(0, 0, 0, 0)) == 0
  {
  }

  /** The successor gave 0 after a function of ECAM i. */
  lemma Ended(ecams: seq<Ecam>, i: nat, at: Bdf)
    requires Tidy(ecams) && Visited(ecams, i, at) && forall k :: 0 < k <= i ==> !StartsAtZero(ecams[k])
    requires First(Rest(ecams, i, at.bus, at.dev, at.func + 1)) == 0
    ensures Rest(ecams, i, at.bus, at.dev, at.func + 1) == From(ecams, Stop(ecams, 1))
  {
    hide Rest, CreateBdf, Tidy;
    if Rest(ecams, i, at.bus, at.dev, at.func + 1) == [] {
      LastEcam(ecams, i, at);
    } else {
      var i', at' := NextPlace(ecams, i, at);
      ZeroPlace(ecams, i', at');
      StopIs(ecams, i');
    }
  }

  lemma LastEcam(ecams: seq<Ecam>, i: nat, at: Bdf)
    requires Tidy(ecams) && Visited(ecams, i, at) && forall k :: 0 < k <= i ==> !StartsAtZero(ecams[k])
    requires Rest(ecams, i, at.bus, at.dev, at.func + 1) == []
    ensures From(ecams, Stop(ecams, 1)) == []
  {
    RestAfter(ecams, i, at);
    StopIs(ecams, |ecams|);
  }

  lemma RestAfter(ecams: seq<Ecam>, i: nat, at: Bdf)
    requires Tidy(ecams) && Visited(ecams, i, at) && Rest(ecams, i, at.bus, at.dev, at.func + 1) == []
    ensures i == |ecams| - 1
  {
    hide Rest;
    if at.func < MAX_FUNC - 1 {
      Here(ecams, i, at.bus, at.dev, at.func + 1);
    } else {
      AfterFuncs(ecams, i, at.bus, at.dev);
      if at.dev < MAX_DEV - 1 {
        Here(ecams, i, at.bus, at.dev + 1, 0);
      } else {
        AfterDevs(ecams, i, at.bus);
        if at.bus < ecams[i].endBus {
          Here(ecams, i, at.bus + 1, 0, 0);
        } else {
          AfterBuses(ecams, i, at.bus + 1);
          if i + 1 < |ecams| { Here(ecams, i + 1, ecams[i + 1].startBus, 0, 0); }
        }
      }
    }
  }

  lemma StopIs(ecams: seq<Ecam>, r: nat)
    requires 0 < r <= |ecams| && (r < |ecams| ==> StartsAtZero(ecams[r])) && forall k :: 0 < k < r ==> !StartsAtZero(ecams[k])
    ensures Stop(ecams, 1) == r
  {
    var t := Stop(ecams, 1);
    assert !(t < r) && !(r < t);
  }

  /** The successor visits exactly what the nested loops visit if and only if no ECAM but the
      first starts at BDF 0. */
  lemma IteratorIff(ecams: seq<Ecam>, bdfs: seq<nat>)
    requires Tidy(ecams) && |ecams| > 0 && bdfs + From(ecams, Stop(ecams, 1)) == From(ecams, 0)
    ensures bdfs == From(ecams, 0) <==> forall k :: 0 < k < |ecams| ==> !StartsAtZero(ecams[k])
  {
    var t := Stop(ecams, 1);
    if t < |ecams| {
      assert From(ecams, t) == [Word(ecams[t], ecams[t].startBus, 0, 0)] + Rest(ecams, t, ecams[t].startBus, 0, 1);
      assert |bdfs| < |From(ecams, 0)|;
    } else {
      assert From(ecams, t) == [];
    }
  }

  // ---- No function twice ----

  predicate Distinct(s: seq<nat>) { forall a, b :: 0 <= a < b < |s| ==> s[a] != s[b] }

  /** Position (k, b) is not before (i, bus, dev, func). */
  predicate NotBefore(k: nat, b: Bdf, i: nat, bus: nat, dev: nat, func: nat) {
    k > i || (k == i && (b.bus > bus || (b.bus == bus && (b.dev > dev || (b.dev == dev && b.func >= func)))))
  }

  predicate Started(ecams: seq<Ecam>, i: nat, bus: nat) { i < |ecams| ==> ecams[i].startBus <= bus }

  lemma {:induction false} Member(ecams: seq<Ecam>, i: nat, bus: nat, dev: nat, func: nat, w: nat) returns (k: nat, b: Bdf)
    requires Tidy(ecams) && i <= |ecams| && dev <= MAX_DEV && func <= MAX_FUNC && Started(ecams, i, bus)
    requires w in Rest(ecams, i, bus, dev, func)
    ensures Visited(ecams, k, b) && w == CreateBdf(b) && NotBefore(k, b, i, bus, dev, func)
    decreases |ecams| - i, if i < |ecams| && bus <= ecams[i].endBus then ecams[i].endBus + 1 - bus else 0, MAX_DEV - dev, MAX_FUNC - func
  {
    hide CreateBdf, Rest;
    if i == |ecams| {
      RestEnd(ecams, bus, dev, func);
      assert false;
    }
    if bus > ecams[i].endBus {
      PastBuses(ecams, i, bus, dev, func);
      k, b := Member(ecams, i + 1, if i + 1 < |ecams| then ecams[i + 1].startBus else 0, 0, 0, w);
    } else if dev == MAX_DEV {
      PastDevs(ecams, i, bus, func);
      k, b := Member(ecams, i, bus + 1, 0, 0, w);
    } else if func == MAX_FUNC {
      AfterFuncs(ecams, i, bus, dev);
      k, b := Member(ecams, i, bus, dev + 1, 0, w);
    } else if w == Word(ecams[i], bus, dev, func) {
      k, b := i, Bdf(ecams[i].segment, bus, dev, func);
    } else {
      Here(ecams, i, bus, dev, func);
      k, b := Member(ecams, i, bus, dev, func + 1, w);
    }
  }

  lemma RestEnd(ecams: seq<Ecam>, bus: nat, dev: nat, func: nat)
    requires dev <= MAX_DEV && func <= MAX_FUNC
    ensures Rest(ecams, |ecams|, bus, dev, func) == []
  {
  }

  lemma PastBuses(ecams: seq<Ecam>, i: nat, bus: nat, dev: nat, func: nat)
    requires i < |ecams| && bus > ecams[i].endBus && dev <= MAX_DEV && func <= MAX_FUNC
    ensures Rest(ecams, i, bus, dev, func) == Rest(ecams, i + 1, if i + 1 < |ecams| then ecams[i + 1].startBus else 0, 0, 0)
  {
  }

  lemma PastDevs(ecams: seq<Ecam>, i: nat, bus: nat, func: nat)
    requires i < |ecams| && bus <= ecams[i].endBus && func <= MAX_FUNC
    ensures Rest(ecams, i, bus, MAX_DEV, func) == Rest(ecams, i, bus + 1, 0, 0)
  {
  }

  lemma HeadIsNew(ecams: seq<Ecam>, i: nat, bus: nat, dev: nat, func: nat)
    requires Tidy(ecams) && i < |ecams| && dev < MAX_DEV && func < MAX_FUNC && ecams[i].startBus <= bus <= ecams[i].endBus
    ensures Word(ecams[i], bus, dev, func) !in Rest(ecams, i, bus, dev, func + 1)
  {
    hide CreateBdf, Rest, ExtractBdf;
    var w := Word(ecams[i], bus, dev, func);
    if w in Rest(ecams, i, bus, dev, func + 1) {
      var k, b := Member(ecams, i, bus, dev, func + 1, w);
      BdfRoundTrip(b);
      BdfRoundTrip(Bdf(ecams[i].segment, bus, dev, func));
      assert false;
    }
  }

  lemma {:induction false} RestDistinct(ecams: seq<Ecam>, i: nat, bus: nat, dev: nat, func: nat)
    requires Tidy(ecams) && i <= |ecams| && dev <= MAX_DEV && func <= MAX_FUNC && Started(ecams, i, bus)
    ensures Distinct(Rest(ecams, i, bus, dev, func))
    decreases |ecams| - i, if i < |ecams| && bus <= ecams[i].endBus then ecams[i].endBus + 1 - bus else 0, MAX_DEV - dev, MAX_FUNC - func
  {
    hide CreateBdf, Rest;
    if i == |ecams| {
      RestEnd(ecams, bus, dev, func);
    } else if bus > ecams[i].endBus {
      PastBuses(ecams, i, bus, dev, func);
      RestDistinct(ecams, i + 1, if i + 1 < |ecams| then ecams[i + 1].startBus else 0, 0, 0);
    } else if dev == MAX_DEV {
      PastDevs(ecams, i, bus, func);
      RestDistinct(ecams, i, bus + 1, 0, 0);
    } else if func == MAX_FUNC {
      AfterFuncs(ecams, i, bus, dev);
      RestDistinct(ecams, i, bus, dev + 1, 0);
    } else {
      RestDistinct(ecams, i, bus, dev, func + 1);
      HeadIsNew(ecams, i, bus, dev, func);
      Here(ecams, i, bus, dev, func);
    }
  }

  /** The enumeration visits no function twice. */
  lemma NoRepeats(ecams: seq<Ecam>)
    requires Tidy(ecams)
    ensures Distinct(From(ecams, 0))
  {
    RestDistinct(ecams, 0, if 0 < |ecams| then ecams[0].startBus else 0, 0, 0);
  }

  // ---- In order ----

  /** What is left comes in the order of the ECAMs, and inside one in the order of the words. */
  lemma {:induction false} RestOrdered(ecams: seq<Ecam>, i: nat, bus: nat, dev: nat, func: nat, a: nat, b: nat)
    requires Tidy(ecams) && i <= |ecams| && dev <= MAX_DEV && func <= MAX_FUNC && Started(ecams, i, bus)
    requires a < b < |Rest(ecams, i, bus, dev, func)|
    ensures Precedes(ecams, Rest(ecams, i, bus, dev, func)[a], Rest(ecams, i, bus, dev, func)[b])
    decreases |ecams| - i, if i < |ecams| && bus <= ecams[i].endBus then ecams[i].endBus + 1 - bus else 0, MAX_DEV - dev, MAX_FUNC - func
  {
    hide CreateBdf, Rest, Precedes;
    if i == |ecams| {
      RestEnd(ecams, bus, dev, func);
    } else if bus > ecams[i].endBus {
      PastBuses(ecams, i, bus, dev, func);
      RestOrdered(ecams, i + 1, if i + 1 < |ecams| then ecams[i + 1].startBus else 0, 0, 0, a, b);
    } else if dev == MAX_DEV {
      PastDevs(ecams, i, bus, func);
      RestOrdered(ecams, i, bus + 1, 0, 0, a, b);
    } else if func == MAX_FUNC {
      AfterFuncs(ecams, i, bus, dev);
      RestOrdered(ecams, i, bus, dev + 1, 0, a, b);
    } else {
      Here(ecams, i, bus, dev, func);
      if a > 0 {
        RestOrdered(ecams, i, bus, dev, func + 1, a - 1, b - 1);
      } else {
        HeadPrecedes(ecams, i, bus, dev, func, b - 1);
      }
    }
  }

  /** The words are of functions of the ECAMs, the first one of an earlier ECAM or smaller. */
  ghost predicate Precedes(ecams: seq<Ecam>, v: nat, w: nat) {
    exists i: nat, p: Bdf, k: nat, q: Bdf ::
      && Visited(ecams, i, p) && v == CreateBdf(p) && Visited(ecams, k, q) && w == CreateBdf(q)
      && (i < k || (i == k && v < w))
  }

  lemma HeadPrecedes(ecams: seq<Ecam>, i: nat, bus: nat, dev: nat, func: nat, n: nat)
    requires Tidy(ecams) && i < |ecams| && dev < MAX_DEV && func < MAX_FUNC && ecams[i].startBus <= bus <= ecams[i].endBus
    requires n < |Rest(ecams, i, bus, dev, func + 1)|
    ensures Precedes(ecams, Word(ecams[i], bus, dev, func), Rest(ecams, i, bus, dev, func + 1)[n])
  {
    hide CreateBdf, Rest;
    var w := Rest(ecams, i, bus, dev, func + 1)[n];
    var k, q := Member(ecams, i, bus, dev, func + 1, w);
    var p := Bdf(ecams[i].segment, bus, dev, func);
    assert Visited(ecams, i, p);
    if k == i { Later(p, q); }
  }

  lemma Later(p: Bdf, q: Bdf)
    requires Bytes(p) && Bytes(q) && p.seg == q.seg
    requires q.bus > p.bus || (q.bus == p.bus && (q.dev > p.dev || (q.dev == p.dev && q.func > p.func)))
    ensures CreateBdf(p) < CreateBdf(q)
  {
    hide ExtractBdf, CreateBdf;
    BdfRoundTrip(p);
    BdfRoundTrip(q);
  }

  /** The enumeration goes through the ECAMs in table order, and through each of them upwards. */
  lemma InOrder(ecams: seq<Ecam>, a: nat, b: nat)
    requires Tidy(ecams) && a < b < |From(ecams, 0)|
    ensures Precedes(ecams, From(ecams, 0)[a], From(ecams, 0)[b])
  {
    hide Rest, Precedes;
    RestOrdered(ecams, 0, if 0 < |ecams| then ecams[0].startBus else 0, 0, 0, a, b);
  }

  // ---- No function left out ----

  /** A function that is not before the loop variables is still to come. */
  lemma {:induction false} StillToCome(ecams: seq<Ecam>, i: nat, bus: nat, dev: nat, func: nat, k: nat, b: Bdf)
    requires i <= |ecams| && dev <= MAX_DEV && func <= MAX_FUNC && Visited(ecams, k, b) && NotBefore(k, b, i, bus, dev, func)
    ensures CreateBdf(b) in Rest(ecams, i, bus, dev, func)
    decreases |ecams| - i, if i < |ecams| && bus <= ecams[i].endBus then ecams[i].endBus + 1 - bus else 0, MAX_DEV - dev, MAX_FUNC - func
  {
    hide CreateBdf, Rest;
    if bus > ecams[i].endBus {
      PastBuses(ecams, i, bus, dev, func);
      StillToCome(ecams, i + 1, if i + 1 < |ecams| then ecams[i + 1].startBus else 0, 0, 0, k, b);
    } else if dev == MAX_DEV {
      PastDevs(ecams, i, bus, func);
      StillToCome(ecams, i, bus + 1, 0, 0, k, b);
    } else if func == MAX_FUNC {
      AfterFuncs(ecams, i, bus, dev);
      StillToCome(ecams, i, bus, dev + 1, 0, k, b);
    } else {
      Here(ecams, i, bus, dev, func);
      if k != i || b.bus != bus || b.dev != dev || b.func != func {
        StillToCome(ecams, i, bus, dev, func + 1, k, b);
      }
    }
  }

  /** The enumeration visits exactly the functions of the ECAMs. */
  lemma VisitsExactly(ecams: seq<Ecam>, w: nat)
    requires Tidy(ecams)
    ensures w in From(ecams, 0) <==> exists k: nat, b: Bdf :: Visited(ecams, k, b) && w == CreateBdf(b)
  {
    hide CreateBdf, Rest;
    if w in From(ecams, 0) {
      if |ecams| == 0 { NothingLeft(ecams); }
      var k, b := Member(ecams, 0, if 0 < |ecams| then ecams[0].startBus else 0, 0, 0, w);
    }
    if k: nat, b: Bdf :| Visited(ecams, k, b) && w == CreateBdf(b) {
      StillToCome(ecams, 0, ecams[0].startBus, 0, 0, k, b);
    }
  }
}

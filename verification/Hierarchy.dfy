/** Bus ranges of root ports: from a function to its root port and back down. */
module Hierarchy {
  import opened PcieConfig

  datatype PortType = RootPort | IntegratedRootPort | RcIntegrated | EventCollector | OtherType

  /** What configuration space says about a function: its port type, whether its header is of
      type 0, and its secondary and subordinate bus. */
  datatype Info = Info(portType: PortType, typeZero: bool, secondary: nat, subordinate: nat)

  /** The discovered functions in table order, and what each of them reports. */
  datatype Topology = Topology(table: seq<Bdf>, info: map<Bdf, Info>)

  predicate Complete(t: Topology) { forall i :: 0 <= i < |t.table| ==> t.table[i] in t.info }

  predicate IsPort(i: Info) { i.portType.RootPort? || i.portType.IntegratedRootPort? }

  predicate IsIntegrated(i: Info) { i.portType.RcIntegrated? || i.portType.EventCollector? }

  /** The function's bus lies in the bridge's bus range. */
  predicate Below(t: Topology, f: Bdf, bridge: Bdf)
    requires bridge in t.info
  {
    f.seg == bridge.seg && t.info[bridge].secondary <= f.bus <= t.info[bridge].subordinate
  }

  predicate Port(t: Topology, i: nat) {
    i < |t.table| && t.table[i] in t.info && IsPort(t.info[t.table[i]])
  }

  /** Entry i is the first port in the table above the function. */
  predicate FirstAbove(t: Topology, f: Bdf, i: nat)
    requires Complete(t) && i < |t.table|
  {
    Below(t, f, t.table[i]) && forall k :: 0 <= k < i && Port(t, k) ==> !Below(t, f, t.table[k])
  }

  // ---- What the answers mean, written out ----

  /** Entry i is a root port, and the bus of f lies from its secondary to its subordinate bus, in its
      segment. */
  predicate PortOver(t: Topology, f: Bdf, i: nat) {
    && i < |t.table| && t.table[i] in t.info
    && (t.info[t.table[i]].portType == RootPort || t.info[t.table[i]].portType == IntegratedRootPort)
    && t.table[i].seg == f.seg && t.info[t.table[i]].secondary <= f.bus && f.bus <= t.info[t.table[i]].subordinate
  }

  /** Entry i lies on the bridge's buses. */
  predicate Under(t: Topology, bridge: Bdf, i: nat)
    requires bridge in t.info
  {
    && i < |t.table| && t.table[i].seg == bridge.seg
    && t.info[bridge].secondary <= t.table[i].bus && t.table[i].bus <= t.info[bridge].subordinate
  }

  /** Found; the function sits on the root complex itself; no port covers it. */
  datatype Upstream = Found(port: Bdf) | OnRootComplex | NoPort

  /** The root port of a function: itself, none, or the first port in the table above it. */
  method GetRootPort(t: Topology, f: Bdf) returns (r: Upstream)
    requires Complete(t) && f in t.info
    ensures IsPort(t.info[f]) ==> r == Found(f)
    ensures IsIntegrated(t.info[f]) ==> r == OnRootComplex
    ensures t.info[f].portType.OtherType? ==>
              if r.Found? then exists i: nat :: Port(t, i) && t.table[i] == r.port && FirstAbove(t, f, i)
              else r == NoPort && forall i: nat :: Port(t, i) ==> !Below(t, f, t.table[i])
    ensures match t.info[f].portType
            case RootPort | IntegratedRootPort => r == Found(f)
            case RcIntegrated | EventCollector => r == OnRootComplex
            case OtherType =>
              && r != OnRootComplex && (r == NoPort <==> forall i: nat :: !PortOver(t, f, i))
              && (r.Found? ==>
                    exists i: nat ::
                      && PortOver(t, f, i) && t.table[i] == r.port
                      && forall k: nat :: k < i ==> !PortOver(t, f, k))
  {
    forall i: nat ensures PortOver(t, f, i) <==> Port(t, i) && Below(t, f, t.table[i]) {
    }
    if IsPort(t.info[f]) {
      return Found(f);
    }
    if IsIntegrated(t.info[f]) {
      return OnRootComplex;
    }
    var i := 0;
    while i < |t.table|
      invariant i <= |t.table| && forall k: nat :: k < i && Port(t, k) ==> !Below(t, f, t.table[k])
    {
      var port := t.table[i];
      if IsPort(t.info[port]) && Below(t, f, port) {
        assert Port(t, i) && PortOver(t, f, i);
        return Found(port);
      }
      i := i + 1;
    }
    return NoPort;
  }

  datatype Downstream = Function(f: Bdf) | NoFunction

  /** Entry i is the first function below the bridge with a type 0 header, or the first one at
      all when none has. */
  predicate Preferred(t: Topology, bridge: Bdf, i: nat)
    requires Complete(t) && bridge in t.info && i < |t.table|
  {
    && Below(t, t.table[i], bridge)
    && (if t.info[t.table[i]].typeZero
        then forall k :: 0 <= k < i && Below(t, t.table[k], bridge) ==> !t.info[t.table[k]].typeZero
        else (forall k :: 0 <= k < i ==> !Below(t, t.table[k], bridge))
             && forall k :: 0 <= k < |t.table| && Below(t, t.table[k], bridge) ==> !t.info[t.table[k]].typeZero)
  }

  /** A function below a bridge: the first with a type 0 header, or else the first. */
  method GetDownstreamFunction(t: Topology, bridge: Bdf) returns (r: Downstream)
    requires Complete(t) && bridge in t.info
    ensures r == NoFunction <==> forall i :: 0 <= i < |t.table| ==> !Below(t, t.table[i], bridge)
    ensures r.Function? ==> exists i: nat :: i < |t.table| && r.f == t.table[i] && Preferred(t, bridge, i)
    ensures r == NoFunction <==> forall i: nat :: !Under(t, bridge, i)
    ensures r.Function? ==>
              exists i: nat :: Under(t, bridge, i) && r.f == t.table[i] &&
                if t.info[t.table[i]].typeZero then forall k: nat :: k < i && Under(t, bridge, k) ==> !t.info[t.table[k]].typeZero
                else forall k: nat :: Under(t, bridge, k) ==> i <= k && !t.info[t.table[k]].typeZero
  {
    forall i: nat ensures Under(t, bridge, i) <==> i < |t.table| && Below(t, t.table[i], bridge) {
    }
    var first := NoFunction;
    ghost var at: nat := 0;
    var i := 0;
    while i < |t.table|
      invariant i <= |t.table|
      invariant first == NoFunction <==> forall k :: 0 <= k < i ==> !Below(t, t.table[k], bridge)
      invariant first.Function? ==>
                  at < i && first.f == t.table[at] && Below(t, first.f, bridge) && forall k :: 0 <= k < at ==>
                      !Below(t, t.table[k], bridge)
      invariant forall k :: 0 <= k < i && Below(t, t.table[k], bridge) ==> !t.info[t.table[k]].typeZero
    {
      var f := t.table[i];
      if Below(t, f, bridge) {
        if t.info[f].typeZero {
          assert Preferred(t, bridge, i) && Under(t, bridge, i);
          return Function(f);
        }
        if first == NoFunction {
          first, at := Function(f), i;
        }
      }
      i := i + 1;
    }
    assert first.Function? ==> Preferred(t, bridge, at) && Under(t, bridge, at);
    return first;
  }

  // ---- Up and down again ----

  /** Root ports of one segment have disjoint bus ranges, and neither a root port nor a
      function of the root complex sits inside such a range. */
  ghost predicate WellFormed(t: Topology) {
    && Complete(t)
    && (forall i: nat, j: nat, f: Bdf :: Port(t, i) && Port(t, j) && t.table[i] != t.table[j] ==>
          !(Below(t, f, t.table[i]) && Below(t, f, t.table[j])))
    && (forall i: nat, k: nat :: Port(t, i) && k < |t.table| && Below(t, t.table[k], t.table[i]) ==>
          t.info[t.table[k]].portType.OtherType?)
  }

  /** The root port found is the only one above the function. */
  lemma RootPortUnique(t: Topology, f: Bdf, i: nat, j: nat)
    requires WellFormed(t) && Port(t, i) && Port(t, j) && Below(t, f, t.table[i]) && Below(t, f, t.table[j])
    ensures t.table[i] == t.table[j]
  {
  }

  /** Up to the root port and down again: when a function has a root port, that port has a
      downstream function, and the root port of that one is the same port. */
  method UpAndDown(t: Topology, f: Bdf) returns (port: Upstream, down: Downstream, again: Upstream)
    requires WellFormed(t) && f in t.table && t.info[f].portType.OtherType?
    ensures port.Found? <==> exists i: nat :: Port(t, i) && Below(t, f, t.table[i])
    ensures port.Found? ==> down.Function? && again == port
    ensures port.Found? ==> forall i: nat :: Port(t, i) && Below(t, f, t.table[i]) ==> t.table[i] == port.port
  {
    down, again := NoFunction, NoPort;
    port := GetRootPort(t, f);
    if port.Found? {
      ghost var i: nat :| Port(t, i) && t.table[i] == port.port && FirstAbove(t, f, i);
      down := GetDownstreamFunction(t, port.port);
      ghost var k :| 0 <= k < |t.table| && t.table[k] == f;
      assert Below(t, t.table[k], port.port);
      ghost var d: nat :| d < |t.table| && down.f == t.table[d] && Preferred(t, port.port, d);
      assert Below(t, t.table[d], t.table[i]);
      again := GetRootPort(t, down.f);
      assert again.Found?;
      ghost var j: nat :| Port(t, j) && t.table[j] == again.port && FirstAbove(t, down.f, j);
      RootPortUnique(t, down.f, i, j);
    }
  }
}

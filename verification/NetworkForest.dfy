/** What a consistent topology and a successful NIC match imply for the rendered
    file: every name that it refers to has a stanza of a lower rank (ports below
    bonds below bridges). Whether the file is a forest is NetworkTree's matter. */
module NetworkForest {
  import opened Prelude
  import opened NetworkModel
  import opened NetworkMatch
  import opened NetworkRender

  // ---- the parents of an interface ------------------------------------------------------

  /** m is a member of the LAG b of the device. */
  ghost predicate InBond(ifaces: seq<Iface>, m: Iface, b: Iface) {
    m in ifaces && b in ifaces && b.kind == Lag && m.lag == Some(b.id)
  }

  /** i is attached to the bridge b of the device. */
  ghost predicate OnBridge(ifaces: seq<Iface>, i: Iface, b: Iface) {
    i in ifaces && b in ifaces && b.kind == Bridge && i.bridge == Some(b.id)
  }

  lemma LagMembers(ifaces: seq<Iface>, b: Iface)
    ensures forall m :: m in Members(ifaces, b.id) <==> m in ifaces && m.lag == Some(b.id)
    ensures forall i :: i in Attached(ifaces, b.id) <==> i in ifaces && i.bridge == Some(b.id)
  {
    Selected((i: Iface) => i.lag == Some(b.id), ifaces);
    Selected((i: Iface) => i.bridge == Some(b.id), ifaces);
  }

  lemma KindMembers(ifaces: seq<Iface>, kind: Kind)
    ensures forall i :: i in OfKind(ifaces, kind) <==> i in ifaces && i.kind == kind
  {
    Selected((i: Iface) => i.kind == kind, ifaces);
  }

  lemma MemberFacts(ifaces: seq<Iface>, net: Net, p: Primary, m: Iface, b: Iface)
    requires Clean(ifaces, net, p) && InBond(ifaces, m, b)
    ensures MemberOk(b, m) && m.kind == Physical && m.bridge.None? && MacOf(m) != ""
  {
    KindMembers(ifaces, Lag);
    LagMembers(ifaces, b);
    assert BondOk(net, b, Members(ifaces, b.id));
  }

  lemma AttachedFacts(ifaces: seq<Iface>, net: Net, p: Primary, i: Iface, b: Iface)
    requires Clean(ifaces, net, p) && OnBridge(ifaces, i, b)
    ensures i.kind == Lag || (i.kind == Physical && i.lag.None? && MacOf(i) != "")
  {
    KindMembers(ifaces, Bridge);
    LagMembers(ifaces, b);
    assert BridgeOk(ifaces, p, Mgmt(ifaces, p), b, Attached(ifaces, b.id));
    assert AttachedOk(ifaces, b, i);
  }

  // ---- the ports of the model --------------------------------------------------------------

  ghost predicate BondPort(ifaces: seq<Iface>, m: Iface, b: Iface, q: Port) {
    InBond(ifaces, m, b) && q == PortOf(m, MtuOr(m.mtu, b.mtu))
  }

  ghost predicate BridgePort(ifaces: seq<Iface>, i: Iface, b: Iface, q: Port) {
    OnBridge(ifaces, i, b) && i.kind != Lag && q == PortOf(i, i.mtu)
  }

  lemma BondPortMember(ifaces: seq<Iface>, b: Iface, q: Port)
    requires b in ifaces && b.kind == Lag
    ensures q in BondPorts(b, Members(ifaces, b.id)) <==> exists m :: BondPort(ifaces, m, b, q)
  {
    LagMembers(ifaces, b);
    var s := Members(ifaces, b.id);
    MapMember((m: Iface) => PortOf(m, MtuOr(m.mtu, b.mtu)), s, q);
    if m :| BondPort(ifaces, m, b, q) {
      var k :| 0 <= k < |s| && s[k] == m;
    }
    if k :| 0 <= k < |s| && q == PortOf(s[k], MtuOr(s[k].mtu, b.mtu)) {
      assert s[k] in s;
      assert BondPort(ifaces, s[k], b, q);
    }
  }

  lemma BridgePortMember(ifaces: seq<Iface>, b: Iface, q: Port)
    requires b in ifaces && b.kind == Bridge
    ensures q in BridgePorts(Attached(ifaces, b.id)) <==> exists i :: BridgePort(ifaces, i, b, q)
  {
    LagMembers(ifaces, b);
    var s := Filter((i: Iface) => i.kind != Lag, Attached(ifaces, b.id));
    FilterMembers((i: Iface) => i.kind != Lag, Attached(ifaces, b.id));
    MapMember((i: Iface) => PortOf(i, i.mtu), s, q);
    if i :| BridgePort(ifaces, i, b, q) {
      var k :| 0 <= k < |s| && s[k] == i;
    }
    if k :| 0 <= k < |s| && q == PortOf(s[k], s[k].mtu) {
      assert s[k] in s;
      assert BridgePort(ifaces, s[k], b, q);
    }
  }

  lemma AllBondPortMember(ifaces: seq<Iface>, q: Port)
    ensures q in AllBondPorts(ifaces, OfKind(ifaces, Lag)) <==> exists m, b :: BondPort(ifaces, m, b, q)
  {
    var lags := OfKind(ifaces, Lag);
    KindMembers(ifaces, Lag);
    FlatMapMember((b: Iface) => BondPorts(b, Members(ifaces, b.id)), lags, q);
    hide BondPorts, Members, OfKind;
    if m, b :| BondPort(ifaces, m, b, q) {
      BondPortMember(ifaces, b, q);
      var k :| 0 <= k < |lags| && lags[k] == b;
    }
    if k :| 0 <= k < |lags| && q in BondPorts(lags[k], Members(ifaces, lags[k].id)) {
      assert lags[k] in lags;
      BondPortMember(ifaces, lags[k], q);
    }
  }

  lemma AllBridgePortMember(ifaces: seq<Iface>, q: Port)
    ensures q in AllBridgePorts(ifaces, OfKind(ifaces, Bridge)) <==> exists i, b :: BridgePort(ifaces, i, b, q)
  {
    var bridges := OfKind(ifaces, Bridge);
    KindMembers(ifaces, Bridge);
    FlatMapMember((b: Iface) => BridgePorts(Attached(ifaces, b.id)), bridges, q);
    hide BridgePorts, Attached, OfKind;
    if i, b :| BridgePort(ifaces, i, b, q) {
      BridgePortMember(ifaces, b, q);
      var k :| 0 <= k < |bridges| && bridges[k] == b;
    }
    if k :| 0 <= k < |bridges| && q in BridgePorts(Attached(ifaces, bridges[k].id)) {
      assert bridges[k] in bridges;
      BridgePortMember(ifaces, bridges[k], q);
    }
  }

  lemma PortListMember(ifaces: seq<Iface>, q: Port)
    ensures q in PortList(ifaces) <==>
      (exists m, b :: BondPort(ifaces, m, b, q)) || (exists i, b :: BridgePort(ifaces, i, b, q))
  {
    AllBondPortMember(ifaces, q);
    AllBridgePortMember(ifaces, q);
    hide AllBondPorts, AllBridgePorts;
  }

  /** An interface becomes one port only. */
  lemma PortsKeyed(ifaces: seq<Iface>, net: Net, p: Primary)
    requires Unique(ifaces) && Clean(ifaces, net, p)
    ensures Keyed(PortId, PortList(ifaces))
  {
    hide Clean, PortList, Unique;
    var all := PortList(ifaces);
    forall i, j | 0 <= i < |all| && 0 <= j < |all| && PortId(all[i]) == PortId(all[j]) ensures all[i] == all[j] {
      assert all[i] in all && all[j] in all;
      PortListMember(ifaces, all[i]);
      PortListMember(ifaces, all[j]);
      OnePort(ifaces, net, p, all[i], all[j]);
    }
  }

  lemma OnePort(ifaces: seq<Iface>, net: Net, p: Primary, q: Port, r: Port)
    requires Unique(ifaces) && Clean(ifaces, net, p) && q.id == r.id
    requires (exists m, b :: BondPort(ifaces, m, b, q)) || (exists i, b :: BridgePort(ifaces, i, b, q))
    requires (exists m, b :: BondPort(ifaces, m, b, r)) || (exists i, b :: BridgePort(ifaces, i, b, r))
    ensures q == r
  {
    hide Clean, Unique;
    if m, b :| BondPort(ifaces, m, b, q) {
      MemberFacts(ifaces, net, p, m, b);
      if m', b' :| BondPort(ifaces, m', b', r) {
        SameIface(ifaces, m, m');
        SameIface(ifaces, b, b');
      } else {
        var i, b' :| BridgePort(ifaces, i, b', r);
        SameIface(ifaces, m, i);
      }
    } else {
      var i, b :| BridgePort(ifaces, i, b, q);
      if m', b' :| BondPort(ifaces, m', b', r) {
        MemberFacts(ifaces, net, p, m', b');
        SameIface(ifaces, i, m');
      } else {
        var i', b' :| BridgePort(ifaces, i', b', r);
        SameIface(ifaces, i, i');
      }
    }
  }

  lemma PutPorts(all: seq<Port>)
    requires Keyed(PortId, all)
    ensures var put := PutAll(PortId, [], all);
      DistinctKeys(PortId, put) && forall q :: q in put <==> q in all
  {
    assert [] + all == all && DistinctKeys<Port>(PortId, []);
    hide Keyed, DistinctKeys;
    forall q ensures q in PutAll(PortId, [], all) <==> q in all { PutAllMember(PortId, [], all, q); }
    PutAllDistinct(PortId, [], all);
  }

  lemma SortKeepsDistinct(put: seq<Port>)
    requires DistinctKeys(PortId, put)
    ensures var ports := Sort(PortLe, put);
      DistinctKeys(PortId, ports) && forall q :: q in ports <==> q in put
  {
    var ports := Sort(PortLe, put);
    DistinctKeysNoDup(PortId, put);
    NoDupPermutation(put, ports);
    PermutationMembers(ports, put);
    hide Sort;
    forall i, j | 0 <= i < j < |ports| ensures PortId(ports[i]) != PortId(ports[j]) {
      assert ports[i] in put && ports[j] in put && ports[i] != ports[j];
      DistinctApart(put, ports[i], ports[j]);
    }
  }

  lemma ModelPortsAre(ifaces: seq<Iface>, net: Net, p: Primary)
    ensures ModelOf(ifaces, net, p).ports == Sort(PortLe, PutAll(PortId, [], PortList(ifaces)))
  {
    hide PortList, Bonds, Bridges, NamesOf, Mgmt;
  }

  /** The ports of the model are the members and the attached ports, each
      once; they meet the demands of the NIC match. */
  lemma ModelPorts(ifaces: seq<Iface>, net: Net, p: Primary)
    requires Unique(ifaces) && Clean(ifaces, net, p)
    ensures forall q :: q in ModelOf(ifaces, net, p).ports <==> q in PortList(ifaces)
    ensures DistinctKeys(PortId, ModelOf(ifaces, net, p).ports)
  {
    hide *;
    PortsKeyed(ifaces, net, p);
    PutPorts(PortList(ifaces));
    SortKeepsDistinct(PutAll(PortId, [], PortList(ifaces)));
    ModelPortsAre(ifaces, net, p);
  }

  lemma DistinctApart(s: seq<Port>, q: Port, r: Port)
    requires DistinctKeys(PortId, s) && q in s && r in s && q != r
    ensures q.id != r.id
  {
    var i :| 0 <= i < |s| && s[i] == q;
    var j :| 0 <= j < |s| && s[j] == r;
    assert PortId(s[i]) != PortId(s[j]) || i == j;
  }

  lemma PortsHaveMacs(ifaces: seq<Iface>, net: Net, p: Primary)
    requires Unique(ifaces) && Clean(ifaces, net, p)
    ensures forall q :: q in ModelOf(ifaces, net, p).ports ==> q.mac != ""
  {
    ModelPorts(ifaces, net, p);
    hide Clean, ModelOf, PortList, Unique;
    forall q | q in ModelOf(ifaces, net, p).ports ensures q.mac != "" {
      PortListMember(ifaces, q);
      if m, b :| BondPort(ifaces, m, b, q) {
        MemberFacts(ifaces, net, p, m, b);
      } else {
        var i, b :| BridgePort(ifaces, i, b, q);
        AttachedFacts(ifaces, net, p, i, b);
      }
    }
  }

  // ---- the Linux names --------------------------------------------------------------------------

  /** A consistent topology whose ports are matched to the node's NICs; link
      names are single words (_IP_LINK_RE takes characters that are no space). */
  ghost predicate Rendered(ifaces: seq<Iface>, net: Net, p: Primary, links: seq<Link>, physical: set<string>,
                           names: map<string, string>) {
    && Unique(ifaces) && Clean(ifaces, net, p)
    && Matched(ModelOf(ifaces, net, p).ports, links, physical)
    && Names(names, ModelOf(ifaces, net, p).ports, links, physical)
    && forall l :: l in links ==> OneWord(l.name)
  }

  lemma PortName(ifaces: seq<Iface>, net: Net, p: Primary, links: seq<Link>, physical: set<string>,
                 names: map<string, string>, q: Port)
    requires Rendered(ifaces, net, p, links, physical, names) && q in ModelOf(ifaces, net, p).ports
    ensures q.id in names && LinuxName(ModelOf(ifaces, net, p), names, q.id) == names[q.id]
  {
    hide ModelOf, Clean, Unique, Matched;
    NamesAreInjective(names, ModelOf(ifaces, net, p).ports, links, physical, q, q);
  }

  /** Ports of different interfaces have different names. */
  lemma PortNamesDiffer(ifaces: seq<Iface>, net: Net, p: Primary, links: seq<Link>, physical: set<string>,
                        names: map<string, string>, q: Port, r: Port)
    requires Rendered(ifaces, net, p, links, physical, names)
    requires q in ModelOf(ifaces, net, p).ports && r in ModelOf(ifaces, net, p).ports
    ensures LinuxName(ModelOf(ifaces, net, p), names, q.id) == LinuxName(ModelOf(ifaces, net, p), names, r.id) ==>
      q == r
  {
    PortName(ifaces, net, p, links, physical, names, q);
    PortName(ifaces, net, p, links, physical, names, r);
    hide ModelOf, Clean, Unique, Matched, LinuxName;
    NamesAreInjective(names, ModelOf(ifaces, net, p).ports, links, physical, q, r);
  }

  /** The interface behind a port is physical. */
  lemma PortIface(ifaces: seq<Iface>, net: Net, p: Primary, q: Port) returns (i: Iface)
    requires Unique(ifaces) && Clean(ifaces, net, p) && q in ModelOf(ifaces, net, p).ports
    ensures i in ifaces && i.id == q.id && i.kind == Physical && q == PortOf(i, q.mtu)
    ensures (exists b :: InBond(ifaces, i, b)) || (exists b :: OnBridge(ifaces, i, b))
  {
    ModelPorts(ifaces, net, p);
    hide Clean, ModelOf, PortList, Unique;
    PortListMember(ifaces, q);
    if m, b :| BondPort(ifaces, m, b, q) {
      MemberFacts(ifaces, net, p, m, b);
      i := m;
    } else {
      var k, b :| BridgePort(ifaces, k, b, q);
      AttachedFacts(ifaces, net, p, k, b);
      i := k;
    }
  }

  lemma IfaceName(ifaces: seq<Iface>, i: Iface)
    requires Unique(ifaces) && i in ifaces
    ensures i.id in NamesOf(ifaces) && NamesOf(ifaces)[i.id] == i.name
  {
    SameIface(ifaces, ById(ifaces, i.id).value, i);
  }

  /** A LAG keeps its own name. */
  lemma LagName(ifaces: seq<Iface>, net: Net, p: Primary, links: seq<Link>, physical: set<string>,
                names: map<string, string>, i: Iface)
    requires Rendered(ifaces, net, p, links, physical, names) && i in ifaces && i.kind == Lag
    ensures LinuxName(ModelOf(ifaces, net, p), names, i.id) == i.name
  {
    var ports := ModelOf(ifaces, net, p).ports;
    IfaceName(ifaces, i);
    assert i.id !in names by {
      hide ModelOf, Clean, Unique, Matched;
      if i.id in names {
        var k :| 0 <= k < |ports| && ports[k].id == i.id;
        assert ports[k] in ports;
        var j := PortIface(ifaces, net, p, ports[k]);
        SameIface(ifaces, i, j);
      }
    }
  }

  // ---- bonds and bridges of the model -----------------------------------------------------------

  lemma BondMember(ifaces: seq<Iface>, net: Net, b: Bond)
    ensures b in Bonds(ifaces, net) <==>
      exists l :: l in ifaces && l.kind == Lag && b == BondOf(net, l, Members(ifaces, l.id))
  {
    var lags := OfKind(ifaces, Lag);
    KindMembers(ifaces, Lag);
    hide OfKind, Members, BondOf;
    MapMember((b: Iface) => BondOf(net, b, Members(ifaces, b.id)), lags, b);
    if l :| l in ifaces && l.kind == Lag && b == BondOf(net, l, Members(ifaces, l.id)) {
      var k :| 0 <= k < |lags| && lags[k] == l;
    }
    if k :| 0 <= k < |lags| && b == BondOf(net, lags[k], Members(ifaces, lags[k].id)) {
      assert lags[k] in lags;
    }
  }

  lemma BridgeMember(ifaces: seq<Iface>, p: Primary, b: BridgeModel)
    ensures b in Bridges(ifaces, p) <==>
      exists l :: l in ifaces && l.kind == Bridge && b == BridgeOf(p, Mgmt(ifaces, p), l, Attached(ifaces, l.id))
  {
    var bridges := OfKind(ifaces, Bridge);
    KindMembers(ifaces, Bridge);
    hide OfKind, Attached, BridgeOf, Mgmt;
    MapMember((b: Iface) => BridgeOf(p, Mgmt(ifaces, p), b, Attached(ifaces, b.id)), bridges, b);
    if l :| l in ifaces && l.kind == Bridge && b == BridgeOf(p, Mgmt(ifaces, p), l, Attached(ifaces, l.id)) {
      var k :| 0 <= k < |bridges| && bridges[k] == l;
    }
    if k :| 0 <= k < |bridges| && b == BridgeOf(p, Mgmt(ifaces, p), bridges[k], Attached(ifaces, bridges[k].id)) {
      assert bridges[k] in bridges;
    }
  }

  /** The Linux names of some interfaces. */
  function NamesFor(model: Model, names: map<string, string>, s: seq<Iface>): seq<string> {
    Map((i: Iface) => LinuxName(model, names, i.id), s)
  }

  lemma {:induction false} NamesForIds(model: Model, names: map<string, string>, s: seq<Iface>)
    ensures Map((m: string) => LinuxName(model, names, m), Ids(s)) == NamesFor(model, names, s)
  {
    forall i | 0 <= i < |s|
      ensures Map((m: string) => LinuxName(model, names, m), Ids(s))[i] == NamesFor(model, names, s)[i]
    {
      MapAt((i: Iface) => i.id, s, i);
      MapAt((m: string) => LinuxName(model, names, m), Ids(s), i);
      MapAt((i: Iface) => LinuxName(model, names, i.id), s, i);
    }
  }

  lemma NamesForMember(model: Model, names: map<string, string>, s: seq<Iface>, n: string)
    ensures n in NamesFor(model, names, s) <==> exists i :: i in s && n == LinuxName(model, names, i.id)
  {
    MapMember((i: Iface) => LinuxName(model, names, i.id), s, n);
    if i :| i in s && n == LinuxName(model, names, i.id) {
      var k :| 0 <= k < |s| && s[k] == i;
    }
    if k :| 0 <= k < |s| && n == LinuxName(model, names, s[k].id) { assert s[k] in s; }
  }

  /** The interfaces that a bond's stanza enslaves. */
  lemma SlavesOf(ifaces: seq<Iface>, net: Net, model: Model, names: map<string, string>, b: Iface, n: string)
    ensures n in BondEntry(model, names, BondOf(net, b, Members(ifaces, b.id))).slaves <==>
      exists m :: m in Members(ifaces, b.id) && n == LinuxName(model, names, m.id)
  {
    var s := Members(ifaces, b.id);
    NamesForIds(model, names, s);
    NamesForMember(model, names, s, n);
    SortMembers(StrLe, NamesFor(model, names, s));
  }

  lemma PortsOf(ifaces: seq<Iface>, p: Primary, mgmt: Option<Iface>, model: Model, names: map<string, string>, b: Iface,
                n: string)
    ensures n in BridgeEntry(model, names, BridgeOf(p, mgmt, b, Attached(ifaces, b.id))).ports <==>
      exists i :: i in Attached(ifaces, b.id) && n == LinuxName(model, names, i.id)
  {
    var s := Attached(ifaces, b.id);
    NamesForIds(model, names, s);
    NamesForMember(model, names, s, n);
  }

  // ---- every name has a stanza --------------------------------------------------------------------

  /** Ports below bonds below bridges. */
  function Rank(s: Stanza): nat { if s.BridgeStanza? then 2 else if s.BondStanza? then 1 else 0 }

  ghost predicate HasStanza(st: seq<Stanza>, n: string, below: nat) {
    exists s :: s in st && StanzaName(s) == n && Rank(s) < below
  }

  lemma MemberIsStanza(st: seq<Stanza>, s: Stanza)
    ensures s in st ==> HasStanza(st, StanzaName(s), Rank(s) + 1)
  {}

  lemma PortEntryFacts(model: Model, names: map<string, string>, q: Port)
    ensures StanzaName(PortEntry(model, names, q)) == LinuxName(model, names, q.id)
    ensures Rank(PortEntry(model, names, q)) == 0
  {}

  /** A port's stanza is in the file. */
  lemma PortHasStanza(ifaces: seq<Iface>, net: Net, p: Primary, names: map<string, string>, q: Port)
    requires Unique(ifaces) && Clean(ifaces, net, p) && q in PortList(ifaces)
    ensures PortEntry(ModelOf(ifaces, net, p), names, q) in Stanzas(ModelOf(ifaces, net, p), names)
    ensures HasStanza(Stanzas(ModelOf(ifaces, net, p), names), LinuxName(ModelOf(ifaces, net, p), names, q.id), 1)
  {
    hide ModelOf, Clean, Unique, PortList, Stanzas, LinuxName, HasStanza, PortEntry, BondEntry, BridgeEntry;
    var model := ModelOf(ifaces, net, p);
    ModelPorts(ifaces, net, p);
    StanzaMember(model, names, PortEntry(model, names, q));
    PortEntryFacts(model, names, q);
    MemberIsStanza(Stanzas(model, names), PortEntry(model, names, q));
  }

  lemma MemberHasStanza(ifaces: seq<Iface>, net: Net, p: Primary, names: map<string, string>, b: Iface, m: Iface)
    requires Unique(ifaces) && Clean(ifaces, net, p) && b in ifaces && b.kind == Lag && m in Members(ifaces, b.id)
    ensures HasStanza(Stanzas(ModelOf(ifaces, net, p), names), LinuxName(ModelOf(ifaces, net, p), names, m.id), 1)
  {
    LagMembers(ifaces, b);
    var q := PortOf(m, MtuOr(m.mtu, b.mtu));
    assert BondPort(ifaces, m, b, q);
    PortListMember(ifaces, q);
    PortHasStanza(ifaces, net, p, names, q);
  }

  lemma EntryName(net: Net, model: Model, names: map<string, string>, i: Iface, members: seq<Iface>)
    ensures StanzaName(BondEntry(model, names, BondOf(net, i, members))) == i.name
    ensures Rank(BondEntry(model, names, BondOf(net, i, members))) == 1
  {}

  lemma LagHasStanza(ifaces: seq<Iface>, net: Net, p: Primary, names: map<string, string>, i: Iface)
    requires i in ifaces && i.kind == Lag
    ensures HasStanza(Stanzas(ModelOf(ifaces, net, p), names), i.name, 2)
  {
    var model := ModelOf(ifaces, net, p);
    assert model.bonds == Bonds(ifaces, net);
    hide ModelOf, Stanzas, Members, BondOf, BondEntry, Bonds;
    var b := BondOf(net, i, Members(ifaces, i.id));
    BondMember(ifaces, net, b);
    StanzaMember(model, names, BondEntry(model, names, b));
    EntryName(net, model, names, i, Members(ifaces, i.id));
  }

  lemma HasStanzaBelow(st: seq<Stanza>, n: string, low: nat, high: nat)
    requires HasStanza(st, n, low) && low <= high
    ensures HasStanza(st, n, high)
  {}

  lemma AttachedHasStanza(ifaces: seq<Iface>, net: Net, p: Primary, links: seq<Link>, physical: set<string>,
                          names: map<string, string>, b: Iface, i: Iface)
    requires Rendered(ifaces, net, p, links, physical, names) && b in ifaces && b.kind == Bridge
    requires i in Attached(ifaces, b.id)
    ensures HasStanza(Stanzas(ModelOf(ifaces, net, p), names), LinuxName(ModelOf(ifaces, net, p), names, i.id), 2)
  {
    LagMembers(ifaces, b);
    hide ModelOf, Clean, Unique, Matched, Names, HasStanza, Stanzas, LinuxName, Attached, PortList;
    if i.kind == Lag {
      LagName(ifaces, net, p, links, physical, names, i);
      LagHasStanza(ifaces, net, p, names, i);
    } else {
      var q := PortOf(i, i.mtu);
      assert BridgePort(ifaces, i, b, q);
      PortListMember(ifaces, q);
      PortHasStanza(ifaces, net, p, names, q);
      var model := ModelOf(ifaces, net, p);
      HasStanzaBelow(Stanzas(model, names), LinuxName(model, names, i.id), 1, 2);
    }
  }

  /** All names that a stanza refers to have stanzas of a lower rank, and a
      bond's primary is one of its slaves. */
  ghost predicate Closed(st: seq<Stanza>, s: Stanza) {
    && (s.BondStanza? ==> forall n :: n in s.slaves ==> HasStanza(st, n, Rank(s)))
    && (s.BondStanza? && s.primary.Some? ==> s.primary.value in s.slaves)
    && (s.BridgeStanza? ==> forall n :: n in s.ports ==> HasStanza(st, n, Rank(s)))
  }

  lemma PrimaryIsMember(net: Net, b: Iface, members: seq<Iface>)
    ensures BondOf(net, b, members).primary.Some? ==>
      exists m :: m in members && m.id == BondOf(net, b, members).primary.value
  {
    if BondOf(net, b, members).primary.Some? {
      FilterMember((i: Iface) => i.primaryMember, members, Flagged(members)[0]);
    }
  }

  lemma BondClosed(ifaces: seq<Iface>, net: Net, p: Primary, names: map<string, string>, b: Iface)
    requires Unique(ifaces) && Clean(ifaces, net, p) && b in ifaces && b.kind == Lag
    ensures Closed(Stanzas(ModelOf(ifaces, net, p), names),
                   BondEntry(ModelOf(ifaces, net, p), names, BondOf(net, b, Members(ifaces, b.id))))
  {
    hide ModelOf, Clean, Unique, Stanzas, Members, HasStanza, LinuxName;
    var model := ModelOf(ifaces, net, p);
    var s := BondEntry(model, names, BondOf(net, b, Members(ifaces, b.id)));
    forall n | n in s.slaves ensures HasStanza(Stanzas(model, names), n, 1) {
      SlavesOf(ifaces, net, model, names, b, n);
      var m :| m in Members(ifaces, b.id) && n == LinuxName(model, names, m.id);
      MemberHasStanza(ifaces, net, p, names, b, m);
    }
    if s.primary.Some? {
      PrimaryIsMember(net, b, Members(ifaces, b.id));
      SlavesOf(ifaces, net, model, names, b, s.primary.value);
    }
  }

  lemma BridgeClosed(ifaces: seq<Iface>, net: Net, p: Primary, links: seq<Link>, physical: set<string>,
                     names: map<string, string>, b: Iface)
    requires Rendered(ifaces, net, p, links, physical, names) && b in ifaces && b.kind == Bridge
    ensures Closed(Stanzas(ModelOf(ifaces, net, p), names),
                   BridgeEntry(ModelOf(ifaces, net, p), names, BridgeOf(p, Mgmt(ifaces, p), b, Attached(ifaces, b.id))))
  {
    hide ModelOf, Rendered, Stanzas, Attached, HasStanza, LinuxName;
    var model := ModelOf(ifaces, net, p);
    var s := BridgeEntry(model, names, BridgeOf(p, Mgmt(ifaces, p), b, Attached(ifaces, b.id)));
    forall n | n in s.ports ensures HasStanza(Stanzas(model, names), n, 2) {
      PortsOf(ifaces, p, Mgmt(ifaces, p), model, names, b, n);
      var i :| i in Attached(ifaces, b.id) && n == LinuxName(model, names, i.id);
      AttachedHasStanza(ifaces, net, p, links, physical, names, b, i);
    }
  }

  /** Every name in bond-slaves and bond-primary has a port's stanza in the same
      file, every name in bridge-ports a port's or a bond's, and every
      bond-primary is one of its bond's slaves. */
  lemma EveryNameHasStanza(ifaces: seq<Iface>, net: Net, p: Primary, links: seq<Link>, physical: set<string>,
                           names: map<string, string>, s: Stanza)
    requires Rendered(ifaces, net, p, links, physical, names)
    requires s in Stanzas(ModelOf(ifaces, net, p), names)
    ensures Closed(Stanzas(ModelOf(ifaces, net, p), names), s)
  {
    hide *;
    var model := ModelOf(ifaces, net, p);
    ModelParts(ifaces, net, p);
    RenderedParts(ifaces, net, p, links, physical, names);
    StanzaMember(model, names, s);
    if b :| b in model.bonds && s == BondEntry(model, names, b) {
      BondMember(ifaces, net, b);
      var l :| l in ifaces && l.kind == Lag && b == BondOf(net, l, Members(ifaces, l.id));
      BondClosed(ifaces, net, p, names, l);
    } else if b :| b in model.bridges && s == BridgeEntry(model, names, b) {
      BridgeMember(ifaces, p, b);
      var l :| l in ifaces && l.kind == Bridge && b == BridgeOf(p, Mgmt(ifaces, p), l, Attached(ifaces, l.id));
      BridgeClosed(ifaces, net, p, links, physical, names, l);
    } else {
      PortIsPlain(model, names, s);
      PlainClosed(Stanzas(model, names), s);
    }
  }

  lemma ModelParts(ifaces: seq<Iface>, net: Net, p: Primary)
    ensures ModelOf(ifaces, net, p).bonds == Bonds(ifaces, net)
    ensures ModelOf(ifaces, net, p).bridges == Bridges(ifaces, p)
  {}

  lemma RenderedParts(ifaces: seq<Iface>, net: Net, p: Primary, links: seq<Link>, physical: set<string>,
                      names: map<string, string>)
    requires Rendered(ifaces, net, p, links, physical, names)
    ensures Unique(ifaces) && Clean(ifaces, net, p)
  {}

  lemma PortIsPlain(model: Model, names: map<string, string>, s: Stanza)
    requires s == Loopback || exists q :: q in model.ports && s == PortEntry(model, names, q)
    ensures s.Loopback? || s.PortStanza?
  {}

  lemma PlainClosed(st: seq<Stanza>, s: Stanza)
    requires s.Loopback? || s.PortStanza?
    ensures Closed(st, s)
  {}
}

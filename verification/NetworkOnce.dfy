/** Nothing twice in the rendered network configuration: one address, one MTU
    per bond, and no interface enslaved in two places. */
module NetworkOnce {
  import opened Prelude
  import opened NetworkModel
  import opened NetworkMatch
  import opened NetworkRender
  import opened NetworkForest

  // ---- the MTU of a bond's members -----------------------------------------------------

  /** The port stanzas for the NIC of a bond's member have the bond's own MTU. */
  lemma MemberStanzaMtu(ifaces: seq<Iface>, net: Net, p: Primary, links: seq<Link>, physical: set<string>,
                        names: map<string, string>, b: Iface, m: Iface, s: Stanza)
    requires Rendered(ifaces, net, p, links, physical, names)
    requires InBond(ifaces, m, b) && b.mtu.Some?
    requires s in Stanzas(ModelOf(ifaces, net, p), names) && s.PortStanza?
    requires s.name == LinuxName(ModelOf(ifaces, net, p), names, m.id)
    ensures s.mtu == b.mtu
  {
    var model := ModelOf(ifaces, net, p);
    var q := PortOf(m, MtuOr(m.mtu, b.mtu));
    MemberFacts(ifaces, net, p, m, b);
    assert q.mtu == b.mtu;
    ModelPorts(ifaces, net, p);
    hide ModelOf, Clean, Unique, Matched, Names, Stanzas, LinuxName, PortList;
    StanzaMember(model, names, s);
    var r :| r in model.ports && s == PortEntry(model, names, r);
    assert BondPort(ifaces, m, b, q);
    PortListMember(ifaces, q);
    PortNamesDiffer(ifaces, net, p, links, physical, names, q, r);
  }

  // ---- one address ------------------------------------------------------------------------

  predicate HasAddress(s: Stanza) { s.BridgeStanza? && s.address.Some? && s.address.value != "" }

  lemma {:induction false} EndLinesPrefix(a: seq<string>, b: seq<string>)
    ensures StartsWith(EndLines(a + b), EndLines(a))
  {
    if a == [] {
    } else {
      EndLinesPrefix(a[1..], b);
      assert (a + b)[1..] == a[1..] + b;
    }
  }

  /** The text of a bridge has its address line right after a static head iff it
      has an address, and goes on with its ports after a manual head otherwise. */
  lemma AddressIsWritten(s: Stanza)
    requires s.BridgeStanza?
    ensures HasAddress(s) ==>
      StartsWith(StanzaText(s), EndLines(Head(s.name, "static") + [KeyLine("address", s.address.value)]))
    ensures !HasAddress(s) ==>
      StartsWith(StanzaText(s), EndLines(Head(s.name, "manual") + [PortsLine(s.ports)]))
  {
    hide Head, KeyLine, TextLines, PortsLine, BackLines, EndLines;
    var rest := [PortsLine(s.ports)] + BackLines(s);
    if HasAddress(s) {
      var address, gateway := [KeyLine("address", s.address.value)], TextLines("gateway", s.gateway);
      assert Head(s.name, "static") + ((address + gateway) + rest)
          == (Head(s.name, "static") + address) + (gateway + rest);
      EndLinesPrefix(Head(s.name, "static") + address, gateway + rest);
    } else {
      assert Head(s.name, "manual") + ([] + rest) == (Head(s.name, "manual") + [PortsLine(s.ports)]) + BackLines(s);
      EndLinesPrefix(Head(s.name, "manual") + [PortsLine(s.ports)], BackLines(s));
    }
  }

  lemma BridgeEntriesAt(ifaces: seq<Iface>, net: Net, p: Primary, names: map<string, string>, k: nat)
    requires k < |OfKind(ifaces, Bridge)|
    ensures var model := ModelOf(ifaces, net, p);
      var b := OfKind(ifaces, Bridge)[k];
      |BridgeEntries(model, names)| == |OfKind(ifaces, Bridge)|
        && BridgeEntries(model, names)[k]
          == BridgeEntry(model, names, BridgeOf(p, Mgmt(ifaces, p), b, Attached(ifaces, b.id)))
  {
    var model := ModelOf(ifaces, net, p);
    var bridges := OfKind(ifaces, Bridge);
    assert model.bridges == Bridges(ifaces, p);
    hide ModelOf, OfKind, Mgmt, Attached, BridgeOf, BridgeEntry;
    MapAt((b: Iface) => BridgeOf(p, Mgmt(ifaces, p), b, Attached(ifaces, b.id)), bridges, k);
    MapAt((b: BridgeModel) => BridgeEntry(model, names, b), model.bridges, k);
  }

  lemma BondEntriesAt(ifaces: seq<Iface>, net: Net, p: Primary, names: map<string, string>, k: nat)
    requires k < |OfKind(ifaces, Lag)|
    ensures var model := ModelOf(ifaces, net, p);
      var b := OfKind(ifaces, Lag)[k];
      |BondEntries(model, names)| == |OfKind(ifaces, Lag)|
        && BondEntries(model, names)[k] == BondEntry(model, names, BondOf(net, b, Members(ifaces, b.id)))
  {
    var model := ModelOf(ifaces, net, p);
    var lags := OfKind(ifaces, Lag);
    assert model.bonds == Bonds(ifaces, net);
    hide ModelOf, OfKind, Members, BondOf, BondEntry;
    MapAt((b: Iface) => BondOf(net, b, Members(ifaces, b.id)), lags, k);
    MapAt((b: Bond) => BondEntry(model, names, b), model.bonds, k);
  }

  lemma KindDistinct(ifaces: seq<Iface>, kind: Kind)
    requires Unique(ifaces)
    ensures NoDup(OfKind(ifaces, kind))
  {
    SelectionNoDup((i: Iface) => i.kind == kind, ifaces);
  }

  /** The bridge that carries the address. */
  lemma MgmtIsBridge(ifaces: seq<Iface>, p: Primary)
    ensures Mgmt(ifaces, p).Some? ==> Mgmt(ifaces, p).value in OfKind(ifaces, Bridge)
  {
    MineInList(ifaces, p.ids);
    KindMembers(ifaces, Bridge);
    if Mgmt(ifaces, p).Some? { assert Mine(ifaces, p.ids)[0] in Mine(ifaces, p.ids); }
  }

  /** Stanza k alone has an address: the primary one, with the gateway. */
  ghost predicate OnlyAddress(st: seq<Stanza>, k: nat, p: Primary) {
    && k < |st| && HasAddress(st[k]) && st[k].address == Some(p.address) && st[k].gateway == p.gateway
    && forall j :: 0 <= j < |st| && HasAddress(st[j]) ==> j == k
  }

  lemma PlainEntries(model: Model, names: map<string, string>)
    ensures forall s :: s in [Loopback] + PortEntries(model, names) + BondEntries(model, names) ==> !HasAddress(s)
  {
    forall s | s in [Loopback] + PortEntries(model, names) + BondEntries(model, names) ensures !HasAddress(s) {
      MapMember((p: Port) => PortEntry(model, names, p), SortedPorts(model, names), s);
      MapMember((b: Bond) => BondEntry(model, names, b), model.bonds, s);
    }
  }

  lemma OffsetAddress(front: seq<Stanza>, back: seq<Stanza>, k: nat, p: Primary)
    requires forall i :: 0 <= i < |front| ==> !HasAddress(front[i])
    requires OnlyAddress(back, k, p)
    ensures OnlyAddress(front + back, |front| + k, p)
  {
    var st := front + back;
    assert forall i :: 0 <= i < |front| ==> st[i] == front[i];
    assert forall i :: 0 <= i < |back| ==> st[|front| + i] == back[i];
    forall j | 0 <= j < |st| && HasAddress(st[j]) ensures j == |front| + k {
      assert j >= |front| ==> back[j - |front|] == st[j];
    }
  }

  lemma AddressAt(ifaces: seq<Iface>, net: Net, p: Primary, names: map<string, string>, j: nat)
    requires Mgmt(ifaces, p).Some? && p.address != "" && j < |OfKind(ifaces, Bridge)|
    ensures var back := BridgeEntries(ModelOf(ifaces, net, p), names);
      |back| == |OfKind(ifaces, Bridge)|
        && (HasAddress(back[j]) <==> OfKind(ifaces, Bridge)[j].id == Mgmt(ifaces, p).value.id)
        && (HasAddress(back[j]) ==> back[j].address == Some(p.address) && back[j].gateway == p.gateway)
  {
    BridgeEntriesAt(ifaces, net, p, names, j);
    hide ModelOf, OfKind, Mgmt, Attached, BridgeEntries;
  }

  /** Exactly one stanza has an address, and writes it. */
  lemma OneAddress(ifaces: seq<Iface>, net: Net, p: Primary, names: map<string, string>)
    requires Unique(ifaces) && Clean(ifaces, net, p)
    ensures exists k :: OnlyAddress(Stanzas(ModelOf(ifaces, net, p), names), k, p)
  {
    hide ModelOf, BondsOk, BridgesOk, NoAddressLost, Mgmt, OfKind, Unique, HasAddress;
    hide BridgeEntries, PortEntries, BondEntries;
    var model := ModelOf(ifaces, net, p);
    var bridges, back := OfKind(ifaces, Bridge), BridgeEntries(model, names);
    var mgmt := Mgmt(ifaces, p).value;
    MgmtIsBridge(ifaces, p);
    KindMembers(ifaces, Bridge);
    KindDistinct(ifaces, Bridge);
    var k :| 0 <= k < |bridges| && bridges[k] == mgmt;
    AddressAt(ifaces, net, p, names, k);
    forall j | 0 <= j < |back| && HasAddress(back[j]) ensures j == k {
      AddressAt(ifaces, net, p, names, j);
      assert bridges[j] in bridges;
      SameIface(ifaces, bridges[j], mgmt);
    }
    assert OnlyAddress(back, k, p);
    PlainEntries(model, names);
    var front := [Loopback] + PortEntries(model, names) + BondEntries(model, names);
    OffsetAddress(front, back, k, p);
    assert Stanzas(model, names) == front + back;
    assert OnlyAddress(Stanzas(model, names), |front| + k, p);
  }
}

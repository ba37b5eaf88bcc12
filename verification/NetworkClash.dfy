/** Consistent topologies whose file is not what the model says, or no forest:
    the only NIC of the node is named like a bond, like a bridge or "none", or
    the name of a bridge ends in a line break. */
module NetworkClash {
  import opened Prelude
  import opened NetworkModel
  import opened NetworkMatch
  import opened NetworkRender
  import opened NetworkForest
  import opened NetworkSlaves
  import opened NetworkTree
  import opened NetworkRead
  import opened NetworkFile

  const MAC := "02:00:5e:10:00:01"
  const NET := Net(Some(100), None)
  const PRIMARY := Primary("10.0.0.2/24", ["b"], true, Some("10.0.0.1"), true)

  /** The management bridge, under a name. */
  function BridgeNamed(name: string): Iface {
    Iface("b", name, Bridge, None, None, None, None, NoMode, [], "", None, None, false, [])
  }

  const BRIDGE := BridgeNamed("vmbr0")

  lemma Numbered()
    ensures IsNumbered("bond0", "bond", 3) && IsNumbered("vmbr0", "vmbr", 4) && IsNumbered("vmbr0\n", "vmbr", 4)
  {
    assert BeforeBreak("bond0") == "bond0" && BeforeBreak("vmbr0") == "vmbr0";
    assert BeforeBreak("vmbr0\n") == "vmbr0";
    assert "bond0"[4..] == "0" && "vmbr0"[4..] == "0";
  }

  lemma AddressesAreWords()
    ensures AddressOk(PRIMARY) && GatewayOk(PRIMARY)
  {}

  lemma SortOne(i: Iface)
    ensures Sort(NameLe, [i]) == [i]
  {
    assert [i][1..] == [];
  }

  lemma NoneFlagged(i: Iface)
    requires !i.primaryMember
    ensures Flagged([i]) == []
  {
    assert [i][1..] == [];
  }

  lemma ManagementFound(ifaces: seq<Iface>, bridge: Iface)
    requires bridge.kind == Bridge && bridge in ifaces && forall i :: i in ifaces && i.id == "b" ==> i == bridge
    requires bridge.id == "b"
    ensures Mgmt(ifaces, PRIMARY) == Some(bridge)
  {
    assert ById(ifaces, "b") == Some(bridge);
    assert PRIMARY.ids[1..] == [];
    assert Mine(ifaces, PRIMARY.ids) == [bridge];
  }

  // ---- a NIC named like the bond it belongs to --------------------------------------------

  const LAG :=
    Iface("l", "bond0", Lag, None, Some("b"), None, None, NoMode, [], "", Some(BalanceRr), None, false, [])
  const PORT := Iface("p", "nic1", Physical, Some("l"), None, Some(MAC), None, NoMode, [], "", None, None, false, [])
  const IFACES := [BRIDGE, LAG, PORT]
  const LINKS := [Link("bond0", Some(MAC), None)]
  const PHYSICAL := {"bond0"}
  const NAMES := map["p" := "bond0"]

  lemma FilterThree(p: Iface -> bool)
    ensures Filter(p, IFACES) ==
      (if p(BRIDGE) then [BRIDGE] else []) + (if p(LAG) then [LAG] else []) + (if p(PORT) then [PORT] else [])
  {
    assert IFACES[1..] == [LAG, PORT] && [LAG, PORT][1..] == [PORT] && [PORT][1..] == [];
    assert Filter(p, [PORT]) == if p(PORT) then [PORT] else [];
    assert Filter(p, [LAG, PORT]) == (if p(LAG) then [LAG] else []) + Filter(p, [PORT]);
  }

  lemma Selections()
    ensures OfKind(IFACES, Lag) == [LAG] && OfKind(IFACES, Bridge) == [BRIDGE]
    ensures Members(IFACES, "l") == [PORT] && Attached(IFACES, "b") == [LAG]
  {
    FilterThree((i: Iface) => i.kind == Lag);
    FilterThree((i: Iface) => i.kind == Bridge);
    FilterThree((i: Iface) => i.lag == Some("l"));
    FilterThree((i: Iface) => i.bridge == Some("b"));
    SortOne(LAG);
    SortOne(BRIDGE);
    SortOne(PORT);
  }

  lemma BondIsOk()
    ensures BondOk(NET, LAG, [PORT])
  {
    Numbered();
    NoneFlagged(PORT);
    hide Flagged, IsNumbered;
  }

  lemma BridgeIsOk()
    ensures BridgeOk(IFACES, PRIMARY, Some(BRIDGE), BRIDGE, [LAG])
  {
    Selections();
    Numbered();
    NoneFlagged(LAG);
    assert LargestMtu([PORT]) == 0 by { assert [PORT][1..] == []; }
    hide OfKind, Members, Attached, Flagged, IsNumbered, LargestMtu;
    assert AttachedOk(IFACES, BRIDGE, LAG);
  }

  lemma IsUnique()
    ensures Unique(IFACES)
  {}

  lemma NoAddresses()
    ensures forall i :: i in IFACES ==> NoAddressLost(IFACES, i)
  {
    assert forall i :: i in IFACES ==> i.ips == [];
  }

  lemma IsClean()
    ensures Unique(IFACES) && Clean(IFACES, NET, PRIMARY)
  {
    IsUnique();
    Selections();
    ManagementFound(IFACES, BRIDGE);
    AddressesAreWords();
    BondIsOk();
    BridgeIsOk();
    NoAddresses();
    hide Mgmt, OfKind, Members, Attached, BondOk, BridgeOk, NoAddressLost, AddressOk, GatewayOk, Unique;
  }

  lemma OneBondPort()
    ensures ModelOf(IFACES, NET, PRIMARY).ports == [PortOf(PORT, None)]
  {
    var q := PortOf(PORT, None);
    Selections();
    hide OfKind, Members, Attached;
    assert BondPorts(LAG, [PORT]) == [q] by { assert [PORT][1..] == []; }
    assert BridgePorts([LAG]) == [] by { assert [LAG][1..] == []; }
    assert Members(IFACES, LAG.id) == [PORT] && Attached(IFACES, BRIDGE.id) == [LAG];
    FlatMapSnoc((b: Iface) => BondPorts(b, Members(IFACES, b.id)), [], LAG);
    FlatMapSnoc((b: Iface) => BridgePorts(Attached(IFACES, b.id)), [], BRIDGE);
    assert [] + [LAG] == [LAG] && [] + [BRIDGE] == [BRIDGE];
    assert PortList(IFACES) == [q];
    assert PutAll(PortId, [], [q]) == [q] by { assert [q][1..] == []; }
    assert Sort(PortLe, [q]) == [q] by { assert [q][1..] == []; }
  }

  lemma OneNic(name: string)
    ensures Hits([Link(name, Some(MAC), None)], {name}, MAC) == [name]
  {
    assert [Link(name, Some(MAC), None)][1..] == [];
  }

  /** One port, on the one NIC of the node. */
  lemma OneNameMatches(q: Port, nic: string)
    requires q.mac == MAC && q.id == "p"
    ensures Matched([q], [Link(nic, Some(MAC), None)], {nic})
    ensures Names(map["p" := nic], [q], [Link(nic, Some(MAC), None)], {nic})
  {
    OneNic(nic);
    hide Hits;
    assert [q][0].id == "p";
  }

  lemma OneNicRenders(ifaces: seq<Iface>, net: Net, p: Primary, q: Port, nic: string)
    requires Unique(ifaces) && Clean(ifaces, net, p) && ModelOf(ifaces, net, p).ports == [q]
    requires q.mac == MAC && q.id == "p" && OneWord(nic)
    ensures Rendered(ifaces, net, p, [Link(nic, Some(MAC), None)], {nic}, map["p" := nic])
  {
    hide Clean, Unique, ModelOf, Matched, Names;
    OneNameMatches(q, nic);
  }

  lemma BondCaseRendered()
    ensures Rendered(IFACES, NET, PRIMARY, LINKS, PHYSICAL, NAMES)
  {
    IsClean();
    OneBondPort();
    hide Clean, Unique, ModelOf, Hits, Matched, Names, Rendered;
    var q := PortOf(PORT, None);
    assert q.mac == MAC && q.id == "p";
    assert OneWord("bond0");
    hide OneWord;
    OneNicRenders(IFACES, NET, PRIMARY, q, "bond0");
  }

  lemma BondCaseClash()
    ensures NamedLikeBond(IFACES, NET, PRIMARY, NAMES, PortOf(PORT, None), LAG)
  {
    OneBondPort();
    hide ModelOf;
    assert OnBridge(IFACES, LAG, BRIDGE);
  }

  /** The file names bond0 both as a slave of itself and as a bridge port. */
  lemma NicNamedLikeBondIsEnslavedTwice()
    ensures Rendered(IFACES, NET, PRIMARY, LINKS, PHYSICAL, NAMES)
    ensures !Apart(EnslavedLists(Stanzas(ModelOf(IFACES, NET, PRIMARY), NAMES)))
  {
    hide *;
    BondCaseRendered();
    BondCaseClash();
    NothingEnslavedTwice(IFACES, NET, PRIMARY, LINKS, PHYSICAL, NAMES);
  }

  // ---- one bridge over one port ------------------------------------------------------------------

  const PLAIN_PORT :=
    Iface("p", "nic1", Physical, None, Some("b"), Some(MAC), None, NoMode, [], "", None, None, false, [])

  function Plain(name: string): seq<Iface> { [BridgeNamed(name), PLAIN_PORT] }

  lemma FilterTwo(p: Iface -> bool, a: Iface, b: Iface)
    ensures Filter(p, [a, b]) == (if p(a) then [a] else []) + (if p(b) then [b] else [])
  {
    assert [a, b][1..] == [b] && [b][1..] == [];
    assert Filter(p, [b]) == if p(b) then [b] else [];
  }

  lemma PlainSelections(name: string)
    ensures OfKind(Plain(name), Lag) == [] && OfKind(Plain(name), Bridge) == [BridgeNamed(name)]
    ensures Attached(Plain(name), "b") == [PLAIN_PORT]
  {
    var bridge := BridgeNamed(name);
    FilterTwo((i: Iface) => i.kind == Lag, bridge, PLAIN_PORT);
    FilterTwo((i: Iface) => i.kind == Bridge, bridge, PLAIN_PORT);
    FilterTwo((i: Iface) => i.bridge == Some("b"), bridge, PLAIN_PORT);
    SortOne(bridge);
    SortOne(PLAIN_PORT);
  }

  lemma PlainIsUnique(name: string)
    requires IsNumbered(name, "vmbr", 4)
    ensures Unique(Plain(name))
  {
    NumberedStem(name, "vmbr", 4);
    assert name[0] == 'v' && "nic1"[0] == 'n';
  }

  lemma PlainIsClean(name: string)
    requires IsNumbered(name, "vmbr", 4)
    ensures Clean(Plain(name), NET, PRIMARY)
  {
    var ifaces, bridge := Plain(name), BridgeNamed(name);
    PlainSelections(name);
    ManagementFound(ifaces, bridge);
    AddressesAreWords();
    NoneFlagged(PLAIN_PORT);
    hide Mgmt, OfKind, Members, Attached, Flagged, IsNumbered, AddressOk, GatewayOk;
    assert AttachedOk(ifaces, bridge, PLAIN_PORT);
    assert BridgeOk(ifaces, PRIMARY, Mgmt(ifaces, PRIMARY), bridge, [PLAIN_PORT]);
    assert forall i :: i in ifaces ==> i.ips == [];
  }

  lemma OneBridgePort(name: string)
    ensures ModelOf(Plain(name), NET, PRIMARY).ports == [PortOf(PLAIN_PORT, None)]
  {
    var q, ifaces, bridge := PortOf(PLAIN_PORT, None), Plain(name), BridgeNamed(name);
    PlainSelections(name);
    hide OfKind, Members, Attached;
    assert BridgePorts([PLAIN_PORT]) == [q] by { assert [PLAIN_PORT][1..] == []; }
    assert AllBondPorts(ifaces, []) == [];
    FlatMapSnoc((b: Iface) => BridgePorts(Attached(ifaces, b.id)), [], bridge);
    assert [] + [bridge] == [bridge];
    assert PortList(ifaces) == [q];
    assert PutAll(PortId, [], [q]) == [q] by { assert [q][1..] == []; }
    assert Sort(PortLe, [q]) == [q] by { assert [q][1..] == []; }
  }

  /** The node's one NIC, under a name. */
  function PlainLinks(nic: string): seq<Link> { [Link(nic, Some(MAC), None)] }

  function PlainNames(nic: string): map<string, string> { map["p" := nic] }

  lemma PlainIsRendered(name: string, nic: string)
    requires IsNumbered(name, "vmbr", 4) && OneWord(nic)
    ensures Rendered(Plain(name), NET, PRIMARY, PlainLinks(nic), {nic}, PlainNames(nic))
  {
    PlainIsUnique(name);
    PlainIsClean(name);
    OneBridgePort(name);
    hide Clean, Unique, ModelOf, Hits, Matched, Names, Rendered, IsNumbered, OneWord;
    var q := PortOf(PLAIN_PORT, None);
    assert q.mac == MAC && q.id == "p";
    OneNicRenders(Plain(name), NET, PRIMARY, q, nic);
  }

  ghost function PlainModel(name: string): Model { ModelOf(Plain(name), NET, PRIMARY) }

  ghost function PlainStanzas(name: string, nic: string): seq<Stanza> { Stanzas(PlainModel(name), PlainNames(nic)) }

  ghost function PlainBridge(name: string): BridgeModel {
    BridgeOf(PRIMARY, Mgmt(Plain(name), PRIMARY), BridgeNamed(name), Attached(Plain(name), "b"))
  }

  lemma OnePortId(mgmt: Option<Iface>, bridge: Iface)
    ensures var b := BridgeOf(PRIMARY, mgmt, bridge, [PLAIN_PORT]); b.ports == ["p"] && b.name == bridge.name
  {
    assert [PLAIN_PORT][1..] == [];
  }

  lemma OneLinuxName(model: Model, nic: string, b: BridgeModel)
    requires b.ports == ["p"] && OneWord(nic)
    ensures EnslavedBy(BridgeEntry(model, PlainNames(nic), b)) == [nic]
    ensures StanzaName(BridgeEntry(model, PlainNames(nic), b)) == b.name
  {
    assert LinuxName(model, PlainNames(nic), "p") == nic;
    hide LinuxName, OneWord, PlainNames;
    assert ["p"][1..] == [];
  }

  /** The bridge of the model, and its ports in the file. */
  lemma PlainBridgeFacts(name: string, nic: string)
    requires OneWord(nic)
    ensures PlainBridge(name) in PlainModel(name).bridges && PlainBridge(name).name == name
    ensures EnslavedBy(BridgeEntry(PlainModel(name), PlainNames(nic), PlainBridge(name))) == [nic]
    ensures StanzaName(BridgeEntry(PlainModel(name), PlainNames(nic), PlainBridge(name))) == name
  {
    PlainSelections(name);
    BridgeInModel(Plain(name), NET, PRIMARY, BridgeNamed(name));
    OnePortId(Mgmt(Plain(name), PRIMARY), BridgeNamed(name));
    hide ModelOf, Mgmt, Attached, OfKind, BridgeOf, OneWord, BridgeEntry, EnslavedBy, StanzaName, PlainNames;
    OneLinuxName(PlainModel(name), nic, PlainBridge(name));
  }

  lemma BridgeInModel(ifaces: seq<Iface>, net: Net, p: Primary, b: Iface)
    requires b in ifaces && b.kind == Bridge
    ensures BridgeOf(p, Mgmt(ifaces, p), b, Attached(ifaces, b.id)) in ModelOf(ifaces, net, p).bridges
  {
    assert ModelOf(ifaces, net, p).bridges == Bridges(ifaces, p);
    hide ModelOf, Bridges, BridgeOf, Mgmt, Attached;
    BridgeMember(ifaces, p, BridgeOf(p, Mgmt(ifaces, p), b, Attached(ifaces, b.id)));
  }

  // ---- a NIC named like the bridge it is attached to -----------------------------------------

  lemma BridgeHoldsItself(name: string)
    requires OneWord(name)
    ensures exists s :: s in PlainStanzas(name, name) && StanzaName(s) in EnslavedBy(s)
  {
    hide ModelOf, Stanzas, OneWord, BridgeEntry, EnslavedBy, StanzaName, PlainNames, PlainBridge;
    PlainBridgeFacts(name, name);
    StanzaMember(PlainModel(name), PlainNames(name),
                 BridgeEntry(PlainModel(name), PlainNames(name), PlainBridge(name)));
  }

  lemma NoLags(name: string, q: Port, l: Iface, nic: string)
    ensures !NamedLikeBond(Plain(name), NET, PRIMARY, PlainNames(nic), q, l)
  {
    hide ModelOf;
    assert forall i :: i in Plain(name) ==> i.kind != Lag;
  }

  /** Nothing is enslaved twice, and still the bridge is a port of itself. */
  lemma NicNamedLikeBridgeIsALoop()
    ensures Rendered(Plain("vmbr0"), NET, PRIMARY, PlainLinks("vmbr0"), {"vmbr0"}, PlainNames("vmbr0"))
    ensures Apart(EnslavedLists(PlainStanzas("vmbr0", "vmbr0"))) && !IsForest(PlainStanzas("vmbr0", "vmbr0"))
    ensures exists s :: s in PlainStanzas("vmbr0", "vmbr0") && StanzaName(s) in EnslavedBy(s)
  {
    assert OneWord("vmbr0");
    hide *;
    Numbered();
    PlainIsRendered("vmbr0", "vmbr0");
    BridgeHoldsItself("vmbr0");
    PlainStanzasAre("vmbr0", "vmbr0");
    NothingEnslavedTwice(Plain("vmbr0"), NET, PRIMARY, PlainLinks("vmbr0"), {"vmbr0"}, PlainNames("vmbr0"));
    forall q, l ensures !NamedLikeBond(Plain("vmbr0"), NET, PRIMARY, PlainNames("vmbr0"), q, l) {
      NoLags("vmbr0", q, l, "vmbr0");
    }
    LoopIsNoForest(PlainStanzas("vmbr0", "vmbr0"));
  }

  lemma PlainStanzasAre(name: string, nic: string)
    ensures PlainStanzas(name, nic) == Stanzas(ModelOf(Plain(name), NET, PRIMARY), PlainNames(nic))
    ensures PlainModel(name) == ModelOf(Plain(name), NET, PRIMARY)
  {}

  lemma LoopIsNoForest(st: seq<Stanza>)
    ensures (exists s :: s in st && StanzaName(s) in EnslavedBy(s)) ==> !IsForest(st)
  {
    hide Apart, Closed, StanzaName, EnslavedBy;
  }

  // ---- names that the file cannot say --------------------------------------------------------------

  lemma BridgeIsBroken(name: string)
    requires EndsWith(name, "\n")
    ensures !Unbroken(PlainModel(name))
  {
    assert OneWord("eth0");
    hide ModelOf, EndsWith, PlainBridge, OneWord, BridgeEntry, EnslavedBy, StanzaName;
    PlainBridgeFacts(name, "eth0");
  }

  /** A bridge name that the source accepts and the file breaks in two. */
  lemma NameWithBreakIsLost(header: string)
    requires HeaderOk(header)
    ensures Rendered(Plain("vmbr0\n"), NET, PRIMARY, PlainLinks("eth0"), {"eth0"}, PlainNames("eth0"))
    ensures !ReadsBack(header, PlainModel("vmbr0\n"), PlainNames("eth0"))
  {
    assert OneWord("eth0") && EndsWith("vmbr0\n", "\n");
    hide *;
    Numbered();
    PlainIsRendered("vmbr0\n", "eth0");
    PlainStanzasAre("vmbr0\n", "eth0");
    BridgeIsBroken("vmbr0\n");
    ReadsBackIff(header, Plain("vmbr0\n"), NET, PRIMARY, PlainLinks("eth0"), {"eth0"}, PlainNames("eth0"));
  }

  lemma LoneNone(model: Model, names: map<string, string>, b: BridgeModel)
    requires b in model.bridges && EnslavedBy(BridgeEntry(model, names, b)) == ["none"]
    ensures !NoLoneNone(model, names)
  {
    hide LinuxName;
  }

  lemma PortIsHidden(name: string)
    ensures !NoLoneNone(PlainModel(name), PlainNames("none"))
  {
    assert OneWord("none");
    hide *;
    PlainBridgeFacts(name, "none");
    LoneNone(PlainModel(name), PlainNames("none"), PlainBridge(name));
  }

  /** A bridge over a NIC named "none" has no ports in the file. */
  lemma NicNamedNoneIsLost(header: string)
    requires HeaderOk(header)
    ensures Rendered(Plain("vmbr0"), NET, PRIMARY, PlainLinks("none"), {"none"}, PlainNames("none"))
    ensures !ReadsBack(header, PlainModel("vmbr0"), PlainNames("none"))
  {
    assert OneWord("none");
    hide *;
    Numbered();
    PlainIsRendered("vmbr0", "none");
    PlainStanzasAre("vmbr0", "none");
    PortIsHidden("vmbr0");
    ReadsBackIff(header, Plain("vmbr0"), NET, PRIMARY, PlainLinks("none"), {"none"}, PlainNames("none"));
  }
}

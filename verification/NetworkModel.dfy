/** The bond and bridge topology of a device (jobs/lib/host_baseline.py
    build_network_model): when the interfaces describe one, and the model that
    is rendered from them. Interfaces have unique ids and, on one device,
    unique names. */
module NetworkModel {
  import opened Prelude
  import VlanRanges

  datatype Kind = Bridge | Lag | Virtual | Physical

  datatype LagMode =
    BalanceRr | ActiveBackup | BalanceXor | Broadcast | Ieee8023ad | BalanceTlb | BalanceAlb | UnknownMode

  /** XMIT_HASH_POLICIES, and any other text. */
  datatype Hash = Layer2 | Layer23 | Layer34 | Encap23 | Encap34 | VlanSrcmac | UnknownHash

  /** LACP_RATES */
  datatype LacpRate = Slow | Fast

  datatype VlanMode = NoMode | TaggedAll | Tagged | Access

  datatype Iface = Iface(
    id: string, name: string, kind: Kind,
    lag: Option<string>, bridge: Option<string>, mac: Option<string>, mtu: Option<int>,
    mode: VlanMode, taggedVids: seq<nat>, description: string,
    lagMode: Option<LagMode>, xmitHash: Option<Hash>, primaryMember: bool, ips: seq<string>)

  /** host_baseline.network of the config context. */
  datatype Net = Net(miimon: Option<int>, lacpRate: Option<LacpRate>)

  /** primary_ip4, the interfaces it sits on, and the gateway. addressOk and
      gatewayInside are the verdicts of the ipaddress library. */
  datatype Primary = Primary(address: string, ids: seq<string>, addressOk: bool,
                             gateway: Option<string>, gatewayInside: bool)

  datatype Port = Port(id: string, name: string, mac: string, mtu: Option<int>, description: string)

  datatype Bond = Bond(name: string, id: string, members: seq<string>, mode: LagMode, xmitHash: Option<Hash>,
                       lacpRate: Option<LacpRate>, miimon: Option<int>, primary: Option<string>,
                       mtu: Option<int>, description: string)

  datatype BridgeModel = BridgeModel(name: string, id: string, ports: seq<string>, vids: Option<string>,
                                     mtu: Option<int>, description: string,
                                     address: Option<string>, gateway: Option<string>)

  datatype Model = Model(ports: seq<Port>, bonds: seq<Bond>, bridges: seq<BridgeModel>, mgmt: Option<string>,
                         names: map<string, string>)

  // ---- reading the interface list ------------------------------------------------------

  predicate NameLe(a: Iface, b: Iface) { StrLe(a.name, b.name) }

  ghost predicate Unique(ifaces: seq<Iface>) {
    forall i, j :: 0 <= i < j < |ifaces| ==> ifaces[i].id != ifaces[j].id && ifaces[i].name != ifaces[j].name
  }

  function OfKind(ifaces: seq<Iface>, kind: Kind): seq<Iface> {
    Sort(NameLe, Filter((i: Iface) => i.kind == kind, ifaces))
  }

  /** The members of a LAG, by name. */
  function Members(ifaces: seq<Iface>, id: string): seq<Iface> {
    Sort(NameLe, Filter((i: Iface) => i.lag == Some(id), ifaces))
  }

  /** The interfaces attached to a bridge, by name. */
  function Attached(ifaces: seq<Iface>, id: string): seq<Iface> {
    Sort(NameLe, Filter((i: Iface) => i.bridge == Some(id), ifaces))
  }

  function Ids(s: seq<Iface>): seq<string> { Map((i: Iface) => i.id, s) }

  function Flagged(s: seq<Iface>): seq<Iface> { Filter((i: Iface) => i.primaryMember, s) }

  predicate MtuOk(i: Iface) { i.mtu.None? || 576 <= i.mtu.value <= 9216 }

  /** `a or b` on MTUs (0 counts as absent). */
  function MtuOr(a: Option<int>, b: Option<int>): Option<int> {
    if a.Some? && a.value != 0 then a else b
  }

  function MacOf(i: Iface): string { if i.mac.Some? then i.mac.value else "" }

  function PortOf(i: Iface, mtu: Option<int>): Port {
    Port(i.id, i.name, MacOf(i), mtu, i.description)
  }

  /** add_port accepts: a physical port with a MAC, in one place only. */
  predicate PortOk(i: Iface) {
    i.kind == Physical && !(i.lag.Some? && i.bridge.Some?) && i.mac.Some? && i.mac.value != ""
  }

  // ---- what a consistent topology is ------------------------------------------------------

  /** "bond" or "vmbr" and one to most digits; the `$` of _BOND_NAME_RE and
      _BRIDGE_NAME_RE also matches before one final line break. */
  predicate IsNumbered(name: string, stem: string, most: nat) {
    var t := BeforeBreak(name);
    StartsWith(t, stem) && 1 <= |t| - |stem| <= most && AllDigits(t[|stem|..])
  }

  predicate UsesHash(m: LagMode) { m == BalanceXor || m == Ieee8023ad || m == BalanceTlb || m == BalanceAlb }
  predicate NeedsHash(m: LagMode) { m == BalanceXor || m == Ieee8023ad }
  predicate UsesPrimary(m: LagMode) { m == ActiveBackup || m == BalanceTlb || m == BalanceAlb }

  predicate MemberOk(bond: Iface, m: Iface) {
    MtuOk(m) && PortOk(m) && (bond.mtu.Some? && m.mtu.Some? ==> bond.mtu == m.mtu)
  }

  /** The bond's own fields. */
  predicate BondFieldsOk(net: Net, bond: Iface, members: seq<Iface>) {
    && IsNumbered(bond.name, "bond", 3)
    && members != []
    && bond.lagMode.Some? && bond.lagMode.value != UnknownMode
    && (bond.xmitHash.Some? ==> bond.xmitHash.value != UnknownHash && UsesHash(bond.lagMode.value))
    && (NeedsHash(bond.lagMode.value) ==> bond.xmitHash.Some?)
    && net.miimon.Some?
    && (bond.lagMode.value == Ieee8023ad ==> net.lacpRate.Some?)
    && |Flagged(members)| <= 1
    && (bond.lagMode.value == ActiveBackup && |members| > 1 ==> |Flagged(members)| == 1)
    && MtuOk(bond)
  }

  predicate BondOk(net: Net, bond: Iface, members: seq<Iface>) {
    BondFieldsOk(net, bond, members) && forall m :: m in members ==> MemberOk(bond, m)
  }

  /** The largest MTU among the members, 0 for none. */
  function LargestMtu(members: seq<Iface>): int {
    if members == [] then 0
    else
      var head := if members[0].mtu.Some? then members[0].mtu.value else 0;
      var rest := LargestMtu(members[1..]);
      if head > rest then head else rest
  }

  function BondMtu(bond: Iface, members: seq<Iface>): Option<int> {
    MtuOr(bond.mtu, if LargestMtu(members) == 0 then None else Some(LargestMtu(members)))
  }

  function BondOf(net: Net, bond: Iface, members: seq<Iface>): Bond {
    var mode := if bond.lagMode.Some? then bond.lagMode.value else UnknownMode;
    Bond(bond.name, bond.id, Ids(members), mode,
         if UsesHash(mode) then bond.xmitHash else None,
         if mode == Ieee8023ad then net.lacpRate else None,
         net.miimon,
         if |Flagged(members)| == 1 && UsesPrimary(mode) then Some(Flagged(members)[0].id) else None,
         BondMtu(bond, members), bond.description)
  }

  function BondPorts(bond: Iface, members: seq<Iface>): seq<Port> {
    Map((m: Iface) => PortOf(m, MtuOr(m.mtu, bond.mtu)), members)
  }

  /** The MTU a bridge sees on one of its ports. */
  function AttachedMtu(ifaces: seq<Iface>, i: Iface): Option<int> {
    if i.kind == Lag then BondMtu(i, Members(ifaces, i.id)) else i.mtu
  }

  predicate AttachedOk(ifaces: seq<Iface>, bridge: Iface, i: Iface) {
    && i.kind != Bridge
    && (i.kind != Lag ==> MtuOk(i) && PortOk(i))
    && (bridge.mtu.Some? && AttachedMtu(ifaces, i).Some? ==> bridge.mtu.value <= AttachedMtu(ifaces, i).value)
  }

  predicate BridgeFieldsOk(p: Primary, mgmt: Option<Iface>, bridge: Iface, attached: seq<Iface>) {
    && IsNumbered(bridge.name, "vmbr", 4)
    && |Flagged(attached)| <= 1
    && MtuOk(bridge)
    && bridge.mode != Access
    && (bridge.mode == Tagged ==> bridge.taggedVids != [])
    && (forall ip :: ip in bridge.ips ==> mgmt.Some? && bridge.id == mgmt.value.id && ip == p.address)
  }

  predicate BridgeOk(ifaces: seq<Iface>, p: Primary, mgmt: Option<Iface>, bridge: Iface, attached: seq<Iface>) {
    BridgeFieldsOk(p, mgmt, bridge, attached) && forall i :: i in attached ==> AttachedOk(ifaces, bridge, i)
  }

  function VidsOf(bridge: Iface): Option<string> {
    match bridge.mode
    case TaggedAll => Some("2-4094")
    case Tagged => Some(VlanRanges.VidText(bridge.taggedVids))
    case _ => None
  }

  // ---- the model of a consistent topology ---------------------------------------------------

  function ById(ifaces: seq<Iface>, id: string): (r: Option<Iface>)
    ensures r.Some? ==> r.value in ifaces && r.value.id == id
    ensures r.None? ==> forall i :: i in ifaces ==> i.id != id
  {
    if ifaces == [] then None
    else
      var later := ById(ifaces[1..], id);
      if later.Some? then later else if ifaces[0].id == id then Some(ifaces[0]) else None
  }

  /** The device's interfaces that carry primary_ip4, repeats included. */
  function Mine(ifaces: seq<Iface>, ids: seq<string>): seq<Iface> {
    if ids == [] then []
    else
      var found := ById(ifaces, ids[0]);
      (if found.Some? then [found.value] else []) + Mine(ifaces, ids[1..])
  }

  /** The management bridge: the one interface that carries primary_ip4. */
  function Mgmt(ifaces: seq<Iface>, p: Primary): Option<Iface> {
    var mine := Mine(ifaces, p.ids);
    if |mine| == 1 && mine[0].kind == Bridge then Some(mine[0]) else None
  }

  function BridgePorts(attached: seq<Iface>): seq<Port> {
    Map((i: Iface) => PortOf(i, i.mtu), Filter((i: Iface) => i.kind != Lag, attached))
  }

  function AllBondPorts(ifaces: seq<Iface>, bonds: seq<Iface>): seq<Port> {
    FlatMap((b: Iface) => BondPorts(b, Members(ifaces, b.id)), bonds)
  }

  function AllBridgePorts(ifaces: seq<Iface>, bridges: seq<Iface>): seq<Port> {
    FlatMap((b: Iface) => BridgePorts(Attached(ifaces, b.id)), bridges)
  }

  /** Every port the topology uses, in the order it is met. */
  function PortList(ifaces: seq<Iface>): seq<Port> {
    AllBondPorts(ifaces, OfKind(ifaces, Lag)) + AllBridgePorts(ifaces, OfKind(ifaces, Bridge))
  }

  function PortId(p: Port): string { p.id }

  predicate PortLe(a: Port, b: Port) { StrLe(a.name, b.name) }

  function BridgeOf(p: Primary, mgmt: Option<Iface>, bridge: Iface, attached: seq<Iface>): BridgeModel {
    var isMgmt := mgmt.Some? && bridge.id == mgmt.value.id;
    BridgeModel(bridge.name, bridge.id, Ids(attached), VidsOf(bridge), bridge.mtu, bridge.description,
                if isMgmt then Some(p.address) else None, if isMgmt then p.gateway else None)
  }

  function Bonds(ifaces: seq<Iface>, net: Net): seq<Bond> {
    Map((b: Iface) => BondOf(net, b, Members(ifaces, b.id)), OfKind(ifaces, Lag))
  }

  function Bridges(ifaces: seq<Iface>, p: Primary): seq<BridgeModel> {
    Map((b: Iface) => BridgeOf(p, Mgmt(ifaces, p), b, Attached(ifaces, b.id)), OfKind(ifaces, Bridge))
  }

  function NamesOf(ifaces: seq<Iface>): map<string, string> {
    map i | i in ifaces :: i.id := ById(ifaces, i.id).value.name
  }

  function ModelOf(ifaces: seq<Iface>, net: Net, p: Primary): Model {
    Model(Sort(PortLe, PutAll(PortId, [], PortList(ifaces))), Bonds(ifaces, net), Bridges(ifaces, p),
          if Mgmt(ifaces, p).Some? then Some(Mgmt(ifaces, p).value.name) else None, NamesOf(ifaces))
  }

  /** An address outside the topology would be dropped. */
  predicate NoAddressLost(ifaces: seq<Iface>, i: Iface) {
    i.kind == Bridge || i.kind == Lag || i.name == "xcc" || i.ips == []
    || exists q | q in PortList(ifaces) :: q.id == i.id
  }

  /** ipaddress takes the address; it takes one word only. */
  predicate AddressOk(p: Primary) { p.addressOk && OneWord(p.address) }

  /** The gateway is an address in the primary address's network. */
  predicate GatewayOk(p: Primary) { p.gatewayInside && p.gateway.Some? && OneWord(p.gateway.value) }

  predicate PrimaryOk(ifaces: seq<Iface>, p: Primary) {
    Mgmt(ifaces, p).Some? && AddressOk(p) && GatewayOk(p)
  }

  ghost predicate BondsOk(ifaces: seq<Iface>, net: Net, bonds: seq<Iface>) {
    forall b :: b in bonds ==> BondOk(net, b, Members(ifaces, b.id))
  }

  ghost predicate BridgesOk(ifaces: seq<Iface>, p: Primary, bridges: seq<Iface>) {
    forall b :: b in bridges ==> BridgeOk(ifaces, p, Mgmt(ifaces, p), b, Attached(ifaces, b.id))
  }

  /** The interfaces describe one consistent topology. */
  ghost predicate Clean(ifaces: seq<Iface>, net: Net, p: Primary) {
    && PrimaryOk(ifaces, p)
    && BondsOk(ifaces, net, OfKind(ifaces, Lag))
    && BridgesOk(ifaces, p, OfKind(ifaces, Bridge))
    && forall i :: i in ifaces ==> NoAddressLost(ifaces, i)
  }

  // ---- selections of the list ----------------------------------------------------------------

  lemma Selected(p: Iface -> bool, ifaces: seq<Iface>)
    ensures forall i :: i in Sort(NameLe, Filter(p, ifaces)) <==> i in ifaces && p(i)
  {
    SortMembers(NameLe, Filter(p, ifaces));
    FilterMembers(p, ifaces);
  }

  lemma SameIface(ifaces: seq<Iface>, i: Iface, j: Iface)
    requires Unique(ifaces)
    ensures i in ifaces && j in ifaces && (i.id == j.id || i.name == j.name) ==> i == j
  {}

  lemma SelectionNoDup(p: Iface -> bool, ifaces: seq<Iface>)
    requires Unique(ifaces)
    ensures NoDup(Sort(NameLe, Filter(p, ifaces)))
  {
    assert NoDup(ifaces) by {
      forall i, j | 0 <= i < j < |ifaces| ensures ifaces[i] != ifaces[j] { assert ifaces[i].id != ifaces[j].id; }
    }
    FilterNoDup(p, ifaces);
    NoDupPermutation(Filter(p, ifaces), Sort(NameLe, Filter(p, ifaces)));
  }

  lemma {:induction false} MineInList(ifaces: seq<Iface>, ids: seq<string>)
    ensures forall i :: i in Mine(ifaces, ids) ==> i in ifaces
  {
    if ids == [] {
    } else {
      MineInList(ifaces, ids[1..]);
    }
  }
}

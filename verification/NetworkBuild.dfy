/** build_network_model with the loops of the source: the problems it collects
    are none exactly for a consistent topology, and then the model is the one
    of that topology. */
module NetworkBuild {
  import opened Prelude
  import opened NetworkModel
  import VlanRanges

  datatype Rule =
    | NotOneManagement | ManagementNotBridge | BadAddress | NoGateway | GatewayOutside
    | MtuRange | NotAPort | TwoParents | NoMac | MtuDiffers | MtuAbovePort
    | BondName | NoMembers | BondMode | HashUnknown | HashMissing | HashUnused | NoMiimon | NoLacpRate
    | SeveralFlagged | NoPrimaryMember
    | BridgeName | BridgeInBridge | NoTaggedVlans | AccessMode | ExtraAddress | AddressLost

  datatype Problem = Problem(name: string, rule: Rule)

  function If(bad: bool, name: string, rule: Rule): (r: seq<Problem>)
    ensures r == [] <==> !bad
  {
    if bad then [Problem(name, rule)] else []
  }

  // ---- one interface ------------------------------------------------------------------

  /** mtu_of. */
  method MtuOf(i: Iface) returns (mtu: Option<int>, problems: seq<Problem>)
    ensures problems == [] <==> MtuOk(i)
    ensures mtu == if MtuOk(i) then i.mtu else None
  {
    if MtuOk(i) { return i.mtu, []; }
    return None, [Problem(i.name, MtuRange)];
  }

  /** add_port. */
  method AddPort(ports: seq<Port>, i: Iface, mtu: Option<int>) returns (r: seq<Port>, problems: seq<Problem>)
    ensures problems == [] <==> PortOk(i)
    ensures r == if PortOk(i) then Put(PortId, ports, PortOf(i, mtu)) else ports
  {
    if i.kind != Physical { return ports, [Problem(i.name, NotAPort)]; }
    if i.lag.Some? && i.bridge.Some? { return ports, [Problem(i.name, TwoParents)]; }
    if i.mac.None? || i.mac.value == "" { return ports, [Problem(i.name, NoMac)]; }
    return Put(PortId, ports, PortOf(i, mtu)), [];
  }

  // ---- one bond -------------------------------------------------------------------------

  ghost predicate MembersOk(bond: Iface, members: seq<Iface>) { forall m :: m in members ==> MemberOk(bond, m) }

  lemma MembersOkSnoc(bond: Iface, members: seq<Iface>, m: Iface)
    ensures MembersOk(bond, members + [m]) <==> MembersOk(bond, members) && MemberOk(bond, m)
  {
    var all := members + [m];
    assert all[|members|] == m;
    assert forall x :: x in all <==> x in members || x == m;
  }

  lemma BondPortsSnoc(ports: seq<Port>, bond: Iface, members: seq<Iface>, m: Iface)
    ensures PutAll(PortId, ports, BondPorts(bond, members + [m])) ==
            Put(PortId, PutAll(PortId, ports, BondPorts(bond, members)), PortOf(m, MtuOr(m.mtu, bond.mtu)))
  {
    MapSnoc((m: Iface) => PortOf(m, MtuOr(m.mtu, bond.mtu)), members, m);
    PutAllAppend(PortId, ports, BondPorts(bond, members), [PortOf(m, MtuOr(m.mtu, bond.mtu))]);
    PutAllOne(PutAll(PortId, ports, BondPorts(bond, members)), PortOf(m, MtuOr(m.mtu, bond.mtu)));
  }

  lemma PutAllOne(ports: seq<Port>, p: Port)
    ensures PutAll(PortId, ports, [p]) == Put(PortId, ports, p)
  {
    assert [p][1..] == [];
  }

  method CheckMembers(ports: seq<Port>, bond: Iface, bondMtu: Option<int>, members: seq<Iface>)
    returns (r: seq<Port>, problems: seq<Problem>)
    requires MtuOk(bond) ==> bondMtu == bond.mtu
    ensures MtuOk(bond) ==> (problems == [] <==> MembersOk(bond, members))
    ensures MtuOk(bond) && problems == [] ==> r == PutAll(PortId, ports, BondPorts(bond, members))
  {
    hide MemberOk, MembersOk, PortOk, BondPorts;
    r, problems := ports, [];
    MembersOkNone(bond);
    for i := 0 to |members|
      invariant MtuOk(bond) ==> (problems == [] <==> MembersOk(bond, members[..i]))
      invariant MtuOk(bond) && problems == [] ==> r == PutAll(PortId, ports, BondPorts(bond, members[..i]))
    {
      var m := members[i];
      assert members[..i + 1] == members[..i] + [m];
      MembersOkSnoc(bond, members[..i], m);
      BondPortsSnoc(ports, bond, members[..i], m);
      var mtu, bad := MtuOf(m);
      var differs := bondMtu.Some? && bondMtu.value != 0 && mtu.Some? && mtu.value != 0 && bondMtu != mtu;
      var more, bad' := AddPort(r, m, MtuOr(mtu, bondMtu));
      MemberOkIs(bond, m);
      r, problems := more, problems + bad + If(differs, m.name, MtuDiffers) + bad';
    }
    assert members[..|members|] == members;
  }

  lemma MembersOkNone(bond: Iface)
    ensures MembersOk(bond, []) && BondPorts(bond, []) == []
  {}

  lemma MemberOkIs(bond: Iface, m: Iface)
    ensures MemberOk(bond, m) <==>
      MtuOk(m) && PortOk(m) && (bond.mtu.Some? && m.mtu.Some? ==> bond.mtu == m.mtu)
  {}

  method CheckBondFields(net: Net, bond: Iface, members: seq<Iface>)
    returns (mode: Option<LagMode>, hash: Option<Hash>, primary: Option<Iface>, problems: seq<Problem>)
    ensures problems == [] && MtuOk(bond) <==> BondFieldsOk(net, bond, members)
    ensures problems == [] ==> mode == bond.lagMode && hash == bond.xmitHash
    ensures primary == if |Flagged(members)| == 1 then Some(Flagged(members)[0]) else None
  {
    hide IsNumbered, Flagged;
    problems := If(!IsNumbered(bond.name, "bond", 3), bond.name, BondName) + If(members == [], bond.name, NoMembers);
    mode, hash := bond.lagMode, bond.xmitHash;
    if mode.None? || mode.value == UnknownMode {
      problems := problems + [Problem(bond.name, BondMode)];
      mode := None;
    }
    if hash == Some(UnknownHash) {
      problems := problems + [Problem(bond.name, HashUnknown)];
      hash := None;
    }
    problems := problems
      + If(mode.Some? && NeedsHash(mode.value) && hash.None?, bond.name, HashMissing)
      + If(mode.Some? && !UsesHash(mode.value) && hash.Some?, bond.name, HashUnused)
      + If(net.miimon.None?, bond.name, NoMiimon)
      + If(mode == Some(Ieee8023ad) && net.lacpRate.None?, bond.name, NoLacpRate);
    var flagged := Flagged(members);
    primary := None;
    if |flagged| > 1 {
      problems := problems + [Problem(bond.name, SeveralFlagged)];
    } else if flagged != [] {
      primary := Some(flagged[0]);
    }
    problems := problems
      + If(mode == Some(ActiveBackup) && |members| > 1 && primary.None?, bond.name, NoPrimaryMember);
  }

  function PortById(ports: seq<Port>, id: string): Option<Port> {
    Find((p: Port) => p.id == id, ports)
  }

  /** max([model_ports[m["id"]]["mtu"] or 0 for m in members if ...] or [0]). */
  function LargestIn(ports: seq<Port>, members: seq<Iface>): int {
    if members == [] then 0
    else
      var p := PortById(ports, members[0].id);
      var head := if p.Some? && p.value.mtu.Some? then p.value.mtu.value else 0;
      var rest := LargestIn(ports, members[1..]);
      if head > rest then head else rest
  }

  ghost predicate DistinctIds(s: seq<Iface>) { forall i, j :: 0 <= i < j < |s| ==> s[i].id != s[j].id }

  lemma BondPortFound(ports: seq<Port>, bond: Iface, members: seq<Iface>, k: nat)
    requires DistinctKeys(PortId, ports) && DistinctIds(members) && k < |members|
    ensures PortById(PutAll(PortId, ports, BondPorts(bond, members)), members[k].id) ==
            Some(PortOf(members[k], MtuOr(members[k].mtu, bond.mtu)))
  {
    var f := (m: Iface) => PortOf(m, MtuOr(m.mtu, bond.mtu));
    var more := BondPorts(bond, members);
    forall i | 0 <= i < |members| ensures more[i] == f(members[i]) { MapAt(f, members, i); }
    PutAllHas(PortId, ports, more, k);
    PutAllDistinct(PortId, ports, more);
    FoundByKey(PutAll(PortId, ports, more), more[k]);
  }

  lemma FoundByKey(ports: seq<Port>, p: Port)
    requires DistinctKeys(PortId, ports) && p in ports
    ensures PortById(ports, p.id) == Some(p)
  {
    FindHits((q: Port) => q.id == p.id, ports, p);
    var q := PortById(ports, p.id).value;
    var i :| 0 <= i < |ports| && ports[i] == p;
    var j :| 0 <= j < |ports| && ports[j] == q;
    assert PortId(ports[i]) == PortId(ports[j]);
  }

  lemma {:induction false} LargestFound(ports: seq<Port>, members: seq<Iface>)
    requires forall k :: 0 <= k < |members| ==>
      MtuOk(members[k]) && PortById(ports, members[k].id) == Some(PortOf(members[k], MtuOr(members[k].mtu, None)))
    ensures LargestIn(ports, members) == LargestMtu(members)
  {
    if members == [] {
    } else {
      assert forall k :: 0 <= k < |members[1..]| ==> members[1..][k] == members[k + 1];
      LargestFound(ports, members[1..]);
    }
  }

  lemma BondMtuFound(ports: seq<Port>, net: Net, bond: Iface, members: seq<Iface>)
    requires DistinctKeys(PortId, ports) && DistinctIds(members) && BondOk(net, bond, members)
    ensures var after := PutAll(PortId, ports, BondPorts(bond, members));
      MtuOr(bond.mtu, if LargestIn(after, members) == 0 then None else Some(LargestIn(after, members)))
      == BondMtu(bond, members)
  {
    var after := PutAll(PortId, ports, BondPorts(bond, members));
    if bond.mtu.None? {
      forall k | 0 <= k < |members|
        ensures MtuOk(members[k])
        ensures PortById(after, members[k].id) == Some(PortOf(members[k], MtuOr(members[k].mtu, None)))
      {
        BondPortFound(ports, bond, members, k);
        assert MemberOk(bond, members[k]);
      }
      LargestFound(after, members);
    }
  }

  method CheckBond(net: Net, ports: seq<Port>, bond: Iface, members: seq<Iface>)
    returns (r: seq<Port>, model: Bond, problems: seq<Problem>)
    requires DistinctIds(members)
    ensures problems == [] <==> BondOk(net, bond, members)
    ensures problems == [] && DistinctKeys(PortId, ports) ==>
      r == PutAll(PortId, ports, BondPorts(bond, members)) && model == BondOf(net, bond, members)
  {
    hide IsNumbered, BondFieldsOk, MemberOk, BondPorts, LargestIn;
    var mode, hash, primary, problems1 := CheckBondFields(net, bond, members);
    var mtu, problems2 := MtuOf(bond);
    var problems3;
    r, problems3 := CheckMembers(ports, bond, mtu, members);
    problems := problems1 + problems2 + problems3;
    FieldsNeedMtu(net, bond, members);
    var largest := LargestIn(r, members);
    var known := if mode.Some? then mode.value else UnknownMode;
    model := Bond(bond.name, bond.id, Ids(members), known,
                  if UsesHash(known) then hash else None,
                  if known == Ieee8023ad then net.lacpRate else None, net.miimon,
                  if primary.Some? && UsesPrimary(known) then Some(primary.value.id) else None,
                  MtuOr(mtu, if largest == 0 then None else Some(largest)), bond.description);
    if problems == [] && DistinctKeys(PortId, ports) {
      BondMtuFound(ports, net, bond, members);
    }
  }

  lemma FieldsNeedMtu(net: Net, bond: Iface, members: seq<Iface>)
    ensures BondFieldsOk(net, bond, members) ==> MtuOk(bond)
  {}

  // ---- one bridge ---------------------------------------------------------------------------

  /** bond_by_id: the last bond under an id. */
  function BondById(bonds: seq<Bond>, id: string): (r: Option<Bond>)
    ensures r.Some? ==> r.value in bonds && r.value.id == id
    ensures r.None? ==> forall b :: b in bonds ==> b.id != id
  {
    if bonds == [] then None
    else
      var later := BondById(bonds[1..], id);
      if later.Some? then later else if bonds[0].id == id then Some(bonds[0]) else None
  }

  /** The bonds among these interfaces have been built. */
  ghost predicate BondsMatch(ifaces: seq<Iface>, bonds: seq<Bond>, s: seq<Iface>) {
    forall i :: i in s && i.kind == Lag ==>
      var b := BondById(bonds, i.id);
      b.Some? && b.value.mtu == BondMtu(i, Members(ifaces, i.id))
  }

  ghost predicate AllAttachedOk(ifaces: seq<Iface>, bridge: Iface, s: seq<Iface>) {
    forall i :: i in s ==> AttachedOk(ifaces, bridge, i)
  }

  lemma AllAttachedSnoc(ifaces: seq<Iface>, bridge: Iface, s: seq<Iface>, i: Iface)
    ensures AllAttachedOk(ifaces, bridge, s + [i]) <==>
      AllAttachedOk(ifaces, bridge, s) && AttachedOk(ifaces, bridge, i)
  {
    var all := s + [i];
    assert all[|s|] == i;
    assert forall x :: x in all <==> x in s || x == i;
  }

  lemma AllAttachedNone(ifaces: seq<Iface>, bridge: Iface)
    ensures AllAttachedOk(ifaces, bridge, []) && BridgePorts([]) == []
  {}

  lemma BridgePortsSnoc(ports: seq<Port>, s: seq<Iface>, i: Iface)
    ensures PutAll(PortId, ports, BridgePorts(s + [i])) ==
      if i.kind == Lag then PutAll(PortId, ports, BridgePorts(s))
      else Put(PortId, PutAll(PortId, ports, BridgePorts(s)), PortOf(i, i.mtu))
  {
    var p := (i: Iface) => i.kind != Lag;
    var f := (i: Iface) => PortOf(i, i.mtu);
    FilterSnoc(p, s, i);
    if p(i) {
      MapSnoc(f, Filter(p, s), i);
      PutAllAppend(PortId, ports, BridgePorts(s), [PortOf(i, i.mtu)]);
      PutAllOne(PutAll(PortId, ports, BridgePorts(s)), PortOf(i, i.mtu));
    } else {
      assert Filter(p, s) + [] == Filter(p, s);
    }
  }

  /** One interface attached to a bridge. */
  method CheckAttached(ifaces: seq<Iface>, bonds: seq<Bond>, ports: seq<Port>, bridge: Iface, bridgeMtu: Option<int>,
                       i: Iface)
    returns (r: seq<Port>, id: Option<string>, problems: seq<Problem>)
    requires MtuOk(bridge) ==> bridgeMtu == bridge.mtu
    ensures MtuOk(bridge) && BondsMatch(ifaces, bonds, [i]) ==> (problems == [] <==> AttachedOk(ifaces, bridge, i))
    ensures problems == [] ==> id == Some(i.id)
    ensures problems == [] ==> r == if i.kind == Lag then ports else Put(PortId, ports, PortOf(i, i.mtu))
  {
    hide PortOk, BondMtu, Members;
    r, problems := ports, [];
    var mtu: Option<int> := None;
    if i.kind == Lag {
      assert i in [i];
      var bond := BondById(bonds, i.id);
      if bond.Some? { mtu := bond.value.mtu; }
    } else if i.kind == Bridge {
      return r, None, [Problem(bridge.name, BridgeInBridge)];
    } else {
      var bad, bad';
      mtu, bad := MtuOf(i);
      r, bad' := AddPort(r, i, mtu);
      problems := bad + bad';
    }
    var above := bridgeMtu.Some? && bridgeMtu.value != 0 && mtu.Some? && mtu.value != 0 && bridgeMtu.value > mtu.value;
    problems := problems + If(above, i.name, MtuAbovePort);
    id := Some(i.id);
    BondMtuPositive(i, Members(ifaces, i.id));
  }

  lemma BondMtuPositive(bond: Iface, members: seq<Iface>)
    ensures BondMtu(bond, members).Some? ==> BondMtu(bond, members).value != 0
  {}

  method CheckAllAttached(ifaces: seq<Iface>, bonds: seq<Bond>, ports: seq<Port>, bridge: Iface, bridgeMtu: Option<int>,
                          attached: seq<Iface>)
    returns (r: seq<Port>, ids: seq<string>, problems: seq<Problem>)
    requires MtuOk(bridge) ==> bridgeMtu == bridge.mtu
    ensures MtuOk(bridge) && BondsMatch(ifaces, bonds, attached) ==>
      (problems == [] <==> AllAttachedOk(ifaces, bridge, attached))
    ensures problems == [] ==> r == PutAll(PortId, ports, BridgePorts(attached)) && ids == Ids(attached)
  {
    hide AttachedOk, AllAttachedOk, BridgePorts, MtuOk;
    r, ids, problems := ports, [], [];
    AllAttachedNone(ifaces, bridge);
    for k := 0 to |attached|
      invariant MtuOk(bridge) && BondsMatch(ifaces, bonds, attached) ==>
        (problems == [] <==> AllAttachedOk(ifaces, bridge, attached[..k]))
      invariant problems == [] ==> r == PutAll(PortId, ports, BridgePorts(attached[..k])) && ids == Ids(attached[..k])
    {
      var i := attached[k];
      assert attached[..k + 1] == attached[..k] + [i];
      AllAttachedSnoc(ifaces, bridge, attached[..k], i);
      BridgePortsSnoc(ports, attached[..k], i);
      MapSnoc((i: Iface) => i.id, attached[..k], i);
      var id, bad;
      r, id, bad := CheckAttached(ifaces, bonds, r, bridge, bridgeMtu, i);
      problems := problems + bad;
      if id.Some? { ids := ids + [id.value]; }
    }
    assert attached[..|attached|] == attached;
  }

  method CheckBridge(ifaces: seq<Iface>, bonds: seq<Bond>, ports: seq<Port>, p: Primary, mgmt: Option<Iface>,
                     bridge: Iface,
                     attached: seq<Iface>)
    returns (r: seq<Port>, model: BridgeModel, problems: seq<Problem>)
    ensures BondsMatch(ifaces, bonds, attached) ==> (problems == [] <==> BridgeOk(ifaces, p, mgmt, bridge, attached))
    ensures problems == [] ==>
      r == PutAll(PortId, ports, BridgePorts(attached)) && model == BridgeOf(p, mgmt, bridge, attached)
  {
    hide IsNumbered, AttachedOk, BridgePorts, Flagged, BondsMatch;
    problems := If(!IsNumbered(bridge.name, "vmbr", 4), bridge.name, BridgeName)
      + If(|Flagged(attached)| > 1, bridge.name, SeveralFlagged);
    var mtu, bad := MtuOf(bridge);
    var ids, bad';
    r, ids, bad' := CheckAllAttached(ifaces, bonds, ports, bridge, mtu, attached);
    problems := problems + bad + bad';
    var vids: Option<string> := None;
    if bridge.mode == TaggedAll {
      vids := Some("2-4094");
    } else if bridge.mode == Tagged {
      if bridge.taggedVids == [] {
        problems := problems + [Problem(bridge.name, NoTaggedVlans)];
      } else {
        var ranges, text := VlanRanges.BridgeVids(bridge.taggedVids);
        vids := Some(text);
      }
    } else if bridge.mode == Access {
      problems := problems + [Problem(bridge.name, AccessMode)];
    }
    var isMgmt := mgmt.Some? && bridge.id == mgmt.value.id;
    var extra := Filter((ip: string) => !isMgmt || ip != p.address, bridge.ips);
    NoExtra(isMgmt, p.address, bridge.ips);
    problems := problems + If(extra != [], bridge.name, ExtraAddress);
    model := BridgeModel(bridge.name, bridge.id, ids, vids, mtu, bridge.description,
                         if isMgmt then Some(p.address) else None, if isMgmt then p.gateway else None);
  }

  lemma NoExtra(isMgmt: bool, address: string, ips: seq<string>)
    ensures Filter((ip: string) => !isMgmt || ip != address, ips) == [] <==>
      forall ip :: ip in ips ==> isMgmt && ip == address
  {
    var p := (ip: string) => !isMgmt || ip != address;
    FilterMembers(p, ips);
    Prelude.NoMembers(Filter(p, ips));
    if Filter(p, ips) != [] { assert Filter(p, ips)[0] in Filter(p, ips); }
  }

  // ---- the whole model --------------------------------------------------------------------------

  method FindManagement(ifaces: seq<Iface>, p: Primary) returns (mgmt: Option<Iface>, problems: seq<Problem>)
    ensures mgmt == Mgmt(ifaces, p)
    ensures problems == [] <==> PrimaryOk(ifaces, p)
  {
    var mine := Mine(ifaces, p.ids);
    mgmt, problems := None, [];
    if |mine| != 1 {
      problems := [Problem(p.address, NotOneManagement)];
    } else if mine[0].kind != Bridge {
      problems := [Problem(mine[0].name, ManagementNotBridge)];
    } else {
      mgmt := Some(mine[0]);
    }
    problems := problems + If(!AddressOk(p), p.address, BadAddress) + If(p.gateway.None?, p.address, NoGateway)
      + If(p.gateway.Some? && AddressOk(p) && !GatewayOk(p), p.address, GatewayOutside);
  }

  lemma BondsOkSnoc(ifaces: seq<Iface>, net: Net, s: seq<Iface>, b: Iface)
    ensures BondsOk(ifaces, net, s + [b]) <==> BondsOk(ifaces, net, s) && BondOk(net, b, Members(ifaces, b.id))
  {
    var all := s + [b];
    assert all[|s|] == b;
    assert forall x :: x in all <==> x in s || x == b;
  }

  function BondsFrom(ifaces: seq<Iface>, net: Net, s: seq<Iface>): seq<Bond> {
    Map((b: Iface) => BondOf(net, b, Members(ifaces, b.id)), s)
  }

  method BuildBonds(ifaces: seq<Iface>, net: Net) returns (ports: seq<Port>, bonds: seq<Bond>, problems: seq<Problem>)
    requires Unique(ifaces)
    ensures problems == [] <==> BondsOk(ifaces, net, OfKind(ifaces, Lag))
    ensures problems == [] ==>
      ports == PutAll(PortId, [], AllBondPorts(ifaces, OfKind(ifaces, Lag))) && bonds == Bonds(ifaces, net)
  {
    hide BondsOk, BondOk, BondOf, BondPorts, Members, OfKind;
    var lags := OfKind(ifaces, Lag);
    ports, bonds, problems := [], [], [];
    BuildNone(ifaces, net);
    for k := 0 to |lags|
      invariant problems == [] <==> BondsOk(ifaces, net, lags[..k])
      invariant problems == [] ==> ports == PutAll(PortId, [], AllBondPorts(ifaces, lags[..k]))
      invariant problems == [] ==> bonds == BondsFrom(ifaces, net, lags[..k])
    {
      var b := lags[k];
      var members := Members(ifaces, b.id);
      assert lags[..k + 1] == lags[..k] + [b];
      MembersDistinct(ifaces, b.id);
      BondsOkSnoc(ifaces, net, lags[..k], b);
      AllBondPortsSnoc(ifaces, lags[..k], b);
      MapSnoc((b: Iface) => BondOf(net, b, Members(ifaces, b.id)), lags[..k], b);
      PutAllDistinct(PortId, [], AllBondPorts(ifaces, lags[..k]));
      var model, bad;
      ports, model, bad := CheckBond(net, ports, b, members);
      bonds, problems := bonds + [model], problems + bad;
    }
    assert lags[..|lags|] == lags;
  }

  lemma BuildNone(ifaces: seq<Iface>, net: Net)
    ensures BondsOk(ifaces, net, []) && AllBondPorts(ifaces, []) == [] && BondsFrom(ifaces, net, []) == []
    ensures DistinctKeys(PortId, [])
  {}

  lemma MembersDistinct(ifaces: seq<Iface>, id: string)
    requires Unique(ifaces)
    ensures DistinctIds(Members(ifaces, id))
  {
    var s := Members(ifaces, id);
    Selected((i: Iface) => i.lag == Some(id), ifaces);
    SelectionNoDup((i: Iface) => i.lag == Some(id), ifaces);
    forall i, j | 0 <= i < j < |s| ensures s[i].id != s[j].id { SameIface(ifaces, s[i], s[j]); }
  }

  lemma AllBondPortsSnoc(ifaces: seq<Iface>, s: seq<Iface>, b: Iface)
    ensures PutAll(PortId, [], AllBondPorts(ifaces, s + [b])) ==
            PutAll(PortId, PutAll(PortId, [], AllBondPorts(ifaces, s)), BondPorts(b, Members(ifaces, b.id)))
  {
    FlatMapSnoc((b: Iface) => BondPorts(b, Members(ifaces, b.id)), s, b);
    PutAllAppend(PortId, [], AllBondPorts(ifaces, s), BondPorts(b, Members(ifaces, b.id)));
  }

  lemma BondsAt(ifaces: seq<Iface>, net: Net, s: seq<Iface>, k: nat)
    requires k < |s|
    ensures var b := BondsFrom(ifaces, net, s)[k];
      b == BondOf(net, s[k], Members(ifaces, s[k].id)) && b.id == s[k].id && b.name == s[k].name
        && b.mtu == BondMtu(s[k], Members(ifaces, s[k].id))
  {
    hide Members, BondMtu;
    MapAt((b: Iface) => BondOf(net, b, Members(ifaces, b.id)), s, k);
  }

  /** Every LAG of the device is found among the bonds, with its MTU. */
  lemma BuiltBondsMatch(ifaces: seq<Iface>, net: Net)
    requires Unique(ifaces)
    ensures BondsMatch(ifaces, Bonds(ifaces, net), ifaces)
  {
    hide Members, BondMtu, BondOf;
    var lags := OfKind(ifaces, Lag);
    var bonds := BondsFrom(ifaces, net, lags);
    Selected((i: Iface) => i.kind == Lag, ifaces);
    forall i | i in ifaces && i.kind == Lag
      ensures BondById(bonds, i.id).Some? && BondById(bonds, i.id).value.mtu == BondMtu(i, Members(ifaces, i.id))
    {
      assert i in lags;
      var k :| 0 <= k < |lags| && lags[k] == i;
      BondsAt(ifaces, net, lags, k);
      assert bonds[k] in bonds;
      var b := BondById(bonds, i.id).value;
      var m :| 0 <= m < |bonds| && bonds[m] == b;
      BondsAt(ifaces, net, lags, m);
      assert lags[m] in lags;
      SameIface(ifaces, lags[m], i);
    }
  }

  lemma AttachedMatch(ifaces: seq<Iface>, bonds: seq<Bond>, id: string)
    requires BondsMatch(ifaces, bonds, ifaces)
    ensures BondsMatch(ifaces, bonds, Attached(ifaces, id))
  {
    Selected((i: Iface) => i.bridge == Some(id), ifaces);
  }

  lemma BridgesOkSnoc(ifaces: seq<Iface>, p: Primary, s: seq<Iface>, b: Iface)
    ensures BridgesOk(ifaces, p, s + [b]) <==>
      BridgesOk(ifaces, p, s) && BridgeOk(ifaces, p, Mgmt(ifaces, p), b, Attached(ifaces, b.id))
  {
    var all := s + [b];
    assert all[|s|] == b;
    assert forall x :: x in all <==> x in s || x == b;
  }

  function BridgesFrom(ifaces: seq<Iface>, p: Primary, s: seq<Iface>): seq<BridgeModel> {
    Map((b: Iface) => BridgeOf(p, Mgmt(ifaces, p), b, Attached(ifaces, b.id)), s)
  }

  lemma AllBridgePortsSnoc(ports: seq<Port>, ifaces: seq<Iface>, s: seq<Iface>, b: Iface)
    ensures PutAll(PortId, ports, AllBridgePorts(ifaces, s + [b])) ==
            PutAll(PortId, PutAll(PortId, ports, AllBridgePorts(ifaces, s)), BridgePorts(Attached(ifaces, b.id)))
  {
    FlatMapSnoc((b: Iface) => BridgePorts(Attached(ifaces, b.id)), s, b);
    PutAllAppend(PortId, ports, AllBridgePorts(ifaces, s), BridgePorts(Attached(ifaces, b.id)));
  }

  lemma BuildNoBridges(ifaces: seq<Iface>, p: Primary)
    ensures BridgesOk(ifaces, p, []) && AllBridgePorts(ifaces, []) == [] && BridgesFrom(ifaces, p, []) == []
  {}

  method BuildBridges(ifaces: seq<Iface>, bonds: seq<Bond>, before: seq<Port>, p: Primary, mgmt: Option<Iface>)
    returns (ports: seq<Port>, models: seq<BridgeModel>, problems: seq<Problem>)
    requires mgmt == Mgmt(ifaces, p)
    ensures BondsMatch(ifaces, bonds, ifaces) ==> (problems == [] <==> BridgesOk(ifaces, p, OfKind(ifaces, Bridge)))
    ensures problems == [] ==>
      ports == PutAll(PortId, before, AllBridgePorts(ifaces, OfKind(ifaces, Bridge))) && models == Bridges(ifaces, p)
  {
    hide BridgesOk, BridgeOk, BridgeOf, BridgePorts, Attached, OfKind, Mgmt, BondsMatch;
    var bridges := OfKind(ifaces, Bridge);
    ports, models, problems := before, [], [];
    BuildNoBridges(ifaces, p);
    for k := 0 to |bridges|
      invariant BondsMatch(ifaces, bonds, ifaces) ==> (problems == [] <==> BridgesOk(ifaces, p, bridges[..k]))
      invariant problems == [] ==> ports == PutAll(PortId, before, AllBridgePorts(ifaces, bridges[..k]))
      invariant problems == [] ==> models == BridgesFrom(ifaces, p, bridges[..k])
    {
      var b := bridges[k];
      var attached := Attached(ifaces, b.id);
      assert bridges[..k + 1] == bridges[..k] + [b];
      if BondsMatch(ifaces, bonds, ifaces) { AttachedMatch(ifaces, bonds, b.id); }
      BridgesOkSnoc(ifaces, p, bridges[..k], b);
      AllBridgePortsSnoc(before, ifaces, bridges[..k], b);
      MapSnoc((b: Iface) => BridgeOf(p, Mgmt(ifaces, p), b, Attached(ifaces, b.id)), bridges[..k], b);
      var model, bad;
      ports, model, bad := CheckBridge(ifaces, bonds, ports, p, mgmt, b, attached);
      models, problems := models + [model], problems + bad;
    }
    assert bridges[..|bridges|] == bridges;
  }

  /** port_ids: the interfaces that became ports. */
  function PortIds(ports: seq<Port>): set<string> { set p | p in ports :: p.id }

  lemma PortIdsAre(ifaces: seq<Iface>, ports: seq<Port>, i: Iface)
    requires ports == PutAll(PortId, [], PortList(ifaces))
    ensures i.id in PortIds(ports) <==> exists q :: q in PortList(ifaces) && q.id == i.id
  {
    PutAllKeys(PortId, [], PortList(ifaces), i.id);
    if i.id in PortIds(ports) {
      var q :| q in ports && q.id == i.id;
      assert PortId(q) == i.id;
    }
    if q :| q in ports && PortId(q) == i.id {
      assert q.id in PortIds(ports);
    }
    if q :| q in PortList(ifaces) && q.id == i.id {
      assert PortId(q) == i.id;
    }
  }

  method CheckAddresses(ifaces: seq<Iface>, ports: seq<Port>) returns (problems: seq<Problem>)
    ensures ports == PutAll(PortId, [], PortList(ifaces)) ==>
      (problems == [] <==> forall i :: i in ifaces ==> NoAddressLost(ifaces, i))
  {
    hide PortList;
    problems := [];
    var ids := PortIds(ports);
    for k := 0 to |ifaces|
      invariant ports == PutAll(PortId, [], PortList(ifaces)) ==>
        (problems == [] <==> forall j :: 0 <= j < k ==> NoAddressLost(ifaces, ifaces[j]))
    {
      var i := ifaces[k];
      if ports == PutAll(PortId, [], PortList(ifaces)) { PortIdsAre(ifaces, ports, i); }
      if i.kind == Bridge || i.kind == Lag || i.id in ids || i.name == "xcc" { continue; }
      if i.ips != [] { problems := problems + [Problem(i.name, AddressLost)]; }
    }
  }

  /** build_network_model: no problem iff the interfaces describe a consistent
      topology, and then the model is the one of that topology. */
  method BuildNetworkModel(ifaces: seq<Iface>, net: Net, p: Primary) returns (model: Model, problems: seq<Problem>)
    requires Unique(ifaces)
    ensures problems == [] <==> Clean(ifaces, net, p)
    ensures problems == [] ==> model == ModelOf(ifaces, net, p)
  {
    hide Mgmt, PrimaryOk, BondsOk, BridgesOk, OfKind, AllBondPorts, AllBridgePorts, NoAddressLost, Unique;
    var mgmt, bad1 := FindManagement(ifaces, p);
    var ports1, bonds, bad2 := BuildBonds(ifaces, net);
    var ports2, bridges, bad3 := BuildBridges(ifaces, bonds, ports1, p, mgmt);
    var bad4 := CheckAddresses(ifaces, ports2);
    problems := bad1 + bad2 + bad3 + bad4;
    if bad2 == [] { BuiltBondsMatch(ifaces, net); }
    PutAllAppend(PortId, [], AllBondPorts(ifaces, OfKind(ifaces, Lag)), AllBridgePorts(ifaces, OfKind(ifaces, Bridge)));
    model := Model(Sort(PortLe, ports2), bonds, bridges,
                   if mgmt.Some? then Some(mgmt.value.name) else None, NamesOf(ifaces));
  }
}

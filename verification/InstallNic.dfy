/** derive_install_interface: the NIC that carries the install, followed from
    the interface with primary_ip4 through its bridge and its bond. */
module InstallNic {
  import opened Prelude
  import opened NetworkModel
  import opened NetworkForest

  datatype NicError =
    | NotAssigned
    | SeveralAssigned
    | NoMember(parent: string)
    | SeveralMembersFlagged(parent: string)
    | NoneFlagged(parent: string)
    | TooDeep(name: string)

  /** The device's interfaces that carry primary_ip4, each once. */
  function Carriers(ifaces: seq<Iface>, ids: seq<string>): seq<Iface> {
    if ids == [] then []
    else
      var front := Carriers(ifaces, ids[..|ids| - 1]);
      var found := ById(ifaces, ids[|ids| - 1]);
      if found.Some? && found.value !in front then front + [found.value] else front
  }

  /** _pick_member. */
  function PickMember(parent: Iface, members: seq<Iface>): Result<Iface, NicError> {
    var flagged := Flagged(members);
    if members == [] then Err(NoMember(parent.name))
    else if |flagged| > 1 then Err(SeveralMembersFlagged(parent.name))
    else if |members| == 1 then Ok(members[0])
    else if flagged != [] then Ok(flagged[0])
    else Err(NoneFlagged(parent.name))
  }

  function OnParent(ifaces: seq<Iface>, b: Iface): seq<Iface> { Filter((i: Iface) => i.bridge == Some(b.id), ifaces) }

  function InLag(ifaces: seq<Iface>, b: Iface): seq<Iface> { Filter((i: Iface) => i.lag == Some(b.id), ifaces) }

  /** The bond below an interface, if it is one. */
  function FollowLag(ifaces: seq<Iface>, i: Iface, chain: seq<string>): Result<(Iface, seq<string>), NicError> {
    if i.kind == Lag then
      match PickMember(i, InLag(ifaces, i))
      case Err(e) => Err(e)
      case Ok(m) => if m.kind == Bridge || m.kind == Lag then Err(TooDeep(m.name)) else Ok((m, chain + [m.name]))
    else if i.kind == Bridge then Err(TooDeep(i.name))
    else Ok((i, chain))
  }

  /** (the install NIC, the names on the way to it). */
  function Derive(ifaces: seq<Iface>, ids: seq<string>): Result<(Iface, seq<string>), NicError> {
    var mine := Carriers(ifaces, ids);
    if mine == [] then Err(NotAssigned)
    else if |mine| > 1 then Err(SeveralAssigned)
    else if mine[0].kind == Bridge then
      match PickMember(mine[0], OnParent(ifaces, mine[0]))
      case Err(e) => Err(e)
      case Ok(i) => FollowLag(ifaces, i, [mine[0].name, i.name])
    else FollowLag(ifaces, mine[0], [mine[0].name])
  }

  // ---- the pick -----------------------------------------------------------------------

  /** Exactly one member, or exactly one that is flagged. */
  predicate Picks(members: seq<Iface>)
    { members != [] && |Flagged(members)| <= 1 && (|members| == 1 || Flagged(members) != []) }

  lemma PickIsExact(parent: Iface, members: seq<Iface>)
    ensures PickMember(parent, members).Ok? <==> Picks(members)
    ensures PickMember(parent, members).Ok? ==> PickMember(parent, members).value in members
    ensures PickMember(parent, members).Ok? && |members| > 1 ==> Flagged(members) == [PickMember(parent, members).value]
  {
    FilterMembers((i: Iface) => i.primaryMember, members);
    if Flagged(members) != [] { assert Flagged(members)[0] in Flagged(members); }
  }

  /** The listing order of the members does not decide. */
  lemma PickAnyOrder(parent: Iface, a: seq<Iface>, b: seq<Iface>)
    requires multiset(a) == multiset(b)
    ensures PickMember(parent, a) == PickMember(parent, b)
  {
    FilterPermutation((i: Iface) => i.primaryMember, a, b);
    PermutationMembers(a, b);
    PermutationMembers(Flagged(a), Flagged(b));
    if |a| == 1 { assert a[0] in b; }
    if |Flagged(a)| == 1 { assert Flagged(a)[0] in Flagged(b); }
  }

  // ---- against the network model ----------------------------------------------------------

  lemma {:induction false} OneCarrier(ifaces: seq<Iface>, ids: seq<string>)
    ensures forall i :: i in Carriers(ifaces, ids) <==> i in Mine(ifaces, ids)
    ensures NoDup(Carriers(ifaces, ids))
    decreases |ids|
  {
    if ids == [] {
    } else {
      var n := |ids| - 1;
      OneCarrier(ifaces, ids[..n]);
      MineSnoc(ifaces, ids[..n], ids[n]);
      assert ids == ids[..n] + [ids[n]];
    }
  }

  function Carried(ifaces: seq<Iface>, id: string): seq<Iface> {
    if ById(ifaces, id).Some? then [ById(ifaces, id).value] else []
  }

  lemma {:induction false} MineSnoc(ifaces: seq<Iface>, ids: seq<string>, id: string)
    ensures Mine(ifaces, ids + [id]) == Mine(ifaces, ids) + Carried(ifaces, id)
  {
    var all := ids + [id];
    assert Mine(ifaces, all) == Carried(ifaces, all[0]) + Mine(ifaces, all[1..]);
    if ids == [] {
      assert all[1..] == [];
    } else {
      assert all[0] == ids[0] && all[1..] == ids[1..] + [id];
      MineSnoc(ifaces, ids[1..], id);
      assert Mine(ifaces, ids) == Carried(ifaces, ids[0]) + Mine(ifaces, ids[1..]);
    }
  }

  lemma NoDupOfOne(c: seq<Iface>, x: Iface)
    requires |c| > 1 ==> c[0] != c[1]
    requires x in c && forall k :: 0 <= k < |c| ==> c[k] == x
    ensures c == [x]
  {}

  lemma CarrierIsManagement(ifaces: seq<Iface>, p: Primary)
    requires Mgmt(ifaces, p).Some?
    ensures Carriers(ifaces, p.ids) == [Mgmt(ifaces, p).value] && Mgmt(ifaces, p).value.kind == Bridge
    ensures Mgmt(ifaces, p).value in ifaces
  {
    var mine, c := Mine(ifaces, p.ids), Carriers(ifaces, p.ids);
    OneCarrier(ifaces, p.ids);
    assert |c| > 1 ==> c[0] != c[1];
    assert mine[0] in mine && mine[0] in c;
    forall k | 0 <= k < |c| ensures c[k] == mine[0] { assert c[k] in c && c[k] in mine; }
    NoDupOfOne(c, mine[0]);
    MineInList(ifaces, p.ids);
  }

  /** On a consistent topology: which interface is picked below the
      management bridge, and below a bond on it. */
  lemma DeriveIs(ifaces: seq<Iface>, net: Net, p: Primary)
    requires Clean(ifaces, net, p)
    ensures var m := Mgmt(ifaces, p).value;
      var below := PickMember(m, Attached(ifaces, m.id));
      Derive(ifaces, p.ids) ==
        if below.Err? then Err(below.error)
        else FollowLag(ifaces, below.value, [m.name, below.value.name])
  {
    var m := Mgmt(ifaces, p).value;
    CarrierIsManagement(ifaces, p);
    hide Clean, Mgmt, Carriers;
    PickAnyOrder(m, OnParent(ifaces, m), Attached(ifaces, m.id));
  }

  lemma FollowIs(ifaces: seq<Iface>, l: Iface, chain: seq<string>)
    requires l.kind == Lag
    ensures var below := PickMember(l, Members(ifaces, l.id));
      FollowLag(ifaces, l, chain) ==
        if below.Err? then Err(below.error)
        else if below.value.kind == Bridge || below.value.kind == Lag then Err(TooDeep(below.value.name))
        else Ok((below.value, chain + [below.value.name]))
  {
    PickAnyOrder(l, InLag(ifaces, l), Members(ifaces, l.id));
  }

  /** nic is the end of the chain from the management bridge m, directly or
      through the bond l. */
  ghost predicate Directly(ifaces: seq<Iface>, m: Iface, nic: Iface, chain: seq<string>) {
    OnBridge(ifaces, nic, m) && chain == [m.name, nic.name]
  }

  ghost predicate Through(ifaces: seq<Iface>, m: Iface, l: Iface, nic: Iface, chain: seq<string>) {
    OnBridge(ifaces, l, m) && InBond(ifaces, nic, l) && chain == [m.name, l.name, nic.name]
  }

  /** Of an active-backup bond with several members, the NIC is the primary. */
  ghost predicate IsPrimaryOf(ifaces: seq<Iface>, net: Net, l: Iface, nic: Iface) {
    l.lagMode == Some(ActiveBackup) && |Members(ifaces, l.id)| > 1 ==>
      BondOf(net, l, Members(ifaces, l.id)).primary == Some(nic.id)
  }

  lemma ThroughFacts(ifaces: seq<Iface>, net: Net, p: Primary, m: Iface, l: Iface, nic: Iface, chain: seq<string>)
    requires Unique(ifaces) && Clean(ifaces, net, p) && m.kind == Bridge && m in ifaces
    requires l in Attached(ifaces, m.id) && l.kind == Lag
    requires FollowLag(ifaces, l, [m.name, l.name]) == Ok((nic, chain))
    ensures Through(ifaces, m, l, nic, chain) && nic.kind == Physical && MacOf(nic) != ""
    ensures exists q :: q in ModelOf(ifaces, net, p).ports && q.id == nic.id && q.mac == MacOf(nic)
    ensures IsPrimaryOf(ifaces, net, l, nic)
  {
    hide Clean, Unique, ModelOf, FollowLag, Attached, Members, PickMember, PortList;
    FollowIs(ifaces, l, [m.name, l.name]);
    LagMembers(ifaces, m);
    LagMembers(ifaces, l);
    PickIsExact(l, Members(ifaces, l.id));
    assert nic == PickMember(l, Members(ifaces, l.id)).value;
    MemberFacts(ifaces, net, p, nic, l);
    MemberIsPort(ifaces, net, p, nic, l);
    PickedIsPrimary(net, l, Members(ifaces, l.id), nic);
  }

  lemma PickedIsPrimary(net: Net, l: Iface, members: seq<Iface>, nic: Iface)
    requires |members| > 1 ==> Flagged(members) == [nic]
    ensures l.lagMode == Some(ActiveBackup) && |members| > 1 ==> BondOf(net, l, members).primary == Some(nic.id)
  {}

  lemma MemberIsPort(ifaces: seq<Iface>, net: Net, p: Primary, i: Iface, l: Iface)
    requires Unique(ifaces) && Clean(ifaces, net, p) && InBond(ifaces, i, l)
    ensures exists q :: q in ModelOf(ifaces, net, p).ports && q.id == i.id && q.mac == MacOf(i)
  {
    hide Clean, Unique, ModelOf, PortList;
    ModelPorts(ifaces, net, p);
    var q := PortOf(i, MtuOr(i.mtu, l.mtu));
    assert BondPort(ifaces, i, l, q);
    PortListMember(ifaces, q);
  }

  lemma AttachedIsPort(ifaces: seq<Iface>, net: Net, p: Primary, i: Iface, b: Iface)
    requires Unique(ifaces) && Clean(ifaces, net, p) && OnBridge(ifaces, i, b) && i.kind != Lag
    ensures exists q :: q in ModelOf(ifaces, net, p).ports && q.id == i.id && q.mac == MacOf(i)
  {
    hide Clean, Unique, ModelOf, PortList;
    ModelPorts(ifaces, net, p);
    var q := PortOf(i, i.mtu);
    assert BridgePort(ifaces, i, b, q);
    PortListMember(ifaces, q);
  }

  lemma DirectFacts(ifaces: seq<Iface>, net: Net, p: Primary, m: Iface, nic: Iface)
    requires Unique(ifaces) && Clean(ifaces, net, p) && m.kind == Bridge && m in ifaces
    requires nic in Attached(ifaces, m.id) && nic.kind != Lag
    ensures OnBridge(ifaces, nic, m) && nic.kind == Physical && MacOf(nic) != ""
    ensures exists q :: q in ModelOf(ifaces, net, p).ports && q.id == nic.id && q.mac == MacOf(nic)
  {
    hide Clean, Unique, ModelOf, Attached;
    LagMembers(ifaces, m);
    AttachedFacts(ifaces, net, p, nic, m);
    AttachedIsPort(ifaces, net, p, nic, m);
  }

  /** A derived NIC belongs to the running topology: the chain starts at the
      management bridge and ends at a port of the model with a MAC, on that
      bridge or in its bond; of an active-backup bond with several members it
      is the primary. */
  lemma InstallNicIsManagementPort(ifaces: seq<Iface>, net: Net, p: Primary, nic: Iface, chain: seq<string>)
    requires Unique(ifaces) && Clean(ifaces, net, p) && Derive(ifaces, p.ids) == Ok((nic, chain))
    ensures Mgmt(ifaces, p).Some? && nic.kind == Physical && MacOf(nic) != ""
    ensures exists q :: q in ModelOf(ifaces, net, p).ports && q.id == nic.id && q.mac == MacOf(nic)
    ensures var m := Mgmt(ifaces, p).value;
      || Directly(ifaces, m, nic, chain)
      || exists l :: Through(ifaces, m, l, nic, chain) && IsPrimaryOf(ifaces, net, l, nic)
  {
    hide *;
    CleanHasManagement(ifaces, net, p);
    var m := Mgmt(ifaces, p).value;
    DeriveIs(ifaces, net, p);
    CarrierIsManagement(ifaces, p);
    PickIsExact(m, Attached(ifaces, m.id));
    var below := PickMember(m, Attached(ifaces, m.id)).value;
    if below.kind == Lag {
      ThroughFacts(ifaces, net, p, m, below, nic, chain);
    } else {
      DirectFacts(ifaces, net, p, m, below);
      FollowPort(ifaces, below, [m.name, below.name]);
      DirectlyBy(ifaces, m, nic, chain);
    }
  }

  lemma CleanHasManagement(ifaces: seq<Iface>, net: Net, p: Primary)
    requires Clean(ifaces, net, p)
    ensures Mgmt(ifaces, p).Some?
  {
    hide Mgmt, BondsOk, BridgesOk, NoAddressLost, AddressOk, GatewayOk;
  }

  lemma FollowPort(ifaces: seq<Iface>, i: Iface, chain: seq<string>)
    requires i.kind == Physical
    ensures FollowLag(ifaces, i, chain) == Ok((i, chain))
  {}

  lemma DirectlyBy(ifaces: seq<Iface>, m: Iface, nic: Iface, chain: seq<string>)
    requires OnBridge(ifaces, nic, m) && chain == [m.name, nic.name]
    ensures Directly(ifaces, m, nic, chain)
  {}

  lemma FollowSucceedsIff(ifaces: seq<Iface>, net: Net, p: Primary, m: Iface, i: Iface)
    requires Unique(ifaces) && Clean(ifaces, net, p) && m.kind == Bridge && m in ifaces && i in Attached(ifaces, m.id)
    ensures FollowLag(ifaces, i, [m.name, i.name]).Ok? <==> i.kind == Lag ==> Picks(Members(ifaces, i.id))
  {
    hide Clean, Unique, Attached, Members, Picks, PickMember;
    LagMembers(ifaces, m);
    if i.kind == Lag {
      FollowIs(ifaces, i, [m.name, i.name]);
      PickIsExact(i, Members(ifaces, i.id));
      LagMembers(ifaces, i);
      if PickMember(i, Members(ifaces, i.id)).Ok? {
        MemberFacts(ifaces, net, p, PickMember(i, Members(ifaces, i.id)).value, i);
      }
    } else {
      DirectFacts(ifaces, net, p, m, i);
    }
  }

  /** On a consistent topology the derivation succeeds iff each choice on the
      way is between one member or has one flagged; below an active-backup
      bond that is always so. */
  lemma DeriveSucceedsIff(ifaces: seq<Iface>, net: Net, p: Primary)
    requires Unique(ifaces) && Clean(ifaces, net, p)
    ensures var m := Mgmt(ifaces, p).value;
      var attached := Attached(ifaces, m.id);
      Derive(ifaces, p.ids).Ok? <==>
        Picks(attached) && (var i := PickMember(m, attached).value; i.kind == Lag ==> Picks(Members(ifaces, i.id)))
  {
    var m := Mgmt(ifaces, p).value;
    DeriveIs(ifaces, net, p);
    CarrierIsManagement(ifaces, p);
    PickIsExact(m, Attached(ifaces, m.id));
    hide Clean, Unique, Derive, Attached, Members, Mgmt, Picks, PickMember, FollowLag;
    var below := PickMember(m, Attached(ifaces, m.id));
    if below.Ok? { FollowSucceedsIff(ifaces, net, p, m, below.value); }
  }

  lemma ActiveBackupPicks(ifaces: seq<Iface>, net: Net, p: Primary, l: Iface)
    requires Clean(ifaces, net, p) && l in ifaces && l.kind == Lag && l.lagMode == Some(ActiveBackup)
    ensures Picks(Members(ifaces, l.id))
  {
    KindMembers(ifaces, Lag);
    assert BondOk(net, l, Members(ifaces, l.id));
  }
}

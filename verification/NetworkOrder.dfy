/** The network model does not depend on the order in which the device's
    interfaces are listed. */
module NetworkOrder {
  import opened Prelude
  import opened NetworkModel

  lemma NameOrder()
    ensures TotalPreorder(NameLe)
  {
    StrLeOrder();
    forall a, b ensures NameLe(a, b) || NameLe(b, a) { assert StrLe(a.name, b.name) || StrLe(b.name, a.name); }
    forall a, b, c | NameLe(a, b) && NameLe(b, c) ensures NameLe(a, c) {
      assert StrLe(a.name, b.name) && StrLe(b.name, c.name);
    }
  }

  lemma NamesStrict(ifaces: seq<Iface>, s: seq<Iface>)
    requires Unique(ifaces) && forall i :: i in s ==> i in ifaces
    ensures Strict(NameLe, s)
  {
    forall x, y | x in s && y in s && NameLe(x, y) && NameLe(y, x) ensures x == y {
      StrLeAntisymmetric(x.name, y.name);
      assert x in ifaces && y in ifaces && x.name == y.name;
    }
  }

  /** Any selection of interfaces, sorted by name. */
  lemma SelectionAnyOrder(p: Iface -> bool, a: seq<Iface>, b: seq<Iface>)
    requires Unique(a) && multiset(a) == multiset(b)
    ensures Sort(NameLe, Filter(p, a)) == Sort(NameLe, Filter(p, b))
  {
    FilterPermutation(p, a, b);
    FilterMembers(p, a);
    NamesStrict(a, Filter(p, a));
    NameOrder();
    SortPermutation(NameLe, Filter(p, a), Filter(p, b));
  }

  lemma MembersAnyOrder(a: seq<Iface>, b: seq<Iface>, id: string)
    requires Unique(a) && multiset(a) == multiset(b)
    ensures Members(a, id) == Members(b, id) && Attached(a, id) == Attached(b, id)
  {
    SelectionAnyOrder((i: Iface) => i.lag == Some(id), a, b);
    SelectionAnyOrder((i: Iface) => i.bridge == Some(id), a, b);
  }

  lemma OfKindAnyOrder(a: seq<Iface>, b: seq<Iface>, kind: Kind)
    requires Unique(a) && multiset(a) == multiset(b)
    ensures OfKind(a, kind) == OfKind(b, kind)
  {
    SelectionAnyOrder((i: Iface) => i.kind == kind, a, b);
  }

  lemma ByIdAnyOrder(a: seq<Iface>, b: seq<Iface>, id: string)
    requires Unique(a) && multiset(a) == multiset(b)
    ensures ById(a, id) == ById(b, id)
  {
    PermutationMembers(a, b);
    var x, y := ById(a, id), ById(b, id);
    assert x.Some? && y.Some? ==> x.value in a && y.value in a;
  }

  lemma {:induction false} MineAnyOrder(a: seq<Iface>, b: seq<Iface>, ids: seq<string>)
    requires Unique(a) && multiset(a) == multiset(b)
    ensures Mine(a, ids) == Mine(b, ids)
  {
    if ids == [] {
    } else {
      ByIdAnyOrder(a, b, ids[0]);
      MineAnyOrder(a, b, ids[1..]);
    }
  }

  lemma PartsAnyOrder(a: seq<Iface>, b: seq<Iface>)
    requires Unique(a) && multiset(a) == multiset(b)
    ensures forall id :: Members(a, id) == Members(b, id) && Attached(a, id) == Attached(b, id)
    ensures OfKind(a, Lag) == OfKind(b, Lag) && OfKind(a, Bridge) == OfKind(b, Bridge)
    ensures forall i :: i in a <==> i in b
  {
    forall id ensures Members(a, id) == Members(b, id) && Attached(a, id) == Attached(b, id) {
      MembersAnyOrder(a, b, id);
    }
    OfKindAnyOrder(a, b, Lag);
    OfKindAnyOrder(a, b, Bridge);
    PermutationMembers(a, b);
  }

  lemma PortListAnyOrder(a: seq<Iface>, b: seq<Iface>)
    requires Unique(a) && multiset(a) == multiset(b)
    ensures PortList(a) == PortList(b)
  {
    PartsAnyOrder(a, b);
    hide Members, Attached, OfKind, BondPorts, BridgePorts;
    FlatMapSame((x: Iface) => BondPorts(x, Members(a, x.id)),
                (x: Iface) => BondPorts(x, Members(b, x.id)), OfKind(a, Lag));
    FlatMapSame((x: Iface) => BridgePorts(Attached(a, x.id)),
                (x: Iface) => BridgePorts(Attached(b, x.id)), OfKind(a, Bridge));
  }

  lemma BridgeOkAnyOrder(a: seq<Iface>, b: seq<Iface>, p: Primary, mgmt: Option<Iface>, bridge: Iface,
                         attached: seq<Iface>)
    requires Unique(a) && multiset(a) == multiset(b)
    ensures BridgeOk(a, p, mgmt, bridge, attached) <==> BridgeOk(b, p, mgmt, bridge, attached)
  {
    PartsAnyOrder(a, b);
    hide Members, Attached, OfKind, BridgeFieldsOk, PortOk;
    forall i ensures AttachedOk(a, bridge, i) <==> AttachedOk(b, bridge, i) {}
  }

  lemma MgmtAnyOrder(a: seq<Iface>, b: seq<Iface>, p: Primary)
    requires Unique(a) && multiset(a) == multiset(b)
    ensures Mgmt(a, p) == Mgmt(b, p) && (PrimaryOk(a, p) <==> PrimaryOk(b, p))
  {
    MineAnyOrder(a, b, p.ids);
  }

  lemma BondsOkAnyOrder(a: seq<Iface>, b: seq<Iface>, net: Net)
    requires Unique(a) && multiset(a) == multiset(b)
    ensures BondsOk(a, net, OfKind(a, Lag)) <==> BondsOk(b, net, OfKind(b, Lag))
  {
    PartsAnyOrder(a, b);
    hide Members, OfKind, BondOk;
  }

  lemma BridgesOkAnyOrder(a: seq<Iface>, b: seq<Iface>, p: Primary)
    requires Unique(a) && multiset(a) == multiset(b)
    ensures BridgesOk(a, p, OfKind(a, Bridge)) <==> BridgesOk(b, p, OfKind(b, Bridge))
  {
    PartsAnyOrder(a, b);
    MgmtAnyOrder(a, b, p);
    hide Attached, OfKind, BridgeOk, Mgmt;
    forall x: Iface
      ensures BridgeOk(a, p, Mgmt(a, p), x, Attached(a, x.id)) <==>
        BridgeOk(b, p, Mgmt(b, p), x, Attached(b, x.id))
    {
      BridgeOkAnyOrder(a, b, p, Mgmt(a, p), x, Attached(a, x.id));
    }
  }

  lemma AddressesAnyOrder(a: seq<Iface>, b: seq<Iface>)
    requires Unique(a) && multiset(a) == multiset(b)
    ensures (forall i :: i in a ==> NoAddressLost(a, i)) <==> (forall i :: i in b ==> NoAddressLost(b, i))
  {
    PermutationMembers(a, b);
    PortListAnyOrder(a, b);
    hide PortList;
    assert forall i :: NoAddressLost(a, i) <==> NoAddressLost(b, i);
  }

  /** Consistency does not depend on the listing order. */
  lemma CleanAnyOrder(a: seq<Iface>, b: seq<Iface>, net: Net, p: Primary)
    requires Unique(a) && multiset(a) == multiset(b)
    ensures Clean(a, net, p) <==> Clean(b, net, p)
  {
    hide Unique, BondsOk, BridgesOk, PrimaryOk, NoAddressLost, OfKind;
    MgmtAnyOrder(a, b, p);
    BondsOkAnyOrder(a, b, net);
    BridgesOkAnyOrder(a, b, p);
    AddressesAnyOrder(a, b);
  }

  lemma NamesAnyOrder(a: seq<Iface>, b: seq<Iface>)
    requires Unique(a) && multiset(a) == multiset(b)
    ensures NamesOf(a) == NamesOf(b)
  {
    PermutationMembers(a, b);
    forall i | i in a ensures ById(a, i.id) == ById(b, i.id) { ByIdAnyOrder(a, b, i.id); }
    var m, n := NamesOf(a), NamesOf(b);
    assert forall id :: id in m <==> exists i :: i in a && i.id == id;
    forall id | id in m ensures m[id] == n[id] {
      var i :| i in a && i.id == id;
      assert ById(a, id) == ById(b, id);
    }
  }

  lemma BondsAnyOrder(a: seq<Iface>, b: seq<Iface>, net: Net)
    requires Unique(a) && multiset(a) == multiset(b)
    ensures Bonds(a, net) == Bonds(b, net)
  {
    PartsAnyOrder(a, b);
    hide Members, OfKind, BondOf, Unique;
    MapSame((x: Iface) => BondOf(net, x, Members(a, x.id)),
            (x: Iface) => BondOf(net, x, Members(b, x.id)), OfKind(a, Lag));
  }

  lemma BridgesAnyOrder(a: seq<Iface>, b: seq<Iface>, p: Primary)
    requires Unique(a) && multiset(a) == multiset(b)
    ensures Bridges(a, p) == Bridges(b, p)
  {
    PartsAnyOrder(a, b);
    MgmtAnyOrder(a, b, p);
    hide Attached, OfKind, BridgeOf, Mgmt, Unique;
    MapSame((x: Iface) => BridgeOf(p, Mgmt(a, p), x, Attached(a, x.id)),
            (x: Iface) => BridgeOf(p, Mgmt(b, p), x, Attached(b, x.id)), OfKind(a, Bridge));
  }

  /** The model, and so the rendered file, does not depend on the listing order. */
  lemma ModelAnyOrder(a: seq<Iface>, b: seq<Iface>, net: Net, p: Primary)
    requires Unique(a) && multiset(a) == multiset(b)
    ensures ModelOf(a, net, p) == ModelOf(b, net, p)
  {
    hide Unique, Bonds, Bridges, Mgmt, PortList, NamesOf;
    PortListAnyOrder(a, b);
    MgmtAnyOrder(a, b, p);
    NamesAnyOrder(a, b);
    BondsAnyOrder(a, b, net);
    BridgesAnyOrder(a, b, p);
  }
}

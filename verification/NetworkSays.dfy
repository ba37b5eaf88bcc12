/** What the rendered file says of each interface of the topology, read line by
    line: every port, bond and bridge with exactly its options, in order. */
module NetworkSays {
  import opened Prelude
  import opened NetworkModel
  import opened NetworkMatch
  import opened NetworkRender
  import opened NetworkForest
  import opened NetworkSlaves
  import opened NetworkTree
  import opened NetworkReader
  import opened NetworkOptions
  import opened NetworkRead
  import opened NetworkFile
  import VlanRanges

  /** n is the Linux name of the NIC of interface i. */
  ghost predicate IsNic(names: map<string, string>, i: Iface, n: string) { i.id in names && names[i.id] == n }

  /** The file has the entry. */
  ghost predicate Says(header: string, ifaces: seq<Iface>, net: Net, p: Primary, names: map<string, string>, e: Entry) {
    e in ReadFile(Render(header, ModelOf(ifaces, net, p), names))
  }

  /** Nothing breaks the file: the conditions under which it reads back. */
  ghost predicate Unharmed(header: string, ifaces: seq<Iface>, net: Net, p: Primary, names: map<string, string>) {
    && HeaderOk(header) && Unbroken(ModelOf(ifaces, net, p)) && NoLoneNone(ModelOf(ifaces, net, p), names)
  }

  lemma StanzaIsSaid(header: string, ifaces: seq<Iface>, net: Net, p: Primary, links: seq<Link>, physical: set<string>,
                     names: map<string, string>, s: Stanza)
    requires Rendered(ifaces, net, p, links, physical, names) && Unharmed(header, ifaces, net, p, names)
    requires s in Stanzas(ModelOf(ifaces, net, p), names)
    ensures Says(header, ifaces, net, p, names, EntryOf(s))
  {
    ReadsBackIff(header, ifaces, net, p, links, physical, names);
    hide ModelOf, Rendered, Stanzas, EntryOf, ReadFile, Render, NoLoneNone, Unbroken, HeaderOk;
    MapMember(EntryOf, Stanzas(ModelOf(ifaces, net, p), names), EntryOf(s));
    var i :| 0 <= i < |Stanzas(ModelOf(ifaces, net, p), names)| && Stanzas(ModelOf(ifaces, net, p), names)[i] == s;
  }

  // ---- bonds --------------------------------------------------------------------------------------

  /** mtu is the largest MTU among the members of the bond, or none has one. */
  ghost predicate LargestOf(ifaces: seq<Iface>, b: Iface, mtu: Option<int>) {
    if mtu.None? then forall m :: m in ifaces && m.lag == Some(b.id) ==> m.mtu.None?
    else
      && (exists m :: m in ifaces && m.lag == Some(b.id) && m.mtu == mtu)
      && forall m :: m in ifaces && m.lag == Some(b.id) && m.mtu.Some? ==> m.mtu.value <= mtu.value
  }

  /** The bond's own fields: its mode, policy and MTU (the largest of its members'
      where it has none of its own), the miimon and, in 802.3ad, the LACP rate of the
      config, and its description. */
  ghost predicate SaysBondFields(ifaces: seq<Iface>, net: Net, b: Iface, o: Options) {
    && o.mode == b.lagMode && o.hash == b.xmitHash && o.miimon == net.miimon
    && o.lacpRate == (if b.lagMode == Some(Ieee8023ad) then net.lacpRate else None)
    && (if b.mtu.Some? then o.mtu == b.mtu else LargestOf(ifaces, b, o.mtu))
    && o.note == NoteOf(b.description)
    && o.address == o.gateway == o.stp == o.vlanAware == o.vids == None && o.forwardDelay == None
  }

  /** The NICs of the members are its slaves, in order, and the primary is the NIC
      of the flagged member in the modes that have one. */
  ghost predicate SaysMembers(ifaces: seq<Iface>, names: map<string, string>, b: Iface, e: Entry) {
    && (forall n :: n in e.children <==> exists m :: m in ifaces && m.lag == Some(b.id) && IsNic(names, m, n))
    && (forall i, j :: 0 <= i < j < |e.children| ==> StrLe(e.children[i], e.children[j]))
    && forall n :: e.options.primary == Some(n) <==> PrimaryNic(ifaces, names, b, n)
  }

  ghost predicate PrimaryNic(ifaces: seq<Iface>, names: map<string, string>, b: Iface, n: string) {
    && b.lagMode in {Some(ActiveBackup), Some(BalanceTlb), Some(BalanceAlb)}
    && exists m :: m in ifaces && m.lag == Some(b.id) && m.primaryMember && IsNic(names, m, n)
  }

  ghost predicate SaysBond(ifaces: seq<Iface>, net: Net, names: map<string, string>, b: Iface, e: Entry) {
    && e.name == b.name && e.way == "manual"
    && SaysMembers(ifaces, names, b, e) && SaysBondFields(ifaces, net, b, e.options)
  }

  lemma {:induction false} LargestMtuIs(members: seq<Iface>)
    requires forall m :: m in members ==> MtuOk(m)
    ensures LargestMtu(members) == 0 <==> forall m :: m in members ==> m.mtu.None?
    ensures LargestMtu(members) != 0 ==> exists m :: m in members && m.mtu == Some(LargestMtu(members))
    ensures forall m :: m in members && m.mtu.Some? ==> m.mtu.value <= LargestMtu(members)
    ensures LargestMtu(members) >= 0
  {
    if members == [] {
    } else {
      var first, rest := members[0], members[1..];
      assert first in members && forall m :: m in rest ==> m in members;
      assert forall m :: m in members ==> m == first || m in rest;
      LargestMtuIs(rest);
    }
  }

  lemma BondMtuIs(ifaces: seq<Iface>, net: Net, p: Primary, b: Iface)
    requires Clean(ifaces, net, p) && b in ifaces && b.kind == Lag
    ensures var mtu := BondMtu(b, Members(ifaces, b.id));
      && mtu != Some(0) && if b.mtu.Some? then mtu == b.mtu else LargestOf(ifaces, b, mtu)
  {
    var members := Members(ifaces, b.id);
    LagMembers(ifaces, b);
    BondIsOk(ifaces, net, p, b);
    LargestMtuIs(members);
    hide Members, LargestMtu;
  }

  lemma BondIsOk(ifaces: seq<Iface>, net: Net, p: Primary, b: Iface)
    requires Clean(ifaces, net, p) && b in ifaces && b.kind == Lag
    ensures BondFieldsOk(net, b, Members(ifaces, b.id)) && MtuOk(b)
    ensures forall m :: m in Members(ifaces, b.id) ==> MtuOk(m)
  {
    KindMembers(ifaces, Lag);
    hide Mgmt, BridgesOk, NoAddressLost, PrimaryOk, IsNumbered, OfKind, Members;
    assert b in OfKind(ifaces, Lag);
    assert BondOk(net, b, Members(ifaces, b.id));
    assert forall m :: m in Members(ifaces, b.id) ==> MemberOk(b, m);
  }

  lemma BondFieldsSaid(ifaces: seq<Iface>, net: Net, p: Primary, model: Model, names: map<string, string>, b: Iface)
    requires Clean(ifaces, net, p) && b in ifaces && b.kind == Lag
    ensures SaysBondFields(ifaces, net, b, OptionsOf(BondEntry(model, names, BondOf(net, b, Members(ifaces, b.id)))))
  {
    BondIsOk(ifaces, net, p, b);
    BondMtuIs(ifaces, net, p, b);
    hide Members, BondMtu, NoteOf, LinuxName, IsNumbered, LargestOf, Sort, Clean;
  }

  lemma MemberNic(ifaces: seq<Iface>, net: Net, p: Primary, links: seq<Link>, physical: set<string>,
                  names: map<string, string>, b: Iface, m: Iface, n: string)
    requires Rendered(ifaces, net, p, links, physical, names) && InBond(ifaces, m, b)
    ensures n == LinuxName(ModelOf(ifaces, net, p), names, m.id) <==> IsNic(names, m, n)
  {
    var q := PortOf(m, MtuOr(m.mtu, b.mtu));
    ModelPorts(ifaces, net, p);
    assert BondPort(ifaces, m, b, q);
    PortListMember(ifaces, q);
    hide ModelOf, PortList, LinuxName;
    PortName(ifaces, net, p, links, physical, names, q);
  }

  lemma PrimaryIs(net: Net, b: Iface, members: seq<Iface>, id: string)
    requires BondFieldsOk(net, b, members)
    ensures BondOf(net, b, members).primary == Some(id) <==> PrimaryId(members, b, id)
  {
    FilterMembers((i: Iface) => i.primaryMember, members);
    var f := Flagged(members);
    assert forall m :: m in f <==> m in members && m.primaryMember;
    if |f| == 1 {
      assert f[0] in f && forall m :: m in f ==> m == f[0];
    }
    hide Flagged, IsNumbered;
  }

  lemma SlaveSaid(ifaces: seq<Iface>, net: Net, p: Primary, links: seq<Link>, physical: set<string>,
                  names: map<string, string>, b: Iface, n: string)
    requires Rendered(ifaces, net, p, links, physical, names) && b in ifaces && b.kind == Lag
    ensures n in BondEntry(ModelOf(ifaces, net, p), names, BondOf(net, b, Members(ifaces, b.id))).slaves <==>
      exists m :: m in ifaces && m.lag == Some(b.id) && IsNic(names, m, n)
  {
    var model, members := ModelOf(ifaces, net, p), Members(ifaces, b.id);
    LagMembers(ifaces, b);
    hide ModelOf, Rendered, Members, LinuxName, BondEntry, BondOf, IsNic;
    SlavesOf(ifaces, net, model, names, b, n);
    forall m | m in members ensures n == LinuxName(model, names, m.id) <==> IsNic(names, m, n) {
      MemberNic(ifaces, net, p, links, physical, names, b, m, n);
    }
  }

  lemma MembersSaid(ifaces: seq<Iface>, net: Net, p: Primary, links: seq<Link>, physical: set<string>,
                    names: map<string, string>, b: Iface, e: Entry)
    requires Rendered(ifaces, net, p, links, physical, names) && b in ifaces && b.kind == Lag
    requires e == EntryOf(BondEntry(ModelOf(ifaces, net, p), names, BondOf(net, b, Members(ifaces, b.id))))
    ensures SaysMembers(ifaces, names, b, e)
  {
    hide ModelOf, Rendered, Members, LinuxName, BondEntry, BondOf, OptionsOf, EntryOf, IsNic, StrLe;
    var bond := BondOf(net, b, Members(ifaces, b.id));
    var s := BondEntry(ModelOf(ifaces, net, p), names, bond);
    SlavesSorted(ModelOf(ifaces, net, p), names, bond);
    BondEntryShape(ModelOf(ifaces, net, p), names, bond);
    assert e.children == s.slaves && e.options.primary == s.primary;
    forall n ensures n in e.children <==> exists m :: m in ifaces && m.lag == Some(b.id) && IsNic(names, m, n) {
      SlaveSaid(ifaces, net, p, links, physical, names, b, n);
    }
    forall n ensures e.options.primary == Some(n) <==> PrimaryNic(ifaces, names, b, n) {
      PrimarySaid(ifaces, net, p, links, physical, names, b, n);
    }
  }

  lemma PrimarySaid(ifaces: seq<Iface>, net: Net, p: Primary, links: seq<Link>, physical: set<string>,
                    names: map<string, string>, b: Iface, n: string)
    requires Rendered(ifaces, net, p, links, physical, names) && b in ifaces && b.kind == Lag
    ensures BondEntry(ModelOf(ifaces, net, p), names, BondOf(net, b, Members(ifaces, b.id))).primary == Some(n) <==>
      PrimaryNic(ifaces, names, b, n)
  {
    var model, members := ModelOf(ifaces, net, p), Members(ifaces, b.id);
    var bond := BondOf(net, b, members);
    RenderedParts(ifaces, net, p, links, physical, names);
    LagMembers(ifaces, b);
    BondIsOk(ifaces, net, p, b);
    PrimaryEntry(model, names, bond);
    hide ModelOf, Rendered, Members, LinuxName, BondEntry, BondOf, Clean, BondFieldsOk, IsNic, PrimaryNic;
    forall id ensures bond.primary == Some(id) <==> PrimaryId(members, b, id) { PrimaryIs(net, b, members, id); }
    forall m | m in members ensures n == LinuxName(model, names, m.id) <==> IsNic(names, m, n) {
      MemberNic(ifaces, net, p, links, physical, names, b, m, n);
    }
    hide PrimaryId;
    PrimaryNicIs(ifaces, names, b, n, model, bond, members);
  }

  /** id is that of the flagged member, in a mode that has a primary. */
  ghost predicate PrimaryId(members: seq<Iface>, b: Iface, id: string) {
    && b.lagMode in {Some(ActiveBackup), Some(BalanceTlb), Some(BalanceAlb)}
    && exists m :: m in members && m.primaryMember && m.id == id
  }

  lemma PrimaryNicIs(ifaces: seq<Iface>, names: map<string, string>, b: Iface, n: string, model: Model, bond: Bond,
                     members: seq<Iface>)
    requires forall m :: m in members <==> m in ifaces && m.lag == Some(b.id)
    requires forall m :: m in members ==> (n == LinuxName(model, names, m.id) <==> IsNic(names, m, n))
    requires forall id :: bond.primary == Some(id) <==> PrimaryId(members, b, id)
    ensures bond.primary.Some? && LinuxName(model, names, bond.primary.value) == n <==> PrimaryNic(ifaces, names, b, n)
  {
    hide LinuxName, IsNic;
    if bond.primary.Some? {
      assert PrimaryId(members, b, bond.primary.value);
    }
    if PrimaryNic(ifaces, names, b, n) {
      var m :| m in ifaces && m.lag == Some(b.id) && m.primaryMember && IsNic(names, m, n);
      assert PrimaryId(members, b, m.id);
    }
  }

  lemma PrimaryEntry(model: Model, names: map<string, string>, bond: Bond)
    ensures BondEntry(model, names, bond).primary ==
      if bond.primary.Some? then Some(LinuxName(model, names, bond.primary.value)) else None
  {
    hide LinuxName, Sort;
  }

  lemma SlavesSorted(model: Model, names: map<string, string>, bond: Bond)
    ensures Sorted(StrLe, BondEntry(model, names, bond).slaves)
  {
    StrLeOrders();
    SortSorted(StrLe, Map((m: string) => LinuxName(model, names, m), bond.members));
    hide LinuxName, StrLe;
  }

  lemma StrLeOrders()
    ensures TotalPreorder(StrLe)
  {
    forall a, b ensures StrLe(a, b) || StrLe(b, a) { StrLeTotal(a, b); }
    forall a, b, c | StrLe(a, b) && StrLe(b, c) ensures StrLe(a, c) { StrLeTransitive(a, b, c); }
  }

  lemma BondEntryShape(model: Model, names: map<string, string>, bond: Bond)
    ensures var s := BondEntry(model, names, bond);
      s.BondStanza? && EntryOf(s).children == s.slaves && EntryOf(s).options.primary == s.primary
      && EntryOf(s).name == bond.name && EntryOf(s).way == "manual" && EntryOf(s).options == OptionsOf(s)
  {
    hide LinuxName, Sort, NoteOf, Given;
  }

  lemma BondName(net: Net, b: Iface, members: seq<Iface>)
    ensures BondOf(net, b, members).name == b.name
  {}

  /** The file has an entry for every bond, with its name, members and fields. */
  lemma BondIsSaid(header: string, ifaces: seq<Iface>, net: Net, p: Primary, links: seq<Link>, physical: set<string>,
                   names: map<string, string>, b: Iface)
    requires Rendered(ifaces, net, p, links, physical, names) && Unharmed(header, ifaces, net, p, names)
    requires b in ifaces && b.kind == Lag
    ensures exists e :: Says(header, ifaces, net, p, names, e) && SaysBond(ifaces, net, names, b, e)
  {
    hide *;
    var model, members := ModelOf(ifaces, net, p), Members(ifaces, b.id);
    var bond := BondOf(net, b, members);
    var s := BondEntry(model, names, bond);
    RenderedParts(ifaces, net, p, links, physical, names);
    ModelParts(ifaces, net, p);
    BondMember(ifaces, net, bond);
    StanzaMember(model, names, s);
    StanzaIsSaid(header, ifaces, net, p, links, physical, names, s);
    MembersSaid(ifaces, net, p, links, physical, names, b, EntryOf(s));
    BondFieldsSaid(ifaces, net, p, model, names, b);
    BondEntryShape(model, names, bond);
    BondName(net, b, members);
    BondSaidBy(ifaces, net, names, b, EntryOf(s));
  }

  lemma BondSaidBy(ifaces: seq<Iface>, net: Net, names: map<string, string>, b: Iface, e: Entry)
    requires e.name == b.name && e.way == "manual"
    requires SaysMembers(ifaces, names, b, e) && SaysBondFields(ifaces, net, b, e.options)
    ensures SaysBond(ifaces, net, names, b, e)
  {}

  // ---- bridges ------------------------------------------------------------------------------------

  /** The bridge's fields: the primary address with its gateway iff the bridge has
      it, the VLANs iff it is aware of any, its MTU and description, and the fixed
      options of every bridge. */
  ghost predicate SaysBridgeFields(p: Primary, b: Iface, o: Options) {
    && o.address == (if b.id in p.ids then Some(p.address) else None)
    && o.gateway == (if b.id in p.ids then p.gateway else None)
    && (b.mode == TaggedAll ==> o.vids == Some("2-4094"))
    && (b.mode == Tagged ==> o.vids.Some? && ReadsAs(o.vids.value, b.taggedVids))
    && (b.mode == NoMode ==> o.vids == None)
    && o.vlanAware == (if o.vids.Some? then Some("yes") else None)
    && o.stp == Some("off") && o.forwardDelay == Some(0) && o.mtu == b.mtu && o.note == NoteOf(b.description)
    && o.miimon == None && o.mode == None && o.hash == None && o.lacpRate == None && o.primary == None
  }

  /** The text reads as ranges that cover exactly these VLANs. */
  ghost predicate ReadsAs(text: string, vids: seq<nat>) {
    var ranges := VlanRanges.ReadText(text);
    ranges.Some? && forall v :: VlanRanges.Covers(ranges.value, v) <==> v in vids
  }

  /** What an interface is called in the file: a bond by its own name, a port by its
      NIC's. */
  ghost predicate IsCalled(names: map<string, string>, i: Iface, n: string) {
    if i.kind == Lag then n == i.name else IsNic(names, i, n)
  }

  /** l lists the interfaces attached to the bridge, each once, by their names. */
  ghost predicate ListsAttached(ifaces: seq<Iface>, b: Iface, l: seq<Iface>) {
    && NoDup(l) && (forall i :: i in l <==> i in ifaces && i.bridge == Some(b.id))
    && forall j, k :: 0 <= j < k < |l| ==> StrLe(l[j].name, l[k].name)
  }

  /** The attached interfaces are the bridge's ports, in the order of their names. */
  ghost predicate SaysPorts(ifaces: seq<Iface>, names: map<string, string>, b: Iface, ports: seq<string>) {
    exists l: seq<Iface> :: ListsAttached(ifaces, b, l) && |l| == |ports| && CalledAs(names, l, ports)
  }

  ghost predicate CalledAs(names: map<string, string>, l: seq<Iface>, ports: seq<string>)
    requires |l| == |ports|
  {
    forall k :: 0 <= k < |l| ==> IsCalled(names, l[k], ports[k])
  }

  ghost predicate SaysBridge(ifaces: seq<Iface>, p: Primary, names: map<string, string>, b: Iface, e: Entry) {
    && e.name == b.name && e.way == (if b.id in p.ids then "static" else "manual")
    && SaysPorts(ifaces, names, b, e.children) && SaysBridgeFields(p, b, e.options)
  }

  lemma CarrierIs(ifaces: seq<Iface>, p: Primary, b: Iface)
    requires Unique(ifaces) && Mgmt(ifaces, p).Some? && b in ifaces
    ensures b.id in p.ids <==> b.id == Mgmt(ifaces, p).value.id
  {
    var mine := Mine(ifaces, p.ids);
    MineHas(ifaces, p.ids, b);
    MineIds(ifaces, p.ids, mine[0]);
    MineInList(ifaces, p.ids);
    assert mine[0] in mine && forall i :: i in mine ==> i == mine[0];
    hide Mine;
    SameIface(ifaces, b, mine[0]);
  }

  lemma {:induction false} MineHas(ifaces: seq<Iface>, ids: seq<string>, b: Iface)
    requires Unique(ifaces) && b in ifaces
    ensures b.id in ids ==> b in Mine(ifaces, ids)
  {
    if ids == [] {
    } else {
      MineHas(ifaces, ids[1..], b);
      var found := ById(ifaces, ids[0]);
      if found.Some? { SameIface(ifaces, found.value, b); }
    }
  }

  lemma {:induction false} MineIds(ifaces: seq<Iface>, ids: seq<string>, b: Iface)
    ensures b in Mine(ifaces, ids) ==> b.id in ids
  {
    if ids == [] {
    } else {
      MineIds(ifaces, ids[1..], b);
    }
  }

  lemma BridgeIsOk(ifaces: seq<Iface>, net: Net, p: Primary, b: Iface)
    requires Clean(ifaces, net, p) && b in ifaces && b.kind == Bridge
    ensures MtuOk(b) && b.mode != Access
    ensures Mgmt(ifaces, p).Some? && OneWord(p.address) && p.gateway.Some? && OneWord(p.gateway.value)
  {
    KindMembers(ifaces, Bridge);
    hide Mgmt, BondsOk, NoAddressLost, IsNumbered, OfKind, Attached, OneWord;
    assert b in OfKind(ifaces, Bridge);
    assert BridgeOk(ifaces, p, Mgmt(ifaces, p), b, Attached(ifaces, b.id));
  }

  lemma TaggedReads(b: Iface)
    requires b.mode == Tagged
    ensures VidsOf(b).Some? && ReadsAs(VidsOf(b).value, b.taggedVids)
  {
    VlanRanges.TextReads(VlanRanges.Ranges(b.taggedVids));
  }

  lemma BridgeFieldsSaid(ifaces: seq<Iface>, net: Net, p: Primary, model: Model, names: map<string, string>, b: Iface)
    requires Unique(ifaces) && Clean(ifaces, net, p) && b in ifaces && b.kind == Bridge
    ensures var s := BridgeEntry(model, names, BridgeOf(p, Mgmt(ifaces, p), b, Attached(ifaces, b.id)));
      s.BridgeStanza? && SaysBridgeFields(p, b, OptionsOf(s)) && StanzaName(s) == b.name
        && Way(s) == if b.id in p.ids then "static" else "manual"
  {
    var s := BridgeEntry(model, names, BridgeOf(p, Mgmt(ifaces, p), b, Attached(ifaces, b.id)));
    BridgeIsOk(ifaces, net, p, b);
    CarrierIs(ifaces, p, b);
    VidsAre(b);
    BridgeShape(model, names, p, Mgmt(ifaces, p), b, Attached(ifaces, b.id));
    BridgeOptionsAre(s);
    GivenAre(p.address, p.gateway, b);
    hide Attached, NoteOf, Clean, Unique, Mgmt, ReadsAs, VidsOf, OptionsOf, BridgeEntry, BridgeOf, Given, GivenText;
    hide OneWord, MtuOk;
  }

  lemma GivenAre(address: string, gateway: Option<string>, b: Iface)
    requires OneWord(address) && gateway.Some? && OneWord(gateway.value) && MtuOk(b)
    ensures GivenText(Some(address)) == Some(address) && GivenText(gateway) == gateway && GivenText(None) == None
    ensures Given(b.mtu) == b.mtu
  {}

  lemma VidsAre(b: Iface)
    ensures b.mode == TaggedAll ==> VidsOf(b) == Some("2-4094")
    ensures b.mode == Tagged ==> VidsOf(b).Some? && ReadsAs(VidsOf(b).value, b.taggedVids)
    ensures b.mode == NoMode ==> VidsOf(b) == None
  {
    if b.mode == Tagged { TaggedReads(b); }
    hide ReadsAs, VlanRanges.VidText;
  }

  lemma BridgeShape(model: Model, names: map<string, string>, p: Primary, mgmt: Option<Iface>, b: Iface, l: seq<Iface>)
    ensures var s := BridgeEntry(model, names, BridgeOf(p, mgmt, b, l));
      var carries := mgmt.Some? && b.id == mgmt.value.id;
      && s.BridgeStanza? && s.name == b.name && s.vids == VidsOf(b) && s.mtu == b.mtu && s.comment == b.description
      && s.address == (if carries then Some(p.address) else None) && s.gateway == (if carries then p.gateway else None)
      && StanzaName(s) == b.name && Way(s) == if carries && p.address != "" then "static" else "manual"
  {
    hide LinuxName, VidsOf;
  }

  lemma AttachedName(ifaces: seq<Iface>, net: Net, p: Primary, links: seq<Link>, physical: set<string>,
                     names: map<string, string>, b: Iface, i: Iface)
    requires Rendered(ifaces, net, p, links, physical, names) && OnBridge(ifaces, i, b)
    ensures IsCalled(names, i, LinuxName(ModelOf(ifaces, net, p), names, i.id))
  {
    RenderedParts(ifaces, net, p, links, physical, names);
    AttachedFacts(ifaces, net, p, i, b);
    if i.kind == Lag {
      LagName(ifaces, net, p, links, physical, names, i);
    } else {
      var q := PortOf(i, i.mtu);
      ModelPorts(ifaces, net, p);
      assert BridgePort(ifaces, i, b, q);
      PortListMember(ifaces, q);
      hide ModelOf, PortList, LinuxName, Clean, Unique;
      PortName(ifaces, net, p, links, physical, names, q);
    }
  }

  lemma AttachedListed(ifaces: seq<Iface>, b: Iface)
    requires Unique(ifaces)
    ensures ListsAttached(ifaces, b, Attached(ifaces, b.id))
  {
    var f := Filter((i: Iface) => i.bridge == Some(b.id), ifaces);
    LagMembers(ifaces, b);
    SelectionNoDup((i: Iface) => i.bridge == Some(b.id), ifaces);
    NameOrder();
    SortSorted(NameLe, f);
    hide Unique, StrLe;
  }

  lemma NameOrder()
    ensures TotalPreorder(NameLe)
  {
    forall a, b ensures NameLe(a, b) || NameLe(b, a) { StrLeTotal(a.name, b.name); }
    forall a, b, c | NameLe(a, b) && NameLe(b, c) ensures NameLe(a, c) { StrLeTransitive(a.name, b.name, c.name); }
  }

  lemma BridgePortsAre(model: Model, names: map<string, string>, p: Primary, mgmt: Option<Iface>, b: Iface,
                       l: seq<Iface>)
    ensures var ports := BridgeEntry(model, names, BridgeOf(p, mgmt, b, l)).ports;
      |ports| == |l| && forall k :: 0 <= k < |l| ==> ports[k] == LinuxName(model, names, l[k].id)
  {
    NamesForIds(model, names, l);
    forall k | 0 <= k < |l| ensures NamesFor(model, names, l)[k] == LinuxName(model, names, l[k].id) {
      MapAt((i: Iface) => LinuxName(model, names, i.id), l, k);
    }
    hide LinuxName, VidsOf;
  }

  lemma PortsSaid(ifaces: seq<Iface>, net: Net, p: Primary, links: seq<Link>, physical: set<string>,
                  names: map<string, string>, b: Iface)
    requires Rendered(ifaces, net, p, links, physical, names) && b in ifaces && b.kind == Bridge
    ensures SaysPorts(ifaces, names, b, BridgeEntry(ModelOf(ifaces, net, p), names,
      BridgeOf(p, Mgmt(ifaces, p), b, Attached(ifaces, b.id))).ports)
  {
    RenderedParts(ifaces, net, p, links, physical, names);
    var model, l := ModelOf(ifaces, net, p), Attached(ifaces, b.id);
    AttachedListed(ifaces, b);
    BridgePortsAre(model, names, p, Mgmt(ifaces, p), b, l);
    LagMembers(ifaces, b);
    var ports := BridgeEntry(model, names, BridgeOf(p, Mgmt(ifaces, p), b, l)).ports;
    hide ModelOf, Rendered, Attached, LinuxName, BridgeEntry, BridgeOf, Clean, Unique, IsCalled, ListsAttached, Mgmt;
    forall k | 0 <= k < |l| ensures IsCalled(names, l[k], ports[k]) {
      assert l[k] in l && OnBridge(ifaces, l[k], b);
      AttachedName(ifaces, net, p, links, physical, names, b, l[k]);
    }
    assert CalledAs(names, l, ports);
  }

  /** The file has an entry for every bridge, with its name, ports and fields. */
  lemma BridgeIsSaid(header: string, ifaces: seq<Iface>, net: Net, p: Primary, links: seq<Link>, physical: set<string>,
                     names: map<string, string>, b: Iface)
    requires Rendered(ifaces, net, p, links, physical, names) && Unharmed(header, ifaces, net, p, names)
    requires b in ifaces && b.kind == Bridge
    ensures exists e :: Says(header, ifaces, net, p, names, e) && SaysBridge(ifaces, p, names, b, e)
  {
    hide *;
    var model, attached := ModelOf(ifaces, net, p), Attached(ifaces, b.id);
    var bridge := BridgeOf(p, Mgmt(ifaces, p), b, attached);
    var s := BridgeEntry(model, names, bridge);
    RenderedParts(ifaces, net, p, links, physical, names);
    ModelParts(ifaces, net, p);
    BridgeMember(ifaces, p, bridge);
    StanzaMember(model, names, s);
    StanzaIsSaid(header, ifaces, net, p, links, physical, names, s);
    PortsSaid(ifaces, net, p, links, physical, names, b);
    BridgeFieldsSaid(ifaces, net, p, model, names, b);
    EntryIs(s);
    BridgeSaidBy(ifaces, p, names, b, EntryOf(s));
  }

  lemma EntryIs(s: Stanza)
    ensures EntryOf(s) == Entry(StanzaName(s), Way(s), EnslavedBy(s), OptionsOf(s))
    ensures s.BridgeStanza? ==> EnslavedBy(s) == s.ports
  {}

  lemma BridgeSaidBy(ifaces: seq<Iface>, p: Primary, names: map<string, string>, b: Iface, e: Entry)
    requires e.name == b.name && e.way == if b.id in p.ids then "static" else "manual"
    requires SaysPorts(ifaces, names, b, e.children) && SaysBridgeFields(p, b, e.options)
    ensures SaysBridge(ifaces, p, names, b, e)
  {}

  // ---- ports --------------------------------------------------------------------------------------

  /** No options but an MTU and a note. */
  function PlainOptions(mtu: Option<int>, text: string): Options {
    Options(mtu, None, None, None, None, None, None, None, None, None, None, None, NoteOf(text))
  }

  /** The port's own MTU, or that of the bond it is a member of, and its description. */
  ghost predicate SaysPort(names: map<string, string>, i: Iface, bondMtu: Option<int>, e: Entry) {
    && IsNic(names, i, e.name) && e.way == "manual" && e.children == []
    && e.options == PlainOptions(if i.mtu.Some? then i.mtu else bondMtu, i.description)
  }

  lemma PortEntryIs(model: Model, names: map<string, string>, q: Port)
    requires q.mtu != Some(0)
    ensures EntryOf(PortEntry(model, names, q)) ==
      Entry(LinuxName(model, names, q.id), "manual", [], PlainOptions(q.mtu, q.description))
  {
    hide LinuxName, NoteOf;
  }

  lemma PortSaid(header: string, ifaces: seq<Iface>, net: Net, p: Primary, links: seq<Link>, physical: set<string>,
                 names: map<string, string>, q: Port)
    requires Rendered(ifaces, net, p, links, physical, names) && Unharmed(header, ifaces, net, p, names)
    requires q in PortList(ifaces) && q.mtu != Some(0)
    ensures q.id in names
    ensures Says(header, ifaces, net, p, names,
                 Entry(names[q.id], "manual", [], PlainOptions(q.mtu, q.description)))
  {
    hide *;
    var model := ModelOf(ifaces, net, p);
    RenderedParts(ifaces, net, p, links, physical, names);
    ModelPorts(ifaces, net, p);
    PortName(ifaces, net, p, links, physical, names, q);
    PortEntryIs(model, names, q);
    StanzaMember(model, names, PortEntry(model, names, q));
    StanzaIsSaid(header, ifaces, net, p, links, physical, names, PortEntry(model, names, q));
  }

  lemma PortIsSaid(header: string, ifaces: seq<Iface>, net: Net, p: Primary, links: seq<Link>, physical: set<string>,
                   names: map<string, string>, i: Iface, q: Port, bondMtu: Option<int>)
    requires Rendered(ifaces, net, p, links, physical, names) && Unharmed(header, ifaces, net, p, names)
    requires q in PortList(ifaces) && q == PortOf(i, if i.mtu.Some? then i.mtu else bondMtu) && q.mtu != Some(0)
    ensures exists e :: Says(header, ifaces, net, p, names, e) && SaysPort(names, i, bondMtu, e)
  {
    hide Rendered, Unharmed, PortList, Says, PlainOptions;
    PortSaid(header, ifaces, net, p, links, physical, names, q);
    var e := Entry(names[q.id], "manual", [], PlainOptions(q.mtu, q.description));
    assert Says(header, ifaces, net, p, names, e) && SaysPort(names, i, bondMtu, e);
  }

  /** The file has an entry for every member of a bond, under its NIC's name. */
  lemma MemberIsSaid(header: string, ifaces: seq<Iface>, net: Net, p: Primary, links: seq<Link>, physical: set<string>,
                     names: map<string, string>, m: Iface, b: Iface)
    requires Rendered(ifaces, net, p, links, physical, names) && Unharmed(header, ifaces, net, p, names)
    requires InBond(ifaces, m, b)
    ensures exists e :: Says(header, ifaces, net, p, names, e) && SaysPort(names, m, b.mtu, e)
  {
    RenderedParts(ifaces, net, p, links, physical, names);
    MemberPort(ifaces, net, p, m, b);
    hide *;
    PortIsSaid(header, ifaces, net, p, links, physical, names, m, PortOf(m, MtuOr(m.mtu, b.mtu)), b.mtu);
  }

  lemma MemberPort(ifaces: seq<Iface>, net: Net, p: Primary, m: Iface, b: Iface)
    requires Clean(ifaces, net, p) && InBond(ifaces, m, b)
    ensures PortOf(m, MtuOr(m.mtu, b.mtu)) in PortList(ifaces)
    ensures MtuOr(m.mtu, b.mtu) == (if m.mtu.Some? then m.mtu else b.mtu) && MtuOr(m.mtu, b.mtu) != Some(0)
    ensures PortOf(m, MtuOr(m.mtu, b.mtu)).mtu == MtuOr(m.mtu, b.mtu)
  {
    LagMembers(ifaces, b);
    BondIsOk(ifaces, net, p, b);
    assert BondPort(ifaces, m, b, PortOf(m, MtuOr(m.mtu, b.mtu)));
    hide PortList, Clean, Members, BondFieldsOk;
    PortListMember(ifaces, PortOf(m, MtuOr(m.mtu, b.mtu)));
  }

  /** And for every port that is attached to a bridge itself. */
  lemma AttachedIsSaid(header: string, ifaces: seq<Iface>, net: Net, p: Primary, links: seq<Link>,
                       physical: set<string>, names: map<string, string>, i: Iface, b: Iface)
    requires Rendered(ifaces, net, p, links, physical, names) && Unharmed(header, ifaces, net, p, names)
    requires OnBridge(ifaces, i, b) && i.kind != Lag
    ensures exists e :: Says(header, ifaces, net, p, names, e) && SaysPort(names, i, None, e)
  {
    RenderedParts(ifaces, net, p, links, physical, names);
    AttachedPort(ifaces, net, p, i, b);
    hide *;
    PortIsSaid(header, ifaces, net, p, links, physical, names, i, PortOf(i, i.mtu), None);
  }

  lemma AttachedPort(ifaces: seq<Iface>, net: Net, p: Primary, i: Iface, b: Iface)
    requires Clean(ifaces, net, p) && OnBridge(ifaces, i, b) && i.kind != Lag
    ensures PortOf(i, i.mtu) in PortList(ifaces) && i.mtu != Some(0) && PortOf(i, i.mtu).mtu == i.mtu
    ensures i.mtu == if i.mtu.Some? then i.mtu else None
  {
    AttachedMtuOk(ifaces, net, p, i, b);
    assert BridgePort(ifaces, i, b, PortOf(i, i.mtu));
    hide PortList, Clean;
    PortListMember(ifaces, PortOf(i, i.mtu));
  }

  lemma AttachedMtuOk(ifaces: seq<Iface>, net: Net, p: Primary, i: Iface, b: Iface)
    requires Clean(ifaces, net, p) && OnBridge(ifaces, i, b) && i.kind != Lag
    ensures MtuOk(i)
  {
    KindMembers(ifaces, Bridge);
    LagMembers(ifaces, b);
    hide Mgmt, BondsOk, NoAddressLost, IsNumbered, OfKind, Attached, PrimaryOk;
    assert b in OfKind(ifaces, Bridge) && i in Attached(ifaces, b.id);
    assert BridgeOk(ifaces, p, Mgmt(ifaces, p), b, Attached(ifaces, b.id));
    assert AttachedOk(ifaces, b, i);
  }
}

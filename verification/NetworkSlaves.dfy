/** Nothing is enslaved twice in the rendered network configuration, unless a
    NIC of the node happens to be named like an attached bond. */
module NetworkSlaves {
  import opened Prelude
  import opened NetworkModel
  import opened NetworkMatch
  import opened NetworkRender
  import opened NetworkForest
  import opened NetworkOnce

  function EnslavedBy(s: Stanza): seq<string> {
    if s.BondStanza? then s.slaves else if s.BridgeStanza? then s.ports else []
  }

  /** Nothing occurs twice, within a list or across lists. */
  ghost predicate Apart<T>(lists: seq<seq<T>>) {
    && (forall k :: 0 <= k < |lists| ==> NoDup(lists[k]))
    && (forall k, l, x :: 0 <= k < l < |lists| && x in lists[k] ==> x !in lists[l])
  }

  ghost predicate InSome(groups: seq<seq<Iface>>, i: Iface) { exists k :: 0 <= k < |groups| && i in groups[k] }

  ghost predicate InjectiveOn(f: Iface -> string, groups: seq<seq<Iface>>) {
    forall i, j :: InSome(groups, i) && InSome(groups, j) && f(i) == f(j) ==> i == j
  }

  lemma MapsTo(f: Iface -> string, g: seq<Iface>, list: seq<string>, n: string)
    requires multiset(list) == multiset(Map(f, g))
    ensures n in list <==> exists i :: i in g && f(i) == n
  {
    PermutationMember(list, Map(f, g), n);
    MapMember(f, g, n);
    if i :| i in g && f(i) == n {
      var k :| 0 <= k < |g| && g[k] == i;
    }
    if k :| 0 <= k < |g| && n == f(g[k]) { assert g[k] in g; }
  }

  lemma MapNoDup(f: Iface -> string, g: seq<Iface>, list: seq<string>)
    requires NoDup(g) && multiset(list) == multiset(Map(f, g))
    ensures NoDup(list) <==> forall i, j :: i in g && j in g && f(i) == f(j) ==> i == j
  {
    var m := Map(f, g);
    forall k | 0 <= k < |g| ensures m[k] == f(g[k]) { MapAt(f, g, k); }
    if NoDup(list) {
      NoDupPermutation(list, m);
      forall i, j | i in g && j in g && f(i) == f(j) ensures i == j {
        var k :| 0 <= k < |g| && g[k] == i;
        var l :| 0 <= l < |g| && g[l] == j;
        assert m[k] == m[l];
      }
    }
    if forall i, j :: i in g && j in g && f(i) == f(j) ==> i == j {
      forall k, l | 0 <= k < l < |m| ensures m[k] != m[l] {
        assert g[k] in g && g[l] in g && g[k] != g[l];
      }
      NoDupPermutation(m, list);
    }
  }

  ghost predicate Images(f: Iface -> string, groups: seq<seq<Iface>>, lists: seq<seq<string>>) {
    |groups| == |lists| && forall k :: 0 <= k < |lists| ==> multiset(lists[k]) == multiset(Map(f, groups[k]))
  }

  /** Names of separate groups are separate iff no two interfaces share one. */
  lemma ApartIffInjective(f: Iface -> string, groups: seq<seq<Iface>>, lists: seq<seq<string>>)
    requires Images(f, groups, lists) && Apart(groups)
    ensures Apart(lists) <==> InjectiveOn(f, groups)
  {
    if InjectiveOn(f, groups) {
      forall k | 0 <= k < |lists| ensures NoDup(lists[k]) {
        forall i, j | i in groups[k] && j in groups[k] && f(i) == f(j) ensures i == j {
          assert InSome(groups, i) && InSome(groups, j);
        }
        MapNoDup(f, groups[k], lists[k]);
      }
      forall k, l, n | 0 <= k < l < |lists| && n in lists[k] ensures n !in lists[l] {
        MapsTo(f, groups[k], lists[k], n);
        MapsTo(f, groups[l], lists[l], n);
        var i :| i in groups[k] && f(i) == n;
        forall j | j in groups[l] ensures f(j) != n {
          assert InSome(groups, i) && InSome(groups, j);
        }
      }
    }
    if Apart(lists) {
      forall i, j | InSome(groups, i) && InSome(groups, j) && f(i) == f(j) ensures i == j {
        var k :| 0 <= k < |groups| && i in groups[k];
        var l :| 0 <= l < |groups| && j in groups[l];
        SameList(f, groups, lists, k, l, i, j);
      }
    }
  }

  lemma SameList(f: Iface -> string, groups: seq<seq<Iface>>, lists: seq<seq<string>>, k: nat, l: nat, i: Iface,
                 j: Iface)
    requires Images(f, groups, lists) && Apart(groups) && Apart(lists)
    requires k < |groups| && l < |groups| && i in groups[k] && j in groups[l] && f(i) == f(j)
    ensures i == j
  {
    MapsTo(f, groups[k], lists[k], f(i));
    MapsTo(f, groups[l], lists[l], f(i));
    assert f(i) in lists[k] && f(i) in lists[l];
    assert k == l;
    MapNoDup(f, groups[k], lists[k]);
  }

  // ---- the groups of the topology --------------------------------------------------------

  function BondGroups(ifaces: seq<Iface>): seq<seq<Iface>> {
    Map((b: Iface) => Members(ifaces, b.id), OfKind(ifaces, Lag))
  }

  function BridgeGroups(ifaces: seq<Iface>): seq<seq<Iface>> {
    Map((b: Iface) => Attached(ifaces, b.id), OfKind(ifaces, Bridge))
  }

  /** One group for each stanza: what it enslaves. */
  function Groups(ifaces: seq<Iface>, plain: nat): seq<seq<Iface>> {
    seq(plain, _ => []) + BondGroups(ifaces) + BridgeGroups(ifaces)
  }

  lemma BondGroupAt(ifaces: seq<Iface>, k: nat)
    requires k < |BondGroups(ifaces)|
    ensures |BondGroups(ifaces)| == |OfKind(ifaces, Lag)|
    ensures OfKind(ifaces, Lag)[k] in ifaces && OfKind(ifaces, Lag)[k].kind == Lag
    ensures forall i :: i in BondGroups(ifaces)[k] <==> InBond(ifaces, i, OfKind(ifaces, Lag)[k])
    ensures Unique(ifaces) ==> NoDup(BondGroups(ifaces)[k])
  {
    var b := OfKind(ifaces, Lag)[k];
    MapAt((b: Iface) => Members(ifaces, b.id), OfKind(ifaces, Lag), k);
    KindMembers(ifaces, Lag);
    assert b in OfKind(ifaces, Lag);
    LagMembers(ifaces, b);
    if Unique(ifaces) { SelectionNoDup((i: Iface) => i.lag == Some(b.id), ifaces); }
  }

  lemma BridgeGroupAt(ifaces: seq<Iface>, k: nat)
    requires k < |BridgeGroups(ifaces)|
    ensures |BridgeGroups(ifaces)| == |OfKind(ifaces, Bridge)|
    ensures OfKind(ifaces, Bridge)[k] in ifaces && OfKind(ifaces, Bridge)[k].kind == Bridge
    ensures forall i :: i in BridgeGroups(ifaces)[k] <==> OnBridge(ifaces, i, OfKind(ifaces, Bridge)[k])
    ensures Unique(ifaces) ==> NoDup(BridgeGroups(ifaces)[k])
  {
    var b := OfKind(ifaces, Bridge)[k];
    MapAt((b: Iface) => Attached(ifaces, b.id), OfKind(ifaces, Bridge), k);
    KindMembers(ifaces, Bridge);
    assert b in OfKind(ifaces, Bridge);
    LagMembers(ifaces, b);
    if Unique(ifaces) { SelectionNoDup((i: Iface) => i.bridge == Some(b.id), ifaces); }
  }

  lemma ApartConcat<T>(a: seq<seq<T>>, b: seq<seq<T>>)
    requires Apart(a) && Apart(b)
    requires forall k, l, x :: 0 <= k < |a| && 0 <= l < |b| && x in a[k] ==> x !in b[l]
    ensures Apart(a + b)
  {
    var all := a + b;
    forall k, l, x | 0 <= k < l < |all| && x in all[k] ensures x !in all[l] {
      assert all[k] == if k < |a| then a[k] else b[k - |a|];
      assert all[l] == if l < |a| then a[l] else b[l - |a|];
    }
  }

  lemma BondGroupsApart(ifaces: seq<Iface>)
    requires Unique(ifaces)
    ensures Apart(BondGroups(ifaces))
  {
    hide BondGroups, OfKind;
    var g := BondGroups(ifaces);
    KindDistinct(ifaces, Lag);
    forall k | 0 <= k < |g| ensures NoDup(g[k]) { BondGroupAt(ifaces, k); }
    forall k, l, i | 0 <= k < l < |g| && i in g[k] ensures i !in g[l] {
      BondGroupAt(ifaces, k);
      BondGroupAt(ifaces, l);
      SameIface(ifaces, OfKind(ifaces, Lag)[k], OfKind(ifaces, Lag)[l]);
    }
  }

  lemma BridgeGroupsApart(ifaces: seq<Iface>)
    requires Unique(ifaces)
    ensures Apart(BridgeGroups(ifaces))
  {
    hide BridgeGroups, OfKind;
    var g := BridgeGroups(ifaces);
    KindDistinct(ifaces, Bridge);
    forall k | 0 <= k < |g| ensures NoDup(g[k]) { BridgeGroupAt(ifaces, k); }
    forall k, l, i | 0 <= k < l < |g| && i in g[k] ensures i !in g[l] {
      BridgeGroupAt(ifaces, k);
      BridgeGroupAt(ifaces, l);
      SameIface(ifaces, OfKind(ifaces, Bridge)[k], OfKind(ifaces, Bridge)[l]);
    }
  }

  /** No interface has two parents. */
  lemma GroupsApart(ifaces: seq<Iface>, net: Net, p: Primary, plain: nat)
    requires Unique(ifaces) && Clean(ifaces, net, p)
    ensures Apart(Groups(ifaces, plain))
  {
    hide BondGroups, BridgeGroups, Clean, Unique;
    var none: seq<seq<Iface>> := seq(plain, _ => []);
    BondGroupsApart(ifaces);
    BridgeGroupsApart(ifaces);
    ApartConcat(none, BondGroups(ifaces));
    var front := none + BondGroups(ifaces);
    forall k, l, i | 0 <= k < |front| && 0 <= l < |BridgeGroups(ifaces)| && i in front[k]
      ensures i !in BridgeGroups(ifaces)[l]
    {
      assert k >= plain;
      BondGroupAt(ifaces, k - plain);
      BridgeGroupAt(ifaces, l);
      MemberFacts(ifaces, net, p, i, OfKind(ifaces, Lag)[k - plain]);
    }
    ApartConcat(front, BridgeGroups(ifaces));
  }

  ghost predicate Enslaved(ifaces: seq<Iface>, i: Iface) {
    (exists b :: InBond(ifaces, i, b)) || (exists b :: OnBridge(ifaces, i, b))
  }

  lemma GroupSizes(ifaces: seq<Iface>)
    ensures |BondGroups(ifaces)| == |OfKind(ifaces, Lag)| && |BridgeGroups(ifaces)| == |OfKind(ifaces, Bridge)|
  {}

  lemma InBondGroup(ifaces: seq<Iface>, i: Iface)
    ensures InSome(BondGroups(ifaces), i) <==> exists b :: InBond(ifaces, i, b)
  {
    var lags := OfKind(ifaces, Lag);
    KindMembers(ifaces, Lag);
    GroupSizes(ifaces);
    hide BondGroups, BridgeGroups, OfKind;
    if k :| 0 <= k < |BondGroups(ifaces)| && i in BondGroups(ifaces)[k] {
      BondGroupAt(ifaces, k);
    }
    if b :| InBond(ifaces, i, b) {
      var k :| 0 <= k < |lags| && lags[k] == b;
      BondGroupAt(ifaces, k);
    }
  }

  lemma InBridgeGroup(ifaces: seq<Iface>, i: Iface)
    ensures InSome(BridgeGroups(ifaces), i) <==> exists b :: OnBridge(ifaces, i, b)
  {
    var bridges := OfKind(ifaces, Bridge);
    KindMembers(ifaces, Bridge);
    GroupSizes(ifaces);
    hide BondGroups, BridgeGroups, OfKind;
    if k :| 0 <= k < |BridgeGroups(ifaces)| && i in BridgeGroups(ifaces)[k] {
      BridgeGroupAt(ifaces, k);
    }
    if b :| OnBridge(ifaces, i, b) {
      var k :| 0 <= k < |bridges| && bridges[k] == b;
      BridgeGroupAt(ifaces, k);
    }
  }

  lemma InSomeConcat(a: seq<seq<Iface>>, b: seq<seq<Iface>>, i: Iface)
    ensures InSome(a + b, i) <==> InSome(a, i) || InSome(b, i)
  {
    var all := a + b;
    if k :| 0 <= k < |a| && i in a[k] { assert all[k] == a[k]; }
    if k :| 0 <= k < |b| && i in b[k] { assert all[|a| + k] == b[k]; }
    if k :| 0 <= k < |all| && i in all[k] { assert all[k] == if k < |a| then a[k] else b[k - |a|]; }
  }

  lemma GroupsHave(ifaces: seq<Iface>, plain: nat, i: Iface)
    ensures InSome(Groups(ifaces, plain), i) <==> Enslaved(ifaces, i)
  {
    hide BondGroups, BridgeGroups, InBond, OnBridge;
    var none: seq<seq<Iface>> := seq(plain, _ => []);
    assert !InSome(none, i);
    InSomeConcat(none + BondGroups(ifaces), BridgeGroups(ifaces), i);
    InSomeConcat(none, BondGroups(ifaces), i);
    InBondGroup(ifaces, i);
    InBridgeGroup(ifaces, i);
  }

  // ---- the stanzas of the groups ------------------------------------------------------------

  /** What each stanza enslaves, in the order of the file. */
  function EnslavedLists(st: seq<Stanza>): seq<seq<string>> { Map(EnslavedBy, st) }

  lemma BondEntryImage(ifaces: seq<Iface>, net: Net, model: Model, names: map<string, string>, b: Iface)
    ensures multiset(EnslavedBy(BondEntry(model, names, BondOf(net, b, Members(ifaces, b.id))))) ==
            multiset(NamesFor(model, names, Members(ifaces, b.id)))
  {
    hide Members;
    NamesForIds(model, names, Members(ifaces, b.id));
  }

  lemma BridgeEntryImage(ifaces: seq<Iface>, p: Primary, mgmt: Option<Iface>, model: Model, names: map<string, string>,
                         b: Iface)
    ensures EnslavedBy(BridgeEntry(model, names, BridgeOf(p, mgmt, b, Attached(ifaces, b.id)))) ==
            NamesFor(model, names, Attached(ifaces, b.id))
  {
    hide Attached;
    NamesForIds(model, names, Attached(ifaces, b.id));
  }

  lemma BondImages(ifaces: seq<Iface>, net: Net, p: Primary, names: map<string, string>)
    ensures var model := ModelOf(ifaces, net, p);
      Images((i: Iface) => LinuxName(model, names, i.id), BondGroups(ifaces), EnslavedLists(BondEntries(model, names)))
  {
    var model := ModelOf(ifaces, net, p);
    var lags, entries := OfKind(ifaces, Lag), BondEntries(model, names);
    assert |entries| == |lags| by { assert model.bonds == Bonds(ifaces, net); }
    hide ModelOf, OfKind, Members, BondOf, BondEntry, EnslavedBy, LinuxName, BondEntries;
    forall k | 0 <= k < |lags|
      ensures multiset(EnslavedLists(entries)[k]) == multiset(NamesFor(model, names, BondGroups(ifaces)[k]))
    {
      MapAt((b: Iface) => Members(ifaces, b.id), lags, k);
      MapAt(EnslavedBy, entries, k);
      BondEntriesAt(ifaces, net, p, names, k);
      BondEntryImage(ifaces, net, model, names, lags[k]);
    }
  }

  lemma BridgeImages(ifaces: seq<Iface>, net: Net, p: Primary, names: map<string, string>)
    ensures var model := ModelOf(ifaces, net, p);
      Images((i: Iface) => LinuxName(model, names, i.id), BridgeGroups(ifaces),
             EnslavedLists(BridgeEntries(model, names)))
  {
    var model := ModelOf(ifaces, net, p);
    var bridges, entries := OfKind(ifaces, Bridge), BridgeEntries(model, names);
    assert |entries| == |bridges| by { assert model.bridges == Bridges(ifaces, p); }
    hide ModelOf, OfKind, Attached, BridgeOf, BridgeEntry, EnslavedBy, LinuxName, BridgeEntries, Mgmt;
    forall k | 0 <= k < |bridges|
      ensures multiset(EnslavedLists(entries)[k]) == multiset(NamesFor(model, names, BridgeGroups(ifaces)[k]))
    {
      MapAt((b: Iface) => Attached(ifaces, b.id), bridges, k);
      MapAt(EnslavedBy, entries, k);
      BridgeEntriesAt(ifaces, net, p, names, k);
      BridgeEntryImage(ifaces, p, Mgmt(ifaces, p), model, names, bridges[k]);
    }
  }

  lemma PlainImages(f: Iface -> string, front: seq<Stanza>)
    requires forall k :: 0 <= k < |front| ==> EnslavedBy(front[k]) == []
    ensures Images(f, seq(|front|, _ => []), EnslavedLists(front))
  {
    forall k | 0 <= k < |front| ensures EnslavedLists(front)[k] == [] { MapAt(EnslavedBy, front, k); }
  }

  lemma ImagesConcat(f: Iface -> string, g: seq<seq<Iface>>, h: seq<seq<Iface>>, a: seq<seq<string>>,
                     b: seq<seq<string>>)
    requires Images(f, g, a) && Images(f, h, b)
    ensures Images(f, g + h, a + b)
  {}

  lemma StanzaImages(ifaces: seq<Iface>, net: Net, p: Primary, names: map<string, string>)
    ensures var model := ModelOf(ifaces, net, p);
      Images((i: Iface) => LinuxName(model, names, i.id), Groups(ifaces, 1 + |model.ports|),
             EnslavedLists(Stanzas(model, names)))
  {
    var model := ModelOf(ifaces, net, p);
    var f := (i: Iface) => LinuxName(model, names, i.id);
    var front := [Loopback] + PortEntries(model, names);
    PlainPorts(model, names);
    PlainImages(f, front);
    BondImages(ifaces, net, p, names);
    BridgeImages(ifaces, net, p, names);
    hide ModelOf, BondEntries, BridgeEntries, PortEntries, BondGroups, BridgeGroups, Images, EnslavedBy;
    MapAppend(EnslavedBy, front, BondEntries(model, names));
    MapAppend(EnslavedBy, front + BondEntries(model, names), BridgeEntries(model, names));
    var none: seq<seq<Iface>> := seq(|front|, _ => []);
    ImagesConcat(f, none, BondGroups(ifaces), EnslavedLists(front), EnslavedLists(BondEntries(model, names)));
    ImagesConcat(f, none + BondGroups(ifaces), BridgeGroups(ifaces),
                 EnslavedLists(front + BondEntries(model, names)), EnslavedLists(BridgeEntries(model, names)));
  }

  lemma PortEnslavesNone(model: Model, names: map<string, string>, p: Port)
    ensures EnslavedBy(PortEntry(model, names, p)) == []
  {}

  lemma PlainPorts(model: Model, names: map<string, string>)
    ensures var front := [Loopback] + PortEntries(model, names);
      |front| == 1 + |model.ports| && forall k :: 0 <= k < |front| ==> EnslavedBy(front[k]) == []
  {
    hide PortEntry, LinuxNameLe;
    var ports, entries := SortedPorts(model, names), PortEntries(model, names);
    assert |ports| == |model.ports|;
    hide SortedPorts;
    var front := [Loopback] + entries;
    forall k | 0 <= k < |front| ensures EnslavedBy(front[k]) == [] {
      if k > 0 {
        MapAt((p: Port) => PortEntry(model, names, p), ports, k - 1);
        assert front[k] == entries[k - 1];
        PortEnslavesNone(model, names, ports[k - 1]);
      }
    }
  }

  // ---- the exact condition --------------------------------------------------------------------

  /** Some port's NIC is named like a bond that is attached to a bridge. */
  ghost predicate NamedLikeBond(ifaces: seq<Iface>, net: Net, p: Primary, names: map<string, string>, q: Port, l: Iface)
  {
    && q in ModelOf(ifaces, net, p).ports && l.kind == Lag && (exists b :: OnBridge(ifaces, l, b))
    && q.id in names && names[q.id] == l.name
  }

  /** An enslaved interface is a port of the model or an attached LAG. */
  lemma EnslavedKinds(ifaces: seq<Iface>, net: Net, p: Primary, i: Iface)
    requires Unique(ifaces) && Clean(ifaces, net, p) && Enslaved(ifaces, i)
    ensures i in ifaces
    ensures
      || (i.kind == Lag && exists b :: OnBridge(ifaces, i, b))
      || exists q :: q in ModelOf(ifaces, net, p).ports && q.id == i.id
  {
    ModelPorts(ifaces, net, p);
    hide ModelOf, Clean, Unique, PortList;
    if b :| InBond(ifaces, i, b) {
      var q := PortOf(i, MtuOr(i.mtu, b.mtu));
      assert BondPort(ifaces, i, b, q);
      PortListMember(ifaces, q);
    } else {
      var b :| OnBridge(ifaces, i, b);
      if i.kind != Lag {
        var q := PortOf(i, i.mtu);
        assert BridgePort(ifaces, i, b, q);
        PortListMember(ifaces, q);
      }
    }
  }

  lemma NotNamed(ifaces: seq<Iface>, net: Net, p: Primary, names: map<string, string>, q: Port, l: Iface)
    requires forall q, l :: !NamedLikeBond(ifaces, net, p, names, q, l)
    ensures q in ModelOf(ifaces, net, p).ports && l.kind == Lag && (exists b :: OnBridge(ifaces, l, b)) ==>
      q.id !in names || names[q.id] != l.name
  {
    assert !NamedLikeBond(ifaces, net, p, names, q, l);
  }

  lemma SameNameSameIface(ifaces: seq<Iface>, net: Net, p: Primary, links: seq<Link>, physical: set<string>,
                          names: map<string, string>, i: Iface, j: Iface)
    requires Rendered(ifaces, net, p, links, physical, names) && Enslaved(ifaces, i) && Enslaved(ifaces, j)
    requires LinuxName(ModelOf(ifaces, net, p), names, i.id) == LinuxName(ModelOf(ifaces, net, p), names, j.id)
    requires forall q, l :: !NamedLikeBond(ifaces, net, p, names, q, l)
    ensures i == j
  {
    EnslavedKinds(ifaces, net, p, i);
    EnslavedKinds(ifaces, net, p, j);
    hide ModelOf, Clean, Unique, Matched, Names, LinuxName, Enslaved;
    if i.kind == Lag { LagName(ifaces, net, p, links, physical, names, i); }
    if j.kind == Lag { LagName(ifaces, net, p, links, physical, names, j); }
    if q :| q in ModelOf(ifaces, net, p).ports && q.id == i.id {
      PortName(ifaces, net, p, links, physical, names, q);
      var k := PortIface(ifaces, net, p, q);
      SameIface(ifaces, i, k);
      if r :| r in ModelOf(ifaces, net, p).ports && r.id == j.id {
        PortNamesDiffer(ifaces, net, p, links, physical, names, q, r);
      } else {
        NotNamed(ifaces, net, p, names, q, j);
      }
    } else if r :| r in ModelOf(ifaces, net, p).ports && r.id == j.id {
      PortName(ifaces, net, p, links, physical, names, r);
      NotNamed(ifaces, net, p, names, r, i);
    }
    SameIface(ifaces, i, j);
  }

  lemma ClashIsShared(ifaces: seq<Iface>, net: Net, p: Primary, links: seq<Link>, physical: set<string>,
                      names: map<string, string>, q: Port, l: Iface, plain: nat)
    requires Rendered(ifaces, net, p, links, physical, names) && NamedLikeBond(ifaces, net, p, names, q, l)
    ensures !InjectiveOn((i: Iface) => LinuxName(ModelOf(ifaces, net, p), names, i.id), Groups(ifaces, plain))
  {
    hide ModelOf, Clean, Unique, Matched, Names, LinuxName, Groups;
    var i := PortIface(ifaces, net, p, q);
    GroupsHave(ifaces, plain, i);
    GroupsHave(ifaces, plain, l);
    PortName(ifaces, net, p, links, physical, names, q);
    LagName(ifaces, net, p, links, physical, names, l);
    var f := (i: Iface) => LinuxName(ModelOf(ifaces, net, p), names, i.id);
    assert f(i) == f(l) && i != l;
  }

  /** Nothing is enslaved twice in the file, iff no port's NIC has the name of
      a bond that is attached to a bridge. */
  lemma NothingEnslavedTwice(ifaces: seq<Iface>, net: Net, p: Primary, links: seq<Link>, physical: set<string>,
                             names: map<string, string>)
    requires Rendered(ifaces, net, p, links, physical, names)
    ensures Apart(EnslavedLists(Stanzas(ModelOf(ifaces, net, p), names))) <==>
      forall q, l :: !NamedLikeBond(ifaces, net, p, names, q, l)
  {
    var model := ModelOf(ifaces, net, p);
    var f := (i: Iface) => LinuxName(model, names, i.id);
    var plain := 1 + |model.ports|;
    hide ModelOf, Clean, Unique, Matched, Names, LinuxName, Groups, Apart, Stanzas;
    GroupsApart(ifaces, net, p, plain);
    StanzaImages(ifaces, net, p, names);
    ApartIffInjective(f, Groups(ifaces, plain), EnslavedLists(Stanzas(model, names)));
    if forall q, l :: !NamedLikeBond(ifaces, net, p, names, q, l) {
      forall i, j | InSome(Groups(ifaces, plain), i) && InSome(Groups(ifaces, plain), j) && f(i) == f(j)
        ensures i == j
      {
        GroupsHave(ifaces, plain, i);
        GroupsHave(ifaces, plain, j);
        SameNameSameIface(ifaces, net, p, links, physical, names, i, j);
      }
    } else {
      var q, l :| NamedLikeBond(ifaces, net, p, names, q, l);
      ClashIsShared(ifaces, net, p, links, physical, names, q, l, plain);
    }
  }
}

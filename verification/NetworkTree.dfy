/** When the rendered network configuration is a forest: one stanza for each
    name, one parent at most, and no cycle. That is so unless a NIC of the node
    is named like a bond or bridge of the model, or like the loopback. */
module NetworkTree {
  import opened Prelude
  import opened NetworkModel
  import opened NetworkMatch
  import opened NetworkRender
  import opened NetworkForest
  import opened NetworkOnce
  import opened NetworkSlaves

  /** One stanza for each name, every referenced name has one, no name has two
      parents, and every child ranks below its parent. */
  ghost predicate IsForest(st: seq<Stanza>) {
    && DistinctKeys(StanzaName, st)
    && (forall s :: s in st ==> Closed(st, s))
    && Apart(EnslavedLists(st))
    && (forall s, t :: s in st && t in st && StanzaName(t) in EnslavedBy(s) ==> Rank(t) < Rank(s))
  }

  /** The port's NIC has the name of the loopback or of a bond or bridge. */
  ghost predicate NameTaken(model: Model, names: map<string, string>, q: Port) {
    && q in model.ports && q.id in names
    && (names[q.id] == "lo"
        || (exists b :: b in model.bonds && b.name == names[q.id])
        || (exists b :: b in model.bridges && b.name == names[q.id]))
  }

  ghost predicate NamesFree(model: Model, names: map<string, string>) {
    forall q :: !NameTaken(model, names, q)
  }

  // ---- the names of the stanzas ---------------------------------------------------------

  lemma PortEntryAt(model: Model, names: map<string, string>, s: Stanza)
    ensures s in PortEntries(model, names) <==> exists q :: q in model.ports && s == PortEntry(model, names, q)
  {
    hide PortEntry, LinuxNameLe;
    MapMembers((p: Port) => PortEntry(model, names, p), SortedPorts(model, names), s);
    PermutationMembers(SortedPorts(model, names), model.ports);
  }

  lemma BondEntryAt(model: Model, names: map<string, string>, s: Stanza)
    ensures s in BondEntries(model, names) <==> exists b :: b in model.bonds && s == BondEntry(model, names, b)
  {
    hide BondEntry;
    MapMembers((b: Bond) => BondEntry(model, names, b), model.bonds, s);
  }

  lemma BridgeEntryAt(model: Model, names: map<string, string>, s: Stanza)
    ensures s in BridgeEntries(model, names) <==> exists b :: b in model.bridges && s == BridgeEntry(model, names, b)
  {
    hide BridgeEntry;
    MapMembers((b: BridgeModel) => BridgeEntry(model, names, b), model.bridges, s);
  }

  lemma PortStanzasDiffer(ifaces: seq<Iface>, net: Net, p: Primary, links: seq<Link>, physical: set<string>,
                          names: map<string, string>, q: Port, r: Port)
    requires Rendered(ifaces, net, p, links, physical, names)
    requires q in ModelOf(ifaces, net, p).ports && r in ModelOf(ifaces, net, p).ports && q != r
    ensures StanzaName(PortEntry(ModelOf(ifaces, net, p), names, q)) !=
            StanzaName(PortEntry(ModelOf(ifaces, net, p), names, r))
  {
    hide ModelOf, Rendered, LinuxName;
    PortNamesDiffer(ifaces, net, p, links, physical, names, q, r);
  }

  lemma SortedPortsNoDup(model: Model, names: map<string, string>)
    requires DistinctKeys(PortId, model.ports)
    ensures NoDup(SortedPorts(model, names)) && forall q :: q in SortedPorts(model, names) <==> q in model.ports
  {
    DistinctKeysNoDup(PortId, model.ports);
    NoDupPermutation(model.ports, SortedPorts(model, names));
    PermutationMembers(SortedPorts(model, names), model.ports);
  }

  lemma PortStanzasDistinct(ifaces: seq<Iface>, net: Net, p: Primary, links: seq<Link>, physical: set<string>,
                            names: map<string, string>)
    requires Rendered(ifaces, net, p, links, physical, names)
    ensures DistinctKeys(StanzaName, PortEntries(ModelOf(ifaces, net, p), names))
  {
    hide ModelOf, Rendered, SortedPorts, PortEntry, StanzaName;
    var model := ModelOf(ifaces, net, p);
    var ports := SortedPorts(model, names);
    RenderedParts(ifaces, net, p, links, physical, names);
    ModelPorts(ifaces, net, p);
    SortedPortsNoDup(model, names);
    forall i, j | 0 <= i < j < |ports|
      ensures StanzaName(PortEntry(model, names, ports[i])) != StanzaName(PortEntry(model, names, ports[j]))
    {
      assert ports[i] in ports && ports[j] in ports;
      PortStanzasDiffer(ifaces, net, p, links, physical, names, ports[i], ports[j]);
    }
    DistinctMap(StanzaName, (q: Port) => PortEntry(model, names, q), ports);
  }

  lemma BondStanzaName(net: Net, model: Model, names: map<string, string>, b: Iface, members: seq<Iface>)
    ensures StanzaName(BondEntry(model, names, BondOf(net, b, members))) == b.name
  {}

  lemma BridgeStanzaName(p: Primary, mgmt: Option<Iface>, model: Model, names: map<string, string>, b: Iface,
                         attached: seq<Iface>)
    ensures StanzaName(BridgeEntry(model, names, BridgeOf(p, mgmt, b, attached))) == b.name
  {}

  lemma BondStanzasDistinct(ifaces: seq<Iface>, net: Net, p: Primary, names: map<string, string>)
    requires Unique(ifaces)
    ensures DistinctKeys(StanzaName, BondEntries(ModelOf(ifaces, net, p), names))
  {
    var model := ModelOf(ifaces, net, p);
    var lags, entries := OfKind(ifaces, Lag), BondEntries(model, names);
    KindDistinct(ifaces, Lag);
    KindMembers(ifaces, Lag);
    hide ModelOf, OfKind, Members, BondOf, BondEntry, BondEntries, Unique;
    forall i, j | 0 <= i < j < |entries| ensures StanzaName(entries[i]) != StanzaName(entries[j]) {
      BondCount(ifaces, net, p, names);
      BondEntriesAt(ifaces, net, p, names, i);
      BondEntriesAt(ifaces, net, p, names, j);
      BondStanzaName(net, model, names, lags[i], Members(ifaces, lags[i].id));
      BondStanzaName(net, model, names, lags[j], Members(ifaces, lags[j].id));
      assert lags[i] in lags && lags[j] in lags;
      SameIface(ifaces, lags[i], lags[j]);
    }
  }

  lemma BondCount(ifaces: seq<Iface>, net: Net, p: Primary, names: map<string, string>)
    ensures |BondEntries(ModelOf(ifaces, net, p), names)| == |OfKind(ifaces, Lag)|
    ensures |BridgeEntries(ModelOf(ifaces, net, p), names)| == |OfKind(ifaces, Bridge)|
  {
    var model := ModelOf(ifaces, net, p);
    assert model.bonds == Bonds(ifaces, net) && model.bridges == Bridges(ifaces, p);
    hide ModelOf, OfKind;
  }

  lemma BridgeStanzasDistinct(ifaces: seq<Iface>, net: Net, p: Primary, names: map<string, string>)
    requires Unique(ifaces)
    ensures DistinctKeys(StanzaName, BridgeEntries(ModelOf(ifaces, net, p), names))
  {
    var model := ModelOf(ifaces, net, p);
    var bridges, entries := OfKind(ifaces, Bridge), BridgeEntries(model, names);
    KindDistinct(ifaces, Bridge);
    KindMembers(ifaces, Bridge);
    hide ModelOf, OfKind, Attached, BridgeOf, BridgeEntry, BridgeEntries, Mgmt, Unique;
    forall i, j | 0 <= i < j < |entries| ensures StanzaName(entries[i]) != StanzaName(entries[j]) {
      BondCount(ifaces, net, p, names);
      BridgeEntriesAt(ifaces, net, p, names, i);
      BridgeEntriesAt(ifaces, net, p, names, j);
      BridgeStanzaName(p, Mgmt(ifaces, p), model, names, bridges[i], Attached(ifaces, bridges[i].id));
      BridgeStanzaName(p, Mgmt(ifaces, p), model, names, bridges[j], Attached(ifaces, bridges[j].id));
      assert bridges[i] in bridges && bridges[j] in bridges;
      SameIface(ifaces, bridges[i], bridges[j]);
    }
  }

  lemma NumberedStem(name: string, stem: string, most: nat)
    requires IsNumbered(name, stem, most)
    ensures StartsWith(name, stem)
  {
    assert BeforeBreak(name) <= name;
  }

  lemma BondStem(ifaces: seq<Iface>, net: Net, p: Primary, b: Bond)
    requires Clean(ifaces, net, p) && b in ModelOf(ifaces, net, p).bonds
    ensures IsNumbered(b.name, "bond", 3)
  {
    assert ModelOf(ifaces, net, p).bonds == Bonds(ifaces, net);
    KindMembers(ifaces, Lag);
    BondMember(ifaces, net, b);
    hide ModelOf, OfKind, Members, Bonds, Mgmt, IsNumbered, BridgesOk, PrimaryOk, NoAddressLost;
    var l :| l in ifaces && l.kind == Lag && b == BondOf(net, l, Members(ifaces, l.id));
    assert BondOk(net, l, Members(ifaces, l.id));
  }

  lemma BridgeStem(ifaces: seq<Iface>, net: Net, p: Primary, b: BridgeModel)
    requires Clean(ifaces, net, p) && b in ModelOf(ifaces, net, p).bridges
    ensures IsNumbered(b.name, "vmbr", 4)
  {
    assert ModelOf(ifaces, net, p).bridges == Bridges(ifaces, p);
    KindMembers(ifaces, Bridge);
    BridgeMember(ifaces, p, b);
    hide ModelOf, OfKind, Attached, Bridges, Mgmt, IsNumbered, BondsOk, PrimaryOk, NoAddressLost;
    var l :| l in ifaces && l.kind == Bridge && b == BridgeOf(p, Mgmt(ifaces, p), l, Attached(ifaces, l.id));
    assert BridgeOk(ifaces, p, Mgmt(ifaces, p), l, Attached(ifaces, l.id));
  }

  /** Bonds are named bond<N>, bridges vmbr<N>. */
  lemma NameStems(ifaces: seq<Iface>, net: Net, p: Primary)
    requires Clean(ifaces, net, p)
    ensures forall b :: b in ModelOf(ifaces, net, p).bonds ==> StartsWith(b.name, "bond")
    ensures forall b :: b in ModelOf(ifaces, net, p).bridges ==> StartsWith(b.name, "vmbr")
  {
    hide ModelOf, Clean, IsNumbered;
    forall b | b in ModelOf(ifaces, net, p).bonds ensures StartsWith(b.name, "bond") {
      BondStem(ifaces, net, p, b);
      NumberedStem(b.name, "bond", 3);
    }
    forall b | b in ModelOf(ifaces, net, p).bridges ensures StartsWith(b.name, "vmbr") {
      BridgeStem(ifaces, net, p, b);
      NumberedStem(b.name, "vmbr", 4);
    }
  }

  lemma StemsDiffer(a: string, b: string)
    requires StartsWith(a, "bond") && StartsWith(b, "vmbr")
    ensures a != b && a != "lo" && b != "lo"
  {
    assert a[0] == 'b' && b[0] == 'v';
  }

  // ---- one stanza for each name -------------------------------------------------------------

  lemma BondBridgeApart(ifaces: seq<Iface>, net: Net, p: Primary, names: map<string, string>, x: Stanza, y: Stanza)
    requires Clean(ifaces, net, p)
    requires x in BondEntries(ModelOf(ifaces, net, p), names) && y in BridgeEntries(ModelOf(ifaces, net, p), names)
    ensures StanzaName(x) != StanzaName(y)
  {
    hide ModelOf, Clean, BondEntries, BridgeEntries;
    NameStems(ifaces, net, p);
    BondEntryAt(ModelOf(ifaces, net, p), names, x);
    BridgeEntryAt(ModelOf(ifaces, net, p), names, y);
    StemsDiffer(StanzaName(x), StanzaName(y));
  }

  lemma UpperDistinct(ifaces: seq<Iface>, net: Net, p: Primary, names: map<string, string>)
    requires Unique(ifaces) && Clean(ifaces, net, p)
    ensures var model := ModelOf(ifaces, net, p);
      DistinctKeys(StanzaName, BondEntries(model, names) + BridgeEntries(model, names))
  {
    hide ModelOf, Clean, Unique, BondEntries, BridgeEntries, DistinctKeys, StanzaName;
    var model := ModelOf(ifaces, net, p);
    BondStanzasDistinct(ifaces, net, p, names);
    BridgeStanzasDistinct(ifaces, net, p, names);
    forall x, y | x in BondEntries(model, names) && y in BridgeEntries(model, names)
      ensures StanzaName(x) != StanzaName(y)
    {
      BondBridgeApart(ifaces, net, p, names, x, y);
    }
    DistinctKeysConcat(StanzaName, BondEntries(model, names), BridgeEntries(model, names));
  }

  lemma PortStanzaFree(ifaces: seq<Iface>, net: Net, p: Primary, links: seq<Link>, physical: set<string>,
                       names: map<string, string>, x: Stanza)
    requires Rendered(ifaces, net, p, links, physical, names) && NamesFree(ModelOf(ifaces, net, p), names)
    requires x in PortEntries(ModelOf(ifaces, net, p), names)
    ensures StanzaName(x) != "lo"
    ensures forall b :: b in ModelOf(ifaces, net, p).bonds ==> b.name != StanzaName(x)
    ensures forall b :: b in ModelOf(ifaces, net, p).bridges ==> b.name != StanzaName(x)
  {
    hide ModelOf, Rendered, PortEntries, LinuxName;
    var model := ModelOf(ifaces, net, p);
    PortEntryAt(model, names, x);
    var q :| q in model.ports && x == PortEntry(model, names, q);
    PortName(ifaces, net, p, links, physical, names, q);
    assert !NameTaken(model, names, q);
  }

  lemma LowerDistinct(ifaces: seq<Iface>, net: Net, p: Primary, links: seq<Link>, physical: set<string>,
                      names: map<string, string>)
    requires Rendered(ifaces, net, p, links, physical, names) && NamesFree(ModelOf(ifaces, net, p), names)
    ensures DistinctKeys(StanzaName, [Loopback] + PortEntries(ModelOf(ifaces, net, p), names))
  {
    hide ModelOf, Rendered, NamesFree, PortEntries;
    var entries := PortEntries(ModelOf(ifaces, net, p), names);
    PortStanzasDistinct(ifaces, net, p, links, physical, names);
    forall y | y in entries ensures StanzaName(y) != "lo" {
      PortStanzaFree(ifaces, net, p, links, physical, names, y);
    }
    DistinctKeysConcat(StanzaName, [Loopback], entries);
  }

  lemma LevelsApart(ifaces: seq<Iface>, net: Net, p: Primary, links: seq<Link>, physical: set<string>,
                    names: map<string, string>, x: Stanza, y: Stanza)
    requires Rendered(ifaces, net, p, links, physical, names) && NamesFree(ModelOf(ifaces, net, p), names)
    requires x == Loopback || x in PortEntries(ModelOf(ifaces, net, p), names)
    requires y in BondEntries(ModelOf(ifaces, net, p), names) || y in BridgeEntries(ModelOf(ifaces, net, p), names)
    ensures StanzaName(x) != StanzaName(y)
  {
    hide ModelOf, Rendered, NamesFree, PortEntries, BondEntries, BridgeEntries;
    var model := ModelOf(ifaces, net, p);
    RenderedParts(ifaces, net, p, links, physical, names);
    NameStems(ifaces, net, p);
    BondEntryAt(model, names, y);
    BridgeEntryAt(model, names, y);
    assert "bond"[0] == 'b' && "vmbr"[0] == 'v' && "lo"[0] == 'l';
    if x != Loopback { PortStanzaFree(ifaces, net, p, links, physical, names, x); }
  }

  lemma StanzasSplit(model: Model, names: map<string, string>)
    ensures Stanzas(model, names) ==
      ([Loopback] + PortEntries(model, names)) + (BondEntries(model, names) + BridgeEntries(model, names))
  {}

  lemma FreeMeansDistinct(ifaces: seq<Iface>, net: Net, p: Primary, links: seq<Link>, physical: set<string>,
                          names: map<string, string>)
    requires Rendered(ifaces, net, p, links, physical, names) && NamesFree(ModelOf(ifaces, net, p), names)
    ensures DistinctKeys(StanzaName, Stanzas(ModelOf(ifaces, net, p), names))
  {
    hide ModelOf, Rendered, NamesFree, PortEntries, BondEntries, BridgeEntries, Stanzas, DistinctKeys;
    var model := ModelOf(ifaces, net, p);
    var low := [Loopback] + PortEntries(model, names);
    var high := BondEntries(model, names) + BridgeEntries(model, names);
    RenderedParts(ifaces, net, p, links, physical, names);
    LowerDistinct(ifaces, net, p, links, physical, names);
    UpperDistinct(ifaces, net, p, names);
    forall x, y | x in low && y in high ensures StanzaName(x) != StanzaName(y) {
      LevelsApart(ifaces, net, p, links, physical, names, x, y);
    }
    DistinctKeysConcat(StanzaName, low, high);
    StanzasSplit(model, names);
  }

  /** A taken name belongs to two stanzas. */
  lemma TakenTwice(model: Model, names: map<string, string>, q: Port)
    requires NameTaken(model, names, q) && LinuxName(model, names, q.id) == names[q.id]
    ensures exists s, t ::
      s in Stanzas(model, names) && t in Stanzas(model, names) && s != t && StanzaName(s) == StanzaName(t)
  {
    hide LinuxName, Stanzas;
    var entry := PortEntry(model, names, q);
    StanzaMember(model, names, entry);
    if names[q.id] == "lo" {
      StanzaMember(model, names, Loopback);
    } else if b :| b in model.bonds && b.name == names[q.id] {
      StanzaMember(model, names, BondEntry(model, names, b));
      assert StanzaName(BondEntry(model, names, b)) == StanzaName(entry);
    } else {
      var b :| b in model.bridges && b.name == names[q.id];
      StanzaMember(model, names, BridgeEntry(model, names, b));
      assert StanzaName(BridgeEntry(model, names, b)) == StanzaName(entry);
    }
  }

  lemma TwiceNotDistinct(st: seq<Stanza>, s: Stanza, t: Stanza)
    requires s in st && t in st && s != t && StanzaName(s) == StanzaName(t)
    ensures !DistinctKeys(StanzaName, st)
  {
    hide StanzaName;
    if DistinctKeys(StanzaName, st) { DistinctKeysSame(StanzaName, st, s, t); }
  }

  lemma TakenMeansTwo(ifaces: seq<Iface>, net: Net, p: Primary, links: seq<Link>, physical: set<string>,
                      names: map<string, string>, q: Port)
    requires Rendered(ifaces, net, p, links, physical, names) && NameTaken(ModelOf(ifaces, net, p), names, q)
    ensures !DistinctKeys(StanzaName, Stanzas(ModelOf(ifaces, net, p), names))
  {
    hide ModelOf, Rendered, Stanzas, DistinctKeys, LinuxName;
    var model := ModelOf(ifaces, net, p);
    PortName(ifaces, net, p, links, physical, names, q);
    TakenTwice(model, names, q);
    var s, t :| s in Stanzas(model, names) && t in Stanzas(model, names) && s != t && StanzaName(s) == StanzaName(t);
    TwiceNotDistinct(Stanzas(model, names), s, t);
  }

  /** Every name has one stanza, iff no port's NIC is named "lo" or like a bond
      or bridge of the model. */
  lemma OneStanzaPerName(ifaces: seq<Iface>, net: Net, p: Primary, links: seq<Link>, physical: set<string>,
                         names: map<string, string>)
    requires Rendered(ifaces, net, p, links, physical, names)
    ensures DistinctKeys(StanzaName, Stanzas(ModelOf(ifaces, net, p), names)) <==>
      NamesFree(ModelOf(ifaces, net, p), names)
  {
    hide ModelOf, Rendered, NameTaken, Stanzas, DistinctKeys;
    if NamesFree(ModelOf(ifaces, net, p), names) {
      FreeMeansDistinct(ifaces, net, p, links, physical, names);
    } else {
      var q :| NameTaken(ModelOf(ifaces, net, p), names, q);
      TakenMeansTwo(ifaces, net, p, links, physical, names, q);
    }
  }

  // ---- the forest ---------------------------------------------------------------------------

  /** With one stanza for each name, every child ranks below its parent. */
  lemma RankDrops(st: seq<Stanza>, s: Stanza, t: Stanza)
    requires DistinctKeys(StanzaName, st) && t in st && Closed(st, s) && StanzaName(t) in EnslavedBy(s)
    ensures Rank(t) < Rank(s)
  {
    hide DistinctKeys;
    var n := StanzaName(t);
    assert HasStanza(st, n, Rank(s));
    var u :| u in st && StanzaName(u) == n && Rank(u) < Rank(s);
    DistinctKeysSame(StanzaName, st, t, u);
  }

  /** A bond attached to a bridge is a bond of the model. */
  lemma LikeBondIsTaken(ifaces: seq<Iface>, net: Net, p: Primary, names: map<string, string>, q: Port, l: Iface)
    ensures NamedLikeBond(ifaces, net, p, names, q, l) ==> NameTaken(ModelOf(ifaces, net, p), names, q)
  {
    var model := ModelOf(ifaces, net, p);
    assert model.bonds == Bonds(ifaces, net);
    hide ModelOf, Bonds, Members;
    var b := BondOf(net, l, Members(ifaces, l.id));
    BondMember(ifaces, net, b);
    assert b.name == l.name;
  }

  /** The file is a forest, iff no port's NIC is named "lo" or like a bond or
      bridge of the model. */
  lemma ForestIffNamesFree(ifaces: seq<Iface>, net: Net, p: Primary, links: seq<Link>, physical: set<string>,
                           names: map<string, string>)
    requires Rendered(ifaces, net, p, links, physical, names)
    ensures IsForest(Stanzas(ModelOf(ifaces, net, p), names)) <==> NamesFree(ModelOf(ifaces, net, p), names)
  {
    var st := Stanzas(ModelOf(ifaces, net, p), names);
    hide ModelOf, Rendered, NameTaken, Stanzas, DistinctKeys, Closed, EnslavedBy, Apart, NamedLikeBond;
    OneStanzaPerName(ifaces, net, p, links, physical, names);
    if NamesFree(ModelOf(ifaces, net, p), names) {
      forall s | s in st ensures Closed(st, s) { EveryNameHasStanza(ifaces, net, p, links, physical, names, s); }
      forall q, l ensures !NamedLikeBond(ifaces, net, p, names, q, l) {
        LikeBondIsTaken(ifaces, net, p, names, q, l);
        assert NamesFree(ModelOf(ifaces, net, p), names) ==> !NameTaken(ModelOf(ifaces, net, p), names, q);
      }
      NothingEnslavedTwice(ifaces, net, p, links, physical, names);
      forall s, t | s in st && t in st && StanzaName(t) in EnslavedBy(s) ensures Rank(t) < Rank(s) {
        RankDrops(st, s, t);
      }
    }
  }
}

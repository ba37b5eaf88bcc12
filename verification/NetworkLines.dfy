/** The rendered file as a list of lines: it has nothing but what the entries that
    are read from it account for, brings every interface up, keeps its order, and
    ends with the drop-in directory. */
module NetworkLines {
  import opened Prelude
  import opened NetworkModel
  import opened NetworkRender
  import opened NetworkMatch
  import opened NetworkForest
  import opened NetworkOnce
  import opened NetworkTree
  import opened NetworkReader
  import opened NetworkOptions
  import opened NetworkRead
  import opened NetworkFile
  import opened NetworkSays

  // ---- how many lines there are -------------------------------------------------------------------

  function One<T>(o: Option<T>): nat { if o.Some? then 1 else 0 }

  function OptionCount(o: Options): nat {
    One(o.mtu) + One(o.miimon) + One(o.mode) + One(o.hash) + One(o.lacpRate) + One(o.primary) + One(o.address)
    + One(o.gateway) + One(o.stp) + One(o.forwardDelay) + One(o.vlanAware) + One(o.vids) + One(o.note)
  }

  /** The lines that an entry accounts for: two of its head, one with what it enslaves
      (a bond or a bridge), one for each option, and an empty one. */
  function EntryLines(e: Entry): nat {
    2 + (if e.options.mode.Some? || e.options.stp.Some? then 1 else 0) + OptionCount(e.options) + 1
  }

  function FileLines(es: seq<Entry>): nat { if es == [] then 0 else EntryLines(es[0]) + FileLines(es[1..]) }

  /** A bond has all the fields that a consistent topology gives it. */
  ghost predicate Sane(s: Stanza) {
    s.BondStanza? ==> s.miimon.Some? && !s.mode.UnknownMode? && s.hash != Some(UnknownHash)
  }

  lemma TailSize(mtu: Option<int>, comment: string)
    ensures |TailLines(mtu, comment)| == One(Given(mtu)) + One(NoteOf(comment))
  {
    NoteIsWords(comment);
    hide Strip, Squeeze, Words, Join;
  }

  lemma BondSize(s: Stanza)
    requires s.BondStanza? && Sane(s)
    ensures |BodyLines(s)| == 1 + OptionCount(OptionsOf(s)) && OptionsOf(s).mode.Some?
  {
    TailSize(s.mtu, s.comment);
    hide Given, NoteOf, TailLines, KeyLine, SlavesLine, MiimonLine;
  }

  lemma BridgeSize(s: Stanza)
    requires s.BridgeStanza?
    ensures |BodyLines(s)| == 1 + OptionCount(OptionsOf(s)) && OptionsOf(s).stp.Some?
  {
    TailSize(s.mtu, s.comment);
    hide Given, NoteOf, TailLines, KeyLine, PortsLine;
  }

  lemma PortSize(s: Stanza)
    requires s.PortStanza? || s.Loopback?
    ensures |BodyLines(s)| == OptionCount(OptionsOf(s)) && OptionsOf(s).mode == None && OptionsOf(s).stp == None
  {
    if s.PortStanza? { TailSize(s.mtu, s.comment); }
    hide Given, NoteOf, TailLines;
  }

  lemma BlockSize(s: Stanza)
    requires Sane(s)
    ensures |Block(s)| == EntryLines(EntryOf(s))
  {
    BlockShape(s, []);
    assert Block(s) + [] == Block(s);
    hide BodyLines, OptionsOf, OptionCount, Block;
    if s.BondStanza? {
      BondSize(s);
    } else if s.BridgeStanza? {
      BridgeSize(s);
    } else {
      PortSize(s);
    }
  }

  lemma {:induction false} BlocksSize(st: seq<Stanza>)
    requires forall s :: s in st ==> Sane(s)
    ensures |FlatMap(Block, st)| == FileLines(Map(EntryOf, st))
  {
    hide Sane, Block, EntryOf, EntryLines;
    if st == [] {
    } else {
      assert st[0] in st && forall s :: s in st[1..] ==> s in st;
      BlockSize(st[0]);
      BlocksSize(st[1..]);
      assert Map(EntryOf, st)[1..] == Map(EntryOf, st[1..]);
    }
  }

  // ---- what is brought up ---------------------------------------------------------------------------

  /** The interfaces that a line brings up when the node starts. */
  function AutoOf(line: string): seq<string> {
    var words := Split(' ', line);
    if words[0] == "auto" then words[1..] else []
  }

  /** The line begins with a mark, or has none of its letters. */
  ghost predicate Marked(line: string) { line == "" || line[0] == '\t' || line[0] == '#' }

  ghost predicate AllMarked(lines: seq<string>) { forall l :: l in lines ==> Marked(l) }

  lemma MarkedKeys()
    ensures forall key, value :: Marked(KeyLine(key, value))
  {}

  lemma MarkedTail(mtu: Option<int>, comment: string)
    ensures AllMarked(TailLines(mtu, comment))
  {
    MarkedKeys();
    hide KeyLine, Strip, Squeeze, IntText;
    forall t: string ensures Marked("#" + t) {}
    hide Marked;
  }

  lemma MarkedParts(s: Stanza)
    requires s.BondStanza?
    ensures AllMarked(HashLines(s.hash)) && AllMarked(RateLines(s.lacpRate)) && AllMarked(PrimaryLines(s.primary))
    ensures AllMarked([SlavesLine(s.slaves)]) && AllMarked([MiimonLine(s.miimon)])
    ensures AllMarked([KeyLine("bond-mode", ModeText(s.mode))])
  {
    MarkedKeys();
    hide KeyLine, Marked, Join, ModeText, HashText, RateText, IntText;
  }

  lemma MarkedBond(s: Stanza)
    requires s.BondStanza?
    ensures AllMarked(BodyLines(s))
  {
    MarkedParts(s);
    MarkedTail(s.mtu, s.comment);
    hide KeyLine, Marked, SlavesLine, MiimonLine, HashLines, RateLines, PrimaryLines, TailLines, ModeText;
  }

  lemma MarkedBridge(s: Stanza)
    requires s.BridgeStanza?
    ensures AllMarked(BodyLines(s))
  {
    MarkedKeys();
    MarkedTail(s.mtu, s.comment);
    hide KeyLine, Marked, TailLines, Join;
    assert AllMarked(AddressLines(s.address, s.gateway)) && AllMarked(VlanLines(s.vids));
    assert AllMarked([PortsLine(s.ports)]);
    hide AddressLines, VlanLines, PortsLine;
  }

  lemma MarkedBody(s: Stanza)
    ensures AllMarked(BodyLines(s))
  {
    match s {
      case Loopback =>
      case PortStanza(_, mtu, comment) => MarkedTail(mtu, comment);
      case BondStanza(_, _, _, _, _, _, _, _, _) => MarkedBond(s);
      case BridgeStanza(_, _, _, _, _, _, _) => MarkedBridge(s);
    }
  }

  lemma MarkedIsNotAuto(line: string)
    requires Marked(line)
    ensures AutoOf(line) == []
  {
    assert "auto"[0] == 'a';
    if line == "" {
      SplitEmpty(' ');
    } else {
      SplitHead(' ', line);
      assert Split(' ', line)[0] == [line[0]] + Split(' ', line[1..])[0];
    }
  }

  lemma {:induction false} MarkedLines(lines: seq<string>)
    requires AllMarked(lines)
    ensures FlatMap(AutoOf, lines) == []
  {
    hide AutoOf, Marked;
    if lines == [] {
    } else {
      assert lines[0] in lines && forall l :: l in lines[1..] ==> l in lines;
      assert AllMarked(lines[1..]);
      MarkedIsNotAuto(lines[0]);
      MarkedLines(lines[1..]);
    }
  }

  lemma HeadAutos(name: string, way: string)
    requires ' ' !in name
    ensures AutoOf("auto " + name) == [name] && AutoOf("iface " + name + " inet " + way) == []
  {
    var auto, iface := "auto " + name, "iface " + name + " inet " + way;
    assert auto == "auto" + [' '] + name && iface == "iface" + [' '] + (name + " inet " + way);
    SplitAtSeparator(' ', "auto", name);
    SplitAtSeparator(' ', "iface", name + " inet " + way);
    SplitWord(' ', name);
    hide Split;
    assert (["auto"] + [name])[1..] == [name];
    assert |"auto"| == 4 && |"iface"| == 5;
  }

  lemma BlockAutos(s: Stanza)
    requires Readable(s)
    ensures FlatMap(AutoOf, Block(s)) == [StanzaName(s)]
  {
    hide *;
    var name, way := StanzaName(s), Way(s);
    var auto, iface := "auto " + name, "iface " + name + " inet " + way;
    NameIsWord(s);
    HeadAutos(name, way);
    MarkedBody(s);
    MarkedSnoc(BodyLines(s));
    MarkedLines(BodyLines(s) + [""]);
    BlockShape(s, []);
    var all := Block(s) + [];
    assert all == Block(s);
    assert all == [] + [auto] + [iface] + (BodyLines(s) + ([""] + []));
    assert [""] + [] == [""];
    FlatMapAppend(AutoOf, [] + [auto] + [iface], BodyLines(s) + [""]);
    FlatMapSnoc(AutoOf, [] + [auto], iface);
    FlatMapSnoc(AutoOf, [], auto);
    NoAutos();
    assert [] + [name] + [] + [] == [name];
  }

  lemma NoAutos()
    ensures FlatMap(AutoOf, []) == []
  {}

  lemma MarkedSnoc(lines: seq<string>)
    requires AllMarked(lines)
    ensures AllMarked(lines + [""])
  {}

  lemma {:induction false} BlocksAutos(st: seq<Stanza>)
    requires forall s :: s in st ==> Readable(s)
    ensures FlatMap(AutoOf, FlatMap(Block, st)) == Map(StanzaName, st)
  {
    hide AutoOf, Block, Readable, StanzaName;
    if st == [] {
    } else {
      assert st[0] in st && forall s :: s in st[1..] ==> s in st;
      BlockAutos(st[0]);
      BlocksAutos(st[1..]);
      FlatMapAppend(AutoOf, Block(st[0]), FlatMap(Block, st[1..]));
    }
  }

  // ---- the order ----------------------------------------------------------------------------------------

  /** Loopback, ports, bonds, bridges. */
  function Level(e: Entry): nat {
    if e.way == "loopback" then 0 else if e.options.mode.Some? then 2 else if e.options.stp.Some? then 3 else 1
  }

  /** Lower kinds come first, and within a kind lower names. */
  ghost predicate Ordered(es: seq<Entry>) {
    forall i, j :: 0 <= i < j < |es| ==>
      Level(es[i]) < Level(es[j]) || (Level(es[i]) == Level(es[j]) && StrLe(es[i].name, es[j].name))
  }

  ghost predicate OfLevel(es: seq<Entry>, level: nat) { forall i :: 0 <= i < |es| ==> Level(es[i]) <= level }

  lemma OrderedJoins(a: seq<Entry>, b: seq<Entry>, level: nat)
    requires Ordered(a) && Ordered(b) && OfLevel(a, level) && forall i :: 0 <= i < |b| ==> Level(b[i]) == level + 1
    ensures Ordered(a + b) && OfLevel(a + b, level + 1)
  {
    hide Level, StrLe;
    var all := a + b;
    assert forall i :: 0 <= i < |all| ==> all[i] == if i < |a| then a[i] else b[i - |a|];
  }

  lemma StanzaLevel(s: Stanza)
    requires Sane(s)
    ensures Level(EntryOf(s)) ==
      if s.Loopback? then 0 else if s.PortStanza? then 1 else if s.BondStanza? then 2 else 3
    ensures EntryOf(s).name == StanzaName(s)
  {
    assert "manual"[0] == 'm' && "loopback"[0] == 'l' && "static"[0] == 's';
    hide NoteOf, Given, GivenText;
  }

  /** Stanzas of one kind, with ascending names. */
  ghost predicate Ascending(st: seq<Stanza>, level: nat) {
    && (forall s :: s in st ==> Sane(s) && Level(EntryOf(s)) == level)
    && forall i, j :: 0 <= i < j < |st| ==> StrLe(StanzaName(st[i]), StanzaName(st[j]))
  }

  lemma AscendingIsOrdered(st: seq<Stanza>, level: nat)
    requires Ascending(st, level)
    ensures var es := Map(EntryOf, st);
      Ordered(es) && forall i :: 0 <= i < |es| ==> Level(es[i]) == level
  {
    hide Level, StrLe, EntryOf, Sane, StanzaName;
    forall i | 0 <= i < |st|
      ensures Map(EntryOf, st)[i] == EntryOf(st[i]) && Level(EntryOf(st[i])) == level
      ensures EntryOf(st[i]).name == StanzaName(st[i])
    {
      MapAt(EntryOf, st, i);
      assert st[i] in st;
      StanzaLevel(st[i]);
    }
  }

  lemma PortsAscend(model: Model, names: map<string, string>)
    ensures Ascending(PortEntries(model, names), 1)
  {
    var ports, st := SortedPorts(model, names), PortEntries(model, names);
    hide StrLe, Level, EntryOf, Sane, SortedPorts, StanzaName;
    forall i | 0 <= i < |ports|
      ensures Sane(st[i]) && Level(EntryOf(st[i])) == 1 && StanzaName(st[i]) == LinuxName(model, names, ports[i].id)
    {
      MapAt((p: Port) => PortEntry(model, names, p), ports, i);
      PortIsSane(model, names, ports[i]);
    }
    forall i, j | 0 <= i < j < |ports| ensures StrLe(StanzaName(st[i]), StanzaName(st[j])) {
      PortsSorted(model, names, i, j);
    }
  }

  lemma PortIsSane(model: Model, names: map<string, string>, p: Port)
    ensures var s := PortEntry(model, names, p);
      s.PortStanza? && Sane(s) && Level(EntryOf(s)) == 1 && StanzaName(s) == LinuxName(model, names, p.id)
  {
    hide LinuxName, Level, EntryOf;
    StanzaLevel(PortEntry(model, names, p));
  }

  lemma PortsSorted(model: Model, names: map<string, string>, i: nat, j: nat)
    requires i < j < |SortedPorts(model, names)|
    ensures var ports := SortedPorts(model, names);
      StrLe(LinuxName(model, names, ports[i].id), LinuxName(model, names, ports[j].id))
  {
    hide LinuxName, StrLe, Sort;
    StrLeOrders();
    SortSorted((a: Port, b: Port) => LinuxNameLe(model, names, a, b), model.ports);
  }

  lemma BondsAscend(ifaces: seq<Iface>, net: Net, p: Primary, names: map<string, string>)
    requires Clean(ifaces, net, p)
    ensures Ascending(BondEntries(ModelOf(ifaces, net, p), names), 2)
  {
    hide *;
    var model := ModelOf(ifaces, net, p);
    var lags, st := OfKind(ifaces, Lag), BondEntries(model, names);
    KindSorted(ifaces, Lag);
    KindMembers(ifaces, Lag);
    BondCount(ifaces, net, p, names);
    forall i | 0 <= i < |st| ensures StanzaName(st[i]) == lags[i].name && Sane(st[i]) && Level(EntryOf(st[i])) == 2 {
      BondEntriesAt(ifaces, net, p, names, i);
      BondStanzaName(net, model, names, lags[i], Members(ifaces, lags[i].id));
      assert lags[i] in lags;
      BondIsSane(ifaces, net, p, names, lags[i]);
    }
    NamesAscend(st, lags, 2);
  }

  lemma BridgesAscend(ifaces: seq<Iface>, net: Net, p: Primary, names: map<string, string>)
    ensures Ascending(BridgeEntries(ModelOf(ifaces, net, p), names), 3)
  {
    hide *;
    var model := ModelOf(ifaces, net, p);
    var found, st := OfKind(ifaces, Bridge), BridgeEntries(model, names);
    KindSorted(ifaces, Bridge);
    BondCount(ifaces, net, p, names);
    forall i | 0 <= i < |st| ensures StanzaName(st[i]) == found[i].name && Sane(st[i]) && Level(EntryOf(st[i])) == 3 {
      BridgeEntriesAt(ifaces, net, p, names, i);
      BridgeStanzaName(p, Mgmt(ifaces, p), model, names, found[i], Attached(ifaces, found[i].id));
      BridgeIsSane(p, Mgmt(ifaces, p), model, names, found[i], Attached(ifaces, found[i].id));
    }
    NamesAscend(st, found, 3);
  }

  lemma NamesAscend(st: seq<Stanza>, s: seq<Iface>, level: nat)
    requires |st| == |s| && Sorted(NameLe, s)
    requires forall i :: 0 <= i < |st| ==>
      StanzaName(st[i]) == s[i].name && Sane(st[i]) && Level(EntryOf(st[i])) == level
    ensures Ascending(st, level)
  {
    hide StanzaName, Sane, Level, EntryOf, StrLe;
  }

  lemma KindSorted(ifaces: seq<Iface>, kind: Kind)
    ensures Sorted(NameLe, OfKind(ifaces, kind))
  {
    NameOrder();
    SortSorted(NameLe, Filter((i: Iface) => i.kind == kind, ifaces));
  }

  lemma BondIsSane(ifaces: seq<Iface>, net: Net, p: Primary, names: map<string, string>, b: Iface)
    requires Clean(ifaces, net, p) && b in ifaces && b.kind == Lag
    ensures var s := BondEntry(ModelOf(ifaces, net, p), names, BondOf(net, b, Members(ifaces, b.id)));
      s.BondStanza? && Sane(s) && Level(EntryOf(s)) == 2
  {
    hide Members, LinuxName, Sort, Level, EntryOf, ModelOf, Clean, IsNumbered, BondMtu;
    BondIsOk(ifaces, net, p, b);
    StanzaLevel(BondEntry(ModelOf(ifaces, net, p), names, BondOf(net, b, Members(ifaces, b.id))));
  }

  lemma BridgeIsSane(p: Primary, mgmt: Option<Iface>, model: Model, names: map<string, string>, b: Iface,
                     attached: seq<Iface>)
    ensures var s := BridgeEntry(model, names, BridgeOf(p, mgmt, b, attached));
      s.BridgeStanza? && Sane(s) && Level(EntryOf(s)) == 3
  {
    hide LinuxName, Level, EntryOf;
    StanzaLevel(BridgeEntry(model, names, BridgeOf(p, mgmt, b, attached)));
  }

  // ---- the whole file ---------------------------------------------------------------------------------------

  lemma StanzasAre(model: Model, names: map<string, string>)
    ensures Stanzas(model, names) ==
      [Loopback] + PortEntries(model, names) + BondEntries(model, names) + BridgeEntries(model, names)
  {}

  lemma LoopbackFirst()
    ensures Ordered(Map(EntryOf, [Loopback])) && OfLevel(Map(EntryOf, [Loopback]), 0) && Sane(Loopback)
  {
    StanzaLevel(Loopback);
    MapAt(EntryOf, [Loopback], 0);
    hide Level, EntryOf;
  }

  lemma StanzasOrdered(ifaces: seq<Iface>, net: Net, p: Primary, names: map<string, string>)
    requires Clean(ifaces, net, p)
    ensures var st := Stanzas(ModelOf(ifaces, net, p), names);
      Ordered(Map(EntryOf, st)) && forall s :: s in st ==> Sane(s)
  {
    hide *;
    var model := ModelOf(ifaces, net, p);
    var ports, bonds, bridges := PortEntries(model, names), BondEntries(model, names), BridgeEntries(model, names);
    LoopbackFirst();
    PortsAscend(model, names);
    BondsAscend(ifaces, net, p, names);
    BridgesAscend(ifaces, net, p, names);
    AscendingIsOrdered(ports, 1);
    AscendingIsOrdered(bonds, 2);
    AscendingIsOrdered(bridges, 3);
    OrderedJoins(Map(EntryOf, [Loopback]), Map(EntryOf, ports), 0);
    OrderedJoins(Map(EntryOf, [Loopback]) + Map(EntryOf, ports), Map(EntryOf, bonds), 1);
    OrderedJoins(Map(EntryOf, [Loopback]) + Map(EntryOf, ports) + Map(EntryOf, bonds), Map(EntryOf, bridges), 2);
    MapAppend(EntryOf, [Loopback], ports);
    MapAppend(EntryOf, [Loopback] + ports, bonds);
    MapAppend(EntryOf, [Loopback] + ports + bonds, bridges);
    StanzasAre(model, names);
    AscendingSane(ports, 1);
    AscendingSane(bonds, 2);
    AscendingSane(bridges, 3);
  }

  lemma AscendingSane(st: seq<Stanza>, level: nat)
    requires Ascending(st, level)
    ensures forall s :: s in st ==> Sane(s)
  {}

  /** The file is its header, what its entries account for, and the drop-in directory;
      it brings up every interface that it has, and no other beyond its header's. The
      loopback interface comes first, then the ports, the bonds and the bridges, each
      by name. */
  lemma NothingElse(header: string, ifaces: seq<Iface>, net: Net, p: Primary, links: seq<Link>,
                    physical: set<string>, names: map<string, string>)
    requires Rendered(ifaces, net, p, links, physical, names) && Unharmed(header, ifaces, net, p, names)
    ensures var text := Render(header, ModelOf(ifaces, net, p), names);
      var lines, head, es := Split('\n', text), Split('\n', header), ReadFile(text);
      && |lines| == |head| + FileLines(es) + 2
      && lines[..|head|] == head && lines[|lines| - 2..] == ["source " + "/etc/network/interfaces.d/*", ""]
      && FlatMap(AutoOf, lines) == FlatMap(AutoOf, head) + Map((e: Entry) => e.name, es)
      && Ordered(es)
  {
    hide *;
    var model := ModelOf(ifaces, net, p);
    var st, head, end := Stanzas(model, names), Split('\n', header), Split('\n', SOURCE_LINE);
    UnharmedIs(header, ifaces, net, p, names);
    RenderedParts(ifaces, net, p, links, physical, names);
    ReadsBackIff(header, ifaces, net, p, links, physical, names);
    ReadsBackIs(header, model, names);
    StanzasOrdered(ifaces, net, p, names);
    forall s | s in st ensures Readable(s) { RenderedReadable(ifaces, net, p, links, physical, names, s); }
    FileSplits(header, model, names);
    BlocksSize(st);
    BlocksAutos(st);
    EndIs();
    NamesOf(st);
    var blocks := FlatMap(Block, st);
    FlatMapAppend(AutoOf, head, blocks + end);
    FlatMapAppend(AutoOf, blocks, end);
    LastTwo(head, blocks, end);
    assert FlatMap(AutoOf, blocks) + [] == FlatMap(AutoOf, blocks);
  }

  lemma UnharmedIs(header: string, ifaces: seq<Iface>, net: Net, p: Primary, names: map<string, string>)
    requires Unharmed(header, ifaces, net, p, names)
    ensures HeaderOk(header) && Unbroken(ModelOf(ifaces, net, p)) && NoLoneNone(ModelOf(ifaces, net, p), names)
  {}

  lemma ReadsBackIs(header: string, model: Model, names: map<string, string>)
    ensures ReadsBack(header, model, names) <==>
      ReadFile(Render(header, model, names)) == Map(EntryOf, Stanzas(model, names))
  {}

  lemma SourceAutos()
    ensures AutoOf("source" + " " + DROP_INS) == []
  {
    SplitAtSeparator(' ', "source", DROP_INS);
    hide Split;
    assert "source" + " " + DROP_INS == "source" + [' '] + DROP_INS;
    assert |"source"| == 6 && |"auto"| == 4;
  }

  lemma EmptyIsMarked()
    ensures Marked("")
  {}

  lemma SourceText()
    ensures "source" + " " + DROP_INS == "source " + "/etc/network/interfaces.d/*"
  {
    assert "source" + " " == "source ";
  }

  lemma EndIs()
    ensures var end := Split('\n', SOURCE_LINE);
      end == ["source " + "/etc/network/interfaces.d/*", ""] && FlatMap(AutoOf, end) == []
  {
    hide *;
    SourceSplits();
    SourceAutos();
    SourceText();
    NoAutos();
    EmptyIsMarked();
    MarkedIsNotAuto("");
    var line := "source" + " " + DROP_INS;
    FlatMapSnoc(AutoOf, [] + [line], "");
    FlatMapSnoc(AutoOf, [], line);
    assert [line, ""] == [] + [line] + [""];
  }

  lemma {:induction false} NamesOf(st: seq<Stanza>)
    ensures Map((e: Entry) => e.name, Map(EntryOf, st)) == Map(StanzaName, st)
  {
    hide OptionsOf, StanzaName;
    if st == [] {
    } else {
      NamesOf(st[1..]);
      var es := Map(EntryOf, st);
      assert es[0] == EntryOf(st[0]) && es[1..] == Map(EntryOf, st[1..]);
    }
  }

  lemma LastTwo(a: seq<string>, b: seq<string>, end: seq<string>)
    requires |end| == 2
    ensures var all := a + (b + end);
      |all| == |a| + |b| + 2 && all[..|a|] == a && all[|all| - 2..] == end
  {}
}

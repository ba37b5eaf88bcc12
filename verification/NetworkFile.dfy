/** When the rendered file says what the model says, read line by line, and is a
    forest: the exact condition on the names of the bonds, the bridges and the
    node's NICs. */
module NetworkFile {
  import opened Prelude
  import opened NetworkModel
  import opened NetworkMatch
  import opened NetworkRender
  import opened NetworkForest
  import opened NetworkOnce
  import opened NetworkSlaves
  import opened NetworkTree
  import opened NetworkReader
  import opened NetworkOptions
  import opened NetworkRead
  import VlanRanges

  // ---- what a rendered topology reads as --------------------------------------------------------

  /** No bond and no bridge has a name that ends in a line break. */
  ghost predicate Unbroken(model: Model) {
    && (forall b :: b in model.bonds ==> !EndsWith(b.name, "\n"))
    && (forall b :: b in model.bridges ==> !EndsWith(b.name, "\n"))
  }

  /** No bridge has as its one port a NIC named "none". */
  ghost predicate NoLoneNone(model: Model, names: map<string, string>) {
    forall b :: b in model.bridges ==> BridgeEntry(model, names, b).ports != ["none"]
  }

  lemma NumberedWord(name: string, stem: string, most: nat)
    requires IsNumbered(name, stem, most) && !EndsWith(name, "\n") && OneWord(stem)
    ensures OneWord(name)
  {
    var digits := name[|stem|..];
    assert stem == name[..|stem|];
    forall i | 0 <= i < |name| ensures !IsSpace(name[i]) {
      if i < |stem| {
        assert name[i] == stem[i];
      } else {
        assert IsDigit(digits[i - |stem|]) && name[i] == digits[i - |stem|];
      }
    }
  }

  lemma NicIsWord(ifaces: seq<Iface>, net: Net, p: Primary, links: seq<Link>, physical: set<string>,
                  names: map<string, string>, q: Port)
    requires Rendered(ifaces, net, p, links, physical, names) && q in ModelOf(ifaces, net, p).ports
    ensures OneWord(LinuxName(ModelOf(ifaces, net, p), names, q.id))
  {
    PortName(ifaces, net, p, links, physical, names, q);
    hide ModelOf, Clean, Unique, Matched, Names, LinuxName, OneWord;
    NamesAreInjective(names, ModelOf(ifaces, net, p).ports, links, physical, q, q);
  }

  lemma StemWords()
    ensures OneWord("bond") && OneWord("vmbr") && OneWord("lo")
  {}

  lemma BondNameWord(ifaces: seq<Iface>, net: Net, p: Primary, b: Bond)
    requires Clean(ifaces, net, p) && Unbroken(ModelOf(ifaces, net, p)) && b in ModelOf(ifaces, net, p).bonds
    ensures OneWord(b.name)
  {
    hide ModelOf, Clean, IsNumbered, OneWord;
    BondStem(ifaces, net, p, b);
    StemWords();
    NumberedWord(b.name, "bond", 3);
  }

  lemma BridgeNameWord(ifaces: seq<Iface>, net: Net, p: Primary, b: BridgeModel)
    requires Clean(ifaces, net, p) && Unbroken(ModelOf(ifaces, net, p)) && b in ModelOf(ifaces, net, p).bridges
    ensures OneWord(b.name)
  {
    hide ModelOf, Clean, IsNumbered, OneWord;
    BridgeStem(ifaces, net, p, b);
    StemWords();
    NumberedWord(b.name, "vmbr", 4);
  }

  /** Every stanza's name is one word. */
  lemma StanzaNameWord(ifaces: seq<Iface>, net: Net, p: Primary, links: seq<Link>, physical: set<string>,
                       names: map<string, string>, s: Stanza)
    requires Rendered(ifaces, net, p, links, physical, names) && Unbroken(ModelOf(ifaces, net, p))
    requires s in Stanzas(ModelOf(ifaces, net, p), names)
    ensures OneWord(StanzaName(s))
  {
    RenderedParts(ifaces, net, p, links, physical, names);
    hide ModelOf, Rendered, Clean, Unique, LinuxName, Stanzas, OneWord, Unbroken;
    var model := ModelOf(ifaces, net, p);
    StanzaMember(model, names, s);
    StemWords();
    if q :| q in model.ports && s == PortEntry(model, names, q) {
      NicIsWord(ifaces, net, p, links, physical, names, q);
    } else if b :| b in model.bonds && s == BondEntry(model, names, b) {
      BondNameWord(ifaces, net, p, b);
    } else if b :| b in model.bridges && s == BridgeEntry(model, names, b) {
      BridgeNameWord(ifaces, net, p, b);
    }
  }

  lemma ChildWord(ifaces: seq<Iface>, net: Net, p: Primary, links: seq<Link>, physical: set<string>,
                  names: map<string, string>, n: string, below: nat)
    requires Rendered(ifaces, net, p, links, physical, names) && Unbroken(ModelOf(ifaces, net, p))
    requires HasStanza(Stanzas(ModelOf(ifaces, net, p), names), n, below)
    ensures OneWord(n)
  {
    hide ModelOf, Rendered, Stanzas, OneWord, Unbroken, StanzaName, Rank;
    var s :| s in Stanzas(ModelOf(ifaces, net, p), names) && StanzaName(s) == n && Rank(s) < below;
    StanzaNameWord(ifaces, net, p, links, physical, names, s);
  }

  /** Every name that a stanza refers to is one word. */
  lemma ChildWords(ifaces: seq<Iface>, net: Net, p: Primary, links: seq<Link>, physical: set<string>,
                   names: map<string, string>, s: Stanza)
    requires Rendered(ifaces, net, p, links, physical, names) && Unbroken(ModelOf(ifaces, net, p))
    requires s in Stanzas(ModelOf(ifaces, net, p), names)
    ensures forall n :: n in EnslavedBy(s) ==> OneWord(n)
    ensures s.BondStanza? && s.primary.Some? ==> OneWord(s.primary.value)
  {
    hide ModelOf, Rendered, Stanzas, OneWord, Unbroken, HasStanza, Rank;
    EveryNameHasStanza(ifaces, net, p, links, physical, names, s);
    forall n | n in EnslavedBy(s) ensures OneWord(n) {
      ChildWord(ifaces, net, p, links, physical, names, n, Rank(s));
    }
  }

  lemma SlavesNotEmpty(ifaces: seq<Iface>, net: Net, p: Primary, names: map<string, string>, b: Bond)
    requires Clean(ifaces, net, p) && b in ModelOf(ifaces, net, p).bonds
    ensures BondEntry(ModelOf(ifaces, net, p), names, b).slaves != []
  {
    assert ModelOf(ifaces, net, p).bonds == Bonds(ifaces, net);
    KindMembers(ifaces, Lag);
    BondMember(ifaces, net, b);
    hide ModelOf, OfKind, Members, Bonds, Mgmt, IsNumbered, BridgesOk, PrimaryOk, NoAddressLost, LinuxName;
    var l :| l in ifaces && l.kind == Lag && b == BondOf(net, l, Members(ifaces, l.id));
    assert BondOk(net, l, Members(ifaces, l.id));
    assert |b.members| == |Members(ifaces, l.id)|;
  }

  lemma VidTextLacks(vids: seq<nat>)
    ensures '\n' !in VlanRanges.VidText(vids)
  {
    var rs := VlanRanges.Ranges(vids);
    ItemsLack(rs);
    hide VlanRanges.Ranges;
    JoinLacks(VlanRanges.Items(rs));
  }

  lemma {:induction false} ItemsLack(rs: seq<VlanRanges.Range>)
    ensures forall t :: t in VlanRanges.Items(rs) ==> '\n' !in t
  {
    if rs == [] {
    } else {
      ItemsLack(rs[1..]);
      VlanRanges.DigitsAvoid(rs[0].lo, '\n');
      VlanRanges.DigitsAvoid(rs[0].hi, '\n');
    }
  }

  lemma VidsLack(i: Iface)
    ensures VidsOf(i).Some? ==> '\n' !in VidsOf(i).value
  {
    VidTextLacks(i.taggedVids);
  }

  /** Address, gateway and VLANs of a bridge are single lines. */
  predicate LineTexts(address: Option<string>, gateway: Option<string>, vids: Option<string>) {
    && (address.Some? ==> '\n' !in address.value)
    && (gateway.Some? ==> '\n' !in gateway.value)
    && (vids.Some? ==> '\n' !in vids.value)
  }

  lemma BridgeOfTexts(p: Primary, mgmt: Option<Iface>, l: Iface, attached: seq<Iface>)
    requires OneWord(p.address) && p.gateway.Some? && OneWord(p.gateway.value)
    ensures var b := BridgeOf(p, mgmt, l, attached); LineTexts(b.address, b.gateway, b.vids)
  {
    WordChars(p.address);
    WordChars(p.gateway.value);
    VidsLack(l);
    hide OneWord, VidsOf;
  }

  lemma PrimaryTexts(ifaces: seq<Iface>, net: Net, p: Primary)
    requires Clean(ifaces, net, p)
    ensures OneWord(p.address) && p.gateway.Some? && OneWord(p.gateway.value)
  {
    hide OneWord, Mgmt, BondsOk, BridgesOk, NoAddressLost;
  }

  lemma BridgeTexts(ifaces: seq<Iface>, net: Net, p: Primary, b: BridgeModel)
    requires Clean(ifaces, net, p) && b in ModelOf(ifaces, net, p).bridges
    ensures LineTexts(b.address, b.gateway, b.vids)
  {
    hide *;
    ModelParts(ifaces, net, p);
    PrimaryTexts(ifaces, net, p);
    BridgeMember(ifaces, p, b);
    var l :| l in ifaces && l.kind == Bridge && b == BridgeOf(p, Mgmt(ifaces, p), l, Attached(ifaces, l.id));
    BridgeOfTexts(p, Mgmt(ifaces, p), l, Attached(ifaces, l.id));
  }

  lemma ReadableBy(s: Stanza)
    requires OneWord(StanzaName(s)) && forall n :: n in EnslavedBy(s) ==> OneWord(n)
    requires s.BondStanza? ==> s.slaves != [] && (s.primary.Some? ==> OneWord(s.primary.value))
    requires s.BridgeStanza? ==> LineTexts(s.address, s.gateway, s.vids)
    ensures Readable(s)
  {
    hide OneWord;
  }

  lemma EntryKind(model: Model, names: map<string, string>, s: Stanza)
    requires s in Stanzas(model, names)
    ensures s.BondStanza? ==> exists b :: b in model.bonds && s == BondEntry(model, names, b)
    ensures s.BridgeStanza? ==> exists b :: b in model.bridges && s == BridgeEntry(model, names, b)
  {
    StanzaMember(model, names, s);
    hide Stanzas, LinuxName;
  }

  lemma BridgeEntryTexts(model: Model, names: map<string, string>, b: BridgeModel)
    ensures var s := BridgeEntry(model, names, b);
      s.address == b.address && s.gateway == b.gateway && s.vids == b.vids
  {
    hide LinuxName;
  }

  lemma RenderedReadable(ifaces: seq<Iface>, net: Net, p: Primary, links: seq<Link>, physical: set<string>,
                         names: map<string, string>, s: Stanza)
    requires Rendered(ifaces, net, p, links, physical, names) && Unbroken(ModelOf(ifaces, net, p))
    requires s in Stanzas(ModelOf(ifaces, net, p), names)
    ensures Readable(s)
  {
    hide *;
    var model := ModelOf(ifaces, net, p);
    RenderedParts(ifaces, net, p, links, physical, names);
    StanzaNameWord(ifaces, net, p, links, physical, names, s);
    ChildWords(ifaces, net, p, links, physical, names, s);
    EntryKind(model, names, s);
    if s.BondStanza? {
      var b :| b in model.bonds && s == BondEntry(model, names, b);
      SlavesNotEmpty(ifaces, net, p, names, b);
    } else if s.BridgeStanza? {
      var b :| b in model.bridges && s == BridgeEntry(model, names, b);
      BridgeTexts(ifaces, net, p, b);
      BridgeEntryTexts(model, names, b);
    }
    ReadableBy(s);
  }

  // ---- the exact condition --------------------------------------------------------------------------

  /** What the file should say of a stanza. */
  function EntryOf(s: Stanza): Entry { Entry(StanzaName(s), Way(s), EnslavedBy(s), OptionsOf(s)) }

  /** The file says what the stanzas are. */
  ghost predicate ReadsBack(header: string, model: Model, names: map<string, string>) {
    ReadFile(Render(header, model, names)) == Map(EntryOf, Stanzas(model, names))
  }

  lemma {:induction false} ReadNamesLackBreaks(lines: seq<string>)
    requires forall l :: l in lines ==> '\n' !in l
    ensures forall e :: e in ReadLines(lines) ==> '\n' !in e.name
  {
    if lines == [] {
    } else {
      var line := lines[0];
      assert line in lines && forall l :: l in lines[1..] ==> l in lines;
      ReadNamesLackBreaks(lines[1..]);
      WordsLack(line, '\n', ' ');
      hide Split, ChildrenIn;
    }
  }

  lemma {:induction false} WordsLack(s: string, c: char, sep: char)
    requires c !in s
    ensures forall w :: w in Split(sep, s) ==> c !in w
  {
    if s == "" {
    } else {
      WordsLack(s[1..], c, sep);
      SplitHead(sep, s);
      var rest := Split(sep, s[1..]);
      assert rest[0] in rest && forall w :: w in rest[1..] ==> w in rest;
      hide Split;
    }
  }

  lemma BrokenNeverReadsBack(header: string, model: Model, names: map<string, string>, s: Stanza)
    requires s in Stanzas(model, names) && EndsWith(StanzaName(s), "\n")
    ensures !ReadsBack(header, model, names)
  {
    var text := Render(header, model, names);
    SplitLacks('\n', text);
    ReadNamesLackBreaks(Split('\n', text));
    hide Render, Stanzas, Split, ReadLines, StanzaName, EnslavedBy;
    assert StanzaName(s)[|StanzaName(s)| - 1] == '\n';
    MapMember(EntryOf, Stanzas(model, names), EntryOf(s));
    var i :| 0 <= i < |Stanzas(model, names)| && Stanzas(model, names)[i] == s;
    assert EntryOf(s) in Map(EntryOf, Stanzas(model, names));
    assert '\n' in EntryOf(s).name;
  }

  lemma {:induction false} ShownIsEntry(st: seq<Stanza>)
    ensures Map(ShownEntry, st) == Map(EntryOf, st) <==> forall s :: s in st ==> ShownChildren(s) == EnslavedBy(s)
  {
    hide ShownChildren, EnslavedBy, StanzaName, Way, OptionsOf;
    if st == [] {
    } else {
      ShownIsEntry(st[1..]);
      var a, b := Map(ShownEntry, st), Map(EntryOf, st);
      assert a == [ShownEntry(st[0])] + Map(ShownEntry, st[1..]) && b == [EntryOf(st[0])] + Map(EntryOf, st[1..]);
      assert a == b <==> a[0] == b[0] && a[1..] == b[1..];
      assert forall s :: s in st <==> s == st[0] || s in st[1..];
    }
  }

  /** A bridge's one port "none" is the only child that the file hides. */
  lemma HiddenIffNone(model: Model, names: map<string, string>)
    ensures (forall s :: s in Stanzas(model, names) ==> ShownChildren(s) == EnslavedBy(s)) <==> NoLoneNone(model, names)
  {
    hide Stanzas, LinuxName;
    if NoLoneNone(model, names) {
      forall s | s in Stanzas(model, names) ensures ShownChildren(s) == EnslavedBy(s) {
        StanzaMember(model, names, s);
      }
    } else {
      var b :| b in model.bridges && BridgeEntry(model, names, b).ports == ["none"];
      StanzaMember(model, names, BridgeEntry(model, names, b));
      assert ShownChildren(BridgeEntry(model, names, b)) != EnslavedBy(BridgeEntry(model, names, b));
    }
  }

  /** Some stanza's name is broken iff some bond's or bridge's is. */
  lemma BrokenStanza(model: Model, names: map<string, string>)
    ensures !Unbroken(model) ==> exists s :: s in Stanzas(model, names) && EndsWith(StanzaName(s), "\n")
  {
    hide Stanzas, EndsWith, LinuxName;
    if b :| b in model.bonds && EndsWith(b.name, "\n") {
      StanzaMember(model, names, BondEntry(model, names, b));
      assert StanzaName(BondEntry(model, names, b)) == b.name;
    } else if b :| b in model.bridges && EndsWith(b.name, "\n") {
      StanzaMember(model, names, BridgeEntry(model, names, b));
      assert StanzaName(BridgeEntry(model, names, b)) == b.name;
    }
  }

  /** The rendered file reads back as its stanzas, names and children, iff no
      bond's or bridge's name ends in a line break and no bridge's one port is a
      NIC named "none". */
  lemma ReadsBackIff(header: string, ifaces: seq<Iface>, net: Net, p: Primary, links: seq<Link>,
                     physical: set<string>, names: map<string, string>)
    requires Rendered(ifaces, net, p, links, physical, names) && HeaderOk(header)
    ensures ReadsBack(header, ModelOf(ifaces, net, p), names) <==>
      Unbroken(ModelOf(ifaces, net, p)) && NoLoneNone(ModelOf(ifaces, net, p), names)
  {
    hide ModelOf, Rendered, Stanzas, Readable, Unbroken, NoLoneNone, ShownEntry, EntryOf, HeaderOk, Render, ReadFile;
    hide StanzaName, EndsWith, ShownChildren, EnslavedBy;
    var model := ModelOf(ifaces, net, p);
    if Unbroken(model) {
      forall s | s in Stanzas(model, names) ensures Readable(s) {
        RenderedReadable(ifaces, net, p, links, physical, names, s);
      }
      FileReads(header, model, names);
      ShownIsEntry(Stanzas(model, names));
      HiddenIffNone(model, names);
    } else {
      BrokenStanza(model, names);
      var s :| s in Stanzas(model, names) && EndsWith(StanzaName(s), "\n");
      BrokenNeverReadsBack(header, model, names, s);
    }
  }

  /** The file reads back and is a forest, iff no bond's or bridge's name ends in
      a line break, no bridge's one port is a NIC named "none", and no port's NIC
      is named "lo" or like a bond or bridge of the model. */
  lemma FileIsForestIff(header: string, ifaces: seq<Iface>, net: Net, p: Primary, links: seq<Link>,
                        physical: set<string>, names: map<string, string>)
    requires Rendered(ifaces, net, p, links, physical, names) && HeaderOk(header)
    ensures var model := ModelOf(ifaces, net, p);
      ReadsBack(header, model, names) && IsForest(Stanzas(model, names)) <==>
      Unbroken(model) && NoLoneNone(model, names) && NamesFree(model, names)
  {
    hide *;
    ReadsBackIff(header, ifaces, net, p, links, physical, names);
    ForestIffNamesFree(ifaces, net, p, links, physical, names);
  }

  // ---- the MTU of a bond's members, in the text -------------------------------------------------------

  lemma PortStanzaReadable(ifaces: seq<Iface>, net: Net, p: Primary, links: seq<Link>, physical: set<string>,
                           names: map<string, string>, s: Stanza)
    requires Rendered(ifaces, net, p, links, physical, names)
    requires s in Stanzas(ModelOf(ifaces, net, p), names) && s.PortStanza?
    ensures Readable(s)
  {
    hide ModelOf, Rendered, Stanzas, LinuxName, OneWord;
    StanzaMember(ModelOf(ifaces, net, p), names, s);
    var q :| q in ModelOf(ifaces, net, p).ports && s == PortEntry(ModelOf(ifaces, net, p), names, q);
    NicIsWord(ifaces, net, p, links, physical, names, q);
  }

  lemma BondMtuIsGiven(ifaces: seq<Iface>, net: Net, p: Primary, m: Iface, b: Iface)
    requires Clean(ifaces, net, p) && InBond(ifaces, m, b) && b.mtu.Some?
    ensures 576 <= b.mtu.value <= 9216
  {
    KindMembers(ifaces, Lag);
    hide Mgmt, BridgesOk, NoAddressLost, PrimaryOk, IsNumbered, OfKind, Members;
    assert b in OfKind(ifaces, Lag);
    assert BondOk(net, b, Members(ifaces, b.id));
  }

  /** A member of a bond with an MTU of its own carries that MTU: the text of every
      stanza for its NIC reads as that interface with that MTU, and so does the
      whole file where no name breaks it. */
  lemma MembersCarryBondMtu(header: string, ifaces: seq<Iface>, net: Net, p: Primary, links: seq<Link>,
                            physical: set<string>, names: map<string, string>, b: Iface, m: Iface, s: Stanza)
    requires Rendered(ifaces, net, p, links, physical, names) && HeaderOk(header)
    requires InBond(ifaces, m, b) && b.mtu.Some?
    requires s in Stanzas(ModelOf(ifaces, net, p), names) && s.PortStanza?
    requires s.name == LinuxName(ModelOf(ifaces, net, p), names, m.id)
    ensures var read := ReadFile(StanzaText(s));
      |read| == 1 && read[0].name == s.name && read[0].options.mtu == b.mtu
    ensures Unbroken(ModelOf(ifaces, net, p)) ==>
      ReadFile(StanzaText(s))[0] in ReadFile(Render(header, ModelOf(ifaces, net, p), names))
  {
    var model := ModelOf(ifaces, net, p);
    RenderedParts(ifaces, net, p, links, physical, names);
    PortStanzaReadable(ifaces, net, p, links, physical, names, s);
    MemberStanzaMtu(ifaces, net, p, links, physical, names, b, m, s);
    BondMtuIsGiven(ifaces, net, p, m, b);
    StanzaReads(s);
    PortEntryShown(s);
    hide *;
    if Unbroken(model) {
      forall t | t in Stanzas(model, names) ensures Readable(t) {
        RenderedReadable(ifaces, net, p, links, physical, names, t);
      }
      FileReads(header, model, names);
      MapMember(ShownEntry, Stanzas(model, names), ShownEntry(s));
      var i :| 0 <= i < |Stanzas(model, names)| && Stanzas(model, names)[i] == s;
    }
  }

  lemma PortEntryShown(s: Stanza)
    requires s.PortStanza?
    ensures ShownEntry(s).name == s.name && ShownEntry(s).options.mtu == Given(s.mtu)
  {
    hide NoteOf;
  }
}

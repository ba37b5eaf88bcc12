/** Reading the rendered file back, line by line: which interfaces it has, what
    each of them enslaves, and its options. */
module NetworkRead {
  import opened Prelude
  import opened NetworkModel
  import opened NetworkRender
  import opened NetworkReader
  import opened NetworkOptions
  import opened NetworkSlaves

  // ---- lines of a stanza ------------------------------------------------------------------

  predicate Lacks(s: string, c: char) { c !in s }

  /** Not the line of an interface, and without children. */
  predicate Silent(line: string) { IfaceOf(line).None? && ChildrenOf(line) == [] }

  lemma KeyLineWords(key: string, value: string)
    requires ' ' !in key
    ensures Split(' ', KeyLine(key, value)) == ["\t" + key] + Split(' ', value)
  {
    var first := "\t" + key;
    SplitAtSeparator(' ', first, value);
    assert KeyLine(key, value) == first + [' '] + value;
  }

  lemma FirstWords()
    ensures |SLAVES| == 12 && |PORTS| == 13 && SLAVES[0] == '\t' && PORTS[0] == '\t' && "iface"[0] == 'i'
    ensures SLAVES[1..] == "bond-slaves" && PORTS[1..] == "bridge-ports"
  {}

  /** What a line is, by its words. */
  lemma ByWords(line: string, first: string, rest: seq<string>)
    requires Split(' ', line) == [first] + rest
    ensures first != "iface" ==> IfaceOf(line).None?
    ensures first == "iface" && rest != [] ==> IfaceOf(line) == Some(rest[0])
    ensures first == SLAVES ==> ChildrenOf(line) == rest
    ensures first == PORTS && first != SLAVES ==> ChildrenOf(line) == if rest == ["none"] then [] else rest
    ensures first != SLAVES && first != PORTS ==> ChildrenOf(line) == []
  {
    hide Split, SLAVES, PORTS;
    assert ([first] + rest)[1..] == rest;
  }

  lemma KeyLineSilent(key: string, value: string)
    requires ' ' !in key && key != "bond-slaves" && key != "bridge-ports"
    ensures Silent(KeyLine(key, value))
  {
    FirstWords();
    KeyLineWords(key, value);
    hide Split, KeyLine, SLAVES, PORTS, IfaceOf, ChildrenOf;
    var first := "\t" + key;
    assert first[1..] == key && first[0] == '\t';
    ByWords(KeyLine(key, value), first, Split(' ', value));
  }

  lemma ChildLine(key: string, names: seq<string>)
    requires key == "bond-slaves" || key == "bridge-ports"
    requires names != [] && forall n :: n in names ==> ' ' !in n
    ensures IfaceOf(KeyLine(key, Join(" ", names))).None?
    ensures ChildrenOf(KeyLine(key, Join(" ", names))) ==
      if key == "bridge-ports" && names == ["none"] then [] else names
  {
    SplitJoin(' ', names);
    assert ' ' !in key;
    KeyLineWords(key, Join(" ", names));
    hide *;
    FirstWords();
    KeyFirst(key);
    ByWords(KeyLine(key, Join(" ", names)), "\t" + key, names);
  }

  lemma KeyFirst(key: string)
    ensures key == "bond-slaves" ==> "\t" + key == SLAVES
    ensures key == "bridge-ports" ==> "\t" + key == PORTS && key != "bond-slaves"
    ensures ("\t" + key)[0] == '\t'
  {
    assert |"bond-slaves"| == 11 && |"bridge-ports"| == 12;
  }

  lemma NonePortsLine()
    ensures Silent(KeyLine("bridge-ports", "none"))
  {
    SplitWord(' ', "none");
    KeyLineWords("bridge-ports", "none");
    hide Split, KeyLine, SLAVES, PORTS, IfaceOf, ChildrenOf;
    FirstWords();
    KeyFirst("bridge-ports");
    ByWords(KeyLine("bridge-ports", "none"), "\t" + "bridge-ports", ["none"]);
  }

  lemma AutoSilent(name: string)
    ensures Silent("auto " + name)
  {
    SplitAtSeparator(' ', "auto", name);
    assert "auto " + name == "auto" + [' '] + name;
    hide Split, SLAVES, PORTS, IfaceOf, ChildrenOf;
    FirstWords();
    assert |"auto"| == 4 && |"iface"| == 5;
    ByWords("auto " + name, "auto", Split(' ', name));
  }

  lemma HeadReads(name: string, way: string)
    requires ' ' !in name && ' ' !in way
    ensures Silent("auto " + name)
    ensures IfaceOf("iface " + name + " inet " + way) == Some(name)
    ensures WayOf("iface " + name + " inet " + way) == way
  {
    AutoSilent(name);
    var rest := name + [' '] + ("inet " + way);
    SplitAtSeparator(' ', "iface", rest);
    SplitAtSeparator(' ', name, "inet " + way);
    SplitAtSeparator(' ', "inet", way);
    SplitWord(' ', way);
    assert "inet " + way == "inet" + [' '] + way;
    assert "iface " + name + " inet " + way == "iface" + [' '] + rest;
    assert Split(' ', "iface" + [' '] + rest) == ["iface", name, "inet", way];
    hide Split, SLAVES, PORTS, IfaceOf, ChildrenOf;
    FirstWords();
    ByWords("iface " + name + " inet " + way, "iface", [name] + Split(' ', "inet " + way));
  }

  lemma NoSetting(line: string)
    requires line == "" || (line[0] != '\t' && line[0] != '#')
    ensures SettingOf(line) == []
  {}

  lemma MarkWords(line: string)
    requires line == "" || line[0] == '#'
    ensures var words := Split(' ', line); words == [words[0]] + words[1..] && (words[0] == "" || words[0][0] == '#')
  {
    if line == "" {
      SplitEmpty(' ');
    } else {
      SplitHead(' ', line);
      assert Split(' ', line)[0] == [line[0]] + Split(' ', line[1..])[0];
    }
  }

  lemma MarkSilent(line: string)
    requires line == "" || line[0] == '#'
    ensures Silent(line)
  {
    MarkWords(line);
    hide Split, SLAVES, PORTS, IfaceOf, ChildrenOf;
    FirstWords();
    ByWords(line, Split(' ', line)[0], Split(' ', line)[1..]);
  }

  // ---- putting lines together ---------------------------------------------------------------

  lemma EndLinesHead(lines: seq<string>, rest: string)
    requires lines != []
    ensures EndLines(lines) + rest == lines[0] + ['\n'] + (EndLines(lines[1..]) + rest)
  {}

  lemma HeadTail(lines: seq<string>, more: seq<string>)
    requires lines != []
    ensures [lines[0]] + (lines[1..] + more) == lines + more
  {}

  lemma {:induction false} EndLinesSplit(lines: seq<string>, rest: string)
    requires forall l :: l in lines ==> '\n' !in l
    ensures Split('\n', EndLines(lines) + rest) == lines + Split('\n', rest)
  {
    if lines == [] {
      assert EndLines(lines) + rest == rest;
      assert lines + Split('\n', rest) == Split('\n', rest);
    } else {
      EndLinesSplit(lines[1..], rest);
      EndLinesHead(lines, rest);
      hide EndLines, Split;
      SplitAtSeparator('\n', lines[0], EndLines(lines[1..]) + rest);
      HeadTail(lines, Split('\n', rest));
    }
  }

  /** The lines of parts that were joined by line breaks. */
  lemma {:induction false} JoinSplit(parts: seq<string>)
    requires parts != []
    ensures Split('\n', Join("\n", parts)) == FlatMap((p: string) => Split('\n', p), parts)
  {
    var f := (p: string) => Split('\n', p);
    if |parts| == 1 {
      assert parts[1..] == [];
      assert FlatMap(f, parts) == f(parts[0]) + FlatMap(f, parts[1..]);
    } else {
      JoinSplit(parts[1..]);
      SplitConcat('\n', parts[0], Join("\n", parts[1..]));
      assert Join("\n", parts) == parts[0] + ['\n'] + Join("\n", parts[1..]);
    }
  }

  /** Lines without an interface only give children to what is before them. */
  lemma {:induction false} QuietLines(lines: seq<string>, more: seq<string>)
    requires forall l :: l in lines ==> IfaceOf(l).None?
    ensures ReadLines(lines + more) == ReadLines(more)
    ensures ChildrenIn(lines + more) == FlatMap(ChildrenOf, lines) + ChildrenIn(more)
    ensures SettingsIn(lines + more) == FlatMap(SettingOf, lines) + SettingsIn(more)
  {
    hide IfaceOf, ChildrenOf, SettingOf;
    if lines == [] {
      assert lines + more == more;
      assert FlatMap(ChildrenOf, lines) + ChildrenIn(more) == ChildrenIn(more);
      assert FlatMap(SettingOf, lines) + SettingsIn(more) == SettingsIn(more);
    } else {
      var all := lines + more;
      assert lines[0] in lines && all[0] == lines[0] && all[1..] == lines[1..] + more;
      QuietLines(lines[1..], more);
      assert ChildrenOf(lines[0]) + (FlatMap(ChildrenOf, lines[1..]) + ChildrenIn(more))
          == (ChildrenOf(lines[0]) + FlatMap(ChildrenOf, lines[1..])) + ChildrenIn(more);
      assert SettingOf(lines[0]) + (FlatMap(SettingOf, lines[1..]) + SettingsIn(more))
          == (SettingOf(lines[0]) + FlatMap(SettingOf, lines[1..])) + SettingsIn(more);
    }
  }

  lemma {:induction false} AllSilent(lines: seq<string>)
    requires forall l :: l in lines ==> Silent(l)
    ensures FlatMap(ChildrenOf, lines) == [] && forall l :: l in lines ==> IfaceOf(l).None?
  {
    hide IfaceOf, ChildrenOf;
    if lines == [] {
    } else {
      assert lines[0] in lines && forall l :: l in lines[1..] ==> l in lines;
      AllSilent(lines[1..]);
    }
  }

  // ---- the lines of one stanza ----------------------------------------------------------------

  /** Lines that are one line each, no interface and without children. */
  ghost predicate Plain(lines: seq<string>) { forall l :: l in lines ==> Silent(l) && '\n' !in l }

  lemma PlainConcat(a: seq<string>, b: seq<string>)
    requires Plain(a) && Plain(b)
    ensures Plain(a + b)
  {
    hide Silent;
  }

  lemma KeyLinePlain(key: string, value: string)
    requires ' ' !in key && '\n' !in key && key != "bond-slaves" && key != "bridge-ports" && '\n' !in value
    ensures Plain([KeyLine(key, value)])
  {
    KeyLineSilent(key, value);
    hide Silent;
  }

  lemma WordChars(s: string)
    requires OneWord(s)
    ensures ' ' !in s && '\n' !in s
  {
    forall c | c in s ensures c != ' ' && c != '\n' {
      var i :| 0 <= i < |s| && s[i] == c;
      assert !IsSpace(s[i]);
    }
  }

  lemma IntTextPlain(n: int)
    ensures '\n' !in IntText(n)
  {
    var m: nat := if n < 0 then -n else n;
    assert forall i :: 0 <= i < |Decimal(m)| ==> IsDigit(Decimal(m)[i]);
  }

  lemma {:induction false} SqueezePlain(text: string, space: bool)
    ensures '\n' !in Squeeze(text, space)
  {
    if text == "" {
    } else {
      SqueezePlain(text[1..], true);
      SqueezePlain(text[1..], false);
    }
  }

  lemma {:induction false} StripLeftWithin(s: string, c: char)
    ensures c in StripLeft(s) ==> c in s
    decreases |s|
  {
    if s == "" || !IsSpace(s[0]) {
    } else {
      StripLeftWithin(s[1..], c);
    }
  }

  lemma {:induction false} StripRightWithin(s: string, c: char)
    ensures c in StripRight(s) ==> c in s
    decreases |s|
  {
    if s == "" || !IsSpace(s[|s| - 1]) {
    } else {
      StripRightWithin(s[..|s| - 1], c);
    }
  }

  lemma CommentPlain(text: string)
    ensures Plain(CommentLines(text))
  {
    var q := Squeeze(text, false);
    var t := Strip(q);
    SqueezePlain(text, false);
    StripLeftWithin(q, '\n');
    StripRightWithin(StripLeft(q), '\n');
    MarkSilent("#" + t);
    hide Silent;
  }

  lemma MtuPlain(mtu: Option<int>)
    ensures Plain(MtuLines(mtu))
  {
    if mtu.Some? {
      IntTextPlain(mtu.value);
      KeyLinePlain("mtu", IntText(mtu.value));
    }
    hide Silent;
  }

  /** The texts of a stanza are single words where they are names, and single
      lines elsewhere. */
  ghost predicate Readable(s: Stanza) {
    match s
    case Loopback => true
    case PortStanza(name, _, _) => OneWord(name)
    case BondStanza(name, slaves, _, _, _, _, primary, _, _) =>
      && OneWord(name) && slaves != [] && (forall n :: n in slaves ==> OneWord(n))
      && (primary.Some? ==> OneWord(primary.value))
    case BridgeStanza(name, address, gateway, ports, vids, _, _) =>
      && OneWord(name) && (forall n :: n in ports ==> OneWord(n))
      && (address.Some? ==> '\n' !in address.value) && (gateway.Some? ==> '\n' !in gateway.value)
      && (vids.Some? ==> '\n' !in vids.value)
  }

  /** What the reader makes of a stanza's children: ifupdown reads the one word
      "none" as no ports. */
  function ShownChildren(s: Stanza): seq<string> {
    if s.BridgeStanza? && s.ports == ["none"] then [] else EnslavedBy(s)
  }

  lemma TextPlain(key: string, value: Option<string>)
    requires ' ' !in key && '\n' !in key && key != "bond-slaves" && key != "bridge-ports"
    requires value.Some? ==> '\n' !in value.value
    ensures Plain(TextLines(key, value))
  {
    if value.Some? { KeyLinePlain(key, value.value); }
    hide KeyLine, Silent;
  }

  lemma AddressPlain(address: Option<string>, gateway: Option<string>)
    requires (address.Some? ==> '\n' !in address.value) && (gateway.Some? ==> '\n' !in gateway.value)
    ensures Plain(AddressLines(address, gateway))
  {
    if address.Some? && address.value != "" {
      KeyLinePlain("address", address.value);
      TextPlain("gateway", gateway);
      hide Plain, KeyLine, TextLines;
      PlainConcat([KeyLine("address", address.value)], TextLines("gateway", gateway));
    } else {
      hide KeyLine, TextLines;
    }
  }

  lemma VlansPlain(vids: Option<string>)
    requires vids.Some? ==> '\n' !in vids.value
    ensures Plain(VlanLines(vids))
  {
    if vids.Some? {
      KeyLinePlain("bridge-vlan-aware", "yes");
      KeyLinePlain("bridge-vids", vids.value);
    }
    hide KeyLine, Silent;
  }

  lemma ModeTextPlain(m: LagMode, h: Hash, r: LacpRate)
    ensures '\n' !in ModeText(m) && '\n' !in HashText(h) && '\n' !in RateText(r)
  {}

  lemma MiimonPlain(miimon: Option<int>)
    ensures Plain([MiimonLine(miimon)])
  {
    if miimon.Some? { IntTextPlain(miimon.value); }
    hide Plain, KeyLine, IntText;
    KeyLinePlain("bond-miimon", if miimon.Some? then IntText(miimon.value) else "None");
  }

  lemma ModePlain(mode: LagMode)
    ensures Plain([KeyLine("bond-mode", ModeText(mode))])
  {
    ModeTextPlain(mode, Layer2, Slow);
    hide Plain, KeyLine, ModeText;
    KeyLinePlain("bond-mode", ModeText(mode));
  }

  lemma HashPlain(hash: Option<Hash>)
    ensures Plain(HashLines(hash))
  {
    if hash.Some? {
      ModeTextPlain(BalanceRr, hash.value, Slow);
      hide KeyLine, HashText, Silent;
      KeyLinePlain("bond-xmit-hash-policy", HashText(hash.value));
    }
  }

  lemma RatePlain(rate: Option<LacpRate>)
    ensures Plain(RateLines(rate))
  {
    if rate.Some? {
      ModeTextPlain(BalanceRr, Layer2, rate.value);
      hide KeyLine, RateText, Silent;
      KeyLinePlain("bond-lacp-rate", RateText(rate.value));
    }
  }

  lemma PrimaryPlain(primary: Option<string>)
    requires primary.Some? ==> OneWord(primary.value)
    ensures Plain(PrimaryLines(primary))
  {
    if primary.Some? {
      WordChars(primary.value);
      hide KeyLine, Silent;
      KeyLinePlain("bond-primary", primary.value);
    }
  }

  lemma TailPlain(mtu: Option<int>, comment: string)
    ensures Plain(TailLines(mtu, comment))
  {
    MtuPlain(mtu);
    CommentPlain(comment);
    hide Plain, MtuLines, CommentLines;
    PlainConcat(MtuLines(mtu), CommentLines(comment));
  }

  lemma BackPlain(s: Stanza)
    requires Readable(s)
    ensures Plain(BackLines(s))
  {
    match s {
      case BondStanza(_, _, miimon, mode, hash, rate, primary, mtu, comment) =>
        MiimonPlain(miimon);
        ModePlain(mode);
        HashPlain(hash);
        RatePlain(rate);
        PrimaryPlain(primary);
        TailPlain(mtu, comment);
        hide Plain, KeyLine, MiimonLine, HashLines, RateLines, PrimaryLines, TailLines, ModeText;
        PlainConcat(PrimaryLines(primary), TailLines(mtu, comment));
        PlainConcat(RateLines(rate), PrimaryLines(primary) + TailLines(mtu, comment));
        var last := RateLines(rate) + (PrimaryLines(primary) + TailLines(mtu, comment));
        PlainConcat(HashLines(hash), last);
        PlainConcat([KeyLine("bond-mode", ModeText(mode))], HashLines(hash) + last);
        PlainConcat([MiimonLine(miimon)], [KeyLine("bond-mode", ModeText(mode))] + (HashLines(hash) + last));
      case BridgeStanza(_, _, _, _, vids, mtu, comment) =>
        KeyLinePlain("bridge-stp", "off");
        KeyLinePlain("bridge-fd", "0");
        VlansPlain(vids);
        TailPlain(mtu, comment);
        hide Plain, KeyLine, VlanLines, TailLines;
        PlainConcat(VlanLines(vids), TailLines(mtu, comment));
        PlainConcat([KeyLine("bridge-fd", "0")], VlanLines(vids) + TailLines(mtu, comment));
        PlainConcat([KeyLine("bridge-stp", "off")],
                    [KeyLine("bridge-fd", "0")] + (VlanLines(vids) + TailLines(mtu, comment)));
      case _ =>
    }
  }

  // ---- the body of a stanza -----------------------------------------------------------------------

  /** Lines that are one line each and no interface. */
  ghost predicate Inner(lines: seq<string>) { forall l :: l in lines ==> '\n' !in l && IfaceOf(l).None? }

  lemma InnerConcat(a: seq<string>, b: seq<string>)
    requires Inner(a) && Inner(b)
    ensures Inner(a + b)
  {
    hide IfaceOf;
  }

  lemma PlainIsInner(lines: seq<string>)
    requires Plain(lines)
    ensures Inner(lines) && FlatMap(ChildrenOf, lines) == []
  {
    AllSilent(lines);
  }

  /** A child line, with plain lines around it. */
  lemma ChildAmong(front: seq<string>, line: string, back: seq<string>)
    requires Plain(front) && Plain(back) && Inner([line])
    ensures Inner(front + ([line] + back)) && FlatMap(ChildrenOf, front + ([line] + back)) == ChildrenOf(line)
  {
    PlainIsInner(front);
    PlainIsInner(back);
    hide Plain, Inner, ChildrenOf;
    InnerConcat([line], back);
    InnerConcat(front, [line] + back);
    FlatMapSnoc(ChildrenOf, [], line);
    assert [] + [line] == [line];
    FlatMapAppend(ChildrenOf, [line], back);
    FlatMapAppend(ChildrenOf, front, [line] + back);
  }

  lemma {:induction false} JoinLacks(names: seq<string>)
    requires forall n :: n in names ==> '\n' !in n
    ensures '\n' !in Join(" ", names)
  {
    if |names| <= 1 {
    } else {
      JoinLacks(names[1..]);
    }
  }

  lemma KeyHasNoBreak(key: string, value: string)
    requires '\n' !in key && '\n' !in value
    ensures '\n' !in KeyLine(key, value)
  {}

  lemma NamesLine(key: string, names: seq<string>)
    requires key == "bond-slaves" || key == "bridge-ports"
    requires names != [] && forall n :: n in names ==> OneWord(n)
    ensures Inner([KeyLine(key, Join(" ", names))])
    ensures ChildrenOf(KeyLine(key, Join(" ", names))) ==
      if key == "bridge-ports" && names == ["none"] then [] else names
  {
    forall n | n in names ensures ' ' !in n && '\n' !in n { WordChars(n); }
    ChildLine(key, names);
    JoinLacks(names);
    KeyHasNoBreak(key, Join(" ", names));
    hide IfaceOf, ChildrenOf, KeyLine, Join;
  }

  /** The body reads as the children that the stanza shows. */
  ghost predicate BodyReads(s: Stanza) {
    Inner(BodyLines(s)) && FlatMap(ChildrenOf, BodyLines(s)) == ShownChildren(s)
  }

  lemma PortBodyReads(s: Stanza)
    requires s.PortStanza?
    ensures BodyReads(s)
  {
    TailPlain(s.mtu, s.comment);
    PlainIsInner(TailLines(s.mtu, s.comment));
    hide TailLines, Inner, ChildrenOf;
  }

  lemma SlavesLineReads(slaves: seq<string>)
    requires slaves != [] && forall n :: n in slaves ==> OneWord(n)
    ensures Inner([SlavesLine(slaves)]) && ChildrenOf(SlavesLine(slaves)) == slaves
  {
    assert |"bond-slaves"| == 11 && |"bridge-ports"| == 12;
    NamesLine("bond-slaves", slaves);
    hide KeyLine, Join, Inner, ChildrenOf;
  }

  lemma BondShows(s: Stanza)
    requires s.BondStanza?
    ensures BodyLines(s) == [] + ([SlavesLine(s.slaves)] + BackLines(s)) && ShownChildren(s) == s.slaves
  {
    hide SlavesLine, BackLines;
  }

  lemma BodyReadsBy(s: Stanza, body: seq<string>)
    requires body == BodyLines(s) && Inner(body) && FlatMap(ChildrenOf, body) == ShownChildren(s)
    ensures BodyReads(s)
  {}

  lemma BondBodyReads(s: Stanza)
    requires s.BondStanza? && Readable(s)
    ensures BodyReads(s)
  {
    assert s.slaves != [] && forall n :: n in s.slaves ==> OneWord(n);
    hide *;
    BackPlain(s);
    SlavesLineReads(s.slaves);
    NonePlain();
    BondShows(s);
    ChildAmong([], SlavesLine(s.slaves), BackLines(s));
    BodyReadsBy(s, [] + ([SlavesLine(s.slaves)] + BackLines(s)));
  }

  lemma NonePlain()
    ensures Plain([])
  {}

  lemma PortsLineReads(ports: seq<string>)
    requires forall n :: n in ports ==> OneWord(n)
    ensures Inner([PortsLine(ports)])
    ensures ChildrenOf(PortsLine(ports)) == if ports == ["none"] then [] else ports
  {
    if ports == [] {
      NonePortsLine();
      KeyHasNoBreak("bridge-ports", "none");
    } else {
      assert PortsLine(ports) == KeyLine("bridge-ports", Join(" ", ports));
      hide *;
      NamesLine("bridge-ports", ports);
    }
  }

  lemma BridgeBodyReads(s: Stanza)
    requires s.BridgeStanza? && Readable(s)
    ensures BodyReads(s)
  {
    BackPlain(s);
    AddressPlain(s.address, s.gateway);
    PortsLineReads(s.ports);
    hide BackLines, PortsLine, Plain, Inner, ChildrenOf, AddressLines;
    ChildAmong(AddressLines(s.address, s.gateway), PortsLine(s.ports), BackLines(s));
  }

  lemma ReadableBody(s: Stanza)
    requires Readable(s)
    ensures BodyReads(s)
  {
    match s {
      case Loopback =>
      case PortStanza(_, _, _) => PortBodyReads(s);
      case BondStanza(_, _, _, _, _, _, _, _, _) => BondBodyReads(s);
      case BridgeStanza(_, _, _, _, _, _, _) => BridgeBodyReads(s);
    }
  }

  // ---- the whole file ---------------------------------------------------------------------------

  /** The lines of a stanza and the empty one after it. */
  function Block(s: Stanza): seq<string> { StanzaLines(s) + [""] }

  function ShownEntry(s: Stanza): Entry { Entry(StanzaName(s), Way(s), ShownChildren(s), OptionsOf(s)) }

  lemma NameIsWord(s: Stanza)
    requires Readable(s)
    ensures ' ' !in StanzaName(s) && '\n' !in StanzaName(s)
  {
    if s.Loopback? {
    } else {
      WordChars(s.name);
    }
  }

  lemma InnerReads(body: seq<string>, more: seq<string>)
    requires Inner(body)
    ensures ReadLines(body + more) == ReadLines(more)
    ensures ChildrenIn(body + more) == FlatMap(ChildrenOf, body) + ChildrenIn(more)
    ensures SettingsIn(body + more) == FlatMap(SettingOf, body) + SettingsIn(more)
  {
    hide IfaceOf, ChildrenOf, SettingOf;
    QuietLines(body, more);
  }

  lemma OpenEntry(auto: string, iface: string, name: string, inner: seq<string>)
    requires Silent(auto) && SettingOf(auto) == [] && IfaceOf(iface) == Some(name)
    ensures ReadLines([auto, iface] + inner) ==
      [Entry(name, WayOf(iface), ChildrenIn(inner), Decode(SettingsIn(inner)))] + ReadLines(inner)
    ensures ChildrenIn([auto, iface] + inner) == [] && SettingsIn([auto, iface] + inner) == []
  {
    hide IfaceOf, ChildrenOf, SettingOf, Decode, WayOf;
    var all := [auto, iface] + inner;
    assert all[0] == auto && all[1..] == [iface] + inner;
    assert ([iface] + inner)[1..] == inner;
  }

  lemma BlockShape(s: Stanza, more: seq<string>)
    ensures Block(s) + more ==
      ["auto " + StanzaName(s), "iface " + StanzaName(s) + " inet " + Way(s)] + (BodyLines(s) + ([""] + more))
  {
    hide BodyLines, StanzaName, Way;
  }

  lemma BodyOf(s: Stanza)
    requires Readable(s)
    ensures Inner(BodyLines(s)) && FlatMap(ChildrenOf, BodyLines(s)) == ShownChildren(s)
  {
    ReadableBody(s);
  }

  lemma ShownIs(s: Stanza)
    ensures ShownEntry(s) == Entry(StanzaName(s), Way(s), ShownChildren(s), OptionsOf(s))
  {}

  lemma AutoLine(name: string)
    ensures SettingOf("auto " + name) == []
  {
    NoSetting("auto " + name);
  }

  lemma WayIsWord(s: Stanza)
    ensures ' ' !in Way(s)
  {}

  lemma BlockReads(s: Stanza, more: seq<string>)
    requires Readable(s) && ChildrenIn(more) == [] && SettingsIn(more) == []
    ensures ReadLines(Block(s) + more) == [ShownEntry(s)] + ReadLines(more)
    ensures ChildrenIn(Block(s) + more) == [] && SettingsIn(Block(s) + more) == []
  {
    hide *;
    var body, name := BodyLines(s), StanzaName(s);
    BodyOf(s);
    OptionsRead(s);
    NameIsWord(s);
    WayIsWord(s);
    HeadReads(name, Way(s));
    AutoLine(name);
    EmptyIsInner();
    InnerReads(body, [""] + more);
    InnerReads([""], more);
    OpenEntry("auto " + name, "iface " + name + " inet " + Way(s), name, body + ([""] + more));
    BlockShape(s, more);
    ShownIs(s);
    assert ShownChildren(s) + ([] + []) == ShownChildren(s);
    assert FlatMap(SettingOf, body) + ([] + []) == FlatMap(SettingOf, body);
    assert [] + ChildrenIn(more) == ChildrenIn(more) && [] + SettingsIn(more) == SettingsIn(more);
  }

  lemma EmptyIsInner()
    ensures Inner([""]) && FlatMap(ChildrenOf, [""]) == [] && FlatMap(SettingOf, [""]) == []
  {
    MarkSilent("");
    NoSetting("");
    hide IfaceOf, ChildrenOf, SettingOf;
    assert [""][1..] == [];
  }

  lemma {:induction false} BlocksRead(st: seq<Stanza>, more: seq<string>)
    requires (forall s :: s in st ==> Readable(s)) && ChildrenIn(more) == [] && SettingsIn(more) == []
    ensures ReadLines(FlatMap(Block, st) + more) == Map(ShownEntry, st) + ReadLines(more)
    ensures ChildrenIn(FlatMap(Block, st) + more) == [] && SettingsIn(FlatMap(Block, st) + more) == []
  {
    hide Block, Readable, ShownEntry, ReadLines, ChildrenIn, SettingsIn;
    if st == [] {
      assert FlatMap(Block, st) + more == more;
      assert Map(ShownEntry, st) + ReadLines(more) == ReadLines(more);
    } else {
      assert st[0] in st && forall s :: s in st[1..] ==> s in st;
      BlocksRead(st[1..], more);
      var rest := FlatMap(Block, st[1..]) + more;
      BlockReads(st[0], rest);
      assert FlatMap(Block, st) + more == Block(st[0]) + rest;
      assert [ShownEntry(st[0])] + (Map(ShownEntry, st[1..]) + ReadLines(more))
          == Map(ShownEntry, st) + ReadLines(more);
    }
  }

  lemma HeadLacks(name: string, way: string)
    requires '\n' !in name && '\n' !in way
    ensures forall l :: l in Head(name, way) ==> '\n' !in l
  {}

  lemma WayLacks(s: Stanza)
    ensures '\n' !in Way(s)
  {}

  lemma InnerLacks(lines: seq<string>)
    requires Inner(lines)
    ensures forall l :: l in lines ==> '\n' !in l
  {}

  lemma StanzaLinesAre(s: Stanza)
    ensures StanzaLines(s) == Head(StanzaName(s), Way(s)) + BodyLines(s)
  {}

  lemma LinesLackBreaks(s: Stanza)
    requires Readable(s)
    ensures forall l :: l in StanzaLines(s) ==> '\n' !in l
  {
    hide *;
    BodyOf(s);
    InnerLacks(BodyLines(s));
    NameIsWord(s);
    WayLacks(s);
    HeadLacks(StanzaName(s), Way(s));
    StanzaLinesAre(s);
  }

  lemma TextSplits(s: Stanza)
    requires Readable(s)
    ensures Split('\n', StanzaText(s)) == Block(s)
  {
    LinesLackBreaks(s);
    hide StanzaLines, Readable;
    EndLinesSplit(StanzaLines(s), "");
    SplitEmpty('\n');
    assert EndLines(StanzaLines(s)) + "" == EndLines(StanzaLines(s));
  }

  lemma {:induction false} TextsSplit(st: seq<Stanza>)
    requires forall s :: s in st ==> Readable(s)
    ensures FlatMap((t: string) => Split('\n', t), Map(StanzaText, st)) == FlatMap(Block, st)
  {
    hide StanzaText, Block, Readable;
    if st == [] {
    } else {
      assert st[0] in st && forall s :: s in st[1..] ==> s in st;
      TextSplits(st[0]);
      TextsSplit(st[1..]);
      var texts := Map(StanzaText, st);
      assert texts[0] == StanzaText(st[0]) && texts[1..] == Map(StanzaText, st[1..]);
    }
  }

  lemma FileSplits(header: string, model: Model, names: map<string, string>)
    requires forall s :: s in Stanzas(model, names) ==> Readable(s)
    ensures Split('\n', Render(header, model, names)) ==
      Split('\n', header) + (FlatMap(Block, Stanzas(model, names)) + Split('\n', SOURCE_LINE))
  {
    TextsSplit(Stanzas(model, names));
    RenderJoins(header, model, names);
    hide *;
    var texts := Map(StanzaText, Stanzas(model, names));
    JoinSplit([header] + texts + [SOURCE_LINE]);
    PartsSplit(header, texts, SOURCE_LINE);
  }

  lemma RenderJoins(header: string, model: Model, names: map<string, string>)
    ensures Render(header, model, names) ==
      Join("\n", [header] + Map(StanzaText, Stanzas(model, names)) + [SOURCE_LINE])
  {}

  lemma PartsSplit(first: string, texts: seq<string>, last: string)
    ensures var f := (t: string) => Split('\n', t);
      FlatMap(f, [first] + texts + [last]) == Split('\n', first) + (FlatMap(f, texts) + Split('\n', last))
  {
    hide Split;
    var f := (t: string) => Split('\n', t);
    FlatMapSnoc(f, [first] + texts, last);
    FlatMapAppend(f, [first], texts);
    FlatMapSnoc(f, [], first);
    assert [] + [first] == [first];
    assert FlatMap(f, []) + f(first) == f(first);
  }

  /** The header has no interface of its own. */
  ghost predicate HeaderOk(header: string) { forall l :: l in Split('\n', header) ==> IfaceOf(l).None? }

  lemma SourceSilent()
    ensures Silent("source" + " " + DROP_INS)
  {
    SplitAtSeparator(' ', "source", DROP_INS);
    assert "source" + " " + DROP_INS == "source" + [' '] + DROP_INS;
    hide Split, SLAVES, PORTS, IfaceOf, ChildrenOf, DROP_INS;
    FirstWords();
    assert |"source"| == 6 && |"iface"| == 5;
    ByWords("source" + " " + DROP_INS, "source", Split(' ', DROP_INS));
  }

  lemma SourceSplits()
    ensures Split('\n', SOURCE_LINE) == ["source" + " " + DROP_INS, ""]
  {
    var line := "source" + " " + DROP_INS;
    assert '\n' !in "source" && '\n' !in DROP_INS;
    SplitAtSeparator('\n', line, "");
    SplitEmpty('\n');
    assert SOURCE_LINE == line + ['\n'] + "";
  }

  lemma {:induction false} SilentLines(lines: seq<string>)
    requires forall l :: l in lines ==> Silent(l) && SettingOf(l) == []
    ensures ReadLines(lines) == [] && ChildrenIn(lines) == [] && SettingsIn(lines) == []
  {
    hide IfaceOf, ChildrenOf, SettingOf;
    if lines == [] {
    } else {
      assert lines[0] in lines && forall l :: l in lines[1..] ==> l in lines;
      SilentLines(lines[1..]);
    }
  }

  lemma SourceLine()
    ensures SettingOf("source" + " " + DROP_INS) == [] && SettingOf("") == []
  {
    NoSetting("source" + " " + DROP_INS);
    NoSetting("");
  }

  lemma SourceLineReads()
    ensures var end := Split('\n', SOURCE_LINE); ReadLines(end) == [] && ChildrenIn(end) == [] && SettingsIn(end) == []
  {
    hide *;
    SourceSilent();
    SourceSplits();
    SourceLine();
    MarkSilent("");
    SilentLines(["source" + " " + DROP_INS, ""]);
  }

  /** The file reads back as its stanzas. */
  lemma FileReads(header: string, model: Model, names: map<string, string>)
    requires HeaderOk(header) && forall s :: s in Stanzas(model, names) ==> Readable(s)
    ensures ReadFile(Render(header, model, names)) == Map(ShownEntry, Stanzas(model, names))
  {
    var st, end := Stanzas(model, names), Split('\n', SOURCE_LINE);
    SourceLineReads();
    FileSplits(header, model, names);
    hide Stanzas, Readable, Block, IfaceOf, ReadLines, ChildrenIn, SettingsIn, Split, ShownEntry, Render;
    BlocksRead(st, end);
    QuietLines(Split('\n', header), FlatMap(Block, st) + end);
    assert Map(ShownEntry, st) + [] == Map(ShownEntry, st);
  }

  /** So does the text of one stanza. */
  lemma StanzaReads(s: Stanza)
    requires Readable(s)
    ensures ReadFile(StanzaText(s)) == [ShownEntry(s)]
  {
    hide *;
    TextSplits(s);
    NothingReads();
    BlockReads(s, []);
    assert Block(s) + [] == Block(s) && [ShownEntry(s)] + [] == [ShownEntry(s)];
    FileIsLines(StanzaText(s));
  }

  lemma NothingReads()
    ensures ReadLines([]) == [] && ChildrenIn([]) == [] && SettingsIn([]) == []
  {}

  lemma FileIsLines(text: string)
    ensures ReadFile(text) == ReadLines(Split('\n', text))
  {}
}

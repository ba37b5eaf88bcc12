/** The option lines of a stanza read back as exactly the fields of the stanza. */
module NetworkOptions {
  import opened Prelude
  import opened NetworkModel
  import opened NetworkRender
  import opened NetworkReader

  // ---- what should be read ----------------------------------------------------------------

  const NO_OPTIONS := Options(None, None, None, None, None, None, None, None, None, None, None, None, None)

  /** A number that is written: not 0, which stands for none. */
  function Given(n: Option<int>): Option<int> { if n == Some(0) then None else n }

  function GivenText(t: Option<string>): Option<string> { if t == Some("") then None else t }

  /** The words of a text. */
  function Words(s: string): seq<string> {
    if s == "" then []
    else if IsSpace(s[0]) then Words(s[1..])
    else
      var rest := Words(s[1..]);
      if |s| == 1 || IsSpace(s[1]) then [[s[0]]] + rest
      else if rest == [] then [[s[0]]] else [[s[0]] + rest[0]] + rest[1..]
  }

  /** A description as a note: its words, with one blank between them. */
  function NoteOf(text: string): Option<string> {
    if Words(text) == [] then None else Some(Join(" ", Words(text)))
  }

  /** The options of a stanza. */
  function OptionsOf(s: Stanza): Options {
    match s
    case Loopback => NO_OPTIONS
    case PortStanza(_, mtu, comment) => NO_OPTIONS.(mtu := Given(mtu), note := NoteOf(comment))
    case BondStanza(_, _, miimon, mode, hash, lacpRate, primary, mtu, comment) =>
      NO_OPTIONS.(mtu := Given(mtu), miimon := miimon, mode := if mode.UnknownMode? then None else Some(mode),
                  hash := if hash == Some(UnknownHash) then None else hash, lacpRate := lacpRate, primary := primary,
                  note := NoteOf(comment))
    case BridgeStanza(_, address, gateway, _, vids, mtu, comment) =>
      NO_OPTIONS.(address := GivenText(address),
                  gateway := if GivenText(address).Some? then GivenText(gateway) else None,
                  stp := Some("off"), forwardDelay := Some(0), vlanAware := if vids.Some? then Some("yes") else None,
                  vids := vids, mtu := Given(mtu), note := NoteOf(comment))
  }

  // ---- single lines ---------------------------------------------------------------------------

  lemma BondKeywords()
    ensures KeywordOf("bond-miimon") == Some(Miimon) && KeywordOf("bond-mode") == Some(ModeWord)
    ensures KeywordOf("bond-xmit-hash-policy") == Some(HashWord) && KeywordOf("bond-lacp-rate") == Some(RateWord)
    ensures KeywordOf("bond-primary") == Some(PrimaryWord) && KeywordOf("bond-slaves") == None
  {
    WordSizes();
    assert "bond-miimon"[5] == 'm' && "bond-slaves"[5] == 's' && "bridge-vids"[1] == 'r' && "bridge-fd"[1] == 'r';
    assert "bond-miimon"[1] == 'o' && "bond-slaves"[1] == 'o' && "bond-mode"[1] == 'o';
  }

  lemma OtherKeywords()
    ensures KeywordOf("mtu") == Some(Mtu) && KeywordOf("address") == Some(Address)
    ensures KeywordOf("gateway") == Some(Gateway)
    ensures KeywordOf("bridge-stp") == Some(Stp) && KeywordOf("bridge-fd") == Some(ForwardDelay)
    ensures KeywordOf("bridge-vlan-aware") == Some(VlanAware) && KeywordOf("bridge-vids") == Some(Vids)
    ensures KeywordOf("bridge-ports") == None
  {
    WordSizes();
    assert "address"[0] == 'a' && "gateway"[0] == 'g' && "bridge-fd"[1] == 'r' && "bond-mode"[1] == 'o';
    assert "bridge-vids"[1] == 'r' && "bond-miimon"[1] == 'o' && "bridge-ports"[1] == 'r' && "bond-primary"[1] == 'o';
  }

  lemma WordSizes()
    ensures |"mtu"| == 3 && |"bond-miimon"| == 11 && |"bond-mode"| == 9 && |"bond-xmit-hash-policy"| == 21
    ensures |"bond-lacp-rate"| == 14 && |"bond-primary"| == 12 && |"address"| == 7 && |"gateway"| == 7
    ensures |"bridge-stp"| == 10 && |"bridge-fd"| == 9 && |"bridge-vlan-aware"| == 17 && |"bridge-vids"| == 11
    ensures |"bond-slaves"| == 11 && |"bridge-ports"| == 12
  {}

  /** An option line sets its value, whatever the value is. */
  lemma LineSets(key: string, value: string)
    requires ' ' !in key
    ensures SettingOf(KeyLine(key, value)) == match KeywordOf(key) { case Some(k) => [(k, value)] case None => [] }
  {
    var line := KeyLine(key, value);
    assert line[0] == '\t' && line[1..] == key + [' '] + value;
    SplitAtSeparator(' ', key, value);
    JoinOfSplit(' ', value);
    hide Split, KeywordOf;
    assert ([key] + Split(' ', value))[1..] == Split(' ', value);
  }

  lemma NoteSets(text: string)
    ensures SettingOf("#" + text) == [(Note, text)]
  {
    assert ("#" + text)[1..] == text;
  }

  lemma {:induction false} ValueConcat(a: seq<(Keyword, string)>, b: seq<(Keyword, string)>, k: Keyword)
    ensures Value(a + b, k) == if Value(a, k).Some? then Value(a, k) else Value(b, k)
  {
    if a == [] {
      assert a + b == b;
    } else {
      assert (a + b)[1..] == a[1..] + b;
      ValueConcat(a[1..], b, k);
    }
  }

  /** What some lines set for a keyword. */
  function Set(lines: seq<string>, k: Keyword): Option<string> { Value(FlatMap(SettingOf, lines), k) }

  lemma SetConcat(a: seq<string>, b: seq<string>, k: Keyword)
    ensures Set(a + b, k) == if Set(a, k).Some? then Set(a, k) else Set(b, k)
  {
    FlatMapAppend(SettingOf, a, b);
    ValueConcat(FlatMap(SettingOf, a), FlatMap(SettingOf, b), k);
  }

  lemma SetNone(k: Keyword)
    ensures Set([], k) == None
  {}

  lemma SetOne(line: string, k: Keyword)
    ensures Set([line], k) == Value(SettingOf(line), k)
  {
    hide SettingOf;
    FlatMapSnoc(SettingOf, [], line);
    assert [] + [line] == [line] && [] + SettingOf(line) == SettingOf(line);
  }

  lemma SetByKey(key: string, value: string, k: Keyword)
    requires ' ' !in key
    ensures Set([KeyLine(key, value)], k) == if KeywordOf(key) == Some(k) then Some(value) else None
  {
    SetOne(KeyLine(key, value), k);
    LineSets(key, value);
    hide SettingOf, KeyLine, KeywordOf;
    var setting := SettingOf(KeyLine(key, value));
    if KeywordOf(key).Some? { assert setting[1..] == []; }
  }

  lemma BondKeysHaveNoBlank()
    ensures ' ' !in "bond-miimon" && ' ' !in "bond-mode" && ' ' !in "bond-xmit-hash-policy"
    ensures ' ' !in "bond-lacp-rate" && ' ' !in "bond-primary" && ' ' !in "bond-slaves"
  {}

  lemma OtherKeysHaveNoBlank()
    ensures ' ' !in "mtu" && ' ' !in "address" && ' ' !in "gateway" && ' ' !in "bridge-ports"
    ensures ' ' !in "bridge-stp" && ' ' !in "bridge-fd" && ' ' !in "bridge-vlan-aware" && ' ' !in "bridge-vids"
  {}

  // ---- notes --------------------------------------------------------------------------------------

  lemma {:induction false} StripRightAppend(a: string, y: string)
    ensures StripRight(a + y) == if StripRight(y) == "" then StripRight(a) else a + StripRight(y)
    decreases |y|
  {
    if y == "" {
      assert a + y == a;
    } else if !IsSpace(y[|y| - 1]) {
      assert (a + y)[|a + y| - 1] == y[|y| - 1];
    } else {
      assert (a + y)[..|a + y| - 1] == a + y[..|y| - 1];
      StripRightAppend(a, y[..|y| - 1]);
    }
  }

  lemma SqueezedStart(s: string)
    requires s == "" || !IsSpace(s[0])
    ensures Squeeze(s, true) == Squeeze(s, false)
  {}

  /** After a blank, the rest of a squeezed text is its words with blanks between. */
  lemma {:induction false} SqueezedWords(s: string)
    ensures StripRight(Squeeze(s, true)) == Join(" ", Words(s))
    ensures Squeeze(s, true) == "" || !IsSpace(Squeeze(s, true)[0])
    ensures Words(s) == [] <==> Join(" ", Words(s)) == ""
    decreases |s|
  {
    if s == "" {
    } else if IsSpace(s[0]) {
      SqueezedWords(s[1..]);
      assert Squeeze(s, true) == "" + Squeeze(s[1..], true) == Squeeze(s[1..], true);
    } else {
      var rest := s[1..];
      SqueezedWords(rest);
      hide StripRight, Words, Join;
      if rest == "" {
        hide *;
        OneLetter(s);
      } else if IsSpace(rest[0]) {
        SqueezedWords(rest[1..]);
        SqueezedBreak(s);
      } else {
        SqueezedGrow(s);
      }
    }
  }

  lemma OneLetter(s: string)
    requires |s| == 1 && !IsSpace(s[0])
    ensures Squeeze(s, true) == s && StripRight(s) == s && Words(s) == [s] && Join(" ", [s]) == s
  {
    assert s == [s[0]] && s[1..] == "";
    assert Squeeze(s, true) == [s[0]] + Squeeze("", false);
    assert Words("") == [];
  }

  lemma SqueezedBreak(s: string)
    requires |s| > 1 && !IsSpace(s[0]) && IsSpace(s[1])
    requires StripRight(Squeeze(s[1..], true)) == Join(" ", Words(s[1..]))
    requires Words(s[1..]) == [] <==> Join(" ", Words(s[1..])) == ""
    ensures StripRight(Squeeze(s, true)) == Join(" ", Words(s))
    ensures Squeeze(s, true) != "" && Squeeze(s, true)[0] == s[0] && Words(s) != [] && Join(" ", Words(s)) != ""
  {
    var rest := s[1..];
    var z := Squeeze(rest[1..], true);
    assert Squeeze(rest, false) == " " + z && Squeeze(rest, true) == z;
    assert Squeeze(s, true) == [s[0]] + (" " + z);
    WordsBreak(s);
    hide Squeeze, Words, Join;
    StripRightAppend([s[0]], " " + z);
    StripRightAppend(" ", z);
    assert StripRight([s[0]]) == [s[0]];
    assert StripRight(" ") == StripRight(" "[..0]) == "";
  }

  lemma SqueezedGrow(s: string)
    requires |s| > 1 && !IsSpace(s[0]) && !IsSpace(s[1])
    requires StripRight(Squeeze(s[1..], true)) == Join(" ", Words(s[1..]))
    requires Words(s[1..]) == [] <==> Join(" ", Words(s[1..])) == ""
    ensures StripRight(Squeeze(s, true)) == Join(" ", Words(s))
    ensures Squeeze(s, true) != "" && Squeeze(s, true)[0] == s[0] && Words(s) != [] && Join(" ", Words(s)) != ""
  {
    var y := Squeeze(s[1..], false);
    SqueezedStart(s[1..]);
    assert Squeeze(s, true) == [s[0]] + y;
    WordsGrow(s);
    hide Squeeze, Words, Join;
    StripRightAppend([s[0]], y);
    assert StripRight([s[0]]) == [s[0]];
  }

  lemma WordsBreak(s: string)
    requires |s| > 1 && !IsSpace(s[0]) && IsSpace(s[1])
    ensures Words(s) == [[s[0]]] + Words(s[1..])
    ensures Join(" ", Words(s)) == if Words(s[1..]) == [] then [s[0]] else [s[0]] + (" " + Join(" ", Words(s[1..])))
  {
    var rest := Words(s[1..]);
    assert ([[s[0]]] + rest)[1..] == rest;
  }

  lemma WordsGrow(s: string)
    requires |s| > 1 && !IsSpace(s[0]) && !IsSpace(s[1])
    ensures Words(s[1..]) != [] && Join(" ", Words(s)) == [s[0]] + Join(" ", Words(s[1..]))
  {
    var rest := Words(s[1..]);
    assert rest != [] by { assert s[1..][0] == s[1]; }
    assert Words(s) == [[s[0]] + rest[0]] + rest[1..];
    assert ([[s[0]] + rest[0]] + rest[1..])[1..] == rest[1..];
  }

  /** A description becomes its words, with one blank between them. */
  lemma NoteIsWords(text: string)
    ensures Strip(Squeeze(text, false)) == Join(" ", Words(text))
    ensures Words(text) == [] <==> Join(" ", Words(text)) == ""
  {
    SqueezedWords(text);
    if text == "" || !IsSpace(text[0]) {
      SqueezedStart(text);
    } else {
      var rest := Squeeze(text[1..], true);
      SqueezedWords(text[1..]);
      assert Squeeze(text, false) == " " + rest;
      assert (" " + rest)[1..] == rest && StripLeft(" " + rest) == StripLeft(rest) == rest;
    }
  }

  // ---- the lines of a stanza, piece by piece --------------------------------------------------------

  lemma MtuSets(mtu: Option<int>, k: Keyword)
    ensures Set(MtuLines(mtu), k) ==
      if k == Mtu && Given(mtu).Some? then Some(IntText(mtu.value)) else None
  {
    OtherKeywords();
    OtherKeysHaveNoBlank();
    SetNone(k);
    hide Set, KeyLine, KeywordOf, IntText;
    if Given(mtu).Some? { SetByKey("mtu", IntText(mtu.value), k); }
  }

  lemma NoteLineSets(text: string, k: Keyword)
    ensures Set(CommentLines(text), k) == if k == Note then NoteOf(text) else None
  {
    NoteIsWords(text);
    SetNone(k);
    var t := Strip(Squeeze(text, false));
    hide Words, Squeeze, Strip;
    if t != "" {
      SetOne("#" + t, k);
      NoteSets(t);
      hide Set, SettingOf;
      assert [(Note, t)][1..] == [];
    }
  }

  lemma TailSets(mtu: Option<int>, comment: string, k: Keyword)
    ensures Set(TailLines(mtu, comment), k) ==
      if k == Mtu && Given(mtu).Some? then Some(IntText(mtu.value))
      else if k == Note then NoteOf(comment) else None
  {
    MtuSets(mtu, k);
    NoteLineSets(comment, k);
    hide Set, MtuLines, CommentLines, NoteOf, IntText;
    SetConcat(MtuLines(mtu), CommentLines(comment), k);
  }

  lemma HashSets(hash: Option<Hash>, k: Keyword)
    ensures Set(HashLines(hash), k) == if k == HashWord && hash.Some? then Some(HashText(hash.value)) else None
  {
    BondKeywords();
    BondKeysHaveNoBlank();
    SetNone(k);
    hide Set, KeyLine, KeywordOf, HashText;
    if hash.Some? { SetByKey("bond-xmit-hash-policy", HashText(hash.value), k); }
  }

  lemma RateSets(rate: Option<LacpRate>, k: Keyword)
    ensures Set(RateLines(rate), k) == if k == RateWord && rate.Some? then Some(RateText(rate.value)) else None
  {
    BondKeywords();
    BondKeysHaveNoBlank();
    SetNone(k);
    hide Set, KeyLine, KeywordOf, RateText;
    if rate.Some? { SetByKey("bond-lacp-rate", RateText(rate.value), k); }
  }

  lemma PrimarySets(primary: Option<string>, k: Keyword)
    ensures Set(PrimaryLines(primary), k) == if k == PrimaryWord then primary else None
  {
    BondKeywords();
    BondKeysHaveNoBlank();
    SetNone(k);
    hide Set, KeyLine, KeywordOf;
    if primary.Some? { SetByKey("bond-primary", primary.value, k); }
  }

  lemma GatewaySets(gateway: Option<string>, k: Keyword)
    ensures Set(TextLines("gateway", gateway), k) == if k == Gateway then GivenText(gateway) else None
  {
    OtherKeywords();
    OtherKeysHaveNoBlank();
    SetNone(k);
    hide Set, KeyLine, KeywordOf;
    if GivenText(gateway).Some? { SetByKey("gateway", gateway.value, k); }
  }

  lemma AddressSets(address: Option<string>, gateway: Option<string>, k: Keyword)
    ensures Set(AddressLines(address, gateway), k) ==
      if k == Address then GivenText(address)
      else if k == Gateway && GivenText(address).Some? then GivenText(gateway) else None
  {
    OtherKeywords();
    OtherKeysHaveNoBlank();
    SetNone(k);
    GatewaySets(gateway, k);
    hide Set, KeyLine, KeywordOf, TextLines;
    if GivenText(address).Some? {
      SetByKey("address", address.value, k);
      SetConcat([KeyLine("address", address.value)], TextLines("gateway", gateway), k);
    }
  }

  lemma VlanSets(vids: Option<string>, k: Keyword)
    ensures Set(VlanLines(vids), k) ==
      if k == VlanAware && vids.Some? then Some("yes") else if k == Vids then vids else None
  {
    OtherKeywords();
    OtherKeysHaveNoBlank();
    SetNone(k);
    hide Set, KeyLine, KeywordOf;
    if vids.Some? {
      SetByKey("bridge-vlan-aware", "yes", k);
      SetByKey("bridge-vids", vids.value, k);
      SetConcat([KeyLine("bridge-vlan-aware", "yes")], [KeyLine("bridge-vids", vids.value)], k);
      assert [KeyLine("bridge-vlan-aware", "yes")] + [KeyLine("bridge-vids", vids.value)] == VlanLines(vids);
    }
  }

  lemma NamesSet(key: string, value: string, k: Keyword)
    requires key == "bond-slaves" || key == "bridge-ports"
    ensures Set([KeyLine(key, value)], k) == None
  {
    BondKeywords();
    OtherKeywords();
    BondKeysHaveNoBlank();
    OtherKeysHaveNoBlank();
    SetByKey(key, value, k);
  }

  // ---- the lines of a stanza, together ----------------------------------------------------------------

  lemma BondEndSets(s: Stanza, k: Keyword)
    requires s.BondStanza?
    ensures
      Set(HashLines(s.hash) + (RateLines(s.lacpRate) + (PrimaryLines(s.primary) + TailLines(s.mtu, s.comment))), k)
      == if k == HashWord && s.hash.Some? then Some(HashText(s.hash.value))
         else if k == RateWord && s.lacpRate.Some? then Some(RateText(s.lacpRate.value))
         else if k == PrimaryWord then s.primary
         else Set(TailLines(s.mtu, s.comment), k)
  {
    TailSets(s.mtu, s.comment, k);
    HashSets(s.hash, k);
    RateSets(s.lacpRate, k);
    PrimarySets(s.primary, k);
    hide *;
    var tail := TailLines(s.mtu, s.comment);
    SetConcat(PrimaryLines(s.primary), tail, k);
    SetConcat(RateLines(s.lacpRate), PrimaryLines(s.primary) + tail, k);
    SetConcat(HashLines(s.hash), RateLines(s.lacpRate) + (PrimaryLines(s.primary) + tail), k);
  }

  lemma BondBody(s: Stanza)
    requires s.BondStanza?
    ensures BodyLines(s) == [SlavesLine(s.slaves)] + ([MiimonLine(s.miimon)] + ([KeyLine("bond-mode", ModeText(s.mode))]
      + (HashLines(s.hash) + (RateLines(s.lacpRate) + (PrimaryLines(s.primary) + TailLines(s.mtu, s.comment))))))
  {
    hide SlavesLine, MiimonLine, KeyLine, ModeText, HashLines, RateLines, PrimaryLines, TailLines;
  }

  lemma MiimonSets(miimon: Option<int>, k: Keyword)
    ensures Set([MiimonLine(miimon)], k) ==
      if k == Miimon then Some(if miimon.Some? then IntText(miimon.value) else "None") else None
  {
    BondKeywords();
    BondKeysHaveNoBlank();
    hide Set, KeyLine, KeywordOf, IntText;
    SetByKey("bond-miimon", if miimon.Some? then IntText(miimon.value) else "None", k);
  }

  lemma ModeSets(mode: LagMode, k: Keyword)
    ensures Set([KeyLine("bond-mode", ModeText(mode))], k) == if k == ModeWord then Some(ModeText(mode)) else None
  {
    BondKeywords();
    BondKeysHaveNoBlank();
    hide Set, KeyLine, KeywordOf, ModeText;
    SetByKey("bond-mode", ModeText(mode), k);
  }

  lemma SlavesSet(slaves: seq<string>, k: Keyword)
    ensures Set([SlavesLine(slaves)], k) == None
  {
    hide Set, KeyLine;
    NamesSet("bond-slaves", Join(" ", slaves), k);
  }

  lemma BondSets(s: Stanza, k: Keyword)
    requires s.BondStanza?
    ensures Set(BodyLines(s), k) ==
      if k == Miimon then Some(if s.miimon.Some? then IntText(s.miimon.value) else "None")
      else if k == ModeWord then Some(ModeText(s.mode))
      else if k == HashWord && s.hash.Some? then Some(HashText(s.hash.value))
      else if k == RateWord && s.lacpRate.Some? then Some(RateText(s.lacpRate.value))
      else if k == PrimaryWord then s.primary
      else Set(TailLines(s.mtu, s.comment), k)
  {
    hide *;
    BondBody(s);
    TailSets(s.mtu, s.comment, k);
    SlavesSet(s.slaves, k);
    MiimonSets(s.miimon, k);
    ModeSets(s.mode, k);
    BondEndSets(s, k);
    var end := HashLines(s.hash) + (RateLines(s.lacpRate) + (PrimaryLines(s.primary) + TailLines(s.mtu, s.comment)));
    var mode := [KeyLine("bond-mode", ModeText(s.mode))];
    SetConcat(mode, end, k);
    SetConcat([MiimonLine(s.miimon)], mode + end, k);
    SetConcat([SlavesLine(s.slaves)], [MiimonLine(s.miimon)] + (mode + end), k);
  }

  lemma BridgeBody(s: Stanza)
    requires s.BridgeStanza?
    ensures BodyLines(s) == AddressLines(s.address, s.gateway) + ([PortsLine(s.ports)] + ([KeyLine("bridge-stp", "off")]
      + ([KeyLine("bridge-fd", "0")] + (VlanLines(s.vids) + TailLines(s.mtu, s.comment)))))
  {
    hide AddressLines, PortsLine, KeyLine, VlanLines, TailLines;
  }

  lemma PortsSet(ports: seq<string>, k: Keyword)
    ensures Set([PortsLine(ports)], k) == None
  {
    hide Set, KeyLine;
    NamesSet("bridge-ports", if ports == [] then "none" else Join(" ", ports), k);
  }

  lemma FixedSets(k: Keyword)
    ensures Set([KeyLine("bridge-stp", "off")], k) == if k == Stp then Some("off") else None
    ensures Set([KeyLine("bridge-fd", "0")], k) == if k == ForwardDelay then Some("0") else None
  {
    OtherKeywords();
    OtherKeysHaveNoBlank();
    hide Set, KeyLine, KeywordOf;
    SetByKey("bridge-stp", "off", k);
    SetByKey("bridge-fd", "0", k);
  }

  lemma BridgeSets(s: Stanza, k: Keyword)
    requires s.BridgeStanza?
    ensures Set(BodyLines(s), k) ==
      if k == Address then GivenText(s.address)
      else if k == Gateway then if GivenText(s.address).Some? then GivenText(s.gateway) else None
      else if k == Stp then Some("off") else if k == ForwardDelay then Some("0")
      else if k == VlanAware then if s.vids.Some? then Some("yes") else None
      else if k == Vids then s.vids
      else Set(TailLines(s.mtu, s.comment), k)
  {
    hide *;
    BridgeBody(s);
    TailSets(s.mtu, s.comment, k);
    PortsSet(s.ports, k);
    AddressSets(s.address, s.gateway, k);
    FixedSets(k);
    VlanSets(s.vids, k);
    var end := VlanLines(s.vids) + TailLines(s.mtu, s.comment);
    var fd, stp := [KeyLine("bridge-fd", "0")], [KeyLine("bridge-stp", "off")];
    SetConcat(VlanLines(s.vids), TailLines(s.mtu, s.comment), k);
    SetConcat(fd, end, k);
    SetConcat(stp, fd + end, k);
    SetConcat([PortsLine(s.ports)], stp + (fd + end), k);
    SetConcat(AddressLines(s.address, s.gateway), [PortsLine(s.ports)] + (stp + (fd + end)), k);
  }

  // ---- the values of a stanza -----------------------------------------------------------------------------

  lemma ModeReads(m: LagMode)
    ensures ReadMode(Some(ModeText(m))) == if m.UnknownMode? then None else Some(m)
  {
    assert |"balance-rr"| == 10 && |"active-backup"| == 13 && |"balance-xor"| == 11 && |"broadcast"| == 9;
    assert |"802.3ad"| == 7 && |"balance-tlb"| == 11 && |"balance-alb"| == 11 && |"None"| == 4;
    assert "balance-xor"[8] == 'x' && "balance-tlb"[8] == 't' && "balance-alb"[8] == 'a';
  }

  lemma HashReads(h: Hash)
    ensures ReadHash(Some(HashText(h))) == if h.UnknownHash? then None else Some(h)
  {
    assert |"layer2"| == 6 && |"layer2+3"| == 8 && |"layer3+4"| == 8 && |"encap2+3"| == 8 && |"encap3+4"| == 8;
    assert |"vlan+srcmac"| == 11 && |"None"| == 4;
    assert "layer2+3"[5] == '2' && "layer3+4"[5] == '3' && "encap2+3"[5] == '2' && "encap3+4"[5] == '3';
    assert "layer2+3"[0] == 'l' && "layer3+4"[0] == 'l' && "encap2+3"[0] == 'e' && "encap3+4"[0] == 'e';
  }

  lemma RateReads(r: LacpRate)
    ensures ReadRate(Some(RateText(r))) == Some(r)
  {
    assert "slow"[0] == 's' && "fast"[0] == 'f';
  }

  lemma PlainNumbers()
    ensures ReadInt("None") == None && ReadInt("0") == Some(0)
  {
    IntTextReads(0);
    assert IntText(0) == "0";
    assert "None"[0] == 'N' && !IsDigit("None"[0]);
  }

  /** What a keyword should read as in a stanza. */
  function Written(s: Stanza, k: Keyword): Option<string> { Set(BodyLines(s), k) }

  lemma LoopbackWrites(k: Keyword)
    ensures Set(BodyLines(Loopback), k) == None
  {
    SetNone(k);
  }

  lemma DecodeIs(s: Stanza)
    ensures Decode(FlatMap(SettingOf, BodyLines(s))) ==
      Options(Number(Written(s, Mtu)), Number(Written(s, Miimon)), ReadMode(Written(s, ModeWord)),
              ReadHash(Written(s, HashWord)), ReadRate(Written(s, RateWord)), Written(s, PrimaryWord),
              Written(s, Address), Written(s, Gateway), Written(s, Stp), Number(Written(s, ForwardDelay)),
              Written(s, VlanAware), Written(s, Vids), Written(s, Note))
  {
    hide BodyLines, Value, Number, ReadMode, ReadHash, ReadRate, SettingOf;
  }

  lemma MtuReads(mtu: Option<int>)
    ensures Number(if Given(mtu).Some? then Some(IntText(mtu.value)) else None) == Given(mtu)
  {
    if mtu.Some? { IntTextReads(mtu.value); }
  }

  lemma MiimonReads(miimon: Option<int>)
    ensures Number(Some(if miimon.Some? then IntText(miimon.value) else "None")) == miimon
  {
    PlainNumbers();
    if miimon.Some? { IntTextReads(miimon.value); }
  }

  lemma AbsentReads()
    ensures Number(None) == None && ReadMode(None) == None && ReadHash(None) == None && ReadRate(None) == None
  {}

  lemma PortOptions(s: Stanza)
    requires s.PortStanza? || s.Loopback?
    ensures Decode(FlatMap(SettingOf, BodyLines(s))) == OptionsOf(s)
  {
    DecodeIs(s);
    AbsentReads();
    if s.PortStanza? {
      MtuReads(s.mtu);
      assert BodyLines(s) == TailLines(s.mtu, s.comment);
    }
    forall k ensures Written(s, k) ==
      if s.Loopback? then None else if k == Mtu && Given(s.mtu).Some? then Some(IntText(s.mtu.value))
      else if k == Note then NoteOf(s.comment) else None
    {
      if s.PortStanza? { TailSets(s.mtu, s.comment, k); } else { LoopbackWrites(k); }
    }
    hide Number, ReadMode, ReadHash, ReadRate, Written, Decode, BodyLines, IntText, NoteOf;
  }

  lemma BondWrites(s: Stanza, k: Keyword)
    requires s.BondStanza?
    ensures Written(s, k) ==
      if k == Miimon then Some(if s.miimon.Some? then IntText(s.miimon.value) else "None")
      else if k == ModeWord then Some(ModeText(s.mode))
      else if k == HashWord && s.hash.Some? then Some(HashText(s.hash.value))
      else if k == RateWord && s.lacpRate.Some? then Some(RateText(s.lacpRate.value))
      else if k == PrimaryWord then s.primary
      else if k == Mtu && Given(s.mtu).Some? then Some(IntText(s.mtu.value))
      else if k == Note then NoteOf(s.comment) else None
  {
    hide BodyLines, IntText, NoteOf, Set, ModeText, HashText, RateText, TailLines, Given;
    TailSets(s.mtu, s.comment, k);
    BondSets(s, k);
  }

  lemma BondWritten(s: Stanza)
    requires s.BondStanza?
    ensures Written(s, Mtu) == if Given(s.mtu).Some? then Some(IntText(s.mtu.value)) else None
    ensures Written(s, Miimon) == Some(if s.miimon.Some? then IntText(s.miimon.value) else "None")
    ensures Written(s, ModeWord) == Some(ModeText(s.mode))
    ensures Written(s, HashWord) == if s.hash.Some? then Some(HashText(s.hash.value)) else None
    ensures Written(s, RateWord) == if s.lacpRate.Some? then Some(RateText(s.lacpRate.value)) else None
    ensures Written(s, PrimaryWord) == s.primary && Written(s, Note) == NoteOf(s.comment)
    ensures Written(s, Address) == Written(s, Gateway) == Written(s, Stp) == Written(s, ForwardDelay) == None
    ensures Written(s, VlanAware) == Written(s, Vids) == None
  {
    hide *;
    BondWrites(s, Mtu); BondWrites(s, Miimon); BondWrites(s, ModeWord); BondWrites(s, HashWord);
    BondWrites(s, RateWord); BondWrites(s, PrimaryWord); BondWrites(s, Address); BondWrites(s, Gateway);
    BondWrites(s, Stp); BondWrites(s, ForwardDelay); BondWrites(s, VlanAware); BondWrites(s, Vids);
    BondWrites(s, Note);
  }

  lemma BondOptionsAre(s: Stanza)
    requires s.BondStanza?
    ensures OptionsOf(s) ==
      Options(Given(s.mtu), s.miimon, if s.mode.UnknownMode? then None else Some(s.mode),
              if s.hash == Some(UnknownHash) then None else s.hash, s.lacpRate, s.primary,
              None, None, None, None, None, None, NoteOf(s.comment))
  {
    hide NoteOf, Given;
  }

  lemma BondOptions(s: Stanza)
    requires s.BondStanza?
    ensures Decode(FlatMap(SettingOf, BodyLines(s))) == OptionsOf(s)
  {
    hide *;
    DecodeIs(s);
    BondWritten(s);
    BondOptionsAre(s);
    AbsentReads();
    MtuReads(s.mtu);
    MiimonReads(s.miimon);
    ModeReads(s.mode);
    if s.hash.Some? { HashReads(s.hash.value); }
    if s.lacpRate.Some? { RateReads(s.lacpRate.value); }
  }

  lemma BridgeWrites(s: Stanza, k: Keyword)
    requires s.BridgeStanza?
    ensures Written(s, k) ==
      if k == Address then GivenText(s.address)
      else if k == Gateway then if GivenText(s.address).Some? then GivenText(s.gateway) else None
      else if k == Stp then Some("off") else if k == ForwardDelay then Some("0")
      else if k == VlanAware then if s.vids.Some? then Some("yes") else None
      else if k == Vids then s.vids
      else if k == Mtu && Given(s.mtu).Some? then Some(IntText(s.mtu.value))
      else if k == Note then NoteOf(s.comment) else None
  {
    hide BodyLines, IntText, NoteOf, Set, TailLines, Given, GivenText;
    TailSets(s.mtu, s.comment, k);
    BridgeSets(s, k);
  }

  lemma BridgeWritten(s: Stanza)
    requires s.BridgeStanza?
    ensures Written(s, Mtu) == if Given(s.mtu).Some? then Some(IntText(s.mtu.value)) else None
    ensures Written(s, Address) == GivenText(s.address)
    ensures Written(s, Gateway) == if GivenText(s.address).Some? then GivenText(s.gateway) else None
    ensures Written(s, Stp) == Some("off") && Written(s, ForwardDelay) == Some("0")
    ensures Written(s, VlanAware) == if s.vids.Some? then Some("yes") else None
    ensures Written(s, Vids) == s.vids && Written(s, Note) == NoteOf(s.comment)
    ensures Written(s, Miimon) == Written(s, ModeWord) == Written(s, HashWord) == Written(s, RateWord) == None
    ensures Written(s, PrimaryWord) == None
  {
    hide *;
    BridgeWrites(s, Mtu); BridgeWrites(s, Miimon); BridgeWrites(s, ModeWord); BridgeWrites(s, HashWord);
    BridgeWrites(s, RateWord); BridgeWrites(s, PrimaryWord); BridgeWrites(s, Address); BridgeWrites(s, Gateway);
    BridgeWrites(s, Stp); BridgeWrites(s, ForwardDelay); BridgeWrites(s, VlanAware); BridgeWrites(s, Vids);
    BridgeWrites(s, Note);
  }

  lemma BridgeOptionsAre(s: Stanza)
    requires s.BridgeStanza?
    ensures OptionsOf(s) ==
      Options(Given(s.mtu), None, None, None, None, None, GivenText(s.address),
              if GivenText(s.address).Some? then GivenText(s.gateway) else None, Some("off"), Some(0),
              if s.vids.Some? then Some("yes") else None, s.vids, NoteOf(s.comment))
  {
    hide NoteOf, Given, GivenText;
  }

  lemma BridgeOptions(s: Stanza)
    requires s.BridgeStanza?
    ensures Decode(FlatMap(SettingOf, BodyLines(s))) == OptionsOf(s)
  {
    hide *;
    DecodeIs(s);
    BridgeWritten(s);
    BridgeOptionsAre(s);
    AbsentReads();
    MtuReads(s.mtu);
    ZeroReads();
  }

  lemma ZeroReads()
    ensures Number(Some("0")) == Some(0)
  {
    PlainNumbers();
  }

  /** The options that the lines of a stanza set are exactly those of the stanza:
      each field that is given reads back, and one that is not given is not set. */
  lemma OptionsRead(s: Stanza)
    ensures Decode(FlatMap(SettingOf, BodyLines(s))) == OptionsOf(s)
  {
    hide Decode, BodyLines, OptionsOf;
    if s.BondStanza? {
      BondOptions(s);
    } else if s.BridgeStanza? {
      BridgeOptions(s);
    } else {
      PortOptions(s);
    }
  }
}

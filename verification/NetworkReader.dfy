/** A reader of /etc/network/interfaces: which interfaces a file has, what each
    of them enslaves, and its options, with word tables of its own. */
module NetworkReader {
  import opened Prelude
  import opened NetworkModel

  /** The lines of a stanza after its head that are no names: options by keyword,
      and comments. */
  datatype Keyword =
    | Mtu | Miimon | ModeWord | HashWord | RateWord | PrimaryWord | Address | Gateway | Stp | ForwardDelay
    | VlanAware | Vids | Note

  /** The options of one interface. */
  datatype Options = Options(
    mtu: Option<int>, miimon: Option<int>, mode: Option<LagMode>, hash: Option<Hash>, lacpRate: Option<LacpRate>,
    primary: Option<string>, address: Option<string>, gateway: Option<string>, stp: Option<string>,
    forwardDelay: Option<int>, vlanAware: Option<string>, vids: Option<string>, note: Option<string>)

  /** One `iface` of the file: its name and method, its bond-slaves or
      bridge-ports, and its options. */
  datatype Entry = Entry(name: string, way: string, children: seq<string>, options: Options)

  // ---- the words of a line ---------------------------------------------------------------

  function IfaceOf(line: string): Option<string> {
    var words := Split(' ', line);
    if words[0] == "iface" && |words| > 1 then Some(words[1]) else None
  }

  /** The method of an `iface name inet method` line. */
  function WayOf(line: string): string {
    var words := Split(' ', line);
    if |words| > 3 then words[3] else ""
  }

  const SLAVES := "\t" + "bond-slaves"
  const PORTS := "\t" + "bridge-ports"

  function ChildrenOf(line: string): seq<string> {
    var words := Split(' ', line);
    if words[0] == SLAVES then words[1..]
    else if words[0] == PORTS && words[1..] != ["none"] then words[1..]
    else []
  }

  function KeywordOf(word: string): Option<Keyword> {
    if word == "mtu" then Some(Mtu)
    else if word == "bond-miimon" then Some(Miimon)
    else if word == "bond-mode" then Some(ModeWord)
    else if word == "bond-xmit-hash-policy" then Some(HashWord)
    else if word == "bond-lacp-rate" then Some(RateWord)
    else if word == "bond-primary" then Some(PrimaryWord)
    else if word == "address" then Some(Address)
    else if word == "gateway" then Some(Gateway)
    else if word == "bridge-stp" then Some(Stp)
    else if word == "bridge-fd" then Some(ForwardDelay)
    else if word == "bridge-vlan-aware" then Some(VlanAware)
    else if word == "bridge-vids" then Some(Vids)
    else None
  }

  /** The option that a line sets: a tab, the keyword, a blank, the value; or the
      note after a '#'. */
  function SettingOf(line: string): seq<(Keyword, string)> {
    if line == "" then []
    else if line[0] == '#' then [(Note, line[1..])]
    else if line[0] != '\t' then []
    else
      var words := Split(' ', line[1..]);
      match KeywordOf(words[0])
      case Some(k) => if |words| > 1 then [(k, Join(" ", words[1..]))] else []
      case None => []
  }

  // ---- values -------------------------------------------------------------------------------

  /** The first value that is set for a keyword. */
  function Value(settings: seq<(Keyword, string)>, k: Keyword): Option<string> {
    if settings == [] then None
    else if settings[0].0 == k then Some(settings[0].1) else Value(settings[1..], k)
  }

  function Number(text: Option<string>): Option<int> { if text.Some? then ReadInt(text.value) else None }

  function ReadMode(text: Option<string>): Option<LagMode> {
    if text == Some("balance-rr") then Some(BalanceRr)
    else if text == Some("active-backup") then Some(ActiveBackup)
    else if text == Some("balance-xor") then Some(BalanceXor)
    else if text == Some("broadcast") then Some(Broadcast)
    else if text == Some("802.3ad") then Some(Ieee8023ad)
    else if text == Some("balance-tlb") then Some(BalanceTlb)
    else if text == Some("balance-alb") then Some(BalanceAlb)
    else None
  }

  function ReadHash(text: Option<string>): Option<Hash> {
    if text == Some("layer2") then Some(Layer2)
    else if text == Some("layer2+3") then Some(Layer23)
    else if text == Some("layer3+4") then Some(Layer34)
    else if text == Some("encap2+3") then Some(Encap23)
    else if text == Some("encap3+4") then Some(Encap34)
    else if text == Some("vlan+srcmac") then Some(VlanSrcmac)
    else None
  }

  function ReadRate(text: Option<string>): Option<LacpRate> {
    if text == Some("slow") then Some(Slow) else if text == Some("fast") then Some(Fast) else None
  }

  function Decode(settings: seq<(Keyword, string)>): Options {
    Options(Number(Value(settings, Mtu)), Number(Value(settings, Miimon)), ReadMode(Value(settings, ModeWord)),
            ReadHash(Value(settings, HashWord)), ReadRate(Value(settings, RateWord)), Value(settings, PrimaryWord),
            Value(settings, Address), Value(settings, Gateway), Value(settings, Stp),
            Number(Value(settings, ForwardDelay)), Value(settings, VlanAware), Value(settings, Vids),
            Value(settings, Note))
  }

  // ---- the file ---------------------------------------------------------------------------------

  /** The children named before the next interface. */
  function ChildrenIn(lines: seq<string>): seq<string> {
    if lines == [] || IfaceOf(lines[0]).Some? then [] else ChildrenOf(lines[0]) + ChildrenIn(lines[1..])
  }

  /** The options set before the next interface. */
  function SettingsIn(lines: seq<string>): seq<(Keyword, string)> {
    if lines == [] || IfaceOf(lines[0]).Some? then [] else SettingOf(lines[0]) + SettingsIn(lines[1..])
  }

  function ReadLines(lines: seq<string>): seq<Entry> {
    if lines == [] then []
    else
      match IfaceOf(lines[0])
      case Some(name) =>
        [Entry(name, WayOf(lines[0]), ChildrenIn(lines[1..]), Decode(SettingsIn(lines[1..])))] + ReadLines(lines[1..])
      case None => ReadLines(lines[1..])
  }

  function ReadFile(text: string): seq<Entry> { ReadLines(Split('\n', text)) }
}

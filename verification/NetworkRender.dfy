/** render_interfaces: /etc/network/interfaces from the model and the names
    that the node's NICs have. */
module NetworkRender {
  import opened Prelude
  import opened NetworkModel

  /** One entry of the file; slaves and ports are Linux names. */
  datatype Stanza =
    | Loopback
    | PortStanza(name: string, mtu: Option<int>, comment: string)
    | BondStanza(name: string, slaves: seq<string>, miimon: Option<int>, mode: LagMode, hash: Option<Hash>,
                 lacpRate: Option<LacpRate>, primary: Option<string>, mtu: Option<int>, comment: string)
    | BridgeStanza(name: string, address: Option<string>, gateway: Option<string>, ports: seq<string>,
                   vids: Option<string>, mtu: Option<int>, comment: string)

  function StanzaName(s: Stanza): string { if s.Loopback? then "lo" else s.name }

  /** lname: the Linux name where there is one, else the Nautobot name. */
  function LinuxName(model: Model, names: map<string, string>, id: string): string {
    if id in names && names[id] != "" then names[id] else if id in model.names then model.names[id] else ""
  }

  function PortEntry(model: Model, names: map<string, string>, p: Port): Stanza {
    PortStanza(LinuxName(model, names, p.id), p.mtu, p.description)
  }

  function BondEntry(model: Model, names: map<string, string>, b: Bond): Stanza {
    BondStanza(b.name, Sort(StrLe, Map((m: string) => LinuxName(model, names, m), b.members)), b.miimon, b.mode,
               b.xmitHash, b.lacpRate, if b.primary.Some? then Some(LinuxName(model, names, b.primary.value)) else None,
               b.mtu, b.description)
  }

  function BridgeEntry(model: Model, names: map<string, string>, b: BridgeModel): Stanza {
    BridgeStanza(b.name, b.address, b.gateway, Map((m: string) => LinuxName(model, names, m), b.ports), b.vids, b.mtu,
                 b.description)
  }

  predicate LinuxNameLe(model: Model, names: map<string, string>, a: Port, b: Port) {
    StrLe(LinuxName(model, names, a.id), LinuxName(model, names, b.id))
  }

  function SortedPorts(model: Model, names: map<string, string>): seq<Port> {
    Sort((a: Port, b: Port) => LinuxNameLe(model, names, a, b), model.ports)
  }

  function PortEntries(model: Model, names: map<string, string>): seq<Stanza> {
    Map((p: Port) => PortEntry(model, names, p), SortedPorts(model, names))
  }

  function BondEntries(model: Model, names: map<string, string>): seq<Stanza> {
    Map((b: Bond) => BondEntry(model, names, b), model.bonds)
  }

  function BridgeEntries(model: Model, names: map<string, string>): seq<Stanza> {
    Map((b: BridgeModel) => BridgeEntry(model, names, b), model.bridges)
  }

  function Stanzas(model: Model, names: map<string, string>): seq<Stanza> {
    [Loopback] + PortEntries(model, names) + BondEntries(model, names) + BridgeEntries(model, names)
  }

  // ---- the text ----------------------------------------------------------------------

  /** `re.sub(r"\s+", " ", text)`; space says that the last character was one. */
  function Squeeze(text: string, space: bool): string {
    if text == "" then ""
    else if IsSpace(text[0]) then (if space then "" else " ") + Squeeze(text[1..], true)
    else [text[0]] + Squeeze(text[1..], false)
  }

  /** The lines, each with its end. */
  function EndLines(lines: seq<string>): string {
    if lines == [] then "" else lines[0] + "\n" + EndLines(lines[1..])
  }

  function CommentLines(text: string): seq<string> {
    var t := Strip(Squeeze(text, false));
    if t == "" then [] else ["#" + t]
  }

  function ModeText(m: LagMode): string {
    match m
    case BalanceRr => "balance-rr"
    case ActiveBackup => "active-backup"
    case BalanceXor => "balance-xor"
    case Broadcast => "broadcast"
    case Ieee8023ad => "802.3ad"
    case BalanceTlb => "balance-tlb"
    case BalanceAlb => "balance-alb"
    case UnknownMode => "None"
  }

  function HashText(h: Hash): string {
    match h
    case Layer2 => "layer2"
    case Layer23 => "layer2+3"
    case Layer34 => "layer3+4"
    case Encap23 => "encap2+3"
    case Encap34 => "encap3+4"
    case VlanSrcmac => "vlan+srcmac"
    case UnknownHash => "None"
  }

  function RateText(r: LacpRate): string { if r.Slow? then "slow" else "fast" }

  /** A line of a stanza. */
  function KeyLine(key: string, value: string): string { "\t" + key + " " + value }

  /** A line that is written only for a value that is not empty. */
  function TextLines(key: string, value: Option<string>): seq<string> {
    if value.Some? && value.value != "" then [KeyLine(key, value.value)] else []
  }

  function MtuLines(mtu: Option<int>): seq<string> {
    if mtu.Some? && mtu.value != 0 then [KeyLine("mtu", IntText(mtu.value))] else []
  }

  function Head(name: string, way: string): seq<string> {
    ["auto " + name, "iface " + name + " inet " + way]
  }

  function SlavesLine(slaves: seq<string>): string { KeyLine("bond-slaves", Join(" ", slaves)) }

  function PortsLine(ports: seq<string>): string {
    KeyLine("bridge-ports", if ports == [] then "none" else Join(" ", ports))
  }

  function MiimonLine(miimon: Option<int>): string {
    KeyLine("bond-miimon", if miimon.Some? then IntText(miimon.value) else "None")
  }

  function HashLines(hash: Option<Hash>): seq<string> {
    if hash.Some? then [KeyLine("bond-xmit-hash-policy", HashText(hash.value))] else []
  }

  function RateLines(rate: Option<LacpRate>): seq<string> {
    if rate.Some? then [KeyLine("bond-lacp-rate", RateText(rate.value))] else []
  }

  function PrimaryLines(primary: Option<string>): seq<string> {
    if primary.Some? then [KeyLine("bond-primary", primary.value)] else []
  }

  function AddressLines(address: Option<string>, gateway: Option<string>): seq<string> {
    if address.Some? && address.value != ""
    then [KeyLine("address", address.value)] + TextLines("gateway", gateway) else []
  }

  function VlanLines(vids: Option<string>): seq<string> {
    if vids.Some? then [KeyLine("bridge-vlan-aware", "yes"), KeyLine("bridge-vids", vids.value)] else []
  }

  /** The lines that all stanzas may end with. */
  function TailLines(mtu: Option<int>, comment: string): seq<string> { MtuLines(mtu) + CommentLines(comment) }

  /** What follows the head of a stanza. */
  function BodyLines(s: Stanza): seq<string> {
    match s
    case Loopback => []
    case PortStanza(_, mtu, comment) => TailLines(mtu, comment)
    case BondStanza(_, slaves, _, _, _, _, _, _, _) => [SlavesLine(slaves)] + BackLines(s)
    case BridgeStanza(_, address, gateway, ports, _, _, _) =>
      AddressLines(address, gateway) + ([PortsLine(ports)] + BackLines(s))
  }

  /** What follows the slaves of a bond or the ports of a bridge. */
  function BackLines(s: Stanza): seq<string> {
    match s
    case BondStanza(_, _, miimon, mode, hash, lacpRate, primary, mtu, comment) =>
      [MiimonLine(miimon)] + ([KeyLine("bond-mode", ModeText(mode))] + (HashLines(hash) +
        (RateLines(lacpRate) + (PrimaryLines(primary) + TailLines(mtu, comment)))))
    case BridgeStanza(_, _, _, _, vids, mtu, comment) =>
      [KeyLine("bridge-stp", "off")] + ([KeyLine("bridge-fd", "0")] + (VlanLines(vids) + TailLines(mtu, comment)))
    case _ => []
  }

  function Way(s: Stanza): string {
    if s.Loopback? then "loopback"
    else if s.BridgeStanza? && s.address.Some? && s.address.value != "" then "static" else "manual"
  }

  function StanzaLines(s: Stanza): seq<string> { Head(StanzaName(s), Way(s)) + BodyLines(s) }

  function StanzaText(s: Stanza): string { EndLines(StanzaLines(s)) }

  const DROP_INS := "/etc/network/interfaces.d/*"
  const SOURCE_LINE := "source" + " " + DROP_INS + "\n"

  function Render(header: string, model: Model, names: map<string, string>): string {
    Join("\n", [header] + Map(StanzaText, Stanzas(model, names)) + [SOURCE_LINE])
  }

  method RenderInterfaces(header: string, model: Model, names: map<string, string>) returns (text: string)
    ensures text == Render(header, model, names)
  {
    hide StanzaText, PortEntry, BondEntry, BridgeEntry;
    var out := [Loopback];
    var ports := Collect((p: Port) => PortEntry(model, names, p), SortedPorts(model, names));
    var bonds := Collect((b: Bond) => BondEntry(model, names, b), model.bonds);
    var bridges := Collect((b: BridgeModel) => BridgeEntry(model, names, b), model.bridges);
    out := out + ports + bonds + bridges;
    var texts := Collect(StanzaText, out);
    return Join("\n", [header] + texts + [SOURCE_LINE]);
  }

  // ---- what is in the file ---------------------------------------------------------------

  lemma MapMembers<T(!new)>(f: T -> Stanza, s: seq<T>, y: Stanza)
    ensures y in Map(f, s) <==> exists x :: x in s && y == f(x)
  {
    MapMember(f, s, y);
    if x :| x in s && y == f(x) {
      var i :| 0 <= i < |s| && s[i] == x;
    }
    if i :| 0 <= i < |s| && y == f(s[i]) { assert s[i] in s; }
  }

  lemma StanzaMember(model: Model, names: map<string, string>, s: Stanza)
    ensures s in Stanzas(model, names) <==>
      || s == Loopback
      || (exists p :: p in model.ports && s == PortEntry(model, names, p))
      || (exists b :: b in model.bonds && s == BondEntry(model, names, b))
      || (exists b :: b in model.bridges && s == BridgeEntry(model, names, b))
  {
    hide PortEntry, BondEntry, BridgeEntry, LinuxNameLe;
    PermutationMembers(SortedPorts(model, names), model.ports);
    MapMembers((p: Port) => PortEntry(model, names, p), SortedPorts(model, names), s);
    MapMembers((b: Bond) => BondEntry(model, names, b), model.bonds, s);
    MapMembers((b: BridgeModel) => BridgeEntry(model, names, b), model.bridges, s);
    FourParts([Loopback], PortEntries(model, names), BondEntries(model, names), BridgeEntries(model, names), s);
  }

  lemma FourParts(a: seq<Stanza>, b: seq<Stanza>, c: seq<Stanza>, d: seq<Stanza>, s: Stanza)
    ensures s in a + b + c + d <==> s in a || s in b || s in c || s in d
  {}
}

/** match_ports: the ports of the model found among the node's NICs by MAC. */
module NetworkMatch {
  import opened Prelude
  import opened NetworkModel

  /** One line of `ip -o link show`. */
  datatype Link = Link(name: string, mac: Option<string>, permaddr: Option<string>)

  datatype MatchProblem =
    | NotFound(port: string)
    | SeveralNics(port: string)
    | SameNic(port: string, other: string)

  /** The permanent address where there is one; "" stands for no address. */
  function LinkMac(l: Link): string {
    if l.permaddr.Some? && l.permaddr.value != "" then l.permaddr.value
    else if l.mac.Some? then l.mac.value else ""
  }

  /** by_mac[mac]: the physical NICs with the address, as listed. */
  function Hits(links: seq<Link>, physical: set<string>, mac: string): seq<string> {
    Map((l: Link) => l.name, Filter((l: Link) => l.name in physical && LinkMac(l) == mac, links))
  }

  /** Every port has one NIC, and no two ports the same. */
  ghost predicate Matched(ports: seq<Port>, links: seq<Link>, physical: set<string>) {
    && (forall i :: 0 <= i < |ports| ==> |Hits(links, physical, ports[i].mac)| == 1)
    && (forall i, j :: 0 <= i < j < |ports| ==>
      Hits(links, physical, ports[i].mac) != Hits(links, physical, ports[j].mac))
  }

  /** names maps exactly the ports, each to the NIC with its MAC. */
  ghost predicate Names(names: map<string, string>, ports: seq<Port>, links: seq<Link>, physical: set<string>) {
    && (forall id :: id in names <==> exists i :: 0 <= i < |ports| && ports[i].id == id)
    && (forall i :: 0 <= i < |ports| ==>
      ports[i].id in names && Hits(links, physical, ports[i].mac) == [names[ports[i].id]])
  }

  lemma HitsSnoc(links: seq<Link>, l: Link, physical: set<string>, mac: string)
    ensures Hits(links + [l], physical, mac) ==
      Hits(links, physical, mac) + if l.name in physical && LinkMac(l) == mac then [l.name] else []
  {
    var p := (l: Link) => l.name in physical && LinkMac(l) == mac;
    FilterSnoc(p, links, l);
    if p(l) {
      MapSnoc((l: Link) => l.name, Filter(p, links), l);
    } else {
      assert Filter(p, links) + [] == Filter(p, links);
    }
  }

  function Listed(byMac: map<string, seq<string>>, mac: string): seq<string> {
    if mac in byMac then byMac[mac] else []
  }

  method ByMac(links: seq<Link>, physical: set<string>) returns (byMac: map<string, seq<string>>)
    ensures forall mac :: mac != "" ==> Listed(byMac, mac) == Hits(links, physical, mac)
    ensures "" !in byMac
  {
    byMac := map[];
    assert forall mac :: Hits(links[..0], physical, mac) == [];
    hide Hits, LinkMac;
    for i := 0 to |links|
      invariant "" !in byMac
      invariant forall mac :: mac != "" ==> Listed(byMac, mac) == Hits(links[..i], physical, mac)
    {
      var l := links[i];
      assert links[..i + 1] == links[..i] + [l];
      forall mac ensures Hits(links[..i + 1], physical, mac) ==
        Hits(links[..i], physical, mac) + if l.name in physical && LinkMac(l) == mac then [l.name] else []
      {
        HitsSnoc(links[..i], l, physical, mac);
      }
      if l.name !in physical || LinkMac(l) == "" { continue; }
      byMac := byMac[LinkMac(l) := Listed(byMac, LinkMac(l)) + [l.name]];
    }
    assert links[..|links|] == links;
  }

  lemma MatchedSnoc(ports: seq<Port>, k: nat, links: seq<Link>, physical: set<string>)
    requires k < |ports|
    ensures Matched(ports[..k + 1], links, physical) <==>
      Matched(ports[..k], links, physical) && |Hits(links, physical, ports[k].mac)| == 1
        && forall i :: 0 <= i < k ==> Hits(links, physical, ports[i].mac) != Hits(links, physical, ports[k].mac)
  {
    hide Hits;
    var front, more := ports[..k], ports[..k + 1];
    assert forall i :: 0 <= i < k ==> more[i] == front[i] == ports[i];
    assert more[k] == ports[k];
    if Matched(more, links, physical) {
      forall i, j | 0 <= i < j < k ensures Hits(links, physical, front[i].mac) != Hits(links, physical, front[j].mac) {
        assert more[i] == front[i] && more[j] == front[j];
      }
      forall i | 0 <= i < k ensures Hits(links, physical, ports[i].mac) != Hits(links, physical, ports[k].mac) {
        assert more[i] == ports[i];
      }
    }
  }

  lemma NamesSnoc(names: map<string, string>, ports: seq<Port>, k: nat, links: seq<Link>, physical: set<string>)
    requires DistinctKeys(PortId, ports) && k < |ports| && Names(names, ports[..k], links, physical)
    requires |Hits(links, physical, ports[k].mac)| == 1
    ensures Names(names[ports[k].id := Hits(links, physical, ports[k].mac)[0]], ports[..k + 1], links, physical)
  {
    hide Hits;
    var front, more := ports[..k], ports[..k + 1];
    var names' := names[ports[k].id := Hits(links, physical, ports[k].mac)[0]];
    assert more == front + [ports[k]];
    forall id ensures id in names' <==> exists i :: 0 <= i < |more| && more[i].id == id {
      if id in names {
        var i :| 0 <= i < |front| && front[i].id == id;
        assert more[i].id == id;
      }
      if id == ports[k].id { assert more[k].id == id; }
      if i :| 0 <= i < |more| && more[i].id == id { assert i < k ==> front[i].id == id; }
    }
    forall i | 0 <= i < |more|
      ensures more[i].id in names' && Hits(links, physical, more[i].mac) == [names'[more[i].id]]
    {
      if i < k { assert front[i] == ports[i] && PortId(ports[i]) != PortId(ports[k]); }
    }
  }

  /** used: the NICs taken so far, each with the port that took it. */
  ghost predicate Used(used: map<string, string>, ports: seq<Port>, links: seq<Link>, physical: set<string>) {
    forall nic :: nic in used <==> exists i :: 0 <= i < |ports| && Hits(links, physical, ports[i].mac) == [nic]
  }

  lemma UsedSnoc(used: map<string, string>, ports: seq<Port>, k: nat, links: seq<Link>, physical: set<string>,
                 name: string)
    requires k < |ports| && Used(used, ports[..k], links, physical) && |Hits(links, physical, ports[k].mac)| == 1
    ensures Used(used[Hits(links, physical, ports[k].mac)[0] := name], ports[..k + 1], links, physical)
  {
    hide Hits;
    var nic := Hits(links, physical, ports[k].mac)[0];
    var used' := used[nic := name];
    var front, more := ports[..k], ports[..k + 1];
    assert more == front + [ports[k]];
    forall n ensures n in used' <==> exists i :: 0 <= i < |more| && Hits(links, physical, more[i].mac) == [n] {
      if n in used {
        var i :| 0 <= i < |front| && Hits(links, physical, front[i].mac) == [n];
        assert more[i] == front[i];
      }
      if n == nic { assert Hits(links, physical, more[k].mac) == [n]; }
      if i :| 0 <= i < |more| && Hits(links, physical, more[i].mac) == [n] {
        assert i < k ==> front[i] == more[i];
      }
    }
  }

  lemma UsedMeans(used: map<string, string>, ports: seq<Port>, k: nat, links: seq<Link>, physical: set<string>)
    requires k < |ports| && Used(used, ports[..k], links, physical) && |Hits(links, physical, ports[k].mac)| == 1
    ensures Hits(links, physical, ports[k].mac)[0] in used <==>
      exists i :: 0 <= i < k && Hits(links, physical, ports[i].mac) == Hits(links, physical, ports[k].mac)
  {
    hide Hits;
    var nic := Hits(links, physical, ports[k].mac)[0];
    assert [nic] == Hits(links, physical, ports[k].mac);
    if nic in used {
      var i :| 0 <= i < k && Hits(links, physical, ports[..k][i].mac) == [nic];
      assert Hits(links, physical, ports[i].mac) == Hits(links, physical, ports[k].mac);
    }
    if i :| 0 <= i < k && Hits(links, physical, ports[i].mac) == Hits(links, physical, ports[k].mac) {
      assert Hits(links, physical, ports[..k][i].mac) == [nic];
    }
  }

  lemma MatchNone(links: seq<Link>, physical: set<string>)
    ensures Matched([], links, physical) && Names(map[], [], links, physical) && Used(map[], [], links, physical)
  {}

  /** No problem iff every port has exactly one NIC and no two ports share
      one; the names are then a total and exact map of the ports. */
  method MatchPorts(ports: seq<Port>, links: seq<Link>, physical: set<string>)
    returns (names: map<string, string>, problems: seq<MatchProblem>)
    requires DistinctKeys(PortId, ports) && forall i :: 0 <= i < |ports| ==> ports[i].mac != ""
    ensures problems == [] <==> Matched(ports, links, physical)
    ensures problems == [] ==> Names(names, ports, links, physical)
  {
    hide Hits, Matched, Names, Used, DistinctKeys;
    var byMac := ByMac(links, physical);
    var used: map<string, string> := map[];
    names, problems := map[], [];
    assert ports[..0] == [];
    MatchNone(links, physical);
    for k := 0 to |ports|
      invariant problems == [] <==> Matched(ports[..k], links, physical)
      invariant problems == [] ==> Names(names, ports[..k], links, physical) && Used(used, ports[..k], links, physical)
    {
      var port := ports[k];
      var hits := Listed(byMac, port.mac);
      assert hits == Hits(links, physical, port.mac);
      MatchedSnoc(ports, k, links, physical);
      if hits == [] {
        problems := problems + [NotFound(port.name)];
        continue;
      }
      if |hits| > 1 {
        problems := problems + [SeveralNics(port.name)];
        continue;
      }
      if problems == [] { UsedMeans(used, ports, k, links, physical); }
      if hits[0] in used {
        problems := problems + [SameNic(port.name, used[hits[0]])];
        continue;
      }
      if problems == [] {
        NamesSnoc(names, ports, k, links, physical);
        UsedSnoc(used, ports, k, links, physical, port.name);
      }
      used := used[hits[0] := port.name];
      names := names[port.id := hits[0]];
    }
    assert ports[..|ports|] == ports;
  }

  /** The map is injective on the ports and leads to physical NICs with their MACs. */
  lemma NamesAreInjective(names: map<string, string>, ports: seq<Port>, links: seq<Link>, physical: set<string>,
                          p: Port, q: Port)
    requires Matched(ports, links, physical) && Names(names, ports, links, physical) && p in ports && q in ports
    ensures names[p.id] == names[q.id] ==> p == q
    ensures names[p.id] in physical && exists l :: l in links && l.name == names[p.id] && LinkMac(l) == p.mac
  {
    var i :| 0 <= i < |ports| && ports[i] == p;
    var j :| 0 <= j < |ports| && ports[j] == q;
    assert Hits(links, physical, ports[i].mac) == [names[p.id]];
    assert Hits(links, physical, ports[j].mac) == [names[q.id]];
    HitIsNic(links, physical, p.mac);
  }

  /** A physical NIC is found under one address: its permanent one, where it has
      one, and otherwise the one it has now; bonding may have changed that. */
  lemma PermanentAddressCounts(links: seq<Link>, physical: set<string>, mac: string, name: string)
    ensures name in Hits(links, physical, mac) <==>
      exists l :: l in links && l.name == name && name in physical && FoundUnder(l, mac)
  {
    var p := (l: Link) => l.name in physical && LinkMac(l) == mac;
    var f := (l: Link) => l.name;
    FilterMembers(p, links);
    MapMember(f, Filter(p, links), name);
    if l :| l in links && l.name == name && name in physical && FoundUnder(l, mac) {
      assert l in Filter(p, links);
      var i :| 0 <= i < |Filter(p, links)| && Filter(p, links)[i] == l;
      assert f(Filter(p, links)[i]) == name;
    }
    if i :| 0 <= i < |Filter(p, links)| && name == f(Filter(p, links)[i]) {
      assert Filter(p, links)[i] in Filter(p, links);
    }
  }

  ghost predicate FoundUnder(l: Link, mac: string) {
    if l.permaddr.None? || l.permaddr.value == "" then l.mac == Some(mac) || (l.mac.None? && mac == "")
    else l.permaddr == Some(mac)
  }

  lemma HitIsNic(links: seq<Link>, physical: set<string>, mac: string)
    ensures Hits(links, physical, mac) != [] ==>
      exists l :: l in links && l.name == Hits(links, physical, mac)[0] && l.name in physical && LinkMac(l) == mac
  {
    var p := (l: Link) => l.name in physical && LinkMac(l) == mac;
    var f := Filter(p, links);
    if f != [] {
      FilterMember(p, links, f[0]);
      assert f[0] in f;
      MapAt((l: Link) => l.name, f, 0);
    }
  }
}

/** The network part of a baseline run: validate the device's topology, find
    its ports on the node, and render the file; any problem refuses. */
module NetworkPlan {
  import opened NetworkModel
  import opened NetworkBuild
  import opened NetworkOrder
  import opened NetworkMatch
  import opened NetworkRender
  import opened NetworkForest

  datatype Outcome =
    | ModelProblems(model: seq<Problem>)
    | MatchProblems(nics: seq<MatchProblem>)
    | Interfaces(text: string, names: map<string, string>)

  method PlanNetwork(header: string, ifaces: seq<Iface>, net: Net, p: Primary, links: seq<Link>, physical: set<string>)
    returns (r: Outcome)
    requires Unique(ifaces)
    ensures r.Interfaces? <==> Clean(ifaces, net, p) && Matched(ModelOf(ifaces, net, p).ports, links, physical)
    ensures r.Interfaces? ==>
      && Names(r.names, ModelOf(ifaces, net, p).ports, links, physical)
      && r.text == Render(header, ModelOf(ifaces, net, p), r.names)
  {
    hide Clean, ModelOf, Matched, Names, Render, Unique;
    var model, problems := BuildNetworkModel(ifaces, net, p);
    if problems != [] { return ModelProblems(problems); }
    ModelPorts(ifaces, net, p);
    PortsHaveMacs(ifaces, net, p);
    forall i | 0 <= i < |model.ports| ensures model.ports[i].mac != "" { assert model.ports[i] in model.ports; }
    var names, nics := MatchPorts(model.ports, links, physical);
    if nics != [] { return MatchProblems(nics); }
    var text := RenderInterfaces(header, model, names);
    return Interfaces(text, names);
  }

  /** The names are determined by the ports and the links. */
  lemma NamesUnique(m: map<string, string>, n: map<string, string>, ports: seq<Port>, links: seq<Link>,
                    physical: set<string>)
    requires Names(m, ports, links, physical) && Names(n, ports, links, physical)
    ensures m == n
  {
    hide Hits;
    forall id ensures id in m <==> id in n {}
    forall id | id in m ensures m[id] == n[id] {
      var i :| 0 <= i < |ports| && ports[i].id == id;
      assert [m[id]] == Hits(links, physical, ports[i].mac) == [n[id]];
      assert [m[id]][0] == [n[id]][0];
    }
  }

  /** The text is the same for every listing order of the interfaces. */
  lemma TextAnyOrder(header: string, a: seq<Iface>, b: seq<Iface>, net: Net, p: Primary, links: seq<Link>,
                     physical: set<string>, m: map<string, string>, n: map<string, string>)
    requires Unique(a) && multiset(a) == multiset(b)
    requires Names(m, ModelOf(a, net, p).ports, links, physical) && Names(n, ModelOf(b, net, p).ports, links, physical)
    ensures Render(header, ModelOf(a, net, p), m) == Render(header, ModelOf(b, net, p), n)
  {
    hide ModelOf, Names, Render;
    ModelAnyOrder(a, b, net, p);
    NamesUnique(m, n, ModelOf(a, net, p).ports, links, physical);
  }
}

/** The NetworkPolicy front end: a Kubernetes manifest expanded into one rule for each peer and port. */
module NetpolManifest {
  import opened Text

  type Labels = map<string, string>

  datatype Option<T> = None | Some(value: T)
  datatype Result<T> = Ok(value: T) | Err(message: string)

  datatype Peer = Peer(podSelector: Option<Labels>, namespaceSelector: bool, ipBlock: bool)
  datatype PortSpec = PortSpec(protocol: string, port: int)

  /** An ingress rule (from, ports) or an egress rule (to, ports). */
  datatype K8sRule = K8sRule(peers: seq<Peer>, ports: seq<PortSpec>)

  datatype K8sPolicy = K8sPolicy(name: string, namespace: string, podSelector: Labels,
                                 ingress: seq<K8sRule>, egress: seq<K8sRule>)

  datatype NetRule = NetRule(direction: string, podSelector: Labels, protocol: string, port: int)

  datatype Manifest = Manifest(name: string, namespace: string, podSelector: Labels,
                               ingress: seq<NetRule>, egress: seq<NetRule>)

  // ---- meaning ----------------------------------------------------------------------------

  /** A missing label reads as the empty string. */
  predicate LabelsMatch(labels: Labels, selector: Labels) {
    forall k :: k in selector ==> (if k in labels then labels[k] else "") == selector[k]
  }

  /** An empty protocol covers all traffic, a port of zero or less all ports. */
  predicate TrafficCovered(protocol: string, port: int, proto: string, dport: int) {
    (protocol == "" || protocol == proto) && (port > 0 ==> port == dport)
  }

  predicate RuleAllows(r: NetRule, labels: Labels, proto: string, dport: int) {
    LabelsMatch(labels, r.podSelector) && TrafficCovered(r.protocol, r.port, proto, dport)
  }

  /** A selector that asks for no empty value selects the pods carrying all its labels. */
  lemma SelectorIsSubmap(labels: Labels, selector: Labels)
    requires forall k :: k in selector ==> selector[k] != ""
    ensures LabelsMatch(labels, selector) <==> selector.Items <= labels.Items
  {
    if selector.Items <= labels.Items {
      forall k | k in selector
        ensures k in labels && labels[k] == selector[k]
      {
        assert (k, selector[k]) in selector.Items;
      }
    }
  }

  /** And asking for an empty value is asking for no other one: the label may be missing. */
  lemma EmptyValueMatches(labels: Labels, selector: Labels, k: string)
    requires k !in selector
    ensures LabelsMatch(labels, selector[k := ""]) <==> LabelsMatch(labels, selector) && (k in labels ==> labels[k] == "")
  {
    assert forall j :: j in selector ==> selector[k := ""][j] == selector[j];
  }

  /** A listed protocol in any case, tcp when there is none. */
  predicate ProtocolIs(p: PortSpec, proto: string) {
    if p.protocol == "" then proto == "tcp" else ToLower(p.protocol) == proto
  }

  /** An empty port list covers everything; a listed port its protocol and, unless zero, its number. */
  predicate PortsCover(ports: seq<PortSpec>, proto: string, dport: int) {
    ports == [] || exists p :: p in ports && ProtocolIs(p, proto) && (p.port > 0 ==> p.port == dport)
  }

  predicate PeersSelect(peers: seq<Peer>, labels: Labels) {
    exists p :: p in peers && p.podSelector.Some? && LabelsMatch(labels, p.podSelector.value)
  }

  predicate K8sRuleAllows(r: K8sRule, labels: Labels, proto: string, dport: int) {
    PeersSelect(r.peers, labels) && PortsCover(r.ports, proto, dport)
  }

  // ---- what is refused --------------------------------------------------------------------

  predicate PortsSupported(ports: seq<PortSpec>) {
    forall p :: p in ports ==> ProtocolIs(p, "tcp") || ProtocolIs(p, "udp")
  }

  predicate PeerSupported(p: Peer) {
    !p.namespaceSelector && !p.ipBlock && p.podSelector.Some?
  }

  predicate RuleSupported(r: K8sRule) {
    r.peers != [] && PortsSupported(r.ports) && forall p :: p in r.peers ==> PeerSupported(p)
  }

  predicate PolicySupported(k: K8sPolicy) {
    && k.name != ""
    && (forall r :: r in k.ingress ==> RuleSupported(r))
    && (forall r :: r in k.egress ==> RuleSupported(r))
  }

  // ---- expansion --------------------------------------------------------------------------

  function ProtocolOf(p: PortSpec): string {
    if ToLower(p.protocol) == "" then "tcp" else ToLower(p.protocol)
  }

  lemma ProtocolOfIs(p: PortSpec, proto: string)
    ensures ProtocolIs(p, proto) <==> ProtocolOf(p) == proto
  {
  }

  function NormalPort(p: PortSpec): PortSpec {
    PortSpec(ProtocolOf(p), p.port)
  }

  function NormalPorts(ports: seq<PortSpec>): seq<PortSpec> {
    if ports == [] then [PortSpec("", 0)] else seq(|ports|, i requires 0 <= i < |ports| => NormalPort(ports[i]))
  }

  function PeerRules(direction: string, p: Peer, ports: seq<PortSpec>): seq<NetRule>
    requires p.podSelector.Some?
  {
    seq(|ports|, i requires 0 <= i < |ports| => NetRule(direction, p.podSelector.value, ports[i].protocol, ports[i].port))
  }

  function ExpandPeers(direction: string, peers: seq<Peer>, ports: seq<PortSpec>): seq<NetRule>
    requires forall p :: p in peers ==> p.podSelector.Some?
  {
    if peers == [] then []
    else ExpandPeers(direction, peers[..|peers| - 1], ports) + PeerRules(direction, peers[|peers| - 1], ports)
  }

  function ExpandRule(direction: string, r: K8sRule): seq<NetRule>
    requires RuleSupported(r)
  {
    ExpandPeers(direction, r.peers, NormalPorts(r.ports))
  }

  function ExpandRules(direction: string, rs: seq<K8sRule>): seq<NetRule>
    requires forall r :: r in rs ==> RuleSupported(r)
  {
    if rs == [] then [] else ExpandRules(direction, rs[..|rs| - 1]) + ExpandRule(direction, rs[|rs| - 1])
  }

  method NormalizePorts(ports: seq<PortSpec>) returns (r: Result<seq<PortSpec>>)
    ensures r.Ok? <==> PortsSupported(ports)
    ensures r.Ok? ==> r.value == NormalPorts(ports)
  {
    if |ports| == 0 {
      return Ok([PortSpec("", 0)]);
    }
    var out := [];
    for i := 0 to |ports|
      invariant |out| == i && forall j :: 0 <= j < i ==> out[j] == NormalPort(ports[j])
      invariant PortsSupported(ports[..i])
    {
      assert ports[i] in ports;
      var protocol := ToLower(ports[i].protocol);
      if protocol == "" {
        protocol := "tcp";
      }
      if protocol != "tcp" && protocol != "udp" {
        return Err("unsupported networkpolicy protocol: " + ports[i].protocol);
      }
      out := out + [PortSpec(protocol, ports[i].port)];
      assert forall p :: p in ports[..i + 1] ==> p in ports[..i] || p == ports[i];
    }
    assert ports[..|ports|] == ports;
    return Ok(out);
  }

  method PeerPodSelector(p: Peer, field: string) returns (r: Result<Labels>)
    ensures r.Ok? <==> PeerSupported(p)
    ensures r.Ok? ==> r.value == p.podSelector.value
  {
    if p.namespaceSelector {
      return Err(field + ".namespaceSelector is not supported yet");
    }
    if p.ipBlock {
      return Err(field + ".ipBlock is not supported yet");
    }
    if p.podSelector.None? {
      return Err(field + ".podSelector is required");
    }
    return Ok(p.podSelector.value);
  }

  /** expandIngressRule with direction "ingress" and expandEgressRule with direction "egress". */
  method ExpandK8sRule(direction: string, field: string, rule: K8sRule) returns (r: Result<seq<NetRule>>)
    ensures r.Ok? <==> RuleSupported(rule)
    ensures r.Ok? ==> r.value == ExpandRule(direction, rule)
  {
    if |rule.peers| == 0 {
      return Err("networkpolicy " + field + " with podSelector is required");
    }
    var ports := NormalizePorts(rule.ports);
    if ports.Err? {
      return Err(ports.message);
    }
    var result := [];
    for i := 0 to |rule.peers|
      invariant forall p :: p in rule.peers[..i] ==> PeerSupported(p)
      invariant result == ExpandPeers(direction, rule.peers[..i], ports.value)
    {
      var labels := PeerPodSelector(rule.peers[i], field);
      if labels.Err? {
        return Err(labels.message);
      }
      ghost var before := result;
      for j := 0 to |ports.value|
        invariant result == before + PeerRules(direction, rule.peers[i], ports.value)[..j]
      {
        result := result + [NetRule(direction, labels.value, ports.value[j].protocol, ports.value[j].port)];
      }
      assert rule.peers[..i + 1][..i] == rule.peers[..i];
      assert forall p :: p in rule.peers[..i + 1] ==> p in rule.peers[..i] || p == rule.peers[i];
    }
    assert rule.peers[..|rule.peers|] == rule.peers;
    return Ok(result);
  }

  method ExpandAll(direction: string, field: string, rs: seq<K8sRule>) returns (r: Result<seq<NetRule>>)
    ensures r.Ok? <==> forall x :: x in rs ==> RuleSupported(x)
    ensures r.Ok? ==> r.value == ExpandRules(direction, rs)
  {
    var out := [];
    for i := 0 to |rs|
      invariant forall x :: x in rs[..i] ==> RuleSupported(x)
      invariant out == ExpandRules(direction, rs[..i])
    {
      var rules := ExpandK8sRule(direction, field, rs[i]);
      if rules.Err? {
        return Err(rules.message);
      }
      ExpandNext(direction, rs, i);
      hide RuleSupported, ExpandRule, ExpandRules;
      out := out + rules.value;
    }
    assert rs[..|rs|] == rs;
    return Ok(out);
  }

  lemma {:induction false} ExpandNext(direction: string, rs: seq<K8sRule>, i: nat)
    requires i < |rs| && RuleSupported(rs[i]) && forall x :: x in rs[..i] ==> RuleSupported(x)
    ensures forall x :: x in rs[..i + 1] ==> RuleSupported(x)
    ensures ExpandRules(direction, rs[..i + 1]) == ExpandRules(direction, rs[..i]) + ExpandRule(direction, rs[i])
  {
    hide RuleSupported, ExpandRule;
    assert rs[..i + 1] == rs[..i] + [rs[i]];
    assert rs[..i + 1][..i] == rs[..i];
  }

  method BuildManifest(k: K8sPolicy) returns (r: Result<Manifest>)
    ensures r.Ok? <==> PolicySupported(k)
    ensures r.Ok? ==> r.value == Manifest(k.name, if k.namespace == "" then "default" else k.namespace, k.podSelector,
                                          ExpandRules("ingress", k.ingress), ExpandRules("egress", k.egress))
  {
    if k.name == "" {
      return Err("networkpolicy name is required");
    }
    var namespace := if k.namespace == "" then "default" else k.namespace;
    var ingress := ExpandAll("ingress", "ingress.from", k.ingress);
    if ingress.Err? {
      return Err(ingress.message);
    }
    var egress := ExpandAll("egress", "egress.to", k.egress);
    if egress.Err? {
      return Err(egress.message);
    }
    return Ok(Manifest(k.name, namespace, k.podSelector, ingress.value, egress.value));
  }

  // ---- expansion keeps the meaning --------------------------------------------------------

  lemma NormalPortIn(ports: seq<PortSpec>, p: PortSpec)
    requires p in ports
    ensures NormalPort(p) in NormalPorts(ports)
  {
    hide NormalPort;
    var i :| 0 <= i < |ports| && ports[i] == p;
    assert NormalPorts(ports)[i] == NormalPort(p);
  }

  lemma NormalPortFrom(ports: seq<PortSpec>, q: PortSpec) returns (p: PortSpec)
    requires ports != [] && q in NormalPorts(ports)
    ensures p in ports && q == NormalPort(p)
  {
    hide NormalPort;
    var i :| 0 <= i < |ports| && NormalPorts(ports)[i] == q;
    p := ports[i];
  }

  lemma NormalPortsCover(ports: seq<PortSpec>, proto: string, dport: int)
    requires PortsSupported(ports)
    ensures PortsCover(ports, proto, dport) <==>
            exists q :: q in NormalPorts(ports) && TrafficCovered(q.protocol, q.port, proto, dport)
  {
    hide ToLower, ProtocolOf, ProtocolIs, NormalPorts;
    if ports == [] {
      NoPorts();
    } else {
      if q :| q in NormalPorts(ports) && TrafficCovered(q.protocol, q.port, proto, dport) {
        var p := NormalPortFrom(ports, q);
        ProtocolOfIs(p, proto);
        ProtocolNamed(p);
      }
      if p :| p in ports && ProtocolIs(p, proto) && (p.port > 0 ==> p.port == dport) {
        NormalPortIn(ports, p);
        ProtocolOfIs(p, proto);
      }
    }
  }

  lemma NormalPortsNamed(ports: seq<PortSpec>)
    requires PortsSupported(ports)
    ensures forall q :: q in NormalPorts(ports) && q.port > 0 ==> q.protocol == "tcp" || q.protocol == "udp"
  {
    hide ToLower, ProtocolOf, ProtocolIs, NormalPorts;
    forall q | q in NormalPorts(ports) && q.port > 0
      ensures q.protocol == "tcp" || q.protocol == "udp"
    {
      if ports == [] {
        NoPortsOnly(q);
      } else {
        var p := NormalPortFrom(ports, q);
        ProtocolOfIs(p, "tcp");
        ProtocolOfIs(p, "udp");
      }
    }
  }

  lemma NoPortsOnly(q: PortSpec)
    requires q in NormalPorts([])
    ensures q == PortSpec("", 0)
  {
  }

  lemma NoPorts()
    ensures PortSpec("", 0) in NormalPorts([])
  {
    assert NormalPorts([])[0] == PortSpec("", 0);
  }

  lemma ProtocolNamed(p: PortSpec)
    ensures ProtocolOf(p) != ""
  {
  }

  lemma {:induction false} ExpandPeersAllow(direction: string, peers: seq<Peer>, ports: seq<PortSpec>,
                                            labels: Labels, proto: string, dport: int)
    requires forall p :: p in peers ==> p.podSelector.Some?
    ensures (exists r :: r in ExpandPeers(direction, peers, ports) && RuleAllows(r, labels, proto, dport)) <==>
            PeersSelect(peers, labels) && exists q :: q in ports && TrafficCovered(q.protocol, q.port, proto, dport)
    decreases |peers|
  {
    if peers != [] {
      var init, last := peers[..|peers| - 1], peers[|peers| - 1];
      assert peers == init + [last];
      ExpandPeersAllow(direction, init, ports, labels, proto, dport);
      PeerRulesAllow(direction, last, ports, labels, proto, dport);
      var all, before, new_ := ExpandPeers(direction, peers, ports), ExpandPeers(direction, init, ports), PeerRules(direction, last, ports);
      assert forall r :: r in all <==> r in before || r in new_;
    }
  }

  lemma PeerRulesAllow(direction: string, p: Peer, ports: seq<PortSpec>, labels: Labels, proto: string, dport: int)
    requires p.podSelector.Some?
    ensures (exists r :: r in PeerRules(direction, p, ports) && RuleAllows(r, labels, proto, dport)) <==>
            LabelsMatch(labels, p.podSelector.value) && exists q :: q in ports && TrafficCovered(q.protocol, q.port, proto, dport)
  {
    var rules := PeerRules(direction, p, ports);
    if r :| r in rules && RuleAllows(r, labels, proto, dport) {
      var i :| 0 <= i < |rules| && rules[i] == r;
      assert ports[i] in ports;
    }
    if q :| q in ports && TrafficCovered(q.protocol, q.port, proto, dport) {
      var i :| 0 <= i < |ports| && ports[i] == q;
      assert rules[i] in rules;
    }
  }

  /** MAIN: the expanded rules allow a peer and its traffic iff some rule of the manifest does. */
  lemma {:induction false} ExpandKeepsMeaning(direction: string, rs: seq<K8sRule>, labels: Labels, proto: string, dport: int)
    requires forall r :: r in rs ==> RuleSupported(r)
    ensures (exists r :: r in ExpandRules(direction, rs) && RuleAllows(r, labels, proto, dport)) <==>
            (exists k :: k in rs && K8sRuleAllows(k, labels, proto, dport))
    decreases |rs|
  {
    if rs != [] {
      var init, last := rs[..|rs| - 1], rs[|rs| - 1];
      assert rs == init + [last];
      assert last in rs && RuleSupported(last);
      ExpandKeepsMeaning(direction, init, labels, proto, dport);
      ExpandPeersAllow(direction, last.peers, NormalPorts(last.ports), labels, proto, dport);
      NormalPortsCover(last.ports, proto, dport);
      var all, before, new_ := ExpandRules(direction, rs), ExpandRules(direction, init), ExpandRule(direction, last);
      assert forall r :: r in all <==> r in before || r in new_;
    }
  }
}

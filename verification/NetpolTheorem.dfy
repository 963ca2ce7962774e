/** End to end: with the policy store in step and committed, a packet between two pods is accepted
    exactly when a stored NetworkPolicy, or a policy of another owner, allows it. */
module NetpolTheorem {
  import opened Text
  import opened NetpolManifest
  import opened Iptables
  import opened PolicyRules
  import opened PolicyCompiler
  import opened PolicyService
  import opened PolicyTheorems
  import opened NetpolService
  import opened NetpolReconcile

  // ---- what a NetworkPolicy allows ----------------------------------------------------------

  ghost predicate ManifestAllows(m: Manifest, src: Pod, dst: Pod, proto: string, dport: int) {
    && src.namespace == m.namespace && dst.namespace == m.namespace
    && ((LabelsMatch(dst.labels, m.podSelector) && exists r :: r in m.ingress && RuleAllows(r, src.labels, proto, dport))
        || (LabelsMatch(src.labels, m.podSelector) && exists r :: r in m.egress && RuleAllows(r, dst.labels, proto, dport)))
  }

  /** The same, read off the Kubernetes manifest. */
  ghost predicate K8sAllows(k: K8sPolicy, src: Pod, dst: Pod, proto: string, dport: int) {
    var ns := if k.namespace == "" then "default" else k.namespace;
    && src.namespace == ns && dst.namespace == ns
    && ((LabelsMatch(dst.labels, k.podSelector) && exists r :: r in k.ingress && K8sRuleAllows(r, src.labels, proto, dport))
        || (LabelsMatch(src.labels, k.podSelector) && exists r :: r in k.egress && K8sRuleAllows(r, dst.labels, proto, dport)))
  }

  ghost predicate BuiltFrom(m: Manifest, k: K8sPolicy) {
    PolicySupported(k) &&
    m == Manifest(k.name, if k.namespace == "" then "default" else k.namespace, k.podSelector,
                  ExpandRules("ingress", k.ingress), ExpandRules("egress", k.egress))
  }

  lemma BuiltAllowsSame(m: Manifest, k: K8sPolicy, src: Pod, dst: Pod, proto: string, dport: int)
    requires BuiltFrom(m, k)
    ensures ManifestAllows(m, src, dst, proto, dport) <==> K8sAllows(k, src, dst, proto, dport)
  {
    ExpandKeepsMeaning("ingress", k.ingress, src.labels, proto, dport);
    ExpandKeepsMeaning("egress", k.egress, dst.labels, proto, dport);
  }

  lemma {:induction false} DirectionKept(direction: string, rs: seq<K8sRule>)
    requires forall r :: r in rs ==> RuleSupported(r)
    ensures forall r :: r in ExpandRules(direction, rs) ==> r.direction == direction
    decreases |rs|
  {
    if rs != [] {
      var init, last := rs[..|rs| - 1], rs[|rs| - 1];
      assert last in rs && RuleSupported(last);
      DirectionKept(direction, init);
      PeersKeepDirection(direction, last.peers, NormalPorts(last.ports));
    }
  }

  lemma {:induction false} PeersKeepDirection(direction: string, peers: seq<Peer>, ports: seq<PortSpec>)
    requires forall p :: p in peers ==> p.podSelector.Some?
    ensures forall r :: r in ExpandPeers(direction, peers, ports) ==> r.direction == direction
    decreases |peers|
  {
    if peers != [] {
      PeersKeepDirection(direction, peers[..|peers| - 1], ports);
      var rules := PeerRules(direction, peers[|peers| - 1], ports);
      assert forall i :: 0 <= i < |rules| ==> rules[i].direction == direction;
    }
  }

  /** The direction a stored policy's comment names: ingress iff some ingress rule makes its key. */
  lemma {:induction false} CommentDirection(cluster: Cluster, m: Manifest, k8s: K8sPolicy, k: BackendKey)
    requires BuiltFrom(m, k8s) && Makes(cluster, m, k)
    ensures FirstDirection(cluster, m, Sided(m), k) ==
            if MadeBySome(cluster, m, SidedRules(true, m.ingress), k) then "ingress" else "egress"
  {
    hide MadeBySome, ExpandRules, PolicySupported;
    var a, b := SidedRules(true, m.ingress), SidedRules(false, m.egress);
    BuiltDirections(m, k8s);
    assert a + b[..|b|] == Sided(m) && a[..|a|] == a;
    assert b == [] ==> a + b == a;
    if MadeBySome(cluster, m, a, k) {
      DirectionIn(cluster, m, a, "ingress", k);
      DirectionStays(cluster, m, a, b, k);
    } else {
      DirectionBehind(cluster, m, a, b, k);
    }
  }

  lemma BuiltDirections(m: Manifest, k8s: K8sPolicy)
    requires BuiltFrom(m, k8s)
    ensures forall r :: r in SidedRules(true, m.ingress) ==> r.rule.direction == "ingress"
    ensures forall r :: r in SidedRules(false, m.egress) ==> r.rule.direction == "egress"
  {
    DirectionKept("ingress", k8s.ingress);
    DirectionKept("egress", k8s.egress);
  }

  lemma {:induction false} DirectionIn(cluster: Cluster, m: Manifest, rules: seq<SidedRule>, direction: string, k: BackendKey)
    requires MadeBySome(cluster, m, rules, k) && forall r :: r in rules ==> r.rule.direction == direction
    ensures FirstDirection(cluster, m, rules, k) == direction
    decreases |rules|
  {
    hide RuleMakes;
    if MadeBySome(cluster, m, rules[..|rules| - 1], k) {
      DirectionIn(cluster, m, rules[..|rules| - 1], direction, k);
    }
  }

  lemma {:induction false} DirectionStays(cluster: Cluster, m: Manifest, a: seq<SidedRule>, b: seq<SidedRule>, k: BackendKey)
    requires MadeBySome(cluster, m, a, k)
    ensures MadeBySome(cluster, m, a + b, k) && FirstDirection(cluster, m, a + b, k) == FirstDirection(cluster, m, a, k)
    decreases |b|
  {
    hide MadeBySome;
    if b == [] {
      assert a + b == a;
    } else {
      var init, last := b[..|b| - 1], b[|b| - 1];
      assert a + b == (a + init) + [last];
      DirectionStays(cluster, m, a, init, k);
      MadeEarlier(cluster, m, a + init, last, k);
    }
  }

  lemma {:induction false} DirectionBehind(cluster: Cluster, m: Manifest, a: seq<SidedRule>, b: seq<SidedRule>, k: BackendKey)
    requires b != [] && MadeBySome(cluster, m, a + b, k) && !MadeBySome(cluster, m, a, k)
    requires forall r :: r in b ==> r.rule.direction == "egress"
    ensures FirstDirection(cluster, m, a + b, k) == "egress"
    decreases |b|
  {
    hide MadeBySome;
    var init, last := b[..|b| - 1], b[|b| - 1];
    assert a + b == (a + init) + [last] && last in b;
    assert init == [] ==> a + init == a;
    if MadeBySome(cluster, m, a + init, k) {
      DirectionBehind(cluster, m, a, init, k);
      MadeEarlier(cluster, m, a + init, last, k);
    } else {
      FirstDirectionIsLast(cluster, m, a + init, last, k);
    }
  }

  // ---- what the expansion gives about ports ---------------------------------------------------

  /** iptables can render the rule: a port comes with tcp or udp. */
  predicate Renderable(r: NetRule) {
    r.port > 0 ==> r.protocol == "tcp" || r.protocol == "udp"
  }

  ghost predicate RenderableStore(store: Store) {
    forall id, r :: id in store && (r in store[id].ingress || r in store[id].egress) ==> Renderable(r)
  }

  lemma {:induction false} ExpandedRulesRenderable(direction: string, rs: seq<K8sRule>)
    requires forall r :: r in rs ==> RuleSupported(r)
    ensures forall r :: r in ExpandRules(direction, rs) ==> Renderable(r)
    decreases |rs|
  {
    if rs != [] {
      var init, last := rs[..|rs| - 1], rs[|rs| - 1];
      assert rs == init + [last] && last in rs;
      ExpandedRulesRenderable(direction, init);
      NormalPortsNamed(last.ports);
      PeersRenderable(direction, last.peers, NormalPorts(last.ports));
    }
  }

  lemma {:induction false} PeersRenderable(direction: string, peers: seq<Peer>, ports: seq<PortSpec>)
    requires forall p :: p in peers ==> p.podSelector.Some?
    requires forall q :: q in ports ==> (q.port > 0 ==> q.protocol == "tcp" || q.protocol == "udp")
    ensures forall r :: r in ExpandPeers(direction, peers, ports) ==> Renderable(r)
    decreases |peers|
  {
    if peers != [] {
      PeersRenderable(direction, peers[..|peers| - 1], ports);
      var rules := PeerRules(direction, peers[|peers| - 1], ports);
      forall r | r in rules
        ensures Renderable(r)
      {
        var i :| 0 <= i < |rules| && rules[i] == r;
        assert ports[i] in ports;
      }
    }
  }

  lemma BuiltStoreRenderable(store: Store, specs: map<string, K8sPolicy>)
    requires forall id :: id in store ==> id in specs && BuiltFrom(store[id], specs[id])
    ensures RenderableStore(store)
  {
    forall id, r | id in store && (r in store[id].ingress || r in store[id].egress)
      ensures Renderable(r)
    {
      ExpandedRulesRenderable("ingress", specs[id].ingress);
      ExpandedRulesRenderable("egress", specs[id].egress);
    }
  }

  // ---- keys and pods --------------------------------------------------------------------------

  ghost predicate ReadyEndpoint(cluster: Cluster, e: Endpoint) {
    e.pod in cluster.pods && ReadyWith(cluster, e.pod, e.container)
  }

  /** A container belongs to one pod, and is the only infra container there. */
  lemma SameContainerSamePod(cluster: Cluster, e: Endpoint, f: Endpoint)
    requires WellFormed(cluster) && ReadyEndpoint(cluster, e) && ReadyEndpoint(cluster, f)
    requires e.container.name == f.container.name || e.container.id == f.container.id
    ensures e == f
  {
  }

  ghost predicate KeyAllows(cluster: Cluster, m: Manifest, k: BackendKey, src: Endpoint, dst: Endpoint, proto: string, dport: int) {
    Makes(cluster, m, k) && k.src == src.container.name && k.dst == dst.container.name
    && TrafficCovered(k.protocol, k.port, proto, dport)
  }

  lemma KeyFromRule(cluster: Cluster, m: Manifest, sr: SidedRule, src: Endpoint, dst: Endpoint)
    requires sr in Sided(m) && Connects(cluster, m, sr, src, dst)
    ensures Makes(cluster, m, KeyOf(sr, src, dst))
  {
    var i :| 0 <= i < |Sided(m)| && Sided(m)[i] == sr;
    assert RuleMakes(cluster, m, sr, KeyOf(sr, src, dst));
  }

  lemma SidedElements(m: Manifest, sr: SidedRule)
    ensures sr in Sided(m) <==> if sr.ingress then sr.rule in m.ingress else sr.rule in m.egress
  {
    var a, b := SidedRules(true, m.ingress), SidedRules(false, m.egress);
    if sr.ingress && sr.rule in m.ingress {
      var i :| 0 <= i < |m.ingress| && m.ingress[i] == sr.rule;
      assert a[i] == sr;
    }
    if !sr.ingress && sr.rule in m.egress {
      var i :| 0 <= i < |m.egress| && m.egress[i] == sr.rule;
      assert b[i] == sr;
    }
  }

  lemma AllowedMakesKey(cluster: Cluster, m: Manifest, src: Endpoint, dst: Endpoint, proto: string, dport: int) returns (k: BackendKey)
    requires ReadyEndpoint(cluster, src) && ReadyEndpoint(cluster, dst) && src.container.id != dst.container.id
    requires ManifestAllows(m, src.pod, dst.pod, proto, dport)
    ensures KeyAllows(cluster, m, k, src, dst, proto, dport)
    ensures exists r :: (r in m.ingress || r in m.egress) && k.protocol == r.protocol && k.port == r.port
  {
    if LabelsMatch(dst.pod.labels, m.podSelector) && exists r :: r in m.ingress && RuleAllows(r, src.pod.labels, proto, dport) {
      var r :| r in m.ingress && RuleAllows(r, src.pod.labels, proto, dport);
      SidedElements(m, SidedRule(true, r));
      KeyFromRule(cluster, m, SidedRule(true, r), src, dst);
      k := KeyOf(SidedRule(true, r), src, dst);
    } else {
      var r :| r in m.egress && RuleAllows(r, dst.pod.labels, proto, dport);
      SidedElements(m, SidedRule(false, r));
      KeyFromRule(cluster, m, SidedRule(false, r), src, dst);
      k := KeyOf(SidedRule(false, r), src, dst);
    }
  }

  lemma KeyMeansAllowed(cluster: Cluster, m: Manifest, k: BackendKey, src: Endpoint, dst: Endpoint, proto: string, dport: int)
    requires WellFormed(cluster) && ReadyEndpoint(cluster, src) && ReadyEndpoint(cluster, dst)
    requires KeyAllows(cluster, m, k, src, dst, proto, dport)
    ensures ManifestAllows(m, src.pod, dst.pod, proto, dport)
  {
    var i :| 0 <= i < |Sided(m)| && RuleMakes(cluster, m, Sided(m)[i], k);
    var sr := Sided(m)[i];
    var s, d :| Connects(cluster, m, sr, s, d) && k == KeyOf(sr, s, d);
    SameContainerSamePod(cluster, s, src);
    SameContainerSamePod(cluster, d, dst);
    SidedElements(m, sr);
    assert RuleAllows(sr.rule, if sr.ingress then src.pod.labels else dst.pod.labels, proto, dport);
  }

  // ---- keys and stored policies ---------------------------------------------------------------

  ghost predicate SameRule(p: Policy, o: Origin) {
    p.source.containerName == o.1.src && p.destination.containerName == o.1.dst && p.protocol == o.1.protocol && p.destPort == o.1.port
  }

  lemma KeyDeterminesRule(cluster: Cluster, store: Store, ew: seq<Policy>, p: Policy, o: Origin)
    requires Readable(cluster, store, ew) && p in ew && p.ownerKind == OWNER_KIND && IsOrigin(cluster, store, o)
    requires StateKey(p) == OriginKey(cluster, store, o)
    ensures SameRule(p, o)
  {
    StateKeyIff(p, Wanted(cluster, store, o));
  }

  // ---- the network ----------------------------------------------------------------------------

  predicate PlainDev(dev: string) {
    dev != "" && dev[|dev| - 1] != '+'
  }

  /** The commit resolves names as the cluster has them, and every container has a veth of its own. */
  ghost predicate Wired(env: Env, cluster: Cluster) {
    && (forall c :: c in cluster.containers ==> c.name in env.idByName && env.idByName[c.name] == c.id)
    && (forall a :: a in env.allocations ==> PlainDev(env.allocations[a].veth))
    && (forall a, b :: a in env.allocations && b in env.allocations && env.allocations[a].veth == env.allocations[b].veth ==> a == b)
  }

  /** A packet bridged from one pod's veth to another's. */
  ghost predicate Between(env: Env, src: Endpoint, dst: Endpoint, pkt: Packet) {
    && src.container.id in env.allocations && dst.container.id in env.allocations
    && pkt.bridged && StaysOnBridge(env, pkt)
    && pkt.physIn == env.allocations[src.container.id].veth && pkt.physOut == env.allocations[dst.container.id].veth
  }

  /** A policy of some other owner, such as a user, covers the packet. */
  ghost predicate OtherOwnerCovers(np: NetworkPolicy, env: Env, pkt: Packet) {
    exists p :: p in np.eastWest && p.ownerKind != OWNER_KIND && PolicyCovers(RaindEW, p, env, pkt)
  }

  ghost predicate SomeManifestAllows(store: Store, src: Pod, dst: Pod, pkt: Packet) {
    exists id :: id in store && ManifestAllows(store[id], src, dst, pkt.protocol, pkt.dport)
  }

  lemma StoredCovers(cluster: Cluster, env: Env, p: Policy, o: Origin, src: Endpoint, dst: Endpoint, pkt: Packet)
    requires Wired(env, cluster) && ReadyEndpoint(cluster, src) && ReadyEndpoint(cluster, dst) && Between(env, src, dst, pkt)
    requires SameRule(p, o) && o.1.src == src.container.name && o.1.dst == dst.container.name
    requires p.status != RemoveNextCommit && (p.destPort > 0 ==> p.protocol == "tcp" || p.protocol == "udp")
    requires TrafficCovered(o.1.protocol, o.1.port, pkt.protocol, pkt.dport)
    ensures PolicyCovers(RaindEW, p, env, pkt)
  {
  }

  lemma CoversStored(cluster: Cluster, env: Env, p: Policy, e: Endpoint, f: Endpoint, src: Endpoint, dst: Endpoint, pkt: Packet)
    requires WellFormed(cluster) && Wired(env, cluster) && Between(env, src, dst, pkt)
    requires ReadyEndpoint(cluster, src) && ReadyEndpoint(cluster, dst) && ReadyEndpoint(cluster, e) && ReadyEndpoint(cluster, f)
    requires p.source.containerName == e.container.name && p.destination.containerName == f.container.name
    requires PolicyCovers(RaindEW, p, env, pkt)
    ensures e == src && f == dst
  {
    assert ResolveContainer(env, e.container.name) == e.container.id && ResolveContainer(env, f.container.name) == f.container.id;
    assert env.allocations[e.container.id].veth == pkt.physIn && env.allocations[f.container.id].veth == pkt.physOut;
    SameContainerSamePod(cluster, e, src);
    SameContainerSamePod(cluster, f, dst);
  }

  lemma CoversTraffic(env: Env, p: Policy, pkt: Packet)
    requires PolicyCovers(RaindEW, p, env, pkt)
    ensures TrafficCovered(p.protocol, p.destPort, pkt.protocol, pkt.dport)
  {
  }

  /** A key is made for two ready pods. */
  lemma MakersOf(cluster: Cluster, m: Manifest, k: BackendKey) returns (s: Endpoint, d: Endpoint)
    requires Makes(cluster, m, k)
    ensures ReadyEndpoint(cluster, s) && ReadyEndpoint(cluster, d) && k.src == s.container.name && k.dst == d.container.name
  {
    hide ReadyWith;
    var i :| 0 <= i < |Sided(m)| && RuleMakes(cluster, m, Sided(m)[i], k);
    s, d :| Connects(cluster, m, Sided(m)[i], s, d) && k == KeyOf(Sided(m)[i], s, d);
  }

  lemma CoveredMeansAllowed(cluster: Cluster, store: Store, np: NetworkPolicy, env: Env, src: Endpoint, dst: Endpoint, pkt: Packet, p: Policy)
    requires WellFormed(cluster) && Wired(env, cluster) && Between(env, src, dst, pkt)
    requires InStep(cluster, store, np.eastWest) && Readable(cluster, store, np.eastWest)
    requires ReadyEndpoint(cluster, src) && ReadyEndpoint(cluster, dst)
    requires p in np.eastWest && p.ownerKind == OWNER_KIND && PolicyCovers(RaindEW, p, env, pkt)
    ensures SomeManifestAllows(store, src.pod, dst.pod, pkt)
  {
    hide Readable, InStep, ManifestAllows, PolicyCovers, Between, Wired, WellFormed, ReadyEndpoint, RuleMakes, StaysOnBridge, Connects, Makes;
    var o := OriginOfStored(cluster, store, np.eastWest, p);
    var m := store[o.0];
    var s, d := MakersOf(cluster, m, o.1);
    CoversStored(cluster, env, p, s, d, src, dst, pkt);
    CoversTraffic(env, p, pkt);
    KeyMeansAllowed(cluster, m, o.1, src, dst, pkt.protocol, pkt.dport);
  }

  lemma AllowedMeansCovered(cluster: Cluster, store: Store, np: NetworkPolicy, env: Env, src: Endpoint, dst: Endpoint, pkt: Packet)
    requires Wired(env, cluster) && Between(env, src, dst, pkt) && RenderableStore(store)
    requires InStep(cluster, store, np.eastWest) && Readable(cluster, store, np.eastWest)
    requires forall p :: p in np.eastWest && p.ownerKind == OWNER_KIND ==> p.status != RemoveNextCommit
    requires ReadyEndpoint(cluster, src) && ReadyEndpoint(cluster, dst) && src.container.id != dst.container.id
    requires SomeManifestAllows(store, src.pod, dst.pod, pkt)
    ensures Covered(RaindEW, np, env, pkt)
  {
    hide Readable, InStep, PolicyCovers, ManifestAllows, Makes;
    var id :| id in store && ManifestAllows(store[id], src.pod, dst.pod, pkt.protocol, pkt.dport);
    var k := AllowedMakesKey(cluster, store[id], src, dst, pkt.protocol, pkt.dport);
    var r :| (r in store[id].ingress || r in store[id].egress) && k.protocol == r.protocol && k.port == r.port;
    assert Renderable(r);
    var p := StoredForOrigin(cluster, store, np.eastWest, (id, k));
    StoredCovers(cluster, env, p, (id, k), src, dst, pkt);
    assert np.List(RaindEW) == np.eastWest;
  }

  /** MAIN: once reconciled and committed, a new packet bridged between two distinct ready pods is
      accepted exactly when a policy of another owner covers it or some rule of a stored
      NetworkPolicy selects its source and destination and its port; every other one is dropped. */
  lemma {:induction false} PodTrafficIsAsDeclared(chains: FwChains, cluster: Cluster, store: Store, np: NetworkPolicy, env: Env,
                               src: Endpoint, dst: Endpoint, pkt: Packet, depth: nat)
    requires WellFormed(cluster) && Wired(env, cluster) && RenderableStore(store)
    requires InStep(cluster, store, np.eastWest) && Readable(cluster, store, np.eastWest)
    requires forall p :: p in np.eastWest && p.ownerKind == OWNER_KIND ==> p.status != RemoveNextCommit
    requires Committed(chains, np, env) && depth > 0
    requires ReadyEndpoint(cluster, src) && ReadyEndpoint(cluster, dst) && src.container.id != dst.container.id
    requires Between(env, src, dst, pkt) && pkt.state == New
    ensures Eval(chains, chains[RaindRoot], pkt, depth).verdict ==
            if OtherOwnerCovers(np, env, pkt) || SomeManifestAllows(store, src.pod, dst.pod, pkt) then Accepted else Dropped
  {
    hide Readable, InStep, PolicyCovers, Committed, Eval, ManifestAllows, RenderableStore, Wired, ReadyEndpoint;
    CommitDecides(chains, np, env, pkt, depth);
    assert np.List(RaindEW) == np.eastWest;
    if SomeManifestAllows(store, src.pod, dst.pod, pkt) {
      AllowedMeansCovered(cluster, store, np, env, src, dst, pkt);
    }
    if Covered(RaindEW, np, env, pkt) && !OtherOwnerCovers(np, env, pkt) {
      var p :| p in np.List(RaindEW) && PolicyCovers(RaindEW, p, env, pkt);
      CoveredMeansAllowed(cluster, store, np, env, src, dst, pkt, p);
    }
  }

  /** The same, all the way back to the Kubernetes manifests the store was built from. */
  lemma {:induction false} PodTrafficIsAsInManifests(chains: FwChains, cluster: Cluster, store: Store, specs: map<string, K8sPolicy>,
                                  np: NetworkPolicy, env: Env, src: Endpoint, dst: Endpoint, pkt: Packet, depth: nat)
    requires store.Keys == specs.Keys && forall id :: id in store ==> BuiltFrom(store[id], specs[id])
    requires WellFormed(cluster) && Wired(env, cluster)
    requires InStep(cluster, store, np.eastWest) && Readable(cluster, store, np.eastWest)
    requires forall p :: p in np.eastWest && p.ownerKind == OWNER_KIND ==> p.status != RemoveNextCommit
    requires Committed(chains, np, env) && depth > 0
    requires ReadyEndpoint(cluster, src) && ReadyEndpoint(cluster, dst) && src.container.id != dst.container.id
    requires Between(env, src, dst, pkt) && pkt.state == New
    ensures Eval(chains, chains[RaindRoot], pkt, depth).verdict ==
            if OtherOwnerCovers(np, env, pkt) || exists id :: id in specs && K8sAllows(specs[id], src.pod, dst.pod, pkt.protocol, pkt.dport)
            then Accepted else Dropped
  {
    hide Readable, InStep, PolicyCovers, Committed, Eval, ManifestAllows, Wired, ReadyEndpoint, K8sAllows, RenderableStore, WellFormed;
    BuiltStoreRenderable(store, specs);
    PodTrafficIsAsDeclared(chains, cluster, store, np, env, src, dst, pkt, depth);
    forall id | id in store
      ensures ManifestAllows(store[id], src.pod, dst.pod, pkt.protocol, pkt.dport) <==> K8sAllows(specs[id], src.pod, dst.pod, pkt.protocol, pkt.dport)
    {
      BuiltAllowsSame(store[id], specs[id], src.pod, dst.pod, pkt.protocol, pkt.dport);
    }
  }
}

/** The state key of a Service, and what two Services with the same key have in common. */
module ServiceKey {
  import opened Iptables
  import opened Commands
  import opened Lists
  import opened Text
  import opened ServiceRules
  import opened ServiceShape

  function TypeName(t: ServiceType): string {
    if t == ClusterIP then "ClusterIP" else "NodePort"
  }

  function PortPart(p: ServicePort): string {
    Itoa(p.port) + ":" + Itoa(p.targetPort) + "/" + ToLower(p.protocol)
  }

  function AddrOf(e: Endpoint): string {
    e.addr
  }

  function HeadParts(svc: ServiceInfo): seq<string> {
    ["type=" + TypeName(svc.type_)] + if svc.clusterIP == "" then [] else ["clusterIP=" + svc.clusterIP]
  }

  function Parts(svc: ServiceInfo, eps: seq<Endpoint>): seq<string> {
    HeadParts(svc) + Mapped(PortPart, svc.ports) + Mapped(AddrOf, eps)
  }

  function StateKey(svc: ServiceInfo, eps: seq<Endpoint>): string {
    Join(SortKeys(Parts(svc, eps)), ',')
  }

  /** Addresses are plain: IPAM and the Service store hand out dotted IPv4. */
  predicate PlainAddr(a: string) {
    ',' !in a && ':' !in a && '=' !in a
  }

  type Links = map<string, (string, string)>

  /** The endpoints of a pass: sorted by address, each with the interfaces its address belongs to. */
  ghost predicate EndpointsOk(eps: seq<Endpoint>, links: Links) {
    && Sorted(Mapped(AddrOf, eps))
    && forall e :: e in eps ==> PlainAddr(e.addr) && e.addr in links && (e.hostInterface, e.bridge) == links[e.addr]
  }

  ghost predicate ServiceOk(svc: ServiceInfo) {
    WellFormed(svc) && PlainAddr(svc.clusterIP)
  }

  function Lowered(p: ServicePort): ServicePort {
    p.(protocol := ToLower(p.protocol))
  }

  // ---- reading a key back ---------------------------------------------------------------------

  lemma ItoaPlain(n: int)
    ensures ',' !in Itoa(n) && ':' !in Itoa(n) && '/' !in Itoa(n) && '=' !in Itoa(n)
  {
  }

  lemma PortPartInjective(p: ServicePort, q: ServicePort)
    requires PortPart(p) == PortPart(q)
    ensures Lowered(p) == Lowered(q)
  {
    ItoaPlain(p.port);
    ItoaPlain(q.port);
    ItoaPlain(p.targetPort);
    ItoaPlain(q.targetPort);
    var u, v := Itoa(p.targetPort) + "/" + ToLower(p.protocol), Itoa(q.targetPort) + "/" + ToLower(q.protocol);
    assert PortPart(p) == Itoa(p.port) + [':'] + u && PortPart(q) == Itoa(q.port) + [':'] + v;
    SplitFirst(Itoa(p.port), u, Itoa(q.port), v, ':');
    SplitFirst(Itoa(p.targetPort), ToLower(p.protocol), Itoa(q.targetPort), ToLower(q.protocol), '/');
    ItoaInjective(p.port, q.port);
    ItoaInjective(p.targetPort, q.targetPort);
  }

  /** Ports contain ':', the head parts '=' and no ':', addresses neither. */
  predicate PortKind(x: string) {
    ':' in x && '=' !in x && ',' !in x
  }

  lemma PortKinds(p: ServicePort)
    requires Proto(p) == "tcp" || Proto(p) == "udp"
    ensures PortKind(PortPart(p))
  {
    ItoaPlain(p.port);
    ItoaPlain(p.targetPort);
    var a, b, c := Itoa(p.port), Itoa(p.targetPort), ToLower(p.protocol);
    assert ',' !in c && '=' !in c;
    hide ToLower, Itoa, Proto;
    assert PortPart(p) == a + ":" + b + "/" + c && PortPart(p)[|a|] == ':';
  }

  lemma HeadKinds(svc: ServiceInfo)
    requires ServiceOk(svc)
    ensures forall x :: x in HeadParts(svc) ==> ':' !in x && '=' in x && ',' !in x
  {
    hide WellFormed;
    assert "type="[4] == '=' && "clusterIP="[9] == '=';
    assert forall x :: x in HeadParts(svc) ==> x == "type=" + TypeName(svc.type_) || x == "clusterIP=" + svc.clusterIP;
    assert ("type=" + TypeName(svc.type_))[4] == '=' && ("clusterIP=" + svc.clusterIP)[9] == '=';
  }

  lemma PartKinds(svc: ServiceInfo, eps: seq<Endpoint>, links: Links)
    requires ServiceOk(svc) && EndpointsOk(eps, links)
    ensures forall x :: x in HeadParts(svc) ==> ':' !in x && '=' in x && ',' !in x
    ensures forall x :: x in Mapped(PortPart, svc.ports) ==> ':' in x && '=' !in x && ',' !in x
    ensures forall x :: x in Mapped(AddrOf, eps) ==> ':' !in x && '=' !in x && ',' !in x
  {
    HeadKinds(svc);
    hide Sorted, HeadParts, PortPart, ToLower;
    forall i | 0 <= i < |svc.ports|
      ensures PortKind(PortPart(svc.ports[i]))
    {
      assert svc.ports[i] in svc.ports;
      PortKinds(svc.ports[i]);
    }
    forall x | x in Mapped(AddrOf, eps)
      ensures PlainAddr(x)
    {
      var i :| 0 <= i < |eps| && Mapped(AddrOf, eps)[i] == x;
      assert eps[i] in eps;
    }
  }

  lemma PartsWithoutComma(svc: ServiceInfo, eps: seq<Endpoint>, links: Links)
    requires ServiceOk(svc) && EndpointsOk(eps, links)
    ensures Without(SortKeys(Parts(svc, eps)), ',') && SortKeys(Parts(svc, eps)) != []
  {
    PartKinds(svc, eps, links);
    var ps := Parts(svc, eps);
    SortKeysElements(ps);
    assert |multiset(SortKeys(ps))| == |multiset(ps)| == |ps| > 0;
    hide HeadParts, PortPart;
    forall f | f in SortKeys(ps)
      ensures ',' !in f
    {
      assert f in multiset(SortKeys(ps));
      assert f in ps;
    }
  }

  /** Equal keys come from equal multisets of parts, kind by kind. */
  lemma EqualKeysEqualParts(s: ServiceInfo, t: ServiceInfo, d: seq<Endpoint>, e: seq<Endpoint>, links: Links)
    requires ServiceOk(s) && ServiceOk(t) && EndpointsOk(d, links) && EndpointsOk(e, links)
    requires StateKey(s, d) == StateKey(t, e)
    ensures multiset(HeadParts(s)) == multiset(HeadParts(t))
    ensures multiset(Mapped(PortPart, s.ports)) == multiset(Mapped(PortPart, t.ports))
    ensures multiset(Mapped(AddrOf, d)) == multiset(Mapped(AddrOf, e))
  {
    PartsWithoutComma(s, d, links);
    PartsWithoutComma(t, e, links);
    JoinInjective(SortKeys(Parts(s, d)), SortKeys(Parts(t, e)), ',');
    SortKeysElements(Parts(s, d));
    SortKeysElements(Parts(t, e));
    PartKinds(s, d, links);
    PartKinds(t, e, links);
    ThreeKinds(HeadParts(s), Mapped(PortPart, s.ports), Mapped(AddrOf, d), HeadParts(t), Mapped(PortPart, t.ports), Mapped(AddrOf, e));
  }

  lemma ThreeKinds(a: seq<string>, b: seq<string>, c: seq<string>, a': seq<string>, b': seq<string>, c': seq<string>)
    requires multiset(a + b + c) == multiset(a' + b' + c')
    requires forall x :: x in a || x in a' ==> ':' !in x && '=' in x
    requires forall x :: x in b || x in b' ==> ':' in x
    requires forall x :: x in c || x in c' ==> ':' !in x && '=' !in x
    ensures multiset(a) == multiset(a') && multiset(b) == multiset(b') && multiset(c) == multiset(c')
  {
    forall x
      ensures multiset(a)[x] == multiset(a')[x] && multiset(b)[x] == multiset(b')[x] && multiset(c)[x] == multiset(c')[x]
    {
      assert (x in a <==> multiset(a)[x] > 0) && (x in a' <==> multiset(a')[x] > 0);
      assert (x in b <==> multiset(b)[x] > 0) && (x in b' <==> multiset(b')[x] > 0);
      assert (x in c <==> multiset(c)[x] > 0) && (x in c' <==> multiset(c')[x] > 0);
      assert multiset(a + b + c)[x] == multiset(a)[x] + multiset(b)[x] + multiset(c)[x];
      assert multiset(a' + b' + c')[x] == multiset(a')[x] + multiset(b')[x] + multiset(c')[x];
    }
  }

  lemma HeadPartsInjective(s: ServiceInfo, t: ServiceInfo)
    requires multiset(HeadParts(s)) == multiset(HeadParts(t))
    ensures s.type_ == t.type_ && s.clusterIP == t.clusterIP
  {
    HeadShape(s);
    HeadShape(t);
    hide HeadParts, TypeName;
    var h, k := HeadParts(s), HeadParts(t);
    assert |h| == |multiset(h)| == |multiset(k)| == |k|;
    assert h[0] in multiset(k) && h[|h| - 1] in multiset(k);
    assert h[0] == k[0];
  }

  /** The parts tell each other apart by their first letters. */
  lemma HeadShape(s: ServiceInfo)
    ensures var h := HeadParts(s);
            && |h| == (if s.clusterIP == "" then 1 else 2)
            && |h[0]| > 5 && h[0][0] == 't' && (h[0][5] == 'C' <==> s.type_ == ClusterIP)
            && (|h| == 2 ==> |h[1]| > 10 && h[1][0] == 'c' && h[1][10..] == s.clusterIP)
  {
  }

  /** Sorted endpoints with the same addresses are the same endpoints. */
  lemma SameEndpoints(d: seq<Endpoint>, e: seq<Endpoint>, links: Links)
    requires EndpointsOk(d, links) && EndpointsOk(e, links)
    requires multiset(Mapped(AddrOf, d)) == multiset(Mapped(AddrOf, e))
    ensures d == e
  {
    var a, b := Mapped(AddrOf, d), Mapped(AddrOf, e);
    SortedSortsToItself(a);
    SortedSortsToItself(b);
    SortKeysCanonical(a, b);
    assert |d| == |a| == |b| == |e|;
    forall i | 0 <= i < |d|
      ensures d[i] == e[i]
    {
      assert d[i] in d && e[i] in e && a[i] == b[i];
    }
  }

  /** What the key keeps of a Service: everything but the order of its ports and the case of their protocols. */
  lemma EqualKeys(s: ServiceInfo, t: ServiceInfo, d: seq<Endpoint>, e: seq<Endpoint>, links: Links)
    requires ServiceOk(s) && ServiceOk(t) && EndpointsOk(d, links) && EndpointsOk(e, links)
    ensures StateKey(s, d) == StateKey(t, e) <==>
            s.type_ == t.type_ && s.clusterIP == t.clusterIP && d == e
            && multiset(Mapped(Lowered, s.ports)) == multiset(Mapped(Lowered, t.ports))
  {
    if StateKey(s, d) == StateKey(t, e) {
      EqualKeysEqualParts(s, t, d, e, links);
      HeadPartsInjective(s, t);
      SameEndpoints(d, e, links);
      PartsOfLowered(s.ports);
      PartsOfLowered(t.ports);
      forall x, y | x in Mapped(Lowered, s.ports) && y in Mapped(Lowered, t.ports) && PortPart(x) == PortPart(y)
        ensures x == y
      {
        PortPartInjective(x, y);
        LoweredTwice(s.ports, x);
        LoweredTwice(t.ports, y);
      }
      MappedInjective(PortPart, Mapped(Lowered, s.ports), Mapped(Lowered, t.ports));
    }
    if s.type_ == t.type_ && s.clusterIP == t.clusterIP && d == e
       && multiset(Mapped(Lowered, s.ports)) == multiset(Mapped(Lowered, t.ports)) {
      PartsOfLowered(s.ports);
      PartsOfLowered(t.ports);
      MappedMultiset(PortPart, Mapped(Lowered, s.ports), Mapped(Lowered, t.ports));
      SortKeysCanonical(Parts(s, d), Parts(t, e));
    }
  }

  lemma PartsOfLowered(ports: seq<ServicePort>)
    ensures Mapped(PortPart, ports) == Mapped(PortPart, Mapped(Lowered, ports))
  {
    forall i | 0 <= i < |ports|
      ensures PortPart(ports[i]) == PortPart(Lowered(ports[i]))
    {
      ToLowerTwice(ports[i].protocol);
    }
  }

  lemma LoweredTwice(ports: seq<ServicePort>, x: ServicePort)
    requires x in Mapped(Lowered, ports)
    ensures Lowered(x) == x
  {
    var i :| 0 <= i < |ports| && x == Mapped(Lowered, ports)[i];
    assert x == Lowered(ports[i]);
    ToLowerTwice(ports[i].protocol);
    assert Lowered(x).protocol == x.protocol;
  }

  // ---- same key, same rules ----------------------------------------------------------------------

  /** Two tables with the same chains: the DNAT chains rule for rule, the others as multisets. */
  ghost predicate Alike(a: SvcChains, b: SvcChains) {
    && a.Keys == b.Keys
    && forall c :: c in a ==> (if c.SvcChain? then a[c] == b[c] else multiset(a[c]) == multiset(b[c]))
  }

  lemma LoweredSameProto(p: ServicePort)
    ensures Proto(Lowered(p)) == Proto(p) && Skipped(Lowered(p)) == Skipped(p)
  {
    ToLowerTwice(p.protocol);
  }

  /** What the ports contribute depends on them up to order and case. */
  lemma {:induction false} SameGathered<T>(f: ServicePort -> seq<T>, g: ServicePort -> seq<T>, a: seq<ServicePort>, b: seq<ServicePort>)
    requires forall p :: f(p) == f(Lowered(p)) && g(p) == f(Lowered(p))
    requires multiset(Mapped(Lowered, a)) == multiset(Mapped(Lowered, b))
    ensures multiset(Gather(f, a)) == multiset(Gather(g, b))
  {
    GatherSame(f, f, a, Mapped(Lowered, a));
    GatherSame(g, f, b, Mapped(Lowered, b));
    GatherMultiset(f, Mapped(Lowered, a), Mapped(Lowered, b));
  }

  ghost predicate SameService(s: ServiceInfo, t: ServiceInfo) {
    && Prefix(s.serviceId) == Prefix(t.serviceId) && s.type_ == t.type_ && s.clusterIP == t.clusterIP
    && multiset(Mapped(Lowered, s.ports)) == multiset(Mapped(Lowered, t.ports))
  }

  lemma SameJumps(s: ServiceInfo, t: ServiceInfo, local: bool)
    requires SameService(s, t)
    ensures multiset(Gather(JumpsOf(s, local), s.ports)) == multiset(Gather(JumpsOf(t, local), t.ports))
  {
    forall p
      ensures JumpsOf(s, local)(p) == JumpsOf(s, local)(Lowered(p)) && JumpsOf(t, local)(p) == JumpsOf(s, local)(Lowered(p))
    {
      LoweredSameProto(p);
    }
    SameGathered(JumpsOf(s, local), JumpsOf(t, local), s.ports, t.ports);
  }

  lemma SameMasq(s: ServiceInfo, t: ServiceInfo, eps: seq<Endpoint>)
    requires SameService(s, t)
    ensures multiset(Gather(MasqOf(eps), s.ports)) == multiset(Gather(MasqOf(eps), t.ports))
  {
    forall p
      ensures MasqOf(eps)(p) == MasqOf(eps)(Lowered(p))
    {
      LoweredSameProto(p);
      assert MasqRules(eps, p) == MasqRules(eps, Lowered(p));
    }
    SameGathered(MasqOf(eps), MasqOf(eps), s.ports, t.ports);
  }

  lemma SameAccepts(s: ServiceInfo, t: ServiceInfo, eps: seq<Endpoint>)
    requires SameService(s, t)
    ensures multiset(Gather(AcceptOf(eps), s.ports)) == multiset(Gather(AcceptOf(eps), t.ports))
  {
    forall p
      ensures AcceptOf(eps)(p) == AcceptOf(eps)(Lowered(p))
    {
      LoweredSameProto(p);
      assert forall e :: ForwardsOf(p)(e) == ForwardsOf(Lowered(p))(e);
      GatherSame(ForwardsOf(p), ForwardsOf(Lowered(p)), eps, eps);
    }
    SameGathered(AcceptOf(eps), AcceptOf(eps), s.ports, t.ports);
  }

  /** Every port of s is, up to case, a port of t. */
  lemma SamePort(s: ServiceInfo, t: ServiceInfo, p: ServicePort) returns (q: ServicePort)
    requires SameService(s, t) && p in s.ports
    ensures q in t.ports && Lowered(q) == Lowered(p)
  {
    var a, b := Mapped(Lowered, s.ports), Mapped(Lowered, t.ports);
    var i :| 0 <= i < |s.ports| && s.ports[i] == p;
    assert a[i] in multiset(a);
    assert a[i] in b;
    var j :| 0 <= j < |b| && b[j] == a[i];
    q := t.ports[j];
  }

  lemma PortChainsWithin(s: ServiceInfo, t: ServiceInfo)
    requires SameService(s, t)
    ensures PortChains(s, s.ports) <= PortChains(t, t.ports)
  {
    forall c | c in PortChains(s, s.ports)
      ensures c in PortChains(t, t.ports)
    {
      var p :| p in s.ports && !Skipped(p) && c == SvcOf(s, p.port);
      var q := SamePort(s, t, p);
      LoweredSameProto(p);
      LoweredSameProto(q);
      assert q.port == Lowered(q).port;
    }
  }

  lemma SameDnat(s: ServiceInfo, t: ServiceInfo, eps: seq<Endpoint>, a: SvcChains, b: SvcChains, c: Chain)
    requires SameService(s, t) && c in PortChains(s, s.ports)
    requires forall p :: p in s.ports && !Skipped(p) ==> SvcOf(s, p.port) in a && a[SvcOf(s, p.port)] == DnatRules(eps, p)
    requires forall p :: p in t.ports && !Skipped(p) ==> SvcOf(t, p.port) in b && b[SvcOf(t, p.port)] == DnatRules(eps, p)
    ensures c in a && c in b && a[c] == b[c]
  {
    var p :| p in s.ports && !Skipped(p) && c == SvcOf(s, p.port);
    var q := SamePort(s, t, p);
    LoweredSameProto(p);
    LoweredSameProto(q);
    assert q.port == Lowered(q).port && q.targetPort == Lowered(q).targetPort;
    assert DnatRules(eps, p) == DnatRules(eps, q);
  }

  lemma AlikeShapes(a: SvcChains, b: SvcChains, U: set<Chain>, s: ServiceInfo, t: ServiceInfo, eps: seq<Endpoint>,
                    post: seq<SvcRule>, m: seq<SvcRule>, n: seq<SvcRule>)
    requires Unowned(U) && SameService(s, t) && multiset(m) == multiset(n)
    requires NatShape(a, U, s, eps, s.ports, post, m, true) && NatShape(b, U, t, eps, t.ports, post, n, true)
    ensures Alike(a, b)
  {
    SameJumps(s, t, false);
    SameJumps(s, t, true);
    assert SnatOf(s) == SnatOf(t) && PortChains(s, s.ports) == PortChains(t, t.ports) by {
      PortChainsWithin(s, t);
      PortChainsWithin(t, s);
    }
    forall c | c in PortChains(s, s.ports)
      ensures c in a && c in b && a[c] == b[c]
    {
      AlikeDnat(a, b, U, s, t, eps, post, m, n, c);
    }
    hide Gather, JumpsOf, SameService, DnatRules, PortChains;
    AlikeRest(a, b, U, s, t, eps, post, m, n);
  }

  lemma AlikeDnat(a: SvcChains, b: SvcChains, U: set<Chain>, s: ServiceInfo, t: ServiceInfo, eps: seq<Endpoint>,
                  post: seq<SvcRule>, m: seq<SvcRule>, n: seq<SvcRule>, c: Chain)
    requires SameService(s, t) && c in PortChains(s, s.ports)
    requires NatShape(a, U, s, eps, s.ports, post, m, true) && NatShape(b, U, t, eps, t.ports, post, n, true)
    ensures c in a && c in b && a[c] == b[c]
  {
    ShapeDnat(a, U, s, eps, post, m);
    ShapeDnat(b, U, t, eps, post, n);
    hide NatShape, Gather, PortChains, SameService;
    SameDnat(s, t, eps, a, b, c);
  }

  lemma AlikeRest(a: SvcChains, b: SvcChains, U: set<Chain>, s: ServiceInfo, t: ServiceInfo, eps: seq<Endpoint>,
                  post: seq<SvcRule>, m: seq<SvcRule>, n: seq<SvcRule>)
    requires Unowned(U) && multiset(m) == multiset(n)
    requires NatShape(a, U, s, eps, s.ports, post, m, true) && NatShape(b, U, t, eps, t.ports, post, n, true)
    requires SnatOf(s) == SnatOf(t) && PortChains(s, s.ports) == PortChains(t, t.ports)
    requires multiset(Gather(JumpsOf(s, false), s.ports)) == multiset(Gather(JumpsOf(t, false), t.ports))
    requires multiset(Gather(JumpsOf(s, true), s.ports)) == multiset(Gather(JumpsOf(t, true), t.ports))
    requires forall c :: c in PortChains(s, s.ports) ==> c in a && c in b && a[c] == b[c]
    ensures Alike(a, b)
  {
    hide Gather, JumpsOf, DnatRules;
    assert a.Keys == b.Keys;
    forall c | c in a && c !in PortChains(s, s.ports)
      ensures !c.SvcChain? && multiset(a[c]) == multiset(b[c])
    {
      assert c in U || c == SnatOf(s);
    }
  }

  lemma ShapeDnat(a: SvcChains, U: set<Chain>, s: ServiceInfo, eps: seq<Endpoint>, post: seq<SvcRule>, m: seq<SvcRule>)
    requires NatShape(a, U, s, eps, s.ports, post, m, true)
    ensures forall p :: p in s.ports && !Skipped(p) ==> SvcOf(s, p.port) in a && a[SvcOf(s, p.port)] == DnatRules(eps, p)
  {
    hide Gather, JumpsOf, DnatRules, Prefix;
    forall p | p in s.ports && !Skipped(p)
      ensures SvcOf(s, p.port) in a
    {
      assert SvcOf(s, p.port) in PortChains(s, s.ports);
    }
  }

  /** Services that differ only in the order of their ports or the case of a protocol get the same rules. */
  lemma SameNat(U: set<Chain>, s: ServiceInfo, t: ServiceInfo, eps: seq<Endpoint>, hostAddr: string)
    requires Unowned(U) && WellFormed(s) && WellFormed(t) && SameService(s, t)
    ensures Alike(Run(Bare(U), NatApply(s, eps, hostAddr)), Run(Bare(U), NatApply(t, eps, hostAddr)))
  {
    NatIsApplied(U, s, eps, hostAddr);
    NatIsApplied(U, t, eps, hostAddr);
    SameMasq(s, t, eps);
    assert SnatJumps(s, hostAddr) == SnatJumps(t, hostAddr);
    hide NatApply, Run, Gather, SameService, WellFormed, SnatJumps, NatShape, Alike;
    AlikeShapes(Run(Bare(U), NatApply(s, eps, hostAddr)), Run(Bare(U), NatApply(t, eps, hostAddr)), U, s, t, eps,
                SnatJumps(s, hostAddr), Gather(MasqOf(eps), s.ports), Gather(MasqOf(eps), t.ports));
  }

  lemma SameFilter(U: set<Chain>, s: ServiceInfo, t: ServiceInfo, eps: seq<Endpoint>)
    requires UnownedFilter(U) && SameService(s, t)
    ensures Alike(Run(Bare(U), FilterApply(s, eps)), Run(Bare(U), FilterApply(t, eps)))
  {
    FilterIsApplied(U, s, eps);
    FilterIsApplied(U, t, eps);
    SameAccepts(s, t, eps);
  }
}

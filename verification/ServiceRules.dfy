/** The iptables programs of one Service: what applying it and cleaning it up send to the filter
    and the nat table, and what an applied Service looks like on a table of its own. */
module ServiceRules {
  import opened Iptables
  import opened Commands
  import opened Lists
  import opened Text

  datatype ServiceType = ClusterIP | NodePort

  datatype ServicePort = ServicePort(port: int, targetPort: int, protocol: string)

  datatype ServiceInfo = ServiceInfo(serviceId: string, type_: ServiceType, clusterIP: string, ports: seq<ServicePort>)

  datatype Endpoint = Endpoint(addr: string, hostInterface: string, bridge: string)

  /** The match part of the rules written for Services. oneOf is n where the rule fires with probability 1/n. */
  datatype Match = Match(proto: string, dport: int, sport: int, src: string, dst: string,
                         inDev: string, outDev: string, ctDnat: bool, dstLocal: bool, oneOf: nat)

  type SvcRule = Rule<Match>
  type SvcChains = Chains<Match>
  type Program = seq<Cmd<Match>>

  const ALL := Match("", 0, 0, "", "", "", "", false, false, 0)

  function Prefix(id: string): string {
    if |id| > 8 then id[..8] else id
  }

  function FwdOf(svc: ServiceInfo): Chain {
    FwdChain(Prefix(svc.serviceId))
  }

  function SnatOf(svc: ServiceInfo): Chain {
    SnatChain(Prefix(svc.serviceId))
  }

  function SvcOf(svc: ServiceInfo, port: int): Chain {
    SvcChain(Prefix(svc.serviceId), port)
  }

  function Proto(p: ServicePort): string {
    if ToLower(p.protocol) == "" then "tcp" else ToLower(p.protocol)
  }

  predicate Skipped(p: ServicePort) {
    p.port == 0 || p.targetPort == 0
  }

  // ---- rules --------------------------------------------------------------------------------

  function JumpTo(c: Chain): SvcRule {
    Rule(ALL, Jump(c))
  }

  function LocalhostRule(c: Chain): SvcRule {
    Rule(ALL.(src := "127.0.0.0/8"), Jump(c))
  }

  function HostRule(c: Chain, hostAddr: string): SvcRule {
    Rule(ALL.(src := hostAddr + "/32"), Jump(c))
  }

  /** The jump to a port's chain: from OUTPUT when local, from PREROUTING otherwise. */
  function PortJump(svc: ServiceInfo, local: bool, proto: string, port: int): SvcRule {
    var to := Jump(SvcOf(svc, port));
    if svc.type_ == ClusterIP then Rule(ALL.(dst := svc.clusterIP + "/32", proto := proto, dport := port), to)
    else Rule(ALL.(dstLocal := local, proto := proto, dport := port), to)
  }

  /** Endpoint i of n; every endpoint but the last is taken with probability 1/n. */
  function DnatRule(eps: seq<Endpoint>, i: nat, p: ServicePort): SvcRule
    requires i < |eps|
  {
    Rule(ALL.(proto := Proto(p), oneOf := if i < |eps| - 1 then |eps| else 0), Dnat(eps[i].addr, p.targetPort))
  }

  function MasqRule(e: Endpoint, p: ServicePort): SvcRule {
    Rule(ALL.(dst := e.addr, proto := Proto(p), dport := p.targetPort), Masquerade)
  }

  function ForwardRules(e: Endpoint, p: ServicePort): seq<SvcRule> {
    if e.hostInterface == "" || e.bridge == "" then []
    else
      [Rule(ALL.(inDev := e.bridge, outDev := e.bridge, proto := Proto(p), ctDnat := true, dport := p.targetPort, dst := e.addr), Accept),
       Rule(ALL.(inDev := e.hostInterface, outDev := e.bridge, proto := Proto(p), dport := p.targetPort, dst := e.addr), Accept),
       Rule(ALL.(outDev := e.hostInterface, inDev := e.bridge, proto := Proto(p), sport := p.targetPort, src := e.addr), Accept)]
  }

  function DnatRules(eps: seq<Endpoint>, p: ServicePort): seq<SvcRule> {
    seq(|eps|, i requires 0 <= i < |eps| => DnatRule(eps, i, p))
  }

  function MasqRules(eps: seq<Endpoint>, p: ServicePort): seq<SvcRule> {
    seq(|eps|, i requires 0 <= i < |eps| => MasqRule(eps[i], p))
  }

  function ForwardsOf(p: ServicePort): Endpoint -> seq<SvcRule> {
    e => ForwardRules(e, p)
  }

  /** What each port of a service contributes to the jump lists, the MASQUERADE and the ACCEPT chain. */
  function JumpsOf(svc: ServiceInfo, local: bool): ServicePort -> seq<SvcRule> {
    p => if Skipped(p) then [] else [PortJump(svc, local, Proto(p), p.port)]
  }

  function MasqOf(eps: seq<Endpoint>): ServicePort -> seq<SvcRule> {
    p => if Skipped(p) then [] else MasqRules(eps, p)
  }

  function AcceptOf(eps: seq<Endpoint>): ServicePort -> seq<SvcRule> {
    p => if Skipped(p) then [] else Gather(ForwardsOf(p), eps)
  }

  function SnatJumps(svc: ServiceInfo, hostAddr: string): seq<SvcRule> {
    [LocalhostRule(SnatOf(svc))] + if hostAddr == "" then [] else [HostRule(SnatOf(svc), hostAddr)]
  }

  // ---- programs -------------------------------------------------------------------------------

  function Appends(c: Chain, rules: seq<SvcRule>): Program {
    seq(|rules|, i requires 0 <= i < |rules| => Append(c, rules[i]))
  }

  function DeleteSnatJumps(c: Chain, hostAddr: string): Program {
    [Delete(Postrouting, LocalhostRule(c))] + if hostAddr == "" then [] else [Delete(Postrouting, HostRule(c, hostAddr))]
  }

  function AddSnatJumps(c: Chain, hostAddr: string): Program {
    [Append(Postrouting, LocalhostRule(c))] + if hostAddr == "" then [] else [Append(Postrouting, HostRule(c, hostAddr))]
  }

  function DeletePortJumps(svc: ServiceInfo, proto: string, port: int): Program {
    if svc.type_ == ClusterIP && svc.clusterIP == "" then []
    else [Delete(Prerouting, PortJump(svc, false, proto, port)), Delete(Output, PortJump(svc, true, proto, port))]
  }

  function AddPortJumps(svc: ServiceInfo, proto: string, port: int): Program {
    [Append(Prerouting, PortJump(svc, false, proto, port)), Append(Output, PortJump(svc, true, proto, port))]
  }

  /** The endpoint rules of one port: a DNAT rule and a MASQUERADE rule in turn. */
  function EndpointsNat(svc: ServiceInfo, eps: seq<Endpoint>, k: nat, p: ServicePort): Program
    requires k <= |eps|
  {
    if k == 0 then []
    else EndpointsNat(svc, eps, k - 1, p)
         + [Append(SvcOf(svc, p.port), DnatRule(eps, k - 1, p)), Append(SnatOf(svc), MasqRule(eps[k - 1], p))]
  }

  function PortNat(svc: ServiceInfo, eps: seq<Endpoint>, p: ServicePort): Program {
    if Skipped(p) then []
    else
      [New(SvcOf(svc, p.port)), Flush(SvcOf(svc, p.port))]
      + DeletePortJumps(svc, Proto(p), p.port) + AddPortJumps(svc, Proto(p), p.port)
      + EndpointsNat(svc, eps, |eps|, p)
  }

  function PortNatOf(svc: ServiceInfo, eps: seq<Endpoint>): ServicePort -> Program {
    p => PortNat(svc, eps, p)
  }

  function SnatSetup(svc: ServiceInfo, hostAddr: string): Program {
    [New(SnatOf(svc)), Flush(SnatOf(svc))] + DeleteSnatJumps(SnatOf(svc), hostAddr) + AddSnatJumps(SnatOf(svc), hostAddr)
  }

  /** What applyRules sends to the nat table when every command succeeds. */
  function NatApply(svc: ServiceInfo, eps: seq<Endpoint>, hostAddr: string): Program {
    SnatSetup(svc, hostAddr) + Gather(PortNatOf(svc, eps), svc.ports)
  }

  function FwdSetup(svc: ServiceInfo): Program {
    [New(FwdOf(svc)), Flush(FwdOf(svc)), Delete(Forward, JumpTo(FwdOf(svc))), Insert(Forward, JumpTo(FwdOf(svc)))]
  }

  /** What applyRules sends to the filter table when every command succeeds. */
  function FilterApply(svc: ServiceInfo, eps: seq<Endpoint>): Program {
    FwdSetup(svc) + Appends(FwdOf(svc), Gather(AcceptOf(eps), svc.ports))
  }

  function FilterCleanup(svc: ServiceInfo): Program {
    [Delete(Forward, JumpTo(FwdOf(svc))), Flush(FwdOf(svc)), Remove(FwdOf(svc))]
  }

  function PortCleanup(svc: ServiceInfo, p: ServicePort): Program {
    if p.port == 0 then []
    else
      DeletePortJumps(svc, "tcp", p.port) + DeletePortJumps(svc, "udp", p.port)
      + [Flush(SvcOf(svc, p.port)), Remove(SvcOf(svc, p.port))]
  }

  function PortCleanupOf(svc: ServiceInfo): ServicePort -> Program {
    p => PortCleanup(svc, p)
  }

  function SnatCleanup(svc: ServiceInfo, hostAddr: string): Program {
    DeleteSnatJumps(SnatOf(svc), hostAddr) + [Flush(SnatOf(svc)), Remove(SnatOf(svc))]
  }

  function NatCleanup(svc: ServiceInfo, hostAddr: string): Program {
    SnatCleanup(svc, hostAddr) + Gather(PortCleanupOf(svc), svc.ports)
  }

  // ---- every program is local to its service ----------------------------------------------------

  ghost predicate Local(prog: Program, svc: ServiceInfo) {
    forall i :: 0 <= i < |prog| ==> LocalTo(prog[i], Prefix(svc.serviceId))
  }

  lemma LocalConcat(a: Program, b: Program, svc: ServiceInfo)
    requires Local(a, svc) && Local(b, svc)
    ensures Local(a + b, svc)
  {
  }

  lemma {:induction false} EndpointsNatLocal(svc: ServiceInfo, eps: seq<Endpoint>, k: nat, p: ServicePort)
    requires k <= |eps|
    ensures Local(EndpointsNat(svc, eps, k, p), svc)
    decreases k
  {
    if k > 0 {
      EndpointsNatLocal(svc, eps, k - 1, p);
    }
  }

  lemma {:induction false} GatherLocal(f: ServicePort -> Program, ports: seq<ServicePort>, svc: ServiceInfo)
    requires forall p :: Local(f(p), svc)
    ensures Local(Gather(f, ports), svc)
    decreases |ports|
  {
    if ports != [] {
      GatherLocal(f, ports[1..], svc);
    }
  }

  lemma PortNatLocal(svc: ServiceInfo, eps: seq<Endpoint>, p: ServicePort)
    ensures Local(PortNat(svc, eps, p), svc)
  {
    EndpointsNatLocal(svc, eps, |eps|, p);
    hide EndpointsNat, Prefix;
    assert Local([New(SvcOf(svc, p.port)), Flush(SvcOf(svc, p.port))], svc);
    assert Local(DeletePortJumps(svc, Proto(p), p.port), svc) && Local(AddPortJumps(svc, Proto(p), p.port), svc);
  }

  lemma {:induction false} ForwardsPlain(p: ServicePort, eps: seq<Endpoint>)
    ensures forall r :: r in Gather(ForwardsOf(p), eps) ==> r.target == Accept
    decreases |eps|
  {
    if eps != [] {
      ForwardsPlain(p, eps[1..]);
      assert forall r :: r in ForwardRules(eps[0], p) ==> r.target == Accept;
    }
  }

  lemma {:induction false} AcceptsPlain(eps: seq<Endpoint>, ports: seq<ServicePort>)
    ensures forall r :: r in Gather(AcceptOf(eps), ports) ==> r.target == Accept
    decreases |ports|
  {
    if ports != [] {
      AcceptsPlain(eps, ports[1..]);
      ForwardsPlain(ports[0], eps);
    }
  }

  lemma NatApplyLocal(svc: ServiceInfo, eps: seq<Endpoint>, hostAddr: string)
    ensures Local(NatApply(svc, eps, hostAddr), svc)
  {
    forall p
      ensures Local(PortNatOf(svc, eps)(p), svc)
    {
      PortNatLocal(svc, eps, p);
    }
    GatherLocal(PortNatOf(svc, eps), svc.ports, svc);
    assert Local(SnatSetup(svc, hostAddr), svc);
    hide SnatSetup, PortNatOf, Gather, Prefix;
    LocalConcat(SnatSetup(svc, hostAddr), Gather(PortNatOf(svc, eps), svc.ports), svc);
  }

  lemma NatCleanupLocal(svc: ServiceInfo, hostAddr: string)
    ensures Local(NatCleanup(svc, hostAddr), svc)
  {
    forall p
      ensures Local(PortCleanupOf(svc)(p), svc)
    {
      assert Local(PortCleanup(svc, p), svc);
    }
    GatherLocal(PortCleanupOf(svc), svc.ports, svc);
    assert Local(SnatCleanup(svc, hostAddr), svc);
    hide SnatCleanup, PortCleanupOf, Gather, Prefix;
    LocalConcat(SnatCleanup(svc, hostAddr), Gather(PortCleanupOf(svc), svc.ports), svc);
  }

  lemma FilterLocal(svc: ServiceInfo, eps: seq<Endpoint>)
    ensures Local(FilterApply(svc, eps), svc) && Local(FilterCleanup(svc), svc)
  {
    AcceptsPlain(eps, svc.ports);
    var rules := Gather(AcceptOf(eps), svc.ports);
    hide Gather, AcceptOf, Prefix;
    forall i | 0 <= i < |rules|
      ensures LocalTo(Appends(FwdOf(svc), rules)[i], Prefix(svc.serviceId))
    {
      assert rules[i] in rules;
    }
    assert Local(FwdSetup(svc), svc);
    LocalConcat(FwdSetup(svc), Appends(FwdOf(svc), rules), svc);
  }
}

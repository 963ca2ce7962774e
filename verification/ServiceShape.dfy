/** What an applied Service looks like on a table that holds nothing else, and that cleaning it up
    leaves that table as it was. */
module ServiceShape {
  import opened Iptables
  import opened Commands
  import opened Lists
  import opened Text
  import opened ServiceRules

  /** A table of the unowned chains U, all empty: the view of a service that has no rules. */
  ghost function Bare(U: set<Chain>): SvcChains {
    map c | c in U :: []
  }

  /** The unowned chains of a nat table, and of a filter table. */
  ghost predicate Unowned(U: set<Chain>) {
    {Prerouting, Output, Postrouting} <= U && forall c :: c in U ==> OwnerOf(c) == Nobody
  }

  ghost predicate UnownedFilter(U: set<Chain>) {
    Forward in U && forall c :: c in U ==> OwnerOf(c) == Nobody
  }

  /** What the Service store and manifests guarantee, with one entry per port number. */
  ghost predicate WellFormed(svc: ServiceInfo) {
    && (svc.type_ == ClusterIP ==> svc.clusterIP != "")
    && DistinctPorts(svc.ports)
    && forall p :: p in svc.ports ==> Proto(p) == "tcp" || Proto(p) == "udp"
  }

  ghost predicate DistinctPorts(ports: seq<ServicePort>) {
    forall i, j :: 0 <= i < j < |ports| && ports[i].port != 0 ==> ports[i].port != ports[j].port
  }

  // ---- short programs -------------------------------------------------------------------------

  lemma {:induction false} Run2(ch: SvcChains, a: Cmd<Match>, b: Cmd<Match>)
    ensures Run(ch, [a, b]) == Step(Step(ch, a), b)
  {
    assert [a, b][1..] == [b];
    RunOne(Step(ch, a), b);
  }

  lemma {:induction false} RemoveAbsent<T>(s: seq<T>, x: T)
    requires x !in s
    ensures RemoveFirst(s, x) == s
    decreases |s|
  {
    if s != [] {
      RemoveAbsent(s[1..], x);
    }
  }

  lemma {:induction false} StepDelete(ch: SvcChains, c: Chain, r: SvcRule)
    requires c in ch
    ensures Step(ch, Delete(c, r)) == ch[c := RemoveFirst(ch[c], r)]
  {
    if r !in ch[c] {
      RemoveAbsent(ch[c], r);
      assert ch[c := ch[c]] == ch;
    }
  }

  lemma {:induction false} RunAppends(ch: SvcChains, c: Chain, rules: seq<SvcRule>)
    requires c in ch && forall r :: r in rules ==> !r.target.Jump?
    ensures Run(ch, Appends(c, rules)) == ch[c := ch[c] + rules]
    decreases |rules|
  {
    if rules == [] {
      assert ch[c] + rules == ch[c];
      assert ch[c := ch[c]] == ch;
    } else {
      var ch' := ch[c := ch[c] + [rules[0]]];
      assert Appends(c, rules)[1..] == Appends(c, rules[1..]);
      assert Installable(ch, c, rules[0]);
      RunAppends(ch', c, rules[1..]);
      assert ch[c] + [rules[0]] + rules[1..] == ch[c] + rules;
    }
  }

  // ---- the filter table -------------------------------------------------------------------------

  ghost function FilterApplied(U: set<Chain>, svc: ServiceInfo, eps: seq<Endpoint>): SvcChains {
    Bare(U)[Forward := [JumpTo(FwdOf(svc))]][FwdOf(svc) := Gather(AcceptOf(eps), svc.ports)]
  }

  lemma RunFwdSetup(U: set<Chain>, svc: ServiceInfo)
    requires UnownedFilter(U)
    ensures Run(Bare(U), FwdSetup(svc)) == Bare(U)[Forward := [JumpTo(FwdOf(svc))]][FwdOf(svc) := []]
  {
    var c, r := FwdOf(svc), JumpTo(FwdOf(svc));
    assert OwnerOf(c) != Nobody;
    var b1 := Bare(U)[c := []];
    assert FwdSetup(svc) == [New(c), Flush(c)] + [Delete(Forward, r), Insert(Forward, r)];
    RunConcat(Bare(U), [New(c), Flush(c)], [Delete(Forward, r), Insert(Forward, r)]);
    Run2(Bare(U), New(c), Flush(c));
    assert b1[c := []] == b1;
    Run2(b1, Delete(Forward, r), Insert(Forward, r));
    assert Installable(b1, Forward, r);
    assert [r] + [] == [r];
  }

  lemma FilterIsApplied(U: set<Chain>, svc: ServiceInfo, eps: seq<Endpoint>)
    requires UnownedFilter(U)
    ensures Run(Bare(U), FilterApply(svc, eps)) == FilterApplied(U, svc, eps)
  {
    var rules := Gather(AcceptOf(eps), svc.ports);
    RunConcat(Bare(U), FwdSetup(svc), Appends(FwdOf(svc), rules));
    RunFwdSetup(U, svc);
    AcceptsPlain(eps, svc.ports);
    RunAppends(Run(Bare(U), FwdSetup(svc)), FwdOf(svc), rules);
    assert [] + rules == rules;
  }

  /** Cleaning up a Service takes out of the filter table exactly what applying it put there. */
  lemma FilterCleanupUndoes(U: set<Chain>, svc: ServiceInfo, eps: seq<Endpoint>)
    requires UnownedFilter(U)
    ensures Run(Run(Bare(U), FilterApply(svc, eps)), FilterCleanup(svc)) == Bare(U)
  {
    FilterIsApplied(U, svc, eps);
    var c, r, a := FwdOf(svc), JumpTo(FwdOf(svc)), FilterApplied(U, svc, eps);
    assert OwnerOf(c) != Nobody;
    assert FilterCleanup(svc) == [Delete(Forward, r), Flush(c)] + [Remove(c)];
    RunConcat(a, [Delete(Forward, r), Flush(c)], [Remove(c)]);
    Run2(a, Delete(Forward, r), Flush(c));
    var b := Bare(U)[c := []];
    assert Step(Step(a, Delete(Forward, r)), Flush(c)) == b by {
      assert a[Forward] == [r] && RemoveFirst([r], r) == [];
    }
    RunOne(b, Remove(c));
    assert !Referenced(b, c);
    assert b - {c} == Bare(U);
  }

  // ---- the nat table ------------------------------------------------------------------------------

  ghost function PortChains(svc: ServiceInfo, ports: seq<ServicePort>): set<Chain> {
    set p | p in ports && !Skipped(p) :: SvcOf(svc, p.port)
  }

  /** The nat table with these ports applied; the SNAT chain is there (masq) or already gone. */
  ghost predicate NatShape(ch: SvcChains, U: set<Chain>, svc: ServiceInfo, eps: seq<Endpoint>, ports: seq<ServicePort>,
                           post: seq<SvcRule>, masq: seq<SvcRule>, snat: bool) {
    && {Prerouting, Output, Postrouting} <= U
    && ch.Keys == U + PortChains(svc, ports) + (if snat then {SnatOf(svc)} else {})
    && (forall c :: c in U && c != Prerouting && c != Output && c != Postrouting ==> ch[c] == [])
    && ch[Prerouting] == Gather(JumpsOf(svc, false), ports)
    && ch[Output] == Gather(JumpsOf(svc, true), ports)
    && ch[Postrouting] == post
    && (forall p :: p in ports && !Skipped(p) ==> ch[SvcOf(svc, p.port)] == DnatRules(eps, p))
    && (snat ==> ch[SnatOf(svc)] == masq)
  }

  lemma SnatSetupShape(U: set<Chain>, svc: ServiceInfo, eps: seq<Endpoint>, hostAddr: string)
    requires Unowned(U)
    ensures NatShape(Run(Bare(U), SnatSetup(svc, hostAddr)), U, svc, eps, [], SnatJumps(svc, hostAddr), [], true)
  {
    var c := SnatOf(svc);
    assert OwnerOf(c) != Nobody;
    var del, add := DeleteSnatJumps(c, hostAddr), AddSnatJumps(c, hostAddr);
    RunConcat(Bare(U), [New(c), Flush(c)] + del, add);
    RunConcat(Bare(U), [New(c), Flush(c)], del);
    Run2(Bare(U), New(c), Flush(c));
    var b := Bare(U)[c := []];
    assert b[c := []] == b;
    RunDeleteSnat(b, c, hostAddr);
    RemoveAbsent([], LocalhostRule(c));
    RemoveAbsent([], HostRule(c, hostAddr));
    assert b[Postrouting := []] == b;
    RunAddSnat(b, c, hostAddr);
  }

  lemma {:induction false} RunDeleteSnat(ch: SvcChains, c: Chain, hostAddr: string)
    requires Postrouting in ch
    ensures Run(ch, DeleteSnatJumps(c, hostAddr)) == ch[Postrouting :=
      if hostAddr == "" then RemoveFirst(ch[Postrouting], LocalhostRule(c))
      else RemoveFirst(RemoveFirst(ch[Postrouting], LocalhostRule(c)), HostRule(c, hostAddr))]
  {
    var a, b := Delete(Postrouting, LocalhostRule(c)), Delete(Postrouting, HostRule(c, hostAddr));
    StepDelete(ch, Postrouting, LocalhostRule(c));
    if hostAddr == "" {
      RunOne(ch, a);
      assert DeleteSnatJumps(c, hostAddr) == [a];
    } else {
      StepDelete(Step(ch, a), Postrouting, HostRule(c, hostAddr));
      Run2(ch, a, b);
      assert DeleteSnatJumps(c, hostAddr) == [a, b];
    }
  }

  lemma {:induction false} RunAddSnat(ch: SvcChains, c: Chain, hostAddr: string)
    requires Postrouting in ch && c in ch && ch[Postrouting] == []
    ensures Run(ch, AddSnatJumps(c, hostAddr)) == ch[Postrouting :=
      [LocalhostRule(c)] + if hostAddr == "" then [] else [HostRule(c, hostAddr)]]
  {
    var a, b := Append(Postrouting, LocalhostRule(c)), Append(Postrouting, HostRule(c, hostAddr));
    assert Installable(ch, Postrouting, LocalhostRule(c));
    var ch' := ch[Postrouting := [LocalhostRule(c)]];
    assert [] + [LocalhostRule(c)] == [LocalhostRule(c)];
    assert Step(ch, a) == ch';
    if hostAddr == "" {
      RunOne(ch, a);
      assert AddSnatJumps(c, hostAddr) == [a];
      assert [LocalhostRule(c)] + [] == [LocalhostRule(c)];
    } else {
      assert Installable(ch', Postrouting, HostRule(c, hostAddr));
      Run2(ch, a, b);
      assert AddSnatJumps(c, hostAddr) == [a, b];
    }
  }

  /** The jumps of a list of ports go to the chains of those ports. */
  lemma {:induction false} JumpTargets(svc: ServiceInfo, local: bool, ports: seq<ServicePort>, r: SvcRule)
    requires r in Gather(JumpsOf(svc, local), ports)
    ensures r.target.Jump? && r.target.chain in PortChains(svc, ports)
  {
    var i := GatherElements(JumpsOf(svc, local), ports, r);
    assert ports[i] in ports && !Skipped(ports[i]);
  }

  lemma {:induction false} NoJump(svc: ServiceInfo, local: bool, ports: seq<ServicePort>, proto: string, port: int)
    requires SvcOf(svc, port) !in PortChains(svc, ports)
    ensures PortJump(svc, local, proto, port) !in Gather(JumpsOf(svc, local), ports)
  {
    if PortJump(svc, local, proto, port) in Gather(JumpsOf(svc, local), ports) {
      JumpTargets(svc, local, ports, PortJump(svc, local, proto, port));
    }
  }

  lemma {:induction false} RunDeletePortJumps(ch: SvcChains, svc: ServiceInfo, proto: string, port: int)
    requires Prerouting in ch && Output in ch && (svc.type_ == ClusterIP ==> svc.clusterIP != "")
    ensures Run(ch, DeletePortJumps(svc, proto, port)) ==
            ch[Prerouting := RemoveFirst(ch[Prerouting], PortJump(svc, false, proto, port))]
              [Output := RemoveFirst(ch[Output], PortJump(svc, true, proto, port))]
  {
    var a, b := PortJump(svc, false, proto, port), PortJump(svc, true, proto, port);
    StepDelete(ch, Prerouting, a);
    StepDelete(ch[Prerouting := RemoveFirst(ch[Prerouting], a)], Output, b);
    Run2(ch, Delete(Prerouting, a), Delete(Output, b));
  }

  lemma {:induction false} RunAddPortJumps(ch: SvcChains, svc: ServiceInfo, proto: string, port: int)
    requires Prerouting in ch && Output in ch && SvcOf(svc, port) in ch
    ensures Run(ch, AddPortJumps(svc, proto, port)) ==
            ch[Prerouting := ch[Prerouting] + [PortJump(svc, false, proto, port)]]
              [Output := ch[Output] + [PortJump(svc, true, proto, port)]]
  {
    var a, b := PortJump(svc, false, proto, port), PortJump(svc, true, proto, port);
    assert Installable(ch, Prerouting, a);
    assert Installable(ch[Prerouting := ch[Prerouting] + [a]], Output, b);
    Run2(ch, Append(Prerouting, a), Append(Output, b));
  }

  lemma EndpointTargets(eps: seq<Endpoint>, i: nat, p: ServicePort)
    requires i < |eps|
    ensures !DnatRule(eps, i, p).target.Jump? && !MasqRule(eps[i], p).target.Jump?
  {
  }

  lemma {:induction false} RunEndpoints(ch: SvcChains, svc: ServiceInfo, eps: seq<Endpoint>, k: nat, p: ServicePort)
    requires k <= |eps| && SvcOf(svc, p.port) in ch && SnatOf(svc) in ch
    ensures Run(ch, EndpointsNat(svc, eps, k, p)) ==
            ch[SvcOf(svc, p.port) := ch[SvcOf(svc, p.port)] + DnatRules(eps, p)[..k]]
              [SnatOf(svc) := ch[SnatOf(svc)] + MasqRules(eps, p)[..k]]
    decreases k
  {
    hide Prefix, DnatRule, MasqRule;
    var c, s := SvcOf(svc, p.port), SnatOf(svc);
    var d, m := DnatRules(eps, p), MasqRules(eps, p);
    if k == 0 {
      assert ch[c] + d[..0] == ch[c] && ch[s] + m[..0] == ch[s];
      assert ch[c := ch[c]][s := ch[s]] == ch;
    } else {
      EndpointTargets(eps, k - 1, p);
      RunEndpoints(ch, svc, eps, k - 1, p);
      var ch' := Run(ch, EndpointsNat(svc, eps, k - 1, p));
      var x, y := Append(c, DnatRule(eps, k - 1, p)), Append(s, MasqRule(eps[k - 1], p));
      RunConcat(ch, EndpointsNat(svc, eps, k - 1, p), [x, y]);
      Run2(ch', x, y);
      assert d[..k] == d[..k - 1] + [d[k - 1]] && m[..k] == m[..k - 1] + [m[k - 1]];
      assert ch[c] + d[..k - 1] + [d[k - 1]] == ch[c] + d[..k];
      assert ch[s] + m[..k - 1] + [m[k - 1]] == ch[s] + m[..k];
    }
  }

  /** One more port, sent to a table that does not have its chain. */
  lemma {:induction false} RunPortNat(ch: SvcChains, svc: ServiceInfo, eps: seq<Endpoint>, p: ServicePort)
    requires Prerouting in ch && Output in ch && SnatOf(svc) in ch && SvcOf(svc, p.port) !in ch && !Skipped(p)
    requires svc.type_ == ClusterIP ==> svc.clusterIP != ""
    requires PortJump(svc, false, Proto(p), p.port) !in ch[Prerouting] && PortJump(svc, true, Proto(p), p.port) !in ch[Output]
    ensures Run(ch, PortNat(svc, eps, p)) ==
            ch[SvcOf(svc, p.port) := DnatRules(eps, p)]
              [Prerouting := ch[Prerouting] + [PortJump(svc, false, Proto(p), p.port)]]
              [Output := ch[Output] + [PortJump(svc, true, Proto(p), p.port)]]
              [SnatOf(svc) := ch[SnatOf(svc)] + MasqRules(eps, p)]
  {
    hide Prefix, PortJump, Proto, DnatRule, MasqRule, EndpointsNat, DeletePortJumps, AddPortJumps;
    var c := SvcOf(svc, p.port);
    var pre, out := PortJump(svc, false, Proto(p), p.port), PortJump(svc, true, Proto(p), p.port);
    var fresh_, del, add := [New(c), Flush(c)], DeletePortJumps(svc, Proto(p), p.port), AddPortJumps(svc, Proto(p), p.port);
    RunConcat(ch, fresh_ + del + add, EndpointsNat(svc, eps, |eps|, p));
    RunConcat(ch, fresh_ + del, add);
    RunConcat(ch, fresh_, del);
    Run2(ch, New(c), Flush(c));
    var b := ch[c := []];
    assert b[c := []] == b;
    RunDeletePortJumps(b, svc, Proto(p), p.port);
    RemoveAbsent(ch[Prerouting], pre);
    RemoveAbsent(ch[Output], out);
    assert b[Prerouting := ch[Prerouting]][Output := ch[Output]] == b;
    RunAddPortJumps(b, svc, Proto(p), p.port);
    RunEndpoints(b[Prerouting := ch[Prerouting] + [pre]][Output := ch[Output] + [out]], svc, eps, |eps|, p);
    assert [] + DnatRules(eps, p)[..|eps|] == DnatRules(eps, p) && MasqRules(eps, p)[..|eps|] == MasqRules(eps, p);
  }

  ghost predicate NewPort(ports: seq<ServicePort>, p: ServicePort) {
    p.port != 0 ==> forall q :: q in ports ==> q.port != p.port
  }

  lemma NewPortChain(svc: ServiceInfo, ports: seq<ServicePort>, p: ServicePort)
    requires NewPort(ports, p) && p.port != 0
    ensures SvcOf(svc, p.port) !in PortChains(svc, ports)
  {
  }

  /** The updates of one applied port, as a step of the shape. */
  lemma {:induction false} ShapeGrows(ch: SvcChains, U: set<Chain>, svc: ServiceInfo, eps: seq<Endpoint>, ports: seq<ServicePort>, p: ServicePort,
                   post: seq<SvcRule>, masq: seq<SvcRule>, more: seq<SvcRule>, pre: seq<SvcRule>, out: seq<SvcRule>)
    requires Unowned(U) && NatShape(ch, U, svc, eps, ports, post, masq, true) && !Skipped(p)
    requires SvcOf(svc, p.port) !in PortChains(svc, ports)
    requires pre == Gather(JumpsOf(svc, false), ports + [p]) && out == Gather(JumpsOf(svc, true), ports + [p])
    ensures NatShape(ch[SvcOf(svc, p.port) := DnatRules(eps, p)][Prerouting := pre][Output := out][SnatOf(svc) := masq + more],
                     U, svc, eps, ports + [p], post, masq + more, true)
  {
    hide DnatRules, Gather, JumpsOf, Prefix;
    assert forall q :: q in ports + [p] <==> q in ports || q == p;
    assert PortChains(svc, ports + [p]) == PortChains(svc, ports) + {SvcOf(svc, p.port)};
  }

  lemma {:induction false} PortShape(ch: SvcChains, U: set<Chain>, svc: ServiceInfo, eps: seq<Endpoint>, ports: seq<ServicePort>, p: ServicePort,
                  post: seq<SvcRule>, masq: seq<SvcRule>)
    requires Unowned(U) && NewPort(ports, p) && (svc.type_ == ClusterIP ==> svc.clusterIP != "")
    requires NatShape(ch, U, svc, eps, ports, post, masq, true)
    ensures NatShape(Run(ch, PortNat(svc, eps, p)), U, svc, eps, ports + [p], post, masq + MasqOf(eps)(p), true)
  {
    hide PortNat, Run, DnatRules, MasqRules, PortJump, Prefix, Proto, Gather;
    GatherSnoc(JumpsOf(svc, false), ports, p);
    GatherSnoc(JumpsOf(svc, true), ports, p);
    var pre, out, more := Gather(JumpsOf(svc, false), ports + [p]), Gather(JumpsOf(svc, true), ports + [p]), MasqOf(eps)(p);
    if Skipped(p) {
      SkippedShape(ch, U, svc, eps, ports, p, post, masq);
    } else {
      NewPortChain(svc, ports, p);
      NoJump(svc, false, ports, Proto(p), p.port);
      NoJump(svc, true, ports, Proto(p), p.port);
      assert pre == ch[Prerouting] + [PortJump(svc, false, Proto(p), p.port)] && out == ch[Output] + [PortJump(svc, true, Proto(p), p.port)];
      assert more == MasqRules(eps, p);
      hide NewPort, JumpsOf, MasqOf;
      RunPortNat(ch, svc, eps, p);
      ShapeGrows(ch, U, svc, eps, ports, p, post, masq, more, pre, out);
    }
  }

  lemma {:induction false} SkippedShape(ch: SvcChains, U: set<Chain>, svc: ServiceInfo, eps: seq<Endpoint>, ports: seq<ServicePort>, p: ServicePort,
                     post: seq<SvcRule>, masq: seq<SvcRule>)
    requires NatShape(ch, U, svc, eps, ports, post, masq, true) && Skipped(p)
    ensures NatShape(Run(ch, PortNat(svc, eps, p)), U, svc, eps, ports + [p], post, masq + MasqOf(eps)(p), true)
  {
    GatherSnoc(JumpsOf(svc, false), ports, p);
    GatherSnoc(JumpsOf(svc, true), ports, p);
    assert Gather(JumpsOf(svc, false), ports + [p]) == ch[Prerouting] && Gather(JumpsOf(svc, true), ports + [p]) == ch[Output];
    assert PortNat(svc, eps, p) == [] && masq + MasqOf(eps)(p) == masq;
    hide DnatRules, Gather, JumpsOf, Prefix;
    assert forall q :: q in ports + [p] <==> q in ports || q == p;
    assert PortChains(svc, ports + [p]) == PortChains(svc, ports);
  }

  lemma {:induction false} PortsShape(ch: SvcChains, U: set<Chain>, svc: ServiceInfo, eps: seq<Endpoint>, ports: seq<ServicePort>, post: seq<SvcRule>)
    requires Unowned(U) && DistinctPorts(ports) && (svc.type_ == ClusterIP ==> svc.clusterIP != "")
    requires NatShape(ch, U, svc, eps, [], post, [], true)
    ensures NatShape(Run(ch, Gather(PortNatOf(svc, eps), ports)), U, svc, eps, ports, post, Gather(MasqOf(eps), ports), true)
    decreases |ports|
  {
    if ports != [] {
      var n := |ports| - 1;
      var before, p := ports[..n], ports[n];
      assert ports == before + [p];
      PortsShape(ch, U, svc, eps, before, post);
      var f := PortNatOf(svc, eps);
      GatherSnoc(f, before, p);
      GatherSnoc(MasqOf(eps), before, p);
      RunConcat(ch, Gather(f, before), f(p));
      PortShape(Run(ch, Gather(f, before)), U, svc, eps, before, p, post, Gather(MasqOf(eps), before));
    }
  }

  /** Applying a Service to an empty table gives its shape. */
  lemma NatIsApplied(U: set<Chain>, svc: ServiceInfo, eps: seq<Endpoint>, hostAddr: string)
    requires Unowned(U) && WellFormed(svc)
    ensures NatShape(Run(Bare(U), NatApply(svc, eps, hostAddr)), U, svc, eps, svc.ports, SnatJumps(svc, hostAddr),
                     Gather(MasqOf(eps), svc.ports), true)
  {
    RunConcat(Bare(U), SnatSetup(svc, hostAddr), Gather(PortNatOf(svc, eps), svc.ports));
    SnatSetupShape(U, svc, eps, hostAddr);
    PortsShape(Run(Bare(U), SnatSetup(svc, hostAddr)), U, svc, eps, svc.ports, SnatJumps(svc, hostAddr));
  }

  // ---- cleaning the nat table ------------------------------------------------------------------------

  /** Only jumps can reference a chain; the DNAT, MASQUERADE and ACCEPT rules do not. */
  lemma ShapeReferences(ch: SvcChains, U: set<Chain>, svc: ServiceInfo, eps: seq<Endpoint>, ports: seq<ServicePort>, masq: seq<SvcRule>,
                        snat: bool, c: Chain)
    requires Unowned(U) && NatShape(ch, U, svc, eps, ports, [], masq, snat)
    requires OwnerOf(c) != Nobody && c !in PortChains(svc, ports) && (forall r :: r in masq ==> !r.target.Jump?)
    ensures !Referenced(ch, c)
  {
    forall d, i | d in ch && 0 <= i < |ch[d]|
      ensures ch[d][i].target != Jump(c)
    {
      if d == Prerouting {
        JumpTargets(svc, false, ports, ch[d][i]);
      } else if d == Output {
        JumpTargets(svc, true, ports, ch[d][i]);
      } else if d in PortChains(svc, ports) {
        var p :| p in ports && !Skipped(p) && d == SvcOf(svc, p.port);
        assert ch[d][i] == DnatRule(eps, i, p);
      } else if d == SnatOf(svc) {
        assert ch[d][i] in masq;
      }
    }
  }

  lemma {:induction false} SnatCleanupShape(ch: SvcChains, U: set<Chain>, svc: ServiceInfo, eps: seq<Endpoint>, ports: seq<ServicePort>, masq: seq<SvcRule>, hostAddr: string)
    requires Unowned(U) && NatShape(ch, U, svc, eps, ports, SnatJumps(svc, hostAddr), masq, true)
    ensures NatShape(Run(ch, SnatCleanup(svc, hostAddr)), U, svc, eps, ports, [], [], false)
  {
    var c := SnatOf(svc);
    RunConcat(ch, DeleteSnatJumps(c, hostAddr), [Flush(c), Remove(c)]);
    RunDeleteSnat(ch, c, hostAddr);
    hide Run, DnatRules, Gather, MasqRules;
    var a := ch[Postrouting := []];
    assert Run(ch, DeleteSnatJumps(c, hostAddr)) == a by {
      var jumps := SnatJumps(svc, hostAddr);
      assert jumps[0] == LocalhostRule(c) && jumps[1..] == if hostAddr == "" then [] else [HostRule(c, hostAddr)];
      assert RemoveFirst([HostRule(c, hostAddr)], HostRule(c, hostAddr)) == [];
    }
    assert NatShape(a, U, svc, eps, ports, [], masq, true);
    SnatGone(a, U, svc, eps, ports, masq);
  }

  lemma {:induction false} SnatGone(a: SvcChains, U: set<Chain>, svc: ServiceInfo, eps: seq<Endpoint>, ports: seq<ServicePort>, masq: seq<SvcRule>)
    requires Unowned(U) && NatShape(a, U, svc, eps, ports, [], masq, true)
    ensures NatShape(Run(a, [Flush(SnatOf(svc)), Remove(SnatOf(svc))]), U, svc, eps, ports, [], [], false)
  {
    var c := SnatOf(svc);
    var gone := a - {c};
    hide Run, DnatRules, Gather, MasqRules, JumpsOf;
    assert c !in PortChains(svc, ports) && c !in U;
    assert NatShape(gone, U, svc, eps, ports, [], [], false);
    ShapeReferences(gone, U, svc, eps, ports, [], false, c);
    RunDrop(a, c);
  }

  /** Deleting the tcp and the udp jump of the first port leaves the jumps of the others. */
  lemma {:induction false} CutPort(svc: ServiceInfo, local: bool, p: ServicePort, rest: seq<ServicePort>)
    requires NewPort(rest, p) && p.port != 0 && (Proto(p) == "tcp" || Proto(p) == "udp")
    ensures RemoveFirst(RemoveFirst(Gather(JumpsOf(svc, local), [p] + rest), PortJump(svc, local, "tcp", p.port)), PortJump(svc, local, "udp", p.port))
         == Gather(JumpsOf(svc, local), rest)
  {
    var tail := Gather(JumpsOf(svc, local), rest);
    var tcp, udp := PortJump(svc, local, "tcp", p.port), PortJump(svc, local, "udp", p.port);
    NewPortChain(svc, rest, p);
    NoJump(svc, local, rest, "tcp", p.port);
    NoJump(svc, local, rest, "udp", p.port);
    RemoveAbsent(tail, tcp);
    RemoveAbsent(tail, udp);
    assert ([p] + rest)[1..] == rest;
    if Skipped(p) {
      assert Gather(JumpsOf(svc, local), [p] + rest) == tail;
    } else {
      var r := PortJump(svc, local, Proto(p), p.port);
      assert Gather(JumpsOf(svc, local), [p] + rest) == [r] + tail;
      assert ([r] + tail)[1..] == tail;
      assert tcp != udp;
    }
  }

  lemma {:induction false} RunPortCleanup(ch: SvcChains, svc: ServiceInfo, p: ServicePort)
    requires Prerouting in ch && Output in ch && p.port != 0 && (svc.type_ == ClusterIP ==> svc.clusterIP != "")
    ensures Run(ch, PortCleanup(svc, p)) ==
            Run(ch[Prerouting := RemoveFirst(RemoveFirst(ch[Prerouting], PortJump(svc, false, "tcp", p.port)), PortJump(svc, false, "udp", p.port))]
                  [Output := RemoveFirst(RemoveFirst(ch[Output], PortJump(svc, true, "tcp", p.port)), PortJump(svc, true, "udp", p.port))],
                [Flush(SvcOf(svc, p.port)), Remove(SvcOf(svc, p.port))])
  {
    var tcp, udp, cut := DeletePortJumps(svc, "tcp", p.port), DeletePortJumps(svc, "udp", p.port),
                         [Flush(SvcOf(svc, p.port)), Remove(SvcOf(svc, p.port))];
    RunConcat(ch, tcp + udp, cut);
    RunConcat(ch, tcp, udp);
    RunDeletePortJumps(ch, svc, "tcp", p.port);
    RunDeletePortJumps(Run(ch, tcp), svc, "udp", p.port);
    hide DeletePortJumps, Run, PortJump, RemoveFirst;
    var x := ch[Prerouting := RemoveFirst(ch[Prerouting], PortJump(svc, false, "tcp", p.port))]
               [Output := RemoveFirst(ch[Output], PortJump(svc, true, "tcp", p.port))];
    var pre := RemoveFirst(x[Prerouting], PortJump(svc, false, "udp", p.port));
    var out := RemoveFirst(x[Output], PortJump(svc, true, "udp", p.port));
    assert x[Prerouting := pre][Output := out] == ch[Prerouting := pre][Output := out];
  }

  /** The table without the first port's jumps and chain. */
  lemma {:induction false} ShapeShrinks(ch: SvcChains, U: set<Chain>, svc: ServiceInfo, eps: seq<Endpoint>, p: ServicePort, rest: seq<ServicePort>,
                     pre: seq<SvcRule>, out: seq<SvcRule>)
    requires Unowned(U) && NatShape(ch, U, svc, eps, [p] + rest, [], [], false)
    requires SvcOf(svc, p.port) !in PortChains(svc, rest)
    requires pre == Gather(JumpsOf(svc, false), rest) && out == Gather(JumpsOf(svc, true), rest)
    ensures NatShape(ch[Prerouting := pre][Output := out] - {SvcOf(svc, p.port)}, U, svc, eps, rest, [], [], false)
    ensures SvcOf(svc, p.port) in ch <==> !Skipped(p)
  {
    hide DnatRules, Gather, JumpsOf, Prefix;
    var ports := [p] + rest;
    var c := SvcOf(svc, p.port);
    assert p in ports && forall q :: q in ports <==> q == p || q in rest;
    assert PortChains(svc, ports) == PortChains(svc, rest) + if Skipped(p) then {} else {c};
    var gone := ch[Prerouting := pre][Output := out] - {c};
    assert gone.Keys == U + PortChains(svc, rest);
    forall q | q in rest && !Skipped(q)
      ensures gone[SvcOf(svc, q.port)] == DnatRules(eps, q)
    {
      assert q in ports && SvcOf(svc, q.port) in PortChains(svc, rest);
    }
  }

  lemma {:induction false} PortCleanupShape(ch: SvcChains, U: set<Chain>, svc: ServiceInfo, eps: seq<Endpoint>, p: ServicePort, rest: seq<ServicePort>)
    requires Unowned(U) && NewPort(rest, p) && (Proto(p) == "tcp" || Proto(p) == "udp") && (svc.type_ == ClusterIP ==> svc.clusterIP != "")
    requires NatShape(ch, U, svc, eps, [p] + rest, [], [], false)
    ensures NatShape(Run(ch, PortCleanup(svc, p)), U, svc, eps, rest, [], [], false)
  {
    if p.port == 0 {
      NoPortCleanup(ch, U, svc, eps, p, rest);
    } else {
      var c := SvcOf(svc, p.port);
      NewPortChain(svc, rest, p);
      RunPortCleanup(ch, svc, p);
      CutPort(svc, false, p, rest);
      CutPort(svc, true, p, rest);
      hide PortCleanup, Run, DnatRules, Gather, PortJump, MasqRules, NewPort, RemoveFirst, JumpsOf, PortChains, Proto;
      var pre, out := Gather(JumpsOf(svc, false), rest), Gather(JumpsOf(svc, true), rest);
      var a := ch[Prerouting := pre][Output := out];
      ShapeShrinks(ch, U, svc, eps, p, rest, pre, out);
      ShapeReferences(a - {c}, U, svc, eps, rest, [], false, c);
      RunDrop(a, c);
    }
  }

  /** Flushing and deleting a chain that nothing else refers to. */
  lemma {:induction false} RunDrop(a: SvcChains, c: Chain)
    requires !BuiltIn(c) && !Referenced(a - {c}, c)
    ensures Run(a, [Flush(c), Remove(c)]) == a - {c}
  {
    Run2(a, Flush(c), Remove(c));
    if c in a {
      var b := a[c := []];
      assert b - {c} == a - {c};
      StillUnreferenced(b, c);
    } else {
      assert a - {c} == a;
    }
  }

  lemma {:induction false} NoPortCleanup(ch: SvcChains, U: set<Chain>, svc: ServiceInfo, eps: seq<Endpoint>, p: ServicePort, rest: seq<ServicePort>)
    requires NatShape(ch, U, svc, eps, [p] + rest, [], [], false) && p.port == 0
    ensures NatShape(Run(ch, PortCleanup(svc, p)), U, svc, eps, rest, [], [], false)
  {
    var ports := [p] + rest;
    assert ports[1..] == rest && JumpsOf(svc, false)(p) == [] && JumpsOf(svc, true)(p) == [];
    assert Gather(JumpsOf(svc, false), ports) == Gather(JumpsOf(svc, false), rest);
    assert Gather(JumpsOf(svc, true), ports) == Gather(JumpsOf(svc, true), rest);
    hide DnatRules, Gather, JumpsOf, Prefix;
    assert forall q :: q in ports <==> q == p || q in rest;
    assert PortChains(svc, ports) == PortChains(svc, rest);
  }

  lemma StillUnreferenced(b: SvcChains, c: Chain)
    requires c in b && b[c] == [] && !Referenced(b - {c}, c)
    ensures !Referenced(b, c)
  {
    forall d, i | d in b && 0 <= i < |b[d]|
      ensures b[d][i].target != Jump(c)
    {
      assert d in b - {c} && (b - {c})[d] == b[d];
    }
  }

  lemma DistinctTail(ports: seq<ServicePort>)
    requires ports != [] && DistinctPorts(ports)
    ensures DistinctPorts(ports[1..]) && NewPort(ports[1..], ports[0]) && ports == [ports[0]] + ports[1..]
    ensures forall q :: q in ports[1..] ==> q in ports
  {
  }

  lemma {:induction false} PortsCleanupShape(ch: SvcChains, U: set<Chain>, svc: ServiceInfo, eps: seq<Endpoint>, ports: seq<ServicePort>)
    requires Unowned(U) && DistinctPorts(ports) && (svc.type_ == ClusterIP ==> svc.clusterIP != "")
    requires forall p :: p in ports ==> Proto(p) == "tcp" || Proto(p) == "udp"
    requires NatShape(ch, U, svc, eps, ports, [], [], false)
    ensures NatShape(Run(ch, Gather(PortCleanupOf(svc), ports)), U, svc, eps, [], [], [], false)
    decreases |ports|
  {
    if ports != [] {
      hide NatShape, PortCleanup, Run, Proto, Unowned, DistinctPorts, NewPort;
      var p, rest := ports[0], ports[1..];
      DistinctTail(ports);
      PortCleanupShape(ch, U, svc, eps, p, rest);
      RunConcat(ch, PortCleanup(svc, p), Gather(PortCleanupOf(svc), rest));
      PortsCleanupShape(Run(ch, PortCleanup(svc, p)), U, svc, eps, rest);
    }
  }

  /** Cleaning up a Service takes out of the nat table exactly what applying it put there. */
  lemma NatCleanupUndoes(U: set<Chain>, svc: ServiceInfo, eps: seq<Endpoint>, hostAddr: string)
    requires Unowned(U) && WellFormed(svc)
    ensures Run(Run(Bare(U), NatApply(svc, eps, hostAddr)), NatCleanup(svc, hostAddr)) == Bare(U)
  {
    NatIsApplied(U, svc, eps, hostAddr);
    var a := Run(Bare(U), NatApply(svc, eps, hostAddr));
    RunConcat(a, SnatCleanup(svc, hostAddr), Gather(PortCleanupOf(svc), svc.ports));
    SnatCleanupShape(a, U, svc, eps, svc.ports, Gather(MasqOf(eps), svc.ports), hostAddr);
    PortsCleanupShape(Run(a, SnatCleanup(svc, hostAddr)), U, svc, eps, svc.ports);
    hide NatApply, SnatCleanup, PortCleanupOf, Run, SnatJumps, MasqOf, Proto, Skipped;
    ShapeOfNothing(Run(a, NatCleanup(svc, hostAddr)), U, svc, eps);
  }

  lemma ShapeOfNothing(ch: SvcChains, U: set<Chain>, svc: ServiceInfo, eps: seq<Endpoint>)
    requires NatShape(ch, U, svc, eps, [], [], [], false)
    ensures ch == Bare(U)
  {
    assert PortChains(svc, []) == {};
  }
}

/** Where packets go in tables that hold applied Services: which are rewritten and to what, which get a new
    source address, and which are accepted. */
module ServiceTraffic {
  import opened Iptables
  import opened Commands
  import opened Lists
  import opened Text
  import opened ServiceRules
  import opened ServiceShape
  import opened ServiceKey
  import opened ServiceSync
  import opened ServiceTracking

  // ---- packets -----------------------------------------------------------------------------------

  /** local: the destination is an address of this host. rewritten: its destination was changed by DNAT. */
  datatype Packet = Packet(proto: string, src: string, sport: int, dst: string, dport: int,
                           inDev: string, outDev: string, local: bool, rewritten: bool)

  datatype Outcome = Fell | Rewritten(addr: string, port: int) | Decided(target: Target)

  predicate InNet(net: string, addr: string) {
    net == "" || net == addr || net == addr + "/32" || (net == "127.0.0.0/8" && "127." <= addr)
  }

  predicate Covers(m: Match, pkt: Packet) {
    && (m.proto == "" || m.proto == pkt.proto)
    && (m.dport == 0 || m.dport == pkt.dport) && (m.sport == 0 || m.sport == pkt.sport)
    && InNet(m.src, pkt.src) && InNet(m.dst, pkt.dst)
    && (m.inDev == "" || m.inDev == pkt.inDev) && (m.outDev == "" || m.outDev == pkt.outDev)
    && (m.ctDnat ==> pkt.rewritten) && (m.dstLocal ==> pkt.local)
  }

  /** out is a possible outcome of the rules: a rule that fires with probability 1/n may be taken or missed. */
  ghost predicate Goes(ch: SvcChains, rules: seq<SvcRule>, pkt: Packet, depth: nat, out: Outcome)
    decreases depth, |rules|, 0
  {
    if rules == [] then out == Fell
    else if !Covers(rules[0].match_, pkt) then Goes(ch, rules[1..], pkt, depth, out)
    else
      || (rules[0].match_.oneOf > 1 && Goes(ch, rules[1..], pkt, depth, out))
      || Taken(ch, rules[0].target, rules[1..], pkt, depth, out)
  }

  ghost predicate Taken(ch: SvcChains, t: Target, rest: seq<SvcRule>, pkt: Packet, depth: nat, out: Outcome)
    decreases depth, |rest|, 1
  {
    match t
    case Dnat(addr, port) => out == Rewritten(addr, port)
    case Nflog => Goes(ch, rest, pkt, depth, out)
    case Jump(c) =>
      depth > 0 && c in ch
      && exists mid :: Goes(ch, ch[c], pkt, depth - 1, mid) && if Passes(mid) then Goes(ch, rest, pkt, depth, out) else out == mid
    case _ => out == Decided(t)
  }

  predicate Passes(o: Outcome) {
    o == Fell || o == Decided(Return)
  }

  // ---- kinds of chains -------------------------------------------------------------------------------

  /** Rewritten to the target port of one of the endpoints. */
  ghost predicate ToOneOf(eps: seq<Endpoint>, targetPort: int, out: Outcome) {
    exists e :: e in eps && out == Rewritten(e.addr, targetPort)
  }

  /** A port's chain: every endpoint is possible, and nothing else. */
  lemma {:induction false} DnatGoes(ch: SvcChains, eps: seq<Endpoint>, p: ServicePort, pkt: Packet, depth: nat, k: nat)
    requires k < |eps| && pkt.proto == Proto(p)
    ensures forall out :: Goes(ch, DnatRules(eps, p)[k..], pkt, depth, out) <==> ToOneOf(eps[k..], p.targetPort, out)
    decreases |eps| - k
  {
    hide Proto;
    var rules := DnatRules(eps, p)[k..];
    assert rules[0] == DnatRule(eps, k, p) && rules[1..] == DnatRules(eps, p)[k + 1..];
    assert Covers(rules[0].match_, pkt);
    assert eps[k..] == [eps[k]] + eps[k + 1..];
    if k < |eps| - 1 {
      DnatGoes(ch, eps, p, pkt, depth, k + 1);
    }
  }

  lemma {:induction false} TakenDecides(ch: SvcChains, c: Chain, rest: seq<SvcRule>, pkt: Packet, depth: nat, out: Outcome)
    requires depth > 0 && c in ch && forall mid :: Goes(ch, ch[c], pkt, depth - 1, mid) ==> !Passes(mid)
    ensures Taken(ch, Jump(c), rest, pkt, depth, out) <==> Goes(ch, ch[c], pkt, depth - 1, out)
  {
    hide Goes;
    if Goes(ch, ch[c], pkt, depth - 1, out) {
      var mid := out;
      assert Goes(ch, ch[c], pkt, depth - 1, mid) && if Passes(mid) then Goes(ch, rest, pkt, depth, out) else out == mid;
    }
  }

  lemma TakenPasses(ch: SvcChains, c: Chain, rest: seq<SvcRule>, pkt: Packet, d: nat, out: Outcome)
    requires c in ch && forall mid :: Goes(ch, ch[c], pkt, d, mid) <==> mid == Fell
    ensures Taken(ch, Jump(c), rest, pkt, d + 1, out) <==> Goes(ch, rest, pkt, d + 1, out)
  {
    hide Goes;
    if Goes(ch, rest, pkt, d + 1, out) {
      var mid := Fell;
      assert Goes(ch, ch[c], pkt, d, mid) && if Passes(mid) then Goes(ch, rest, pkt, d + 1, out) else out == mid;
    }
  }

  /** A list in which one jump alone covers the packet. */
  lemma {:induction false} OneJump(ch: SvcChains, rules: seq<SvcRule>, pkt: Packet, depth: nat, r: SvcRule)
    requires depth > 0 && r in rules && r.target.Jump? && r.target.chain in ch && r.match_.oneOf == 0 && Covers(r.match_, pkt)
    requires forall x :: x in rules && Covers(x.match_, pkt) ==> x == r
    requires forall mid :: Goes(ch, ch[r.target.chain], pkt, depth - 1, mid) ==> !Passes(mid)
    ensures forall out :: Goes(ch, rules, pkt, depth, out) <==> Goes(ch, ch[r.target.chain], pkt, depth - 1, out)
    decreases |rules|
  {
    hide Covers, Taken;
    if rules[0] == r {
      forall out
        ensures Goes(ch, rules, pkt, depth, out) <==> Goes(ch, ch[r.target.chain], pkt, depth - 1, out)
      {
        TakenDecides(ch, r.target.chain, rules[1..], pkt, depth, out);
      }
    } else {
      OneJump(ch, rules[1..], pkt, depth, r);
    }
  }

  /** The same, into an empty chain. */
  lemma {:induction false} OneJumpNowhere(ch: SvcChains, rules: seq<SvcRule>, pkt: Packet, depth: nat, r: SvcRule)
    requires depth > 0 && r.target.Jump? && r.target.chain in ch && ch[r.target.chain] == [] && r.match_.oneOf == 0
    requires forall x :: x in rules && Covers(x.match_, pkt) ==> x == r
    ensures forall out :: Goes(ch, rules, pkt, depth, out) <==> out == Fell
    decreases |rules|
  {
    hide Covers, Taken;
    if rules != [] {
      OneJumpNowhere(ch, rules[1..], pkt, depth, r);
      forall out
        ensures Goes(ch, rules, pkt, depth, out) <==> out == Fell
      {
        TakenPasses(ch, r.target.chain, rules[1..], pkt, depth - 1, out);
      }
    }
  }

  /** A chain that only accepts, or only masquerades. */
  ghost predicate AllTarget(rules: seq<SvcRule>, t: Target) {
    forall r :: r in rules ==> r.target == t && r.match_.oneOf == 0
  }

  ghost predicate SomeCovers(rules: seq<SvcRule>, pkt: Packet) {
    exists r :: r in rules && Covers(r.match_, pkt)
  }

  lemma {:induction false} TargetGoes(ch: SvcChains, rules: seq<SvcRule>, pkt: Packet, depth: nat, t: Target)
    requires AllTarget(rules, t) && (t == Accept || t == Masquerade)
    ensures forall out :: Goes(ch, rules, pkt, depth, out) <==> out == if SomeCovers(rules, pkt) then Decided(t) else Fell
    decreases |rules|
  {
    hide Covers;
    if rules != [] {
      TargetGoes(ch, rules[1..], pkt, depth, t);
      assert rules[0] in rules;
    }
  }

  /** A list whose covering rules all jump into such chains. */
  ghost predicate JumpsOnly(ch: SvcChains, rules: seq<SvcRule>, pkt: Packet, t: Target) {
    forall r :: r in rules && Covers(r.match_, pkt) ==>
      r.match_.oneOf == 0 && r.target.Jump? && r.target.chain in ch && AllTarget(ch[r.target.chain], t)
  }

  ghost predicate SomeJumpCovers(ch: SvcChains, rules: seq<SvcRule>, pkt: Packet) {
    exists r :: r in rules && Covers(r.match_, pkt) && r.target.Jump? && r.target.chain in ch && SomeCovers(ch[r.target.chain], pkt)
  }

  lemma {:induction false} JumpsGo(ch: SvcChains, rules: seq<SvcRule>, pkt: Packet, depth: nat, t: Target)
    requires depth > 0 && JumpsOnly(ch, rules, pkt, t) && (t == Accept || t == Masquerade)
    ensures forall out :: Goes(ch, rules, pkt, depth, out) <==> out == if SomeJumpCovers(ch, rules, pkt) then Decided(t) else Fell
    decreases |rules|
  {
    hide Covers, SomeCovers, AllTarget, Taken;
    if rules != [] {
      assert rules[0] in rules && forall r :: r in rules[1..] ==> r in rules;
      JumpsGo(ch, rules[1..], pkt, depth, t);
      forall out
        ensures Goes(ch, rules, pkt, depth, out) <==> out == if SomeJumpCovers(ch, rules, pkt) then Decided(t) else Fell
      {
        if Covers(rules[0].match_, pkt) {
          var c := rules[0].target.chain;
          TargetGoes(ch, ch[c], pkt, depth - 1, t);
          if SomeCovers(ch[c], pkt) {
            TakenDecides(ch, c, rules[1..], pkt, depth, out);
          } else {
            TakenPasses(ch, c, rules[1..], pkt, depth - 1, out);
          }
        }
      }
    }
  }

  // ---- what a rebuilt table holds ---------------------------------------------------------------------

  const HOOKS := {Prerouting, Output, Postrouting}

  /** The jumps of a Service in one of the chains packets pass through. */
  function JumpList(a: Applied, c: Chain, hostAddr: string): seq<SvcRule> {
    if c == Prerouting then Gather(JumpsOf(a.svc, false), a.svc.ports)
    else if c == Output then Gather(JumpsOf(a.svc, true), a.svc.ports)
    else SnatJumps(a.svc, hostAddr)
  }

  ghost predicate Jumped(all: seq<Applied>, c: Chain, hostAddr: string, r: SvcRule) {
    exists i :: 0 <= i < |all| && r in JumpList(all[i], c, hostAddr)
  }

  /** Over the unmanaged rules of v, the jumps of the applied Services, and their chains. */
  ghost predicate NatContent(n: SvcChains, v: SvcChains, all: seq<Applied>, hostAddr: string) {
    && (forall c :: c in HOOKS ==> c in n && c in v && forall r :: r in n[c] <==> r in v[c] || Jumped(all, c, hostAddr, r))
    && (forall i :: 0 <= i < |all| ==> ServiceChains(n, all[i]))
  }

  ghost predicate ServiceChains(n: SvcChains, a: Applied) {
    && (forall p :: p in a.svc.ports && !Skipped(p) ==> SvcOf(a.svc, p.port) in n && n[SvcOf(a.svc, p.port)] == DnatRules(a.eps, p))
    && SnatOf(a.svc) in n && forall r :: r in n[SnatOf(a.svc)] <==> r in Gather(MasqOf(a.eps), a.svc.ports)
  }

  ghost predicate FilterContent(f: SvcChains, v: SvcChains, all: seq<Applied>) {
    && Forward in f && Forward in v
    && (forall r :: r in f[Forward] <==> r in v[Forward] || exists i :: 0 <= i < |all| && r == JumpTo(FwdOf(all[i].svc)))
    && forall i :: 0 <= i < |all| ==> ForwardChain(f, all[i])
  }

  ghost predicate ForwardChain(f: SvcChains, a: Applied) {
    FwdOf(a.svc) in f && forall r :: r in f[FwdOf(a.svc)] <==> r in Gather(AcceptOf(a.eps), a.svc.ports)
  }

  /** The rules of an unowned chain, owner by owner. */
  lemma PartsOfChain(ch: SvcChains, c: Chain, r: SvcRule)
    requires c in ch && OwnerOf(c) == Nobody
    ensures c in View(ch, RuleOwner(r)) && (r in ch[c] <==> r in View(ch, RuleOwner(r))[c])
    ensures forall o :: c in View(ch, o) && (r in View(ch, o)[c] ==> RuleOwner(r) == o && r in ch[c])
  {
    OnlyElements(ch[c], RuleOwner(r));
    forall o
      ensures c in View(ch, o) && (r in View(ch, o)[c] ==> RuleOwner(r) == o && r in ch[c])
    {
      OnlyElements(ch[c], o);
    }
  }

  lemma {:induction false} NatView(n: SvcChains, all: seq<Applied>, hostAddr: string, i: nat)
    requires TableSync(n, NatPrograms(all, hostAddr)) && Unowned(UnownedOf(n)) && DistinctPrefixes(all) && i < |all| && WellFormed(all[i].svc)
    ensures var a := all[i];
            NatShape(View(n, Service(Prefix(a.svc.serviceId))), UnownedOf(n), a.svc, a.eps, a.svc.ports, SnatJumps(a.svc, hostAddr),
                     Gather(MasqOf(a.eps), a.svc.ports), true)
  {
    hide NatApply, NatPrograms, View, Prefix, NatShape, Flat, UnownedOf, Unowned, DistinctPrefixes, Run, WellFormed, Gather;
    ProgramsAt(all, hostAddr, i);
    NatIsApplied(UnownedOf(n), all[i].svc, all[i].eps, hostAddr);
  }

  lemma {:induction false} FilterView(f: SvcChains, all: seq<Applied>, i: nat)
    requires TableSync(f, FilterPrograms(all)) && UnownedFilter(UnownedOf(f)) && DistinctPrefixes(all) && i < |all|
    ensures View(f, Service(Prefix(all[i].svc.serviceId))) == FilterApplied(UnownedOf(f), all[i].svc, all[i].eps)
  {
    hide FilterApply, FilterPrograms, View, Prefix, Flat, UnownedOf, UnownedFilter, DistinctPrefixes, Run, FilterApplied;
    ProgramsAt(all, "", i);
    FilterIsApplied(UnownedOf(f), all[i].svc, all[i].eps);
  }

  lemma NobodysView(ch: SvcChains, progs: map<string, Program>, q: string)
    requires TableSync(ch, progs) && q !in progs
    ensures View(ch, Service(q)) == Bare(UnownedOf(ch))
  {
    hide View, Flat, UnownedOf;
  }

  /** A rule of a chain belongs to nobody, or to a Service that is applied. */
  lemma OwnersRule(ch: SvcChains, progs: map<string, Program>, all: seq<Applied>, c: Chain, r: SvcRule) returns (i: nat)
    requires TableSync(ch, progs) && c in ch && OwnerOf(c) == Nobody && r in ch[c] && RuleOwner(r).Service?
    requires forall q :: q in progs ==> exists i :: 0 <= i < |all| && Prefix(all[i].svc.serviceId) == q
    ensures i < |all| && RuleOwner(r) == Service(Prefix(all[i].svc.serviceId)) && c in View(ch, RuleOwner(r)) && r in View(ch, RuleOwner(r))[c]
  {
    var q := RuleOwner(r).prefix;
    PartsOfChain(ch, c, r);
    hide View, Prefix, Flat, Run, TableSync;
    if q !in progs {
      NobodysView(ch, progs, q);
    }
    i :| 0 <= i < |all| && Prefix(all[i].svc.serviceId) == q;
  }

  lemma {:induction false} ProgramsOwners(all: seq<Applied>, hostAddr: string)
    ensures forall q :: q in NatPrograms(all, hostAddr) ==> exists i :: 0 <= i < |all| && Prefix(all[i].svc.serviceId) == q
    ensures forall q :: q in FilterPrograms(all) ==> exists i :: 0 <= i < |all| && Prefix(all[i].svc.serviceId) == q
    decreases |all|
  {
    hide Prefix, NatApply, FilterApply;
    if all != [] {
      var init := all[..|all| - 1];
      ProgramsOwners(init, hostAddr);
      assert forall i :: 0 <= i < |init| ==> init[i] == all[i];
    }
  }

  lemma HookThere(n: SvcChains, c: Chain)
    requires Unowned(UnownedOf(n)) && c in HOOKS
    ensures c in n && OwnerOf(c) == Nobody && c in View(n, Nobody)
  {
    assert c in UnownedOf(n);
  }

  lemma {:induction false} NatHook(n: SvcChains, all: seq<Applied>, hostAddr: string, c: Chain, i: nat)
    requires TableSync(n, NatPrograms(all, hostAddr)) && Unowned(UnownedOf(n)) && DistinctPrefixes(all) && c in HOOKS
    requires i < |all| && WellFormed(all[i].svc)
    ensures c in View(n, Service(Prefix(all[i].svc.serviceId)))
    ensures View(n, Service(Prefix(all[i].svc.serviceId)))[c] == JumpList(all[i], c, hostAddr)
  {
    hide TableSync, View, Prefix, Gather, JumpsOf, SnatJumps, DistinctPrefixes, WellFormed, NatPrograms, UnownedOf;
    NatView(n, all, hostAddr, i);
  }

  /** A hook of the nat table. */
  lemma {:induction false} HookContent(n: SvcChains, v: SvcChains, all: seq<Applied>, hostAddr: string, c: Chain, r: SvcRule)
    requires TableSync(n, NatPrograms(all, hostAddr)) && Unowned(UnownedOf(n)) && DistinctPrefixes(all) && View(n, Nobody) == v && c in HOOKS
    requires forall i :: 0 <= i < |all| ==> WellFormed(all[i].svc)
    ensures c in n && c in v && (r in n[c] <==> r in v[c] || Jumped(all, c, hostAddr, r))
  {
    hide View, Prefix, TableSync, JumpList, WellFormed, Unowned, UnownedOf, HOOKS, DistinctPrefixes, NatPrograms;
    HookThere(n, c);
    PartsOfChain(n, c, r);
    forall i | 0 <= i < |all|
      ensures c in View(n, Service(Prefix(all[i].svc.serviceId)))
      ensures View(n, Service(Prefix(all[i].svc.serviceId)))[c] == JumpList(all[i], c, hostAddr)
    {
      NatHook(n, all, hostAddr, c, i);
    }
    if r in n[c] && RuleOwner(r).Service? {
      ProgramsOwners(all, hostAddr);
      var i := OwnersRule(n, NatPrograms(all, hostAddr), all, c, r);
    }
    if Jumped(all, c, hostAddr, r) {
      var i :| 0 <= i < |all| && r in JumpList(all[i], c, hostAddr);
      assert r in View(n, Service(Prefix(all[i].svc.serviceId)))[c];
    }
  }

  lemma {:induction false} OwnChains(n: SvcChains, all: seq<Applied>, hostAddr: string, i: nat)
    requires TableSync(n, NatPrograms(all, hostAddr)) && Unowned(UnownedOf(n)) && DistinctPrefixes(all) && i < |all| && WellFormed(all[i].svc)
    ensures ServiceChains(n, all[i])
  {
    var a := all[i];
    NatView(n, all, hostAddr, i);
    OwnChainWhole(n, SnatOf(a.svc), Prefix(a.svc.serviceId));
    forall p | p in a.svc.ports && !Skipped(p)
      ensures SvcOf(a.svc, p.port) in n && n[SvcOf(a.svc, p.port)] == DnatRules(a.eps, p)
    {
      OwnChainWhole(n, SvcOf(a.svc, p.port), Prefix(a.svc.serviceId));
      assert SvcOf(a.svc, p.port) in PortChains(a.svc, a.svc.ports);
    }
  }

  lemma {:induction false} RebuiltNat(n: SvcChains, v: SvcChains, all: seq<Applied>, hostAddr: string)
    requires TableSync(n, NatPrograms(all, hostAddr)) && Unowned(UnownedOf(n)) && DistinctPrefixes(all) && View(n, Nobody) == v
    requires forall i :: 0 <= i < |all| ==> WellFormed(all[i].svc)
    ensures NatContent(n, v, all, hostAddr)
  {
    hide TableSync, Unowned, UnownedOf, DistinctPrefixes, View, WellFormed, Jumped, ServiceChains, NatPrograms;
    forall c, r | c in HOOKS
      ensures c in n && c in v && (r in n[c] <==> r in v[c] || Jumped(all, c, hostAddr, r))
    {
      HookContent(n, v, all, hostAddr, c, r);
    }
    forall c | c in HOOKS
      ensures c in n && c in v
    {
      HookContent(n, v, all, hostAddr, c, JumpTo(c));
    }
    forall i | 0 <= i < |all|
      ensures ServiceChains(n, all[i])
    {
      OwnChains(n, all, hostAddr, i);
    }
  }

  lemma {:induction false} OwnForward(f: SvcChains, all: seq<Applied>, i: nat)
    requires TableSync(f, FilterPrograms(all)) && UnownedFilter(UnownedOf(f)) && DistinctPrefixes(all) && i < |all|
    ensures ForwardChain(f, all[i]) && Forward in View(f, Service(Prefix(all[i].svc.serviceId)))
    ensures View(f, Service(Prefix(all[i].svc.serviceId)))[Forward] == [JumpTo(FwdOf(all[i].svc))]
  {
    FilterView(f, all, i);
    OwnChainWhole(f, FwdOf(all[i].svc), Prefix(all[i].svc.serviceId));
  }

  /** A rule of the forward chain. */
  lemma {:induction false} ForwardRule(f: SvcChains, v: SvcChains, all: seq<Applied>, r: SvcRule)
    requires TableSync(f, FilterPrograms(all)) && UnownedFilter(UnownedOf(f)) && DistinctPrefixes(all) && View(f, Nobody) == v
    requires Forward in f && Forward in v
    ensures r in f[Forward] <==> r in v[Forward] || exists i :: 0 <= i < |all| && r == JumpTo(FwdOf(all[i].svc))
  {
    hide TableSync, UnownedFilter, UnownedOf, DistinctPrefixes, FilterPrograms, Prefix, View, ForwardChain, FwdOf, RuleOwner;
    PartsOfChain(f, Forward, r);
    if r in f[Forward] && RuleOwner(r).Service? {
      ProgramsOwners(all, "");
      var i := OwnersRule(f, FilterPrograms(all), all, Forward, r);
      OwnForward(f, all, i);
      assert r in [JumpTo(FwdOf(all[i].svc))];
    }
    if i :| 0 <= i < |all| && r == JumpTo(FwdOf(all[i].svc)) {
      OwnForward(f, all, i);
      assert r in View(f, Service(Prefix(all[i].svc.serviceId)))[Forward];
    }
  }

  lemma {:induction false} RebuiltFilter(f: SvcChains, v: SvcChains, all: seq<Applied>)
    requires TableSync(f, FilterPrograms(all)) && UnownedFilter(UnownedOf(f)) && DistinctPrefixes(all) && View(f, Nobody) == v
    ensures FilterContent(f, v, all)
  {
    ForwardThere(f);
    hide TableSync, UnownedFilter, UnownedOf, DistinctPrefixes, FilterPrograms, Prefix, View, ForwardChain, FwdOf;
    forall i | 0 <= i < |all|
      ensures ForwardChain(f, all[i])
    {
      OwnForward(f, all, i);
    }
    forall r
      ensures r in f[Forward] <==> r in v[Forward] || exists i :: 0 <= i < |all| && r == JumpTo(FwdOf(all[i].svc))
    {
      ForwardRule(f, v, all, r);
    }
  }

  lemma ForwardThere(f: SvcChains)
    requires UnownedFilter(UnownedOf(f))
    ensures Forward in f && Forward in View(f, Nobody)
  {
    assert Forward in UnownedOf(f);
  }

  /** Content is the same in tables that differ only in the order of jumps. */
  lemma SameNatContent(a: SvcChains, b: SvcChains, v: SvcChains, all: seq<Applied>, hostAddr: string)
    requires SameTable(a, b) && NatContent(b, v, all, hostAddr)
    ensures NatContent(a, v, all, hostAddr)
  {
    assert forall c :: c in b && !c.SvcChain? ==> c in a && multiset(a[c]) == multiset(b[c]);
    forall c, r | c in b && !c.SvcChain?
      ensures r in a[c] <==> r in b[c]
    {
      assert r in multiset(a[c]) <==> r in multiset(b[c]);
    }
    hide Jumped, View, Gather, DnatRules, Skipped, Prefix;
    forall i | 0 <= i < |all|
      ensures ServiceChains(a, all[i])
    {
      assert ServiceChains(b, all[i]);
    }
  }

  lemma SameFilterContent(a: SvcChains, b: SvcChains, v: SvcChains, all: seq<Applied>)
    requires SameTable(a, b) && FilterContent(b, v, all)
    ensures FilterContent(a, v, all)
  {
    assert forall c :: c in b && !c.SvcChain? ==> c in a && multiset(a[c]) == multiset(b[c]);
    forall c, r | c in b && !c.SvcChain?
      ensures r in a[c] <==> r in b[c]
    {
      assert r in multiset(a[c]) <==> r in multiset(b[c]);
    }
    hide View, Gather, Prefix, FwdOf;
    forall i | 0 <= i < |all|
      ensures ForwardChain(a, all[i])
    {
      assert ForwardChain(b, all[i]);
    }
  }

  // ---- what the packets meet ---------------------------------------------------------------------------

  predicate PlainHost(a: string) {
    a != "" && '/' !in a
  }

  /** Addresses are addresses, not networks. */
  ghost predicate PlainAddresses(all: seq<Applied>, hostAddr: string) {
    && '/' !in hostAddr
    && forall i :: 0 <= i < |all| ==>
         (all[i].svc.type_ == ClusterIP ==> PlainHost(all[i].svc.clusterIP)) && forall e :: e in all[i].eps ==> PlainHost(e.addr)
  }

  predicate PlainPacket(pkt: Packet) {
    pkt.proto != "" && PlainHost(pkt.src) && PlainHost(pkt.dst)
  }

  /** The protocol of a port: tcp unless it says otherwise, in any case. */
  predicate Speaks(p: ServicePort, proto: string) {
    if ToLower(p.protocol) == "" then proto == "tcp" else proto == ToLower(p.protocol)
  }

  /** The packet asks for this port of the Service: at its address, or, for a NodePort Service, at any address from
      outside and at the host's own from the host. */
  ghost predicate Asks(a: Applied, p: ServicePort, pkt: Packet, local: bool) {
    && p in a.svc.ports && p.port != 0 && p.targetPort != 0
    && pkt.dport == p.port && Speaks(p, pkt.proto)
    && if a.svc.type_ == ClusterIP then pkt.dst == a.svc.clusterIP else local ==> pkt.local
  }

  /** Of all applied Services it is this one the packet asks for. */
  ghost predicate AsksOnly(all: seq<Applied>, i: nat, p: ServicePort, pkt: Packet, local: bool) {
    && i < |all| && Asks(all[i], p, pkt, local)
    && forall j, q :: 0 <= j < |all| && Asks(all[j], q, pkt, local) ==> j == i
  }

  ghost predicate Untouched(rules: seq<SvcRule>, pkt: Packet) {
    forall r :: r in rules ==> !Covers(r.match_, pkt)
  }

  lemma JumpCovers(a: Applied, p: ServicePort, pkt: Packet, local: bool)
    requires PlainPacket(pkt) && p in a.svc.ports && (a.svc.type_ == ClusterIP ==> PlainHost(a.svc.clusterIP)) && !Skipped(p)
    ensures Covers(PortJump(a.svc, local, Proto(p), p.port).match_, pkt) <==> Asks(a, p, pkt, local)
  {
    var d := a.svc.clusterIP + "/32";
    assert d[|a.svc.clusterIP|] == '/' && d[|d| - 1] == '2' && "127.0.0.0/8"[10] == '8' && |"127.0.0.0/8"| == 11;
    if d == pkt.dst + "/32" {
      assert d[..|d| - 3] == a.svc.clusterIP && (pkt.dst + "/32")[..|d| - 3] == pkt.dst;
    }
    hide ToLower;
  }

  lemma {:induction false} JumpElements(svc: ServiceInfo, local: bool, ports: seq<ServicePort>, r: SvcRule)
    ensures r in Gather(JumpsOf(svc, local), ports) <==>
            exists p :: p in ports && !Skipped(p) && r == PortJump(svc, local, Proto(p), p.port)
  {
    hide PortJump, Proto, Gather, Skipped;
    if r in Gather(JumpsOf(svc, local), ports) {
      var i := GatherElements(JumpsOf(svc, local), ports, r);
      assert ports[i] in ports && !Skipped(ports[i]);
    }
    if p :| p in ports && !Skipped(p) && r == PortJump(svc, local, Proto(p), p.port) {
      assert r in JumpsOf(svc, local)(p);
      GatherHas(JumpsOf(svc, local), ports, p, r);
    }
  }

  function Hook(local: bool): Chain {
    if local then Output else Prerouting
  }

  /** The packet is rewritten to the target port of an endpoint, of any of them, or left alone if there are none. */
  ghost predicate Reaches(n: SvcChains, rules: seq<SvcRule>, pkt: Packet, a: Applied, p: ServicePort) {
    forall out :: Goes(n, rules, pkt, 1, out) <==>
                  if a.eps == [] then out == Fell else ToOneOf(a.eps, p.targetPort, out)
  }

  lemma SamePort(svc: ServiceInfo, p: ServicePort, q: ServicePort)
    requires WellFormed(svc) && p in svc.ports && q in svc.ports && p.port == q.port && p.port != 0
    ensures p == q
  {
    var i :| 0 <= i < |svc.ports| && svc.ports[i] == p;
    var j :| 0 <= j < |svc.ports| && svc.ports[j] == q;
  }

  /** The rules that cover the packet are copies of the one jump of that port. */
  lemma OnlyThisJump(n: SvcChains, v: SvcChains, all: seq<Applied>, hostAddr: string, i: nat, p: ServicePort, pkt: Packet, local: bool)
    requires NatContent(n, v, all, hostAddr) && PlainAddresses(all, hostAddr) && PlainPacket(pkt) && AsksOnly(all, i, p, pkt, local)
    requires forall j :: 0 <= j < |all| ==> WellFormed(all[j].svc)
    requires Hook(local) in v && Untouched(v[Hook(local)], pkt)
    ensures Hook(local) in n && !Skipped(p) && Proto(p) == pkt.proto
    ensures var r := PortJump(all[i].svc, local, Proto(p), p.port);
            r in n[Hook(local)] && Covers(r.match_, pkt) && forall x :: x in n[Hook(local)] && Covers(x.match_, pkt) ==> x == r
  {
    var c, a := Hook(local), all[i];
    var r := PortJump(a.svc, local, Proto(p), p.port);
    assert c in HOOKS;
    assert JumpList(a, c, hostAddr) == Gather(JumpsOf(a.svc, local), a.svc.ports);
    JumpCovers(a, p, pkt, local);
    JumpElements(a.svc, local, a.svc.ports, r);
    assert Proto(p) == pkt.proto;
    hide Covers, PortJump, Proto, ServiceChains, ToLower, WellFormed, PlainHost, Gather;
    assert Jumped(all, c, hostAddr, r);
    forall x | x in n[c] && Covers(x.match_, pkt)
      ensures x == r
    {
      assert Jumped(all, c, hostAddr, x);
      var j :| 0 <= j < |all| && x in JumpList(all[j], c, hostAddr);
      assert JumpList(all[j], c, hostAddr) == Gather(JumpsOf(all[j].svc, local), all[j].svc.ports);
      JumpElements(all[j].svc, local, all[j].svc.ports, x);
      var q :| q in all[j].svc.ports && !Skipped(q) && x == PortJump(all[j].svc, local, Proto(q), q.port);
      JumpCovers(all[j], q, pkt, local);
      SamePort(a.svc, p, q);
    }
  }

  lemma Served(n: SvcChains, v: SvcChains, all: seq<Applied>, hostAddr: string, i: nat, p: ServicePort, pkt: Packet, local: bool)
    requires NatContent(n, v, all, hostAddr) && PlainAddresses(all, hostAddr) && PlainPacket(pkt) && AsksOnly(all, i, p, pkt, local)
    requires forall j :: 0 <= j < |all| ==> WellFormed(all[j].svc)
    requires Hook(local) in v && Untouched(v[Hook(local)], pkt)
    ensures Hook(local) in n && Reaches(n, n[Hook(local)], pkt, all[i], p)
  {
    OnlyThisJump(n, v, all, hostAddr, i, p, pkt, local);
    var a := all[i];
    assert ServiceChains(n, a);
    var c, r := SvcOf(a.svc, p.port), PortJump(a.svc, local, Proto(p), p.port);
    assert r.target == Jump(c) && r.match_.oneOf == 0 && n[c] == DnatRules(a.eps, p);
    hide NatContent, ServiceChains, PlainAddresses, WellFormed, AsksOnly, Untouched;
    ServedBy(n, n[Hook(local)], pkt, a, p, r, c);
  }

  lemma ServedBy(n: SvcChains, rules: seq<SvcRule>, pkt: Packet, a: Applied, p: ServicePort, r: SvcRule, c: Chain)
    requires r in rules && r.target == Jump(c) && r.match_.oneOf == 0 && Covers(r.match_, pkt) && pkt.proto == Proto(p)
    requires c in n && n[c] == DnatRules(a.eps, p) && forall x :: x in rules && Covers(x.match_, pkt) ==> x == r
    ensures Reaches(n, rules, pkt, a, p)
  {
    hide Goes, Covers, Proto;
    if a.eps == [] {
      OneJumpNowhere(n, rules, pkt, 1, r);
    } else {
      DnatGoes(n, a.eps, p, pkt, 0, 0);
      assert DnatRules(a.eps, p)[0..] == DnatRules(a.eps, p) && a.eps[0..] == a.eps;
      OneJump(n, rules, pkt, 1, r);
    }
  }

  // ---- the source address, and the filter table -----------------------------------------------------------

  /** The packet goes to the target port of an endpoint of some applied Service. */
  ghost predicate ToEndpoint(all: seq<Applied>, pkt: Packet) {
    exists i, p, e :: 0 <= i < |all| && p in all[i].svc.ports && p.port != 0 && p.targetPort != 0 && e in all[i].eps
                   && pkt.dst == e.addr && pkt.dport == p.targetPort && Speaks(p, pkt.proto)
  }

  predicate FromHost(pkt: Packet, hostAddr: string) {
    "127." <= pkt.src || (hostAddr != "" && pkt.src == hostAddr)
  }

  /** Sent through the bridge between endpoints, from outside to one, or back from one. */
  ghost predicate Admitted(all: seq<Applied>, pkt: Packet) {
    exists i, p, e :: 0 <= i < |all| && p in all[i].svc.ports && p.port != 0 && p.targetPort != 0 && e in all[i].eps
                   && e.hostInterface != "" && e.bridge != "" && Speaks(p, pkt.proto) && ForEndpoint(e, p.targetPort, pkt)
  }

  predicate ForEndpoint(e: Endpoint, targetPort: int, pkt: Packet) {
    || (pkt.inDev == e.bridge && pkt.outDev == e.bridge && pkt.rewritten && pkt.dst == e.addr && pkt.dport == targetPort)
    || (pkt.inDev == e.hostInterface && pkt.outDev == e.bridge && pkt.dst == e.addr && pkt.dport == targetPort)
    || (pkt.inDev == e.bridge && pkt.outDev == e.hostInterface && pkt.src == e.addr && pkt.sport == targetPort)
  }

  lemma {:induction false} MasqElements(eps: seq<Endpoint>, ports: seq<ServicePort>, r: SvcRule)
    ensures r in Gather(MasqOf(eps), ports) <==> exists p, e :: p in ports && !Skipped(p) && e in eps && r == MasqRule(e, p)
  {
    hide Gather, MasqRule, Skipped;
    if r in Gather(MasqOf(eps), ports) {
      var i := GatherElements(MasqOf(eps), ports, r);
      assert !Skipped(ports[i]) && r in MasqRules(eps, ports[i]);
      var j :| 0 <= j < |eps| && MasqRules(eps, ports[i])[j] == r;
      assert ports[i] in ports && eps[j] in eps && r == MasqRule(eps[j], ports[i]);
    }
    if p, e :| p in ports && !Skipped(p) && e in eps && r == MasqRule(e, p) {
      var j :| 0 <= j < |eps| && eps[j] == e;
      assert MasqRules(eps, p)[j] == r && MasqOf(eps)(p) == MasqRules(eps, p);
      GatherHas(MasqOf(eps), ports, p, r);
    }
  }

  lemma NoSlash(net: string, host: string)
    requires PlainHost(host)
    ensures net != "" && '/' !in net ==> (InNet(net, host) <==> net == host) && (InNet(net + "/32", host) <==> net == host)
    ensures InNet("127.0.0.0/8", host) <==> "127." <= host
  {
    assert (host + "/32")[|host|] == '/';
    assert (host + "/32")[|host + "/32"| - 1] == '2' && "127.0.0.0/8"[10] == '8' && |"127.0.0.0/8"| == 11 && "127.0.0.0/8"[9] == '/';
    assert (net + "/32")[|net|] == '/';
    assert net + "/32" == host + "/32" ==> net == (net + "/32")[..|net + "/32"| - 3] == (host + "/32")[..|host + "/32"| - 3] == host;
    assert (net + "/32")[|net + "/32"| - 1] == '2';
  }

  lemma MasqCovers(e: Endpoint, p: ServicePort, pkt: Packet)
    requires PlainPacket(pkt) && PlainHost(e.addr) && !Skipped(p)
    ensures Covers(MasqRule(e, p).match_, pkt) <==> pkt.dst == e.addr && pkt.dport == p.targetPort && Speaks(p, pkt.proto)
  {
    NoSlash(e.addr, pkt.dst);
    hide ToLower;
  }

  lemma SnatCovers(svc: ServiceInfo, pkt: Packet, hostAddr: string)
    requires PlainPacket(pkt) && '/' !in hostAddr
    ensures (exists r :: r in SnatJumps(svc, hostAddr) && Covers(r.match_, pkt)) <==> FromHost(pkt, hostAddr)
    ensures forall r :: r in SnatJumps(svc, hostAddr) ==> r.target == Jump(SnatOf(svc)) && r.match_.oneOf == 0
  {
    NoSlash(hostAddr, pkt.src);
    hide Prefix;
    var local, host := LocalhostRule(SnatOf(svc)), HostRule(SnatOf(svc), hostAddr);
    assert Covers(local.match_, pkt) <==> "127." <= pkt.src;
    assert hostAddr != "" ==> (Covers(host.match_, pkt) <==> pkt.src == hostAddr);
    assert local in SnatJumps(svc, hostAddr) && (hostAddr != "" ==> host in SnatJumps(svc, hostAddr));
  }

  /** Packets from the host to an endpoint's port get a new source address, and no others. */
  lemma {:induction false} Masqueraded(n: SvcChains, v: SvcChains, all: seq<Applied>, hostAddr: string, pkt: Packet)
    requires NatContent(n, v, all, hostAddr) && PlainAddresses(all, hostAddr) && PlainPacket(pkt)
    requires Postrouting in v && Untouched(v[Postrouting], pkt)
    ensures Postrouting in n
    ensures forall out :: Goes(n, n[Postrouting], pkt, 1, out) <==>
                          out == if FromHost(pkt, hostAddr) && ToEndpoint(all, pkt) then Decided(Masquerade) else Fell
  {
    assert Postrouting in HOOKS;
    hide Goes, Covers, MasqRule, DnatRules, Gather, SnatJumps, Prefix, Speaks;
    forall r | r in n[Postrouting] && Covers(r.match_, pkt)
      ensures r.match_.oneOf == 0 && r.target.Jump? && r.target.chain in n && AllTarget(n[r.target.chain], Masquerade)
      ensures FromHost(pkt, hostAddr) && (SomeCovers(n[r.target.chain], pkt) ==> ToEndpoint(all, pkt))
    {
      assert Jumped(all, Postrouting, hostAddr, r);
      var i :| 0 <= i < |all| && r in JumpList(all[i], Postrouting, hostAddr);
      SnatCovers(all[i].svc, pkt, hostAddr);
      SnatChainCovers(n, all, hostAddr, i, pkt);
    }
    JumpsGo(n, n[Postrouting], pkt, 1, Masquerade);
    if FromHost(pkt, hostAddr) && ToEndpoint(all, pkt) {
      MasqueradedBySome(n, v, all, hostAddr, pkt);
    }
  }

  lemma SnatChainCovers(n: SvcChains, all: seq<Applied>, hostAddr: string, i: nat, pkt: Packet)
    requires i < |all| && ServiceChains(n, all[i]) && PlainAddresses(all, hostAddr) && PlainPacket(pkt)
    ensures AllTarget(n[SnatOf(all[i].svc)], Masquerade) && (SomeCovers(n[SnatOf(all[i].svc)], pkt) ==> ToEndpoint(all, pkt))
  {
    var a := all[i];
    hide Gather, MasqOf, DnatRules, Prefix, Covers, Speaks;
    forall r | r in n[SnatOf(a.svc)]
      ensures r.target == Masquerade && r.match_.oneOf == 0 && (Covers(r.match_, pkt) ==> ToEndpoint(all, pkt))
    {
      MasqElements(a.eps, a.svc.ports, r);
      var p, e :| p in a.svc.ports && !Skipped(p) && e in a.eps && r == MasqRule(e, p);
      MasqCovers(e, p, pkt);
    }
  }

  lemma MasqueradedBySome(n: SvcChains, v: SvcChains, all: seq<Applied>, hostAddr: string, pkt: Packet)
    requires NatContent(n, v, all, hostAddr) && PlainAddresses(all, hostAddr) && PlainPacket(pkt)
    requires FromHost(pkt, hostAddr) && ToEndpoint(all, pkt)
    ensures Postrouting in n && SomeJumpCovers(n, n[Postrouting], pkt)
  {
    assert Postrouting in HOOKS;
    var i, p, e :| 0 <= i < |all| && p in all[i].svc.ports && p.port != 0 && p.targetPort != 0 && e in all[i].eps
                && pkt.dst == e.addr && pkt.dport == p.targetPort && Speaks(p, pkt.proto);
    hide Covers, MasqRule, DnatRules, Gather, SnatJumps, Prefix, Speaks, FromHost;
    SnatCovers(all[i].svc, pkt, hostAddr);
    var r :| r in SnatJumps(all[i].svc, hostAddr) && Covers(r.match_, pkt);
    assert r in JumpList(all[i], Postrouting, hostAddr);
    assert Jumped(all, Postrouting, hostAddr, r);
    assert ServiceChains(n, all[i]);
    MasqElements(all[i].eps, all[i].svc.ports, MasqRule(e, p));
    MasqCovers(e, p, pkt);
    assert MasqRule(e, p) in n[SnatOf(all[i].svc)];
  }

  lemma {:induction false} AcceptElements(eps: seq<Endpoint>, ports: seq<ServicePort>, r: SvcRule)
    ensures r in Gather(AcceptOf(eps), ports) <==> exists p, e :: p in ports && !Skipped(p) && e in eps && r in ForwardRules(e, p)
  {
    hide Gather, ForwardRules, Skipped;
    if r in Gather(AcceptOf(eps), ports) {
      var i := GatherElements(AcceptOf(eps), ports, r);
      assert !Skipped(ports[i]) && r in Gather(ForwardsOf(ports[i]), eps);
      var j := GatherElements(ForwardsOf(ports[i]), eps, r);
      assert ports[i] in ports && eps[j] in eps && r in ForwardRules(eps[j], ports[i]);
    }
    if p, e :| p in ports && !Skipped(p) && e in eps && r in ForwardRules(e, p) {
      assert r in ForwardsOf(p)(e);
      GatherHas(ForwardsOf(p), eps, e, r);
      assert AcceptOf(eps)(p) == Gather(ForwardsOf(p), eps);
      GatherHas(AcceptOf(eps), ports, p, r);
    }
  }

  lemma ForwardCovers(e: Endpoint, p: ServicePort, pkt: Packet)
    requires PlainPacket(pkt) && PlainHost(e.addr) && !Skipped(p)
    ensures (exists r :: r in ForwardRules(e, p) && Covers(r.match_, pkt)) <==>
            e.hostInterface != "" && e.bridge != "" && Speaks(p, pkt.proto) && ForEndpoint(e, p.targetPort, pkt)
    ensures forall r :: r in ForwardRules(e, p) ==> r.target == Accept && r.match_.oneOf == 0
  {
    NoSlash(e.addr, pkt.dst);
    NoSlash(e.addr, pkt.src);
    hide ToLower, InNet;
    if e.hostInterface != "" && e.bridge != "" {
      var rs := ForwardRules(e, p);
      assert InNet("", pkt.src) && InNet("", pkt.dst) by { NoNet(pkt.src); NoNet(pkt.dst); }
      assert |rs| == 3 && rs[0] in rs && rs[1] in rs && rs[2] in rs && forall r :: r in rs ==> r == rs[0] || r == rs[1] || r == rs[2];
      assert Covers(rs[0].match_, pkt) <==>
             Speaks(p, pkt.proto) && pkt.inDev == e.bridge && pkt.outDev == e.bridge && pkt.rewritten && pkt.dst == e.addr && pkt.dport == p.targetPort;
      assert Covers(rs[1].match_, pkt) <==>
             Speaks(p, pkt.proto) && pkt.inDev == e.hostInterface && pkt.outDev == e.bridge && pkt.dst == e.addr && pkt.dport == p.targetPort;
      assert Covers(rs[2].match_, pkt) <==>
             Speaks(p, pkt.proto) && pkt.inDev == e.bridge && pkt.outDev == e.hostInterface && pkt.src == e.addr && pkt.sport == p.targetPort;
    }
  }

  lemma NoNet(a: string)
    ensures InNet("", a)
  {
  }

  lemma ForwardChainCovers(f: SvcChains, all: seq<Applied>, hostAddr: string, i: nat, pkt: Packet)
    requires i < |all| && ForwardChain(f, all[i]) && PlainAddresses(all, hostAddr) && PlainPacket(pkt)
    ensures AllTarget(f[FwdOf(all[i].svc)], Accept) && (SomeCovers(f[FwdOf(all[i].svc)], pkt) ==> Admitted(all, pkt))
  {
    var a := all[i];
    hide Gather, AcceptOf, ForwardRules, Prefix, Covers, Speaks, ForEndpoint;
    forall r | r in f[FwdOf(a.svc)]
      ensures r.target == Accept && r.match_.oneOf == 0 && (Covers(r.match_, pkt) ==> Admitted(all, pkt))
    {
      AcceptElements(a.eps, a.svc.ports, r);
      var p, e :| p in a.svc.ports && !Skipped(p) && e in a.eps && r in ForwardRules(e, p);
      ForwardCovers(e, p, pkt);
    }
  }

  lemma AcceptedBySome(f: SvcChains, v: SvcChains, all: seq<Applied>, hostAddr: string, pkt: Packet)
    requires FilterContent(f, v, all) && PlainAddresses(all, hostAddr) && PlainPacket(pkt) && Admitted(all, pkt)
    ensures SomeJumpCovers(f, f[Forward], pkt)
  {
    var i, p, e :| 0 <= i < |all| && p in all[i].svc.ports && p.port != 0 && p.targetPort != 0 && e in all[i].eps
                && e.hostInterface != "" && e.bridge != "" && Speaks(p, pkt.proto) && ForEndpoint(e, p.targetPort, pkt);
    var jump := JumpTo(FwdOf(all[i].svc));
    assert Covers(jump.match_, pkt) && jump.target == Jump(FwdOf(all[i].svc));
    assert ForwardChain(f, all[i]);
    hide Covers, ForwardRules, Gather, AcceptOf, Prefix, Speaks, ForEndpoint, FwdOf, JumpTo;
    ForwardCovers(e, p, pkt);
    var r :| r in ForwardRules(e, p) && Covers(r.match_, pkt);
    AcceptElements(all[i].eps, all[i].svc.ports, r);
    assert r in f[FwdOf(all[i].svc)];
    assert jump in f[Forward];
  }

  /** The traffic of the endpoints is accepted, and nothing else is. */
  lemma {:induction false} AcceptedIff(f: SvcChains, v: SvcChains, all: seq<Applied>, hostAddr: string, pkt: Packet)
    requires FilterContent(f, v, all) && PlainAddresses(all, hostAddr) && PlainPacket(pkt) && Untouched(v[Forward], pkt)
    ensures forall out :: Goes(f, f[Forward], pkt, 1, out) <==> out == if Admitted(all, pkt) then Decided(Accept) else Fell
  {
    hide Goes, Covers, Gather, AcceptOf, ForwardRules, Prefix, Admitted, FwdOf;
    forall r | r in f[Forward] && Covers(r.match_, pkt)
      ensures r.match_.oneOf == 0 && r.target.Jump? && r.target.chain in f && AllTarget(f[r.target.chain], Accept)
      ensures SomeCovers(f[r.target.chain], pkt) ==> Admitted(all, pkt)
    {
      var i :| 0 <= i < |all| && r == JumpTo(FwdOf(all[i].svc));
      assert ForwardChain(f, all[i]);
      ForwardChainCovers(f, all, hostAddr, i, pkt);
    }
    JumpsGo(f, f[Forward], pkt, 1, Accept);
    if Admitted(all, pkt) {
      AcceptedBySome(f, v, all, hostAddr, pkt);
    }
  }

  // ---- what a pass brings about ------------------------------------------------------------------------------

  /** Packets no unmanaged rule is about: those that ask for one Service's port reach one of its endpoints, those from
      the host to an endpoint are masqueraded, the endpoints' traffic is accepted; nothing else happens to any. */
  ghost predicate Delivers(f: SvcChains, n: SvcChains, vf: SvcChains, vn: SvcChains, all: seq<Applied>, hostAddr: string) {
    && Forward in f && Forward in vf && HOOKS <= n.Keys && HOOKS <= vn.Keys
    && (forall i: nat, p, pkt, local :: AsksOnly(all, i, p, pkt, local) && PlainPacket(pkt) && Untouched(vn[Hook(local)], pkt) ==>
          Reaches(n, n[Hook(local)], pkt, all[i], p))
    && (forall pkt, out :: PlainPacket(pkt) && Untouched(vn[Postrouting], pkt) ==>
          (Goes(n, n[Postrouting], pkt, 1, out) <==> out == if FromHost(pkt, hostAddr) && ToEndpoint(all, pkt) then Decided(Masquerade) else Fell))
    && (forall pkt, out :: PlainPacket(pkt) && Untouched(vf[Forward], pkt) ==>
          (Goes(f, f[Forward], pkt, 1, out) <==> out == if Admitted(all, pkt) then Decided(Accept) else Fell))
  }

  lemma ContentDelivers(f: SvcChains, n: SvcChains, vf: SvcChains, vn: SvcChains, all: seq<Applied>, hostAddr: string)
    requires FilterContent(f, vf, all) && NatContent(n, vn, all, hostAddr) && PlainAddresses(all, hostAddr)
    requires forall i :: 0 <= i < |all| ==> WellFormed(all[i].svc)
    ensures Delivers(f, n, vf, vn, all, hostAddr)
  {
    assert Forward in f && Forward in vf && HOOKS <= n.Keys && HOOKS <= vn.Keys;
    assert Prerouting in HOOKS && Output in HOOKS && Postrouting in HOOKS;
    hide Goes, Reaches, AsksOnly, PlainPacket, Untouched, NatContent, FilterContent, PlainAddresses, Admitted, ToEndpoint, FromHost, WellFormed, HOOKS;
    forall i: nat, p, pkt, local | AsksOnly(all, i, p, pkt, local) && PlainPacket(pkt) && Untouched(vn[Hook(local)], pkt)
      ensures i < |all| && Reaches(n, n[Hook(local)], pkt, all[i], p)
    {
      assert i < |all| by { AsksInRange(all, i, p, pkt, local); }
      Served(n, vn, all, hostAddr, i, p, pkt, local);
    }
    forall pkt, out | PlainPacket(pkt) && Untouched(vn[Postrouting], pkt)
      ensures Goes(n, n[Postrouting], pkt, 1, out) <==> out == if FromHost(pkt, hostAddr) && ToEndpoint(all, pkt) then Decided(Masquerade) else Fell
    {
      Masqueraded(n, vn, all, hostAddr, pkt);
    }
    forall pkt, out | PlainPacket(pkt) && Untouched(vf[Forward], pkt)
      ensures Goes(f, f[Forward], pkt, 1, out) <==> out == if Admitted(all, pkt) then Decided(Accept) else Fell
    {
      AcceptedIff(f, vf, all, hostAddr, pkt);
    }
  }

  lemma AsksInRange(all: seq<Applied>, i: nat, p: ServicePort, pkt: Packet, local: bool)
    requires AsksOnly(all, i, p, pkt, local)
    ensures i < |all|
  {
  }

  lemma SameUnowned(a: SvcChains, v: SvcChains)
    requires View(a, Nobody) == v
    ensures UnownedOf(a) == v.Keys && UnownedOf(v) == v.Keys
  {
  }

  /** MAIN: tables that are a clean rebuild deliver. */
  lemma {:induction false} RebuildDelivers(f: SvcChains, n: SvcChains, all: seq<Applied>, hostAddr: string, links: Links)
    requires SameTable(f, Run(View(f, Nobody), FilterRebuild(all))) && SameTable(n, Run(View(n, Nobody), NatRebuild(all, hostAddr)))
    requires UnownedFilter(UnownedOf(f)) && Unowned(UnownedOf(n)) && PassOk(all, links)
    ensures PlainAddresses(all, hostAddr) ==> Delivers(f, n, View(f, Nobody), View(n, Nobody), all, hostAddr)
  {
    hide TableSync, FilterRebuild, NatRebuild, Run, View, SameTable, FilterPrograms, NatPrograms, NatContent, FilterContent, Delivers,
         PlainAddresses, DistinctPrefixes, UnownedFilter, Unowned, EndpointsOk, UnownedOf;
    var vf, vn := View(f, Nobody), View(n, Nobody);
    var rf, rn := Run(vf, FilterRebuild(all)), Run(vn, NatRebuild(all, hostAddr));
    UnmanagedIsSync(f);
    UnmanagedIsSync(n);
    RebuildFilter(vf, all);
    RebuildNat(vn, all, hostAddr);
    SameUnowned(f, vf);
    SameUnowned(n, vn);
    SameUnowned(rf, vf);
    SameUnowned(rn, vn);
    RebuiltFilter(rf, vf, all);
    RebuiltNat(rn, vn, all, hostAddr);
    SameFilterContent(f, rf, vf, all);
    SameNatContent(n, rn, vn, all, hostAddr);
    if PlainAddresses(all, hostAddr) {
      ContentDelivers(f, n, vf, vn, all, hostAddr);
    }
  }
}

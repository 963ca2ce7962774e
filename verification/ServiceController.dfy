/** The Service controller: it remembers the state key and the Service it last applied, and on each
    pass cleans up and applies again only what changed. */
module ServiceController {
  import opened Iptables
  import opened Commands
  import opened Lists
  import opened Text
  import opened ServiceRules
  import opened ServiceShape
  import opened ServiceKey
  import opened ServiceSync
  import opened ServiceTracking
  import opened ServiceTraffic

  /** A command iptables carries out. */
  ghost predicate Works(ch: SvcChains, cmd: Cmd<Match>) {
    match cmd
    case New(c) => c !in ch
    case Flush(c) => c in ch
    case Remove(c) => c in ch && !BuiltIn(c) && ch[c] == [] && !Referenced(ch, c)
    case Append(c, r) => Installable(ch, c, r)
    case Insert(c, r) => Installable(ch, c, r)
    case Delete(c, r) => c in ch && r in ch[c]
  }

  method Send(t: Table<Match>, cmd: Cmd<Match>) returns (ok: bool)
    modifies t
    ensures ok == Works(old(t.chains), cmd)
    ensures t.chains == Step(old(t.chains), cmd)
  {
    match cmd {
      case New(c) => ok := t.NewChain(c);
      case Flush(c) => ok := t.Flush(c);
      case Remove(c) => ok := t.DeleteChain(c);
      case Append(c, r) => ok := t.Append(c, r);
      case Insert(c, r) => ok := t.InsertHead(c, r);
      case Delete(c, r) => ok := t.DeleteRule(c, r);
    }
  }

  /** Two commands whose failures are ignored. */
  method SendTwo(t: Table<Match>, a: Cmd<Match>, b: Cmd<Match>)
    modifies t
    ensures t.chains == Run(old(t.chains), [a, b])
  {
    Run2(t.chains, a, b);
    var _ := Send(t, a);
    var _ := Send(t, b);
  }

  lemma AppendsConcat(c: Chain, a: seq<SvcRule>, b: seq<SvcRule>)
    ensures Appends(c, a + b) == Appends(c, a) + Appends(c, b)
  {
  }

  lemma StateKeyNotEmpty(svc: ServiceInfo, eps: seq<Endpoint>, links: Links)
    requires ServiceOk(svc) && EndpointsOk(eps, links)
    ensures StateKey(svc, eps) != ""
  {
    PartsWithoutComma(svc, eps, links);
    var ps := Parts(svc, eps);
    JoinSeparator(SortKeys(ps), ',');
    SortKeysElements(ps);
    if |SortKeys(ps)| == 1 {
      assert SortKeys(ps)[0] in multiset(SortKeys(ps));
      assert |multiset(SortKeys(ps))| == |ps|;
      assert ps[0] in multiset(ps) && ps[0] == HeadParts(svc)[0];
      assert multiset(SortKeys(ps)) == multiset{SortKeys(ps)[0]} by { assert SortKeys(ps) == [SortKeys(ps)[0]]; }
    }
  }

  class ServiceController {
    const filter: Table<Match>
    const natTable: Table<Match>
    const hostAddr: string
    const links: Links
    var lastState: map<string, string>
    var lastServices: map<string, ServiceInfo>
    ghost var applied: map<string, Applied>
    ghost var filterPrograms: map<string, Program>
    ghost var natPrograms: map<string, Program>

    /** Everything but the caches. */
    ghost predicate Tracking()
      reads `applied, `filterPrograms, `natPrograms, filter, natTable
    {
      && filter != natTable
      && AppliedOk(applied, links)
      && FilterTracks(filter.chains, applied, filterPrograms)
      && NatTracks(natTable.chains, applied, natPrograms, hostAddr)
    }

    ghost predicate Valid()
      reads this, filter, natTable
    {
      Tracking() && Caches(lastState, lastServices, applied)
    }

    constructor (filter: Table<Match>, natTable: Table<Match>, hostAddr: string, links: Links)
      ensures this.filter == filter && this.natTable == natTable && this.hostAddr == hostAddr && this.links == links
      ensures lastState == map[] && lastServices == map[]
    {
      this.filter, this.natTable, this.hostAddr, this.links := filter, natTable, hostAddr, links;
      lastState, lastServices, applied := map[], map[], map[];
      filterPrograms, natPrograms := map[], map[];
    }

    // ---- applying ------------------------------------------------------------------------------

    method SetupForward(svc: ServiceInfo) returns (ok: bool)
      requires Forward in filter.chains
      modifies filter
      ensures ok
      ensures filter.chains == Run(old(filter.chains), FwdSetup(svc))
      ensures filter.chains.Keys == old(filter.chains.Keys) + {FwdOf(svc)}
    {
      var c, r := FwdOf(svc), JumpTo(FwdOf(svc));
      ghost var f := filter.chains;
      assert FwdSetup(svc) == [New(c), Flush(c)] + [Delete(Forward, r), Insert(Forward, r)];
      RunConcat(f, [New(c), Flush(c)], [Delete(Forward, r), Insert(Forward, r)]);
      Run2(f, New(c), Flush(c));
      var _ := Send(filter, New(c));
      ok := Send(filter, Flush(c));
      if !ok { return; }
      Run2(filter.chains, Delete(Forward, r), Insert(Forward, r));
      var _ := Send(filter, Delete(Forward, r));
      ok := Send(filter, Insert(Forward, r));
    }

    method RemoveSnatJumps(c: Chain)
      modifies natTable
      ensures natTable.chains == Run(old(natTable.chains), DeleteSnatJumps(c, hostAddr))
      ensures natTable.chains.Keys == old(natTable.chains.Keys)
    {
      RunOne(natTable.chains, Delete(Postrouting, LocalhostRule(c)));
      Run2(natTable.chains, Delete(Postrouting, LocalhostRule(c)), Delete(Postrouting, HostRule(c, hostAddr)));
      var _ := Send(natTable, Delete(Postrouting, LocalhostRule(c)));
      if hostAddr != "" {
        var _ := Send(natTable, Delete(Postrouting, HostRule(c, hostAddr)));
        assert DeleteSnatJumps(c, hostAddr) == [Delete(Postrouting, LocalhostRule(c)), Delete(Postrouting, HostRule(c, hostAddr))];
      } else {
        assert DeleteSnatJumps(c, hostAddr) == [Delete(Postrouting, LocalhostRule(c))];
      }
    }

    method AppendSnatJumps(c: Chain) returns (ok: bool)
      requires Postrouting in natTable.chains && c in natTable.chains
      modifies natTable
      ensures ok
      ensures natTable.chains == Run(old(natTable.chains), AddSnatJumps(c, hostAddr))
      ensures natTable.chains.Keys == old(natTable.chains.Keys)
    {
      RunOne(natTable.chains, Append(Postrouting, LocalhostRule(c)));
      Run2(natTable.chains, Append(Postrouting, LocalhostRule(c)), Append(Postrouting, HostRule(c, hostAddr)));
      ok := Send(natTable, Append(Postrouting, LocalhostRule(c)));
      if !ok { return; }
      if hostAddr != "" {
        ok := Send(natTable, Append(Postrouting, HostRule(c, hostAddr)));
        assert AddSnatJumps(c, hostAddr) == [Append(Postrouting, LocalhostRule(c)), Append(Postrouting, HostRule(c, hostAddr))];
      } else {
        assert AddSnatJumps(c, hostAddr) == [Append(Postrouting, LocalhostRule(c))];
      }
    }

    method SetupSnat(svc: ServiceInfo) returns (ok: bool)
      requires Postrouting in natTable.chains
      modifies natTable
      ensures ok
      ensures natTable.chains == Run(old(natTable.chains), SnatSetup(svc, hostAddr))
      ensures natTable.chains.Keys == old(natTable.chains.Keys) + {SnatOf(svc)}
    {
      var c := SnatOf(svc);
      ghost var n := natTable.chains;
      RunConcat(n, [New(c), Flush(c)] + DeleteSnatJumps(c, hostAddr), AddSnatJumps(c, hostAddr));
      RunConcat(n, [New(c), Flush(c)], DeleteSnatJumps(c, hostAddr));
      Run2(n, New(c), Flush(c));
      var _ := Send(natTable, New(c));
      ok := Send(natTable, Flush(c));
      if !ok { return; }
      RemoveSnatJumps(c);
      ok := AppendSnatJumps(c);
    }

    method RemovePortJumps(svc: ServiceInfo, proto: string, port: int)
      modifies natTable
      ensures natTable.chains == Run(old(natTable.chains), DeletePortJumps(svc, proto, port))
      ensures natTable.chains.Keys == old(natTable.chains.Keys)
    {
      if svc.type_ == ClusterIP && svc.clusterIP == "" { return; }
      SendTwo(natTable, Delete(Prerouting, PortJump(svc, false, proto, port)), Delete(Output, PortJump(svc, true, proto, port)));
      Run2(old(natTable.chains), Delete(Prerouting, PortJump(svc, false, proto, port)), Delete(Output, PortJump(svc, true, proto, port)));
    }

    /** Fails for a ClusterIP service that has no ClusterIP. */
    method AppendPortJumps(svc: ServiceInfo, proto: string, port: int) returns (ok: bool)
      requires Prerouting in natTable.chains && Output in natTable.chains && SvcOf(svc, port) in natTable.chains
      modifies natTable
      ensures ok <==> !(svc.type_ == ClusterIP && svc.clusterIP == "")
      ensures natTable.chains == if ok then Run(old(natTable.chains), AddPortJumps(svc, proto, port)) else old(natTable.chains)
      ensures natTable.chains.Keys == old(natTable.chains.Keys)
    {
      if svc.type_ == ClusterIP && svc.clusterIP == "" { return false; }
      Run2(natTable.chains, Append(Prerouting, PortJump(svc, false, proto, port)), Append(Output, PortJump(svc, true, proto, port)));
      ok := Send(natTable, Append(Prerouting, PortJump(svc, false, proto, port)));
      if !ok { return; }
      ok := Send(natTable, Append(Output, PortJump(svc, true, proto, port)));
    }

    method AddForwardRules(c: Chain, e: Endpoint, p: ServicePort)
      requires c in filter.chains
      modifies filter
      ensures filter.chains == Run(old(filter.chains), Appends(c, ForwardRules(e, p)))
      ensures filter.chains.Keys == old(filter.chains.Keys)
    {
      if e.hostInterface == "" || e.bridge == "" { return; }
      var rules := ForwardRules(e, p);
      RunAppends(filter.chains, c, rules);
      var _ := Send(filter, Append(c, rules[0]));
      var _ := Send(filter, Append(c, rules[1]));
      var _ := Send(filter, Append(c, rules[2]));
      assert old(filter.chains)[c] + [rules[0]] + [rules[1]] + [rules[2]] == old(filter.chains)[c] + rules;
    }

    method AddEndpoint(svc: ServiceInfo, eps: seq<Endpoint>, i: nat, p: ServicePort) returns (ok: bool)
      requires filter != natTable && SvcOf(svc, p.port) in natTable.chains && SnatOf(svc) in natTable.chains && FwdOf(svc) in filter.chains
      requires i < |eps|
      modifies filter, natTable
      ensures ok
      ensures natTable.chains == Run(old(natTable.chains), EndpointNat(svc, eps, i, p))
      ensures EndpointWritten(old(natTable.chains), natTable.chains, svc, eps, i, p)
      ensures filter.chains == Run(old(filter.chains), Appends(FwdOf(svc), ForwardRules(eps[i], p)))
      ensures filter.chains.Keys == old(filter.chains.Keys) && natTable.chains.Keys == old(natTable.chains.Keys)
    {
      WritesEndpoint(natTable.chains, svc, eps, i, p);
      var dnat, masq := Append(SvcOf(svc, p.port), DnatRule(eps, i, p)), Append(SnatOf(svc), MasqRule(eps[i], p));
      Run2(natTable.chains, dnat, masq);
      hide Run, ForwardRules, Appends, Prefix, EndpointWritten;
      ok := Send(natTable, dnat);
      if !ok { return; }
      AddForwardRules(FwdOf(svc), eps[i], p);
      var _ := Send(natTable, masq);
    }

    method AddEndpoints(svc: ServiceInfo, eps: seq<Endpoint>, p: ServicePort) returns (ok: bool)
      requires filter != natTable && SvcOf(svc, p.port) in natTable.chains && SnatOf(svc) in natTable.chains && FwdOf(svc) in filter.chains
      modifies filter, natTable
      ensures ok
      ensures natTable.chains == Run(old(natTable.chains), EndpointsNat(svc, eps, |eps|, p))
      ensures filter.chains == Run(old(filter.chains), Appends(FwdOf(svc), Gather(ForwardsOf(p), eps)))
      ensures filter.chains.Keys == old(filter.chains.Keys) && natTable.chains.Keys == old(natTable.chains.Keys)
    {
      NoEndpointsYet(filter.chains, natTable.chains, svc, eps, p);
      hide Run, ForwardRules, ForwardsOf, Appends, Gather, EndpointNat, EndpointsNat, Prefix, EndpointsDone;
      ghost var f, n := filter.chains, natTable.chains;
      var i := 0;
      while i < |eps|
        invariant i <= |eps| && EndpointsDone(f, n, filter.chains, natTable.chains, svc, eps, i, p)
      {
        EndpointsStep(f, n, filter.chains, natTable.chains, svc, eps, i, p);
        ok := AddEndpoint(svc, eps, i, p);
        if !ok { return; }
        i := i + 1;
      }
      AllEndpoints(f, n, filter.chains, natTable.chains, svc, eps, p);
      return true;
    }

    /** One port; nothing for a port with a zero number. */
    method ApplyPort(svc: ServiceInfo, eps: seq<Endpoint>, p: ServicePort) returns (ok: bool)
      requires filter != natTable && {Prerouting, Output, SnatOf(svc)} <= natTable.chains.Keys && FwdOf(svc) in filter.chains
      requires svc.type_ == ClusterIP ==> svc.clusterIP != ""
      modifies filter, natTable
      ensures ok
      ensures natTable.chains == Run(old(natTable.chains), PortNat(svc, eps, p))
      ensures filter.chains == Run(old(filter.chains), Appends(FwdOf(svc), AcceptOf(eps)(p)))
      ensures filter.chains.Keys == old(filter.chains.Keys) && old(natTable.chains.Keys) <= natTable.chains.Keys
    {
      if Skipped(p) { return true; }
      var c := SvcOf(svc, p.port);
      ghost var n := natTable.chains;
      ghost var del, add := DeletePortJumps(svc, Proto(p), p.port), AddPortJumps(svc, Proto(p), p.port);
      RunConcat(n, [New(c), Flush(c)] + del + add, EndpointsNat(svc, eps, |eps|, p));
      RunConcat(n, [New(c), Flush(c)] + del, add);
      RunConcat(n, [New(c), Flush(c)], del);
      Run2(n, New(c), Flush(c));
      hide Run, ForwardsOf, Appends, Gather, EndpointsNat, Prefix, DeletePortJumps, AddPortJumps;
      var _ := Send(natTable, New(c));
      ok := Send(natTable, Flush(c));
      if !ok { return; }
      RemovePortJumps(svc, Proto(p), p.port);
      ok := AppendPortJumps(svc, Proto(p), p.port);
      if !ok { return; }
      ok := AddEndpoints(svc, eps, p);
    }

    /** Both tables get the whole program of the Service. */
    method ApplyRules(svc: ServiceInfo, eps: seq<Endpoint>) returns (ok: bool)
      requires filter != natTable && {Prerouting, Output, Postrouting} <= natTable.chains.Keys && Forward in filter.chains
      requires svc.type_ == ClusterIP ==> svc.clusterIP != ""
      modifies filter, natTable
      ensures ok
      ensures filter.chains == Run(old(filter.chains), FilterApply(svc, eps))
      ensures natTable.chains == Run(old(natTable.chains), NatApply(svc, eps, hostAddr))
    {
      hide Run, Appends, Gather, Prefix, PortNat, AcceptOf, FwdSetup, SnatSetup;
      ghost var f, n := filter.chains, natTable.chains;
      ok := SetupForward(svc);
      if !ok { return; }
      ok := SetupSnat(svc);
      if !ok { return; }
      ghost var f', n' := filter.chains, natTable.chains;
      ghost var ps: seq<ServicePort> := [];
      NothingYet(f', n', svc, eps);
      var i := 0;
      while i < |svc.ports|
        invariant i <= |svc.ports| && ps == svc.ports[..i]
        invariant FwdOf(svc) in filter.chains && {Prerouting, Output, SnatOf(svc)} <= natTable.chains.Keys
        invariant natTable.chains == Run(n', Gather(PortNatOf(svc, eps), ps))
        invariant filter.chains == Run(f', Appends(FwdOf(svc), Gather(AcceptOf(eps), ps)))
      {
        ApplyStep(f', n', svc, eps, ps, svc.ports[i]);
        ok := ApplyPort(svc, eps, svc.ports[i]);
        if !ok { return; }
        ps := ps + [svc.ports[i]];
        i := i + 1;
      }
      assert ps == svc.ports;
      RunConcat(f, FwdSetup(svc), Appends(FwdOf(svc), Gather(AcceptOf(eps), svc.ports)));
      RunConcat(n, SnatSetup(svc, hostAddr), Gather(PortNatOf(svc, eps), svc.ports));
      return true;
    }

    // ---- cleaning up ---------------------------------------------------------------------------

    method CleanupServiceRules(svc: ServiceInfo)
      requires filter != natTable
      modifies filter, natTable
      ensures filter.chains == Run(old(filter.chains), FilterCleanup(svc))
      ensures natTable.chains == Run(old(natTable.chains), NatCleanup(svc, hostAddr))
    {
      var c, s := FwdOf(svc), SnatOf(svc);
      ghost var f, n := filter.chains, natTable.chains;
      assert FilterCleanup(svc) == [Delete(Forward, JumpTo(c))] + [Flush(c), Remove(c)];
      RunConcat(f, [Delete(Forward, JumpTo(c))], [Flush(c), Remove(c)]);
      RunOne(f, Delete(Forward, JumpTo(c)));
      RunConcat(n, DeleteSnatJumps(s, hostAddr), [Flush(s), Remove(s)]);
      RunConcat(n, SnatCleanup(svc, hostAddr), Gather(PortCleanupOf(svc), svc.ports));
      hide Run, Prefix, DeleteSnatJumps, Gather, PortCleanup;
      var _ := Send(filter, Delete(Forward, JumpTo(c)));
      SendTwo(filter, Flush(c), Remove(c));
      RemoveSnatJumps(s);
      SendTwo(natTable, Flush(s), Remove(s));
      ghost var n' := natTable.chains;
      assert Run(n', Gather(PortCleanupOf(svc), [])) == n' by { GatherNothing(n', PortCleanupOf(svc)); }
      var i := 0;
      while i < |svc.ports|
        invariant i <= |svc.ports| && filter.chains == Run(f, FilterCleanup(svc))
        invariant natTable.chains == Run(n', Gather(PortCleanupOf(svc), svc.ports[..i]))
      {
        assert svc.ports[..i + 1] == svc.ports[..i] + [svc.ports[i]];
        GatherSnoc(PortCleanupOf(svc), svc.ports[..i], svc.ports[i]);
        RunConcat(n', Gather(PortCleanupOf(svc), svc.ports[..i]), PortCleanup(svc, svc.ports[i]));
        CleanupPort(svc, svc.ports[i]);
        i := i + 1;
      }
      assert svc.ports[..|svc.ports|] == svc.ports;
    }

    method CleanupPort(svc: ServiceInfo, p: ServicePort)
      modifies natTable
      ensures natTable.chains == Run(old(natTable.chains), PortCleanup(svc, p))
    {
      if p.port == 0 { return; }
      var c := SvcOf(svc, p.port);
      ghost var n, tcp, udp := natTable.chains, DeletePortJumps(svc, "tcp", p.port), DeletePortJumps(svc, "udp", p.port);
      RunConcat(n, tcp + udp, [Flush(c), Remove(c)]);
      RunConcat(n, tcp, udp);
      hide Run, DeletePortJumps, Prefix;
      RemovePortJumps(svc, "tcp", p.port);
      RemovePortJumps(svc, "udp", p.port);
      SendTwo(natTable, Flush(c), Remove(c));
    }

    /** Forgets nothing yet: only the rules of the Service last applied under this id go away. */
    method CleanupService(id: string)
      requires Valid()
      modifies filter, natTable, `applied, `filterPrograms, `natPrograms
      ensures Tracking()
      ensures applied == old(applied) - {id}
      ensures View(filter.chains, Nobody) == old(View(filter.chains, Nobody))
      ensures View(natTable.chains, Nobody) == old(View(natTable.chains, Nobody))
    {
      hide StateKey, Prefix, ServiceOk, EndpointsOk, AppliedOk, FilterTracks, NatTracks, View, Run, FilterCleanup, NatCleanup, Prefixes;
      if id !in lastServices {
        assert applied - {id} == applied;
        return;
      }
      var svc := lastServices[id];
      FilterTrackCleanup(filter.chains, applied, filterPrograms, links, id);
      NatTrackCleanup(natTable.chains, applied, natPrograms, hostAddr, links, id);
      PrefixesWithout(applied, links, id);
      CleanupServiceRules(svc);
      applied := applied - {id};
      filterPrograms := filterPrograms - {Prefix(id)};
      natPrograms := natPrograms - {Prefix(id)};
    }

    /** One Service of a pass. */
    method Refresh(a: Applied)
      requires Valid() && ServiceOk(a.svc) && EndpointsOk(a.eps, links)
      requires forall id :: id in applied && id != a.svc.serviceId ==> Prefix(id) != Prefix(a.svc.serviceId)
      modifies this, filter, natTable
      ensures Valid()
      ensures applied == Refreshed(old(applied), a)
      ensures View(filter.chains, Nobody) == old(View(filter.chains, Nobody))
      ensures View(natTable.chains, Nobody) == old(View(natTable.chains, Nobody))
      ensures Fresh(old(applied), a) ==> unchanged(filter, natTable)
    {
      hide Tracking, View, Prefix, ServiceOk, EndpointsOk, StateKey, Caches, Fresh;
      var id := a.svc.serviceId;
      var key := StateKey(a.svc, a.eps);
      StateKeyNotEmpty(a.svc, a.eps, links);
      CachesHit(lastState, lastServices, applied, a);
      var prev := if id in lastState then lastState[id] else "";
      if prev != key {
        Replace(a, key);
      }
    }

    /** A Service whose key changed: the rules of its last version go, those of the new one come. */
    method Replace(a: Applied, key: string)
      requires Valid() && ServiceOk(a.svc) && EndpointsOk(a.eps, links) && key == StateKey(a.svc, a.eps)
      requires forall id :: id in applied && id != a.svc.serviceId ==> Prefix(id) != Prefix(a.svc.serviceId)
      modifies this, filter, natTable
      ensures Valid()
      ensures applied == (old(applied) - {a.svc.serviceId})[a.svc.serviceId := a]
      ensures View(filter.chains, Nobody) == old(View(filter.chains, Nobody))
      ensures View(natTable.chains, Nobody) == old(View(natTable.chains, Nobody))
    {
      hide Tracking, View, Prefix, ServiceOk, EndpointsOk, StateKey, Caches;
      var id := a.svc.serviceId;
      CachesHit(lastState, lastServices, applied, a);
      CachesWith(lastState, lastServices, applied, a);
      if id in lastState {
        CleanupService(id);
      }
      assert applied == old(applied) - {id};
      lastState, lastServices := lastState[id := key], lastServices[id := a.svc];
      ApplyTracked(a);
    }

    method ApplyTracked(a: Applied)
      requires Tracking() && a.svc.serviceId !in applied && ServiceOk(a.svc) && EndpointsOk(a.eps, links)
      requires forall id :: id in applied ==> Prefix(id) != Prefix(a.svc.serviceId)
      modifies filter, natTable, `applied, `filterPrograms, `natPrograms
      ensures Tracking()
      ensures applied == old(applied)[a.svc.serviceId := a]
      ensures View(filter.chains, Nobody) == old(View(filter.chains, Nobody))
      ensures View(natTable.chains, Nobody) == old(View(natTable.chains, Nobody))
    {
      hide StateKey, Prefix, EndpointsOk, AppliedOk, FilterTracks, NatTracks, View, Run, FilterApply, NatApply, Prefixes;
      FilterTrackApply(filter.chains, applied, filterPrograms, a);
      NatTrackApply(natTable.chains, applied, natPrograms, hostAddr, a);
      BuiltInsThere(filter.chains, natTable.chains, applied, filterPrograms, natPrograms, hostAddr);
      AppliedOkWith(applied, links, a);
      var ok := ApplyRules(a.svc, a.eps);
      applied := applied[a.svc.serviceId := a];
      filterPrograms := filterPrograms[Prefix(a.svc.serviceId) := FilterApply(a.svc, a.eps)];
      natPrograms := natPrograms[Prefix(a.svc.serviceId) := NatApply(a.svc, a.eps, hostAddr)];
    }

    /** One pass over the Services and the endpoints their pods give them. The tables end up as a clean
        rebuild would leave them; a pass that finds nothing new sends nothing. */
    method ReconcileOnce(all: seq<Applied>)
      requires Valid() && PassOk(all, links) && PrefixesFree(applied, all)
      modifies this, filter, natTable
      ensures Valid() && UpToDate(applied, all)
      ensures SameTable(filter.chains, Run(old(View(filter.chains, Nobody)), FilterRebuild(all)))
      ensures SameTable(natTable.chains, Run(old(View(natTable.chains, Nobody)), NatRebuild(all, hostAddr)))
      ensures UpToDate(old(applied), all) ==> filter.chains == old(filter.chains) && natTable.chains == old(natTable.chains)
      ensures PlainAddresses(all, hostAddr) ==>
                Delivers(filter.chains, natTable.chains, old(View(filter.chains, Nobody)), old(View(natTable.chains, Nobody)), all, hostAddr)
    {
      hide StateKey, Prefix, EndpointsOk, ServiceOk, AppliedOk, FilterTracks, NatTracks, View, Run, FilterRebuild, NatRebuild, SameTable,
           PlainAddresses, Delivers, PassOk;
      RefreshAll(all);
      DropRemoved(all);
      IncrementalIsRebuild(filter.chains, natTable.chains, applied, filterPrograms, natPrograms, hostAddr, links, all);
      TracksUnowned(filter.chains, natTable.chains, applied, filterPrograms, natPrograms, hostAddr);
      RebuildDelivers(filter.chains, natTable.chains, all, hostAddr, links);
    }

    method RefreshAll(all: seq<Applied>)
      requires Valid() && PassOk(all, links) && PrefixesFree(applied, all)
      modifies this, filter, natTable
      ensures Valid() && Current(applied, all)
      ensures View(filter.chains, Nobody) == old(View(filter.chains, Nobody))
      ensures View(natTable.chains, Nobody) == old(View(natTable.chains, Nobody))
      ensures Current(old(applied), all) ==> Idle(old(applied), old(filter.chains), old(natTable.chains))
    {
      NothingCurrent(applied, all);
      ghost var fu, nu, was, f, n := View(filter.chains, Nobody), View(natTable.chains, Nobody), applied, filter.chains, natTable.chains;
      hide StateKey, View, Valid, Current, PassOk, PrefixesFree, KnownBefore, Idle;
      var i := 0;
      while i < |all|
        invariant i <= |all| && Valid() && Current(applied, all[..i]) && KnownBefore(was, applied, all[..i])
        invariant Unmanaged(fu, nu)
        invariant Current(was, all) ==> Idle(was, f, n)
      {
        RefreshNext(all, i, was, f, n);
        i := i + 1;
      }
      assert all[..|all|] == all;
    }

    method RefreshNext(all: seq<Applied>, i: nat, ghost was: map<string, Applied>, ghost f: SvcChains, ghost n: SvcChains)
      requires Valid() && PassOk(all, links) && PrefixesFree(was, all) && i < |all|
      requires Current(applied, all[..i]) && KnownBefore(was, applied, all[..i])
      requires Current(was, all) ==> Idle(was, f, n)
      modifies this, filter, natTable
      ensures Valid() && Current(applied, all[..i + 1]) && KnownBefore(was, applied, all[..i + 1])
      ensures View(filter.chains, Nobody) == old(View(filter.chains, Nobody))
      ensures View(natTable.chains, Nobody) == old(View(natTable.chains, Nobody))
      ensures Current(was, all) ==> Idle(was, f, n)
    {
      PrefixFree(was, applied, all, i);
      CurrentStep(applied, all, i);
      KnownStep(was, applied, all, i);
      CurrentIsFresh(applied, all, i);
      assert ServiceOk(all[i].svc) && EndpointsOk(all[i].eps, links);
      hide StateKey, View, Prefix, ServiceOk, EndpointsOk, Tracking, Caches, Current, Fresh, KnownBefore, PassOk, PrefixesFree;
      Refresh(all[i]);
    }

    /** Nothing was sent and nothing forgotten. */
    ghost predicate Idle(was: map<string, Applied>, f: SvcChains, n: SvcChains)
      reads `applied, filter, natTable
    {
      applied == was && filter.chains == f && natTable.chains == n
    }

    ghost predicate Unmanaged(fu: SvcChains, nu: SvcChains)
      reads filter, natTable
    {
      View(filter.chains, Nobody) == fu && View(natTable.chains, Nobody) == nu
    }

    method Forget(id: string)
      requires Valid()
      modifies this, filter, natTable
      ensures Valid()
      ensures applied == old(applied) - {id}
      ensures View(filter.chains, Nobody) == old(View(filter.chains, Nobody))
      ensures View(natTable.chains, Nobody) == old(View(natTable.chains, Nobody))
    {
      hide View, Tracking, Caches;
      CachesWithout(lastState, lastServices, applied, id);
      CleanupService(id);
      lastState, lastServices := lastState - {id}, lastServices - {id};
    }

    /** One remembered Service, dropped unless it is still listed. */
    method DropUnlisted(id: string, all: seq<Applied>, ghost rest: set<string>, ghost was: map<string, Applied>, ghost f: SvcChains, ghost n: SvcChains)
      requires Valid() && Current(applied, all) && Remaining(applied, rest, all) && id in rest
      requires AllListed(was, all) ==> Idle(was, f, n)
      modifies this, filter, natTable
      ensures Valid() && Current(applied, all) && Remaining(applied, rest - {id}, all)
      ensures View(filter.chains, Nobody) == old(View(filter.chains, Nobody))
      ensures View(natTable.chains, Nobody) == old(View(natTable.chains, Nobody))
      ensures AllListed(was, all) ==> Idle(was, f, n)
    {
      CurrentWithout(applied, all, id);
      RemainingStep(applied, rest, all, id);
      assert !Listed(id, all) ==> !AllListed(was, all);
      hide View, Valid, Current, StateKey, Remaining, AllListed, Listed, Idle;
      if !Listed(id, all) {
        Forget(id);
      }
    }

    method DropRemoved(all: seq<Applied>)
      requires Valid() && Current(applied, all)
      modifies this, filter, natTable
      ensures Valid() && UpToDate(applied, all)
      ensures View(filter.chains, Nobody) == old(View(filter.chains, Nobody))
      ensures View(natTable.chains, Nobody) == old(View(natTable.chains, Nobody))
      ensures AllListed(old(applied), all) ==> Idle(old(applied), old(filter.chains), old(natTable.chains))
    {
      assert lastState.Keys == applied.Keys;
      ghost var fu, nu, was, f, n := View(filter.chains, Nobody), View(natTable.chains, Nobody), applied, filter.chains, natTable.chains;
      assert Idle(was, f, n);
      assert Remaining(applied, lastState.Keys, all);
      RemainingNone(all);
      hide StateKey, View, Current, Listed, Valid, Idle, AllListed, Remaining;
      var rest := lastState.Keys;
      while rest != {}
        invariant Valid() && Current(applied, all) && Remaining(applied, rest, all)
        invariant Unmanaged(fu, nu)
        invariant AllListed(was, all) ==> Idle(was, f, n)
        decreases rest
      {
        var id :| id in rest;
        DropUnlisted(id, all, rest, was, f, n);
        rest := rest - {id};
      }
    }
  }

  /** The ids still to be looked at. */
  ghost predicate Remaining(applied: map<string, Applied>, rest: set<string>, all: seq<Applied>) {
    rest <= applied.Keys && forall id :: id in applied ==> id in rest || Listed(id, all)
  }

  lemma RemainingStep(applied: map<string, Applied>, rest: set<string>, all: seq<Applied>, id: string)
    requires Remaining(applied, rest, all) && id in rest
    ensures id in applied
    ensures if Listed(id, all) then Remaining(applied, rest - {id}, all) else Remaining(applied - {id}, rest - {id}, all)
  {
  }

  lemma RemainingNone(all: seq<Applied>)
    ensures forall applied :: Remaining(applied, {}, all) ==> AllListed(applied, all)
  {
  }

  lemma BuiltInsThere(f: SvcChains, n: SvcChains, applied: map<string, Applied>, fp: map<string, Program>, np: map<string, Program>, hostAddr: string)
    requires FilterTracks(f, applied, fp) && NatTracks(n, applied, np, hostAddr)
    ensures {Prerouting, Output, Postrouting} <= n.Keys && Forward in f
  {
    hide TableSync, FilterApply, NatApply, Prefixes;
    assert {Prerouting, Output, Postrouting} <= UnownedOf(n);
  }

  lemma AppliedOkWith(applied: map<string, Applied>, links: Links, a: Applied)
    requires AppliedOk(applied, links) && ServiceOk(a.svc) && EndpointsOk(a.eps, links)
    requires forall id :: id in applied ==> Prefix(id) != Prefix(a.svc.serviceId)
    ensures AppliedOk(applied[a.svc.serviceId := a], links)
  {
    hide ServiceOk, EndpointsOk, Prefix;
  }

  /** The caches hold the key and the Service of what is applied. */
  ghost predicate Caches(lastState: map<string, string>, lastServices: map<string, ServiceInfo>, applied: map<string, Applied>) {
    && lastState.Keys == lastServices.Keys == applied.Keys
    && (forall id :: id in applied ==> lastServices[id] == applied[id].svc)
    && (forall id :: id in applied ==> lastState[id] == StateKey(applied[id].svc, applied[id].eps))
  }

  lemma CachesHit(lastState: map<string, string>, lastServices: map<string, ServiceInfo>, applied: map<string, Applied>, a: Applied)
    requires Caches(lastState, lastServices, applied)
    ensures Fresh(applied, a) <==> a.svc.serviceId in lastState && lastState[a.svc.serviceId] == StateKey(a.svc, a.eps)
    ensures a.svc.serviceId in lastState <==> a.svc.serviceId in applied
    ensures a.svc.serviceId !in lastState ==> applied == applied - {a.svc.serviceId}
  {
  }

  lemma CachesWith(lastState: map<string, string>, lastServices: map<string, ServiceInfo>, applied: map<string, Applied>, a: Applied)
    requires Caches(lastState, lastServices, applied)
    ensures Caches(lastState[a.svc.serviceId := StateKey(a.svc, a.eps)], lastServices[a.svc.serviceId := a.svc],
                   (applied - {a.svc.serviceId})[a.svc.serviceId := a])
  {
    hide StateKey;
  }

  lemma CachesWithout(lastState: map<string, string>, lastServices: map<string, ServiceInfo>, applied: map<string, Applied>, id: string)
    requires Caches(lastState, lastServices, applied)
    ensures Caches(lastState - {id}, lastServices - {id}, applied - {id})
  {
    hide StateKey;
  }

  /** No id of the pass shares its prefix with another id known before. */
  ghost predicate PrefixesFree(applied: map<string, Applied>, all: seq<Applied>) {
    forall i, id :: 0 <= i < |all| && id in applied && id != all[i].svc.serviceId ==> Prefix(id) != Prefix(all[i].svc.serviceId)
  }

  ghost predicate KnownBefore(was: map<string, Applied>, applied: map<string, Applied>, seen: seq<Applied>) {
    forall id :: id in applied ==> id in was || Listed(id, seen)
  }

  lemma PrefixFree(was: map<string, Applied>, applied: map<string, Applied>, all: seq<Applied>, i: nat)
    requires i < |all| && DistinctPrefixes(all) && KnownBefore(was, applied, all[..i]) && PrefixesFree(was, all)
    ensures forall id :: id in applied && id != all[i].svc.serviceId ==> Prefix(id) != Prefix(all[i].svc.serviceId)
  {
    hide Prefix;
    forall id | id in applied && id !in was && id != all[i].svc.serviceId
      ensures Prefix(id) != Prefix(all[i].svc.serviceId)
    {
      var j :| 0 <= j < i && all[..i][j].svc.serviceId == id;
      assert all[..i][j] == all[j];
    }
  }

  /** What is applied once a Service has been refreshed. */
  ghost function Refreshed(applied: map<string, Applied>, a: Applied): map<string, Applied> {
    if Fresh(applied, a) then applied else (applied - {a.svc.serviceId})[a.svc.serviceId := a]
  }

  lemma NothingCurrent(applied: map<string, Applied>, all: seq<Applied>)
    ensures Current(applied, all[..0]) && KnownBefore(applied, applied, all[..0])
  {
    assert all[..0] == [];
  }

  lemma CurrentStep(before: map<string, Applied>, all: seq<Applied>, i: nat)
    requires i < |all| && DistinctPrefixes(all) && Current(before, all[..i])
    ensures Current(Refreshed(before, all[i]), all[..i + 1])
  {
    hide StateKey;
    forall j | 0 <= j < i
      ensures Fresh(Refreshed(before, all[i]), all[j])
    {
      assert all[..i][j] == all[j];
      assert Fresh(before, all[j]);
      assert Prefix(all[j].svc.serviceId) != Prefix(all[i].svc.serviceId);
    }
    assert forall j :: 0 <= j < i ==> all[..i + 1][j] == all[j];
  }

  lemma KnownStep(was: map<string, Applied>, before: map<string, Applied>, all: seq<Applied>, i: nat)
    requires i < |all| && KnownBefore(was, before, all[..i])
    ensures KnownBefore(was, Refreshed(before, all[i]), all[..i + 1])
  {
    hide StateKey;
    assert all[..i + 1][i] == all[i];
    forall id | Listed(id, all[..i])
      ensures Listed(id, all[..i + 1])
    {
      var j :| 0 <= j < i && all[..i][j].svc.serviceId == id;
      assert all[..i + 1][j] == all[j];
    }
  }

  lemma CurrentIsFresh(applied: map<string, Applied>, all: seq<Applied>, i: nat)
    requires i < |all|
    ensures Current(applied, all) ==> Fresh(applied, all[i])
  {
  }

  lemma CurrentWithout(applied: map<string, Applied>, all: seq<Applied>, id: string)
    requires Current(applied, all)
    ensures !Listed(id, all) ==> Current(applied - {id}, all)
  {
    hide StateKey;
    if !Listed(id, all) {
      forall i | 0 <= i < |all|
        ensures Fresh(applied - {id}, all[i])
      {
        assert Fresh(applied, all[i]) && all[i].svc.serviceId != id;
      }
    }
  }

  /** A rule behind each of two chains: the port's traffic goes to the endpoint's target port, always for the
      last endpoint and with probability 1/n for another; traffic to that port is masqueraded. */
  ghost predicate EndpointWritten(n: SvcChains, n': SvcChains, svc: ServiceInfo, eps: seq<Endpoint>, i: nat, p: ServicePort) {
    var c, s := SvcOf(svc, p.port), SnatOf(svc);
    && i < |eps| && c in n && s in n && n'.Keys == n.Keys && (forall d :: d in n && d != c && d != s ==> n'[d] == n[d])
    && |n'[c]| == |n[c]| + 1 && n'[c][..|n[c]|] == n[c] && |n'[s]| == |n[s]| + 1 && n'[s][..|n[s]|] == n[s]
    && var dnat, masq := n'[c][|n[c]|], n'[s][|n[s]|];
       && dnat.target == Dnat(eps[i].addr, p.targetPort) && dnat.match_.oneOf == (if i == |eps| - 1 then 0 else |eps|)
       && masq.target == Masquerade && masq.match_.dst == eps[i].addr && masq.match_.dport == p.targetPort
  }

  lemma {:induction false} WritesEndpoint(n: SvcChains, svc: ServiceInfo, eps: seq<Endpoint>, i: nat, p: ServicePort)
    requires i < |eps| && SvcOf(svc, p.port) in n && SnatOf(svc) in n
    ensures EndpointWritten(n, Run(n, EndpointNat(svc, eps, i, p)), svc, eps, i, p)
  {
    hide Prefix;
    Run2(n, Append(SvcOf(svc, p.port), DnatRule(eps, i, p)), Append(SnatOf(svc), MasqRule(eps[i], p)));
    hide Run;
  }

  function EndpointNat(svc: ServiceInfo, eps: seq<Endpoint>, i: nat, p: ServicePort): Program
    requires i < |eps|
  {
    [Append(SvcOf(svc, p.port), DnatRule(eps, i, p)), Append(SnatOf(svc), MasqRule(eps[i], p))]
  }

  lemma {:induction false} NothingYet(f: SvcChains, n: SvcChains, svc: ServiceInfo, eps: seq<Endpoint>)
    ensures Run(f, Appends(FwdOf(svc), Gather(AcceptOf(eps), []))) == f && Run(n, Gather(PortNatOf(svc, eps), [])) == n
  {
    assert Appends(FwdOf(svc), Gather(AcceptOf(eps), [])) == [];
  }

  lemma {:induction false} GatherNothing(n: SvcChains, g: ServicePort -> Program)
    ensures Run(n, Gather(g, [])) == n
  {
  }

  lemma {:induction false} ApplyStep(f: SvcChains, n: SvcChains, svc: ServiceInfo, eps: seq<Endpoint>, ps: seq<ServicePort>, p: ServicePort)
    ensures Run(n, Gather(PortNatOf(svc, eps), ps + [p])) == Run(Run(n, Gather(PortNatOf(svc, eps), ps)), PortNat(svc, eps, p))
    ensures Run(f, Appends(FwdOf(svc), Gather(AcceptOf(eps), ps + [p])))
         == Run(Run(f, Appends(FwdOf(svc), Gather(AcceptOf(eps), ps))), Appends(FwdOf(svc), AcceptOf(eps)(p)))
  {
    GatherSnoc(PortNatOf(svc, eps), ps, p);
    GatherSnoc(AcceptOf(eps), ps, p);
    RunConcat(n, Gather(PortNatOf(svc, eps), ps), PortNat(svc, eps, p));
    AppendsConcat(FwdOf(svc), Gather(AcceptOf(eps), ps), AcceptOf(eps)(p));
    RunConcat(f, Appends(FwdOf(svc), Gather(AcceptOf(eps), ps)), Appends(FwdOf(svc), AcceptOf(eps)(p)));
  }

  /** The rules of the first i endpoints are in place, and no chain came or went. */
  ghost predicate EndpointsDone(f: SvcChains, n: SvcChains, f': SvcChains, n': SvcChains, svc: ServiceInfo, eps: seq<Endpoint>, i: nat, p: ServicePort) {
    && i <= |eps| && f'.Keys == f.Keys && n'.Keys == n.Keys
    && n' == Run(n, EndpointsNat(svc, eps, i, p)) && f' == Run(f, Appends(FwdOf(svc), Gather(ForwardsOf(p), eps[..i])))
  }

  lemma NoEndpointsYet(f: SvcChains, n: SvcChains, svc: ServiceInfo, eps: seq<Endpoint>, p: ServicePort)
    ensures EndpointsDone(f, n, f, n, svc, eps, 0, p)
  {
  }

  lemma {:induction false} EndpointsStep(f: SvcChains, n: SvcChains, f': SvcChains, n': SvcChains, svc: ServiceInfo, eps: seq<Endpoint>, i: nat, p: ServicePort)
    requires i < |eps| && EndpointsDone(f, n, f', n', svc, eps, i, p)
    ensures f'.Keys == f.Keys && n'.Keys == n.Keys
    ensures var g, m := Run(f', Appends(FwdOf(svc), ForwardRules(eps[i], p))), Run(n', EndpointNat(svc, eps, i, p));
            g.Keys == f.Keys && m.Keys == n.Keys ==> EndpointsDone(f, n, g, m, svc, eps, i + 1, p)
  {
    hide Run, Appends, Gather, ForwardRules, Prefix;
    var c := FwdOf(svc);
    assert eps[..i + 1] == eps[..i] + [eps[i]];
    assert ForwardsOf(p)(eps[i]) == ForwardRules(eps[i], p);
    GatherSnoc(ForwardsOf(p), eps[..i], eps[i]);
    AppendsConcat(c, Gather(ForwardsOf(p), eps[..i]), ForwardRules(eps[i], p));
    RunConcat(f, Appends(c, Gather(ForwardsOf(p), eps[..i])), Appends(c, ForwardRules(eps[i], p)));
    RunConcat(n, EndpointsNat(svc, eps, i, p), EndpointNat(svc, eps, i, p));
  }

  lemma {:induction false} AllEndpoints(f: SvcChains, n: SvcChains, f': SvcChains, n': SvcChains, svc: ServiceInfo, eps: seq<Endpoint>, p: ServicePort)
    requires EndpointsDone(f, n, f', n', svc, eps, |eps|, p)
    ensures n' == Run(n, EndpointsNat(svc, eps, |eps|, p)) && f' == Run(f, Appends(FwdOf(svc), Gather(ForwardsOf(p), eps)))
    ensures f'.Keys == f.Keys && n'.Keys == n.Keys
  {
    assert eps[..|eps|] == eps;
  }

  lemma TracksUnowned(f: SvcChains, n: SvcChains, applied: map<string, Applied>, fp: map<string, Program>, np: map<string, Program>, hostAddr: string)
    requires FilterTracks(f, applied, fp) && NatTracks(n, applied, np, hostAddr)
    ensures UnownedFilter(UnownedOf(f)) && Unowned(UnownedOf(n))
  {
  }
}

/** One table shared by many Services: which program each service prefix last sent, and what that
    makes of the whole table. */
module ServiceSync {
  import opened Iptables
  import opened Commands
  import opened Lists
  import opened ServiceRules
  import opened ServiceShape
  import opened ServiceKey

  ghost function UnownedOf(ch: SvcChains): set<Chain> {
    set c | c in ch && OwnerOf(c) == Nobody
  }

  /** Each service's view of the table is what its program makes of an empty table. */
  ghost predicate TableSync(ch: SvcChains, progs: map<string, Program>) {
    Flat(ch) && forall p :: View(ch, Service(p)) == Run(Bare(UnownedOf(ch)), ProgramOf(progs, p))
  }

  ghost function ProgramOf(progs: map<string, Program>, p: string): Program {
    if p in progs then progs[p] else []
  }

  ghost predicate LocalProgram(prog: Program, p: string) {
    forall i :: 0 <= i < |prog| ==> LocalTo(prog[i], p)
  }

  lemma SameNobodySameUnowned(a: SvcChains, b: SvcChains)
    requires View(a, Nobody) == View(b, Nobody)
    ensures UnownedOf(a) == UnownedOf(b)
  {
    assert View(a, Nobody).Keys == UnownedOf(a) && View(b, Nobody).Keys == UnownedOf(b);
  }

  /** A service with no rules yet sends its program. */
  lemma {:induction false} SyncApply(ch: SvcChains, progs: map<string, Program>, p: string, prog: Program)
    requires TableSync(ch, progs) && p !in progs && LocalProgram(prog, p)
    ensures TableSync(Run(ch, prog), progs[p := prog]) && View(Run(ch, prog), Nobody) == View(ch, Nobody)
  {
    SyncSend(ch, progs, p, prog);
    hide View, Flat, UnownedOf, LocalProgram;
    var ch' := Run(ch, prog);
    forall q
      ensures View(ch', Service(q)) == Run(Bare(UnownedOf(ch')), ProgramOf(progs[p := prog], q))
    {
    }
  }

  /** A service cleans up what its program did. */
  lemma {:induction false} SyncCleanup(ch: SvcChains, progs: map<string, Program>, p: string, clean: Program)
    requires TableSync(ch, progs) && p in progs && LocalProgram(clean, p)
    requires Run(Run(Bare(UnownedOf(ch)), progs[p]), clean) == Bare(UnownedOf(ch))
    ensures TableSync(Run(ch, clean), progs - {p}) && View(Run(ch, clean), Nobody) == View(ch, Nobody)
  {
    SyncSend(ch, progs, p, clean);
    hide View, Flat, UnownedOf, LocalProgram;
    var ch' := Run(ch, clean);
    forall q
      ensures View(ch', Service(q)) == Run(Bare(UnownedOf(ch')), ProgramOf(progs - {p}, q))
    {
    }
  }

  lemma {:induction false} SyncSend(ch: SvcChains, progs: map<string, Program>, p: string, prog: Program)
    requires TableSync(ch, progs) && LocalProgram(prog, p)
    ensures View(Run(ch, prog), Nobody) == View(ch, Nobody) && UnownedOf(Run(ch, prog)) == UnownedOf(ch) && Flat(Run(ch, prog))
    ensures forall q :: View(Run(ch, prog), Service(q)) ==
                        if q == p then Run(Run(Bare(UnownedOf(ch)), ProgramOf(progs, p)), prog) else Run(Bare(UnownedOf(ch)), ProgramOf(progs, q))
  {
    RunLocal(ch, prog, p, Nobody);
    SameNobodySameUnowned(Run(ch, prog), ch);
    forall q
      ensures View(Run(ch, prog), Service(q)) ==
              if q == p then Run(Run(Bare(UnownedOf(ch)), ProgramOf(progs, p)), prog) else Run(Bare(UnownedOf(ch)), ProgramOf(progs, q))
    {
      RunLocal(ch, prog, p, Service(q));
    }
  }

  // ---- the unmanaged part of a table --------------------------------------------------------------

  lemma {:induction false} OnlyTwice(rules: seq<SvcRule>, o: Owner, o': Owner)
    ensures Only(Only(rules, o), o') == if o == o' then Only(rules, o) else []
    decreases |rules|
  {
    if rules != [] {
      OnlyTwice(rules[1..], o, o');
      assert ([rules[0]] + Only(rules[1..], o))[1..] == Only(rules[1..], o);
    }
  }

  /** The unmanaged rules alone form a table in which no service has anything. */
  lemma UnmanagedIsSync(ch: SvcChains)
    ensures TableSync(View(ch, Nobody), map[]) && View(View(ch, Nobody), Nobody) == View(ch, Nobody)
  {
    var v := View(ch, Nobody);
    forall p
      ensures View(v, Service(p)) == Bare(UnownedOf(v))
    {
      forall c | c in v
        ensures Only(v[c], Service(p)) == []
      {
        OnlyTwice(ch[c], Nobody, Service(p));
      }
    }
    forall c | c in v
      ensures Only(v[c], Nobody) == v[c]
    {
      OnlyTwice(ch[c], Nobody, Nobody);
    }
  }

  // ---- equal up to the order of jumps ---------------------------------------------------------------

  /** The same chains; unmanaged rules in the same order; DNAT chains rule for rule; the ACCEPT-only and
      MASQUERADE-only chains and the jumps into service chains as multisets. */
  ghost predicate SameTable(a: SvcChains, b: SvcChains) {
    && View(a, Nobody) == View(b, Nobody)
    && Alike(a, b)
  }

  lemma {:induction false} OnlyCount(rules: seq<SvcRule>, r: SvcRule)
    ensures multiset(Only(rules, RuleOwner(r)))[r] == multiset(rules)[r]
    decreases |rules|
  {
    if rules != [] {
      OnlyCount(rules[1..], r);
      assert rules == [rules[0]] + rules[1..];
    }
  }

  /** A list of rules is, as a multiset, the union of its owners' parts. */
  lemma PartsMakeWhole(a: seq<SvcRule>, b: seq<SvcRule>)
    requires forall o :: multiset(Only(a, o)) == multiset(Only(b, o))
    ensures multiset(a) == multiset(b)
  {
    forall r
      ensures multiset(a)[r] == multiset(b)[r]
    {
      OnlyCount(a, r);
      OnlyCount(b, r);
      assert multiset(Only(a, RuleOwner(r))) == multiset(Only(b, RuleOwner(r)));
    }
  }

  ghost predicate AlikePrograms(U: set<Chain>, x: map<string, Program>, y: map<string, Program>) {
    forall p :: Alike(Run(Bare(U), ProgramOf(x, p)), Run(Bare(U), ProgramOf(y, p)))
  }

  /** Views decide the table. */
  lemma AlikeViews(a: SvcChains, b: SvcChains)
    requires View(a, Nobody) == View(b, Nobody) && forall p :: Alike(View(a, Service(p)), View(b, Service(p)))
    ensures SameTable(a, b)
  {
    forall c
      ensures c in a <==> c in b
      ensures c in a && c in b ==> (if c.SvcChain? then a[c] == b[c] else multiset(a[c]) == multiset(b[c]))
    {
      AlikeChain(a, b, c);
    }
  }

  lemma AlikeChain(a: SvcChains, b: SvcChains, c: Chain)
    requires View(a, Nobody) == View(b, Nobody) && forall p :: Alike(View(a, Service(p)), View(b, Service(p)))
    ensures c in a <==> c in b
    ensures c in a && c in b ==> (if c.SvcChain? then a[c] == b[c] else multiset(a[c]) == multiset(b[c]))
  {
    match OwnerOf(c) {
      case Service(p) =>
        OwnChainWhole(a, c, p);
        OwnChainWhole(b, c, p);
        assert Alike(View(a, Service(p)), View(b, Service(p)));
      case Nobody =>
        assert c in a <==> c in View(a, Nobody);
        assert c in b <==> c in View(b, Nobody);
        if c in a {
          forall o: Owner
            ensures multiset(Only(a[c], o)) == multiset(Only(b[c], o))
          {
            match o {
              case Nobody => assert View(a, Nobody)[c] == View(b, Nobody)[c];
              case Service(p) =>
                assert Alike(View(a, Service(p)), View(b, Service(p)));
                assert c in View(a, Service(p)) && !c.SvcChain?;
            }
          }
          PartsMakeWhole(a[c], b[c]);
        }
    }
  }

  lemma SyncedTablesAreTheSame(a: SvcChains, b: SvcChains, x: map<string, Program>, y: map<string, Program>)
    requires TableSync(a, x) && TableSync(b, y) && View(a, Nobody) == View(b, Nobody) && AlikePrograms(UnownedOf(a), x, y)
    ensures SameTable(a, b)
  {
    SameNobodySameUnowned(a, b);
    forall p
      ensures Alike(View(a, Service(p)), View(b, Service(p)))
    {
      hide View, Flat, UnownedOf, Alike;
      assert Alike(Run(Bare(UnownedOf(a)), ProgramOf(x, p)), Run(Bare(UnownedOf(a)), ProgramOf(y, p)));
    }
    AlikeViews(a, b);
  }

  // ---- a clean rebuild --------------------------------------------------------------------------------

  datatype Applied = Applied(svc: ServiceInfo, eps: seq<Endpoint>)

  /** Applying each Service once, in the order given. */
  function FilterRebuild(all: seq<Applied>): Program {
    if all == [] then [] else FilterRebuild(all[..|all| - 1]) + FilterApply(all[|all| - 1].svc, all[|all| - 1].eps)
  }

  function NatRebuild(all: seq<Applied>, hostAddr: string): Program {
    if all == [] then [] else NatRebuild(all[..|all| - 1], hostAddr) + NatApply(all[|all| - 1].svc, all[|all| - 1].eps, hostAddr)
  }

  ghost predicate DistinctPrefixes(all: seq<Applied>) {
    forall i, j :: 0 <= i < j < |all| ==> Prefix(all[i].svc.serviceId) != Prefix(all[j].svc.serviceId)
  }

  function FilterPrograms(all: seq<Applied>): map<string, Program> {
    if all == [] then map[]
    else
      var last := all[|all| - 1];
      FilterPrograms(all[..|all| - 1])[Prefix(last.svc.serviceId) := FilterApply(last.svc, last.eps)]
  }

  function NatPrograms(all: seq<Applied>, hostAddr: string): map<string, Program> {
    if all == [] then map[]
    else
      var last := all[|all| - 1];
      NatPrograms(all[..|all| - 1], hostAddr)[Prefix(last.svc.serviceId) := NatApply(last.svc, last.eps, hostAddr)]
  }

  lemma {:induction false} NoPrograms(all: seq<Applied>, hostAddr: string, p: string)
    requires forall i :: 0 <= i < |all| ==> Prefix(all[i].svc.serviceId) != p
    ensures p !in FilterPrograms(all) && p !in NatPrograms(all, hostAddr)
    decreases |all|
  {
    if all != [] {
      hide FilterApply, NatApply, Prefix;
      NoPrograms(all[..|all| - 1], hostAddr, p);
    }
  }

  lemma {:induction false} ProgramsAt(all: seq<Applied>, hostAddr: string, i: nat)
    requires DistinctPrefixes(all) && i < |all|
    ensures ProgramOf(FilterPrograms(all), Prefix(all[i].svc.serviceId)) == FilterApply(all[i].svc, all[i].eps)
    ensures ProgramOf(NatPrograms(all, hostAddr), Prefix(all[i].svc.serviceId)) == NatApply(all[i].svc, all[i].eps, hostAddr)
    decreases |all|
  {
    hide FilterApply, NatApply, Prefix;
    if i < |all| - 1 {
      var before := all[..|all| - 1];
      assert before[i] == all[i];
      ProgramsAt(before, hostAddr, i);
    }
  }

  lemma {:induction false} RebuildFilter(ch: SvcChains, all: seq<Applied>)
    requires TableSync(ch, map[]) && DistinctPrefixes(all)
    ensures TableSync(Run(ch, FilterRebuild(all)), FilterPrograms(all))
    ensures View(Run(ch, FilterRebuild(all)), Nobody) == View(ch, Nobody)
    decreases |all|
  {
    if all != [] {
      var n := |all| - 1;
      var before, last := all[..n], all[n];
      RebuildFilter(ch, before);
      RunConcat(ch, FilterRebuild(before), FilterApply(last.svc, last.eps));
      FilterLocal(last.svc, last.eps);
      NoPrograms(before, "", Prefix(last.svc.serviceId));
      hide TableSync, View, FilterApply, Prefix, Run;
      SyncApply(Run(ch, FilterRebuild(before)), FilterPrograms(before), Prefix(last.svc.serviceId), FilterApply(last.svc, last.eps));
    }
  }

  lemma {:induction false} RebuildNat(ch: SvcChains, all: seq<Applied>, hostAddr: string)
    requires TableSync(ch, map[]) && DistinctPrefixes(all)
    ensures TableSync(Run(ch, NatRebuild(all, hostAddr)), NatPrograms(all, hostAddr))
    ensures View(Run(ch, NatRebuild(all, hostAddr)), Nobody) == View(ch, Nobody)
    decreases |all|
  {
    if all != [] {
      var n := |all| - 1;
      var before, last := all[..n], all[n];
      RebuildNat(ch, before, hostAddr);
      RunConcat(ch, NatRebuild(before, hostAddr), NatApply(last.svc, last.eps, hostAddr));
      NatApplyLocal(last.svc, last.eps, hostAddr);
      NoPrograms(before, hostAddr, Prefix(last.svc.serviceId));
      hide TableSync, View, NatApply, Prefix, Run;
      SyncApply(Run(ch, NatRebuild(before, hostAddr)), NatPrograms(before, hostAddr), Prefix(last.svc.serviceId),
                NatApply(last.svc, last.eps, hostAddr));
    }
  }
}

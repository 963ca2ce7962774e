/** Why service ids must differ in their first eight characters: two services that share them share chains.
    The one applied last has them to itself, and takes them with it when it goes. */
module ServiceSharing {
  import opened Iptables
  import opened Lists
  import opened Commands
  import opened ServiceRules
  import opened ServiceShape
  import opened Text

  // ---- chain names -----------------------------------------------------------------------------------

  /** The name of a service chain in the table. */
  function ChainName(c: Chain): string
    requires OwnerOf(c) != Nobody
  {
    match c
    case SvcChain(id, port) => "RAIND-SVC-" + id + ("-" + Itoa(port))
    case FwdChain(id) => "RAIND-FWD-" + id
    case SnatChain(id) => "RAIND-SNAT-" + id
  }

  /** Ids being free of dashes, different chains have different names. */
  lemma NamesApart(c: Chain, d: Chain)
    requires OwnerOf(c).Service? && OwnerOf(d).Service? && '-' !in OwnerOf(c).prefix && '-' !in OwnerOf(d).prefix
    requires ChainName(c) == ChainName(d)
    ensures c == d
  {
    NameParts(c);
    NameParts(d);
    hide ChainName, Itoa;
    if c.SvcChain? {
      SplitFirst(c.svc, Itoa(c.port), d.svc, Itoa(d.port), '-');
      ItoaInjective(c.port, d.port);
    }
  }

  lemma NameParts(c: Chain)
    requires OwnerOf(c).Service?
    ensures var a := ChainName(c);
            match c
            case SvcChain(id, port) => |a| > 10 && a[6] == 'S' && a[7] == 'V' && a[10..] == id + ['-'] + Itoa(port)
            case FwdChain(id) => |a| >= 10 && a[6] == 'F' && a[7] == 'W' && a[10..] == id
            case SnatChain(id) => |a| >= 11 && a[6] == 'S' && a[7] == 'N' && a[11..] == id
            case _ => true
  {
    hide Itoa;
    if c.SvcChain? {
      assert ChainName(c)[10..] == c.svc + ("-" + Itoa(c.port));
    }
  }

  /** Two services share their chains exactly when the first eight characters of their ids agree. */
  lemma SharedIff(s: ServiceInfo, t: ServiceInfo)
    ensures FwdOf(s) == FwdOf(t) <==> SnatOf(s) == SnatOf(t)
    ensures FwdOf(s) == FwdOf(t) <==>
            s.serviceId == t.serviceId || (exists head :: |head| == 8 && head <= s.serviceId && head <= t.serviceId)
  {
    if FwdOf(s) == FwdOf(t) && s.serviceId != t.serviceId {
      assert |s.serviceId[..8]| == 8 && s.serviceId[..8] <= s.serviceId && s.serviceId[..8] <= t.serviceId;
    }
  }

  /** However long the id, a chain name keeps within the 28 characters iptables takes. */
  lemma NamesFit(svc: ServiceInfo, port: int)
    requires 0 <= port <= 65535
    ensures |ChainName(SvcOf(svc, port))| <= 28 && |ChainName(FwdOf(svc))| <= 28 && |ChainName(SnatOf(svc))| <= 28
  {
    FewDigits(port, 5);
  }

  function Pow10(k: nat): nat {
    if k == 0 then 1 else 10 * Pow10(k - 1)
  }

  lemma {:induction false} FewDigits(n: nat, k: nat)
    requires k > 0 && n < Pow10(k)
    ensures |Digits(n)| <= k
    decreases k
  {
    if n >= 10 {
      FewDigits(n / 10, k - 1);
    }
  }

  // ---- what sharing does --------------------------------------------------------------------------

  lemma SetupAgain(U: set<Chain>, s: ServiceInfo, es: seq<Endpoint>, t: ServiceInfo)
    requires UnownedFilter(U) && FwdOf(s) == FwdOf(t)
    ensures Run(FilterApplied(U, s, es), FwdSetup(t)) == Bare(U)[Forward := [JumpTo(FwdOf(t))]][FwdOf(t) := []]
  {
    hide Prefix, AcceptOf;
    var c, r, ch := FwdOf(t), JumpTo(FwdOf(t)), FilterApplied(U, s, es);
    assert OwnerOf(c) != Nobody && c != Forward;
    var b1 := ch[c := []];
    assert FwdSetup(t) == [New(c), Flush(c)] + [Delete(Forward, r), Insert(Forward, r)];
    RunConcat(ch, [New(c), Flush(c)], [Delete(Forward, r), Insert(Forward, r)]);
    Run2(ch, New(c), Flush(c));
    Run2(b1, Delete(Forward, r), Insert(Forward, r));
    assert RemoveFirst([r], r) == [];
    assert Installable(b1[Forward := []], Forward, r);
    assert [r] + [] == [r];
  }

  /** Applying a second service with the same prefix leaves the filter table as if the first had never been. */
  lemma SharedPrefixReplaces(U: set<Chain>, s: ServiceInfo, es: seq<Endpoint>, t: ServiceInfo, et: seq<Endpoint>)
    requires UnownedFilter(U) && Prefix(s.serviceId) == Prefix(t.serviceId)
    ensures Run(Run(Bare(U), FilterApply(s, es)), FilterApply(t, et)) == Run(Bare(U), FilterApply(t, et))
    ensures Run(Run(Run(Bare(U), FilterApply(s, es)), FilterApply(t, et)), FilterCleanup(t)) == Bare(U)
  {
    hide Run, Gather, AcceptOf, Prefix, FwdSetup, FilterCleanup;
    FilterIsApplied(U, s, es);
    FilterIsApplied(U, t, et);
    FilterCleanupUndoes(U, t, et);
    SetupAgain(U, s, es, t);
    AcceptsPlain(et, t.ports);
    var ch, rules := FilterApplied(U, s, es), Gather(AcceptOf(et), t.ports);
    RunConcat(ch, FwdSetup(t), Appends(FwdOf(t), rules));
    RunAppends(Run(ch, FwdSetup(t)), FwdOf(t), rules);
    assert [] + rules == rules;
  }

  /** The exact condition: of two services applied one after the other, the first keeps its ACCEPT rules iff the
      prefixes differ, or the second brings the very same rules. */
  lemma FirstKeepsRulesIff(U: set<Chain>, s: ServiceInfo, es: seq<Endpoint>, t: ServiceInfo, et: seq<Endpoint>)
    requires UnownedFilter(U)
    ensures var first := Run(Bare(U), FilterApply(s, es));
            var after := Run(first, FilterApply(t, et));
            && FwdOf(s) in first && FwdOf(s) in after
            && (after[FwdOf(s)] == first[FwdOf(s)] <==>
                Prefix(s.serviceId) != Prefix(t.serviceId) || Gather(AcceptOf(et), t.ports) == Gather(AcceptOf(es), s.ports))
  {
    FilterIsApplied(U, s, es);
    FilterIsApplied(U, t, et);
    if Prefix(s.serviceId) == Prefix(t.serviceId) {
      SharedPrefixReplaces(U, s, es, t, et);
    } else {
      FilterLocal(t, et);
      AppliedIsFlat(U, s, es);
      hide Run, Gather, AcceptOf, Prefix, FilterApply;
      var ch, o := FilterApplied(U, s, es), Service(Prefix(s.serviceId));
      RunLocal(ch, FilterApply(t, et), Prefix(t.serviceId), o);
      var after := Run(ch, FilterApply(t, et));
      assert OwnerOf(FwdOf(s)) == o && FwdOf(s) in View(ch, o) && View(ch, o)[FwdOf(s)] == ch[FwdOf(s)];
      assert FwdOf(s) in View(after, o) && View(after, o)[FwdOf(s)] == after[FwdOf(s)];
    }
  }

  lemma AppliedIsFlat(U: set<Chain>, s: ServiceInfo, es: seq<Endpoint>)
    requires UnownedFilter(U)
    ensures Flat(FilterApplied(U, s, es))
  {
    AcceptsPlain(es, s.ports);
    hide Gather, AcceptOf, Prefix;
    var rules := Gather(AcceptOf(es), s.ports);
    assert forall i :: 0 <= i < |rules| ==> rules[i] in rules;
  }
}

/** What the Service controller keeps true of the two tables, and why that makes a pass as good as a
    clean rebuild. */
module ServiceTracking {
  import opened Iptables
  import opened Commands
  import opened Lists
  import opened Text
  import opened ServiceRules
  import opened ServiceShape
  import opened ServiceKey
  import opened ServiceSync

  // ---- what the controller keeps true ---------------------------------------------------------

  ghost function Prefixes(ids: set<string>): set<string> {
    set id | id in ids :: Prefix(id)
  }

  ghost predicate AppliedOk(applied: map<string, Applied>, links: Links) {
    && (forall id :: id in applied ==> applied[id].svc.serviceId == id && ServiceOk(applied[id].svc) && EndpointsOk(applied[id].eps, links))
    && (forall x, y :: x in applied && y in applied && x != y ==> Prefix(x) != Prefix(y))
  }

  ghost predicate FilterTracks(f: SvcChains, applied: map<string, Applied>, progs: map<string, Program>) {
    && TableSync(f, progs) && UnownedFilter(UnownedOf(f)) && progs.Keys == Prefixes(applied.Keys)
    && forall id :: id in applied && Prefix(id) in progs ==> progs[Prefix(id)] == FilterApply(applied[id].svc, applied[id].eps)
  }

  ghost predicate NatTracks(n: SvcChains, applied: map<string, Applied>, progs: map<string, Program>, hostAddr: string) {
    && TableSync(n, progs) && Unowned(UnownedOf(n)) && progs.Keys == Prefixes(applied.Keys)
    && forall id :: id in applied && Prefix(id) in progs ==> progs[Prefix(id)] == NatApply(applied[id].svc, applied[id].eps, hostAddr)
  }

  lemma PrefixesWith(applied: map<string, Applied>, a: Applied)
    ensures Prefixes((applied[a.svc.serviceId := a]).Keys) == Prefixes(applied.Keys) + {Prefix(a.svc.serviceId)}
    ensures forall id :: id in applied ==> Prefix(id) in Prefixes(applied.Keys)
  {
    hide Prefix;
    assert (applied[a.svc.serviceId := a]).Keys == applied.Keys + {a.svc.serviceId};
    forall id | id in applied
      ensures Prefix(id) in Prefixes(applied.Keys)
    {
      assert id in applied.Keys;
    }
  }

  lemma {:induction false} FilterTrackApply(f: SvcChains, applied: map<string, Applied>, progs: map<string, Program>, a: Applied)
    requires FilterTracks(f, applied, progs)
    requires forall id :: id in applied ==> Prefix(id) != Prefix(a.svc.serviceId)
    ensures FilterTracks(Run(f, FilterApply(a.svc, a.eps)), applied[a.svc.serviceId := a], progs[Prefix(a.svc.serviceId) := FilterApply(a.svc, a.eps)])
    ensures View(Run(f, FilterApply(a.svc, a.eps)), Nobody) == View(f, Nobody)
  {
    hide TableSync, View, FilterApply, Run, UnownedFilter, UnownedOf, Prefix;
    var p, prog := Prefix(a.svc.serviceId), FilterApply(a.svc, a.eps);
    assert p !in progs;
    hide Prefixes;
    FilterLocal(a.svc, a.eps);
    PrefixesWith(applied, a);
    SyncApply(f, progs, p, prog);
    SameNobodySameUnowned(Run(f, prog), f);
  }

  lemma {:induction false} NatTrackApply(n: SvcChains, applied: map<string, Applied>, progs: map<string, Program>, hostAddr: string, a: Applied)
    requires NatTracks(n, applied, progs, hostAddr)
    requires forall id :: id in applied ==> Prefix(id) != Prefix(a.svc.serviceId)
    ensures NatTracks(Run(n, NatApply(a.svc, a.eps, hostAddr)), applied[a.svc.serviceId := a],
                      progs[Prefix(a.svc.serviceId) := NatApply(a.svc, a.eps, hostAddr)], hostAddr)
    ensures View(Run(n, NatApply(a.svc, a.eps, hostAddr)), Nobody) == View(n, Nobody)
  {
    hide TableSync, View, NatApply, Run, Unowned, UnownedOf, Prefix;
    var p, prog := Prefix(a.svc.serviceId), NatApply(a.svc, a.eps, hostAddr);
    assert p !in progs;
    hide Prefixes;
    NatApplyLocal(a.svc, a.eps, hostAddr);
    PrefixesWith(applied, a);
    SyncApply(n, progs, p, prog);
    SameNobodySameUnowned(Run(n, prog), n);
  }

  lemma PrefixesWithout(applied: map<string, Applied>, links: Links, id: string)
    requires AppliedOk(applied, links) && id in applied
    ensures Prefixes((applied - {id}).Keys) == Prefixes(applied.Keys) - {Prefix(id)} && Prefix(id) in Prefixes(applied.Keys)
    ensures AppliedOk(applied - {id}, links)
  {
    hide ServiceOk, EndpointsOk, Prefix;
    assert (applied - {id}).Keys == applied.Keys - {id};
    forall x | x in applied && x != id
      ensures Prefix(x) in Prefixes((applied - {id}).Keys)
    {
      assert x in (applied - {id}).Keys;
    }
  }

  lemma {:induction false} FilterTrackCleanup(f: SvcChains, applied: map<string, Applied>, progs: map<string, Program>, links: Links, id: string)
    requires FilterTracks(f, applied, progs) && AppliedOk(applied, links) && id in applied
    ensures FilterTracks(Run(f, FilterCleanup(applied[id].svc)), applied - {id}, progs - {Prefix(id)})
    ensures View(Run(f, FilterCleanup(applied[id].svc)), Nobody) == View(f, Nobody)
  {
    var a := applied[id];
    FilterLocal(a.svc, a.eps);
    FilterCleanupUndoes(UnownedOf(f), a.svc, a.eps);
    PrefixesWithout(applied, links, id);
    hide TableSync, View, FilterApply, FilterCleanup, Prefix, Run, UnownedFilter, Prefixes, ServiceOk, EndpointsOk;
    SyncCleanup(f, progs, Prefix(id), FilterCleanup(a.svc));
    SameNobodySameUnowned(Run(f, FilterCleanup(a.svc)), f);
  }

  lemma {:induction false} NatTrackCleanup(n: SvcChains, applied: map<string, Applied>, progs: map<string, Program>, hostAddr: string, links: Links, id: string)
    requires NatTracks(n, applied, progs, hostAddr) && AppliedOk(applied, links) && id in applied
    ensures NatTracks(Run(n, NatCleanup(applied[id].svc, hostAddr)), applied - {id}, progs - {Prefix(id)}, hostAddr)
    ensures View(Run(n, NatCleanup(applied[id].svc, hostAddr)), Nobody) == View(n, Nobody)
  {
    var a := applied[id];
    assert WellFormed(a.svc);
    NatCleanupLocal(a.svc, hostAddr);
    NatCleanupUndoes(UnownedOf(n), a.svc, a.eps, hostAddr);
    PrefixesWithout(applied, links, id);
    hide TableSync, View, NatApply, NatCleanup, Prefix, Run, Unowned, Prefixes, ServiceOk, EndpointsOk;
    SyncCleanup(n, progs, Prefix(id), NatCleanup(a.svc, hostAddr));
    SameNobodySameUnowned(Run(n, NatCleanup(a.svc, hostAddr)), n);
  }

  // ---- a pass against a clean rebuild -------------------------------------------------------------

  /** The Services of a pass: their ids and chain prefixes differ, and they are what the stores promise. */
  ghost predicate PassOk(all: seq<Applied>, links: Links) {
    && DistinctPrefixes(all)
    && forall i :: 0 <= i < |all| ==> ServiceOk(all[i].svc) && EndpointsOk(all[i].eps, links)
  }

  /** A Service of a pass that is applied already, under the same key. */
  ghost predicate Fresh(applied: map<string, Applied>, a: Applied) {
    a.svc.serviceId in applied && StateKey(applied[a.svc.serviceId].svc, applied[a.svc.serviceId].eps) == StateKey(a.svc, a.eps)
  }

  predicate Listed(id: string, all: seq<Applied>) {
    exists i :: 0 <= i < |all| && all[i].svc.serviceId == id
  }

  ghost predicate Current(applied: map<string, Applied>, all: seq<Applied>) {
    forall i :: 0 <= i < |all| ==> Fresh(applied, all[i])
  }

  ghost predicate AllListed(applied: map<string, Applied>, all: seq<Applied>) {
    forall id :: id in applied ==> Listed(id, all)
  }

  /** What is applied has the keys of the Services of this pass, and nothing else is applied. */
  ghost predicate UpToDate(applied: map<string, Applied>, all: seq<Applied>) {
    Current(applied, all) && AllListed(applied, all)
  }

  lemma AlikeItself(a: SvcChains)
    ensures Alike(a, a)
  {
  }

  lemma {:induction false} UpToDateProgram(f: SvcChains, n: SvcChains, applied: map<string, Applied>, fp: map<string, Program>, np: map<string, Program>,
                        hostAddr: string, links: Links, all: seq<Applied>, i: nat)
    requires FilterTracks(f, applied, fp) && NatTracks(n, applied, np, hostAddr) && AppliedOk(applied, links)
    requires PassOk(all, links) && UpToDate(applied, all) && i < |all|
    ensures Alike(Run(Bare(UnownedOf(f)), ProgramOf(fp, Prefix(all[i].svc.serviceId))),
                  Run(Bare(UnownedOf(f)), ProgramOf(FilterPrograms(all), Prefix(all[i].svc.serviceId))))
    ensures Alike(Run(Bare(UnownedOf(n)), ProgramOf(np, Prefix(all[i].svc.serviceId))),
                  Run(Bare(UnownedOf(n)), ProgramOf(NatPrograms(all, hostAddr), Prefix(all[i].svc.serviceId))))
  {
    var t := all[i];
    var id := t.svc.serviceId;
    assert Fresh(applied, t);
    var a := applied[id];
    EqualKeys(a.svc, t.svc, a.eps, t.eps, links);
    ProgramsAt(all, hostAddr, i);
    assert ServiceOk(a.svc) && ServiceOk(t.svc) && SameService(a.svc, t.svc);
    assert id in applied.Keys && Prefix(id) in Prefixes(applied.Keys);
    hide TableSync, FilterApply, NatApply, Run, Alike, EndpointsOk, StateKey, SameService, Prefixes;
    SameFilter(UnownedOf(f), a.svc, t.svc, a.eps);
    SameNat(UnownedOf(n), a.svc, t.svc, a.eps, hostAddr);
  }

  lemma NoProgram(f: SvcChains, applied: map<string, Applied>, fp: map<string, Program>, all: seq<Applied>, p: string)
    requires fp.Keys == Prefixes(applied.Keys) && UpToDate(applied, all)
    requires forall i :: 0 <= i < |all| ==> Prefix(all[i].svc.serviceId) != p
    ensures p !in fp
  {
    hide StateKey, Prefix;
    forall id | id in applied.Keys
      ensures Prefix(id) != p
    {
      assert Listed(id, all);
      var i :| 0 <= i < |all| && all[i].svc.serviceId == id;
    }
  }

  /** MAIN: tables that are up to date are those a clean rebuild gives: unmanaged rules as they are,
      and over them each current Service applied once. */
  lemma {:induction false} IncrementalIsRebuild(f: SvcChains, n: SvcChains, applied: map<string, Applied>, fp: map<string, Program>, np: map<string, Program>,
                             hostAddr: string, links: Links, all: seq<Applied>)
    requires FilterTracks(f, applied, fp) && NatTracks(n, applied, np, hostAddr) && AppliedOk(applied, links)
    requires PassOk(all, links) && UpToDate(applied, all)
    ensures SameTable(f, Run(View(f, Nobody), FilterRebuild(all)))
    ensures SameTable(n, Run(View(n, Nobody), NatRebuild(all, hostAddr)))
  {
    UnmanagedIsSync(f);
    UnmanagedIsSync(n);
    RebuildFilter(View(f, Nobody), all);
    RebuildNat(View(n, Nobody), all, hostAddr);
    forall p
      ensures Alike(Run(Bare(UnownedOf(f)), ProgramOf(fp, p)), Run(Bare(UnownedOf(f)), ProgramOf(FilterPrograms(all), p)))
      ensures Alike(Run(Bare(UnownedOf(n)), ProgramOf(np, p)), Run(Bare(UnownedOf(n)), ProgramOf(NatPrograms(all, hostAddr), p)))
    {
      AlikeProgram(f, n, applied, fp, np, hostAddr, links, all, p);
    }
    hide TableSync, View, Run, Alike, UpToDate, AppliedOk, PassOk, FilterRebuild, NatRebuild, FilterPrograms, NatPrograms;
    SyncedTablesAreTheSame(f, Run(View(f, Nobody), FilterRebuild(all)), fp, FilterPrograms(all));
    SyncedTablesAreTheSame(n, Run(View(n, Nobody), NatRebuild(all, hostAddr)), np, NatPrograms(all, hostAddr));
  }

  lemma {:induction false} AlikeProgram(f: SvcChains, n: SvcChains, applied: map<string, Applied>, fp: map<string, Program>, np: map<string, Program>,
                     hostAddr: string, links: Links, all: seq<Applied>, p: string)
    requires FilterTracks(f, applied, fp) && NatTracks(n, applied, np, hostAddr) && AppliedOk(applied, links)
    requires PassOk(all, links) && UpToDate(applied, all)
    ensures Alike(Run(Bare(UnownedOf(f)), ProgramOf(fp, p)), Run(Bare(UnownedOf(f)), ProgramOf(FilterPrograms(all), p)))
    ensures Alike(Run(Bare(UnownedOf(n)), ProgramOf(np, p)), Run(Bare(UnownedOf(n)), ProgramOf(NatPrograms(all, hostAddr), p)))
  {
    if i :| 0 <= i < |all| && Prefix(all[i].svc.serviceId) == p {
      UpToDateProgram(f, n, applied, fp, np, hostAddr, links, all, i);
    } else {
      NoProgram(f, applied, fp, all, p);
      NoProgram(n, applied, np, all, p);
      NoPrograms(all, hostAddr, p);
      hide Run, Alike, FilterTracks, NatTracks, UpToDate, PassOk, AppliedOk;
      AlikeItself(Run(Bare(UnownedOf(f)), []));
      AlikeItself(Run(Bare(UnownedOf(n)), []));
    }
  }
}

/** The policy service itself: it walks networks and policies, sends one iptables command after
    another, and rewrites the policy store as it goes. */
module PolicyService {
  import opened Iptables
  import opened PolicyRules
  import opened PolicyCompiler

  /** No two policies share an id; ids are fresh ULIDs. */
  ghost predicate UniqueIds(ps: seq<Policy>) {
    forall i, j :: 0 <= i < j < |ps| ==> ps[i].id != ps[j].id
  }

  function Ids(ps: seq<Policy>): set<string> {
    set p | p in ps :: p.id
  }

  ghost predicate DistinctIds(np: NetworkPolicy) {
    && UniqueIds(np.eastWest) && UniqueIds(np.nsObserve) && UniqueIds(np.nsEnforce)
    && Ids(np.eastWest) !! Ids(np.nsObserve) && Ids(np.eastWest) !! Ids(np.nsEnforce) && Ids(np.nsObserve) !! Ids(np.nsEnforce)
  }

  /** The position of the first policy with an id, or the length. */
  function IndexOf(ps: seq<Policy>, id: string): (i: nat)
    ensures i <= |ps|
    ensures i < |ps| ==> ps[i].id == id
    ensures forall j :: 0 <= j < i ==> ps[j].id != id
  {
    if ps == [] || ps[0].id == id then 0 else 1 + IndexOf(ps[1..], id)
  }

  function RemoveAt(ps: seq<Policy>, i: nat): seq<Policy>
    requires i < |ps|
  {
    ps[..i] + ps[i + 1..]
  }

  /** The policy store handler. */
  class NpmManager {
    var np: NetworkPolicy

    constructor (initial: NetworkPolicy)
      ensures np == initial
    {
      np := initial;
    }

    method ChangeNSMode(mode: NsMode)
      modifies this
      ensures np == old(np).(nsMode := mode)
    {
      np := np.(nsMode := mode);
    }

    /** Removes the first policy with the id, looking through the three lists in turn. */
    method RemovePolicy(id: string) returns (ok: bool)
      modifies this
      ensures ok <==> exists c :: UserChain(c) && IndexOf(old(np).List(c), id) < |old(np).List(c)|
      ensures var e, o, f := IndexOf(old(np).eastWest, id), IndexOf(old(np).nsObserve, id), IndexOf(old(np).nsEnforce, id);
              np == if e < |old(np).eastWest| then old(np).(eastWest := RemoveAt(old(np).eastWest, e))
                    else if o < |old(np).nsObserve| then old(np).(nsObserve := RemoveAt(old(np).nsObserve, o))
                    else if f < |old(np).nsEnforce| then old(np).(nsEnforce := RemoveAt(old(np).nsEnforce, f))
                    else old(np)
    {
      var e := FindId(np.eastWest, id);
      if e < |np.eastWest| {
        assert UserChain(RaindEW);
        np := np.(eastWest := RemoveAt(np.eastWest, e));
        return true;
      }
      var o := FindId(np.nsObserve, id);
      if o < |np.nsObserve| {
        assert UserChain(RaindNsObs);
        np := np.(nsObserve := RemoveAt(np.nsObserve, o));
        return true;
      }
      var f := FindId(np.nsEnforce, id);
      if f < |np.nsEnforce| {
        assert UserChain(RaindNsEnf);
        np := np.(nsEnforce := RemoveAt(np.nsEnforce, f));
        return true;
      }
      return false;
    }

    /** Drops the policies of one owner kind from a list and appends the wanted ones. */
    method ReplacePoliciesByOwnerKind(c: Chain, kind: string, policies: seq<Policy>)
      requires UserChain(c)
      modifies this
      ensures np == old(np).WithList(c, NotOwnedBy(old(np).List(c), kind) + policies)
    {
      var current, kept := np.List(c), [];
      for i := 0 to |current|
        invariant np == old(np) && kept == NotOwnedBy(current[..i], kind)
      {
        assert current[..i + 1][..i] == current[..i];
        if current[i].ownerKind != kind {
          kept := kept + [current[i]];
        }
      }
      assert current[..|current|] == current;
      np := np.WithList(c, kept + policies);
    }

    method UpdateStatus(c: Chain, id: string, status: Status, reason: string) returns (ok: bool)
      requires UserChain(c)
      modifies this
      ensures var l := old(np).List(c);
              var i := IndexOf(l, id);
              && ok == (i < |l|)
              && np == if ok then old(np).WithList(c, l[i := l[i].(status := status, reason := reason)]) else old(np)
    {
      var l := np.List(c);
      var i := FindId(l, id);
      if i == |l| {
        return false;
      }
      np := np.WithList(c, l[i := l[i].(status := status, reason := reason)]);
      return true;
    }
  }

  function OwnedBy(ps: seq<Policy>, kind: string): seq<Policy> {
    if ps == [] then []
    else OwnedBy(ps[..|ps| - 1], kind) + if ps[|ps| - 1].ownerKind == kind then [ps[|ps| - 1]] else []
  }

  function NotOwnedBy(ps: seq<Policy>, kind: string): seq<Policy> {
    if ps == [] then []
    else NotOwnedBy(ps[..|ps| - 1], kind) + if ps[|ps| - 1].ownerKind == kind then [] else [ps[|ps| - 1]]
  }

  method FindId(ps: seq<Policy>, id: string) returns (i: nat)
    ensures i == IndexOf(ps, id)
  {
    i := 0;
    while i < |ps|
      invariant 0 <= i <= |ps|
      invariant IndexOf(ps, id) == i + IndexOf(ps[i..], id)
    {
      if ps[i].id == id {
        return;
      }
      assert ps[i..][1..] == ps[i + 1..];
      i := i + 1;
    }
  }

  /** What AddRuleToChain writes on the command line: no addresses, --syn for tcp only. */
  function AddedModel(m: RuleModel): RuleModel {
    m.(source := AnyAddr, destination := AnyAddr, syn := m.syn && m.protocol == "tcp")
  }

  /** What InsertRuleToChain writes on the command line: no --syn. */
  function InsertedModel(m: RuleModel): RuleModel {
    m.(syn := false)
  }

  /** Ports are in range and come with a protocol that has ports. */
  predicate PortsTaken(m: RuleModel) {
    && (m.sourcePort > 0 || m.destPort > 0 ==> m.protocol in {"tcp", "udp", "udplite", "sctp", "dccp"})
    && m.sourcePort <= 65535 && m.destPort <= 65535
  }

  /** Which packets a written rule matches: an appended one all those of the model without its addresses, and
      only the first packets of TCP connections if it asks for them; an inserted one does not ask. */
  lemma WrittenMeans(m: RuleModel, pkt: Packet)
    ensures Matches(AddedModel(m), pkt) <==>
            Matches(m.(source := AnyAddr, destination := AnyAddr, syn := false), pkt) && (m.syn && m.protocol == "tcp" ==> pkt.syn)
    ensures Matches(m, pkt) ==> Matches(InsertedModel(m), pkt)
    ensures Matches(InsertedModel(m), pkt) && (m.syn ==> pkt.syn) ==> Matches(m, pkt)
    ensures InsertedModel(m) == InsertedModel(m.(syn := !m.syn))
    ensures AddedModel(m).nflogGroup == InsertedModel(m).nflogGroup == m.nflogGroup
    ensures AddedModel(m).nflogPrefix == InsertedModel(m).nflogPrefix == m.nflogPrefix
  {
  }

  class IptablesManager {
    const table: Table<RuleModel>

    constructor (table: Table<RuleModel>)
      ensures this.table == table
    {
      this.table := table;
    }

    /** An existing chain is flushed, a missing one created: either way it ends empty. */
    method CreateChain(c: Chain) returns (ok: bool)
      modifies table
      ensures ok && table.chains == old(table.chains)[c := []]
    {
      var exists_ := table.Exists(c);
      if exists_ {
        ok := table.Flush(c);
      } else {
        ok := table.NewChain(c);
      }
    }

    method InsertForwardRule(c: Chain) returns (ok: bool)
      requires Forward in table.chains && c in table.chains
      modifies table
      ensures ok && table.chains == old(table.chains)[Forward := InsertOnce(old(table.chains)[Forward], Rule(ANYTHING, Jump(c)))]
    {
      var r := Rule(ANYTHING, Jump(c));
      var present := table.Check(Forward, r);
      if present {
        assert table.chains == old(table.chains)[Forward := old(table.chains)[Forward]];
        return true;
      }
      ok := table.InsertHead(Forward, r);
    }

    /** Check, then append. */
    method AddRuleToChain(c: Chain, m: RuleModel, action: Target) returns (ok: bool)
      requires c in table.chains && (action.Jump? ==> action.chain in table.chains)
      modifies table
      ensures ok == AcceptedByIptables(AddedModel(m))
      ensures ok <==> PortsTaken(m)
      ensures ok ==> table.chains == old(table.chains)[c := AddOnce(old(table.chains)[c], Rule(AddedModel(m), action))]
      ensures !ok ==> table.chains == old(table.chains)
    {
      if !AcceptedByIptables(AddedModel(m)) {
        return false;
      }
      var r := Rule(AddedModel(m), action);
      var present := table.Check(c, r);
      if present {
        assert table.chains == old(table.chains)[c := old(table.chains)[c]];
        return true;
      }
      ok := table.Append(c, r);
    }

    /** Check, then insert at the head. */
    method InsertRuleToChain(c: Chain, m: RuleModel, action: Target) returns (ok: bool)
      requires c in table.chains && (action.Jump? ==> action.chain in table.chains)
      modifies table
      ensures ok == AcceptedByIptables(InsertedModel(m))
      ensures ok <==> PortsTaken(m)
      ensures ok ==> table.chains == old(table.chains)[c := InsertOnce(old(table.chains)[c], Rule(InsertedModel(m), action))]
      ensures !ok ==> table.chains == old(table.chains)
    {
      if !AcceptedByIptables(InsertedModel(m)) {
        return false;
      }
      var r := Rule(InsertedModel(m), action);
      var present := table.Check(c, r);
      if present {
        assert table.chains == old(table.chains)[c := old(table.chains)[c]];
        return true;
      }
      ok := table.InsertHead(c, r);
    }
  }

  // ---- list lemmas for the store loops ---------------------------------------------------

  lemma {:induction false} CommitListIds(c: Chain, ps: seq<Policy>, env: Env)
    ensures Ids(CommitList(c, ps, env)) <= Ids(ps)
    ensures UniqueIds(ps) ==> UniqueIds(CommitList(c, ps, env))
    decreases |ps|
  {
    if ps != [] {
      var init, last := ps[..|ps| - 1], ps[|ps| - 1];
      CommitListIds(c, init, env);
      CommitOneId(c, last, env);
      assert CommitList(c, ps, env) == CommitList(c, init, env) + CommitOne(c, last, env) && ps == init + [last];
      hide CommitList, CommitOne, Ids, UniqueIds;
      InitUnique(init, last);
      IdsAtMost(init, last, CommitList(c, init, env), CommitOne(c, last, env));
    }
  }

  lemma CommitOneId(c: Chain, p: Policy, env: Env)
    ensures |CommitOne(c, p, env)| <= 1 && forall q :: q in CommitOne(c, p, env) ==> q.id == p.id
  {
    hide Effective, Resolves, HasVeth;
  }

  lemma InitUnique(init: seq<Policy>, last: Policy)
    ensures UniqueIds(init + [last]) ==> UniqueIds(init)
  {
    assert forall i :: 0 <= i < |init| ==> (init + [last])[i] == init[i];
  }

  lemma IdsAtMost(init: seq<Policy>, last: Policy, done: seq<Policy>, one: seq<Policy>)
    requires Ids(done) <= Ids(init) && |one| <= 1 && forall q :: q in one ==> q.id == last.id
    ensures Ids(done + one) <= Ids(init + [last])
    ensures UniqueIds(init + [last]) && (UniqueIds(init) ==> UniqueIds(done)) ==> UniqueIds(done + one)
  {
    var ps := init + [last];
    assert last in ps && forall p :: p in init ==> p in ps;
    forall q | q in done + one
      ensures q.id in Ids(ps)
    {
      assert q in done ==> q.id in Ids(done);
    }
    if UniqueIds(ps) {
      forall i | 0 <= i < |done|
        ensures done[i].id != last.id
      {
        assert done[i] in done && done[i].id in Ids(done) && done[i].id in Ids(init);
        var p :| p in init && p.id == done[i].id;
        var j :| 0 <= j < |init| && init[j] == p;
        assert ps[j] == p && ps[|init|] == last;
      }
      assert forall i, j :: 0 <= i < j < |init| ==> ps[i] == init[i] && ps[j] == init[j];
    }
  }

  lemma {:induction false} CommitKeepsDistinct(c: Chain, np: NetworkPolicy, env: Env)
    requires DistinctIds(np) && UserChain(c)
    ensures DistinctIds(np.WithList(c, CommitList(c, np.List(c), env)))
  {
    CommitListIds(c, np.List(c), env);
  }

  lemma {:induction false} CommitListStep(c: Chain, ps: seq<Policy>, k: nat, env: Env)
    requires k < |ps|
    ensures CommitList(c, ps[..k + 1], env) == CommitList(c, ps[..k], env) + CommitOne(c, ps[k], env)
  {
    assert ps[..k + 1][..k] == ps[..k];
  }

  lemma {:induction false} UserRulesStep(c: Chain, ps: seq<Policy>, k: nat, env: Env, logging: bool)
    requires k < |ps|
    ensures UserRules(c, ps[..k + 1], env, logging) == UserRules(c, ps[..k], env, logging) + RulesOf(c, ps[k], env, logging)
  {
    assert ps[..k + 1][..k] == ps[..k];
  }

  lemma EachNetworkStep(before: seq<FwRule>, networks: seq<string>, i: nat, f: string -> seq<FwRule>)
    requires i < |networks|
    ensures before + EachNetwork(networks[..i + 1], f) == before + EachNetwork(networks[..i], f) + f(networks[i])
  {
    assert networks[..i + 1][..i] == networks[..i];
  }

  /** A rule that AddRuleToChain writes just as it is, and iptables takes. */
  predicate Plain(r: FwRule) {
    AddedModel(r.match_) == r.match_ && AcceptedByIptables(r.match_) && !r.target.Jump?
  }

  lemma PredefinedArePlain(host: string, n: string)
    ensures Plain(EWLogRule(n)) && Plain(EWDropRule(n)) && Plain(CROSS_LOG) && Plain(CROSS_DROP) && Plain(RETURN_RULE)
    ensures Plain(ObsInbound(host, n, "tcp")) && Plain(ObsInbound(host, n, "udp"))
    ensures Plain(ObsOutbound(host, n)) && Plain(ObsAccept(host, n))
    ensures Plain(EnfLogRule(host, n)) && Plain(EnfDropRule(host, n))
  {
  }

  lemma EWPerNetwork()
    ensures forall n :: Plain(EWLogRule(n)) && EWLog(n) == [EWLogRule(n)]
    ensures forall n :: Plain(EWDropRule(n)) && EWDrop(n) == [EWDropRule(n)]
    ensures Plain(CROSS_LOG) && Plain(CROSS_DROP) && Plain(RETURN_RULE)
  {
  }

  function EnfLogOf(host: string): string -> FwRule {
    n => EnfLogRule(host, n)
  }

  function EnfDropOf(host: string): string -> FwRule {
    n => EnfDropRule(host, n)
  }

  lemma EnfPerNetwork(host: string)
    ensures forall n :: Plain(EnfLogOf(host)(n)) && EnfLog(host)(n) == [EnfLogOf(host)(n)]
    ensures forall n :: Plain(EnfDropOf(host)(n)) && EnfDrop(host)(n) == [EnfDropOf(host)(n)]
    ensures Plain(RETURN_RULE)
  {
  }

  lemma NothingAdded()
    ensures AddAll<FwRule>([], []) == []
  {
  }

  lemma ObsNetworkIs(host: string, n: string, nflog: bool)
    ensures ObsNetwork(host, nflog)(n) ==
            (if nflog then [ObsInbound(host, n, "tcp"), ObsInbound(host, n, "udp"), ObsOutbound(host, n)] else []) + [ObsAccept(host, n)]
  {
  }

  lemma StartEmpty(networks: seq<string>, f: string -> seq<FwRule>)
    ensures AddAll([], [] + EachNetwork(networks[..0], f)) == []
  {
    assert networks[..0] == [] && [] + EachNetwork(networks[..0], f) == [];
  }

  function Replaced(ps: seq<Policy>, k: nat, with_: seq<Policy>): seq<Policy>
    requires k < |ps|
  {
    ps[..k] + with_ + ps[k + 1..]
  }

  lemma {:induction false} FirstIndex(ps: seq<Policy>, k: nat)
    requires UniqueIds(ps) && k < |ps|
    ensures IndexOf(ps, ps[k].id) == k
    ensures RemoveAt(ps, k) == Replaced(ps, k, [])
  {
    hide IndexOf;
    assert ps[..k] + [] == ps[..k];
    var i := IndexOf(ps, ps[k].id);
    assert i <= k;
  }

  lemma {:induction false} NotElsewhere(ps: seq<Policy>, id: string)
    ensures id !in Ids(ps) ==> IndexOf(ps, id) == |ps|
  {
    var i := IndexOf(ps, id);
    if i < |ps| {
      assert ps[i].id in Ids(ps);
    }
  }

  lemma UserModelsArePlain(c: Chain, p: Policy, env: Env)
    requires UserChain(c)
    ensures Resolves(c, p, env) ==>
              && InsertedModel(UserModel(c, p, env)) == UserModel(c, p, env)
              && InsertedModel(UserLogRule(c, p, env).match_) == UserLogRule(c, p, env).match_
              && AcceptedByIptables(UserLogRule(c, p, env).match_) == AcceptedByIptables(UserModel(c, p, env))
  {
  }

  /** What becomes of one policy, case by case. */
  lemma {:induction false} CommitCases(c: Chain, p: Policy, env: Env, rules: seq<FwRule>)
    requires UserChain(c)
    ensures Effective(c, p, env) <==>
            p.status != RemoveNextCommit && Resolves(c, p, env) && AcceptedByIptables(UserModel(c, p, env))
    ensures p.status == RemoveNextCommit ==> CommitOne(c, p, env) == []
    ensures p.status != RemoveNextCommit && !HasVeth(env, p.source.containerName) ==>
              CommitOne(c, p, env) == [p.(status := Unresolved, reason := NotFound(p.source.containerName))]
    ensures p.status != RemoveNextCommit && HasVeth(env, p.source.containerName) && !Resolves(c, p, env) ==>
              CommitOne(c, p, env) == [p.(status := Unresolved, reason := NotFound(p.destination.containerName))]
    ensures p.status != RemoveNextCommit && Resolves(c, p, env) ==>
              CommitOne(c, p, env) == [if Effective(c, p, env) then p.(status := Applied, reason := "") else p]
    ensures InsertAll(rules, []) == rules
    ensures Resolves(c, p, env) ==>
              InsertAll(rules, [UserRule(c, p, env)]) == InsertOnce(rules, UserRule(c, p, env))
              && InsertAll(rules, [UserRule(c, p, env)] + [UserLogRule(c, p, env)]) ==
                 InsertOnce(InsertOnce(rules, UserRule(c, p, env)), UserLogRule(c, p, env))
  {
    hide UserModel, AcceptedByIptables;
    if Resolves(c, p, env) {
      InsertAllSnoc(rules, [], UserRule(c, p, env));
      InsertAllSnoc(rules, [UserRule(c, p, env)], UserLogRule(c, p, env));
      assert [] + [UserRule(c, p, env)] == [UserRule(c, p, env)];
    }
  }

  lemma SameReplaced(l: seq<Policy>, k: nat)
    requires k < |l|
    ensures Replaced(l, k, [l[k]]) == l
  {
  }

  /** After i turns the first i policies are committed, the rest untouched, and their rules stacked. */
  ghost predicate InLoop(c: Chain, np0: NetworkPolicy, np: NetworkPolicy, env: Env, logging: bool,
                         c0: FwChains, chains: FwChains, i: nat) {
    && UserChain(c) && i <= |np0.List(c)| && c in c0
    && np == np0.WithList(c, CommitList(c, np0.List(c)[..i], env) + np0.List(c)[i..])
    && chains == c0[c := InsertAll(c0[c], UserRules(c, np0.List(c)[..i], env, logging))]
  }

  lemma LoopStart(c: Chain, np: NetworkPolicy, env: Env, logging: bool, chains: FwChains)
    requires UserChain(c) && c in chains
    ensures InLoop(c, np, np, env, logging, chains, chains, 0)
  {
    var ps := np.List(c);
    assert ps[..0] == [] && CommitList(c, ps[..0], env) + ps[0..] == ps;
    assert chains[c := chains[c]] == chains;
  }

  lemma {:induction false} LoopTurn(c: Chain, np0: NetworkPolicy, np: NetworkPolicy, env: Env, logging: bool,
                 c0: FwChains, chains: FwChains, i: nat)
    requires InLoop(c, np0, np, env, logging, c0, chains, i) && i < |np0.List(c)| && DistinctIds(np0)
    ensures var k := |CommitList(c, np0.List(c)[..i], env)|;
            var p := np0.List(c)[i];
            && DistinctIds(np) && k < |np.List(c)| && np.List(c)[k] == p
            && InLoop(c, np0, np.WithList(c, Replaced(np.List(c), k, CommitOne(c, p, env))), env, logging, c0,
                      chains[c := InsertAll(chains[c], RulesOf(c, p, env, logging))], i + 1)
  {
    hide CommitList, CommitOne, UserRules, RulesOf, InsertAll, UniqueIds;
    var ps := np0.List(c);
    var done, p := CommitList(c, ps[..i], env), ps[i];
    MiddleDistinct(c, np0, env, i);
    CommitListStep(c, ps, i, env);
    UserRulesStep(c, ps, i, env, logging);
    ReplaceMiddle(done, ps, i, CommitOne(c, p, env));
    InsertAllConcat(c0[c], UserRules(c, ps[..i], env, logging), RulesOf(c, p, env, logging));
  }

  lemma ReplaceMiddle(done: seq<Policy>, ps: seq<Policy>, i: nat, one: seq<Policy>)
    requires i < |ps|
    ensures (done + ps[i..])[|done|] == ps[i]
    ensures Replaced(done + ps[i..], |done|, one) == (done + one) + ps[i + 1..]
  {
    assert (done + ps[i..])[|done| + 1..] == ps[i + 1..];
  }

  lemma {:induction false} InsertAllConcat<T>(base: seq<T>, a: seq<T>, b: seq<T>)
    ensures InsertAll(base, a + b) == InsertAll(InsertAll(base, a), b)
    decreases |b|
  {
    if b == [] {
      assert a + b == a;
    } else {
      var init, last := b[..|b| - 1], b[|b| - 1];
      InsertAllConcat(base, a, init);
      assert a + b == (a + init) + [last];
      InsertAllSnoc(base, a + init, last);
    }
  }

  lemma {:induction false} MiddleDistinct(c: Chain, np: NetworkPolicy, env: Env, i: nat)
    requires UserChain(c) && DistinctIds(np) && i <= |np.List(c)|
    ensures DistinctIds(np.WithList(c, CommitList(c, np.List(c)[..i], env) + np.List(c)[i..]))
  {
    var ps := np.List(c);
    var done := CommitList(c, ps[..i], env);
    CommitListIds(c, ps[..i], env);
    var all := done + ps[i..];
    forall q: Policy | q in all
      ensures q.id in Ids(ps)
    {
      if q in done {
        assert q.id in Ids(done);
        var p :| p in ps[..i] && p.id == q.id;
      }
    }
    forall a, b | 0 <= a < b < |all|
      ensures all[a].id != all[b].id
    {
      if a < |done| <= b {
        assert done[a].id in Ids(done);
        var p :| p in ps[..i] && p.id == done[a].id;
        assert all[b] == ps[i + (b - |done|)];
      } else if a >= |done| {
        assert all[a] == ps[i + (a - |done|)] && all[b] == ps[i + (b - |done|)];
      }
    }
  }

  lemma {:induction false} LoopEnd(c: Chain, np0: NetworkPolicy, np: NetworkPolicy, env: Env, logging: bool, c0: FwChains, chains: FwChains)
    requires InLoop(c, np0, np, env, logging, c0, chains, |np0.List(c)|) && DistinctIds(np0)
    ensures np == np0.WithList(c, CommitList(c, np0.List(c), env))
    ensures DistinctIds(np)
    ensures chains == c0[c := InsertAll(c0[c], UserRules(c, np0.List(c), env, logging))]
  {
    var ps := np0.List(c);
    assert ps[..|ps|] == ps && CommitList(c, ps, env) + ps[|ps|..] == CommitList(c, ps, env);
    CommitKeepsDistinct(c, np0, env);
  }

  function Fixed(np: NetworkPolicy): NetworkPolicy {
    np.(nsMode := FixMode(np.nsMode))
  }

  /** The table between the two halves of a commit. Without a default interface the north-south
      part is missing and the commit stops here. */
  function PredefinedChains(c0: FwChains, np: NetworkPolicy, env: Env): FwChains
    requires Forward in c0
  {
    var ns := env.hostInterface != "";
    c0[Forward := WithForwardJump(c0[Forward])]
      [RaindRoot := RootRules(np.nsMode == Enforce)]
      [RaindEW := AddAll([], EWRules(env.networks, np.ewLogging))]
      [RaindNsObs := if ns && np.nsMode != Enforce then AddAll([], ObsRules(env.networks, env.hostInterface, np.nsLogging)) else []]
      [RaindNsEnf := if ns && np.nsMode == Enforce then AddAll([], EnfRules(env.networks, env.hostInterface, np.nsLogging)) else []]
  }

  /** The chains come out the same whatever order they were emptied and filled in. */
  lemma BuildOrder(c0: FwChains, f: seq<FwRule>, r: seq<FwRule>, e: seq<FwRule>, o: seq<FwRule>, n: seq<FwRule>)
    ensures var cleared := c0[RaindRoot := []][RaindEW := []][RaindNsObs := []][RaindNsEnf := []];
            && cleared[Forward := f][RaindRoot := r][RaindEW := e] == c0[Forward := f][RaindRoot := r][RaindEW := e][RaindNsObs := []][RaindNsEnf := []]
            && cleared[Forward := f][RaindRoot := r][RaindEW := e][RaindNsObs := o] == c0[Forward := f][RaindRoot := r][RaindEW := e][RaindNsObs := o][RaindNsEnf := []]
            && cleared[Forward := f][RaindRoot := r][RaindEW := e][RaindNsEnf := n] == c0[Forward := f][RaindRoot := r][RaindEW := e][RaindNsObs := []][RaindNsEnf := n]
  {
  }

  function StackUserRules(c1: FwChains, np: NetworkPolicy, env: Env): FwChains
    requires RaindEW in c1 && RaindNsObs in c1 && RaindNsEnf in c1
  {
    c1[RaindEW := InsertAll(c1[RaindEW], UserRules(RaindEW, np.eastWest, env, np.ewLogging))]
      [RaindNsObs := InsertAll(c1[RaindNsObs], UserRules(RaindNsObs, np.nsObserve, env, np.nsLogging))]
      [RaindNsEnf := InsertAll(c1[RaindNsEnf], UserRules(RaindNsEnf, np.nsEnforce, env, np.nsLogging))]
  }

  function CommitLists(np: NetworkPolicy, env: Env): NetworkPolicy {
    np.(eastWest := CommitList(RaindEW, np.eastWest, env),
    nsObserve := CommitList(RaindNsObs, np.nsObserve, env),
    nsEnforce := CommitList(RaindNsEnf, np.nsEnforce, env))
  }

  lemma CommitIsTwoStages(c0: FwChains, np: NetworkPolicy, env: Env)
    requires Forward in c0 && Configured(env)
    ensures CommitChains(c0, np, env) == StackUserRules(PredefinedChains(c0, np, env), np, env)
  {
    hide EWRules, ObsRules, EnfRules, RootRules, AddAll, InsertAll, UserRules;
    NothingAdded();
    var c1 := PredefinedChains(c0, np, env);
    assert c1[RaindEW] == AddAll([], BaseRules(RaindEW, np, env));
    assert c1[RaindNsObs] == AddAll([], BaseRules(RaindNsObs, np, env));
    assert c1[RaindNsEnf] == AddAll([], BaseRules(RaindNsEnf, np, env));
  }

  // ---- the service ----------------------------------------------------------------------

  /** A marked mode comes into force, any other stays. */
  predicate ModeSettled(before: NsMode, after: NsMode) {
    && (before == EnforceNextCommit ==> after == Enforce)
    && (before == ObserveNextCommit ==> after == Observe)
    && (before == Enforce || before == Observe ==> after == before)
  }

  class ServicePolicy {
    const npm: NpmManager
    const iptables: IptablesManager

    constructor (npm: NpmManager, iptables: IptablesManager)
      ensures this.npm == npm && this.iptables == iptables
    {
      this.npm := npm;
      this.iptables := iptables;
    }

    ghost function Chains(): FwChains
      reads iptables.table
    {
      iptables.table.chains
    }

    /** ChangeNSMode only marks the mode; the next commit switches it. */
    method ChangeNSMode(mode: NsMode) returns (ok: bool)
      modifies npm
      ensures ok ==> ModeSettled(npm.np.nsMode, mode)
      ensures ok <==> (mode == Observe || mode == Enforce) && old(npm.np).nsMode != mode
      ensures npm.np == if ok then old(npm.np).(nsMode := if mode == Observe then ObserveNextCommit else EnforceNextCommit)
                        else old(npm.np)
    {
      if mode != Observe && mode != Enforce {
        return false;
      }
      if npm.np.nsMode == mode {
        return false;
      }
      npm.ChangeNSMode(if mode == Observe then ObserveNextCommit else EnforceNextCommit);
      return true;
    }

    method FixNSMode()
      modifies npm
      ensures npm.np == old(npm.np).(nsMode := FixMode(old(npm.np).nsMode))
      ensures ModeSettled(old(npm.np).nsMode, npm.np.nsMode)
    {
      var current := npm.np.nsMode;
      if current == Observe || current == Enforce {
        return;
      }
      npm.ChangeNSMode(FixMode(current));
    }

    method CreateChains()
      modifies iptables.table
      ensures Chains() == old(Chains())[RaindRoot := []][RaindEW := []][RaindNsObs := []][RaindNsEnf := []]
    {
      var ok := iptables.CreateChain(RaindRoot);
      ok := iptables.CreateChain(RaindEW);
      ok := iptables.CreateChain(RaindNsObs);
      ok := iptables.CreateChain(RaindNsEnf);
    }

    method BuildRaindRootChain(enforce: bool) returns (ok: bool)
      requires RaindRoot in Chains() && Chains()[RaindRoot] == []
      requires RaindEW in Chains() && RaindNsObs in Chains() && RaindNsEnf in Chains()
      modifies iptables.table
      ensures ok && Chains() == old(Chains())[RaindRoot := RootRules(enforce)]
    {
      var c0 := Chains();
      ok := iptables.AddRuleToChain(RaindRoot, ANYTHING.(conntrack := true, ctstate := [Established, Related]), Accept);
      ok := iptables.AddRuleToChain(RaindRoot, ANYTHING, Jump(RaindEW));
      if enforce {
        ok := iptables.AddRuleToChain(RaindRoot, ANYTHING, Jump(RaindNsEnf));
      } else {
        ok := iptables.AddRuleToChain(RaindRoot, ANYTHING, Jump(RaindNsObs));
      }
      ok := iptables.AddRuleToChain(RaindRoot, ANYTHING, Return);
      assert Chains()[RaindRoot] == RootRules(enforce);
    }

    /** One predefined rule, added behind the deduplicated list built so far. */
    method AddPredefined(c: Chain, r: FwRule, ghost list: seq<FwRule>) returns (ok: bool)
      requires Plain(r) && c in Chains() && Chains()[c] == AddAll([], list)
      modifies iptables.table
      ensures ok && Chains() == old(Chains())[c := AddAll([], list + [r])]
    {
      AddAllSnoc([], list, r);
      ok := iptables.AddRuleToChain(c, r.match_, r.target);
    }

    /** One predefined rule for each network, in list order. */
    method AddPerNetwork(c: Chain, networks: seq<string>, rule: string -> FwRule,
                         ghost f: string -> seq<FwRule>, ghost before: seq<FwRule>) returns (ok: bool)
      requires forall n :: Plain(rule(n)) && f(n) == [rule(n)]
      requires c in Chains() && Chains()[c] == AddAll([], before)
      modifies iptables.table
      ensures ok && Chains() == old(Chains())[c := AddAll([], before + EachNetwork(networks, f))]
    {
      hide AddAll, Plain;
      ghost var c0 := Chains();
      ok := true;
      assert before + EachNetwork(networks[..0], f) == before;
      for i := 0 to |networks|
        invariant ok && Chains() == c0[c := AddAll([], before + EachNetwork(networks[..i], f))]
      {
        EachNetworkStep(before, networks, i, f);
        ok := AddPredefined(c, rule(networks[i]), before + EachNetwork(networks[..i], f));
      }
      assert networks[..|networks|] == networks;
    }

    method BuildRaindEWChain(networks: seq<string>, nflog: bool) returns (ok: bool)
      requires RaindEW in Chains() && Chains()[RaindEW] == []
      modifies iptables.table
      ensures ok && Chains() == old(Chains())[RaindEW := AddAll([], EWRules(networks, nflog))]
    {
      hide Plain, AddAll, EachNetwork, EWLogRule, EWDropRule, EWLog, EWDrop;
      EWPerNetwork();
      ghost var logs := if nflog then EachNetwork(networks, EWLog) else [];
      ghost var cross := if nflog then [CROSS_LOG] else [];
      ghost var drops := EachNetwork(networks, EWDrop);
      NothingAdded();
      if nflog {
        ok := AddPerNetwork(RaindEW, networks, EWLogRule, EWLog, []);
        assert [] + logs == logs;
      }
      ok := AddPerNetwork(RaindEW, networks, EWDropRule, EWDrop, logs);
      if nflog {
        ok := AddPredefined(RaindEW, CROSS_LOG, logs + drops);
      }
      assert !nflog ==> logs + drops + cross == logs + drops;
      ok := AddPredefined(RaindEW, CROSS_DROP, logs + drops + cross);
      ok := AddPredefined(RaindEW, RETURN_RULE, logs + drops + cross + [CROSS_DROP]);
    }

    /** One network's turn: the log lines, then the ACCEPT they announce. */
    method AddObsNetwork(n: string, hostInterface: string, nflog: bool, ghost before: seq<FwRule>) returns (ok: bool)
      requires RaindNsObs in Chains() && Chains()[RaindNsObs] == AddAll([], before)
      modifies iptables.table
      ensures ok && Chains() == old(Chains())[RaindNsObs := AddAll([], before + ObsNetwork(hostInterface, nflog)(n))]
    {
      hide AddAll, Plain, ObsInbound, ObsOutbound, ObsAccept, ObsNetwork;
      PredefinedArePlain(hostInterface, n);
      ObsNetworkIs(hostInterface, n, nflog);
      var accept := ObsAccept(hostInterface, n);
      if nflog {
        var t, u, o := ObsInbound(hostInterface, n, "tcp"), ObsInbound(hostInterface, n, "udp"), ObsOutbound(hostInterface, n);
        ok := AddPredefined(RaindNsObs, t, before);
        ok := AddPredefined(RaindNsObs, u, before + [t]);
        ok := AddPredefined(RaindNsObs, o, before + [t] + [u]);
        ok := AddPredefined(RaindNsObs, accept, before + [t] + [u] + [o]);
        assert before + [t] + [u] + [o] + [accept] == before + ([t, u, o] + [accept]);
      } else {
        ok := AddPredefined(RaindNsObs, accept, before);
        assert [] + [accept] == [accept];
      }
    }

    method BuildRaindNSObserveChain(networks: seq<string>, hostInterface: string, nflog: bool) returns (ok: bool)
      requires RaindNsObs in Chains() && Chains()[RaindNsObs] == []
      modifies iptables.table
      ensures ok == (hostInterface != "")
      ensures Chains() == if ok then old(Chains())[RaindNsObs := AddAll([], ObsRules(networks, hostInterface, nflog))] else old(Chains())
    {
      hide AddAll, Plain, ObsInbound, ObsOutbound, ObsAccept, ObsNetwork;
      if hostInterface == "" {
        return false;
      }
      ghost var c0 := Chains();
      ghost var f := ObsNetwork(hostInterface, nflog);
      ok := true;
      StartEmpty(networks, f);
      for i := 0 to |networks|
        invariant ok && Chains() == c0[RaindNsObs := AddAll([], [] + EachNetwork(networks[..i], f))]
      {
        ok := AddObsNetwork(networks[i], hostInterface, nflog, [] + EachNetwork(networks[..i], f));
        EachNetworkStep([], networks, i, f);
      }
      assert networks[..|networks|] == networks && [] + EachNetwork(networks, f) == EachNetwork(networks, f);
      PredefinedArePlain("", "");
      ok := AddPredefined(RaindNsObs, RETURN_RULE, EachNetwork(networks, f));
    }

    method BuildRaindNSEnforceChain(networks: seq<string>, hostInterface: string, nflog: bool) returns (ok: bool)
      requires RaindNsEnf in Chains() && Chains()[RaindNsEnf] == []
      modifies iptables.table
      ensures ok == (hostInterface != "")
      ensures Chains() == if ok then old(Chains())[RaindNsEnf := AddAll([], EnfRules(networks, hostInterface, nflog))] else old(Chains())
    {
      hide Plain, AddAll, EachNetwork, EnfLogRule, EnfDropRule, EnfLog, EnfDrop;
      if hostInterface == "" {
        return false;
      }
      EnfPerNetwork(hostInterface);
      ghost var l, d := EnfLog(hostInterface), EnfDrop(hostInterface);
      ghost var logs := if nflog then EachNetwork(networks, l) else [];
      NothingAdded();
      if nflog {
        ok := AddPerNetwork(RaindNsEnf, networks, EnfLogOf(hostInterface), l, []);
        assert [] + logs == logs;
      }
      ok := AddPerNetwork(RaindNsEnf, networks, EnfDropOf(hostInterface), d, logs);
      ok := AddPredefined(RaindNsEnf, RETURN_RULE, logs + EachNetwork(networks, d));
    }

    /** Removing, marking or updating p replaces it in its list by what a commit leaves of it. */
    ghost predicate PlacedAt(np: NetworkPolicy, c: Chain, p: Policy, k: nat) {
      && UserChain(c) && k < |np.List(c)| && np.List(c)[k] == p
      && DistinctIds(np)
    }

    method SetStatus(c: Chain, p: Policy, status: Status, reason: string, ghost k: nat) returns (ok: bool)
      requires PlacedAt(npm.np, c, p, k)
      modifies npm
      ensures ok && npm.np == old(npm.np).WithList(c, Replaced(old(npm.np).List(c), k, [p.(status := status, reason := reason)]))
    {
      ghost var l, q := npm.np.List(c), p.(status := status, reason := reason);
      FirstIndex(l, k);
      assert l[k := q] == Replaced(l, k, [q]);
      ok := npm.UpdateStatus(c, p.id, status, reason);
    }

    method Discard(c: Chain, p: Policy, ghost k: nat) returns (ok: bool)
      requires PlacedAt(npm.np, c, p, k)
      modifies npm
      ensures ok && npm.np == old(npm.np).WithList(c, Replaced(old(npm.np).List(c), k, []))
    {
      FirstIndex(npm.np.List(c), k);
      assert p.id in Ids(npm.np.List(c));
      NotElsewhere(npm.np.eastWest, p.id);
      NotElsewhere(npm.np.nsObserve, p.id);
      NotElsewhere(npm.np.nsEnforce, p.id);
      ok := npm.RemovePolicy(p.id);
    }

    /** One turn of the east-west loop. */
    method ApplyEWPolicy(p: Policy, env: Env, logging: bool, ghost k: nat)
      requires PlacedAt(npm.np, RaindEW, p, k)
      requires RaindEW in Chains()
      modifies npm, iptables.table
      ensures npm.np == old(npm.np).WithList(RaindEW, Replaced(old(npm.np).List(RaindEW), k, CommitOne(RaindEW, p, env)))
      ensures Chains() == old(Chains())[RaindEW := InsertAll(old(Chains())[RaindEW], RulesOf(RaindEW, p, env, logging))]
    {
      ghost var c := RaindEW;
      CommitCases(c, p, env, Chains()[c]);
      hide UserModel, CommitOne, Effective, InsertAll, InsertOnce, InsertedModel, AcceptedByIptables, DistinctIds, Replaced;
      ghost var l := npm.np.List(c);
      UserModelsArePlain(c, p, env);
      assert Chains() == Chains()[c := Chains()[c]];
      if p.status == RemoveNextCommit {
        var _ := Discard(RaindEW, p, k);
        return;
      }
      var srcId := ResolveContainer(env, p.source.containerName);
      var dstId := ResolveContainer(env, p.destination.containerName);
      if srcId !in env.allocations {
        var _ := SetStatus(RaindEW, p, Unresolved, NotFound(p.source.containerName), k);
        return;
      }
      if dstId !in env.allocations {
        var _ := SetStatus(RaindEW, p, Unresolved, NotFound(p.destination.containerName), k);
        return;
      }
      var ok := iptables.InsertRuleToChain(RaindEW, UserModel(RaindEW, p, env), Accept);
      if !ok {
        SameReplaced(l, k);
        return;
      }
      if logging {
        ok := iptables.InsertRuleToChain(RaindEW, UserLogRule(RaindEW, p, env).match_, Nflog);
      }
      ok := SetStatus(RaindEW, p, Applied, "", k);
    }

    /** One turn of the north-south loop: drop rules while observing, accept rules while enforcing. */
    method ApplyNSPolicy(c: Chain, p: Policy, env: Env, logging: bool, ghost k: nat)
      requires c == RaindNsObs || c == RaindNsEnf
      requires PlacedAt(npm.np, c, p, k)
      requires c in Chains()
      modifies npm, iptables.table
      ensures npm.np == old(npm.np).WithList(c, Replaced(old(npm.np).List(c), k, CommitOne(c, p, env)))
      ensures Chains() == old(Chains())[c := InsertAll(old(Chains())[c], RulesOf(c, p, env, logging))]
    {
      CommitCases(c, p, env, Chains()[c]);
      hide UserModel, CommitOne, Effective, InsertAll, InsertOnce, InsertedModel, AcceptedByIptables, DistinctIds, Replaced;
      ghost var l := npm.np.List(c);
      UserModelsArePlain(c, p, env);
      assert Chains() == Chains()[c := Chains()[c]];
      if p.status == RemoveNextCommit {
        var _ := Discard(c, p, k);
        return;
      }
      var srcId := ResolveContainer(env, p.source.containerName);
      if srcId !in env.allocations {
        var _ := SetStatus(c, p, Unresolved, NotFound(p.source.containerName), k);
        return;
      }
      var action := if c == RaindNsObs then Drop else Accept;
      var ok := iptables.InsertRuleToChain(c, UserModel(c, p, env), action);
      if !ok {
        SameReplaced(l, k);
        return;
      }
      if logging {
        ok := iptables.InsertRuleToChain(c, UserLogRule(c, p, env).match_, Nflog);
      }
      ok := SetStatus(c, p, Applied, "", k);
    }

    method InsertRaindEWUserPolicy(env: Env, logging: bool)
      requires DistinctIds(npm.np) && RaindEW in Chains()
      modifies npm, iptables.table
      ensures npm.np == old(npm.np).WithList(RaindEW, CommitList(RaindEW, old(npm.np).eastWest, env))
      ensures DistinctIds(npm.np)
      ensures Chains() == old(Chains())[RaindEW := InsertAll(old(Chains())[RaindEW], UserRules(RaindEW, old(npm.np).eastWest, env, logging))]
    {
      hide CommitOne, RulesOf, CommitList, UserRules, InsertAll;
      var policies := npm.np.eastWest;
      LoopStart(RaindEW, npm.np, env, logging, Chains());
      for i := 0 to |policies|
        invariant InLoop(RaindEW, old(npm.np), npm.np, env, logging, old(Chains()), Chains(), i)
      {
        ghost var k := |CommitList(RaindEW, policies[..i], env)|;
        LoopTurn(RaindEW, old(npm.np), npm.np, env, logging, old(Chains()), Chains(), i);
        ApplyEWPolicy(policies[i], env, logging, k);
      }
      LoopEnd(RaindEW, old(npm.np), npm.np, env, logging, old(Chains()), Chains());
    }

    method InsertRaindNSUserPolicy(c: Chain, env: Env, logging: bool)
      requires c == RaindNsObs || c == RaindNsEnf
      requires DistinctIds(npm.np) && c in Chains()
      modifies npm, iptables.table
      ensures npm.np == old(npm.np).WithList(c, CommitList(c, old(npm.np).List(c), env))
      ensures DistinctIds(npm.np)
      ensures Chains() == old(Chains())[c := InsertAll(old(Chains())[c], UserRules(c, old(npm.np).List(c), env, logging))]
    {
      hide CommitOne, RulesOf, CommitList, UserRules, InsertAll;
      var policies := npm.np.List(c);
      LoopStart(c, npm.np, env, logging, Chains());
      for i := 0 to |policies|
        invariant InLoop(c, old(npm.np), npm.np, env, logging, old(Chains()), Chains(), i)
      {
        ghost var k := |CommitList(c, policies[..i], env)|;
        LoopTurn(c, old(npm.np), npm.np, env, logging, old(Chains()), Chains(), i);
        ApplyNSPolicy(c, policies[i], env, logging, k);
      }
      LoopEnd(c, old(npm.np), npm.np, env, logging, old(Chains()), Chains());
    }

    method BuildPredefinedPolicy(env: Env) returns (ok: bool)
      requires Forward in Chains()
      modifies iptables.table
      ensures ok == Configured(env)
      ensures Chains() == if env.networks == [] then old(Chains()) else PredefinedChains(old(Chains()), npm.np, env)
    {
      hide EWRules, ObsRules, EnfRules, RootRules, AddAll, InsertOnce;
      if env.networks == [] {
        return false;
      }
      ghost var c0 := Chains();
      var enforce := npm.np.nsMode == Enforce;
      var loggingEw, loggingNs := npm.np.ewLogging, npm.np.nsLogging;
      NothingAdded();
      CreateChains();
      ok := iptables.InsertForwardRule(RaindRoot);
      ok := BuildRaindRootChain(enforce);
      ok := BuildRaindEWChain(env.networks, loggingEw);
      if enforce {
        ok := BuildRaindNSEnforceChain(env.networks, env.hostInterface, loggingNs);
      } else {
        ok := BuildRaindNSObserveChain(env.networks, env.hostInterface, loggingNs);
      }
      BuildOrder(c0, WithForwardJump(c0[Forward]), RootRules(enforce), Chains()[RaindEW], Chains()[RaindNsObs], Chains()[RaindNsEnf]);
    }

    method BuildUserPolicy(env: Env)
      requires DistinctIds(npm.np)
      requires RaindEW in Chains() && RaindNsObs in Chains() && RaindNsEnf in Chains()
      modifies npm, iptables.table
      ensures npm.np == CommitLists(old(npm.np), env) && DistinctIds(npm.np)
      ensures Chains() == StackUserRules(old(Chains()), old(npm.np), env)
    {
      hide CommitList, UserRules, InsertAll, DistinctIds;
      var loggingEw, loggingNs := npm.np.ewLogging, npm.np.nsLogging;
      InsertRaindEWUserPolicy(env, loggingEw);
      InsertRaindNSUserPolicy(RaindNsObs, env, loggingNs);
      InsertRaindNSUserPolicy(RaindNsEnf, env, loggingNs);
    }

    /** A commit either rebuilds the four chains from the store and settles every status, or,
        where no network or default interface is configured, leaves every policy alone. */
    method CommitPolicy(env: Env) returns (ok: bool)
      requires Forward in Chains() && DistinctIds(npm.np)
      modifies npm, iptables.table
      ensures ok == Configured(env)
      ensures ModeSettled(old(npm.np).nsMode, npm.np.nsMode)
      ensures DistinctIds(npm.np)
      ensures ok ==> npm.np == CommitStore(old(npm.np), env)
      ensures ok ==> Chains() == CommitChains(old(Chains()), Fixed(old(npm.np)), env)
      ensures !ok ==> npm.np == Fixed(old(npm.np))
      ensures !ok ==> Chains() == if env.networks == [] then old(Chains()) else PredefinedChains(old(Chains()), Fixed(old(npm.np)), env)
    {
      FixNSMode();
      ok := BuildPredefinedPolicy(env);
      if !ok {
        return;
      }
      BuildUserPolicy(env);
      CommitIsTwoStages(old(Chains()), Fixed(old(npm.np)), env);
    }
  }
}

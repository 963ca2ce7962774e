/** Results about commits as a whole: a repeated commit changes nothing, statuses are settled,
    and a commit that stops half-way leaves east-west traffic denied. */
module PolicyCommit {
  import opened Iptables
  import opened PolicyRules
  import opened PolicyCompiler
  import opened PolicyProofs
  import opened PolicyTheorems
  import opened PolicyService

  lemma {:induction false} CommitListConcat(c: Chain, a: seq<Policy>, b: seq<Policy>, env: Env)
    ensures CommitList(c, a + b, env) == CommitList(c, a, env) + CommitList(c, b, env)
    decreases |b|
  {
    hide CommitOne;
    if b == [] {
      assert a + b == a;
    } else {
      var init, last := b[..|b| - 1], b[|b| - 1];
      CommitListConcat(c, a, init, env);
      assert a + b == (a + init) + [last];
      assert (a + b)[..|a + b| - 1] == a + init;
    }
  }

  lemma {:induction false} UserRulesConcat(c: Chain, a: seq<Policy>, b: seq<Policy>, env: Env, logging: bool)
    ensures UserRules(c, a + b, env, logging) == UserRules(c, a, env, logging) + UserRules(c, b, env, logging)
    decreases |b|
  {
    hide RulesOf;
    if b == [] {
      assert a + b == a;
    } else {
      var init, last := b[..|b| - 1], b[|b| - 1];
      UserRulesConcat(c, a, init, env, logging);
      assert a + b == (a + init) + [last];
      assert (a + b)[..|a + b| - 1] == a + init;
    }
  }

  /** What is left of one policy is committed to itself and compiles to the same rules. */
  lemma {:induction false} CommitOneSettles(c: Chain, p: Policy, env: Env, logging: bool)
    requires UserChain(c)
    ensures CommitList(c, CommitOne(c, p, env), env) == CommitOne(c, p, env)
    ensures UserRules(c, CommitOne(c, p, env), env, logging) == RulesOf(c, p, env, logging)
  {
    var one := CommitOne(c, p, env);
    if one != [] {
      var q := one[0];
      assert one == [q] && one[..0] == [];
      assert CommitList(c, one, env) == [] + CommitOne(c, q, env);
      assert UserRules(c, one, env, logging) == [] + RulesOf(c, q, env, logging);
      SameModel(c, p, q, env);
    }
  }

  /** Rules depend on a policy's id, endpoints and traffic, never on its status among the kept ones. */
  lemma SameModel(c: Chain, p: Policy, q: Policy, env: Env)
    requires q == p.(status := q.status, reason := q.reason)
    ensures Resolves(c, p, env) == Resolves(c, q, env)
    ensures Resolves(c, p, env) ==> UserRule(c, p, env) == UserRule(c, q, env) && UserLogRule(c, p, env) == UserLogRule(c, q, env)
  {
  }

  lemma {:induction false} CommitListSettles(c: Chain, ps: seq<Policy>, env: Env, logging: bool)
    requires UserChain(c)
    ensures CommitList(c, CommitList(c, ps, env), env) == CommitList(c, ps, env)
    ensures UserRules(c, CommitList(c, ps, env), env, logging) == UserRules(c, ps, env, logging)
    decreases |ps|
  {
    if ps != [] {
      var init, last := ps[..|ps| - 1], ps[|ps| - 1];
      CommitListSettles(c, init, env, logging);
      CommitOneSettles(c, last, env, logging);
      CommitListConcat(c, CommitList(c, init, env), CommitOne(c, last, env), env);
      UserRulesConcat(c, CommitList(c, init, env), CommitOne(c, last, env), env, logging);
    }
  }

  /** MAIN: a second commit on an unchanged cluster leaves the store, every chain, every rule order
      and the single FORWARD jump as they are. */
  lemma SecondCommitChangesNothing(c0: FwChains, np: NetworkPolicy, env: Env)
    requires Forward in c0
    ensures var np1, c1 := CommitStore(np, env), CommitChains(c0, Fixed(np), env);
            && CommitStore(np1, env) == np1
            && CommitChains(c1, Fixed(np1), env) == c1
  {
    hide WithForwardJump, RootRules, UserChainRules, CommitStore, SetChains, Fixed;
    StoreSettles(np, env);
    SameUserChain(RaindEW, np, env);
    SameUserChain(RaindNsObs, np, env);
    SameUserChain(RaindNsEnf, np, env);
    ModeSettles(np, env);
    JumpStays(c0[Forward]);
    SetTwice(c0, WithForwardJump(c0[Forward]), RootRules(Fixed(np).nsMode == Enforce), UserChainRules(RaindEW, Fixed(np), env),
             UserChainRules(RaindNsObs, Fixed(np), env), UserChainRules(RaindNsEnf, Fixed(np), env));
  }

  lemma SetTwice(c0: FwChains, f: seq<FwRule>, r: seq<FwRule>, e: seq<FwRule>, o: seq<FwRule>, n: seq<FwRule>)
    ensures SetChains(SetChains(c0, f, r, e, o, n), f, r, e, o, n) == SetChains(c0, f, r, e, o, n)
    ensures Forward in SetChains(c0, f, r, e, o, n) && SetChains(c0, f, r, e, o, n)[Forward] == f
  {
  }

  lemma ModeSettles(np: NetworkPolicy, env: Env)
    ensures Fixed(CommitStore(np, env)).nsMode == Fixed(np).nsMode
  {
  }

  lemma JumpStays(rules: seq<FwRule>)
    ensures WithForwardJump(WithForwardJump(rules)) == WithForwardJump(rules)
  {
  }

  lemma StoreSettles(np: NetworkPolicy, env: Env)
    ensures CommitStore(CommitStore(np, env), env) == CommitStore(np, env)
  {
    hide CommitList;
    CommitListSettles(RaindEW, np.eastWest, env, np.ewLogging);
    CommitListSettles(RaindNsObs, np.nsObserve, env, np.nsLogging);
    CommitListSettles(RaindNsEnf, np.nsEnforce, env, np.nsLogging);
  }

  lemma SameUserChain(c: Chain, np: NetworkPolicy, env: Env)
    requires UserChain(c)
    ensures UserChainRules(c, Fixed(CommitStore(np, env)), env) == UserChainRules(c, Fixed(np), env)
  {
    hide CommitList, UserRules, InsertAll, AddAll;
    CommitListSettles(c, np.List(c), env, np.Logging(c));
  }

  /** The installed chains are those of the store as the commit left it. */
  lemma CommittedAsStored(c0: FwChains, np: NetworkPolicy, env: Env)
    requires Forward in c0
    ensures Committed(CommitChains(c0, Fixed(np), env), CommitStore(np, env), env)
  {
    hide UserChainRules, RootRules;
    CommitChainsCommitted(c0, Fixed(np), env);
    SameUserChain(RaindEW, np, env);
    SameUserChain(RaindNsObs, np, env);
    SameUserChain(RaindNsEnf, np, env);
    assert Fixed(CommitStore(np, env)) == CommitStore(np, env);
  }

  /** A committed list keeps the surviving policies and settles them. */
  lemma {:induction false} SettledOrigin(c: Chain, ps: seq<Policy>, env: Env, q: Policy) returns (p: Policy)
    requires q in CommitList(c, ps, env)
    ensures p in ps && p.status != RemoveNextCommit && CommitOne(c, p, env) == [q]
    decreases |ps|
  {
    if q in CommitOne(c, ps[|ps| - 1], env) {
      p := ps[|ps| - 1];
    } else {
      p := SettledOrigin(c, ps[..|ps| - 1], env, q);
    }
  }

  lemma {:induction false} Survives(c: Chain, ps: seq<Policy>, env: Env, p: Policy)
    requires p in ps
    ensures forall q :: q in CommitOne(c, p, env) ==> q in CommitList(c, ps, env)
    decreases |ps|
  {
    if p != ps[|ps| - 1] {
      Survives(c, ps[..|ps| - 1], env, p);
    }
  }

  /** iptables takes the policy's port: there is none, or it is in range and the protocol has ports. */
  predicate PortTaken(p: Policy) {
    p.destPort > 0 ==> p.destPort <= 65535 && p.protocol in {"tcp", "udp", "udplite", "sctp", "dccp"}
  }

  /** MAIN: after a commit no policy waits for removal, exactly the marked ones are gone, no mode is
      pending, and a policy that iptables takes is `applied` iff its containers resolve, else
      `unresolved`. A resolved policy whose rule iptables refuses keeps the status it had. */
  lemma CommitSettlesStatuses(c: Chain, np: NetworkPolicy, env: Env, q: Policy)
    requires UserChain(c) && q in CommitStore(np, env).List(c)
    ensures q.status != RemoveNextCommit
    ensures !Resolves(c, q, env) ==> q.status == Unresolved
    ensures !HasVeth(env, q.source.containerName) ==> q.reason == "container: " + q.source.containerName + " not found"
    ensures HasVeth(env, q.source.containerName) && !Resolves(c, q, env) ==>
              q.reason == "container: " + q.destination.containerName + " not found"
    ensures Resolves(c, q, env) && PortTaken(q) ==> q.status == Applied && q.reason == ""
    ensures Resolves(c, q, env) && !PortTaken(q) ==> q in np.List(c)
    ensures CommitStore(np, env).nsMode == Observe || CommitStore(np, env).nsMode == Enforce
    ensures exists p :: p in np.List(c) && p.status != RemoveNextCommit && q == p.(status := q.status, reason := q.reason)
  {
    var p := SettledOrigin(c, np.List(c), env, q);
    SettledAs(c, p, q, env);
    hide CommitOne, Resolves, HasVeth, PortTaken;
  }

  lemma SettledAs(c: Chain, p: Policy, q: Policy, env: Env)
    requires UserChain(c) && p.status != RemoveNextCommit && CommitOne(c, p, env) == [q]
    ensures q.status != RemoveNextCommit && q == p.(status := q.status, reason := q.reason)
    ensures !Resolves(c, q, env) ==> q.status == Unresolved
    ensures !HasVeth(env, q.source.containerName) ==> q.reason == "container: " + q.source.containerName + " not found"
    ensures HasVeth(env, q.source.containerName) && !Resolves(c, q, env) ==>
              q.reason == "container: " + q.destination.containerName + " not found"
    ensures Resolves(c, q, env) ==> if PortTaken(q) then q.status == Applied && q.reason == "" else q == p
  {
    SameModel(c, p, q, env);
    if Resolves(c, p, env) {
      EffectiveIff(c, p, env);
    }
    hide Effective, HasVeth;
  }

  lemma EffectiveIff(c: Chain, p: Policy, env: Env)
    requires UserChain(c) && p.status != RemoveNextCommit && Resolves(c, p, env)
    ensures Effective(c, p, env) <==> PortTaken(p)
  {
    hide AllocationOf;
  }

  lemma CommitKeepsUnmarked(c: Chain, np: NetworkPolicy, env: Env, p: Policy)
    requires UserChain(c) && p in np.List(c) && p.status != RemoveNextCommit
    ensures exists q :: q in CommitStore(np, env).List(c) && q == p.(status := q.status, reason := q.reason)
  {
    Survives(c, np.List(c), env, p);
    var q := CommitOne(c, p, env)[0];
    assert q in CommitOne(c, p, env);
  }

  function Jumps(rules: seq<FwRule>): nat {
    multiset(rules)[Rule(ANYTHING, Jump(RaindRoot))]
  }

  /** A mode asked for is in force from the next commit on: container traffic leaving the host is then denied
      unless declared, or allowed unless declared. */
  lemma ModeChangeTakesEffect(c0: FwChains, np: NetworkPolicy, mode: NsMode, env: Env, pkt: Packet, depth: nat)
    requires Forward in c0 && depth > 0 && (mode == Observe || mode == Enforce)
    requires LeavesHost(env, pkt) && !ReturnTraffic(pkt) && !StaysOnBridge(env, pkt) && !(RaindDev(pkt.inDev) && RaindDev(pkt.outDev))
    ensures var marked := np.(nsMode := if mode == Observe then ObserveNextCommit else EnforceNextCommit);
            var np1, c1 := CommitStore(marked, env), CommitChains(c0, Fixed(marked), env);
            && np1.nsMode == mode
            && Eval(c1, c1[RaindRoot], pkt, depth).verdict ==
               (if Covered(RaindEW, np1, env, pkt) then Accepted
                else if mode == Enforce then (if Covered(RaindNsEnf, np1, env, pkt) then Accepted else Dropped)
                else if Covered(RaindNsObs, np1, env, pkt) then Dropped else Accepted)
  {
    var marked := np.(nsMode := if mode == Observe then ObserveNextCommit else EnforceNextCommit);
    hide Committed, CommitChains, Covered, Eval, CommitList, LeavesHost, StaysOnBridge;
    CommittedAsStored(c0, marked, env);
    CommitDecides(CommitChains(c0, Fixed(marked), env), CommitStore(marked, env), env, pkt, depth);
    assert RaindRoot in CommitChains(c0, Fixed(marked), env) by { HasRoot(c0, Fixed(marked), env); }
  }

  lemma HasRoot(c0: FwChains, np: NetworkPolicy, env: Env)
    requires Forward in c0
    ensures RaindRoot in CommitChains(c0, np, env)
  {
  }

  /** However often it is committed, FORWARD holds the jump once, and its other rules in their order. */
  lemma OneForwardJump(rules: seq<FwRule>)
    requires Jumps(rules) <= 1
    ensures Jumps(WithForwardJump(rules)) == 1
    ensures WithForwardJump(rules) == rules || WithForwardJump(rules) == [Rule(ANYTHING, Jump(RaindRoot))] + rules
  {
    var r: FwRule := Rule(ANYTHING, Jump(RaindRoot));
    if r !in rules {
      assert multiset([r] + rules) == multiset{r} + multiset(rules);
    }
  }

  /** A commit that stops for want of a default interface fails closed: new traffic between
      containers is dropped, whatever the policies say. */
  lemma {:induction false} StoppedCommitDeniesEastWest(c0: FwChains, np: NetworkPolicy, env: Env, pkt: Packet, depth: nat)
    requires Forward in c0 && depth > 0 && env.networks != [] && env.hostInterface == ""
    requires !ReturnTraffic(pkt)
    requires StaysOnBridge(env, pkt) || (RaindDev(pkt.inDev) && RaindDev(pkt.outDev))
    ensures var c1 := PredefinedChains(c0, np, env);
            Eval(c1, c1[RaindRoot], pkt, depth).verdict == Dropped
  {
    var c1 := PredefinedChains(c0, np, env);
    var raw := EWRules(env.networks, np.ewLogging);
    DedupKeepsMeaning(c1, raw, pkt, depth - 1);
    EWBaseDecides(env, np.ewLogging, c1, pkt, depth - 1);
    StoppedRoot(c1, np, env, pkt, depth);
  }

  lemma {:induction false} StoppedRoot(c1: FwChains, np: NetworkPolicy, env: Env, pkt: Packet, depth: nat)
    requires depth > 0 && RaindRoot in c1 && RaindEW in c1 && RaindNsObs in c1 && RaindNsEnf in c1
    requires c1[RaindRoot] == RootRules(np.nsMode == Enforce)
    requires !ReturnTraffic(pkt) && Eval(c1, c1[RaindEW], pkt, depth - 1).verdict == Dropped
    ensures Eval(c1, c1[RaindRoot], pkt, depth).verdict == Dropped
  {
    hide Eval;
    RootEval(c1, np.nsMode == Enforce, pkt, depth);
  }
}

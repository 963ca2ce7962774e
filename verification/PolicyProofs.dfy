/** The chains a commit installs decide every packet as the policy store says. */
module PolicyProofs {
  import opened Iptables
  import opened PolicyRules
  import opened PolicyCompiler

  // ---- user rules -----------------------------------------------------------------------

  /** Every user rule comes from an effective policy. */
  lemma {:induction false} UserRuleOrigin(c: Chain, ps: seq<Policy>, env: Env, logging: bool, r: FwRule) returns (p: Policy)
    requires r in UserRules(c, ps, env, logging)
    ensures p in ps && Effective(c, p, env)
    ensures r == UserRule(c, p, env) || (logging && r == UserLogRule(c, p, env))
    decreases |ps|
  {
    if r in RulesOf(c, ps[|ps| - 1], env, logging) {
      p := ps[|ps| - 1];
    } else {
      p := UserRuleOrigin(c, ps[..|ps| - 1], env, logging, r);
    }
  }

  /** Every effective policy contributes its rule. */
  lemma {:induction false} UserRulePresent(c: Chain, ps: seq<Policy>, env: Env, logging: bool, p: Policy)
    requires p in ps && Effective(c, p, env)
    ensures UserRule(c, p, env) in UserRules(c, ps, env, logging)
    decreases |ps|
  {
    if p == ps[|ps| - 1] {
      assert UserRule(c, p, env) == RulesOf(c, p, env, logging)[0];
    } else {
      UserRulePresent(c, ps[..|ps| - 1], env, logging, p);
    }
  }

  lemma CoversIsMatch(c: Chain, p: Policy, env: Env, pkt: Packet)
    requires UserChain(c) && Effective(c, p, env)
    ensures PolicyCovers(c, p, env, pkt) <==> Matches(UserModel(c, p, env), pkt)
    ensures Matches(UserLogRule(c, p, env).match_, pkt) <==> pkt.state == New && Matches(UserModel(c, p, env), pkt)
  {
    assert Pow2(0) == 1;
  }

  /** A policy may give a container by name or by id: it compiles to the same rule. */
  lemma NameOrIdAlike(c: Chain, p: Policy, env: Env, name: string, id: string)
    requires name in env.idByName && env.idByName[name] == id && id in env.ids && id !in env.idByName
    ensures var byName, byId := p.(source := p.source.(containerName := name)), p.(source := p.source.(containerName := id));
            && (Resolves(c, byName, env) <==> Resolves(c, byId, env))
            && (Resolves(c, byName, env) ==> UserRule(c, byName, env) == UserRule(c, byId, env))
    ensures HasVeth(env, name) <==> id in env.allocations
  {
  }

  /** What is neither has no veth, as no allocation belongs to the empty id. */
  lemma UnknownHasNoVeth(env: Env, str: string)
    requires str !in env.idByName && str !in env.ids && "" !in env.allocations
    ensures !HasVeth(env, str)
  {
  }

  /** The user part of a chain: rules of the chain's effective policies, all their deciding rules among them. */
  ghost predicate UserHead(c: Chain, head: seq<FwRule>, np: NetworkPolicy, env: Env) {
    && (forall r :: r in head ==> r in UserRules(c, np.List(c), env, np.Logging(c)))
    && (forall p :: p in np.List(c) && Effective(c, p, env) ==> UserRule(c, p, env) in head)
  }

  lemma {:induction false} StackedIsUserHead(c: Chain, base: seq<FwRule>, np: NetworkPolicy, env: Env)
    requires forall r :: r in base ==> r.target != UserAction(c)
    ensures UserHead(c, Stacked(base, UserRules(c, np.List(c), env, np.Logging(c))), np, env)
  {
    var ps, log := np.List(c), np.Logging(c);
    StackedSplits(base, UserRules(c, ps, env, log));
    forall p | p in ps && Effective(c, p, env)
      ensures UserRule(c, p, env) in UserRules(c, ps, env, log)
    {
      UserRulePresent(c, ps, env, log, p);
    }
  }

  ghost predicate Tells(g: LogPrefix, allowed: bool) {
    g.LogPrefix? && g.allow == allowed
  }

  function ScopeOf(c: Chain): Scope {
    if c == RaindEW then EastWest else NorthSouth
  }

  /** The line carries the id of a stored policy that covers the packet, and what that policy does with it. */
  ghost predicate NamesPolicy(g: LogPrefix, c: Chain, np: NetworkPolicy, env: Env, pkt: Packet) {
    exists p :: p in np.List(c) && PolicyCovers(c, p, env, pkt) && g == LogPrefix(ScopeOf(c), c != RaindNsObs, p.id)
  }

  /** A user rule that matches stands for a policy that covers the packet. */
  lemma {:induction false} UserRuleCovers(c: Chain, np: NetworkPolicy, env: Env, r: FwRule, pkt: Packet)
    requires UserChain(c) && r in UserRules(c, np.List(c), env, np.Logging(c))
    ensures r.target == UserAction(c) || r.target == Nflog
    ensures Matches(r.match_, pkt) ==> Covered(c, np, env, pkt)
    ensures r.target == Nflog ==> Tells(r.match_.nflogPrefix, UserAction(c) == Accept)
    ensures r.target == Nflog && Matches(r.match_, pkt) ==> np.Logging(c) && pkt.state == New && NamesPolicy(r.match_.nflogPrefix, c, np, env, pkt)
  {
    var p := UserRuleOrigin(c, np.List(c), env, np.Logging(c), r);
    CoversIsMatch(c, p, env, pkt);
  }

  /** The user part of a chain decides exactly the covered packets, and its log lines say how. */
  lemma {:induction false} HeadDecides(c: Chain, head: seq<FwRule>, np: NetworkPolicy, env: Env, chains: FwChains, pkt: Packet, depth: nat)
    requires UserChain(c) && UserHead(c, head, np, env)
    ensures OneSided(head, UserAction(c))
    ensures var e := Eval(chains, head, pkt, depth);
            && e.verdict == (if Covered(c, np, env, pkt) then VerdictOf(UserAction(c)) else Fell)
            && (forall g :: g in e.log ==> Tells(g, UserAction(c) == Accept) && e.verdict != Fell)
            && (forall g :: g in e.log ==> np.Logging(c) && pkt.state == New && NamesPolicy(g, c, np, env, pkt))
  {
    forall r | r in head
      ensures r.target == UserAction(c) || r.target == Nflog
      ensures Matches(r.match_, pkt) ==> Covered(c, np, env, pkt)
      ensures r.target == Nflog ==> Tells(r.match_.nflogPrefix, UserAction(c) == Accept)
      ensures r.target == Nflog && Matches(r.match_, pkt) ==> np.Logging(c) && pkt.state == New && NamesPolicy(r.match_.nflogPrefix, c, np, env, pkt)
    {
      UserRuleCovers(c, np, env, r, pkt);
    }
    OneSidedVerdict(chains, head, UserAction(c), pkt, depth);
    if Covered(c, np, env, pkt) {
      var p :| p in np.List(c) && PolicyCovers(c, p, env, pkt);
      CoversIsMatch(c, p, env, pkt);
      assert UserRule(c, p, env) in head;
    }
  }

  // ---- log rules stand above their deciding rules ---------------------------------------

  /** The (deciding rule, log rule) pairs of the effective policies, in store order. */
  function UserPairs(c: Chain, ps: seq<Policy>, env: Env): seq<(FwRule, FwRule)> {
    if ps == [] then []
    else UserPairs(c, ps[..|ps| - 1], env) + PairOf(c, ps[|ps| - 1], env)
  }

  function PairOf(c: Chain, p: Policy, env: Env): seq<(FwRule, FwRule)> {
    if Effective(c, p, env) then [(UserRule(c, p, env), UserLogRule(c, p, env))] else []
  }

  function Flatten<T>(pairs: seq<(T, T)>): seq<T> {
    if pairs == [] then []
    else Flatten(pairs[..|pairs| - 1]) + [pairs[|pairs| - 1].0, pairs[|pairs| - 1].1]
  }

  lemma {:induction false} FlattenSnoc<T>(pairs: seq<(T, T)>, a: T, l: T)
    ensures Flatten(pairs + [(a, l)]) == Flatten(pairs) + [a, l]
  {
    assert (pairs + [(a, l)])[..|pairs + [(a, l)]| - 1] == pairs;
  }

  lemma {:induction false} UserPairsFlatten(c: Chain, ps: seq<Policy>, env: Env)
    ensures Flatten(UserPairs(c, ps, env)) == UserRules(c, ps, env, true)
    decreases |ps|
  {
    if ps != [] {
      var init, last := ps[..|ps| - 1], ps[|ps| - 1];
      UserPairsFlatten(c, init, env);
      PairFlattens(c, UserPairs(c, init, env), last, env);
    }
  }

  lemma {:induction false} PairFlattens(c: Chain, before: seq<(FwRule, FwRule)>, p: Policy, env: Env)
    ensures Flatten(before + PairOf(c, p, env)) == Flatten(before) + RulesOf(c, p, env, true)
  {
    if Effective(c, p, env) {
      var a, l := UserRule(c, p, env), UserLogRule(c, p, env);
      FlattenSnoc(before, a, l);
      assert PairOf(c, p, env) == [(a, l)] && RulesOf(c, p, env, true) == [a, l];
    } else {
      assert before + PairOf(c, p, env) == before;
    }
  }

  lemma {:induction false} UserPairOrigin(c: Chain, ps: seq<Policy>, env: Env, x: (FwRule, FwRule)) returns (p: Policy)
    requires x in UserPairs(c, ps, env)
    ensures p in ps && Effective(c, p, env) && x == (UserRule(c, p, env), UserLogRule(c, p, env))
    decreases |ps|
  {
    if x in PairOf(c, ps[|ps| - 1], env) {
      p := ps[|ps| - 1];
    } else {
      p := UserPairOrigin(c, ps[..|ps| - 1], env, x);
    }
  }

  /** Log entries never coincide with deciding entries, and determine theirs. */
  ghost predicate Paired<T>(pairs: seq<(T, T)>) {
    && (forall x, y :: x in pairs && y in pairs ==> x.0 != y.1)
    && (forall x, y :: x in pairs && y in pairs && x.1 == y.1 ==> x.0 == y.0)
  }

  lemma {:induction false} PairsArePaired(c: Chain, ps: seq<Policy>, env: Env)
    ensures Paired(UserPairs(c, ps, env))
  {
    forall x, y | x in UserPairs(c, ps, env) && y in UserPairs(c, ps, env)
      ensures x.0 != y.1
      ensures x.1 == y.1 ==> x.0 == y.0
    {
      var p := UserPairOrigin(c, ps, env, x);
      var q := UserPairOrigin(c, ps, env, y);
      if x.1 == y.1 {
        SameLogSameRule(c, p, q, env);
      }
    }
  }

  lemma SameLogSameRule(c: Chain, p: Policy, q: Policy, env: Env)
    requires Resolves(c, p, env) && Resolves(c, q, env) && UserLogRule(c, p, env) == UserLogRule(c, q, env)
    ensures UserRule(c, p, env) == UserRule(c, q, env)
  {
    var m, n := UserModel(c, p, env), UserModel(c, q, env);
    assert UserLogRule(c, p, env).match_ == UserLogRule(c, q, env).match_;
    assert m == n;
  }

  /** The entry at i is a log entry, or its log entry stands above it. */
  ghost predicate LoggedAt<T>(head: seq<T>, i: nat, pairs: seq<(T, T)>)
    requires i < |head|
  {
    (exists x :: x in pairs && x.1 == head[i]) || (exists j :: 0 <= j < i && (head[i], head[j]) in pairs)
  }

  lemma {:induction false} FlattenElements<T>(pairs: seq<(T, T)>, t: T)
    ensures t in Flatten(pairs) <==> exists x :: x in pairs && (t == x.0 || t == x.1)
    decreases |pairs|
  {
    if pairs != [] {
      FlattenElements(pairs[..|pairs| - 1], t);
      assert pairs == pairs[..|pairs| - 1] + [pairs[|pairs| - 1]];
    }
  }

  /** A pair stacked later lands on top, unless both of its entries are there already. */
  lemma {:induction false} StackPair<T>(base: seq<T>, before: seq<(T, T)>, a: T, l: T)
    requires Paired(before + [(a, l)])
    requires forall x :: x in before + [(a, l)] ==> x.0 !in base && x.1 !in base
    ensures var h := Stacked(base, Flatten(before));
            Stacked(base, Flatten(before + [(a, l)])) ==
            (if l in h then [] else [l]) + (if a in h then [] else [a]) + h
    ensures l in Stacked(base, Flatten(before)) ==> a in Stacked(base, Flatten(before))
  {
    hide Flatten, Paired, Stacked;
    var all := before + [(a, l)];
    assert (a, l) in all && a !in base && l !in base;
    LogImpliesAction(base, before, a, l);
    FlattenSnoc(before, a, l);
    StackTwo(base, Flatten(before), a, l);
    LogIsOther(before, a, l);
  }

  lemma {:induction false} StackTwo<T>(base: seq<T>, u: seq<T>, a: T, l: T)
    requires a !in base && l !in base
    ensures var h := Stacked(base, u);
            Stacked(base, u + [a, l]) ==
            (if l in (if a in h then [] else [a]) + h then [] else [l]) + ((if a in h then [] else [a]) + h)
  {
    hide Stacked;
    StackedSnoc(base, u, a);
    StackedSnoc(base, u + [a], l);
    assert u + [a, l] == u + [a] + [l];
    assert [] + Stacked(base, u) == Stacked(base, u);
  }

  lemma LogIsOther<T>(before: seq<(T, T)>, a: T, l: T)
    requires Paired(before + [(a, l)])
    ensures a != l
  {
    assert (a, l) in before + [(a, l)];
  }

  /** A log rule is stacked only together with its action. */
  lemma {:induction false} LogImpliesAction<T>(base: seq<T>, before: seq<(T, T)>, a: T, l: T)
    requires Paired(before + [(a, l)]) && a !in base && l !in base
    ensures l in Stacked(base, Flatten(before)) ==> a in Stacked(base, Flatten(before))
  {
    var u := Flatten(before);
    var all := before + [(a, l)];
    StackedSplits(base, u);
    if l in Stacked(base, u) {
      FlattenElements(before, l);
      var x :| x in before && (l == x.0 || l == x.1);
      assert x in all && (a, l) in all;
      FlattenElements(before, a);
    }
  }

  lemma {:induction false} StackingLogsAbove<T>(base: seq<T>, pairs: seq<(T, T)>)
    requires Paired(pairs)
    requires forall x :: x in pairs ==> x.0 !in base && x.1 !in base
    ensures var h := Stacked(base, Flatten(pairs)); forall i :: 0 <= i < |h| ==> LoggedAt(h, i, pairs)
    decreases |pairs|
  {
    if pairs != [] {
      var init := pairs[..|pairs| - 1];
      var (a, l) := pairs[|pairs| - 1];
      assert pairs == init + [(a, l)];
      StackingLogsAbove(base, init);
      StackPair(base, init, a, l);
      LoggedAtStep(Stacked(base, Flatten(init)), Stacked(base, Flatten(pairs)), init, a, l);
    }
  }

  lemma LoggedAtStep<T>(h: seq<T>, h': seq<T>, init: seq<(T, T)>, a: T, l: T)
    requires forall i :: 0 <= i < |h| ==> LoggedAt(h, i, init)
    requires h' == (if l in h then [] else [l]) + (if a in h then [] else [a]) + h
    requires l in h ==> a in h
    ensures forall i :: 0 <= i < |h'| ==> LoggedAt(h', i, init + [(a, l)])
  {
    var k := |h'| - |h|;
    var pairs := init + [(a, l)];
    assert (a, l) in pairs && forall x :: x in init ==> x in pairs;
    forall i | 0 <= i < |h'|
      ensures LoggedAt(h', i, pairs)
    {
      if i == 0 < k {
        assert (a, l).1 == h'[i];
      } else if i < k {
        assert (h'[i], h'[0]) in pairs;
      } else {
        assert LoggedAt(h, i - k, init) && h'[i] == h[i - k];
        if j :| 0 <= j < i - k && (h[i - k], h[j]) in init {
          assert (h'[i], h'[j + k]) in pairs;
        } else {
          var x :| x in init && x.1 == h[i - k];
          assert x in pairs;
        }
      }
    }
  }

  lemma {:induction false} UserHeadLogsAbove(c: Chain, base: seq<FwRule>, ps: seq<Policy>, env: Env, i: nat)
    requires forall r :: r in base ==> r.target != UserAction(c)
    requires forall r, p :: r in base && p in ps && Effective(c, p, env) ==> r != UserLogRule(c, p, env)
    requires i < |Stacked(base, UserRules(c, ps, env, true))|
    ensures LoggedAt(Stacked(base, UserRules(c, ps, env, true)), i, UserPairs(c, ps, env))
  {
    var pairs := UserPairs(c, ps, env);
    UserPairsFlatten(c, ps, env);
    PairsArePaired(c, ps, env);
    forall x | x in pairs
      ensures x.0 !in base && x.1 !in base
    {
      var p := UserPairOrigin(c, ps, env, x);
    }
    StackingLogsAbove(base, pairs);
  }

  /** With logging on, a new packet the user part decides has been logged by then. */
  lemma {:induction false} HeadLogs(c: Chain, base: seq<FwRule>, np: NetworkPolicy, env: Env, chains: FwChains, pkt: Packet, depth: nat)
    requires UserChain(c) && np.Logging(c) && pkt.state == New
    requires forall r :: r in base ==> r.target != UserAction(c)
    requires forall r, p :: r in base && p in np.List(c) && Effective(c, p, env) ==> r != UserLogRule(c, p, env)
    requires Eval(chains, Stacked(base, UserRules(c, np.List(c), env, true)), pkt, depth).verdict != Fell
    ensures var e := Eval(chains, Stacked(base, UserRules(c, np.List(c), env, true)), pkt, depth);
            exists g :: g in e.log && Tells(g, UserAction(c) == Accept)
  {
    var ps := np.List(c);
    var head := Stacked(base, UserRules(c, ps, env, true));
    StackedIsUserHead(c, base, np, env);
    HeadDecides(c, head, np, env, chains, pkt, depth);
    var i := FirstDeciding(chains, head, UserAction(c), pkt, depth);
    UserHeadLogsAbove(c, base, ps, env, i);
    LoggedAtIsAbove(c, ps, env, head, i);
    var j :| 0 <= j < i && (head[i], head[j]) in UserPairs(c, ps, env);
    LogRuleFires(c, ps, env, (head[i], head[j]), pkt);
    var g := head[j].match_.nflogPrefix;
    assert g in Eval(chains, head, pkt, depth).log && Tells(g, UserAction(c) == Accept);
  }

  lemma {:induction false} LogRuleFires(c: Chain, ps: seq<Policy>, env: Env, x: (FwRule, FwRule), pkt: Packet)
    requires UserChain(c) && x in UserPairs(c, ps, env) && pkt.state == New && Matches(x.0.match_, pkt)
    ensures x.1.target == Nflog && Matches(x.1.match_, pkt) && Tells(x.1.match_.nflogPrefix, UserAction(c) == Accept)
  {
    var p := UserPairOrigin(c, ps, env, x);
    CoversIsMatch(c, p, env, pkt);
  }

  lemma {:induction false} LoggedAtIsAbove(c: Chain, ps: seq<Policy>, env: Env, head: seq<FwRule>, i: nat)
    requires i < |head| && LoggedAt(head, i, UserPairs(c, ps, env)) && head[i].target != Nflog
    ensures exists j :: 0 <= j < i && (head[i], head[j]) in UserPairs(c, ps, env)
  {
    if x :| x in UserPairs(c, ps, env) && x.1 == head[i] {
      var p := UserPairOrigin(c, ps, env, x);
    }
  }

  lemma {:induction false} FirstDeciding(chains: FwChains, head: seq<FwRule>, action: Target, pkt: Packet, depth: nat) returns (i: nat)
    requires OneSided(head, action)
    requires Eval(chains, head, pkt, depth).verdict != Fell
    ensures i < |head| && head[i].target == action && Matches(head[i].match_, pkt)
    ensures forall j :: 0 <= j < i && head[j].target == Nflog && Matches(head[j].match_, pkt) ==>
                        head[j].match_.nflogPrefix in Eval(chains, head, pkt, depth).log
    decreases |head|
  {
    if head[0].target == action && Matches(head[0].match_, pkt) {
      i := 0;
    } else {
      i := FirstDeciding(chains, head[1..], action, pkt, depth);
      i := i + 1;
      assert forall j :: 0 < j < i ==> head[j] == head[1..][j - 1];
    }
  }
}

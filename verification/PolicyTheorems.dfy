/** Predefined rules, and the two main results about a committed table: every packet is
    decided as the store says, and the netflow log tells the truth. */
module PolicyTheorems {
  import opened Iptables
  import opened PolicyRules
  import opened PolicyCompiler
  import opened PolicyProofs

  // ---- segments of predefined rules -----------------------------------------------------

  lemma {:induction false} EachNetworkOrigin(ns: seq<string>, f: string -> seq<FwRule>, r: FwRule) returns (n: string)
    requires r in EachNetwork(ns, f)
    ensures n in ns && r in f(n)
    decreases |ns|
  {
    if r in f(ns[|ns| - 1]) {
      n := ns[|ns| - 1];
    } else {
      n := EachNetworkOrigin(ns[..|ns| - 1], f, r);
    }
  }

  lemma {:induction false} EachNetworkPresent(ns: seq<string>, f: string -> seq<FwRule>, n: string, r: FwRule)
    requires n in ns && r in f(n)
    ensures r in EachNetwork(ns, f)
    decreases |ns|
  {
    if n != ns[|ns| - 1] {
      EachNetworkPresent(ns[..|ns| - 1], f, n, r);
    }
  }

  /** A run of log rules stops nothing and writes every matching line. */
  lemma {:induction false} LogSegment(chains: FwChains, seg: seq<FwRule>, pkt: Packet, depth: nat)
    requires forall r :: r in seg ==> r.target == Nflog
    ensures Eval(chains, seg, pkt, depth).verdict == Fell
    ensures forall r :: r in seg && Matches(r.match_, pkt) ==> r.match_.nflogPrefix in Eval(chains, seg, pkt, depth).log
    ensures forall g :: g in Eval(chains, seg, pkt, depth).log ==>
                        exists r :: r in seg && Matches(r.match_, pkt) && r.match_.nflogPrefix == g
    decreases |seg|
  {
    if seg != [] {
      assert forall r :: r in seg <==> r == seg[0] || r in seg[1..];
      LogSegment(chains, seg[1..], pkt, depth);
    }
  }

  lemma CrossBridge(pkt: Packet)
    ensures Matches(CROSS_DROP.match_, pkt) <==> RaindDev(pkt.inDev) && RaindDev(pkt.outDev)
    ensures Matches(CROSS_LOG.match_, pkt) <==> pkt.state == New && RaindDev(pkt.inDev) && RaindDev(pkt.outDev)
  {
    var spec := "raind+";
    assert spec[|spec| - 1] == '+' && spec[..|spec| - 1] == "raind";
  }

  lemma {:induction false} EWLogSegment(networks: seq<string>, chains: FwChains, pkt: Packet, depth: nat)
    ensures var e := Eval(chains, EachNetwork(networks, EWLog), pkt, depth);
            && e.verdict == Fell
            && (EW_DENY in e.log <==> pkt.state == New && pkt.bridged &&
                                      exists n :: n in networks && DevMatches(n, pkt.inDev) && DevMatches(n, pkt.outDev))
            && (forall g :: g in e.log ==> g == EW_DENY)
  {
    var seg := EachNetwork(networks, EWLog);
    forall r | r in seg
      ensures r.target == Nflog && r.match_.nflogPrefix == EW_DENY
      ensures Matches(r.match_, pkt) ==> pkt.state == New && pkt.bridged &&
                                         exists n :: n in networks && DevMatches(n, pkt.inDev) && DevMatches(n, pkt.outDev)
    {
      var n := EachNetworkOrigin(networks, EWLog, r);
    }
    LogSegment(chains, seg, pkt, depth);
    if n :| pkt.state == New && pkt.bridged && n in networks && DevMatches(n, pkt.inDev) && DevMatches(n, pkt.outDev) {
      var r := EWLogRule(n);
      EachNetworkPresent(networks, EWLog, n, r);
      assert Matches(r.match_, pkt);
    }
  }

  lemma {:induction false} EWDropSegment(networks: seq<string>, chains: FwChains, pkt: Packet, depth: nat)
    ensures var e := Eval(chains, EachNetwork(networks, EWDrop), pkt, depth);
            && e.verdict == (if exists n :: n in networks && DevMatches(n, pkt.inDev) && DevMatches(n, pkt.outDev) then Dropped else Fell)
            && (forall g :: g !in e.log)
  {
    var seg := EachNetwork(networks, EWDrop);
    forall r | r in seg
      ensures r.target == Drop
      ensures Matches(r.match_, pkt) ==> exists n :: n in networks && DevMatches(n, pkt.inDev) && DevMatches(n, pkt.outDev)
    {
      var n := EachNetworkOrigin(networks, EWDrop, r);
    }
    OneSidedVerdict(chains, seg, Drop, pkt, depth);
    if n :| n in networks && DevMatches(n, pkt.inDev) && DevMatches(n, pkt.outDev) {
      EachNetworkPresent(networks, EWDrop, n, EWDropRule(n));
    }
  }

  /** East-west predefined rules: drop on one bridge and between bridges, logging new packets;
      unbridged traffic on one bridge is dropped without a line. */
  lemma {:induction false} EWBaseDecides(env: Env, nflog: bool, chains: FwChains, pkt: Packet, depth: nat)
    ensures var e := Eval(chains, EWRules(env.networks, nflog), pkt, depth);
            var denied := StaysOnBridge(env, pkt) || (RaindDev(pkt.inDev) && RaindDev(pkt.outDev));
            && e.verdict == (if denied then Dropped else Returned)
            && (forall g :: g in e.log ==> g == EW_DENY && denied)
            && (EW_DENY in e.log <==> nflog && denied && pkt.state == New && (pkt.bridged || !StaysOnBridge(env, pkt)))
  {
    var ns := env.networks;
    var logs := if nflog then EachNetwork(ns, EWLog) else [];
    var drops := EachNetwork(ns, EWDrop);
    var cross := if nflog then [CROSS_LOG] else [];
    EWLogSegment(ns, chains, pkt, depth);
    EWDropSegment(ns, chains, pkt, depth);
    CrossBridge(pkt);
    EvalConcat(chains, logs, drops, pkt, depth);
    EvalConcat(chains, logs + drops, cross, pkt, depth);
    EvalConcat(chains, logs + drops + cross, [CROSS_DROP], pkt, depth);
    EvalConcat(chains, logs + drops + cross + [CROSS_DROP], [RETURN_RULE], pkt, depth);
    OneRule(chains, CROSS_LOG, pkt, depth);
    OneRule(chains, CROSS_DROP, pkt, depth);
    OneRule(chains, RETURN_RULE, pkt, depth);
  }

  lemma {:induction false} OneRule(chains: FwChains, r: FwRule, pkt: Packet, depth: nat)
    requires r.target == Nflog || r.target == Drop || r.target == Accept || r.target == Return
    ensures Eval(chains, [r], pkt, depth) ==
            if !Matches(r.match_, pkt) then Outcome(Fell, [])
            else match r.target
              case Nflog => Outcome(Fell, [r.match_.nflogPrefix])
              case Accept => Outcome(Accepted, [])
              case Drop => Outcome(Dropped, [])
              case _ => Outcome(Returned, [])
  {
  }

  lemma {:induction false} EnfLogSegment(networks: seq<string>, host: string, chains: FwChains, pkt: Packet, depth: nat)
    ensures var e := Eval(chains, EachNetwork(networks, EnfLog(host)), pkt, depth);
            && e.verdict == Fell
            && (NS_DENY in e.log <==> pkt.state == New && DevMatches(host, pkt.outDev) && exists n :: n in networks && DevMatches(n, pkt.inDev))
            && (forall g :: g in e.log ==> g == NS_DENY)
  {
    var seg := EachNetwork(networks, EnfLog(host));
    forall r | r in seg
      ensures r.target == Nflog && r.match_.nflogPrefix == NS_DENY
      ensures Matches(r.match_, pkt) ==> pkt.state == New && DevMatches(host, pkt.outDev) && exists n :: n in networks && DevMatches(n, pkt.inDev)
    {
      var n := EachNetworkOrigin(networks, EnfLog(host), r);
    }
    LogSegment(chains, seg, pkt, depth);
    if n :| pkt.state == New && DevMatches(host, pkt.outDev) && n in networks && DevMatches(n, pkt.inDev) {
      var r := EnfLogRule(host, n);
      EachNetworkPresent(networks, EnfLog(host), n, r);
      assert Matches(r.match_, pkt);
    }
  }

  lemma {:induction false} EnfDropSegment(networks: seq<string>, host: string, chains: FwChains, pkt: Packet, depth: nat)
    ensures var e := Eval(chains, EachNetwork(networks, EnfDrop(host)), pkt, depth);
            && e.verdict == (if DevMatches(host, pkt.outDev) && exists n :: n in networks && DevMatches(n, pkt.inDev) then Dropped else Fell)
            && (forall g :: g !in e.log)
  {
    var seg := EachNetwork(networks, EnfDrop(host));
    forall r | r in seg
      ensures r.target == Drop
      ensures Matches(r.match_, pkt) ==> DevMatches(host, pkt.outDev) && exists n :: n in networks && DevMatches(n, pkt.inDev)
    {
      var n := EachNetworkOrigin(networks, EnfDrop(host), r);
    }
    OneSidedVerdict(chains, seg, Drop, pkt, depth);
    if n :| DevMatches(host, pkt.outDev) && n in networks && DevMatches(n, pkt.inDev) {
      EachNetworkPresent(networks, EnfDrop(host), n, EnfDropRule(host, n));
    }
  }

  lemma {:induction false} EnfBaseDecides(env: Env, nflog: bool, chains: FwChains, pkt: Packet, depth: nat)
    ensures var e := Eval(chains, EnfRules(env.networks, env.hostInterface, nflog), pkt, depth);
            && e.verdict == (if LeavesHost(env, pkt) then Dropped else Returned)
            && (forall g :: g in e.log ==> g == NS_DENY && LeavesHost(env, pkt))
            && (NS_DENY in e.log <==> nflog && pkt.state == New && LeavesHost(env, pkt))
  {
    var ns, host := env.networks, env.hostInterface;
    var logs := if nflog then EachNetwork(ns, EnfLog(host)) else [];
    EnfLogSegment(ns, host, chains, pkt, depth);
    EnfDropSegment(ns, host, chains, pkt, depth);
    EvalConcat(chains, logs, EachNetwork(ns, EnfDrop(host)), pkt, depth);
    EvalConcat(chains, logs + EachNetwork(ns, EnfDrop(host)), [RETURN_RULE], pkt, depth);
    OneRule(chains, RETURN_RULE, pkt, depth);
  }

  /** Traffic from outside is logged for UDP, and for TCP by its first packet. */
  predicate OpensFlow(pkt: Packet) {
    pkt.protocol == "udp" || (pkt.protocol == "tcp" && pkt.syn)
  }

  /** One network's observe rules. */
  lemma {:induction false} ObsNetworkDecides(host: string, n: string, nflog: bool, chains: FwChains, pkt: Packet, depth: nat)
    ensures var e := Eval(chains, ObsNetwork(host, nflog)(n), pkt, depth);
            var out := DevMatches(n, pkt.inDev) && DevMatches(host, pkt.outDev);
            var inbound := DevMatches(host, pkt.inDev) && DevMatches(n, pkt.outDev);
            && e.verdict == (if out then Accepted else Fell)
            && (forall g :: g in e.log ==> g == NS_ALLOW && (out || inbound))
            && (NS_ALLOW in e.log <==> nflog && pkt.state == New && (out || (inbound && OpensFlow(pkt))))
  {
    var accept := ObsAccept(host, n);
    OneRule(chains, accept, pkt, depth);
    ObsRulesMatch(host, n, pkt);
    hide Eval, Matches, ObsInbound, ObsOutbound, ObsAccept;
    if nflog {
      var logs := [ObsInbound(host, n, "tcp"), ObsInbound(host, n, "udp"), ObsOutbound(host, n)];
      ObsLogs(host, n, chains, pkt, depth);
      EvalConcat(chains, logs, [accept], pkt, depth);
      assert ObsNetwork(host, nflog)(n) == logs + [accept];
    } else {
      assert ObsNetwork(host, nflog)(n) == [accept];
    }
  }

  lemma ObsRulesMatch(host: string, n: string, pkt: Packet)
    ensures var out := DevMatches(n, pkt.inDev) && DevMatches(host, pkt.outDev);
            var inbound := DevMatches(host, pkt.inDev) && DevMatches(n, pkt.outDev);
            && (Matches(ObsAccept(host, n).match_, pkt) <==> out) && ObsAccept(host, n).target == Accept
            && (Matches(ObsOutbound(host, n).match_, pkt) <==> pkt.state == New && out)
            && (Matches(ObsInbound(host, n, "tcp").match_, pkt) <==> pkt.state == New && inbound && pkt.protocol == "tcp" && pkt.syn)
            && (Matches(ObsInbound(host, n, "udp").match_, pkt) <==> pkt.state == New && inbound && pkt.protocol == "udp")
    ensures ObsOutbound(host, n).target == Nflog && ObsOutbound(host, n).match_.nflogPrefix == NS_ALLOW
    ensures forall proto :: ObsInbound(host, n, proto).target == Nflog && ObsInbound(host, n, proto).match_.nflogPrefix == NS_ALLOW
  {
    assert "udp"[0] != "tcp"[0];
  }

  lemma {:induction false} ObsLogs(host: string, n: string, chains: FwChains, pkt: Packet, depth: nat)
    ensures var e := Eval(chains, [ObsInbound(host, n, "tcp"), ObsInbound(host, n, "udp"), ObsOutbound(host, n)], pkt, depth);
            var out := DevMatches(n, pkt.inDev) && DevMatches(host, pkt.outDev);
            var inbound := DevMatches(host, pkt.inDev) && DevMatches(n, pkt.outDev);
            && e.verdict == Fell && (forall g :: g in e.log ==> g == NS_ALLOW)
            && (NS_ALLOW in e.log <==> pkt.state == New && (out || (inbound && OpensFlow(pkt))))
  {
    ObsRulesMatch(host, n, pkt);
    hide Eval, Matches, DevMatches, ObsInbound, ObsOutbound, ObsAccept;
    var logs := [ObsInbound(host, n, "tcp"), ObsInbound(host, n, "udp"), ObsOutbound(host, n)];
    assert logs[0] in logs && logs[1] in logs && logs[2] in logs;
    LogSegment(chains, logs, pkt, depth);
  }

  lemma {:induction false} ObsNetworksDecide(ns: seq<string>, host: string, nflog: bool, chains: FwChains, pkt: Packet, depth: nat)
    ensures var e := Eval(chains, EachNetwork(ns, ObsNetwork(host, nflog)), pkt, depth);
            var out := DevMatches(host, pkt.outDev) && exists n :: n in ns && DevMatches(n, pkt.inDev);
            var inbound := DevMatches(host, pkt.inDev) && exists n :: n in ns && DevMatches(n, pkt.outDev);
            && e.verdict == (if out then Accepted else Fell)
            && (forall g :: g in e.log ==> g == NS_ALLOW && (out || inbound))
            && (NS_ALLOW in e.log <==> nflog && pkt.state == New && (out || (inbound && OpensFlow(pkt))))
    decreases |ns|
  {
    if ns != [] {
      var init, last := ns[..|ns| - 1], ns[|ns| - 1];
      assert forall n :: n in ns <==> n in init || n == last;
      ObsNetworksDecide(init, host, nflog, chains, pkt, depth);
      ObsNetworkDecides(host, last, nflog, chains, pkt, depth);
      EvalConcat(chains, EachNetwork(init, ObsNetwork(host, nflog)), ObsNetwork(host, nflog)(last), pkt, depth);
    }
  }

  lemma {:induction false} ObsBaseDecides(env: Env, nflog: bool, chains: FwChains, pkt: Packet, depth: nat)
    ensures var e := Eval(chains, ObsRules(env.networks, env.hostInterface, nflog), pkt, depth);
            && e.verdict == (if LeavesHost(env, pkt) then Accepted else Returned)
            && (forall g :: g in e.log ==> g == NS_ALLOW && (LeavesHost(env, pkt) || EntersHost(env, pkt)))
            && (NS_ALLOW in e.log <==> nflog && pkt.state == New && (LeavesHost(env, pkt) || (EntersHost(env, pkt) && OpensFlow(pkt))))
  {
    ObsNetworksDecide(env.networks, env.hostInterface, nflog, chains, pkt, depth);
    EvalConcat(chains, EachNetwork(env.networks, ObsNetwork(env.hostInterface, nflog)), [RETURN_RULE], pkt, depth);
    OneRule(chains, RETURN_RULE, pkt, depth);
  }

  // ---- a whole user chain ---------------------------------------------------------------

  lemma BaseHasOtherTargets(c: Chain, np: NetworkPolicy, env: Env)
    requires UserChain(c)
    ensures forall r :: r in AddAll([], BaseRules(c, np, env)) ==> r.target != UserAction(c)
    ensures forall r, p :: r in AddAll([], BaseRules(c, np, env)) && Resolves(c, p, env) ==> r != UserLogRule(c, p, env)
  {
    AddAllElements([], BaseRules(c, np, env));
    forall r | r in BaseRules(c, np, env)
      ensures r.target != UserAction(c)
      ensures r.target == Nflog ==> Tells(r.match_.nflogPrefix, UserAction(c) != Accept)
    {
      if c == RaindEW {
        EWRulesOppose(env.networks, np.ewLogging, r);
      } else if c == RaindNsObs {
        ObsRulesOppose(env.networks, env.hostInterface, np.nsLogging, r);
      } else {
        EnfRulesOppose(env.networks, env.hostInterface, np.nsLogging, r);
      }
    }
    hide BaseRules, AddAll, UserModel;
  }

  lemma EWRulesOppose(ns: seq<string>, nflog: bool, r: FwRule)
    requires r in EWRules(ns, nflog)
    ensures r.target != Accept && (r.target == Nflog ==> Tells(r.match_.nflogPrefix, false))
  {
    if r in EachNetwork(ns, EWLog) {
      var n := EachNetworkOrigin(ns, EWLog, r);
    } else if r in EachNetwork(ns, EWDrop) {
      var n := EachNetworkOrigin(ns, EWDrop, r);
    }
  }

  lemma ObsRulesOppose(ns: seq<string>, host: string, nflog: bool, r: FwRule)
    requires r in ObsRules(ns, host, nflog)
    ensures r.target != Drop && (r.target == Nflog ==> Tells(r.match_.nflogPrefix, true))
  {
    if r in EachNetwork(ns, ObsNetwork(host, nflog)) {
      var n := EachNetworkOrigin(ns, ObsNetwork(host, nflog), r);
    }
  }

  lemma EnfRulesOppose(ns: seq<string>, host: string, nflog: bool, r: FwRule)
    requires r in EnfRules(ns, host, nflog)
    ensures r.target != Accept && (r.target == Nflog ==> Tells(r.match_.nflogPrefix, false))
  {
    if r in EachNetwork(ns, EnfLog(host)) {
      var n := EachNetworkOrigin(ns, EnfLog(host), r);
    } else if r in EachNetwork(ns, EnfDrop(host)) {
      var n := EachNetworkOrigin(ns, EnfDrop(host), r);
    }
  }

  /** The packets a north-south or east-west base decides, and how. */
  ghost predicate BaseDenies(c: Chain, env: Env, pkt: Packet) {
    if c == RaindEW then StaysOnBridge(env, pkt) || (RaindDev(pkt.inDev) && RaindDev(pkt.outDev))
    else LeavesHost(env, pkt)
  }

  /** The active chain for a mode. */
  predicate Active(c: Chain, np: NetworkPolicy) {
    c == RaindEW || c == (if np.nsMode == Enforce then RaindNsEnf else RaindNsObs)
  }

  function Opposite(c: Chain): Verdict {
    if UserAction(c) == Accept then Dropped else Accepted
  }

  lemma {:induction false} BaseDecides(c: Chain, np: NetworkPolicy, env: Env, chains: FwChains, pkt: Packet, depth: nat)
    requires UserChain(c) && Active(c, np)
    ensures var e := Eval(chains, AddAll([], BaseRules(c, np, env)), pkt, depth);
            && e.verdict == (if BaseDenies(c, env, pkt) then Opposite(c) else Returned)
            && (forall g :: g in e.log ==> Tells(g, c == RaindNsObs) &&
                                           (BaseDenies(c, env, pkt) || (c == RaindNsObs && g == NS_ALLOW && EntersHost(env, pkt))))
            && (forall g :: g in e.log ==> np.Logging(c) && pkt.state == New && g == LogPrefix(ScopeOf(c), c == RaindNsObs, "predefined"))
            && (np.Logging(c) && pkt.state == New && BaseDenies(c, env, pkt) && (c == RaindEW ==> pkt.bridged || !StaysOnBridge(env, pkt))
                ==> exists g :: g in e.log && Tells(g, c == RaindNsObs))
  {
    DedupKeepsMeaning(chains, BaseRules(c, np, env), pkt, depth);
    if c == RaindEW {
      EWBaseDecides(env, np.ewLogging, chains, pkt, depth);
    } else if c == RaindNsObs {
      ObsBaseDecides(env, np.nsLogging, chains, pkt, depth);
    } else {
      EnfBaseDecides(env, np.nsLogging, chains, pkt, depth);
    }
  }

  /** A log line says ALLOW of an accepted packet and DENY of a dropped one. */
  ghost predicate LogPrefixTrue(g: LogPrefix, v: Verdict) {
    Decided(v) && Tells(g, v == Accepted)
  }

  function ChainVerdict(covered: bool, denied: bool, c: Chain): Verdict {
    if covered then VerdictOf(UserAction(c)) else if denied then Opposite(c) else Returned
  }

  /** A line stands for a new packet on a logged side, and names a covering policy of the store or the predefined rules. */
  ghost predicate LineExplained(g: LogPrefix, c: Chain, np: NetworkPolicy, env: Env, pkt: Packet) {
    && np.Logging(c) && pkt.state == New
    && (NamesPolicy(g, c, np, env, pkt) || g == LogPrefix(ScopeOf(c), c == RaindNsObs, "predefined"))
  }

  /** What one active user chain makes of a packet: its verdict, the truth of its log lines, what they
      name, and whether it logged. */
  ghost predicate ChainOutcome(c: Chain, np: NetworkPolicy, env: Env, pkt: Packet, e: Outcome) {
    && e.verdict == ChainVerdict(Covered(c, np, env, pkt), BaseDenies(c, env, pkt), c)
    && (forall g :: g in e.log ==> LogPrefixTrue(g, e.verdict) || InboundLine(g, c, env, pkt, e.verdict))
    && (forall g :: g in e.log ==> LineExplained(g, c, np, env, pkt))
    && (np.Logging(c) && pkt.state == New && Decided(e.verdict) && (c == RaindEW ==> pkt.bridged || !StaysOnBridge(env, pkt))
        ==> exists g :: g in e.log && LogPrefixTrue(g, e.verdict))
  }

  /** The observe-mode line for new traffic entering through the host interface. */
  ghost predicate InboundLine(g: LogPrefix, c: Chain, env: Env, pkt: Packet, v: Verdict) {
    c == RaindNsObs && g == NS_ALLOW && EntersHost(env, pkt) && v == Returned
  }

  lemma {:induction false} ChainDecides(c: Chain, np: NetworkPolicy, env: Env, chains: FwChains, pkt: Packet, depth: nat)
    requires UserChain(c) && Active(c, np)
    ensures ChainOutcome(c, np, env, pkt, Eval(chains, UserChainRules(c, np, env), pkt, depth))
  {
    hide Eval, Stacked, BaseRules, UserRules, AddAll, InsertAll, NamesPolicy;
    var base, rules := AddAll([], BaseRules(c, np, env)), UserRules(c, np.List(c), env, np.Logging(c));
    var head := Stacked(base, rules);
    BaseHasOtherTargets(c, np, env);
    StackedIsUserHead(c, base, np, env);
    HeadDecides(c, head, np, env, chains, pkt, depth);
    BaseDecides(c, np, env, chains, pkt, depth);
    StackedSplits(base, rules);
    EvalConcat(chains, head, base, pkt, depth);
    var h, b := Eval(chains, head, pkt, depth), Eval(chains, base, pkt, depth);
    if np.Logging(c) && pkt.state == New {
      if h.verdict != Fell {
        HeadLogs(c, base, np, env, chains, pkt, depth);
      } else if BaseDenies(c, env, pkt) && (c == RaindEW ==> pkt.bridged || !StaysOnBridge(env, pkt)) {
        var g :| g in b.log && Tells(g, c == RaindNsObs);
        assert g in h.log + b.log;
      }
    }
  }

  // ---- the whole table ------------------------------------------------------------------

  /** RAIND-ROOT: return traffic passes, then the east-west chain, then the active north-south chain. */
  function RootOutcome(pkt: Packet, ew: Outcome, ns: Outcome): Outcome {
    if ReturnTraffic(pkt) then Outcome(Accepted, [])
    else if Decided(ew.verdict) then ew
    else Outcome(if Decided(ns.verdict) then ns.verdict else Returned, ew.log + ns.log)
  }

  lemma {:induction false} RootEval(chains: FwChains, enforce: bool, pkt: Packet, depth: nat)
    requires depth > 0
    requires RaindEW in chains && RaindNsObs in chains && RaindNsEnf in chains
    ensures Eval(chains, RootRules(enforce), pkt, depth) ==
            RootOutcome(pkt, Eval(chains, chains[RaindEW], pkt, depth - 1),
                        Eval(chains, chains[if enforce then RaindNsEnf else RaindNsObs], pkt, depth - 1))
  {
    var rules := RootRules(enforce);
    OneRule(chains, rules[0], pkt, depth);
    OneRule(chains, RETURN_RULE, pkt, depth);
    OneJump(chains, rules[1], pkt, depth);
    OneJump(chains, rules[2], pkt, depth);
    assert rules == [rules[0]] + ([rules[1]] + ([rules[2]] + [rules[3]]));
    EvalConcat(chains, [rules[2]], [rules[3]], pkt, depth);
    EvalConcat(chains, [rules[1]], [rules[2]] + [rules[3]], pkt, depth);
    EvalConcat(chains, [rules[0]], [rules[1]] + ([rules[2]] + [rules[3]]), pkt, depth);
    var ew := Eval(chains, chains[RaindEW], pkt, depth - 1);
    var ns := Eval(chains, chains[if enforce then RaindNsEnf else RaindNsObs], pkt, depth - 1);
    assert ns.log + [] == ns.log && ew.log + (ns.log + []) == ew.log + ns.log;
  }

  lemma {:induction false} OneJump(chains: FwChains, r: FwRule, pkt: Packet, depth: nat)
    requires depth > 0 && r.match_ == ANYTHING && r.target.Jump? && r.target.chain in chains
    ensures var sub := Eval(chains, chains[r.target.chain], pkt, depth - 1);
            Eval(chains, [r], pkt, depth) == if Decided(sub.verdict) then sub else Outcome(Fell, sub.log)
  {
    var sub := Eval(chains, chains[r.target.chain], pkt, depth - 1);
    assert sub.log + [] == sub.log;
  }

  /** The tables a commit leaves, as far as RAIND-ROOT is concerned. */
  ghost predicate Committed(chains: FwChains, np: NetworkPolicy, env: Env) {
    && RaindRoot in chains && chains[RaindRoot] == RootRules(np.nsMode == Enforce)
    && forall c :: UserChain(c) ==> c in chains && chains[c] == UserChainRules(c, np, env)
  }

  lemma CommitChainsCommitted(c0: FwChains, np: NetworkPolicy, env: Env)
    requires Forward in c0
    ensures Committed(CommitChains(c0, np, env), np, env)
  {
    hide UserChainRules, RootRules, WithForwardJump;
  }

  function ActiveNs(np: NetworkPolicy): Chain {
    if np.nsMode == Enforce then RaindNsEnf else RaindNsObs
  }

  lemma {:induction false} CommittedChainOutcome(chains: FwChains, c: Chain, np: NetworkPolicy, env: Env, pkt: Packet, depth: nat)
    requires Committed(chains, np, env) && UserChain(c) && Active(c, np)
    ensures ChainOutcome(c, np, env, pkt, Eval(chains, chains[c], pkt, depth))
  {
    ChainDecides(c, np, env, chains, pkt, depth);
  }

  lemma RootWalk(chains: FwChains, np: NetworkPolicy, env: Env, pkt: Packet, depth: nat) returns (ew: Outcome, ns: Outcome)
    requires Committed(chains, np, env) && depth > 0
    ensures Eval(chains, chains[RaindRoot], pkt, depth) == RootOutcome(pkt, ew, ns)
    ensures ChainOutcome(RaindEW, np, env, pkt, ew) && ChainOutcome(ActiveNs(np), np, env, pkt, ns)
  {
    hide Eval, ChainOutcome, RootOutcome, RootRules, UserChainRules;
    RootEval(chains, np.nsMode == Enforce, pkt, depth);
    CommittedChainOutcome(chains, RaindEW, np, env, pkt, depth - 1);
    CommittedChainOutcome(chains, ActiveNs(np), np, env, pkt, depth - 1);
    ew := Eval(chains, chains[RaindEW], pkt, depth - 1);
    ns := Eval(chains, chains[ActiveNs(np)], pkt, depth - 1);
  }

  lemma RootDecision(np: NetworkPolicy, env: Env, pkt: Packet, ew: Outcome, ns: Outcome)
    requires ChainOutcome(RaindEW, np, env, pkt, ew) && ChainOutcome(ActiveNs(np), np, env, pkt, ns)
    ensures RootOutcome(pkt, ew, ns).verdict == Decision(np, env, pkt)
  {
  }

  /** MAIN: after a commit RAIND-ROOT decides every packet by the policy store, for any networks,
      policies, duplicates and logging flags. */
  lemma {:induction false} CommitDecides(chains: FwChains, np: NetworkPolicy, env: Env, pkt: Packet, depth: nat)
    requires Committed(chains, np, env) && depth > 0
    ensures Eval(chains, chains[RaindRoot], pkt, depth).verdict == Decision(np, env, pkt)
  {
    var ew, ns := RootWalk(chains, np, env, pkt, depth);
    RootDecision(np, env, pkt, ew, ns);
  }

  /** MAIN: netflow log lines tell the truth. The one exception is the observe-mode line for
      traffic entering from outside: it says ALLOW although RAIND-ROOT does not decide the packet. */
  lemma {:induction false} NetflowTellsTruth(chains: FwChains, np: NetworkPolicy, env: Env, pkt: Packet, depth: nat, g: LogPrefix)
    requires Committed(chains, np, env) && depth > 0
    requires g in Eval(chains, chains[RaindRoot], pkt, depth).log
    ensures var v := Eval(chains, chains[RaindRoot], pkt, depth).verdict;
            LogPrefixTrue(g, v) || InboundLine(g, ActiveNs(np), env, pkt, v)
  {
    var ew, ns := RootWalk(chains, np, env, pkt, depth);
  }

  /** MAIN: every line is explained by the store: it names a policy of that id that covers the packet, or the
      predefined rules, and with logging off on its side there is none. */
  lemma {:induction false} NetflowNamesPolicy(chains: FwChains, np: NetworkPolicy, env: Env, pkt: Packet, depth: nat, g: LogPrefix)
    requires Committed(chains, np, env) && depth > 0
    requires g in Eval(chains, chains[RaindRoot], pkt, depth).log
    ensures LineExplained(g, RaindEW, np, env, pkt) || LineExplained(g, ActiveNs(np), np, env, pkt)
  {
    var ew, ns := RootWalk(chains, np, env, pkt, depth);
    hide LineExplained;
  }

  /** MAIN: with logging on, every new packet RAIND-ROOT decides leaves a line; only unbridged
      traffic dropped on a single bridge does not. */
  lemma {:induction false} NetflowIsComplete(chains: FwChains, np: NetworkPolicy, env: Env, pkt: Packet, depth: nat)
    requires Committed(chains, np, env) && depth > 0
    requires np.ewLogging && np.nsLogging && pkt.state == New
    requires Decided(Eval(chains, chains[RaindRoot], pkt, depth).verdict)
    requires pkt.bridged || !StaysOnBridge(env, pkt)
    ensures var e := Eval(chains, chains[RaindRoot], pkt, depth);
            exists g :: g in e.log && LogPrefixTrue(g, e.verdict)
  {
    var ew, ns := RootWalk(chains, np, env, pkt, depth);
    LoggedThrough(np, env, pkt, ew, ns);
  }

  lemma LoggedThrough(np: NetworkPolicy, env: Env, pkt: Packet, ew: Outcome, ns: Outcome)
    requires ChainOutcome(RaindEW, np, env, pkt, ew) && ChainOutcome(ActiveNs(np), np, env, pkt, ns)
    requires np.ewLogging && np.nsLogging && pkt.state == New && (pkt.bridged || !StaysOnBridge(env, pkt))
    requires Decided(RootOutcome(pkt, ew, ns).verdict)
    ensures exists g :: g in RootOutcome(pkt, ew, ns).log && LogPrefixTrue(g, RootOutcome(pkt, ew, ns).verdict)
  {
    if Decided(ew.verdict) {
      var g :| g in ew.log && LogPrefixTrue(g, ew.verdict);
    } else {
      var g :| g in ns.log && LogPrefixTrue(g, ns.verdict);
      assert g in ew.log + ns.log;
    }
  }
}

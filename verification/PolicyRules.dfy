/** The match part of the filter rules the policy service writes, the packets they see,
    and the evaluation of a chain. */
module PolicyRules {
  import opened Iptables

  datatype CtState = New | Established | Related | Invalid

  /** An address match: nothing, or an IPv4 network given by its base and prefix length. */
  datatype AddrSpec = AnyAddr | Net(base: nat, bits: nat)

  /** A --nflog-prefix "RAIND-<scope>-<verdict>,id=<id>". */
  datatype Scope = EastWest | NorthSouth
  datatype LogPrefix = NoPrefix | LogPrefix(scope: Scope, allow: bool, id: string)

  datatype RuleModel = RuleModel(
    conntrack: bool,
    ctstate: seq<CtState>,
    syn: bool,
    physdev: bool,
    physdevIsBridge: bool,
    inputDev: string,
    outputDev: string,
    inputPhysdev: string,
    outputPhysdev: string,
    source: AddrSpec,
    destination: AddrSpec,
    protocol: string,
    sourcePort: int,
    destPort: int,
    nflogGroup: int,
    nflogPrefix: LogPrefix)

  /** RuleModel{}: no match at all. */
  const ANYTHING := RuleModel(false, [], false, false, false, "", "", "", "", AnyAddr, AnyAddr, "", 0, 0, 0, NoPrefix)

  type FwRule = Rule<RuleModel>
  type FwChains = Chains<RuleModel>

  type Port = p: int | 0 <= p <= 65535

  datatype Packet = Packet(
    state: CtState,
    syn: bool,
    bridged: bool,
    inDev: string,
    outDev: string,
    physIn: string,
    physOut: string,
    src: nat,
    dst: nat,
    protocol: string,
    sport: Port,
    dport: Port)

  const PORT_PROTOCOLS: set<string> := {"tcp", "udp", "udplite", "sctp", "dccp"}

  /** iptables refuses a port match without a protocol that has ports, or a port out of range. */
  predicate AcceptedByIptables(m: RuleModel) {
    && (m.sourcePort > 0 ==> m.protocol in PORT_PROTOCOLS && m.sourcePort <= 65535)
    && (m.destPort > 0 ==> m.protocol in PORT_PROTOCOLS && m.destPort <= 65535)
  }

  /** A trailing '+' in an interface name matches every name with that prefix. */
  predicate DevMatches(spec: string, dev: string) {
    if spec == "" then true
    else if spec[|spec| - 1] == '+' then spec[..|spec| - 1] <= dev
    else spec == dev
  }

  function Pow2(n: nat): (r: nat)
    ensures r > 0
  {
    if n == 0 then 1 else 2 * Pow2(n - 1)
  }

  predicate AddrMatches(spec: AddrSpec, a: nat) {
    match spec
    case AnyAddr => true
    case Net(base, bits) => bits <= 32 && a / Pow2(32 - bits) == base / Pow2(32 - bits)
  }

  predicate Matches(m: RuleModel, p: Packet) {
    && (m.conntrack && m.ctstate != [] ==> p.state in m.ctstate)
    && (m.physdevIsBridge ==> p.bridged)
    && DevMatches(m.inputDev, p.inDev)
    && DevMatches(m.outputDev, p.outDev)
    && DevMatches(m.inputPhysdev, p.physIn)
    && DevMatches(m.outputPhysdev, p.physOut)
    && AddrMatches(m.source, p.src)
    && AddrMatches(m.destination, p.dst)
    && (m.protocol == "" || m.protocol == p.protocol)
    && (m.syn ==> p.syn)
    && (m.sourcePort > 0 ==> m.sourcePort == p.sport)
    && (m.destPort > 0 ==> m.destPort == p.dport)
  }

  /** How a chain leaves a packet: decided, sent back by RETURN, or run off its end. */
  datatype Verdict = Accepted | Dropped | Returned | Fell

  datatype Outcome = Outcome(verdict: Verdict, log: seq<LogPrefix>)

  predicate Decided(v: Verdict) {
    v.Accepted? || v.Dropped?
  }

  /** The kernel's walk over `rules`. `depth` bounds the nesting of jumps; the kernel has no
      cyclic chains, so any depth at least the height of the jump graph gives the same walk. */
  function Eval(chains: FwChains, rules: seq<FwRule>, p: Packet, depth: nat): Outcome
    decreases depth, |rules|
  {
    if rules == [] then Outcome(Fell, [])
    else
      var r := rules[0];
      if !Matches(r.match_, p) then Eval(chains, rules[1..], p, depth)
      else match r.target
        case Accept => Outcome(Accepted, [])
        case Drop => Outcome(Dropped, [])
        case Return => Outcome(Returned, [])
        case Nflog => Eval(chains, rules[1..], p, depth).(log := [r.match_.nflogPrefix] + Eval(chains, rules[1..], p, depth).log)
        case Jump(c) =>
          if c in chains && depth > 0 then
            var sub := Eval(chains, chains[c], p, depth - 1);
            if Decided(sub.verdict) then sub
            else
              var rest := Eval(chains, rules[1..], p, depth);
              Outcome(rest.verdict, sub.log + rest.log)
          else Eval(chains, rules[1..], p, depth)
        case _ => Eval(chains, rules[1..], p, depth)
  }

  /** Running e, and f only where e fell off its end. */
  function Then(e: Outcome, f: Outcome): Outcome {
    if e.verdict == Fell then Outcome(f.verdict, e.log + f.log) else e
  }

  lemma {:induction false} EvalConcat(chains: FwChains, a: seq<FwRule>, b: seq<FwRule>, p: Packet, depth: nat)
    ensures Eval(chains, a + b, p, depth) == Then(Eval(chains, a, p, depth), Eval(chains, b, p, depth))
    decreases |a|
  {
    if a == [] {
      assert a + b == b;
    } else {
      assert (a + b)[1..] == a[1..] + b;
      EvalConcat(chains, a[1..], b, p, depth);
    }
  }

  // ---- deduplication by -C -------------------------------------------------------------

  /** AddRuleToChain: -A unless -C finds the rule. */
  function AddOnce<T(==)>(rules: seq<T>, r: T): seq<T> {
    if r in rules then rules else rules + [r]
  }

  /** InsertRuleToChain: -I at the head unless -C finds the rule. */
  function InsertOnce<T(==)>(rules: seq<T>, r: T): seq<T> {
    if r in rules then rules else [r] + rules
  }

  function AddAll<T(==)>(rules: seq<T>, more: seq<T>): seq<T>
    decreases |more|
  {
    if more == [] then rules
    else AddOnce(AddAll(rules, more[..|more| - 1]), more[|more| - 1])
  }

  function InsertAll<T(==)>(rules: seq<T>, more: seq<T>): seq<T>
    decreases |more|
  {
    if more == [] then rules
    else InsertOnce(InsertAll(rules, more[..|more| - 1]), more[|more| - 1])
  }

  lemma {:induction false} AddAllSnoc<T>(rules: seq<T>, more: seq<T>, r: T)
    ensures AddAll(rules, more + [r]) == AddOnce(AddAll(rules, more), r)
  {
    assert (more + [r])[..|more + [r]| - 1] == more;
  }

  lemma {:induction false} InsertAllSnoc<T>(rules: seq<T>, more: seq<T>, r: T)
    ensures InsertAll(rules, more + [r]) == InsertOnce(InsertAll(rules, more), r)
  {
    assert (more + [r])[..|more + [r]| - 1] == more;
  }

  lemma {:induction false} AddAllElements<T>(rules: seq<T>, more: seq<T>)
    ensures forall r :: r in AddAll(rules, more) <==> r in rules || r in more
    decreases |more|
  {
    if more != [] {
      var init, last := more[..|more| - 1], more[|more| - 1];
      AddAllElements(rules, init);
      assert more == init + [last];
    }
  }

  /** A rule already walked past without ending the walk would end nothing and log nothing new. */
  lemma {:induction false} SeenRuleAddsNothing(chains: FwChains, rules: seq<FwRule>, r: FwRule, p: Packet, depth: nat)
    requires r in rules
    requires Eval(chains, rules, p, depth).verdict == Fell
    ensures Eval(chains, [r], p, depth).verdict == Fell
    ensures forall g :: g in Eval(chains, [r], p, depth).log ==> g in Eval(chains, rules, p, depth).log
    decreases |rules|
  {
    assert rules == [rules[0]] + rules[1..];
    EvalConcat(chains, [rules[0]], rules[1..], p, depth);
    if rules[0] != r {
      SeenRuleAddsNothing(chains, rules[1..], r, p, depth);
    }
  }

  /** Skipping the rules -C finds changes neither the verdict nor the set of log lines. */
  lemma {:induction false} DedupKeepsMeaning(chains: FwChains, list: seq<FwRule>, p: Packet, depth: nat)
    ensures Eval(chains, AddAll([], list), p, depth).verdict == Eval(chains, list, p, depth).verdict
    ensures forall g :: g in Eval(chains, AddAll([], list), p, depth).log <==> g in Eval(chains, list, p, depth).log
    decreases |list|
  {
    if list != [] {
      var init, last := list[..|list| - 1], list[|list| - 1];
      assert list == init + [last];
      var done := AddAll([], init);
      DedupKeepsMeaning(chains, init, p, depth);
      AddAllElements([], init);
      EvalConcat(chains, init, [last], p, depth);
      if last in done {
        if Eval(chains, init, p, depth).verdict == Fell {
          SeenRuleAddsNothing(chains, done, last, p, depth);
        }
      } else {
        EvalConcat(chains, done, [last], p, depth);
      }
    }
  }

  // ---- user rules stacked on top of a base ----------------------------------------------

  /** The rules InsertAll put in front of the base. */
  function Stacked<T(==)>(base: seq<T>, more: seq<T>): seq<T>
    decreases |more|
  {
    if more == [] then []
    else
      var head := Stacked(base, more[..|more| - 1]);
      var last := more[|more| - 1];
      if last in head || last in base then head else [last] + head
  }

  lemma {:induction false} StackedSnoc<T>(base: seq<T>, u: seq<T>, r: T)
    ensures Stacked(base, u + [r]) ==
            if r in Stacked(base, u) || r in base then Stacked(base, u) else [r] + Stacked(base, u)
  {
    assert (u + [r])[..|u + [r]| - 1] == u;
  }

  lemma {:induction false} StackedSplits<T>(base: seq<T>, more: seq<T>)
    ensures InsertAll(base, more) == Stacked(base, more) + base
    ensures forall r :: r in Stacked(base, more) ==> r in more
    ensures forall r :: r in more ==> r in Stacked(base, more) || r in base
    decreases |more|
  {
    if more != [] {
      var init, last := more[..|more| - 1], more[|more| - 1];
      StackedSplits(base, init);
      assert more == init + [last];
      var head := Stacked(base, init);
      assert [last] + (head + base) == ([last] + head) + base;
    }
  }

  /** A head that only logs and, when it decides, always decides the same way. */
  predicate OneSided(head: seq<FwRule>, action: Target) {
    (action == Accept || action == Drop) && forall r :: r in head ==> r.target == action || r.target == Nflog
  }

  function VerdictOf(action: Target): Verdict
    requires action == Accept || action == Drop
  {
    if action == Accept then Accepted else Dropped
  }

  /** Order and duplicates do not matter in a one-sided head. */
  lemma {:induction false} OneSidedVerdict(chains: FwChains, head: seq<FwRule>, action: Target, p: Packet, depth: nat)
    requires OneSided(head, action)
    ensures Eval(chains, head, p, depth).verdict ==
            if exists r :: r in head && r.target == action && Matches(r.match_, p) then VerdictOf(action) else Fell
    ensures forall g :: g in Eval(chains, head, p, depth).log ==>
              exists r :: r in head && r.target == Nflog && Matches(r.match_, p) && r.match_.nflogPrefix == g
    decreases |head|
  {
    if head != [] {
      var r0 := head[0];
      assert forall r :: r in head <==> r == r0 || r in head[1..];
      OneSidedVerdict(chains, head[1..], action, p, depth);
    }
  }
}

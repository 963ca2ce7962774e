/** What a policy commit has to install: the policy store and the cluster it is resolved
    against, the chains built from them, and the packet decision those chains stand for. */
module PolicyCompiler {
  import opened Iptables
  import opened PolicyRules

  datatype NsMode = Observe | Enforce | ObserveNextCommit | EnforceNextCommit

  datatype Status = BeforeCommit | Applied | Unresolved | RemoveNextCommit

  datatype HostInfo = HostInfo(containerName: string, displayName: string, address: AddrSpec)

  datatype Policy = Policy(
    id: string,
    status: Status,
    reason: string,
    source: HostInfo,
    destination: HostInfo,
    protocol: string,
    destPort: int,
    comment: string,
    managedBy: string,
    ownerKind: string,
    ownerNS: string,
    ownerName: string,
    ownerId: string)

  /** The content of the policy store (npm). */
  datatype NetworkPolicy = NetworkPolicy(
    nsMode: NsMode,
    ewLogging: bool,
    nsLogging: bool,
    eastWest: seq<Policy>,
    nsObserve: seq<Policy>,
    nsEnforce: seq<Policy>)
  {
    function List(c: Chain): seq<Policy> {
      if c == RaindEW then eastWest else if c == RaindNsObs then nsObserve else nsEnforce
    }

    function WithList(c: Chain, l: seq<Policy>): NetworkPolicy {
      if c == RaindEW then this.(eastWest := l)
      else if c == RaindNsObs then this.(nsObserve := l)
      else this.(nsEnforce := l)
    }

    function Logging(c: Chain): bool {
      if c == RaindEW then ewLogging else nsLogging
    }
  }

  predicate UserChain(c: Chain) {
    c == RaindEW || c == RaindNsObs || c == RaindNsEnf
  }

  datatype Allocation = Allocation(bridge: string, address: nat, veth: string)

  /** What the container store (csm) and the address store (ipam) answer during one commit. */
  datatype Env = Env(
    idByName: map<string, string>,
    ids: set<string>,
    allocations: map<string, Allocation>,
    networks: seq<string>,
    hostInterface: string)

  /** The calls that can fail: no network configured, no default interface. */
  predicate Configured(env: Env) {
    env.networks != [] && env.hostInterface != ""
  }

  /** A name, else an id, else a container still to be built. */
  function ResolveContainer(env: Env, str: string): string {
    if str in env.idByName then env.idByName[str]
    else if str in env.ids then str
    else ""
  }

  predicate HasVeth(env: Env, name: string) {
    ResolveContainer(env, name) in env.allocations
  }

  function AllocationOf(env: Env, name: string): Allocation
    requires HasVeth(env, name)
  {
    env.allocations[ResolveContainer(env, name)]
  }

  // ---- rules of one user policy ---------------------------------------------------------

  predicate Resolves(c: Chain, p: Policy, env: Env) {
    && HasVeth(env, p.source.containerName)
    && (c == RaindEW ==> HasVeth(env, p.destination.containerName))
  }

  function UserModel(c: Chain, p: Policy, env: Env): RuleModel
    requires Resolves(c, p, env)
  {
    var src := AllocationOf(env, p.source.containerName);
    if c == RaindEW then
      ANYTHING.(physdev := true, physdevIsBridge := true,
      inputPhysdev := src.veth, outputPhysdev := AllocationOf(env, p.destination.containerName).veth,
      protocol := p.protocol, destPort := p.destPort)
    else
      ANYTHING.(inputDev := src.bridge, source := Net(src.address, 32),
      outputDev := env.hostInterface, destination := p.destination.address,
      protocol := p.protocol, destPort := p.destPort)
  }

  function UserAction(c: Chain): Target {
    if c == RaindNsObs then Drop else Accept
  }

  function UserRule(c: Chain, p: Policy, env: Env): FwRule
    requires Resolves(c, p, env)
  {
    Rule(UserModel(c, p, env), UserAction(c))
  }

  function UserPrefix(c: Chain, id: string): LogPrefix {
    if c == RaindEW then LogPrefix(EastWest, true, id)
    else LogPrefix(NorthSouth, c != RaindNsObs, id)
  }

  function UserLogRule(c: Chain, p: Policy, env: Env): FwRule
    requires Resolves(c, p, env)
  {
    var group := if c == RaindEW then 10 else if c == RaindNsObs then 11 else 12;
    Rule(UserModel(c, p, env).(conntrack := true, ctstate := [New],
         nflogGroup := group, nflogPrefix := UserPrefix(c, p.id)), Nflog)
  }

  /** The policy ends up in the kernel: it stays, its containers resolve and iptables takes the rule. */
  predicate Effective(c: Chain, p: Policy, env: Env) {
    && p.status != RemoveNextCommit
    && Resolves(c, p, env)
    && AcceptedByIptables(UserModel(c, p, env))
  }

  function RulesOf(c: Chain, p: Policy, env: Env, logging: bool): seq<FwRule> {
    if !Effective(c, p, env) then []
    else [UserRule(c, p, env)] + if logging then [UserLogRule(c, p, env)] else []
  }

  function UserRules(c: Chain, ps: seq<Policy>, env: Env, logging: bool): seq<FwRule> {
    if ps == [] then []
    else UserRules(c, ps[..|ps| - 1], env, logging) + RulesOf(c, ps[|ps| - 1], env, logging)
  }

  // ---- predefined rules -----------------------------------------------------------------

  function EachNetwork(networks: seq<string>, f: string -> seq<FwRule>): seq<FwRule> {
    if networks == [] then []
    else EachNetwork(networks[..|networks| - 1], f) + f(networks[|networks| - 1])
  }

  const RETURN_RULE := Rule(ANYTHING, Return)

  function RootRules(enforce: bool): seq<FwRule> {
    [Rule(ANYTHING.(conntrack := true, ctstate := [Established, Related]), Accept),
     Rule(ANYTHING, Jump(RaindEW)),
     Rule(ANYTHING, Jump(if enforce then RaindNsEnf else RaindNsObs)),
     RETURN_RULE]
  }

  const EW_DENY := LogPrefix(EastWest, false, "predefined")
  const NS_ALLOW := LogPrefix(NorthSouth, true, "predefined")
  const NS_DENY := LogPrefix(NorthSouth, false, "predefined")

  function EWLogRule(n: string): FwRule {
    Rule(ANYTHING.(conntrack := true, ctstate := [New], physdev := true, physdevIsBridge := true,
         inputDev := n, outputDev := n, nflogGroup := 10, nflogPrefix := EW_DENY), Nflog)
  }

  function EWDropRule(n: string): FwRule {
    Rule(ANYTHING.(inputDev := n, outputDev := n), Drop)
  }

  function EWLog(n: string): seq<FwRule> {
    [EWLogRule(n)]
  }

  function EWDrop(n: string): seq<FwRule> {
    [EWDropRule(n)]
  }

  const CROSS_LOG := Rule(ANYTHING.(conntrack := true, ctstate := [New], inputDev := "raind+", outputDev := "raind+",
                          nflogGroup := 10, nflogPrefix := EW_DENY), Nflog)
  const CROSS_DROP := Rule(ANYTHING.(inputDev := "raind+", outputDev := "raind+"), Drop)

  function EWRules(networks: seq<string>, nflog: bool): seq<FwRule> {
    (if nflog then EachNetwork(networks, EWLog) else [])
    + EachNetwork(networks, EWDrop)
    + (if nflog then [CROSS_LOG] else [])
    + [CROSS_DROP]
    + [RETURN_RULE]
  }

  function ObsInbound(host: string, n: string, proto: string): FwRule {
    Rule(ANYTHING.(conntrack := true, ctstate := [New], inputDev := host, outputDev := n, protocol := proto,
         syn := proto == "tcp", nflogGroup := 11, nflogPrefix := NS_ALLOW), Nflog)
  }

  function ObsOutbound(host: string, n: string): FwRule {
    Rule(ANYTHING.(conntrack := true, ctstate := [New], inputDev := n, outputDev := host,
         nflogGroup := 11, nflogPrefix := NS_ALLOW), Nflog)
  }

  function ObsAccept(host: string, n: string): FwRule {
    Rule(ANYTHING.(inputDev := n, outputDev := host), Accept)
  }

  function ObsNetwork(host: string, nflog: bool): string -> seq<FwRule> {
    n => (if nflog then [ObsInbound(host, n, "tcp"), ObsInbound(host, n, "udp"), ObsOutbound(host, n)] else [])
         + [ObsAccept(host, n)]
  }

  function ObsRules(networks: seq<string>, host: string, nflog: bool): seq<FwRule> {
    EachNetwork(networks, ObsNetwork(host, nflog)) + [RETURN_RULE]
  }

  function EnfLogRule(host: string, n: string): FwRule {
    Rule(ANYTHING.(conntrack := true, ctstate := [New], inputDev := n, outputDev := host,
         nflogGroup := 12, nflogPrefix := NS_DENY), Nflog)
  }

  function EnfDropRule(host: string, n: string): FwRule {
    Rule(ANYTHING.(inputDev := n, outputDev := host), Drop)
  }

  function EnfLog(host: string): string -> seq<FwRule> {
    n => [EnfLogRule(host, n)]
  }

  function EnfDrop(host: string): string -> seq<FwRule> {
    n => [EnfDropRule(host, n)]
  }

  function EnfRules(networks: seq<string>, host: string, nflog: bool): seq<FwRule> {
    (if nflog then EachNetwork(networks, EnfLog(host)) else [])
    + EachNetwork(networks, EnfDrop(host))
    + [RETURN_RULE]
  }

  /** The predefined part of a user chain; the inactive north-south chain gets none. */
  function BaseRules(c: Chain, np: NetworkPolicy, env: Env): seq<FwRule> {
    if c == RaindEW then EWRules(env.networks, np.ewLogging)
    else if c == RaindNsObs then
      if np.nsMode == Enforce then [] else ObsRules(env.networks, env.hostInterface, np.nsLogging)
    else
      if np.nsMode == Enforce then EnfRules(env.networks, env.hostInterface, np.nsLogging) else []
  }

  // ---- the result of a commit -----------------------------------------------------------

  function FixMode(m: NsMode): NsMode {
    match m
    case ObserveNextCommit => Observe
    case EnforceNextCommit => Enforce
    case _ => m
  }

  function NotFound(name: string): string {
    "container: " + name + " not found"
  }

  function CommitOne(c: Chain, p: Policy, env: Env): seq<Policy> {
    if p.status == RemoveNextCommit then []
    else if !HasVeth(env, p.source.containerName) then
      [p.(status := Unresolved, reason := NotFound(p.source.containerName))]
    else if !Resolves(c, p, env) then
      [p.(status := Unresolved, reason := NotFound(p.destination.containerName))]
    else if !Effective(c, p, env) then [p]
    else [p.(status := Applied, reason := "")]
  }

  function CommitList(c: Chain, ps: seq<Policy>, env: Env): seq<Policy> {
    if ps == [] then []
    else CommitList(c, ps[..|ps| - 1], env) + CommitOne(c, ps[|ps| - 1], env)
  }

  function CommitStore(np: NetworkPolicy, env: Env): NetworkPolicy {
    np.(nsMode := FixMode(np.nsMode),
    eastWest := CommitList(RaindEW, np.eastWest, env),
    nsObserve := CommitList(RaindNsObs, np.nsObserve, env),
    nsEnforce := CommitList(RaindNsEnf, np.nsEnforce, env))
  }

  function UserChainRules(c: Chain, np: NetworkPolicy, env: Env): seq<FwRule> {
    InsertAll(AddAll([], BaseRules(c, np, env)), UserRules(c, np.List(c), env, np.Logging(c)))
  }

  function WithForwardJump(rules: seq<FwRule>): seq<FwRule> {
    InsertOnce(rules, Rule(ANYTHING, Jump(RaindRoot)))
  }

  function SetChains(c0: FwChains, forward: seq<FwRule>, root: seq<FwRule>,
                     ew: seq<FwRule>, obs: seq<FwRule>, enf: seq<FwRule>): FwChains {
    c0[Forward := forward][RaindRoot := root][RaindEW := ew][RaindNsObs := obs][RaindNsEnf := enf]
  }

  /** The filter table after committing np, whose mode is already fixed, on top of c0. */
  function CommitChains(c0: FwChains, np: NetworkPolicy, env: Env): FwChains
    requires Forward in c0
  {
    SetChains(c0, WithForwardJump(c0[Forward]), RootRules(np.nsMode == Enforce),
              UserChainRules(RaindEW, np, env), UserChainRules(RaindNsObs, np, env), UserChainRules(RaindNsEnf, np, env))
  }

  // ---- what the policies mean -----------------------------------------------------------

  predicate TrafficMatches(p: Policy, pkt: Packet) {
    (p.protocol == "" || p.protocol == pkt.protocol) && (p.destPort > 0 ==> p.destPort == pkt.dport)
  }

  /** An east-west policy covers bridged traffic from its source's veth to its destination's;
      a north-south one covers traffic from its source's address out of the host interface. */
  predicate PolicyCovers(c: Chain, p: Policy, env: Env, pkt: Packet) {
    && Effective(c, p, env)
    && TrafficMatches(p, pkt)
    && var src := AllocationOf(env, p.source.containerName);
       if c == RaindEW then
         && pkt.bridged
         && DevMatches(src.veth, pkt.physIn)
         && DevMatches(AllocationOf(env, p.destination.containerName).veth, pkt.physOut)
       else
         && DevMatches(src.bridge, pkt.inDev)
         && pkt.src == src.address
         && DevMatches(env.hostInterface, pkt.outDev)
         && AddrMatches(p.destination.address, pkt.dst)
  }

  ghost predicate Covered(c: Chain, np: NetworkPolicy, env: Env, pkt: Packet) {
    exists p :: p in np.List(c) && PolicyCovers(c, p, env, pkt)
  }

  predicate RaindDev(dev: string) {
    "raind" <= dev
  }

  predicate StaysOnBridge(env: Env, pkt: Packet) {
    exists n :: n in env.networks && DevMatches(n, pkt.inDev) && DevMatches(n, pkt.outDev)
  }

  predicate LeavesHost(env: Env, pkt: Packet) {
    DevMatches(env.hostInterface, pkt.outDev) && exists n :: n in env.networks && DevMatches(n, pkt.inDev)
  }

  predicate EntersHost(env: Env, pkt: Packet) {
    DevMatches(env.hostInterface, pkt.inDev) && exists n :: n in env.networks && DevMatches(n, pkt.outDev)
  }

  predicate ReturnTraffic(pkt: Packet) {
    pkt.state == Established || pkt.state == Related
  }

  /** Default deny, allowed only if declared; Returned hands the packet back to FORWARD. */
  ghost function Decision(np: NetworkPolicy, env: Env, pkt: Packet): Verdict {
    if ReturnTraffic(pkt) then Accepted
    else if Covered(RaindEW, np, env, pkt) then Accepted
    else if StaysOnBridge(env, pkt) || (RaindDev(pkt.inDev) && RaindDev(pkt.outDev)) then Dropped
    else if np.nsMode == Enforce then
      if Covered(RaindNsEnf, np, env, pkt) then Accepted
      else if LeavesHost(env, pkt) then Dropped else Returned
    else
      if Covered(RaindNsObs, np, env, pkt) then Dropped
      else if LeavesHost(env, pkt) then Accepted else Returned
  }
}

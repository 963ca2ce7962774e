/** Turning stored NetworkPolicies and the ready pods into backend policies, and keeping the
    policy store in step with them. Maps and lists read from the stores are modelled as sets and
    maps that are walked in any order. */
module NetpolService {
  import opened Text
  import opened NetpolManifest
  import opened PolicyRules
  import opened PolicyCompiler
  import opened PolicyService

  const OWNER_KIND := "NetworkPolicy"
  const INFRA_PREFIX := "condenser-pod-infra-"

  datatype Pod = Pod(podId: string, templateId: string, name: string, namespace: string, labels: Labels,
                     state: string, stoppedByUser: bool)

  datatype Container = Container(id: string, name: string, podId: string, state: string)

  datatype Cluster = Cluster(pods: set<Pod>, containers: set<Container>, templates: map<string, seq<string>>)

  /** A stored NetworkPolicy (netpol), keyed by its id. */
  type Store = map<string, Manifest>

  datatype Endpoint = Endpoint(pod: Pod, container: Container)

  // ---- ready pods -------------------------------------------------------------------------

  predicate IsInfra(c: Container) {
    INFRA_PREFIX <= c.name
  }

  function PodMemberName(baseName: string, podId: string): string {
    if baseName == "" then baseName
    else baseName + "-" + (if |podId| > 8 then podId[|podId| - 8..] else podId)
  }

  predicate ExpectedMembersRunning(cluster: Cluster, pod: Pod, running: set<string>) {
    pod.templateId == "" ||
    (pod.templateId in cluster.templates &&
     forall n :: n in cluster.templates[pod.templateId] && n != "" ==> PodMemberName(n, pod.podId) in running)
  }

  function ContainersOf(cluster: Cluster, pod: Pod): set<Container> {
    set c | c in cluster.containers && c.podId == pod.podId
  }

  function MemberNames(cs: set<Container>): set<string> {
    set c | c in cs && !IsInfra(c) :: c.name
  }

  /** The pod runs, all its containers run, members are there as the template says, and c is its infra container. */
  predicate ReadyWith(cluster: Cluster, pod: Pod, c: Container) {
    var mine := ContainersOf(cluster, pod);
    && pod.state == "running" && !pod.stoppedByUser
    && (forall d :: d in mine ==> d.state == "running")
    && c in mine && IsInfra(c) && c.id != ""
    && MemberNames(mine) != {}
    && ExpectedMembersRunning(cluster, pod, MemberNames(mine))
  }

  /** The last eight characters, or all of them. */
  ghost predicate Tail8(podId: string, t: string) {
    |t| == (if |podId| < 8 then |podId| else 8) && exists h :: podId == h + t
  }

  /** A member container of the pod, by name. */
  ghost predicate HasMember(cluster: Cluster, pod: Pod, name: string) {
    exists d :: d in cluster.containers && d.podId == pod.podId && !("condenser-pod-infra-" <= d.name) && d.name == name
  }

  lemma MemberIff(cluster: Cluster, pod: Pod, name: string)
    ensures name in MemberNames(ContainersOf(cluster, pod)) <==> HasMember(cluster, pod, name)
  {
    assert forall d :: d in ContainersOf(cluster, pod) <==> d in cluster.containers && d.podId == pod.podId;
    assert INFRA_PREFIX == "condenser-pod-infra-";
    hide ContainersOf, INFRA_PREFIX;
  }

  lemma MemberNamed(n: string, podId: string, t: string)
    requires n != "" && Tail8(podId, t)
    ensures PodMemberName(n, podId) == n + "-" + t
  {
    var h :| podId == h + t;
    assert t == podId[|h|..];
  }

  lemma SomeTail(podId: string) returns (t: string)
    ensures Tail8(podId, t)
  {
    t := if |podId| > 8 then podId[|podId| - 8..] else podId;
    assert podId == podId[..|podId| - |t|] + t;
  }

  /** Readiness, container by container: the member of each named template entry is called after it and the
      end of the pod's id. */
  lemma ReadyIff(cluster: Cluster, pod: Pod, c: Container)
    ensures ReadyWith(cluster, pod, c) <==>
            && pod.state == "running" && !pod.stoppedByUser
            && (forall d :: d in cluster.containers && d.podId == pod.podId ==> d.state == "running")
            && c in cluster.containers && c.podId == pod.podId && "condenser-pod-infra-" <= c.name && c.id != ""
            && (exists name :: HasMember(cluster, pod, name))
            && (pod.templateId == "" ||
                (pod.templateId in cluster.templates &&
                 forall n, t :: n in cluster.templates[pod.templateId] && n != "" && Tail8(pod.podId, t) ==> HasMember(cluster, pod, n + "-" + t)))
  {
    var mine := ContainersOf(cluster, pod);
    assert forall d :: d in mine <==> d in cluster.containers && d.podId == pod.podId;
    assert INFRA_PREFIX == "condenser-pod-infra-";
    forall name
      ensures name in MemberNames(mine) <==> HasMember(cluster, pod, name)
    {
      MemberIff(cluster, pod, name);
    }
    assert MemberNames(mine) != {} <==> exists name :: name in MemberNames(mine);
    MembersAsNamed(cluster, pod);
    hide ContainersOf, MemberNames, HasMember, Tail8, ExpectedMembersRunning, INFRA_PREFIX;
  }

  lemma MembersAsNamed(cluster: Cluster, pod: Pod)
    ensures ExpectedMembersRunning(cluster, pod, MemberNames(ContainersOf(cluster, pod))) <==>
            pod.templateId == "" ||
            (pod.templateId in cluster.templates &&
             forall n, t :: n in cluster.templates[pod.templateId] && n != "" && Tail8(pod.podId, t) ==> HasMember(cluster, pod, n + "-" + t))
  {
    var t0 := SomeTail(pod.podId);
    forall n, t | n != "" && Tail8(pod.podId, t)
      ensures PodMemberName(n, pod.podId) in MemberNames(ContainersOf(cluster, pod)) <==> HasMember(cluster, pod, n + "-" + t)
    {
      MemberNamed(n, pod.podId, t);
      MemberIff(cluster, pod, n + "-" + t);
    }
    hide ContainersOf, MemberNames, HasMember, Tail8, PodMemberName;
  }

  /** Names identify containers, ids identify pods, and a pod has at most one infra container. */
  ghost predicate WellFormed(cluster: Cluster) {
    && (forall c, d :: c in cluster.containers && d in cluster.containers && c.name == d.name ==> c == d)
    && (forall c, d :: c in cluster.containers && d in cluster.containers && c.id == d.id ==> c == d)
    && (forall c, d :: c in cluster.containers && d in cluster.containers && c.podId == d.podId && IsInfra(c) && IsInfra(d) ==> c == d)
    && (forall p, q :: p in cluster.pods && q in cluster.pods && p.podId == q.podId ==> p == q)
  }

  /** One look at each container, in any order, stopping at one that does not run. */
  method ScanContainers(containers: set<Container>)
    returns (allRunning: bool, infra: Option<Container>, runningByName: set<string>, memberCount: nat)
    ensures allRunning <==> forall c :: c in containers ==> c.state == "running"
    ensures allRunning && infra.Some? ==> infra.value in containers && IsInfra(infra.value)
    ensures allRunning && infra.None? ==> forall c :: c in containers ==> !IsInfra(c)
    ensures allRunning ==> runningByName == MemberNames(containers) && (memberCount == 0 <==> runningByName == {})
  {
    hide IsInfra;
    infra, runningByName, memberCount := None, {}, 0;
    var rest := containers;
    while rest != {}
      invariant rest <= containers
      invariant forall c :: c in containers - rest ==> c.state == "running"
      invariant infra.Some? ==> infra.value in containers - rest && IsInfra(infra.value)
      invariant infra.None? ==> forall c :: c in containers - rest ==> !IsInfra(c)
      invariant runningByName == MemberNames(containers - rest)
      invariant memberCount == 0 <==> runningByName == {}
      decreases rest
    {
      var c :| c in rest;
      assert containers - (rest - {c}) == (containers - rest) + {c};
      if c.state != "running" {
        return false, infra, runningByName, memberCount;
      }
      if IsInfra(c) {
        infra := Some(c);
      } else {
        memberCount := memberCount + 1;
        runningByName := runningByName + {c.name};
      }
      rest := rest - {c};
    }
    assert containers - rest == containers;
    return true, infra, runningByName, memberCount;
  }

  method ReadyInfraContainer(cluster: Cluster, pod: Pod) returns (r: Option<Container>)
    requires WellFormed(cluster)
    ensures r.Some? ==> ReadyWith(cluster, pod, r.value)
    ensures r.None? ==> forall c :: !ReadyWith(cluster, pod, c)
  {
    if pod.state != "running" || pod.stoppedByUser {
      return None;
    }
    var containers := ContainersOf(cluster, pod);
    if |containers| == 0 {
      return None;
    }
    var allRunning, infra, runningByName, memberCount := ScanContainers(containers);
    if !allRunning {
      return None;
    }
    if infra.None? || infra.value.id == "" || memberCount == 0 {
      return None;
    }
    if !ExpectedMembersRunning(cluster, pod, runningByName) {
      return None;
    }
    return infra;
  }

  /** The ready pods of a namespace that carry the labels, with their infra containers. */
  ghost predicate Selected(cluster: Cluster, namespace: string, labels: Labels, e: Endpoint) {
    && e.pod in cluster.pods && e.pod.namespace == namespace && LabelsMatch(e.pod.labels, labels)
    && ReadyWith(cluster, e.pod, e.container)
  }

  method SelectPods(cluster: Cluster, namespace: string, labels: Labels) returns (result: seq<Endpoint>)
    requires WellFormed(cluster)
    ensures forall e :: e in result <==> Selected(cluster, namespace, labels, e)
  {
    result := [];
    var rest := cluster.pods;
    while rest != {}
      invariant rest <= cluster.pods
      invariant forall e :: e in result <==> Selected(cluster, namespace, labels, e) && e.pod !in rest
      decreases rest
    {
      var pod :| pod in rest;
      rest := rest - {pod};
      if pod.namespace == namespace && LabelsMatch(pod.labels, labels) {
        var infra := ReadyInfraContainer(cluster, pod);
        if infra.Some? {
          result := result + [Endpoint(pod, infra.value)];
        }
      }
    }
  }

  // ---- backend policies -------------------------------------------------------------------

  datatype BackendKey = BackendKey(src: string, dst: string, protocol: string, port: int)

  /** A rule with its side: the policy's own pods are destinations of ingress, sources of egress. */
  datatype SidedRule = SidedRule(ingress: bool, rule: NetRule)

  function Sided(m: Manifest): seq<SidedRule> {
    SidedRules(true, m.ingress) + SidedRules(false, m.egress)
  }

  /** src and dst are pods the rule connects. */
  ghost predicate Connects(cluster: Cluster, m: Manifest, r: SidedRule, src: Endpoint, dst: Endpoint) {
    && Selected(cluster, m.namespace, if r.ingress then r.rule.podSelector else m.podSelector, src)
    && Selected(cluster, m.namespace, if r.ingress then m.podSelector else r.rule.podSelector, dst)
    && src.container.id != dst.container.id
  }

  function KeyOf(r: SidedRule, src: Endpoint, dst: Endpoint): BackendKey {
    BackendKey(src.container.name, dst.container.name, r.rule.protocol, r.rule.port)
  }

  ghost predicate RuleMakes(cluster: Cluster, m: Manifest, r: SidedRule, k: BackendKey) {
    exists src, dst :: Connects(cluster, m, r, src, dst) && k == KeyOf(r, src, dst)
  }

  ghost predicate Makes(cluster: Cluster, m: Manifest, k: BackendKey) {
    MadeBySome(cluster, m, Sided(m), k)
  }

  /** The direction of the first rule that makes the key; later rules find it in the set already. */
  ghost function FirstDirection(cluster: Cluster, m: Manifest, rules: seq<SidedRule>, k: BackendKey): string {
    if rules == [] then ""
    else if MadeBySome(cluster, m, rules[..|rules| - 1], k) then
      FirstDirection(cluster, m, rules[..|rules| - 1], k)
    else rules[|rules| - 1].rule.direction
  }

  function KeyFields(p: Policy): (f: seq<string>)
    ensures |f| == 12
  {
    [p.ownerKind, p.ownerId, p.ownerNS, p.ownerName,
     p.source.containerName, p.source.displayName, p.destination.containerName, p.destination.displayName,
     p.protocol, Itoa(p.destPort), p.comment, p.managedBy]
  }

  /** What makes a policy count as changed: not its id, not its status. */
  function StateKey(p: Policy): string {
    Join(KeyFields(p), '\0')
  }

  function Comment(m: Manifest, direction: string, src: string, dst: string): string {
    "NetworkPolicy " + m.namespace + "/" + m.name + " " + direction + " " + src + "->" + dst
  }

  /** A pod's name, found by the name of its infra container. */
  ghost function DisplayName(cluster: Cluster, containerName: string): string {
    if e: Endpoint :| e.pod in cluster.pods && ReadyWith(cluster, e.pod, e.container) && e.container.name == containerName
    then e.pod.name else ""
  }

  /** The policy that stands for a key, up to its id and status. */
  ghost predicate PolicyFor(cluster: Cluster, id: string, m: Manifest, direction: string, k: BackendKey, p: Policy) {
    var src, dst := DisplayName(cluster, k.src), DisplayName(cluster, k.dst);
    && p.source == HostInfo(k.src, src, AnyAddr) && p.destination == HostInfo(k.dst, dst, AnyAddr)
    && p.protocol == k.protocol && p.destPort == k.port
    && p.comment == Comment(m, direction, src, dst) && p.managedBy == "resource"
    && p.ownerKind == OWNER_KIND && p.ownerNS == m.namespace && p.ownerName == m.name && p.ownerId == id
  }

  // ---- fresh ids --------------------------------------------------------------------------

  function Ulid(n: nat): string {
    Itoa(n)
  }

  class UlidSource {
    var next: nat

    constructor ()
    {
      next := 0;
    }

    method NewUlid() returns (id: string)
      modifies this
      ensures id == Ulid(old(next)) && next == old(next) + 1
    {
      id := Ulid(next);
      next := next + 1;
    }
  }

  /** The id was handed out between two readings of the source. */
  ghost predicate Issued(id: string, lo: nat, hi: nat) {
    exists n :: lo <= n < hi && id == Ulid(n)
  }

  lemma IssuedApart(a: string, b: string, lo: nat, mid: nat, hi: nat)
    requires Issued(a, lo, mid) && Issued(b, mid, hi)
    ensures a != b
  {
    var m :| lo <= m < mid && a == Ulid(m);
    var n :| mid <= n < hi && b == Ulid(n);
    if a == b {
      ItoaInjective(m, n);
    }
  }

  // ---- generation -------------------------------------------------------------------------

  type PolicySet = map<BackendKey, Policy>

  ghost predicate DistinctPolicies(ps: PolicySet, lo: nat, hi: nat) {
    && (forall k :: k in ps ==> Issued(ps[k].id, lo, hi) && ps[k].status == BeforeCommit)
    && (forall k, l :: k in ps && l in ps && k != l ==> ps[k].id != ps[l].id)
  }

  lemma DisplayNameIs(cluster: Cluster, namespace: string, labels: Labels, e: Endpoint)
    requires WellFormed(cluster) && Selected(cluster, namespace, labels, e)
    ensures DisplayName(cluster, e.container.name) == e.pod.name
  {
    assert e.pod in cluster.pods && ReadyWith(cluster, e.pod, e.container);
  }

  ghost predicate MadeBySome(cluster: Cluster, m: Manifest, rules: seq<SidedRule>, k: BackendKey) {
    exists i :: 0 <= i < |rules| && RuleMakes(cluster, m, rules[i], k)
  }

  ghost predicate EntryFor(cluster: Cluster, id: string, m: Manifest, rules: seq<SidedRule>, k: BackendKey, p: Policy) {
    MadeBySome(cluster, m, rules, k) && PolicyFor(cluster, id, m, FirstDirection(cluster, m, rules, k), k, p)
  }

  /** Every entry of the set is made by one of the rules and carries what the first such rule says. */
  ghost predicate Sound(cluster: Cluster, id: string, m: Manifest, rules: seq<SidedRule>, ps: PolicySet) {
    forall k :: k in ps ==> EntryFor(cluster, id, m, rules, k, ps[k])
  }

  /** Every key one of the rules makes is in the set. */
  ghost predicate Complete(cluster: Cluster, m: Manifest, rules: seq<SidedRule>, ps: PolicySet) {
    forall k :: MadeBySome(cluster, m, rules, k) ==> k in ps
  }

  function NewPolicy(newId: string, id: string, m: Manifest, r: SidedRule, src: Endpoint, dst: Endpoint): Policy {
    Policy(newId, BeforeCommit, "",
           HostInfo(src.container.name, src.pod.name, AnyAddr),
           HostInfo(dst.container.name, dst.pod.name, AnyAddr),
           r.rule.protocol, r.rule.port,
           Comment(m, r.rule.direction, src.pod.name, dst.pod.name),
           "resource", OWNER_KIND, m.namespace, m.name, id)
  }

  lemma NewPolicyFits(newId: string, cluster: Cluster, id: string, m: Manifest, r: SidedRule, src: Endpoint, dst: Endpoint,
                      earlier: seq<SidedRule>)
    requires WellFormed(cluster) && Connects(cluster, m, r, src, dst)
    requires !MadeBySome(cluster, m, earlier, KeyOf(r, src, dst))
    ensures EntryFor(cluster, id, m, earlier + [r], KeyOf(r, src, dst), NewPolicy(newId, id, m, r, src, dst))
  {
    var key := KeyOf(r, src, dst);
    DisplayNameIs(cluster, m.namespace, if r.ingress then r.rule.podSelector else m.podSelector, src);
    DisplayNameIs(cluster, m.namespace, if r.ingress then m.podSelector else r.rule.podSelector, dst);
    assert RuleMakes(cluster, m, r, key);
    FirstDirectionIsLast(cluster, m, earlier, r, key);
    assert (earlier + [r])[|earlier|] == r;
  }

  method AddBackendPolicy(policySet: PolicySet, cluster: Cluster, id: string, m: Manifest, r: SidedRule,
                          src: Endpoint, dst: Endpoint, ids: UlidSource, ghost lo: nat, ghost earlier: seq<SidedRule>)
    returns (out: PolicySet)
    requires WellFormed(cluster) && lo <= ids.next && DistinctPolicies(policySet, lo, ids.next)
    requires src.container.id != dst.container.id ==> Connects(cluster, m, r, src, dst)
    requires Sound(cluster, id, m, earlier + [r], policySet) && Complete(cluster, m, earlier, policySet)
    modifies ids
    ensures old(ids.next) <= ids.next && DistinctPolicies(out, lo, ids.next)
    ensures Sound(cluster, id, m, earlier + [r], out)
    ensures policySet.Keys <= out.Keys
    ensures src.container.id != dst.container.id ==> KeyOf(r, src, dst) in out
  {
    hide EntryFor, Connects, MadeBySome, NewPolicy;
    if src.container.id == dst.container.id {
      return policySet;
    }
    var key := KeyOf(r, src, dst);
    if key in policySet {
      return policySet;
    }
    var newId := ids.NewUlid();
    var p := NewPolicy(newId, id, m, r, src, dst);
    NewPolicyFits(newId, cluster, id, m, r, src, dst, earlier);
    IssuedLater(policySet, newId, lo, old(ids.next));
    NewPolicyFields(newId, id, m, r, src, dst);
    out := policySet[key := p];
  }

  lemma NewPolicyFields(newId: string, id: string, m: Manifest, r: SidedRule, src: Endpoint, dst: Endpoint)
    ensures NewPolicy(newId, id, m, r, src, dst).id == newId
    ensures NewPolicy(newId, id, m, r, src, dst).status == BeforeCommit
  {
  }

  lemma IssuedLater(ps: PolicySet, id: string, lo: nat, mid: nat)
    requires lo <= mid && DistinctPolicies(ps, lo, mid) && id == Ulid(mid)
    ensures Issued(id, lo, mid + 1)
    ensures forall k :: k in ps ==> ps[k].id != id && Issued(ps[k].id, lo, mid + 1)
  {
    assert Issued(id, mid, mid + 1);
    forall k | k in ps
      ensures ps[k].id != id && Issued(ps[k].id, lo, mid + 1)
    {
      IssuedApart(ps[k].id, id, lo, mid, mid + 1);
    }
  }

  lemma {:induction false} FirstDirectionIsLast(cluster: Cluster, m: Manifest, earlier: seq<SidedRule>, r: SidedRule, k: BackendKey)
    requires !MadeBySome(cluster, m, earlier, k)
    ensures FirstDirection(cluster, m, earlier + [r], k) == r.rule.direction
  {
    var rules := earlier + [r];
    assert rules[..|rules| - 1] == earlier;
  }

  /** One pod of the policy with every peer. */
  method AddPeers(policySet: PolicySet, cluster: Cluster, id: string, m: Manifest, r: SidedRule,
                  s: Endpoint, peers: seq<Endpoint>, ids: UlidSource, ghost lo: nat, ghost earlier: seq<SidedRule>)
    returns (out: PolicySet)
    requires WellFormed(cluster) && lo <= ids.next && DistinctPolicies(policySet, lo, ids.next)
    requires Selected(cluster, m.namespace, m.podSelector, s)
    requires forall e :: e in peers ==> Selected(cluster, m.namespace, r.rule.podSelector, e)
    requires Sound(cluster, id, m, earlier + [r], policySet) && Complete(cluster, m, earlier, policySet)
    modifies ids
    ensures old(ids.next) <= ids.next && DistinctPolicies(out, lo, ids.next)
    ensures Sound(cluster, id, m, earlier + [r], out)
    ensures policySet.Keys <= out.Keys
    ensures forall b :: 0 <= b < |peers| ==> PairDone(r, s, peers[b], out)
  {
    hide DistinctPolicies, Sound, WellFormed, Selected;
    out := policySet;
    for j := 0 to |peers|
      invariant old(ids.next) <= ids.next && DistinctPolicies(out, lo, ids.next)
      invariant Sound(cluster, id, m, earlier + [r], out) && policySet.Keys <= out.Keys
      invariant Complete(cluster, m, earlier, out)
      invariant forall b :: 0 <= b < j ==> PairDone(r, s, peers[b], out)
    {
      var p := peers[j];
      assert p in peers;
      if r.ingress {
        out := AddBackendPolicy(out, cluster, id, m, r, p, s, ids, lo, earlier);
      } else {
        out := AddBackendPolicy(out, cluster, id, m, r, s, p, ids, lo, earlier);
      }
    }
  }

  /** All pairs of one rule. */
  method AddPairs(policySet: PolicySet, cluster: Cluster, id: string, m: Manifest, r: SidedRule,
                  selected: seq<Endpoint>, peers: seq<Endpoint>, ids: UlidSource, ghost lo: nat, ghost earlier: seq<SidedRule>)
    returns (out: PolicySet)
    requires WellFormed(cluster) && lo <= ids.next && DistinctPolicies(policySet, lo, ids.next)
    requires forall e :: e in selected <==> Selected(cluster, m.namespace, m.podSelector, e)
    requires forall e :: e in peers <==> Selected(cluster, m.namespace, r.rule.podSelector, e)
    requires Sound(cluster, id, m, earlier, policySet) && Complete(cluster, m, earlier, policySet)
    modifies ids
    ensures old(ids.next) <= ids.next && DistinctPolicies(out, lo, ids.next)
    ensures Sound(cluster, id, m, earlier + [r], out) && Complete(cluster, m, earlier + [r], out)
  {
    hide DistinctPolicies, Sound, WellFormed, Selected, PairDone;
    out := policySet;
    StepSoFar(cluster, id, m, earlier, r, policySet);
    for i := 0 to |selected|
      invariant old(ids.next) <= ids.next && DistinctPolicies(out, lo, ids.next)
      invariant Sound(cluster, id, m, earlier + [r], out) && policySet.Keys <= out.Keys
      invariant Complete(cluster, m, earlier, out)
      invariant forall a, b :: 0 <= a < i && 0 <= b < |peers| ==> PairDone(r, selected[a], peers[b], out)
    {
      assert selected[i] in selected;
      ghost var before := out;
      out := AddPeers(out, cluster, id, m, r, selected[i], peers, ids, lo, earlier);
      forall a, b | 0 <= a < i && 0 <= b < |peers|
        ensures PairDone(r, selected[a], peers[b], out)
      {
        PairStaysDone(r, selected[a], peers[b], before, out);
      }
    }
    PairsComplete(cluster, m, r, selected, peers, earlier, policySet, out);
  }

  lemma PairStaysDone(r: SidedRule, s: Endpoint, p: Endpoint, before: PolicySet, after: PolicySet)
    requires PairDone(r, s, p, before) && before.Keys <= after.Keys
    ensures PairDone(r, s, p, after)
  {
  }

  ghost predicate PairDone(r: SidedRule, s: Endpoint, p: Endpoint, ps: PolicySet) {
    s.container.id != p.container.id ==> (if r.ingress then KeyOf(r, p, s) else KeyOf(r, s, p)) in ps
  }

  lemma StepSoFar(cluster: Cluster, id: string, m: Manifest, earlier: seq<SidedRule>, r: SidedRule, ps: PolicySet)
    requires Sound(cluster, id, m, earlier, ps)
    ensures Sound(cluster, id, m, earlier + [r], ps)
  {
    forall k | k in ps
      ensures EntryFor(cluster, id, m, earlier + [r], k, ps[k])
    {
      assert EntryFor(cluster, id, m, earlier, k, ps[k]);
      MadeEarlier(cluster, m, earlier, r, k);
    }
  }

  lemma {:induction false} MadeEarlier(cluster: Cluster, m: Manifest, earlier: seq<SidedRule>, r: SidedRule, k: BackendKey)
    requires MadeBySome(cluster, m, earlier, k)
    ensures MadeBySome(cluster, m, earlier + [r], k)
    ensures FirstDirection(cluster, m, earlier + [r], k) == FirstDirection(cluster, m, earlier, k)
  {
    var rules := earlier + [r];
    var i :| 0 <= i < |earlier| && RuleMakes(cluster, m, earlier[i], k);
    assert rules[..|rules| - 1] == earlier && rules[i] == earlier[i];
  }

  lemma PairsComplete(cluster: Cluster, m: Manifest, r: SidedRule, selected: seq<Endpoint>, peers: seq<Endpoint>,
                      earlier: seq<SidedRule>, before: PolicySet, out: PolicySet)
    requires forall e :: e in selected <==> Selected(cluster, m.namespace, m.podSelector, e)
    requires forall e :: e in peers <==> Selected(cluster, m.namespace, r.rule.podSelector, e)
    requires Complete(cluster, m, earlier, before) && before.Keys <= out.Keys
    requires forall a, b :: 0 <= a < |selected| && 0 <= b < |peers| ==> PairDone(r, selected[a], peers[b], out)
    ensures Complete(cluster, m, earlier + [r], out)
  {
    var rules := earlier + [r];
    forall k | MadeBySome(cluster, m, rules, k)
      ensures k in out
    {
      var i :| 0 <= i < |rules| && RuleMakes(cluster, m, rules[i], k);
      if i < |earlier| {
        assert rules[i] == earlier[i];
        assert MadeBySome(cluster, m, earlier, k);
      } else {
        var src, dst :| Connects(cluster, m, r, src, dst) && k == KeyOf(r, src, dst);
        var s, p := if r.ingress then dst else src, if r.ingress then src else dst;
        assert s in selected && p in peers;
        var a :| 0 <= a < |selected| && selected[a] == s;
        var b :| 0 <= b < |peers| && peers[b] == p;
        assert PairDone(r, selected[a], peers[b], out);
      }
    }
  }

  function SidedRules(ingress: bool, rules: seq<NetRule>): seq<SidedRule> {
    seq(|rules|, i requires 0 <= i < |rules| => SidedRule(ingress, rules[i]))
  }

  /** The rules of one side, one after another. */
  method AddRules(policySet: PolicySet, cluster: Cluster, id: string, m: Manifest, ingress: bool, rules: seq<NetRule>,
                  selected: seq<Endpoint>, ids: UlidSource, ghost lo: nat, ghost earlier: seq<SidedRule>)
    returns (out: PolicySet)
    requires WellFormed(cluster) && lo <= ids.next && DistinctPolicies(policySet, lo, ids.next)
    requires forall e :: e in selected <==> Selected(cluster, m.namespace, m.podSelector, e)
    requires Sound(cluster, id, m, earlier, policySet) && Complete(cluster, m, earlier, policySet)
    modifies ids
    ensures old(ids.next) <= ids.next && DistinctPolicies(out, lo, ids.next)
    ensures Sound(cluster, id, m, earlier + SidedRules(ingress, rules), out)
    ensures Complete(cluster, m, earlier + SidedRules(ingress, rules), out)
  {
    hide DistinctPolicies, Sound, Complete, WellFormed, Selected;
    out := policySet;
    ghost var sided := SidedRules(ingress, rules);
    assert earlier + sided[..0] == earlier;
    for i := 0 to |rules|
      invariant old(ids.next) <= ids.next && DistinctPolicies(out, lo, ids.next)
      invariant Sound(cluster, id, m, earlier + sided[..i], out) && Complete(cluster, m, earlier + sided[..i], out)
    {
      var peers := SelectPods(cluster, m.namespace, rules[i].podSelector);
      out := AddPairs(out, cluster, id, m, SidedRule(ingress, rules[i]), selected, peers, ids, lo, earlier + sided[..i]);
      assert earlier + sided[..i] + [SidedRule(ingress, rules[i])] == earlier + sided[..i + 1];
    }
    assert sided[..|rules|] == sided;
  }

  method BuildPolicySet(cluster: Cluster, id: string, m: Manifest, ids: UlidSource) returns (policySet: PolicySet)
    requires WellFormed(cluster)
    modifies ids
    ensures old(ids.next) <= ids.next && DistinctPolicies(policySet, old(ids.next), ids.next)
    ensures Sound(cluster, id, m, Sided(m), policySet) && Complete(cluster, m, Sided(m), policySet)
  {
    var selected := SelectPods(cluster, m.namespace, m.podSelector);
    policySet := AddRules(map[], cluster, id, m, true, m.ingress, selected, ids, ids.next, []);
    assert [] + SidedRules(true, m.ingress) == SidedRules(true, m.ingress);
    policySet := AddRules(policySet, cluster, id, m, false, m.egress, selected, ids, old(ids.next), SidedRules(true, m.ingress));
  }
}

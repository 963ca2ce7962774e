/** ReconcileAll: generate the wanted policies, compare them with the current ones, replace if different. */
module NetpolReconcile {
  import opened Lists
  import opened Text
  import opened NetpolManifest
  import opened PolicyRules
  import opened PolicyCompiler
  import opened PolicyService
  import opened NetpolService
  import opened Iptables

  /** One wanted backend policy: the NetworkPolicy id and the key. */
  type Origin = (string, BackendKey)

  ghost predicate IsOrigin(cluster: Cluster, store: Store, o: Origin) {
    o.0 in store && Makes(cluster, store[o.0], o.1)
  }

  /** All wanted policies, each once, in some order. */
  ghost predicate Enumerates(cluster: Cluster, store: Store, os: seq<Origin>) {
    NoDup(os) && forall o :: o in os <==> IsOrigin(cluster, store, o)
  }

  /** The wanted policy of an origin, with no id yet. */
  ghost function Wanted(cluster: Cluster, store: Store, o: Origin): Policy
    requires o.0 in store
  {
    var m, k := store[o.0], o.1;
    var src, dst := DisplayName(cluster, k.src), DisplayName(cluster, k.dst);
    Policy("", BeforeCommit, "", HostInfo(k.src, src, AnyAddr), HostInfo(k.dst, dst, AnyAddr), k.protocol, k.port,
           Comment(m, FirstDirection(cluster, m, Sided(m), k), src, dst), "resource", OWNER_KIND, m.namespace, m.name, o.0)
  }

  ghost function OriginKey(cluster: Cluster, store: Store, o: Origin): string {
    if o.0 in store then StateKey(Wanted(cluster, store, o)) else ""
  }

  ghost function KeyOfOrigin(cluster: Cluster, store: Store): Origin -> string {
    o => OriginKey(cluster, store, o)
  }

  ghost function OriginKeys(cluster: Cluster, store: Store, os: seq<Origin>): seq<string> {
    Mapped(KeyOfOrigin(cluster, store), os)
  }

  function Keys(ps: seq<Policy>): seq<string> {
    seq(|ps|, i requires 0 <= i < |ps| => StateKey(ps[i]))
  }

  /** The NetworkPolicy-owned policies of a list are, as a multiset of state keys, the wanted ones. */
  ghost predicate InStep(cluster: Cluster, store: Store, ps: seq<Policy>) {
    exists os :: Enumerates(cluster, store, os) && multiset(Keys(OwnedBy(ps, OWNER_KIND))) == multiset(OriginKeys(cluster, store, os))
  }

  // ---- enumerations agree -----------------------------------------------------------------

  /** The order in which the stores are read makes no difference. */
  lemma EnumerationsAgree(cluster: Cluster, store: Store, a: seq<Origin>, b: seq<Origin>)
    requires Enumerates(cluster, store, a) && Enumerates(cluster, store, b)
    ensures multiset(OriginKeys(cluster, store, a)) == multiset(OriginKeys(cluster, store, b))
  {
    SameElements(a, b);
    MappedMultiset(KeyOfOrigin(cluster, store), a, b);
  }

  // ---- sorting and comparing --------------------------------------------------------------

  function InsertPolicy(p: Policy, s: seq<Policy>): seq<Policy> {
    if s == [] || StrLe(StateKey(p), StateKey(s[0])) then [p] + s else [s[0]] + InsertPolicy(p, s[1..])
  }

  function SortPolicies(ps: seq<Policy>): seq<Policy> {
    if ps == [] then [] else InsertPolicy(ps[0], SortPolicies(ps[1..]))
  }

  lemma {:induction false} InsertPolicyKeys(p: Policy, s: seq<Policy>)
    ensures Keys(InsertPolicy(p, s)) == InsertKey(StateKey(p), Keys(s))
    ensures multiset(InsertPolicy(p, s)) == multiset{p} + multiset(s)
    decreases |s|
  {
    hide StateKey, StrLe;
    if s == [] || StrLe(StateKey(p), StateKey(s[0])) {
      assert Keys([p] + s) == [StateKey(p)] + Keys(s);
      assert multiset([p] + s) == multiset{p} + multiset(s);
    } else {
      InsertPolicyKeys(p, s[1..]);
      assert Keys(s)[1..] == Keys(s[1..]) && s == [s[0]] + s[1..];
    }
  }

  lemma {:induction false} SortUnfolds(ps: seq<Policy>)
    ensures SortPolicies(ps) == if ps == [] then [] else InsertPolicy(ps[0], SortPolicies(ps[1..]))
    ensures Keys([]) == []
    ensures SortKeys(Keys(ps)) == if ps == [] then [] else InsertKey(StateKey(ps[0]), SortKeys(Keys(ps[1..])))
  {
    hide InsertPolicy, InsertKey, StateKey;
    assert ps != [] ==> Keys(ps)[1..] == Keys(ps[1..]);
  }

  lemma {:induction false} SortPoliciesKeys(ps: seq<Policy>)
    ensures Keys(SortPolicies(ps)) == SortKeys(Keys(ps))
    ensures multiset(SortPolicies(ps)) == multiset(ps)
    decreases |ps|
  {
    hide StateKey, SortKeys, SortPolicies, Keys, InsertPolicy, InsertKey;
    SortUnfolds(ps);
    if ps != [] {
      SortPoliciesKeys(ps[1..]);
      InsertPolicyKeys(ps[0], SortPolicies(ps[1..]));
      assert ps == [ps[0]] + ps[1..];
    }
  }

  lemma PrependIds(p: Policy, s: seq<Policy>)
    ensures Ids([p] + s) == {p.id} + Ids(s)
    ensures UniqueIds([p] + s) <==> UniqueIds(s) && p.id !in Ids(s)
  {
    var t := [p] + s;
    assert forall q :: q in t <==> q == p || q in s;
    if UniqueIds(t) {
      forall i, j | 0 <= i < j < |s|
        ensures s[i].id != s[j].id
      {
        assert t[i + 1] == s[i] && t[j + 1] == s[j];
      }
      forall i | 0 <= i < |s|
        ensures s[i].id != p.id
      {
        assert t[i + 1] == s[i] && t[0] == p;
      }
    }
    if UniqueIds(s) && p.id !in Ids(s) {
      forall i | 0 <= i < |s|
        ensures s[i].id != p.id
      {
        assert s[i] in s && s[i].id in Ids(s);
      }
    }
  }

  lemma {:induction false} InsertPolicyIds(p: Policy, s: seq<Policy>)
    requires UniqueIds(s) && p.id !in Ids(s)
    ensures UniqueIds(InsertPolicy(p, s)) && Ids(InsertPolicy(p, s)) == Ids(s) + {p.id}
    decreases |s|
  {
    hide UniqueIds, Ids;
    PrependIds(p, s);
    if s != [] && !StrLe(StateKey(p), StateKey(s[0])) {
      assert s == [s[0]] + s[1..];
      PrependIds(s[0], s[1..]);
      InsertPolicyIds(p, s[1..]);
      PrependIds(s[0], InsertPolicy(p, s[1..]));
    }
  }

  lemma {:induction false} SortPoliciesIds(ps: seq<Policy>)
    requires UniqueIds(ps)
    ensures UniqueIds(SortPolicies(ps)) && Ids(SortPolicies(ps)) == Ids(ps)
    decreases |ps|
  {
    if ps != [] {
      assert ps == [ps[0]] + ps[1..];
      PrependIds(ps[0], ps[1..]);
      SortPoliciesIds(ps[1..]);
      InsertPolicyIds(ps[0], SortPolicies(ps[1..]));
    }
  }

  method FilterPoliciesByOwnerKind(ps: seq<Policy>, kind: string) returns (out: seq<Policy>)
    ensures out == OwnedBy(ps, kind)
  {
    out := [];
    for i := 0 to |ps|
      invariant out == OwnedBy(ps[..i], kind)
    {
      assert ps[..i + 1][..i] == ps[..i];
      if ps[i].ownerKind == kind {
        out := out + [ps[i]];
      }
    }
    assert ps[..|ps|] == ps;
  }

  method EqualPolicySets(a: seq<Policy>, b: seq<Policy>) returns (equal: bool)
    ensures equal <==> Keys(a) == Keys(b)
  {
    if |a| != |b| {
      assert |Keys(a)| != |Keys(b)|;
      return false;
    }
    for i := 0 to |a|
      invariant forall j :: 0 <= j < i ==> StateKey(a[j]) == StateKey(b[j])
    {
      if StateKey(a[i]) != StateKey(b[i]) {
        assert Keys(a)[i] != Keys(b)[i];
        return false;
      }
    }
    return true;
  }

  // ---- generation for one and for all NetworkPolicies --------------------------------------

  ghost predicate GoodBatch(ps: seq<Policy>, lo: nat, hi: nat) {
    && UniqueIds(ps)
    && forall p :: p in ps ==> Issued(p.id, lo, hi) && p.status == BeforeCommit && p.ownerKind == OWNER_KIND
  }

  /** The policy an origin wants, whatever its id. */
  ghost predicate Fits(cluster: Cluster, store: Store, o: Origin, p: Policy) {
    o.0 in store && PolicyFor(cluster, o.0, store[o.0], FirstDirection(cluster, store[o.0], Sided(store[o.0]), o.1), o.1, p)
  }

  ghost predicate AllFit(cluster: Cluster, store: Store, ps: seq<Policy>, os: seq<Origin>) {
    |ps| == |os| && forall i :: 0 <= i < |ps| ==> Fits(cluster, store, os[i], ps[i])
  }

  lemma PolicyForIsWanted(cluster: Cluster, store: Store, o: Origin, p: Policy)
    requires Fits(cluster, store, o, p)
    ensures StateKey(p) == OriginKey(cluster, store, o) && p.ownerKind == OWNER_KIND
  {
    assert KeyFields(p) == KeyFields(Wanted(cluster, store, o));
  }

  /** The values of the policy set listed so far, each under its key. */
  ghost predicate Listed(id: string, ps: PolicySet, rest: set<BackendKey>, policies: seq<Policy>, os: seq<Origin>) {
    && |policies| == |os| && NoDup(os)
    && (forall o :: o in os <==> o.0 == id && o.1 in ps.Keys - rest)
    && (forall i :: 0 <= i < |os| ==> os[i].0 == id && os[i].1 in ps && policies[i] == ps[os[i].1])
  }

  lemma ListOne(id: string, ps: PolicySet, rest: set<BackendKey>, policies: seq<Policy>, os: seq<Origin>, k: BackendKey)
    requires Listed(id, ps, rest, policies, os) && k in rest && k in ps
    ensures Listed(id, ps, rest - {k}, policies + [ps[k]], os + [(id, k)])
  {
    assert (id, k) !in os;
    assert forall o :: o in os + [(id, k)] <==> o in os || o == (id, k);
  }

  lemma ListedBatch(cluster: Cluster, store: Store, id: string, ps: PolicySet, policies: seq<Policy>, os: seq<Origin>, lo: nat, hi: nat)
    requires id in store && Listed(id, ps, {}, policies, os) && DistinctPolicies(ps, lo, hi)
    requires Sound(cluster, id, store[id], Sided(store[id]), ps) && Complete(cluster, store[id], Sided(store[id]), ps)
    ensures GoodBatch(policies, lo, hi) && AllFit(cluster, store, policies, os)
    ensures forall o :: o in os <==> o.0 == id && IsOrigin(cluster, store, o)
  {
    var m := store[id];
    hide MadeBySome, FirstDirection, PolicyFor, OriginKey;
    forall i | 0 <= i < |policies|
      ensures Fits(cluster, store, os[i], policies[i]) && policies[i].ownerKind == OWNER_KIND
      ensures Issued(policies[i].id, lo, hi) && policies[i].status == BeforeCommit
    {
      var k := os[i].1;
      assert EntryFor(cluster, id, m, Sided(m), k, ps[k]);
      PolicyForIsWanted(cluster, store, os[i], policies[i]);
    }
    forall o: Origin | o.0 == id
      ensures o.1 in ps <==> IsOrigin(cluster, store, o)
    {
      if o.1 in ps {
        assert EntryFor(cluster, id, m, Sided(m), o.1, ps[o.1]);
      }
    }
  }

  method GenerateBackendPolicies(cluster: Cluster, store: Store, id: string, ids: UlidSource)
    returns (policies: seq<Policy>, ghost os: seq<Origin>)
    requires WellFormed(cluster) && id in store
    modifies ids
    ensures old(ids.next) <= ids.next && GoodBatch(policies, old(ids.next), ids.next)
    ensures AllFit(cluster, store, policies, os) && NoDup(os)
    ensures forall o :: o in os <==> o.0 == id && IsOrigin(cluster, store, o)
  {
    var policySet := BuildPolicySet(cluster, id, store[id], ids);
    policies, os := [], [];
    var rest := policySet.Keys;
    ghost var hi := ids.next;
    while rest != {}
      invariant rest <= policySet.Keys && ids.next == hi
      invariant Listed(id, policySet, rest, policies, os)
      decreases rest
    {
      hide Listed;
      var k :| k in rest;
      ListOne(id, policySet, rest, policies, os, k);
      policies, os := policies + [policySet[k]], os + [(id, k)];
      rest := rest - {k};
    }
    ListedBatch(cluster, store, id, policySet, policies, os, old(ids.next), hi);
  }

  lemma JoinBatches(a: seq<Policy>, b: seq<Policy>, lo: nat, mid: nat, hi: nat)
    requires lo <= mid <= hi && GoodBatch(a, lo, mid) && GoodBatch(b, mid, hi)
    ensures GoodBatch(a + b, lo, hi)
  {
    forall p | p in a + b
      ensures Issued(p.id, lo, hi)
    {
      if p in a {
        var n :| lo <= n < mid && p.id == Ulid(n);
      } else {
        var n :| mid <= n < hi && p.id == Ulid(n);
      }
    }
    forall i, j | 0 <= i < |a| && 0 <= j < |b|
      ensures a[i].id != b[j].id
    {
      assert a[i] in a && b[j] in b;
      IssuedApart(a[i].id, b[j].id, lo, mid, hi);
    }
  }

  /** The batches so far: the wanted policies of the NetworkPolicies already visited. */
  ghost predicate Visited(cluster: Cluster, store: Store, rest: set<string>, desired: seq<Policy>, os: seq<Origin>) {
    AllFit(cluster, store, desired, os) && NoDup(os) && forall o :: o in os <==> o.0 !in rest && IsOrigin(cluster, store, o)
  }

  lemma VisitOne(cluster: Cluster, store: Store, rest: set<string>, id: string, desired: seq<Policy>, os: seq<Origin>,
                 generated: seq<Policy>, more: seq<Origin>)
    requires Visited(cluster, store, rest, desired, os) && id in rest
    requires AllFit(cluster, store, generated, more) && NoDup(more)
    requires forall o :: o in more <==> o.0 == id && IsOrigin(cluster, store, o)
    ensures Visited(cluster, store, rest - {id}, desired + generated, os + more)
  {
    hide IsOrigin, Fits;
    var all := os + more;
    forall o
      ensures o in all <==> o.0 !in rest - {id} && IsOrigin(cluster, store, o)
    {
    }
    forall i, j | 0 <= i < j < |all|
      ensures all[i] != all[j]
    {
      if i < |os| <= j {
        assert os[i] in os && more[j - |os|] in more;
      }
    }
  }

  method GenerateAll(cluster: Cluster, store: Store, ids: UlidSource) returns (desired: seq<Policy>, ghost os: seq<Origin>)
    requires WellFormed(cluster)
    modifies ids
    ensures old(ids.next) <= ids.next && GoodBatch(desired, old(ids.next), ids.next)
    ensures AllFit(cluster, store, desired, os) && Enumerates(cluster, store, os)
  {
    desired, os := [], [];
    var rest := store.Keys;
    while rest != {}
      invariant rest <= store.Keys
      invariant old(ids.next) <= ids.next && GoodBatch(desired, old(ids.next), ids.next)
      invariant Visited(cluster, store, rest, desired, os)
      decreases rest
    {
      hide GoodBatch, WellFormed, Makes, Fits, Visited, AllFit, NoDup;
      var id :| id in rest;
      ghost var mid := ids.next;
      var generated, more := GenerateBackendPolicies(cluster, store, id, ids);
      JoinBatches(desired, generated, old(ids.next), mid, ids.next);
      VisitOne(cluster, store, rest, id, desired, os, generated, more);
      desired, os := desired + generated, os + more;
      rest := rest - {id};
    }
  }

  // ---- ReconcileAll -------------------------------------------------------------------------

  /** Every id in the store came from the source of ids. */
  ghost predicate AllIssued(np: NetworkPolicy, next: nat) {
    forall c, p :: UserChain(c) && p in np.List(c) ==> Issued(p.id, 0, next)
  }

  /** A pass reports a change exactly when the owned policies are out of step with the manifests and
      the ready pods; then it replaces them and nothing else. */
  method ReconcileAll(cluster: Cluster, store: Store, npm: NpmManager, ids: UlidSource) returns (changed: bool)
    requires WellFormed(cluster) && DistinctIds(npm.np) && AllIssued(npm.np, ids.next)
    modifies npm, ids
    ensures changed <==> !InStep(cluster, store, old(npm.np).eastWest)
    ensures !changed ==> npm.np == old(npm.np)
    ensures InStep(cluster, store, npm.np.eastWest)
    ensures npm.np == old(npm.np).(eastWest := npm.np.eastWest)
    ensures NotOwnedBy(npm.np.eastWest, OWNER_KIND) == NotOwnedBy(old(npm.np).eastWest, OWNER_KIND)
    ensures changed ==> forall p :: p in OwnedBy(npm.np.eastWest, OWNER_KIND) ==> p.status == BeforeCommit
    ensures PlainNames(cluster, store) && (changed || OwnedNulFree(old(npm.np).eastWest)) ==>
              OwnedNulFree(npm.np.eastWest) && Mirrors(cluster, store, npm.np.eastWest)
    ensures old(ids.next) <= ids.next && DistinctIds(npm.np) && AllIssued(npm.np, ids.next)
  {
    var desired, os := GenerateAll(cluster, store, ids);
    var sorted := SortPolicies(desired);
    var current := FilterPoliciesByOwnerKind(npm.np.eastWest, OWNER_KIND);
    var equal := EqualPolicySets(SortPolicies(current), sorted);
    ComparisonDecides(cluster, store, npm.np.eastWest, desired, os);
    IssuedWider(npm.np, old(ids.next), ids.next);
    if equal {
      AfterPass(cluster, store, npm.np.eastWest);
      return false;
    }
    SortPoliciesIds(desired);
    SortPoliciesKeys(desired);
    npm.ReplacePoliciesByOwnerKind(RaindEW, OWNER_KIND, sorted);
    SortedBatch(desired, old(ids.next), ids.next);
    ReplacedList(old(npm.np), sorted, old(ids.next), ids.next);
    SortPoliciesKeys(sorted);
    InStepFrom(cluster, store, sorted, npm.np.eastWest, desired, os);
    NewAreNulFree(cluster, store, npm.np.eastWest, sorted, desired, os);
    AfterPass(cluster, store, npm.np.eastWest);
    return true;
  }

  lemma AfterPass(cluster: Cluster, store: Store, ew: seq<Policy>)
    requires WellFormed(cluster) && InStep(cluster, store, ew)
    ensures PlainNames(cluster, store) && OwnedNulFree(ew) ==> Mirrors(cluster, store, ew)
  {
    hide WellFormed, InStep, PlainNames, OwnedNulFree, Mirrors, Readable;
    if PlainNames(cluster, store) && OwnedNulFree(ew) {
      PlainIsReadable(cluster, store, ew);
      InStepMirrors(cluster, store, ew);
    }
  }

  lemma {:induction false} NewAreNulFree(cluster: Cluster, store: Store, ew: seq<Policy>, sorted: seq<Policy>, desired: seq<Policy>, os: seq<Origin>)
    requires WellFormed(cluster) && AllFit(cluster, store, desired, os) && Enumerates(cluster, store, os)
    requires sorted == SortPolicies(desired) && OwnedBy(ew, OWNER_KIND) == sorted
    ensures PlainNames(cluster, store) ==> OwnedNulFree(ew)
  {
    hide WellFormed, PlainNames, AllFit, Enumerates, NulFree, SortPolicies;
    SortPoliciesKeys(desired);
    NotOwnedElements(ew, OWNER_KIND);
    if PlainNames(cluster, store) {
      GeneratedNulFree(cluster, store, sorted, desired, os);
    }
  }

  lemma IssuedWider(np: NetworkPolicy, a: nat, b: nat)
    requires AllIssued(np, a) && a <= b
    ensures AllIssued(np, b)
  {
    forall c, p | UserChain(c) && p in np.List(c)
      ensures Issued(p.id, 0, b)
    {
      var n :| 0 <= n < a && p.id == Ulid(n);
    }
  }

  lemma KeysMatchSeq(cluster: Cluster, store: Store, ps: seq<Policy>, os: seq<Origin>)
    requires AllFit(cluster, store, ps, os)
    ensures Keys(ps) == OriginKeys(cluster, store, os)
  {
    forall i | 0 <= i < |ps|
      ensures StateKey(ps[i]) == OriginKey(cluster, store, os[i])
    {
      PolicyForIsWanted(cluster, store, os[i], ps[i]);
    }
    hide StateKey, OriginKey, Fits;
  }

  lemma {:induction false} ComparisonDecides(cluster: Cluster, store: Store, ew: seq<Policy>, desired: seq<Policy>, os: seq<Origin>)
    requires AllFit(cluster, store, desired, os) && Enumerates(cluster, store, os)
    ensures Keys(SortPolicies(OwnedBy(ew, OWNER_KIND))) == Keys(SortPolicies(desired)) <==> InStep(cluster, store, ew)
  {
    var current := OwnedBy(ew, OWNER_KIND);
    SortPoliciesKeys(current);
    SortPoliciesKeys(desired);
    SortKeysCanonical(Keys(current), Keys(desired));
    KeysMatchSeq(cluster, store, desired, os);
    if InStep(cluster, store, ew) {
      var b :| Enumerates(cluster, store, b) && multiset(Keys(current)) == multiset(OriginKeys(cluster, store, b));
      EnumerationsAgree(cluster, store, os, b);
    }
  }

  lemma {:induction false} SortedBatch(ps: seq<Policy>, lo: nat, hi: nat)
    requires GoodBatch(ps, lo, hi)
    ensures GoodBatch(SortPolicies(ps), lo, hi)
  {
    SortPoliciesIds(ps);
    SortPoliciesKeys(ps);
    forall p | p in SortPolicies(ps)
      ensures p in ps
    {
      assert p in multiset(SortPolicies(ps));
    }
  }

  lemma {:induction false} OwnedByAppend(a: seq<Policy>, b: seq<Policy>, kind: string)
    ensures OwnedBy(a + b, kind) == OwnedBy(a, kind) + OwnedBy(b, kind)
    ensures NotOwnedBy(a + b, kind) == NotOwnedBy(a, kind) + NotOwnedBy(b, kind)
    decreases |b|
  {
    assert OwnedBy([], kind) == [] && NotOwnedBy([], kind) == [];
    hide OwnedBy, NotOwnedBy;
    if b == [] {
      assert a + b == a;
    } else {
      var init, last := b[..|b| - 1], b[|b| - 1];
      OwnedByAppend(a, init, kind);
      assert a + b == a + init + [last] && b == init + [last];
      OwnedBySnoc(a + init, last, kind);
      OwnedBySnoc(init, last, kind);
      Regroup(OwnedBy(a, kind), OwnedBy(init, kind), if last.ownerKind == kind then [last] else []);
      Regroup(NotOwnedBy(a, kind), NotOwnedBy(init, kind), if last.ownerKind == kind then [] else [last]);
    }
  }

  lemma Regroup<T>(a: seq<T>, b: seq<T>, c: seq<T>)
    ensures a + b + c == a + (b + c)
  {
  }

  lemma {:induction false} OwnedBySnoc(ps: seq<Policy>, p: Policy, kind: string)
    ensures OwnedBy(ps + [p], kind) == OwnedBy(ps, kind) + if p.ownerKind == kind then [p] else []
    ensures NotOwnedBy(ps + [p], kind) == NotOwnedBy(ps, kind) + if p.ownerKind == kind then [] else [p]
  {
    assert (ps + [p])[..|ps + [p]| - 1] == ps;
  }

  lemma {:induction false} OwnedByAll(ps: seq<Policy>, kind: string)
    requires forall p :: p in ps ==> p.ownerKind == kind
    ensures OwnedBy(ps, kind) == ps && NotOwnedBy(ps, kind) == []
    decreases |ps|
  {
    if ps != [] {
      var init, last := ps[..|ps| - 1], ps[|ps| - 1];
      OwnedByAll(init, kind);
      assert ps == init + [last] && last in ps;
    }
  }

  lemma {:induction false} OwnedByNone(ps: seq<Policy>, kind: string)
    requires forall p :: p in ps ==> p.ownerKind != kind
    ensures OwnedBy(ps, kind) == [] && NotOwnedBy(ps, kind) == ps
    decreases |ps|
  {
    if ps != [] {
      var init, last := ps[..|ps| - 1], ps[|ps| - 1];
      OwnedByNone(init, kind);
      assert ps == init + [last] && last in ps;
    }
  }

  lemma {:induction false} NotOwnedElements(ps: seq<Policy>, kind: string)
    ensures forall p :: p in NotOwnedBy(ps, kind) <==> p in ps && p.ownerKind != kind
    ensures forall p :: p in OwnedBy(ps, kind) <==> p in ps && p.ownerKind == kind
    ensures UniqueIds(ps) ==> UniqueIds(NotOwnedBy(ps, kind))
    decreases |ps|
  {
    if ps != [] {
      var init, last := ps[..|ps| - 1], ps[|ps| - 1];
      NotOwnedElements(init, kind);
      assert ps == init + [last];
      OwnedBySnoc(init, last, kind);
      hide OwnedBy, NotOwnedBy;
      KeptUnique(init, last, NotOwnedBy(init, kind));
    }
  }

  lemma KeptUnique(init: seq<Policy>, last: Policy, kept: seq<Policy>)
    requires (forall p :: p in kept ==> p in init) && (UniqueIds(init) ==> UniqueIds(kept))
    ensures UniqueIds(init + [last]) ==> UniqueIds(kept) && UniqueIds(kept + [last]) && kept + [] == kept
  {
    var ps := init + [last];
    if UniqueIds(ps) {
      assert forall i :: 0 <= i < |init| ==> ps[i] == init[i];
      forall i | 0 <= i < |kept|
        ensures kept[i].id != last.id
      {
        assert kept[i] in init;
        var j :| 0 <= j < |init| && init[j] == kept[i];
        assert ps[j] == init[j] && ps[|init|] == last;
      }
    }
  }

  lemma AppendIds(a: seq<Policy>, b: seq<Policy>)
    ensures Ids(a + b) == Ids(a) + Ids(b)
    ensures UniqueIds(a) && UniqueIds(b) && Ids(a) !! Ids(b) ==> UniqueIds(a + b)
  {
    assert forall p :: p in a + b <==> p in a || p in b;
    if UniqueIds(a) && UniqueIds(b) && Ids(a) !! Ids(b) {
      forall i, j | 0 <= i < |a| && 0 <= j < |b|
        ensures a[i].id != b[j].id
      {
        assert a[i].id in Ids(a) && b[j].id in Ids(b);
      }
    }
  }

  lemma ReplacedList(np: NetworkPolicy, batch: seq<Policy>, lo: nat, hi: nat)
    requires DistinctIds(np) && AllIssued(np, lo) && AllIssued(np, hi) && lo <= hi && GoodBatch(batch, lo, hi)
    ensures var ew := NotOwnedBy(np.eastWest, OWNER_KIND) + batch;
            && OwnedBy(ew, OWNER_KIND) == batch
            && NotOwnedBy(ew, OWNER_KIND) == NotOwnedBy(np.eastWest, OWNER_KIND)
            && DistinctIds(np.(eastWest := ew)) && AllIssued(np.(eastWest := ew), hi)
  {
    var kept := NotOwnedBy(np.eastWest, OWNER_KIND);
    NotOwnedElements(np.eastWest, OWNER_KIND);
    OwnedByNone(kept, OWNER_KIND);
    OwnedByAll(batch, OWNER_KIND);
    OwnedByAppend(kept, batch, OWNER_KIND);
    FreshIds(np, batch, lo, hi);
    AppendIds(kept, batch);
    KeptIds(np.eastWest, kept);
    IssuedInList(np, np.(eastWest := kept + batch), lo, hi, kept, batch);
  }

  lemma KeptIds(ps: seq<Policy>, kept: seq<Policy>)
    requires forall p :: p in kept ==> p in ps
    ensures Ids(kept) <= Ids(ps)
  {
  }

  lemma FreshIds(np: NetworkPolicy, batch: seq<Policy>, lo: nat, hi: nat)
    requires AllIssued(np, lo) && GoodBatch(batch, lo, hi)
    ensures Ids(batch) !! Ids(np.eastWest) && Ids(batch) !! Ids(np.nsObserve) && Ids(batch) !! Ids(np.nsEnforce)
  {
    FreshAgainst(np, batch, lo, hi);
    assert np.List(RaindEW) == np.eastWest && np.List(RaindNsObs) == np.nsObserve && np.List(RaindNsEnf) == np.nsEnforce;
    forall c, p: Policy | UserChain(c) && p in np.List(c)
      ensures p.id !in Ids(batch)
    {
    }
  }

  lemma IssuedInList(np: NetworkPolicy, np': NetworkPolicy, lo: nat, hi: nat, kept: seq<Policy>, batch: seq<Policy>)
    requires AllIssued(np, hi) && GoodBatch(batch, lo, hi) && np' == np.(eastWest := kept + batch)
    requires forall p :: p in kept ==> p in np.eastWest
    ensures AllIssued(np', hi)
  {
    forall c, p | UserChain(c) && p in np'.List(c)
      ensures Issued(p.id, 0, hi)
    {
      if c == RaindEW && p in batch {
        var n :| lo <= n < hi && p.id == Ulid(n);
      } else {
        assert p in np.List(c);
      }
    }
  }

  lemma FreshAgainst(np: NetworkPolicy, batch: seq<Policy>, lo: nat, hi: nat)
    requires AllIssued(np, lo) && GoodBatch(batch, lo, hi)
    ensures forall c, p, q :: UserChain(c) && p in np.List(c) && q in batch ==> p.id != q.id
  {
    forall c, p, q | UserChain(c) && p in np.List(c) && q in batch
      ensures p.id != q.id
    {
      IssuedApart(p.id, q.id, 0, lo, hi);
    }
  }

  lemma {:induction false} InStepFrom(cluster: Cluster, store: Store, sorted: seq<Policy>, ew: seq<Policy>, desired: seq<Policy>, os: seq<Origin>)
    requires OwnedBy(ew, OWNER_KIND) == sorted == SortPolicies(desired)
    requires AllFit(cluster, store, desired, os) && Enumerates(cluster, store, os)
    ensures InStep(cluster, store, ew)
  {
    SortPoliciesKeys(desired);
    KeysMatchSeq(cluster, store, desired, os);
    SortKeysElements(Keys(desired));
  }

  // ---- what being in step means ---------------------------------------------------------------

  /** The fields of the state key, none with the separator in it. */
  predicate NulFree(p: Policy) {
    && '\0' !in p.ownerKind && '\0' !in p.ownerId && '\0' !in p.ownerNS && '\0' !in p.ownerName
    && '\0' !in p.source.containerName && '\0' !in p.source.displayName
    && '\0' !in p.destination.containerName && '\0' !in p.destination.displayName
    && '\0' !in p.protocol && '\0' !in p.comment && '\0' !in p.managedBy
  }

  predicate SameContent(p: Policy, q: Policy) {
    && p.ownerKind == q.ownerKind && p.ownerId == q.ownerId && p.ownerNS == q.ownerNS && p.ownerName == q.ownerName
    && p.source.containerName == q.source.containerName && p.source.displayName == q.source.displayName
    && p.destination.containerName == q.destination.containerName && p.destination.displayName == q.destination.displayName
    && p.protocol == q.protocol && p.destPort == q.destPort && p.comment == q.comment && p.managedBy == q.managedBy
  }

  /** Equal keys mean equal owner, endpoints, traffic, comment and manager, and nothing else. */
  lemma StateKeyIff(p: Policy, q: Policy)
    requires NulFree(p) && NulFree(q)
    ensures StateKey(p) == StateKey(q) <==> SameContent(p, q)
  {
    var f, g := KeyFields(p), KeyFields(q);
    NoNulInDigits(p.destPort);
    NoNulInDigits(q.destPort);
    if StateKey(p) == StateKey(q) {
      JoinInjective(f, g, '\0');
      assert f[0] == g[0] && f[1] == g[1] && f[2] == g[2] && f[3] == g[3] && f[4] == g[4] && f[5] == g[5];
      assert f[6] == g[6] && f[7] == g[7] && f[8] == g[8] && f[9] == g[9] && f[10] == g[10] && f[11] == g[11];
      ItoaInjective(p.destPort, q.destPort);
    }
  }

  lemma NoNulInDigits(n: int)
    ensures '\0' !in Itoa(n)
  {
  }

  /** Rule i of the NetworkPolicy connects the two pods, and no earlier rule makes the same key. */
  ghost predicate Maker(cluster: Cluster, store: Store, id: string, i: nat, src: Endpoint, dst: Endpoint) {
    id in store && i < |Sided(store[id])| && Connects(cluster, store[id], Sided(store[id])[i], src, dst)
    && forall j :: 0 <= j < i ==> !RuleMakes(cluster, store[id], Sided(store[id])[j], KeyOf(Sided(store[id])[i], src, dst))
  }

  /** The policy says so, in so many words. */
  ghost predicate Says(store: Store, id: string, i: nat, src: Endpoint, dst: Endpoint, p: Policy) {
    id in store && i < |Sided(store[id])| &&
    var m, r := store[id], Sided(store[id])[i].rule;
    && p.ownerKind == "NetworkPolicy" && p.ownerId == id && p.ownerNS == m.namespace && p.ownerName == m.name && p.managedBy == "resource"
    && p.source.containerName == src.container.name && p.source.displayName == src.pod.name
    && p.destination.containerName == dst.container.name && p.destination.displayName == dst.pod.name
    && p.protocol == r.protocol && p.destPort == r.port
    && p.comment == "NetworkPolicy " + m.namespace + "/" + m.name + " " + r.direction + " " + src.pod.name + "->" + dst.pod.name
  }

  /** The NetworkPolicy-owned policies are exactly what the stored NetworkPolicies and the ready pods call for. */
  ghost predicate Mirrors(cluster: Cluster, store: Store, ew: seq<Policy>) {
    && (forall p :: p in ew && p.ownerKind == "NetworkPolicy" ==>
         exists id, i: nat, src, dst :: Maker(cluster, store, id, i, src, dst) && Says(store, id, i, src, dst, p))
    && (forall id, i: nat, src, dst :: Maker(cluster, store, id, i, src, dst) ==> exists p :: p in ew && Says(store, id, i, src, dst, p))
  }

  /** No name in the cluster or the store holds the separator. */
  ghost predicate PlainNames(cluster: Cluster, store: Store) {
    && (forall p :: p in cluster.pods ==> '\0' !in p.name)
    && (forall c :: c in cluster.containers ==> '\0' !in c.name)
    && (forall id :: id in store ==> '\0' !in id && '\0' !in store[id].namespace && '\0' !in store[id].name)
    && (forall id, r :: id in store && (r in store[id].ingress || r in store[id].egress) ==> '\0' !in r.protocol && '\0' !in r.direction)
  }

  ghost predicate OwnedNulFree(ew: seq<Policy>) {
    forall p :: p in ew && p.ownerKind == OWNER_KIND ==> NulFree(p)
  }

  lemma {:induction false} FirstMaker(cluster: Cluster, m: Manifest, rules: seq<SidedRule>, k: BackendKey) returns (i: nat)
    requires MadeBySome(cluster, m, rules, k)
    ensures i < |rules| && RuleMakes(cluster, m, rules[i], k) && (forall j :: 0 <= j < i ==> !RuleMakes(cluster, m, rules[j], k))
    ensures FirstDirection(cluster, m, rules, k) == rules[i].rule.direction
    decreases |rules|
  {
    hide RuleMakes;
    var init := rules[..|rules| - 1];
    if MadeBySome(cluster, m, init, k) {
      i := FirstMaker(cluster, m, init, k);
      assert forall j :: 0 <= j < |init| ==> init[j] == rules[j];
    } else {
      i := |rules| - 1;
      forall j | 0 <= j < i
        ensures !RuleMakes(cluster, m, rules[j], k)
      {
        assert init[j] == rules[j];
      }
    }
  }

  /** The same rule whoever looks for it. */
  lemma {:induction false} MakerIsFirst(cluster: Cluster, store: Store, id: string, i: nat, src: Endpoint, dst: Endpoint)
    requires Maker(cluster, store, id, i, src, dst)
    ensures var k := KeyOf(Sided(store[id])[i], src, dst);
            IsOrigin(cluster, store, (id, k)) && FirstDirection(cluster, store[id], Sided(store[id]), k) == Sided(store[id])[i].rule.direction
  {
    var rules, k := Sided(store[id]), KeyOf(Sided(store[id])[i], src, dst);
    assert RuleMakes(cluster, store[id], rules[i], k);
    var l := FirstMaker(cluster, store[id], rules, k);
    assert l == i;
  }

  /** What an origin wants, in so many words. */
  lemma OriginSays(cluster: Cluster, store: Store, o: Origin, p: Policy) returns (i: nat, src: Endpoint, dst: Endpoint)
    requires WellFormed(cluster) && IsOrigin(cluster, store, o) && SameContent(p, Wanted(cluster, store, o))
    ensures Maker(cluster, store, o.0, i, src, dst) && Says(store, o.0, i, src, dst, p)
  {
    var m := store[o.0];
    var rules := Sided(m);
    i := FirstMaker(cluster, m, rules, o.1);
    var s, d :| Connects(cluster, m, rules[i], s, d) && o.1 == KeyOf(rules[i], s, d);
    src, dst := s, d;
    NamesShown(cluster, m, rules[i], src, dst);
  }

  lemma MakerSays(cluster: Cluster, store: Store, id: string, i: nat, src: Endpoint, dst: Endpoint, p: Policy)
    requires WellFormed(cluster) && Maker(cluster, store, id, i, src, dst)
    requires SameContent(p, Wanted(cluster, store, (id, KeyOf(Sided(store[id])[i], src, dst))))
    ensures Says(store, id, i, src, dst, p)
  {
    MakerIsFirst(cluster, store, id, i, src, dst);
    NamesShown(cluster, store[id], Sided(store[id])[i], src, dst);
  }

  lemma NamesShown(cluster: Cluster, m: Manifest, r: SidedRule, src: Endpoint, dst: Endpoint)
    requires WellFormed(cluster) && Connects(cluster, m, r, src, dst)
    ensures DisplayName(cluster, src.container.name) == src.pod.name && DisplayName(cluster, dst.container.name) == dst.pod.name
    ensures src.pod in cluster.pods && dst.pod in cluster.pods && src.container in cluster.containers && dst.container in cluster.containers
  {
    DisplayNameIs(cluster, m.namespace, if r.ingress then r.rule.podSelector else m.podSelector, src);
    DisplayNameIs(cluster, m.namespace, if r.ingress then m.podSelector else r.rule.podSelector, dst);
  }

  lemma WantedNulFree(cluster: Cluster, store: Store, o: Origin)
    requires WellFormed(cluster) && PlainNames(cluster, store) && IsOrigin(cluster, store, o)
    ensures NulFree(Wanted(cluster, store, o))
  {
    hide Connects, Wanted, Maker, Makes, WellFormed;
    var w := Wanted(cluster, store, o);
    SameItself(w);
    var i, src, dst := OriginSays(cluster, store, o, w);
    var m := store[o.0];
    var r := Sided(m)[i].rule;
    assert Connects(cluster, m, Sided(m)[i], src, dst) by { MakerConnects(cluster, store, o.0, i, src, dst); }
    NamesShown(cluster, m, Sided(m)[i], src, dst);
    assert r in m.ingress || r in m.egress;
    CommentNulFree(m.namespace, m.name, r.direction, src.pod.name, dst.pod.name);
    assert '\0' !in "resource" && '\0' !in "NetworkPolicy";
  }

  lemma SameItself(p: Policy)
    ensures SameContent(p, p)
  {
  }

  lemma MakerConnects(cluster: Cluster, store: Store, id: string, i: nat, src: Endpoint, dst: Endpoint)
    requires Maker(cluster, store, id, i, src, dst)
    ensures Connects(cluster, store[id], Sided(store[id])[i], src, dst)
  {
  }

  lemma CommentNulFree(ns: string, name: string, direction: string, src: string, dst: string)
    requires '\0' !in ns && '\0' !in name && '\0' !in direction && '\0' !in src && '\0' !in dst
    ensures '\0' !in "NetworkPolicy " + ns + "/" + name + " " + direction + " " + src + "->" + dst
  {
    NulFreeConcat("NetworkPolicy ", ns);
    NulFreeConcat("NetworkPolicy " + ns, "/");
    NulFreeConcat("NetworkPolicy " + ns + "/", name);
    NulFreeConcat("NetworkPolicy " + ns + "/" + name, " ");
    NulFreeConcat("NetworkPolicy " + ns + "/" + name + " ", direction);
    NulFreeConcat("NetworkPolicy " + ns + "/" + name + " " + direction, " ");
    NulFreeConcat("NetworkPolicy " + ns + "/" + name + " " + direction + " ", src);
    NulFreeConcat("NetworkPolicy " + ns + "/" + name + " " + direction + " " + src, "->");
    NulFreeConcat("NetworkPolicy " + ns + "/" + name + " " + direction + " " + src + "->", dst);
  }

  lemma NulFreeConcat(a: string, b: string)
    ensures '\0' !in a && '\0' !in b ==> '\0' !in a + b
  {
  }

  /** Neither the owned policies nor the wanted ones hold the separator. */
  ghost predicate Readable(cluster: Cluster, store: Store, ew: seq<Policy>) {
    OwnedNulFree(ew) && forall o :: IsOrigin(cluster, store, o) ==> NulFree(Wanted(cluster, store, o))
  }

  lemma PlainIsReadable(cluster: Cluster, store: Store, ew: seq<Policy>)
    requires WellFormed(cluster) && PlainNames(cluster, store) && OwnedNulFree(ew)
    ensures Readable(cluster, store, ew)
  {
    hide NulFree, Wanted, Makes;
    forall o | IsOrigin(cluster, store, o)
      ensures NulFree(Wanted(cluster, store, o))
    {
      WantedNulFree(cluster, store, o);
    }
  }

  lemma StoredForOrigin(cluster: Cluster, store: Store, ew: seq<Policy>, o: Origin) returns (p: Policy)
    requires InStep(cluster, store, ew) && Readable(cluster, store, ew) && IsOrigin(cluster, store, o)
    ensures p in ew && p.ownerKind == OWNER_KIND && SameContent(p, Wanted(cluster, store, o))
  {
    hide Wanted, StateKey, NulFree, SameContent, Makes;
    var owned := OwnedBy(ew, OWNER_KIND);
    var os :| Enumerates(cluster, store, os) && multiset(Keys(owned)) == multiset(OriginKeys(cluster, store, os));
    var ks := OriginKeys(cluster, store, os);
    var i :| 0 <= i < |os| && os[i] == o;
    assert ks[i] in multiset(ks);
    assert ks[i] in Keys(owned);
    var j :| 0 <= j < |owned| && Keys(owned)[j] == ks[i];
    p := owned[j];
    NotOwnedElements(ew, OWNER_KIND);
    assert p in owned;
    StateKeyIff(p, Wanted(cluster, store, o));
  }

  lemma OriginOfStored(cluster: Cluster, store: Store, ew: seq<Policy>, p: Policy) returns (o: Origin)
    requires InStep(cluster, store, ew) && Readable(cluster, store, ew) && p in ew && p.ownerKind == OWNER_KIND
    ensures IsOrigin(cluster, store, o) && SameContent(p, Wanted(cluster, store, o))
  {
    hide Wanted, StateKey, NulFree, SameContent, Makes;
    var owned := OwnedBy(ew, OWNER_KIND);
    var os :| Enumerates(cluster, store, os) && multiset(Keys(owned)) == multiset(OriginKeys(cluster, store, os));
    var ks := OriginKeys(cluster, store, os);
    NotOwnedElements(ew, OWNER_KIND);
    var j :| 0 <= j < |owned| && owned[j] == p;
    assert Keys(owned)[j] in multiset(Keys(owned));
    assert Keys(owned)[j] in ks;
    var i :| 0 <= i < |ks| && ks[i] == Keys(owned)[j];
    o := os[i];
    assert o in os;
    StateKeyIff(p, Wanted(cluster, store, o));
  }

  /** In step means that the owned policies say exactly what the NetworkPolicies call for. */
  lemma InStepMirrors(cluster: Cluster, store: Store, ew: seq<Policy>)
    requires WellFormed(cluster) && InStep(cluster, store, ew) && Readable(cluster, store, ew)
    ensures Mirrors(cluster, store, ew)
  {
    hide InStep, Readable, Maker, Says, WellFormed, Wanted, SameContent, Makes;
    assert OWNER_KIND == "NetworkPolicy";
    forall p | p in ew && p.ownerKind == "NetworkPolicy"
      ensures exists id, i: nat, src, dst :: Maker(cluster, store, id, i, src, dst) && Says(store, id, i, src, dst, p)
    {
      var o := OriginOfStored(cluster, store, ew, p);
      var i, src, dst := OriginSays(cluster, store, o, p);
    }
    forall id, i: nat, src, dst | Maker(cluster, store, id, i, src, dst)
      ensures exists p :: p in ew && Says(store, id, i, src, dst, p)
    {
      MakerInRange(cluster, store, id, i, src, dst);
      MakerIsFirst(cluster, store, id, i, src, dst);
      var p := StoredForOrigin(cluster, store, ew, (id, KeyOf(Sided(store[id])[i], src, dst)));
      MakerSays(cluster, store, id, i, src, dst, p);
    }
  }

  lemma MakerInRange(cluster: Cluster, store: Store, id: string, i: nat, src: Endpoint, dst: Endpoint)
    requires Maker(cluster, store, id, i, src, dst)
    ensures id in store && i < |Sided(store[id])|
  {
  }

  /** Freshly generated policies hold no separator either. */
  lemma GeneratedNulFree(cluster: Cluster, store: Store, sorted: seq<Policy>, desired: seq<Policy>, os: seq<Origin>)
    requires WellFormed(cluster) && PlainNames(cluster, store) && AllFit(cluster, store, desired, os) && Enumerates(cluster, store, os)
    requires multiset(sorted) == multiset(desired)
    ensures OwnedNulFree(sorted)
  {
    hide WellFormed, PlainNames, Makes, NulFree, Wanted;
    forall p | p in sorted
      ensures NulFree(p)
    {
      assert p in multiset(sorted);
      var i :| 0 <= i < |desired| && desired[i] == p;
      assert Fits(cluster, store, os[i], p) && os[i] in os;
      WantedNulFree(cluster, store, os[i]);
      FitsIsNulFree(cluster, store, os[i], p);
    }
  }

  lemma FitsIsNulFree(cluster: Cluster, store: Store, o: Origin, p: Policy)
    requires Fits(cluster, store, o, p) && NulFree(Wanted(cluster, store, o))
    ensures NulFree(p)
  {
  }

  // ---- quiescence -----------------------------------------------------------------------------

  lemma CommitOneShape(p: Policy, env: Env)
    requires p.status != RemoveNextCommit
    ensures var one := CommitOne(RaindEW, p, env);
            |one| == 1 && one[0] == p.(status := one[0].status, reason := one[0].reason)
  {
  }

  lemma SameStateKey(p: Policy, q: Policy)
    requires q == p.(status := q.status, reason := q.reason)
    ensures Keys(OwnedBy([q], OWNER_KIND)) == Keys(OwnedBy([p], OWNER_KIND))
  {
    assert [p][..0] == [] && [q][..0] == [];
    assert KeyFields(p) == KeyFields(q);
  }

  lemma CommitOneKeepsKeys(p: Policy, env: Env)
    requires p.ownerKind == OWNER_KIND ==> p.status != RemoveNextCommit
    ensures Keys(OwnedBy(CommitOne(RaindEW, p, env), OWNER_KIND)) == Keys(OwnedBy([p], OWNER_KIND))
  {
    if p.status == RemoveNextCommit {
      OwnedByNone([p], OWNER_KIND);
      assert CommitOne(RaindEW, p, env) == [];
    } else {
      hide CommitOne, Keys;
      CommitOneShape(p, env);
      var one := CommitOne(RaindEW, p, env);
      assert one == [one[0]];
      SameStateKey(p, one[0]);
    }
  }

  lemma KeysAppend(a: seq<Policy>, b: seq<Policy>)
    ensures Keys(a + b) == Keys(a) + Keys(b)
  {
  }

  lemma {:induction false} CommitKeepsKeys(ps: seq<Policy>, env: Env)
    requires forall p :: p in ps && p.ownerKind == OWNER_KIND ==> p.status != RemoveNextCommit
    ensures Keys(OwnedBy(CommitList(RaindEW, ps, env), OWNER_KIND)) == Keys(OwnedBy(ps, OWNER_KIND))
    decreases |ps|
  {
    hide CommitOne;
    if ps != [] {
      var init, last := ps[..|ps| - 1], ps[|ps| - 1];
      assert ps == init + [last];
      CommitKeepsKeys(init, env);
      CommitOneKeepsKeys(last, env);
      var done, one := CommitList(RaindEW, init, env), CommitOne(RaindEW, last, env);
      OwnedByAppend(done, one, OWNER_KIND);
      OwnedByAppend(init, [last], OWNER_KIND);
      KeysAppend(OwnedBy(done, OWNER_KIND), OwnedBy(one, OWNER_KIND));
      KeysAppend(OwnedBy(init, OWNER_KIND), OwnedBy([last], OWNER_KIND));
    }
  }

  /** MAIN: a commit changes ids, statuses and reasons at will, but never brings the store out of
      step; so after a changing pass the next pass over unchanged pods reports no change. */
  lemma CommitStaysInStep(cluster: Cluster, store: Store, np: NetworkPolicy, env: Env)
    requires InStep(cluster, store, np.eastWest)
    requires forall p :: p in np.eastWest && p.ownerKind == OWNER_KIND ==> p.status != RemoveNextCommit
    ensures InStep(cluster, store, CommitStore(np, env).eastWest)
  {
    CommitKeepsKeys(np.eastWest, env);
  }
}

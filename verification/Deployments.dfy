/** reconcileDeployments: each deployment owns one replica set; a missing one is forgotten on one pass
    and made again on the next. */
module Deployments {

  datatype DeploymentSpec = DeploymentSpec(name: string, namespace: string, replicas: int, templateId: string,
                                           selector: map<string, string>, replicaSetId: string)

  datatype ReplicaSetSpec = ReplicaSetSpec(name: string, namespace: string, replicas: int, templateId: string, selector: map<string, string>)

  type DeploymentStore = map<string, DeploymentSpec>
  type ReplicaSets = map<string, ReplicaSetSpec>

  /** No two deployments share a replica set. */
  ghost predicate Unshared(deployments: DeploymentStore) {
    forall x, y :: x in deployments && y in deployments && x != y && deployments[x].replicaSetId != "" ==>
      deployments[x].replicaSetId != deployments[y].replicaSetId
  }

  /** It points to a live replica set of its own size. */
  predicate Settled(d: DeploymentSpec, rs: ReplicaSets) {
    d.replicaSetId != "" && d.replicaSetId in rs && rs[d.replicaSetId].replicas == d.replicas
  }

  /** What one failure-free visit makes of a deployment that the snapshot of replica sets shows like this. */
  ghost predicate Visited(was: DeploymentSpec, snapshot: ReplicaSets, now: DeploymentSpec, rs: ReplicaSets) {
    && now == was.(replicaSetId := now.replicaSetId)
    && if was.replicaSetId == "" then
         Settled(now, rs) && now.replicaSetId !in snapshot
         && rs[now.replicaSetId] == ReplicaSetSpec(was.name, was.namespace, was.replicas, was.templateId, was.selector)
       else if was.replicaSetId !in snapshot then now.replicaSetId == ""
       else now.replicaSetId == was.replicaSetId && Settled(now, rs)
  }

  /** Two failure-free passes settle every deployment, whatever its pointer was. */
  lemma TwoPassesSettle(d0: DeploymentStore, rs0: ReplicaSets, d1: DeploymentStore, rs1: ReplicaSets, d2: DeploymentStore, rs2: ReplicaSets)
    requires d0.Keys == d1.Keys == d2.Keys
    requires forall id :: id in d1 ==> Visited(d0[id], rs0, d1[id], rs1)
    requires forall id :: id in d2 ==> Visited(d1[id], rs1, d2[id], rs2)
    ensures AllSettled(d2, rs2)
    ensures forall id :: id in d2 ==> d2[id].(replicaSetId := "") == d0[id].(replicaSetId := "")
  {
    forall id | id in d2
      ensures Settled(d2[id], rs2) && d2[id].(replicaSetId := "") == d0[id].(replicaSetId := "")
    {
      assert id in d1.Keys;
      assert Visited(d0[id], rs0, d1[id], rs1) && Visited(d1[id], rs1, d2[id], rs2);
    }
  }

  /** The pod store between passes. */
  datatype PodState = PodState(deployments: DeploymentStore, replicaSets: ReplicaSets, writes: nat)

  /** One failure-free pass. */
  ghost predicate Pass(a: PodState, b: PodState) {
    && b.deployments.Keys == a.deployments.Keys
    && (forall id :: id in a.deployments ==> Visited(a.deployments[id], a.replicaSets, b.deployments[id], b.replicaSets))
    && (Unshared(a.deployments) ==> Unshared(b.deployments))
    && (AllSettled(a.deployments, a.replicaSets) ==> b == a)
  }

  ghost predicate Passes(states: seq<PodState>) {
    |states| > 0 && forall i :: 0 <= i < |states| - 1 ==> Pass(states[i], states[i + 1])
  }

  /** MAIN: after two failure-free passes the store is settled, and no later pass writes anything. */
  lemma {:induction false} LaterPassesAreIdle(states: seq<PodState>, n: nat)
    requires Passes(states) && 2 <= n < |states|
    ensures AllSettled(states[n].deployments, states[n].replicaSets)
    ensures states[n] == states[2]
    ensures Unshared(states[0].deployments) ==> Unshared(states[n].deployments)
    ensures states[n].deployments.Keys == states[0].deployments.Keys
    ensures forall id :: id in states[n].deployments ==>
                states[n].deployments[id].(replicaSetId := "") == states[0].deployments[id].(replicaSetId := "")
  {
    assert Pass(states[0], states[1]) && Pass(states[1], states[2]);
    if n == 2 {
      TwoPassesSettle(states[0].deployments, states[0].replicaSets, states[1].deployments, states[1].replicaSets,
                      states[2].deployments, states[2].replicaSets);
    } else {
      LaterPassesAreIdle(states, n - 1);
      assert Pass(states[n - 1], states[n - 1 + 1]);
    }
  }

  /** The one failure of the store: a replica set resized to a negative count. */
  predicate RefusedResize(d: DeploymentSpec, snapshot: ReplicaSets) {
    d.replicaSetId != "" && d.replicaSetId in snapshot && snapshot[d.replicaSetId].replicas != d.replicas && d.replicas < 0
  }

  class PodStore {
    var deployments: DeploymentStore
    var replicaSets: ReplicaSets
    var writes: nat

    constructor (deployments: DeploymentStore, replicaSets: ReplicaSets)
      ensures this.deployments == deployments && this.replicaSets == replicaSets && writes == 0
    {
      this.deployments, this.replicaSets, writes := deployments, replicaSets, 0;
    }

    method StoreReplicaSet(id: string, spec: ReplicaSetSpec)
      modifies `replicaSets, `writes
      ensures replicaSets == old(replicaSets)[id := spec] && writes == old(writes) + 1
    {
      replicaSets, writes := replicaSets[id := spec], writes + 1;
    }

    method UpdateDeploymentReplicaSet(id: string, replicaSetId: string) returns (ok: bool)
      modifies `deployments, `writes
      ensures ok == (id in old(deployments))
      ensures !ok ==> deployments == old(deployments) && writes == old(writes)
      ensures ok ==> deployments == old(deployments)[id := old(deployments)[id].(replicaSetId := replicaSetId)] && writes == old(writes) + 1
    {
      ok := id in deployments;
      if ok {
        deployments, writes := deployments[id := deployments[id].(replicaSetId := replicaSetId)], writes + 1;
      }
    }

    /** A negative count is refused. */
    method UpdateReplicaSetReplicas(id: string, replicas: int) returns (ok: bool)
      modifies `replicaSets, `writes
      ensures ok == (id in old(replicaSets) && replicas >= 0)
      ensures !ok ==> replicaSets == old(replicaSets) && writes == old(writes)
      ensures ok ==> replicaSets == old(replicaSets)[id := old(replicaSets)[id].(replicas := replicas)] && writes == old(writes) + 1
    {
      ok := id in replicaSets && replicas >= 0;
      if ok {
        replicaSets, writes := replicaSets[id := replicaSets[id].(replicas := replicas)], writes + 1;
      }
    }

    /** One deployment of the list. ulid is the id a new replica set would get. */
    method ReconcileOne(id: string, snapshot: ReplicaSets, ulid: string) returns (ok: bool)
      requires id in deployments && snapshot.Keys <= replicaSets.Keys
      requires ulid != "" && ulid !in replicaSets && forall x :: x in deployments ==> deployments[x].replicaSetId != ulid
      requires deployments[id].replicaSetId != "" && deployments[id].replicaSetId in snapshot ==> replicaSets[deployments[id].replicaSetId] == snapshot[deployments[id].replicaSetId]
      modifies this
      ensures deployments.Keys == old(deployments.Keys)
      ensures !ok <==> RefusedResize(old(deployments[id]), snapshot)
      ensures !ok ==> unchanged(this)
      ensures ok ==> deployments == old(deployments)[id := old(deployments[id]).(replicaSetId := deployments[id].replicaSetId)]
      ensures ok ==> Visited(old(deployments[id]), snapshot, deployments[id], replicaSets)
      ensures ok ==> deployments[id].replicaSetId in {old(deployments[id]).replicaSetId, "", ulid}
      ensures replicaSets.Keys == if deployments[id].replicaSetId == ulid then old(replicaSets.Keys) + {ulid} else old(replicaSets.Keys)
      ensures forall r :: r in old(replicaSets) && r != old(deployments[id]).replicaSetId ==> replicaSets[r] == old(replicaSets)[r]
      ensures Settled(old(deployments[id]), snapshot) ==> writes == old(writes)
      ensures writes == old(writes) ==> deployments == old(deployments) && replicaSets == old(replicaSets)
      ensures writes >= old(writes)
    {
      var deploy := deployments[id];
      if deploy.replicaSetId == "" {
        StoreReplicaSet(ulid, ReplicaSetSpec(deploy.name, deploy.namespace, deploy.replicas, deploy.templateId, deploy.selector));
        ok := UpdateDeploymentReplicaSet(id, ulid);
        return;
      }
      if deploy.replicaSetId !in snapshot {
        ok := UpdateDeploymentReplicaSet(id, "");
        return;
      }
      ok := true;
      if snapshot[deploy.replicaSetId].replicas != deploy.replicas {
        ok := UpdateReplicaSetReplicas(deploy.replicaSetId, deploy.replicas);
      }
      assert deployments[id := deploy] == deployments;
    }

    /** One pass, over the deployments in any order. The ids of new replica sets are fresh. */
    method ReconcileDeployments(ulids: map<string, string>) returns (ok: bool)
      requires Unshared(deployments) && FreshIds(deployments, replicaSets, ulids)
      modifies this
      ensures Unshared(deployments) && deployments.Keys == old(deployments.Keys)
      ensures ok ==> forall id :: id in deployments ==> Visited(old(deployments)[id], old(replicaSets), deployments[id], replicaSets)
      ensures ok ==> Pass(PodState(old(deployments), old(replicaSets), old(writes)), PodState(deployments, replicaSets, writes))
      ensures ok <==> forall id :: id in old(deployments) ==> !RefusedResize(old(deployments)[id], old(replicaSets))
      ensures AllSettled(old(deployments), old(replicaSets)) ==>
                ok && deployments == old(deployments) && replicaSets == old(replicaSets) && writes == old(writes)
    {
      var snapshot := replicaSets;
      var rest := deployments.Keys;
      ghost var was := deployments;
      PassBegins(deployments, replicaSets, ulids);
      assert ulids.Keys == deployments.Keys;
      SettledResizes(deployments, replicaSets);
      RefusedOrNot(deployments, replicaSets);
      hide Between, BetweenAt, Visited, Unshared, FreshIds, AllSettled, RefusedResize, Settled, Pass, NoneRefused;
      while rest != {}
        invariant rest <= deployments.Keys && deployments.Keys == was.Keys && ulids.Keys == was.Keys && Between(was, snapshot, deployments, replicaSets, rest, ulids)
        invariant writes >= old(writes)
        invariant NoneRefused(was, snapshot, was.Keys - rest)
        invariant AllSettled(was, snapshot) ==> deployments == was && replicaSets == snapshot && writes == old(writes)
        decreases rest
      {
        var id :| id in rest;
        ghost var d, rs := deployments, replicaSets;
        BetweenAllows(was, snapshot, deployments, replicaSets, rest, ulids, id);
        BetweenUnshared(was, snapshot, deployments, replicaSets, rest, ulids);
        ok := ReconcileOne(id, snapshot, ulids[id]);
        if !ok {
          return;
        }
        BetweenStep(was, snapshot, d, rs, deployments, replicaSets, rest, ulids, id);
        NextUnrefused(was, snapshot, rest, id);
        rest := rest - {id};
      }
      BetweenUnshared(was, snapshot, deployments, replicaSets, {}, ulids);
      PassEnds(was, snapshot, deployments, replicaSets, ulids, old(writes), writes);
      return true;
    }
  }

  ghost predicate NoneRefused(deployments: DeploymentStore, rs: ReplicaSets, ids: set<string>) {
    forall id :: id in deployments && id in ids ==> !RefusedResize(deployments[id], rs)
  }

  lemma NextUnrefused(was: DeploymentStore, snapshot: ReplicaSets, rest: set<string>, id: string)
    requires NoneRefused(was, snapshot, was.Keys - rest) && id in rest && id in was && !RefusedResize(was[id], snapshot)
    ensures NoneRefused(was, snapshot, was.Keys - (rest - {id}))
  {
  }

  lemma RefusedOrNot(was: DeploymentStore, snapshot: ReplicaSets)
    ensures NoneRefused(was, snapshot, was.Keys) <==> forall id :: id in was ==> !RefusedResize(was[id], snapshot)
    ensures NoneRefused(was, snapshot, {}) && was.Keys - {} == was.Keys && was.Keys - was.Keys == {}
  {
  }

  lemma SettledResizes(deployments: DeploymentStore, rs: ReplicaSets)
    ensures AllSettled(deployments, rs) ==> forall id :: id in deployments ==> Settled(deployments[id], rs) && !RefusedResize(deployments[id], rs)
  {
  }

  ghost predicate AllSettled(deployments: DeploymentStore, rs: ReplicaSets) {
    forall id :: id in deployments ==> Settled(deployments[id], rs)
  }

  ghost predicate FreshIds(deployments: DeploymentStore, rs: ReplicaSets, ulids: map<string, string>) {
    && ulids.Keys == deployments.Keys
    && (forall x :: x in ulids ==> ulids[x] != "" && ulids[x] !in rs)
    && (forall x, y :: x in ulids && y in deployments ==> deployments[y].replicaSetId != ulids[x])
    && (forall x, y :: x in ulids && y in ulids && x != y ==> ulids[x] != ulids[y])
  }

  /** In the middle of a pass: who has been visited is done, who has not is as it was. */
  ghost predicate Between(was: DeploymentStore, snapshot: ReplicaSets, d: DeploymentStore, rs: ReplicaSets, rest: set<string>, ulids: map<string, string>) {
    && Unshared(was) && FreshIds(was, snapshot, ulids) && d.Keys == was.Keys && snapshot.Keys <= rs.Keys
    && forall x :: x in was ==> BetweenAt(was[x], snapshot, d[x], rs, x in rest, ulids[x])
  }

  ghost predicate BetweenAt(was: DeploymentSpec, snapshot: ReplicaSets, now: DeploymentSpec, rs: ReplicaSets, waiting: bool, ulid: string) {
    && now.replicaSetId in {was.replicaSetId, "", ulid}
    && (now.replicaSetId == ulid ==> was.replicaSetId == "")
    && if waiting then now == was && ulid !in rs && (was.replicaSetId != "" && was.replicaSetId in snapshot ==>
              was.replicaSetId in rs && rs[was.replicaSetId] == snapshot[was.replicaSetId])
       else Visited(was, snapshot, now, rs)
  }

  lemma BetweenAllows(was: DeploymentStore, snapshot: ReplicaSets, d: DeploymentStore, rs: ReplicaSets, rest: set<string>, ulids: map<string, string>, id: string)
    requires Between(was, snapshot, d, rs, rest, ulids) && id in rest && id in was
    ensures ulids[id] != "" && ulids[id] !in rs && forall x :: x in d ==> d[x].replicaSetId != ulids[id]
    ensures d[id] == was[id] && snapshot.Keys <= rs.Keys
    ensures d[id].replicaSetId != "" && d[id].replicaSetId in snapshot ==> rs[d[id].replicaSetId] == snapshot[d[id].replicaSetId]
  {
    hide Visited;
    assert BetweenAt(was[id], snapshot, d[id], rs, true, ulids[id]);
  }

  /** Visiting id leaves what is known about every other deployment. */
  lemma OthersStay(was: DeploymentStore, snapshot: ReplicaSets, d: DeploymentStore, rs: ReplicaSets, rs': ReplicaSets,
                   rest: set<string>, ulids: map<string, string>, id: string, x: string)
    requires Between(was, snapshot, d, rs, rest, ulids) && id in rest && id in was && x in was && x != id
    requires rs.Keys <= rs'.Keys <= rs.Keys + {ulids[id]}
    requires forall r :: r in rs && r != d[id].replicaSetId ==> rs'[r] == rs[r]
    ensures BetweenAt(was[x], snapshot, d[x], rs', x in rest, ulids[x])
  {
    assert BetweenAt(was[x], snapshot, d[x], rs, x in rest, ulids[x]) && BetweenAt(was[id], snapshot, d[id], rs, true, ulids[id]);
    assert d[id].replicaSetId != "" ==> d[x].replicaSetId != d[id].replicaSetId && was[x].replicaSetId != d[id].replicaSetId;
    assert ulids[x] != ulids[id];
  }

  lemma BetweenStep(was: DeploymentStore, snapshot: ReplicaSets, d: DeploymentStore, rs: ReplicaSets, d': DeploymentStore, rs': ReplicaSets,
                    rest: set<string>, ulids: map<string, string>, id: string)
    requires Between(was, snapshot, d, rs, rest, ulids) && id in rest && id in was && id in d'
    requires d' == d[id := d'[id]] && Visited(was[id], snapshot, d'[id], rs')
    requires d'[id].replicaSetId in {d[id].replicaSetId, "", ulids[id]}
    requires rs'.Keys == if d'[id].replicaSetId == ulids[id] then rs.Keys + {ulids[id]} else rs.Keys
    requires forall r :: r in rs && r != d[id].replicaSetId ==> rs'[r] == rs[r]
    ensures Between(was, snapshot, d', rs', rest - {id}, ulids)
  {
    BetweenAllows(was, snapshot, d, rs, rest, ulids, id);
    hide Visited, Unshared, FreshIds, Between;
    assert BetweenAt(was[id], snapshot, d'[id], rs', false, ulids[id]);
    hide BetweenAt;
    BetweenFacts(was, snapshot, d, rs, rest, ulids);
    forall x | x in was
      ensures BetweenAt(was[x], snapshot, d'[x], rs', x in rest - {id}, ulids[x])
    {
      if x != id {
        OthersStay(was, snapshot, d, rs, rs', rest, ulids, id, x);
      }
    }
    BetweenFrom(was, snapshot, d', rs', rest - {id}, ulids);
  }

  lemma BetweenFacts(was: DeploymentStore, snapshot: ReplicaSets, d: DeploymentStore, rs: ReplicaSets, rest: set<string>, ulids: map<string, string>)
    requires Between(was, snapshot, d, rs, rest, ulids)
    ensures Unshared(was) && FreshIds(was, snapshot, ulids) && d.Keys == was.Keys && snapshot.Keys <= rs.Keys && ulids.Keys == was.Keys
  {
  }

  lemma BetweenFrom(was: DeploymentStore, snapshot: ReplicaSets, d: DeploymentStore, rs: ReplicaSets, rest: set<string>, ulids: map<string, string>)
    requires Unshared(was) && FreshIds(was, snapshot, ulids) && d.Keys == was.Keys && snapshot.Keys <= rs.Keys && ulids.Keys == was.Keys
    requires forall x :: x in was ==> BetweenAt(was[x], snapshot, d[x], rs, x in rest, ulids[x])
    ensures Between(was, snapshot, d, rs, rest, ulids)
  {
    hide BetweenAt;
  }

  lemma BetweenUnshared(was: DeploymentStore, snapshot: ReplicaSets, d: DeploymentStore, rs: ReplicaSets, rest: set<string>, ulids: map<string, string>)
    requires Between(was, snapshot, d, rs, rest, ulids)
    ensures Unshared(d)
  {
    forall x, y | x in d && y in d && x != y && d[x].replicaSetId != ""
      ensures d[x].replicaSetId != d[y].replicaSetId
    {
      assert BetweenAt(was[x], snapshot, d[x], rs, x in rest, ulids[x]) && BetweenAt(was[y], snapshot, d[y], rs, y in rest, ulids[y]);
      hide Visited;
    }
  }

  lemma PassBegins(d: DeploymentStore, rs: ReplicaSets, ulids: map<string, string>)
    requires Unshared(d) && FreshIds(d, rs, ulids)
    ensures Between(d, rs, d, rs, d.Keys, ulids)
  {
    hide Visited;
  }

  lemma PassEnds(was: DeploymentStore, snapshot: ReplicaSets, d: DeploymentStore, rs: ReplicaSets, ulids: map<string, string>,
                 w: nat, w': nat)
    requires Between(was, snapshot, d, rs, {}, ulids) && Unshared(d)
    requires AllSettled(was, snapshot) ==> d == was && rs == snapshot && w' == w
    ensures forall id :: id in d ==> Visited(was[id], snapshot, d[id], rs)
    ensures Pass(PodState(was, snapshot, w), PodState(d, rs, w'))
  {
    hide Visited, AllSettled, Unshared;
    forall id | id in d
      ensures Visited(was[id], snapshot, d[id], rs)
    {
      assert BetweenAt(was[id], snapshot, d[id], rs, false, ulids[id]);
    }
  }
}

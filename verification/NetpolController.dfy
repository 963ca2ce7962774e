/** The NetworkPolicy controller's pass: reconcile, and commit only if something changed. */
module NetpolController {
  import opened Iptables
  import opened PolicyRules
  import opened PolicyCompiler
  import opened PolicyService
  import opened PolicyTheorems
  import opened PolicyCommit
  import opened NetpolService
  import opened NetpolReconcile

  class NetworkPolicyController {
    const policy: ServicePolicy
    const ids: UlidSource

    constructor (policy: ServicePolicy, ids: UlidSource)
      ensures this.policy == policy && this.ids == ids
    {
      this.policy := policy;
      this.ids := ids;
    }

    /** After a changing pass that could commit, everything the end-to-end theorem asks of the store
        and the chains holds; a pass without change touches nothing. */
    method ReconcileOnce(cluster: Cluster, store: Store, env: Env) returns (changed: bool, ok: bool)
      requires WellFormed(cluster) && Forward in policy.Chains()
      requires DistinctIds(policy.npm.np) && AllIssued(policy.npm.np, ids.next)
      modifies policy.npm, policy.iptables.table, ids
      ensures changed <==> !InStep(cluster, store, old(policy.npm.np).eastWest)
      ensures !changed ==> ok && policy.npm.np == old(policy.npm.np) && policy.Chains() == old(policy.Chains())
      ensures changed ==> ok == Configured(env)
      ensures changed && ok ==> InStep(cluster, store, policy.npm.np.eastWest) && Committed(policy.Chains(), policy.npm.np, env)
      ensures changed && ok ==> forall p :: p in policy.npm.np.eastWest ==> p.status != RemoveNextCommit
      ensures DistinctIds(policy.npm.np) && AllIssued(policy.npm.np, ids.next)
    {
      hide DistinctIds, AllIssued, Committed, InStep, CommitStore, CommitChains, PredefinedChains;
      changed := ReconcileAll(cluster, store, policy.npm, ids);
      if !changed {
        return false, true;
      }
      ghost var np := policy.npm.np;
      NotOwnedElements(np.eastWest, OWNER_KIND);
      ok := policy.CommitPolicy(env);
      if ok {
        CommittedAsStored(old(policy.Chains()), np, env);
        CommitStaysInStep(cluster, store, np, env);
        NothingMarked(np, env);
        CommitKeepsIssued(np, env, ids.next);
      } else {
        FixedKeepsIssued(np, ids.next);
      }
    }
  }

  lemma NothingMarked(np: NetworkPolicy, env: Env)
    ensures forall p :: p in CommitStore(np, env).eastWest ==> p.status != RemoveNextCommit
  {
    forall p | p in CommitStore(np, env).eastWest
      ensures p.status != RemoveNextCommit
    {
      CommitSettlesStatuses(RaindEW, np, env, p);
    }
  }

  lemma CommitKeepsIssued(np: NetworkPolicy, env: Env, next: nat)
    requires AllIssued(np, next)
    ensures AllIssued(CommitStore(np, env), next)
  {
    forall c, q | UserChain(c) && q in CommitStore(np, env).List(c)
      ensures Issued(q.id, 0, next)
    {
      var p := SettledOrigin(c, np.List(c), env, q);
      assert p.id == q.id;
    }
  }

  lemma FixedKeepsIssued(np: NetworkPolicy, next: nat)
    requires AllIssued(np, next)
    ensures AllIssued(Fixed(np), next)
  {
    forall c, p | UserChain(c) && p in Fixed(np).List(c)
      ensures Issued(p.id, 0, next)
    {
      assert p in np.List(c);
    }
  }
}

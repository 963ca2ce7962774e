/** What a rollback leaves. Undo entries of Services may fail; which services a rollback loses is told by
    the first time the run updated each of them. */
module ResourceRollback {
  import opened ResourceStores

  /** The service an undo entry is about, and whether it is to come back. */
  function Touched(u: Undo): set<string> {
    match u
    case ReplaceService(s) => {s.id}
    case DropService(id) => {id}
    case _ => {}
  }

  function Updating(u: Undo): set<string> {
    if u.ReplaceService? then {u.service.id} else {}
  }

  function Without(st: Stores, ids: set<string>): Stores {
    st.(services := st.services - ids)
  }

  /** One applied document and its undo entry. */
  ghost predicate UndoStep(before: Stores, after: Stores, u: Undo, r: ServiceRange) {
    match u
    case ReplaceService(was) =>
      was.id in before.services && before.services[was.id] == was && was.id in after.services
      && after == before.(services := before.services[was.id := after.services[was.id]])
    case DropService(id) =>
      id !in before.services && id in after.services && after == before.(services := before.services[id := after.services[id]])
    case _ => after.services == before.services && RunUndo(after, u, r) == before
  }

  ghost predicate Steps(states: seq<Stores>, undos: seq<Undo>, r: ServiceRange) {
    && |states| == |undos| + 1
    && (forall i :: 0 <= i < |states| ==> Sound(states[i], r))
    && forall i :: 0 <= i < |undos| ==> UndoStep(states[i], states[i + 1], undos[i], r)
  }

  // ---- what gets lost ------------------------------------------------------------------------------

  /** The services step k touches and those it updates; after the last step comes the failing document,
      which may have tried to update some. */
  function TouchedAt(undos: seq<Undo>, tried: set<string>, k: nat): set<string>
    requires k <= |undos|
  {
    if k < |undos| then Touched(undos[k]) else tried
  }

  function UpdatedAt(undos: seq<Undo>, tried: set<string>, k: nat): set<string>
    requires k <= |undos|
  {
    if k < |undos| then Updating(undos[k]) else tried
  }

  /** From step i on, step k is the first to touch the service: it updates it while somebody else uses its
      address. */
  ghost predicate LosesAt(states: seq<Stores>, undos: seq<Undo>, tried: set<string>, i: nat, k: nat, id: string)
    requires |states| == |undos| + 1 && i <= k <= |undos|
  {
    && id in UpdatedAt(undos, tried, k) && id in states[k].services && !PutsBack(states[k].services, states[k].services[id])
    && forall j :: i <= j < k ==> id !in TouchedAt(undos, tried, j)
  }

  ghost predicate Loses(states: seq<Stores>, undos: seq<Undo>, tried: set<string>, i: nat, id: string)
    requires |states| == |undos| + 1 && i <= |undos|
  {
    exists k :: i <= k <= |undos| && LosesAt(states, undos, tried, i, k, id)
  }

  ghost function LostFrom(states: seq<Stores>, undos: seq<Undo>, tried: set<string>, i: nat): set<string>
    requires |states| == |undos| + 1 && i <= |undos|
  {
    set id | id in states[i].services && Loses(states, undos, tried, i, id)
  }

  /** What the failing document itself loses. */
  ghost function LostNow(st: Stores, tried: set<string>): set<string> {
    set id | id in tried && id in st.services && !PutsBack(st.services, st.services[id])
  }

  lemma LostAtEnd(states: seq<Stores>, undos: seq<Undo>, tried: set<string>)
    requires |states| == |undos| + 1
    ensures LostFrom(states, undos, tried, |undos|) == LostNow(states[|undos|], tried)
  {
    hide PutsBack;
    forall id
      ensures Loses(states, undos, tried, |undos|, id) <==> LosesAt(states, undos, tried, |undos|, |undos|, id)
    {
    }
  }

  lemma {:induction false} Untouched(states: seq<Stores>, undos: seq<Undo>, r: ServiceRange, i: nat, k: nat, id: string)
    requires Steps(states, undos, r) && i <= k <= |undos| && forall j :: i <= j < k ==> id !in Touched(undos[j])
    ensures id in states[k].services <==> id in states[i].services
    ensures id in states[k].services ==> states[k].services[id] == states[i].services[id]
    decreases k
  {
    hide Sound, RunUndo, RemoveService, StoreService;
    if i < k {
      Untouched(states, undos, r, i, k - 1, id);
      assert UndoStep(states[k - 1], states[k - 1 + 1], undos[k - 1], r);
    }
  }

  /** A NodePort service always comes back. */
  lemma LostAreClusterIP(states: seq<Stores>, undos: seq<Undo>, tried: set<string>, r: ServiceRange, i: nat, id: string)
    requires Steps(states, undos, r) && i <= |undos| && Loses(states, undos, tried, i, id)
    ensures id in states[i].services && states[i].services[id].type_ != NODE_PORT
  {
    assert |states| == |undos| + 1;
    hide Steps, NODE_PORT, CLUSTER_IP, Used;
    var k :| i <= k <= |undos| && LosesAt(states, undos, tried, i, k, id);
    forall j | i <= j < k
      ensures id !in Touched(undos[j])
    {
      assert id !in TouchedAt(undos, tried, j);
    }
    Untouched(states, undos, r, i, k, id);
  }

  /** One step earlier: what the step touched comes back or goes, unless its address is taken. */
  lemma LostStep(states: seq<Stores>, undos: seq<Undo>, tried: set<string>, i: nat, id: string)
    requires |states| == |undos| + 1 && i < |undos| && id in states[i].services
    ensures Loses(states, undos, tried, i, id) <==>
            if id in Touched(undos[i]) then id in Updating(undos[i]) && !PutsBack(states[i].services, states[i].services[id])
            else Loses(states, undos, tried, i + 1, id)
  {
    hide PutsBack, Touched, Updating;
    if id in Touched(undos[i]) {
      assert LosesAt(states, undos, tried, i, i, id) <==> id in Updating(undos[i]) && !PutsBack(states[i].services, states[i].services[id]);
      forall k | i < k <= |undos|
        ensures !LosesAt(states, undos, tried, i, k, id)
      {
        assert id in TouchedAt(undos, tried, i);
      }
    } else {
      NotTouched(states, undos, tried, i, id);
    }
  }

  lemma NotTouched(states: seq<Stores>, undos: seq<Undo>, tried: set<string>, i: nat, id: string)
    requires |states| == |undos| + 1 && i < |undos| && id !in Touched(undos[i])
    ensures Loses(states, undos, tried, i, id) <==> Loses(states, undos, tried, i + 1, id)
  {
    hide PutsBack;
    assert id !in UpdatedAt(undos, tried, i) && id !in TouchedAt(undos, tried, i);
    forall k | i < k <= |undos|
      ensures LosesAt(states, undos, tried, i, k, id) <==> LosesAt(states, undos, tried, i + 1, k, id)
    {
    }
    if Loses(states, undos, tried, i, id) {
      var k :| i <= k <= |undos| && LosesAt(states, undos, tried, i, k, id);
      assert i < k && LosesAt(states, undos, tried, i + 1, k, id);
    }
    if Loses(states, undos, tried, i + 1, id) {
      var k :| i + 1 <= k <= |undos| && LosesAt(states, undos, tried, i + 1, k, id);
      assert LosesAt(states, undos, tried, i, k, id);
    }
  }

  // ---- one undo entry ---------------------------------------------------------------------------------

  /** Whoever else uses the address of a ClusterIP service is a NodePort service, and those are not lost. */
  lemma SameUse(before: Stores, after: Stores, was: ServiceInfo, lost: set<string>, r: ServiceRange)
    requires Sound(before, r) && UndoStep(before, after, ReplaceService(was), r) && was.type_ != NODE_PORT
    requires forall y :: y in lost && y in after.services ==> after.services[y].type_ != NODE_PORT
    ensures was.clusterIP in Used(before.services - (lost + {was.id})) <==> was.clusterIP in Used(before.services - {was.id})
  {
    hide NODE_PORT, CLUSTER_IP;
    var some, all := before.services - (lost + {was.id}), before.services - {was.id};
    assert NormalService(was, r);
    if was.clusterIP in Used(all) {
      var y :| y in all && all[y].clusterIP == was.clusterIP;
      assert y in after.services && after.services[y] == before.services[y] && NormalService(before.services[y], r);
      assert y in some;
    }
    if was.clusterIP in Used(some) {
      var y :| y in some && some[y].clusterIP == was.clusterIP;
      assert y in all;
    }
  }

  lemma MissingEntry<K, V>(b: map<K, V>, a: map<K, V>, k: K, lost: set<K>)
    requires k in b && k in a && a == b[k := a[k]]
    ensures a - lost - {k} == b - (lost + {k})
    ensures (b - (lost + {k}))[k := b[k]] == b - (lost - {k})
  {
  }

  lemma ReplaceWithout(before: Stores, after: Stores, was: ServiceInfo, lost: set<string>, r: ServiceRange)
    requires Sound(before, r) && UndoStep(before, after, ReplaceService(was), r)
    requires forall y :: y in lost && y in after.services ==> after.services[y].type_ != NODE_PORT
    ensures RunUndo(Without(after, lost), ReplaceService(was), r) ==
            Without(before, if PutsBack(before.services, was) then lost - {was.id} else lost + {was.id})
  {
    assert NormalService(was, r);
    hide NODE_PORT, CLUSTER_IP, StoreServiceOrNot, Sound, Used, NormalService;
    MissingEntry(before.services, after.services, was.id, lost);
    var rest := Without(before, lost + {was.id});
    assert RemoveService(Without(after, lost), was.id) == rest;
    PutBack(rest, was, r);
    if was.type_ != NODE_PORT {
      SameUse(before, after, was, lost, r);
    }
  }

  lemma DropWithout(before: Stores, after: Stores, id: string, lost: set<string>, r: ServiceRange)
    requires UndoStep(before, after, DropService(id), r)
    ensures RunUndo(Without(after, lost), DropService(id), r) == Without(before, lost - {id})
  {
    assert after.services - lost - {id} == before.services - (lost - {id});
  }

  lemma OtherWithout(before: Stores, after: Stores, u: Undo, lost: set<string>, r: ServiceRange)
    requires UndoStep(before, after, u, r) && !u.ReplaceService? && !u.DropService?
    ensures RunUndo(Without(after, lost), u, r) == Without(before, lost)
  {
  }

  /** The services lost one step earlier. */
  lemma LostBefore(states: seq<Stores>, undos: seq<Undo>, tried: set<string>, r: ServiceRange, i: nat)
    requires Steps(states, undos, r) && i < |undos|
    ensures var lost, lost' := LostFrom(states, undos, tried, i + 1), LostFrom(states, undos, tried, i);
            match undos[i]
            case ReplaceService(was) => lost' == if PutsBack(states[i].services, was) then lost - {was.id} else lost + {was.id}
            case DropService(id) => lost' == lost - {id}
            case _ => lost' == lost
  {
    var before, after := states[i].services, states[i + 1].services;
    assert UndoStep(states[i], states[i + 1], undos[i], r);
    assert forall id :: id !in Touched(undos[i]) ==> (id in before <==> id in after);
    forall id | id in before
      ensures Loses(states, undos, tried, i, id) <==>
              if id in Touched(undos[i]) then id in Updating(undos[i]) && !PutsBack(before, before[id]) else Loses(states, undos, tried, i + 1, id)
    {
      LostStep(states, undos, tried, i, id);
    }
    hide Loses, PutsBack, Steps, RunUndo;
  }

  lemma UndoWithout(states: seq<Stores>, undos: seq<Undo>, tried: set<string>, r: ServiceRange, i: nat)
    requires Steps(states, undos, r) && i < |undos|
    ensures RunUndo(Without(states[i + 1], LostFrom(states, undos, tried, i + 1)), undos[i], r) ==
            Without(states[i], LostFrom(states, undos, tried, i))
  {
    assert UndoStep(states[i], states[i + 1], undos[i], r) && Sound(states[i], r);
    var lost := LostFrom(states, undos, tried, i + 1);
    forall y | y in lost
      ensures states[i + 1].services[y].type_ != NODE_PORT
    {
      LostAreClusterIP(states, undos, tried, r, i + 1, y);
    }
    LostBefore(states, undos, tried, r, i);
    hide Loses, LostFrom, Sound, PutsBack, RunUndo, Steps, NODE_PORT, UndoStep, Without;
    match undos[i] {
      case ReplaceService(was) =>
        ReplaceWithout(states[i], states[i + 1], was, lost, r);
      case DropService(id) =>
        DropWithout(states[i], states[i + 1], id, lost, r);
      case _ =>
        OtherWithout(states[i], states[i + 1], undos[i], lost, r);
    }
  }

  /** MAIN: rolling back a run leaves its first state without the lost services. */
  lemma {:induction false} RolledBack(states: seq<Stores>, undos: seq<Undo>, tried: set<string>, r: ServiceRange, i: nat)
    requires Steps(states, undos, r) && i <= |undos|
    ensures RunUndos(Without(states[i], LostFrom(states, undos, tried, i)), undos[..i], r) ==
            Without(states[0], LostFrom(states, undos, tried, 0))
    decreases i
  {
    hide LostFrom, Steps, RunUndo;
    if i > 0 {
      UndoWithout(states, undos, tried, r, i - 1);
      RolledBack(states, undos, tried, r, i - 1);
      assert undos[..i][..i - 1] == undos[..i - 1] && undos[..i][i - 1] == undos[i - 1];
    } else {
      assert undos[..0] == [];
    }
  }

  /** So the run is undone exactly when its first update of each old service met nobody else on its address. */
  lemma UndoneIff(states: seq<Stores>, undos: seq<Undo>, tried: set<string>)
    requires |states| == |undos| + 1
    ensures Without(states[0], LostFrom(states, undos, tried, 0)) == states[0] <==>
            forall id :: id in states[0].services ==> !Loses(states, undos, tried, 0, id)
  {
    hide Loses;
    var lost := LostFrom(states, undos, tried, 0);
    if lost == {} {
      assert states[0].services - lost == states[0].services;
    } else {
      var id :| id in lost;
      assert id !in Without(states[0], lost).services;
    }
  }
}

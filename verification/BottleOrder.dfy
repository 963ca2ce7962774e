/** The start order of a bottle: Kahn's algorithm over the declared dependencies, which may repeat, name
    the service itself, or name nothing known. */
module BottleOrder {

  /** Each service with its DependsOn list. */
  type Services = map<string, seq<string>>

  datatype OrderResult =
    | Ordered(order: seq<string>)
    | UnknownDependency(service: string, dep: string)
    | CycleDetected

  // ---- what the order is for ---------------------------------------------------------------------

  ghost predicate Known(services: Services) {
    forall s, i :: s in services && 0 <= i < |services[s]| ==> services[s][i] in services
  }

  /** A walk along dependencies. */
  ghost predicate Path(services: Services, p: seq<string>) {
    forall i :: 0 <= i < |p| - 1 ==> p[i] in services && p[i + 1] in services[p[i]]
  }

  ghost predicate Cycle(services: Services, p: seq<string>) {
    |p| > 1 && Path(services, p) && p[0] == p[|p| - 1]
  }

  ghost predicate Acyclic(services: Services) {
    forall p :: !Cycle(services, p)
  }

  /** Every service once, each after all its dependencies. */
  ghost predicate StartOrder(services: Services, order: seq<string>) {
    && (forall s :: s in order <==> s in services)
    && (forall i, j :: 0 <= i < j < |order| ==> order[i] != order[j])
    && DepsBefore(services, order)
  }

  ghost predicate DepsBefore(services: Services, order: seq<string>) {
    forall i, d :: 0 <= i < |order| && order[i] in services && d in services[order[i]] ==> d in order[..i]
  }

  // ---- counting what is still waited for -----------------------------------------------------------

  function Pending(deps: seq<string>, done: set<string>): nat {
    if deps == [] then 0
    else Pending(deps[1..], done) + if deps[0] in done then 0 else 1
  }

  lemma {:induction false} PendingNone(deps: seq<string>)
    ensures Pending(deps, {}) == |deps|
    decreases |deps|
  {
    if deps != [] {
      PendingNone(deps[1..]);
    }
  }

  lemma {:induction false} PendingZero(deps: seq<string>, done: set<string>)
    ensures Pending(deps, done) == 0 <==> forall d :: d in deps ==> d in done
    decreases |deps|
  {
    if deps != [] {
      PendingZero(deps[1..], done);
      assert deps == [deps[0]] + deps[1..];
    }
  }

  lemma {:induction false} PendingDone(deps: seq<string>, done: set<string>, n: string)
    requires n !in done
    ensures Pending(deps, done) == Pending(deps, done + {n}) + multiset(deps)[n]
    decreases |deps|
  {
    if deps != [] {
      PendingDone(deps[1..], done, n);
      assert deps == [deps[0]] + deps[1..];
    }
  }

  // ---- cycles ----------------------------------------------------------------------------------------

  /** Along dependencies the position in a start order falls, so no walk comes back. */
  lemma {:induction false} PathGoesDown(services: Services, order: seq<string>, p: seq<string>, i: nat)
    requires DepsBefore(services, order) && (forall s :: s in order <==> s in services) && Path(services, p) && |p| > 1
    requires i < |order| && order[i] == p[0]
    ensures exists j :: 0 <= j < i && order[j] == p[|p| - 1]
    decreases |p|
  {
    assert p[1] in services[order[i]];
    assert p[1] in order[..i];
    var j :| 0 <= j < i && order[j] == p[1];
    if |p| > 2 {
      PathSlice(services, p, 1, |p| - 1);
      assert p[1..|p| - 1 + 1] == p[1..];
      PathGoesDown(services, order, p[1..], j);
    }
  }

  lemma OrderedIsAcyclic(services: Services, order: seq<string>)
    requires StartOrder(services, order)
    ensures Known(services) && Acyclic(services)
  {
    forall s, k | s in services && 0 <= k < |services[s]|
      ensures services[s][k] in services
    {
      assert s in order;
      var i :| 0 <= i < |order| && order[i] == s;
      assert services[s][k] in order[..i];
    }
    forall p
      ensures !Cycle(services, p)
    {
      if |p| > 1 && Path(services, p) {
        assert p[0] in order;
        var i :| 0 <= i < |order| && order[i] == p[0];
        PathGoesDown(services, order, p, i);
      }
    }
  }

  /** Services left over each wait for another one left over. */
  ghost predicate Stuck(services: Services, left: set<string>) {
    forall s :: s in left ==> s in services && exists d :: d in services[s] && d in left
  }

  lemma PathCons(services: Services, s: string, q: seq<string>)
    requires Path(services, q) && q != [] && s in services && q[0] in services[s]
    ensures Path(services, [s] + q)
  {
    var p := [s] + q;
    forall i | 0 <= i < |p| - 1
      ensures p[i] in services && p[i + 1] in services[p[i]]
    {
      assert i > 0 ==> p[i] == q[i - 1] && p[i + 1] == q[i];
    }
  }

  lemma PathSlice(services: Services, p: seq<string>, i: nat, j: nat)
    requires Path(services, p) && i < j < |p|
    ensures Path(services, p[i..j + 1])
  {
    var c := p[i..j + 1];
    forall k | 0 <= k < |c| - 1
      ensures c[k] in services && c[k + 1] in services[c[k]]
    {
      assert c[k] == p[i + k] && c[k + 1] == p[i + k + 1];
    }
  }

  /** A walk of any length inside the stuck services. */
  lemma {:induction false} Walk(services: Services, left: set<string>, s: string, n: nat) returns (p: seq<string>)
    requires Stuck(services, left) && s in left
    ensures |p| == n + 1 && p[0] == s && Path(services, p) && forall i :: 0 <= i < |p| ==> p[i] in left
    decreases n
  {
    if n == 0 {
      p := [s];
    } else {
      var d :| d in services[s] && d in left;
      var q := Walk(services, left, d, n - 1);
      p := [s] + q;
      PathCons(services, s, q);
      hide Path;
    }
  }

  /** A walk longer than the set it stays in visits some service twice. */
  lemma {:induction false} Pigeonhole(p: seq<string>, within: set<string>) returns (i: nat, j: nat)
    requires |p| > |within| && forall k :: 0 <= k < |p| ==> p[k] in within
    ensures i < j < |p| && p[i] == p[j]
    decreases |p|
  {
    var last := |p| - 1;
    if k :| 0 <= k < last && p[k] == p[last] {
      i, j := k, last;
    } else {
      i, j := Pigeonhole(p[..last], within - {p[last]});
    }
  }

  lemma StuckHasCycle(services: Services, left: set<string>)
    requires Stuck(services, left) && left != {}
    ensures !Acyclic(services)
  {
    var s :| s in left;
    var p := Walk(services, left, s, |left|);
    var i, j := Pigeonhole(p, left);
    PathSlice(services, p, i, j);
    hide Path;
    assert Cycle(services, p[i..j + 1]);
  }

  // ---- the algorithm -----------------------------------------------------------------------------------

  function Edges(graph: map<string, seq<string>>, dep: string): seq<string> {
    if dep in graph then graph[dep] else []
  }

  /** graph holds, for each dependency, one entry per mention of it in the services done so far. */
  ghost predicate GraphOf(graph: map<string, seq<string>>, services: Services, rest: set<string>) {
    forall d, s :: EdgeCount(graph, d, s) == if s in services && s !in rest then multiset(services[s])[d] else 0
  }

  ghost function EdgeCount(graph: map<string, seq<string>>, d: string, s: string): nat {
    multiset(Edges(graph, d))[s]
  }

  method CountDependencies(services: Services) returns (unknown: bool, service: string, dep: string,
                                                        inDegree: map<string, nat>, graph: map<string, seq<string>>)
    ensures unknown ==> service in services && dep in services[service] && dep !in services
    ensures !unknown ==> Known(services) && inDegree.Keys == services.Keys && GraphOf(graph, services, {})
    ensures !unknown ==> forall s :: s in services ==> inDegree[s] == |services[s]|
  {
    inDegree := map s | s in services :: 0;
    graph := map[];
    unknown, service, dep := false, "", "";
    var rest := services.Keys;
    while rest != {}
      invariant rest <= services.Keys && inDegree.Keys == services.Keys && GraphOf(graph, services, rest)
      invariant forall s :: s in services ==> inDegree[s] == if s in rest then 0 else |services[s]|
      invariant forall s, i :: s in services && s !in rest && 0 <= i < |services[s]| ==> services[s][i] in services
      decreases rest
    {
      var name :| name in rest;
      var known, bad;
      known, bad, inDegree, graph := CountOne(services, name, rest, inDegree, graph);
      if !known {
        return true, name, bad, inDegree, graph;
      }
      rest := rest - {name};
    }
  }

  method CountOne(services: Services, name: string, ghost rest: set<string>, degrees: map<string, nat>, edges: map<string, seq<string>>)
    returns (known: bool, bad: string, inDegree: map<string, nat>, graph: map<string, seq<string>>)
    requires name in rest && rest <= services.Keys && degrees.Keys == services.Keys && GraphOf(edges, services, rest) && degrees[name] == 0
    ensures !known ==> bad in services[name] && bad !in services
    ensures known ==> GraphOf(graph, services, rest - {name}) && inDegree == degrees[name := |services[name]|]
    ensures known ==> forall i :: 0 <= i < |services[name]| ==> services[name][i] in services
  {
    hide Counted, GraphOf;
    var deps := services[name];
    inDegree, graph := degrees, edges;
    NothingCounted(edges, services, rest, name);
    var j := 0;
    DegreeEntry(degrees, name);
    while j < |deps|
      invariant j <= |deps| && inDegree == degrees[name := j]
      invariant forall i :: 0 <= i < j ==> deps[i] in services
      invariant Counted(graph, services, rest, name, deps[..j])
    {
      var d := deps[j];
      if d !in services {
        return false, d, inDegree, graph;
      }
      CountedStep(graph, services, rest, name, deps[..j], d);
      assert deps[..j + 1] == deps[..j] + [d];
      graph := graph[d := Edges(graph, d) + [name]];
      inDegree := inDegree[name := inDegree[name] + 1];
      DegreeAgain(degrees, name, j);
      j := j + 1;
    }
    assert deps[..|deps|] == deps;
    AllCounted(graph, services, rest, name);
    return true, "", inDegree, graph;
  }

  lemma DegreeEntry(degrees: map<string, nat>, name: string)
    requires name in degrees
    ensures degrees[name := degrees[name]] == degrees
  {
  }

  lemma DegreeAgain(degrees: map<string, nat>, name: string, j: nat)
    ensures degrees[name := j][name := j + 1] == degrees[name := j + 1]
  {
  }

  lemma NothingCounted(graph: map<string, seq<string>>, services: Services, rest: set<string>, name: string)
    requires GraphOf(graph, services, rest) && name in rest && name in services
    ensures Counted(graph, services, rest, name, services[name][..0])
  {
  }

  lemma AllCounted(graph: map<string, seq<string>>, services: Services, rest: set<string>, name: string)
    requires name in services && Counted(graph, services, rest, name, services[name])
    ensures GraphOf(graph, services, rest - {name})
  {
  }

  /** As GraphOf, with only the first dependencies of name counted yet. */
  ghost predicate Counted(graph: map<string, seq<string>>, services: Services, rest: set<string>, name: string, first: seq<string>) {
    forall d, s :: EdgeCount(graph, d, s) ==
      if s == name then multiset(first)[d] else if s in services && s !in rest then multiset(services[s])[d] else 0
  }

  lemma CountedStep(graph: map<string, seq<string>>, services: Services, rest: set<string>, name: string, first: seq<string>, dep: string)
    requires Counted(graph, services, rest, name, first)
    ensures Counted(graph[dep := Edges(graph, dep) + [name]], services, rest, name, first + [dep])
  {
    var more := graph[dep := Edges(graph, dep) + [name]];
    forall d, s
      ensures EdgeCount(more, d, s) ==
              if s == name then multiset(first + [dep])[d] else if s in services && s !in rest then multiset(services[s])[d] else 0
    {
      EdgeAdded(graph, dep, name, d, s);
      CountSnoc(first, dep, d);
      hide EdgeCount;
    }
    hide EdgeCount;
  }

  lemma EdgeAdded(graph: map<string, seq<string>>, dep: string, name: string, d: string, s: string)
    ensures EdgeCount(graph[dep := Edges(graph, dep) + [name]], d, s) ==
            EdgeCount(graph, d, s) + if d == dep && s == name then 1 else 0
  {
    if d == dep {
      CountSnoc(Edges(graph, d), name, s);
    }
  }

  lemma CountSnoc(list: seq<string>, x: string, y: string)
    ensures multiset(list + [x])[y] == multiset(list)[y] + if y == x then 1 else 0
  {
  }

  ghost predicate NoRepeats(s: seq<string>) {
    forall i, j :: 0 <= i < j < |s| ==> s[i] != s[j]
  }

  ghost function Elements(s: seq<string>): set<string> {
    set x | x in s
  }

  /** Between two dequeues: what is ordered or queued is exactly what waits for nothing more. */
  ghost predicate KahnState(services: Services, inDegree: map<string, nat>, order: seq<string>, queue: seq<string>) {
    && inDegree.Keys == services.Keys
    && NoRepeats(order + queue)
    && (forall s :: s in order + queue ==> s in services)
    && (forall s :: s in services ==> inDegree[s] == Pending(services[s], Elements(order)))
    && (forall s :: s in services ==> (s in order + queue <==> inDegree[s] == 0))
    && DepsBefore(services, order)
  }

  /** The services of degree zero, in whatever order the map gives them. */
  method InitialQueue(inDegree: map<string, nat>) returns (queue: seq<string>)
    ensures NoRepeats(queue) && forall s :: s in queue <==> s in inDegree && inDegree[s] == 0
  {
    queue := [];
    var rest := inDegree.Keys;
    while rest != {}
      invariant rest <= inDegree.Keys && NoRepeats(queue)
      invariant forall s :: s in queue <==> s in inDegree && s !in rest && inDegree[s] == 0
      decreases rest
    {
      var name :| name in rest;
      if inDegree[name] == 0 {
        queue := queue + [name];
      }
      rest := rest - {name};
    }
  }

  /** Dequeuing n: its edges are taken off one by one, and whoever waits no more is queued. */
  method Release(services: Services, edges: seq<string>, ghost order: seq<string>, n: string, degrees: map<string, nat>, waiting: seq<string>)
    returns (inDegree: map<string, nat>, queue: seq<string>)
    requires KahnState(services, degrees, order, [n] + waiting)
    requires forall s :: multiset(edges)[s] == if s in services then multiset(services[s])[n] else 0
    ensures KahnState(services, inDegree, order + [n], queue)
  {
    inDegree, queue := degrees, waiting;
    ghost var head := order + [n];
    ReleaseBegins(services, edges, degrees, order, n, waiting);
    DepsOf(services, degrees, order, n, waiting);
    hide KahnState, Releasing, DepsBefore;
    var j := 0;
    while j < |edges|
      invariant j <= |edges| && Releasing(services, edges[j..], inDegree, head, queue)
    {
      var next := edges[j];
      assert edges[j..] == [next] + edges[j + 1..];
      ReleaseStep(services, next, edges[j + 1..], inDegree, head, queue);
      inDegree := inDegree[next := inDegree[next] - 1];
      if inDegree[next] == 0 {
        queue := queue + [next];
      }
      j := j + 1;
    }
    assert edges[|edges|..] == [];
    ReleaseEnds(services, inDegree, head, queue);
  }

  lemma ReleaseEnds(services: Services, inDegree: map<string, nat>, order: seq<string>, queue: seq<string>)
    requires Releasing(services, [], inDegree, order, queue) && DepsBefore(services, order)
    ensures KahnState(services, inDegree, order, queue)
  {
    hide DepsBefore, Pending;
  }

  /** With these edges of the last ordered service still to take off. */
  ghost predicate Releasing(services: Services, edges: seq<string>, inDegree: map<string, nat>, order: seq<string>, queue: seq<string>) {
    && inDegree.Keys == services.Keys
    && NoRepeats(order + queue) && (forall s :: s in order + queue ==> s in services)
    && (forall s :: s in edges ==> s in services)
    && (forall s :: s in services ==> inDegree[s] == Pending(services[s], Elements(order)) + multiset(edges)[s])
    && (forall s :: s in services ==> (s in order + queue <==> inDegree[s] == 0))
  }

  lemma ReleaseBegins(services: Services, edges: seq<string>, degrees: map<string, nat>, order: seq<string>, n: string, waiting: seq<string>)
    requires KahnState(services, degrees, order, [n] + waiting)
    requires forall s :: multiset(edges)[s] == if s in services then multiset(services[s])[n] else 0
    ensures Releasing(services, edges[0..], degrees, order + [n], waiting)
  {
    StepFacts(services, degrees, order, n, waiting);
    assert edges[0..] == edges;
    forall s | s in edges
      ensures s in services
    {
      assert multiset(edges)[s] > 0;
    }
  }

  lemma ReleaseStep(services: Services, next: string, more: seq<string>, inDegree: map<string, nat>, order: seq<string>, queue: seq<string>)
    requires Releasing(services, [next] + more, inDegree, order, queue)
    ensures next in inDegree && inDegree[next] > 0
    ensures var left := inDegree[next := inDegree[next] - 1];
            Releasing(services, more, left, order, if left[next] == 0 then queue + [next] else queue)
  {
    assert next in [next] + more;
    assert multiset([next] + more) == multiset{next} + multiset(more);
    assert forall s :: s in more ==> s in [next] + more;
    hide Pending, Elements;
    var left := inDegree[next := inDegree[next] - 1];
    if left[next] == 0 {
      assert next !in order + queue;
      assert order + (queue + [next]) == order + queue + [next];
      Unrepeated(order + queue, next);
    }
  }

  lemma Unrepeated(s: seq<string>, x: string)
    requires NoRepeats(s) && x !in s
    ensures NoRepeats(s + [x])
  {
  }

  lemma StepFacts(services: Services, degrees: map<string, nat>, order: seq<string>, n: string, waiting: seq<string>)
    requires KahnState(services, degrees, order, [n] + waiting)
    ensures order + ([n] + waiting) == order + [n] + waiting
    ensures n !in order && n in services
    ensures forall s :: s in services ==> degrees[s] == Pending(services[s], Elements(order + [n])) + multiset(services[s])[n]
  {
    var all := order + ([n] + waiting);
    assert all[|order|] == n && n in all;
    assert forall k :: 0 <= k < |order| ==> all[k] == order[k];
    assert Elements(order + [n]) == Elements(order) + {n};
    forall s | s in services
      ensures degrees[s] == Pending(services[s], Elements(order + [n])) + multiset(services[s])[n]
    {
      PendingDone(services[s], Elements(order), n);
    }
  }

  lemma DepsOf(services: Services, degrees: map<string, nat>, order: seq<string>, n: string, waiting: seq<string>)
    requires KahnState(services, degrees, order, [n] + waiting)
    ensures DepsBefore(services, order + [n])
  {
    var all := order + ([n] + waiting);
    assert all[|order|] == n && n in all;
    PendingZero(services[n], Elements(order));
    forall i, d | 0 <= i < |order + [n]| && (order + [n])[i] in services && d in services[(order + [n])[i]]
      ensures d in (order + [n])[..i]
    {
      if i < |order| {
        assert (order + [n])[..i] == order[..i];
      } else {
        assert (order + [n])[..i] == order;
      }
    }
  }

  lemma NoRepeatsSize(s: seq<string>, within: set<string>)
    requires NoRepeats(s) && forall x :: x in s ==> x in within
    ensures |s| <= |within| && |Elements(s)| == |s|
    decreases |s|
  {
    if s != [] {
      var last := s[|s| - 1];
      var init := s[..|s| - 1];
      NoRepeatsSize(init, within - {last});
      assert Elements(s) == Elements(init) + {last};
    }
  }

  /** One turn of the loop: the first of the queue is next in the order. */
  method Dequeue(services: Services, graph: map<string, seq<string>>, degrees: map<string, nat>, before: seq<string>, waiting: seq<string>)
    returns (inDegree: map<string, nat>, order: seq<string>, queue: seq<string>)
    requires GraphOf(graph, services, {}) && waiting != [] && KahnState(services, degrees, before, waiting)
    ensures order == before + [waiting[0]] && |order| <= |services| && KahnState(services, inDegree, order, queue)
  {
    hide KahnState, GraphOf, Edges;
    var n := waiting[0];
    assert waiting == [n] + waiting[1..];
    EdgesInto(graph, services, n);
    inDegree, queue := Release(services, Edges(graph, n), before, n, degrees, waiting[1..]);
    order := before + [n];
    Bounded(services, inDegree, order, queue);
  }

  lemma KnownOrNot(services: Services)
    ensures forall s, d :: s in services && d in services[s] && d !in services ==> !Known(services)
  {
    forall s, d | s in services && d in services[s] && d !in services
      ensures !Known(services)
    {
      var i :| 0 <= i < |services[s]| && services[s][i] == d;
    }
  }

  /** MAIN: the order is found exactly when every dependency is a known service and none depends on itself
      through others; a short order means a real cycle. */
  method BuildStartOrder(services: Services) returns (r: OrderResult)
    ensures r.Ordered? <==> Known(services) && Acyclic(services)
    ensures r.Ordered? ==> StartOrder(services, r.order)
    ensures r.UnknownDependency? ==> r.service in services && r.dep in services[r.service] && r.dep !in services
    ensures r.CycleDetected? ==> Known(services) && !Acyclic(services)
  {
    KnownOrNot(services);
    hide KahnState, Known, Acyclic, StartOrder, GraphOf, Edges, DepsBefore, Pending, Elements, NoRepeats;
    var unknown, service, dep, inDegree, graph := CountDependencies(services);
    if unknown {
      return UnknownDependency(service, dep);
    }
    var order: seq<string> := [];
    var queue := InitialQueue(inDegree);
    Begin(services, inDegree, queue);
    while queue != []
      invariant KahnState(services, inDegree, order, queue) && |order| <= |services|
      decreases |services| - |order|
    {
      inDegree, order, queue := Dequeue(services, graph, inDegree, order, queue);
    }
    if |order| != |services| {
      ShortOrder(services, inDegree, order);
      return CycleDetected;
    }
    FullOrder(services, inDegree, order);
    return Ordered(order);
  }

  lemma EdgesInto(graph: map<string, seq<string>>, services: Services, n: string)
    requires GraphOf(graph, services, {})
    ensures forall s :: multiset(Edges(graph, n))[s] == if s in services then multiset(services[s])[n] else 0
  {
    forall s
      ensures multiset(Edges(graph, n))[s] == if s in services then multiset(services[s])[n] else 0
    {
      assert EdgeCount(graph, n, s) == multiset(Edges(graph, n))[s];
    }
  }

  lemma Begin(services: Services, inDegree: map<string, nat>, queue: seq<string>)
    requires inDegree.Keys == services.Keys && forall s :: s in services ==> inDegree[s] == |services[s]|
    requires NoRepeats(queue) && forall s :: s in queue <==> s in inDegree && inDegree[s] == 0
    ensures KahnState(services, inDegree, [], queue)
  {
    assert [] + queue == queue && Elements([]) == {};
    forall s | s in services
      ensures inDegree[s] == Pending(services[s], {})
    {
      PendingNone(services[s]);
    }
  }

  lemma Bounded(services: Services, inDegree: map<string, nat>, order: seq<string>, queue: seq<string>)
    requires KahnState(services, inDegree, order, queue)
    ensures |order| <= |services|
  {
    assert forall i, j :: 0 <= i < j < |order| ==> (order + queue)[i] == order[i] && (order + queue)[j] == order[j];
    assert forall x :: x in order ==> x in order + queue;
    NoRepeatsSize(order, services.Keys);
  }

  /** When the queue runs dry with every service ordered, and with some left over. */
  lemma FullOrder(services: Services, inDegree: map<string, nat>, order: seq<string>)
    requires KahnState(services, inDegree, order, []) && |order| == |services|
    ensures StartOrder(services, order) && Known(services) && Acyclic(services)
  {
    OrderedIn(services, inDegree, order);
    NoRepeatsSize(order, services.Keys);
    SameSize(Elements(order), services.Keys);
    hide KahnState;
    assert forall s :: s in order <==> s in Elements(order);
    OrderedIsAcyclic(services, order);
  }

  lemma ShortOrder(services: Services, inDegree: map<string, nat>, order: seq<string>)
    requires KahnState(services, inDegree, order, []) && Known(services) && |order| != |services|
    ensures !Acyclic(services)
  {
    OrderedIn(services, inDegree, order);
    NoRepeatsSize(order, services.Keys);
    LeftIsStuck(services, inDegree, order);
    hide KahnState, Known, Acyclic, Stuck, Elements, NoRepeats, DepsBefore;
    SomeLeft(Elements(order), services.Keys);
    StuckHasCycle(services, services.Keys - Elements(order));
  }

  lemma OrderedIn(services: Services, inDegree: map<string, nat>, order: seq<string>)
    requires KahnState(services, inDegree, order, [])
    ensures NoRepeats(order) && Elements(order) <= services.Keys && DepsBefore(services, order)
  {
    assert order + [] == order;
  }

  lemma LeftIsStuck(services: Services, inDegree: map<string, nat>, order: seq<string>)
    requires KahnState(services, inDegree, order, []) && Known(services)
    ensures Stuck(services, services.Keys - Elements(order))
  {
    assert order + [] == order;
    var left := services.Keys - Elements(order);
    forall s | s in left
      ensures exists d :: d in services[s] && d in left
    {
      PendingZero(services[s], Elements(order));
      assert inDegree[s] != 0;
      var d :| d in services[s] && d !in Elements(order);
      var i :| 0 <= i < |services[s]| && services[s][i] == d;
      assert d in left;
    }
  }

  lemma SomeLeft(a: set<string>, b: set<string>)
    requires a <= b && |a| != |b|
    ensures b - a != {}
  {
    assert a != b;
    var x :| x in b && x !in a;
    assert x in b - a;
  }

  lemma SameSize(a: set<string>, b: set<string>)
    requires a <= b && |a| == |b|
    ensures a == b
  {
    assert b == a + (b - a);
    assert |b| == |a| + |b - a|;
    assert b - a == {};
  }
}

/** Starting and stopping the containers of a bottle along its start order. */
module BottleService {
  import opened BottleOrder

  /** A bottle as the store holds it: "" stands for a container not created. */
  datatype Bottle = Bottle(startOrder: seq<string>, services: Services, containers: map<string, string>)

  datatype Reply = Done | EmptyOrder | NotCreated(service: string) | NoSpec(service: string) | Failed(service: string)

  function ContainerOf(b: Bottle, service: string): string {
    if service in b.containers then b.containers[service] else ""
  }

  /** A bottle registered with the order BuildStartOrder gave, one container to a service. */
  ghost predicate WellMade(b: Bottle) {
    && StartOrder(b.services, b.startOrder)
    && forall s, t :: s in b.services && t in b.services && s != t && ContainerOf(b, s) != "" ==> ContainerOf(b, s) != ContainerOf(b, t)
  }

  /** The services whose containers run. */
  ghost function Up(b: Bottle, running: set<string>): set<string> {
    set s | s in b.services && ContainerOf(b, s) != "" && ContainerOf(b, s) in running
  }

  /** A service is up only with all its dependencies. */
  ghost predicate Supported(b: Bottle, running: set<string>) {
    forall s, d :: s in Up(b, running) && d in b.services[s] ==> d in Up(b, running)
  }

  /** One more service, its dependencies being up. */
  lemma StartKeepsSupport(b: Bottle, running: set<string>, i: nat)
    requires WellMade(b) && Supported(b, running) && i < |b.startOrder| && ContainerOf(b, b.startOrder[i]) != ""
    requires forall j :: 0 <= j < i ==> b.startOrder[j] in Up(b, running)
    ensures var s := b.startOrder[i];
            Up(b, running + {ContainerOf(b, s)}) == Up(b, running) + {s} && Supported(b, running + {ContainerOf(b, s)})
  {
    var s := b.startOrder[i];
    assert s in b.services;
    var more := running + {ContainerOf(b, s)};
    assert Up(b, more) == Up(b, running) + {s};
    forall t, d | t in Up(b, more) && d in b.services[t]
      ensures d in Up(b, more)
    {
      if t == s {
        assert d in b.startOrder[..i];
        var j :| 0 <= j < i && b.startOrder[j] == d;
      }
    }
  }

  /** One service less, everything after it in the order being down. */
  lemma StopKeepsSupport(b: Bottle, running: set<string>, i: nat)
    requires WellMade(b) && Supported(b, running) && i < |b.startOrder| && ContainerOf(b, b.startOrder[i]) != ""
    requires forall j :: i < j < |b.startOrder| ==> b.startOrder[j] !in Up(b, running)
    ensures var s := b.startOrder[i];
            Up(b, running - {ContainerOf(b, s)}) == Up(b, running) - {s} && Supported(b, running - {ContainerOf(b, s)})
  {
    var s := b.startOrder[i];
    assert s in b.services;
    var less := running - {ContainerOf(b, s)};
    assert Up(b, less) == Up(b, running) - {s};
    forall t | t in b.services && s in b.services[t]
      ensures t !in Up(b, running)
    {
      var j := UserAfter(b, i, t);
    }
  }

  /** Whoever depends on the service at i comes later. */
  lemma UserAfter(b: Bottle, i: nat, t: string) returns (j: nat)
    requires WellMade(b) && i < |b.startOrder| && t in b.services && b.startOrder[i] in b.services[t]
    ensures i < j < |b.startOrder| && b.startOrder[j] == t
  {
    assert t in b.startOrder;
    j :| 0 <= j < |b.startOrder| && b.startOrder[j] == t;
    assert b.startOrder[i] in b.startOrder[..j];
    var k :| 0 <= k < j && b.startOrder[k] == b.startOrder[i];
  }

  /** The container runtime as the bottle service sees it; commands may fail, a failed one changes nothing. */
  class Runtime {
    var running: set<string>

    constructor ()
      ensures running == {}
    {
      running := {};
    }

    method StartContainer(id: string, fails: set<string>) returns (ok: bool)
      modifies this
      ensures ok == (id !in fails)
      ensures running == if ok then old(running) + {id} else old(running)
    {
      ok := id !in fails;
      if ok {
        running := running + {id};
      }
    }

    method StopContainer(id: string, fails: set<string>) returns (ok: bool)
      modifies this
      ensures ok == (id !in fails)
      ensures running == if ok then old(running) - {id} else old(running)
    {
      ok := id !in fails;
      if ok {
        running := running - {id};
      }
    }

    /** Start: at every exit, early ones included, what is up has its dependencies up. k services of the order
        were started; the reply names the next one, if that is where it stopped. */
    method Start(b: Bottle, fails: set<string>) returns (r: Reply, ghost k: nat)
      requires WellMade(b) && Supported(b, running)
      modifies this
      ensures Supported(b, running) && StartedTo(b, k, old(running), running, fails)
      ensures r.EmptyOrder? <==> |b.startOrder| == 0
      ensures r.Done? ==> k == |b.startOrder| && Up(b, running) == b.services.Keys
      ensures r.Done? <==> |b.startOrder| > 0 && AllStart(b, fails)
      ensures r.NotCreated? ==> k < |b.startOrder| && r.service == b.startOrder[k] && ContainerOf(b, r.service) == ""
      ensures r.Failed? ==> k < |b.startOrder| && r.service == b.startOrder[k] && ContainerOf(b, r.service) in fails
      ensures !r.NoSpec?
    {
      NothingStarted(b, running, fails);
      hide WellMade, Supported, Up, StartedTo, AllStart, ContainerOf;
      if |b.startOrder| == 0 {
        return EmptyOrder, 0;
      }
      var i := 0;
      while i < |b.startOrder|
        invariant i <= |b.startOrder| && Supported(b, running) && StartedTo(b, i, old(running), running, fails)
      {
        var service := b.startOrder[i];
        StartNext(b, i, old(running), running, fails);
        var id := ContainerOf(b, service);
        if id == "" {
          return NotCreated(service), i;
        }
        var ok := StartContainer(id, fails);
        if !ok {
          return Failed(service), i;
        }
        i := i + 1;
      }
      AllStarted(b, old(running), running, fails);
      return Done, i;
    }

    /** Stop: in reverse order, so at every exit what is still up has its dependencies up. The services from
        k on were stopped, those before are as they were; the reply names the one before, if it stopped there. */
    method Stop(b: Bottle, fails: set<string>) returns (r: Reply, ghost k: nat)
      requires WellMade(b) && Supported(b, running)
      modifies this
      ensures Supported(b, running) && StoppedFrom(b, k, old(running), running, fails)
      ensures r.EmptyOrder? <==> |b.startOrder| == 0
      ensures r.Done? ==> k == 0 && Up(b, running) == {}
      ensures r.Done? <==> |b.startOrder| > 0 && AllStop(b, old(running), fails)
      ensures r.NotCreated? ==> k > 0 && r.service == b.startOrder[k - 1] && ContainerOf(b, r.service) == ""
      ensures r.Failed? ==> k > 0 && r.service == b.startOrder[k - 1] && ContainerOf(b, r.service) in old(running) * fails
      ensures !r.NoSpec?
    {
      NothingStopped(b, running, fails);
      hide WellMade, Supported, Up, StoppedFrom, AllStop, ContainerOf;
      if |b.startOrder| == 0 {
        return EmptyOrder, 0;
      }
      var i := |b.startOrder|;
      while i > 0
        invariant 0 <= i <= |b.startOrder| && Supported(b, running) && StoppedFrom(b, i, old(running), running, fails)
      {
        var service := b.startOrder[i - 1];
        StopNext(b, i, old(running), running, fails);
        var id := ContainerOf(b, service);
        if id == "" {
          return NotCreated(service), i;
        }
        if id in running {
          var ok := StopContainer(id, fails);
          if !ok {
            return Failed(service), i;
          }
        }
        i := i - 1;
      }
      AllStopped(b, old(running), running, fails);
      return Done, 0;
    }
  }

  /** The first k services of the order have their containers started, and nothing else was. */
  ghost predicate StartedTo(b: Bottle, k: nat, was: set<string>, running: set<string>, fails: set<string>) {
    && k <= |b.startOrder| && running == was + ContainersIn(b, b.startOrder[..k])
    && forall j :: 0 <= j < k ==> ContainerOf(b, b.startOrder[j]) != "" && ContainerOf(b, b.startOrder[j]) !in fails
  }

  ghost predicate AllStart(b: Bottle, fails: set<string>) {
    forall s :: s in b.services ==> ContainerOf(b, s) != "" && ContainerOf(b, s) !in fails
  }

  /** The services from k on are down, by stopping containers that ran; those before k are as they were. */
  ghost predicate StoppedFrom(b: Bottle, k: nat, was: set<string>, running: set<string>, fails: set<string>) {
    && k <= |b.startOrder| && running == was - ContainersIn(b, b.startOrder[k..])
    && (forall j :: k <= j < |b.startOrder| ==> b.startOrder[j] !in Up(b, running) && CanStop(b, b.startOrder[j], was, fails))
    && (forall j :: 0 <= j < k ==> (b.startOrder[j] in Up(b, running) <==> b.startOrder[j] in Up(b, was)))
  }

  ghost predicate AllStop(b: Bottle, was: set<string>, fails: set<string>) {
    forall s :: s in b.services ==> CanStop(b, s, was, fails)
  }

  lemma NothingStarted(b: Bottle, running: set<string>, fails: set<string>)
    ensures StartedTo(b, 0, running, running, fails)
  {
    assert ContainersIn(b, b.startOrder[..0]) == {};
  }

  /** One turn of the start loop. */
  lemma StartNext(b: Bottle, i: nat, was: set<string>, running: set<string>, fails: set<string>)
    requires WellMade(b) && Supported(b, running) && i < |b.startOrder| && StartedTo(b, i, was, running, fails)
    ensures var id := ContainerOf(b, b.startOrder[i]);
            && (id == "" || id in fails ==> !AllStart(b, fails))
            && (id != "" && id !in fails ==> StartedTo(b, i + 1, was, running + {id}, fails) && Supported(b, running + {id}))
  {
    hide Supported, Up, WellMade, ContainersIn, ContainerOf, StartedTo;
    var id := ContainerOf(b, b.startOrder[i]);
    OrderHolds(b);
    if id != "" && id !in fails {
      StartedAreUp(b, i, was, running, fails);
      StartKeepsSupport(b, running, i);
      StartedOneMore(b, i, was, running, fails);
    }
  }

  lemma StartedOneMore(b: Bottle, i: nat, was: set<string>, running: set<string>, fails: set<string>)
    requires i < |b.startOrder| && StartedTo(b, i, was, running, fails)
    requires ContainerOf(b, b.startOrder[i]) != "" && ContainerOf(b, b.startOrder[i]) !in fails
    ensures StartedTo(b, i + 1, was, running + {ContainerOf(b, b.startOrder[i])}, fails)
  {
    hide ContainersIn, ContainerOf;
    OneMore(b, i);
  }

  lemma StartedAreUp(b: Bottle, k: nat, was: set<string>, running: set<string>, fails: set<string>)
    requires WellMade(b) && StartedTo(b, k, was, running, fails)
    ensures forall j :: 0 <= j < k ==> b.startOrder[j] in Up(b, running)
  {
    OrderHolds(b);
    forall j | 0 <= j < k
      ensures b.startOrder[j] in Up(b, running)
    {
      assert b.startOrder[..k][j] == b.startOrder[j];
      assert b.startOrder[j] in b.startOrder[..k];
    }
  }

  lemma AllStarted(b: Bottle, was: set<string>, running: set<string>, fails: set<string>)
    requires WellMade(b) && StartedTo(b, |b.startOrder|, was, running, fails)
    ensures Up(b, running) == b.services.Keys && AllStart(b, fails)
  {
    StartedAreUp(b, |b.startOrder|, was, running, fails);
    OrderHolds(b);
  }

  lemma NothingStopped(b: Bottle, running: set<string>, fails: set<string>)
    ensures StoppedFrom(b, |b.startOrder|, running, running, fails)
  {
    assert ContainersIn(b, b.startOrder[|b.startOrder|..]) == {};
  }

  /** One turn of the stop loop: a container that runs is stopped, one that does not is passed over. */
  lemma StopNext(b: Bottle, i: nat, was: set<string>, running: set<string>, fails: set<string>)
    requires WellMade(b) && Supported(b, running) && 0 < i <= |b.startOrder| && StoppedFrom(b, i, was, running, fails)
    ensures var id := ContainerOf(b, b.startOrder[i - 1]);
            && (id == "" ==> !AllStop(b, was, fails))
            && (id != "" && id in running && id in fails ==> !AllStop(b, was, fails) && id in was)
            && (id != "" && (id in running ==> id !in fails) ==> StoppedFrom(b, i - 1, was, running - {id}, fails) && Supported(b, running - {id}))
            && (id !in running ==> running - {id} == running)
  {
    var s := b.startOrder[i - 1];
    var id := ContainerOf(b, s);
    assert s in b.services by { OrderHolds(b); }
    hide WellMade, Supported, ContainersIn;
    if id != "" {
      StillAt(b, was, running, i, i - 1);
      if id in running ==> id !in fails {
        StopKeepsSupport(b, running, i - 1);
        OneLess(b, i);
        StoppedOne(b, i, was, running, fails);
      }
    }
  }

  lemma StoppedOne(b: Bottle, i: nat, was: set<string>, running: set<string>, fails: set<string>)
    requires WellMade(b) && 0 < i <= |b.startOrder| && StoppedFrom(b, i, was, running, fails) && CanStop(b, b.startOrder[i - 1], was, fails)
    requires var s := b.startOrder[i - 1]; Up(b, running - {ContainerOf(b, s)}) == Up(b, running) - {s}
    ensures StoppedFrom(b, i - 1, was, running - {ContainerOf(b, b.startOrder[i - 1])}, fails)
  {
    hide WellMade, ContainersIn, CanStop;
    OneLess(b, i);
    var less := running - {ContainerOf(b, b.startOrder[i - 1])};
    assert less == was - ContainersIn(b, b.startOrder[i - 1..]);
    StillRunning(b, was, less, i - 1);
    hide Up;
  }

  lemma AllStopped(b: Bottle, was: set<string>, running: set<string>, fails: set<string>)
    requires WellMade(b) && StoppedFrom(b, 0, was, running, fails)
    ensures Up(b, running) == {} && AllStop(b, was, fails)
  {
    OrderHolds(b);
    hide WellMade, CanStop, ContainersIn;
  }

  /** It has a container, and stopping that is no failure. */
  predicate CanStop(b: Bottle, service: string, running: set<string>, fails: set<string>) {
    ContainerOf(b, service) != "" && (ContainerOf(b, service) in running ==> ContainerOf(b, service) !in fails)
  }

  ghost function ContainersIn(b: Bottle, services: seq<string>): set<string> {
    set s | s in services :: ContainerOf(b, s)
  }

  /** The order holds the services and nothing else. */
  lemma OrderHolds(b: Bottle)
    requires WellMade(b)
    ensures forall j :: 0 <= j < |b.startOrder| ==> b.startOrder[j] in b.services
    ensures forall s :: s in b.services ==> exists j :: 0 <= j < |b.startOrder| && b.startOrder[j] == s
  {
    assert forall s :: s in b.services ==> s in b.startOrder;
  }

  lemma OneMore(b: Bottle, i: nat)
    requires i < |b.startOrder|
    ensures ContainersIn(b, b.startOrder[..i + 1]) == ContainersIn(b, b.startOrder[..i]) + {ContainerOf(b, b.startOrder[i])}
  {
    assert b.startOrder[..i + 1] == b.startOrder[..i] + [b.startOrder[i]];
  }

  lemma OneLess(b: Bottle, i: nat)
    requires 0 < i <= |b.startOrder|
    ensures ContainersIn(b, b.startOrder[i - 1..]) == ContainersIn(b, b.startOrder[i..]) + {ContainerOf(b, b.startOrder[i - 1])}
  {
    assert b.startOrder[i - 1..] == [b.startOrder[i - 1]] + b.startOrder[i..];
  }

  /** Services before i have containers of their own, so stopping the later ones leaves theirs alone. */
  lemma StillAt(b: Bottle, before: set<string>, now: set<string>, i: nat, j: nat)
    requires WellMade(b) && j < i <= |b.startOrder| && now == before - ContainersIn(b, b.startOrder[i..]) && ContainerOf(b, b.startOrder[j]) != ""
    ensures ContainerOf(b, b.startOrder[j]) in now <==> ContainerOf(b, b.startOrder[j]) in before
  {
    forall s | s in b.startOrder[i..]
      ensures ContainerOf(b, s) != ContainerOf(b, b.startOrder[j])
    {
      var l :| 0 <= l < |b.startOrder[i..]| && b.startOrder[i..][l] == s;
      assert b.startOrder[i + l] == s && b.startOrder[i + l] in b.services && b.startOrder[j] in b.services;
    }
  }

  lemma StillRunning(b: Bottle, before: set<string>, now: set<string>, i: nat)
    requires WellMade(b) && i <= |b.startOrder| && now == before - ContainersIn(b, b.startOrder[i..])
    ensures forall j :: 0 <= j < i ==> (b.startOrder[j] in Up(b, now) <==> b.startOrder[j] in Up(b, before))
  {
    hide WellMade, ContainersIn;
    forall j | 0 <= j < i
      ensures b.startOrder[j] in Up(b, now) <==> b.startOrder[j] in Up(b, before)
    {
      if ContainerOf(b, b.startOrder[j]) != "" {
        StillAt(b, before, now, i, j);
      }
    }
  }
}

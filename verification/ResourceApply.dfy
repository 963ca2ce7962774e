/** Apply: documents are applied one after the other; when one fails, the undo stack takes back all
    the earlier ones. */
module ResourceApply {
  import Text
  import ConfigText
  import opened ResourceStores
  import opened ResourceRollback

  datatype Doc =
    | ConfigMapDoc(name: string, namespace: string, data: StringMap)
    | SecretDoc(name: string, namespace: string, type_: string, data: StringMap)
    | ServiceDoc(name: string, namespace: string, type_: string, clusterIP: string, selector: StringMap, ports: seq<ServicePort>)
    | IngressDoc(name: string, namespace: string, rules: seq<IngressRule>, tlsHosts: seq<string>)
    | BadDoc

  datatype Action = Created | Updated | Unchanged

  /** No store has an entry under this id. */
  predicate Unknown(st: Stores, id: string) {
    id !in st.configMaps && id !in st.secrets && id !in st.services && id !in st.ingresses
  }

  ghost predicate Grown(before: Stores, after: Stores, id: string) {
    && after.configMaps.Keys <= before.configMaps.Keys + {id} && after.secrets.Keys <= before.secrets.Keys + {id}
    && after.services.Keys <= before.services.Keys + {id} && after.ingresses.Keys <= before.ingresses.Keys + {id}
  }

  ghost predicate OnlyServices(before: Stores, after: Stores) {
    after == before.(services := after.services) && after.services.Keys <= before.services.Keys
  }

  // ---- what applying a document means ---------------------------------------------------------------

  /** id is the entry of that name if the store has one, and a new one otherwise. */
  ghost predicate Target(named: set<string>, id: string, ulid: string) {
    if named == {} then id == ulid else id in named
  }

  ghost predicate ConfigMapInForce(before: Stores, after: Stores, d: Doc, id: string, ulid: string)
    requires d.ConfigMapDoc?
  {
    var ns := if d.namespace == "" then "default" else d.namespace;
    && Target(ConfigMapsNamed(before, d), id, ulid)
    && after == before.(configMaps := before.configMaps[id := ConfigMapInfo(id, d.name, ns, d.data)])
  }

  ghost predicate SecretInForce(before: Stores, after: Stores, d: Doc, id: string, ulid: string)
    requires d.SecretDoc?
  {
    var ns := if d.namespace == "" then "default" else d.namespace;
    && Target(SecretsNamed(before, d), id, ulid)
    && after == before.(secrets := before.secrets[id := SecretInfo(id, d.name, ns, if d.type_ == "" then "Opaque" else d.type_, d.data)])
  }

  ghost predicate IngressInForce(before: Stores, after: Stores, d: Doc, id: string, ulid: string)
    requires d.IngressDoc?
  {
    && Target(IngressesNamed(before, d), id, ulid)
    && after == before.(ingresses := before.ingresses[id := IngressInfo(id, d.name, d.namespace, d.rules, d.tlsHosts)])
  }

  ghost predicate InForce(before: Stores, after: Stores, d: Doc, id: string, ulid: string, r: ServiceRange) {
    match d
    case ConfigMapDoc(_, _, _) => ConfigMapInForce(before, after, d, id, ulid)
    case SecretDoc(_, _, _, _) => SecretInForce(before, after, d, id, ulid)
    case IngressDoc(_, _, _, _) => IngressInForce(before, after, d, id, ulid)
    case ServiceDoc(_, _, _, _, _, _) => ServiceInForce(before, after, d, id, r) && Target(ServicesNamed(before, d), id, ulid)
    case BadDoc => false
  }

  ghost function ConfigMapsNamed(st: Stores, d: Doc): set<string>
    requires d.ConfigMapDoc?
  {
    set k | k in st.configMaps && st.configMaps[k].name == d.name && st.configMaps[k].namespace == (if d.namespace == "" then "default" else d.namespace)
  }

  ghost function SecretsNamed(st: Stores, d: Doc): set<string>
    requires d.SecretDoc?
  {
    set k | k in st.secrets && st.secrets[k].name == d.name && st.secrets[k].namespace == (if d.namespace == "" then "default" else d.namespace)
  }

  ghost function IngressesNamed(st: Stores, d: Doc): set<string>
    requires d.IngressDoc?
  {
    set k | k in st.ingresses && st.ingresses[k].name == d.name && st.ingresses[k].namespace == d.namespace
  }

  ghost function ServicesNamed(st: Stores, d: Doc): set<string>
    requires d.ServiceDoc?
  {
    set k | k in st.services && st.services[k].name == d.name && st.services[k].namespace == d.namespace
  }

  // ---- which documents are accepted ---------------------------------------------------------------

  /** The entry already says what the document asks for. */
  ghost predicate Same(st: Stores, d: Doc, id: string)
    requires d.ServiceDoc?
  {
    && id in st.services
    && var s := st.services[id];
       && NormalizeServiceType(s.type_) == NormalizeServiceType(d.type_) && s.clusterIP == Requested(st, d, id)
       && s.selector == d.selector && s.ports == d.ports
  }

  /** A Service is accepted when it is named and repeats its entry or can be stored once that entry is out;
      an Ingress when its certificates work, if it wants any it does not have. */
  ghost predicate Accepts(st: Stores, d: Doc, id: string, r: ServiceRange, tlsWorks: bool) {
    match d
    case ConfigMapDoc(_, _, _) => true
    case SecretDoc(_, _, _, _) => true
    case ServiceDoc(_, _, _, _, _, _) =>
      d.name != "" && d.namespace != "" && (Same(st, d, id) || Storable(st.services - {id}, d.type_, Requested(st, d, id), r))
    case IngressDoc(_, _, _, _) =>
      d.tlsHosts == [] || tlsWorks || (id in st.ingresses && st.ingresses[id].rules == d.rules && st.ingresses[id].tlsHosts == d.tlsHosts)
    case BadDoc => false
  }

  /** id is the entry the document is about; one without the names a Service needs is about none. */
  ghost predicate Aims(st: Stores, d: Doc, id: string, ulid: string) {
    match d
    case ConfigMapDoc(_, _, _) => Target(ConfigMapsNamed(st, d), id, ulid)
    case SecretDoc(_, _, _, _) => Target(SecretsNamed(st, d), id, ulid)
    case ServiceDoc(_, _, _, _, _, _) => d.name == "" || d.namespace == "" || Target(ServicesNamed(st, d), id, ulid)
    case IngressDoc(_, _, _, _) => Target(IngressesNamed(st, d), id, ulid)
    case BadDoc => true
  }

  /** The documents applied in turn lead from the first state of the trace to the last; ids are their entries. */
  ghost predicate Trace(states: seq<Stores>, docs: seq<Doc>, ids: seq<string>, ulids: seq<string>, r: ServiceRange) {
    && |states| == |docs| + 1 && |ids| == |docs| && |ulids| >= |docs|
    && forall i :: 0 <= i < |docs| ==> InForce(states[i], states[i + 1], docs[i], ids[i], ulids[i], r)
  }

  // ---- addresses ----------------------------------------------------------------------------------

  /** A NodePort document brings its entry no address of another ClusterIP service. */
  ghost predicate HarmlessDoc(st: Stores, d: Doc, id: string) {
    d.ServiceDoc? && NormalizeServiceType(d.type_) == NODE_PORT ==>
      forall y :: y in st.services && y != id && st.services[y].type_ == CLUSTER_IP ==> st.services[y].clusterIP != Requested(st, d, id)
  }

  /** What may be stored without taking over another service's address. */
  ghost predicate Harmless(services: map<string, ServiceInfo>, info: ServiceInfo) {
    NormalizeServiceType(info.type_) == NODE_PORT ==>
      forall y :: y in services && services[y].type_ == CLUSTER_IP ==> services[y].clusterIP != info.clusterIP
  }

  lemma {:induction false} FreeIsUnused(pool: seq<string>, used: set<string>)
    ensures FirstFree(pool, used) != "" ==> FirstFree(pool, used) in pool && FirstFree(pool, used) !in used
    decreases |pool|
  {
    if pool != [] && pool[0] in used {
      FreeIsUnused(pool[1..], used);
    }
  }

  lemma AllocatedIsFree(services: map<string, ServiceInfo>, requested: string, r: ServiceRange)
    requires RangeOk(r)
    ensures var ip := AllocateClusterIP(services, requested, r); ip != "" ==> ip !in Used(services) && r.canon(ip) == ip
  {
    FreeIsUnused(r.pool, Used(services));
  }

  /** In such a store every update can be undone, and in no other. */
  lemma EveryUpdateUndone(st: Stores, r: ServiceRange)
    requires Normal(st, r)
    ensures OwnAddresses(st.services) <==> forall id :: id in st.services ==> PutsBack(st.services, st.services[id])
  {
    hide CLUSTER_IP, NODE_PORT;
    forall id | id in st.services
      ensures PutsBack(st.services, st.services[id]) <==>
              (st.services[id].type_ == CLUSTER_IP ==> forall y :: y in st.services && y != id ==> st.services[y].clusterIP != st.services[id].clusterIP)
    {
      PutsBackIff(st, st.services[id], r);
    }
  }

  lemma PutsBackIff(st: Stores, s: ServiceInfo, r: ServiceRange)
    requires Normal(st, r) && s.id in st.services && st.services[s.id] == s
    ensures PutsBack(st.services, s) <==>
            (s.type_ == CLUSTER_IP ==> forall y :: y in st.services && y != s.id ==> st.services[y].clusterIP != s.clusterIP)
  {
    TypesStay();
    hide CLUSTER_IP, NODE_PORT;
    var others := st.services - {s.id};
    assert NormalService(s, r);
    if s.type_ == CLUSTER_IP {
      assert forall y :: y in others <==> y in st.services && y != s.id;
      assert s.clusterIP in Used(others) <==> exists y :: y in others && others[y].clusterIP == s.clusterIP;
    }
  }

  lemma StoredIsSound(st: Stores, id: string, info: ServiceInfo, r: ServiceRange)
    requires RangeOk(r) && Sound(st, r) && id !in st.services && StoreService(st, id, info, r).Stored?
    ensures Sound(StoreService(st, id, info, r).st, r)
  {
    hide Sound, NormalizeServiceType, StoreService, AllocateClusterIP, RangeOk, Used, CLUSTER_IP, NODE_PORT;
    TypesStay();
    AllocatedIsFree(st.services, info.clusterIP, r);
    StoresOnly(st, id, info, r);
    StoredEntry(st, id, info, r);
    EntryIsSound(st, StoreService(st, id, info, r).st.services[id], r);
  }

  lemma EntryIsSound(st: Stores, s: ServiceInfo, r: ServiceRange)
    requires Sound(st, r) && s.id !in st.services && NormalService(s, r)
    requires s.type_ == CLUSTER_IP ==> s.clusterIP !in Used(st.services)
    ensures Sound(st.(services := st.services[s.id := s]), r)
  {
    hide NormalService, CLUSTER_IP, NODE_PORT;
    forall y | y in st.services && s.type_ == CLUSTER_IP && st.services[y].type_ == CLUSTER_IP
      ensures st.services[y].clusterIP != s.clusterIP
    {
      ClusterIPUsed(st, y, r);
    }
    hide Used;
  }

  lemma ClusterIPUsed(st: Stores, y: string, r: ServiceRange)
    requires Sound(st, r) && y in st.services && st.services[y].type_ == CLUSTER_IP
    ensures st.services[y].clusterIP in Used(st.services)
  {
    TypesStay();
    hide CLUSTER_IP, NODE_PORT;
    assert NormalService(st.services[y], r);
  }

  /** Storing keeps addresses apart exactly when the new entry takes over nobody's. */
  lemma StoredKeepsAddresses(st: Stores, id: string, info: ServiceInfo, r: ServiceRange)
    requires RangeOk(r) && Normal(st, r) && OwnAddresses(st.services) && id !in st.services && StoreService(st, id, info, r).Stored?
    ensures OwnAddresses(StoreService(st, id, info, r).st.services) <==> Harmless(st.services, info)
  {
    TypesStay();
    AllocatedIsFree(st.services, info.clusterIP, r);
    StoresOnly(st, id, info, r);
    StoredEntry(st, id, info, r);
    hide NormalizeServiceType, StoreService, AllocateClusterIP, RangeOk, CLUSTER_IP, NODE_PORT, Normal;
    EntryKeepsAddresses(st.services, id, StoreService(st, id, info, r).st.services[id]);
  }

  lemma EntryKeepsAddresses(services: map<string, ServiceInfo>, id: string, s: ServiceInfo)
    requires OwnAddresses(services) && id !in services && NODE_PORT != CLUSTER_IP && (s.type_ == NODE_PORT || s.type_ == CLUSTER_IP)
    requires s.type_ == CLUSTER_IP ==> s.clusterIP != "" && s.clusterIP !in Used(services)
    ensures OwnAddresses(services[id := s]) <==>
            (s.type_ == NODE_PORT ==> forall y :: y in services && services[y].type_ == CLUSTER_IP ==> services[y].clusterIP != s.clusterIP)
  {
    var after := services[id := s];
    forall y | y in services
      ensures s.type_ == CLUSTER_IP ==> services[y].clusterIP != s.clusterIP
    {
      if s.type_ == CLUSTER_IP && services[y].clusterIP != "" {
      }
    }
    hide Used, CLUSTER_IP, NODE_PORT;
    forall y | y in services && after[y].type_ == CLUSTER_IP && OwnAddresses(after)
      ensures after[y].clusterIP != after[id].clusterIP
    {
      assert y != id;
    }
  }

  /** In a store whose addresses are apart, a document leaves them so exactly when it is harmless. */
  lemma ApartIff(before: Stores, after: Stores, d: Doc, id: string, ulid: string, r: ServiceRange)
    requires Sound(before, r) && Sound(after, r) && OwnAddresses(before.services) && InForce(before, after, d, id, ulid, r)
    ensures OwnAddresses(after.services) <==> HarmlessDoc(before, d, id)
  {
    hide NormalizeServiceType, Sound, CLUSTER_IP, NODE_PORT;
    if d.ServiceDoc? {
      ServiceApartIff(before, after, d, id, r);
    }
  }

  lemma ServiceApartIff(before: Stores, after: Stores, d: Doc, id: string, r: ServiceRange)
    requires d.ServiceDoc? && Sound(before, r) && Sound(after, r) && OwnAddresses(before.services) && ServiceInForce(before, after, d, id, r)
    ensures OwnAddresses(after.services) <==> HarmlessDoc(before, d, id)
  {
    TypesStay();
    hide NormalizeServiceType, CLUSTER_IP, NODE_PORT;
    var s := after.services[id];
    if s.type_ == CLUSTER_IP {
      if id in before.services && before.services[id] == s {
        assert before.services[id := s] == before.services;
      } else {
        EntryKeepsAddresses(before.services - {id}, id, s);
        assert (before.services - {id})[id := s] == after.services;
      }
    } else {
      var rest := before.services - {id};
      EntryKeepsAddresses(rest, id, s);
      assert rest[id := s] == after.services;
      assert forall y :: y in rest <==> y in before.services && y != id;
      assert forall y :: y in rest ==> rest[y] == before.services[y];
    }
  }

  /** Harmless documents throughout: then addresses were apart at every step. */
  lemma {:induction false} HarmlessRun(states: seq<Stores>, docs: seq<Doc>, ids: seq<string>, ulids: seq<string>, r: ServiceRange, n: nat)
    requires Trace(states, docs, ids, ulids, r) && n <= |docs| && OwnAddresses(states[0].services)
    requires forall i :: 0 <= i < |states| ==> Sound(states[i], r)
    requires forall i :: 0 <= i < n ==> HarmlessDoc(states[i], docs[i], ids[i])
    ensures OwnAddresses(states[n].services)
    decreases n
  {
    hide Sound, OwnAddresses, HarmlessDoc;
    if n > 0 {
      HarmlessRun(states, docs, ids, ulids, r, n - 1);
      assert InForce(states[n - 1], states[n - 1 + 1], docs[n - 1], ids[n - 1], ulids[n - 1], r);
      ApartIff(states[n - 1], states[n], docs[n - 1], ids[n - 1], ulids[n - 1], r);
    }
  }

  /** A guard that can be checked document by document: after harmless documents every failure is undone. */
  lemma HarmlessRunIsUndone(states: seq<Stores>, docs: seq<Doc>, ids: seq<string>, ulids: seq<string>, r: ServiceRange,
                            undos: seq<Undo>, tried: set<string>)
    requires Trace(states, docs, ids, ulids, r) && Steps(states, undos, r) && OwnAddresses(states[0].services)
    requires forall i :: 0 <= i < |docs| ==> HarmlessDoc(states[i], docs[i], ids[i])
    ensures forall id :: id in states[0].services ==> !Loses(states, undos, tried, 0, id)
  {
    hide HarmlessDoc, OwnAddresses, PutsBack, Sound, InForce;
    assert forall i :: 0 <= i < |states| ==> Sound(states[i], r);
    forall k, id | 0 <= k <= |undos| && id in states[k].services
      ensures PutsBack(states[k].services, states[k].services[id])
    {
      HarmlessRun(states, docs, ids, ulids, r, k);
      SoundIsNormal(states[k], r);
      EveryUpdateUndone(states[k], r);
    }
  }

  lemma SoundIsNormal(st: Stores, r: ServiceRange)
    requires Sound(st, r)
    ensures Normal(st, r)
  {
  }

  lemma RemovedIsSound(st: Stores, ids: set<string>, r: ServiceRange)
    requires Sound(st, r)
    ensures Sound(Without(st, ids), r)
  {
  }

  class ResourceService {
    var stores: Stores
    const range: ServiceRange

    constructor (stores: Stores, range: ServiceRange)
      ensures this.stores == stores && this.range == range
    {
      this.stores, this.range := stores, range;
    }

    // ---- looking up by name, in whatever order the store lists its entries ----------------------------

    method FindConfigMap(name: string, namespace: string) returns (found: bool, id: string)
      ensures found ==> id in stores.configMaps && stores.configMaps[id].name == name && stores.configMaps[id].namespace == DefaultNamespace(namespace)
      ensures !found ==> forall k :: k in stores.configMaps ==> !(stores.configMaps[k].name == name && stores.configMaps[k].namespace == DefaultNamespace(namespace))
    {
      var rest := stores.configMaps.Keys;
      while rest != {}
        invariant rest <= stores.configMaps.Keys
        invariant forall k :: k in stores.configMaps && k !in rest ==> !(stores.configMaps[k].name == name && stores.configMaps[k].namespace == DefaultNamespace(namespace))
        decreases rest
      {
        var k :| k in rest;
        if stores.configMaps[k].name == name && stores.configMaps[k].namespace == DefaultNamespace(namespace) {
          return true, k;
        }
        rest := rest - {k};
      }
      return false, "";
    }

    method FindSecret(name: string, namespace: string) returns (found: bool, id: string)
      ensures found ==> id in stores.secrets && stores.secrets[id].name == name && stores.secrets[id].namespace == DefaultNamespace(namespace)
      ensures !found ==> forall k :: k in stores.secrets ==> !(stores.secrets[k].name == name && stores.secrets[k].namespace == DefaultNamespace(namespace))
    {
      var rest := stores.secrets.Keys;
      while rest != {}
        invariant rest <= stores.secrets.Keys
        invariant forall k :: k in stores.secrets && k !in rest ==> !(stores.secrets[k].name == name && stores.secrets[k].namespace == DefaultNamespace(namespace))
        decreases rest
      {
        var k :| k in rest;
        if stores.secrets[k].name == name && stores.secrets[k].namespace == DefaultNamespace(namespace) {
          return true, k;
        }
        rest := rest - {k};
      }
      return false, "";
    }

    method FindService(name: string, namespace: string) returns (found: bool, id: string)
      ensures found ==> id in stores.services && stores.services[id].name == name && stores.services[id].namespace == namespace
      ensures !found ==> forall k :: k in stores.services ==> !(stores.services[k].name == name && stores.services[k].namespace == namespace)
    {
      var rest := stores.services.Keys;
      while rest != {}
        invariant rest <= stores.services.Keys
        invariant forall k :: k in stores.services && k !in rest ==> !(stores.services[k].name == name && stores.services[k].namespace == namespace)
        decreases rest
      {
        var k :| k in rest;
        if stores.services[k].name == name && stores.services[k].namespace == namespace {
          return true, k;
        }
        rest := rest - {k};
      }
      return false, "";
    }

    method FindIngress(name: string, namespace: string) returns (found: bool, id: string)
      ensures found ==> id in stores.ingresses && stores.ingresses[id].name == name && stores.ingresses[id].namespace == namespace
      ensures !found ==> forall k :: k in stores.ingresses ==> !(stores.ingresses[k].name == name && stores.ingresses[k].namespace == namespace)
    {
      var rest := stores.ingresses.Keys;
      while rest != {}
        invariant rest <= stores.ingresses.Keys
        invariant forall k :: k in stores.ingresses && k !in rest ==> !(stores.ingresses[k].name == name && stores.ingresses[k].namespace == namespace)
        decreases rest
      {
        var k :| k in rest;
        if stores.ingresses[k].name == name && stores.ingresses[k].namespace == namespace {
          return true, k;
        }
        rest := rest - {k};
      }
      return false, "";
    }

    // ---- one document ------------------------------------------------------------------------------------

    method ApplyConfigMap(d: Doc, ulid: string) returns (undo: Undo, id: string, action: Action)
      requires d.ConfigMapDoc? && Sound(stores, range) && Unknown(stores, ulid)
      modifies this
      ensures Sound(stores, range) && stores.services == old(stores).services
      ensures UndoStep(old(stores), stores, undo, range) && RunUndo(stores, undo, range) == old(stores)
      ensures ConfigMapInForce(old(stores), stores, d, id, ulid)
    {
      var found, existing := FindConfigMap(d.name, d.namespace);
      if found {
        id := existing;
        assert id in ConfigMapsNamed(stores, d);
        var was := stores.configMaps[id];
        var desired := ConfigMapInfo("", d.name, DefaultNamespace(d.namespace), d.data);
        if was.data == desired.data {
          assert stores.configMaps[id := was] == stores.configMaps;
          return Nothing, id, Unchanged;
        }
        stores := StoreConfigMap(stores, id, desired);
        assert stores.configMaps[id := was] == old(stores).configMaps;
        return RestoreConfigMap(was), id, Updated;
      }
      stores := StoreConfigMap(stores, ulid, ConfigMapInfo("", d.name, d.namespace, d.data));
      assert stores.configMaps - {ulid} == old(stores).configMaps;
      return RemoveConfigMap(ulid), ulid, Created;
    }

    method ApplySecret(d: Doc, ulid: string) returns (undo: Undo, id: string, action: Action)
      requires d.SecretDoc? && Sound(stores, range) && Unknown(stores, ulid)
      modifies this
      ensures Sound(stores, range) && stores.services == old(stores).services
      ensures UndoStep(old(stores), stores, undo, range) && RunUndo(stores, undo, range) == old(stores)
      ensures SecretInForce(old(stores), stores, d, id, ulid)
    {
      var found, existing := FindSecret(d.name, d.namespace);
      if found {
        id := existing;
        assert id in SecretsNamed(stores, d);
        var was := stores.secrets[id];
        var desired := SecretInfo("", d.name, DefaultNamespace(d.namespace), d.type_, d.data);
        if was.type_ == (if d.type_ == "" then "Opaque" else d.type_) && was.data == desired.data {
          assert stores.secrets[id := was] == stores.secrets;
          return Nothing, id, Unchanged;
        }
        stores := StoreSecret(stores, id, desired);
        assert stores.secrets[id := was] == old(stores).secrets;
        return RestoreSecret(was), id, Updated;
      }
      stores := StoreSecret(stores, ulid, SecretInfo("", d.name, d.namespace, d.type_, d.data));
      assert stores.secrets - {ulid} == old(stores).secrets;
      return RemoveSecret(ulid), ulid, Created;
    }

    method ApplyIngress(d: Doc, ulid: string, tlsWorks: bool) returns (ok: bool, undo: Undo, id: string, action: Action)
      requires d.IngressDoc? && Sound(stores, range) && Unknown(stores, ulid)
      modifies this
      ensures Sound(stores, range) && stores.services == old(stores).services
      ensures ok <==> Accepts(old(stores), d, id, range, tlsWorks)
      ensures Target(IngressesNamed(old(stores), d), id, ulid)
      ensures !ok ==> stores == old(stores)
      ensures ok ==> UndoStep(old(stores), stores, undo, range) && RunUndo(stores, undo, range) == old(stores)
      ensures ok ==> IngressInForce(old(stores), stores, d, id, ulid)
    {
      var found, existing := FindIngress(d.name, d.namespace);
      if found {
        id := existing;
        assert id in IngressesNamed(stores, d);
        var was := stores.ingresses[id];
        if was.rules == d.rules && was.tlsHosts == d.tlsHosts {
          assert stores.ingresses[id := was] == stores.ingresses;
          return true, Nothing, id, Unchanged;
        }
        if |d.tlsHosts| > 0 && !tlsWorks {
          return false, Nothing, id, Unchanged;
        }
        stores := StoreIngress(stores, id, IngressInfo("", d.name, d.namespace, d.rules, d.tlsHosts));
        assert stores.ingresses[id := was] == old(stores).ingresses;
        return true, RestoreIngress(was), id, Updated;
      }
      if |d.tlsHosts| > 0 && !tlsWorks {
        return false, Nothing, ulid, Unchanged;
      }
      stores := StoreIngress(stores, ulid, IngressInfo("", d.name, d.namespace, d.rules, d.tlsHosts));
      assert stores.ingresses - {ulid} == old(stores).ingresses;
      return true, RemoveIngress(ulid), ulid, Created;
    }

    /** A refused update has already removed the old entry; putting it back is part of the refusal. */
    method ApplyService(d: Doc, ulid: string) returns (ok: bool, undo: Undo, id: string, action: Action)
      requires d.ServiceDoc? && RangeOk(range) && Sound(stores, range) && Unknown(stores, ulid)
      modifies this
      ensures Sound(stores, range) && Grown(old(stores), stores, ulid)
      ensures ok <==> Accepts(old(stores), d, id, range, true)
      ensures d.name != "" && d.namespace != "" ==> Target(ServicesNamed(old(stores), d), id, ulid)
      ensures action == Updated ==> id in ServicesNamed(old(stores), d)
      ensures !ok ==> stores == Without(old(stores), if action == Updated then LostNow(old(stores), {id}) else {})
      ensures ok ==> UndoStep(old(stores), stores, undo, range)
      ensures ok ==> (RunUndo(stores, undo, range) == old(stores) <==> (action == Updated ==> PutsBack(old(stores).services, old(stores).services[id])))
      ensures ok ==> ServiceInForce(old(stores), stores, d, id, range)
      ensures ok && Text.ToLower(ConfigText.TrimSpace(d.type_)) in {"", "clusterip"} ==> stores.services[id].type_ == "ClusterIP"
      ensures ok && Text.ToLower(ConfigText.TrimSpace(d.type_)) == "nodeport" ==> stores.services[id].type_ == "NodePort"
      ensures ok ==> Text.ToLower(ConfigText.TrimSpace(d.type_)) in {"", "clusterip", "nodeport"}
    {
      NormalizedTypes(d.type_);
      WithoutNone(stores);
      if d.name == "" || d.namespace == "" {
        return false, Nothing, "", Unchanged;
      }
      var found, existing := FindService(d.name, d.namespace);
      if found {
        ok, undo, action := UpdateService(d, existing);
        return ok, undo, existing, action;
      }
      var info := ServiceInfo("", d.name, d.namespace, d.type_, d.clusterIP, d.selector, d.ports);
      StoredIff(stores, ulid, info, range);
      assert stores.services - {ulid} == stores.services;
      if StoreService(stores, ulid, info, range).Stored? {
        StoredIsSound(stores, ulid, info, range);
        StoresOnly(stores, ulid, info, range);
        CreatedInForce(stores, d, ulid, range);
      }
      hide Sound, NormalizeServiceType, StoreService, CLUSTER_IP, NODE_PORT, RangeOk, ServiceInForce, PutsBack, Storable;
      match StoreService(stores, ulid, info, range) {
        case Refused =>
          return false, Nothing, ulid, Unchanged;
        case Stored(st) =>
          stores := st;
          return true, DropService(ulid), ulid, Created;
      }
    }

    /** The action says Updated also for an update that was tried and refused. */
    method UpdateService(d: Doc, id: string) returns (ok: bool, undo: Undo, action: Action)
      requires d.ServiceDoc? && RangeOk(range) && Sound(stores, range)
      requires id in stores.services && stores.services[id].name == d.name && stores.services[id].namespace == d.namespace
      modifies this
      ensures Sound(stores, range) && OnlyServices(old(stores), stores)
      ensures ok <==> Same(old(stores), d, id) || Storable(old(stores).services - {id}, d.type_, Requested(old(stores), d, id), range)
      ensures !ok ==> action == Updated && stores == Without(old(stores), LostNow(old(stores), {id}))
      ensures ok ==> UndoStep(old(stores), stores, undo, range)
      ensures ok ==> (RunUndo(stores, undo, range) == old(stores) <==> (action == Updated ==> PutsBack(old(stores).services, old(stores).services[id])))
      ensures ok ==> ServiceInForce(old(stores), stores, d, id, range)
    {
      var was := stores.services[id];
      var desired := ServiceInfo("", d.name, d.namespace, NormalizeServiceType(d.type_),
                                 if d.clusterIP == "" then was.clusterIP else d.clusterIP, d.selector, d.ports);
      if NormalizeServiceType(was.type_) == desired.type_ && was.clusterIP == desired.clusterIP
         && was.selector == desired.selector && was.ports == desired.ports {
        UnchangedInForce(stores, d, id, range);
        return true, Nothing, Unchanged;
      }
      hide NormalizeServiceType, NormalService, OwnAddresses, AllocateClusterIP, Used, CLUSTER_IP, NODE_PORT, PutsBack, RunUndo, Storable;
      StoredIff(RemoveService(stores, id), id, desired, range);
      StorableNormalized(stores.services - {id}, d.type_, desired.clusterIP, range);
      UpdateKeeps(stores, was, desired, range);
      UpdateIsUndoneIff(stores, was, desired, range);
      stores := RemoveService(stores, id);
      match StoreService(stores, id, desired, range) {
        case Refused =>
          stores := StoreServiceOrNot(stores, id, was, range);
          return false, Nothing, Updated;
        case Stored(st) =>
          UpdatedInForce(old(stores), d, id, desired, range);
          stores := st;
          return true, ReplaceService(was), Updated;
      }
    }

    // ---- the run -------------------------------------------------------------------------------------------

    /** tried holds the service whose update failed, if any. */
    method ApplyDoc(d: Doc, ulid: string, tlsWorks: bool) returns (ok: bool, undo: Undo, ghost id: string, ghost tried: set<string>)
      requires RangeOk(range) && Sound(stores, range) && Unknown(stores, ulid)
      modifies this
      ensures Sound(stores, range) && Grown(old(stores), stores, ulid)
      ensures ok <==> Accepts(old(stores), d, id, range, tlsWorks)
      ensures Aims(old(stores), d, id, ulid)
      ensures Tried(old(stores), d, tried)
      ensures !ok ==> stores == Without(old(stores), LostNow(old(stores), tried))
      ensures ok ==> UndoStep(old(stores), stores, undo, range) && InForce(old(stores), stores, d, id, ulid, range)
    {
      hide Sound, NormalizeServiceType, RangeOk, RunUndo, PutsBack, UndoStep, ServiceInForce;
      WithoutNone(stores);
      tried := {};
      var action;
      match d {
        case ConfigMapDoc(_, _, _) =>
          undo, id, action := ApplyConfigMap(d, ulid);
          ok := true;
        case SecretDoc(_, _, _, _) =>
          undo, id, action := ApplySecret(d, ulid);
          ok := true;
        case ServiceDoc(_, _, _, _, _, _) =>
          ok, undo, id, action := ApplyService(d, ulid);
          tried := if action == Updated then {id} else {};
        case IngressDoc(_, _, _, _) =>
          ok, undo, id, action := ApplyIngress(d, ulid, tlsWorks);
        case BadDoc =>
          ok, undo, id := false, Nothing, "";
      }
    }

    method RollBack(undos: seq<Undo>)
      modifies this
      ensures stores == RunUndos(old(stores), undos, range)
    {
      var i := |undos|;
      assert undos[..i] == undos;
      while i > 0
        invariant 0 <= i <= |undos|
        invariant RunUndos(stores, undos[..i], range) == RunUndos(old(stores), undos, range)
      {
        i := i - 1;
        assert undos[..i + 1][..i] == undos[..i];
        stores := RunUndo(stores, undos[i], range);
      }
    }

    /** MAIN: all or nothing, up to services another one shared an address with. Whatever the documents
        created, updated or repeated, if one of them fails the stores are those Apply found, without exactly
        the services lost: those whose first update in the run met somebody else on their address. */
    method Apply(docs: seq<Doc>, ulids: seq<string>, tlsWorks: bool)
      returns (ok: bool, ghost states: seq<Stores>, ghost ids: seq<string>, ghost undos: seq<Undo>, ghost tried: set<string>, ghost failed: string)
      requires RangeOk(range) && Sound(stores, range)
      requires |ulids| == |docs| && (forall i :: 0 <= i < |ulids| ==> Unknown(stores, ulids[i]))
      requires forall i, j :: 0 <= i < j < |ulids| ==> ulids[i] != ulids[j]
      modifies this
      ensures Sound(stores, range)
      ensures |undos| <= |docs| && Trace(states, docs[..|undos|], ids, ulids, range) && Steps(states, undos, range) && states[0] == old(stores)
      ensures ok <==> |undos| == |docs|
      ensures forall i :: 0 <= i < |undos| ==> Accepts(states[i], docs[i], ids[i], range, tlsWorks)
      ensures !ok ==> Aims(states[|undos|], docs[|undos|], failed, ulids[|undos|]) && !Accepts(states[|undos|], docs[|undos|], failed, range, tlsWorks)
      ensures ok ==> stores == states[|docs|]
      ensures !ok ==> Tried(states[|undos|], docs[|undos|], tried)
      ensures !ok ==> stores == Without(old(stores), LostFrom(states, undos, tried, 0))
      ensures !ok ==> (stores == old(stores) <==> forall id :: id in old(stores).services ==> !Loses(states, undos, tried, 0, id))
    {
      states, ids, undos, tried, failed := [stores], [], [], {}, "";
      var stack: seq<Undo> := [];
      var i := 0;
      hide Sound, RangeOk, RunUndo, InForce, LostFrom, Loses, LostNow, UndoStep, Accepts, Aims;
      assert docs[..0] == [];
      while i < |docs|
        invariant i <= |docs| && Sound(stores, range) && stack == undos && |undos| == i
        invariant forall k :: i <= k < |ulids| ==> Unknown(stores, ulids[k])
        invariant Trace(states, docs[..i], ids, ulids, range) && Steps(states, undos, range)
        invariant states[0] == old(stores) && states[i] == stores
        invariant forall k :: 0 <= k < i ==> Accepts(states[k], docs[k], ids[k], range, tlsWorks)
      {
        var done, undo;
        ghost var id;
        done, undo, id, tried := ApplyDoc(docs[i], ulids[i], tlsWorks);
        if !done {
          LostAtEnd(states, undos, tried);
          RolledBack(states, undos, tried, range, i);
          assert undos[..i] == undos;
          RollBack(stack);
          UndoneIff(states, undos, tried);
          RemovedIsSound(old(stores), LostFrom(states, undos, tried, 0), range);
          return false, states, ids, undos, tried, id;
        }
        TraceStep(states, docs, ids, ulids, range, i, stores, id);
        StepsStep(states, undos, range, stores, undo);
        states, ids, undos, stack, i := states + [stores], ids + [id], undos + [undo], stack + [undo], i + 1;
      }
      assert docs[..|docs|] == docs;
      return true, states, ids, undos, tried, "";
    }
  }

  /** The services the failing document may have tried to update. */
  ghost predicate Tried(st: Stores, d: Doc, tried: set<string>) {
    tried == {} || (d.ServiceDoc? && tried <= ServicesNamed(st, d))
  }

  lemma WithoutNone(st: Stores)
    ensures Without(st, {}) == st && LostNow(st, {}) == {}
  {
    assert st.services - {} == st.services;
  }

  lemma StepsStep(states: seq<Stores>, undos: seq<Undo>, r: ServiceRange, next: Stores, u: Undo)
    requires Steps(states, undos, r) && Sound(next, r) && UndoStep(states[|undos|], next, u, r)
    ensures Steps(states + [next], undos + [u], r)
  {
    hide Sound, UndoStep;
    var more, us := states + [next], undos + [u];
    forall k | 0 <= k < |us|
      ensures UndoStep(more[k], more[k + 1], us[k], r)
    {
      if k < |undos| {
        assert us[k] == undos[k] && more[k] == states[k] && more[k + 1] == states[k + 1];
      }
    }
  }

  lemma TraceStep(states: seq<Stores>, docs: seq<Doc>, ids: seq<string>, ulids: seq<string>, r: ServiceRange, i: nat, next: Stores, id: string)
    requires i < |docs| <= |ulids| && Trace(states, docs[..i], ids, ulids, r) && InForce(states[i], next, docs[i], id, ulids[i], r)
    ensures Trace(states + [next], docs[..i + 1], ids + [id], ulids, r)
  {
    hide InForce;
    var more, names := states + [next], ids + [id];
    forall k | 0 <= k < i + 1
      ensures InForce(more[k], more[k + 1], docs[..i + 1][k], names[k], ulids[k], r)
    {
      if k < i {
        assert docs[..i][k] == docs[k];
      }
    }
  }

  /** The address a document asks for: its own, or else the one the service has. */
  function Requested(before: Stores, d: Doc, id: string): string
    requires d.ServiceDoc?
  {
    if d.clusterIP != "" then d.clusterIP else if id in before.services then before.services[id].clusterIP else ""
  }

  /** The Service under this id is what the document asks for, and nothing else changed. */
  ghost predicate ServiceInForce(before: Stores, after: Stores, d: Doc, id: string, r: ServiceRange)
    requires d.ServiceDoc?
  {
    && id in after.services && after == before.(services := before.services[id := after.services[id]])
    && var s, ip := after.services[id], Requested(before, d, id);
       && s == ServiceInfo(id, d.name, d.namespace, NormalizeServiceType(d.type_), s.clusterIP, d.selector, d.ports)
       && (s.type_ == NODE_PORT ==> s.clusterIP == ip)
       && (s.type_ == CLUSTER_IP ==> s.clusterIP != "" && (Same(before, d, id) || Granted(before.services - {id}, ip, s.clusterIP, r)))
       && (s.type_ == NODE_PORT || s.type_ == CLUSTER_IP)
       && (s.type_ == CLUSTER_IP ==> (id in before.services && before.services[id] == s) || s.clusterIP !in Used(before.services - {id}))
  }

  lemma UnchangedInForce(st: Stores, d: Doc, id: string, r: ServiceRange)
    requires d.ServiceDoc? && Normal(st, r) && id in st.services && st.services[id].name == d.name && st.services[id].namespace == d.namespace
    requires NormalizeServiceType(st.services[id].type_) == NormalizeServiceType(d.type_)
    requires st.services[id].clusterIP == if d.clusterIP == "" then st.services[id].clusterIP else d.clusterIP
    requires st.services[id].selector == d.selector && st.services[id].ports == d.ports
    ensures ServiceInForce(st, st, d, id, r)
  {
    TypesStay();
    assert st.services[id := st.services[id]] == st.services;
    assert NormalService(st.services[id], r);
    hide NormalizeServiceType, CLUSTER_IP, NODE_PORT;
  }

  lemma CreatedInForce(st: Stores, d: Doc, id: string, r: ServiceRange)
    requires d.ServiceDoc? && RangeOk(r) && id !in st.services
    requires StoreService(st, id, ServiceInfo("", d.name, d.namespace, d.type_, d.clusterIP, d.selector, d.ports), r).Stored?
    ensures ServiceInForce(st, StoreService(st, id, ServiceInfo("", d.name, d.namespace, d.type_, d.clusterIP, d.selector, d.ports), r).st, d, id, r)
  {
    var info := ServiceInfo("", d.name, d.namespace, d.type_, d.clusterIP, d.selector, d.ports);
    hide NormalizeServiceType, StoreService, Used, CLUSTER_IP, NODE_PORT, RangeOk, Granted, Same, Storable, AllocateClusterIP;
    AllocatedIsFree(st.services, info.clusterIP, r);
    StoredIff(st, id, info, r);
    StoresOnly(st, id, info, r);
    StoredEntry(st, id, info, r);
    assert st.services - {id} == st.services;
    TypesStay();
  }

  lemma UpdatedInForce(st: Stores, d: Doc, id: string, desired: ServiceInfo, r: ServiceRange)
    requires d.ServiceDoc? && RangeOk(r) && id in st.services
    requires desired == ServiceInfo("", d.name, d.namespace, NormalizeServiceType(d.type_),
                                    if d.clusterIP == "" then st.services[id].clusterIP else d.clusterIP, d.selector, d.ports)
    requires StoreService(RemoveService(st, id), id, desired, r).Stored?
    ensures ServiceInForce(st, StoreService(RemoveService(st, id), id, desired, r).st, d, id, r)
  {
    hide NormalizeServiceType, StoreService, Used, CLUSTER_IP, NODE_PORT, RangeOk, Granted, Same, Storable, AllocateClusterIP;
    TypesStay();
    var removed := RemoveService(st, id);
    NormalizeTwice(d.type_);
    StoredIff(removed, id, desired, r);
    StoresOnly(removed, id, desired, r);
    StoredEntry(removed, id, desired, r);
    AllocatedIsFree(removed.services, desired.clusterIP, r);
    var after := StoreService(removed, id, desired, r).st;
    assert after.services == st.services[id := after.services[id]];
  }

  /** An update, taken or refused, leaves a sound store. */
  lemma UpdateKeeps(st: Stores, was: ServiceInfo, desired: ServiceInfo, r: ServiceRange)
    requires RangeOk(r) && Sound(st, r) && was.id in st.services && st.services[was.id] == was
    ensures var removed := RemoveService(st, was.id);
            match StoreService(removed, was.id, desired, r)
            case Stored(after) => Sound(after, r) && OnlyServices(st, after) && UndoStep(st, after, ReplaceService(was), r)
            case Refused =>
              StoreServiceOrNot(removed, was.id, was, r) == Without(st, LostNow(st, {was.id}))
              && Sound(Without(st, LostNow(st, {was.id})), r)
  {
    hide NormalizeServiceType, Sound, AllocateClusterIP, Used, CLUSTER_IP, NODE_PORT, RangeOk, PutsBack, StoreServiceOrNot, StoreService;
    var removed := RemoveService(st, was.id);
    RemovedIsSound(st, {was.id}, r);
    RemovedIsSound(st, LostNow(st, {was.id}), r);
    RefusedLoses(st, was, r);
    if StoreService(removed, was.id, desired, r).Stored? {
      StoresOnly(removed, was.id, desired, r);
      StoredIsSound(removed, was.id, desired, r);
      assert removed.services.Keys == st.services.Keys - {was.id};
    }
  }

  lemma RefusedLoses(st: Stores, was: ServiceInfo, r: ServiceRange)
    requires Sound(st, r) && was.id in st.services && st.services[was.id] == was
    ensures StoreServiceOrNot(RemoveService(st, was.id), was.id, was, r) == Without(st, LostNow(st, {was.id}))
  {
    assert NormalService(was, r);
    hide NormalService, Sound, StoreServiceOrNot, Used, CLUSTER_IP, NODE_PORT;
    var removed := RemoveService(st, was.id);
    PutBack(removed, was, r);
    WithoutNone(st);
    assert removed.services[was.id := was] == st.services;
    assert LostNow(st, {was.id}) == if PutsBack(st.services, was) then {} else {was.id};
  }
}

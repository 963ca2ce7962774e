/** The four stores Apply works on, and what storing, removing and undoing do to them. Creation times
    are left out. */
module ResourceStores {
  import opened Text
  import opened ConfigText

  type StringMap = map<string, string>

  datatype ConfigMapInfo = ConfigMapInfo(id: string, name: string, namespace: string, data: StringMap)

  datatype SecretInfo = SecretInfo(id: string, name: string, namespace: string, type_: string, data: StringMap)

  datatype ServicePort = ServicePort(port: int, targetPort: int, protocol: string)

  datatype ServiceInfo = ServiceInfo(id: string, name: string, namespace: string, type_: string, clusterIP: string,
                                     selector: StringMap, ports: seq<ServicePort>)

  datatype IngressPath = IngressPath(path: string, pathType: string, serviceName: string, servicePort: int)
  datatype IngressRule = IngressRule(host: string, paths: seq<IngressPath>)
  datatype IngressInfo = IngressInfo(id: string, name: string, namespace: string, rules: seq<IngressRule>, tlsHosts: seq<string>)

  datatype Stores = Stores(
    configMaps: map<string, ConfigMapInfo>,
    secrets: map<string, SecretInfo>,
    services: map<string, ServiceInfo>,
    ingresses: map<string, IngressInfo>)

  const CLUSTER_IP := "ClusterIP"
  const NODE_PORT := "NodePort"

  function DefaultNamespace(ns: string): string {
    if ns == "" then "default" else ns
  }

  function NormalizeServiceType(t: string): string {
    var l := ToLower(TrimSpace(t));
    if l == "" || l == "clusterip" then CLUSTER_IP
    else if l == "nodeport" then NODE_PORT
    else t
  }

  // ---- storing ---------------------------------------------------------------------------------

  function StoreConfigMap(st: Stores, id: string, info: ConfigMapInfo): Stores {
    st.(configMaps := st.configMaps[id := info.(id := id, namespace := DefaultNamespace(info.namespace))])
  }

  function StoreSecret(st: Stores, id: string, info: SecretInfo): Stores {
    st.(secrets := st.secrets[id := info.(id := id, namespace := DefaultNamespace(info.namespace),
                                         type_ := if info.type_ == "" then "Opaque" else info.type_)])
  }

  function StoreIngress(st: Stores, id: string, info: IngressInfo): Stores {
    st.(ingresses := st.ingresses[id := info.(id := id)])
  }

  function Used(services: map<string, ServiceInfo>): set<string> {
    set id | id in services && services[id].clusterIP != "" :: services[id].clusterIP
  }

  /** The service range: canon gives the canonical text of a usable address, "" for anything else;
      pool lists the usable addresses in the order they are tried. */
  datatype ServiceRange = ServiceRange(canon: string -> string, pool: seq<string>)

  ghost predicate RangeOk(r: ServiceRange) {
    && (forall x :: x in r.pool ==> x != "" && r.canon(x) == x)
    && (forall x :: r.canon(x) != "" ==> r.canon(x) in r.pool)
  }

  function FirstFree(pool: seq<string>, used: set<string>): string {
    if pool == [] then "" else if pool[0] in used then FirstFree(pool[1..], used) else pool[0]
  }

  /** allocateClusterIP; "" when it fails. */
  function AllocateClusterIP(services: map<string, ServiceInfo>, requested: string, r: ServiceRange): string {
    if requested != "" then
      if r.canon(requested) in Used(services) then "" else r.canon(requested)
    else FirstFree(r.pool, Used(services))
  }

  datatype StoreResult = Stored(st: Stores) | Refused

  function StoreService(st: Stores, id: string, info: ServiceInfo, r: ServiceRange): StoreResult {
    var spec := info.(id := id, type_ := NormalizeServiceType(info.type_));
    if spec.type_ == NODE_PORT then Stored(st.(services := st.services[id := spec]))
    else if spec.type_ != CLUSTER_IP then Refused
    else
      var ip := AllocateClusterIP(st.services, spec.clusterIP, r);
      if ip == "" then Refused else Stored(st.(services := st.services[id := spec.(clusterIP := ip)]))
  }

  /** A store whose error is ignored. */
  function StoreServiceOrNot(st: Stores, id: string, info: ServiceInfo, r: ServiceRange): Stores {
    match StoreService(st, id, info, r)
    case Stored(st') => st'
    case Refused => st
  }

  function RemoveService(st: Stores, id: string): Stores {
    st.(services := st.services - {id})
  }

  // ---- undoing -----------------------------------------------------------------------------------

  /** One entry of the rollback stack. */
  datatype Undo =
    | Nothing
    | RestoreConfigMap(cm: ConfigMapInfo)
    | RemoveConfigMap(id: string)
    | RestoreSecret(secret: SecretInfo)
    | RemoveSecret(id: string)
    | ReplaceService(service: ServiceInfo)
    | DropService(id: string)
    | RestoreIngress(ingress: IngressInfo)
    | RemoveIngress(id: string)

  function RunUndo(st: Stores, u: Undo, r: ServiceRange): Stores {
    match u
    case Nothing => st
    case RestoreConfigMap(cm) => StoreConfigMap(st, cm.id, cm)
    case RemoveConfigMap(id) => st.(configMaps := st.configMaps - {id})
    case RestoreSecret(s) => StoreSecret(st, s.id, s)
    case RemoveSecret(id) => st.(secrets := st.secrets - {id})
    case ReplaceService(s) => StoreServiceOrNot(RemoveService(st, s.id), s.id, s, r)
    case DropService(id) => RemoveService(st, id)
    case RestoreIngress(i) => StoreIngress(st, i.id, i)
    case RemoveIngress(id) => st.(ingresses := st.ingresses - {id})
  }

  /** The stack from its top down. */
  function RunUndos(st: Stores, undos: seq<Undo>, r: ServiceRange): Stores
    decreases |undos|
  {
    if undos == [] then st
    else RunUndos(RunUndo(st, undos[|undos| - 1], r), undos[..|undos| - 1], r)
  }

  // ---- what every store keeps ----------------------------------------------------------------------

  /** Entries as the stores write them. */
  ghost predicate Normal(st: Stores, r: ServiceRange) {
    && (forall id :: id in st.configMaps ==> st.configMaps[id].id == id && st.configMaps[id].namespace != "")
    && (forall id :: id in st.secrets ==> st.secrets[id].id == id && st.secrets[id].namespace != "" && st.secrets[id].type_ != "")
    && (forall id :: id in st.services ==> NormalService(st.services[id], r) && st.services[id].id == id)
    && (forall id :: id in st.ingresses ==> st.ingresses[id].id == id)
  }

  predicate NormalService(s: ServiceInfo, r: ServiceRange) {
    s.type_ == NODE_PORT || (s.type_ == CLUSTER_IP && s.clusterIP != "" && r.canon(s.clusterIP) == s.clusterIP)
  }

  /** The address of a ClusterIP service belongs to no other service. */
  ghost predicate OwnAddresses(services: map<string, ServiceInfo>) {
    forall x, y :: x in services && y in services && x != y && services[x].type_ == CLUSTER_IP ==> services[x].clusterIP != services[y].clusterIP
  }

  /** The stores hand an address to one ClusterIP service only. */
  ghost predicate ClusterIPsApart(services: map<string, ServiceInfo>) {
    forall x, y :: x in services && y in services && x != y && services[x].type_ == CLUSTER_IP && services[y].type_ == CLUSTER_IP ==>
      services[x].clusterIP != services[y].clusterIP
  }

  /** What every store keeps. */
  ghost predicate Sound(st: Stores, r: ServiceRange) {
    Normal(st, r) && ClusterIPsApart(st.services)
  }

  /** Putting a removed service back works exactly when nobody else took its address meanwhile. */
  predicate PutsBack(services: map<string, ServiceInfo>, s: ServiceInfo) {
    s.type_ == NODE_PORT || s.clusterIP !in Used(services - {s.id})
  }

  lemma TypesStay()
    ensures NormalizeServiceType(NODE_PORT) == NODE_PORT && NormalizeServiceType(CLUSTER_IP) == CLUSTER_IP && NODE_PORT != CLUSTER_IP
  {
    TrimWord(NODE_PORT);
    TrimWord(CLUSTER_IP);
    assert ToLower(NODE_PORT) == "nodeport" && ToLower(CLUSTER_IP) == "clusterip";
  }

  /** Spelled in any case and with spaces around: no type at all means ClusterIP. */
  lemma NormalizedTypes(t: string)
    ensures ToLower(TrimSpace(t)) in {"", "clusterip"} ==> NormalizeServiceType(t) == "ClusterIP"
    ensures ToLower(TrimSpace(t)) == "nodeport" ==> NormalizeServiceType(t) == "NodePort"
    ensures ToLower(TrimSpace(t)) !in {"", "clusterip", "nodeport"} ==> NormalizeServiceType(t) == t
    ensures NormalizeServiceType(t) == CLUSTER_IP || NormalizeServiceType(t) == NODE_PORT ==> ToLower(TrimSpace(t)) in {"", "clusterip", "nodeport"}
    ensures NormalizeServiceType("") == "ClusterIP"
  {
    TrimWord(NODE_PORT);
    TrimWord(CLUSTER_IP);
    assert ToLower(NODE_PORT) == "nodeport" && ToLower(CLUSTER_IP) == "clusterip";
    assert ToLower(TrimSpace("")) == "";
  }

  /** No service has this address. */
  ghost predicate Vacant(services: map<string, ServiceInfo>, address: string) {
    forall id :: id in services ==> services[id].clusterIP != address
  }

  /** A service asking for this address can be given one: the usable one it names, or any of the range. */
  ghost predicate Grantable(services: map<string, ServiceInfo>, requested: string, r: ServiceRange) {
    if requested != "" then r.canon(requested) != "" && Vacant(services, r.canon(requested))
    else exists k :: 0 <= k < |r.pool| && Vacant(services, r.pool[k])
  }

  /** What the store takes: a NodePort service with any address, and a ClusterIP service that can be given one. */
  ghost predicate Storable(services: map<string, ServiceInfo>, t: string, requested: string, r: ServiceRange) {
    ToLower(TrimSpace(t)) == "nodeport" || (ToLower(TrimSpace(t)) in {"", "clusterip"} && Grantable(services, requested, r))
  }

  lemma VacantIff(services: map<string, ServiceInfo>, address: string)
    requires address != ""
    ensures Vacant(services, address) <==> address !in Used(services)
  {
    if address in Used(services) {
      var id :| id in services && services[id].clusterIP == address;
    }
  }

  /** Without a request the first vacant address of the range is handed out, and "" only when none is. */
  lemma {:induction false} FirstFreeIs(pool: seq<string>, used: set<string>)
    requires "" !in pool
    ensures var x := FirstFree(pool, used);
            if x == "" then forall k :: 0 <= k < |pool| ==> pool[k] in used
            else exists k :: 0 <= k < |pool| && pool[k] == x && x !in used && forall j :: 0 <= j < k ==> pool[j] in used
    decreases |pool|
  {
    if pool != [] && pool[0] in used {
      var rest := pool[1..];
      FirstFreeIs(rest, used);
      var x := FirstFree(rest, used);
      assert forall k :: 1 <= k < |pool| ==> pool[k] == rest[k - 1];
      if x != "" {
        var k :| 0 <= k < |rest| && rest[k] == x && forall j :: 0 <= j < k ==> rest[j] in used;
        assert pool[k + 1] == x && forall j :: 0 <= j < k + 1 ==> pool[j] in used;
      }
    }
  }

  /** The address asked for, or the first vacant one. */
  ghost predicate Granted(services: map<string, ServiceInfo>, requested: string, ip: string, r: ServiceRange) {
    if requested != "" then ip == r.canon(requested)
    else exists k :: 0 <= k < |r.pool| && r.pool[k] == ip && forall j :: 0 <= j < k ==> !Vacant(services, r.pool[j])
  }

  lemma AllocatedIff(services: map<string, ServiceInfo>, requested: string, r: ServiceRange)
    requires RangeOk(r)
    ensures var ip := AllocateClusterIP(services, requested, r);
            && (ip != "" <==> Grantable(services, requested, r))
            && (ip != "" ==> Granted(services, requested, ip, r))
  {
    assert forall k :: 0 <= k < |r.pool| ==> r.pool[k] in r.pool;
    forall address | address != ""
      ensures Vacant(services, address) <==> address !in Used(services)
    {
      VacantIff(services, address);
    }
    hide Used, Vacant;
    FirstFreeIs(r.pool, Used(services));
  }

  /** A service is stored exactly when it is storable, a ClusterIP service with the address granted. */
  lemma StoredIff(st: Stores, id: string, info: ServiceInfo, r: ServiceRange)
    requires RangeOk(r)
    ensures StoreService(st, id, info, r).Stored? <==> Storable(st.services, info.type_, info.clusterIP, r)
    ensures StoreService(st, id, info, r).Stored? && NormalizeServiceType(info.type_) == CLUSTER_IP ==>
              Granted(st.services, info.clusterIP, StoreService(st, id, info, r).st.services[id].clusterIP, r)
  {
    AllocatedIff(st.services, info.clusterIP, r);
    TypesStay();
    NormalizedTypes(info.type_);
    hide NormalizeServiceType, AllocateClusterIP, Grantable, Granted, RangeOk;
  }

  lemma StorableNormalized(services: map<string, ServiceInfo>, t: string, requested: string, r: ServiceRange)
    ensures Storable(services, NormalizeServiceType(t), requested, r) <==> Storable(services, t, requested, r)
  {
    NormalizedTypes(t);
    NormalizedTypes(NormalizeServiceType(t));
    NormalizeTwice(t);
    TypesStay();
    hide NormalizeServiceType, Grantable;
  }

  lemma NormalizeTwice(t: string)
    ensures NormalizeServiceType(NormalizeServiceType(t)) == NormalizeServiceType(t)
  {
    TypesStay();
  }

  lemma TrimWord(w: string)
    requires w != "" && !IsSpace(w[0]) && !IsSpace(w[|w| - 1])
    ensures TrimSpace(w) == w
  {
  }

  /** Storing a normal service where its address is free changes that entry and nothing else. */
  lemma PutBack(st: Stores, s: ServiceInfo, r: ServiceRange)
    requires NormalService(s, r) && s.id !in st.services
    ensures StoreServiceOrNot(st, s.id, s, r) == if s.type_ == NODE_PORT || s.clusterIP !in Used(st.services) then st.(services := st.services[s.id := s]) else st
  {
    TypesStay();
  }

  /** The exact condition for undoing an update of a Service: whether or not the update was refused, the
      stores come back exactly when no other service uses the old address. */
  lemma UpdateIsUndoneIff(st: Stores, old_: ServiceInfo, desired: ServiceInfo, r: ServiceRange)
    requires Normal(st, r) && old_.id in st.services && st.services[old_.id] == old_
    ensures var removed := RemoveService(st, old_.id);
            match StoreService(removed, old_.id, desired, r)
            case Stored(st') => RunUndo(st', ReplaceService(old_), r) == st <==> PutsBack(st.services, old_)
            case Refused => StoreServiceOrNot(removed, old_.id, old_, r) == st <==> PutsBack(st.services, old_)
  {
    var removed := RemoveService(st, old_.id);
    PutBack(removed, old_, r);
    RestoredOrNot(st, old_);
    hide NormalService, NormalizeServiceType, AllocateClusterIP, Used, Normal, CLUSTER_IP, NODE_PORT;
    match StoreService(removed, old_.id, desired, r) {
      case Stored(st') =>
        StoresOnly(removed, old_.id, desired, r);
      case Refused =>
    }
  }

  lemma RestoredOrNot(st: Stores, s: ServiceInfo)
    requires s.id in st.services && st.services[s.id] == s
    ensures var removed := RemoveService(st, s.id);
            removed != st && removed.(services := removed.services[s.id := s]) == st
  {
    var removed := RemoveService(st, s.id);
    assert removed.services[s.id := s] == st.services;
    assert s.id !in removed.services;
  }

  /** The entry a successful store writes. */
  lemma StoredEntry(st: Stores, id: string, info: ServiceInfo, r: ServiceRange)
    requires StoreService(st, id, info, r).Stored?
    ensures var s := StoreService(st, id, info, r).st.services[id];
            && s.(clusterIP := "") == info.(id := id, type_ := NormalizeServiceType(info.type_), clusterIP := "")
            && (s.type_ == NODE_PORT || s.type_ == CLUSTER_IP)
            && s.clusterIP == (if s.type_ == NODE_PORT then info.clusterIP else AllocateClusterIP(st.services, info.clusterIP, r))
            && (s.type_ == CLUSTER_IP ==> s.clusterIP != "")
  {
    hide NormalizeServiceType, AllocateClusterIP;
    assert NODE_PORT[0] != CLUSTER_IP[0];
  }

  /** A successful store touches the one entry. */
  lemma StoresOnly(st: Stores, id: string, info: ServiceInfo, r: ServiceRange)
    requires id !in st.services && StoreService(st, id, info, r).Stored?
    ensures var st' := StoreService(st, id, info, r).st;
            RemoveService(st', id) == st && id in st'.services && st' == st.(services := st.services[id := st'.services[id]])
  {
    hide NormalizeServiceType, AllocateClusterIP, CLUSTER_IP, NODE_PORT;
    var st' := StoreService(st, id, info, r).st;
    assert st'.services - {id} == st.services;
  }

  /** A NodePort service may carry any address, even another service's: then updating that other service
      loses it, though the document is refused, and taking the NodePort service back does not bring it back. */
  lemma ForeignAddressLosesService()
    ensures var r := ServiceRange((a: string) => if a == "10.166.255.7" then a else "", ["10.166.255.7"]);
            var web := ServiceInfo("1", "web", "default", CLUSTER_IP, "10.166.255.7", map[], []);
            var edge := ServiceInfo("2", "edge", "default", NODE_PORT, "10.166.255.7", map[], []);
            var st := Stores(map[], map[], map["1" := web], map[]);
            RangeOk(r) && Normal(st, r) && OwnAddresses(st.services)
            && var st1 := StoreServiceOrNot(st, "2", edge, r);
               var desired := web.(ports := [ServicePort(80, 80, "tcp")]);
               var removed := RemoveService(st1, "1");
               && StoreService(removed, "1", desired, r).Refused?
               && "1" !in RunUndo(StoreServiceOrNot(removed, "1", web, r), DropService("2"), r).services
  {
    TypesStay();
    var r := ServiceRange((a: string) => if a == "10.166.255.7" then a else "", ["10.166.255.7"]);
    var web := ServiceInfo("1", "web", "default", CLUSTER_IP, "10.166.255.7", map[], []);
    var edge := ServiceInfo("2", "edge", "default", NODE_PORT, "10.166.255.7", map[], []);
    var st := Stores(map[], map[], map["1" := web], map[]);
    var st1 := StoreServiceOrNot(st, "2", edge, r);
    var removed := RemoveService(st1, "1");
    assert removed.services["2"].clusterIP in Used(removed.services);
    PutBack(removed, web, r);
  }
}

/** The DNS cache: a lookup and the removal of an expired entry are two critical sections, and any
    number of requests may run between them. */
module DnsCache {

  /** A response as far as caching goes: what it says, and the TTL of each of its records. */
  datatype Msg = Msg(body: string, answer: seq<nat>, ns: seq<nat>, extra: seq<nat>)

  datatype Entry = Entry(msg: Msg, expiresAt: int)

  type Items = map<string, Entry>

  /** The least TTL of the records; not set without records. */
  method MinTtl(m: Msg) returns (ttl: nat, set_: bool)
    ensures set_ <==> m.answer != [] || m.ns != [] || m.extra != []
    ensures set_ ==> ttl in m.answer || ttl in m.ns || ttl in m.extra
    ensures set_ ==> forall t :: t in m.answer || t in m.ns || t in m.extra ==> ttl <= t
  {
    ttl, set_ := 0, false;
    var rrs := m.answer + m.ns + m.extra;
    var i := 0;
    while i < |rrs|
      invariant i <= |rrs| && (set_ <==> i > 0)
      invariant set_ ==> ttl in rrs[..i] && forall j :: 0 <= j < i ==> ttl <= rrs[j]
    {
      if !set_ || rrs[i] < ttl {
        ttl := rrs[i];
        set_ := true;
      }
      i := i + 1;
    }
    forall t | t in m.answer || t in m.ns || t in m.extra
      ensures set_ && ttl <= t
    {
      assert t in rrs;
    }
  }

  // ---- the critical sections ---------------------------------------------------------------------

  datatype Lookup = Absent | Expired | Hit(msg: Msg)

  function LookUp(items: Items, key: string, now: int): Lookup {
    if key !in items then Absent
    else if now > items[key].expiresAt then Expired
    else Hit(items[key].msg)
  }

  /** The second look under the write lock. */
  function Evict(items: Items, key: string, now: int): Items {
    if key in items && now > items[key].expiresAt then items - {key} else items
  }

  /** A put, with whichever entry the map yields first making room in a full cache. */
  ghost predicate PutTo(items: Items, maxKeys: int, key: string, msg: Msg, ttl: int, now: int, after: Items) {
    if ttl <= 0 then after == items
    else if maxKeys > 0 && |items| >= maxKeys then
      exists victim :: victim in items && after == (items - {victim})[key := Entry(msg, now + ttl)]
    else after == items[key := Entry(msg, now + ttl)]
  }

  class Cache {
    var items: Items
    const maxKeys: int

    constructor (maxKeys: int)
      ensures items == map[] && this.maxKeys == maxKeys
    {
      items, this.maxKeys := map[], maxKeys;
    }

    /** Under the read lock. */
    method LookUpLocked(key: string, now: int) returns (r: Lookup)
      ensures r == LookUp(items, key, now)
      ensures r.Absent? <==> key !in items
      ensures r.Hit? <==> key in items && now <= items[key].expiresAt
      ensures r.Hit? ==> r.msg == items[key].msg
    {
      if key !in items { return Absent; }
      var ent := items[key];
      if now > ent.expiresAt { return Expired; }
      return Hit(ent.msg);
    }

    /** Under the write lock. */
    method EvictLocked(key: string, now: int)
      modifies this
      ensures items == Evict(old(items), key, now)
      ensures key !in items || now <= items[key].expiresAt
      ensures items == old(items) || (key in old(items) && old(items)[key].expiresAt < now && items == old(items) - {key})
    {
      if key in items {
        if now > items[key].expiresAt {
          items := items - {key};
        }
      }
    }

    /** With nothing between its critical sections. */
    method Get(key: string, now: int) returns (hit: bool, msg: Msg)
      modifies this
      ensures hit <==> key in old(items) && now <= old(items)[key].expiresAt
      ensures hit ==> items == old(items) && msg == items[key].msg
      ensures !hit ==> items == old(items) - {key}
    {
      var r := LookUpLocked(key, now);
      match r {
        case Absent => return false, Msg("", [], [], []);
        case Expired =>
          EvictLocked(key, now);
          return false, Msg("", [], [], []);
        case Hit(m) => return true, m;
      }
    }

    method Put(key: string, msg: Msg, ttl: int, now: int)
      modifies this
      ensures PutTo(old(items), maxKeys, key, msg, ttl, now, items)
    {
      if ttl <= 0 { return; }
      if maxKeys > 0 && |items| >= maxKeys {
        assert items.Keys != {};
        var k :| k in items;
        items := items - {k};
      }
      items := items[key := Entry(msg, now + ttl)];
    }
  }

  // ---- runs of many requests -----------------------------------------------------------------------

  /** One critical section of some request. An expired lookup leaves its request waiting to evict. */
  datatype Event =
    | Found(key: string, now: int, msg: Msg)
    | NotFound(key: string, now: int)
    | Stale(thread: nat, key: string, now: int)
    | Evicted(thread: nat)
    | Put(key: string, msg: Msg, ttl: int, now: int)

  datatype State = State(items: Items, waiting: map<nat, (string, int)>)

  ghost predicate Next(s: State, e: Event, s': State, maxKeys: int) {
    match e
    case Found(key, now, msg) => LookUp(s.items, key, now) == Hit(msg) && s' == s
    case NotFound(key, now) => LookUp(s.items, key, now) == Absent && s' == s
    case Stale(t, key, now) => t !in s.waiting && LookUp(s.items, key, now) == Expired && s' == s.(waiting := s.waiting[t := (key, now)])
    case Evicted(t) => t in s.waiting && s' == State(Evict(s.items, s.waiting[t].0, s.waiting[t].1), s.waiting - {t})
    case Put(key, msg, ttl, now) => PutTo(s.items, maxKeys, key, msg, ttl, now, s'.items) && s'.waiting == s.waiting
  }

  /** Any interleaving, from the empty cache. */
  ghost predicate Run(states: seq<State>, events: seq<Event>, maxKeys: int) {
    && |states| == |events| + 1 && states[0] == State(map[], map[])
    && forall i :: 0 <= i < |events| ==> Next(states[i], events[i], states[i + 1], maxKeys)
  }

  predicate Stores(e: Event, key: string) {
    e.Put? && e.key == key && e.ttl > 0
  }

  /** j is the last put of the key with a positive TTL before n. */
  ghost predicate LastPut(events: seq<Event>, n: nat, key: string, j: int)
    requires n <= |events|
  {
    0 <= j < n && Stores(events[j], key) && forall k :: j < k < n ==> !Stores(events[k], key)
  }

  /** Whatever is in the cache came from the last put of its key. */
  lemma {:induction false} EntryFromLastPut(states: seq<State>, events: seq<Event>, maxKeys: int, n: nat, key: string) returns (j: int)
    requires Run(states, events, maxKeys) && n <= |events| && key in states[n].items
    ensures LastPut(events, n, key, j) && states[n].items[key] == Entry(events[j].msg, events[j].now + events[j].ttl)
    decreases n
  {
    assert n > 0;
    var e := events[n - 1];
    assert Next(states[n - 1], e, states[n - 1 + 1], maxKeys);
    if Stores(e, key) {
      j := n - 1;
    } else {
      assert key in states[n - 1].items && states[n].items[key] == states[n - 1].items[key];
      j := EntryFromLastPut(states, events, maxKeys, n - 1, key);
    }
  }

  /** MAIN: a hit is the message of the last positive-TTL put of that key, and it is not served after the
      put's time plus its TTL. */
  lemma HitIsLastPut(states: seq<State>, events: seq<Event>, maxKeys: int, n: nat) returns (j: int)
    requires Run(states, events, maxKeys) && n < |events| && events[n].Found?
    ensures LastPut(events, n, events[n].key, j)
    ensures events[n].msg == events[j].msg && events[n].now <= events[j].now + events[j].ttl
  {
    assert Next(states[n], events[n], states[n + 1], maxKeys);
    j := EntryFromLastPut(states, events, maxKeys, n, events[n].key);
  }

  /** Put with the TTL MinTtl gave, no record of a hit has outlived its TTL (section 3.2.1 of RFC 1035). */
  lemma HitWithinEveryTtl(states: seq<State>, events: seq<Event>, maxKeys: int, n: nat) returns (j: int)
    requires Run(states, events, maxKeys) && n < |events| && events[n].Found?
    requires forall i, t :: 0 <= i < |events| && events[i].Put? && HasTtl(events[i].msg, t) ==> events[i].ttl <= t
    ensures LastPut(events, n, events[n].key, j)
    ensures var m := events[n].msg;
            forall t :: t in m.answer || t in m.ns || t in m.extra ==> events[n].now <= events[j].now + t
  {
    j := HitIsLastPut(states, events, maxKeys, n);
    var m := events[n].msg;
    forall t | t in m.answer || t in m.ns || t in m.extra
      ensures events[n].now <= events[j].now + t
    {
      assert HasTtl(events[j].msg, t);
    }
  }

  /** Some record of the message has this TTL. */
  predicate HasTtl(m: Msg, t: nat) {
    t in m.answer || t in m.ns || t in m.extra
  }

  /** The eviction step never takes an entry that is fresh for the request that asked, even if another
      request put it there after the lookup. */
  lemma EvictionSparesFresh(states: seq<State>, events: seq<Event>, maxKeys: int, n: nat)
    requires Run(states, events, maxKeys) && n < |events| && events[n].Evicted?
    ensures events[n].thread in states[n].waiting
    ensures var (key, now) := states[n].waiting[events[n].thread];
            && (forall k :: k in states[n].items && (k != key || now <= states[n].items[k].expiresAt) ==>
                  k in states[n + 1].items && states[n + 1].items[k] == states[n].items[k])
            && states[n + 1].items.Keys <= states[n].items.Keys
  {
    assert Next(states[n], events[n], states[n + 1], maxKeys);
  }

  lemma {:induction false} SizeBounded(states: seq<State>, events: seq<Event>, maxKeys: int, n: nat)
    requires Run(states, events, maxKeys) && n <= |events| && maxKeys > 0
    ensures |states[n].items| <= maxKeys
    decreases n
  {
    if n > 0 {
      SizeBounded(states, events, maxKeys, n - 1);
      assert Next(states[n - 1], events[n - 1], states[n - 1 + 1], maxKeys);
      StepSize(states[n - 1], events[n - 1], states[n], maxKeys);
    }
  }

  lemma StepSize(s: State, e: Event, s': State, maxKeys: int)
    requires Next(s, e, s', maxKeys) && maxKeys > 0 && |s.items| <= maxKeys
    ensures |s'.items| <= maxKeys
  {
    match e {
      case Put(key, msg, ttl, now) => PutSize(s.items, maxKeys, key, msg, ttl, now, s'.items);
      case Evicted(t) => RemovedSize(s.items, s.waiting[t].0);
      case _ =>
    }
  }

  lemma PutSize(items: Items, maxKeys: int, key: string, msg: Msg, ttl: int, now: int, after: Items)
    requires PutTo(items, maxKeys, key, msg, ttl, now, after) && maxKeys > 0 && |items| <= maxKeys
    ensures |after| <= maxKeys
  {
    if ttl > 0 {
      var entry := Entry(msg, now + ttl);
      if |items| >= maxKeys {
        var victim :| victim in items && after == (items - {victim})[key := entry];
        RemovedSize(items, victim);
        AddedSize(items - {victim}, key, entry);
      } else {
        AddedSize(items, key, entry);
      }
    }
  }

  lemma RemovedSize(items: Items, key: string)
    ensures |items - {key}| == if key in items then |items| - 1 else |items|
  {
    assert (items - {key}).Keys == items.Keys - {key};
    assert |items.Keys| == |items| && |(items - {key}).Keys| == |items - {key}|;
  }

  lemma AddedSize(items: Items, key: string, entry: Entry)
    ensures |items[key := entry]| <= |items| + 1
  {
    var more := items[key := entry];
    assert more.Keys == items.Keys + {key};
    assert |items.Keys| == |items| && |more.Keys| == |more|;
  }
}

/** The cleanup at start: every jump to a service chain goes away, then every service chain, whatever
    an earlier run left behind. */
module ServiceStartup {
  import opened Iptables
  import opened Commands
  import opened ServiceRules
  import opened ServiceShape
  import opened ServiceKey
  import opened ServiceSync
  import opened ServiceTracking
  import opened ServiceController

  /** The name prefixes given for a table: RAIND-FWD- for filter, RAIND-SVC- and RAIND-SNAT- for nat. */
  datatype Managed = FilterChains | NatChains

  predicate HasManagedPrefix(c: Chain, m: Managed) {
    match m
    case FilterChains => c.FwdChain?
    case NatChains => c.SvcChain? || c.SnatChain?
  }

  predicate JumpsToManaged(r: SvcRule, m: Managed) {
    r.target.Jump? && HasManagedPrefix(r.target.chain, m)
  }

  /** The service chains of a table are those of its kind, and nothing jumps to a chain that is not there. */
  ghost predicate OfKind(ch: SvcChains, m: Managed) {
    && (forall c :: c in ch && OwnerOf(c) != Nobody ==> if m.FilterChains? then c.FwdChain? else c.SvcChain? || c.SnatChain?)
    && (forall c, i :: c in ch && 0 <= i < |ch[c]| && ch[c][i].target.Jump? ==> ch[c][i].target.chain in ch)
  }

  function Unjumped(rules: seq<SvcRule>, m: Managed): seq<SvcRule> {
    if rules == [] then []
    else if JumpsToManaged(rules[|rules| - 1], m) then Unjumped(rules[..|rules| - 1], m)
    else Unjumped(rules[..|rules| - 1], m) + [rules[|rules| - 1]]
  }

  lemma {:induction false} UnjumpedElements(rules: seq<SvcRule>, m: Managed)
    ensures forall r :: r in Unjumped(rules, m) ==> r in rules && !JumpsToManaged(r, m)
    decreases |rules|
  {
    if rules != [] {
      UnjumpedElements(rules[..|rules| - 1], m);
    }
  }

  /** Deleting by specification takes out the occurrence at the cursor: the earlier ones are gone already. */
  lemma {:induction false} RemoveHere(a: seq<SvcRule>, r: SvcRule, b: seq<SvcRule>)
    requires r !in a
    ensures RemoveFirst(a + [r] + b, r) == a + b
    decreases |a|
  {
    if a == [] {
      assert [] + [r] + b == [r] + b;
      assert ([r] + b)[1..] == b;
      assert [] + b == b;
    } else {
      RemoveHere(a[1..], r, b);
      assert (a + [r] + b)[1..] == a[1..] + [r] + b;
      assert a + b == [a[0]] + (a[1..] + b);
    }
  }

  lemma {:induction false} UnjumpedIsOnly(rules: seq<SvcRule>, m: Managed)
    requires forall r :: r in rules && r.target.Jump? ==> (OwnerOf(r.target.chain) != Nobody <==> HasManagedPrefix(r.target.chain, m))
    ensures Unjumped(rules, m) == Only(rules, Nobody)
    decreases |rules|
  {
    if rules != [] {
      var n := |rules| - 1;
      UnjumpedIsOnly(rules[..n], m);
      OnlyConcat(rules[..n], [rules[n]], Nobody);
      OnlyOne(rules[n], Nobody);
      assert rules == rules[..n] + [rules[n]];
      assert rules[n] in rules;
    }
  }

  lemma {:induction false} CutStep(listed: seq<SvcRule>, i: nat, m: Managed)
    requires i < |listed|
    ensures var now := Unjumped(listed[..i], m) + listed[i..];
            var next := Unjumped(listed[..i + 1], m) + listed[i + 1..];
            if JumpsToManaged(listed[i], m) then listed[i] in now && RemoveFirst(now, listed[i]) == next else now == next
  {
    var r, done, tail := listed[i], Unjumped(listed[..i], m), listed[i + 1..];
    assert listed[..i + 1][..i] == listed[..i] && listed[..i + 1][i] == r;
    assert listed[i..] == [r] + tail;
    assert done + listed[i..] == done + [r] + tail;
    if JumpsToManaged(r, m) {
      UnjumpedElements(listed[..i], m);
      RemoveHere(done, r, tail);
    }
  }

  lemma SameEntry(ch: SvcChains, c: Chain)
    requires c in ch
    ensures ch[c := ch[c]] == ch
  {
  }

  lemma {:induction false} DeleteAt(ch: SvcChains, c: Chain, rules: seq<SvcRule>, r: SvcRule)
    requires c in ch && r in rules
    ensures Step(ch[c := rules], Delete(c, r)) == ch[c := RemoveFirst(rules, r)]
  {
  }

  /** The rules of one chain of the listing, in order. */
  method DeleteJumps(t: Table<Match>, c: Chain, listed: seq<SvcRule>, m: Managed)
    requires c in t.chains && t.chains[c] == listed
    modifies t
    ensures t.chains == old(t.chains)[c := Unjumped(listed, m)]
  {
    assert Unjumped(listed[..0], m) == [];
    hide Unjumped, JumpsToManaged, RemoveFirst, Works, Step;
    var i := 0;
    ghost var start, left := t.chains, listed;
    assert [] + listed[0..] == listed;
    SameEntry(start, c);
    while i < |listed|
      invariant i <= |listed| && left == Unjumped(listed[..i], m) + listed[i..]
      invariant t.chains == start[c := left]
    {
      CutStep(listed, i, m);
      if JumpsToManaged(listed[i], m) {
        DeleteAt(start, c, left, listed[i]);
        var _ := Send(t, Delete(c, listed[i]));
      }
      i := i + 1;
      left := Unjumped(listed[..i], m) + listed[i..];
    }
    assert listed[..|listed|] == listed;
    assert Unjumped(listed, m) + listed[|listed|..] == Unjumped(listed, m);
  }

  ghost function Cut(ch: SvcChains, m: Managed): SvcChains {
    map c | c in ch :: Unjumped(ch[c], m)
  }

  ghost predicate HalfCut(now: SvcChains, ch: SvcChains, rest: set<Chain>, m: Managed) {
    now.Keys == ch.Keys && forall c :: c in ch ==> now[c] == if c in rest then ch[c] else Unjumped(ch[c], m)
  }

  method DeleteAllJumps(t: Table<Match>, m: Managed)
    modifies t
    ensures t.chains == Cut(old(t.chains), m)
  {
    var snapshot := t.chains;
    var rest := snapshot.Keys;
    while rest != {}
      invariant rest <= snapshot.Keys && HalfCut(t.chains, snapshot, rest, m)
      decreases rest
    {
      var c :| c in rest;
      hide Unjumped;
      DeleteJumps(t, c, snapshot[c], m);
      rest := rest - {c};
    }
  }

  method DropChains(t: Table<Match>, chains: set<Chain>)
    requires forall c :: c in chains ==> OwnerOf(c) != Nobody && !Referenced(t.chains, c)
    modifies t
    ensures t.chains == old(t.chains) - chains
  {
    ghost var start, gone := t.chains, {};
    var rest := chains;
    assert start - {} == start;
    while rest != {}
      invariant rest <= chains && gone == chains - rest && t.chains == start - gone
      decreases rest
    {
      var c :| c in rest;
      RunDrop(t.chains, c);
      hide Run, Referenced;
      SendTwo(t, Flush(c), Remove(c));
      assert start - gone - {c} == start - (gone + {c});
      rest := rest - {c};
      gone := gone + {c};
    }
  }

  lemma NoJumpsLeft(ch: SvcChains, m: Managed, c: Chain)
    requires HasManagedPrefix(c, m)
    ensures !Referenced(Cut(ch, m), c)
  {
    var cut: SvcChains := Cut(ch, m);
    forall d: Chain, i: int | d in cut && 0 <= i < |cut[d]|
      ensures cut[d][i].target != Jump(c)
    {
      UnjumpedElements(ch[d], m);
      assert cut[d][i] in cut[d];
    }
  }

  lemma WhatIsLeft(ch: SvcChains, m: Managed)
    requires OfKind(ch, m)
    ensures Cut(ch, m) - (set c | c in ch && HasManagedPrefix(c, m)) == View(ch, Nobody)
  {
    hide Unjumped, Only;
    forall c | c in ch && OwnerOf(c) == Nobody
      ensures Unjumped(ch[c], m) == Only(ch[c], Nobody)
    {
      forall r | r in ch[c] && r.target.Jump?
        ensures OwnerOf(r.target.chain) != Nobody <==> HasManagedPrefix(r.target.chain, m)
      {
        var i :| 0 <= i < |ch[c]| && ch[c][i] == r;
      }
      UnjumpedIsOnly(ch[c], m);
    }
  }

  /** After the cleanup the table holds its unmanaged rules, in their order, and nothing else. */
  method CleanupManaged(t: Table<Match>, m: Managed)
    requires OfKind(t.chains, m)
    modifies t
    ensures t.chains == View(old(t.chains), Nobody)
  {
    ghost var start := t.chains;
    var chains := set c | c in t.chains && HasManagedPrefix(c, m);
    WhatIsLeft(start, m);
    forall c | c in chains
      ensures !Referenced(Cut(start, m), c)
    {
      NoJumpsLeft(start, m, c);
    }
    hide Cut, Referenced, View;
    DeleteAllJumps(t, m);
    DropChains(t, chains);
  }

  /** With nothing applied, a table of unmanaged rules alone is in step. */
  lemma NothingTracked(f: SvcChains, n: SvcChains, hostAddr: string, links: Links)
    requires Forward in f && {Prerouting, Output, Postrouting} <= n.Keys
    ensures AppliedOk(map[], links) && Caches(map[], map[], map[])
    ensures FilterTracks(View(f, Nobody), map[], map[]) && NatTracks(View(n, Nobody), map[], map[], hostAddr)
  {
    UnmanagedIsSync(f);
    UnmanagedIsSync(n);
    hide TableSync;
    assert {Prerouting, Output, Postrouting} <= UnownedOf(View(n, Nobody)) && Forward in UnownedOf(View(f, Nobody));
  }

  /** The start of the controller, before its first pass. */
  method CleanupOnStart(ctl: ServiceController)
    requires ctl.filter != ctl.natTable && ctl.lastState == map[] && ctl.lastServices == map[]
    requires OfKind(ctl.filter.chains, FilterChains) && OfKind(ctl.natTable.chains, NatChains)
    requires Forward in ctl.filter.chains && {Prerouting, Output, Postrouting} <= ctl.natTable.chains.Keys
    modifies ctl, ctl.filter, ctl.natTable
    ensures ctl.Valid() && ctl.applied == map[]
    ensures ctl.filter.chains == View(old(ctl.filter.chains), Nobody)
    ensures ctl.natTable.chains == View(old(ctl.natTable.chains), Nobody)
  {
    hide View, FilterTracks, NatTracks, OfKind, AppliedOk, Caches;
    NothingTracked(ctl.filter.chains, ctl.natTable.chains, ctl.hostAddr, ctl.links);
    CleanupManaged(ctl.natTable, NatChains);
    CleanupManaged(ctl.filter, FilterChains);
    ctl.applied, ctl.filterPrograms, ctl.natPrograms := map[], map[], map[];
  }
}

/** What a resolved profile inherits, and why no reachable store of profiles has a cycle. */
module SecurityInheritance {
  import opened SecurityProfiles

  // ---- the extends chain ---------------------------------------------------------------------------

  /** One step along extends, from a file to another file. */
  predicate Edge(store: Store, b: Builtins, x: string, y: string) {
    x in store && store[x].ProfileExtends() == y && y !in b
  }

  /** The files from the leaf to the last one, which extends a built-in profile. */
  ghost predicate Chain(store: Store, b: Builtins, ks: seq<string>, root: string) {
    && ks != [] && (forall i :: 0 <= i < |ks| ==> ks[i] in store)
    && (forall i :: 0 <= i < |ks| - 1 ==> Edge(store, b, ks[i], ks[i + 1]))
    && store[ks[|ks| - 1]].ProfileExtends() == root && root in b
  }

  /** What resolving asks of each file it meets. */
  predicate WellShaped(m: Manifest, b: Builtins) {
    ValidProfileName(m.ProfileName()) && m.ProfileName() !in b && m.ProfileExtends() != ""
  }

  predicate Mentions(m: Manifest, cap: string) {
    cap in m.ProfileAddCap() || cap in m.ProfileDropCap()
  }

  /** The profile nearest to the leaf that mentions a capability decides it; the root does if none mentions it. */
  ghost predicate Granted(store: Store, ks: seq<string>, rootCaps: seq<string>, cap: string)
    requires forall i :: 0 <= i < |ks| ==> ks[i] in store
  {
    || ((forall i :: 0 <= i < |ks| ==> !Mentions(store[ks[i]], cap)) && cap in rootCaps)
    || (exists i :: 0 <= i < |ks| && Decides(store, ks, i, cap) && cap in store[ks[i]].ProfileAddCap() && cap !in store[ks[i]].ProfileDropCap())
  }

  ghost predicate Decides(store: Store, ks: seq<string>, i: nat, cap: string)
    requires i < |ks| && forall j :: 0 <= j < |ks| ==> ks[j] in store
  {
    Mentions(store[ks[i]], cap) && forall j :: 0 <= j < i ==> !Mentions(store[ks[j]], cap)
  }

  /** The capabilities along the chain, merged from the root down to the leaf. */
  function Folded(store: Store, ks: seq<string>, rootCaps: seq<string>): seq<string>
    requires forall i :: 0 <= i < |ks| ==> ks[i] in store
  {
    if ks == [] then rootCaps
    else Merged(Folded(store, ks[1..], rootCaps), store[ks[0]].ProfileAddCap(), store[ks[0]].ProfileDropCap())
  }

  lemma {:induction false} FoldedIsGranted(store: Store, ks: seq<string>, rootCaps: seq<string>, cap: string)
    requires forall i :: 0 <= i < |ks| ==> ks[i] in store
    ensures cap in Folded(store, ks, rootCaps) <==> Granted(store, ks, rootCaps, cap)
    decreases |ks|
  {
    if ks != [] {
      var rest := ks[1..];
      FoldedIsGranted(store, rest, rootCaps, cap);
      var m := store[ks[0]];
      MergedIs(Folded(store, rest, rootCaps), m.ProfileAddCap(), m.ProfileDropCap());
      GrantedStep(store, ks, rootCaps, cap);
    }
  }

  lemma GrantedStep(store: Store, ks: seq<string>, rootCaps: seq<string>, cap: string)
    requires ks != [] && forall i :: 0 <= i < |ks| ==> ks[i] in store
    ensures var m := store[ks[0]];
            Granted(store, ks, rootCaps, cap) <==>
            if Mentions(m, cap) then cap in m.ProfileAddCap() && cap !in m.ProfileDropCap() else Granted(store, ks[1..], rootCaps, cap)
  {
    var rest := ks[1..];
    assert forall i :: 0 <= i < |rest| ==> rest[i] == ks[i + 1];
    if Mentions(store[ks[0]], cap) {
      assert Decides(store, ks, 0, cap);
    } else {
      forall i | 0 <= i < |rest|
        ensures Decides(store, rest, i, cap) <==> Decides(store, ks, i + 1, cap)
      {
        assert forall j :: 0 <= j < i ==> rest[j] == ks[j + 1];
        if Decides(store, rest, i, cap) {
          assert forall j :: 0 < j < i + 1 ==> ks[j] == rest[j - 1];
        }
      }
      assert !Decides(store, ks, 0, cap);
      if i :| 0 <= i < |ks| && Decides(store, ks, i, cap) {
        assert Decides(store, rest, i - 1, cap);
      }
    }
  }

  lemma {:induction false} FoldedNoDup(store: Store, ks: seq<string>, rootCaps: seq<string>)
    requires (forall i :: 0 <= i < |ks| ==> ks[i] in store) && NoDup(rootCaps)
    ensures NoDup(Folded(store, ks, rootCaps))
    decreases |ks|
  {
    if ks != [] {
      FoldedNoDup(store, ks[1..], rootCaps);
      var m := store[ks[0]];
      MergedIs(Folded(store, ks[1..], rootCaps), m.ProfileAddCap(), m.ProfileDropCap());
    }
  }

  lemma ShapedIff(m: Manifest, b: Builtins)
    ensures ShapeError(m, b).Ok? <==> WellShaped(m, b)
  {
  }

  /** One step up: the file is well-shaped, and its profile is derived from its parent's. */
  lemma {:induction false} ResolveStep(store: Store, b: Builtins, key: string, seen: set<string>)
    requires BuiltinsOk(b) && key in store && ResolveFile(store, b, key, seen).Ok?
    ensures var m, p := store[key], ResolveFile(store, b, key, seen).value;
            var above := seen + {m.ProfileName()};
            && WellShaped(m, b) && |Names(store) - above| < |Names(store) - seen|
            && if m.ProfileExtends() in b then p == Derived(m, b[m.ProfileExtends()])
               else
                 && m.ProfileExtends() in store && ResolveFile(store, b, m.ProfileExtends(), above).Ok?
                 && p == Derived(m, ResolveFile(store, b, m.ProfileExtends(), above).value)
  {
    ShapedIff(store[key], b);
    hide Merged, ShapeError, Names, WellShaped, Derived, ValidProfileName;
    LeftShrinks(store, key, seen);
    Smaller(Names(store) - (seen + {store[key].ProfileName()}), Names(store) - seen);
  }

  lemma {:induction false} OneFile(store: Store, b: Builtins, key: string)
    requires key in store && store[key].ProfileExtends() in b
    ensures var m, root := store[key], store[key].ProfileExtends();
            Chain(store, b, [key], root) && Folded(store, [key], b[root].caps) == Merged(b[root].caps, m.ProfileAddCap(), m.ProfileDropCap())
  {
    hide Merged;
    assert Folded(store, [key][1..], b[store[key].ProfileExtends()].caps) == b[store[key].ProfileExtends()].caps;
  }

  lemma {:induction false} OneMoreFile(store: Store, b: Builtins, key: string, ks: seq<string>, root: string)
    requires key in store && Chain(store, b, ks, root) && store[key].ProfileExtends() == ks[0] && ks[0] !in b
    ensures var m, all := store[key], [key] + ks;
            && Chain(store, b, all, root)
            && Folded(store, all, b[root].caps) == Merged(Folded(store, ks, b[root].caps), m.ProfileAddCap(), m.ProfileDropCap())
  {
    hide Merged;
    assert ([key] + ks)[1..] == ks;
  }

  /** A file that resolves has a chain to a built-in root; the profile carries the root's filter, AppArmor
      profile and no-new-privileges flag, and the capabilities merged along the chain. */
  lemma {:induction false} ResolvedAlongChain(store: Store, b: Builtins, key: string, seen: set<string>) returns (ks: seq<string>, root: string)
    requires BuiltinsOk(b) && key in store && ResolveFile(store, b, key, seen).Ok?
    ensures Chain(store, b, ks, root) && ks[0] == key
    ensures var p := ResolveFile(store, b, key, seen).value;
            && p.caps == Folded(store, ks, b[root].caps)
            && p.seccomp == b[root].seccomp && p.appArmor == b[root].appArmor && p.noNewPrivileges == b[root].noNewPrivileges
            && p.name == store[key].ProfileName() && p.extends_ == store[key].ProfileExtends() && !p.builtIn
            && p.addCap == store[key].ProfileAddCap() && p.dropCap == store[key].ProfileDropCap()
    ensures forall i :: 0 <= i < |ks| ==> WellShaped(store[ks[i]], b)
    decreases |Names(store) - seen|
  {
    ResolveStep(store, b, key, seen);
    hide Merged, Names, WellShaped, ResolveFile, GetCustom, Chain, Folded;
    var m := store[key];
    if m.ProfileExtends() in b {
      ks, root := [key], m.ProfileExtends();
      OneFile(store, b, key);
    } else {
      var parent, r := ResolvedAlongChain(store, b, m.ProfileExtends(), seen + {m.ProfileName()});
      ks, root := [key] + parent, r;
      OneMoreFile(store, b, key, parent, r);
    }
  }

  /** MAIN: nearest mention wins, for every capability; the list has no duplicates; everything else is the root's. */
  lemma NearestMentionWins(store: Store, b: Builtins, name: string) returns (ks: seq<string>, root: string)
    requires BuiltinsOk(b) && name !in b && Get(store, b, name).Ok?
    ensures Chain(store, b, ks, root) && ks[0] == name
    ensures var p := Get(store, b, name).value;
            && (forall cap :: cap in p.caps <==> Granted(store, ks, b[root].caps, cap))
            && NoDup(p.caps)
            && p.name == store[name].ProfileName() && p.extends_ == store[name].ProfileExtends() && !p.builtIn
            && p.seccomp == b[root].seccomp && p.appArmor == b[root].appArmor && p.noNewPrivileges == b[root].noNewPrivileges
  {
    ks, root := ResolvedAlongChain(store, b, name, {});
    var rootCaps := b[root].caps;
    forall cap
      ensures cap in Folded(store, ks, rootCaps) <==> Granted(store, ks, rootCaps, cap)
    {
      FoldedIsGranted(store, ks, rootCaps, cap);
    }
    FoldedNoDup(store, ks, rootCaps);
  }

  /** x stands before y in the list. */
  ghost predicate Precedes(caps: seq<string>, x: string, y: string) {
    exists i, j :: 0 <= i < j < |caps| && caps[i] == x && caps[j] == y
  }

  /** No manifest of the first k drops it. */
  ghost predicate Undropped(store: Store, ks: seq<string>, k: nat, cap: string)
    requires k <= |ks| && forall i :: 0 <= i < |ks| ==> ks[i] in store
  {
    forall a :: 0 <= a < k ==> cap !in store[ks[a]].ProfileDropCap()
  }

  /** Of two capabilities in a list that are not dropped, the one that came first still does. */
  lemma MergedOrder(base: seq<string>, m: Manifest, x: string, y: string)
    requires NoDup(base) && Precedes(base, x, y) && x !in m.ProfileDropCap() && y !in m.ProfileDropCap()
    ensures Precedes(Merged(base, m.ProfileAddCap(), m.ProfileDropCap()), x, y)
  {
    var i, j :| 0 <= i < j < |base| && base[i] == x && base[j] == y;
    KeptOrder(base, m.ProfileDropCap(), x, y, i, j);
    MergedIs(base, m.ProfileAddCap(), m.ProfileDropCap());
    var kept := Kept(base, m.ProfileDropCap());
    var k, l :| 0 <= k < l < |kept| && kept[k] == x && kept[l] == y;
    assert Merged(base, m.ProfileAddCap(), m.ProfileDropCap())[k] == x && Merged(base, m.ProfileAddCap(), m.ProfileDropCap())[l] == y;
  }

  /** Two capabilities of any ancestor, or of the root, that nobody below drops keep their order down the chain. */
  lemma {:induction false} InheritedOrder(store: Store, ks: seq<string>, rootCaps: seq<string>, k: nat, x: string, y: string)
    requires k <= |ks| && NoDup(rootCaps) && forall i :: 0 <= i < |ks| ==> ks[i] in store
    requires Precedes(Folded(store, ks[k..], rootCaps), x, y) && Undropped(store, ks, k, x) && Undropped(store, ks, k, y)
    ensures Precedes(Folded(store, ks, rootCaps), x, y)
    decreases k
  {
    hide Precedes, Merged, NoDup;
    if k == 0 {
      assert ks[0..] == ks;
    } else {
      var m, tail := store[ks[k - 1]], ks[k - 1..];
      assert tail[0] == ks[k - 1] && tail[1..] == ks[k..];
      FoldedNoDup(store, ks[k..], rootCaps);
      MergedOrder(Folded(store, ks[k..], rootCaps), m, x, y);
      InheritedOrder(store, ks, rootCaps, k - 1, x, y);
    }
  }

  /** So it is in a resolved profile. */
  lemma ResolvedOrder(store: Store, b: Builtins, name: string) returns (ks: seq<string>, root: string)
    requires BuiltinsOk(b) && name !in b && Get(store, b, name).Ok?
    ensures Chain(store, b, ks, root) && ks[0] == name
    ensures forall k: nat, x, y ::
              (k <= |ks| && Precedes(Folded(store, ks[k..], b[root].caps), x, y) && Undropped(store, ks, k, x) && Undropped(store, ks, k, y))
              ==> Precedes(Get(store, b, name).value.caps, x, y)
  {
    ks, root := ResolvedAlongChain(store, b, name, {});
    hide Precedes, Undropped, Folded, Merged;
    forall k: nat, x, y | k <= |ks| && Precedes(Folded(store, ks[k..], b[root].caps), x, y) && Undropped(store, ks, k, x) && Undropped(store, ks, k, y)
      ensures Precedes(Get(store, b, name).value.caps, x, y)
    {
      InheritedOrder(store, ks, b[root].caps, k, x, y);
    }
  }

  // ---- the extends graph, and what resolves -------------------------------------------------------------------------------

  /** A walk from file to file along extends; built-in profiles are not files. */
  ghost predicate Path(store: Store, b: Builtins, p: seq<string>) {
    p != [] && forall i :: 0 <= i < |p| - 1 ==> Edge(store, b, p[i], p[i + 1])
  }

  ghost predicate IsCycle(store: Store, b: Builtins, p: seq<string>) {
    Path(store, b, p) && |p| > 1 && p[0] == p[|p| - 1]
  }

  ghost predicate Acyclic(store: Store, b: Builtins) {
    forall p :: !IsCycle(store, b, p)
  }

  /** Every file is named after the manifest inside. */
  ghost predicate Named(store: Store) {
    forall k :: k in store ==> store[k].ProfileName() == k
  }

  lemma PathPart(store: Store, b: Builtins, p: seq<string>, i: nat, j: nat)
    requires Path(store, b, p) && i <= j < |p|
    ensures Path(store, b, p[i..j + 1])
  {
    var q := p[i..j + 1];
    forall k | 0 <= k < |q| - 1
      ensures Edge(store, b, q[k], q[k + 1])
    {
      assert q[k] == p[i + k] && q[k + 1] == p[i + k + 1];
    }
  }

  lemma PathSnoc(store: Store, b: Builtins, p: seq<string>, x: string)
    requires Path(store, b, p) && Edge(store, b, p[|p| - 1], x)
    ensures Path(store, b, p + [x])
  {
  }

  /** A parent that resolves keeps resolving, to the same profile, when a file of a new name is added and
      that name counts as seen. */
  lemma {:induction false} StillResolves(store: Store, b: Builtins, name: string, m: Manifest, x: string, seen: set<string>)
    requires "" in b && Named(store) && name !in store && GetCustom(store, b, x, seen).Ok? && m.ProfileName() == name
    ensures GetCustom(store[name := m], b, x, seen + {name}) == GetCustom(store, b, x, seen)
    decreases |Names(store) - seen|
  {
    if x != "" {
      var f := store[x];
      if f.ProfileExtends() !in b {
        LeftShrinks(store, x, seen);
        Smaller(Names(store) - (seen + {f.ProfileName()}), Names(store) - seen);
        StillResolves(store, b, name, m, f.ProfileExtends(), seen + {f.ProfileName()});
        assert seen + {f.ProfileName()} + {name} == seen + {name} + {f.ProfileName()};
      }
    }
  }

  /** From a parent that resolves, no walk leaves the files there were. */
  lemma {:induction false} WalkStays(store: Store, b: Builtins, name: string, m: Manifest, p: seq<string>, seen: set<string>) returns (s: set<string>)
    requires BuiltinsOk(b) && Named(store) && name !in store && Path(store[name := m], b, p) && p[0] !in b
    requires GetCustom(store, b, p[0], seen).Ok?
    ensures forall i :: 0 <= i < |p| ==> p[i] in store
    ensures GetCustom(store, b, p[|p| - 1], s).Ok?
    decreases |p|
  {
    assert p[0] in store;
    s := seen;
    if |p| > 1 {
      var f := store[p[0]];
      assert (store[name := m])[p[0]] == f;
      assert Edge(store[name := m], b, p[0], p[0 + 1]);
      PathPart(store[name := m], b, p, 1, |p| - 1);
      assert p[1..|p| - 1 + 1] == p[1..];
      s := WalkStays(store, b, name, m, p[1..], seen + {f.ProfileName()});
      assert forall i :: 0 < i < |p| ==> p[i] == p[1..][i - 1];
    }
  }

  /** Registering under a new name over a parent that resolves closes no cycle. */
  lemma RegisterKeepsAcyclic(store: Store, b: Builtins, name: string, m: Manifest)
    requires BuiltinsOk(b) && Named(store) && Acyclic(store, b) && name !in store && name !in b && m.ProfileName() == name
    requires m.ProfileExtends() in b || GetCustom(store, b, m.ProfileExtends(), {}).Ok?
    ensures Acyclic(store[name := m], b) && Named(store[name := m])
  {
    var more := store[name := m];
    forall p
      ensures !IsCycle(more, b, p)
    {
      if Path(more, b, p) && |p| > 1 {
        if i :| 0 <= i < |p| - 1 && p[i] == name {
          NewFileOnNoCycle(store, b, name, m, p, i);
        } else {
          forall k | 0 <= k < |p| - 1
            ensures Edge(store, b, p[k], p[k + 1])
          {
            assert Edge(more, b, p[k], p[k + 1]);
          }
          assert !IsCycle(store, b, p);
        }
      }
    }
  }

  lemma {:induction false} NewFileOnNoCycle(store: Store, b: Builtins, name: string, m: Manifest, p: seq<string>, i: nat)
    requires BuiltinsOk(b) && Named(store) && name !in store && Path(store[name := m], b, p) && i < |p| - 1 && p[i] == name
    requires m.ProfileExtends() in b || GetCustom(store, b, m.ProfileExtends(), {}).Ok?
    ensures p[0] != p[|p| - 1]
  {
    var more := store[name := m];
    assert Edge(more, b, p[i], p[i + 1]);
    PathPart(more, b, p, i + 1, |p| - 1);
    PathPart(more, b, p, 0, i);
    var before, after := p[0..i + 1], p[i + 1..|p| - 1 + 1];
    assert before[0] == p[0] && before[i] == name;
    assert after[0] == p[i + 1] && after[|after| - 1] == p[|p| - 1];
    var s := WalkStays(store, b, name, m, after, {});
    assert Edge(more, b, p[|p| - 2], p[|p| - 2 + 1]);
    if p[0] == p[|p| - 1] {
      var _ := WalkStays(store, b, name, m, before, s);
    }
  }

  lemma DeleteKeepsAcyclic(store: Store, b: Builtins, name: string)
    requires Acyclic(store, b) && Named(store)
    ensures Acyclic(store - {name}, b) && Named(store - {name})
  {
    forall p
      ensures IsCycle(store - {name}, b, p) ==> IsCycle(store, b, p)
    {
      if IsCycle(store - {name}, b, p) {
        forall k | 0 <= k < |p| - 1
          ensures Edge(store, b, p[k], p[k + 1])
        {
          assert Edge(store - {name}, b, p[k], p[k + 1]);
        }
      }
    }
  }

  /** In an acyclic store the cycle error does not happen: seen holds the walk that led here. */
  lemma {:induction false} NoCycleError(store: Store, b: Builtins, p: seq<string>, seen: set<string>)
    requires "" in b && Named(store) && Acyclic(store, b) && Path(store, b, p)
    requires seen == Elements(p[..|p| - 1])
    ensures var r := GetCustom(store, b, p[|p| - 1], seen); r.Err? ==> !r.error.Cycle?
    decreases |Names(store) - seen|
  {
    var x := p[|p| - 1];
    hide Names, Acyclic, Path, Elements, ValidProfileName;
    if x in store && x != "" && ShapeError(store[x], b).Ok? {
      NotSeen(store, b, p);
      if store[x].ProfileExtends() !in b {
        LeftShrinks(store, x, seen);
        Smaller(Names(store) - (seen + {x}), Names(store) - seen);
        PathSnoc(store, b, p, store[x].ProfileExtends());
        ElementsSnoc(p, store[x].ProfileExtends());
        NoCycleError(store, b, p + [store[x].ProfileExtends()], seen + {x});
      }
    }
  }

  /** Well-shaped files up to a built-in profile, none met before, resolve. */
  lemma {:induction false} ChainResolves(store: Store, b: Builtins, ks: seq<string>, root: string, seen: set<string>)
    requires "" in b && Named(store) && Chain(store, b, ks, root) && NoDup(ks) && ks[0] !in b
    requires forall i :: 0 <= i < |ks| ==> WellShaped(store[ks[i]], b) && ks[i] !in seen
    ensures GetCustom(store, b, ks[0], seen).Ok?
    decreases |ks|
  {
    ShapedIff(store[ks[0]], b);
    hide Merged, ShapeError, Names;
    if |ks| > 1 {
      var rest := ks[1..];
      assert Edge(store, b, ks[0], ks[0 + 1]);
      forall i | 0 <= i < |rest| - 1
        ensures Edge(store, b, rest[i], rest[i + 1])
      {
        assert Edge(store, b, ks[i + 1], ks[i + 1 + 1]);
      }
      ChainResolves(store, b, rest, root, seen + {ks[0]});
    }
  }

  lemma ChainIsPlain(store: Store, b: Builtins, ks: seq<string>, root: string)
    requires Acyclic(store, b) && Chain(store, b, ks, root)
    ensures NoDup(ks)
  {
    forall i, j | 0 <= i < j < |ks|
      ensures ks[i] != ks[j]
    {
      PathPart(store, b, ks, i, j);
      var c := ks[i..j + 1];
      assert c[0] == ks[i] && c[|c| - 1] == ks[j] && !IsCycle(store, b, c);
    }
  }

  ghost predicate SoundChain(store: Store, b: Builtins, name: string, ks: seq<string>, root: string) {
    Chain(store, b, ks, root) && ks[0] == name && forall i :: 0 <= i < |ks| ==> WellShaped(store[ks[i]], b)
  }

  /** MAIN: in a reachable store a name resolves exactly when it is built in, to the built-in profile itself, or
      its extends chain runs through well-shaped files to a built-in one. */
  lemma ResolvesIff(store: Store, b: Builtins, name: string)
    requires BuiltinsOk(b) && Named(store) && Acyclic(store, b)
    ensures Get(store, b, name).Ok? <==>
            name in b || exists ks, root :: SoundChain(store, b, name, ks, root)
    ensures name in b ==> Get(store, b, name).value == b[name]
  {
    hide Chain, NoDup, Acyclic, Named, WellShaped;
    if name !in b {
      if Get(store, b, name).Ok? {
        InStore(store, b, name);
        var ks, root := ResolvedAlongChain(store, b, name, {});
        assert SoundChain(store, b, name, ks, root);
      }
      if ks, root :| SoundChain(store, b, name, ks, root) {
        ChainIsPlain(store, b, ks, root);
        ChainResolves(store, b, ks, root, {});
      }
    }
  }

  lemma {:induction false} InStore(store: Store, b: Builtins, name: string)
    requires "" in b && name !in b && GetCustom(store, b, name, {}).Ok?
    ensures name in store && ResolveFile(store, b, name, {}).Ok?
  {
    hide ResolveFile, ValidProfileName;
  }

  /** A walk in an acyclic store does not come back to where it has been. */
  lemma NotSeen(store: Store, b: Builtins, p: seq<string>)
    requires Acyclic(store, b) && Path(store, b, p)
    ensures p[|p| - 1] !in Elements(p[..|p| - 1])
  {
    var n := |p| - 1;
    forall i | 0 <= i < n
      ensures p[i] != p[n]
    {
      PathPart(store, b, p, i, n);
      var c := p[i..n + 1];
      assert c[0] == p[i] && c[|c| - 1] == p[n] && !IsCycle(store, b, c);
    }
  }

  lemma ElementsSnoc(p: seq<string>, y: string)
    requires p != []
    ensures Elements((p + [y])[..|p + [y]| - 1]) == Elements(p[..|p| - 1]) + {p[|p| - 1]}
  {
    assert (p + [y])[..|p + [y]| - 1] == p;
    assert p == p[..|p| - 1] + [p[|p| - 1]];
  }

  ghost function Elements(s: seq<string>): set<string> {
    set x | x in s
  }
}

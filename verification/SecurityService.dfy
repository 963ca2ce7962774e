/** The profile store as Register and Delete change it. */
module SecurityService {
  import opened SecurityProfiles
  import opened SecurityInheritance

  /** What registration asks of a manifest, the parent resolving among it. */
  predicate Registrable(store: Store, b: Builtins, m: Manifest)
    requires "" in b
  {
    && ValidProfileName(m.ProfileName()) && m.ProfileName() !in b
    && m.ProfileExtends() != "" && m.ProfileExtends() != m.ProfileName()
    && Get(store, b, m.ProfileExtends()).Ok?
    && (forall c :: c in m.ProfileAddCap() + m.ProfileDropCap() ==> ValidCapabilityName(c))
  }

  /** CAP_ and upper-case letters, digits and underscores. */
  predicate CapabilityForm(c: string) {
    |c| >= 4 && c[..4] == "CAP_" && forall i :: 0 <= i < |c| ==> c[i] == '_' || 'A' <= c[i] <= 'Z' || '0' <= c[i] <= '9'
  }

  lemma FormsAreValid()
    ensures forall c :: ValidCapabilityName(c) <==> CapabilityForm(c)
  {
    forall c
      ensures ValidCapabilityName(c) <==> CapabilityForm(c)
    {
      if |c| >= 4 && c[..4] == "CAP_" {
        assert c[0] == 'C' && c[1] == 'A' && c[2] == 'P' && c[3] == '_';
      }
    }
  }

  class Service {
    var store: Store
    const builtins: Builtins

    /** Every store reached from the empty one. */
    ghost predicate Valid()
      reads this
    {
      BuiltinsOk(builtins) && Named(store) && Acyclic(store, builtins)
    }

    constructor (builtins: Builtins)
      requires BuiltinsOk(builtins)
      ensures Valid() && store == map[] && this.builtins == builtins
    {
      this.builtins := builtins;
      store := map[];
      EmptyIsAcyclic(builtins);
    }

    method ValidateManifest(m: Manifest) returns (r: Result<()>)
      requires Valid()
      ensures r.Ok? <==> Registrable(store, builtins, m)
      ensures r.Err? ==> !r.error.Cycle? && (r.error.UnknownParent? ==> !r.error.why.Cycle?)
      ensures r.Ok? ==> forall c :: c in m.ProfileAddCap() || c in m.ProfileDropCap() ==> CapabilityForm(c)
      ensures r.Err? && r.error.InvalidCapability? ==> !CapabilityForm(r.error.cap)
    {
      var name := m.ProfileName();
      if name == "" { return Err(MissingName); }
      if !ValidProfileName(name) { return Err(InvalidName(name)); }
      if name in builtins { return Err(Overwrites(name)); }
      var extends_ := m.ProfileExtends();
      if extends_ == "" { return Err(ExtendsRequired); }
      if extends_ == name { return Err(ExtendsItself(name)); }
      var parent := Get(store, builtins, extends_);
      GetNoCycle(store, builtins, extends_);
      if parent.Err? { return Err(UnknownParent(extends_, parent.error)); }
      var caps := m.ProfileAddCap() + m.ProfileDropCap();
      FormsAreValid();
      hide ValidCapabilityName, CapabilityForm;
      var i := 0;
      while i < |caps|
        invariant i <= |caps| && forall j :: 0 <= j < i ==> ValidCapabilityName(caps[j])
      {
        if !ValidCapabilityName(caps[i]) {
          assert caps[i] in m.ProfileAddCap() + m.ProfileDropCap();
          return Err(InvalidCapability(caps[i]));
        }
        i := i + 1;
      }
      return Ok(());
    }

    /** Writes the manifest, then resolves it once more; the file would go again if that failed, but it
        never does. */
    method Register(m: Manifest) returns (r: Result<Profile>)
      requires Valid()
      modifies this
      ensures Valid()
      ensures r.Ok? <==> old(Registrable(store, builtins, m)) && m.ProfileName() !in old(store)
      ensures r.Ok? ==> store == old(store)[m.ProfileName() := m]
      ensures r.Ok? ==> old(Get(store, builtins, m.ProfileExtends())).Ok? && r.value == Derived(m, old(Get(store, builtins, m.ProfileExtends())).value)
      ensures r.Err? ==> store == old(store) && !r.error.Cycle?
    {
      var checked := ValidateManifest(m);
      if checked.Err? {
        return Err(checked.error);
      }
      var name := m.ProfileName();
      if name in store {
        return Err(AlreadyExists(name));
      }
      ParentResolves(store, builtins, m);
      RegisterKeepsAcyclic(store, builtins, name, m);
      hide Registrable, Get, Acyclic, Named, ValidProfileName;
      store := store[name := m];
      r := Get(store, builtins, name);
      if r.Err? {
        store := store - {name};
        RegisteredResolves(old(store), builtins, m);
        assert false;
      }
      RegisteredResolves(old(store), builtins, m);
    }

    method Delete(name: string) returns (r: Result<()>)
      requires Valid()
      modifies this
      ensures Valid()
      ensures r.Ok? <==> name !in builtins && ValidProfileName(name) && name in old(store)
      ensures store == if r.Ok? then old(store) - {name} else old(store)
    {
      if name == "" { return Err(MissingName); }
      if name in builtins { return Err(Overwrites(name)); }
      if !ValidProfileName(name) { return Err(InvalidName(name)); }
      if name !in store { return Err(Unknown(name)); }
      DeleteKeepsAcyclic(store, builtins, name);
      store := store - {name};
      return Ok(());
    }

    /** Get and Resolve on a reachable store. */
    method Resolve(name: string) returns (r: Result<Profile>)
      requires Valid()
      ensures r == Get(store, builtins, name)
      ensures r.Err? ==> !r.error.Cycle?
    {
      GetNoCycle(store, builtins, name);
      r := Get(store, builtins, name);
    }
  }

  /** In a reachable store resolving any name never meets a cycle. */
  lemma GetNoCycle(store: Store, b: Builtins, name: string)
    requires BuiltinsOk(b) && Named(store) && Acyclic(store, b)
    ensures var r := Get(store, b, name); r.Err? ==> !r.error.Cycle?
  {
    assert [name][..0] == [] && SecurityInheritance.Elements([]) == {};
    NoCycleError(store, b, [name], {});
  }

  lemma EmptyIsAcyclic(b: Builtins)
    ensures Acyclic(map[], b)
  {
    forall p: seq<string>
      ensures !IsCycle(map[], b, p)
    {
      if |p| > 1 {
        assert !Edge(map[], b, p[0], p[0 + 1]);
      }
    }
  }

  lemma {:induction false} ParentResolves(store: Store, b: Builtins, m: Manifest)
    requires BuiltinsOk(b) && Registrable(store, b, m)
    ensures m.ProfileExtends() in b || GetCustom(store, b, m.ProfileExtends(), {}).Ok?
  {
  }

  /** The check after the write succeeds. */
  lemma RegisteredResolves(store: Store, b: Builtins, m: Manifest)
    requires BuiltinsOk(b) && Named(store) && Registrable(store, b, m) && m.ProfileName() !in store
    ensures var name := m.ProfileName();
            Get(store[name := m], b, name) == Ok(Derived(m, Get(store, b, m.ProfileExtends()).value))
  {
    var name, extends_ := m.ProfileName(), m.ProfileExtends();
    assert ShapeError(m, b).Ok? && ValidProfileName(name) && name != "";
    if extends_ !in b {
      StillResolves(store, b, name, m, extends_, {});
      assert {} + {name} == {name};
    }
    hide ShapeError, ValidProfileName, Registrable, Merged, Names, Named;
    ResolvedFile(store[name := m], b, name);
  }

  /** Resolving a file is deriving its manifest from its parent. */
  lemma {:induction false} ResolvedFile(store: Store, b: Builtins, name: string)
    requires "" in b && name in store && name !in b && name != "" && ValidProfileName(name) && ShapeError(store[name], b).Ok? && store[name].ProfileName() == name
    ensures var m := store[name];
            && (m.ProfileExtends() in b ==> Get(store, b, name) == Ok(Derived(m, b[m.ProfileExtends()])))
            && var parent := GetCustom(store, b, m.ProfileExtends(), {name});
               m.ProfileExtends() !in b && parent.Ok? ==> Get(store, b, name) == Ok(Derived(m, parent.value))
  {
    hide Merged, Names, Derived;
    assert {} + {name} == {name};
    assert Get(store, b, name) == GetCustom(store, b, name, {});
    assert GetCustom(store, b, name, {}) == ResolveFile(store, b, name, {});
    assert name !in {};
  }
}

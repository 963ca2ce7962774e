/** Security profiles: built-in ones and registered ones that extend them, resolved along the extends chain. */
module SecurityProfiles {

  /** Either layout of a manifest file; the metadata/spec fields win where they are set. */
  datatype Manifest = Manifest(
    metadataName: string, specExtends: string, specAddCap: seq<string>, specDropCap: seq<string>,
    name: string, extends_: string, addCap: seq<string>, dropCap: seq<string>)
  {
    function ProfileName(): string {
      if metadataName != "" then metadataName else name
    }

    function ProfileExtends(): string {
      if specExtends != "" then specExtends else extends_
    }

    function ProfileAddCap(): seq<string> {
      if specAddCap != [] then specAddCap else addCap
    }

    function ProfileDropCap(): seq<string> {
      if specDropCap != [] then specDropCap else dropCap
    }
  }

  /** seccomp stands for the filter object a profile carries; 0 for none. */
  datatype Profile = Profile(name: string, builtIn: bool, extends_: string, addCap: seq<string>, dropCap: seq<string>,
                             caps: seq<string>, seccomp: nat, appArmor: string, noNewPrivileges: bool)

  type Builtins = map<string, Profile>

  const BUILTIN_NAMES: set<string> := {"", "default", "dev", "deploy", "restricted", "privileged", "unconfined"}

  ghost predicate NoDup(s: seq<string>) {
    forall i, j :: 0 <= i < j < |s| ==> s[i] != s[j]
  }

  /** The tables of built-in profiles. */
  ghost predicate BuiltinsOk(b: Builtins) {
    b.Keys == BUILTIN_NAMES && b[""] == b["default"] && forall n :: n in b ==> NoDup(b[n].caps)
  }

  datatype Error =
    | MissingName
    | InvalidName(name: string)
    | Overwrites(name: string)
    | ExtendsRequired
    | ExtendsItself(name: string)
    | UnknownParent(name: string, why: Error)
    | InvalidCapability(cap: string)
    | AlreadyExists(name: string)
    | Unknown(name: string)
    | Cycle(name: string)

  datatype Result<T> = Ok(value: T) | Err(error: Error)

  predicate NameStart(c: char) {
    'a' <= c <= 'z' || '0' <= c <= '9'
  }

  /** ^[a-z0-9][a-z0-9_.-]{0,62}$ */
  predicate ValidProfileName(n: string) {
    1 <= |n| <= 63 && NameStart(n[0]) && forall i :: 0 < i < |n| ==> NameStart(n[i]) || n[i] in "_.-"
  }

  /** A valid name is the name of a file in the store's directory, whatever the manifest says. */
  lemma NamesStayInDirectory(n: string)
    requires ValidProfileName(n)
    ensures n != "" && n[0] != '.' && '/' !in n && |n| <= 63 && forall i :: 0 <= i < |n| ==> !('A' <= n[i] <= 'Z') && n[i] != ' '
  {
  }

  predicate ValidCapabilityName(c: string) {
    "CAP_" <= c && forall i :: 4 <= i < |c| ==> 'A' <= c[i] <= 'Z' || '0' <= c[i] <= '9' || c[i] == '_'
  }

  // ---- capability lists --------------------------------------------------------------------------

  function Kept(base: seq<string>, drops: seq<string>): seq<string> {
    if base == [] then []
    else Kept(base[..|base| - 1], drops) + if base[|base| - 1] in drops then [] else [base[|base| - 1]]
  }

  /** out with the added capabilities it does not have yet, one of each. */
  function Extended(out: seq<string>, adds: seq<string>, drops: seq<string>): seq<string> {
    if adds == [] then out
    else
      var before := Extended(out, adds[..|adds| - 1], drops);
      var cap := adds[|adds| - 1];
      if cap in drops || cap in before then before else before + [cap]
  }

  function Merged(base: seq<string>, adds: seq<string>, drops: seq<string>): seq<string> {
    Extended(Kept(base, drops), adds, drops)
  }

  method DropCapabilities(base: seq<string>, drops: seq<string>) returns (out: seq<string>)
    ensures out == Kept(base, drops)
  {
    var dropSet := set c | c in drops;
    out := [];
    var i := 0;
    while i < |base|
      invariant i <= |base| && out == Kept(base[..i], drops)
    {
      assert base[..i + 1][..i] == base[..i];
      if base[i] !in dropSet {
        out := out + [base[i]];
      }
      i := i + 1;
    }
    assert base[..|base|] == base;
  }

  method MergeCapabilityDelta(base: seq<string>, addCaps: seq<string>, dropCaps: seq<string>) returns (out: seq<string>)
    ensures out == Merged(base, addCaps, dropCaps)
  {
    var dropSet := set c | c in dropCaps;
    out := DropCapabilities(base, dropCaps);
    var seen := set c | c in out;
    var i := 0;
    while i < |addCaps|
      invariant i <= |addCaps| && out == Extended(Kept(base, dropCaps), addCaps[..i], dropCaps)
      invariant seen == set c | c in out
    {
      assert addCaps[..i + 1][..i] == addCaps[..i];
      var cap := addCaps[i];
      if cap !in dropSet && cap !in seen {
        out := out + [cap];
        seen := seen + {cap};
      }
      i := i + 1;
    }
    assert addCaps[..|addCaps|] == addCaps;
  }

  lemma {:induction false} KeptElements(base: seq<string>, drops: seq<string>)
    ensures forall c :: c in Kept(base, drops) <==> c in base && c !in drops
    ensures NoDup(base) ==> NoDup(Kept(base, drops))
    decreases |base|
  {
    if base != [] {
      var n := |base| - 1;
      KeptElements(base[..n], drops);
      assert base == base[..n] + [base[n]];
    }
  }

  lemma {:induction false} ExtendedElements(out: seq<string>, adds: seq<string>, drops: seq<string>)
    ensures forall c :: c in Extended(out, adds, drops) <==> c in out || (c in adds && c !in drops)
    ensures NoDup(out) ==> NoDup(Extended(out, adds, drops))
    ensures out <= Extended(out, adds, drops)
    decreases |adds|
  {
    if adds != [] {
      var n := |adds| - 1;
      ExtendedElements(out, adds[..n], drops);
      assert adds == adds[..n] + [adds[n]];
    }
  }

  /** What a merged list holds: it stays free of duplicates, and the inherited capabilities that survive
      come first and in their old order. */
  lemma {:induction false} MergedIs(base: seq<string>, adds: seq<string>, drops: seq<string>)
    ensures forall c :: c in Merged(base, adds, drops) <==> (c in base || c in adds) && c !in drops
    ensures NoDup(base) ==> NoDup(Merged(base, adds, drops))
    ensures Kept(base, drops) <= Merged(base, adds, drops)
  {
    KeptElements(base, drops);
    ExtendedElements(Kept(base, drops), adds, drops);
  }

  /** Kept takes elements out and moves none. */
  lemma {:induction false} KeptOrder(base: seq<string>, drops: seq<string>, x: string, y: string, i: nat, j: nat)
    requires NoDup(base) && i < j < |base| && base[i] == x && base[j] == y && x !in drops && y !in drops
    ensures exists k, l :: 0 <= k < l < |Kept(base, drops)| && Kept(base, drops)[k] == x && Kept(base, drops)[l] == y
    decreases |base|
  {
    var n := |base| - 1;
    var kept := Kept(base[..n], drops);
    if j == n {
      KeptElements(base[..n], drops);
      assert base[..n][i] == x;
      var k :| 0 <= k < |kept| && kept[k] == x;
      assert Kept(base, drops)[k] == x && Kept(base, drops)[|kept|] == y;
    } else {
      assert NoDup(base[..n]) && base[..n][i] == x && base[..n][j] == y;
      KeptOrder(base[..n], drops, x, y, i, j);
      var k, l :| 0 <= k < l < |kept| && kept[k] == x && kept[l] == y;
      assert Kept(base, drops)[k] == x && Kept(base, drops)[l] == y;
    }
  }

  // ---- resolving -----------------------------------------------------------------------------------

  /** Each profile file under its name; the manifest inside may call itself something else. */
  type Store = map<string, Manifest>

  ghost function Names(store: Store): set<string> {
    set k | k in store :: store[k].ProfileName()
  }

  function ShapeError(m: Manifest, b: Builtins): Result<()> {
    if m.ProfileName() == "" || !ValidProfileName(m.ProfileName()) then Err(InvalidName(m.ProfileName()))
    else if m.ProfileName() in b then Err(Overwrites(m.ProfileName()))
    else if m.ProfileExtends() == "" then Err(ExtendsRequired)
    else Ok(())
  }

  /** What a manifest makes of its parent profile. */
  function Derived(m: Manifest, parent: Profile): Profile {
    parent.(name := m.ProfileName(), builtIn := false, extends_ := m.ProfileExtends(),
            addCap := m.ProfileAddCap(), dropCap := m.ProfileDropCap(),
            caps := Merged(parent.caps, m.ProfileAddCap(), m.ProfileDropCap()))
  }

  /** Either layout of the same fields makes the same profile; where both are filled in the metadata/spec one counts. */
  lemma LayoutsAlike(n: string, e: string, adds: seq<string>, drops: seq<string>, other: Manifest, parent: Profile, b: Builtins)
    ensures var nested, flat := Manifest(n, e, adds, drops, "", "", [], []), Manifest("", "", [], [], n, e, adds, drops);
            && Derived(nested, parent) == Derived(flat, parent) && ShapeError(nested, b) == ShapeError(flat, b)
            && Derived(flat, parent).name == n && Derived(flat, parent).extends_ == e
            && Derived(flat, parent).addCap == adds && Derived(flat, parent).dropCap == drops
    ensures n != "" && e != "" && adds != [] && drops != [] ==>
              var both := other.(metadataName := n, specExtends := e, specAddCap := adds, specDropCap := drops);
              Derived(both, parent) == Derived(Manifest(n, e, adds, drops, "", "", [], []), parent)
  {
    hide Merged, ValidProfileName;
  }

  /** getCustomProfile; on any store it ends, since every step adds a profile name to seen. */
  function GetCustom(store: Store, b: Builtins, name: string, seen: set<string>): Result<Profile>
    requires "" in b
    decreases |Names(store) - seen|, 1
  {
    if name == "" then Ok(b[""])
    else if !ValidProfileName(name) || name !in store then Err(Unknown(name))
    else ResolveFile(store, b, name, seen)
  }

  function ResolveFile(store: Store, b: Builtins, key: string, seen: set<string>): Result<Profile>
    requires "" in b && key in store
    decreases |Names(store) - seen|, 0
  {
    var m := store[key];
    if ShapeError(m, b).Err? then Err(ShapeError(m, b).error)
    else if m.ProfileName() in seen then Err(Cycle(m.ProfileName()))
    else if m.ProfileExtends() in b then Ok(Derived(m, b[m.ProfileExtends()]))
    else
      assert Names(store) - (seen + {m.ProfileName()}) < Names(store) - seen by { LeftShrinks(store, key, seen); }
      Smaller(Names(store) - (seen + {m.ProfileName()}), Names(store) - seen);
      var parent := GetCustom(store, b, m.ProfileExtends(), seen + {m.ProfileName()});
      if parent.Err? then parent else Ok(Derived(m, parent.value))
  }

  lemma LeftShrinks(store: Store, key: string, seen: set<string>)
    requires key in store && store[key].ProfileName() !in seen
    ensures Names(store) - (seen + {store[key].ProfileName()}) < Names(store) - seen
  {
    var n := store[key].ProfileName();
    assert n in Names(store) - seen && n !in Names(store) - (seen + {n});
  }

  lemma Smaller(a: set<string>, b: set<string>)
    requires a < b
    ensures |a| < |b|
  {
    assert b == a + (b - a) && |b| == |a| + |b - a|;
  }

  /** Get and Resolve */
  function Get(store: Store, b: Builtins, name: string): Result<Profile>
    requires "" in b
  {
    if name in b then Ok(b[name]) else GetCustom(store, b, name, {})
  }
}

/** Sequences of iptables commands on one table, and their locality: commands that only touch
    what one owner's chains and jumps hold leave every other part of the table alone. */
module Commands {
  import opened Iptables

  datatype Cmd<M> =
    | New(c: Chain)
    | Flush(c: Chain)
    | Remove(c: Chain)
    | Append(c: Chain, r: Rule<M>)
    | Insert(c: Chain, r: Rule<M>)
    | Delete(c: Chain, r: Rule<M>)

  /** One command; a command iptables refuses changes nothing. */
  ghost function Step<M>(ch: Chains<M>, cmd: Cmd<M>): Chains<M> {
    match cmd
    case New(c) => if c in ch then ch else ch[c := []]
    case Flush(c) => if c in ch then ch[c := []] else ch
    case Remove(c) => if c in ch && !BuiltIn(c) && ch[c] == [] && !Referenced(ch, c) then ch - {c} else ch
    case Append(c, r) => if Installable(ch, c, r) then ch[c := ch[c] + [r]] else ch
    case Insert(c, r) => if Installable(ch, c, r) then ch[c := [r] + ch[c]] else ch
    case Delete(c, r) => if c in ch && r in ch[c] then ch[c := RemoveFirst(ch[c], r)] else ch
  }

  ghost function Run<M>(ch: Chains<M>, cmds: seq<Cmd<M>>): Chains<M>
    decreases |cmds|
  {
    if cmds == [] then ch else Run(Step(ch, cmds[0]), cmds[1..])
  }

  lemma {:induction false} RunConcat<M>(ch: Chains<M>, a: seq<Cmd<M>>, b: seq<Cmd<M>>)
    ensures Run(ch, a + b) == Run(Run(ch, a), b)
    decreases |a|
  {
    if a == [] {
      assert a + b == b;
    } else {
      assert (a + b)[1..] == a[1..] + b;
      RunConcat(Step(ch, a[0]), a[1..], b);
    }
  }

  lemma {:induction false} RunOne<M>(ch: Chains<M>, cmd: Cmd<M>)
    ensures Run(ch, [cmd]) == Step(ch, cmd)
  {
    assert [cmd][1..] == [];
  }

  // ---- owners ------------------------------------------------------------------------------

  datatype Owner = Nobody | Service(prefix: string)

  function OwnerOf(c: Chain): Owner {
    match c
    case SvcChain(s, _) => Service(s)
    case FwdChain(s) => Service(s)
    case SnatChain(s) => Service(s)
    case _ => Nobody
  }

  /** A rule belongs to the service it jumps to. */
  function RuleOwner<M>(r: Rule<M>): Owner {
    if r.target.Jump? then OwnerOf(r.target.chain) else Nobody
  }

  function Only<M>(rules: seq<Rule<M>>, o: Owner): seq<Rule<M>> {
    if rules == [] then []
    else if RuleOwner(rules[0]) == o then [rules[0]] + Only(rules[1..], o)
    else Only(rules[1..], o)
  }

  /** What an owner sees of a chain: its own chains whole, of an unowned chain its own jumps. */
  function Part<M>(c: Chain, rules: seq<Rule<M>>, o: Owner): seq<Rule<M>> {
    if OwnerOf(c) == Nobody then Only(rules, o) else rules
  }

  /** What an owner sees of the table; Nobody sees the unmanaged rules. */
  ghost function View<M>(ch: Chains<M>, o: Owner): Chains<M> {
    map c | c in ch && (OwnerOf(c) == Nobody || OwnerOf(c) == o) :: Part(c, ch[c], o)
  }

  /** Service chains contain no jumps. */
  ghost predicate Flat<M>(ch: Chains<M>) {
    forall c, i :: c in ch && OwnerOf(c) != Nobody && 0 <= i < |ch[c]| ==> !ch[c][i].target.Jump?
  }

  /** A command about one service: its chains, plain rules in them, and jumps to them from elsewhere. */
  predicate LocalTo<M>(cmd: Cmd<M>, p: string) {
    match cmd
    case New(c) => OwnerOf(c) == Service(p)
    case Flush(c) => OwnerOf(c) == Service(p)
    case Remove(c) => OwnerOf(c) == Service(p)
    case Append(c, r) => LocalRule(c, r, p)
    case Insert(c, r) => LocalRule(c, r, p)
    case Delete(c, r) => LocalRule(c, r, p)
  }

  predicate LocalRule<M>(c: Chain, r: Rule<M>, p: string) {
    if OwnerOf(c) == Nobody then RuleOwner(r) == Service(p)
    else OwnerOf(c) == Service(p) && !r.target.Jump?
  }

  // ---- filtering commutes with the commands ---------------------------------------------------

  lemma {:induction false} OnlyConcat<M>(a: seq<Rule<M>>, b: seq<Rule<M>>, o: Owner)
    ensures Only(a + b, o) == Only(a, o) + Only(b, o)
    decreases |a|
  {
    if a == [] {
      assert a + b == b;
    } else {
      OnlyConcat(a[1..], b, o);
      assert (a + b)[1..] == a[1..] + b;
    }
  }

  lemma {:induction false} OnlyOne<M>(r: Rule<M>, o: Owner)
    ensures Only([r], o) == if RuleOwner(r) == o then [r] else []
  {
    assert [r][1..] == [];
  }

  lemma {:induction false} OnlyElements<M>(rules: seq<Rule<M>>, o: Owner)
    ensures forall r :: r in Only(rules, o) <==> r in rules && RuleOwner(r) == o
    decreases |rules|
  {
    if rules != [] {
      OnlyElements(rules[1..], o);
      assert rules == [rules[0]] + rules[1..];
    }
  }

  lemma {:induction false} OnlyRemoveFirst<M>(rules: seq<Rule<M>>, r: Rule<M>, o: Owner)
    ensures Only(RemoveFirst(rules, r), o) == if RuleOwner(r) == o then RemoveFirst(Only(rules, o), r) else Only(rules, o)
    decreases |rules|
  {
    if rules != [] {
      var h, t := rules[0], rules[1..];
      OnlyRemoveFirst(t, r, o);
      if h != r {
        assert ([h] + RemoveFirst(t, r))[1..] == RemoveFirst(t, r);
      }
      assert ([h] + Only(t, o))[1..] == Only(t, o);
    }
  }

  // ---- locality ---------------------------------------------------------------------------------

  lemma ChainLocal<M>(ch: Chains<M>, c: Chain, p: string, o: Owner)
    requires OwnerOf(c) == Service(p)
    ensures View(ch[c := []], o) == if o == Service(p) then View(ch, o)[c := []] else View(ch, o)
  {
    hide Only;
  }

  lemma RemoveLocal<M>(ch: Chains<M>, c: Chain, p: string, o: Owner)
    requires OwnerOf(c) == Service(p)
    ensures View(ch - {c}, o) == if o == Service(p) then View(ch, o) - {c} else View(ch, o)
  {
    hide Only;
  }

  /** Updating one chain of the table updates the view of those who see that chain. */
  lemma UpdateLocal<M>(ch: Chains<M>, c: Chain, rules: seq<Rule<M>>, o: Owner)
    requires c in ch
    ensures OwnerOf(c) == Nobody || OwnerOf(c) == o ==> View(ch[c := rules], o) == View(ch, o)[c := Part(c, rules, o)]
    ensures OwnerOf(c) != Nobody && OwnerOf(c) != o ==> View(ch[c := rules], o) == View(ch, o)
    ensures OwnerOf(c) == Nobody && Part(c, rules, o) == Part(c, ch[c], o) ==> View(ch[c := rules], o) == View(ch, o)
  {
    var v := View(ch, o);
    if OwnerOf(c) == Nobody && Part(c, rules, o) == Part(c, ch[c], o) {
      assert v[c := Part(c, rules, o)] == v;
    }
  }

  /** A service chain is referenced in the table iff its owner can see the reference. */
  lemma ReferencedLocal<M>(ch: Chains<M>, c: Chain, p: string)
    requires Flat(ch) && OwnerOf(c) == Service(p)
    ensures Referenced(ch, c) <==> Referenced(View(ch, Service(p)), c)
  {
    var v := View(ch, Service(p));
    if Referenced(ch, c) {
      var d, i :| d in ch && 0 <= i < |ch[d]| && ch[d][i].target == Jump(c);
      OnlyElements(ch[d], Service(p));
      assert ch[d][i] in Only(ch[d], Service(p));
      var j :| 0 <= j < |v[d]| && v[d][j] == ch[d][i];
    }
    if Referenced(v, c) {
      var d, i :| d in v && 0 <= i < |v[d]| && v[d][i].target == Jump(c);
      OnlyElements(ch[d], Service(p));
      assert v[d][i] in ch[d];
      var j :| 0 <= j < |ch[d]| && ch[d][j] == v[d][i];
    }
  }

  lemma {:induction false} RulesLocal<M>(ch: Chains<M>, c: Chain, rules: seq<Rule<M>>, p: string, o: Owner)
    requires c in ch && (OwnerOf(c) == Nobody || OwnerOf(c) == Service(p))
    requires OwnerOf(c) == Nobody && o != Service(p) ==> Only(rules, o) == Only(ch[c], o)
    ensures View(ch[c := rules], o) == if o == Service(p) then View(ch, o)[c := Part(c, rules, o)] else View(ch, o)
  {
    UpdateLocal(ch, c, rules, o);
  }

  lemma AppendLocal<M>(ch: Chains<M>, c: Chain, r: Rule<M>, p: string, o: Owner)
    requires c in ch && LocalRule(c, r, p)
    ensures View(ch[c := ch[c] + [r]], o) == if o == Service(p) then View(ch, o)[c := View(ch, o)[c] + [r]] else View(ch, o)
  {
    OnlyConcat(ch[c], [r], o);
    OnlyOne(r, o);
    RulesLocal(ch, c, ch[c] + [r], p, o);
  }

  lemma InsertLocal<M>(ch: Chains<M>, c: Chain, r: Rule<M>, p: string, o: Owner)
    requires c in ch && LocalRule(c, r, p)
    ensures View(ch[c := [r] + ch[c]], o) == if o == Service(p) then View(ch, o)[c := [r] + View(ch, o)[c]] else View(ch, o)
  {
    OnlyConcat([r], ch[c], o);
    OnlyOne(r, o);
    RulesLocal(ch, c, [r] + ch[c], p, o);
  }

  lemma {:induction false} DeleteLocal<M>(ch: Chains<M>, c: Chain, r: Rule<M>, p: string, o: Owner)
    requires c in ch && LocalRule(c, r, p)
    ensures View(ch[c := RemoveFirst(ch[c], r)], o) ==
            if o == Service(p) then View(ch, o)[c := RemoveFirst(View(ch, o)[c], r)] else View(ch, o)
    ensures o == Service(p) ==> (r in ch[c] <==> r in View(ch, o)[c])
  {
    OnlyElements(ch[c], o);
    OnlyRemoveFirst(ch[c], r, o);
    RulesLocal(ch, c, RemoveFirst(ch[c], r), p, o);
  }

  lemma StepLocal<M>(ch: Chains<M>, cmd: Cmd<M>, p: string, o: Owner)
    requires Flat(ch) && LocalTo(cmd, p)
    ensures View(Step(ch, cmd), o) == if o == Service(p) then Step(View(ch, o), cmd) else View(ch, o)
  {
    hide Only, Part, Flat, Referenced;
    match cmd {
      case New(c) => ChainLocal(ch, c, p, o);
      case Flush(c) => ChainLocal(ch, c, p, o);
      case Remove(c) =>
        ReferencedLocal(ch, c, p);
        RemoveLocal(ch, c, p, o);
        OwnChainWhole(ch, c, p);
      case Append(c, r) =>
        if c in ch { AppendLocal(ch, c, r, p, o); }
      case Insert(c, r) =>
        if c in ch { InsertLocal(ch, c, r, p, o); }
      case Delete(c, r) =>
        if c in ch { DeleteLocal(ch, c, r, p, o); }
    }
  }

  lemma OwnChainWhole<M>(ch: Chains<M>, c: Chain, p: string)
    requires OwnerOf(c) == Service(p)
    ensures c in View(ch, Service(p)) <==> c in ch
    ensures c in ch ==> View(ch, Service(p))[c] == ch[c]
  {
  }

  lemma {:induction false} RemoveFirstElements<T>(s: seq<T>, x: T)
    ensures forall y :: y in RemoveFirst(s, x) ==> y in s
    decreases |s|
  {
    if s != [] && s[0] != x {
      RemoveFirstElements(s[1..], x);
    }
  }

  lemma StepFlat<M>(ch: Chains<M>, cmd: Cmd<M>, p: string)
    requires Flat(ch) && LocalTo(cmd, p)
    ensures Flat(Step(ch, cmd))
  {
    if cmd.Delete? && cmd.c in ch {
      RemoveFirstElements(ch[cmd.c], cmd.r);
      var rules := RemoveFirst(ch[cmd.c], cmd.r);
      forall i | 0 <= i < |rules| && OwnerOf(cmd.c) != Nobody
        ensures !rules[i].target.Jump?
      {
        assert rules[i] in ch[cmd.c];
      }
    }
  }

  /** MAIN: a program of one service acts on that service's view as it would on a table of its own,
      and on no other view at all. */
  lemma {:induction false} RunLocal<M>(ch: Chains<M>, cmds: seq<Cmd<M>>, p: string, o: Owner)
    requires Flat(ch) && forall i :: 0 <= i < |cmds| ==> LocalTo(cmds[i], p)
    ensures View(Run(ch, cmds), o) == if o == Service(p) then Run(View(ch, o), cmds) else View(ch, o)
    ensures Flat(Run(ch, cmds))
    decreases |cmds|
  {
    if cmds != [] {
      StepLocal(ch, cmds[0], p, o);
      StepFlat(ch, cmds[0], p);
      RunLocal(Step(ch, cmds[0]), cmds[1..], p, o);
    }
  }
}

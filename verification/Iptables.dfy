/** One iptables table as the kernel keeps it: named chains holding ordered rules,
    changed only by the commands -N, -F, -X, -A, -I, -D and -C. */
module Iptables {

  /** Chain names. The constructors with arguments are the per-service names
      RAIND-SVC-<id>-<port>, RAIND-FWD-<id> and RAIND-SNAT-<id>. */
  datatype Chain =
    | Forward
    | Prerouting
    | Output
    | Postrouting
    | RaindRoot
    | RaindEW
    | RaindNsObs
    | RaindNsEnf
    | SvcChain(svc: string, port: int)
    | FwdChain(svc: string)
    | SnatChain(svc: string)
    | OtherChain(name: string)

  predicate BuiltIn(c: Chain) {
    c.Forward? || c.Prerouting? || c.Output? || c.Postrouting?
  }

  datatype Target =
    | Accept
    | Drop
    | Return
    | Nflog
    | Masquerade
    | Dnat(addr: string, toPort: int)
    | Jump(chain: Chain)

  datatype Rule<M> = Rule(match_: M, target: Target)

  type Chains<M> = map<Chain, seq<Rule<M>>>

  /** Some rule of some chain jumps to c. */
  ghost predicate Referenced<M>(chains: Chains<M>, c: Chain) {
    exists d, i :: d in chains && 0 <= i < |chains[d]| && chains[d][i].target == Jump(c)
  }

  /** -A and -I refuse a missing chain and a jump to a missing chain. */
  predicate Installable<M>(chains: Chains<M>, c: Chain, r: Rule<M>) {
    c in chains && (r.target.Jump? ==> r.target.chain in chains)
  }

  /** The list without the first occurrence of x; -D removes no more than that. */
  function RemoveFirst<T(==)>(s: seq<T>, x: T): seq<T> {
    if s == [] then []
    else if s[0] == x then s[1..]
    else [s[0]] + RemoveFirst(s[1..], x)
  }

  class Table<M(==)> {
    var chains: Chains<M>

    constructor (initial: Chains<M>)
      ensures chains == initial
    {
      chains := initial;
    }

    /** iptables -N */
    method NewChain(c: Chain) returns (ok: bool)
      modifies this
      ensures ok == (c !in old(chains))
      ensures chains == if ok then old(chains)[c := []] else old(chains)
    {
      ok := c !in chains;
      if ok {
        chains := chains[c := []];
      }
    }

    /** iptables -F */
    method Flush(c: Chain) returns (ok: bool)
      modifies this
      ensures ok == (c in old(chains))
      ensures chains == if ok then old(chains)[c := []] else old(chains)
    {
      ok := c in chains;
      if ok {
        chains := chains[c := []];
      }
    }

    /** iptables -X: only an empty, unreferenced, user-defined chain goes away. */
    method DeleteChain(c: Chain) returns (ok: bool)
      modifies this
      ensures ok <==> (c in old(chains) && !BuiltIn(c) && old(chains)[c] == [] && !Referenced(old(chains), c))
      ensures chains == if ok then old(chains) - {c} else old(chains)
    {
      if c !in chains || BuiltIn(c) || chains[c] != [] {
        return false;
      }
      var keys := chains.Keys;
      while keys != {}
        invariant keys <= chains.Keys && chains == old(chains)
        invariant forall d, i :: d in chains && d !in keys && 0 <= i < |chains[d]| ==> chains[d][i].target != Jump(c)
        decreases keys
      {
        var d :| d in keys;
        var i := 0;
        while i < |chains[d]|
          invariant 0 <= i <= |chains[d]| && chains == old(chains)
          invariant forall k :: 0 <= k < i ==> chains[d][k].target != Jump(c)
        {
          if chains[d][i].target == Jump(c) {
            return false;
          }
          i := i + 1;
        }
        keys := keys - {d};
      }
      chains := chains - {c};
      return true;
    }

    /** iptables -L: succeeds when the chain exists. */
    method Exists(c: Chain) returns (ok: bool)
      ensures ok == (c in chains)
    {
      ok := c in chains;
    }

    /** iptables -C */
    method Check(c: Chain, r: Rule<M>) returns (ok: bool)
      ensures ok == (c in chains && r in chains[c])
    {
      ok := c in chains && r in chains[c];
    }

    /** iptables -A */
    method Append(c: Chain, r: Rule<M>) returns (ok: bool)
      modifies this
      ensures ok == Installable(old(chains), c, r)
      ensures chains == if ok then old(chains)[c := old(chains)[c] + [r]] else old(chains)
    {
      ok := Installable(chains, c, r);
      if ok {
        chains := chains[c := chains[c] + [r]];
      }
    }

    /** iptables -I c 1 */
    method InsertHead(c: Chain, r: Rule<M>) returns (ok: bool)
      modifies this
      ensures ok == Installable(old(chains), c, r)
      ensures chains == if ok then old(chains)[c := [r] + old(chains)[c]] else old(chains)
    {
      ok := Installable(chains, c, r);
      if ok {
        chains := chains[c := [r] + chains[c]];
      }
    }

    /** iptables -D with a rule specification */
    method DeleteRule(c: Chain, r: Rule<M>) returns (ok: bool)
      modifies this
      ensures ok == (c in old(chains) && r in old(chains)[c])
      ensures chains == if ok then old(chains)[c := RemoveFirst(old(chains)[c], r)] else old(chains)
    {
      ok := c in chains && r in chains[c];
      if ok {
        chains := chains[c := RemoveFirst(chains[c], r)];
      }
    }
  }
}

/** Lists compared as multisets. */
module Lists {

  ghost predicate NoDup<T>(s: seq<T>) {
    forall i, j :: 0 <= i < j < |s| ==> s[i] != s[j]
  }

  function Mapped<T, U>(f: T -> U, s: seq<T>): seq<U> {
    seq(|s|, i requires 0 <= i < |s| => f(s[i]))
  }

  lemma {:induction false} CountInNoDup<T>(s: seq<T>, x: T)
    requires NoDup(s)
    ensures multiset(s)[x] == if x in s then 1 else 0
    decreases |s|
  {
    if s != [] {
      assert s == [s[0]] + s[1..];
      CountInNoDup(s[1..], x);
    }
  }

  lemma SameElements<T>(a: seq<T>, b: seq<T>)
    requires NoDup(a) && NoDup(b) && forall x :: x in a <==> x in b
    ensures multiset(a) == multiset(b)
  {
    forall x
      ensures multiset(a)[x] == multiset(b)[x]
    {
      CountInNoDup(a, x);
      CountInNoDup(b, x);
    }
  }

  lemma {:induction false} MappedMultiset<T, U>(f: T -> U, a: seq<T>, b: seq<T>)
    requires multiset(a) == multiset(b)
    ensures multiset(Mapped(f, a)) == multiset(Mapped(f, b))
    decreases |a|
  {
    if a == [] {
      assert |multiset(b)| == 0;
    } else {
      hide Mapped;
      var i := PickSame(a, b);
      var rest := b[..i] + b[i + 1..];
      MappedMultiset(f, a[1..], rest);
      MappedPick(f, b, i);
      MappedFirst(f, a);
    }
  }

  lemma PickSame<T>(a: seq<T>, b: seq<T>) returns (i: nat)
    requires multiset(a) == multiset(b) && a != []
    ensures i < |b| && b[i] == a[0] && multiset(a[1..]) == multiset(b[..i] + b[i + 1..])
  {
    assert a[0] in multiset(b);
    i :| 0 <= i < |b| && b[i] == a[0];
    assert multiset(a) == multiset(a[1..]) + multiset{a[0]} by {
      assert a == [a[0]] + a[1..];
    }
    TakeOut(b, i);
    Cancel(multiset(a[1..]), multiset(b[..i] + b[i + 1..]), a[0]);
  }

  lemma Cancel<T>(x: multiset<T>, y: multiset<T>, e: T)
    requires x + multiset{e} == y + multiset{e}
    ensures x == y
  {
    assert x == (x + multiset{e}) - multiset{e};
    assert y == (y + multiset{e}) - multiset{e};
  }

  lemma TakeOut<T>(s: seq<T>, i: nat)
    requires i < |s|
    ensures multiset(s) == multiset(s[..i] + s[i + 1..]) + multiset{s[i]}
  {
    assert s == s[..i] + ([s[i]] + s[i + 1..]);
  }

  lemma MappedPick<T, U>(f: T -> U, s: seq<T>, i: nat)
    requires i < |s|
    ensures multiset(Mapped(f, s)) == multiset{f(s[i])} + multiset(Mapped(f, s[..i] + s[i + 1..]))
  {
    var ks := Mapped(f, s);
    assert Mapped(f, s[..i] + s[i + 1..]) == ks[..i] + ks[i + 1..];
    assert ks == ks[..i] + [ks[i]] + ks[i + 1..];
  }

  lemma MappedFirst<T, U>(f: T -> U, s: seq<T>)
    requires s != []
    ensures multiset(Mapped(f, s)) == multiset{f(s[0])} + multiset(Mapped(f, s[1..]))
  {
    assert Mapped(f, s) == [f(s[0])] + Mapped(f, s[1..]);
  }

  /** An injective f loses nothing. */
  lemma {:induction false} MappedInjective<T, U>(f: T -> U, a: seq<T>, b: seq<T>)
    requires multiset(Mapped(f, a)) == multiset(Mapped(f, b))
    requires forall x, y :: x in a && y in b && f(x) == f(y) ==> x == y
    ensures multiset(a) == multiset(b)
    decreases |a|
  {
    if a == [] {
      assert |multiset(Mapped(f, b))| == 0 && |b| == |Mapped(f, b)|;
    } else {
      var fa, fb := Mapped(f, a), Mapped(f, b);
      var i := PickSame(fa, fb);
      assert a[0] in a && b[i] in b && fa[0] == f(a[0]) && fb[i] == f(b[i]);
      var rest := b[..i] + b[i + 1..];
      assert fa[1..] == Mapped(f, a[1..]) && fb[..i] + fb[i + 1..] == Mapped(f, rest);
      assert multiset(a[1..]) == multiset(rest) by {
        assert forall y :: y in rest ==> y in b;
        MappedInjective(f, a[1..], rest);
      }
      assert a == [a[0]] + a[1..];
      TakeOut(b, i);
    }
  }

  /** The lists f gives for the elements of s, one after the other. */
  function Gather<T, U>(f: T -> seq<U>, s: seq<T>): seq<U> {
    if s == [] then [] else f(s[0]) + Gather(f, s[1..])
  }

  lemma {:induction false} GatherConcat<T, U>(f: T -> seq<U>, a: seq<T>, b: seq<T>)
    ensures Gather(f, a + b) == Gather(f, a) + Gather(f, b)
    decreases |a|
  {
    if a == [] {
      assert a + b == b;
    } else {
      assert (a + b)[1..] == a[1..] + b;
      GatherConcat(f, a[1..], b);
    }
  }

  lemma {:induction false} GatherSnoc<T, U>(f: T -> seq<U>, s: seq<T>, x: T)
    ensures Gather(f, s + [x]) == Gather(f, s) + f(x)
  {
    GatherConcat(f, s, [x]);
    assert [x][1..] == [];
  }

  lemma MiddleMultiset<U>(a: seq<U>, b: seq<U>, c: seq<U>)
    ensures multiset(a + b + c) == multiset(b) + multiset(a + c)
  {
  }

  lemma {:induction false} GatherPick<T, U>(f: T -> seq<U>, s: seq<T>, i: nat)
    requires i < |s|
    ensures multiset(Gather(f, s)) == multiset(f(s[i])) + multiset(Gather(f, s[..i] + s[i + 1..]))
  {
    hide Gather;
    var before, after := s[..i], s[i + 1..];
    assert s == before + [s[i]] + after;
    GatherSnoc(f, before, s[i]);
    GatherConcat(f, before + [s[i]], after);
    GatherConcat(f, before, after);
    MiddleMultiset(Gather(f, before), f(s[i]), Gather(f, after));
  }

  /** The order of the elements changes the order of the gathered list, not its content. */
  lemma {:induction false} GatherMultiset<T, U>(f: T -> seq<U>, a: seq<T>, b: seq<T>)
    requires multiset(a) == multiset(b)
    ensures multiset(Gather(f, a)) == multiset(Gather(f, b))
    decreases |a|
  {
    if a == [] {
      assert |multiset(b)| == 0;
    } else {
      var i := PickSame(a, b);
      GatherMultiset(f, a[1..], b[..i] + b[i + 1..]);
      GatherPick(f, a, 0);
      GatherPick(f, b, i);
      assert a[..0] + a[1..] == a[1..];
    }
  }

  lemma {:induction false} GatherSame<T, U>(f: T -> seq<U>, g: T -> seq<U>, a: seq<T>, b: seq<T>)
    requires |a| == |b| && forall i :: 0 <= i < |a| ==> f(a[i]) == g(b[i])
    ensures Gather(f, a) == Gather(g, b)
    decreases |a|
  {
    if a != [] {
      forall i | 0 <= i < |a| - 1
        ensures f(a[1..][i]) == g(b[1..][i])
      {
        assert a[1..][i] == a[i + 1] && b[1..][i] == b[i + 1];
      }
      GatherSame(f, g, a[1..], b[1..]);
    }
  }

  lemma {:induction false} GatherHas<T, U>(f: T -> seq<U>, s: seq<T>, x: T, y: U)
    requires x in s && y in f(x)
    ensures y in Gather(f, s)
    decreases |s|
  {
    if x != s[0] {
      GatherHas(f, s[1..], x, y);
    }
  }

  lemma {:induction false} GatherElements<T, U>(f: T -> seq<U>, s: seq<T>, y: U) returns (i: nat)
    requires y in Gather(f, s)
    ensures i < |s| && y in f(s[i])
    decreases |s|
  {
    if y in f(s[0]) {
      i := 0;
    } else {
      i := GatherElements(f, s[1..], y);
      i := i + 1;
    }
  }
}

/** Text helpers the source takes from Go's library: decimal numbers, joined fields, lower case,
    and lists sorted by a text key. */
module Text {

  // ---- decimal numbers ------------------------------------------------------------------

  function Digit(d: nat): char
    requires d < 10
  {
    ['0', '1', '2', '3', '4', '5', '6', '7', '8', '9'][d]
  }

  function Digits(n: nat): (s: string)
    ensures s != [] && forall c :: c in s ==> '0' <= c <= '9'
  {
    if n < 10 then [Digit(n)] else Digits(n / 10) + [Digit(n % 10)]
  }

  function Itoa(n: int): string {
    if n < 0 then "-" + Digits(-n) else Digits(n)
  }

  lemma {:induction false} DigitsInjective(m: nat, n: nat)
    requires Digits(m) == Digits(n)
    ensures m == n
  {
    var s, t := Digits(m), Digits(n);
    assert s[|s| - 1] == t[|t| - 1];
    if m >= 10 && n >= 10 {
      assert Digits(m / 10) == s[..|s| - 1] == t[..|t| - 1] == Digits(n / 10);
      DigitsInjective(m / 10, n / 10);
    }
  }

  lemma ItoaSign(m: int)
    ensures (m < 0) == ('-' in Itoa(m))
  {
    assert m < 0 ==> Itoa(m)[0] == '-';
  }

  lemma ItoaInjective(m: int, n: int)
    requires Itoa(m) == Itoa(n)
    ensures m == n
  {
    ItoaSign(m);
    ItoaSign(n);
    if m < 0 && n < 0 {
      assert Digits(-m) == Itoa(m)[1..] == Itoa(n)[1..] == Digits(-n);
      DigitsInjective(-m, -n);
    } else if m >= 0 && n >= 0 {
      DigitsInjective(m, n);
    }
  }

  // ---- joined fields --------------------------------------------------------------------

  function Join(fields: seq<string>, sep: char): string {
    if |fields| == 0 then ""
    else if |fields| == 1 then fields[0]
    else fields[0] + [sep] + Join(fields[1..], sep)
  }

  ghost predicate Without(fields: seq<string>, sep: char) {
    forall f :: f in fields ==> sep !in f
  }

  /** Text before the first separator, and after it. */
  lemma SplitFirst(a: string, b: string, a': string, b': string, sep: char)
    requires sep !in a && sep !in a' && a + [sep] + b == a' + [sep] + b'
    ensures a == a' && b == b'
  {
    var s := a + [sep] + b;
    assert s[|a|] == sep && s[|a'|] == sep;
    assert |a| == |a'| by {
      assert forall i :: 0 <= i < |a| ==> s[i] == a[i];
      assert forall i :: 0 <= i < |a'| ==> s[i] == a'[i];
    }
    assert a == s[..|a|] == a';
    assert b == s[|a| + 1..] == b';
  }

  lemma {:induction false} JoinSeparator(a: seq<string>, sep: char)
    requires Without(a, sep)
    ensures sep in Join(a, sep) <==> |a| > 1
  {
    if |a| > 1 {
      assert Join(a, sep)[|a[0]|] == sep;
    } else if |a| == 1 {
      assert a[0] in a;
    }
  }

  /** Fields free of the separator can be read back from their join. */
  lemma {:induction false} JoinInjective(a: seq<string>, b: seq<string>, sep: char)
    requires (a == [] <==> b == []) && Without(a, sep) && Without(b, sep)
    requires Join(a, sep) == Join(b, sep)
    ensures a == b
    decreases |a|
  {
    JoinSeparator(a, sep);
    JoinSeparator(b, sep);
    if |a| > 1 {
      assert a[0] in a && b[0] in b;
      SplitFirst(a[0], Join(a[1..], sep), b[0], Join(b[1..], sep), sep);
      assert forall f :: f in a[1..] ==> f in a;
      assert forall f :: f in b[1..] ==> f in b;
      JoinInjective(a[1..], b[1..], sep);
      assert a == [a[0]] + a[1..] && b == [b[0]] + b[1..];
    }
  }

  // ---- lower case -----------------------------------------------------------------------

  function LowerChar(c: char): char {
    if 'A' <= c <= 'Z' then c - 'A' + 'a' else c
  }

  function ToLower(s: string): string {
    seq(|s|, i requires 0 <= i < |s| => LowerChar(s[i]))
  }

  lemma ToLowerTwice(s: string)
    ensures ToLower(ToLower(s)) == ToLower(s)
  {
  }

  // ---- sorting by key -------------------------------------------------------------------

  predicate StrLe(a: string, b: string) {
    if a == "" then true
    else if b == "" then false
    else if a[0] != b[0] then a[0] < b[0]
    else StrLe(a[1..], b[1..])
  }

  lemma {:induction false} StrLeTotal(a: string, b: string)
    ensures StrLe(a, b) || StrLe(b, a)
    ensures StrLe(a, b) && StrLe(b, a) ==> a == b
    decreases |a|
  {
    if a != "" && b != "" && a[0] == b[0] {
      StrLeTotal(a[1..], b[1..]);
      assert a == [a[0]] + a[1..] && b == [b[0]] + b[1..];
    }
  }

  lemma {:induction false} StrLeTransitive(a: string, b: string, c: string)
    requires StrLe(a, b) && StrLe(b, c)
    ensures StrLe(a, c)
    decreases |a|
  {
    if a != "" && b != "" && c != "" && a[0] == b[0] == c[0] {
      StrLeTransitive(a[1..], b[1..], c[1..]);
    }
  }

  function InsertKey(x: string, s: seq<string>): seq<string> {
    if s == [] || StrLe(x, s[0]) then [x] + s else [s[0]] + InsertKey(x, s[1..])
  }

  function SortKeys(s: seq<string>): seq<string> {
    if s == [] then [] else InsertKey(s[0], SortKeys(s[1..]))
  }

  lemma {:induction false} InsertKeyElements(x: string, s: seq<string>)
    ensures multiset(InsertKey(x, s)) == multiset{x} + multiset(s)
    decreases |s|
  {
    if s == [] || StrLe(x, s[0]) {
      assert multiset([x] + s) == multiset{x} + multiset(s);
    } else {
      InsertKeyElements(x, s[1..]);
      assert s == [s[0]] + s[1..];
    }
  }

  lemma {:induction false} SortKeysElements(s: seq<string>)
    ensures multiset(SortKeys(s)) == multiset(s)
    decreases |s|
  {
    if s != [] {
      SortKeysElements(s[1..]);
      InsertKeyElements(s[0], SortKeys(s[1..]));
      assert s == [s[0]] + s[1..];
    }
  }

  lemma {:induction false} InsertKeyCommutes(x: string, y: string, s: seq<string>)
    ensures InsertKey(x, InsertKey(y, s)) == InsertKey(y, InsertKey(x, s))
    decreases |s|
  {
    StrLeTotal(x, y);
    if s == [] {
    } else {
      var h := s[0];
      StrLeTotal(x, h);
      StrLeTotal(y, h);
      if StrLe(x, h) && !StrLe(y, h) {
        if StrLe(y, x) { StrLeTransitive(y, x, h); }
        assert ([x] + s)[1..] == s;
      } else if StrLe(y, h) && !StrLe(x, h) {
        if StrLe(x, y) { StrLeTransitive(x, y, h); }
        assert ([y] + s)[1..] == s;
      } else if StrLe(x, h) && StrLe(y, h) {
        assert ([x] + s)[1..] == s && ([y] + s)[1..] == s;
        assert InsertKey(x, s) == [x] + s && InsertKey(y, s) == [y] + s;
      } else {
        InsertKeyCommutes(x, y, s[1..]);
        assert ([h] + InsertKey(x, s[1..]))[1..] == InsertKey(x, s[1..]);
        assert ([h] + InsertKey(y, s[1..]))[1..] == InsertKey(y, s[1..]);
      }
    }
  }

  /** Any element can be taken out first: the sorted list does not depend on the order of arrival. */
  lemma {:induction false} SortKeysPick(s: seq<string>, i: nat)
    requires i < |s|
    ensures SortKeys(s) == InsertKey(s[i], SortKeys(s[..i] + s[i + 1..]))
    decreases |s|
  {
    var rest := s[..i] + s[i + 1..];
    if i == 0 {
      assert rest == s[1..];
    } else {
      SortKeysPick(s[1..], i - 1);
      assert s[1..][..i - 1] + s[1..][i..] == rest[1..];
      InsertKeyCommutes(s[0], s[i], SortKeys(rest[1..]));
    }
  }

  lemma {:induction false} SameElementsSameSort(a: seq<string>, b: seq<string>)
    requires multiset(a) == multiset(b)
    ensures SortKeys(a) == SortKeys(b)
    decreases |a|
  {
    if a == [] {
      assert |multiset(b)| == 0;
    } else {
      var i := Position(b, a[0], a);
      var rest := b[..i] + b[i + 1..];
      assert b == b[..i] + [b[i]] + b[i + 1..];
      assert a == [a[0]] + a[1..];
      assert multiset(a[1..]) == multiset(a) - multiset{a[0]};
      assert multiset(rest) == multiset(b) - multiset{b[i]};
      SameElementsSameSort(a[1..], rest);
      SortKeysPick(b, i);
    }
  }

  lemma Position(b: seq<string>, x: string, a: seq<string>) returns (i: nat)
    requires multiset(a) == multiset(b) && x in a
    ensures i < |b| && b[i] == x
  {
    assert x in multiset(b);
    i :| i < |b| && b[i] == x;
  }

  /** Sorting decides equality of multisets. */
  lemma {:induction false} SortKeysCanonical(a: seq<string>, b: seq<string>)
    ensures SortKeys(a) == SortKeys(b) <==> multiset(a) == multiset(b)
  {
    SortKeysElements(a);
    SortKeysElements(b);
    if multiset(a) == multiset(b) {
      SameElementsSameSort(a, b);
    }
  }

  predicate Sorted(s: seq<string>) {
    forall i :: 0 < i < |s| ==> StrLe(s[i - 1], s[i])
  }

  lemma {:induction false} SortedSortsToItself(s: seq<string>)
    requires Sorted(s)
    ensures SortKeys(s) == s
    decreases |s|
  {
    if s != [] {
      var t := s[1..];
      forall i | 0 < i < |t|
        ensures StrLe(t[i - 1], t[i])
      {
        assert t[i - 1] == s[i] && t[i] == s[i + 1];
      }
      SortedSortsToItself(t);
      assert t != [] ==> StrLe(s[0], t[0]) by {
        if t != [] { assert t[0] == s[1]; }
      }
      assert s == [s[0]] + t;
    }
  }
}

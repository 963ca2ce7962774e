/** Text as Go's strings package sees it: trimming, searching, lines with their terminators. */
module ConfigText {

  function NL(n: nat): string {
    seq(n, _ => '\n')
  }

  function TrimRightNL(s: string): (t: string)
    ensures |t| <= |s|
  {
    if s != "" && s[|s| - 1] == '\n' then TrimRightNL(s[..|s| - 1]) else s
  }

  function TrimLeftNL(s: string): string {
    if s != "" && s[0] == '\n' then TrimLeftNL(s[1..]) else s
  }

  /** strings.Index */
  function IndexOf(s: string, sub: string): (i: int)
    ensures -1 <= i && (i >= 0 ==> i + |sub| <= |s| && s[i..i + |sub|] == sub)
  {
    if |s| < |sub| then -1
    else if sub <= s then 0
    else
      var r := IndexOf(s[1..], sub);
      assert r >= 0 ==> s[r + 1..r + 1 + |sub|] == s[1..][r..r + |sub|];
      if r == -1 then -1 else r + 1
  }

  predicate Contains(s: string, sub: string) {
    IndexOf(s, sub) >= 0
  }

  // ---- spaces --------------------------------------------------------------------------------

  predicate IsSpace(c: char) {
    c in {'\t', '\n', 11 as char, 12 as char, '\r', ' ', 0x85 as char, 0xA0 as char}
  }

  function TrimRightSpace(s: string): string {
    if s != "" && IsSpace(s[|s| - 1]) then TrimRightSpace(s[..|s| - 1]) else s
  }

  function TrimLeftSpace(s: string): string {
    if s != "" && IsSpace(s[0]) then TrimLeftSpace(s[1..]) else s
  }

  function TrimSpace(s: string): string {
    TrimLeftSpace(TrimRightSpace(s))
  }

  /** A line and its text without the terminator trim to the same. */
  lemma TrimTerminated(s: string)
    ensures TrimSpace(s + "\n") == TrimSpace(s)
  {
    assert (s + "\n")[..|s + "\n"| - 1] == s;
  }

  // ---- lines ---------------------------------------------------------------------------------

  /** strings.SplitAfter(s, "\n") without empty parts. */
  function Lines(s: string): seq<string> {
    if s == "" then []
    else
      var n := IndexOf(s, "\n");
      if n == -1 then [s] else [s[..n + 1]] + Lines(s[n + 1..])
  }

  // ---- searching -----------------------------------------------------------------------------

  lemma {:induction false} NotFound(s: string, sub: string, i: nat)
    requires !Contains(s, sub) && i + |sub| <= |s|
    ensures s[i..i + |sub|] != sub
    decreases i
  {
    if i > 0 {
      NotFound(s[1..], sub, i - 1);
      assert s[1..][i - 1..i - 1 + |sub|] == s[i..i + |sub|];
    }
  }

  /** What a part contains, the whole contains. */
  lemma PartContains(a: string, s: string, b: string, sub: string)
    requires !Contains(a + s + b, sub)
    ensures !Contains(s, sub)
  {
    var i := IndexOf(s, sub);
    if i >= 0 {
      var w := a + s + b;
      assert w[|a| + i..|a| + i + |sub|] == s[i..i + |sub|];
      NotFound(w, sub, |a| + i);
    }
  }

  /** A newline ends the text before a line, if there is any. */
  predicate LineStart(x: string) {
    x == "" || x[|x| - 1] == '\n'
  }

  lemma NoPrefixAcross(x: string, z: string, m: string)
    requires LineStart(x) && x != "" && '\n' !in m && !(m <= x)
    ensures !(m <= x + z)
  {
    if |m| <= |x| {
      assert (x + z)[..|m|] == x[..|m|] != m;
    } else {
      assert m[|x| - 1] != '\n' == (x + z)[|x| - 1];
    }
  }

  /** A marker that starts a line and is not in the text before is found there. */
  lemma {:induction false} FirstAt(x: string, m: string, y: string)
    requires LineStart(x) && '\n' !in m && !Contains(x, m)
    ensures IndexOf(x + m + y, m) == |x|
    decreases |x|
  {
    var w := x + m + y;
    if x == "" {
      assert w == m + y;
    } else {
      NoPrefixAcross(x, m + y, m);
      assert x + (m + y) == w;
      assert w[1..] == x[1..] + m + y;
      assert |x| >= |m| || !Contains(x[1..], m);
      FirstAt(x[1..], m, y);
    }
  }

  /** Text without the marker followed by whole lines without the marker. */
  lemma {:induction false} NoneAcross(x: string, z: string, m: string)
    requires LineStart(x) && '\n' !in m && !Contains(x, m) && !Contains(z, m)
    ensures !Contains(x + z, m)
    decreases |x|
  {
    if x == "" {
      assert x + z == z;
    } else {
      NoPrefixAcross(x, z, m);
      assert (x + z)[1..] == x[1..] + z;
      assert |x| >= |m| || !Contains(x[1..], m);
      NoneAcross(x[1..], z, m);
    }
  }

  lemma NoPrefixTerminated(s: string, g: nat, m: string)
    requires '\n' !in m && m != "" && !Contains(s, m)
    ensures !(m <= s + NL(g))
  {
    var w := s + NL(g);
    if |m| <= |s| {
      assert w[..|m|] == s[..|m|] != m;
    } else if |m| <= |w| {
      assert m[|s|] != '\n' == w[|s|];
    }
  }

  lemma {:induction false} NoneTerminated(s: string, g: nat, m: string)
    requires '\n' !in m && m != "" && !Contains(s, m)
    ensures !Contains(s + NL(g), m)
    decreases |s| + g
  {
    var w := s + NL(g);
    if w != "" {
      NoPrefixTerminated(s, g, m);
      if s == "" {
        assert w[1..] == s + NL(g - 1);
        NoneTerminated(s, g - 1, m);
      } else {
        assert w[1..] == s[1..] + NL(g);
        assert |s| >= |m| || !Contains(s[1..], m);
        NoneTerminated(s[1..], g, m);
      }
    }
  }
}

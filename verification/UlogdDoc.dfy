/** A configuration text as its nonempty lines and the newlines between them. Insertion points
    depend on the lines alone; inserting and removing a block change only the newlines around it. */
module UlogdDoc {
  import opened ConfigText
  import opened UlogdBlocks

  datatype Item = Item(s: string, gap: nat)

  datatype Doc = Doc(lead: nat, items: seq<Item>)

  function Full(items: seq<Item>): string {
    if items == [] then "" else items[0].s + NL(items[0].gap) + Full(items[1..])
  }

  function Render(d: Doc): string {
    NL(d.lead) + Full(d.items)
  }

  function Strings(items: seq<Item>): seq<string> {
    if items == [] then [] else [items[0].s] + Strings(items[1..])
  }

  ghost predicate WF(items: seq<Item>) {
    forall i :: 0 <= i < |items| ==> items[i].s != "" && '\n' !in items[i].s && (i < |items| - 1 ==> items[i].gap > 0)
  }

  /** The document with its trailing newlines set to x. */
  function Put(d: Doc, x: nat): Doc {
    if d.items == [] then Doc(x, [])
    else
      var n := |d.items| - 1;
      Doc(d.lead, d.items[..n] + [d.items[n].(gap := x)])
  }

  function Then(d: Doc, more: seq<Item>): Doc {
    Doc(d.lead, d.items + more)
  }

  function Tail(d: Doc): nat {
    if d.items == [] then d.lead else d.items[|d.items| - 1].gap
  }

  // ---- reading a text -----------------------------------------------------------------------------

  function Parse(text: string): Doc {
    if text == "" then Doc(0, [])
    else
      var d := Parse(text[1..]);
      if text[0] == '\n' then Doc(d.lead + 1, d.items)
      else if d.lead > 0 || d.items == [] then Doc(0, [Item([text[0]], d.lead)] + d.items)
      else Doc(0, [Item([text[0]] + d.items[0].s, d.items[0].gap)] + d.items[1..])
  }

  lemma {:induction false} ParseRenders(text: string)
    ensures Render(Parse(text)) == text && WF(Parse(text).items)
    decreases |text|
  {
    if text != "" {
      ParseRenders(text[1..]);
      var d := Parse(text[1..]);
      assert text == [text[0]] + text[1..];
      if text[0] == '\n' {
        assert NL(d.lead + 1) == ['\n'] + NL(d.lead);
        assert NL(d.lead + 1) + Full(d.items) == ['\n'] + (NL(d.lead) + Full(d.items));
      } else if d.lead > 0 || d.items == [] {
        NewLine(text[0], d);
      } else {
        LongerLine(text[0], d);
      }
    }
  }

  lemma NewLine(c: char, d: Doc)
    requires WF(d.items) && c != '\n' && (d.lead > 0 || d.items == [])
    ensures var r := Doc(0, [Item([c], d.lead)] + d.items); Render(r) == [c] + Render(d) && WF(r.items)
  {
    var it := Item([c], d.lead);
    assert ([it] + d.items)[1..] == d.items;
    assert Full([it] + d.items) == [c] + NL(d.lead) + Full(d.items);
    hide Full;
    assert NL(0) + Full([it] + d.items) == [c] + (NL(d.lead) + Full(d.items));
  }

  lemma LongerLine(c: char, d: Doc)
    requires WF(d.items) && c != '\n' && d.lead == 0 && d.items != []
    ensures var r := Doc(0, [Item([c] + d.items[0].s, d.items[0].gap)] + d.items[1..]); Render(r) == [c] + Render(d) && WF(r.items)
  {
    var first, rest := d.items[0], d.items[1..];
    var it := Item([c] + first.s, first.gap);
    assert ([it] + rest)[1..] == rest;
    assert Full([it] + rest) == [c] + first.s + NL(first.gap) + Full(rest);
    assert Full(d.items) == first.s + NL(first.gap) + Full(rest);
    hide Full;
    assert [c] + first.s + NL(first.gap) + Full(rest) == [c] + (first.s + NL(first.gap) + Full(rest));
    assert NL(0) + ([c] + (first.s + NL(first.gap) + Full(rest))) == [c] + (NL(0) + (first.s + NL(first.gap) + Full(rest)));
  }

  /** The nonempty lines of a text, in order. */
  function NonEmptyLines(text: string): seq<string> {
    Strings(Parse(text).items)
  }

  lemma {:induction false} ParseNewlines(n: nat, t: string)
    ensures Parse(NL(n) + t) == Doc(Parse(t).lead + n, Parse(t).items)
    decreases n
  {
    if n == 0 {
      assert NL(0) + t == t;
    } else {
      assert (NL(n) + t)[1..] == NL(n - 1) + t;
      ParseNewlines(n - 1, t);
    }
  }

  lemma {:induction false} ParseLine(s: string, t: string)
    requires s != "" && '\n' !in s && (t == "" || t[0] == '\n')
    ensures Parse(s + t) == Doc(0, [Item(s, Parse(t).lead)] + Parse(t).items)
    decreases |s|
  {
    assert s == [s[0]] + s[1..];
    if |s| == 1 {
      assert (s + t)[1..] == t && (s + t)[0] == s[0] && [s[0]] == s;
      assert t == "" || Parse(t).lead > 0;
      assert t == "" ==> Parse(t).items == [];
    } else {
      assert (s + t)[1..] == s[1..] + t;
      ParseLine(s[1..], t);
      var d := Parse(s[1..] + t);
      assert d.items[0].s == s[1..] && d.items[1..] == Parse(t).items;
    }
  }

  lemma {:induction false} RenderParses(items: seq<Item>)
    requires WF(items)
    ensures Parse(Full(items)) == Doc(0, items)
    decreases |items|
  {
    hide Parse, Full, NL, WF;
    if items == [] {
      NothingToParse();
    } else {
      var it, rest := items[0], items[1..];
      FirstItem(items);
      RenderParses(rest);
      ParseNewlines(it.gap, Full(rest));
      ParseLine(it.s, NL(it.gap) + Full(rest));
      assert items == [it] + rest;
    }
  }

  lemma NothingToParse()
    ensures Parse(Full([])) == Doc(0, [])
  {
  }

  lemma {:induction false} FirstItem(items: seq<Item>)
    requires WF(items) && items != []
    ensures var it, rest := items[0], items[1..];
            && WF(rest) && it.s != "" && '\n' !in it.s && Full(items) == it.s + (NL(it.gap) + Full(rest))
            && (NL(it.gap) + Full(rest) == "" || (NL(it.gap) + Full(rest))[0] == '\n')
  {
    var it, rest := items[0], items[1..];
    assert forall i :: 0 <= i < |rest| ==> rest[i] == items[i + 1];
    assert it.gap == 0 ==> rest == [];
    RunStart(it.gap);
    assert Full([]) == "" && Full(items) == it.s + NL(it.gap) + Full(rest);
    hide Full, NL;
    RegroupText(it.s, NL(it.gap), Full(rest));
  }

  lemma RunStart(n: nat)
    ensures |NL(n)| == n && (n > 0 ==> NL(n)[0] == '\n')
  {
  }

  lemma RegroupText(a: string, b: string, c: string)
    ensures a + b + c == a + (b + c)
  {
  }

  // ---- pieces ---------------------------------------------------------------------------------------

  lemma {:induction false} FullConcat(a: seq<Item>, b: seq<Item>)
    ensures Full(a + b) == Full(a) + Full(b)
    decreases |a|
  {
    if a == [] {
      assert a + b == b;
    } else {
      assert (a + b)[1..] == a[1..] + b;
      FullConcat(a[1..], b);
    }
  }

  lemma {:induction false} StringsConcat(a: seq<Item>, b: seq<Item>)
    ensures Strings(a + b) == Strings(a) + Strings(b)
    decreases |a|
  {
    if a == [] {
      assert a + b == b;
    } else {
      assert (a + b)[1..] == a[1..] + b;
      StringsConcat(a[1..], b);
    }
  }

  lemma {:induction false} StringsLength(a: seq<Item>)
    ensures |Strings(a)| == |a|
    ensures forall i :: 0 <= i < |a| ==> Strings(a)[i] == a[i].s
    decreases |a|
  {
    if a != [] {
      StringsLength(a[1..]);
    }
  }

  /** The trailing newlines, split off. */
  lemma PutText(d: Doc, x: nat)
    ensures Render(Put(d, x)) == Render(Put(d, 0)) + NL(x)
    ensures Put(d, Tail(d)) == d
  {
    if d.items != [] {
      var n := |d.items| - 1;
      var a, it := d.items[..n], d.items[n];
      FullConcat(a, [it.(gap := x)]);
      FullConcat(a, [it.(gap := 0)]);
      assert Full([it.(gap := x)]) == it.s + NL(x) by { assert [it.(gap := x)][1..] == []; assert Full([]) == ""; }
      assert Full([it.(gap := 0)]) == it.s by { assert [it.(gap := 0)][1..] == []; assert Full([]) == ""; }
      assert NL(d.lead) + (Full(a) + (it.s + NL(x))) == NL(d.lead) + (Full(a) + it.s) + NL(x);
      assert d.items == a + [it];
    }
  }

  lemma {:induction false} TrimRightRun(s: string, x: nat)
    requires s == "" || s[|s| - 1] != '\n'
    ensures TrimRightNL(s + NL(x)) == s
    decreases x
  {
    if x == 0 {
      assert s + NL(0) == s;
    } else {
      assert (s + NL(x))[..|s + NL(x)| - 1] == s + NL(x - 1);
      TrimRightRun(s, x - 1);
    }
  }

  lemma {:induction false} TrimLeftRun(x: nat, s: string)
    requires s == "" || s[0] != '\n'
    ensures TrimLeftNL(NL(x) + s) == s
    decreases x
  {
    if x == 0 {
      assert NL(0) + s == s;
    } else {
      assert (NL(x) + s)[1..] == NL(x - 1) + s;
      TrimLeftRun(x - 1, s);
    }
  }

  lemma TrimTail(d: Doc, x: nat)
    requires WF(d.items)
    ensures TrimRightNL(Render(Put(d, 0)) + NL(x)) == Render(Put(d, 0))
  {
    var s := Render(Put(d, 0));
    if d.items == [] {
      assert s == "";
    } else {
      var n := |d.items| - 1;
      var it := d.items[n];
      FullConcat(d.items[..n], [it.(gap := 0)]);
      assert Full([it.(gap := 0)]) == it.s by { assert [it.(gap := 0)][1..] == []; assert Full([]) == ""; }
      assert s[|s| - 1] == it.s[|it.s| - 1];
    }
    TrimRightRun(s, x);
  }

  lemma {:induction false} TrimHead(x: nat, items: seq<Item>)
    requires WF(items)
    ensures TrimLeftNL(NL(x) + Full(items)) == Full(items)
  {
    if items != [] {
      assert Full(items)[0] == items[0].s[0];
    }
    TrimLeftRun(x, Full(items));
  }

  // ---- cutting a text between two lines -----------------------------------------------------------------

  ghost predicate CutsAt(d: Doc, idx: int, k: int) {
    && 0 <= k <= |d.items| && 0 <= idx <= |Render(d)|
    && exists x, y: nat :: Render(d)[..idx] == Render(Put(Doc(d.lead, d.items[..k]), 0)) + NL(x)
                        && Render(d)[idx..] == NL(y) + Full(d.items[k..])
  }

  /** The document with a block put between line k - 1 and line k. */
  function Ins(d: Doc, k: nat, block: seq<Item>): Doc
    requires k <= |d.items|
  {
    Then(Put(Then(Put(Doc(d.lead, d.items[..k]), 2), block), 2), d.items[k..])
  }

  lemma WFPart(items: seq<Item>, k: nat)
    requires WF(items) && k <= |items|
    ensures WF(items[..k]) && WF(items[k..])
  {
    assert forall i :: 0 <= i < |items| - k ==> items[k..][i] == items[i + k];
  }

  lemma {:induction false} ThenText(d: Doc, more: seq<Item>)
    ensures Render(Then(d, more)) == Render(d) + Full(more)
  {
    FullConcat(d.items, more);
    assert NL(d.lead) + (Full(d.items) + Full(more)) == NL(d.lead) + Full(d.items) + Full(more);
  }

  lemma {:induction false} InsText(d: Doc, k: nat, block: seq<Item>)
    requires k <= |d.items| && block != [] && block[|block| - 1].gap == 0
    ensures Render(Ins(d, k, block)) ==
            Render(Put(Doc(d.lead, d.items[..k]), 0)) + "\n\n" + Full(block) + "\n\n" + Full(d.items[k..])
  {
    var pre, suf := Doc(d.lead, d.items[..k]), d.items[k..];
    var mid := Then(Put(pre, 2), block);
    PutText(pre, 2);
    assert NL(2) == "\n\n";
    ThenText(Put(pre, 2), block);
    assert Tail(mid) == 0 by { assert mid.items[|mid.items| - 1] == block[|block| - 1]; }
    PutText(mid, 0);
    PutText(mid, 2);
    ThenText(Put(mid, 2), suf);
  }

  /** Inserting at a cut. */
  lemma {:induction false} InsertText(d: Doc, idx: int, k: int, block: seq<Item>)
    requires WF(d.items) && CutsAt(d, idx, k) && block != [] && block[|block| - 1].gap == 0
    ensures InsertBlockAt(Render(d), Full(block), idx) == Render(Ins(d, k, block))
  {
    var pre, suf := Doc(d.lead, d.items[..k]), d.items[k..];
    var x: nat, y: nat :| Render(d)[..idx] == Render(Put(pre, 0)) + NL(x) && Render(d)[idx..] == NL(y) + Full(suf);
    WFPart(d.items, k);
    TrimTail(pre, x);
    TrimHead(y, suf);
    InsText(d, k, block);
  }
}

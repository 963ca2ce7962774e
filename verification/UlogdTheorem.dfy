/** Startup is idempotent byte for byte, and removing the managed blocks gives the original lines back. */
module UlogdTheorem {
  import opened ConfigText
  import opened UlogdBlocks
  import opened UlogdDoc
  import opened UlogdPoints

  function SetLast(items: seq<Item>, x: nat): seq<Item> {
    if items == [] then []
    else items[..|items| - 1] + [items[|items| - 1].(gap := x)]
  }

  /** The newline a text without one gets at its end. */
  function Fin(items: seq<Item>): seq<Item> {
    if items != [] && items[|items| - 1].gap == 0 then SetLast(items, 1) else items
  }

  ghost predicate Lacks(items: seq<Item>, m: string) {
    forall i :: 0 <= i < |items| ==> !Contains(items[i].s, m)
  }

  /** A block: its markers are its first and last line, and its end marker is nowhere else in it. */
  ghost predicate Block(b: seq<Item>, begin: string, end: string) {
    && WF(b) && |b| >= 2 && b[|b| - 1].gap == 0
    && b[0].s == begin && b[|b| - 1].s == end && Lacks(b[..|b| - 1], end)
  }

  ghost predicate PluginBlockOk(p: seq<Item>) {
    Block(p, PLUGIN_BEGIN_MARKER, PLUGIN_END_MARKER)
  }

  ghost predicate NflogBlockOk(n: seq<Item>) {
    Block(n, BEGIN_MARKER, END_MARKER) && Lacks(n, PLUGIN_BEGIN_MARKER) && Lacks(n, PLUGIN_END_MARKER)
  }

  /** No line of the configuration contains a begin marker. */
  ghost predicate Unmarked(items: seq<Item>) {
    Lacks(items, PLUGIN_BEGIN_MARKER) && Lacks(items, BEGIN_MARKER)
  }

  // ---- algebra of pieces -----------------------------------------------------------------------------

  lemma PutThen(d: Doc, b: seq<Item>, x: nat)
    ensures Put(Then(d, b), x) == if b == [] then Put(d, x) else Then(d, SetLast(b, x))
  {
    if b == [] {
      assert d.items + b == d.items;
    } else {
      var all := d.items + b;
      assert all[..|all| - 1] == d.items + b[..|b| - 1];
    }
  }

  lemma SetLastConcat(a: seq<Item>, b: seq<Item>, x: nat)
    ensures SetLast(a + b, x) == if b == [] then SetLast(a, x) else a + SetLast(b, x)
  {
    if b == [] {
      assert a + b == a;
    } else {
      var all := a + b;
      assert all[..|all| - 1] == a + b[..|b| - 1];
    }
  }

  lemma SetLastTwice(a: seq<Item>, x: nat, y: nat)
    ensures SetLast(SetLast(a, x), y) == SetLast(a, y)
  {
  }

  lemma PutTwice(d: Doc, x: nat, y: nat)
    ensures Put(Put(d, x), y) == Put(d, y)
  {
  }

  lemma FinTwice(c: seq<Item>)
    ensures Fin(Fin(c)) == Fin(c)
  {
  }

  lemma ThenThen(d: Doc, a: seq<Item>, b: seq<Item>)
    ensures Then(Then(d, a), b) == Then(d, a + b)
  {
    assert d.items + a + b == d.items + (a + b);
  }

  /** Gaps do not show in the lines. */
  lemma {:induction false} StringsSetLast(a: seq<Item>, x: nat)
    ensures Strings(SetLast(a, x)) == Strings(a) && Strings(Fin(a)) == Strings(a)
  {
    StringsLength(a);
    StringsLength(SetLast(a, x));
    StringsLength(SetLast(a, 1));
    assert Strings(SetLast(a, x)) == Strings(a);
    assert Strings(SetLast(a, 1)) == Strings(a);
  }

  lemma StringsPut(d: Doc, x: nat)
    ensures Strings(Put(d, x).items) == Strings(d.items)
  {
    if d.items != [] {
      assert Put(d, x).items == SetLast(d.items, x);
      StringsSetLast(d.items, x);
    }
  }

  // ---- upserting a document ----------------------------------------------------------------------------

  function WithPlugin(d: Doc, p: seq<Item>): Doc {
    StringsLength(d.items);
    if p == [] then d else Ins(d, PluginK(Strings(d.items)), p)
  }

  function WithNflog(d: Doc, n: seq<Item>): Doc {
    StringsLength(d.items);
    Ins(d, NflogK(Strings(d.items)), n)
  }

  function Final(d: Doc): Doc {
    if Tail(d) == 0 then Put(d, 1) else d
  }

  function Ups(d: Doc, p: seq<Item>, n: seq<Item>): Doc {
    Final(WithNflog(WithPlugin(d, p), n))
  }

  /** Inserting a block between two pieces. */
  lemma InsPieces(pre: Doc, suf: seq<Item>, block: seq<Item>)
    requires block != []
    ensures Ins(Then(pre, suf), |pre.items|, block) == Then(Put(pre, 2), SetLast(block, 2) + suf)
  {
    var d := Then(pre, suf);
    assert d.items[..|pre.items|] == pre.items && d.items[|pre.items|..] == suf;
    PutThen(Put(pre, 2), block, 2);
    ThenThen(Put(pre, 2), SetLast(block, 2), suf);
  }

  lemma FinalThen(d: Doc, c: seq<Item>)
    requires Tail(d) > 0
    ensures Final(Then(d, c)) == Then(d, Fin(c))
  {
    if c == [] {
      assert d.items + c == d.items;
    } else {
      assert Tail(Then(d, c)) == c[|c| - 1].gap;
      PutThen(d, c, 1);
    }
  }

  lemma InsWF(d: Doc, k: nat, block: seq<Item>)
    requires WF(d.items) && WF(block) && block != [] && k <= |d.items|
    ensures WF(Ins(d, k, block).items) && Tail(Put(Then(Put(Doc(d.lead, d.items[..k]), 2), block), 2)) == 2
  {
    WFPart(d.items, k);
    var pre := Put(Doc(d.lead, d.items[..k]), 2);
    assert WF(pre.items);
    var mid := Put(Then(pre, block), 2);
    assert WF(mid.items) && forall i :: 0 <= i < |mid.items| ==> mid.items[i].gap > 0;
  }

  lemma FinalText(d: Doc)
    requires WF(d.items) && d.items != []
    ensures Render(Final(d)) == if Render(d) != "" && Render(d)[|Render(d)| - 1] == '\n' then Render(d) else Render(d) + "\n"
    ensures WF(Final(d).items)
  {
    var s, x := Render(Put(d, 0)), Tail(d);
    PutText(d, x);
    PutText(d, 1);
    OneNewline();
    TrimTail(d, 0);
    NLEnds(x);
    assert NL(0) == "";
    hide Render, Full, NL, TrimRightNL;
    assert s + "" == s;
    if x == 0 {
      TrimShorter(s);
    } else {
      assert s + NL(x) == Render(d) && Render(d)[|Render(d)| - 1] == NL(x)[|NL(x)| - 1];
    }
  }

  lemma NLEnds(n: nat)
    ensures |NL(n)| == n && (n > 0 ==> NL(n)[n - 1] == '\n')
  {
  }

  lemma {:induction false} TrimShorter(s: string)
    ensures s != "" && s[|s| - 1] == '\n' ==> |TrimRightNL(s)| < |s|
  {
  }

  /** upsertRaindConfig works on the lines and gaps of its text. */
  lemma {:induction false} UpsText(d: Doc, p: seq<Item>, n: seq<Item>)
    requires WF(d.items) && (p == [] || PluginBlockOk(p)) && NflogBlockOk(n)
    ensures Upserted(Render(d), Full(p), Full(n)) == Render(Ups(d, p, n)) && WF(Ups(d, p, n).items)
  {
    hide Full, Render, WithPlugin, WithNflog, WithPluginBlock, WithNflogBlock, PluginBlockOk, NflogBlockOk, WF, Final;
    PluginText(d, p);
    NflogText(WithPlugin(d, p), n);
    FinalText(WithNflog(WithPlugin(d, p), n));
  }

  lemma {:induction false} PluginText(d: Doc, p: seq<Item>)
    requires WF(d.items) && (p == [] || PluginBlockOk(p))
    ensures Render(WithPlugin(d, p)) == (if Full(p) != "" then WithPluginBlock(Render(d), Full(p)) else Render(d))
    ensures WF(WithPlugin(d, p).items)
  {
    StringsLength(d.items);
    if p != [] {
      assert Full(p)[0] == p[0].s[0];
      hide Full, Lines, PluginScan, PluginPlace, Render, Strings;
      PluginCut(d);
      InsWF(d, PluginK(Strings(d.items)), p);
      InsertPoint(d, PluginScan(Lines(Render(d)), 0, -1), PluginK(Strings(d.items)), p);
    }
  }

  lemma {:induction false} NflogText(d: Doc, n: seq<Item>)
    requires WF(d.items) && NflogBlockOk(n)
    ensures Render(WithNflog(d, n)) == WithNflogBlock(Render(d), Full(n))
    ensures WF(WithNflog(d, n).items) && WithNflog(d, n).items != []
  {
    StringsLength(d.items);
    hide Full, Lines, NflogPoint, NflogK, Render, Strings;
    NflogCut(d);
    InsWF(d, NflogK(Strings(d.items)), n);
    InsertPoint(d, NflogPoint(Render(d)), NflogK(Strings(d.items)), n);
  }

  lemma {:induction false} InsertPoint(d: Doc, point: int, k: int, block: seq<Item>)
    requires WF(d.items) && CutsAtPoint(d, point, k) && block != [] && block[|block| - 1].gap == 0
    ensures InsertBlockAt(Render(d), Full(block), point) == Render(Ins(d, k, block))
  {
    InsertText(d, if point < 0 || point > |Render(d)| then |Render(d)| else point, k, block);
  }

  // ---- removing a block from a document -------------------------------------------------------------------

  lemma {:induction false} LacksText(items: seq<Item>, m: string)
    requires WF(items) && Lacks(items, m) && m != "" && '\n' !in m
    ensures !Contains(Full(items), m)
    decreases |items|
  {
    if items != [] {
      WFPart(items, 1);
      assert Lacks(items[1..], m);
      LacksText(items[1..], m);
      NoneTerminated(items[0].s, items[0].gap, m);
      if items[0].gap == 0 {
        assert items[1..] == [];
        assert items[0].s + NL(0) + "" == items[0].s + NL(0);
      } else {
        NoneAcross(items[0].s + NL(items[0].gap), Full(items[1..]), m);
      }
    }
  }

  lemma LacksRender(d: Doc, m: string)
    requires WF(d.items) && Lacks(d.items, m) && m != "" && '\n' !in m
    ensures !Contains(Render(d), m)
  {
    LacksText(d.items, m);
    NoneTerminated("", d.lead, m);
    assert "" + NL(d.lead) == NL(d.lead);
    NoneAcross(NL(d.lead), Full(d.items), m);
  }

  lemma LineStartDoc(d: Doc)
    requires d.items == [] || Tail(d) > 0
    ensures LineStart(Render(d))
  {
    PutText(d, Tail(d));
  }

  /** A block standing between whole lines is removed with the newlines around it, down to one. */
  lemma RemoveText(a: Doc, b: seq<Item>, c: seq<Item>, begin: string, end: string)
    requires WF(a.items) && WF(b) && WF(c) && (a.items == [] || Tail(a) > 0)
    requires |b| >= 2 && b[0].s == begin && b[|b| - 1].s == end
    requires Lacks(a.items, begin) && Lacks(b[..|b| - 1], end)
    ensures RemoveMarkedBlock(Render(Then(a, b + c)), begin, end) == Render(Then(Put(a, 1), c))
  {
    var x, gap := Render(a), b[|b| - 1].gap;
    var f, y := Full(b[..|b| - 1]), NL(gap) + Full(c);
    var rest := NL(b[0].gap) + Full(b[..|b| - 1][1..]);
    assert f == begin + rest;
    BlockText(a, b, c);
    hide Full, Render, NL, IndexOf, TrimRightNL, TrimLeftNL, RemoveMarkedBlock, WF, Then, Put, Lacks;
    BeginsAt(a, begin, rest + end + y);
    EndsAt(b, y);
    CutMarked(x, begin, rest, end, y);
    KeptText(a, gap, c);
  }

  /** The end marker is first met at the last line of the block. */
  lemma EndsAt(b: seq<Item>, y: string)
    requires WF(b) && |b| >= 2 && Lacks(b[..|b| - 1], b[|b| - 1].s)
    ensures IndexOf(Full(b[..|b| - 1]) + b[|b| - 1].s + y, b[|b| - 1].s) == |Full(b[..|b| - 1])|
  {
    WFPart(b, |b| - 1);
    LacksText(b[..|b| - 1], b[|b| - 1].s);
    BlockHeadEnds(b);
    hide Full, IndexOf;
    FirstAt(Full(b[..|b| - 1]), b[|b| - 1].s, y);
  }

  /** What trimming both sides of the cut leaves. */
  lemma {:induction false} KeptText(a: Doc, gap: nat, c: seq<Item>)
    requires WF(a.items) && WF(c) && (a.items == [] || Tail(a) > 0)
    ensures TrimRightNL(Render(a)) + "\n" + TrimLeftNL(NL(gap) + Full(c)) == Render(Then(Put(a, 1), c))
  {
    PutText(a, Tail(a));
    TrimTail(a, Tail(a));
    TrimHead(gap, c);
    PutText(a, 1);
    OneNewline();
    ThenText(Put(a, 1), c);
  }

  lemma {:induction false} CutMarked(x: string, begin: string, rest: string, end: string, y: string)
    requires IndexOf(x + begin + (rest + end + y), begin) == |x|
    requires IndexOf(begin + rest + end + y, end) == |begin + rest|
    ensures RemoveMarkedBlock(x + (begin + rest + end + y), begin, end) == TrimRightNL(x) + "\n" + TrimLeftNL(y)
  {
    hide IndexOf, TrimRightNL, TrimLeftNL, RemoveMarkedBlock;
    Regrouped(x, begin, rest, end, y);
    var head := begin + rest + end;
    var text := x + (head + y);
    ThreeSlices(text, x, head, y);
    CutOut(text, x, head, y, begin, end);
  }

  lemma OneNewline()
    ensures NL(1) == "\n"
  {
  }

  lemma {:induction false} BlockText(a: Doc, b: seq<Item>, c: seq<Item>)
    requires b != []
    ensures Render(Then(a, b + c)) == Render(a) + (Full(b[..|b| - 1]) + b[|b| - 1].s + (NL(b[|b| - 1].gap) + Full(c)))
  {
    var last := b[|b| - 1];
    ThenText(a, b + c);
    FullConcat(b, c);
    assert b == b[..|b| - 1] + [last];
    FullConcat(b[..|b| - 1], [last]);
    assert Full([last]) == last.s + NL(last.gap) by { assert [last][1..] == []; assert Full([]) == ""; }
    Regroup(Full(b[..|b| - 1]), last.s, NL(last.gap), Full(c));
  }

  lemma Regroup(a: string, b: string, c: string, d: string)
    ensures a + (b + c) + d == a + b + (c + d)
  {
  }

  lemma Regrouped(x: string, begin: string, f: string, end: string, y: string)
    ensures x + begin + (f + end + y) == x + (begin + f + end + y)
  {
    var t := f + end + y;
    assert begin + f + end + y == begin + t;
  }

  lemma Slices(p: string, q: string)
    ensures (p + q)[..|p|] == p && (p + q)[|p|..] == q
  {
  }

  lemma DropDrop(t: string, a: nat, b: nat)
    requires a + b <= |t|
    ensures t[a..][b..] == t[a + b..]
  {
  }

  lemma ThreeSlices(text: string, x: string, head: string, y: string)
    requires text == x + (head + y)
    ensures text[..|x|] == x && text[|x|..] == head + y && text[|x| + |head|..] == y
  {
    Slices(x, head + y);
    Slices(head, y);
    DropDrop(text, |x|, |head|);
  }

  /** The text pieces RemoveMarkedBlock works on. */
  lemma {:induction false} CutOut(text: string, x: string, head: string, y: string, begin: string, end: string)
    requires |x| + |head| <= |text| && text[..|x|] == x && text[|x| + |head|..] == y && IndexOf(text, begin) == |x|
    requires IndexOf(text[|x|..], end) >= 0 && IndexOf(text[|x|..], end) + |end| == |head|
    ensures RemoveMarkedBlock(text, begin, end) == TrimRightNL(x) + "\n" + TrimLeftNL(y)
  {
    hide IndexOf, TrimRightNL, TrimLeftNL;
  }

  lemma {:induction false} BeginsAt(a: Doc, begin: string, rest: string)
    requires WF(a.items) && (a.items == [] || Tail(a) > 0) && Lacks(a.items, begin) && begin != "" && '\n' !in begin
    ensures IndexOf(Render(a) + begin + rest, begin) == |Render(a)|
  {
    LineStartDoc(a);
    LacksRender(a, begin);
    FirstAt(Render(a), begin, rest);
  }

  lemma BlockHeadEnds(b: seq<Item>)
    requires WF(b) && |b| >= 2
    ensures LineStart(Full(b[..|b| - 1]))
  {
    var h := Doc(0, b[..|b| - 1]);
    LineStartDoc(h);
    assert Render(h) == Full(h.items);
  }

  // ---- one startup, and what removing its blocks leaves ----------------------------------------------------

  lemma LacksConcat(a: seq<Item>, b: seq<Item>, m: string)
    requires Lacks(a, m) && Lacks(b, m)
    ensures Lacks(a + b, m)
  {
  }

  lemma LacksSetLast(a: seq<Item>, x: nat, m: string)
    requires Lacks(a, m)
    ensures Lacks(SetLast(a, x), m) && Lacks(Fin(a), m)
  {
  }

  lemma WFSetLast(a: seq<Item>, x: nat)
    requires WF(a)
    ensures WF(SetLast(a, x)) && WF(Fin(a))
  {
  }

  lemma WFConcat(a: seq<Item>, b: seq<Item>)
    requires WF(a) && WF(b) && (a == [] || a[|a| - 1].gap > 0)
    ensures WF(a + b)
  {
  }

  /** The lines before and after the blocks, with single newlines where the blocks were. */
  function Back(pre: Doc, b: seq<Item>, c: seq<Item>): Doc {
    Then(Put(pre, 1), SetLast(b, 1) + Fin(c))
  }

  /** What a startup does when its blocks go in at these two places. */
  ghost predicate Roundtrip(d: Doc, p: seq<Item>, n: seq<Item>) {
    exists back: Doc :: WF(back.items) && Strings(back.items) == Strings(d.items) && Ups(back, p, n) == Ups(d, p, n)
                     && RemoveManagedBlocks(Render(Ups(d, p, n))) == Render(back)
  }

  ghost predicate Setting(d: Doc, p: seq<Item>, n: seq<Item>) {
    WF(d.items) && Unmarked(d.items) && (p == [] || PluginBlockOk(p)) && NflogBlockOk(n)
  }

  lemma PutWF(pre: Doc, x: nat)
    requires WF(pre.items) && x > 0
    ensures WF(Put(pre, x).items) && Tail(Put(pre, x)) == x && |Put(pre, x).items| == |pre.items|
  {
  }

  lemma LacksPut(pre: Doc, x: nat, m: string)
    requires Lacks(pre.items, m)
    ensures Lacks(Put(pre, x).items, m)
  {
  }

  /** The NFLOG block stands on its own between pre and c: removing it. */
  lemma RemoveNflog(pre: Doc, n: seq<Item>, g: nat, c: seq<Item>)
    requires NflogBlockOk(n) && WF(pre.items) && Tail(pre) > 0 && g > 0 && WF(c) && Lacks(pre.items, BEGIN_MARKER)
    ensures RemoveMarkedBlock(Render(Then(pre, SetLast(n, g) + c)), BEGIN_MARKER, END_MARKER) == Render(Then(Put(pre, 1), c))
  {
    var b := SetLast(n, g);
    assert b[..|b| - 1] == n[..|n| - 1];
    WFSetLast(n, g);
    RemoveText(pre, b, c, BEGIN_MARKER, END_MARKER);
  }

  /** The plugin block, whatever stands inside it. */
  lemma RemovePlugin(pre: Doc, b: seq<Item>, c: seq<Item>)
    requires Removable(b) && WF(pre.items) && Tail(pre) > 0 && WF(c) && Lacks(pre.items, PLUGIN_BEGIN_MARKER)
    ensures RemoveMarkedBlock(Render(Then(pre, b + c)), PLUGIN_BEGIN_MARKER, PLUGIN_END_MARKER) == Render(Then(Put(pre, 1), c))
  {
    RemoveText(pre, b, c, PLUGIN_BEGIN_MARKER, PLUGIN_END_MARKER);
  }

  lemma NothingToRemove(d: Doc, begin: string, end: string)
    requires WF(d.items) && Lacks(d.items, begin) && begin != "" && '\n' !in begin
    ensures RemoveMarkedBlock(Render(d), begin, end) == Render(d)
  {
    LacksRender(d, begin);
  }

  lemma {:induction false} BackStrings(pre: Doc, b: seq<Item>, c: seq<Item>)
    ensures Strings(Back(pre, b, c).items) == Strings(pre.items + b + c)
  {
    hide SetLast, Strings, Put;
    StringsPut(pre, 1);
    StringsSetLast(b, 1);
    StringsSetLast(c, 1);
    StringsConcat(Put(pre, 1).items, SetLast(b, 1) + Fin(c));
    StringsConcat(SetLast(b, 1), Fin(c));
    StringsConcat(pre.items + b, c);
    StringsConcat(pre.items, b);
    Assoc3(Strings(pre.items), Strings(b), Strings(c));
  }

  lemma BackWF(pre: Doc, b: seq<Item>, c: seq<Item>)
    requires WF(pre.items + b + c)
    ensures WF(pre.items) && WF(b) && WF(c) && WF(Back(pre, b, c).items)
  {
    var all := pre.items + b + c;
    WFPart(all, |pre.items| + |b|);
    assert all[..|pre.items| + |b|] == pre.items + b && all[|pre.items| + |b|..] == c;
    WFPart(pre.items + b, |pre.items|);
    assert (pre.items + b)[..|pre.items|] == pre.items && (pre.items + b)[|pre.items|..] == b;
    PutWF(pre, 1);
    WFSetLast(b, 1);
    WFSetLast(c, 1);
    WFConcat(SetLast(b, 1), Fin(c));
    WFConcat(Put(pre, 1).items, SetLast(b, 1) + Fin(c));
  }

  // The three shapes of an upserted document. pre is what stands before, with its own gap replaced;
  // b stands between the two insertion points, c after both.

  /** Two documents that differ only in the newlines at the insertion points and the missing last one. */
  ghost predicate Variant(pre: Doc, b: seq<Item>, c: seq<Item>, pre': Doc, b': seq<Item>, c': seq<Item>) {
    && |pre'.items| == |pre.items| && |b'| == |b|
    && Put(pre', 2) == Put(pre, 2) && SetLast(b', 2) == SetLast(b, 2) && Fin(c') == Fin(c)
    && Strings(pre'.items + b' + c') == Strings(pre.items + b + c)
  }

  lemma BackIsVariant(pre: Doc, b: seq<Item>, c: seq<Item>)
    ensures Variant(pre, b, c, Put(pre, 1), SetLast(b, 1), Fin(c))
    ensures Back(pre, b, c) == Then(Then(Put(pre, 1), SetLast(b, 1)), Fin(c))
  {
    PutTwice(pre, 1, 2);
    SetLastTwice(b, 1, 2);
    FinTwice(c);
    BackStrings(pre, b, c);
    ThenThen(Put(pre, 1), SetLast(b, 1), Fin(c));
    var x, y, z := Put(pre, 1).items, SetLast(b, 1), Fin(c);
    assert x + (y + z) == x + y + z;
  }

  lemma {:induction false} PluginStep(pre: Doc, suf: seq<Item>, p: seq<Item>)
    requires p != [] && PluginK(Strings(pre.items + suf)) == |pre.items|
    ensures WithPlugin(Then(pre, suf), p) == Then(Put(pre, 2), SetLast(p, 2) + suf)
    ensures Strings(WithPlugin(Then(pre, suf), p).items) == Strings(pre.items) + Strings(p) + Strings(suf)
  {
    StringsLength(pre.items + suf);
    InsPieces(pre, suf, p);
    StringsPut(pre, 2);
    StringsSetLast(p, 2);
    StringsConcat(Put(pre, 2).items, SetLast(p, 2) + suf);
    StringsConcat(SetLast(p, 2), suf);
    assert Strings(pre.items) + (Strings(p) + Strings(suf)) == Strings(pre.items) + Strings(p) + Strings(suf);
  }

  lemma {:induction false} NflogStep(pre: Doc, suf: seq<Item>, n: seq<Item>)
    requires n != [] && NflogK(Strings(pre.items + suf)) == |pre.items|
    ensures WithNflog(Then(pre, suf), n) == Then(Put(pre, 2), SetLast(n, 2) + suf)
  {
    StringsLength(pre.items + suf);
    InsPieces(pre, suf, n);
  }

  /** The end of an upserted document. */
  lemma FinalStep(q: Doc, m: seq<Item>, c: seq<Item>)
    requires m != [] && m[|m| - 1].gap > 0
    ensures Final(Then(q, m + c)) == Then(q, m + Fin(c))
  {
    ThenThen(q, m, c);
    assert (q.items + m)[|q.items + m| - 1] == m[|m| - 1];
    FinalThen(Then(q, m), c);
    ThenThen(q, m, Fin(c));
  }

  /** Where b is empty, the newlines before the second block are those of pre. */
  function Head(pre: Doc, b: seq<Item>): Doc {
    if b == [] then Put(pre, 2) else pre
  }

  lemma Resplit(pre: Doc, b: seq<Item>, r: seq<Item>)
    ensures Then(Put(Then(pre, b), 2), r) == Then(Head(pre, b), SetLast(b, 2) + r)
    ensures Put(Head(pre, b), 2) == Put(pre, 2) && |Head(pre, b).items| == |pre.items|
  {
    PutThen(pre, b, 2);
    PutTwice(pre, 2, 2);
    if b == [] {
      assert [] + r == r;
    } else {
      ThenThen(pre, SetLast(b, 2), r);
    }
  }

  lemma NilMiddle(a: seq<Item>, c: seq<Item>)
    ensures a + [] + c == a + c
    ensures [] + c == c
  {
  }

  lemma Assoc3<T>(a: seq<T>, b: seq<T>, c: seq<T>)
    ensures a + (b + c) == a + b + c
  {
  }

  lemma Assoc4(a: seq<Item>, b: seq<Item>, c: seq<Item>, d: seq<Item>)
    ensures a + (b + (c + d)) == a + b + c + d
  {
    assert b + (c + d) == b + c + d;
  }

  /** The second block goes in behind q, with m standing between the insertion points. */
  lemma {:induction false} NflogBehind(q: Doc, m: seq<Item>, suf: seq<Item>, n: seq<Item>)
    requires m != [] && n != [] && NflogK(Strings(q.items + (m + suf))) == |q.items| + |m|
    ensures WithNflog(Then(q, m + suf), n) == Then(q, SetLast(m, 2) + (SetLast(n, 2) + suf))
  {
    ThenThen(q, m, suf);
    Assoc3(q.items, m, suf);
    hide NflogK, Strings, SetLast;
    NflogStep(Then(q, m), suf, n);
    PutThen(q, m, 2);
    ThenThen(q, SetLast(m, 2), SetLast(n, 2) + suf);
  }

  /** NFLOG block first, plugin block behind b. */
  lemma {:induction false} UpsBefore(pre: Doc, b: seq<Item>, c: seq<Item>, p: seq<Item>, n: seq<Item>)
    requires p != [] && n != []
    requires PluginK(Strings(pre.items + b + c)) == |pre.items| + |b|
    requires NflogK(Strings(pre.items + b) + Strings(p) + Strings(c)) == |pre.items|
    ensures Ups(Then(Then(pre, b), c), p, n)
         == Then(Put(pre, 2), SetLast(n, 2) + SetLast(b, 2) + SetLast(p, 2) + Fin(c))
  {
    var p2, n2, b2 := SetLast(p, 2), SetLast(n, 2), SetLast(b, 2);
    var m := n2 + b2 + p2;
    assert m[|m| - 1].gap == 2;
    PluginStep(Then(pre, b), c, p);
    hide SetLast;
    Resplit(pre, b, p2 + c);
    hide Put, Strings, PluginK, NflogK;
    NflogStep(Head(pre, b), b2 + (p2 + c), n);
    Assoc4(n2, b2, p2, c);
    FinalStep(Put(pre, 2), m, c);
  }

  /** Plugin block first, NFLOG block behind b. */
  lemma {:induction false} UpsAfter(pre: Doc, b: seq<Item>, c: seq<Item>, p: seq<Item>, n: seq<Item>)
    requires p != [] && n != []
    requires PluginK(Strings(pre.items + (b + c))) == |pre.items|
    requires NflogK(Strings(pre.items) + Strings(p) + Strings(b + c)) == |pre.items| + |p| + |b|
    ensures Ups(Then(pre, b + c), p, n)
         == Then(Put(pre, 2), SetLast(SetLast(p, 2) + b, 2) + SetLast(n, 2) + Fin(c))
  {
    var p2, n2 := SetLast(p, 2), SetLast(n, 2);
    var mid := SetLast(p2 + b, 2);
    var m := mid + n2;
    assert |p2| == |p| && |Put(pre, 2).items| == |pre.items| && m[|m| - 1].gap == 2;
    PluginStep(pre, b + c, p);
    hide SetLast, Strings, PluginK, NflogK, Put;
    Assoc3(p2, b, c);
    NflogBehind(Put(pre, 2), p2 + b, c, n);
    Assoc3(mid, n2, c);
    FinalStep(Put(pre, 2), m, c);
  }

  /** The NFLOG block falls between the lines of the plugin block. */
  lemma {:induction false} UpsInside(pre: Doc, c: seq<Item>, p1: seq<Item>, p2: seq<Item>, n: seq<Item>)
    requires p1 != [] && p2 != [] && n != []
    requires PluginK(Strings(pre.items + c)) == |pre.items|
    requires NflogK(Strings(pre.items) + Strings(p1 + p2) + Strings(c)) == |pre.items| + |p1|
    ensures Ups(Then(pre, c), p1 + p2, n)
         == Then(Put(pre, 2), SetLast(p1, 2) + SetLast(n, 2) + SetLast(p2, 2) + Fin(c))
  {
    var e2, n2 := SetLast(p2, 2), SetLast(n, 2);
    PluginStep(pre, c, p1 + p2);
    SetLastConcat(p1, p2, 2);
    assert e2 != [] && e2[|e2| - 1].gap == 2;
    Assoc3(p1, e2, c);
    NflogBehind(Put(pre, 2), p1, e2 + c, n);
    var b2 := SetLast(p1, 2);
    Assoc4(b2, n2, e2, c);
    var m := b2 + n2 + e2;
    assert m[|m| - 1] == e2[|e2| - 1];
    hide SetLast, Strings, PluginK, NflogK;
    FinalStep(Put(pre, 2), m, c);
  }

  /** No plugin line is missing: only the NFLOG block goes in. */
  lemma {:induction false} UpsAlone(pre: Doc, c: seq<Item>, n: seq<Item>)
    requires n != [] && NflogK(Strings(pre.items + c)) == |pre.items|
    ensures Ups(Then(pre, c), [], n) == Then(Put(pre, 2), SetLast(n, 2) + Fin(c))
  {
    NflogStep(pre, c, n);
    FinalStep(Put(pre, 2), SetLast(n, 2), c);
  }

  // ---- the four cases ------------------------------------------------------------------------------------

  lemma LacksParts(a: seq<Item>, b: seq<Item>, c: seq<Item>, m: string)
    requires Lacks(a + b + c, m)
    ensures Lacks(a, m) && Lacks(b, m) && Lacks(c, m)
  {
    var all := a + b + c;
    assert forall i :: 0 <= i < |a| ==> all[i] == a[i];
    assert forall i :: 0 <= i < |b| ==> all[|a| + i] == b[i];
    assert forall i :: 0 <= i < |c| ==> all[|a| + |b| + i] == c[i];
  }

  /** The parts of an unmarked document. */
  lemma Parts(pre: Doc, b: seq<Item>, c: seq<Item>)
    requires WF(pre.items + b + c) && Unmarked(pre.items + b + c)
    ensures WF(pre.items) && WF(b) && WF(c) && Unmarked(pre.items) && Unmarked(b) && Unmarked(c)
  {
    BackWF(pre, b, c);
    LacksParts(pre.items, b, c, PLUGIN_BEGIN_MARKER);
    LacksParts(pre.items, b, c, BEGIN_MARKER);
  }

  lemma MarkerFacts()
    ensures '\n' !in BEGIN_MARKER && '\n' !in END_MARKER && '\n' !in PLUGIN_BEGIN_MARKER && '\n' !in PLUGIN_END_MARKER
  {
  }

  /** One startup's remains when nothing stands between the two blocks. */
  lemma {:induction false} BackFacts(pre: Doc, c: seq<Item>)
    requires WF(pre.items + c) && Unmarked(pre.items + c)
    ensures var pre1, c1 := Put(pre, 1), Fin(c);
            && WF(Then(pre1, c1).items) && Strings(Then(pre1, c1).items) == Strings(pre.items + c)
            && Strings(pre1.items) == Strings(pre.items) && Strings(c1) == Strings(c) && |pre1.items| == |pre.items|
            && Put(pre1, 2) == Put(pre, 2) && Fin(c1) == c1
    ensures WF(pre.items) && WF(c) && Unmarked(pre.items) && Unmarked(c)
  {
    hide BEGIN_MARKER, PLUGIN_BEGIN_MARKER, Lacks;
    NilMiddle(pre.items, c);
    NilMiddle([], Fin(c));
    Parts(pre, [], c);
    BackWF(pre, [], c);
    BackStrings(pre, [], c);
    assert Then(Put(pre, 1), Fin(c)) == Back(pre, [], c);
    hide Strings, Back, Unmarked;
    StringsPut(pre, 1);
    StringsSetLast(c, 1);
    PutTwice(pre, 1, 2);
    FinTwice(c);
  }

  lemma {:induction false} AloneRoundtrip(pre: Doc, c: seq<Item>, n: seq<Item>)
    requires Setting(Then(pre, c), [], n) && NflogK(Strings(pre.items + c)) == |pre.items|
    ensures Roundtrip(Then(pre, c), [], n)
  {
    hide BEGIN_MARKER, END_MARKER, PLUGIN_BEGIN_MARKER, PLUGIN_END_MARKER, Lacks;
    NflogFacts(n);
    BackFacts(pre, c);
    AloneRemoved(pre, c, n);
    hide Render, Ups, NflogK, Strings, RemoveManagedBlocks, Fin, Put, NflogBlockOk, Unmarked;
    UpsAlone(pre, c, n);
    UpsAlone(Put(pre, 1), Fin(c), n);
  }

  lemma AloneRemoved(pre: Doc, c: seq<Item>, n: seq<Item>)
    requires WF(pre.items) && WF(c) && Unmarked(pre.items) && Unmarked(c) && NflogBlockOk(n)
    ensures RemoveManagedBlocks(Render(Then(Put(pre, 2), SetLast(n, 2) + Fin(c)))) == Render(Then(Put(pre, 1), Fin(c)))
  {
    var q, n2 := Put(pre, 2), SetLast(n, 2);
    MarkerFacts();
    PutWF(pre, 2);
    WFSetLast(n, 2);
    WFSetLast(c, 1);
    LacksPut(pre, 2, PLUGIN_BEGIN_MARKER);
    LacksPut(pre, 2, BEGIN_MARKER);
    LacksSetLast(n, 2, PLUGIN_BEGIN_MARKER);
    LacksSetLast(c, 1, PLUGIN_BEGIN_MARKER);
    LacksConcat(n2, Fin(c), PLUGIN_BEGIN_MARKER);
    LacksConcat(q.items, n2 + Fin(c), PLUGIN_BEGIN_MARKER);
    WFConcat(n2, Fin(c));
    WFConcat(q.items, n2 + Fin(c));
    hide Render, Full, RemoveMarkedBlock, SetLast;
    NothingToRemove(Then(q, n2 + Fin(c)), PLUGIN_BEGIN_MARKER, PLUGIN_END_MARKER);
    RemoveNflog(q, n, 2, Fin(c));
    PutTwice(pre, 2, 1);
  }

  lemma BeforeRemoved(pre: Doc, b: seq<Item>, c: seq<Item>, p: seq<Item>, n: seq<Item>)
    requires WF(pre.items) && WF(b) && WF(c) && Unmarked(pre.items) && Unmarked(b) && Unmarked(c)
    requires NflogBlockOk(n) && PluginBlockOk(p)
    ensures RemoveManagedBlocks(Render(Then(Put(pre, 2), SetLast(n, 2) + SetLast(b, 2) + SetLast(p, 2) + Fin(c)))) == Render(Back(pre, b, c))
  {
    hide BEGIN_MARKER, END_MARKER, PLUGIN_BEGIN_MARKER, PLUGIN_END_MARKER, Contains;
    var n2, b2 := SetLast(n, 2), SetLast(b, 2);
    NflogFacts(n);
    FrontOfPlugin(pre, b, n);
    WFSetLast(c, 1);
    DropPlugin(Put(pre, 2), n2 + b2, p, Fin(c));
    hide RemoveMarkedBlock, Render, WF, Lacks, NflogBlockOk, PluginBlockOk, Fin, Put, SetLast;
    WFSetLast(b, 1);
    FrontShrinks(n, b);
    TailWF(b, c);
    DropNflog(pre, n, if b == [] then 1 else 2, SetLast(b, 1), Fin(c));
  }

  /** NFLOG block and b, which stand before the plugin block. */
  lemma FrontOfPlugin(pre: Doc, b: seq<Item>, n: seq<Item>)
    requires WF(pre.items) && WF(b) && Unmarked(pre.items) && Unmarked(b) && WF(n) && n != [] && Lacks(n, PLUGIN_BEGIN_MARKER)
    ensures var q, m := Put(pre, 2), SetLast(n, 2) + SetLast(b, 2);
            && WF(q.items) && Tail(q) > 0 && Lacks(q.items, PLUGIN_BEGIN_MARKER)
            && WF(m) && m != [] && m[|m| - 1].gap > 0 && Lacks(m, PLUGIN_BEGIN_MARKER)
  {
    hide BEGIN_MARKER, PLUGIN_BEGIN_MARKER, Contains;
    var n2, b2 := SetLast(n, 2), SetLast(b, 2);
    PutWF(pre, 2);
    WFSetLast(n, 2);
    WFSetLast(b, 2);
    WFConcat(n2, b2);
    LacksPut(pre, 2, PLUGIN_BEGIN_MARKER);
    LacksSetLast(n, 2, PLUGIN_BEGIN_MARKER);
    LacksSetLast(b, 2, PLUGIN_BEGIN_MARKER);
    LacksConcat(n2, b2, PLUGIN_BEGIN_MARKER);
    hide WF, Lacks;
    if b2 == [] {
      assert n2 + b2 == n2;
    }
  }

  lemma FrontShrinks(n: seq<Item>, b: seq<Item>)
    ensures SetLast(SetLast(n, 2) + SetLast(b, 2), 1) == SetLast(n, if b == [] then 1 else 2) + SetLast(b, 1)
  {
    SetLastConcat(SetLast(n, 2), SetLast(b, 2), 1);
    SetLastTwice(n, 2, 1);
    SetLastTwice(b, 2, 1);
    if b == [] {
      assert SetLast(n, 1) + [] == SetLast(n, 1);
    }
  }

  lemma TailWF(b: seq<Item>, c: seq<Item>)
    requires WF(b) && WF(c)
    ensures WF(SetLast(b, 1) + Fin(c))
  {
    WFSetLast(b, 1);
    WFSetLast(c, 1);
    WFConcat(SetLast(b, 1), Fin(c));
  }

  /** A plugin block between m and c. */
  lemma DropPlugin(q: Doc, m: seq<Item>, p: seq<Item>, c: seq<Item>)
    requires WF(q.items) && Tail(q) > 0 && WF(m) && m != [] && m[|m| - 1].gap > 0 && WF(c) && PluginBlockOk(p)
    requires Lacks(q.items, PLUGIN_BEGIN_MARKER) && Lacks(m, PLUGIN_BEGIN_MARKER)
    ensures RemoveMarkedBlock(Render(Then(q, m + SetLast(p, 2) + c)), PLUGIN_BEGIN_MARKER, PLUGIN_END_MARKER)
         == Render(Then(q, SetLast(m, 1) + c))
  {
    hide BEGIN_MARKER, END_MARKER, PLUGIN_BEGIN_MARKER, PLUGIN_END_MARKER;
    var p2 := SetLast(p, 2);
    WFSetLast(p, 2);
    WFConcat(q.items, m);
    LacksConcat(q.items, m, PLUGIN_BEGIN_MARKER);
    assert p2[..|p2| - 1] == p[..|p| - 1];
    var front := Then(q, m);
    assert Tail(front) == m[|m| - 1].gap by { assert (q.items + m)[|q.items + m| - 1] == m[|m| - 1]; }
    hide Render, Full, RemoveMarkedBlock;
    RemovePlugin(front, p2, c);
    ThenThen(q, m, p2 + c);
    Assoc3(m, p2, c);
    PutThen(q, m, 1);
    ThenThen(q, SetLast(m, 1), c);
  }

  lemma DropNflog(pre: Doc, n: seq<Item>, g: nat, b: seq<Item>, c: seq<Item>)
    requires WF(pre.items) && Unmarked(pre.items) && NflogBlockOk(n) && g > 0 && WF(b + c)
    ensures RemoveMarkedBlock(Render(Then(Put(pre, 2), SetLast(n, g) + b + c)), BEGIN_MARKER, END_MARKER) == Render(Then(Put(pre, 1), b + c))
  {
    PutWF(pre, 2);
    LacksPut(pre, 2, BEGIN_MARKER);
    Assoc3(SetLast(n, g), b, c);
    hide Render, Full, RemoveMarkedBlock, SetLast;
    RemoveNflog(Put(pre, 2), n, g, b + c);
    PutTwice(pre, 2, 1);
  }

  lemma AfterRemoved(pre: Doc, b: seq<Item>, c: seq<Item>, p: seq<Item>, n: seq<Item>)
    requires WF(pre.items) && WF(b) && WF(c) && Unmarked(pre.items) && Unmarked(b) && Unmarked(c)
    requires NflogBlockOk(n) && PluginBlockOk(p)
    ensures RemoveManagedBlocks(Render(Then(Put(pre, 2), SetLast(SetLast(p, 2) + b, 2) + SetLast(n, 2) + Fin(c)))) == Render(Back(pre, b, c))
  {
    hide Render, Full, RemoveMarkedBlock, Fin;
    var q, n2, b2, p2 := Put(pre, 2), SetLast(n, 2), SetLast(b, 2), SetLast(p, 2);
    SetLastConcat(p2, b, 2);
    SetLastTwice(p, 2, 2);
    assert SetLast(p2 + b, 2) == p2 + b2 by { if b == [] { assert p2 + [] == p2; } }
    PutWF(pre, 2);
    PutWF(pre, 1);
    WFSetLast(n, 2);
    WFSetLast(b, 2);
    WFSetLast(c, 1);
    WFConcat(n2, Fin(c));
    WFConcat(b2, n2 + Fin(c));
    WFSetLast(p, 2);
    LacksPut(pre, 2, PLUGIN_BEGIN_MARKER);
    assert p2[..|p2| - 1] == p[..|p| - 1];
    Assoc4(p2, b2, n2, Fin(c));
    PutTwice(pre, 2, 1);
    var front := Then(Put(pre, 1), b2);
    WFConcat(Put(pre, 1).items, b2);
    LacksPut(pre, 1, BEGIN_MARKER);
    LacksSetLast(b, 2, BEGIN_MARKER);
    LacksConcat(Put(pre, 1).items, b2, BEGIN_MARKER);
    FrontTail(pre, b);
    hide SetLast, WF, Lacks;
    RemovePlugin(q, p2, b2 + (n2 + Fin(c)));
    ThenThen(Put(pre, 1), b2, n2 + Fin(c));
    RemoveNflog(front, n, 2, Fin(c));
    BackIsVariant(pre, b, c);
  }

  /** What stands before the NFLOG block once the plugin block is gone. */
  lemma FrontTail(pre: Doc, b: seq<Item>)
    ensures var front := Then(Put(pre, 1), SetLast(b, 2));
            Tail(front) > 0 && Put(front, 1) == Then(Put(pre, 1), SetLast(b, 1))
  {
    PutThen(Put(pre, 1), SetLast(b, 2), 1);
    SetLastTwice(b, 2, 1);
    PutTwice(pre, 1, 1);
    if b == [] {
      assert Put(pre, 1).items + [] == Put(pre, 1).items;
    } else {
      var all := Put(pre, 1).items + SetLast(b, 2);
      assert all[|all| - 1] == SetLast(b, 2)[|b| - 1];
    }
  }

  lemma InsideRemoved(pre: Doc, c: seq<Item>, p1: seq<Item>, p2: seq<Item>, n: seq<Item>)
    requires WF(pre.items) && WF(c) && Unmarked(pre.items) && Unmarked(c) && p1 != [] && p2 != []
    requires NflogBlockOk(n) && PluginBlockOk(p1 + p2)
    ensures RemoveManagedBlocks(Render(Then(Put(pre, 2), SetLast(p1, 2) + SetLast(n, 2) + SetLast(p2, 2) + Fin(c))))
         == Render(Then(Put(pre, 1), Fin(c)))
  {
    hide BEGIN_MARKER, END_MARKER, PLUGIN_BEGIN_MARKER, PLUGIN_END_MARKER;
    var block := SetLast(p1, 2) + SetLast(n, 2) + SetLast(p2, 2);
    MixedBlock(p1, p2, n);
    PutWF(pre, 2);
    PutWF(pre, 1);
    WFSetLast(c, 1);
    LacksPut(pre, 2, PLUGIN_BEGIN_MARKER);
    PutTwice(pre, 2, 1);
    LacksPut(pre, 1, BEGIN_MARKER);
    LacksSetLast(c, 1, BEGIN_MARKER);
    LacksConcat(Put(pre, 1).items, Fin(c), BEGIN_MARKER);
    WFConcat(Put(pre, 1).items, Fin(c));
    MarkerFacts();
    hide Render, Full, RemoveMarkedBlock, SetLast, WF, Lacks, Fin;
    RemovePlugin(Put(pre, 2), block, Fin(c));
    NothingToRemove(Then(Put(pre, 1), Fin(c)), BEGIN_MARKER, END_MARKER);
  }

  /** The two halves of a plugin block. */
  lemma Halves(p1: seq<Item>, p2: seq<Item>)
    requires p1 != [] && p2 != [] && PluginBlockOk(p1 + p2)
    ensures WF(p1) && WF(p2) && p1[0].s == PLUGIN_BEGIN_MARKER && p2[|p2| - 1].s == PLUGIN_END_MARKER
    ensures Lacks(p1, PLUGIN_END_MARKER) && Lacks(p2[..|p2| - 1], PLUGIN_END_MARKER)
  {
    hide BEGIN_MARKER, END_MARKER, PLUGIN_BEGIN_MARKER, PLUGIN_END_MARKER, Contains;
    var p := p1 + p2;
    assert p[0] == p1[0] && p[|p| - 1] == p2[|p2| - 1];
    WFPart(p, |p1|);
    assert p[..|p1|] == p1 && p[|p1|..] == p2;
    LacksParts(p1, p2[..|p2| - 1], [], PLUGIN_END_MARKER) by { assert p1 + p2[..|p2| - 1] + [] == p[..|p| - 1]; }
  }

  lemma SetLastEnds(a: seq<Item>, x: nat)
    requires a != []
    ensures var b := SetLast(a, x); |b| == |a| && b[0].s == a[0].s && b[..|b| - 1] == a[..|a| - 1] && b[|b| - 1] == a[|a| - 1].(gap := x)
  {
  }

  /** A piece of whole lines without the end marker. */
  ghost predicate Piece(a: seq<Item>) {
    WF(a) && a != [] && a[|a| - 1].gap > 0 && Lacks(a, PLUGIN_END_MARKER)
  }

  lemma SetLastPiece(a: seq<Item>)
    requires WF(a) && a != [] && Lacks(a, PLUGIN_END_MARKER)
    ensures Piece(SetLast(a, 2)) && SetLast(a, 2)[0].s == a[0].s
  {
    hide PLUGIN_END_MARKER, Contains;
    SetLastEnds(a, 2);
    WFSetLast(a, 2);
    LacksSetLast(a, 2, PLUGIN_END_MARKER);
  }

  lemma NflogFacts(n: seq<Item>)
    requires NflogBlockOk(n)
    ensures WF(n) && |n| >= 2 && Lacks(n, PLUGIN_END_MARKER) && Lacks(n, PLUGIN_BEGIN_MARKER)
  {
    hide BEGIN_MARKER, END_MARKER, PLUGIN_BEGIN_MARKER, PLUGIN_END_MARKER, Contains;
  }

  /** The plugin block with the NFLOG block inside it. */
  lemma MixedBlock(p1: seq<Item>, p2: seq<Item>, n: seq<Item>)
    requires p1 != [] && p2 != [] && NflogBlockOk(n) && PluginBlockOk(p1 + p2)
    ensures Removable(SetLast(p1, 2) + SetLast(n, 2) + SetLast(p2, 2))
  {
    hide BEGIN_MARKER, END_MARKER, PLUGIN_BEGIN_MARKER, PLUGIN_END_MARKER, PluginBlockOk, NflogBlockOk, Piece, Removable, WF, Lacks, SetLast;
    Halves(p1, p2);
    NflogFacts(n);
    SetLastPiece(p1);
    SetLastPiece(n);
    SetLastEnds(p2, 2);
    WFSetLast(p2, 2);
    MixedParts(SetLast(p1, 2), SetLast(n, 2), SetLast(p2, 2));
  }

  /** What the removal of the plugin block takes out: from its begin marker to its first end marker. */
  ghost predicate Removable(b: seq<Item>) {
    WF(b) && |b| >= 2 && b[0].s == PLUGIN_BEGIN_MARKER && b[|b| - 1].s == PLUGIN_END_MARKER && Lacks(b[..|b| - 1], PLUGIN_END_MARKER)
  }

  lemma MixedParts(a: seq<Item>, m: seq<Item>, z: seq<Item>)
    requires Piece(a) && Piece(m) && WF(z) && z != [] && Lacks(z[..|z| - 1], PLUGIN_END_MARKER)
    requires a[0].s == PLUGIN_BEGIN_MARKER && z[|z| - 1].s == PLUGIN_END_MARKER
    ensures Removable(a + m + z)
  {
    hide PLUGIN_BEGIN_MARKER, PLUGIN_END_MARKER, Contains;
    var b := a + m + z;
    WFConcat(a, m);
    WFConcat(a + m, z);
    LacksConcat(a, m, PLUGIN_END_MARKER);
    LacksConcat(a + m, z[..|z| - 1], PLUGIN_END_MARKER);
    assert b[..|b| - 1] == a + m + z[..|z| - 1];
  }

  lemma {:induction false} BeforeRoundtrip(pre: Doc, b: seq<Item>, c: seq<Item>, p: seq<Item>, n: seq<Item>)
    requires p != [] && Setting(Then(Then(pre, b), c), p, n)
    requires PluginK(Strings(pre.items + b + c)) == |pre.items| + |b|
    requires NflogK(Strings(pre.items + b) + Strings(p) + Strings(c)) == |pre.items|
    ensures Roundtrip(Then(Then(pre, b), c), p, n)
  {
    var pre1, b1, c1 := Put(pre, 1), SetLast(b, 1), Fin(c);
    Parts(pre, b, c);
    BackWF(pre, b, c);
    BackIsVariant(pre, b, c);
    BackStrings(pre, b, c);
    assert n != [] && |pre1.items| == |pre.items| && |b1| == |b|;
    assert Strings(pre1.items + b1) == Strings(pre.items + b) by {
      StringsPut(pre, 1);
      StringsSetLast(b, 1);
      StringsConcat(pre1.items, b1);
      StringsConcat(pre.items, b);
    }
    StringsSetLast(c, 1);
    BeforeRemoved(pre, b, c, p, n);
    hide Render, Ups, NflogK, PluginK, Strings, Setting, RemoveManagedBlocks, Fin, Put, NflogBlockOk, Unmarked, SetLast;
    UpsBefore(pre, b, c, p, n);
    UpsBefore(pre1, b1, c1, p, n);
  }

  lemma {:induction false} AfterRoundtrip(pre: Doc, b: seq<Item>, c: seq<Item>, p: seq<Item>, n: seq<Item>)
    requires p != [] && Setting(Then(pre, b + c), p, n)
    requires PluginK(Strings(pre.items + (b + c))) == |pre.items|
    requires NflogK(Strings(pre.items) + Strings(p) + Strings(b + c)) == |pre.items| + |p| + |b|
    ensures Roundtrip(Then(pre, b + c), p, n)
  {
    hide BEGIN_MARKER, END_MARKER, PLUGIN_BEGIN_MARKER, PLUGIN_END_MARKER, Render, NflogK, PluginK, Strings, RemoveManagedBlocks, Lacks, Full, Ups, WF;
    var pre1, b1, c1 := Put(pre, 1), SetLast(b, 1), Fin(c);
    Assoc3(pre.items, b, c);
    Parts(pre, b, c);
    BackWF(pre, b, c);
    BackStrings(pre, b, c);
    assert n != [] && |pre1.items| == |pre.items| && |b1| == |b|;
    StringsPut(pre, 1);
    assert Strings(b1 + c1) == Strings(b + c) by {
      StringsSetLast(b, 1);
      StringsSetLast(c, 1);
      StringsConcat(b1, c1);
      StringsConcat(b, c);
    }
    AfterRemoved(pre, b, c, p, n);
    AfterGaps(SetLast(p, 2), b);
    PutTwice(pre, 1, 2);
    FinTwice(c);
    hide Render, Ups, NflogK, PluginK, Strings, Setting, RemoveManagedBlocks, Fin, Put, NflogBlockOk, Unmarked, SetLast;
    UpsAfter(pre, b, c, p, n);
    UpsAfter(pre1, b1, c1, p, n);
  }

  lemma AfterGaps(p: seq<Item>, b: seq<Item>)
    ensures SetLast(p + SetLast(b, 1), 2) == SetLast(p + b, 2)
  {
    SetLastConcat(p, b, 2);
    SetLastConcat(p, SetLast(b, 1), 2);
    SetLastTwice(b, 1, 2);
  }

  lemma {:induction false} InsideRoundtrip(pre: Doc, c: seq<Item>, p1: seq<Item>, p2: seq<Item>, n: seq<Item>)
    requires p1 != [] && p2 != [] && Setting(Then(pre, c), p1 + p2, n)
    requires PluginK(Strings(pre.items + c)) == |pre.items|
    requires NflogK(Strings(pre.items) + Strings(p1 + p2) + Strings(c)) == |pre.items| + |p1|
    ensures Roundtrip(Then(pre, c), p1 + p2, n)
  {
    hide BEGIN_MARKER, END_MARKER, PLUGIN_BEGIN_MARKER, PLUGIN_END_MARKER, Lacks, PluginBlockOk, NflogBlockOk, Strings, PluginK, NflogK,
         Render, Ups, RemoveManagedBlocks, Fin, Put, Unmarked, SetLast, WF;
    NflogFacts(n);
    BackFacts(pre, c);
    InsideRemoved(pre, c, p1, p2, n);
    UpsInside(pre, c, p1, p2, n);
    UpsInside(Put(pre, 1), Fin(c), p1, p2, n);
  }

  // ---- main results ------------------------------------------------------------------------------------------

  /** Wherever the lines put the two blocks. */
  lemma EveryRoundtrip(d: Doc, p: seq<Item>, n: seq<Item>)
    requires Setting(d, p, n)
    ensures Roundtrip(d, p, n)
  {
    hide BEGIN_MARKER, END_MARKER, PLUGIN_BEGIN_MARKER, PLUGIN_END_MARKER;
    assert n != [];
    hide Setting, Roundtrip, PluginPlace, StackPlace, SectionPlace;
    StringsLength(d.items);
    if p == [] {
      var k := NflogK(Strings(d.items));
      var pre, c := Split(d, k);
      AloneRoundtrip(pre, c, n);
    } else {
      var k1 := PluginK(Strings(d.items));
      var pre, c := Split(d, k1);
      PluginStep(pre, c, p);
      StringsLength(pre.items);
      StringsLength(p);
      StringsLength(c);
      var k2 := NflogK(Strings(pre.items) + Strings(p) + Strings(c));
      if k2 <= |pre.items| {
        var a, b := Split(pre, k2);
        BeforeRoundtrip(a, b, c, p, n);
      } else if k2 < |pre.items| + |p| {
        var j := k2 - |pre.items|;
        assert p == p[..j] + p[j..];
        InsideRoundtrip(pre, c, p[..j], p[j..], n);
      } else {
        var j := k2 - |pre.items| - |p|;
        assert c == c[..j] + c[j..];
        AfterRoundtrip(pre, c[..j], c[j..], p, n);
      }
    }
  }

  lemma Split(d: Doc, k: nat) returns (pre: Doc, suf: seq<Item>)
    requires k <= |d.items|
    ensures d == Then(pre, suf) && |pre.items| == k && d.items == pre.items + suf
  {
    pre, suf := Doc(d.lead, d.items[..k]), d.items[k..];
  }

  /** No begin marker occurs in the text. */
  predicate MarkerFree(config: string) {
    !Contains(config, PLUGIN_BEGIN_MARKER) && !Contains(config, BEGIN_MARKER)
  }

  lemma {:induction false} LinesOfMarkerFree(items: seq<Item>, before: string, m: string)
    requires !Contains(before + Full(items), m)
    ensures Lacks(items, m)
    decreases |items|
  {
    if items != [] {
      var it := items[0];
      var rest := Full(items[1..]);
      assert before + Full(items) == before + it.s + (NL(it.gap) + rest);
      PartContains(before, it.s, NL(it.gap) + rest, m);
      assert before + Full(items) == (before + it.s + NL(it.gap)) + rest;
      LinesOfMarkerFree(items[1..], before + it.s + NL(it.gap), m);
      assert forall i :: 0 < i < |items| ==> items[i] == items[1..][i - 1];
    }
  }

  lemma {:induction false} MarkerFreeDoc(config: string)
    requires MarkerFree(config)
    ensures Unmarked(Parse(config).items)
  {
    ParseRenders(config);
    hide BEGIN_MARKER, PLUGIN_BEGIN_MARKER, Contains;
    var d := Parse(config);
    LinesOfMarkerFree(d.items, NL(d.lead), PLUGIN_BEGIN_MARKER);
    LinesOfMarkerFree(d.items, NL(d.lead), BEGIN_MARKER);
  }

  lemma RenderParsesDoc(d: Doc)
    requires WF(d.items)
    ensures Parse(Render(d)) == d
  {
    RenderParses(d.items);
    ParseNewlines(d.lead, Full(d.items));
  }

  /** For any blocks with proper markers: after an upsert into a marker-free text, removing the blocks gives
      a text with the same nonempty lines, and upserting into that gives the same bytes again. */
  lemma {:induction false} UpsertRoundtrip(config: string, p: seq<Item>, n: seq<Item>)
    requires MarkerFree(config) && (p == [] || PluginBlockOk(p)) && NflogBlockOk(n)
    ensures var written := Upserted(config, Full(p), Full(n));
            var rest := RemoveManagedBlocks(written);
            NonEmptyLines(rest) == NonEmptyLines(config) && Upserted(rest, Full(p), Full(n)) == written
  {
    var d := Parse(config);
    ParseRenders(config);
    MarkerFreeDoc(config);
    hide BEGIN_MARKER, END_MARKER, PLUGIN_BEGIN_MARKER, PLUGIN_END_MARKER;
    assert Setting(d, p, n);
    EveryRoundtrip(d, p, n);
    var back: Doc :| WF(back.items) && Strings(back.items) == Strings(d.items) && Ups(back, p, n) == Ups(d, p, n)
                  && RemoveManagedBlocks(Render(Ups(d, p, n))) == Render(back);
    hide Setting, Roundtrip, Parse, Render, Full, Ups, Upserted, RemoveManagedBlocks, MarkerFree;
    UpsText(d, p, n);
    UpsText(back, p, n);
    RenderParsesDoc(back);
  }
}

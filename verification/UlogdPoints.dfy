/** The insertion points, found in the text line by line, are places between nonempty lines that the
    nonempty lines alone decide. */
module UlogdPoints {
  import opened ConfigText
  import opened UlogdBlocks
  import opened UlogdDoc

  function Blanks(n: nat): seq<string> {
    seq(n, _ => "\n")
  }

  function FlatLines(items: seq<Item>): seq<string> {
    if items == [] then []
    else (if items[0].gap == 0 then [items[0].s] else [items[0].s + "\n"] + Blanks(items[0].gap - 1)) + FlatLines(items[1..])
  }

  lemma {:induction false} FirstNewline(s: string, t: string)
    requires '\n' !in s
    ensures IndexOf(s + "\n" + t, "\n") == |s|
    decreases |s|
  {
    if s == "" {
      assert s + "\n" + t == "\n" + t;
    } else {
      var w := s + "\n" + t;
      assert w[1..] == s[1..] + "\n" + t;
      assert s[0] in s && w[0] == s[0] && w[..1] == [s[0]];
      FirstNewline(s[1..], t);
    }
  }

  lemma {:induction false} NoNewline(s: string)
    requires '\n' !in s
    ensures IndexOf(s, "\n") == -1
    decreases |s|
  {
    if s != "" {
      assert s[0] in s && s[..1] == [s[0]];
      NoNewline(s[1..]);
    }
  }

  lemma {:induction false} LinesStep(s: string, t: string)
    requires '\n' !in s
    ensures Lines(s + "\n" + t) == [s + "\n"] + Lines(t)
  {
    FirstNewline(s, t);
    var w := s + "\n" + t;
    assert w[..|s| + 1] == s + "\n" && w[|s| + 1..] == t;
  }

  lemma {:induction false} LinesBlanks(n: nat, t: string)
    ensures Lines(NL(n) + t) == Blanks(n) + Lines(t)
    decreases n
  {
    hide Lines, NL, Blanks;
    if n == 0 {
      NoBlanks(t);
    } else {
      LinesBlanks(n - 1, t);
      BlankFirst(n, t);
      BlanksStep(n);
      assert ["\n"] + (Blanks(n - 1) + Lines(t)) == ["\n"] + Blanks(n - 1) + Lines(t);
    }
  }

  lemma {:induction false} NoBlanks(t: string)
    ensures NL(0) + t == t && Blanks(0) + Lines(t) == Lines(t)
  {
    hide Lines;
  }

  lemma {:induction false} BlankFirst(n: nat, t: string)
    requires n > 0
    ensures Lines(NL(n) + t) == ["\n"] + Lines(NL(n - 1) + t)
  {
    hide NL, Lines;
    NLStep(n);
    var rest := NL(n - 1) + t;
    LinesStep("", rest);
    assert "" + "\n" == "\n";
    assert NL(n) + t == "\n" + rest;
  }

  lemma NLStep(n: nat)
    requires n > 0
    ensures NL(n) == "\n" + NL(n - 1)
  {
  }

  lemma BlanksStep(n: nat)
    requires n > 0
    ensures Blanks(n) == ["\n"] + Blanks(n - 1)
  {
  }

  lemma NoLines()
    ensures FlatLines([]) == [] && Lines(Full([])) == [] && Full([]) == ""
  {
  }

  lemma {:induction false} LinesOfItems(items: seq<Item>)
    requires WF(items)
    ensures Lines(Full(items)) == FlatLines(items)
    decreases |items|
  {
    hide Lines, Full, FlatLines, NL, WF, Blanks;
    NoLines();
    if items != [] {
      var it, rest := items[0], items[1..];
      WFPart(items, 1);
      LinesOfItems(rest);
      FirstItem(items);
      FlatStep(items);
      if it.gap == 0 {
        LastItem(items);
        LastLine(it.s);
      } else {
        NLStep(it.gap);
        RegroupText(it.s + "\n", NL(it.gap - 1), Full(rest));
        RegroupText(it.s, "\n", NL(it.gap - 1));
        RegroupText(it.s, NL(it.gap), Full(rest));
        LinesStep(it.s, NL(it.gap - 1) + Full(rest));
        LinesBlanks(it.gap - 1, Full(rest));
      }
    }
  }

  lemma {:induction false} LastItem(items: seq<Item>)
    requires WF(items) && items != [] && items[0].gap == 0
    ensures items[1..] == [] && Full(items) == items[0].s && FlatLines(items) == [items[0].s]
  {
    assert items[1..] == [];
    assert items[0].s + NL(0) + "" == items[0].s;
  }

  lemma {:induction false} LastLine(s: string)
    requires s != "" && '\n' !in s
    ensures Lines(s) == [s]
  {
    NoNewline(s);
  }

  // ---- a line with and without its terminator --------------------------------------------------------

  lemma BlankLine()
    ensures !IsPluginLine("\n") && !IsStackLine("\n") && !IsSectionLine("\n") && TrimSpace("\n") == ""
  {
    assert "\n"[..0] == "";
    assert TrimRightSpace("\n") == "";
    assert TrimRightRegexp("\n") == "";
  }

  lemma Terminated(s: string)
    ensures IsPluginLine(s + "\n") == IsPluginLine(s) && IsStackLine(s + "\n") == IsStackLine(s)
    ensures IsSectionLine(s + "\n") == IsSectionLine(s) && TrimSpace(s + "\n") == TrimSpace(s)
  {
    TrimTerminated(s);
    assert (s + "\n")[..|s + "\n"| - 1] == s;
  }

  // ---- the scans over blank lines ----------------------------------------------------------------------

  lemma {:induction false} ScansSkipBlanks(n: nat, ls: seq<string>, offset: int, last: int, found: bool)
    ensures PluginScan(Blanks(n) + ls, offset, last) == PluginScan(ls, offset + n, last)
    ensures StackScan(Blanks(n) + ls, offset, last, found) == StackScan(ls, offset + n, last, found)
    ensures SectionScan(Blanks(n) + ls, offset, found) == SectionScan(ls, offset + n, found)
    decreases n
  {
    if n == 0 {
      assert Blanks(0) + ls == ls;
    } else {
      BlankLine();
      assert (Blanks(n) + ls)[0] == "\n" && (Blanks(n) + ls)[1..] == Blanks(n - 1) + ls;
      ScansSkipBlanks(n - 1, ls, offset + 1, last, found);
    }
  }

  // ---- where the lines put the points ------------------------------------------------------------------

  /** How many nonempty lines stand before the point; -1 when there is none. */
  function PluginPlace(ss: seq<string>): (k: int)
    ensures -1 <= k <= |ss| && k != 0
  {
    if ss == [] then -1
    else
      var r := PluginPlace(ss[1..]);
      if r != -1 then r + 1 else if IsPluginLine(ss[0]) then 1 else -1
  }

  function StackPlace(ss: seq<string>, found: bool): (k: int)
    ensures -1 <= k <= |ss| && k != 0
  {
    if ss == [] then -1
    else if IsStackLine(ss[0]) then
      var r := StackPlace(ss[1..], true);
      if r == -1 then 1 else r + 1
    else if found && TrimSpace(ss[0]) != "" && !("#" <= TrimSpace(ss[0])) && IsSectionLine(ss[0]) then -1
    else
      var r := StackPlace(ss[1..], found);
      if r == -1 then -1 else r + 1
  }

  function SectionPlace(ss: seq<string>, found: bool): (k: int)
    ensures -1 <= k <= |ss|
  {
    if ss == [] then -1
    else if IsStackLine(ss[0]) || !found || TrimSpace(ss[0]) == "" || "#" <= TrimSpace(ss[0]) || !IsSectionLine(ss[0]) then
      var r := SectionPlace(ss[1..], found || IsStackLine(ss[0]));
      if r == -1 then -1 else r + 1
    else 0
  }

  /** The end of line k - 1 with its own terminator. */
  function EndOff(items: seq<Item>, k: nat): nat
    requires 1 <= k <= |items|
  {
    if k == 1 then |items[0].s| + (if items[0].gap == 0 then 0 else 1)
    else |items[0].s| + items[0].gap + EndOff(items[1..], k - 1)
  }

  /** Behind the last plugin line. */
  lemma {:induction false} PluginPlaceIs(ss: seq<string>)
    ensures var k := PluginPlace(ss);
            if k == -1 then forall j :: 0 <= j < |ss| ==> !IsPluginLine(ss[j])
            else 1 <= k <= |ss| && IsPluginLine(ss[k - 1]) && forall j :: k <= j < |ss| ==> !IsPluginLine(ss[j])
    decreases |ss|
  {
    hide IsPluginLine;
    if ss != [] {
      var rest := ss[1..];
      PluginPlaceIs(rest);
      assert forall j :: 1 <= j < |ss| ==> ss[j] == rest[j - 1];
    }
  }

  /** The first section line with a stack line somewhere before it, comments and blank lines being no sections. */
  ghost predicate FirstSection(ss: seq<string>, found: bool, k: int) {
    && 0 <= k < |ss| && EndsStacks(ss[k], true) && !IsStackLine(ss[k]) && (found || exists j :: 0 <= j < k && IsStackLine(ss[j]))
    && forall l :: 0 <= l < k && EndsStacks(ss[l], true) && !IsStackLine(ss[l]) ==> !found && forall j :: 0 <= j < l ==> !IsStackLine(ss[j])
  }

  ghost predicate NoSection(ss: seq<string>, found: bool) {
    forall l :: 0 <= l < |ss| && EndsStacks(ss[l], true) && !IsStackLine(ss[l]) ==> !found && forall j :: 0 <= j < l ==> !IsStackLine(ss[j])
  }

  lemma {:induction false} SectionPlaceIs(ss: seq<string>, found: bool)
    ensures var k := SectionPlace(ss, found); if k == -1 then NoSection(ss, found) else FirstSection(ss, found, k)
    decreases |ss|
  {
    hide IsStackLine, EndsStacks, SectionPlace;
    SectionPlaceStep(ss, found);
    if ss != [] {
      var s, rest := ss[0], ss[1..];
      SectionPlaceIs(rest, found || IsStackLine(s));
      assert forall j :: 1 <= j < |ss| ==> ss[j] == rest[j - 1];
      assert forall j :: 0 <= j < |rest| ==> rest[j] == ss[j + 1];
    }
  }

  lemma SectionPlaceStep(ss: seq<string>, found: bool)
    ensures ss == [] ==> SectionPlace(ss, found) == -1
    ensures ss != [] ==>
              var s := ss[0];
              var r := SectionPlace(ss[1..], found || IsStackLine(s));
              && SectionPlace(ss, found) == (if !IsStackLine(s) && EndsStacks(s, found) then 0 else if r == -1 then -1 else r + 1)
              && EndsStacks(s, found) == (found && EndsStacks(s, true))
  {
    hide IsStackLine, IsSectionLine, TrimSpace;
  }

  /** Behind the last stack line before that section. */
  lemma {:induction false} StackPlaceIs(ss: seq<string>, found: bool)
    ensures var k, stop := StackPlace(ss, found), if SectionPlace(ss, found) == -1 then |ss| else SectionPlace(ss, found);
            if k == -1 then forall j :: 0 <= j < stop ==> !IsStackLine(ss[j])
            else 1 <= k <= stop && IsStackLine(ss[k - 1]) && forall j :: k <= j < stop ==> !IsStackLine(ss[j])
    decreases |ss|
  {
    if ss != [] {
      var s, rest := ss[0], ss[1..];
      StackPlaceIs(rest, found || IsStackLine(s));
      hide IsStackLine, IsSectionLine, TrimSpace;
      assert forall j :: 1 <= j < |ss| ==> ss[j] == rest[j - 1];
    }
  }

  lemma {:induction false} FlatStep(items: seq<Item>)
    requires items != []
    ensures FlatLines(items) == [LineOf(items[0])] + (Blanks(More(items[0])) + FlatLines(items[1..]))
  {
  }

  /** The line of an item, and how many blank lines follow it. */
  function LineOf(it: Item): string {
    if it.gap == 0 then it.s else it.s + "\n"
  }

  function More(it: Item): nat {
    if it.gap == 0 then 0 else it.gap - 1
  }

  lemma {:induction false} PluginScanStep(it: Item, tail: seq<string>, offset: int, last: int)
    ensures var next := offset + |LineOf(it)|;
            PluginScan([LineOf(it)] + (Blanks(More(it)) + tail), offset, last) ==
            PluginScan(tail, next + More(it), if IsPluginLine(it.s) then next else last)
  {
    Terminated(it.s);
    hide IsPluginLine, IsStackLine, IsSectionLine, TrimSpace, Blanks;
    var line, next := LineOf(it), offset + |LineOf(it)|;
    var rest := Blanks(More(it)) + tail;
    assert ([line] + rest)[1..] == rest;
    ScansSkipBlanks(More(it), tail, next, if IsPluginLine(it.s) then next else last, false);
  }

  lemma LineLength(it: Item)
    ensures |LineOf(it)| + More(it) == |it.s| + it.gap && |LineOf(it)| == |it.s| + if it.gap == 0 then 0 else 1
  {
  }

  /** The places of a list of items, from those of its tail. */
  lemma {:induction false} PluginPlaceStep(items: seq<Item>)
    requires items != []
    ensures var k, r := PluginPlace(Strings(items)), PluginPlace(Strings(items[1..]));
            k == if r != -1 then r + 1 else if IsPluginLine(items[0].s) then 1 else -1
  {
    hide IsPluginLine;
    assert Strings(items)[1..] == Strings(items[1..]);
  }

  lemma {:induction false} EndOffStep(items: seq<Item>)
    requires items != []
    ensures EndOff(items, 1) == |LineOf(items[0])|
    ensures forall k :: 1 <= k <= |items| - 1 ==> EndOff(items, k + 1) == |LineOf(items[0])| + More(items[0]) + EndOff(items[1..], k)
  {
    LineLength(items[0]);
  }

  lemma {:induction false} NoPluginItems(offset: int, last: int)
    ensures PluginPlace(Strings([])) == -1 && PluginScan(FlatLines([]), offset, last) == last
  {
  }

  lemma {:induction false} PluginScanItems(items: seq<Item>, offset: int, last: int)
    ensures var k := PluginPlace(Strings(items));
            |Strings(items)| == |items|
            && PluginScan(FlatLines(items), offset, last) == if k == -1 then last else offset + EndOff(items, k)
    decreases |items|
  {
    hide IsPluginLine, TrimSpace, PluginScan, Blanks, LineOf, PluginPlace, EndOff, Strings, FlatLines;
    StringsLength(items);
    if items == [] {
      NoPluginItems(offset, last);
    } else {
      var it, rest := items[0], items[1..];
      var next := offset + |LineOf(it)|;
      FlatStep(items);
      PluginScanStep(it, FlatLines(rest), offset, last);
      PluginScanItems(rest, next + More(it), if IsPluginLine(it.s) then next else last);
      PluginPlaceStep(items);
      EndOffStep(items);
    }
  }

  predicate EndsStacks(s: string, found: bool) {
    found && TrimSpace(s) != "" && !("#" <= TrimSpace(s)) && IsSectionLine(s)
  }

  lemma EndOffAt(items: seq<Item>, k: nat)
    requires 1 <= k <= |items|
    ensures EndOff(items, k) == |LineOf(items[0])| + if k == 1 then 0 else More(items[0]) + EndOff(items[1..], k - 1)
  {
    EndOffStep(items);
    hide EndOff;
    assert k > 1 ==> EndOff(items, k - 1 + 1) == |LineOf(items[0])| + More(items[0]) + EndOff(items[1..], k - 1);
  }

  lemma {:induction false} StackScanOne(line: string, tail: seq<string>, offset: int, last: int, found: bool)
    ensures var next := offset + |line|;
            StackScan([line] + tail, offset, last, found) ==
            if IsStackLine(line) then StackScan(tail, next, next, true)
            else if EndsStacks(line, found) then last
            else StackScan(tail, next, last, found)
  {
    hide IsStackLine, IsSectionLine, TrimSpace;
    assert ([line] + tail)[1..] == tail;
  }

  lemma {:induction false} StackScanStep(it: Item, tail: seq<string>, offset: int, last: int, found: bool)
    ensures var next := offset + |LineOf(it)|;
            StackScan([LineOf(it)] + (Blanks(More(it)) + tail), offset, last, found) ==
            if IsStackLine(it.s) then StackScan(tail, next + More(it), next, true)
            else if EndsStacks(it.s, found) then last
            else StackScan(tail, next + More(it), last, found)
  {
    Terminated(it.s);
    hide IsStackLine, IsSectionLine, TrimSpace;
    var line, next := LineOf(it), offset + |LineOf(it)|;
    StackScanOne(line, Blanks(More(it)) + tail, offset, last, found);
    assert IsStackLine(line) == IsStackLine(it.s) && EndsStacks(line, found) == EndsStacks(it.s, found);
    hide StackScan, EndsStacks;
    if IsStackLine(it.s) {
      ScansSkipBlanks(More(it), tail, next, next, true);
    } else {
      ScansSkipBlanks(More(it), tail, next, last, found);
    }
  }

  lemma {:induction false} SectionScanStep(it: Item, tail: seq<string>, offset: int, found: bool)
    ensures var next := offset + |LineOf(it)|;
            SectionScan([LineOf(it)] + (Blanks(More(it)) + tail), offset, found) ==
            if !IsStackLine(it.s) && EndsStacks(it.s, found) then offset
            else SectionScan(tail, next + More(it), found || IsStackLine(it.s))
  {
    Terminated(it.s);
    hide IsStackLine, IsSectionLine, TrimSpace, Blanks;
    var line, next := LineOf(it), offset + |LineOf(it)|;
    var rest := Blanks(More(it)) + tail;
    assert ([line] + rest)[1..] == rest;
    ScansSkipBlanks(More(it), tail, next, 0, found || IsStackLine(it.s));
  }

  lemma StackPlaceStep(items: seq<Item>, found: bool)
    requires items != []
    ensures var k, s := StackPlace(Strings(items), found), items[0].s;
            var r := StackPlace(Strings(items[1..]), found || IsStackLine(s));
            k == if IsStackLine(s) then (if r == -1 then 1 else r + 1) else if EndsStacks(s, found) || r == -1 then -1 else r + 1
  {
    hide IsStackLine, IsSectionLine, TrimSpace;
    assert Strings(items)[1..] == Strings(items[1..]);
  }

  lemma {:induction false} StackScanItems(items: seq<Item>, offset: int, last: int, found: bool)
    ensures var k := StackPlace(Strings(items), found);
            |Strings(items)| == |items|
            && StackScan(FlatLines(items), offset, last, found) == if k == -1 then last else offset + EndOff(items, k)
    decreases |items|
  {
    hide IsStackLine, IsSectionLine, TrimSpace, StackScan, Blanks, LineOf, StackPlace, EndOff, Strings, EndsStacks, FlatLines, More;
    StringsLength(items);
    if items == [] {
      NothingScanned(offset, last, found);
    } else {
      var it, rest := items[0], items[1..];
      var next := offset + |LineOf(it)|;
      FlatStep(items);
      StackScanStep(it, FlatLines(rest), offset, last, found);
      StackPlaceStep(items, found);
      var k := StackPlace(Strings(items), found);
      if k != -1 {
        EndOffAt(items, k);
      }
      if IsStackLine(it.s) {
        StackScanItems(rest, next + More(it), next, true);
      } else if !EndsStacks(it.s, found) {
        StackScanItems(rest, next + More(it), last, found);
      }
    }
  }

  lemma {:induction false} NothingScanned(offset: int, last: int, found: bool)
    ensures FlatLines([]) == [] && Strings([]) == [] && StackScan([], offset, last, found) == last && StackPlace([], found) == -1
  {
  }

  lemma {:induction false} SectionScanItems(items: seq<Item>, offset: int, found: bool)
    ensures var k := SectionPlace(Strings(items), found);
            |Strings(items)| == |items|
            && SectionScan(FlatLines(items), offset, found) == if k == -1 then -1 else offset + |Full(items[..k])|
    decreases |items|
  {
    StringsLength(items);
    if items != [] {
      hide IsStackLine, IsSectionLine, TrimSpace, FlatLines, SectionScan;
      var it, rest := items[0], items[1..];
      var next := offset + |LineOf(it)|;
      FlatStep(items);
      SectionScanStep(it, FlatLines(rest), offset, found);
      assert Strings(items)[0] == it.s && Strings(items)[1..] == Strings(rest);
      if IsStackLine(it.s) || !EndsStacks(it.s, found) {
        SectionScanItems(rest, next + More(it), found || IsStackLine(it.s));
        var k := SectionPlace(Strings(items), found);
        if k > 0 {
          assert items[..k][1..] == rest[..k - 1];
        }
      }
    }
  }

  // ---- the points as cuts ---------------------------------------------------------------------------------

  lemma {:induction false} EndOffIs(items: seq<Item>, k: nat)
    requires 1 <= k <= |items|
    ensures EndOff(items, k) == |Full(items[..k])| - items[k - 1].gap + (if items[k - 1].gap == 0 then 0 else 1)
    decreases k
  {
    assert items[..k][1..] == items[1..][..k - 1];
    if k > 1 {
      EndOffIs(items[1..], k - 1);
    } else {
      assert Full(items[..k][1..]) == "";
    }
  }

  /** Cutting inside the newlines after line k - 1. */
  lemma CutInGap(d: Doc, k: nat, x: nat)
    requires k <= |d.items| && x <= Tail(Doc(d.lead, d.items[..k]))
    ensures var pre := Doc(d.lead, d.items[..k]);
            CutsAt(d, |Render(pre)| - Tail(pre) + x, k)
  {
    var pre, suf := Doc(d.lead, d.items[..k]), d.items[k..];
    var g := Tail(pre);
    var idx := |Render(pre)| - g + x;
    PutText(pre, g);
    ThenText(pre, suf);
    assert d == Then(pre, suf) by { assert d.items == d.items[..k] + suf; }
    var head := Render(Put(pre, 0));
    assert Render(pre) == head + NL(g);
    assert NL(g) == NL(x) + NL(g - x) && |NL(x)| == x && |NL(g)| == g;
    hide Render, Full, NL, Put;
    SplitRun(head, NL(x), NL(g - x), Full(suf));
    assert |head + NL(x)| == idx;
  }

  lemma SplitRun(head: string, x: string, y: string, tail: string)
    ensures var t := head + (x + y) + tail; t[..|head + x|] == head + x && t[|head + x|..] == y + tail
  {
    var t := head + (x + y) + tail;
    assert t == head + x + (y + tail);
  }

  lemma CutAtEnd(d: Doc)
    ensures CutsAt(d, |Render(d)|, |d.items|)
  {
    assert d.items[..|d.items|] == d.items;
    CutInGap(d, |d.items|, Tail(d));
  }

  lemma {:induction false} CutAfterLine(d: Doc, k: nat)
    requires 1 <= k <= |d.items|
    ensures CutsAt(d, d.lead + EndOff(d.items, k), k)
  {
    EndOffIs(d.items, k);
    var g := d.items[k - 1].gap;
    CutInGap(d, k, if g == 0 then 0 else 1);
  }

  lemma CutBeforeLine(d: Doc, k: nat)
    requires k <= |d.items|
    ensures CutsAt(d, d.lead + |Full(d.items[..k])|, k)
  {
    CutInGap(d, k, Tail(Doc(d.lead, d.items[..k])));
  }

  lemma DocLines(d: Doc)
    requires WF(d.items)
    ensures Lines(Render(d)) == Blanks(d.lead) + FlatLines(d.items)
  {
    LinesBlanks(d.lead, Full(d.items));
    LinesOfItems(d.items);
  }

  function PlaceOr(k: int, n: nat): int {
    if k == -1 then n else k
  }

  /** How many lines stand before the plugin block. */
  function PluginK(ss: seq<string>): (k: int)
    ensures 0 <= k <= |ss|
  {
    PlaceOr(PluginPlace(ss), |ss|)
  }

  /** How many lines stand before the NFLOG block. */
  function NflogK(ss: seq<string>): (k: int)
    ensures 0 <= k <= |ss|
  {
    if SectionPlace(ss, false) != -1 then SectionPlace(ss, false)
    else if StackPlace(ss, false) != -1 then StackPlace(ss, false)
    else PluginK(ss)
  }

  /** The index handed to InsertBlockAt; -1 stands for the end of the text. */
  ghost predicate CutsAtPoint(d: Doc, point: int, k: int) {
    CutsAt(d, if point < 0 || point > |Render(d)| then |Render(d)| else point, k)
  }

  lemma PluginCut(d: Doc)
    requires WF(d.items)
    ensures CutsAtPoint(d, PluginScan(Lines(Render(d)), 0, -1), PluginK(Strings(d.items)))
  {
    PluginScanDoc(d);
    StringsLength(d.items);
    hide CutsAt, Lines, Strings, Render, Full, PluginScan, PluginPlace;
    var k := PluginPlace(Strings(d.items));
    if k != -1 {
      LinePointCut(d, k);
    } else {
      CutAtEnd(d);
    }
  }

  lemma PluginScanDoc(d: Doc)
    requires WF(d.items)
    ensures var k := PluginPlace(Strings(d.items));
            |Strings(d.items)| == |d.items|
            && PluginScan(Lines(Render(d)), 0, -1) == if k == -1 then -1 else d.lead + EndOff(d.items, k)
  {
    hide Lines, Blanks, FlatLines, Render, Full, PluginScan, PluginPlace, Strings;
    DocLines(d);
    StringsLength(d.items);
    ScansSkipBlanks(d.lead, FlatLines(d.items), 0, -1, false);
    PluginScanItems(d.items, d.lead, -1);
  }

  lemma NflogCut(d: Doc)
    requires WF(d.items)
    ensures CutsAtPoint(d, NflogPoint(Render(d)), NflogK(Strings(d.items)))
  {
    hide CutsAtPoint, Lines, Strings, Render, Full, PluginScan, StackScan, SectionScan, PluginPlace, StackPlace, SectionPlace, EndOff;
    SectionScanDoc(d);
    StackScanDoc(d);
    PluginCut(d);
    var k, j := SectionPlace(Strings(d.items), false), StackPlace(Strings(d.items), false);
    if k != -1 {
      SectionPointCut(d, k);
    } else if j != -1 {
      LinePointCut(d, j);
    }
  }

  lemma SectionPointCut(d: Doc, k: nat)
    requires k <= |d.items|
    ensures CutsAtPoint(d, d.lead + |Full(d.items[..k])|, k)
  {
    FullPrefix(d, k);
    CutBeforeLine(d, k);
  }

  lemma {:induction false} LinePointCut(d: Doc, k: nat)
    requires 1 <= k <= |d.items|
    ensures CutsAtPoint(d, d.lead + EndOff(d.items, k), k)
  {
    EndWithin(d, k);
    CutAfterLine(d, k);
  }

  lemma SectionScanDoc(d: Doc)
    requires WF(d.items)
    ensures var k := SectionPlace(Strings(d.items), false);
            |Strings(d.items)| == |d.items|
            && SectionScan(Lines(Render(d)), 0, false) == if k == -1 then -1 else d.lead + |Full(d.items[..k])|
  {
    hide Lines, Blanks, FlatLines, Render, Full, StackScan, SectionScan, PluginScan, SectionPlace, Strings;
    DocLines(d);
    StringsLength(d.items);
    ScansSkipBlanks(d.lead, FlatLines(d.items), 0, -1, false);
    SectionScanItems(d.items, d.lead, false);
  }

  lemma StackScanDoc(d: Doc)
    requires WF(d.items)
    ensures var k := StackPlace(Strings(d.items), false);
            |Strings(d.items)| == |d.items|
            && StackScan(Lines(Render(d)), 0, -1, false) == if k == -1 then -1 else d.lead + EndOff(d.items, k)
  {
    hide Lines, Blanks, FlatLines, Render, Full, StackScan, SectionScan, PluginScan, StackPlace, Strings;
    DocLines(d);
    StringsLength(d.items);
    ScansSkipBlanks(d.lead, FlatLines(d.items), 0, -1, false);
    StackScanItems(d.items, d.lead, -1, false);
  }

  lemma FullPrefix(d: Doc, k: nat)
    requires k <= |d.items|
    ensures d.lead + |Full(d.items[..k])| <= |Render(d)|
  {
    FullConcat(d.items[..k], d.items[k..]);
    assert d.items == d.items[..k] + d.items[k..];
  }

  lemma {:induction false} EndWithin(d: Doc, k: nat)
    requires 1 <= k <= |d.items|
    ensures d.lead + EndOff(d.items, k) <= |Render(d)|
  {
    EndOffIs(d.items, k);
    FullPrefix(d, k);
  }
}

/** Begin markers somebody left in the configuration without their end: exactly those before the insertion
    point do harm, and what they cost. Shown for an upsert of the NFLOG block alone. */
module UlogdStray {
  import opened ConfigText
  import opened UlogdBlocks
  import opened UlogdDoc
  import opened UlogdPoints
  import opened UlogdTheorem

  /** Some lines may be the begin marker of the NFLOG block; otherwise there are no markers. */
  ghost predicate StrayOnly(items: seq<Item>) {
    && WF(items) && Lacks(items, PLUGIN_BEGIN_MARKER) && Lacks(items, END_MARKER)
    && forall i :: 0 <= i < |items| && Contains(items[i].s, BEGIN_MARKER) ==> items[i].s == BEGIN_MARKER
  }

  lemma Cut(d: Doc, k: nat)
    requires StrayOnly(d.items) && k <= |d.items|
    ensures var pre, c := Doc(d.lead, d.items[..k]), d.items[k..];
            && d == Then(pre, c) && pre.items + c == d.items && WF(pre.items) && WF(c)
            && Lacks(pre.items, PLUGIN_BEGIN_MARKER) && Lacks(c, PLUGIN_BEGIN_MARKER)
            && Lacks(pre.items, END_MARKER)
  {
    hide BEGIN_MARKER, END_MARKER, PLUGIN_BEGIN_MARKER, Contains;
    WFPart(d.items, k);
  }

  /** The text an upsert writes. */
  lemma Written(d: Doc, n: seq<Item>, k: nat)
    requires StrayOnly(d.items) && NflogBlockOk(n) && k == NflogK(Strings(d.items)) && k <= |d.items|
    ensures var pre, c := Doc(d.lead, d.items[..k]), d.items[k..];
            && Ups(d, [], n) == Then(Put(pre, 2), SetLast(n, 2) + Fin(c))
            && RemoveManagedBlocks(Render(Ups(d, [], n))) == RemoveMarkedBlock(Render(Ups(d, [], n)), BEGIN_MARKER, END_MARKER)
  {
    hide BEGIN_MARKER, END_MARKER, PLUGIN_BEGIN_MARKER, PLUGIN_END_MARKER, Lacks, Render, Ups, RemoveMarkedBlock, SetLast, Fin, Put, NflogK, Strings, WF;
    var pre, c := Doc(d.lead, d.items[..k]), d.items[k..];
    Cut(d, k);
    MarkerFacts();
    MarkersNotEmpty();
    UpsAlone(pre, c, n);
    PutWF(pre, 2);
    WFSetLast(n, 2);
    WFSetLast(c, 1);
    GapAtEnd(n);
    LacksPut(pre, 2, PLUGIN_BEGIN_MARKER);
    LacksSetLast(n, 2, PLUGIN_BEGIN_MARKER);
    LacksSetLast(c, 1, PLUGIN_BEGIN_MARKER);
    LacksConcat(SetLast(n, 2), Fin(c), PLUGIN_BEGIN_MARKER);
    LacksConcat(Put(pre, 2).items, SetLast(n, 2) + Fin(c), PLUGIN_BEGIN_MARKER);
    WFConcat(SetLast(n, 2), Fin(c));
    GapOfPut(pre);
    WFConcat(Put(pre, 2).items, SetLast(n, 2) + Fin(c));
    NothingToRemove(Ups(d, [], n), PLUGIN_BEGIN_MARKER, PLUGIN_END_MARKER);
  }

  lemma MarkersNotEmpty()
    ensures BEGIN_MARKER != "" && END_MARKER != "" && PLUGIN_BEGIN_MARKER != "" && PLUGIN_END_MARKER != ""
  {
  }

  lemma GapAtEnd(n: seq<Item>)
    requires n != []
    ensures SetLast(n, 2) != [] && SetLast(n, 2)[|SetLast(n, 2)| - 1].gap == 2
  {
  }

  lemma GapOfPut(pre: Doc)
    ensures var q := Put(pre, 2).items; q == [] || q[|q| - 1].gap == 2
  {
  }

  // ---- no marker before the insertion point -----------------------------------------------------------

  lemma KeptBehind(d: Doc, n: seq<Item>, k: nat)
    requires StrayOnly(d.items) && NflogBlockOk(n) && k == NflogK(Strings(d.items)) && k <= |d.items|
    requires Lacks(d.items[..k], BEGIN_MARKER)
    ensures var back := Then(Put(Doc(d.lead, d.items[..k]), 1), Fin(d.items[k..]));
            && RemoveManagedBlocks(Render(Ups(d, [], n))) == Render(back)
            && WF(back.items) && Strings(back.items) == Strings(d.items) && Ups(back, [], n) == Ups(d, [], n)
  {
    hide BEGIN_MARKER, END_MARKER, PLUGIN_BEGIN_MARKER, PLUGIN_END_MARKER, Lacks, Render, Ups, RemoveMarkedBlock, RemoveManagedBlocks, SetLast, Fin, Put, NflogK, Strings;
    var pre, c := Doc(d.lead, d.items[..k]), d.items[k..];
    Cut(d, k);
    Written(d, n, k);
    PutWF(pre, 2);
    WFSetLast(c, 1);
    LacksPut(pre, 2, BEGIN_MARKER);
    RemoveNflog(Put(pre, 2), n, 2, Fin(c));
    PutTwice(pre, 2, 1);
    BackAgain(pre, c);
    UpsAlone(Put(pre, 1), Fin(c), n);
  }

  lemma {:induction false} BackAgain(pre: Doc, c: seq<Item>)
    requires WF(pre.items + c)
    ensures var pre1, c1 := Put(pre, 1), Fin(c);
            && WF(Then(pre1, c1).items) && Strings(Then(pre1, c1).items) == Strings(pre.items + c)
            && |pre1.items| == |pre.items| && Put(pre1, 2) == Put(pre, 2) && Fin(c1) == c1
  {
    NilMiddle(pre.items, c);
    NilMiddle([], Fin(c));
    BackWF(pre, [], c);
    BackStrings(pre, [], c);
    PutWF(pre, 1);
    assert SetLast([], 1) == [];
    assert Then(Put(pre, 1), Fin(c)) == Back(pre, [], c);
    hide Strings, Back;
    PutTwice(pre, 1, 2);
    FinTwice(c);
  }

  // ---- a marker before the insertion point --------------------------------------------------------------

  /** The removal starts at the stray marker and takes everything down to the end of the block. */
  lemma LostBefore(d: Doc, n: seq<Item>, k: nat, i: nat)
    requires StrayOnly(d.items) && NflogBlockOk(n) && k == NflogK(Strings(d.items)) && i < k <= |d.items|
    requires d.items[i].s == BEGIN_MARKER && Lacks(d.items[..i], BEGIN_MARKER)
    ensures RemoveManagedBlocks(Render(Ups(d, [], n))) == Render(Then(Put(Doc(d.lead, d.items[..i]), 1), Fin(d.items[k..])))
  {
    hide BEGIN_MARKER, END_MARKER, PLUGIN_BEGIN_MARKER, PLUGIN_END_MARKER, Render, Ups, RemoveMarkedBlock, RemoveManagedBlocks, Fin, SetLast, NflogK, Strings, Contains, Lacks, WF, StrayOnly, Put;
    var pre, c, a := Doc(d.lead, d.items[..k]), d.items[k..], Doc(d.lead, d.items[..i]);
    Cut(d, k);
    Cut(d, i);
    Written(d, n, k);
    WFSetLast(c, 1);
    WFSetLast(n, 2);
    PutWF(pre, 2);
    var q, n2 := Put(pre, 2).items, SetLast(n, 2);
    PutSplit(d, k, i);
    StrayBlock(d, n, k, i);
    FromHere(d.lead, a.items, q[i..], n2, Fin(c));
    assert Put(pre, 2) == Doc(d.lead, a.items + q[i..]);
    RemoveText(a, q[i..] + n2, Fin(c), BEGIN_MARKER, END_MARKER);
  }

  lemma FromHere(lead: nat, a: seq<Item>, x: seq<Item>, y: seq<Item>, z: seq<Item>)
    ensures Then(Doc(lead, a), x + y + z) == Then(Doc(lead, a + x), y + z)
  {
    assert x + y + z == x + (y + z);
    assert a + (x + (y + z)) == a + x + (y + z);
  }

  lemma PutSplit(d: Doc, k: nat, i: nat)
    requires StrayOnly(d.items) && i < k <= |d.items|
    ensures var q, a := Put(Doc(d.lead, d.items[..k]), 2).items, Doc(d.lead, d.items[..i]);
            && |q| == k && q == a.items + q[i..] && Put(Doc(d.lead, d.items[..k]), 2).lead == d.lead
            && (a.items == [] || Tail(a) > 0)
  {
    hide BEGIN_MARKER, END_MARKER, PLUGIN_BEGIN_MARKER, Contains, Lacks;
  }

  /** What stands from the stray marker to the end of the block is one block to the removal. */
  lemma StrayBlock(d: Doc, n: seq<Item>, k: nat, i: nat)
    requires StrayOnly(d.items) && NflogBlockOk(n) && i < k <= |d.items| && d.items[i].s == BEGIN_MARKER
    requires |Put(Doc(d.lead, d.items[..k]), 2).items| == k
    ensures var b := Put(Doc(d.lead, d.items[..k]), 2).items[i..] + SetLast(n, 2);
            && WF(b) && |b| >= 2 && b[0].s == BEGIN_MARKER && b[|b| - 1].s == END_MARKER && Lacks(b[..|b| - 1], END_MARKER)
  {
    hide BEGIN_MARKER, END_MARKER, PLUGIN_BEGIN_MARKER, PLUGIN_END_MARKER, Contains, Put, WF, Lacks;
    var x, n2 := Put(Doc(d.lead, d.items[..k]), 2).items[i..], SetLast(n, 2);
    PutFacts(d, k, i);
    WFSetLast(n, 2);
    WFConcat(x, n2);
    var b := x + n2;
    assert b[..|b| - 1] == x + n2[..|n2| - 1] && n2[..|n2| - 1] == n[..|n| - 1];
    LacksConcat(x, n2[..|n2| - 1], END_MARKER);
  }

  lemma PutFacts(d: Doc, k: nat, i: nat)
    requires StrayOnly(d.items) && i < k <= |d.items| && |Put(Doc(d.lead, d.items[..k]), 2).items| == k
    ensures var x := Put(Doc(d.lead, d.items[..k]), 2).items[i..];
            WF(x) && Lacks(x, END_MARKER) && x[0].s == d.items[i].s && x[|x| - 1].gap > 0
  {
    hide BEGIN_MARKER, END_MARKER, PLUGIN_BEGIN_MARKER, Contains;
    var q := Put(Doc(d.lead, d.items[..k]), 2).items;
    assert forall j :: 0 <= j < k ==> q[j].s == d.items[j].s && q[j].gap > 0;
    hide Put;
    assert forall j :: 0 <= j < k - i ==> q[i..][j] == q[i + j];
  }

  /** MAIN: the lines come back exactly when no begin marker stands before the insertion point; otherwise all
      lines from the first such marker to the insertion point are gone. */
  lemma {:induction false} StrayMarkersIff(config: string, n: seq<Item>)
    requires StrayOnly(Parse(config).items) && NflogBlockOk(n)
    ensures var lines := NonEmptyLines(config);
            var k := NflogK(lines);
            var written := Upserted(config, "", Full(n));
            var rest := RemoveManagedBlocks(written);
            && (NonEmptyLines(rest) == lines <==> BEGIN_MARKER !in lines[..k])
            && (BEGIN_MARKER !in lines[..k] ==> Upserted(rest, "", Full(n)) == written)
            && forall i :: 0 <= i < k && lines[i] == BEGIN_MARKER && BEGIN_MARKER !in lines[..i] ==> NonEmptyLines(rest) == lines[..i] + lines[k..]
  {
    hide BEGIN_MARKER, END_MARKER, PLUGIN_BEGIN_MARKER, PLUGIN_END_MARKER, Render, Ups, RemoveManagedBlocks, Fin, Put, NflogK, Upserted, Parse, Contains, NflogBlockOk, Then, Strings, StrayOnly, WF;
    var d := Parse(config);
    ParseRenders(config);
    var lines := NonEmptyLines(config);
    var k := NflogK(lines);
    StringsLength(d.items);
    assert Full([]) == "";
    hide Full;
    UpsText(d, [], n);
    var rest := RemoveManagedBlocks(Upserted(config, "", Full(n)));
    if BEGIN_MARKER in lines[..k] {
      var i := FirstMarker(lines, k);
      MarkerLines(d, i);
      LostBefore(d, n, k, i);
      LostLines(d, i, k);
      assert lines[..i] + lines[k..] != lines;
      assert forall j :: 0 <= j < k && lines[j] == BEGIN_MARKER && BEGIN_MARKER !in lines[..j] ==> j == i by {
        OneFirst(lines, i, k);
      }
    } else {
      MarkerLines(d, k);
      KeptBehind(d, n, k);
      var back := Then(Put(Doc(d.lead, d.items[..k]), 1), Fin(d.items[k..]));
      RenderParsesDoc(back);
      UpsText(back, [], n);
      assert forall j :: 0 <= j < k ==> lines[j] in lines[..k];
    }
  }

  lemma OneFirst(lines: seq<string>, i: nat, k: nat)
    requires i < k <= |lines| && lines[i] == BEGIN_MARKER && BEGIN_MARKER !in lines[..i]
    ensures forall j :: 0 <= j < k && lines[j] == BEGIN_MARKER && BEGIN_MARKER !in lines[..j] ==> j == i
  {
    hide BEGIN_MARKER;
    forall j | 0 <= j < k
      ensures lines[j] == BEGIN_MARKER && BEGIN_MARKER !in lines[..j] ==> j == i
    {
      assert j < i ==> lines[..i][j] == lines[j];
      assert i < j ==> lines[..j][i] == lines[i];
    }
  }

  lemma {:induction false} FirstMarker(lines: seq<string>, k: nat) returns (i: nat)
    requires k <= |lines| && BEGIN_MARKER in lines[..k]
    ensures i < k && lines[i] == BEGIN_MARKER && BEGIN_MARKER !in lines[..i]
    decreases k
  {
    hide BEGIN_MARKER;
    assert lines[..k] == lines[..k - 1] + [lines[k - 1]];
    if BEGIN_MARKER in lines[..k - 1] {
      i := FirstMarker(lines, k - 1);
    } else {
      i := k - 1;
    }
  }

  lemma MarkerLines(d: Doc, i: nat)
    requires StrayOnly(d.items) && i <= |d.items|
    ensures |Strings(d.items)| == |d.items| && forall j :: 0 <= j < |d.items| ==> Strings(d.items)[j] == d.items[j].s
    ensures BEGIN_MARKER !in Strings(d.items)[..i] ==> Lacks(d.items[..i], BEGIN_MARKER)
  {
    hide BEGIN_MARKER, END_MARKER, PLUGIN_BEGIN_MARKER, Contains;
    StringsLength(d.items);
    hide Strings;
    if BEGIN_MARKER !in Strings(d.items)[..i] {
      forall j | 0 <= j < i
        ensures !Contains(d.items[j].s, BEGIN_MARKER)
      {
        assert Strings(d.items)[..i][j] == d.items[j].s;
      }
    }
  }

  lemma LostLines(d: Doc, i: nat, k: nat)
    requires StrayOnly(d.items) && i < k <= |d.items| && |Strings(d.items)| == |d.items|
    ensures NonEmptyLines(Render(Then(Put(Doc(d.lead, d.items[..i]), 1), Fin(d.items[k..])))) == Strings(d.items)[..i] + Strings(d.items)[k..]
  {
    hide Render, Parse, Contains, Lacks, BEGIN_MARKER, END_MARKER, PLUGIN_BEGIN_MARKER;
    var a, c := Doc(d.lead, d.items[..i]), d.items[k..];
    WFPart(d.items, i);
    WFPart(d.items, k);
    PutWF(a, 1);
    GapOne(a);
    WFSetLast(c, 1);
    WFConcat(Put(a, 1).items, Fin(c));
    hide Put, Fin, WF, Strings;
    RenderParsesDoc(Then(Put(a, 1), Fin(c)));
    StringsConcat(Put(a, 1).items, Fin(c));
    StringsPut(a, 1);
    StringsSetLast(c, 1);
    PartStrings(d.items, i);
    PartStrings(d.items, k);
  }

  lemma GapOne(a: Doc)
    ensures var q := Put(a, 1).items; q == [] || q[|q| - 1].gap == 1
  {
  }

  lemma {:induction false} PartStrings(items: seq<Item>, k: nat)
    requires k <= |items|
    ensures |Strings(items)| == |items| && Strings(items[..k]) == Strings(items)[..k] && Strings(items[k..]) == Strings(items)[k..]
  {
    StringsLength(items);
    StringsLength(items[..k]);
    assert items == items[..k] + items[k..];
    StringsConcat(items[..k], items[k..]);
    hide Strings;
  }
}

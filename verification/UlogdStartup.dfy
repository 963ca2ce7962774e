/** The blocks condenser renders are proper blocks, and what one startup writes the next one leaves alone. */
module UlogdStartup {
  import opened ConfigText
  import opened Text
  import opened UlogdBlocks
  import opened UlogdDoc
  import opened UlogdPoints
  import opened UlogdTheorem

  // ---- a block given line by line -------------------------------------------------------------------

  function LeadingBlanks(lines: seq<string>): (n: nat)
    ensures n <= |lines| && (n < |lines| ==> lines[n] != "") && forall i :: 0 <= i < n ==> lines[i] == ""
  {
    if lines == [] || lines[0] != "" then 0 else 1 + LeadingBlanks(lines[1..])
  }

  /** Lines as items: a run of blank lines becomes the gap before the next line. */
  function ItemsOf(lines: seq<string>): seq<Item>
    decreases |lines|
  {
    if lines == [] then []
    else
      var n := LeadingBlanks(lines[1..]);
      if |lines| == 1 then [Item(lines[0], 0)] else [Item(lines[0], n + 1)] + ItemsOf(lines[1 + n..])
  }

  ghost predicate BlockLines(lines: seq<string>) {
    && lines != [] && lines[0] != "" && lines[|lines| - 1] != ""
    && forall i :: 0 <= i < |lines| ==> '\n' !in lines[i]
  }

  lemma {:induction false} JoinBlanks(n: nat, lines: seq<string>)
    requires n < |lines| && forall i :: 0 <= i < n ==> lines[i] == ""
    ensures Join(lines, '\n') == NL(n) + Join(lines[n..], '\n')
    decreases n
  {
    if n > 0 {
      JoinBlanks(n - 1, lines[1..]);
      assert lines[1..][n - 1..] == lines[n..];
      assert "" + ['\n'] + (NL(n - 1) + Join(lines[n..], '\n')) == NL(n) + Join(lines[n..], '\n');
    } else {
      assert lines[0..] == lines && NL(0) + Join(lines, '\n') == Join(lines, '\n');
    }
  }

  /** What follows the first line and the blank lines after it. */
  lemma RestOf(lines: seq<string>) returns (n: nat, rest: seq<string>)
    requires BlockLines(lines) && |lines| > 1
    ensures n < |lines| - 1 && rest == lines[1 + n..] && BlockLines(rest) && forall i :: 1 <= i <= n ==> lines[i] == ""
    ensures ItemsOf(lines) == [Item(lines[0], n + 1)] + ItemsOf(rest)
    ensures Join(lines, '\n') == lines[0] + ['\n'] + (NL(n) + Join(rest, '\n'))
  {
    var tail := lines[1..];
    n := LeadingBlanks(tail);
    assert tail[|tail| - 1] == lines[|lines| - 1];
    assert n < |tail|;
    rest := lines[1 + n..];
    assert tail[n..] == rest;
    assert rest[0] == tail[n] && rest[|rest| - 1] == lines[|lines| - 1];
    JoinBlanks(n, tail);
  }

  lemma {:induction false} JoinIsFull(lines: seq<string>)
    requires BlockLines(lines)
    ensures Join(lines, '\n') == Full(ItemsOf(lines))
    decreases |lines|
  {
    if |lines| == 1 {
      assert Full([Item(lines[0], 0)]) == lines[0] + NL(0) + Full([]);
    } else {
      var n, rest := RestOf(lines);
      JoinIsFull(rest);
      hide ItemsOf, Join;
      var items := [Item(lines[0], n + 1)] + ItemsOf(rest);
      assert items[1..] == ItemsOf(rest);
      NewlineRun(lines[0], n, Full(ItemsOf(rest)));
    }
  }

  lemma NewlineRun(s: string, n: nat, t: string)
    ensures s + ['\n'] + (NL(n) + t) == s + NL(n + 1) + t
  {
  }

  ghost predicate ShapeOf(b: seq<Item>, lines: seq<string>) {
    && lines != [] && WF(b) && b != [] && b[0].s == lines[0] && b[|b| - 1] == Item(lines[|lines| - 1], 0)
    && (|lines| > 1 ==> |b| > 1)
    && (forall i :: 0 <= i < |b| - 1 ==> b[i].s in lines[..|lines| - 1])
  }

  lemma {:induction false} ItemsOfShape(lines: seq<string>)
    requires BlockLines(lines)
    ensures ShapeOf(ItemsOf(lines), lines)
    decreases |lines|
  {
    if |lines| > 1 {
      var n, rest := RestOf(lines);
      ItemsOfShape(rest);
      var c := ItemsOf(rest);
      hide ItemsOf, Join;
      ShapeStep(lines, n, rest, c);
    }
  }

  lemma ShapeStep(lines: seq<string>, n: nat, rest: seq<string>, c: seq<Item>)
    requires BlockLines(lines) && n < |lines| - 1 && rest == lines[1 + n..] && ShapeOf(c, rest)
    ensures ShapeOf([Item(lines[0], n + 1)] + c, lines)
  {
    var b := [Item(lines[0], n + 1)] + c;
    forall i | 0 <= i < |b| - 1
      ensures b[i].s in lines[..|lines| - 1]
    {
      if i == 0 {
        assert lines[..|lines| - 1][0] == lines[0];
      } else {
        assert b[i] == c[i - 1];
        var j :| 0 <= j < |rest| - 1 && rest[..|rest| - 1][j] == c[i - 1].s;
        assert lines[..|lines| - 1][1 + n + j] == rest[j];
      }
    }
  }

  // ---- lines without markers ----------------------------------------------------------------------------

  /** A line with no '#' but perhaps at its start, where no marker begins. */
  predicate Harmless(s: string) {
    && '\n' !in s
    && (s == "" || '#' !in s[1..])
    && (s != "" && s[0] == '#' ==> |s| > 2 && s[2] != 'B' && s[2] != 'E')
  }

  lemma {:induction false} NoHashNoMarker(s: string, m: string)
    requires '#' !in s && m != "" && m[0] == '#'
    ensures !Contains(s, m)
    decreases |s|
  {
    if s != "" {
      assert s[0] in s;
      NoHashNoMarker(s[1..], m);
    }
  }

  predicate IsMarker(m: string) {
    m in {BEGIN_MARKER, END_MARKER, PLUGIN_BEGIN_MARKER, PLUGIN_END_MARKER}
  }

  predicate MarkerLike(m: string) {
    |m| > 24 && m[0] == '#' && (m[2] == 'B' || m[2] == 'E') && '#' !in m[1..] && '\n' !in m
  }

  lemma BeginShape()
    ensures MarkerLike(BEGIN_MARKER) && BEGIN_MARKER[2] == 'B' && BEGIN_MARKER[22] == 'N'
  {
    assert BEGIN_MARKER[1..] == " BEGIN RAIND MANAGED NFLOG CONFIG";
  }

  lemma EndShape()
    ensures MarkerLike(END_MARKER) && END_MARKER[2] == 'E' && END_MARKER[20] == 'N'
  {
    assert END_MARKER[1..] == " END RAIND MANAGED NFLOG CONFIG";
  }

  lemma PluginBeginShape()
    ensures MarkerLike(PLUGIN_BEGIN_MARKER) && PLUGIN_BEGIN_MARKER[2] == 'B' && PLUGIN_BEGIN_MARKER[22] == 'U'
  {
    assert PLUGIN_BEGIN_MARKER[1..] == " BEGIN RAIND MANAGED ULOGD PLUGINS";
  }

  lemma PluginEndShape()
    ensures MarkerLike(PLUGIN_END_MARKER) && PLUGIN_END_MARKER[2] == 'E' && PLUGIN_END_MARKER[20] == 'U'
  {
    assert PLUGIN_END_MARKER[1..] == " END RAIND MANAGED ULOGD PLUGINS";
  }

  lemma MarkerShape(m: string)
    requires IsMarker(m)
    ensures MarkerLike(m)
  {
    hide MarkerLike, BEGIN_MARKER, END_MARKER, PLUGIN_BEGIN_MARKER, PLUGIN_END_MARKER;
    BeginShape();
    EndShape();
    PluginBeginShape();
    PluginEndShape();
  }

  lemma HarmlessLacks(s: string, m: string)
    requires Harmless(s) && IsMarker(m)
    ensures !Contains(s, m)
  {
    MarkerShape(m);
    hide IsMarker;
    if s != "" {
      NoHashNoMarker(s[1..], m);
      assert !(m <= s) by {
        if s[0] == '#' {
          assert s[2] != m[2];
        } else {
          assert s[0] != m[0];
        }
      }
    }
  }

  /** A marker contains no other marker. */
  lemma MarkersApart(s: string, m: string)
    requires IsMarker(s) && IsMarker(m) && s != m
    ensures !Contains(s, m)
  {
    hide BEGIN_MARKER, END_MARKER, PLUGIN_BEGIN_MARKER, PLUGIN_END_MARKER;
    MarkerShape(s);
    MarkerShape(m);
    NoHashNoMarker(s[1..], m);
    assert !(m <= s) by {
      BeginShape();
      EndShape();
      PluginBeginShape();
      PluginEndShape();
      assert m[2] != s[2] || m[20] != s[20] || m[22] != s[22];
    }
  }

  // ---- the rendered blocks ----------------------------------------------------------------------------------

  /** Lines between markers that no marker can be confused with. */
  ghost predicate Enclosed(lines: seq<string>, begin: string, end: string) {
    && |lines| >= 2 && lines[0] == begin && lines[|lines| - 1] == end
    && forall i :: 0 < i < |lines| - 1 ==> Harmless(lines[i])
  }

  lemma EnclosedLacks(lines: seq<string>, begin: string, end: string, m: string)
    requires Enclosed(lines, begin, end) && IsMarker(begin) && IsMarker(end) && IsMarker(m) && begin != end && m != begin
    ensures forall s :: s in lines[..|lines| - 1] ==> !Contains(s, m)
    ensures m != end ==> forall s :: s in lines ==> !Contains(s, m)
  {
    hide IsMarker, Harmless;
    forall i | 0 <= i < |lines| && (i == |lines| - 1 ==> m != end)
      ensures !Contains(lines[i], m)
    {
      if i == 0 || i == |lines| - 1 {
        MarkersApart(lines[i], m);
      } else {
        HarmlessLacks(lines[i], m);
      }
    }
  }

  lemma {:induction false} EnclosedBlock(lines: seq<string>, begin: string, end: string)
    requires Enclosed(lines, begin, end) && IsMarker(begin) && IsMarker(end) && begin != end
    ensures Block(ItemsOf(lines), begin, end) && Join(lines, '\n') == Full(ItemsOf(lines))
    ensures forall m :: IsMarker(m) && m != begin && m != end ==> Lacks(ItemsOf(lines), m)
  {
    hide IsMarker, BEGIN_MARKER, END_MARKER, PLUGIN_BEGIN_MARKER, PLUGIN_END_MARKER, ItemsOf, Join, Full, Contains;
    MarkerShape(begin);
    MarkerShape(end);
    assert BlockLines(lines);
    hide Harmless, MarkerLike;
    JoinIsFull(lines);
    ItemsOfShape(lines);
    var b := ItemsOf(lines);
    EnclosedLacks(lines, begin, end, end);
    assert Lacks(b[..|b| - 1], end);
    forall m | IsMarker(m) && m != begin && m != end
      ensures Lacks(b, m)
    {
      EnclosedLacks(lines, begin, end, m);
      assert b[|b| - 1].s == lines[|lines| - 1];
    }
  }

  /** Text that can stand in a line without looking like a marker. */
  predicate Plain(s: string) {
    '#' !in s && '\n' !in s
  }

  ghost predicate AllHarmless(lines: seq<string>) {
    forall i :: 0 <= i < |lines| ==> Harmless(lines[i])
  }

  lemma PlainHarmless(s: string)
    requires Plain(s)
    ensures Harmless(s)
  {
    assert s != "" ==> s[0] in s;
  }

  lemma HarmlessConcat(a: seq<string>, b: seq<string>)
    requires AllHarmless(a) && AllHarmless(b)
    ensures AllHarmless(a + b)
  {
  }

  lemma NoteHarmless(tail: string)
    requires Plain(tail) && |tail| > 1 && tail[1] != 'B' && tail[1] != 'E'
    ensures Harmless("#" + tail)
  {
    assert ("#" + tail)[1..] == tail;
  }

  lemma PlainConcat(a: string, b: string)
    requires Plain(a) && Plain(b)
    ensures Plain(a + b)
  {
  }

  lemma ManagedPieces()
    ensures Plain(" This block is managed by Raind.")
  {
  }

  lemma OverwrittenPiece()
    ensures Plain(" may be overwritten.")
  {
  }

  lemma ManualPiece()
    ensures Plain(" Manual changes inside this block")
  {
  }

  lemma ManagedNote()
    ensures Harmless(MANAGED_NOTE)
  {
    ManagedPieces();
    OverwrittenPiece();
    ManualPiece();
    hide Plain, Harmless;
    var a, b, c := " This block is managed by Raind.", " Manual changes inside this block", " may be overwritten.";
    PlainConcat(a, b);
    PlainConcat(a + b, c);
    NoteHarmless(a + b + c);
  }

  lemma CollectPiece()
    ensures Plain(" It configures ulogd to collect")
  {
  }

  lemma GroupsPiece()
    ensures Plain(" Raind NFLOG groups 10, 11, and 12.")
  {
  }

  lemma NflogNote()
    ensures Harmless(NFLOG_NOTE)
  {
    CollectPiece();
    GroupsPiece();
    hide Plain, Harmless;
    PlainConcat(" It configures ulogd to collect", " Raind NFLOG groups 10, 11, and 12.");
    NoteHarmless(" It configures ulogd to collect" + " Raind NFLOG groups 10, 11, and 12.");
  }

  lemma InputsNote()
    ensures Harmless(INPUTS_NOTE)
  {
    NoteHarmless(" ---- Raind inputs (NFLOG groups) ----");
  }

  lemma InstancesNote()
    ensures Harmless(INSTANCES_NOTE)
  {
    NoteHarmless(" ---- Raind common instances ----");
  }

  lemma GroupLines(group: string)
    requires Plain(group)
    ensures Harmless(StackOf(group)) && AllHarmless(InputOf(group))
  {
    StackPlain(group);
    PlainHarmless(StackOf(group));
    InputPlain(group);
    PlainHarmless("[raind_log" + group + "]");
    PlainHarmless("group=" + group);
  }

  lemma StackPieces()
    ensures Plain("stack=raind_log") && Plain(":NFLOG,raind_base:BASE")
  {
  }

  lemma IfindexPiece()
    ensures Plain(",raind_ifi:IFINDEX,raind_ip2str:IP2STR")
  {
  }

  lemma PrintPiece()
    ensures Plain(",raind_print:PRINTPKT,raind_json:JSON")
  {
  }

  lemma StackPlain(group: string)
    requires Plain(group)
    ensures Plain(StackOf(group))
  {
    StackPieces();
    IfindexPiece();
    PrintPiece();
    hide Plain;
    var a, b, c, e := "stack=raind_log", ":NFLOG,raind_base:BASE", ",raind_ifi:IFINDEX,raind_ip2str:IP2STR", ",raind_print:PRINTPKT,raind_json:JSON";
    PlainConcat(a, group);
    PlainConcat(a + group, b);
    PlainConcat(a + group + b, c);
    PlainConcat(a + group + b + c, e);
  }

  lemma InputPlain(group: string)
    requires Plain(group)
    ensures Plain("[raind_log" + group + "]") && Plain("group=" + group)
  {
  }

  lemma InstanceLines(outputPath: string)
    requires Plain(outputPath)
    ensures AllHarmless(COMMON_LINES)
    ensures AllHarmless(JsonLines(outputPath))
  {
    CommonPlain();
    JsonPlain(outputPath);
    hide Plain;
    PlainHarmless("[raind_base]");
    PlainHarmless("[raind_ifi]");
    PlainHarmless("[raind_ip2str]");
    PlainHarmless("[raind_print]");
    PlainHarmless("[raind_json]");
    PlainHarmless("file=\"" + outputPath + "\"");
    PlainHarmless("sync=1");
    PlainHarmless("");
    hide Harmless;
  }

  lemma CommonPlain()
    ensures Plain("[raind_base]") && Plain("[raind_ifi]") && Plain("[raind_ip2str]") && Plain("[raind_print]") && Plain("")
  {
  }

  lemma JsonPlain(outputPath: string)
    requires Plain(outputPath)
    ensures Plain("[raind_json]") && Plain("sync=1") && Plain("file=\"" + outputPath + "\"")
  {
  }

  lemma NflogLinesHarmless(outputPath: string)
    requires Plain(outputPath)
    ensures AllHarmless(NflogLines(outputPath))
  {
    assert Plain("10") && Plain("11") && Plain("12") && Plain("");
    hide Plain, Harmless, MANAGED_NOTE, NFLOG_NOTE, INPUTS_NOTE, INSTANCES_NOTE, StackOf, InputOf;
    ManagedNote();
    NflogNote();
    InputsNote();
    InstancesNote();
    GroupLines("10");
    GroupLines("11");
    GroupLines("12");
    InstanceLines(outputPath);
    PlainHarmless("");
    var a := [MANAGED_NOTE, NFLOG_NOTE, ""] + [StackOf("10"), StackOf("11"), StackOf("12"), ""];
    assert AllHarmless(a) && AllHarmless([INPUTS_NOTE]) && AllHarmless([INSTANCES_NOTE]);
    hide AllHarmless;
    HarmlessConcat([INPUTS_NOTE], InputOf("10"));
    HarmlessConcat([INPUTS_NOTE] + InputOf("10"), InputOf("11"));
    HarmlessConcat([INPUTS_NOTE] + InputOf("10") + InputOf("11"), InputOf("12"));
    FourParts(a, [INPUTS_NOTE] + InputOf("10") + InputOf("11") + InputOf("12"), [INSTANCES_NOTE], COMMON_LINES, JsonLines(outputPath));
    NflogParts(outputPath);
  }

  const COMMON_LINES: seq<string> := ["[raind_base]", "[raind_ifi]", "[raind_ip2str]", "[raind_print]", ""]

  function JsonLines(outputPath: string): seq<string> {
    ["[raind_json]", "file=\"" + outputPath + "\"", "sync=1", ""]
  }

  lemma FourParts(a: seq<string>, b: seq<string>, c: seq<string>, d: seq<string>, e: seq<string>)
    requires AllHarmless(a) && AllHarmless(b) && AllHarmless(c) && AllHarmless(d) && AllHarmless(e)
    ensures AllHarmless(a + b + (c + d) + e)
  {
    hide AllHarmless;
    HarmlessConcat(a, b);
    HarmlessConcat(c, d);
    HarmlessConcat(a + b, c + d);
    HarmlessConcat(a + b + (c + d), e);
  }

  lemma NflogParts(outputPath: string)
    ensures NflogLines(outputPath) ==
            [MANAGED_NOTE, NFLOG_NOTE, ""] + [StackOf("10"), StackOf("11"), StackOf("12"), ""]
            + ([INPUTS_NOTE] + InputOf("10") + InputOf("11") + InputOf("12")) + ([INSTANCES_NOTE] + COMMON_LINES) + JsonLines(outputPath)
  {
    hide MANAGED_NOTE, NFLOG_NOTE, INPUTS_NOTE, INSTANCES_NOTE, StackOf, InputOf;
  }

  lemma {:induction false} PluginLinesHarmless(plugins: seq<string>, paths: map<string, string>, config: string)
    requires forall p :: p in paths ==> Plain(paths[p])
    ensures AllHarmless(PluginLines(plugins, paths, config))
    decreases |plugins|
  {
    if plugins != [] {
      var n := |plugins| - 1;
      var p := plugins[n];
      PluginLinesHarmless(plugins[..n], paths, config);
      if p in paths {
        PlainHarmless(PluginLine(paths[p]));
      }
      hide Harmless;
    }
  }

  /** The rendered NFLOG block is a proper block, whatever plain path the log goes to. */
  lemma NflogBlockIsProper(outputPath: string) returns (n: seq<Item>)
    requires Plain(outputPath)
    ensures NflogBlockOk(n) && Full(n) == NflogBlock(outputPath)
    ensures n == ItemsOf([BEGIN_MARKER] + NflogLines(outputPath) + [END_MARKER])
  {
    hide BEGIN_MARKER, END_MARKER, PLUGIN_BEGIN_MARKER, PLUGIN_END_MARKER, NflogLines, Harmless, MarkerLike, ItemsOf, Plain, Join, Full;
    var lines := [BEGIN_MARKER] + NflogLines(outputPath) + [END_MARKER];
    NflogLinesHarmless(outputPath);
    BeginShape();
    EndShape();
    PluginBeginShape();
    PluginEndShape();
    assert Enclosed(lines, BEGIN_MARKER, END_MARKER);
    EnclosedBlock(lines, BEGIN_MARKER, END_MARKER);
    n := ItemsOf(lines);
    assert IsMarker(PLUGIN_BEGIN_MARKER) && IsMarker(PLUGIN_END_MARKER);
  }

  /** So is the rendered plugin block, unless it is empty. */
  lemma PluginBlockIsProper(paths: map<string, string>, config: string) returns (p: seq<Item>)
    requires forall x :: x in paths ==> Plain(paths[x])
    ensures (p == [] || PluginBlockOk(p)) && Full(p) == PluginBlock(paths, config)
    ensures p == if PluginLines(REQUIRED_PLUGINS, paths, config) == [] then []
                 else ItemsOf([PLUGIN_BEGIN_MARKER] + ([MANAGED_NOTE] + PluginLines(REQUIRED_PLUGINS, paths, config)) + [PLUGIN_END_MARKER])
  {
    hide PluginLines, REQUIRED_PLUGINS;
    var inner := PluginLines(REQUIRED_PLUGINS, paths, config);
    if inner == [] {
      p := [];
    } else {
      var lines := [PLUGIN_BEGIN_MARKER] + ([MANAGED_NOTE] + inner) + [PLUGIN_END_MARKER];
      PluginLinesHarmless(REQUIRED_PLUGINS, paths, config);
      ManagedNote();
      PluginBeginShape();
      PluginEndShape();
      hide PLUGIN_BEGIN_MARKER, PLUGIN_END_MARKER, MANAGED_NOTE, Harmless, MarkerLike;
      assert Enclosed(lines, PLUGIN_BEGIN_MARKER, PLUGIN_END_MARKER);
      EnclosedBlock(lines, PLUGIN_BEGIN_MARKER, PLUGIN_END_MARKER);
      p := ItemsOf(lines);
    }
  }

  // ---- the plugin block depends on the nonempty lines only --------------------------------------------------

  ghost predicate LinesMention(ss: seq<string>, plugin: string) {
    exists i :: 0 <= i < |ss| && LineMentions(ss[i], plugin)
  }

  lemma MentionTerminated(s: string, plugin: string)
    ensures LineMentions(s + "\n", plugin) == LineMentions(s, plugin)
  {
    TrimTerminated(s);
  }

  lemma BlankMentions(plugin: string)
    ensures !LineMentions("\n", plugin)
  {
    BlankLine();
    assert |"plugin="| == 7;
  }

  lemma MentionConcat(a: seq<string>, b: seq<string>, plugin: string)
    ensures LinesMention(a + b, plugin) <==> LinesMention(a, plugin) || LinesMention(b, plugin)
  {
    hide LineMentions;
    if LinesMention(a, plugin) {
      var i :| 0 <= i < |a| && LineMentions(a[i], plugin);
      assert (a + b)[i] == a[i];
    }
    if LinesMention(b, plugin) {
      var i :| 0 <= i < |b| && LineMentions(b[i], plugin);
      assert (a + b)[|a| + i] == b[i];
    }
  }

  lemma MentionOne(s: string, plugin: string)
    ensures LinesMention([s], plugin) <==> LineMentions(s, plugin)
  {
    assert LineMentions(s, plugin) ==> LineMentions([s][0], plugin);
  }

  lemma {:induction false} MentionItems(items: seq<Item>, plugin: string)
    ensures LinesMention(FlatLines(items), plugin) <==> LinesMention(Strings(items), plugin)
    decreases |items|
  {
    if items != [] {
      var it := items[0];
      MentionItems(items[1..], plugin);
      MentionTerminated(it.s, plugin);
      MentionConcat([it.s], Strings(items[1..]), plugin);
      MentionOne(it.s, plugin);
      MentionOne(it.s + "\n", plugin);
      hide LineMentions, LinesMention;
      if it.gap == 0 {
        MentionConcat([it.s], FlatLines(items[1..]), plugin);
      } else {
        BlanksMention(it.gap - 1, plugin);
        MentionConcat([it.s + "\n"], Blanks(it.gap - 1), plugin);
        MentionConcat([it.s + "\n"] + Blanks(it.gap - 1), FlatLines(items[1..]), plugin);
      }
    }
  }

  lemma BlanksMention(n: nat, plugin: string)
    ensures !LinesMention(Blanks(n), plugin)
  {
    BlankMentions(plugin);
    hide LineMentions;
  }

  lemma MentionsByLines(config: string, plugin: string)
    ensures ConfigMentionsPlugin(config, plugin) <==> LinesMention(NonEmptyLines(config), plugin)
  {
    var d := Parse(config);
    ParseRenders(config);
    DocLines(d);
    MentionItems(d.items, plugin);
    BlanksMention(d.lead, plugin);
    hide LineMentions;
    MentionConcat(Blanks(d.lead), FlatLines(d.items), plugin);
    assert ConfigMentionsPlugin(config, plugin) <==> LinesMention(Lines(config), plugin);
  }

  lemma {:induction false} SamePluginLines(plugins: seq<string>, paths: map<string, string>, a: string, b: string)
    requires NonEmptyLines(a) == NonEmptyLines(b)
    ensures PluginLines(plugins, paths, a) == PluginLines(plugins, paths, b)
    decreases |plugins|
  {
    hide ConfigMentionsPlugin, NonEmptyLines, LinesMention;
    if plugins != [] {
      var n := |plugins| - 1;
      SamePluginLines(plugins[..n], paths, a, b);
      MentionsByLines(a, plugins[n]);
      MentionsByLines(b, plugins[n]);
    }
  }

  // ---- main result ---------------------------------------------------------------------------------------------

  /** MAIN: what a startup writes over a configuration without begin markers, the next startup leaves as it
      is, byte for byte; and removing the managed blocks gives back the original nonempty lines, in order. */
  lemma StartupIsIdempotent(config: string, paths: map<string, string>, outputPath: string)
    requires MarkerFree(RemoveManagedBlocks(config))
    requires Plain(outputPath) && forall x :: x in paths ==> Plain(paths[x])
    ensures var written := Startup(config, paths, outputPath);
            && Startup(written, paths, outputPath) == written
            && NonEmptyLines(RemoveManagedBlocks(written)) == NonEmptyLines(RemoveManagedBlocks(config))
  {
    hide Plain, NflogBlock, NflogBlockOk, PluginBlockOk, MarkerFree, NonEmptyLines, RemoveManagedBlocks, Upserted, Full, PluginLines, REQUIRED_PLUGINS,
         Join, PLUGIN_BEGIN_MARKER, PLUGIN_END_MARKER;
    var rest := RemoveManagedBlocks(config);
    var p := PluginBlockIsProper(paths, rest);
    var n := NflogBlockIsProper(outputPath);
    UpsertRoundtrip(rest, p, n);
    var again := RemoveManagedBlocks(Startup(config, paths, outputPath));
    SamePluginLines(REQUIRED_PLUGINS, paths, again, rest);
  }
}

/** What one startup writes: every line that was there, every plugin line that was missing, and the NFLOG
    block with a collector for each group. */
module UlogdContent {
  import opened ConfigText
  import opened Text
  import opened UlogdBlocks
  import opened UlogdDoc
  import opened UlogdPoints
  import opened UlogdTheorem
  import opened UlogdStray
  import opened UlogdStartup

  // ---- lines of a block, lines of a text ------------------------------------------------------------

  lemma {:induction false} ItemsHold(lines: seq<string>, s: string)
    requires BlockLines(lines) && s in lines && s != ""
    ensures s in Strings(ItemsOf(lines))
    decreases |lines|
  {
    if |lines| == 1 {
      assert Strings([Item(lines[0], 0)])[0] == lines[0];
    } else {
      var n, rest := RestOf(lines);
      StringsConcat([Item(lines[0], n + 1)], ItemsOf(rest));
      assert Strings([Item(lines[0], n + 1)])[0] == lines[0];
      hide Strings, ItemsOf, Join;
      if s != lines[0] {
        var i :| 0 <= i < |lines| && lines[i] == s;
        assert rest[i - 1 - n] == s;
        ItemsHold(rest, s);
      }
    }
  }

  /** Inserting a block keeps every line and adds the block's. */
  lemma {:induction false} InsStrings(d: Doc, k: nat, block: seq<Item>)
    requires k <= |d.items|
    ensures |Strings(d.items)| == |d.items|
    ensures Strings(Ins(d, k, block).items) == Strings(d.items)[..k] + Strings(block) + Strings(d.items)[k..]
  {
    hide Strings, Put;
    var pre := Put(Doc(d.lead, d.items[..k]), 2);
    var mid := Put(Then(pre, block), 2);
    PartStrings(d.items, k);
    StringsPut(Doc(d.lead, d.items[..k]), 2);
    StringsConcat(pre.items, block);
    StringsPut(Then(pre, block), 2);
    StringsConcat(mid.items, d.items[k..]);
  }

  lemma FinalStrings(d: Doc)
    ensures Strings(Final(d).items) == Strings(d.items)
  {
    StringsPut(d, 1);
  }

  lemma {:induction false} InsHolds(d: Doc, k: nat, block: seq<Item>, s: string)
    requires k <= |d.items| && (s in Strings(d.items) || s in Strings(block))
    ensures s in Strings(Ins(d, k, block).items)
  {
    hide Strings, Ins;
    InsStrings(d, k, block);
    var ss := Strings(d.items);
    assert ss == ss[..k] + ss[k..];
  }

  /** So does a whole upsert. */
  lemma {:induction false} UpsHolds(d: Doc, p: seq<Item>, n: seq<Item>, s: string)
    requires s in Strings(d.items) || s in Strings(p) || s in Strings(n)
    ensures s in Strings(Ups(d, p, n).items)
  {
    assert Strings([]) == [];
    hide Strings, Ins, Final, PluginK, NflogK;
    var a := WithPlugin(d, p);
    StringsLength(d.items);
    StringsLength(a.items);
    if p != [] && s !in Strings(n) {
      InsHolds(d, PluginK(Strings(d.items)), p, s);
    }
    InsHolds(a, NflogK(Strings(a.items)), n, s);
    FinalStrings(WithNflog(a, n));
  }

  // ---- the text a startup writes ------------------------------------------------------------------------

  /** Every line outside the old blocks, every rendered plugin line and every line of the NFLOG block is in it. */
  lemma {:induction false} WrittenHolds(config: string, paths: map<string, string>, outputPath: string, s: string)
    requires Plain(outputPath) && forall x :: x in paths ==> Plain(paths[x])
    requires var rest := RemoveManagedBlocks(config);
             s in NonEmptyLines(rest) || s in PluginLines(REQUIRED_PLUGINS, paths, rest) || (s != "" && s in NflogLines(outputPath))
    ensures s in NonEmptyLines(Startup(config, paths, outputPath))
  {
    hide Plain, NflogBlockOk, PluginBlockOk, RemoveManagedBlocks, Upserted, PluginLines, NflogLines, REQUIRED_PLUGINS, Render, Parse, Full,
         Ups, Strings, Join, PLUGIN_BEGIN_MARKER, PLUGIN_END_MARKER, WF;
    var rest := RemoveManagedBlocks(config);
    var p := PluginBlockIsProper(paths, rest);
    var n := NflogBlockIsProper(outputPath);
    BlocksHold(paths, rest, outputPath, s);
    var d := Parse(rest);
    ParseRenders(rest);
    UpsText(d, p, n);
    RenderParsesDoc(Ups(d, p, n));
    UpsHolds(d, p, n, s);
  }

  lemma {:induction false} BlocksHold(paths: map<string, string>, config: string, outputPath: string, s: string)
    requires Plain(outputPath) && forall x :: x in paths ==> Plain(paths[x])
    ensures var inner := PluginLines(REQUIRED_PLUGINS, paths, config);
            s in inner ==> s in Strings(ItemsOf([PLUGIN_BEGIN_MARKER] + ([MANAGED_NOTE] + inner) + [PLUGIN_END_MARKER]))
    ensures s != "" && s in NflogLines(outputPath) ==> s in Strings(ItemsOf([BEGIN_MARKER] + NflogLines(outputPath) + [END_MARKER]))
  {
    hide PluginLines, NflogLines, Strings, ItemsOf, BEGIN_MARKER, END_MARKER, PLUGIN_BEGIN_MARKER, PLUGIN_END_MARKER, MANAGED_NOTE, REQUIRED_PLUGINS, Plain;
    PluginLinesHarmless(REQUIRED_PLUGINS, paths, config);
    NflogLinesHarmless(outputPath);
    ManagedNote();
    MarkerFacts();
    MarkersNotEmpty();
    var inner := PluginLines(REQUIRED_PLUGINS, paths, config);
    RenderedNotEmpty(REQUIRED_PLUGINS, paths, config);
    if s in inner {
      ItemsHold([PLUGIN_BEGIN_MARKER] + ([MANAGED_NOTE] + inner) + [PLUGIN_END_MARKER], s);
    }
    if s != "" && s in NflogLines(outputPath) {
      ItemsHold([BEGIN_MARKER] + NflogLines(outputPath) + [END_MARKER], s);
    }
  }

  lemma {:induction false} RenderedNotEmpty(plugins: seq<string>, paths: map<string, string>, config: string)
    ensures forall s :: s in PluginLines(plugins, paths, config) ==> s != ""
    decreases |plugins|
  {
    if plugins != [] {
      RenderedNotEmpty(plugins[..|plugins| - 1], paths, config);
    }
  }

  // ---- plugins --------------------------------------------------------------------------------------------

  lemma TrimNothing(w: string)
    requires w != "" && !IsSpace(w[0]) && !IsSpace(w[|w| - 1])
    ensures TrimSpace(w) == w
  {
  }

  /** What the scans take for plugin, stack and section lines; a commented-out line of the first two counts too. */
  lemma LineKinds(w: string)
    requires w != "" && !IsSpace(w[0]) && !IsSpace(w[|w| - 1])
    ensures IsPluginLine(w) <==> "plugin=" <= w || "#plugin=" <= w
    ensures IsStackLine(w) <==> "stack=" <= w || "#stack=" <= w
    ensures IsSectionLine(w) <==> exists name :: name != "" && w == "[" + name + "]" && ']' !in name
  {
    TrimNothing(w);
    NoRegexpSpaces(w);
    if IsSectionLine(w) {
      var name := w[1..|w| - 1];
      assert w == "[" + name + "]" && name != "";
    }
    if name :| name != "" && w == "[" + name + "]" && ']' !in name {
      assert name == w[1..|w| - 1];
    }
  }

  lemma {:induction false} NoRegexpSpaces(w: string)
    requires w != "" && !IsSpace(w[0]) && !IsSpace(w[|w| - 1])
    ensures TrimLeftRegexp(TrimRightRegexp(w)) == w
  {
    assert !IsRegexpSpace(w[0]) && !IsRegexpSpace(w[|w| - 1]);
  }

  /** So the scans know the lines a startup renders. */
  lemma RenderedKinds(path: string, group: string, name: string)
    requires name != "" && ']' !in name
    ensures IsPluginLine(PluginLine(path)) && IsStackLine(StackOf(group)) && IsSectionLine("[" + name + "]")
  {
    var plugin, stack, section := PluginLine(path), StackOf(group), "[" + name + "]";
    assert plugin[0] == 'p' && plugin[|plugin| - 1] == '"' && "plugin=" <= plugin;
    StackEnds(group);
    assert section[0] == '[' && section[|section| - 1] == ']';
    hide StackOf, PluginLine, IsPluginLine, IsStackLine, IsSectionLine;
    LineKinds(plugin);
    LineKinds(stack);
    LineKinds(section);
  }

  lemma StackEnds(group: string)
    ensures var s := StackOf(group); s != "" && s[0] == 's' && s[|s| - 1] == 'N' && "stack=" <= s
  {
  }

  lemma PluginLineMentions(path: string, plugin: string)
    requires Contains(path, plugin)
    ensures LineMentions("plugin=\"" + path + "\"", plugin)
  {
    var line := "plugin=\"" + path + "\"";
    assert line[0] == 'p' && line[|line| - 1] == '"';
    TrimNothing(line);
    hide TrimSpace, IsSpace;
    PartHolds("plugin=\"", path, "\"", plugin);
    assert line == "" + "plugin=" + ("\"" + path + "\"");
    ContainsItself("plugin=");
    PartHolds("", "plugin=", "\"" + path + "\"", "plugin=");
  }

  lemma PartHolds(a: string, s: string, b: string, sub: string)
    requires Contains(s, sub)
    ensures Contains(a + s + b, sub)
  {
    if !Contains(a + s + b, sub) {
      PartContains(a, s, b, sub);
    }
  }

  lemma ContainsItself(s: string)
    ensures Contains(s, s)
  {
  }

  /** The plugins as found in their directory: each path ends in the plugin's name. */
  ghost predicate FoundPaths(paths: map<string, string>) {
    forall x :: x in paths ==> Plain(paths[x]) && Contains(paths[x], x)
  }

  /** MAIN: after a startup every required plugin that was found is enabled, by the block or by a line of the
      administrator's. */
  lemma FoundPluginsEnabled(config: string, paths: map<string, string>, outputPath: string, plugin: string)
    requires Plain(outputPath) && FoundPaths(paths) && plugin in REQUIRED_PLUGINS && plugin in paths && paths[plugin] != ""
    ensures ConfigMentionsPlugin(Startup(config, paths, outputPath), plugin)
  {
    assert Contains(paths[plugin], plugin) && forall x :: x in paths ==> Plain(paths[x]);
    hide Startup, ConfigMentionsPlugin, RemoveManagedBlocks, LineMentions, NonEmptyLines, PluginLines, Contains, Plain, REQUIRED_PLUGINS, FoundPaths, Enables, ToEnable, NflogLines, LinesMention;
    var rest, written := RemoveManagedBlocks(config), Startup(config, paths, outputPath);
    MentionsByLines(rest, plugin);
    MentionsByLines(written, plugin);
    MentionedOrNot(plugin, paths, rest);
    var line;
    if ConfigMentionsPlugin(rest, plugin) {
      line := MentioningLine(NonEmptyLines(rest), plugin);
    } else {
      line := "plugin=\"" + paths[plugin] + "\"";
      PluginLineMentions(paths[plugin], plugin);
      var picks := PluginLinesAre(REQUIRED_PLUGINS, paths, rest);
      LineOfPick(PluginLines(REQUIRED_PLUGINS, paths, rest), picks, REQUIRED_PLUGINS, paths, rest, plugin);
    }
    WrittenHolds(config, paths, outputPath, line);
    LineCounts(NonEmptyLines(written), line, plugin);
  }

  lemma MentioningLine(ss: seq<string>, plugin: string) returns (line: string)
    requires LinesMention(ss, plugin)
    ensures line in ss && LineMentions(line, plugin)
  {
    var i :| 0 <= i < |ss| && LineMentions(ss[i], plugin);
    line := ss[i];
  }

  lemma LineCounts(ss: seq<string>, line: string, plugin: string)
    requires line in ss && LineMentions(line, plugin)
    ensures LinesMention(ss, plugin)
  {
    hide LineMentions;
    var i :| 0 <= i < |ss| && ss[i] == line;
  }

  lemma LineOfPick(lines: seq<string>, picks: seq<nat>, plugins: seq<string>, paths: map<string, string>, config: string, plugin: string)
    requires Enables(lines, picks, plugins, paths, config) && plugin in plugins && ToEnable(plugin, paths, config)
    ensures plugin in paths && "plugin=\"" + paths[plugin] + "\"" in lines
  {
    assert plugin in paths by { ToEnableInstalled(plugin, paths, config); }
    hide ToEnable;
    var k :| 0 <= k < |plugins| && plugins[k] == plugin;
    assert k in picks;
    var i :| 0 <= i < |picks| && picks[i] == k;
    assert lines[i] == "plugin=\"" + paths[plugin] + "\"";
  }

  // ---- one startup ------------------------------------------------------------------------------------------

  method EnsureRaindNflogConfig(config: string, paths: map<string, string>, outputPath: string) returns (written: string)
    ensures written == Startup(config, paths, outputPath)
    ensures Plain(outputPath) && FoundPaths(paths) ==>
              forall plugin :: plugin in REQUIRED_PLUGINS && plugin in paths && paths[plugin] != "" ==> ConfigMentionsPlugin(written, plugin)
    ensures Plain(outputPath) && FoundPaths(paths) ==>
              forall s :: s in NonEmptyLines(RemoveManagedBlocks(config)) || (s in NflogLines(outputPath) && s != "") ==> s in NonEmptyLines(written)
  {
    AfterStartup(config, paths, outputPath);
    hide NflogBlock, Upserted, PluginBlock, NonEmptyLines, ConfigMentionsPlugin, NflogLines, FoundPaths, Enables, REQUIRED_PLUGINS;
    var withoutBlocks := RemoveManagedBlocks(config);
    var pluginBlock, _, _ := RenderPluginBlock(paths, withoutBlocks);
    var updated, changed := UpsertRaindConfig(withoutBlocks, pluginBlock, NflogBlock(outputPath));
    NflogBlockVisible(outputPath);
    UpsertChanges(withoutBlocks, pluginBlock, NflogBlock(outputPath));
    written := if changed then updated else config;
  }

  lemma AfterStartup(config: string, paths: map<string, string>, outputPath: string)
    ensures var written := Startup(config, paths, outputPath);
            Plain(outputPath) && FoundPaths(paths) ==>
              && (forall plugin :: plugin in REQUIRED_PLUGINS && plugin in paths && paths[plugin] != "" ==> ConfigMentionsPlugin(written, plugin))
              && (forall s :: s in NonEmptyLines(RemoveManagedBlocks(config)) || (s in NflogLines(outputPath) && s != "") ==> s in NonEmptyLines(written))
  {
    if Plain(outputPath) && FoundPaths(paths) {
      assert forall x :: x in paths ==> Plain(paths[x]);
      hide Startup, ConfigMentionsPlugin, RemoveManagedBlocks, NonEmptyLines, PluginLines, Plain, REQUIRED_PLUGINS, NflogLines, FoundPaths;
      forall plugin | plugin in REQUIRED_PLUGINS && plugin in paths && paths[plugin] != ""
        ensures ConfigMentionsPlugin(Startup(config, paths, outputPath), plugin)
      {
        FoundPluginsEnabled(config, paths, outputPath, plugin);
      }
      forall s | s in NonEmptyLines(RemoveManagedBlocks(config)) || (s in NflogLines(outputPath) && s != "")
        ensures s in NonEmptyLines(Startup(config, paths, outputPath))
      {
        WrittenHolds(config, paths, outputPath, s);
      }
    }
  }
}

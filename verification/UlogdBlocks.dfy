/** The managed blocks of the ulogd configuration: found by their markers, removed, rendered and put
    back at their insertion points. */
module UlogdBlocks {
  import opened ConfigText
  import opened Text

  const BEGIN_MARKER := "#" + " BEGIN RAIND MANAGED NFLOG CONFIG"
  const END_MARKER := "#" + " END RAIND MANAGED NFLOG CONFIG"
  const PLUGIN_BEGIN_MARKER := "#" + " BEGIN RAIND MANAGED ULOGD PLUGINS"
  const PLUGIN_END_MARKER := "#" + " END RAIND MANAGED ULOGD PLUGINS"

  const REQUIRED_PLUGINS: seq<string> := [
    "ulogd_inppkt_NFLOG.so",
    "ulogd_filter_IFINDEX.so",
    "ulogd_filter_IP2STR.so",
    "ulogd_filter_PRINTPKT.so",
    "ulogd_raw2packet_BASE.so",
    "ulogd_output_JSON.so"]

  // ---- kinds of lines --------------------------------------------------------------------------

  predicate IsPluginLine(line: string) {
    "plugin=" <= TrimSpace(line) || "#plugin=" <= TrimSpace(line)
  }

  predicate IsStackLine(line: string) {
    "stack=" <= TrimSpace(line) || "#stack=" <= TrimSpace(line)
  }

  predicate IsRegexpSpace(c: char) {
    c in {'\t', '\n', 12 as char, '\r', ' '}
  }

  function TrimLeftRegexp(s: string): string {
    if s != "" && IsRegexpSpace(s[0]) then TrimLeftRegexp(s[1..]) else s
  }

  function TrimRightRegexp(s: string): string {
    if s != "" && IsRegexpSpace(s[|s| - 1]) then TrimRightRegexp(s[..|s| - 1]) else s
  }

  /** The regular expression ^\s*\[[^\]]+\]\s*$ */
  predicate IsSectionLine(line: string) {
    var t := TrimLeftRegexp(TrimRightRegexp(line));
    |t| >= 3 && t[0] == '[' && t[|t| - 1] == ']' && ']' !in t[1..|t| - 1]
  }

  // ---- removing ----------------------------------------------------------------------------------

  function RemoveMarkedBlock(config: string, startMarker: string, endMarker: string): string {
    var start := IndexOf(config, startMarker);
    if start == -1 then config
    else
      var end := IndexOf(config[start..], endMarker);
      if end == -1 then config
      else TrimRightNL(config[..start]) + "\n" + TrimLeftNL(config[start + end + |endMarker|..])
  }

  function RemoveManagedBlocks(config: string): string {
    RemoveMarkedBlock(RemoveMarkedBlock(config, PLUGIN_BEGIN_MARKER, PLUGIN_END_MARKER), BEGIN_MARKER, END_MARKER)
  }

  // ---- insertion points, line by line --------------------------------------------------------------

  function PluginScan(lines: seq<string>, offset: int, last: int): int {
    if lines == [] then last
    else
      var next := offset + |lines[0]|;
      PluginScan(lines[1..], next, if IsPluginLine(lines[0]) then next else last)
  }

  function StackScan(lines: seq<string>, offset: int, last: int, found: bool): int {
    if lines == [] then last
    else
      var line := lines[0];
      var next := offset + |line|;
      if IsStackLine(line) then StackScan(lines[1..], next, next, true)
      else if found && TrimSpace(line) != "" && !("#" <= TrimSpace(line)) && IsSectionLine(line) then last
      else StackScan(lines[1..], next, last, found)
  }

  function SectionScan(lines: seq<string>, offset: int, found: bool): int {
    if lines == [] then -1
    else
      var line := lines[0];
      var next := offset + |line|;
      if IsStackLine(line) then SectionScan(lines[1..], next, true)
      else if !found || TrimSpace(line) == "" || "#" <= TrimSpace(line) then SectionScan(lines[1..], next, found)
      else if IsSectionLine(line) then offset
      else SectionScan(lines[1..], next, found)
  }

  method InsertionPointAfterLastPlugin(config: string) returns (last: int)
    ensures last == PluginScan(Lines(config), 0, -1)
  {
    last := -1;
    var offset, i, lines := 0, 0, Lines(config);
    while i < |lines|
      invariant i <= |lines|
      invariant PluginScan(lines[i..], offset, last) == PluginScan(lines, 0, -1)
    {
      if IsPluginLine(lines[i]) {
        last := offset + |lines[i]|;
      }
      offset := offset + |lines[i]|;
      i := i + 1;
    }
  }

  method InsertionPointAfterLastStack(config: string) returns (last: int)
    ensures last == StackScan(Lines(config), 0, -1, false)
  {
    last := -1;
    var found := false;
    var offset, i, lines := 0, 0, Lines(config);
    while i < |lines|
      invariant i <= |lines|
      invariant StackScan(lines[i..], offset, last, found) == StackScan(lines, 0, -1, false)
    {
      var line := lines[i];
      assert lines[i..][1..] == lines[i + 1..];
      if IsStackLine(line) {
        found := true;
        last := offset + |line|;
      } else if found && TrimSpace(line) != "" && !("#" <= TrimSpace(line)) && IsSectionLine(line) {
        return;
      }
      offset := offset + |line|;
      i := i + 1;
    }
  }

  method InsertionPointBeforeFirstSectionAfterStack(config: string) returns (point: int)
    ensures point == SectionScan(Lines(config), 0, false)
  {
    var found := false;
    var offset, i, lines := 0, 0, Lines(config);
    while i < |lines|
      invariant i <= |lines|
      invariant SectionScan(lines[i..], offset, found) == SectionScan(lines, 0, false)
    {
      var line := lines[i];
      assert lines[i..][1..] == lines[i + 1..];
      if IsStackLine(line) {
        found := true;
      } else if found && TrimSpace(line) != "" && !("#" <= TrimSpace(line)) && IsSectionLine(line) {
        return offset;
      }
      offset := offset + |line|;
      i := i + 1;
    }
    return -1;
  }

  function NflogPoint(config: string): int {
    var lines := Lines(config);
    if SectionScan(lines, 0, false) != -1 then SectionScan(lines, 0, false)
    else if StackScan(lines, 0, -1, false) != -1 then StackScan(lines, 0, -1, false)
    else PluginScan(lines, 0, -1)
  }

  // ---- inserting -----------------------------------------------------------------------------------

  function InsertBlockAt(config: string, block: string, idx: int): string {
    var at := if idx < 0 || idx > |config| then |config| else idx;
    TrimRightNL(config[..at]) + "\n\n" + block + "\n\n" + TrimLeftNL(config[at..])
  }

  function WithPluginBlock(config: string, block: string): string {
    InsertBlockAt(config, block, PluginScan(Lines(config), 0, -1))
  }

  function WithNflogBlock(config: string, block: string): string {
    InsertBlockAt(config, block, NflogPoint(config))
  }

  /** What upsertRaindConfig returns. */
  function Upserted(config: string, pluginBlock: string, nflogBlock: string): string {
    var a := if pluginBlock != "" then WithPluginBlock(config, pluginBlock) else config;
    var b := WithNflogBlock(a, nflogBlock);
    if b != "" && b[|b| - 1] == '\n' then b else b + "\n"
  }

  method InsertPluginBlock(config: string, block: string) returns (updated: string)
    ensures updated == WithPluginBlock(config, block)
  {
    var idx := InsertionPointAfterLastPlugin(config);
    updated := InsertBlockAt(config, block, idx);
  }

  method InsertNflogBlock(config: string, block: string) returns (updated: string)
    ensures updated == WithNflogBlock(config, block)
  {
    var idx := InsertionPointBeforeFirstSectionAfterStack(config);
    if idx == -1 {
      idx := InsertionPointAfterLastStack(config);
    }
    if idx == -1 {
      idx := InsertionPointAfterLastPlugin(config);
    }
    updated := InsertBlockAt(config, block, idx);
  }

  method UpsertRaindConfig(config: string, pluginBlock: string, nflogBlock: string) returns (updated: string, changed: bool)
    ensures updated == Upserted(config, pluginBlock, nflogBlock)
    ensures changed == (updated != config)
  {
    hide WithPluginBlock, WithNflogBlock;
    updated := config;
    if pluginBlock != "" {
      updated := InsertPluginBlock(updated, pluginBlock);
    }
    updated := InsertNflogBlock(updated, nflogBlock);
    if updated == "" || updated[|updated| - 1] != '\n' {
      updated := updated + "\n";
    }
    changed := updated != config;
  }

  // ---- rendering -------------------------------------------------------------------------------------

  predicate LineMentions(line: string, plugin: string) {
    var t := TrimSpace(line);
    !("#" <= t) && Contains(t, "plugin=") && Contains(t, plugin)
  }

  predicate ConfigMentionsPlugin(config: string, plugin: string) {
    exists i :: 0 <= i < |Lines(config)| && LineMentions(Lines(config)[i], plugin)
  }

  const MANAGED_NOTE := "#" + (" This block is managed by Raind." + " Manual changes inside this block" + " may be overwritten.")
  const NFLOG_NOTE := "#" + (" It configures ulogd to collect" + " Raind NFLOG groups 10, 11, and 12.")
  const INPUTS_NOTE := "#" + " ---- Raind inputs (NFLOG groups) ----"
  const INSTANCES_NOTE := "#" + " ---- Raind common instances ----"

  function PluginLine(path: string): string {
    "plugin=\"" + path + "\""
  }

  /** One line for each of the given plugins that is installed and not enabled outside the block. */
  function PluginLines(plugins: seq<string>, paths: map<string, string>, config: string): seq<string> {
    if plugins == [] then []
    else
      var n := |plugins| - 1;
      var p := plugins[n];
      PluginLines(plugins[..n], paths, config)
      + if p !in paths || paths[p] == "" || ConfigMentionsPlugin(config, p) then [] else [PluginLine(paths[p])]
  }

  function PluginBlock(paths: map<string, string>, config: string): string {
    var lines := PluginLines(REQUIRED_PLUGINS, paths, config);
    if lines == [] then "" else Join([PLUGIN_BEGIN_MARKER] + ([MANAGED_NOTE] + lines) + [PLUGIN_END_MARKER], '\n')
  }

  /** Not a comment, and "plugin=" and the plugin's name stand somewhere in it. */
  ghost predicate Loads(line: string, plugin: string) {
    var t := TrimSpace(line);
    !("#" <= t) && (exists a, b :: t == a + "plugin=" + b) && (exists a, b :: t == a + plugin + b)
  }

  lemma ContainsIff(s: string, sub: string)
    ensures Contains(s, sub) <==> exists a, b :: s == a + sub + b
  {
    if Contains(s, sub) {
      var i := IndexOf(s, sub);
      assert s == s[..i] + sub + s[i + |sub|..];
    }
    if a, b :| s == a + sub + b {
      assert s[|a|..|a| + |sub|] == sub;
      if !Contains(s, sub) {
        NotFound(s, sub, |a|);
      }
    }
  }

  lemma LoadsIff(line: string, plugin: string)
    ensures Loads(line, plugin) <==> LineMentions(line, plugin)
  {
    var t := TrimSpace(line);
    ContainsIff(t, "plugin=");
    ContainsIff(t, plugin);
    hide Contains, TrimSpace;
  }

  /** Installed, and enabled by no line of the configuration. */
  ghost predicate ToEnable(plugin: string, paths: map<string, string>, config: string) {
    && plugin in paths && paths[plugin] != ""
    && forall i :: 0 <= i < |Lines(config)| ==> !Loads(Lines(config)[i], plugin)
  }

  /** One line for each plugin to enable, and no other; picks says for which, in the order of the list. */
  ghost predicate Enables(lines: seq<string>, picks: seq<nat>, plugins: seq<string>, paths: map<string, string>, config: string) {
    && |lines| == |picks|
    && (forall i, j :: 0 <= i < j < |picks| ==> picks[i] < picks[j])
    && (forall k: nat :: k in picks <==> k < |plugins| && ToEnable(plugins[k], paths, config))
    && (forall i :: 0 <= i < |picks| ==> picks[i] < |plugins| && plugins[picks[i]] in paths && lines[i] == "plugin=\"" + paths[plugins[picks[i]]] + "\"")
  }

  lemma EnablesNext(lines: seq<string>, picks: seq<nat>, plugins: seq<string>, paths: map<string, string>, config: string, p: string)
    requires Enables(lines, picks, plugins, paths, config)
    ensures ToEnable(p, paths, config) ==> Enables(lines + ["plugin=\"" + paths[p] + "\""], picks + [|plugins|], plugins + [p], paths, config)
    ensures !ToEnable(p, paths, config) ==> Enables(lines, picks, plugins + [p], paths, config)
  {
    hide ToEnable, Loads;
    var more := plugins + [p];
    assert forall i :: 0 <= i < |picks| ==> picks[i] in picks && picks[i] < |plugins|;
    assert forall k :: 0 <= k < |plugins| ==> more[k] == plugins[k];
    assert more[|plugins|] == p;
    if ToEnable(p, paths, config) {
      assert p in paths by { ToEnableInstalled(p, paths, config); }
      var all := picks + [|plugins|];
      assert forall k: nat :: k in all <==> k in picks || k == |plugins|;
    }
  }

  lemma ToEnableInstalled(plugin: string, paths: map<string, string>, config: string)
    requires ToEnable(plugin, paths, config)
    ensures plugin in paths
  {
  }

  lemma NothingEnabled(paths: map<string, string>, config: string)
    ensures Enables([], [], [], paths, config)
  {
  }

  lemma MentionedOrNot(plugin: string, paths: map<string, string>, config: string)
    ensures ToEnable(plugin, paths, config) <==> plugin in paths && paths[plugin] != "" && !ConfigMentionsPlugin(config, plugin)
  {
    hide LineMentions, Loads;
    forall i | 0 <= i < |Lines(config)|
      ensures Loads(Lines(config)[i], plugin) <==> LineMentions(Lines(config)[i], plugin)
    {
      LoadsIff(Lines(config)[i], plugin);
    }
  }

  /** The rendered lines are those. */
  lemma {:induction false} PluginLinesAre(plugins: seq<string>, paths: map<string, string>, config: string) returns (picks: seq<nat>)
    ensures Enables(PluginLines(plugins, paths, config), picks, plugins, paths, config)
    decreases |plugins|
  {
    if plugins == [] {
      picks := [];
      NothingEnabled(paths, config);
    } else {
      var n := |plugins| - 1;
      picks := PluginLinesAre(plugins[..n], paths, config);
      EnablesNext(PluginLines(plugins[..n], paths, config), picks, plugins[..n], paths, config, plugins[n]);
      MentionedOrNot(plugins[n], paths, config);
      assert plugins == plugins[..n] + [plugins[n]];
      hide Enables, ToEnable;
      if ToEnable(plugins[n], paths, config) {
        picks := picks + [n];
      }
    }
  }

  method RenderPluginLines(plugins: seq<string>, paths: map<string, string>, config: string)
    returns (lines: seq<string>, ghost picks: seq<nat>)
    ensures lines == PluginLines(plugins, paths, config)
    ensures Enables(lines, picks, plugins, paths, config)
  {
    hide Enables, ToEnable, ConfigMentionsPlugin;
    lines, picks := [], [];
    NothingEnabled(paths, config);
    assert plugins[..0] == [];
    var i := 0;
    while i < |plugins|
      invariant i <= |plugins| && lines == PluginLines(plugins[..i], paths, config)
      invariant Enables(lines, picks, plugins[..i], paths, config)
    {
      EnablesNext(lines, picks, plugins[..i], paths, config, plugins[i]);
      MentionedOrNot(plugins[i], paths, config);
      assert plugins[..i + 1] == plugins[..i] + [plugins[i]];
      var plugin := plugins[i];
      assert plugins[..i + 1][..i] == plugins[..i];
      var pluginPath := if plugin in paths then paths[plugin] else "";
      if pluginPath != "" && !ConfigMentionsPlugin(config, plugin) {
        lines, picks := lines + [PluginLine(pluginPath)], picks + [i];
      }
      i := i + 1;
    }
    assert plugins[..|plugins|] == plugins;
  }

  method RenderPluginBlock(paths: map<string, string>, config: string) returns (block: string, ghost lines: seq<string>, ghost picks: seq<nat>)
    ensures block == PluginBlock(paths, config)
    ensures Enables(lines, picks, REQUIRED_PLUGINS, paths, config)
    ensures block == if lines == [] then "" else Join([PLUGIN_BEGIN_MARKER] + ([MANAGED_NOTE] + lines) + [PLUGIN_END_MARKER], '\n')
  {
    hide PluginLines, Enables;
    var rendered;
    rendered, picks := RenderPluginLines(REQUIRED_PLUGINS, paths, config);
    lines := rendered;
    if |rendered| == 0 { return "", [], picks; }
    block := Join([PLUGIN_BEGIN_MARKER] + ([MANAGED_NOTE] + rendered) + [PLUGIN_END_MARKER], '\n');
  }

  function StackOf(group: string): string {
    "stack=raind_log" + group + ":NFLOG,raind_base:BASE" + ",raind_ifi:IFINDEX,raind_ip2str:IP2STR"
    + ",raind_print:PRINTPKT,raind_json:JSON"
  }

  function InputOf(group: string): seq<string> {
    ["[raind_log" + group + "]", "group=" + group, ""]
  }

  /** The lines of the NFLOG block between its markers; "" is a blank line. */
  function NflogLines(outputPath: string): seq<string> {
    [MANAGED_NOTE, NFLOG_NOTE, ""] + [StackOf("10"), StackOf("11"), StackOf("12"), ""]
    + [INPUTS_NOTE] + InputOf("10") + InputOf("11") + InputOf("12")
    + [INSTANCES_NOTE, "[raind_base]", "[raind_ifi]", "[raind_ip2str]", "[raind_print]", ""]
    + ["[raind_json]", "file=\"" + outputPath + "\"", "sync=1", ""]
  }

  function NflogBlock(outputPath: string): string {
    Join([BEGIN_MARKER] + NflogLines(outputPath) + [END_MARKER], '\n')
  }

  // ---- one startup -------------------------------------------------------------------------------------

  /** The text EnsureRaindNFLOGConfig writes, once ulogd and its plugins are found. */
  function Startup(config: string, paths: map<string, string>, outputPath: string): string {
    var rest := RemoveManagedBlocks(config);
    Upserted(rest, PluginBlock(paths, rest), NflogBlock(outputPath))
  }

  /** The characters of a text other than newlines. */
  function Visible(s: string): nat {
    if s == "" then 0 else (if s[0] == '\n' then 0 else 1) + Visible(s[1..])
  }

  lemma {:induction false} VisibleConcat(a: string, b: string)
    ensures Visible(a + b) == Visible(a) + Visible(b)
    decreases |a|
  {
    if a == "" {
      assert a + b == b;
    } else {
      assert (a + b)[1..] == a[1..] + b;
      VisibleConcat(a[1..], b);
    }
  }

  lemma {:induction false} VisibleTrimmed(s: string)
    ensures Visible(TrimRightNL(s)) == Visible(s) && Visible(TrimLeftNL(s)) == Visible(s)
    decreases |s|
  {
    if s != "" {
      var n := |s| - 1;
      VisibleTrimmed(s[..n]);
      VisibleTrimmed(s[1..]);
      assert s == s[..n] + [s[n]];
      VisibleConcat(s[..n], [s[n]]);
    }
  }

  lemma {:induction false} InsertVisible(config: string, block: string, idx: int)
    ensures Visible(InsertBlockAt(config, block, idx)) == Visible(config) + Visible(block)
  {
    var at := if idx < 0 || idx > |config| then |config| else idx;
    var a, b := config[..at], config[at..];
    assert config == a + b;
    VisibleConcat(a, b);
    VisibleTrimmed(a);
    VisibleTrimmed(b);
    VisibleConcat(TrimRightNL(a) + "\n\n" + block + "\n\n", TrimLeftNL(b));
    VisibleConcat(TrimRightNL(a) + "\n\n" + block, "\n\n");
    VisibleConcat(TrimRightNL(a) + "\n\n", block);
    VisibleConcat(TrimRightNL(a), "\n\n");
    assert "\n\n"[1..] == "\n";
  }

  /** A nonempty NFLOG block always changes the text. */
  lemma {:induction false} UpsertChanges(config: string, pluginBlock: string, nflogBlock: string)
    requires Visible(nflogBlock) > 0
    ensures Upserted(config, pluginBlock, nflogBlock) != config
  {
    var a := if pluginBlock != "" then WithPluginBlock(config, pluginBlock) else config;
    InsertVisible(config, pluginBlock, PluginScan(Lines(config), 0, -1));
    InsertVisible(a, nflogBlock, NflogPoint(a));
    VisibleConcat(WithNflogBlock(a, nflogBlock), "\n");
  }

  lemma NflogBlockVisible(outputPath: string)
    ensures Visible(NflogBlock(outputPath)) > 0
  {
    var lines := [BEGIN_MARKER] + NflogLines(outputPath) + [END_MARKER];
    assert lines[0] == BEGIN_MARKER && |lines| > 1;
    assert Join(lines, '\n')[0] == '#';
  }
}

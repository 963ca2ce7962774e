/** The two ends of netflow logging: the groups the filter rules log to are the groups ulogd collects. */
module NetflowPipeline {
  import opened Text
  import opened Iptables
  import opened PolicyRules
  import opened PolicyCompiler
  import opened PolicyProofs
  import opened PolicyTheorems
  import opened UlogdBlocks

  const COMMON_STACK := "raind_base:BASE" + ",raind_ifi:IFINDEX,raind_ip2str:IP2STR" + ",raind_print:PRINTPKT,raind_json:JSON"

  /** The NFLOG block has an input for the group, a stack from it through the common instances to the JSON output,
      and a section for each of those. */
  ghost predicate Collected(outputPath: string, group: int) {
    var lines := NflogLines(outputPath);
    && (exists i :: 0 <= i < |lines| - 1 && lines[i] == "[raind_log" + Itoa(group) + "]" && lines[i + 1] == "group=" + Itoa(group))
    && "stack=raind_log" + Itoa(group) + ":NFLOG," + COMMON_STACK in lines
    && "[raind_base]" in lines && "[raind_ifi]" in lines && "[raind_ip2str]" in lines && "[raind_print]" in lines
    && (exists i :: 0 <= i < |lines| - 1 && lines[i] == "[raind_json]" && lines[i + 1] == "file=\"" + outputPath + "\"")
  }

  /** A plugin file for this kind of instance is among those a startup enables. */
  ghost predicate Provided(kind: string) {
    exists k, head :: 0 <= k < |REQUIRED_PLUGINS| && REQUIRED_PLUGINS[k] == head + "_" + kind + ".so"
  }

  /** Every instance of the stacks runs in a required plugin. */
  lemma StackProvided()
    ensures Provided("NFLOG") && Provided("BASE") && Provided("IFINDEX") && Provided("IP2STR") && Provided("PRINTPKT") && Provided("JSON")
  {
    RequiredFiles();
    hide REQUIRED_PLUGINS;
    ProvidedBy("ulogd_inppkt", "NFLOG", 0);
    ProvidedBy("ulogd_filter", "IFINDEX", 1);
    ProvidedBy("ulogd_filter", "IP2STR", 2);
    ProvidedBy("ulogd_filter", "PRINTPKT", 3);
    ProvidedBy("ulogd_raw2packet", "BASE", 4);
    ProvidedBy("ulogd_output", "JSON", 5);
  }

  lemma ProvidedBy(head: string, kind: string, k: nat)
    requires k < |REQUIRED_PLUGINS| && REQUIRED_PLUGINS[k] == head + ("_" + kind + ".so")
    ensures Provided(kind)
  {
    hide REQUIRED_PLUGINS;
    assert head + ("_" + kind + ".so") == head + "_" + kind + ".so";
  }

  lemma RequiredFiles()
    ensures |REQUIRED_PLUGINS| == 6
    ensures REQUIRED_PLUGINS[0] == "ulogd_inppkt" + ("_" + "NFLOG" + ".so") && REQUIRED_PLUGINS[1] == "ulogd_filter" + ("_" + "IFINDEX" + ".so")
    ensures REQUIRED_PLUGINS[2] == "ulogd_filter" + ("_" + "IP2STR" + ".so") && REQUIRED_PLUGINS[3] == "ulogd_filter" + ("_" + "PRINTPKT" + ".so")
    ensures REQUIRED_PLUGINS[4] == "ulogd_raw2packet" + ("_" + "BASE" + ".so") && REQUIRED_PLUGINS[5] == "ulogd_output" + ("_" + "JSON" + ".so")
  {
  }

  lemma Positions(outputPath: string)
    ensures var lines := NflogLines(outputPath);
            && |lines| == 27 && lines[3] == StackOf("10") && lines[4] == StackOf("11") && lines[5] == StackOf("12")
            && lines[8] == InputOf("10")[0] && lines[9] == InputOf("10")[1] && lines[11] == InputOf("11")[0] && lines[12] == InputOf("11")[1]
            && lines[14] == InputOf("12")[0] && lines[15] == InputOf("12")[1]
            && lines[18] == "[raind_base]" && lines[19] == "[raind_ifi]" && lines[20] == "[raind_ip2str]" && lines[21] == "[raind_print]"
            && lines[23] == "[raind_json]" && lines[24] == "file=\"" + outputPath + "\""
  {
    hide COMMON_STACK, MANAGED_NOTE, NFLOG_NOTE, INPUTS_NOTE, INSTANCES_NOTE, StackOf;
  }

  lemma CollectedAt(outputPath: string, group: int, i: nat, j: nat)
    requires var lines := NflogLines(outputPath);
             && |lines| == 27 && i < 26 && j < 27 && lines[i] == InputOf(Itoa(group))[0] && lines[i + 1] == InputOf(Itoa(group))[1]
             && lines[18] == "[raind_base]" && lines[19] == "[raind_ifi]" && lines[20] == "[raind_ip2str]" && lines[21] == "[raind_print]"
             && lines[j] == StackOf(Itoa(group)) && lines[23] == "[raind_json]" && lines[24] == "file=\"" + outputPath + "\""
    ensures Collected(outputPath, group)
  {
    StackStarts(Itoa(group));
    hide NflogLines, Itoa, StackOf, COMMON_STACK;
    assert NflogLines(outputPath)[j] in NflogLines(outputPath);
  }

  lemma StackStarts(g: string)
    ensures StackOf(g) == "stack=raind_log" + g + ":NFLOG," + COMMON_STACK
  {
    assert ":NFLOG,raind_base:BASE" == ":NFLOG," + "raind_base:BASE";
    assert StackOf(g) == "stack=raind_log" + g + ":NFLOG," + COMMON_STACK;
  }

  lemma GroupsCollected(outputPath: string, group: int)
    requires group == 10 || group == 11 || group == 12
    ensures Collected(outputPath, group)
  {
    Positions(outputPath);
    ItoaTens();
    hide NflogLines, Itoa, StackOf, InputOf, Collected;
    if group == 10 {
      CollectedAt(outputPath, 10, 8, 3);
    } else if group == 11 {
      CollectedAt(outputPath, 11, 11, 4);
    } else {
      CollectedAt(outputPath, 12, 14, 5);
    }
  }

  lemma ItoaTens()
    ensures Itoa(10) == "10" && Itoa(11) == "11" && Itoa(12) == "12"
  {
  }

  function GroupOf(c: Chain): int {
    if c == RaindEW then 10 else if c == RaindNsObs then 11 else 12
  }

  lemma BaseGroup(c: Chain, np: NetworkPolicy, env: Env, r: FwRule)
    requires UserChain(c) && r in BaseRules(c, np, env) && r.target == Nflog
    ensures r.match_.nflogGroup == GroupOf(c)
  {
    var ns, host := env.networks, env.hostInterface;
    if c == RaindEW {
      if r in EachNetwork(ns, EWLog) {
        var n := EachNetworkOrigin(ns, EWLog, r);
      } else if r in EachNetwork(ns, EWDrop) {
        var n := EachNetworkOrigin(ns, EWDrop, r);
      }
    } else if c == RaindNsObs {
      if r in EachNetwork(ns, ObsNetwork(host, np.nsLogging)) {
        var n := EachNetworkOrigin(ns, ObsNetwork(host, np.nsLogging), r);
      }
    } else {
      if r in EachNetwork(ns, EnfLog(host)) {
        var n := EachNetworkOrigin(ns, EnfLog(host), r);
      } else if r in EachNetwork(ns, EnfDrop(host)) {
        var n := EachNetworkOrigin(ns, EnfDrop(host), r);
      }
    }
  }

  /** MAIN: whatever a compiled chain logs, ulogd as configured at startup collects. */
  lemma LoggedIsCollected(c: Chain, np: NetworkPolicy, env: Env, r: FwRule, outputPath: string)
    requires UserChain(c) && r in UserChainRules(c, np, env) && r.target == Nflog
    ensures Collected(outputPath, r.match_.nflogGroup)
  {
    var base, more := AddAll([], BaseRules(c, np, env)), UserRules(c, np.List(c), env, np.Logging(c));
    StackedSplits(base, more);
    AddAllElements([], BaseRules(c, np, env));
    hide BaseRules, AddAll, Stacked, InsertAll, Collected, UserRules;
    if r in more {
      var p := UserRuleOrigin(c, np.List(c), env, np.Logging(c), r);
      assert r.match_.nflogGroup == GroupOf(c);
    } else {
      BaseGroup(c, np, env, r);
    }
    GroupsCollected(outputPath, r.match_.nflogGroup);
  }
}

# Raind control plane: a verified model

Raind turns declarations (policies, Kubernetes manifests, bottles, security profiles) into runtime
state. This project models the algorithms of its control plane that do so and proves what they are
for. `dafny verify dfyconfig.toml` checks everything. Code that changes state step by step is modelled
by classes and loops, each method proved against a specification function or relation; the results
below are lemmas about those specifications and invariants the methods keep. Inductions are written
out; automatic induction is off wherever Dafny would apply it.

## What is modelled

**Tables and packets** (`Iptables`, `PolicyRules`). A table maps chains to rule lists, with the
refusals of `-N -F -X -A -I -D -C`. `Eval` walks a packet through a rule list: first match, jumps,
RETURN, and NFLOG, which writes a line and goes on.

**Policy compiler** (`PolicyCompiler`, `PolicyProofs`, `PolicyTheorems`, `PolicyService`,
`PolicyCommit`). A policy store is compiled into four chains: predefined rules appended, user rules
inserted at the head, duplicates skipped. The source semantics is `Decision`, read off the store
without any chain. The compiled chains decide every packet so; the netflow lines tell the truth, one
named line apart, and name the policy they stand for; a second commit changes nothing; statuses are
settled.

**Network policies** (`NetpolManifest`, `NetpolService`, `NetpolReconcile`, `NetpolTheorem`,
`NetpolController`). Kubernetes manifests are expanded into one rule per peer and port, those into one
backend policy per pair of ready pods, with textual state keys that tell whether anything changed.
From manifest to packet: pod traffic is accepted exactly as the manifests say. All such claims hold
once the policies are in step and a commit has been made, because `Apply` reconciles by itself and the
controller may then see no change.

**Service controller** (`Commands`, `ServiceRules`, `ServiceShape`, `ServiceKey`, `ServiceSync`,
`ServiceTracking`, `ServiceTraffic`, `ServiceController`, `ServiceStartup`, `ServiceSharing`). A service
is applied and cleaned up by programs of iptables commands. A locality theorem cuts the table into the
parts of each service and the unmanaged rest; cleanup undoes apply on each part; equal state keys mean
equal rules. Together: the incremental controller, from the cleaned tables on, always leaves what a clean
rebuild would. `ServiceTraffic` walks packets through those tables, with every outcome of the probability
tests, and says where traffic for a service goes.

**ulogd configuration** (`ConfigText`, `UlogdBlocks`, `UlogdDoc`, `UlogdPoints`, `UlogdTheorem`,
`UlogdStartup`, `UlogdStray`, `UlogdContent`, `NetflowPipeline`). Offset loops, newline trimming and
marker search on strings are related to a document of lines and gaps. There each placement of the two
blocks, one inside the other included, is shown to be undone by removal and reproduced by another
startup. The text written enables every plugin found, and collects every group the policy chains log to.

**Bottles** (`BottleOrder`, `BottleService`). Kahn's algorithm over maps with arbitrary iteration
order, repeated and self dependencies; starting and stopping in that order.

**Apply** (`ResourceStores`, `ResourceRollback`, `ResourceApply`). The undo stack over four stores, its
closures made data. Undoing is not always possible: a NodePort document may bring the address of a
ClusterIP service, and an update of that service then loses it (`ForeignAddressLosesService` gives the
input). `Accepts` says which documents are taken; `Apply` says for every run what a failure leaves: the stores Apply found, without exactly the
services whose first update in the run met somebody else on their address. `HarmlessRunIsUndone` and
`ApartIff` give the guard on the documents under which nothing is lost.

**Security profiles** (`SecurityProfiles`, `SecurityInheritance`, `SecurityService`). Resolution along
extends, its capability algebra, and the acyclicity that every register and delete keeps.

**Smaller cores**: `LogRotation`, `DnsCache` (all interleavings of its critical sections, as runs of a
state machine), `AuditTrim`, `Deployments`. `Text` and `Lists` hold helpers: decimal numbers, joining
and splitting, sorting, multisets.

## Where the code differs from what it says

- The observe-mode ALLOW line for traffic that enters through the host interface
  (internal/condenser/core/policy/service.go:510-574) is written for packets the chain does not accept;
  they return to FORWARD. `NetflowTellsTruth` names this line as its only exception.
- A user policy with a port but neither tcp nor udp is refused by iptables; the loop goes on and the
  policy keeps its old status. `CommitSettlesStatuses` states it.
- `BuildUserPolicy` overwrites its error (internal/condenser/core/policy/service.go:641-659), so nothing
  is claimed about errors passing through it.
- Trimming a file that holds no more lines than it is to keep drops its first line or fails, so
  `TrimToLastLines` is right exactly for longer files. The trimmer only calls it for those.
- The startup compares the new text with the one without managed blocks
  (internal/condenser/ulogd/manager.go:107-111), so by `UpsertChanges` it never finds the file up to date and
  rewrites it, with the same text, every time.
- A deployment whose replica set is missing is only forgotten on one pass and made again on the next,
  hence two passes.

## Assumptions

- Policy ids are distinct and fresh ids are new (ULIDs are numbered, or parameters fresh for the store).
- Services have distinct eight-character id prefixes, distinct port numbers, tcp or udp, since chain names
  keep no more (`ServiceSharing` shows what two services with one prefix do to each other); the host address
  and the interfaces behind an endpoint address are fixed over a run of the service controller, since the
  state key leaves them out.
- For the ulogd results the text without managed blocks holds no begin marker (`UlogdStray` says what stray
  ones do), and paths hold no `#` and no newline.
- The stores Apply works on are such as it and the store handlers leave: entries in normal form and no
  address given to two ClusterIP services.
- In `ServiceTraffic` interface names end in no `+` and addresses hold no `/`; in `UlogdContent` the path
  found for a plugin contains its name.
- Strings are sequences of characters; case folding is ASCII, trimming knows the Latin-1 spaces.
- External commands succeed except where a contract says how they fail; the clock is an integer.

## Model

| member | source | states |
|---|---|---|
| PolicyTheorems.CommitDecides | internal/condenser/core/policy/service.go:369-639 | On committed chains RAIND-ROOT gives every packet the verdict of the declarative `Decision`: return traffic accepted, else accepted if an east-west policy covers it, else dropped on one bridge or between bridges, else by the active north-south mode; for any networks, policies, duplicates, logging flags |
| PolicyTheorems.NetflowTellsTruth | internal/condenser/core/policy/service.go:427-488 | Every log line of a packet is true: an ALLOW prefix only on accepted packets, a DENY prefix only on dropped ones; the one exception is named exactly (the observe-mode line for inbound traffic, which is not decided here) |
| PolicyTheorems.NetflowNamesPolicy | internal/condenser/core/policy/service.go:708-741 | MAIN: every line is explained by the store: it carries the id of a stored policy that covers the packet, with scope and action, or the predefined id; it is of a new packet; and a side with logging off writes none |
| PolicyTheorems.NetflowIsComplete | internal/condenser/core/policy/service.go:708-741 | With both logging flags on, every new packet that gets a verdict leaves a true log line, unless it stays on one bridge without being bridged traffic |
| PolicyTheorems.ChainDecides | internal/condenser/core/policy/service.go:661-855 | One user chain with its predefined rules behind it: verdict and log lines as the store says |
| PolicyTheorems.EWBaseDecides | internal/condenser/core/policy/service.go:424-501 | The predefined east-west rules drop exactly the traffic on one bridge or between bridges, and exactly when they log EW-DENY |
| PolicyTheorems.EnfBaseDecides | internal/condenser/core/policy/service.go:588-639 | The predefined enforce rules drop, and log, exactly container traffic leaving through the host interface |
| PolicyTheorems.ObsBaseDecides | internal/condenser/core/policy/service.go:503-586 | The predefined observe rules accept exactly that traffic, and write the ALLOW line exactly for new packets of it and for new inbound packets that are UDP or open a TCP connection |
| PolicyProofs.HeadDecides | internal/condenser/core/policy/service.go:661-855 | The stacked user rules, newest first and deduplicated, decide exactly the covered packets; each of their log lines names a covering policy and says its action |
| PolicyProofs.UserRuleCovers | internal/condenser/core/policy/service.go:661-755 | A user rule that matches stands for a stored policy that covers the packet; a log rule that matches names it |
| PolicyProofs.NameOrIdAlike | internal/condenser/store/csm/csm.go:226-239 | A policy that gives its container by name and one that gives it by id compile to the same rule |
| PolicyProofs.UnknownHasNoVeth | internal/condenser/store/csm/csm.go:226-239 | What is neither a name nor an id has no veth, so its policy stays unresolved |
| PolicyProofs.StackingLogsAbove | internal/condenser/core/policy/service.go:708-741 | Inserting (action, log) pairs at the head with duplicates skipped keeps every log rule above its own action |
| PolicyProofs.LogImpliesAction | internal/condenser/core/policy/iptables_handler.go:120-183 | A log rule is in the chain only together with the action of its policy |
| PolicyProofs.LoggedAtIsAbove | internal/condenser/core/policy/service.go:797-842 | Each action rule has a log rule of a policy with the same rule before it in the chain |
| PolicyRules.DedupKeepsMeaning | internal/condenser/core/policy/iptables_handler.go:58-118 | Skipping rules that -C finds changes neither the verdict nor the set of log lines of any packet |
| PolicyRules.OneSidedVerdict | internal/condenser/core/policy/iptables_handler.go:120-183 | In a head with one action, order and duplicates do not matter: the verdict is whether some action rule matches |
| PolicyService.NpmManager.ChangeNSMode | internal/condenser/store/npm/npm.go:255-260 | Sets the mode and nothing else |
| PolicyService.NpmManager.RemovePolicy | internal/condenser/store/npm/npm.go:139-164 | Removes exactly the first policy with the id, looking through the three lists in order; fails iff there is none |
| PolicyService.NpmManager.ReplacePoliciesByOwnerKind | internal/condenser/store/npm/npm.go:189-215 | Keeps the policies of other owners in order and appends the given ones |
| PolicyService.NpmManager.UpdateStatus | internal/condenser/store/npm/npm.go:217-253 | Sets status and reason of the first policy with the id in that list; fails iff there is none |
| PolicyService.IptablesManager.CreateChain | internal/condenser/core/policy/iptables_handler.go:20-39 | Leaves the chain existing and empty, other chains alone |
| PolicyService.IptablesManager.InsertForwardRule | internal/condenser/core/policy/iptables_handler.go:41-56 | FORWARD jumps to the chain, first if the jump was not there |
| PolicyService.IptablesManager.AddRuleToChain | internal/condenser/core/policy/iptables_handler.go:58-118 | Appends the built rule unless it is there; refused, with no effect, for a port without tcp or udp |
| PolicyService.IptablesManager.InsertRuleToChain | internal/condenser/core/policy/iptables_handler.go:120-183 | Inserts the built rule at the head unless it is there; refused likewise |
| PolicyService.WrittenMeans | internal/condenser/core/policy/iptables_handler.go:58-183 | Which packets a written rule matches: an appended one those of the model without its addresses, with --syn for tcp alone; an inserted one never asks for --syn |
| PolicyService.ServicePolicy.ChangeNSMode | internal/condenser/core/policy/service.go:202-217 | Only marks the mode for the next commit; refuses unknown and current modes |
| PolicyService.ServicePolicy.FixNSMode | internal/condenser/core/policy/service.go:273-285 | A mode marked for the next commit becomes that mode, any other stays; nothing else changes |
| PolicyService.ServicePolicy.CreateChains | internal/condenser/core/policy/service.go:347-360 | The four chains are there and empty |
| PolicyService.ServicePolicy.BuildRaindRootChain | internal/condenser/core/policy/service.go:369-422 | RAIND-ROOT holds the return-traffic rule and the jumps of the mode, in order |
| PolicyService.ServicePolicy.BuildRaindEWChain | internal/condenser/core/policy/service.go:424-501 | RAIND-EW holds the deduplicated predefined rules of all networks |
| PolicyService.ServicePolicy.AddObsNetwork | internal/condenser/core/policy/service.go:511-574 | One network: its log lines and the ACCEPT behind them, deduplicated |
| PolicyService.ServicePolicy.BuildRaindNSObserveChain | internal/condenser/core/policy/service.go:503-586 | The same for RAIND-NS-OBS; stops without a host interface |
| PolicyService.ServicePolicy.BuildRaindNSEnforceChain | internal/condenser/core/policy/service.go:588-639 | The same for RAIND-NS-ENF |
| PolicyService.ServicePolicy.BuildPredefinedPolicy | internal/condenser/core/policy/service.go:287-345 | All predefined chains and the FORWARD jump, also where it stops half-way |
| PolicyService.ServicePolicy.ApplyEWPolicy | internal/condenser/core/policy/service.go:664-752 | One policy: discarded, marked unresolved, or its rule pair at the head and marked applied; the other policies and chains stay |
| PolicyService.ServicePolicy.ApplyNSPolicy | internal/condenser/core/policy/service.go:760-853 | The same for north-south policies, DROP while observing and ACCEPT while enforcing |
| PolicyService.ServicePolicy.InsertRaindEWUserPolicy | internal/condenser/core/policy/service.go:661-755 | The whole list: the store and chain are those of committing each policy in turn, though the loop runs over a copy of a list it edits |
| PolicyService.ServicePolicy.InsertRaindNSUserPolicy | internal/condenser/core/policy/service.go:757-855 | The same for the two north-south lists |
| PolicyService.ServicePolicy.BuildUserPolicy | internal/condenser/core/policy/service.go:641-659 | All three lists |
| PolicyService.ServicePolicy.CommitPolicy | internal/condenser/core/policy/service.go:101-120 | At every exit a marked mode has become that mode; new store and chains are `CommitStore` and `CommitChains` of the old ones; fails iff there is no network or no host interface, and what is left then |
| PolicyService.CommitIsTwoStages | internal/condenser/core/policy/service.go:101-120 | Compiling the store in one go is predefined rules first, then user rules stacked on top |
| PolicyCommit.SecondCommitChangesNothing | internal/condenser/core/policy/service.go:101-120 | Committing again leaves every chain, the rule order, the FORWARD jump and every status as they are |
| PolicyCommit.CommittedAsStored | internal/condenser/core/policy/service.go:641-659 | The chains a commit leaves are those of the store it leaves, so the decision theorem applies to it |
| PolicyCommit.ModeChangeTakesEffect | internal/condenser/core/policy/service.go:202-285 | A mode asked for is in force after the next commit: container traffic leaving the host is then denied unless declared, or allowed unless declared |
| PolicyCommit.CommitSettlesStatuses | internal/condenser/core/policy/service.go:661-752 | After a commit nothing is marked for removal; a policy without containers says unresolved and which container was not found; one iptables takes says applied; one whose port it refuses is untouched; every policy left was there before |
| PolicyCommit.CommitKeepsUnmarked | internal/condenser/core/policy/service.go:661-752 | No unmarked policy is lost: it keeps everything but status and reason |
| PolicyCommit.OneForwardJump | internal/condenser/core/policy/service.go:362-367 | From at most one jump, FORWARD holds exactly one, and its other rules in order |
| PolicyCommit.StoppedCommitDeniesEastWest | internal/condenser/core/policy/service.go:287-345 | A commit that stops for want of a host interface leaves new east-west traffic denied |
| NetpolManifest.NormalizePorts | internal/condenser/core/networkpolicy/manifest.go:197-213 | Protocols lower-cased, tcp by default; fails iff one is neither tcp nor udp |
| NetpolManifest.PeerPodSelector | internal/condenser/core/networkpolicy/manifest.go:184-195 | The pod selector, or an error for peers the program does not support |
| NetpolManifest.ExpandK8sRule | internal/condenser/core/networkpolicy/manifest.go:132-182 | One rule for each peer and port; fails iff a peer or port is unsupported |
| NetpolManifest.BuildManifest | internal/condenser/core/networkpolicy/manifest.go:103-130 | Expands both sides; fails iff some rule is unsupported |
| NetpolManifest.NormalPortsCover | internal/condenser/core/networkpolicy/manifest.go:197-213 | A port list covers traffic iff some normalised entry does: an empty list covers all, port 0 the protocol |
| NetpolManifest.SelectorIsSubmap | internal/condenser/core/networkpolicy/service.go:350-357 | A selector asking for nonempty values matches exactly the pods that carry all its labels |
| NetpolManifest.EmptyValueMatches | internal/condenser/core/networkpolicy/service.go:350-357 | Asking for an empty value also matches pods without the label |
| NetpolManifest.ExpandKeepsMeaning | internal/condenser/core/networkpolicy/manifest.go:132-182 | The expanded rules allow a peer and its traffic iff some rule of the Kubernetes manifest does |
| NetpolService.ScanContainers | internal/condenser/core/networkpolicy/service.go:233-262 | Whether all containers run, the infra container among them, and the names of the others, whatever the order |
| NetpolService.ReadyInfraContainer | internal/condenser/core/networkpolicy/service.go:233-271 | Finds the running infra container with every expected member running, or there is none |
| NetpolService.ReadyIff | internal/condenser/core/networkpolicy/service.go:233-301 | Readiness container by container: running, not stopped, an infra container with an id, at least one member, and for each template entry a member named after it and the last eight characters of the pod id |
| NetpolService.SelectPods | internal/condenser/core/networkpolicy/service.go:202-231 | Exactly the ready pods of the namespace whose labels match, as a set: the final sort is left out |
| NetpolService.AddBackendPolicy | internal/condenser/core/networkpolicy/service.go:303-325 | Keeps the policy set sound and complete for the pairs seen so far, keyed so that equal rules merge |
| NetpolService.BuildPolicySet | internal/condenser/core/networkpolicy/service.go:161-190 | The policy set has a key exactly for each rule, direction and pair of distinct ready pods the manifest connects |
| NetpolReconcile.FilterPoliciesByOwnerKind | internal/condenser/core/networkpolicy/service.go:392-400 | The policies of that owner kind, in order |
| NetpolReconcile.EqualPolicySets | internal/condenser/core/networkpolicy/service.go:408-418 | True iff the two lists have the same sorted state keys |
| NetpolReconcile.GenerateBackendPolicies | internal/condenser/core/networkpolicy/service.go:161-195 | One fresh policy for each origin (manifest, rule, pair), matching it key by key |
| NetpolReconcile.GenerateAll | internal/condenser/core/networkpolicy/service.go:120-140 | All origins of the store, each once |
| NetpolReconcile.ReconcileAll | internal/condenser/core/networkpolicy/service.go:120-159 | Reports a change iff the stored keys differ from the wanted ones as multisets; otherwise writes nothing; ends in step; leaves other owners' policies in place. Changed or not, afterwards the owned policies mirror the store: each says the owner id, namespace, name, display names, comment and traffic of a pod pair some rule of a stored manifest connects, and each such pair has one |
| NetpolReconcile.StateKeyIff | internal/condenser/core/networkpolicy/service.go:420-435 | For fields without NUL, two state keys are equal iff owner kind, id, namespace and name, both containers and display names, protocol, port, comment and manager all agree |
| NetpolReconcile.InStepMirrors | internal/condenser/core/networkpolicy/service.go:120-195 | So policies whose keys are the wanted ones say exactly what the stored manifests ask for |
| NetpolReconcile.EnumerationsAgree | internal/condenser/core/networkpolicy/service.go:120-159 | What is wanted does not depend on the order stores are read in |
| NetpolReconcile.SortPoliciesKeys | internal/condenser/core/networkpolicy/service.go:402-406 | Sorting by key is a permutation whose keys are the sorted keys |
| NetpolReconcile.SortPoliciesIds | internal/condenser/core/networkpolicy/service.go:402-406 | Sorting keeps the ids, each once |
| NetpolReconcile.CommitKeepsKeys | internal/condenser/core/networkpolicy/service.go:420-435 | A commit changes statuses, never the state keys of the owned policies |
| NetpolReconcile.CommitStaysInStep | internal/condenser/core/networkpolicy/service.go:120-159 | So a pass after a commit reports no change although ids and statuses differ |
| NetpolController.NetworkPolicyController.ReconcileOnce | internal/condenser/core/networkpolicy/controller.go:36-52 | Commits iff the reconcile changed something; afterwards the store is in step and the chains are those of the store |
| NetpolTheorem.PodTrafficIsAsDeclared | internal/condenser/core/networkpolicy/service.go:161-195 | MAIN: once in step and committed, a new packet between two distinct ready pods is accepted iff a stored manifest of the namespace or a policy of another owner allows it, and dropped otherwise |
| NetpolTheorem.PodTrafficIsAsInManifests | internal/condenser/core/networkpolicy/manifest.go:103-213 | MAIN: the same, down to the Kubernetes manifests as written |
| NetpolTheorem.CommentDirection | internal/condenser/core/networkpolicy/service.go:161-190 | The direction in a stored comment is ingress iff some ingress rule of the manifest makes the policy, else egress |
| NetpolTheorem.DirectionKept | internal/condenser/core/networkpolicy/manifest.go:132-182 | Every expanded rule carries its side |
| NetpolTheorem.KeyDeterminesRule | internal/condenser/core/networkpolicy/service.go:420-435 | Equal state keys mean the same rule: the textual key is injective on what is written into it |
| NetpolTheorem.KeyMeansAllowed | internal/condenser/core/networkpolicy/service.go:303-325 | A key that covers a packet comes from a manifest rule that allows it |
| NetpolTheorem.AllowedMakesKey | internal/condenser/core/networkpolicy/service.go:161-190 | Allowed traffic has a key that covers it |
| Iptables.Table.NewChain | internal/condenser/core/service/controller.go:500-504 | iptables -N |
| Iptables.Table.Flush | internal/condenser/core/service/controller.go:506-509 | iptables -F |
| Iptables.Table.DeleteChain | internal/condenser/core/service/controller.go:495-498 | iptables -X: refused while the chain has rules or is jumped to |
| Iptables.Table.Append | internal/condenser/core/service/controller.go:697-705 | iptables -A |
| Iptables.Table.InsertHead | internal/condenser/core/service/controller.go:606-609 | iptables -I at the head |
| Iptables.Table.DeleteRule | internal/condenser/core/service/controller.go:611-615 | iptables -D takes out the first equal rule |
| Commands.RunLocal | internal/condenser/core/service/controller.go:345-367 | A program that only touches one service's chains and jumps changes that service's part of the table as if it were alone, and nobody else's |
| ServiceShape.FilterIsApplied | internal/condenser/core/service/controller.go:257-325 | What applying a Service makes of the filter table |
| ServiceShape.NatIsApplied | internal/condenser/core/service/controller.go:257-325 | What applying a Service makes of the nat table: DNAT order kept, one chain per port, the jumps of its type |
| ServiceShape.FilterCleanupUndoes | internal/condenser/core/service/controller.go:386-407 | Cleanup takes out of the filter table exactly what applying put there |
| ServiceShape.NatCleanupUndoes | internal/condenser/core/service/controller.go:386-407 | The same for the nat table, for any ports |
| ServiceKey.EqualKeysEqualParts | internal/condenser/core/service/controller.go:240-255 | The sorted, joined key string determines the multisets of its parts |
| ServiceKey.EqualKeys | internal/condenser/core/service/controller.go:240-255 | Two keys are equal iff type, address and endpoints are and the ports are up to order and case of protocol |
| ServiceKey.SameNat | internal/condenser/core/service/controller.go:257-325 | Services with equal keys get the same nat rules, DNAT order included, sets of jumps and MASQUERADE rules alike |
| ServiceKey.SameFilter | internal/condenser/core/service/controller.go:257-325 | The same for the filter table |
| ServiceSync.SyncApply | internal/condenser/core/service/controller.go:257-325 | Applying a new service leaves every other service and the unmanaged rules as they were |
| ServiceSync.SyncCleanup | internal/condenser/core/service/controller.go:386-407 | Cleaning up a service likewise |
| ServiceSync.SyncedTablesAreTheSame | internal/condenser/core/service/controller.go:59-101 | Two tables in which every service stands as applied alone are the same table up to order of the jump and ACCEPT rules |
| ServiceTracking.IncrementalIsRebuild | internal/condenser/core/service/controller.go:59-101 | MAIN: tables that track the remembered services are those of applying each current service once to the unmanaged rules |
| ServiceTracking.FilterTrackCleanup | internal/condenser/core/service/controller.go:378-407 | Forgetting a service keeps the filter table tracked |
| ServiceTracking.NatTrackCleanup | internal/condenser/core/service/controller.go:378-407 | The same for the nat table |
| ServiceTracking.FilterTrackApply | internal/condenser/core/service/controller.go:257-325 | Applying a service keeps the filter table tracked |
| ServiceTracking.NatTrackApply | internal/condenser/core/service/controller.go:257-325 | The same for the nat table |
| ServiceController.ServiceController.SetupForward | internal/condenser/core/service/controller.go:258-268 | Forward chain made, emptied, jumped to once |
| ServiceController.ServiceController.SetupSnat | internal/condenser/core/service/controller.go:270-285 | Source NAT chain likewise, with its jumps for local and host addresses |
| ServiceController.ServiceController.RemoveSnatJumps | internal/condenser/core/service/controller.go:566-582 | All source NAT jumps to the chain are asked away |
| ServiceController.ServiceController.AppendSnatJumps | internal/condenser/core/service/controller.go:544-564 | They are appended again |
| ServiceController.ServiceController.RemovePortJumps | internal/condenser/core/service/controller.go:338-343 | The jumps of the service's type are asked away |
| ServiceController.ServiceController.AppendPortJumps | internal/condenser/core/service/controller.go:331-336 | The jumps of the service's type; fails for a ClusterIP service without an address |
| ServiceController.ServiceController.AddEndpoint | internal/condenser/core/service/controller.go:309-322 | Behind the port's chain a rule to the endpoint's target port, certain for the last endpoint and of probability 1/n for another; MASQUERADE and ACCEPT rules of that endpoint |
| ServiceController.ServiceController.ApplyPort | internal/condenser/core/service/controller.go:287-323 | One port, skipped when its number is zero |
| ServiceController.ServiceController.ApplyRules | internal/condenser/core/service/controller.go:257-325 | Both tables get the whole program of the service |
| ServiceController.ServiceController.CleanupServiceRules | internal/condenser/core/service/controller.go:386-407 | Both tables get the cleanup program |
| ServiceController.ServiceController.CleanupService | internal/condenser/core/service/controller.go:378-384 | Removes what was last applied under the id; unmanaged rules stay |
| ServiceController.ServiceController.Refresh | internal/condenser/core/service/controller.go:66-89 | One service of a pass: skipped iff its key is unchanged, else replaced |
| ServiceController.ServiceController.RefreshAll | internal/condenser/core/service/controller.go:66-89 | All services of a pass |
| ServiceController.ServiceController.DropRemoved | internal/condenser/core/service/controller.go:92-99 | Remembered services no longer listed are dropped |
| ServiceController.ServiceController.ReconcileOnce | internal/condenser/core/service/controller.go:59-101 | MAIN: after any pass the tables are those of a clean rebuild from the current services; unmanaged rules keep content and order; a pass over unchanged services changes nothing at all; and over those tables traffic for a service goes where `Delivers` says: to the target port of one of its endpoints, each of them possible, nowhere without endpoints; traffic from the host to an endpoint is masqueraded and forwarded traffic accepted exactly for endpoints; and over those tables traffic for a service goes where `Delivers` says: to the target port of one of its endpoints, each of them possible, nowhere without endpoints; traffic from the host to an endpoint is masqueraded and forwarded traffic accepted exactly for endpoints |
| ServiceTraffic.RebuildDelivers | internal/condenser/core/service/controller.go:257-325 | MAIN: after a rebuild the tables deliver so, for any services, ports, endpoints and unmanaged rules that do not touch the packet, whatever the probability tests give |
| ServiceTraffic.Served | internal/condenser/core/service/controller.go:634-705 | A packet for the address or node port of one service is rewritten to `e.addr:targetPort` of some endpoint, any endpoint can be it, and without endpoints it is left alone |
| ServiceTraffic.Masqueraded | internal/condenser/core/service/controller.go:544-604 | Traffic to an endpoint leaves masqueraded iff it comes from this host |
| ServiceTraffic.AcceptedIff | internal/condenser/core/service/controller.go:707-747 | The forward chain accepts exactly traffic to, between and back from endpoints, on their interfaces and target ports |
| ServiceSharing.SharedPrefixReplaces | internal/condenser/core/service/controller.go:345-367 | Two services whose ids share eight characters: the one applied last has the filter chains to itself, and its cleanup takes both away |
| ServiceSharing.FirstKeepsRulesIff | internal/condenser/core/service/controller.go:345-367 | The exact condition: the first of two services keeps its ACCEPT rules iff the prefixes differ or the second brings the same rules |
| ServiceSharing.SharedIff | internal/condenser/core/service/controller.go:345-367 | Two services share their chains iff the first eight characters of their ids agree |
| ServiceSharing.NamesApart | internal/condenser/core/service/controller.go:345-367 | Different service chains have different names, as long as ids hold no dash |
| ServiceSharing.NamesFit | internal/condenser/core/service/controller.go:345-367 | However long the id, a chain name has at most 28 characters |
| ServiceStartup.DeleteJumps | internal/condenser/core/service/controller.go:433-440 | The jumps into managed chains go, the other rules keep their order |
| ServiceStartup.CleanupManaged | internal/condenser/core/service/controller.go:416-448 | After the startup cleanup the table holds its unmanaged rules, in order, and nothing else |
| ServiceStartup.CleanupOnStart | internal/condenser/core/service/controller.go:409-414 | So the first pass starts from tables that track the empty set of services |
| UlogdBlocks.InsertionPointAfterLastPlugin | internal/condenser/ulogd/manager.go:354-365 | The offset behind the last plugin line, or -1 |
| UlogdBlocks.InsertionPointAfterLastStack | internal/condenser/ulogd/manager.go:367-386 | The offset behind the last stack line before the first section that follows one, or -1 |
| UlogdBlocks.InsertionPointBeforeFirstSectionAfterStack | internal/condenser/ulogd/manager.go:388-413 | The offset of the first section line behind a stack line, or -1 |
| UlogdBlocks.InsertPluginBlock | internal/condenser/ulogd/manager.go:338-341 | Inserts at the plugin point |
| UlogdBlocks.InsertNflogBlock | internal/condenser/ulogd/manager.go:343-352 | Inserts at the section point, else the stack point, else the plugin point |
| UlogdBlocks.UpsertRaindConfig | internal/condenser/ulogd/manager.go:317-327 | Removes the managed blocks, inserts the new ones, ends with one newline; changed iff the text differs |
| UlogdBlocks.RenderPluginBlock | internal/condenser/ulogd/manager.go:215-237 | One line `plugin="<path>"` for exactly the required plugins that have a path and that no line of the configuration mentions, each once, in their order; empty iff there is none |
| UlogdBlocks.PluginLinesAre | internal/condenser/ulogd/manager.go:215-229 | The rendered lines are those |
| UlogdContent.EnsureRaindNflogConfig | internal/condenser/ulogd/manager.go:96-107 | One startup: in the text written every found required plugin is mentioned, every line outside the old blocks is kept and every line of the NFLOG block is there |
| UlogdContent.FoundPluginsEnabled | internal/condenser/ulogd/manager.go:96-107 | MAIN: after a startup every required plugin that was found is enabled, by the block or by a line that was there |
| UlogdContent.WrittenHolds | internal/condenser/ulogd/manager.go:317-327 | An upsert keeps every nonempty line outside the blocks and adds every line of the blocks |
| UlogdContent.LineKinds | internal/condenser/ulogd/manager.go:354-413 | Which lines count as plugin, stack and section lines, commented-out ones included |
| UlogdContent.RenderedKinds | internal/condenser/ulogd/manager.go:239-265 | The scans know the rendered lines for what they are |
| NetflowPipeline.LoggedIsCollected | internal/condenser/ulogd/manager.go:239-265 | MAIN: every group a compiled chain logs to has an input in the NFLOG block, a stack from it to the JSON output file, and a section for each instance of that stack |
| NetflowPipeline.StackProvided | internal/condenser/ulogd/manager.go:239-265 | Every instance of the stacks runs in one of the required plugins |
| UlogdBlocks.UpsertChanges | internal/condenser/ulogd/manager.go:317-327 | An upsert with a visible block never gives back a text without one |
| UlogdDoc.ParseRenders | internal/condenser/ulogd/manager.go:419-429 | Every text is its nonempty lines and the newlines between them |
| UlogdDoc.RenderParses | internal/condenser/ulogd/manager.go:419-429 | And only one such reading exists |
| UlogdDoc.InsertText | internal/condenser/ulogd/manager.go:431-445 | Inserting at a cut between lines inserts the block's lines there and trims only newlines |
| UlogdPoints.PluginCut | internal/condenser/ulogd/manager.go:354-365 | The plugin offset falls on a line boundary that the lines alone determine |
| UlogdPoints.NflogCut | internal/condenser/ulogd/manager.go:343-413 | So does the offset of the NFLOG block |
| UlogdPoints.PluginPlaceIs | internal/condenser/ulogd/manager.go:354-365 | The plugin place is behind the last plugin line |
| UlogdPoints.SectionPlaceIs | internal/condenser/ulogd/manager.go:388-413 | The section place is before the first section line behind a stack line, or there is none |
| UlogdPoints.StackPlaceIs | internal/condenser/ulogd/manager.go:367-386 | The stack place is behind the last stack line before that section line |
| UlogdTheorem.UpsText | internal/condenser/ulogd/manager.go:317-327 | Upserting text is upserting its lines and gaps |
| UlogdTheorem.RemoveText | internal/condenser/ulogd/manager.go:302-315 | Removing a marked block leaves the lines around it with one newline between |
| UlogdTheorem.EveryRoundtrip | internal/condenser/ulogd/manager.go:293-352 | Wherever the two blocks go, inside one another included, removing them gives back the lines, and upserting again the same text |
| UlogdTheorem.UpsertRoundtrip | internal/condenser/ulogd/manager.go:293-327 | MAIN: on a text without begin markers, removing after upserting gives back its nonempty lines in order, and upserting again the same text byte for byte |
| UlogdStray.StrayMarkersIff | internal/condenser/ulogd/manager.go:293-315 | With stray begin markers in the text, the lines come back iff none stands before the insertion point, and then upserting again gives the same bytes; otherwise exactly the lines from the first one to the insertion point are lost |
| UlogdStray.LostBefore | internal/condenser/ulogd/manager.go:302-315 | The removal starts at the stray marker and ends behind the block |
| UlogdStray.KeptBehind | internal/condenser/ulogd/manager.go:302-315 | Stray markers behind the insertion point do no harm |
| UlogdStartup.NflogBlockIsProper | internal/condenser/ulogd/manager.go:239-265 | The rendered NFLOG block meets the conditions of the theorem, for any plain log path |
| UlogdStartup.PluginBlockIsProper | internal/condenser/ulogd/manager.go:215-237 | So does the rendered plugin block, or it is empty |
| UlogdStartup.MentionsByLines | internal/condenser/ulogd/manager.go:267-278 | Whether a configuration mentions a plugin depends on its nonempty lines alone |
| UlogdStartup.SamePluginLines | internal/condenser/ulogd/manager.go:215-237 | So texts with the same lines get the same plugin block |
| UlogdStartup.StartupIsIdempotent | internal/condenser/ulogd/manager.go:96-107 | MAIN: a second startup writes the same text, and taking the blocks out leaves the lines there were |
| BottleOrder.CountDependencies | internal/condenser/core/bottle/service.go:89-105 | Degrees with repeats, edges of every dependency; reports a dependency iff it is unknown |
| BottleOrder.InitialQueue | internal/condenser/core/bottle/service.go:107-113 | The services of degree zero, each once |
| BottleOrder.Release | internal/condenser/core/bottle/service.go:115-126 | Dequeuing keeps the queue exactly the unordered services whose dependencies are ordered |
| BottleOrder.Dequeue | internal/condenser/core/bottle/service.go:115-126 | One turn of the loop: the head of the queue is next in the order |
| BottleOrder.BuildStartOrder | internal/condenser/core/bottle/service.go:89-132 | MAIN: succeeds iff every dependency is known and the graph acyclic; then the order holds each service once, after all its dependencies; for any map iteration order, repeated and self dependencies |
| BottleOrder.OrderedIsAcyclic | internal/condenser/core/bottle/service.go:128-131 | A start order exists only for an acyclic graph |
| BottleOrder.StuckHasCycle | internal/condenser/core/bottle/service.go:128-131 | A nonempty set in which everyone waits for someone holds a real cycle |
| BottleOrder.FullOrder | internal/condenser/core/bottle/service.go:128-131 | A full order is a start order |
| BottleOrder.ShortOrder | internal/condenser/core/bottle/service.go:128-131 | A short order means a cycle |
| BottleService.Runtime.Start | internal/condenser/core/bottle/service.go:219-256 | At every exit, failing starts included, what runs has its dependencies running, and exactly the services before the named one were started; done iff every service has a container that starts; a reply names the one without container or whose start failed |
| BottleService.Runtime.Stop | internal/condenser/core/bottle/service.go:258-297 | At every exit what still runs has its dependencies running, the services behind the named one are down and those before it as they were; empty order iff there is none; done iff every service has a container and none that ran fails to stop; a reply names the one without container or whose stop failed |
| BottleService.StartKeepsSupport | internal/condenser/core/bottle/service.go:233-253 | One more service in order keeps dependencies running |
| BottleService.StopKeepsSupport | internal/condenser/core/bottle/service.go:272-294 | One service less in reverse order keeps them too |
| ResourceStores.UpdateIsUndoneIff | internal/condenser/core/resource/service.go:360-376 | An update of a Service, refused or taken and then undone, gives back the stores iff no other service uses the old address |
| ResourceStores.ForeignAddressLosesService | internal/condenser/core/resource/service.go:360-376 | A concrete run in which a refused update loses a service for good |
| ResourceStores.NormalizeTwice | internal/condenser/store/ssm/ssm.go:46-55 | Normalising a service type twice is normalising once |
| ResourceStores.NormalizedTypes | internal/condenser/store/ssm/ssm.go:46-55 | A type in any case, with spaces around, or none at all, which means ClusterIP; anything else stays and is refused |
| ResourceStores.StoredIff | internal/condenser/store/ssm/ssm.go:26-97 | A service is stored iff it is a NodePort service, or a ClusterIP one asking for a usable address no service has, or for none while the range has a vacant one; it then has that address, or the first vacant one |
| ResourceStores.FirstFreeIs | internal/condenser/store/ssm/ssm.go:84-95 | Without a request the first unused address of the range is given out, and none iff all are used |
| ResourceApply.EveryUpdateUndone | internal/condenser/store/ssm/ssm.go:57-97 | Every update of a store can be undone iff no ClusterIP service shares its address |
| ResourceApply.StoredKeepsAddresses | internal/condenser/store/ssm/ssm.go:26-97 | Storing keeps that so iff the entry takes over nobody's address: only a NodePort document that names one can |
| ResourceApply.StoredIsSound | internal/condenser/store/ssm/ssm.go:26-97 | What is stored has a known type and, for ClusterIP, a canonical address no other service uses |
| ResourceApply.ResourceService.FindService | internal/condenser/core/resource/rollout.go:244-255 | An entry with that name and namespace, or there is none |
| ResourceApply.ResourceService.FindIngress | internal/condenser/core/resource/rollout.go:257-268 | The same for Ingress |
| ResourceApply.ResourceService.ApplyConfigMap | internal/condenser/core/resource/service.go:287-334 | The document is in force under its old or a fresh id, and the undo gives back the stores |
| ResourceApply.ResourceService.ApplySecret | internal/condenser/core/resource/service.go:190-229 | The same for Secret |
| ResourceApply.ResourceService.ApplyIngress | internal/condenser/core/resource/service.go:394-446 | Accepted iff it wants no TLS, its certificates work, or it repeats its entry; then in force with its undo; refused without effect |
| ResourceApply.ResourceService.ApplyService | internal/condenser/core/resource/service.go:336-392 | Accepted iff it is named and repeats its entry or can be stored once that entry is out; then it is in force, of type ClusterIP when none is given, and its undo gives back the stores; in either case an updated service is lost iff somebody else uses its old address |
| ResourceApply.ResourceService.UpdateService | internal/condenser/core/resource/service.go:342-376 | Remove, store, and put back on refusal; refused iff it differs and cannot be stored; what a refusal leaves, exactly |
| ResourceApply.ResourceService.RollBack | internal/condenser/core/resource/service.go:57-63 | The stack is run from its top down |
| ResourceRollback.LostBefore | internal/condenser/core/resource/service.go:342-376 | Which services are lost one undo entry earlier |
| ResourceRollback.UndoWithout | internal/condenser/core/resource/service.go:57-63 | One undo entry, run in stores some services are missing from |
| ResourceRollback.RolledBack | internal/condenser/core/resource/service.go:57-63 | Running the whole stack leaves the first state without exactly the services whose first update in the run met somebody else on their address |
| ResourceRollback.UndoneIff | internal/condenser/core/resource/service.go:57-63 | So the run is undone iff there is no such service |
| ResourceApply.ResourceService.ApplyDoc | internal/condenser/core/resource/service.go:64-155 | One document of any kind: accepted iff `Accepts` says so, then in force with its undo entry; refused, and what that leaves |
| ResourceApply.ResourceService.Apply | internal/condenser/core/resource/service.go:57-188 | MAIN: all or nothing over any documents, repeats included: each document applied was acceptable where it met the stores and came into force; a failure is due to the first that was not; then the stores are the old ones without exactly the lost services, so they are the old ones iff no first update met another service on the address |
| ResourceApply.ApartIff | internal/condenser/store/ssm/ssm.go:57-97 | In stores whose addresses are apart, a document leaves them so iff it is not a NodePort document bringing the address of another ClusterIP service |
| ResourceApply.HarmlessRunIsUndone | internal/condenser/core/resource/service.go:57-63 | So after documents that pass this guard one by one every failure is undone |
| SecurityProfiles.DropCapabilities | internal/condenser/core/securityprofile/builtin.go:360-373 | The list without the dropped capabilities |
| SecurityProfiles.NamesStayInDirectory | internal/condenser/core/securityprofile/builtin.go:399-403 | A valid profile name is a plain file name of at most 63 characters, so its file lies in the store directory |
| SecurityProfiles.MergeCapabilityDelta | internal/condenser/core/securityprofile/builtin.go:375-397 | Equals the specification whose properties follow |
| SecurityProfiles.MergedIs | internal/condenser/core/securityprofile/builtin.go:375-397 | A capability is in the merge iff it is inherited or added and not dropped; no duplicates arise; the kept part comes first |
| SecurityProfiles.KeptOrder | internal/condenser/core/securityprofile/builtin.go:360-373 | Dropping keeps the order of what is left |
| SecurityProfiles.LayoutsAlike | internal/condenser/core/securityprofile/model.go:54-80 | The nested and the flat layout of a manifest make the same profile, and where both are filled in the nested one counts |
| SecurityInheritance.ResolvedAlongChain | internal/condenser/core/securityprofile/builtin.go:182-211 | Resolution folds the deltas along the extends chain down from the built-in root |
| SecurityInheritance.FoldedIsGranted | internal/condenser/core/securityprofile/builtin.go:375-397 | Folding deltas gives exactly the capabilities whose nearest mention grants them |
| SecurityInheritance.FoldedNoDup | internal/condenser/core/securityprofile/builtin.go:375-397 | Without duplicates |
| SecurityInheritance.NearestMentionWins | internal/condenser/core/securityprofile/builtin.go:165-211 | MAIN: a capability is in the resolved profile iff the closest profile that mentions it adds it without dropping it, or none does and the root has it; name and parent are its own, everything else is the root's |
| SecurityInheritance.ResolvesIff | internal/condenser/core/securityprofile/builtin.go:52-61 | MAIN: in a reachable store a name resolves iff it is built in, to the built-in profile itself, or its extends chain runs through well-shaped files to a built-in one |
| SecurityInheritance.ChainResolves | internal/condenser/core/securityprofile/builtin.go:165-211 | Such a chain resolves from any of its files on |
| SecurityInheritance.InheritedOrder | internal/condenser/core/securityprofile/builtin.go:182-211 | Two capabilities of the root or of any ancestor that no manifest below drops keep their order down the chain |
| SecurityInheritance.ResolvedOrder | internal/condenser/core/securityprofile/builtin.go:165-211 | So they do in a resolved profile |
| SecurityInheritance.StillResolves | internal/condenser/core/securityprofile/builtin.go:182-211 | A profile that resolves resolves alike after a new name is added |
| SecurityInheritance.RegisterKeepsAcyclic | internal/condenser/core/securityprofile/builtin.go:63-87 | Registering a new name over a parent that resolves closes no cycle, the name deleted and registered again included |
| SecurityInheritance.DeleteKeepsAcyclic | internal/condenser/core/securityprofile/builtin.go:89-107 | Deleting closes none |
| SecurityInheritance.NoCycleError | internal/condenser/core/securityprofile/builtin.go:165-180 | In an acyclic store the cycle error is never returned |
| SecurityService.Service.constructor | internal/condenser/core/securityprofile/builtin.go:23-29 | Starts empty, which is acyclic |
| SecurityService.Service.ValidateManifest | internal/condenser/core/securityprofile/builtin.go:109-136 | Succeeds iff the manifest is registrable, its capabilities then being CAP_ names; a capability refused is not one; never a cycle error |
| SecurityService.Service.Register | internal/condenser/core/securityprofile/builtin.go:63-87 | Succeeds iff registrable and not there yet, returns the profile derived from its parent; a failure changes nothing; the check after the write always succeeds; acyclicity is kept |
| SecurityService.Service.Delete | internal/condenser/core/securityprofile/builtin.go:89-107 | Succeeds iff there is such a custom profile; acyclicity is kept |
| SecurityService.Service.Resolve | internal/condenser/core/securityprofile/builtin.go:52-61 | On a reachable store never a cycle error |
| SecurityService.GetNoCycle | internal/condenser/core/securityprofile/builtin.go:52-61 | The same as a lemma |
| SecurityService.RegisteredResolves | internal/condenser/core/securityprofile/builtin.go:80-86 | A registered profile resolves at once to the one derived from its parent |
| LogRotation.MetricsWriter.WriteJsonl | internal/condenser/monitor/metrics_writer.go:64-86 | Appends the record, rotating first iff it would not fit; backups move up by one. Kept throughout: history is a suffix of what was written, size is the file's length, each file fits or holds one record |
| LogRotation.MetricsWriter.RotateIfNeeded | internal/condenser/monitor/metrics_writer.go:88-99 | Afterwards the record fits or the file is empty |
| LogRotation.MetricsWriter.Rotate | internal/condenser/monitor/metrics_writer.go:101-132 | Every file moves up by one, the oldest goes |
| LogRotation.MetricsWriter.ShiftBackups | internal/condenser/monitor/metrics_writer.go:109-119 | The descending renames overwrite nothing still needed |
| LogRotation.RotationKeepsSuffix | internal/condenser/monitor/metrics_writer.go:101-132 | Backups from oldest to newest and the file hold a suffix of all records, in order and without gaps |
| LogRotation.ShiftedHistory | internal/condenser/monitor/metrics_writer.go:101-132 | Rotating forgets the oldest file and nothing else |
| LogRotation.BytesOfText | internal/condenser/monitor/metrics_writer.go:64-86 | The size kept is the length of the records with their newlines |
| DnsCache.MinTtl | internal/condenser/dns/cache.go:75-92 | The least TTL over answer, authority and additional records, if there are any |
| DnsCache.Cache.Get | internal/condenser/dns/cache.go:30-47 | A hit iff there is a fresh entry, else the key is gone |
| DnsCache.Cache.Put | internal/condenser/dns/cache.go:49-68 | Stores a positive TTL, making room by any one key |
| DnsCache.Cache.LookUpLocked | internal/condenser/dns/cache.go:31-36 | The read section of a lookup: a hit iff the key is there and not past its time, and then its message |
| DnsCache.Cache.EvictLocked | internal/condenser/dns/cache.go:37-44 | The delete section: takes the key out iff it is there and past its time |
| DnsCache.EntryFromLastPut | internal/condenser/dns/cache.go:49-68 | In every interleaving what is cached came from the last put of its key |
| DnsCache.HitIsLastPut | internal/condenser/dns/cache.go:30-47 | MAIN: a hit is the message of the last put of the key, within its TTL |
| DnsCache.HitWithinEveryTtl | internal/condenser/dns/proxy.go:207-241 | With the TTL the proxy uses, no record of a hit has outlived its own TTL (section 3.2.1 of RFC 1035) |
| DnsCache.EvictionSparesFresh | internal/condenser/dns/cache.go:37-44 | The delete section removes no entry that is fresh, and no other key |
| DnsCache.SizeBounded | internal/condenser/dns/cache.go:58-63 | The size never exceeds a positive bound |
| AuditTrim.CountLines | internal/droplet/logs/logger.go:105-125 | The number of newlines, whatever the buffer size |
| AuditTrim.ReadBack | internal/droplet/logs/logger.go:139-166 | A tail of the file with more than the newlines asked for, or all of it, whatever the chunk size |
| AuditTrim.Cut | internal/droplet/logs/logger.go:168-179 | The last lines of what was read, if it holds more than that |
| AuditTrim.TrimToLastLines | internal/droplet/logs/logger.go:127-186 | MAIN: writes exactly the last lines iff the file holds more than it is to keep |
| AuditTrim.LastLinesUnique | internal/droplet/logs/logger.go:127-186 | There is only one such tail |
| AuditTrim.StartAuditLogTrimmer | internal/droplet/logs/logger.go:188-196 | The caller's check makes it right always: short files stay, long ones keep exactly their last lines |
| Deployments.PodStore.StoreReplicaSet | internal/condenser/store/psm/psm.go:118-127 | Writes the entry |
| Deployments.PodStore.UpdateDeploymentReplicaSet | internal/condenser/store/psm/psm.go:313-324 | Sets the pointer; fails for an unknown deployment |
| Deployments.PodStore.UpdateReplicaSetReplicas | internal/condenser/store/psm/psm.go:153-166 | Sets the count; refuses a negative one |
| Deployments.PodStore.ReconcileOne | internal/condenser/core/pod/controller.go:341-374 | One deployment: makes, forgets or resizes its replica set; writes nothing for a settled one |
| Deployments.PodStore.ReconcileDeployments | internal/condenser/core/pod/controller.go:323-377 | One pass, in any order: sharing is never introduced; a settled store is not written; fails iff some live replica set would get a negative count |
| Deployments.TwoPassesSettle | internal/condenser/core/pod/controller.go:323-377 | Two failure-free passes make every deployment point to a live replica set of its own size |
| Deployments.LaterPassesAreIdle | internal/condenser/core/pod/controller.go:323-377 | MAIN: over any run of failure-free passes everything is settled from the second on and the store never changes again |

## Left out

- YAML and JSON decoding, HTTP, TLS, the command line and the runtime's kernel work: plumbing, or effects outside the program.
- IPAM, locks and file persistence of the stores: the stores are finite maps and lists; IPAM is a list of networks and a host interface.
- `Backup` and `RevertPolicy` of the policy store: file copies.
- PolicyService.IptablesManager.InsertRuleToChain: iptables also refuses protocol names it does not know; the model refuses only ports without tcp or udp.
- ULID generation, creation and update timestamps, `GeneratedRuleIds`.
- NetpolService.SelectPods: its final sort is not modelled, the results hold for any order of the pods; likewise the order of manifests and of the policies of one manifest.
- NetpolController.NetworkPolicyController.ReconcileOnce: does not model `Apply` and `Remove` reconciling by themselves; the theorems assume in-step policies and a commit.
- NetpolTheorem.PodTrafficIsAsDeclared: the service controller writes to the same FORWARD chain; packets are followed from RAIND-ROOT, the two controllers' rules are not combined.
- ServiceController.ServiceController.ReconcileOnce: endpoints are an input, finding them among pods is the network-policy search again; a failing endpoint lookup or a ClusterIP service without address is not modelled.
- ServiceController.ServiceController.AddEndpoint: the probability is kept as the number n of 1/n, not as formatted text, and no fairness is claimed.
- ServiceStartup.CleanupManaged: the textual listing of `iptables -S` is modelled as the rules it lists.
- UlogdContent.EnsureRaindNflogConfig: the backup file, the plugin search and the reload are left out; it returns the text written.
- BottleService.Runtime.Start: container states are not queried; starting reports success or failure.
- Bottle creation and deletion with rollback of containers: the rollback order is not promised.
- ResourceApply.ResourceService.Apply: Namespace, NetworkPolicy, PVC and pod documents are left out, they act outside the four stores; a failing document stands for them.
- ResourceApply.ResourceService.ApplyIngress: TLS certificate files; whether they can be made is a parameter.
- ResourceStores.UpdateIsUndoneIff: address parsing is a function to canonical text, the range the list of usable addresses.
- SecurityService.Service.Register: file errors; the built-in profiles are a parameter, not their tables.
- LogRotation.MetricsWriter.WriteJsonl: I/O errors and the write buffer; internal/condenser/dns/logger.go:61-126 is the same algorithm.
- DnsCache.Cache.Put: copying of messages (they are values), key building, the choice of cacheable queries.
- AuditTrim.TrimToLastLines: the temporary file and rename; the result is the text written.
- Deployments.PodStore.ReconcileDeployments: store failures other than a negative count, and the removal of a replica set after one.
- Pod recreation and replica counts after a scale-down: the loop still walks deleted pods, convergence does not hold as written.

# Verified model of dingocli

dingocli administers DingoFS and DingoDB clusters. This project models the parts of it that carry
state and concurrency, and proves what they promise, for every input, every schedule and every run:

* **Directory scan** (`DirScan*.dfy`): the goroutine-forking directory usage scan, with its slots,
  error channels, cancellation, atomic counters and shared hard-link set, is a step system over the
  tree of calls. Every schedule that returns nil gives the totals of a sequential walk; nil is
  returned exactly when no RPC failed; no schedule deadlocks or runs forever.
* **Paths and inodes** (`Paths.dfy`, `NamespacePaths.dfy`, with the decimal texts of `Decimal.dfy`):
  the climb from an inode to its path and the parse of a path to its inode undo each other.
* **Variables** (`VariableText.dfy`, `Variables.dfy`, `References.dfy`, `VariableCycles.dfy`): memoised
  resolution in place, in any map order, equals one-pass expansion; for every table, cyclic and
  dangling ones included, it is proved which variables are resolved, which are refused and on which
  the recursion does not end.
* **Topology** (`ConfigMerge.dfy`, `ConfigLayers.dfy`, `ConfigCopy.dfy`, `PlainConfigs.dfy`,
  `DeployConfigs.dfy`, `TopologyRoles.dfy`, `Topology.dfy`, `TopologyPhases.dfy`,
  `ParseTopology.dfy`, `ClusterReferences.dfy`, `ExampleTopology.dfy`, `TopologyDiff.dfy`):
  `ParseTopology` from the parsed file to the finished services, with three-level inheritance over
  maps that are shared or missing, deep copies and the two loops over the services; a small topology
  taken through both loops; and the diff of two topologies.
* **Tasks** (`TaskMonitor.dfy`, `TaskPool.dfy`, `TaskPoolTheorems.dfy`): the worker pool as a step
  system, and what its monitor and progress bars say at the end.
* **RPC** (`Rpc.dfy`) and **routing** (`MdsRouter.dfy`): retry and failover over the connection pool,
  alone and with other calls in between, and the hash router.
* **Components** (`Components.dfy`, `ComponentManager.dfy`), the **playbook** (`PlaybookReceiver.dfy`,
  `PlaybookRun.dfy`), the **upgrade step lists** (`UpgradeSteps.dfy`) and the **version comparison**
  (`Versions.dfy`).

Where the original mutates objects, the model does: classes with fields, arrays edited in place, maps
shared by reference. Such methods are proved against functions of the old state, and the properties
are lemmas about those functions. Concurrent code is a transition system over atomic steps in which
the scheduler, and every failure of an RPC, is arbitrary.

Some intended properties do not hold of the code as it stands. For each there is a concrete input
at which it fails and the exact condition under which it holds:

* The `marked` set of the resolver is written and never read, so references that lead back to where
  they came from recurse without end. Inputs: `VariableCycles.SelfReferenceNeverEnds`, and
  `VariableCycles.CycleBehindUndefined` for a cycle that an undefined name in front of it ends.
  Condition, for every table: `VariableCycles.TerminatesIffAcyclic`,
  `VariableCycles.BuildEndsIffAcyclic`.
* A worker that cannot copy its script sends its result without an index, and output stops there.
  Input: `PlaybookReceiver.SecondCopyFails`. Condition: `PlaybookReceiver.AllPrintedIffIndexed`.
* The playbook command waits for its workers and not for the receiver, so it can return before the
  last lines are printed. Input: `PlaybookRun.LastRoundCanBeLost`, for every non-empty list of hosts.
  Conditions: `PlaybookRun.AllPrintedAtReturnIff`, `PlaybookRun.AlwaysAllPrintedIff`.
* Removing `PULL_IMAGE` by `append` edits the package's own list, so later services repeat the last
  step. Input: `UpgradeSteps.PlaybookAfterFirst`. Condition: `UpgradeSteps.RightIffFirst`.
* `path.Join` interprets `.` and `..`, so a directory of that name does not survive the way back.
  Input: `NamespacePaths.DotsMislead`. Conditions: `Paths.PathJoinNames`,
  `NamespacePaths.InodePathInode`. `subpath create` cleans its path first
  (cli/command/fs/subpath/create.go:87), so only another client of the metadata server can make such
  a directory.
* The unsigned counters of the scan wrap around. Input: `DirScanTheorems.CountersCanWrap`, two sparse
  files. Condition: `DirScanTheorems.ScanExactIffTotalsFit`.
* The latest component tag is the greatest string, not the greatest version. Input:
  `Components.NineBeforeTen`. Conditions: `Components.TagOrder` for two tags,
  `Components.LatestIsGreatestIff` for all tags below a bound.
* Version numbers of unequal length compare as if padded in front, a component of 1000 carries into
  the one before it, and seven components can wrap around. Inputs: `Versions.BoundsAreNeeded`.
  Condition, by the lengths and the bound on the components: `Versions.RightBelowIff`.
* The number -1 of a version that parses is taken for an error. Input: `Versions.MinusOne`.
  Condition, for up to six items of up to three digits: `Versions.RefusedIff`.
* A cluster variable whose value refers to a variable of the service differs between services.
  Input: `ExampleTopology.ReferencesDisagree`, two services taken through both loops. Condition:
  `ClusterReferences.SharedIffPlain`.
* The role mds-client is meant to be one service, but only `replicas` is left out of its deploy.
  Input: `TopologyRoles.ThreeClients`. Condition: `TopologyRoles.SingleClientIff`.

## Model

| member | source | states |
|---|---|---|
| DirScanTheorems.ScanRefinesWalk | internal/rpc/operator.go:401-482 | For every interleaving of spawned and inline calls, a scan that returns nil reports the totals of a sequential walk of the whole tree, plus one for the root, as 64-bit counters |
| DirScanTheorems.ScanExactIffTotalsFit | internal/rpc/operator.go:421-423 | The reported pair is the true pair exactly when both totals are below 2^63 |
| DirScanTheorems.CountersCanWrap | internal/rpc/operator.go:421-423 | Two sparse files of 2^62 bytes: a run that returns nil reports a negative size |
| DirScanTheorems.EachLinkCountedOnce | internal/rpc/operator.go:411-423 | In a file-system check each multiply linked inode adds its length and its one exactly once, whichever call wins the claim |
| DirScanTheorems.NilIffNoRpcFailed | internal/rpc/operator.go:404-458 | Once the top-level call is over it returned nil iff no RPC of any call failed; no error is lost and none is invented |
| DirScanTheorems.SlotsAreLiveCalls | internal/rpc/operator.go:433-438 | In every reachable state the slots taken are the live spawned calls, at most `threads` |
| DirScanTheorems.NeverStuck | internal/rpc/operator.go:427-452 | Until the top-level call is over some step is enabled, although callers hold slots while they wait for their children |
| DirScanTheorems.RunsAreFinite | internal/rpc/operator.go:401-459 | No schedule takes more steps than a bound given by the tree |
| DirScanTheorems.ReachableInv | internal/rpc/operator.go:401-459 | The scan's invariant holds after every run |
| DirScanTheorems.ReturnedIsDone | internal/rpc/operator.go:452-458 | A call that returned nil owes nothing anywhere below it, and no call below it failed |
| DirScanConservation.StepConserves | internal/rpc/operator.go:410-451 | Every step of any call conserves bytes, dentries and slots between what is counted and what is still due |
| DirScanConservation.StepTracks | internal/rpc/operator.go:416-420 | Every step keeps each hard-linked inode either claimed or still owed by some call |
| DirScanConservation.ClaimConserves | internal/rpc/operator.go:416-421 | The claim of a hard-linked inode conserves: the winner owes its length and one, the loser nothing |
| DirScanConservation.WalkSpends | internal/rpc/operator.go:462-481 | The sequential walk adds exactly what the entries are worth |
| DirScanConservation.WalkClaims | internal/rpc/operator.go:416-420 | The sequential walk claims exactly the multiply linked inodes below the entries |
| DirScanControl.StepInv | internal/rpc/operator.go:427-452 | Every step keeps the control invariant of all calls |
| DirScanControl.StepBlames | internal/rpc/operator.go:427-457 | A step never makes an error appear or vanish without an RPC failure behind it |
| DirScanControl.Progress | internal/rpc/operator.go:427-452 | A call that is not over has an enabled step in it or below it |
| DirScanControl.StepDescends | internal/rpc/operator.go:410-452 | Every step lowers the number of steps still possible |
| NamespacePaths.GetDirPathInodeId | internal/rpc/operator.go:259-283 | Descends by the non-empty parts between slashes; fails at the first part that is missing or no directory |
| NamespacePaths.GetInodePath | internal/rpc/operator.go:357-398 | Reports the path and the joined decimal inodes of the climb by first parents, root first; an inode without parents is a panic, a missing one an error |
| NamespacePaths.CollectNames | internal/rpc/operator.go:368-388 | The climbing loop terminates by depth and collects the listed name of each inode met |
| NamespacePaths.FindEntry | internal/rpc/operator.go:380-386 | Finds the first listed entry with the inode, if any |
| NamespacePaths.Reverse | internal/rpc/operator.go:358-362 | Swapping from both ends in place reverses the list |
| NamespacePaths.InodePathInode | internal/rpc/operator.go:259-398 | For every directory of a well-formed namespace the reported path leads back to its inode, iff no directory on the way is called `.` or `..` |
| NamespacePaths.InodeChain | internal/rpc/operator.go:389-397 | Read back at the slashes, the second result is the inodes from the root down to the directory |
| NamespacePaths.DotsMislead | internal/rpc/operator.go:392-397 | A directory called `..` below the root is reported as `/`, which leads to the root |
| NamespacePaths.PathInodePath | internal/rpc/operator.go:259-398 | For every path that leads to a directory, the path reported for its inode is that path without redundant slashes, iff no component is `.` or `..` |
| NamespacePaths.ClimbThenDescend | internal/rpc/operator.go:368-388 | Descending by the names met on a climb leads back to the start |
| NamespacePaths.DescendThenClimb | internal/rpc/operator.go:265-281 | Climbing back from where a path led meets its components |
| Paths.ComponentsOfJoin | internal/rpc/operator.go:265-281 | Joining names and taking them apart again gives the names |
| Paths.PathJoinNames | internal/rpc/operator.go:392-397 | Joining "/" and names keeps all of them iff none is `.` or `..` |
| VariableText.TokenizeLosesNothing | pkg/variable/variables.go:89 | Splitting a text into characters and references loses nothing, and every reference has a legal name |
| VariableText.NoRefsIsText | pkg/variable/variables.go:89-93 | A text without references is unchanged by substitution |
| VariableText.SameEverywhereIff | pkg/variable/variables.go:89-93 | A text stands for the same whatever its variables hold iff it has no reference |
| Variables.VariableTable.Register | pkg/variable/variables.go:48-56 | Adds a variable, or refuses a taken name and changes nothing |
| Variables.LookupAfterBuild | pkg/variable/variables.go:58-67 | After Build a lookup answers with the expansion of every registered name and fails for every other; an answer once given never changes |
| Variables.VariableTable.Set | pkg/variable/variables.go:69-78 | Sets and resolves a known variable, else changes nothing |
| Variables.VariableTable.Resolve | pkg/variable/variables.go:80-109 | With acyclic references: succeeds iff every reachable reference is defined, returns the one-pass expansion, and replaces no variable by anything but its expansion |
| Variables.VariableTable.Build | pkg/variable/variables.go:111-125 | In any map order: succeeds iff nothing dangles, and then every variable holds its expansion; resolved variables never change |
| Variables.VariableTable.Rendering | pkg/variable/variables.go:128-143 | Replaces each reference by its value or nothing, and reports the first failing lookup |
| Variables.MemoTransparent | pkg/variable/variables.go:84-108 | Results stored in place change neither what any name stands for nor what is defined |
| Variables.ExpandedIsSubstitution | pkg/variable/variables.go:89-93 | In the finished table every variable is its text with the references filled in from that same table |
| Variables.AllClosedIffNoDangling | pkg/variable/variables.go:82-84 | Everything resolves iff no unresolved variable refers to an undefined name |
| Variables.ExpandIgnoresRank | pkg/variable/variables.go:96-108 | What a name stands for does not depend on the ordering that shows acyclicity |
| VariableCycles.TerminatesIffAcyclic | pkg/variable/variables.go:80-109 | For every table and variable: the resolution ends, with a value or an error, iff the variable is in no set of unresolved variables each of which leads back into the set before it leads to an undefined name; so all end iff there is no such set |
| VariableCycles.Simulates | pkg/variable/variables.go:80-109 | Resolution visits names exactly as the graph of references leads it, with the same outcome for every number of nested calls |
| VariableCycles.BuildSucceedsIff | pkg/variable/variables.go:111-125 | For every table and map order Build succeeds iff every variable can be resolved from below |
| VariableCycles.BuildEndsIffAcyclic | pkg/variable/variables.go:111-125 | Build ends in every order in which the map can deliver its names, each once, iff no set of variables leads back into itself |
| VariableCycles.RankedIffAcyclic | pkg/variable/variables.go:80-109 | With every reference defined, the references can be ranked iff no set of variables leads back into itself |
| VariableCycles.CyclesNeverEnd | pkg/variable/variables.go:80-109 | In every table, no number of nested calls resolves a variable of such a set |
| VariableCycles.RankedEnds | pkg/variable/variables.go:80-109 | With acyclic references the nesting is bounded by the rank, and the outcome is as for Resolve |
| VariableCycles.SelfReferenceNeverEnds | pkg/variable/variables.go:80-109 | A variable that refers to itself is never resolved, although `marked` records it |
| VariableCycles.CycleBehindUndefined | pkg/variable/variables.go:80-109 | a = "${x}${a}" without x is refused at once: the cycle is never reached |
| References.FailsEnds | pkg/variable/variables.go:80-109 | A name whose references fail after finitely many steps yields the error for every budget that suffices, and never a value |
| References.GroundEnds | pkg/variable/variables.go:80-109 | A name that can be resolved in k levels is resolved with k nested calls, whatever was resolved before |
| References.TrappedFirst | pkg/variable/variables.go:111-125 | If a set leads back into itself there is an order of the names, each once, in which Build does not end |
| ConfigMerge.Merge | internal/configure/topology/topology.go:104-115 | Leaves in the child its own entries and the parent's where it has none; merges the variable maps by name, in place; panics exactly when one of the two is not a map |
| ConfigLayers.Inherit | internal/configure/topology/topology.go:212-219 | One level of inheritance: the child stands for "child, else parent" per entry and per variable name, and the parent is unchanged even if they share a map |
| ConfigLayers.ThreeLevels | internal/configure/topology/topology.go:212-219 | Two stacked merges are the lookup "deploy, else service, else global" |
| ConfigLayers.InheritAgain | internal/configure/topology/topology.go:212-219 | A second merge into a map that has everything the parent can give changes no map, shared or not; panics exactly as the first kind of merge does |
| ConfigLayers.OverLayerTwice | internal/configure/topology/topology.go:104-115 | Inheriting the same level twice is inheriting it once |
| ConfigLayers.NoPanicAgain | internal/configure/topology/topology.go:212-219 | Two merges that went well and left no scalar section go well when they are done again |
| ConfigCopy.DeepCopy | internal/utils/common.go:163-167 | The copy has the content of the source, nested maps included, and shares no map with anything that existed |
| ConfigCopy.CopyInto | internal/utils/common.go:151-161 | Filling a map recursively makes only new maps |
| ConfigCopy.CopyEntry | internal/utils/common.go:152-159 | One entry is copied with the maps below it, and nothing copied before is touched |
| PlainConfigs.CopyOne | internal/configure/topology/topology.go:243 | The deep copy of a configuration stands for the same layer in new maps |
| DeployConfigs.NewVariables | internal/configure/topology/dc.go:116-134 | Registers every name as text, unresolved; fails iff a value is no scalar or empty |
| DeployConfigs.ConvertEntries | internal/configure/topology/dc.go:156-163 | Rewrites every entry as text in place; fails iff some entry is no scalar |
| DeployConfigs.NewDeployConfig | internal/configure/topology/dc.go:136-183 | Takes the variable section out, turns every entry into text and notes the instance's ids, count and sequence numbers; succeeds iff the section is a map of non-empty scalars and all other entries are scalars |
| DeployConfigs.InstanceStartsWith | internal/configure/topology/dc.go:136-183 | Each entry and each variable of a new instance is the text of the deploy's value, else the service's, else the global one |
| TopologyRoles.InstanceCount | internal/configure/topology/topology.go:222-238 | The first positive of instances, replicas and replica, else one; no negative value is accepted |
| TopologyRoles.MergeInto | internal/configure/topology/topology.go:213-219 | newIfNil and one merge: a missing map is made, an existing one keeps its identity, and either stands for the stack of both levels |
| TopologyRoles.MergeAgain | internal/configure/topology/topology.go:200-219 | newIfNil and a merge of levels merged before: a missing map is made anew, an existing one does not change, and either stands for the same stack |
| TopologyRoles.MakeInstances | internal/configure/topology/topology.go:240-248 | The instances of a deploy, numbered in order, each from its own copy; fails iff the configuration is not acceptable |
| TopologyRoles.ExpandDeploys | internal/configure/topology/topology.go:216-249 | The loop over the deploys: in order, up to the first deploy that fails and with that failure; services share no object; the level above is unchanged although maps become shared |
| TopologyRoles.ExpandRole | internal/configure/topology/topology.go:212-249 | One role from its parsed configurations, missing ones included, to its services |
| TopologyRoles.RoleSucceedsIff | internal/configure/topology/topology.go:212-249 | A role goes well iff no merge panics, no count is negative and every stack of three levels is acceptable |
| TopologyRoles.RoleServices | internal/configure/topology/topology.go:216-249 | The services of a role are exactly the instances of its deploys, each starting with "deploy, else service, else global" |
| TopologyRoles.ExpandClient | internal/configure/topology/topology.go:197-249 | The second expansion of the first MDS deploy yields what a first one would, and changes no map there was |
| TopologyRoles.ClientGoesWell | internal/configure/topology/topology.go:197-249 | After a successful role mds the merges of mds-client do not panic and its configuration is acceptable |
| TopologyRoles.SingleClientIff | internal/configure/topology/topology.go:197-206 | mds-client has one service iff the first MDS deploy has instances 1, or instances 0 and replica at most 1 |
| TopologyRoles.ThreeClients | internal/configure/topology/topology.go:197-206 | A deploy with three instances gives three services of the role mds-client |
| Topology.JoinPeer | internal/configure/topology/variables.go:149-177 | The comma join of host:port over the services of the role, in order |
| Topology.JoinDummyPort | internal/configure/topology/variables.go:179-188 | The comma join of dummy ports over the services of the role |
| Topology.LocateDiskannPort | internal/configure/topology/variables.go:204-212 | The port of the first diskann service, 0 without one |
| Topology.GetClusterValue | internal/configure/topology/variables.go:268-292 | Each cluster variable selects its role and port |
| Topology.SplitJoin | internal/configure/topology/variables.go:176 | A joined list splits at its commas into its entries |
| Topology.AddressListEntries | internal/configure/topology/variables.go:149-177 | Read back at the commas, an address list has exactly one entry for each service of the role and no other |
| TopologyPhases.AddVariables | internal/configure/topology/variables.go:102-119 | Registers exactly the applicable variables; fails iff a name is taken |
| TopologyPhases.RegisteredEntries | internal/configure/topology/variables.go:89-119 | Registration keeps what was there and adds each applicable variable unresolved |
| TopologyPhases.RegisteredIff | internal/configure/topology/variables.go:102-119 | Variables can be registered iff no two that apply share a name and none is taken |
| TopologyPhases.RegisteredRanked | internal/configure/topology/variables.go:102-119 | Variables registered on a resolved table stay acyclic when their own references are |
| TopologyPhases.RegisteredBuilt | internal/configure/topology/variables.go:102-119 | Registered on a resolved table and built, each variable is its value with the references filled in, and what was there is unchanged |
| TopologyPhases.ResolveHost | internal/configure/topology/dc.go:293-317 | Builds the table, renders the host and looks it up; fails iff a reference dangles, a lookup fails or the host is unknown |
| TopologyPhases.RenderMap | internal/configure/topology/dc.go:199-215 | In any map order every text is rendered; fails iff one does not render |
| TopologyPhases.BuildConfig | internal/configure/topology/dc.go:185-325 | Builds the table, renders name, ids and every entry, and converts; fails iff a reference dangles, an entry does not render or does not convert |
| TopologyPhases.BuildService | internal/configure/topology/topology.go:254-260 | One service of the first loop succeeds iff each stage can, and then shows the final table, labels and entries |
| TopologyPhases.PhaseOne | internal/configure/topology/topology.go:252-266 | The first loop succeeds iff every service can be built, and then shows every service built, independently of the others |
| TopologyPhases.BuiltHolds | internal/configure/topology/topology.go:252-266 | A built service: the rendered host and its known host name, every variable resolved, the configured ones to their expansion and the service variables to their value for this service, labels and entries rendered, nothing else changed |
| TopologyPhases.BuiltIff | internal/configure/topology/topology.go:252-266 | A service is built iff its host is resolved, its service variables are free, every reference in variables, labels and entries is then defined, and the entries convert |
| TopologyPhases.PhaseTwo | internal/configure/topology/topology.go:268-277 | The second loop reads the same facts for every service; each keeps all it has and gets its cluster variables; all agree on those without a reference; succeeds iff no name is taken and nothing dangles |
| TopologyPhases.RegisterCluster | internal/configure/topology/topology.go:269-274 | One service gets its cluster variables, resolved, and keeps all others; succeeds iff no name is taken and nothing dangles |
| TopologyPhases.ClusteredHolds | internal/configure/topology/topology.go:268-277 | Each cluster variable that applies is its value with the references filled in from the service's own table; nothing else changes |
| TopologyPhases.ClusteredIff | internal/configure/topology/topology.go:268-277 | A service gets its cluster variables iff their names are free and their references defined |
| TopologyPhases.AllAgree | internal/configure/topology/topology.go:268-277 | Any two finished services hold the same, computed text for a cluster variable without references |
| ClusterReferences.SharedIffPlain | internal/configure/topology/topology.go:268-277 | A cluster value is the same text in all services, whatever their own variables, iff it has no reference |
| ExampleTopology.ReferencesDisagree | internal/configure/topology/topology.go:252-277 | Two MDSs with d = "$" and the address "${d}{service_id}": both loops go through, and cluster_mds_addr differs between them |
| ExampleTopology.HostReferenceResolves | internal/configure/topology/topology.go:252-277 | An MDS with the address "${service_host}": its references are acyclic, both loops go through, and it and the cluster variable have the host name |
| ExampleTopology.DifferentIdsDisagree | internal/configure/topology/topology.go:252-277 | The same for any two hosts and different ids, under any names of the variables |
| ParseTopology.RolesOrdered | internal/configure/topology/topology.go:67-101 | No kind lists a role twice, and mds-client comes after mds |
| ParseTopology.ExpandRoles | internal/configure/topology/topology.go:168-250 | The loop over the roles: the services of all roles in order, or the failure of the first role that fails; mds-client reads maps that the role mds has changed |
| ParseTopology.Finish | internal/configure/topology/topology.go:252-279 | Both loops over the services: which one fails, or every service as finished |
| ParseTopology.FinishedHolds | internal/configure/topology/topology.go:252-279 | What each finished service holds, given the instance it started as: known host, rendered texts, configured, service and cluster variables with their values |
| ParseTopology.FinishedAgree | internal/configure/topology/topology.go:268-279 | The finished services agree on every cluster value without a reference, and it is computed from these very services |
| ParseTopology.ParseTopology | internal/configure/topology/topology.go:142-280 | From the parsed file to the finished services, or the first thing that fails |
| TopologyDiff.DiffTopology | internal/configure/topology/diff.go:65-129 | In any map order the result is a diff: each id gained, lost or changed appears once, nothing else; fails iff a shared service has no digest |
| TopologyDiff.CollectIds | internal/configure/topology/diff.go:79-87 | Services by id; of several with one id the last counts |
| TopologyDiff.Difference | internal/configure/topology/diff.go:54-63 | Exactly the entries whose id the other map lacks |
| TopologyDiff.DiffLeadsToNew | internal/configure/topology/diff.go:89-126 | Applying a diff to the old topology gives the ids of the new one with equal digests |
| TopologyDiff.DiffsArePermutations | internal/configure/topology/diff.go:89-126 | Two diffs of the same topologies differ in order only |
| TopologyDiff.EmptyIffSame | internal/configure/topology/diff.go:89-126 | The diff is empty iff ids and digests agree |
| TaskPool.CountPtid | internal/tasks/tasks.go:66-74 | Counts the tasks below a parent id |
| TaskPool.Concurrency | internal/tasks/tasks.go:160-165 | Zero means ten slots and any other number is kept, so there is always one |
| TaskPool.ReachableInv | internal/tasks/tasks.go:199-252 | The pool's invariant (slots, bars, counts, recorded results) holds after every run |
| TaskPoolTheorems.BoundedAndAtMostOnce | internal/tasks/tasks.go:207-243 | In every reachable state at most `Concurrency` tasks are in flight and none has run twice |
| TaskPoolTheorems.FinishedMeansDone | internal/tasks/tasks.go:199-252 | When Execute returns, every task has run once, all slots are free and every bar stands at its total |
| TaskPoolTheorems.BarsBelongToTasks | internal/tasks/tasks.go:136-152 | A bar exists only for the parent id of some task |
| TaskPoolTheorems.ErrorIffSomeTaskFailed | internal/tasks/tasks.go:245-251 | Execute returns an error iff some task returned an error other than ERR_SKIP_TASK |
| TaskPoolTheorems.BarStatus | internal/tasks/monitor.go:75-86 | A sub bar ends in error iff a task of it failed, skipped iff all were, else ok |
| TaskPoolTheorems.MainBarStatus | internal/tasks/tasks.go:167-188 | The main bar ends in error iff some task failed, skipped iff all were, else ok, in any order of bars and whether or not sub bars are shown |
| TaskPoolTheorems.MainOutcomeOfTasks | internal/tasks/tasks.go:167-188 | What is recorded for the main bar, in terms of the tasks |
| TaskPoolTheorems.NeverStuck | internal/tasks/tasks.go:207-245 | Until Execute returns some action is enabled |
| TaskPoolTheorems.RunsAreFinite | internal/tasks/tasks.go:199-252 | No schedule takes more than ten actions a task and one |
| TaskMonitor.RecordFaithful | internal/tasks/monitor.go:66-73 | The stored error stays a real error, there iff one was recorded |
| TaskMonitor.Monitor.Set | internal/tasks/monitor.go:66-73 | Appends the result and keeps the last real error |
| TaskMonitor.Monitor.Sum | internal/tasks/monitor.go:50-64 | The three counts partition the results of a bar |
| TaskMonitor.Monitor.Get | internal/tasks/monitor.go:75-86 | The status of a bar by its results |
| TaskMonitor.Monitor.SetMainBarStatus | internal/tasks/tasks.go:167-188 | Records the error if a bar failed, success if some bar is ok, else a skip, in any order of bars |
| Rpc.ConnectionPool.GetConnection | internal/rpc/pool.go:39-74 | Takes the oldest pooled connection, else dials until one is up, at most retries + 1 times |
| Rpc.ConnectionPool.PutConnection | internal/rpc/pool.go:81-85 | Appends to the address's queue and changes no other |
| Rpc.ConnectionPool.Release | internal/rpc/pool.go:76-80 | Forgets every connection of the address and no other |
| Rpc.ConnectionPool.Call | internal/rpc/client.go:78-106 | The outcome of the first decisive attempt, after exactly that many calls |
| Rpc.ConnectionPool.GetRpcResponse | internal/rpc/client.go:62-119 | Calls only the first address that connects, at most retries + 1 times, returns the first decisive outcome and the connection to that queue; if none connects, the last dial error and an unchanged pool |
| Rpc.CallConserves | internal/rpc/client.go:108-109 | A call loses no pooled connection and adds only the one it dialled, for its own address |
| Rpc.StepConserves | internal/rpc/pool.go:39-85 | One take, put, release or dial loses and doubles no connection |
| Rpc.TrafficConserves | internal/rpc/pool.go:39-85 | However calls of many goroutines interleave, every connection pooled or dialled is pooled, held or released, once, under its own address |
| MdsRouter.MdsMeta.SetMds | internal/common/mds_meta.go:28-36 | Enters every MDS under its id, the last one winning |
| MdsRouter.FilledHas | internal/common/mds_meta.go:28-44 | What a lookup finds after SetMds: a given MDS under its own id, the last one of that id, and none iff no given MDS has it |
| MdsRouter.HashRouter.Init | internal/common/mds_router.go:38-59 | In any map order the bucket table is sound even after a failure; succeeds iff every MDS of the partition is known, and then is complete |
| MdsRouter.HashRouter.GetMds | internal/common/mds_router.go:61-75 | An answer is a given MDS that owns the inode's bucket; over a complete table there is one iff the bucket has an owner |
| MdsRouter.RoutesToOwner | internal/common/mds_router.go:38-75 | With disjoint buckets an answer is always the owner of bucket ino mod BucketNum, even after Init failed |
| MdsRouter.RoutingTotal | internal/common/mds_router.go:38-75 | After a successful Init over a covering partition every inode is routed, to its owner |
| Components.GetLatest | internal/component/repo.go:31-45 | The greatest tag in string order not below v0.0.0, in any map order; none iff there is no such tag |
| Components.LatestUnique | internal/component/repo.go:31-45 | There is one latest tag, so map order plays no part |
| Components.TagOrder | internal/component/repo.go:31-45 | Two tags are ordered by the digits of the first component that differs, whatever follows |
| Components.OneDigitOrder | internal/component/repo.go:31-45 | With components of one digit the tags are ordered as the versions are |
| Components.LatestIsGreatestIff | internal/component/repo.go:31-45 | GetLatest names the greatest version for all tags with components below a bound iff the bound is at most ten |
| Components.NineBeforeTen | internal/component/repo.go:31-45 | v9.0.0 is above v10.0.0 as a tag, though 9.0.0 precedes 10.0.0 |
| Components.LatestIsNotNumeric | internal/component/repo.go:31-45 | v10.0.0 is never the latest beside v9.0.0 |
| ComponentManager.Manager.FindVersion | internal/component/component_manager.go:143-175 | Resolves latest, main or a tag to its details; fails iff nothing resolves |
| ComponentManager.Manager.LoadInstalledComponents | internal/component/component_manager.go:63-80 | Reads the list back; no file leaves the list alone, an unreadable one is an error |
| ComponentManager.Manager.SaveInstalledComponents | internal/component/component_manager.go:134-141 | Writes the list to disk; a failing write leaves the old file or one that cannot be read |
| ComponentManager.Manager.FindInstallComponent | internal/component/component_manager.go:353-361 | Finds the first component with the name and version, or none |
| ComponentManager.Manager.InstallOrUpdate | internal/component/component_manager.go:185-247 | A success places the resolved version, active and alone so, and saves it; a refusal changes nothing; every error has its reason |
| ComponentManager.Manager.SetDefaultVersion | internal/component/component_manager.go:249-268 | Within the name exactly the components of the version are active afterwards; with the version not installed, an error and none of the name is active |
| ComponentManager.Manager.RemoveComponent | internal/component/component_manager.go:270-298 | Removes the version and its file; refuses an active one without force and then changes neither list nor files |
| ComponentManager.Manager.RemoveComponents | internal/component/component_manager.go:300-327 | Removes every version of a name and their files, nothing else |
| ComponentManager.SessionsKeepInv | internal/component/component_manager.go:185-327 | Over every sequence of operations, failures included: (name, version) pairs stay unique and a name has at most one active version, in memory and on disk |
| ComponentManager.TransitionInv | internal/component/component_manager.go:185-327 | What any one operation may do to the lists keeps the invariant |
| ComponentManager.PlacedInv | internal/component/component_manager.go:225-244 | Placing a component and activating it keeps the invariant |
| ComponentManager.PlacedActivates | internal/component/component_manager.go:206-246 | After an install or update exactly the placed version of the name is active and other names are untouched |
| ComponentManager.ActivatedRepairs | internal/component/component_manager.go:249-268 | Activating a version repairs a name with several active ones |
| ComponentManager.WithoutKeeps | internal/component/component_manager.go:274-292 | Removing keeps order, everything else and the invariant |
| PlaybookReceiver.Receiver.Receive | cli/command/playbook.go:141-151 | Each arrival extends the output; the receiver's invariant holds |
| PlaybookReceiver.ReceiveAll | cli/command/playbook.go:137-152 | Whatever arrives, printed are the indices below the least one missing, in order, once each |
| PlaybookReceiver.EveryoneArrives | cli/command/playbook.go:98-121 | Any order of arrival delivers every worker's result and nothing else |
| PlaybookReceiver.AllPrintedIffIndexed | cli/command/playbook.go:98-152 | Once the receiver has finished its rounds, all results are printed iff no worker but the first failed to copy its script; otherwise output stops before such a worker |
| PlaybookReceiver.PrintedInHostOrder | cli/command/playbook.go:98-152 | Once the receiver has finished its rounds and every worker sent its own index, the output is in host order for every order of arrival |
| PlaybookReceiver.SecondCopyFails | cli/command/playbook.go:98-152 | Two hosts, and the copy to the second fails: its result is never printed |
| PlaybookRun.ReachableInv | cli/command/playbook.go:98-173 | In every reachable state of workers, channel and receiver the printed lines are in order, arrived, and complete up to the round under way |
| PlaybookRun.OutputAtReturn | cli/command/playbook.go:154-173 | When the command returns every result has arrived once, and the lines of all rounds but possibly the last are printed |
| PlaybookRun.AllPrintedAtReturnIff | cli/command/playbook.go:154-173 | When the command returns everything is printed iff no worker but the first failed to copy and the receiver has finished printing |
| PlaybookRun.LastRoundCanBeLost | cli/command/playbook.go:154-173 | With any hosts there is a schedule in which the command returns before everything is printed |
| PlaybookRun.AlwaysAllPrintedIff | cli/command/playbook.go:154-173 | Every schedule prints everything before the command returns iff there is no host |
| UpgradeSteps.GenSteps | cli/command/cluster/upgrade.go:102-117 | The playbook gets the list without PULL_IMAGE, and the package's own list is shifted with its last step doubled |
| UpgradeSteps.MoveUp | cli/command/cluster/upgrade.go:112 | The append overwrites the array in place |
| UpgradeSteps.ShiftedIsStable | cli/command/cluster/upgrade.go:109-116 | After one edit no later edit changes the list, and PULL_IMAGE is gone |
| UpgradeSteps.TablesPullOnce | cli/command/cluster/upgrade.go:32-55 | Both step lists hold PULL_IMAGE once and not at the end |
| UpgradeSteps.UpgradeOneByOne | cli/command/cluster/upgrade.go:182-214 | For any number of services: the first over a list runs it without PULL_IMAGE, every later one runs that and the last step once more |
| UpgradeSteps.RightIffFirst | cli/command/cluster/upgrade.go:182-214 | A service runs exactly its list without PULL_IMAGE iff no earlier service used that list, and all do iff no two services use one list |
| UpgradeSteps.PlaybookAfterFirst | cli/command/cluster/upgrade.go:34-42 | From the second service on START_SERVICE runs twice |
| Versions.CalcVersion | internal/tools/upgrade/upgrade.go:41-53 | The base-1000 number in 64 bits, or -1 if an item does not parse |
| Versions.ValueBound | internal/tools/upgrade/upgrade.go:41-53 | k components in 0..999 stay below 1000^k, so up to six do not wrap around |
| Versions.ValueOrders | internal/tools/upgrade/upgrade.go:41-53 | On equal lengths the number is injective and ordered as the components are |
| Versions.IsLatest | internal/tools/upgrade/upgrade.go:55-63 | For versions of equal length true iff the current one is not older; for unequal lengths as if zeros stood in front of the shorter one |
| Versions.LongerIsNewer | internal/tools/upgrade/upgrade.go:55-63 | A longer version that does not start with zeros is newer whatever its components |
| Versions.BoundsAreNeeded | internal/tools/upgrade/upgrade.go:41-63 | Inputs at which unequal length, a component of 1000, the sentinel -1 and a seventh component each break the comparison |
| Versions.RightIff | internal/tools/upgrade/upgrade.go:41-63 | With components 0 to 999 the comparison is right for all versions of two lengths iff the lengths are equal and at most six |
| Versions.RightBelowIff | internal/tools/upgrade/upgrade.go:41-63 | For components below a bound: lengths that differ are right only for bound one; one component always; two to six iff the bound is at most 1000; seven iff at most ten |
| Versions.RefusedIff | internal/tools/upgrade/upgrade.go:41-63 | A version that parses, of up to six items of up to three digits, is refused iff it is zeros, then -1, then only 999s |

## Left out

- RPC, SSH, docker, downloads, YAML and viper parsing, protobuf types, logging, prompts and tables: I/O behind libraries. Replies, dials, listings and task outcomes are arbitrary inputs; parsed configurations are where the model starts.
- Timeouts and sleeps: retries are counted, not timed.
- Locks of the connection pool, the monitor and the router: each of their methods is one atomic step. Interleaving is modelled where the result depends on it: in the scan, the task pool, the playbook and the traffic of the connection pool.
- Text is a sequence of characters, not of bytes; string order is that of code points.
- DirScan.Step: a listing or attribute request is one atomic step. The tree does not change during a scan, and every call may fail at any time. The log lines and the deferred cancel of the caller are not modelled.
- NamespacePaths.GetInodePath: a failed RPC appears as a missing inode; the climb needs parent links that lead to the root, since otherwise the loop does not end.
- NamespacePaths.InodePathInode: assumes a well-formed namespace: names in a listing are unique, not empty and without a slash, and listings and first parents agree.
- Variables.VariableTable.Resolve: the table holds variables by value where the original holds pointers; a name is always entered under its own key, so no two entries share one. The method needs acyclic references to end; what the recursion does on any table is in VariableCycles.
- ConfigMerge.Merge: values are nil, text, whole numbers, booleans, maps that the code writes to, and all others (floats, lists, maps under ordinary keys), which are told apart by an identity only, since NewDeployConfig refuses them.
- TopologyRoles.ExpandRole: no two configurations of a parsed file share a map, and the only nested map that is more than a value is the variable section. ConfigCopy.DeepCopy is proved for maps of any depth.
- ParseTopology.ParseTopology: starts from the parsed file; the empty file, parse errors and the version note put into the context are not modelled. An error is known by its kind, not by its message. The references among the variables are taken to be acyclic, as resolution needs. The sections of chunkserver and snapshotclone are not read, since no kind lists these roles.
- DeployConfigs.NewDeployConfig: the context is not a field of the model's service.
- Topology.GetClusterValue: the cluster variables that ParseTopology registers and no others; ports, addresses and service variables are what the getters answer for a service's facts, so a random value is a function of them.
- TopologyPhases.ResolveHost: a context is always present.
- TopologyPhases.BuildConfig: whether the entries convert to their declared types is an arbitrary function of the service's facts; the converted values are not kept. The duplicate-id check of the first loop reads a map that is never filled, so it never fires and is left out.
- TopologyPhases.PhaseTwo: the references inside cluster values are taken to be acyclic, as resolution needs.
- TopologyDiff.DiffTopology: starts from two parsed topologies; the digest of a service is an arbitrary number or a failure.
- TaskPool.ReachableInv: bar names, their rendering and the wait for the progress display are not modelled.
- Rpc.ConnectionPool.GetRpcResponse: for a non-empty address list; an empty one leaves no result to read.
- ComponentManager.Manager.RemoveComponent: a file is a path; a failing delete is ignored as in the original. That a refusal leaves the files alone needs unique (name, version) pairs, which SessionsKeepInv keeps. ListComponents and the lookup of the active component would only add easy members.
- PlaybookReceiver.Receiver.Receive: printing is appending to a list; the error of a remote command is part of its output.
- PlaybookRun.OutputAtReturn: a send on the channel and its receipt are one action; what the process prints after the command has returned, while it is still running, is not modelled.
- UpgradeSteps.UpgradeOneByOne: with a local image and every prompt confirmed; the playbook built from the steps is not modelled.
- Versions.CalcVersion: starts from the parsed items.
- Versions.RightBelowIff: equal lengths above seven go wrong once a component reaches ten (SevenMislead); with smaller components it depends on where the products wrap around.
- MonoMDSRouter, SafeMap, the metadata map, error-code tables, path layouts, and the older copies of the task runner: easy or unused members.

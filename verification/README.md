# Verified model of the gateway and its container agent

A container gateway starts a container with an agent inside. The agent supervises services, shuts
them down in order, reaps processes when nobody uses the container, and keeps rotating logs. The
gateway builds its configuration from files that extend, include and patch each other, and renders
launch commands from templates. These Dafny modules model that logic and prove what it guarantees.

`dafny verify dfyconfig.toml` checks everything.

| file | models |
|---|---|
| `options.dfy`, `sequences.dfy`, `graphs.dfy`, `services.dfy` | optional values; positions in sequences; finite directed graphs and their paths; the part of a service configuration that ordering needs |
| `service_graph.dfy` | the dependency check on services, and the startup it protects |
| `stop_order.dfy` | the stop order and the forced-exit delay |
| `supervisor_protocol.dfy`, `supervisor.dfy` | one service's supervisor, `stop()` and the operating system, as interleaved atomic steps; what every interleaving guarantees |
| `stop_walk.dfy` | all supervisors together under the shutdown, which stops them one after the other |
| `startup.dfy` | all supervisors together as they start, each waiting for the probes of its dependencies |
| `shutdown_protocol.dfy`, `shutdown.dfy` | any number of concurrent callers of the agent shutdown; what every schedule guarantees |
| `log_disk.dfy`, `rotation.dfy` | log rotation over inodes, names and one open handle, with failing steps; what it keeps, and the objects that run it |
| `idle.dfy`, `reap.dfy` | the idle state and the plan of what to terminate |
| `merge.dfy` | the path-sensitive merge of configuration trees and the chain of `extends` links |
| `includes.dfy` | composition of include files |
| `chains.dfy`, `overlays.dfy` | templates that use templates, and the overlay of launch inputs |
| `steps.dfy` | ordered patches of inherited steps |
| `templates.dfy`, `launches.dfy` | `{key}` templates, launch validation, variable resolution and rendering |
| `launch_configs.dfy` | the launches of a configuration: early checks, layering of defaults, templates and launch, late checks |
| `ssh_format.dfy` | the bounded display of an SSH command |

How the model is built:

- Code that changes state in place is a method or a class with the same loops; it is proved
  equal to a recursive function, and the lemmas are about that function. Concurrent code is a state
  machine whose events are the atomic steps of the agent, and the lemmas hold in every reachable
  state or over every run.
- Process exits, polls, renames, opens and writes are events whose outcome is a parameter of the
  run; time is a natural number. Parsed files, process tables and clock readings are inputs.
- Errors are an outcome, not a precondition. Their texts are not modelled.

Where the code and an expectation differ, the model follows the code:

- A failed poll, wait or kill makes the supervisor or `stop()` drop the process handle, so a process
  can outlive `stop()` without anyone ending it; `FailedPollLeavesProcess` is such a run. A process
  alive after `stop()` is being ended exactly if no poll, wait or kill on it failed (`AliveAfterStop`).
- Merging is not associative: `GroupingMatters` gives three files on which the groupings differ, and
  `AssociativeIff` says, from the values alone, on which three they do not.
- A supervisor whose policy asks for no restart leaves, and services that wait for the process of its
  service then stay down for good (`DownForGood`); nothing else blocks startup (`StartupNeverStuck`).
- The built-in template variables `session_id` and `container_pid` are bound only sometimes, so a
  valid launch can fail to render (`SessionLaunchFails`); `ValidationImpliesRendering` says exactly when.

## Model

| member | source | states |
|---|---|---|
| `ServiceGraph.VisitServiceDependency` | src/config/agent.rs:279-310 | The recursive walk on shared `visiting`, `visited` and `stack` returns what the recursive function `Visit` says, and leaves the stack and the set as it found them when no cycle is met; it terminates on every graph. |
| `ServiceGraph.VisitSound` | src/config/agent.rs:279-310 | Every finished node lies in a set that no edge leaves and in which no cycle starts; a reported stack slice is a genuine cycle. |
| `ServiceGraph.ValidateServiceDependencyGraph` | src/config/agent.rs:258-277 | Accepts exactly the acyclic graphs; a rejection reports a genuine cycle. |
| `ServiceGraph.ValidateServices` | src/config/agent.rs:97-115 | Valid exactly when all fields are well formed, names are unique, dependencies are known and the graph is acyclic; a rejection names the first ill-formed or repeated service, or else, with all fields and names in order, an unknown dependency, or else a genuine cycle. |
| `ServiceGraph.StartupProgress` | src/agent/service.rs:301-340 | For a validated list and any set of healthy services that is not all of them, some service that is not healthy has no missing dependency: startup cannot deadlock. |
| `Startup.StartsAfterDependencies` | src/agent/service.rs:301-340 | In every run of all supervisors together, before every start of a service, restarts included, each of its dependencies was up at some moment since the previous start. |
| `Startup.StartupNeverStuck` | src/agent/service.rs:125-187 | In every reachable state without `stop()` whose running services are healthy, if a service is not running and no supervisor among it and what it needs has left, one of those not running is brought up by its own supervisor's steps alone. |
| `Startup.StartupCompletes` | src/agent/service.rs:125-187 | From such a state, if no supervisor has left, all services can come up and be healthy. |
| `Startup.LeavingForGood` | src/agent/service.rs:166-187 | A supervisor that has ended, or will because its policy asks for no restart, never starts its service again, whatever happens. |
| `Startup.DownForGood` | src/agent/service.rs:301-340 | A set of services, each left by its supervisor or still waiting for the process of another of the set, stays down in every continuation. |
| `StopOrder.ServiceStopOrder` | src/agent/service.rs:624-654 | The in-place walk computes `Order`, for any list, cyclic or not. |
| `StopOrder.OrderEmitsEachNameOnce` | src/agent/service.rs:624-654 | For any list each configured name is emitted exactly once, by the first service of that name. |
| `StopOrder.OrderIsPermutation` | src/agent/service.rs:624-654 | With unique names the order is a permutation of the services. |
| `StopOrder.StopsDependentsFirst` | src/agent/service.rs:624-654 | For a validated list every dependent precedes each service it depends on. |
| `StopOrder.OrderedListUnchanged` | src/agent/service.rs:624-654 | A list in which every dependent already stands before what it depends on is left as it is. |
| `StopOrder.OrderIsIdempotent` | src/agent/service.rs:624-654 | For a validated list ordering twice is ordering once. |
| `StopOrder.ShutdownWatchdogDelay` | src/agent/lifecycle.rs:27-44 | The fold with saturating addition gives the maximum of the minimum and the saturated total of the timeouts plus five seconds. |
| `StopOrder.WatchdogOutlastsShutdown` | src/agent/service.rs:656-683 | Short of saturation the forced exit never comes before all stops have waited, each with its own timeout computation, plus five seconds, whenever and whether or not the processes exit. |
| `StopOrder.WatchdogIsTight` | src/agent/lifecycle.rs:27-44 | The delay is never below the minimum, and is the minimum, the longest possible waits plus five seconds, or the saturated maximum. |
| `StopOrder.BudgetCoversEveryService` | src/agent/lifecycle.rs:27-44 | With unique names the budget is the sum over all configured services, in whatever order they are stopped. |
| `Supervisor.InvStep` | src/agent/service.rs:125-187 | Every step of supervisor, `stop()` and operating system keeps the invariant: a live process is in the slot, in someone's custody, or was dropped after an error. |
| `Supervisor.StartFindsSlotEmpty` | src/agent/service.rs:386-467 | In every interleaving a start finds the slot empty and never overwrites a child. |
| `Supervisor.SingleInstance` | src/agent/service.rs:386-467 | At most one live instance exists, apart from processes dropped after a failed wait, poll or kill. |
| `Supervisor.NothingStartsAfterStop` | src/agent/service.rs:113-122 | Once `stop()` has taken the slot it stays empty, nothing is spawned again and no process appears. |
| `Supervisor.AliveAfterStop` | src/agent/service.rs:113-122 | A process alive after `stop()` returned is being ended by the supervisor's unhealthy path if and only if no poll, wait or kill on it failed in the run. |
| `Supervisor.AbandonedExactly` | src/agent/service.rs:196-282 | Over every run the processes nobody holds any more are exactly those on which a poll, wait or kill failed. |
| `Supervisor.OnlyEndingAliveIff` | src/agent/service.rs:266-269 | After `stop()` only the process that the unhealthy path is ending can be alive, if and only if every process with a failed poll, wait or kill is dead. |
| `Supervisor.StopLeavesOnlyEndingProcess` | src/agent/service.rs:266-269 | Without operating-system errors only the process that the unhealthy path is ending can be alive after `stop()` returned. |
| `Supervisor.FailedPollLeavesProcess` | src/agent/service.rs:196-282 | A concrete run shows the error case: one failed poll drops a running child, `stop()` finds the slot empty and returns, and nobody ends the process. |
| `Supervisor.PolicyObeyed` | src/agent/service.rs:293-299 | Over every run a service with the policy `never` is started at most once, and the supervisor of one with the policy `always` ends only after `stop()`. |
| `Supervisor.FailureIsRestarted` | src/agent/service.rs:293-299 | Over every run a service with the policy `on-failure` whose supervisor has ended without `stop()` has exited successfully: its child was taken out of the slot by such a poll. |
| `Supervisor.SuccessIsFinal` | src/agent/service.rs:293-299 | After such an exit it is never started again. |
| `Supervisor.EndedOnlyIfUnhealthy` | src/agent/service.rs:196-282 | The supervisor ends a process only in a run with a failed health probe. |
| `Supervisor.UnhealthyIsEnded` | src/agent/service.rs:196-282 | A required service that is alive past its grace period and fails its probe is taken from the slot and sent SIGTERM. |
| `Supervisor.TermBeforeWait` | src/agent/service.rs:656-683 | In every run `stop()` waits for a process, or kills it, only after it sent SIGTERM. |
| `Supervisor.StopCanReturn` | src/agent/service.rs:656-683 | A `stop()` that took a child can always return, by SIGTERM and the wait or kill, and the process is then dead. |
| `Supervisor.SupervisorLeaves` | src/agent/service.rs:140-187 | After the slot was taken the supervisor makes at most six more steps, and one is enabled until it has left its loop. |
| `Shutdown.InvStep` | src/agent/lifecycle.rs:12-25 | Every atomic step of any number of callers keeps the protocol invariant. |
| `Shutdown.OneWinner` | src/agent/lifecycle.rs:12-25 | At most one caller ever stops the services and returns true. |
| `Shutdown.ReturnsAfterAllStopped` | src/agent/lifecycle.rs:12-25 | Whatever a call returns, `shutdown_complete` is then set, bridge streams are refused and all services were stopped in order. |
| `Shutdown.StopsInOrder` | src/agent/lifecycle.rs:12-25 | At every moment the stopped services are a prefix of the order, bridge streams are refused before the first of them is stopped, and completion means all are. |
| `Shutdown.FlagsAreMonotone` | src/agent/lifecycle.rs:12-25 | Bridge accepts are never re-enabled; `shutting_down` and `shutdown_complete` are never cleared. |
| `Shutdown.NoLostWakeup` | src/agent/lifecycle.rs:64-72 | Once the winner has returned, every waiter has an enabled step. |
| `Shutdown.StoppedAfterDependents` | src/agent/lifecycle.rs:74-79 | At every moment of every schedule a stopped service had all its dependents stopped before it. |
| `StopWalk.DependentsAreDown` | src/agent/lifecycle.rs:74-79 | With all supervisors running beside the shutdown, once the `stop()` of a service has begun no dependent starts a process any more, and a process of a dependent is alive only while its unhealthy path ends it or after a failed poll, wait or kill on it. |
| `StopWalk.WalkCanFinish` | src/agent/lifecycle.rs:74-79 | However far the shutdown has come, and whatever the supervisors are doing, it can go on until every service is stopped. |
| `Shutdown.ScheduleBounded` | src/agent/lifecycle.rs:12-25 | Every schedule is finite, with an explicit bound in callers and services. |
| `Shutdown.EveryCallerReturns` | src/agent/lifecycle.rs:12-25 | A schedule that cannot go on has let every caller return, exactly one of them with true. |
| `RotatingLog.RotationState.RotationPlan` | src/rotating_log.rs:41-63 | The loop pushes the removal of the oldest generation and then the renames, highest generation first. |
| `RotatingLog.OperationKeepsStream` | src/logging.rs:231-297 | One write under any faults keeps the invariant that all generations newer than the handle are empty or missing; the files lose nothing but the whole oldest generation and gain exactly the appended bytes while the handle's inode has a name. |
| `RotatingLog.CalmOperation` | src/rotating_log.rs:65-67 | A write that fits the limit by the counter, or any write without old generations, changes no name and no handle, whatever would fail. |
| `RotatingLog.RotationSucceedsIff` | src/logging.rs:231-265 | A rotation succeeds exactly if the flush, every rename and the open succeed, whatever becomes of the removal; otherwise the writer keeps its inode, and its counter is reset only after all renames. |
| `RotatingLog.ResultSays` | src/logging.rs:291-297 | A success reports exactly the bytes that were appended, a prefix of the buffer; a failed write appends nothing. |
| `RotatingLog.FilesAreSuffixOfHistory` | src/logging.rs:231-297 | After any run with any failing renames, removals, opens and writes, the generations read oldest to newest are a suffix of the initial content and all bytes appended. |
| `RotatingLog.CleanPlanShifts` | src/rotating_log.rs:41-63 | Without faults the plan is the simultaneous shift of every generation, and only the oldest disappears. |
| `RotatingLog.CleanRotationShifts` | src/logging.rs:231-265 | A fault-free rotation ends with every generation shifted, a fresh active file held by the handle and a zero counter. |
| `RotatingLog.CleanRunBoundsFiles` | src/rotating_log.rs:65-75 | Over fault-free runs the counter equals the active file's length and every file begun since the start is within the limit or holds a single write. |
| `RotatingLog.RotatesExactly` | src/rotating_log.rs:65-75 | In a fault-free run each write rotates exactly if the active file and the whole write together exceed the limit and old generations are kept: then all generations move up and the write begins a fresh file; otherwise only the active file grows. |
| `RotatingLog.SmallRunStays` | src/rotating_log.rs:65-75 | A fault-free run whose initial active content and writes fit the limit together changes no name and leaves all bytes in the active file. |
| `RotatingLog.SizeRotatingFile.RotateIfNeeded` | src/logging.rs:231-265 | Below the limit, or without old generations, nothing changes; above it the step-by-step rotation on the object's fields gives the specified outcome and succeeds exactly if flush, renames and open do. |
| `RotatingLog.SizeRotatingFile.Write` | src/logging.rs:291-297 | A write changes disk, handle and counter as specified and keeps the object's files a suffix of its history. |
| `RotatingLog.SizeRotatingFile.WriteAll` | src/agent/service.rs:529-534 | The same for a service log, whose failed write may leave an uncounted prefix. |
| `ConfigMerge.MergeValues` | src/config/root.rs:94-105 | The recursive merge of the source computes `Merge`. |
| `ConfigMerge.MergeTablesInPlace` | src/config/root.rs:107-128 | The table loop computes `Merge` on tables, atomic maps included. |
| `ConfigMerge.MergeNamedArrays` | src/config/root.rs:136-164 | The loop over values and keys computes `Merge` on named arrays, with every duplicate or unnamed entry refused. |
| `ConfigMerge.MergeTables` | src/config/root.rs:107-128 | A table merge succeeds exactly if every field's merge does, and each field of the result is that merge. |
| `ConfigMerge.MergeArrays` | src/config/root.rs:136-164 | A named-array merge succeeds exactly if names are unique and every entry's merge succeeds; base names come first in their order, then the new ones in theirs. |
| `ConfigMerge.ClashesIff` | src/config/root.rs:94-164 | A merge fails exactly on values that clash: somewhere both have a value of one kind and one of the two is an array with missing or repeated names. |
| `ConfigMerge.LeftClashesIff` | src/config/root.rs:94-164 | The same for three values grouped to the left. |
| `ConfigMerge.RightClashesIff` | src/config/root.rs:94-164 | The same for three values grouped to the right. |
| `ConfigMerge.AbsorbsIff` | src/config/root.rs:94-164 | A merge gives back the extending value exactly if that has every field of the base, or the base's entries first and in order, and absorbs each of them. |
| `ConfigMerge.AssociativeIff` | src/config/root.rs:94-164 | For any three values at any path, both groupings give the same value or both fail if and only if the values agree. Agreement is told from kinds, names, clashes and absorption: at the place where the last two differ in kind, and field by field and entry by entry where they do not. |
| `ConfigMerge.MergeAssociative` | src/config/root.rs:94-164 | In particular, if the last two values agree in kind wherever all three have a value, both groupings succeed together and give the same value, array order and atomic maps included. |
| `ConfigMerge.MixedKinds` | src/config/root.rs:94-105 | Where the last two values differ in kind at a path, both groupings there are computed exactly: the left forgets the base. |
| `ConfigMerge.GroupingMatters` | src/config/root.rs:94-128 | Three tables with one field, under the gateway's rules: a scalar between two tables makes one grouping lose the base's setting and the other keep it. |
| `ConfigMerge.EmptyTableIsUnit` | src/config/root.rs:94-128 | The empty table is a left unit for every value and a right unit for tables. |
| `ConfigMerge.MergeIdempotent` | src/config/root.rs:94-164 | Merging a value with itself gives it back exactly when its named arrays are well named, and fails otherwise. |
| `ConfigMerge.ServiceEnvIsReplaced` | src/config/root.rs:107-128 | Two services of one name in a target, both with an `env` table, merge to a service whose `env` is the base's with each variable the extending file sets replaced whole, whatever its kind. |
| `ConfigMerge.ChainGrouping` | src/config/root.rs:15-50 | Files of one shape, a kind for every place that fields and entry names lead to, merged in any binary grouping give the loader's left fold, with the same success. |
| `ConfigMerge.LoadGatewayRoot` | src/config/root.rs:10-50 | Following the `extends` links by name, the result is the left fold of each file's own value, most basic file first; without links that end within 64 files there is none. |
| `ConfigMerge.LoadGatewayRootInner` | src/config/root.rs:15-50 | The recursive loader on its stack computes the fold of the chain, or refuses. |
| `ConfigMerge.LinksLoad` | src/config/root.rs:15-50 | The accepted chain is exactly the values of the linked files, from the last name to the first. |
| `ConfigMerge.LastMentionWins` | src/config/root.rs:94-128 | A root setting that is replaced as a whole comes from the last file of the chain that has it. |
| `ConfigMerge.NamedArrayPlaces` | src/config/root.rs:180-202 | Merged by name are exactly the services and the three kinds of steps of target defaults, target templates and targets, and the steps of launch defaults, launch templates and launches. |
| `ConfigMerge.AtomicMapPlaces` | src/config/root.rs:204-221 | Replaced entry by entry are exactly the services' environments and the socket exposures of target defaults, target templates and targets. |
| `ConfigMerge.ChainAcceptedIff` | src/config/root.rs:15-50 | A chain is accepted exactly when its links end within 64 files; a cycle never is. |
| `Includes.InsertDefinitions` | src/config/include.rs:69-95 | Inserting name by name, section by section, gives the union if no name and no non-table field is in the way, and an error otherwise. |
| `Includes.ComposeInPlace` | src/config/include.rs:43-67 | The walk with its shared root, `seen` and `stack` computes the specification and restores the stack. |
| `Includes.ComposeGatewayIncludes` | src/config/include.rs:7-33 | The whole composition computes `Compose`, which also refuses a root pattern that matches nothing. |
| `Includes.ComposeSucceedsIff` | src/config/include.rs:43-95 | Succeeds exactly if the root's patterns match, no reachable include is missing or malformed, no include cycle is reachable, no name is defined twice in a section and no section meets a non-table root field; the result is then the disjoint union of all reachable definitions. |
| `Includes.TraversalOrderIrrelevant` | src/config/include.rs:43-95 | Listing the same includes in another order, or repeatedly, never changes the outcome. |
| `TemplateChains.CheckTemplateReferences` | src/config/resolver.rs:34-44 | The recursive check on a shared stack returns what `Check` says and restores the stack. |
| `TemplateChains.ValidateReferences` | src/config/resolver.rs:13-18 | Succeeds exactly if every used template exists and the graph is acyclic; a reported problem is genuine. |
| `TemplateChains.CheckWalksPath` | src/config/resolver.rs:34-44 | A successful check has walked every path from the checked template. |
| `TemplateChains.ApplyTemplate` | src/config/resolver.rs:46-62 | Applying a template on a shared stack computes `Apply`. |
| `TemplateChains.OverlayTemplates` | src/config/resolver.rs:20-32 | Overlaying a list computes the specification from left to right. |
| `TemplateChains.ApplyIsFold` | src/config/resolver.rs:46-62 | Applying a template of a closed acyclic graph is the left fold of the overlay over its depth-first post-order flattening, repeats kept. |
| `TemplateChains.ValidatedTemplatesResolve` | src/config/resolver.rs:20-62 | After validation any list of existing templates can fail only inside an overlay, and gives the fold over the flattened list. |
| `TemplateChains.FlatteningUnique` | src/config/resolver.rs:46-62 | A graph has at most one flattening, so the fold is determined. |
| `TemplateChains.FlatteningOrder` | src/config/resolver.rs:46-62 | In the flattening everything a template uses comes before it. |
| `TemplateChains.CheckPredictsApply` | src/config/resolver.rs:34-62 | For any configuration, valid or not, applying meets exactly the problem that checking meets, unless an overlay fails first. |
| `Overlays.MergeNamed` | src/config/validation.rs:199-238 | The merge of services and of launch steps replaces by name or appends, keeps its vector of keys in step, and refuses duplicate inherited names. |
| `Overlays.PutAllAssociative` | src/config/validation.rs:221-238 | Merging by name is associative for unique names in the first two lists. |
| `Overlays.OverlayLaunch` | src/config/launch.rs:83-104 | Overlaying a launch input computes `Overlay`, field by field. |
| `Overlays.OverlayChooses` | src/config/launch.rs:83-104 | Every single setting is the later one if there is one and otherwise the earlier; of environment, variables and steps the later entry of each name wins, inherited steps keep their places and new ones follow in the order of their first mention. |
| `Overlays.OverlayAssociative` | src/config/launch.rs:83-104 | For any three inputs, overlaying in turn and overlaying the combination give the same result or the same refusal if and only if the middle input's step names are unique or the first input's are not. |
| `Overlays.RepeatedStepMatters` | src/config/launch.rs:83-104 | For overlaying taken alone: with a middle input that repeats a step name, which the partial check refuses, overlaying in turn succeeds and the combination is refused. |
| `Overlays.ChainIsOneOverlay` | src/config/resolver.rs:20-62 | Overlaying a chain of launch templates with unique step names never fails and equals overlaying one template: the chain on the empty input. |
| `Overlays.EmptyInputIsUnit` | src/config/launch.rs:83-104 | The empty input is a unit of overlaying, up to the list of used templates on the left. |
| `StepPatches.MergeTargetStepPatches` | src/config/steps.rs:563-655 | The loop that inserts into and removes from two vectors computes the specification; the final duplicate check never fails. |
| `StepPatches.ValidateRawTargetSteps` | src/config/steps.rs:527-561 | Accepts exactly the lists of distinct keys without contradictory positions or payloads on removals. |
| `StepPatches.MergeSucceedsIff` | src/config/steps.rs:563-655 | For distinct raw keys patching succeeds exactly if inherited keys are unique and every entry fits, told from the input: a replacement has no position, a removal has an inherited step, a reference is inherited and not removed before or added before, and what stays can be converted. |
| `StepPatches.ResultKeys` | src/config/steps.rs:563-655 | Result keys are unique and are the inherited ones minus the removed plus the new; only existing keys are removed. |
| `StepPatches.ResultOrder` | src/config/steps.rs:563-655 | Surviving keys keep their relative order. |
| `StepPatches.ResultPlacement` | src/config/steps.rs:563-655 | Every new step stands directly before or after its reference if that survives, and a step without a position stands last: only new steps of later entries come between or behind. |
| `StepPatches.ResultEntries` | src/config/steps.rs:563-655 | The entry under each key is the inherited one, or the conversion of its patch with the inherited step it replaces. |
| `StepPatches.ResultAligned` | src/config/steps.rs:563-655 | Keys and entries stay index-aligned. |
| `StepPatches.FinalCheckNeverFails` | src/config/steps.rs:563-655 | The final duplicate-key failure is unreachable. |
| `StepPatches.TimeoutOnlyPatch` | src/config/steps.rs:37-64 | A lifecycle entry with only a timeout changes nothing but the timeout of the step it replaces. |
| `StepPatches.ConvertsIff` | src/config/steps.rs:37-64 | A lifecycle entry converts exactly if it has a command, or over an inherited step nothing but a timeout; with its own command it takes nothing from the step it replaces. |
| `StepPatches.OwnStepsRoundTrip` | src/config/steps.rs:24-64 | Writing lifecycle steps out as raw entries and merging those gives the steps back, in their order. |
| `StepPatches.LifecycleKeysMatch` | src/config/steps.rs:563-655 | For the lifecycle steps with the conversion of the source, the merged entries carry exactly the merged keys, without repeats. |
| `Templates.ReferencedKeys` | src/template.rs:14-30 | The loop returns the keys of the parsed segments, or the parse error. |
| `Templates.Render` | src/template.rs:32-53 | Succeeds exactly if the template parses and all keys are bound; the output is the text with each value substituted once and never rescanned; an error is the parse error or a key that is not bound. |
| `Templates.ValidateKeys` | src/template.rs:5-12 | Accepts exactly the well-formed templates whose keys are all allowed. |
| `Templates.RenderArgv` | src/template.rs:55-57 | Succeeds exactly if each argument renders; arguments are rendered one by one. |
| `Templates.ParseIsCanonical` | src/template.rs:14-30 | Printing the parsed segments gives the input back, and the segments alternate text and keys. |
| `Templates.PrintParses` | src/template.rs:14-30 | Parsing what was printed gives the segments back. |
| `Templates.ParseErrorIsReal` | src/template.rs:14-30 | A reported empty key is a pair of braces with nothing between, a reported unclosed one an opening brace without any closing one behind it. |
| `Templates.PlainRenders` | src/template.rs:32-53 | A text without an opening brace renders as it stands. |
| `Templates.RendersInOrder` | src/template.rs:32-53 | Text, a bound key and the rest render to the text, the key's value and the rest's rendering. |
| `Templates.IdentityRenders` | src/template.rs:32-53 | With each key bound to its own text every template renders as it stands. |
| `Launches.AllowedTemplateVars` | src/config/launch.rs:320-327 | The list holds the built-in keys and one key per declared variable, and no others. |
| `Launches.ValidateTemplateWithPolicy` | src/config/validation.rs:278-306 | Accepts exactly the templates whose keys are built in, declared, or, as far as the policy admits them, unbound variables or contexts with a well-formed name. |
| `Launches.ValidateLaunchCommandTemplates` | src/config/launch.rs:251-281 | Accepts exactly the commands whose arguments are `{args}` as a whole or valid templates without it, with the sentinel where it may stand. |
| `Launches.ValidateLaunchArgsSentinel` | src/config/launch.rs:283-318 | The sentinel is never first, never twice, present if arguments are allowed in an effective launch, and absent if they are refused. |
| `Launches.SentinelRules` | src/config/launch.rs:283-318 | Told from the command: `{args}` is not first and stands at most once; in an effective launch it stands there exactly if arguments are allowed, in a partial one not if they are refused. |
| `Launches.CollectVarReferences` | src/config/validation.rs:551-564 | Collects exactly the variables a template refers to, or fails on a template that does not parse. |
| `Launches.ValidatedParses` | src/config/validation.rs:551-584 | Collecting references from validated templates cannot fail. |
| `Launches.ValidateLaunchShape` | src/config/launch.rs:161-249 | The loops accept exactly the valid shapes, under both policies. |
| `Launches.ResolveLaunchVars` | src/gateway.rs:1200-1233 | Succeeds exactly if all supplied names are declared and every variable has a fitting value or needs none; a supplied value is used before the default, and a variable with neither is absent. |
| `Launches.LaunchTemplateVars` | src/gateway.rs:1382-1392 | Templates see the runtime's variables and each resolved one under its key, and no others. |
| `Launches.BuiltinsKept` | src/config/validation.rs:179-197 | No launch variable hides or replaces a built-in one. |
| `Launches.RenderTemplateMap` | src/gateway.rs:1326-1334 | Succeeds exactly if every value renders, and keeps the keys. |
| `Launches.RenderLaunchCommand` | src/gateway/execution.rs:550-564 | Succeeds exactly if every argument but the sentinel renders, and splices the passthrough arguments in its place. |
| `Launches.ValidationImpliesRendering` | src/config/launch.rs:161-249 | For an effective launch that validates and whose variables resolve, every template in cwd, env, command and steps renders if and only if the built-in keys it refers to are bound. |
| `Launches.SessionLaunchFails` | src/gateway/container_spec.rs:373-423 | A concrete launch with the working directory `{session_id}` is valid and does not render unless the runtime has bound that key. |
| `Launches.PassthroughPlacement` | src/gateway/execution.rs:550-564 | In a valid launch accepted passthrough arguments appear once, in order, uninterpreted and never at the front, between the renderings of the other arguments; without permission there are none and the command is rendered argument by argument. |
| `Launches.EffectiveIsPartial` | src/config/launch.rs:131-149 | Whatever passes the effective check passes the partial one, if the names of the configured targets are well formed. |
| `LaunchConfigs.ResolveEffectiveLaunch` | src/config.rs:437-451 | Succeeds exactly if the layers are found and valid as an effective launch with a target and a command. |
| `LaunchConfigs.ArgumentsAsAllowed` | src/config/launch.rs:106-122 | In a launch that resolves `{args}` stands in the command exactly if the layers allow arguments; without a word on them they are refused. |
| `LaunchConfigs.ValidateLaunches` | src/config.rs:240-256 | The load-time checks accept exactly the configurations whose defaults, templates and launches pass the partial check, whose templates refer soundly to each other and whose launches all resolve. |
| `LaunchConfigs.PartialIff` | src/config/launch.rs:63-81 | The partial check is a condition on each setting by itself, whatever variables are declared, and one on where `{args}` stands. |
| `LaunchConfigs.EffectiveIff` | src/config/launch.rs:161-249 | For settings that passed the partial check, the effective check can fail only for an unknown target, a misplaced `{args}`, or a reference to a variable that is neither required nor has a default. |
| `LaunchConfigs.ValidatedOverlaysAssociative` | src/config/launch.rs:83-104 | Overlaying inputs that passed the partial check never fails and is associative. |
| `LaunchConfigs.OverlayKeepsValidity` | src/config/launch.rs:83-104 | The overlay of two such inputs passes the partial check too, unless one refuses arguments and the command that counts has `{args}`. |
| `LaunchConfigs.LayersOfCheckedLaunch` | src/config.rs:443-448 | In a checked configuration the layers of a launch are found exactly if the templates it uses exist; they are the defaults, the flattened chain and the launch, combined in either order. |
| `LaunchConfigs.CheckedLaunchResolvesIff` | src/config.rs:437-451 | In a checked configuration a launch resolves exactly if its templates exist and target, command, `{args}` and variables of the layers are in order; nothing else can fail. |
| `LaunchConfigs.AcceptedLaunchRenders` | src/config.rs:240-256 | From loading to running: every template of every launch of an accepted configuration renders with the resolved variables if and only if the built-in keys it refers to are bound. |
| `IdleMachine.IdleRuntimeState.EvaluateIdleState` | src/agent/idle.rs:80-131 | One evaluation changes the object's fields exactly as `Evaluate` says and answers what `Decide` says. |
| `IdleMachine.IdleRuntimeState.Poll` | src/agent/idle.rs:34-77 | One turn, an evaluation and the reap it may call for, changes the object's fields as `Step` says, which the lemmas below are about. |
| `IdleMachine.ReapRestartsGrace` | src/agent/idle.rs:64-68 | While the agent stays idle after a reap, an evaluation is the next to reap if and only if the grace period has passed since that reap ended. |
| `IdleMachine.IdleRuntimeState.RunIdleCleanup` | src/agent/idle.rs:34-77 | The loop's answers are those of the history; it ends once shutdown is under way, starting one is its last answer, and it starts one only if that is the configured action, and reaps only if that is. |
| `IdleMachine.StatusSays` | src/agent/idle.rs:80-131 | The reported state tells which sign of use was seen first, and the preserve flag, its reason and the matches are set exactly then. |
| `IdleMachine.LastReapReported` | src/agent/idle.rs:64-68 | The reported result is that of the last reap, and the reap state lasts until the next evaluation. |
| `IdleMachine.SinceInvariant` | src/agent/idle.rs:80-131 | The remembered instant is absent exactly after a non-quiet evaluation, and otherwise is the start of the quiet stretch or the end of its last reap. |
| `IdleMachine.FiresIff` | src/agent/idle.rs:80-131 | Evaluation `n` starts a shutdown exactly if that is configured and it is due, and a reap exactly if that is configured and it is due; it is due if quiet evaluations up to `n` span the grace period and as much time has passed since every earlier reap ended. |
| `IdleMachine.ReapsAreSpaced` | src/agent/idle.rs:34-131 | Between the end of one reap and the next one lies at least the grace period. |
| `IdleMachine.ActivityRestartsGrace` | src/agent/idle.rs:80-131 | After any evaluation that saw a stream, session or preserved process nothing fires until the grace period has passed. |
| `ReapPlan.FindPreserveProcesses` | src/agent/idle.rs:133-149 | A process is listed if and only if its name is; the list is sorted by process id. |
| `ReapPlan.PreserveChildren` | src/agent/idle.rs:202-210 | One pass adds only descendants, reports whether it added any, and finds none missing if it did not. |
| `ReapPlan.BuildReapPlan` | src/agent/idle.rs:192-236 | The fixpoint loop ends on every process table, cyclic parent links included, with the specified plan. |
| `ReapPlan.PreservedIsLeast` | src/agent/idle.rs:202-210 | The preserved processes lie in every set that holds the name matches and is closed under children. |
| `ReapPlan.PreservedIsClosed` | src/agent/idle.rs:202-210 | The preserved processes are such a set. |
| `ReapPlan.PlanTargets` | src/agent/idle.rs:192-236 | Terminated are exactly the processes without a preserved ancestor that are neither init, nor the agent, nor managed, nor of a user that is off limits: root for a root agent, anyone else for another; both lists are sorted. |
| `ReapPlan.SortSorted` | src/agent/idle.rs:212-229 | Sorting gives a sorted permutation. |
| `ReapPlan.SortStable` | src/agent/idle.rs:212-229 | Sorting keeps the order of entries with the same process id. |
| `ReapPlan.PlanOrderIrrelevant` | src/agent/idle.rs:192-236 | With unique process ids the plan does not depend on the order of the table. |
| `SshFormat.HexDenotes` | src/ssh_filter.rs:77-81 | The hexadecimal digits of an escape denote the character's number, without leading zeros. |
| `SshFormat.EscapeNames` | src/ssh_filter.rs:76-81 | Tab, carriage return and newline have their short escapes; any other escape holds the character's number in braces. |
| `SshFormat.Backtrack` | src/ssh_filter.rs:82-92 | The inner loop ends at the longest prefix that leaves room for the marker; the boundary stack never empties. |
| `SshFormat.FormatSshOriginalCommand` | src/ssh_filter.rs:71-100 | Shows the whole escaped command if it fits, otherwise the longest prefix of whole-character renderings that leaves room for the marker, followed by the marker. |
| `SshFormat.DisplayIsBounded` | src/ssh_filter.rs:71-100 | What is shown has at most 1000 characters, all printable ASCII. |
| `SshFormat.DisplayIsUnique` | src/ssh_filter.rs:71-100 | Only one text can be shown for a command. |
| `SshFormat.PrintableUnchanged` | src/ssh_filter.rs:71-100 | A printable command is shown unchanged if and only if it has at most 1000 characters. |

## Left out

- Supervisor: restart and dependency back-off durations, the startup grace period and `restart_count` are not modelled, because they decide when a step happens and not which; the shared object is a value because several tasks act on it.
- Shutdown: stopping one service is one step of this machine; StopWalk has its inside, for one winner and without the waiting callers. Cancelled callers and fairness of the scheduler are not modelled.
- Startup: a process is probed by its slot, and a network check by whether its port answers; intervals and timeouts of probes, and `last_error`, are not modelled.
- StopOrder.WatchdogOutlastsShutdown: speaks of the waits for exit that each stop makes, not of the time that other code takes between them.
- RotatingLog: 64-bit wrap of the byte counter, file modes, a file that an outside party puts in place of a log, and two writers on one service log after a restart are not modelled.
- RotatingLog.SizeRotatingFile.WriteAll: a file handle that writes in the background may report an error only on a later call, so that bytes are counted although they were never written; here a call knows what it has written.
- ConfigMerge: TOML parsing and `canonicalize` are inputs; floats, dates and integers are one kind of atom.
- Includes: glob expansion, path canonicalisation and parsing are inputs, so a file is well formed or not; which of several errors is reported is not modelled.
- TemplateChains: the overlay of targets is a parameter, because it belongs to the target configuration and is not part of this model.
- Overlays: the payload of a service is not modelled; a launch step's phase, location and `required` are one opaque text in LaunchConfigs.
- StepPatches: conversions of host steps are covered by the general results but not written out.
- Launches: the coercion of values and the runtime's own variables are parameters; name, environment-key and duration syntax are parameters; running the steps is left out.
- Launches.LaunchTemplateVars: expansion of a leading `~` in a rendered directory is not modelled.
- IdleMachine: reading counters and process table, the forced exit and the shutdown itself are inputs or the other modules.
- ReapPlan: sending the signals and the later SIGKILL are not modelled.
- SshFormat: the length in bytes equals the length in characters because only ASCII is shown, so truncation by bytes is truncation by characters.
- Container runtime command lines, sockets, HTTP, command-line parsing, the transfer scan of SSH commands, name and image validators: thin wrappers or one-branch checks.

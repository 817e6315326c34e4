# KubePhos pipeline machinery, modelled and proved

KubePhos compiles requests (clusters, retries, experiments) into pipelines of stages and runs
the stages with a dependency scheduler. This project models that machinery in Dafny and proves
what every run of it keeps. It holds:

- the stage scheduler as a state machine over whole runs (`Scheduler`, `PauseGate`);
- the assembly and planning of multi-cluster pipelines, and what planner and scheduler
  guarantee together (`Creation`, `Planner`, `MultiCluster`, `Lanes`);
- the recreation of a cluster from a finished run, over lives with any number of recreations
  (`Recreation`, `Lifecycle`, `CleanupSchedule`, `Retries`, `RetryRounds`, `CreatedLives`,
  `OwnRecreation`), and the renumbering of the tokens that tie stages to their inputs (`Tokens`);
- the experiment compiler and the pause of a two-phase start (`Experiment`,
  `ExperimentPipeline`, `ExperimentOrder`, `CompiledStages`);
- self-contained algorithms around them: the topology check (`Topology`), node maintenance
  (`Maintenance`, `Allocation`, `Addresses`), multi-cluster networks and peer lookup
  (`Network`), plan checks and JSON pointers (`PlanGraph`, `Pointer`), the PNG rewriter
  (`Png`), the single-flight preview (`Preview`) and the terminal limits (`Terminals`).

`dafny verify dfyconfig.toml` verifies everything.

## How the model is built

Code that works by changing variables is modelled by methods with the same loops; each method
is proved equal to a specification function, or meets its promise outright. What such a function
computes is then stated a second time, without it: by places, names and fields of the input alone
(the lemmas named `...Meaning`, `...Exactly`, `...Holds`). Objects whose fields
are updated in place are classes. Locked sections and reconciliation steps are the steps of
state machines, and their interleavings are traces: sequences of states and events in which
every step is possible.

- **Scheduler runs.** A run starts any subset of the stages the scheduler returns (a paused run
  stops at its gate and a failing start ends the loop), lets active operations report any status
  at any time, and may be told to stop at any time. Operation identifiers are new when handed out.
- **Specs** are represented by what the code decodes from them: the machine placement, the source
  operation of a cleanup, and text fields. Only token shifting, JSON pointers and PNG chunks are
  modelled as text or bytes.
- **Failures** of the code are `Option`, `Outcome` or `Refused` results, not preconditions.
  Preconditions say what callers guarantee: distinct component names for the topology check,
  manifests with validated contract names, installed plugins for the fixed experiment stages.
- **Go maps** that are iterated become sets from which any element may come next, so results hold
  for every iteration order.

## Where a promise does not hold as stated

- *Reverse creation order.* The comment in `internal/api/cluster_retry.go` says that cleanup runs in
  reverse creation order. The code goes by stage position. `Retries.ReverseCreationOrder` proves the
  exact condition: the two agree if and only if the outstanding operations were created in the order
  of their stages. Single clusters always meet it (`Retries.SequentialReverseCreation`); every
  multi-cluster environment has a life that does not (`CreatedLives.ParallelLifeIsNotReversed`).
  Dependency order holds always (`Retries.CleanedBeforeDependencies`).
- *Recreation of single clusters.* The well-known stages are moved to the front in a fixed order. A saved
  pipeline in which one of them depends on a stage kept behind it cannot be recreated as it is
  (`OwnRecreation.AgainstPhases`); `OwnRecreation.RecreatesItselfExactly` is the exact condition, and
  every life that begins with well-known stages in their order meets it (`OwnRecreation.LifeMayRecreate`).
- *Tokens.* Shifting the tokens 1 to n renames every head before a leading digit from 1 to min(n, 9),
  so with one binding it would also rename token 10 (`Tokens.ShiftOverreaches`).
  `Tokens.ShiftIsSubstitution` gives the exact condition under which exactly the tokens 1 to n are renamed.
- *Pause before load.* A plugin that is both a descheduler and a load generator moves its load stage
  in front of the pause; `ExperimentOrder.SplitLoads` gives a configuration that the compiler accepts
  and a pipeline that meets the compiler's contract for it, `ExperimentOrder.PauseBeforeEveryLoad` the
  exact condition.
- *Machine names.* A management pool named `control-plane` makes machine names and identities collide;
  `Maintenance.MachineNamesDistinct` and `Allocation.AllocationDistinct` are equivalences.
- *Plan references.* References are looked up under keys joined with a NUL. An internal input of an
  accepted plan has been published when its step is due if and only if the output name it refers to
  holds no NUL (`PlanGraph.InputsAreThere`); `PlanGraph.MissingReference` is a plan that both checkers
  accept and whose reference misses.
- *JSON walkers.* The walkers agree on a pointer if and only if it is not empty and its way crosses no
  array, unless both fail (`Pointer.CompareWalkers`).

## Model

| member | source | states |
|---|---|---|
| `Scheduler.Survey` | internal/engine/pipeline_scheduling.go:18-27 | the set of succeeded stage names and the number of active stages |
| `Scheduler.SourcesAvailable` | internal/engine/pipeline_scheduling.go:36-49 | a stage is ready exactly if its order, all dependencies and all binding sources are complete |
| `Scheduler.ReadyPipelineStages` | internal/engine/pipeline_scheduling.go:13-56 | the loop returns the first ready stages that fit beside the active ones |
| `Scheduler.ReadyFromMeaning` | internal/engine/pipeline_scheduling.go:28-55 | returned positions are ready, increasing and within the room; a ready one is passed over only when earlier ones use the room up |
| `Scheduler.ReadyMeaning` | internal/engine/pipeline_scheduling.go:13-56 | returned plus active stages never exceed the limit, and reach it if any ready stage was left out |
| `Scheduler.ReadyExactly` | internal/engine/pipeline_scheduling.go:13-56 | in terms of the records alone: a stage is returned if and only if it is pending without an operation, everything it depends on, reads from or (without parallelism) follows has succeeded, and the stages under way plus the startable ones in front of it are fewer than max(1, MaxParallelStages) |
| `Scheduler.NextMonotone` | internal/engine/pipelines.go:95-165 | no step undoes a terminal status, replaces an operation or renames a stage |
| `Scheduler.NextSafe` | internal/engine/pipelines.go:95-165 | every step keeps the limit, the source barrier and distinct operations |
| `Scheduler.ReachableSafe` | internal/engine/pipeline_scheduling.go:13-56 | in every reachable state at most max(1, MaxParallelStages) stages are active and every started stage has all dependencies and binding sources succeeded |
| `Scheduler.ReachableKeeps` | internal/engine/pipeline_scheduling.go:13-56 | the same told by statuses, operations, dependencies and bindings alone |
| `Scheduler.StartsOnceAfterSources` | internal/engine/pipeline_scheduling.go:29-53 | the step that starts a stage finds its sources complete, and no later step starts it again or changes its operation |
| `Scheduler.SequentialPrefix` | internal/engine/pipeline_scheduling.go:11-39 | without parallelism the started stages are a prefix and all but the last have succeeded |
| `Scheduler.Progress` | internal/engine/pipeline_scheduling.go:28-55 | with backward edges an idle, unfailed, unfinished run gets at least one stage: no deadlock |
| `Scheduler.UnfailingRunFinishes` | internal/engine/pipeline_scheduling.go:28-55 | a run in which nothing is stopped, fails or is canceled advances at most twice per stage, whatever its operations report in between, and is blocked exactly when every stage has succeeded |
| `PauseGate.ApplyGate` | internal/engine/pipelines.go:126-159 | missing gate, reached gate, or the positions below the gate, in order |
| `PauseGate.GateHolds` | internal/engine/pipelines.go:126-159 | in a run whose every start obeys the gate decision, no stage from the pause stage on is ever started |
| `PauseGate.MissingGateHolds` | internal/engine/pipelines.go:134-136 | without the pause stage such a run starts nothing at all |
| `PauseGate.InitializedIsIdle` | internal/engine/pipelines.go:137-150 | once everything before the pause stage has succeeded nothing is active and nothing is started until traffic is requested |
| `PauseGate.GateIsReached` | internal/engine/pipelines.go:125-159 | an idle unfailed run with work left before the gate always gets a stage the gate lets through |
| `PauseGate.NoTrafficBeforeRequest` | internal/engine/pipelines.go:126-159 | compiler, pause computation and gate decision together: no load stage of a compiled experiment starts before traffic is requested, unless loads are split |
| `PauseGate.InitializationProgresses` | internal/engine/pipelines.go:125-159 | the initialization of a compiled experiment cannot get stuck |
| `PauseGate.ExperimentRuns` | internal/engine/pipeline_scheduling.go:28-55 | compiled experiments run one stage at a time in stage order, and an unfailing run is blocked exactly when it is finished |
| `Planner.StageTargets` | internal/api/multicluster_scheduling.go:18-37 | the servers one machines stage is placed on |
| `Planner.CountTargets` | internal/api/multicluster_scheduling.go:16-38 | the distinct servers over all machines stages |
| `Planner.LanesMeaning` | internal/api/multicluster_scheduling.go:14-40 | the planned lanes are one for fewer than two members, and otherwise the least of the members, four and the number of distinct connection/server names that decodable machines stages are placed on, taken to be at least two |
| `Planner.ServerNamesOnePair` | internal/api/multicluster_scheduling.go:34-36 | such a name stands for one connection and one server, unless connections are named with a slash |
| `Planner.AddMemberDependencies` | internal/api/multicluster_scheduling.go:61-76 | a member stage waits for its predecessor, and its machines for cleanup, previous clone and lane |
| `Planner.PlanStage` | internal/api/multicluster_scheduling.go:43-82 | one loop turn adds exactly the wanted dependencies and keeps `previous` and `cleanupTail` |
| `Planner.WithParallelClusterProvisioning` | internal/api/multicluster_scheduling.go:13-84 | the two loops compute the planned pipeline, whose lanes and dependencies the rows around this one state |
| `Planner.PlannedMeaning` | internal/api/multicluster_scheduling.go:41-82 | for every pipeline: planning changes nothing but dependencies, keeps those there are in front, and adds exactly these, without repetition: the cleanup before a cleanup; the member's stage in front; for machines also the last cleanup, the machines of the member before and the last stage of the member whose lane they take; for the mesh the last stage of every member |
| `Planner.MemberUnique` | internal/api/multicluster_scheduling.go:62 | a stage has the prefix of at most one member, however many digits member numbers have |
| `Planner.PlannerIdempotent` | internal/api/multicluster_scheduling.go:41-82 | planning a planned pipeline changes nothing |
| `MultiCluster.PlannedBarriers` | internal/api/multicluster_scheduling.go:41-82 | in the member-contiguous layout the planned graph chains cleanups, members and clones, takes over lanes and puts the mesh last |
| `MultiCluster.SchedulerRespects` | internal/engine/pipeline_scheduling.go:36-49 | in every safe state a started stage has every planned predecessor succeeded |
| `MultiCluster.CleanupBarrier` | internal/api/multicluster_scheduling.go:11-12 | no member stage and no mesh starts before every cleanup stage succeeded |
| `MultiCluster.OverlapBounded` | internal/api/multicluster_scheduling.go:11-12 | at most as many members are in flight as there are lanes |
| `MultiCluster.PlannedRunGuarantees` | internal/api/multicluster_scheduling.go:11-84 | in every reachable state of a planned pipeline: active stages and members in flight bounded by the lanes (at most four), clones strictly one after the other, full cleanup barrier, mesh after every member stage |
| `MultiCluster.NoConcurrentClones` | internal/api/multicluster_scheduling.go:11-12 | two machines stages are never active together |
| `MultiCluster.PlannedEdgesBackward` | internal/api/multicluster_scheduling.go:43-82 | the planner only adds edges to earlier stages |
| `Lanes.LanesAreReached` | internal/api/multicluster_scheduling.go:11-84 | the lanes of every created pipeline are used: some run reaches a state with as many active stages, one in each of the first members |
| `Creation.AssembleMembers` | internal/api/multiclusters.go:79-124 | the assembly loop computes the assembled pipeline, which the next two rows describe after key sharing |
| `Creation.CreatedStageMeaning` | internal/api/multiclusters.go:79-87 | member blocks stand in order; stage k of member m keeps plugin, spec and dependencies of the prepared one, gets the member's prefix and name, and reads the same outputs into the same paths from stages of the same member; the one exception is the key of later machines stages, which comes from the machines of member 1 |
| `Creation.CreatedMeshMeaning` | internal/api/multiclusters.go:88-124 | the mesh comes last and reads, per member in order, connection, observability, platform and inventory from that member's stages; its environment is the result |
| `Creation.ShareKey` | internal/api/multicluster_ssh.go:15-30 | later members read the machine key of the first one; other stages are unchanged |
| `Creation.WithSharedMultiClusterSSHKey` | internal/api/multicluster_ssh.go:12-33 | the rebinding of all stages |
| `Creation.SharedKeyMeaning` | internal/api/multicluster_ssh.go:12-33 | for every pipeline: only the machines stages of members 2 and up change; they keep all other inputs in order and read the key, as their last input, from c1-machines |
| `Creation.PhasedLayout` | internal/api/multiclusters.go:79-125 | assembled pipelines have distinct names and the layout the planner's guarantees need |
| `Creation.CreatedBackward` | internal/api/multiclusters.go:79-125 | every dependency and binding of a created pipeline points to an earlier stage |
| `Creation.CreatedPipelineGuarantees` | internal/api/multiclusters.go:79-125 | every run of every created multi-cluster pipeline has the planned-run guarantees, with the lanes computed from its placement |
| `Creation.CreatedPipelineProgress` | internal/api/multiclusters.go:79-125 | no created multi-cluster pipeline can deadlock |
| `Recreation.CollectRemovals` | internal/api/cluster_retry.go:17-23 | what the run provisioned, last stage first |
| `Recreation.CollectResumed` | internal/api/cluster_retry.go:26-42 | the unfinished cleanups with their saved sources, or the unavailable one |
| `Recreation.ClusterRecreationCleanupTargets` | internal/api/cluster_retry.go:13-44 | both lists joined, or the error |
| `Recreation.CleanupTargetsMeaning` | internal/api/cluster_retry.go:13-44 | place by place: what the run started comes first, last stage first, under a cleanup name and title with its own operation; then the unfinished cleanups, in order, under their own names with the saved source; computable if and only if each of these has one |
| `Recreation.ClusterProvisioningStages` | internal/api/clusters.go:635-663 | the three loops compute the provisioning stages, whose contents and order the next two rows state |
| `Recreation.ProvisioningHolds` | internal/api/clusters.go:636-648 | for every source: one stage of each name that is neither a cleanup nor prune-machines, the last one of that name, with its dependencies less the cleanups, in order |
| `Recreation.ProvisioningOrder` | internal/api/clusters.go:649-662 | machines, kubernetes, storage, observability and platform come first, in this order; all others follow in the order of their first occurrence |
| `Recreation.ProvisioningMeaning` | internal/api/clusters.go:635-663 | each kept name occurs once, with its last stage |
| `Recreation.ProvisioningPermutes` | internal/api/clusters.go:635-663 | with distinct names the result is a permutation of the non-cleanup, non-prune stages |
| `Recreation.ProvisioningIdempotent` | internal/api/clusters.go:635-663 | keeping the provisioning stages twice is keeping them once, for every definition |
| `Recreation.CleanupsLeaveNoTrace` | internal/api/clusters.go:598-606 | planning behind cleanups and stripping gives the plan of the provisioning stages alone |
| `RetryRounds.ProvisioningBehind` | internal/api/clusters.go:635-663 | what is kept of a pipeline does not depend on the cleanups in front of it |
| `RetryRounds.MultiRound` | internal/api/clusters.go:594-606 | one recreation keeps the plan of its provisioning stages alone, with as many lanes as they need, whatever it cleans up |
| `RetryRounds.RetryFixpoint` | internal/api/clusters.go:594-606 | after any recreation, every later one with that placement has the same provisioning stages with the same dependencies and number of lanes, however many follow and whatever they clean up or rewrite |
| `RetryRounds.UnchangedRetry` | internal/api/clusters.go:635-663 | when nothing is rewritten, a retry keeps the very same provisioning stages |
| `Recreation.RetryKeepsDependencies` | internal/api/clusters.go:598-606 | no retry drops a dependency between provisioning stages |
| `Lifecycle.ClusterBarrier` | internal/api/clusters.go:598-606 | in every cluster pipeline cleanups run in order and before any provisioning stage |
| `Lifecycle.CleanupSync` | internal/api/cluster_retry.go:24-42 | a finished cleanup moves exactly its source, not cleaned before, to cleaned |
| `Lifecycle.RunStepConsistent` | internal/api/clusters.go:476-606 | every run step keeps the history, the cleanup sources and what is live consistent, with nothing lost |
| `CleanupSchedule.RecreationTargetsExact` | internal/api/cluster_retry.go:13-44 | the targets can be computed and are exactly the started, cleanable, uncleaned operations, each once, under distinct stage names |
| `CleanupSchedule.ScheduledReversed` | internal/api/cluster_retry.go:15-16 | of the operations of one run, those of later stages are scheduled first |
| `Retries.RebuiltPipeline` | internal/api/clusters.go:594-606 | a recreation yields a cluster pipeline again: cleanups first, distinct names, planned layout, backward edges |
| `Retries.RecreateConsistent` | internal/api/clusters.go:476-606 | a recreation keeps the lifecycle consistent |
| `Retries.LifecycleConservation` | internal/api/cluster_retry.go:13-44 | over any sequence of runs and recreations: the error is unreachable, targets are exactly what is outstanding, nothing is cleaned twice or without having been started |
| `Retries.CleanSlate` | internal/api/clusters.go:476-606 | once an attempt has provisioned anything, everything of earlier attempts has been cleaned up |
| `Retries.CleanedBeforeDependencies` | internal/api/cluster_retry.go:15-16 | every operation is cleaned up before the ones it depended on |
| `Retries.ReverseCreationOrder` | internal/api/cluster_retry.go:15-16 | the order is reverse creation order if and only if the outstanding operations were created in stage order |
| `Retries.SequentialReverseCreation` | internal/api/cluster_retry.go:15-16 | in every life of a single cluster the order is reverse creation order |
| `CreatedLives.CreatedIsNewLife` | internal/api/multiclusters.go:79-125 | what createMultiCluster builds begins a life: no cleanups, planned layout, backward edges |
| `CreatedLives.LifeRunGuarantees` | internal/api/multicluster_scheduling.go:11-84 | in every state of every life, however many recreations came before, the current run has the planned-run guarantees |
| `CreatedLives.LifeProgress` | internal/engine/pipeline_scheduling.go:28-55 | in no life can a run deadlock |
| `CreatedLives.ParallelLifeIsNotReversed` | internal/api/cluster_retry.go:15-16 | every environment of two or more clusters has a life that ends idle, can be recreated, and is not cleaned up in reverse creation order |
| `OwnRecreation.LifeMayRecreate` | internal/api/clusters.go:476-606 | in every state of every life whose run has ended the cluster can be recreated with its own provisioning stages; lives of single clusters begin with well-known stages in their order |
| `OwnRecreation.PreparedIsNewLife` | internal/api/clusters.go:289-295 | which is how every prepared single cluster begins |
| `OwnRecreation.RecreatesItselfExactly` | internal/api/clusters.go:635-663 | from any other order: exactly if the stages are backward in the order in which they are kept |
| `OwnRecreation.AgainstPhases` | internal/api/clusters.go:649-662 | which they are not when a well-known stage depends on one that is kept behind it |
| `Tokens.ShiftIsRenaming` | internal/api/clusters.go:682-700 | replacing token 1 to n in sequence is one pass that renames the heads before a leading digit up to min(n, 9) and copies all other text |
| `Tokens.ShiftIsSubstitution` | internal/api/clusters.go:682-700 | it is the simultaneous renaming of exactly the tokens 1 to n if and only if no larger number starts with a digit up to n |
| `Tokens.ShiftOverreaches` | internal/api/clusters.go:687-689 | a concrete text for which it is not |
| `Tokens.ShiftUndone` | internal/api/clusters.go:682-700 | shifting there and back is the identity if and only if the text held no token of the target position |
| `Tokens.ShiftedIdMeaning` | internal/api/clusters.go:693-696 | an artifact identifier is shifted exactly if it is one of the tokens 1 to n |
| `Tokens.ResolvedStage.ShiftPipelineTokens` | internal/api/clusters.go:682-700 | spec, step inputs and artifact inputs are rewritten in place, and nothing if the position is unchanged |
| `Tokens.RenumberStages` | internal/api/clusters.go:594-601 | after recreation every provisioning stage is rendered for its position in the whole pipeline |
| `Topology.PathFalls` | internal/catalog/catalog.go:418-436 | along a dependency path the place in the finishing order falls with every step |
| `Topology.OrderedIsAcyclic` | internal/catalog/catalog.go:418-436 | a graph with a dependency order has no cycle |
| `Topology.Visitor.Visit` | internal/catalog/catalog.go:420-436 | the search ends; nil means the component is finished with all its dependencies before it, an error names a component that lies on a cycle |
| `Topology.CheckDependencies` | internal/catalog/catalog.go:404-410 | accepted exactly if dependencies are known, not the component itself and distinct |
| `Topology.CheckComponents` | internal/catalog/catalog.go:398-412 | accepted exactly if every index is in range and every dependency list is fine; the reported position is at fault |
| `Topology.CheckIndices` | internal/catalog/catalog.go:413-419 | accepted exactly if no component depends on a smaller index |
| `Topology.CheckCycles` | internal/catalog/catalog.go:420-443 | the shared-colour search accepts exactly the graphs without a cycle |
| `Topology.ValidateComponentTopology` | internal/catalog/catalog.go:390-444 | nil exactly if no topology is declared or indices are in range, dependencies known, distinct and not self, indices never decrease along an edge and there is no cycle |
| `Topology.CycleWithinOneIndex` | internal/catalog/catalog.go:413-443 | when indices never decrease, a cycle stays within one index |
| `Contracts.KeyInjective` | internal/api/experiment_execution.go:730-732 | the joined key of two names without a NUL belongs to no other pair |
| `Contracts.LastNulSeparates` | internal/artifacts/contract.go:56 | if only the second names hold no NUL, the last one still separates |
| `Experiment.AvailableMeaning` | internal/api/experiment_execution.go:692-711 | a stage can be bound exactly if its schema is readable and every artifact input exists or is declared by an earlier stage |
| `Experiment.BindProperties` | internal/api/experiment_execution.go:692-711 | in every iteration order: fails exactly if an input is unavailable; otherwise fills the spec and binds each produced input once to its latest producer |
| `Experiment.RegisterOutputs` | internal/api/experiment_execution.go:715-719 | records the stage as latest producer of its outputs |
| `Experiment.NewStageTyped` | internal/api/experiment_execution.go:683-713 | a stage bound from backed sources is well typed: the last earlier stage with the declared type and version produces each bound input, no input is bound twice, every input is provided |
| `Experiment.FilledIsConfigured` | internal/api/experiment_execution.go:683-713 | such a stage's spec holds what it was given under every name its plugin does not declare as an input, the application for application inputs, nothing for bound inputs, the existing artifact for the others, and nothing else |
| `Experiment.RegisteredBacked` | internal/api/experiment_execution.go:715-719 | every recorded source keeps naming the last stage that declares the contract or, if there is none, an existing artifact |
| `Experiment.Compiler.AppendStage` | internal/api/experiment_execution.go:472-477 | binds, appends and registers one stage, keeping the pipeline well typed |
| `Experiment.Compiler.AppendComponent` | internal/api/experiment_execution.go:478-516 | appends the component's stages, made from its configuration, a load's timeline flag and the trait its plugin requires, bound to its own targets stage, and makes a single output the result |
| `ExperimentPipeline.Classify` | internal/api/experiment_execution.go:517-540 | the components of each phase, in configured order |
| `ExperimentPipeline.PrepareForgotten` | internal/api/experiment_execution.go:573-578 | after deploy no source comes from prepare any more |
| `ExperimentPipeline.CheckComponents` | internal/api/experiment_execution.go:439-460 | fails exactly if a plugin is missing or a needed platform artifact is |
| `ExperimentPipeline.UnboundIsUnsupplied` | internal/api/experiment_execution.go:692-711 | a stage that cannot be bound in its place has an input that no existing artifact and no earlier plugin of the layout supplies |
| `ExperimentPipeline.CompileExperiment` | internal/api/experiment_execution.go:405-597 | accepted exactly if plugins, configurations and platform are there, every input of every stage is supplied by an existing artifact or the plugin of an earlier stage, a component yields the result and there are at most 32 stages; every binding of the pipeline then comes from the last earlier stage that declares the contract, each stage runs its plugin with the title and the spec it is to have, targets come from the own targets stage, nothing after deploy binds from prepare, and the result is that of the last single-output component |
| `ExperimentOrder.LayoutDistinct` | internal/api/experiment_execution.go:432-588 | stage names are pairwise distinct |
| `ExperimentOrder.EachComponentOnce` | internal/api/experiment_execution.go:541-589 | in a compiled pipeline each component has exactly one capability stage, running its plugin, before the deploy stage exactly if it belongs to setup |
| `ExperimentOrder.ComponentsInOrder` | internal/api/experiment_execution.go:541-589 | setup before deschedulers before load and metrics, in configured order within each |
| `ExperimentOrder.ProducersUnique` | internal/api/experiment_execution.go:432-588 | in a compiled pipeline a stage name identifies one stage |
| `CompiledStages.CapabilityHolds` | internal/api/experiment_execution.go:498-510 | in a compiled pipeline the spec of a component's capability stage is exactly its configuration, networkTimeline for a load with a timeline, and the declared inputs with their values |
| `CompiledStages.TargetsHold` | internal/api/experiment_execution.go:485-497 | its targets stage asks for the trait that the component's plugin requires |
| `CompiledStages.TargetsInFront` | internal/api/experiment_execution.go:485-497 | a component whose plugin takes a target binding has a targets stage directly in front of its capability stage |
| `CompiledStages.TargetsOnlyThere` | internal/api/experiment_execution.go:485-497 | and no other component has one |
| `CompiledStages.FixedSpecs` | internal/api/experiment_execution.go:425-577 | application, prepare and deploy stages hold the settings given for them, and their declared inputs |
| `CompiledStages.ExternalsMeaning` | internal/api/experiment_execution.go:433-457 | cluster connection, observability and, only if a plugin needs it, the managed platform are what existing artifacts supply, each under its own contract |
| `CompiledStages.ComponentTurns` | internal/api/experiment_execution.go:517-589 | in terms of capabilities: a component's stage is in front of the deployment exactly if its plugin neither evicts nor creates load nor collects metrics; evicting ones come before the others behind it; configured order within each |
| `CompiledStages.ResultStage` | internal/api/experiment_execution.go:512-514 | the result is the only output of the last capability stage whose plugin has exactly one |
| `ExperimentOrder.CompiledBackward` | internal/api/experiment_execution.go:692-719 | every edge of a compiled pipeline points to an earlier stage |
| `ExperimentOrder.InitializationStage` | internal/api/experiment_initialization.go:11-21 | the stage of the first load component, if a two-phase start is asked for and there is one |
| `ExperimentOrder.PauseBeforeEveryLoad` | internal/api/experiment_initialization.go:11-26 | the pause stage occurs exactly once, and no load stage comes before it if and only if loads are not split by a plugin that is a descheduler too |
| `ExperimentOrder.SplitLoads` | internal/api/experiment_execution.go:528-531 | a configuration the compiler accepts, and a pipeline meeting the compiler's contract in which a load stage comes before the pause |
| `Maintenance.ManagedClusterMachineNames` | internal/api/clusters.go:331-344 | control plane, management pool and application pools, in this order |
| `Maintenance.MachineNameInjective` | internal/api/clusters.go:335 | pool and index can be read off a machine name, dashes or not |
| `Maintenance.MachineNamesDistinct` | internal/api/clusters.go:331-344 | names are distinct if and only if the management pool is not named like a populated control plane |
| `Maintenance.OneProfilePerName` | internal/api/clusters.go:331-351 | there are as many profiles as names |
| `Maintenance.PoolSlots` | internal/api/clusters.go:331-351 | name and profile at one place belong to the same pool |
| `Maintenance.FixedSlots` | internal/api/clusters.go:331-351 | the fixed places hold control plane and then management machines, numbered from 1, with their own capacities |
| `Maintenance.PoolPositions` | internal/api/clusters.go:331-351 | the machines of a pool stand behind all fixed ones and all earlier pools, numbered from 1, with the pool's capacity |
| `Maintenance.TrimmedMeaning` | internal/api/clusters.go:1107 | a server name is its text without the blanks around it |
| `Maintenance.ManagedClusterMachineNodes` | internal/api/clusters.go:1087-1115 | accepted exactly if all assignments name machines and all servers are valid; fills the map for every machine |
| `Allocation.ValidManagedPool` | internal/api/clusters.go:299-312 | accepted exactly if name, count and distinct zones are valid |
| `Allocation.CheckPools` | internal/api/cluster_maintenance.go:44-73 | accepted exactly if every pool is valid, new in name, unchanged if it existed, of valid capacity if not, and at most 12 machines result |
| `Allocation.AcceptedPools` | internal/api/cluster_maintenance.go:44-70 | accepted pools leave existing capacity and zones alone, and there are at most twelve machines |
| `Allocation.Allocate` | internal/api/cluster_maintenance.go:78-112 | accepted exactly if every missing name may be created; the k-th new machine gets the k-th VMID and address after the requested start |
| `Allocation.MaintenanceMachines` | internal/api/cluster_maintenance.go:40-117 | returns the allocation exactly for acceptable requests that change something, refuses as unchanged exactly the acceptable ones that change nothing, and gives back the requested cluster with a server for every machine |
| `Allocation.AllocationSound` | internal/api/cluster_maintenance.go:38-112 | desired names in order, each on its server; retained machines keep all else; the k-th new one has the name and the capacity of one and the same pool, the k-th VMID from the start, unused and in range, and as its address the four decimal octets of the k-th number from the start, strictly inside the subnet, unused and not the gateway |
| `Allocation.AllowedMeaning` | internal/api/cluster_maintenance.go:94-109 | and the request is accepted exactly if every missing name lies behind the fixed machines and those numbers are in range, inside the subnet and free, read as numbers |
| `Allocation.AllocationDistinct` | internal/api/cluster_maintenance.go:38-112 | from distinct machines it makes distinct machines if and only if the fixed pools do not share a name |
| `Addresses.DottedInjective` | internal/api/cluster_maintenance.go:102-107 | different addresses have different texts |
| `Addresses.WritesMeaning` | internal/api/cluster_maintenance.go:100-106 | the text of a number is the one text of four decimal fields below 256, separated by dots, whose places weigh 2^24, 2^16, 2^8 and 1 |
| `Addresses.BaseMeaning` | internal/api/cluster_maintenance.go:92 | the base of a network is the multiple of its size at or below the address |
| `Addresses.ContainsInterval` | internal/api/cluster_maintenance.go:91-98 | a prefix holds exactly the addresses from its base on, as many as its size |
| `Network.OverlapsMeaning` | internal/api/multiclusters.go:40-42 | two networks overlap if and only if they share an address |
| `Network.ValidateMultiClusterMembers` | internal/api/multiclusters.go:14-49 | accepted exactly if names, Cilium IDs and networks are valid, unique and pairwise disjoint |
| `Network.AcceptedMembers` | internal/api/multiclusters.go:14-34 | two to six members, with different names and different identifiers between 1 and 255 |
| `Network.MembersApart` | internal/api/multiclusters.go:35-45 | no address lies in two of the pod and service networks of two members |
| `Network.NetworksApart` | internal/api/multiclusters.go:35-45 | no address lies in two networks of an accepted environment |
| `Network.MeshPeerCluster` | components/mentat/mesh.go:40-49 | the first cluster whose pod network holds the address, or none |
| `Network.PeerUnambiguous` | components/mentat/mesh.go:40-49 | all listed clusters that hold an address are the same, whatever the order |
| `Network.LookupInAnyOrder` | components/mentat/mesh.go:40-49 | the lookup returns the owner of a pod address in every order of the list, and none for service addresses |
| `PlanGraph.ValidateContracts` | internal/artifacts/contract.go:104-117 | accepted exactly if contracts are valid and distinct; the key set then stands for the contracts |
| `PlanGraph.ValidatePlan` | internal/artifacts/contract.go:24-87 | accepts exactly the plans whose inputs and outputs are declared, well named and, for internal inputs, recorded by an earlier step |
| `PlanGraph.InternalInputExactly` | internal/artifacts/contract.go:36-63 | in terms of the steps: an internal input is accepted exactly if it is well named and declared and the last output that an earlier step recorded under its joined key has its type and version |
| `PlanGraph.InputsAreThere` | internal/artifacts/contract.go:36-84 | when a step of an accepted plan is due, an internal input has been published, with its type and version, if and only if the output name it refers to holds no NUL |
| `PlanGraph.LedgerIDInjective` | internal/resourceidentity/ledger.go:15-26 | equal ledger identities mean the same resource on the same connection |
| `PlanGraph.ValidatePlanEffects` | internal/api/server.go:323-369 | accepts exactly the plans with unique complete steps, allowed effects and no ledger identity created twice |
| `PlanGraph.PlanEffectsExactly` | internal/api/server.go:323-369 | in terms of the effects: besides the checks of every step and effect, accepted exactly if no two creations are of the same external identity and, on Proxmox, the same connection |
| `PlanGraph.CreatedOnce` | internal/api/server.go:355-363 | no two creations of an accepted plan have the same ledger identity |
| `PlanGraph.AcceptedPlanRuns` | internal/artifacts/contract.go:24-87 | a plan accepted by both checkers: every internal input whose output name holds no NUL is an output of exactly one step, a strictly earlier one, with the same declared contract |
| `PlanGraph.MissingReference` | internal/artifacts/contract.go:56 | a plan that both checkers accept and in which a reference with a NUL misses |
| `Pointer.DecodedIsUnescaped` | internal/artifacts/contract.go:131 | for every token the two replacements equal the one-pass decoder |
| `Pointer.UnescapedUndoesEscaped` | internal/artifacts/contract.go:131 | decoding undoes the escaping of sections 3 and 4 of RFC 6901 |
| `Pointer.DecodedEscapes` | internal/artifacts/contract.go:131 | the escapes decode as RFC 6901 says, also ~01, on which the order of the replacements matters |
| `Pointer.SplitExactly` | internal/artifacts/contract.go:130 | the tokens hold no slash, and with a slash between them they are the text again |
| `Pointer.ValidatePointer` | internal/artifacts/contract.go:170-187 | empty, or a slash and only valid escapes |
| `Pointer.ValidJSONPointer` | internal/catalog/catalog.go:519-529 | a slash, at most 512 bytes and only valid escapes |
| `Pointer.ValidatorsAgree` | internal/catalog/catalog.go:519-529 | both accept the same pointers that start with a slash and have at most 512 bytes |
| `Pointer.ExtractJSON` | internal/artifacts/contract.go:119-157 | the node at the decoded path of the one document, or failure, also on trailing text and beyond 16 MiB |
| `Pointer.AtIndex` | internal/artifacts/contract.go:139-144 | every item of an array that can be counted in 31 bits is found under its decimal number |
| `Pointer.AtConcat` | internal/artifacts/contract.go:129-149 | following a path is following its parts one after the other |
| `Pointer.PointerValue` | internal/catalog/catalog.go:531-545 | reaches the node at the decoded path through objects only, or fails |
| `Pointer.WalkersAgree` | internal/catalog/catalog.go:531-545 | the walkers agree on a path if and only if it crosses no array or both fail |
| `Pointer.CompareWalkers` | internal/catalog/catalog.go:531-545 | on pointers, if and only if they are not empty as well; on the empty one they differ as stated |
| `Pointer.PathOfPointer` | internal/artifacts/contract.go:130-131 | splitting and decoding the pointer to a path gives back the path |
| `Pointer.ExtractAtPath` | internal/artifacts/contract.go:119-151 | the escaped pointer to a path leads to exactly the node at that path |
| `Pointer.PointerToIsValid` | internal/artifacts/contract.go:170-187 | escaped pointers are accepted by the validator |
| `Png.ParsedJoins` | frontend/src/charts.ts:260-270 | the walk finds chunks that join to the input |
| `Png.JoinParses` | frontend/src/charts.ts:260-270 | and is the inverse of joining chunks |
| `Png.CollectSlices` | frontend/src/charts.ts:258-270 | accepted exactly if the bytes are a chunk sequence; the slices are the rewritten chunks |
| `Png.Concatenate` | frontend/src/charts.ts:271-278 | the buffer holds the slices, joined |
| `Png.SetPNGResolution` | frontend/src/charts.ts:256-279 | returns the rewritten image, or fails on anything that is no chunk sequence |
| `Png.ResolutionBytes` | frontend/src/charts.ts:281-292 | the inserted chunk byte by byte: length 9, type pHYs, pixels per metre to the nearest whole number for both axes, unit metre, check value of type and data |
| `Png.ResultParses` | frontend/src/charts.ts:256-279 | the result is again a chunk sequence |
| `Png.OthersPreserved` | frontend/src/charts.ts:267 | every other chunk is preserved byte for byte and in order |
| `Png.OneResolutionPerHeader` | frontend/src/charts.ts:267-268 | the result has as many pHYs chunks as the source has IHDR chunks |
| `Png.RewrittenPlaces` | frontend/src/charts.ts:267-268 | each of them stands directly behind an IHDR chunk |
| `Png.LastResolutionWins` | frontend/src/charts.ts:256-292 | setting one resolution and then another is setting the other, whenever the first result is accepted again |
| `Png.ResultAccepted` | frontend/src/charts.ts:257 | which it is for every image with a header |
| `Preview.Server.Enter` | internal/api/catalog.go:199-215 | the first locked section performs an entering step of the protocol |
| `Preview.Server.Finish` | internal/api/catalog.go:227-231 | the second one performs a finishing step of it |
| `Preview.Server.Wait` | internal/api/catalog.go:206-211 | a joiner returns its flight's published result, or is canceled |
| `Preview.OneBuildPerKey` | internal/api/catalog.go:197-233 | in every interleaving at most one build per key is in progress |
| `Preview.EntriesHaveBuilders` | internal/api/catalog.go:197-233 | a key has an entry exactly while a call builds it |
| `Preview.JoinersGetTheirLeadersResult` | internal/api/catalog.go:197-233 | a call that is not canceled returns its leader's result, from a build of its key that was not finished when it entered |
| `Terminals.Server.CreateTicket` | internal/api/terminals.go:162-176 | drops expired tickets, refuses at 100, otherwise adds one for 30 seconds |
| `Terminals.Server.TakeTicket` | internal/api/terminals.go:195-205 | removes the ticket and yields it only to its owner before it expired |
| `Terminals.Server.AcquireTerminal` | internal/api/terminals.go:236-248 | counts a session exactly if the total is below 32 and the user's count below 4 |
| `Terminals.Server.ReleaseTerminal` | internal/api/terminals.go:250-258 | takes one session off and drops a count that would reach zero |
| `Terminals.NextCountsAgree` | internal/api/terminals.go:236-258 | every step keeps the counts those of the open sessions, positive and within the limits |
| `Terminals.NextTicketsAgree` | internal/api/terminals.go:162-205 | every step keeps tickets single-use, personal and timely |
| `Terminals.TerminalGuarantees` | internal/api/terminals.go:162-258 | both, in every state of every interleaving |
| `Terminals.OpenedExactly` | internal/api/terminals.go:236-248 | a session opens if and only if fewer than 32 sessions are open and fewer than 4 of that user |
| `Terminals.IssuedExactly` | internal/api/terminals.go:162-176 | a ticket is issued if and only if fewer than 100 others have not expired; these stay and the expired ones go |
| `Terminals.ConnectionsAsked` | internal/api/terminals.go:162-205 | every connection took a ticket that its own user had asked for at most thirty seconds before |

## Left out

- Store errors while a run is synchronized: a started stage that is marked failed because its operation could not be loaded, and recovers later, is not modelled.
- Mesh-only retries (`internal/api/cluster_mesh_retry.go`) and maintenance runs with a prune stage are not steps of the lifecycle; the stage named `prune-machines` is only skipped where the code skips it.
- The rewriting of machine and bootstrap specs during a recreation: the lifecycle allows any rewriting that keeps stage names and dependencies and passes validation.
- Plugins of cleanup stages, and the failure of a cleanup that cannot be validated.
- Sharing of slices between definitions: stage lists are values, so updates through an alias are not captured.
- `strings.ToLower` beyond ASCII, `strings.TrimSpace` beyond blanks, tabs and line ends, and encodings: strings are sequences of characters.
- `externalDestinationPipeline`: the same binding code over three fixed stages.
- How the settings of the fixed experiment stages (namespaces, injection, scheduler names) are collected from the configuration: they are given; and the include and exclude lists of targets stages.
- Selection of plugins by capability, and the store lookups before compilation.
- Text of error messages; refusals are named by their reason. Which of several reasons the experiment compiler names is not stated, only that there is one.
- JSON text itself: `Pointer.ExtractJSON` takes the decoded document and the length of a value's text.
- Pool labels and taints are one text, compared as a whole, and a flag for their validity; absent lists are empty lists.
- Parsing of addresses and prefixes: texts that are no IPv4 address or prefix are None.
- The `crc32` computation and the rounding of floating point division: the check value is a parameter and the resolution a real number.
- Panics inside a preview build, and the store write behind it.
- `validateResourceEffects`, HTTP handlers, authentication, auditing, sharing and the user interface.
- Cryptography, hashing, storage, plugin runtimes and the SSH, Prometheus and Kubernetes calls.

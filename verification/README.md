# Verified model of LITP's plan compiler, scheduler and model store

LITP turns the difference between a model of a deployment and what is deployed into a plan, runs the plan, and updates
the model. This project models the parts whose correctness is hard to see from the code:

- **The plan compiler** (`Tasks`, `Graphs`, `TaskGraph`, `TopSort`, `Compaction`, `PhaseList`, `Segregation`, `SortGroup`,
  `LockTasks`): a group of tasks with plugin and model dependencies becomes an ordered list of phases. The graph is built
  and closed by worklists, sorted into layers, compacted by a greedy scan, and phases that mix Puppet tasks with callbacks
  are split while the list is being iterated.
- **The phase graph and the scheduler** (`PhaseDag`, `BasePlan`, `Scheduler`, `Completeness`, `Resumption`,
  `EndToEnd`, `Locks`): phases
  carry cluster ids, from which a sparse requirement relation is built. Master, workers and user are interleaved steps of a
  transition system; runs are arbitrary step sequences, resumed any number of times.
- **The model store** (`Items`, `Store`, `Snapshots`, `Removal`, `History`, `PostPlan`, `ModelManager`): items form a tree
  and have a source that they inherit properties from. Updates, removals, recoveries and the end of a plan propagate along
  both relations.
- **Caches** (`TypeIndex`, `TaskCache`): the memoised index of type extensions, and the search for tasks in a plan.

What the source changes in place is a class here (`PhaseList`, `BasePlan`, `ModelItem`, `ModelManager`, `TypeRegistry`,
`SearchedPlan`) whose methods are proved against functions on values; the properties are proved about those functions.
Where the source iterates a dictionary or a set, the methods take the elements in any order.

## Where the code does less than one would expect

- A net task that depends on a net task which itself sits past the first phase lands in front of it: order holds exactly
  when that guard of the last branch of `_place_net_task` is never met (`Compaction.CompactionOrder`,
  `Compaction.NetChainIsMisplaced`). The same branch may put it beside tasks that are no net tasks: exactly when the first
  phase holds one (`Compaction.CompactionPurity`).
- The phases after all clusters wait for everything only if the first of them lists no cluster, or builds on all
  (`PhaseDag.SuffixBarrier`, `PhaseDag.PartialBarrier`).
- A resumed run leaves behind a phase without requirements that had been launched but not begun
  (`Completeness.CompletenessOfRun`, `Completeness.ResumeLeavesTaskBehind`).
- A resumed run builds its requirements anew, and a phase whose items were deleted no longer has a cluster. The run trusts
  phases that are complete or have failed without looking at what they now require, so a phase after all clusters may start
  although an earlier cluster has failed (`Resumptions.SuffixStartsEarly`). What the phases of a run require is always
  complete exactly if the phases complete or failed at its start have complete requirements (`Resumptions.RunIsInOrder`).
  The order within a cluster does not depend on that (`Resumptions.StretchesRunOneByOne`).
- Recovery does not visit inheritors with properties of their own, which a removal has marked too: they stay for removal
  (`Histories.RemovedAndRecovered`). A collection under an item that a removal marks for removal may come back in state
  Removed, and an applied item with undeterminable properties comes back updated, or, if it is reached twice, as applied with
  determinable ones (`Histories.RecoveryUndoesRemoval`, `Histories.SecondVisitApplies`).
- Deletion after a plan checks that inheritors are in state Removed, not that they will be deleted: an item may be left
  without its source (`PostPlans.SourceMayGoMissing`), exactly when the source has its turn before an inheritor that is then
  refused (`PostPlans.PostPlanConsistency`). It does not happen when everything below the removed items is removed as well
  (`PostPlans.CompleteRemoval`).
- Only properties of a supertype may not be declared again: a child, collection, reference or view may, and then the
  declaration of the farthest supertype replaces the nearer ones (`TypeIndexes.FarthestWins`).
- A type that extends itself passes the sort, which drops the edge, and then fails to register with a missing base type
  (`TypeIndexes.RegisterSorted`, `TypeIndexes.SelfExtensionIsSorted`).
- The list of paths that may not be removed lacks a comma, so `/snapshots` and `/litp` are not on it
  (`model_manager.py:1921-1922`, `ModelManagers.ProtectedPaths`).

## Model

| member | source | states |
|---|---|---|
| `TopSort.Sort` | src/litp/core/topsort.py:32-62 | completes the graph (self-loops dropped, mentioned nodes added), yields layers whose nodes depend on earlier layers and on one node of the layer just before; something is left over if and only if the completed graph has a cycle, and every leftover node then has a leftover dependency; otherwise each node is in one layer |
| `TopSort.LayerIsDepth` | src/litp/core/topsort.py:45-57 | the layer of a node is exactly the length of its longest chain of dependencies |
| `TopSort.TrappedIsCyclic` | src/litp/core/topsort.py:59-62 | nodes that all have a dependency among themselves contain a cycle, so the exception is never spurious |
| `TopSort.LayersAreAcyclic` | src/litp/core/topsort.py:45-57 | a graph that is sorted completely has no cycle |
| `TaskGraphs.DependenciesOf` | src/litp/core/plan_builder.py:506-532 | the worklist finds exactly the other tasks reached by requires that the task can depend on, whatever it can not depend on being walked through all the same |
| `TaskGraphs.PluginGraph` | src/litp/core/plan_builder.py:491-538 | one entry per task, holding exactly those dependencies |
| `TaskGraphs.ClosedPaths` | src/litp/core/plan_builder.py:552-582 | the closure of the model dependencies between paths, and the same relation read backwards |
| `TaskGraphs.OverlayModel` | src/litp/core/plan_builder.py:583-646 | adds model-closure edges only (reversed for a deconfiguring task, never between two package tasks), keeps all plugin edges, joins every pair the model orders in one direction or the other, and creates no cycle of two tasks that the plugin graph did not have |
| `TaskGraphs.OverlayMeans` | src/litp/core/plan_builder.py:583-646 | two Puppet tasks for packages never get an edge from the model; any edge added is between tasks that the model orders, the other way round for a deconfiguring one; tasks that it orders and that may depend on each other are joined |
| `TaskGraphs.BridgeTask` | src/litp/core/plan_builder.py:1118-1142 | one key: its dependencies become all tasks it reaches, although keys handled before are closed already and keys handled later are not |
| `TaskGraphs.Bridge` | src/litp/core/plan_builder.py:1118-1142 | the in-place loop ends and leaves exactly the transitive closure of its input |
| `SortGroup.CyclicIsEntangled` | src/litp/core/plan_builder.py:327-339 | sorting the closed graph meets a cycle if and only if two different tasks of the group depend on each other |
| `PhaseLists.PhaseList.constructor` | src/litp/core/plan_builder.py:378-381 | a compaction starts with no phases and the graph it is given |
| `PhaseLists.PhaseList.PlaceRegularTask` | src/litp/core/plan_builder.py:1042-1074 | the backward scan puts a regular task where `Compaction.RegularPlacement` says, inserting or appending in place |
| `PhaseLists.PhaseList.PlaceNetTask` | src/litp/core/plan_builder.py:1077-1114 | drops the disk dependencies from the graph, then puts the net task where `Compaction.NetPlacement` says, the last branch included |
| `PhaseLists.PhaseList.Partition` | src/litp/core/plan_builder.py:384-396 | net tasks, callbacks and other tasks of a layer, each in the order of the layer |
| `PhaseLists.ScheduleIsGrouped` | src/litp/core/plan_builder.py:384-401 | within a layer net tasks are placed first, then callbacks, then the others |
| `PhaseLists.PhaseList.CompactPhases` | src/litp/core/plan_builder.py:378-406 | the list built in place is that of `Compaction.Compact` on the layers in order; every task past the first phase has a reason in the phase before, net tasks unless one was put beside others; the graph has lost only disk dependencies of net tasks |
| `Compaction.SkippedDepsAreClose` | src/litp/core/plan_builder.py:1042-1074 | why skipping past Puppet-task dependencies is right: on a closed graph whose placed tasks each have a blocker in the phase before, a dependency past the last blocking phase is at most one phase further, and shares neither mark |
| `Compaction.PlaceRegularKeeps` | src/litp/core/plan_builder.py:1042-1074 | placing a regular task keeps the inductive invariant: order, purity and the blocker of every placed task |
| `Compaction.PlaceNetKeeps` | src/litp/core/plan_builder.py:1077-1114 | placing a net task keeps the invariant unless it meets the guard of the last branch |
| `Compaction.CompactConserves` | src/litp/core/plan_builder.py:376-406 | every task is placed exactly once, whatever the dependencies between net tasks are |
| `Compaction.CompactionOrder` | src/litp/core/plan_builder.py:378-406 | on a closed graph, dependencies end no later than their dependents, and strictly earlier if either is a callback or exactly one is a net task, if and only if no net task meets the guard of the last branch with a dependency past the first phase; every task is in one phase in any case |
| `Compaction.CompactionPurity` | src/litp/core/plan_builder.py:1077-1114 | for every graph and order: no phase mixes net tasks with others if and only if no net task reaches the last branch while the first phase holds a task that is no net task |
| `Compaction.CompactionIsTight` | src/litp/core/plan_builder.py:1042-1114 | no phase without need: for every graph and order, each task past the first phase, if it is no net task, is just behind net tasks or a dependency where one of them or of the dependencies there is a callback; each net task, unless one is put beside others, is just behind a dependency of the other kind or where one of the two is a callback |
| `Compaction.NetTaskIsFirst` | src/litp/core/plan_builder.py:1083-1094 | a net task that depends on disk tasks only, if on any, goes to the first phase, or opens one if that holds other tasks |
| `Tasks.KeptExactly` | src/litp/core/plan_builder.py:1083-1086 | a net task loses its dependencies on disk tasks and no other, another task loses none |
| `Compaction.NoNetChainIsEnough` | src/litp/core/plan_builder.py:1077-1114 | that guard is never met if a net task depends on another net task only where that one keeps no dependency |
| `Compaction.NetChainIsMisplaced` | src/litp/core/plan_builder.py:1112-1113 | a concrete chain of net tasks for which the order, and the purity of phases, fail |
| `PhaseLists.PhaseList.SpreadSegregated` | src/litp/core/plan_builder.py:428-457 | the tasks taken out of a mixed phase join the next phase or form a new one, as `Segregation.Split` says |
| `PhaseLists.PhaseList.SegregateCallbackTasks` | src/litp/core/plan_builder.py:460-474 | the loop over the list it inserts into ends, with the list of `Segregation.Segregate` |
| `Segregation.SplitMeasure` | src/litp/core/plan_builder.py:460-474 | what is left of the list plus its mixed phases shrinks with every round |
| `Segregation.SplitKeepsPrecedence` | src/litp/core/plan_builder.py:428-457 | splitting a phase keeps every dependency that was in an earlier phase in an earlier phase |
| `Segregation.SplitIs` | src/litp/core/plan_builder.py:428-457 | the callbacks of a split phase stay in front; the rest joins the next phase exactly if that has Puppet tasks only, none of them depending on the rest, and net tasks as the rest has; else it is a phase of its own in between |
| `Segregation.SegregateCounts` | src/litp/core/plan_builder.py:428-474 | splitting neither loses nor copies a task, whatever the phases are |
| `Segregation.SegregationUnmixes` | src/litp/core/plan_builder.py:428-474 | for every list of phases: afterwards no phase mixes Puppet tasks and callbacks, which running it would refuse (`execution_manager.py:1215-1218`), and no strict precedence between dependent tasks is lost |
| `Segregation.SegregationIsSafe` | src/litp/core/plan_builder.py:428-474 | if moreover the phases are in order, with net tasks alone and no empty phase, then all of that remains so too |
| `SortGroup.LayersLinear` | src/litp/core/plan_builder.py:376-396 | the order in which layers are compacted brings each task after all its dependencies |
| `SortGroup.RemovePrevSuccessful` | src/litp/core/plan_builder.py:348-375 | removes exactly the tasks that need no second run, said in terms of their states and their past, and the phases that become empty |
| `SortGroup.DroppedExactly` | src/litp/core/plan_builder.py:360-373 | which tasks are dropped: with determinable items those not in their initial state and the Puppet tasks that ran with success before; otherwise those that ran with success before and are successful; every other task occurs as often as before |
| `SortGroup.NewTasksStay` | src/litp/core/plan_builder.py:360-373 | a task in its initial state that never ran with success is never dropped |
| `SortGroup.PipelineIsSound` | src/litp/core/plan_builder.py:327-339 | compaction, segregation and removal of what has run, from the layers of a closed graph: each task that is still to run exactly once, in order, with net tasks alone and no mixed or empty phase, unless a net task meets the guard of the last branch past the first phase |
| `SortGroup.PipelineUnmixes` | src/litp/core/plan_builder.py:327-375 | no phase of the plan is empty or mixes Puppet tasks and callbacks, whatever the net tasks depend on |
| `SortGroup.PipelineConserves` | src/litp/core/plan_builder.py:327-375 | each task that is still to run is in the plan exactly once, whatever the net tasks depend on |
| `SortGroup.NoNetChainPipeline` | src/litp/core/plan_builder.py:1077-1114 | the layers of a closed graph never lead to that guard if a net task depends on another net task only where that one keeps no dependency |
| `SortGroup.ResortedIsSound` | src/litp/core/plan_builder.py:275-298 | reordering tasks within their phases, in whatever way, keeps all of that |
| `SortGroup.SortTasks` | src/litp/core/plan_builder.py:327-339 | the whole of `_sort_tasks` from plugin requires and model dependencies: a cycle is reported if and only if two tasks depend on each other; otherwise each task still to run is in one phase, among them every new task, no phase is empty or mixed, and the phases are a sound plan unless a net task meets the guard on the layers returned |
| `LockCreation.CreateLockTasks` | src/litp/core/lock_task_creator.py:24-44 | a lock/unlock pair for exactly the nodes for which a plugin returns one, marked with the node and the direction; it fails if and only if an answer is malformed or a node gets two pairs |
| `LockCreation.LockTasksAre` | src/litp/core/lock_task_creator.py:24-44 | the first task of a pair is the lock task of its node and the second the unlock task, and only nodes with a pair have tasks |
| `LockCreation.LockTasksFail` | src/litp/core/lock_task_creator.py:24-44 | failure is exactly a malformed answer or two pairs for one node |
| `PhaseDag.ReachIsCone` | src/litp/core/plan.py:128-194 | for well-sectioned plans, what a phase waits for through any number of requirements is exactly: the prefix, its own earlier phases, the clusters it builds on; for a suffix phase everything before, or only the clusters listed if its first phase lists one |
| `PhaseDag.DirectlyRequires` | src/litp/core/plan.py:128-194 | for any plan, sectioned or not, the direct requirements of each phase, said without the tables: the phase before in the same cluster; or the last phases of the clusters listed; or, after a cluster, the phase before and the last phases of clusters that nobody built on; or the last phase of the cluster so far; or the last phase without a cluster |
| `PhaseDag.SuffixBarrier` | src/litp/core/plan.py:145-194 | a suffix phase waits for every phase before it if and only if the first suffix phase lists no cluster of the plan or builds on all of them |
| `PhaseDag.PartialBarrier` | src/litp/core/plan.py:150-158 | a concrete plan whose suffix does not wait for one of two clusters |
| `BasePlans.RequiredIsEarlier` | src/litp/core/plan.py:128-194 | a phase requires earlier phases only, unless it lists its own cluster |
| `BasePlans.BasePlan.constructor` | src/litp/core/plan.py:33-56 | a new plan has the requirements of its phases and is not ready yet |
| `BasePlans.BasePlan.BuildPhaseDependencies` | src/litp/core/plan.py:128-194 | the loop over the phases with its two tables computes the requirements that `PhaseDag.Required` defines |
| `BasePlans.BasePlan.ReadyPhasesAfter` | src/litp/core/plan.py:330-343 | the phases that require the given one, have a task in its initial state, and have all requirements successful |
| `BasePlans.BasePlan.ReadyPhasesAtStart` | src/litp/core/plan.py:300-329 | resets failed tasks and finds the phases that a fresh or resumed run launches first |
| `BasePlans.BasePlan.Run` | src/litp/core/plan.py:352-356 | only an initial or failed plan starts to run; the requirements are rebuilt from the cluster ids that the items give by then |
| `BasePlans.BasePlan.Stop` | src/litp/core/plan.py:358-361 | only a running plan is stopped |
| `BasePlans.BasePlan.End` | src/litp/core/plan.py:363-375 | an active plan ends successful if every task is; otherwise a running one fails and a stopping one is stopped; no other plan ends |
| `BasePlans.BasePlan.MarkInvalid` | src/litp/core/plan.py:377-380 | only an initial or failed plan becomes invalid |
| `Scheduler.SafeStep` | src/litp/core/execution_manager.py:853-976 | each step keeps: launched phases have their requirements entirely successful, phases never launched are untouched |
| `Scheduler.RunEnds` | src/litp/core/plan.py:363-375 | the end of a run, or its crash: successful, or failed and open to a resume, or stopped and not; tasks left running have failed, the others are as they were |
| `Scheduler.MayEnd` | src/litp/core/plan.py:363-375 | a running or stopping plan may crash at any time, and ends exactly when no phase is active |
| `Scheduler.StoppedByUser` | src/litp/core/plan.py:352-375 | once the user has stopped a plan, no sequence of steps makes it run or fail again, and it is never resumed: it ends successful or stays stopped |
| `Scheduler.Launching` | src/litp/core/execution_manager.py:958-976 | cleanup phases run at once, and succeed unless the plan is stopping, which counts as an error; other phases become active |
| `Scheduler.RunSafety` | src/litp/core/execution_manager.py:853-976 | in every state of every run, fresh or resumed under the same requirements, and with workers left over from crashed runs, a launched phase has all phases that it requires, directly or not, entirely successful |
| `Scheduler.RunUnderNewRequirements` | src/litp/core/plan.py:300-356 | a run after any history, with requirements built anew: every phase launched in it has its direct requirements complete unless it had failed; failed phases are launched at once, so all launched phases have if and only if the failed ones had to begin with |
| `Scheduler.SuffixWaits` | src/litp/core/plan.py:145-194 | so under the same requirements a suffix phase never starts while any earlier phase is unfinished, where the barrier is complete |
| `Resumptions.RunIsInOrder` | src/litp/core/plan.py:300-356 | a run from any state, with requirements of its own: whatever steps follow, all that its launched and its already complete phases require, directly or not, is complete, if and only if the phases complete or failed at the start have complete requirements |
| `Resumptions.SuffixWaitsAgain` | src/litp/core/plan.py:145-194 | under that condition a suffix phase of such a run starts only after all phases before it, where the new barrier is complete |
| `Resumptions.SuffixStartsEarly` | src/litp/core/plan.py:240-249 | a concrete fresh run that fails in one cluster, after which the items of the other are deleted: the resumed run starts the suffix phase at once although it requires the failed phase before and after |
| `Resumptions.StretchesRunOneByOne` | src/litp/core/plan.py:142-156 | over any number of runs, each with requirements built from new cluster ids: the phases of a stretch start one by one, as long as the unfinished ones have one cluster id at each start |
| `Completeness.CompletenessOfRun` | src/litp/core/execution_manager.py:869-938 | when the loop ends without an error, and without a worker left over from an earlier run, every task is successful and `end` makes the plan successful, if and only if the run started with no phase that it would leave behind |
| `Completeness.FreshLeavesNothing` | src/litp/core/plan.py:300-343 | a fresh plan has no such phase |
| `Completeness.ResumeLeavesTaskBehind` | src/litp/core/plan.py:326-328 | a concrete resumed run that ends without an error although a task never ran |
| `EndToEnd.DependenciesAreHonoured` | src/litp/core/plan_builder.py:327-339 | from the dependencies to the runs: once the phase of a task of a sort group has been launched, in any run, with requirements built anew for each, each dependency left in the plan, but for those of net tasks on disk tasks, is successful, or shares the phase, and then neither is a callback and both or none are net tasks |
| `EndToEnd.FreshRunCompletes` | src/litp/core/execution_manager.py:869-938 | a fresh run of a plan with built requirements, no cluster listing itself and the cleanup phase last, that ends without an error, has completed every task and makes the plan successful |
| `EndToEnd.SnapshotPlansAreSerial` | src/litp/core/plan.py:617-629 | a phase of a snapshot plan is launched only after all phases before it are successful |
| `Locks.ClusterNodePhases` | src/litp/core/plan_builder.py:905-929 | the bracketed phases of the nodes that need a lock, then the phases of the others |
| `Locks.SectionsAreInARow` | src/litp/core/plan_builder.py:905-929 | the locked sections of a cluster lie one after the other |
| `Locks.SectionIsOneNode` | src/litp/core/plan_builder.py:967-980 | between the lock and the unlock phase of a section are exactly the phases of one node |
| `Locks.NodeHasSection` | src/litp/core/plan_builder.py:967-980 | every node that needs a lock has its section |
| `Locks.UnlockedNodePhases` | src/litp/core/plan_builder.py:905-929 | the phases of a node without lock tasks or without phases stand together behind all sections, in the order of the nodes |
| `Locks.UnlockedPhasesAreNodes` | src/litp/core/plan_builder.py:905-929 | and nothing else is there |
| `Locks.LockBracketing` | src/litp/core/execution_manager.py:685-691 | in every state of all runs, with requirements built anew for each, that start with no node of the cluster locked, at most one is locked, and a phase of a section that was launched and is not finished finds its node locked |
| `Locks.ClusterIsLockedNodeByNode` | src/litp/core/plan_builder.py:905-980 | the phases built for the nodes of a cluster, put into any plan and run any number of times: each node that needs a lock has its section, at most one such node is locked, and it is the one whose phases are under way |
| `Items.ModelItem.constructor` | src/litp/core/model_item.py:27-44 | a new item is in its initial state, with nothing applied and determinable properties |
| `Items.ModelItem.ChangeState` | src/litp/core/model_item.py:339-349 | the transition of `Items.SetState`: the previous state is kept except when leaving ForRemoval, becoming applied takes the merged properties |
| `Items.ModelItem.BackToPreviousState` | src/litp/core/model_item.py:371-380 | the transition of `Items.SetPreviousState`, with the detour for undeterminable items |
| `Items.ModelItem.SetAppliedProperty` | src/litp/core/model_item.py:442-481 | set and deleted applied properties: a deleted one falls back to the source, then to the default |
| `Items.ModelItem.ApplyNonConfigProperties` | src/litp/core/model_item.py:297-319 | the loop leaves `Items.ApplyNonConfig`, and tells whether any property was handled |
| `Items.ModelItem.Update` | src/litp/core/model_item.py:268-295 | the whole of `update_properties` is `Items.UpdateProperties`: a value that is given is stored, a deleted property is gone or has its required default, and an applied item stays applied exactly if its merged properties still are the applied ones |
| `Items.Transition` | src/litp/core/model_item.py:339-349 | a transition to the same state changes nothing, but an applied item is determinable; another one remembers the state it leaves, unless that is ForRemoval, and takes the merged properties when it becomes applied |
| `Items.BackToPrevious` | src/litp/core/model_item.py:371-380 | back to the previous state, or to the initial one without one, except that an undeterminable item that was applied becomes updated |
| `Items.EmptyUpdate` | src/litp/core/model_item.py:268-270 | an update without changes leaves the item as it is, state included |
| `Items.UpdateStores` | src/litp/core/model_item.py:282-283 | a property given a value has it, a deleted one is absent or falls back to the required default of an item without a source, the others are unchanged |
| `Items.UpdateApplies` | src/litp/core/model_item.py:297-319 | the applied value changes for properties outside the configuration only: to the new value, unless the item is initial; if deleted, to the value of the source or the default |
| `Items.InheritedApplies` | src/litp/core/model_manager.py:1423-1425 | the same on inheritors, for properties that they do not overwrite |
| `Items.UpdateStates` | src/litp/core/model_item.py:284-295 | the state after an update, for each state before |
| `Items.InheritorOutcome` | src/litp/core/model_manager.py:1436-1450 | the state of an inheritor after its source has changed, for each state before; its applied properties stay |
| `Items.UpdateAndBack` | src/litp/core/model_item.py:268-295 | changing a configuration property of an applied item makes it updated, and changing it back makes it applied, with everything as before |
| `Items.StatesSnap` | src/litp/core/model_item.py:339-380 | state transitions keep an item snapped: applied items have their merged properties as applied properties |
| `Items.UpdateSnaps` | src/litp/core/model_item.py:268-295 | an update with any change leaves the item snapped, whatever it was before |
| `Items.InheritorSnaps` | src/litp/core/model_manager.py:1436-1453 | so does the state update of an inheritor |
| `Items.OverwrittenIsAlone` | src/litp/core/model_item.py:297-319 | changes to properties that an inheritor overwrites all do not touch it |
| `Stores.NearestWins` | src/litp/core/model_item.py:244-261 | the merged properties of an item have exactly the names that occur up its chain of sources, each with the value of the nearest item |
| `Snapshots.ChangesAreLocal` | src/litp/core/model_item.py:254-261 | changing the properties of an item changes merged properties only for it and its transitive inheritors |
| `Snapshots.OverwritersKeep` | src/litp/core/model_manager.py:1427-1434 | an inheritor that overwrites all changed properties keeps its merged properties, so it may be skipped |
| `Snapshots.UpdateKeepsSnapshots` | src/litp/core/model_manager.py:1379-1453 | an update of any item, in whatever order its inheritors are visited, keeps all applied items of the store snapped |
| `Snapshots.PluginUpdateKeepsSnapshots` | src/litp/core/model_manager.py:437-448 | so does the update that plugins make, which leaves out the step for non-configuration properties |
| `Snapshots.UpdateIsCarriedOut` | src/litp/core/model_manager.py:1379-1421 | after an update the item has exactly the requested properties, deleted ones replaced by the default where it has no source; it remains applied exactly if these are the applied ones; no other item has other properties |
| `Snapshots.InheritorStepIs` | src/litp/core/model_manager.py:1427-1453 | a visited inheritor is left alone if it overwrites every change; else it has the state of `Items.InheritorOutcome`, or is for removal with its parent, its child collections have its state, and nothing else changes |
| `Snapshots.InheritorStatesKeepApplied` | src/litp/core/model_manager.py:1427-1453 | visiting inheritors never rewrites the applied properties of an item that is no collection |
| `ModelManagers.ModelManager.PluginUpdateItem` | src/litp/core/model_manager.py:443-448 | the item, then the states of its inheritors, as `Snapshots.PluginUpdated` says; the store stays sound |
| `ModelManagers.ModelManager.InheritedItems` | src/litp/core/model_manager.py:1946-1950 | lists exactly the transitive inheritors |
| `ModelManagers.ModelManager.CreateItem` | src/litp/core/model_manager.py:1105-1119 | creates an item if the path is new and its parent and source exist, and keeps the store sound |
| `ModelManagers.ModelManager.UpdateItem` | src/litp/core/model_manager.py:1379-1421 | the item, then the inheritors, as `Snapshots.UpdatedStore` says; the requested properties are those of the item afterwards, and its state says whether they are the applied ones; the store stays sound |
| `ModelManagers.ModelManager.UpdateInheritedStates` | src/litp/core/model_manager.py:1427-1453 | the states of the inheritors, one after the other, with their child collections |
| `ModelManagers.ModelManager.RecoverDown` | src/litp/core/model_manager.py:1199-1207 | the items visited are exactly the item, its subtree, and the inheritors of these that have no properties of their own; each visit sets the previous state |
| `Histories.InheritorsToVisit` | src/litp/core/model_manager.py:1199-1207 | an inheritor is visited exactly if it has no property of its own |
| `ModelManagers.ModelManager.SetAllApplied` | src/litp/core/model_manager.py:1981-1999 | every item that is not applied and not excepted becomes applied, with its merged properties |
| `Histories.CreateKeeps` | src/litp/core/model_manager.py:1054-1154 | a new item keeps every item with its parent and source, and the applied items snapped |
| `Histories.CreatedExactly` | src/litp/core/model_manager.py:1054-1119 | creation is accepted exactly if the new item leaves the store consistent; the item is initial, with the properties and the source asked for |
| `Histories.AllAppliedIs` | src/litp/core/model_manager.py:1981-1999 | every item that is not excepted ends applied, with its merged properties, and the others as they were |
| `Histories.StepKeeps` | src/litp/core/model_manager.py:1156-2101 | each operation (create, inherit, update, update by a plugin, remove, recover, marking, apply all, a change of determinable, the end of a plan that takes no source away) keeps the store sound |
| `Histories.HistoriesAreSound` | src/litp/core/model_manager.py:1156-2101 | over every sequence of operations, each item has its parent and source, and each applied item has its merged properties along the source chain as applied properties |
| `Histories.HistoriesEndSnapped` | src/litp/core/model_manager.py:2065-2101 | after every history, every end of a plan, also one that takes a source away, leaves applied items with their merged properties, each item with its parent, and only items marked for removal without a source |
| `ModelManagers.ModelManager.UndeterminableAbove` | src/litp/core/model_manager.py:1740-1745 | finds whether an ancestor is undeterminable |
| `ModelManagers.ModelManager.UndeterminableBeside` | src/litp/core/model_manager.py:1747-1763 | the queue visits exactly the siblings and their descendants |
| `ModelManagers.ModelManager.CanItemBeDeleted` | src/litp/core/model_manager.py:1765-1785 | the recursive check is that of the item and all its transitive inheritors |
| `ModelManagers.ModelManager.DeleteRemovedItem` | src/litp/core/model_manager.py:1855-1879 | deletes the item unless an inheritor or a child is not removed |
| `ModelManagers.ModelManager.RemoveItemRecursive` | src/litp/core/model_manager.py:1787-1808 | from any consistent store, also one with removed items: it ends, is never refused a deletion, marks the item removed with nothing left below, or for removal, and leaves everything below it deleted or for removal |
| `ModelManagers.ModelManager.RemoveItem` | src/litp/core/model_manager.py:1882-1944 | refused exactly for absent, protected and collection items; else never inconsistent, from any consistent store, and the result is that of `Removal.RemovedFrom`: only items in their initial or removed state are deleted, an initial item on its own is, and an applied or updated one stays for removal |
| `ModelManagers.ProtectedPaths` | src/litp/core/model_manager.py:1914-1922 | for want of a comma `/snapshots` and `/litp` may be removed like other items, and `/snapshots/litp` may not |
| `ModelManagers.RefusedPaths` | src/litp/core/model_manager.py:1882-1930 | absent items, the root, collections and the listed paths may not be removed, and elsewhere nothing else |
| `Removal.GonersBelow` | src/litp/core/model_manager.py:1765-1828 | everything below an item that goes, goes too |
| `Removal.DecidedStays` | src/litp/core/model_manager.py:1765-1773 | the checks for undeterminable items give the same result all along a removal |
| `Removal.CheckIsRight` | src/litp/core/model_manager.py:1765-1808 | once inheritors and children are dealt with: where the check for deletion holds, the item and everything below may be deleted on their own account and only children marked as removed are left; where it does not, the item is none that the removal deletes, nor a collection that it marks for a while |
| `Removal.RemovedMayBeDeleted` | src/litp/core/model_manager.py:1855-1876 | an item that the removal has marked as removed is never refused by the inconsistency check |
| `Removal.RemovalIsExact` | src/litp/core/model_manager.py:1787-1828 | from the removed item down through children and inheritors, an item is deleted if and only if it and everything below it (for a collection: its parent and everything below that) is in its initial state, with no undeterminable properties in it, above it or in its siblings' subtrees; every other item there is marked for removal and remembers its state, and the rest of the store is untouched |
| `Removal.DeletedExactly` | src/litp/core/model_manager.py:1765-1808 | from the removed item down, an item is deleted exactly if it and everything below it (for a collection: its parent and everything below that) is in its initial or removed state, determinable, with nothing undeterminable above it or in its siblings' subtrees |
| `Removal.DeletedWasUnused` | src/litp/core/model_manager.py:1780-1784 | what is deleted was in its initial state, or removed before |
| `Removal.UnusedItemGoes` | src/litp/core/model_manager.py:1787-1808 | an initial item without children and inheritors is deleted, if all items are determinable |
| `Removal.RemovalIsConsistent` | src/litp/core/model_manager.py:1765-1880 | every survivor has its parent and its source; from the removed item down none is left in state Removed, and elsewhere only those that were |
| `Histories.RecoveryBringsBack` | src/litp/core/model_item.py:371-380 | one visit of an item that a removal left in the store brings its state back if and only if it is not a collection that was marked as removed on the way, nor an applied item with undeterminable properties |
| `Histories.RecoveryUndoesRemoval` | src/litp/core/model_manager.py:1199-1207 | for any list of visits, repeated ones included: an item left by the removal is as before if and only if it is visited and a visit brings its state back |
| `Histories.RemovedAndRecovered` | src/litp/core/model_manager.py:1199-1207 | removal followed by recovery of the same item: exactly those items left from it down come back that are in its subtree, or inherit from there without properties of their own, and whose state a visit brings back |
| `Histories.SecondVisitApplies` | src/litp/core/model_item.py:371-380 | a second visit makes an undeterminable item applied, which the first one avoids |
| `PostPlans.SortByParent` | src/litp/core/model_manager.py:2074-2076 | sorts by the path of the parent, greatest first |
| `PostPlans.VpathIs` | src/litp/core/model_item.py:235-242 | a path is the path of the parent, a slash and the id, with one slash for children of the root |
| `PostPlans.ChildrenFirst` | src/litp/core/model_manager.py:2074-2076 | so every child is handled before its parent |
| `PostPlans.PostPlanResult` | src/litp/core/model_manager.py:2065-2101 | afterwards no item is removed, every item has its parent, removed collections whose parent survives are marked for removal, and items that were not removed are as before |
| `PostPlans.PostPlanKeepsSnapshots` | src/litp/core/model_manager.py:2065-2101 | applied items keep their whole source chain, and stay snapped |
| `PostPlans.PostPlanConsistency` | src/litp/core/model_manager.py:2065-2101 | for the given order of deletion, every item left has its parent and its source if and only if no item is deleted while an inheritor of it waits for its turn and is then refused |
| `PostPlans.CompleteRemoval` | src/litp/core/model_manager.py:2065-2101 | so if everything below the removed items is removed too, exactly the removed items go, except collections whose parent stays, and every item left has its parent and its source |
| `PostPlans.SourceMayGoMissing` | src/litp/core/model_manager.py:1855-1858 | a concrete store, removed only in part, in which an item is left without its source |
| `ModelManagers.ModelManager.ResetItem` | src/litp/core/model_manager.py:2092-2095 | an item that cannot be deleted and its removed children go back to ForRemoval |
| `ModelManagers.ModelManager.DeleteRemovedItemsAfterPlan` | src/litp/core/model_manager.py:2065-2101 | the two loops leave the store of `PostPlans.PostPlanned` for the order returned, with all of the above: it is consistent if and only if that order takes no source away |
| `TypeIndexes.TypeRegistry.AllSupertypes` | src/litp/core/model_manager.py:1664-1669 | the upward walk; a missing base type is the only failure |
| `TypeIndexes.TypeRegistry.RegisterItemType` | src/litp/core/model_manager.py:629-693 | refused, in this order, exactly for a type already registered, a property type not registered, a missing base type, or a property that a supertype has as a property too; a refused type changes nothing, another one is added with the structures of its supertypes on top of its own fields, and the index is reset |
| `TypeIndexes.TypeRegistry.VerdictIs` | src/litp/core/model_manager.py:656-689 | each refusal and its reason: a property declared both by the type and in the structure above is one, any other field declared twice is none |
| `TypeIndexes.ExtendsIsAcyclic` | src/litp/core/model_manager.py:672-678 | no registered type extends itself, directly or not |
| `TypeIndexes.TypeRegistry.AddInheritedStructure` | src/litp/core/model_manager.py:691-693 | updating the type with the structures of its supertypes, nearest first, comes to the structure of the direct supertype over the own fields |
| `TypeIndexes.TypeRegistry.OverridesProperties` | src/litp/core/model_manager.py:680-689 | looking through all supertypes finds a clash of properties if and only if the direct supertype has one |
| `TypeIndexes.FarthestWins` | src/litp/core/model_manager.py:691-693 | a structure has exactly the fields that the type or a supertype declares, each as the farthest supertype that declares it does |
| `TypeIndexes.OneDeclaration` | src/litp/core/model_manager.py:680-689 | a name that is a property in every type that declares it, the type or a supertype, is declared by one of them only |
| `TypeIndexes.TypeRegistry.GetExtendingTypes` | src/litp/core/model_dependency.py:44-79 | whatever the caches hold, exactly the types that have the given one among their supertypes |
| `TypeIndexes.GetSortedItemTypes` | src/litp/core/plugin_manager.py:374-397 | every type once, after the type it extends; none if and only if types extend each other in a cycle |
| `TypeIndexes.RegisterSorted` | src/litp/core/model_manager.py:646-654 | registering the sorted types misses a base type only if some type extends itself or a type that is not supplied |
| `TypeIndexes.SelfExtensionIsSorted` | src/litp/core/plugin_manager.py:374-397 | a concrete type that extends itself: its graph has no cycle once sorted, yet its base is not supplied |
| `TaskCaches.SearchedPlan.SetTaskState` | src/litp/core/plan.py:534-539 | a task changes its state without the caches being told |
| `TaskCaches.SearchedPlan.SetCurrentPhase` | src/litp/core/plan.py:494-499 | the run moves to another phase, or ends, without the caches being told |
| `TaskCaches.SearchedPlan.BuildActingTasksCache` | src/litp/core/plan.py:121-126 | for each item, exactly the tasks of the plan that act on it |
| `TaskCaches.SearchedPlan.FindTasks` | src/litp/core/plan.py:489-539 | exactly the tasks that a plain filter by phase, item and current state gives, whatever was searched before and whatever states have changed since |

## Left out

- Order within a layer and within a phase: `topsort` sorts a layer by name and `_sort_tasks_within_phases` uses a comparator
  that is not transitive. Layers may come in any order here, and phases may be reordered in any way
  (`SortGroup.ResortedIsSound`); which order results is not stated.
- `TaskCollection` and its lookups (`get_plugin_requires`), `can_have_dependency`, group membership, `_preprocess_tasks_in_task_group`:
  the direct requires of each task, the admissible pairs and the model dependencies between paths are parameters.
- The cluster id and the required clusters of a phase (`_phase_cluster_id`, `_req_clusters`) are parameters, and so is which
  phases hold cleanup tasks.
- Scheduler.RunSafety: keeps the requirements over resumed runs; for runs that build others it is false as it stands, and
  `Resumptions.RunIsInOrder` has the exact condition. That no worker step takes a task out of success is an assumption, a guard
  of the step (`execution_manager.py:1286-1288` does so for callbacks). Puppet, Celery, the database and timeouts appear only as
  nondeterministic worker steps; a result left over from an earlier run is not posted to a later one.
- Scheduler.SuffixWaits: under one set of requirements; for others see `Resumptions.SuffixWaitsAgain` and
  `Resumptions.SuffixStartsEarly`.
- Scheduler.RunUnderNewRequirements: direct requirements only; `Resumptions.RunIsInOrder` is about indirect ones too.
- Resumptions.RunIsInOrder: for runs without a worker left over from an earlier run, which could complete a phase of its own
  accord.
- Resumptions.StretchesRunOneByOne: that unfinished phases of a stretch keep one cluster id is a hypothesis. Items are deleted
  only once all their tasks are successful (`execution_manager.py:1343-1351`), so a phase without items is complete; but a phase
  with tasks of several clusters may come to have one cluster id before it is.
- Locks.LockBracketing: lock and unlock phases are assumed to hold one task each, and the unfinished phases of the cluster to
  carry one id. The unlock phase for a node that an earlier plan left locked is not part of this model.
- LockCreation.CreateLockTasks: works on values; the marks it sets on the task objects before it fails are not modelled.
- Items are values in the store and an object in `Items.ModelItem`; views (callable properties), property validation, read-only
  and deprecated properties are not modelled.
- ModelManagers.ModelManager.CreateItem: one item at a time; the trees that one request creates are sequences of these. The rules
  it checks are the structural ones (ids are not empty, as the pattern at `model_manager.py:776` demands): a collection is
  no member of a collection and inherits only along with its parent, which leaves out a reference to a whole collection
  (`model_manager.py:965-976`).
- ModelManagers.ModelManager.RemoveItem: the check for items of type sshd-config is left out.
- Histories.HistoriesAreSound: the end of a plan is an operation only where it takes no source away, which is exactly where it
  leaves the store consistent (`PostPlans.PostPlanConsistency`). No history goes on from a store that has lost a source; what such
  a store still has is `Histories.HistoriesEndSnapped`.
- Writes of properties that bypass the states (`is_locked`, timestamps, upgrades) are no operations of `Histories.Step`.
- TypeIndexes.TypeRegistry.RegisterItemType: fields carry their kind and type only, no defaults or other settings.
- TaskCaches.SearchedPlan.FindTasks: the sets that it returns are values; a caller that changes a cached set is not modelled.
- Snapshot task grouping, ordering of clusters and nodes, upgrade handling, merging of an earlier plan's successful tasks, ISO
  and package import, XML, backups, security, logging and the service layer.

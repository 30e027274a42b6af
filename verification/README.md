# Verified model of the two orchestrators

This Dafny project models the deterministic core of the two orchestrators in this repository and
proves what they keep over whole runs. It has four parts.

**The TypeScript scheduler.** `Graphs`, `CycleSearch` and `TaskGraphs` hold dependency graphs, the
iterative three-colour cycle search and the strict task graph. `SchedulerSteps` is the scheduler as
a step system: one event is one synchronous stretch between awaits, namely a loop pass, one
execution settling, or the abort signal. `SchedulerSafety`, `SchedulerConfluence`,
`SchedulerReasons`, `SchedulerLaunches`, `SchedulerProgress` and `SchedulerStall` prove its
properties for every schedule of events, every concurrency limit and every assignment of agents.
`Schedulers` is the same scheduler as an object whose fields are updated in place; each method is
tied to the step system, and `RunGraph` is a whole run against a free environment.

**Plans and recovery.** `PlanValidators`, `PlanRepairs`, `AgentRouters`, `TopologicalOrders`,
`TopologicalRounds` and `PlanIntegrations` model the planner layers; `GraphBuilders` and
`DagPipelines` follow a plan from validation to the scheduler's report. `Sequentials` runs a chain
through the scheduler. `Failures`, `Replanners`, `RecoverySteps`, `RecoveryManagers` and
`RecoveryTrails` model the recovery loop as a trail of attempts, `RecoveryOutcomes` reads every
decision on the report before it, `SequentialRecoveries` proves what one broken chain leads to, end
to end, and `SequentialRuns` what any number of retries, repairs and replans leave of a chain.

**The Python scheduler.** `RuntimeSteps` is its loop as turns (skip, launch, wait) with integer
clocks, saturation and budget errors; `RuntimeSafety`, `RuntimeProgress`, `RuntimeStall`,
`RuntimeResults`, `RuntimeLoss`, `RuntimeOutcomes`, `RuntimeDeadlines`, `RuntimeLaunches` and
`RuntimeHistories` prove its accounting, termination, deadlock conditions, results, lost results,
independence of the clock, time limits, launches and records, and `RuntimeSchedulers` is the object
form. `KahnSorts` is its dependency sort, `SlotGates` the counting gate of its worker pool,
`Budgets` the run budget.

**Fast forms.** `RunHistories` (the block-wise backwards reader), `ResponseCaches` (the LRU cache with
expiry) and `MessageStores` (the doubly bounded memory) are proved equal to simple references.

Ids, prompts and capabilities are wrapped strings. Task errors are a datatype with one case per
error form that the failure classifier tells apart. What an agent run returns is a function of the
task, so every result here holds for all outcomes; a schedule of events is free, so it holds for all
interleavings. Python times are integers, and a wait that times out has let the nearest deadline pass.

## Where the code and its own text differ

The model follows the code in each of these places.

- `scheduler.ts:192-193` calls the stall branch unreachable after validation. It is reachable:
  `SchedulerStall.ReversedChainStalls` and `DagPipelines.ValidPlanCanStall` exhibit it, and
  `SchedulerStall.NeverStallsIffSweepComplete` gives the exact condition.
- `runtime/scheduler.py:80-82` promises a result for every task, even on abort. A task whose future
  raised the budget error has none (`RuntimeLoss.LoneTaskLosesResult`). For every plan, limit and
  deadline this can happen to a task exactly when it may run out of budget and something can start
  at all (`RuntimeLoss.LosesTaskIff`, `RuntimeLoss.LosesResultIff`).
- `runtime/scheduler.py:207-209` can be reached by a valid plan: with saturation exactly when some
  task has a dependency (`RuntimeProgress.DeadlockIffEdge`), without saturation exactly when one
  sweep does not suffice (`RuntimeStall.NeverDeadlocksIffSweepComplete`).
- `planner/router.ts:47` says that `assign` does not advance round-robin; it does when it falls back
  to round-robin (`AgentRouters.AgentRouter.Assign`).
- `memory.py:19-20` says that the newest message is always kept; that holds exactly when the capacity
  is not negative (`MessageStores.NewestKeptIff`). `memory.py:63-65` returns everything for zero.

The success status of the Python scheduler (`runtime/scheduler.py:182-185`) promises no more than the
code checks, and it does not imply that every task succeeded: `RuntimeResults.CancelledRunReportsSuccess`
is a run whose only task was cancelled, and `RuntimeResults.SuccessMeansAllSucceeded` gives the exact
condition on the plan and the tasks' own verdicts.

## Model

| member | source | states |
|---|---|---|
| CycleSearch.FindCycle | packages/dsh-multi-agent/src/graph.ts:136-174 | the search ends with no cycle exactly when the graph has none but self-dependencies; a returned path is a genuine cycle of known tasks |
| CycleSearch.Explore | packages/dsh-multi-agent/src/graph.ts:143-171 | exploring one root leaves it black and keeps finished nodes closed under dependencies, or returns a genuine cycle |
| CycleSearch.Advance | packages/dsh-multi-agent/src/graph.ts:149-171 | one step keeps gray nodes equal to path and stack, or closes a genuine cycle; some measure always shrinks |
| TaskGraphs.CheckSpec | packages/dsh-multi-agent/src/task.ts:58-80 | a task is constructed exactly with non-empty ids, a finite positive time limit if it has one, and no repeated dependency; the error is that of the first check that fails, for dependencies of the first bad one |
| TaskGraphs.TaskGraph.Add | packages/dsh-multi-agent/src/graph.ts:35-42 | a new task is appended as pending; a malformed or known one leaves the graph unchanged |
| TaskGraphs.ReadyAmong | packages/dsh-multi-agent/src/graph.ts:83-90 | exactly the pending tasks whose dependencies all completed, once each |
| TaskGraphs.TaskGraph.ReadyTasks | packages/dsh-multi-agent/src/graph.ts:83-90 | the loop computes the ready tasks in insertion order |
| TaskGraphs.TaskGraph.DepsCompleted | packages/dsh-multi-agent/src/graph.ts:124-130 | true exactly when every dependency is known and completed |
| TaskGraphs.TaskGraph.IsComplete | packages/dsh-multi-agent/src/graph.ts:93-98 | true exactly when every task is terminal |
| TaskGraphs.TaskGraph.Validate | packages/dsh-multi-agent/src/graph.ts:104-122 | accepts exactly closed, self-free, acyclic graphs; an error names the first bad dependency in insertion order, or a genuine cycle when there is none |
| Graphs.AcyclicIffTopological | packages/dsh-multi-agent/src/graph.ts:100-122 | a closed finite graph is acyclic exactly when some order lists every task after its dependencies |
| SchedulerSafety.RunSafe | packages/dsh-multi-agent/src/scheduler.ts:93-214 | in every reachable state running tasks, slots and busy agents agree, one task per agent, within the limit; outcomes, order and terminal tasks agree; every started task had all dependencies completed |
| SchedulerSafety.ApplySafe | packages/dsh-multi-agent/src/scheduler.ts:105-214 | every event keeps all of that |
| SchedulerSafety.TearDownFreesSlots | packages/dsh-multi-agent/src/scheduler.ts:205-214 | after the teardown every task is terminal and no slot is in use |
| SchedulerConfluence.TerminalIsFinal | packages/dsh-multi-agent/src/scheduler.ts:105-203 | in any reachable state a terminal task has its final status or was cancelled by a stop |
| SchedulerConfluence.Confluence | packages/dsh-multi-agent/src/scheduler.ts:105-203 | an unstopped returned run gives every task the status of the recursive specification and executes exactly the tasks whose dependencies complete |
| SchedulerConfluence.RunsAgree | packages/dsh-multi-agent/src/scheduler.ts:105-203 | two unstopped runs of the same dependencies agree on statuses and executions, whatever the agents, limits, schedules and insertion orders |
| SchedulerReasons.RunReasoned | packages/dsh-multi-agent/src/scheduler.ts:105-174 | every recorded outcome is the execution's own, names a dependency that really ended unsuccessfully, or was given by a stop |
| SchedulerReasons.OutcomesDetermined | packages/dsh-multi-agent/src/scheduler.ts:139-174 | in an unstopped run executed tasks keep exactly their outcome and cancelled ones name a real unsuccessful dependency with its status |
| SchedulerReasons.LateSettleChangesNothing | packages/dsh-multi-agent/src/scheduler.ts:105-119 | a completion after the return changes no status, outcome, order or slot |
| SchedulerReasons.NothingStartsAfterAbort | packages/dsh-multi-agent/src/scheduler.ts:176-203 | once the signal fired no schedule of events executes another task |
| SchedulerReasons.AbortedAtOnceCancelsAll | packages/dsh-multi-agent/src/scheduler.ts:79-83 | a signal that had fired before the run cancels every task and executes none |
| SchedulerReasons.PassFlags | packages/dsh-multi-agent/src/scheduler.ts:176-214 | a pass stops and returns exactly once the signal has fired |
| SchedulerReasons.ReturnedOrderIsPermutation | packages/dsh-multi-agent/src/scheduler.ts:205-230 | at any return, stopped or not, the completion order is a permutation of the tasks |
| SchedulerReasons.RecordsOnlyGrow | packages/dsh-multi-agent/src/scheduler.ts:105-174 | over any schedule the completion order and the executions are only ever added to, so the order is that in which tasks became terminal |
| SchedulerProgress.OrderedIsSweepComplete | packages/dsh-multi-agent/src/scheduler.ts:164-174 | inserting dependencies first makes one cancel sweep sufficient |
| SchedulerProgress.CancelPassLeavesNoneBlocked | packages/dsh-multi-agent/src/scheduler.ts:164-174 | where sweeps are complete, a pass leaves no pending task with an unsuccessful dependency |
| SchedulerProgress.NoStall | packages/dsh-multi-agent/src/scheduler.ts:163-203 | where sweeps are complete and the limit is usable, no reachable state is the stall error |
| SchedulerProgress.PassesBounded | packages/dsh-multi-agent/src/scheduler.ts:163-203 | a run makes at most one pass more than there are tasks |
| SchedulerLaunches.PassStartsGreedily | packages/dsh-multi-agent/src/scheduler.ts:176-186 | an unstopped pass starts, in insertion order, each ready task exactly if its agent is neither busy nor taken by an earlier one and the limit leaves a slot |
| SchedulerLaunches.LaunchIsGreedy | packages/dsh-multi-agent/src/scheduler.ts:180-185 | launching a list of candidates is that greedy choice among them, with one slot and one execution each |
| SchedulerLaunches.WaitingIsFullyLoaded | packages/dsh-multi-agent/src/scheduler.ts:105-203 | in every reachable state in which a run waits the limit is reached, or the agent of every ready task is working on another one |
| SchedulerStall.NeverStallsIffSweepComplete | packages/dsh-multi-agent/src/scheduler.ts:163-196 | the stall error is unreachable for all agents, limits and schedules if and only if every cancel sweep is complete |
| SchedulerStall.InsertedInOrderNeverStalls | packages/dsh-multi-agent/src/scheduler.ts:163-196 | tasks inserted after their dependencies never stall |
| SchedulerStall.ReversedChainStalls | packages/dsh-multi-agent/src/scheduler.ts:165-196 | a valid three-task chain inserted dependents-first can stall |
| Schedulers.SchedulerRun.CancelBlockedTasks | packages/dsh-multi-agent/src/scheduler.ts:164-174 | the in-place pass equals the cancel pass of the step system |
| Schedulers.SchedulerRun.BlockingDependency | packages/dsh-multi-agent/src/scheduler.ts:167-172 | the first declared dependency that ended without completing |
| SchedulerSteps.FirstBlockingIsFirst | packages/dsh-multi-agent/src/scheduler.ts:167-172 | the dependency named as the reason is the first declared one that ended without completing |
| Schedulers.SchedulerRun.StartTask | packages/dsh-multi-agent/src/scheduler.ts:121-137 | a started task is running, takes its agent and is dispatched once |
| Schedulers.SchedulerRun.LaunchReadyTasks | packages/dsh-multi-agent/src/scheduler.ts:176-186 | latches the stop flag, and launches what is ready unless stopped |
| Schedulers.SchedulerRun.LaunchEach | packages/dsh-multi-agent/src/scheduler.ts:180-185 | starts ready tasks in order up to the limit, skipping busy agents |
| Schedulers.SchedulerRun.SettleExecution | packages/dsh-multi-agent/src/scheduler.ts:105-119 | a completion is recorded only for a running task; the slot is released in any case |
| Schedulers.SchedulerRun.TearDownTask | packages/dsh-multi-agent/src/scheduler.ts:207-213 | one task of the teardown becomes cancelled and gives up its slot |
| Schedulers.SchedulerRun.TearDown | packages/dsh-multi-agent/src/scheduler.ts:205-214 | the loop tears down every task that is not terminal |
| Schedulers.SchedulerRun.Pass | packages/dsh-multi-agent/src/scheduler.ts:163-203 | one iteration equals a loop pass of the step system |
| Schedulers.SchedulerRun.ConcludePass | packages/dsh-multi-agent/src/scheduler.ts:188-214 | tear down and return when stopped; return or throw when nothing runs; else wait |
| Schedulers.SchedulerRun.RunLoop | packages/dsh-multi-agent/src/scheduler.ts:162-203 | the loop follows a schedule of enabled events that heeds the signal, and ends |
| Schedulers.SchedulerRun.Report | packages/dsh-multi-agent/src/scheduler.ts:220-230 | results in insertion order; ok exactly when all completed |
| Schedulers.RunGraph | packages/dsh-multi-agent/src/scheduler.ts:60-231 | each error exactly under its condition; a report lists every task once with its specified status and outcome; a stall only where sweeps are incomplete; never stopped when the signal stays silent, and nothing but cancellations when it had fired before |
| PlanValidators.FineIffValid | packages/dsh-multi-agent/src/planner/validator.ts:67-160 | no task raises a hard error and no cycle is found exactly for valid plans |
| PlanValidators.CheckTask | packages/dsh-multi-agent/src/planner/validator.ts:67-149 | the findings of one task; no hard error exactly when its id, prompt and dependencies are sound |
| PlanValidators.Validate | packages/dsh-multi-agent/src/planner/validator.ts:49-167 | accepts exactly the non-empty plans with distinct non-empty ids, prompts and closed, self-free, acyclic dependencies, unchanged and with their warnings |
| PlanValidators.FindingsAreExact | packages/dsh-multi-agent/src/planner/validator.ts:49-160 | the issue trail holds an issue exactly if the plan deserves it, each code on the fields of the task or the dependency table |
| PlanValidators.ValidateAndRepair | packages/dsh-multi-agent/src/planner/validator.ts:174-183 | the repaired plan keeps ids, prompts and dependencies, is valid and raises no finding any more |
| PlanValidators.RepairOnFields | packages/dsh-multi-agent/src/planner/validator.ts:124-148 | an agent is dropped exactly if the pool has none with that id, capabilities exactly if no agent has them all; nothing else changes |
| PlanValidators.RepairSettles | packages/dsh-multi-agent/src/planner/validator.ts:174-183 | repairing every warning once leaves nothing to report |
| PlanRepairs.ApplyIssueRepairs | packages/dsh-multi-agent/src/recovery/repair.ts:47-87 | nothing to repair exactly without a repairable finding; otherwise only named agents and capabilities are dropped, each recorded |
| PlanRepairs.RepairIsRecorded | packages/dsh-multi-agent/src/recovery/repair.ts:63-84 | a record is written exactly for each agent and each capability field that the repair dropped |
| PlanRepairs.ClearAgentAssignments | packages/dsh-multi-agent/src/recovery/repair.ts:97-121 | refused exactly when no targeted task names an agent; otherwise exactly those agents are cleared, with one record each in plan order |
| PlanRepairs.ClearRecordsInOrder | packages/dsh-multi-agent/src/recovery/repair.ts:103-113 | one record for each targeted task that named an agent, in plan order |
| AgentRouters.AgentRouter.Assign | packages/dsh-multi-agent/src/planner/router.ts:48-73 | explicit agent, else first covering agent, else the next round-robin turn, which alone advances the counter |
| AgentRouters.AgentRouter.Route | packages/dsh-multi-agent/src/planner/router.ts:76-87 | every task is assigned by that rule at its own turn, so the routed plan is a function of pool, plan and counter; ids, prompts, dependencies and time limits are kept |
| AgentRouters.CreateRouter | packages/dsh-multi-agent/src/planner/router.ts:40-45 | refused exactly for an empty pool |
| AgentRouters.RightfulIsPooled | packages/dsh-multi-agent/src/planner/router.ts:48-73 | an assigned agent always belongs to the pool |
| AgentRouters.RightfulIsUnique | packages/dsh-multi-agent/src/planner/router.ts:11-14 | the rule leaves no choice: routing is deterministic |
| AgentRouters.RightfulIff | packages/dsh-multi-agent/src/planner/router.ts:48-73 | the precedence rules allow exactly one assignment, the specified one |
| AgentRouters.AssignmentOnFields | packages/dsh-multi-agent/src/planner/router.ts:48-73 | on the fields of task and pool: the named agent if the pool has it, else the first with all required capabilities, else the one at the current turn |
| AgentRouters.RepairKeepsRouting | packages/dsh-multi-agent/src/planner/validator.ts:174-183 | dropping the agents and capabilities that validation warns about changes no assignment of the whole plan |
| AgentRouters.RoundRobinIsFair | packages/dsh-multi-agent/src/planner/router.ts:9-14 | after any number of round-robin turns two pool slots differ by at most one |
| AgentRouters.RoutingIsFair | packages/dsh-multi-agent/src/planner/router.ts:76-87 | over any first part of a routed plan two agents of the pool differ by at most one in the tasks they got by round-robin |
| AgentRouters.TurnsAreRoundRobins | packages/dsh-multi-agent/src/planner/router.ts:65-73 | the counter stands at the number of round-robin assignments made |
| AgentRouters.RoutedKeepsTable | packages/dsh-multi-agent/src/planner/router.ts:76-87 | routing keeps ids and the dependency table |
| TopologicalOrders.OrderExistsIff | packages/dsh-multi-agent/src/planner/integration.ts:38-63 | an order is returned exactly for distinct ids with closed, self-free, acyclic dependencies |
| TopologicalOrders.OrderIsLinearization | packages/dsh-multi-agent/src/planner/integration.ts:38-63 | it is a permutation of the tasks with every task after its dependencies |
| TopologicalOrders.OrderedIsFixed | packages/dsh-multi-agent/src/planner/integration.ts:33-36 | a plan that is in order already is returned unchanged |
| TopologicalOrders.OrderCommutesWithRestriction | packages/dsh-multi-agent/src/planner/integration.ts:38-63 | sorting commutes with restricting to a dependency-closed part |
| TopologicalRounds.OrderGoesByRounds | packages/dsh-multi-agent/src/planner/integration.ts:33-63 | tasks go by rounds, the largest number of dependencies on later-listed tasks on any way down, and within a round in list order |
| TopologicalRounds.OrderIsTheOneByRounds | packages/dsh-multi-agent/src/planner/integration.ts:33-63 | of all permutations of an orderable plan the returned one is the only one that goes by rounds |
| TopologicalOrders.SweepOnce | packages/dsh-multi-agent/src/planner/integration.ts:46-57 | one inner loop, pruning pending sets in place, emits what a sweep emits |
| TopologicalOrders.Sort | packages/dsh-multi-agent/src/planner/integration.ts:38-63 | the loops compute the specified order |
| PlanIntegrations.ChecksMeanChain | packages/dsh-multi-agent/src/planner/integration.ts:128-158 | the relay checks hold of an order exactly when every task names just its predecessor |
| PlanIntegrations.RelayPlan | packages/dsh-multi-agent/src/planner/integration.ts:128-170 | accepted exactly when the sorted plan is one chain |
| PlanIntegrations.BroadcastPlan | packages/dsh-multi-agent/src/planner/integration.ts:95-125 | accepted exactly with one prompt, no dependencies and distinct agents |
| PlanIntegrations.MapPlan | packages/dsh-multi-agent/src/planner/integration.ts:66-92 | the executed order of each strategy |
| PlanIntegrations.MappedKeepsTasks | packages/dsh-multi-agent/src/planner/integration.ts:66-170 | every mapping keeps exactly the tasks and never puts one before its dependency |
| GraphBuilders.BuildGraph | packages/dsh-multi-agent/src/strategies/dag.ts:24-25 | succeeds exactly when every task is well formed and no id repeats, and then holds the tasks in order, all pending |
| GraphBuilders.OrderedGraphNeverStalls | packages/dsh-multi-agent/src/strategies/dag.ts:19-28 | a graph built dependencies-first never stalls |
| DagPipelines.RoutedPlanIsOrderable | packages/dsh-multi-agent/src/planner/integration.ts:33-63 | a routed valid plan can be sorted and passes the graph's own validation |
| DagPipelines.RoutedPlanIsAddable | packages/dsh-multi-agent/src/task.ts:58-80 | a routed valid plan is taken by the graph exactly when no task repeats a dependency, has an invalid time limit or got an empty agent id |
| DagPipelines.PlanAndRunDag | packages/dsh-multi-agent/src/planner/integration.ts:252-306 | plans and pools are rejected exactly when invalid or empty, tasks exactly when the graph refuses them as the unrepaired plan would be routed; without a signal the report gives each plan task the status fixed by the plan's own dependencies, whatever the agents, repairs, routing and timing |
| DagPipelines.ValidPlanCanStall | packages/dsh-multi-agent/src/planner/integration.ts:252-306 | a plan accepted by every layer whose graph can still stall |
| StepNames.DecimalRoundTrip | packages/dsh-multi-agent/src/recovery/manager.ts:61-62 | reading back the digits of a number gives the number |
| StepNames.StepNameRoundTrip | packages/dsh-multi-agent/src/recovery/manager.ts:61-62 | the index of a generated step id is read back, whatever the strategy |
| StepNames.StepIndexIff | packages/dsh-multi-agent/src/recovery/manager.ts:61-62 | exactly the ids that are a known prefix and at least one digit carry an index, the value of those digits |
| StepNames.StepNameInjective | packages/dsh-multi-agent/src/strategies/sequential.ts:62 | different steps have different ids |
| Sequentials.ChainIsDag | packages/dsh-multi-agent/src/strategies/sequential.ts:59-69 | the chain of steps is a valid graph with distinct ids |
| Sequentials.ChainFinal | packages/dsh-multi-agent/src/strategies/sequential.ts:59-94 | the scheduler's specification, read along the chain |
| Sequentials.RunSequential | packages/dsh-multi-agent/src/strategies/sequential.ts:50-124 | refused exactly for an empty agent id or an invalid time limit; it never stalls; without a signal each step ends with its own outcome up to the first failure and is cancelled for its predecessor after it; a stopped report may hold results that arrived late |
| Sequentials.ChainShape | packages/dsh-multi-agent/src/strategies/sequential.ts:59-110 | before and at the break steps keep their outcomes, after it each names its predecessor |
| Sequentials.ChainCompletes | packages/dsh-multi-agent/src/strategies/sequential.ts:96-110 | the chain completes exactly when every step does |
| Failures.RecoverabilityOf | packages/dsh-multi-agent/src/recovery/failure.ts:34-44 | exactly timeouts are retried, unavailable agents repaired and dependency failures replanned; exactly validation, routing and cancellation are fatal |
| Failures.ExtractTaskFailures | packages/dsh-multi-agent/src/recovery/failure.ts:98-123 | a reference per entry that did not complete, in order |
| Failures.RefsMembers | packages/dsh-multi-agent/src/recovery/failure.ts:98-123 | exactly the entries that did not complete are referenced |
| Failures.ClassifyResult | packages/dsh-multi-agent/src/recovery/failure.ts:179-204 | the record of a failed run, with the highest-priority code present and its first reference |
| Failures.ResultMeansEntries | packages/dsh-multi-agent/src/recovery/failure.ts:78-88 | a failed run is classified by its entries alone: a missing agent, else a dependency failure, else a timeout, else a cancellation, else a task error |
| Failures.RecordNamesFirst | packages/dsh-multi-agent/src/recovery/failure.ts:190-204 | the record names the task and agent of the first entry of the deciding kind |
| Failures.StatusOutranksEntries | packages/dsh-multi-agent/src/recovery/failure.ts:180-189 | a cancelled or timed-out run is classified by its status |
| Failures.PrimaryOutranks | packages/dsh-multi-agent/src/recovery/failure.ts:46-52 | no code of higher priority is present |
| Failures.ClassifyThrown | packages/dsh-multi-agent/src/recovery/failure.ts:143-176 | each thrown error has its code; none is repairable or replanable, and only a supervisor timeout is retryable |
| Replanners.DoomedIsLeastSet | packages/dsh-multi-agent/src/recovery/replanner.ts:53-64 | what is pruned is in every set that holds the failed tasks and is closed under dependents |
| Replanners.DoomedIsClosed | packages/dsh-multi-agent/src/recovery/replanner.ts:53-64 | what is pruned holds the failed tasks and is closed under dependents |
| Replanners.Prune | packages/dsh-multi-agent/src/recovery/replanner.ts:53-64 | the grow loop ends with exactly the ids that failed or reach a failed id through dependencies |
| Replanners.DeterministicReplan | packages/dsh-multi-agent/src/recovery/replanner.ts:39-78 | each refusal exactly under its condition; otherwise the survivors in plan order and the removed ids |
| RecoveryOutcomes.RemovedAreRest | packages/dsh-multi-agent/src/recovery/replanner.ts:75 | the removed ids are exactly the pruned tasks, in plan order |
| Replanners.ReplanKeepsValid | packages/dsh-multi-agent/src/recovery/replanner.ts:48-77 | a non-empty remainder of a valid plan is valid, and smaller when a failed task was in the plan |
| RecoveryManagers.RecoveryManager.Decide | packages/dsh-multi-agent/src/recovery/manager.ts:259-312 | retry, repair, replan or stop as the failure code, the budget and the plan allow; `RecoveryOutcomes` reads that on the report |
| RecoveryManagers.RecoveryManager.DecideThrown | packages/dsh-multi-agent/src/recovery/manager.ts:240-252 | after a thrown error only a retry or a stop |
| RecoveryManagers.RecoveryManager.RunAttempt | packages/dsh-multi-agent/src/recovery/manager.ts:199-312 | one attempt: validate and repair, route deterministically over the current pool, map, execute, classify, decide |
| RecoveryManagers.RecoveryManager.Run | packages/dsh-multi-agent/src/recovery/manager.ts:111-314 | the loop leaves the trail its environment determines, within the attempt budget, and reports its failures, decisions and counts |
| RecoveryManagers.AgainIsBudgeted | packages/dsh-multi-agent/src/recovery/manager.ts:186-189 | the loop goes on only while another attempt is budgeted, so its own budget branch is dead |
| RecoveryTrails.BudgetKept | packages/dsh-multi-agent/src/recovery/manager.ts:183-313 | no more attempts and no more replans than allowed |
| RecoveryTrails.FailuresCounted | packages/dsh-multi-agent/src/recovery/manager.ts:183-313 | one failure per attempt, except for one that completed the run |
| RecoveryTrails.FailuresInOrder | packages/dsh-multi-agent/src/recovery/manager.ts:183-313 | the failures are reported in the order of the attempts that left them |
| RecoveryTrails.DecisionsMatchCodes | packages/dsh-multi-agent/src/recovery/manager.ts:246-309 | retry follows a timeout, repair an unavailable agent, replan a dependency failure |
| RecoveryTrails.StopMeansFinal | packages/dsh-multi-agent/src/recovery/manager.ts:155-181 | how a run ends and with which status |
| RecoveryTrails.LaterPlansAreValid | packages/dsh-multi-agent/src/recovery/manager.ts:199-206 | only the first attempt can be rejected by validation |
| RecoveryTrails.PlansOnlyShrink | packages/dsh-multi-agent/src/recovery/manager.ts:270-311 | over a run tasks only disappear; ids, prompts, dependencies and time limits never change |
| RecoveryOutcomes.MissedAgentIsRepaired | packages/dsh-multi-agent/src/recovery/manager.ts:269-294 | an entry that missed its agent leads to a repair while budgeted and possible: the tasks hit lose their agent, exactly the agents named leave the pool |
| RecoveryOutcomes.DependencyFailureIsReplanned | packages/dsh-multi-agent/src/recovery/manager.ts:295-311 | without one, a dependency failure leads to a replan while budgeted: the failed tasks and all that depend on them go, the rest stays in plan order |
| RecoveryOutcomes.OtherFailures | packages/dsh-multi-agent/src/recovery/manager.ts:259-312 | without either, a timeout is retried while budgeted, a cancellation aborts the run, anything else ends it as failed |
| RecoveryOutcomes.OtherStatuses | packages/dsh-multi-agent/src/recovery/manager.ts:253-268 | what follows a completed, cancelled or timed-out run |
| RecoveryOutcomes.ThrownErrors | packages/dsh-multi-agent/src/recovery/manager.ts:240-251 | after a thrown error only a supervisor timeout is tried again |
| RecoveryOutcomes.RefusedAttempts | packages/dsh-multi-agent/src/recovery/manager.ts:199-252 | an attempt that cannot be executed, for an invalid plan, an empty pool or a refused strategy, ends the run |
| RecoveryOutcomes.AbortedIsLast | packages/dsh-multi-agent/src/recovery/manager.ts:243-263 | once the signal is set a failed attempt is the last one |
| RecoveryOutcomes.LastStepDecides | packages/dsh-multi-agent/src/recovery/failure.ts:78-88 | a chain that fails at its last step alone is retried after a timeout while budgeted and given up after an ordinary error |
| RecoveryOutcomes.PoolIsWhoIsLeft | packages/dsh-multi-agent/src/recovery/manager.ts:278-292 | at every attempt the pool is exactly the caller's without the agents that repaired reports found missing |
| RecoveryOutcomes.MissingNeverRouted | packages/dsh-multi-agent/src/recovery/manager.ts:278-292 | after a repair no later attempt routes any task to an agent that the report named as missing |
| RecoveryOutcomes.PresentStays | packages/dsh-multi-agent/src/recovery/manager.ts:278-292 | an agent that no report names stays in every pool |
| RecoveryOutcomes.LastResultIsLatest | packages/dsh-multi-agent/src/recovery/manager.ts:254 | the run's last result is that of the latest attempt that returned one |
| RecoveryTrails.TrailsAgree | packages/dsh-multi-agent/src/recovery/manager.ts:183-313 | the supervisor's answers and the abort signal determine every attempt: two runs of one setting agree as far as both go |
| SequentialRecoveries.RunSequentialAttempt | packages/dsh-multi-agent/src/supervisor/supervisor.ts:148-360 | a plan without steps or with an empty agent id is a validation error, a step with an invalid time limit an execution error, or a cancellation if the signal had fired; otherwise every step is reported, and the status is that of the timer, else of the signal, else completed exactly if every step completed |
| SequentialRecoveries.BrokenChainIsDependencyFailure | packages/dsh-multi-agent/src/recovery/failure.ts:46-52 | a chain that breaks before its last step for anything but an unavailable agent is classified as a dependency failure |
| SequentialRecoveries.StepIsItsTask | packages/dsh-multi-agent/src/recovery/manager.ts:54-65 | a synthetic step id is mapped to the planner task it was made for |
| SequentialRecoveries.DoomedSuffix | packages/dsh-multi-agent/src/recovery/replanner.ts:53-64 | pruning the tasks from some position of the order on removes nothing else |
| SequentialRecoveries.OrderIgnoresAgents | packages/dsh-multi-agent/src/planner/integration.ts:38-63 | the linear order depends on ids and dependencies only |
| SequentialRecoveries.BrokenChainIsPruned | packages/dsh-multi-agent/src/recovery/manager.ts:295-311 | a chain broken at an inner position is replanned to exactly the completed tasks, and any routing of them is ordered like the first steps |
| SequentialRecoveries.NextAttemptRunsPrefix | packages/dsh-multi-agent/src/recovery/manager.ts:295-311 | the next attempt runs the first k tasks of the previous order, in that order |
| SequentialRecoveries.BrokenAtFirstStepGivesUp | packages/dsh-multi-agent/src/recovery/manager.ts:304-312 | a chain broken at its first step ends the run |
| SequentialRuns.ReplanKeepsPrefix | packages/dsh-multi-agent/src/recovery/manager.ts:295-311 | every replan of a sequential run answers a broken chain and keeps exactly the tasks before its break |
| SequentialRuns.NextOrderIsPrefix | packages/dsh-multi-agent/src/recovery/manager.ts:259-311 | retries and repairs keep the order of execution, a replan cuts it at the break |
| SequentialRuns.LaterOrdersArePrefixes | packages/dsh-multi-agent/src/recovery/manager.ts:183-313 | over a whole run of retries, repairs and replans each attempt runs a prefix of every earlier order, at least one task shorter per replan |
| RuntimeSteps.TaskDeadline | src/deepseek_multi_agent_plugin/runtime/scheduler.py:293-304 | on the job's own fields: now plus the task's own limit, else plus the default, and never after the run deadline |
| RuntimeDeadlines.RunningDeadline | src/deepseek_multi_agent_plugin/runtime/scheduler.py:268-291 | in any run a task in flight has the deadline of its submission: its own limit if it has one, else the default, bounded by the run deadline |
| RuntimeDeadlines.TimedOutWaitExpires | src/deepseek_multi_agent_plugin/runtime/scheduler.py:311-357 | a wait that times out ends as timeouts exactly the tasks whose own limit, or else the default, or the run deadline has passed since their submission |
| RuntimeLaunches.RunLaunchesGreedily | src/deepseek_multi_agent_plugin/runtime/scheduler.py:259-291 | every launch submits the ready tasks in plan order up to the limit; a refused one ends as a timeout and takes no slot; nothing else changes |
| RuntimeLaunches.WaitsLoaded | src/deepseek_multi_agent_plugin/runtime/scheduler.py:204-211 | whenever a run waits the limit is reached or no pending task is ready |
| RuntimeSafety.RunAccounted | src/deepseek_multi_agent_plugin/runtime/scheduler.py:188-465 | pending, running and results partition the plan at every turn; submissions follow success of all dependencies; the concurrency limit and clamped deadlines hold |
| RuntimeSafety.EveryTaskHasResult | src/deepseek_multi_agent_plugin/runtime/scheduler.py:188-223 | every exit but the budget error leaves exactly one terminal result per task |
| RuntimeSafety.OverBudgetLosesOne | src/deepseek_multi_agent_plugin/runtime/scheduler.py:359-380 | the budget error leaves a result for every task except the one that raised it |
| RuntimeLoss.LosesTaskIff | src/deepseek_multi_agent_plugin/runtime/scheduler.py:359-380 | a task can end without a result if and only if it may run out of budget and the concurrency limit lets anything start |
| RuntimeLoss.LosesResultIff | src/deepseek_multi_agent_plugin/runtime/scheduler.py:80-82 | the promised result for every task can be missing if and only if something can start and some task of the plan may run out of budget |
| RuntimeLoss.LoneTaskLosesResult | src/deepseek_multi_agent_plugin/runtime/scheduler.py:359-380 | one task that runs out of budget: the run ends with no result at all |
| RuntimeProgress.TimeoutExpiresSome | src/deepseek_multi_agent_plugin/runtime/scheduler.py:311-357 | a wait that times out expires some task, because task deadlines are clamped |
| RuntimeProgress.TurnsBounded | src/deepseek_multi_agent_plugin/runtime/scheduler.py:204-211 | the loop takes at most one turn more than there are tasks |
| RuntimeProgress.DeadlockIffEdge | src/deepseek_multi_agent_plugin/runtime/scheduler.py:204-290 | with a usable limit and saturation possible, the deadlock error is reachable exactly when some task has a dependency |
| RuntimeProgress.SaturationDeadlocks | src/deepseek_multi_agent_plugin/runtime/scheduler.py:275-288 | one fully saturated launch deadlocks any plan with a dependency |
| RuntimeProgress.ReversedChainDeadlocks | src/deepseek_multi_agent_plugin/runtime/scheduler.py:225-244 | a chain listed dependents-first deadlocks when its root fails, with the results it leaves |
| RuntimeStall.NoDeadlock | src/deepseek_multi_agent_plugin/runtime/scheduler.py:204-290 | without saturation and with complete sweeps the deadlock error is unreachable |
| RuntimeStall.ListedInOrderNeverDeadlocks | src/deepseek_multi_agent_plugin/runtime/scheduler.py:204-290 | in particular when tasks are listed after their dependencies |
| RuntimeStall.NeverDeadlocksIffSweepComplete | src/deepseek_multi_agent_plugin/runtime/scheduler.py:204-290 | without saturation it is unreachable for all limits and deadlines if and only if every skip sweep is complete |
| RuntimeResults.FinishedIsFinal | src/deepseek_multi_agent_plugin/runtime/scheduler.py:188-223 | a finished run gives every task the verdict of the recursive specification over the verdicts that the turns of the run gave the tasks that ended in them |
| RuntimeOutcomes.FinishedByOutputs | src/deepseek_multi_agent_plugin/runtime/scheduler.py:188-223 | without saturation and expiry the plan and the outputs of the tasks fix every verdict of a finished run |
| RuntimeOutcomes.UnhurriedNeverExpires | src/deepseek_multi_agent_plugin/runtime/scheduler.py:293-332 | where no time limit is set no wait times out |
| RuntimeOutcomes.OutcomeDetermined | src/deepseek_multi_agent_plugin/runtime/scheduler.py:188-223 | without time limits, saturation and budget errors every run of a plan with complete sweeps ends normally, with the results that plan and outputs fix |
| RuntimeOutcomes.OutcomesAgree | src/deepseek_multi_agent_plugin/runtime/scheduler.py:188-223 | two such runs agree whatever the listing order, the concurrency limits, the clock and the order of completions |
| RuntimeResults.SuccessMeansAllSucceeded | src/deepseek_multi_agent_plugin/runtime/scheduler.py:182-185 | a finished run is reported as success exactly when no task that got to run failed or timed out; this hides a task without success exactly when some task that got to run ended cancelled or skipped |
| RuntimeResults.AllSucceededReportsSuccess | src/deepseek_multi_agent_plugin/runtime/scheduler.py:204-223 | a run in which every task succeeded is reported as success, even past its deadline |
| RuntimeResults.CancelledRunReportsSuccess | src/deepseek_multi_agent_plugin/runtime/scheduler.py:182-185 | a run whose only task was cancelled is reported as success |
| RuntimeHistories.CompletionIsRecorded | src/deepseek_multi_agent_plugin/runtime/scheduler.py:359-412 | a completed task is recorded for good with the verdict that the way its future ended stands for |
| RuntimeHistories.AbortCancelsInFlight | src/deepseek_multi_agent_plugin/runtime/scheduler.py:414-453 | a run that ends by an error cancels every submitted task that had no result and was not collected |
| RuntimeHistories.StatusMeans | src/deepseek_multi_agent_plugin/runtime/scheduler.py:163-217 | each status on the last turn and the results: timeout, cancelled, failed and success exactly under their conditions |
| RuntimeHistories.SucceedsIffUpstream | src/deepseek_multi_agent_plugin/runtime/scheduler.py:225-290 | a task succeeds if and only if its own future and those of all its direct and indirect dependencies end well |
| RuntimeSchedulers.TaskScheduler.SkipBlocked | src/deepseek_multi_agent_plugin/runtime/scheduler.py:225-244 | the in-place sweep equals the specified one |
| RuntimeSchedulers.TaskScheduler.LaunchReady | src/deepseek_multi_agent_plugin/runtime/scheduler.py:246-290 | the in-place launch equals the specified one; late exactly after the run deadline |
| RuntimeSchedulers.TaskScheduler.CollectOne | src/deepseek_multi_agent_plugin/runtime/scheduler.py:359-391 | the future is popped before its error is looked at |
| RuntimeSchedulers.TaskScheduler.Expire | src/deepseek_multi_agent_plugin/runtime/scheduler.py:334-357 | exactly the tasks whose deadline passed end as timeouts |
| RuntimeSchedulers.TaskScheduler.Wait | src/deepseek_multi_agent_plugin/runtime/scheduler.py:311-323 | collects in order, up to the first budget error, or expires |
| RuntimeSchedulers.TaskScheduler.Abort | src/deepseek_multi_agent_plugin/runtime/scheduler.py:414-453 | everything running or pending ends as cancelled |
| RuntimeSchedulers.TaskScheduler.Step | src/deepseek_multi_agent_plugin/runtime/scheduler.py:204-221 | one test of the loop condition with the iteration or the final deadline check that follows it, aborts included |
| RuntimeSchedulers.TaskScheduler.Execute | src/deepseek_multi_agent_plugin/runtime/scheduler.py:188-223 | a whole run against a free environment ends, with the accounted results |
| RuntimeSchedulers.ExecuteRun | src/deepseek_multi_agent_plugin/runtime/scheduler.py:163-185 | the run status follows the exit; results cover the plan, but for a task over budget |
| KahnSorts.TopologicalOrder | src/deepseek_multi_agent_plugin/runtime/dependency.py:7-40 | an order exactly for closed acyclic dependencies, every id once and dependencies first; otherwise a real unknown dependency or a stuck set |
| KahnSorts.Release | src/deepseek_multi_agent_plugin/runtime/dependency.py:32-35 | discarding a finished task keeps pending sets exact and queues each freed follower once |
| KahnSorts.SortEnds | src/deepseek_multi_agent_plugin/runtime/dependency.py:37-40 | a short order leaves a non-empty set in which everything waits for a member |
| KahnSorts.StuckHoldsCycle | src/deepseek_multi_agent_plugin/runtime/dependency.py:37-39 | the reported stuck ids contain a genuine cycle |
| SlotGates.StepConserves | src/deepseek_multi_agent_plugin/runtime/executor.py:70-97 | every step conserves slots, and none releases into a full gate |
| SlotGates.SlotsConserved | src/deepseek_multi_agent_plugin/runtime/executor.py:64-97 | over all interleavings free and held slots add up to the maximum |
| SlotGates.SlotGrantedIff | src/deepseek_multi_agent_plugin/runtime/executor.py:70-75 | a new submission gets a slot exactly while fewer than the maximum are taken |
| SlotGates.NoSlotLeaks | src/deepseek_multi_agent_plugin/runtime/executor.py:83-94 | once every submission is over all slots are free, each released exactly once |
| SlotGates.NeverOverReleased | src/deepseek_multi_agent_plugin/runtime/executor.py:68-93 | a slot is only given back while one is out |
| SlotGates.BoundedExecutor.AcquireSlot | src/deepseek_multi_agent_plugin/runtime/executor.py:70-75 | refused exactly when no slot is free |
| SlotGates.BoundedExecutor.DispatchTo | src/deepseek_multi_agent_plugin/runtime/executor.py:83-87 | a failed dispatch gives the slot back |
| SlotGates.BoundedExecutor.AddCallback | src/deepseek_multi_agent_plugin/runtime/executor.py:88-93 | a future cancelled before its callback was added is compensated at once |
| SlotGates.BoundedExecutor.CancelFuture | src/deepseek_multi_agent_plugin/runtime/executor.py:88-93 | only a queued future is cancelled, and its slot is released once |
| Budgets.BudgetManager.Reserve | src/deepseek_multi_agent_plugin/runtime/budget.py:44-57 | refused exactly when a limit is used up, in the order checked |
| Budgets.BudgetManager.Settle | src/deepseek_multi_agent_plugin/runtime/budget.py:59-72 | one call accounted, one reservation consumed |
| Budgets.GrantedIff | src/deepseek_multi_agent_plugin/runtime/budget.py:44-57 | on the history of calls: one more is granted exactly while the calls finished and in flight, the tokens and the cost are below their limits; a refusal names the first used up |
| Budgets.ReservationsMatch | src/deepseek_multi_agent_plugin/strategies.py:59-88 | with matched use the reservations are exactly the calls in flight |
| Budgets.CallsWithinLimit | src/deepseek_multi_agent_plugin/runtime/budget.py:44-72 | calls made and in flight never exceed the call limit |
| Budgets.SpendingWithinRound | src/deepseek_multi_agent_plugin/runtime/budget.py:44-72 | tokens and cost stay below the limit plus one round of calls in flight |
| RunHistories.SplitConcat | src/deepseek_multi_agent_plugin/history.py:77-82 | only the part before the first newline of a block can still change |
| RunHistories.SplitRoundTrip | src/deepseek_multi_agent_plugin/history.py:77 | splitting at newlines loses nothing and leaves none |
| RunHistories.RunHistory.ReadRecent | src/deepseek_multi_agent_plugin/history.py:54-96 | for every content, block size and limit, exactly the newest records of the whole file split into lines |
| RunHistories.RunHistory.ReadBlock | src/deepseek_multi_agent_plugin/history.py:73-85 | one block yields complete lines and keeps an incomplete first line |
| RunHistories.RunHistory.Gather | src/deepseek_multi_agent_plugin/history.py:86-95 | the lines of a block, last first, until the limit |
| RunHistories.AppendedIsNewest | src/deepseek_multi_agent_plugin/history.py:42-52 | an appended record is read back first, in front of all older ones |
| ResponseCaches.ResponseCache.Get | src/deepseek_multi_agent_plugin/cache.py:45-59 | miss, expiry or hit, with the counters and the order each implies |
| ResponseCaches.ResponseCache.Put | src/deepseek_multi_agent_plugin/cache.py:61-68 | the entry becomes the most recent; the eviction loop drops the least recent ones |
| ResponseCaches.EvictedKeepsRecent | src/deepseek_multi_agent_plugin/cache.py:66-68 | eviction keeps the most recent keys with their entries and counts what it drops |
| ResponseCaches.CountersBalance | src/deepseek_multi_agent_plugin/cache.py:45-72 | hits and misses are the reads; new keys are the entries left, evicted, expired or cleared |
| ResponseCaches.HitIsLastPutAndLive | src/deepseek_multi_agent_plugin/cache.py:45-59 | a hit returns the last put of its key, within its time to live |
| ResponseCaches.HoldsInUse | src/deepseek_multi_agent_plugin/cache.py:45-72 | with expiry and clearing the table lists exactly the keys in use, a reference on the history alone |
| ResponseCaches.HitsExactlyFresh | src/deepseek_multi_agent_plugin/cache.py:45-59 | a read returns a reply if and only if its key is in use and that is its last put since the last clear, within its time to live |
| ResponseCaches.PutIsReadBack | src/deepseek_multi_agent_plugin/cache.py:45-68 | a read within the time to live of a put hits with its reply as long as fewer than maxsize other keys were used in between |
| ResponseCaches.CountersMeanReads | src/deepseek_multi_agent_plugin/cache.py:45-59 | hits and expirations count the reads that found their key fresh or no longer fresh |
| ResponseCaches.HoldsMostRecent | src/deepseek_multi_agent_plugin/cache.py:23-68 | as long as no read comes too late, the cache holds exactly the most recently touched keys, in that order |
| ResponseCaches.NoTtlInTime | src/deepseek_multi_agent_plugin/cache.py:29-62 | without a time to live no read comes too late, so that holds for every history |
| ResponseCaches.HitsExactlyRecent | src/deepseek_multi_agent_plugin/cache.py:45-68 | a read then hits exactly the most recently touched keys whose time to live has not passed |
| MessageStores.MessageStore.Add | src/deepseek_multi_agent_plugin/memory.py:30-43 | the buffer is a function of everything added |
| MessageStores.MessageStore.Enforce | src/deepseek_multi_agent_plugin/memory.py:45-52 | the cut and the loop over the running total compute the specified bound |
| MessageStores.BufferIsBestSuffix | src/deepseek_multi_agent_plugin/memory.py:30-52 | the buffer is the longest suffix of everything added that fits both bounds, or the newest message alone |
| MessageStores.BufferIffBestSuffix | src/deepseek_multi_agent_plugin/memory.py:30-52 | that suffix is unique, so it alone characterises the buffer |
| MessageStores.NewestKeptIff | src/deepseek_multi_agent_plugin/memory.py:17-22 | the newest message is always kept exactly when the capacity is not negative |
| MessageStores.MessageStore.RecentMessages | src/deepseek_multi_agent_plugin/memory.py:63-65 | the last n messages; all for zero; all but the first -n for negative n |

## Left out

- HTTP, MCP and CLI adapters, provider calls, retry sleeping, configuration, credentials and access checks: plumbing.
- JSON plan parsing and the line parsers of both planners; the model starts from parsed task lists.
- Locks, JavaScript microtasks and thread scheduling: each locked method and each synchronous stretch between awaits is one atomic step.
- The scheduler's guard against running twice at once and the removal of its abort listener (`scheduler.ts:73-75`, `scheduler.ts:215-218`).
- An abort raised synchronously inside the launch loop by an executor: the abort event falls between passes here.
- Text, duration and raw payload of outcomes, and metadata: carried along unchanged by the source. What a task's time limit does while the task runs is part of its outcome.
- Prompt builders of sequential steps (`sequential.ts:28-31`): what a step ends with is a function of its position, so every choice of prompts is covered; the text itself is not modelled.
- Task objects: a status lives in the graph's table rather than in a shared object, so aliasing of one task between two graphs is not captured.
- Execution by the broadcast and relay strategies; their plan mappings are modelled.
- The supervisor's lifecycle table, and its input checks other than those of sequential steps; a supervisor attempt is an arbitrary result or error, and for sequential plans the chain run of `Sequentials`.
- Plan ids, observers, timestamps, failure messages and the unused execution context of the recovery loop.
- The numeric precision of step numbers beyond 2^53 in `recovery/manager.ts:61-62`.
- Python callbacks that raise from `on_event`, interrupts, and cancellation tokens; only their effect on the result tables is kept.
- A task result handed through unchanged under another task's id (`runtime/scheduler.py:395-396`): the model requires its own id and a terminal status.
- Wall-clock arithmetic, rounding and float comparison tolerances; costs are integers.
- Alphabetical tie-breaking and hash order in the Python dependency sort: the model allows any order among ready tasks.
- Reading the line count of an existing history file (`history.py:34-40`) and the JSON encoding and decoding of records: both are parameters.
- Request fingerprints and cache statistics formatting; a cache clock reading is an argument of each call.
- Metrics, diagnostics, session management and strategy envelope counters.
- RuntimeSchedulers.TaskScheduler.Step: the clock is read once for launching and once for waiting and expiry in a turn, where the code reads it again.
- RunHistories.RunHistory.Append: takes the encoded record, so that the timestamp is not modelled.

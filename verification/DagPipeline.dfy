/**
 * The direct DAG path: validate and repair, route, build the strict graph, run the scheduler.
 * Each layer accepts what the previous layers leave.
 */
module DagPipelines {
  import opened Collections
  import opened Graphs
  import opened TaskGraphs
  import opened Plans
  import opened PlanRepairs
  import opened PlanValidators
  import opened AgentRouters
  import opened TopologicalOrders
  import opened SchedulerConfluence
  import opened SchedulerReasons
  import opened SchedulerProgress
  import opened SchedulerStall
  import opened GraphBuilders
  import opened Schedulers

  // ----- layer agreement

  ghost predicate RepeatsNoDependency(plan: seq<PlanTask>) {
    forall i :: 0 <= i < |plan| ==> Distinct(Declared(plan[i].dependsOn))
  }

  ghost predicate SetsSoundTimeouts(plan: seq<PlanTask>) {
    forall i :: 0 <= i < |plan| ==> SoundTimeout(plan[i].timeoutMs)
  }

  ghost predicate NamesEveryAgent(tasks: seq<RoutedTask>) {
    forall t :: t in tasks ==> t.agentId != NO_ID
  }

  /** A valid plan stays orderable after routing, so both the sort and the graph's own validation succeed. */
  lemma RoutedPlanIsOrderable(plan: seq<PlanTask>, routed: seq<RoutedTask>)
    requires IsValidPlan(plan) && RoutesTo(plan, routed)
    ensures TopologicalOrder(routed).Some? && IsDag(GraphOf(routed).deps)
  {
    RoutedKeepsTable(plan, routed);
    OrderExistsIff(routed);
  }

  /**
   * The strict graph takes a routed valid plan exactly when no task repeats a dependency, has an
   * invalid time limit or got an empty agent id: three things that plan validation lets through.
   */
  lemma RoutedPlanIsAddable(plan: seq<PlanTask>, routed: seq<RoutedTask>)
    requires IsValidPlan(plan) && RoutesTo(plan, routed)
    ensures Addable(routed) <==> RepeatsNoDependency(plan) && SetsSoundTimeouts(plan) && NamesEveryAgent(routed)
  {
    hide IsValidPlan, CheckSpec, SoundTimeout, Distinct;
    RoutedKeepsTable(plan, routed);
    ValidIsDistinct(plan);
    forall i | 0 <= i < |plan|
      ensures CheckSpec(SpecOf(routed[i])).None? <==>
          routed[i].agentId != NO_ID && SoundTimeout(plan[i].timeoutMs) && Distinct(Declared(plan[i].dependsOn))
    {
      RoutedTaskIsAddable(plan, routed, i);
    }
    assert forall t :: t in routed ==> exists i :: 0 <= i < |routed| && routed[i] == t;
    assert forall i :: 0 <= i < |routed| ==> routed[i] in routed;
  }

  lemma RoutedTaskIsAddable(plan: seq<PlanTask>, routed: seq<RoutedTask>, i: nat)
    requires IsValidPlan(plan) && RoutesTo(plan, routed) && i < |plan|
    ensures CheckSpec(SpecOf(routed[i])).None? <==>
        routed[i].agentId != NO_ID && SoundTimeout(plan[i].timeoutMs) && Distinct(Declared(plan[i].dependsOn))
  {
    hide IsDag, Distinct;
    assert plan[i] in plan;
    ValidDependenciesNamed(plan, i);
  }

  lemma ValidDependenciesNamed(plan: seq<PlanTask>, i: nat)
    requires IsValidPlan(plan) && i < |plan|
    ensures NO_ID !in Declared(plan[i].dependsOn)
  {
    KnownIsFine(plan, i);
    assert forall k :: 0 <= k < |plan| ==> plan[k] in plan;
  }

  // ----- the whole path

  datatype DagResult =
    | PlanRejected(issues: seq<Issue>)
    | NoAgents
    | TaskRejected(error: GraphError)
    | Ran(tasks: seq<RoutedTask>, run: RunResult)

  /** A report in task order whose statuses are the recursive specification of the plan's own table. */
  ghost predicate ReportsPlan(plan: seq<PlanTask>, f: Id -> TaskOutcome, results: seq<(Id, TaskOutcome)>) {
    && IsDag(PlanTable(plan))
    && |results| == |plan|
    && forall i :: 0 <= i < |plan| ==>
         && plan[i].id in PlanTable(plan)
         && results[i].0 == plan[i].id
         && results[i].1.status == Final(PlanTable(plan), f, plan[i].id)
  }

  /**
   * Plan to report. A valid plan over a non-empty pool reaches the scheduler exactly when the graph
   * takes its tasks as routed, and is never rejected there. An unstopped report depends on nothing
   * but the plan's dependencies and the task outcomes: not on agents, capabilities, repairs,
   * routing, concurrency or timing.
   */
  method PlanAndRunDag(agents: seq<Agent>, plan: seq<PlanTask>, concurrency: Option<int>, signal: Signal,
      f: Id -> TaskOutcome) returns (result: DagResult)
    requires forall t :: IsTerminal(f(t).status)
    ensures result.PlanRejected? <==> !IsValidPlan(plan)
    ensures result.NoAgents? <==> IsValidPlan(plan) && agents == []
    ensures result.TaskRejected? <==>
        IsValidPlan(plan) && agents != [] &&
        !(RepeatsNoDependency(plan) && SetsSoundTimeouts(plan) && NamesEveryAgent(RoutedBy(agents, plan, 0)))
    ensures result.Ran? ==> agents != [] && result.tasks == RoutedBy(agents, plan, 0)
    ensures result.Ran? ==> !result.run.InvalidGraph? && !result.run.GraphAlreadyUsed?
    ensures result.Ran? ==> (result.run.InvalidConcurrency? <==> concurrency.Some? && concurrency.value < 1)
    ensures result.Ran? && AlreadyOrdered(result.tasks) ==> !result.run.StalledOn?
    ensures result.Ran? && result.run.Report? && !result.run.stopped ==> ReportsPlan(plan, f, result.run.results)
    ensures result.Ran? && result.run.Report? && signal.Silent? ==> !result.run.stopped
    ensures result.Ran? && result.run.Report? && signal.FiredBefore? ==> result.run.stopped
  {
    hide IsDag, Distinct, HasError, RightfulUpTo, ReportsPlan, AlreadyOrdered, RepeatsNoDependency, RoutesTo,
        IsValidPlan, SetsSoundTimeouts, NamesEveryAgent, RoutedBy, Applied, SameShape, RepairedTask;
    var validated := ValidateAndRepair(agents, plan);
    if validated.Rejected? {
      return PlanRejected(validated.issues);
    }
    var router := CreateRouter(agents);
    if router.None? {
      return NoAgents;
    }
    var routed := router.value.Route(validated.tasks);
    RepairKeepsRouting(agents, plan, validated.tasks, 0);
    result := RunRouted(plan, routed.tasks, concurrency, signal, f);
  }

  /** Builds the graph of a routed valid plan and runs it. */
  method RunRouted(ghost plan: seq<PlanTask>, tasks: seq<RoutedTask>, concurrency: Option<int>, signal: Signal,
      f: Id -> TaskOutcome) returns (result: DagResult)
    requires IsValidPlan(plan) && RoutesTo(plan, tasks) && forall t :: IsTerminal(f(t).status)
    ensures result.TaskRejected? || result.Ran?
    ensures result.TaskRejected? <==>
        !(RepeatsNoDependency(plan) && SetsSoundTimeouts(plan) && NamesEveryAgent(tasks))
    ensures result.Ran? ==> !result.run.InvalidGraph? && !result.run.GraphAlreadyUsed?
    ensures result.Ran? ==> result.tasks == tasks && (result.run.InvalidConcurrency? <==>
        concurrency.Some? && concurrency.value < 1)
    ensures result.Ran? && AlreadyOrdered(tasks) ==> !result.run.StalledOn?
    ensures result.Ran? && result.run.Report? && !result.run.stopped ==> ReportsPlan(plan, f, result.run.results)
    ensures result.Ran? && result.run.Report? && signal.Silent? ==> !result.run.stopped
    ensures result.Ran? && result.run.Report? && signal.FiredBefore? ==> result.run.stopped
  {
    hide IsDag, Distinct, Addable, SweepComplete, ReportsPlan, AlreadyOrdered, WellFormed, Reports, StallsOn,
        NeverStalls, RepeatsNoDependency, SetsSoundTimeouts, NamesEveryAgent, RoutesTo, IsValidPlan;
    RoutedPlanIsAddable(plan, tasks);
    RoutedPlanIsOrderable(plan, tasks);
    var graph, error := BuildGraph(tasks);
    if error.Some? {
      return TaskRejected(error.value);
    }
    var run := RunGraph(graph, concurrency, signal, f);
    result := Ran(tasks, run);
    if AlreadyOrdered(tasks) {
      AddableIsDistinct(tasks);
      OrderedGraphNeverStalls(tasks);
      StallMeansIncomplete(GraphOf(tasks), graph.status, run);
    }
    if run.Report? && !run.stopped {
      ReportFollowsPlan(plan, tasks, f, run, graph.status);
    }
  }

  lemma ReportFollowsPlan(plan: seq<PlanTask>, routed: seq<RoutedTask>, f: Id -> TaskOutcome, run: RunResult,
      status: map<Id, Status>)
    requires RoutesTo(plan, routed) && run.Report? && !run.stopped && Reports(GraphOf(routed), f, status, run)
    ensures ReportsPlan(plan, f, run.results)
  {
    hide IsDag, Distinct, OutcomeFits;
    RoutedKeepsTable(plan, routed);
    forall i | 0 <= i < |plan|
      ensures plan[i].id in PlanTable(plan) && run.results[i].0 == plan[i].id
      ensures run.results[i].1.status == Final(PlanTable(plan), f, plan[i].id)
    {
      assert Ids(routed)[i] == plan[i].id;
    }
  }

  // ----- a valid plan can still stall

  /** Three tasks listed dependents-first, all for one agent. */
  function ReversedPlan(a: Id, b: Id, c: Id, prompt: Prompt): seq<PlanTask> {
    [PlanTask(c, prompt, None, None, Some([b]), None),
     PlanTask(b, prompt, None, None, Some([a]), None),
     PlanTask(a, prompt, None, None, None, None)]
  }

  /**
   * Acceptance by every layer does not rule out the stall error: this plan is valid, routable and
   * addable, yet some run of its graph stalls.
   */
  lemma ValidPlanCanStall(a: Id, b: Id, c: Id, agent: Id, prompt: Prompt, routed: seq<RoutedTask>)
    requires a != b && a != c && b != c && NO_ID !in [a, b, c] && agent != NO_ID && prompt != NO_PROMPT
    requires RoutesTo(ReversedPlan(a, b, c, prompt), routed) && forall t :: t in routed ==> t.agentId == agent
    ensures IsValidPlan(ReversedPlan(a, b, c, prompt)) && Addable(routed)
    ensures WellFormed(GraphOf(routed)) && !NeverStalls(GraphOf(routed))
  {
    hide NeverStalls, Addable, CheckSpec, IsDag;
    var plan := ReversedPlan(a, b, c, prompt);
    ReversedGraph(a, b, c, agent, prompt, routed);
    ReversedChainStalls(a, b, c, agent);
    RoutedKeepsTable(plan, routed);
    RoutedPlanIsAddable(plan, routed);
  }

  lemma ReversedGraph(a: Id, b: Id, c: Id, agent: Id, prompt: Prompt, routed: seq<RoutedTask>)
    requires a != b && a != c && b != c
    requires RoutesTo(ReversedPlan(a, b, c, prompt), routed) && forall t :: t in routed ==> t.agentId == agent
    ensures GraphOf(routed) == ReversedChain(a, b, c, agent)
  {
    hide GraphOf;
    assert routed[0] in routed && routed[1] in routed && routed[2] in routed;
    assert routed[..0] == [] && routed[..3] == routed;
    NoTasksNoGraph();
    GraphStep(routed, 0);
    GraphStep(routed, 1);
    GraphStep(routed, 2);
    assert GraphOf(routed).ids == [c, b, a];
    assert GraphOf(routed).agents == map[a := agent, b := agent, c := agent];
    assert GraphOf(routed).deps == map[a := [], b := [a], c := [b]];
  }

  lemma NoTasksNoGraph()
    ensures GraphOf([]) == Graph([], map[], map[])
  {
  }
}

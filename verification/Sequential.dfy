/** The sequential strategy: one chain of steps through the scheduler, and what each step ends with. */
module Sequentials {
  import opened Collections
  import opened Graphs
  import opened TaskGraphs
  import opened Plans
  import opened TopologicalOrders
  import opened StepNames
  import opened GraphBuilders
  import opened SchedulerConfluence
  import opened SchedulerReasons
  import opened SchedulerProgress
  import opened SchedulerStall
  import opened Schedulers

  function StepId(i: nat): Id {
    StepName(SeqStep, i)
  }

  function StepDependencies(i: nat): seq<Id> {
    if i == 0 then [] else [StepId(i - 1)]
  }

  datatype SequentialStep = SequentialStep(agentId: Id, prompt: Prompt, timeoutMs: Option<Duration>)

  /** What the task constructor asks of a step. */
  predicate SoundStep(step: SequentialStep) {
    step.agentId != NO_ID && SoundTimeout(step.timeoutMs)
  }

  /** The task the strategy adds for step `i`. */
  function StepTask(step: SequentialStep, i: nat): RoutedTask {
    RoutedTask(StepId(i), step.prompt, step.agentId, Some(StepDependencies(i)), step.timeoutMs)
  }

  function ChainTasks(steps: seq<SequentialStep>): (tasks: seq<RoutedTask>)
    ensures |tasks| == |steps| && forall i :: 0 <= i < |steps| ==> tasks[i] == StepTask(steps[i], i)
  {
    seq(|steps|, i requires 0 <= i < |steps| => StepTask(steps[i], i))
  }

  /** What step `i` ends with when step `j`, once executed, ends with `run(j)`. */
  function ChainOutcome(run: nat -> TaskOutcome, i: nat): TaskOutcome {
    if i == 0 then run(0)
    else
      var previous := ChainOutcome(run, i - 1);
      if previous.status == Completed then run(i)
      else Outcome(Cancelled, DependencyError(StepId(i - 1), previous.status))
  }

  // ----- the chain as a graph

  lemma ChainIsOrdered(steps: seq<SequentialStep>)
    ensures AlreadyOrdered(ChainTasks(steps))
  {
    hide StepName;
    var tasks := ChainTasks(steps);
    forall i, j | 0 <= i < j < |tasks|
      ensures Ids(tasks)[i] != Ids(tasks)[j]
    {
      if StepId(i) == StepId(j) {
        StepNameInjective(SeqStep, i, j);
      }
    }
    forall i, d | 0 <= i < |tasks| && d in Declared(tasks[i].dependsOn)
      ensures d in Ids(tasks[..i])
    {
      assert Ids(tasks[..i])[i - 1] == StepId(i - 1);
    }
  }

  lemma ChainIsDag(steps: seq<SequentialStep>)
    ensures var tasks := ChainTasks(steps); IsDag(DependencyTable(tasks)) && Distinct(Ids(tasks))
  {
    var tasks := ChainTasks(steps);
    ChainIsOrdered(steps);
    OrderedIsFixed(tasks);
    OrderExistsIff(tasks);
  }

  lemma ChainIsDistinct(steps: seq<SequentialStep>)
    ensures Distinct(Ids(ChainTasks(steps)))
  {
    hide IsDag;
    ChainIsDag(steps);
  }

  lemma ChainIsAddable(steps: seq<SequentialStep>)
    ensures Addable(ChainTasks(steps)) <==> forall step :: step in steps ==> SoundStep(step)
  {
    hide CheckSpec, StepTask, Distinct, SoundStep;
    var tasks := ChainTasks(steps);
    ChainIsDistinct(steps);
    forall i | 0 <= i < |tasks|
      ensures CheckSpec(SpecOf(tasks[i])).None? <==> SoundStep(steps[i])
    {
      StepIsAddable(i, steps[i]);
      assert steps[i] in steps;
    }
    assert forall step :: step in steps ==> exists i :: 0 <= i < |steps| && steps[i] == step;
  }

  lemma StepIsAddable(i: nat, step: SequentialStep)
    ensures CheckSpec(SpecOf(StepTask(step, i))).None? <==> SoundStep(step)
  {
    hide StepId;
    StepIdNamed(i);
    if i > 0 {
      StepIdNamed(i - 1);
    }
  }

  lemma StepIdNamed(i: nat)
    ensures StepId(i) != NO_ID
  {
    assert |StepId(i).name| > 0;
  }

  /** The first `n` steps are chained in `deps`. */
  ghost predicate HoldsChain(deps: map<Id, seq<Id>>, n: nat) {
    forall i :: 0 <= i < n ==> StepId(i) in deps && deps[StepId(i)] == StepDependencies(i)
  }

  lemma ChainTable(steps: seq<SequentialStep>)
    ensures HoldsChain(DependencyTable(ChainTasks(steps)), |steps|)
  {
    hide IsDag, StepId, Distinct, DependencyTable;
    var tasks := ChainTasks(steps);
    ChainIsDag(steps);
    forall i | 0 <= i < |tasks|
      ensures StepId(i) in DependencyTable(tasks) && DependencyTable(tasks)[StepId(i)] == StepDependencies(i)
    {
      OwnEntry(tasks, tasks[i]);
    }
  }

  // ----- running the chain

  /** The executor the strategy passes on: it recovers the step from the task id. */
  function ByStep(run: nat -> TaskOutcome): Id -> TaskOutcome {
    (t: Id) => run(if StepIndex(t).Some? then StepIndex(t).value else 0)
  }

  lemma ByStepRuns(run: nat -> TaskOutcome, i: nat)
    ensures ByStep(run)(StepId(i)) == run(i)
  {
    StepNameRoundTrip(SeqStep, i);
  }

  /** The scheduler's recursive specification, read along the chain. */
  lemma {:induction false} ChainFinal(deps: map<Id, seq<Id>>, n: nat, run: nat -> TaskOutcome, i: nat)
    requires IsDag(deps) && HoldsChain(deps, n) && i < n && StepId(i) in deps
    ensures Final(deps, ByStep(run), StepId(i)) == ChainOutcome(run, i).status
  {
    hide IsDag, ByStep, StepId, Final;
    ByStepRuns(run, i);
    if i == 0 {
      FinalOfRoot(deps, ByStep(run), StepId(i));
    } else {
      ChainFinal(deps, n, run, i - 1);
      FinalOfLink(deps, ByStep(run), StepId(i), StepId(i - 1));
    }
  }

  /** Every reported outcome of an unstopped chain is the chain's own. */
  lemma ChainReport(deps: map<Id, seq<Id>>, n: nat, run: nat -> TaskOutcome, status: map<Id, Status>, i: nat,
      o: TaskOutcome)
    requires IsDag(deps) && HoldsChain(deps, n) && i < n && StepId(i) in deps
    requires forall t :: t in deps ==> t in status && status[t] == Final(deps, ByStep(run), t)
    requires OutcomeFits(deps, ByStep(run), status, StepId(i), o)
    ensures o == ChainOutcome(run, i)
  {
    hide IsDag, ByStep, StepId, Final;
    ByStepRuns(run, i);
    if i > 0 {
      ChainFinal(deps, n, run, i - 1);
      assert deps[StepId(i)][0] in deps[StepId(i)];
      assert forall d :: d in deps[StepId(i)] ==> d == StepId(i - 1);
    }
  }

  datatype SequentialResult =
    | InvalidStep(error: GraphError)
    | InvalidLimit
    | SequentialReport(steps: seq<TaskOutcome>, stopped: bool, ok: bool)

  /**
   * Runs the steps as a chain. It never stalls; unless stopped, every step ends as the chain
   * determines, whatever the concurrency and the agents.
   */
  method RunSequential(steps: seq<SequentialStep>, concurrency: Option<int>, signal: Signal, run: nat -> TaskOutcome)
    returns (result: SequentialResult)
    requires forall j: nat :: IsTerminal(run(j).status)
    ensures result.InvalidStep? <==> exists step :: step in steps && !SoundStep(step)
    ensures result.InvalidLimit? <==>
        (forall step :: step in steps ==> SoundStep(step)) && steps != [] && concurrency.Some? && concurrency.value < 1
    ensures result.SequentialReport? ==> |result.steps| == |steps|
    ensures result.SequentialReport? && signal.Silent? ==> !result.stopped
    ensures result.SequentialReport? && signal.FiredBefore? && steps != [] ==> result.stopped
    ensures result.SequentialReport? && !result.stopped ==>
              forall i :: 0 <= i < |steps| ==> result.steps[i] == ChainOutcome(run, i)
    ensures result.SequentialReport? ==>
              forall i :: 0 <= i < |steps| ==>
                result.steps[i].status == ChainOutcome(run, i).status
                    || (result.stopped && result.steps[i].status == Cancelled)
    ensures result.SequentialReport? ==>
              (result.ok <==> !result.stopped && forall i :: 0 <= i < |steps| ==>
                  ChainOutcome(run, i).status == Completed)
  {
    hide IsDag, Distinct, Addable, ChainTasks, Reports, StallsOn, SweepComplete, NeverStalls, ByStep, ChainOutcome,
        GraphOf, WellFormed;
    if steps == [] {
      return SequentialReport([], false, true);
    }
    var tasks := ChainTasks(steps);
    ChainIsAddable(steps);
    ChainIsDag(steps);
    ChainIsOrdered(steps);
    var graph, error := BuildGraph(tasks);
    if error.Some? {
      return InvalidStep(error.value);
    }
    AddableIsDistinct(tasks);
    OrderedGraphNeverStalls(tasks);
    ByStepTerminal(run);
    var report := RunGraph(graph, concurrency, signal, ByStep(run));
    if report.InvalidConcurrency? {
      return InvalidLimit;
    }
    GraphDependencies(tasks);
    StallMeansIncomplete(graph.Shape(), graph.status, report);
    result := Summarise(steps, run, graph.Shape(), graph.status, report);
  }

  lemma GraphDependencies(tasks: seq<RoutedTask>)
    ensures GraphOf(tasks).deps == DependencyTable(tasks)
  {
  }

  /**
   * The report of the strategy. A step that the stop cancelled while it ran may still have recorded
   * its own result before the report is made; then that result is reported.
   */
  method Summarise(steps: seq<SequentialStep>, run: nat -> TaskOutcome, ghost g: Graph,
                   ghost status: map<Id, Status>, report: RunResult) returns (result: SequentialResult)
    requires g == GraphOf(ChainTasks(steps)) && forall j: nat :: IsTerminal(run(j).status)
    requires report.Report? && Reports(g, ByStep(run), status, report)
    ensures result.SequentialReport? && |result.steps| == |steps| && result.stopped == report.stopped
    ensures !result.stopped ==> forall i :: 0 <= i < |steps| ==> result.steps[i] == ChainOutcome(run, i)
    ensures forall i :: 0 <= i < |steps| ==>
              result.steps[i].status == ChainOutcome(run, i).status
                  || (result.stopped && result.steps[i].status == Cancelled)
    ensures result.ok <==> !result.stopped && forall i :: 0 <= i < |steps| ==>
        ChainOutcome(run, i).status == Completed
  {
    hide Reports, ByStep, GraphOf, ChainTasks, ChainOutcome;
    ReportSize(steps, run, g, status, report);
    ChainStatuses(steps, run, g, status, report);
    var results: seq<TaskOutcome> := [];
    for i := 0 to |report.results|
      invariant |results| == i
      invariant !report.stopped ==> forall j :: 0 <= j < i ==> results[j] == report.results[j].1
      invariant forall j :: 0 <= j < i ==>
          results[j].status == ChainOutcome(run, j).status || (report.stopped && results[j].status == Cancelled)
    {
      var outcome := report.results[i].1;
      var late: bool := *;
      if report.stopped && late && outcome.status == Cancelled
          && (i == 0 || report.results[i - 1].1.status == Completed) {
        outcome := run(i);
        ReachedStep(run, i);
      }
      results := results + [outcome];
    }
    if !report.stopped {
      ChainResults(steps, run, g, status, report, results);
    }
    var allCompleted := forall i :: 0 <= i < |results| ==> results[i].status == Completed;
    return SequentialReport(results, report.stopped, !report.stopped && allCompleted);
  }

  lemma ReachedStep(run: nat -> TaskOutcome, i: nat)
    requires i > 0 ==> ChainOutcome(run, i - 1).status == Completed
    ensures ChainOutcome(run, i) == run(i)
  {
  }

  lemma ReportSize(steps: seq<SequentialStep>, run: nat -> TaskOutcome, g: Graph, status: map<Id, Status>,
      report: RunResult)
    requires g == GraphOf(ChainTasks(steps)) && report.Report? && Reports(g, ByStep(run), status, report)
    ensures |report.results| == |steps|
  {
    hide OutcomeFits, IsDag, Final;
  }

  /** Stopped or not, a step ends with its chain status, or was cancelled by the stop. */
  lemma ChainStatuses(steps: seq<SequentialStep>, run: nat -> TaskOutcome, g: Graph, status: map<Id, Status>,
      report: RunResult)
    requires g == GraphOf(ChainTasks(steps)) && report.Report? && Reports(g, ByStep(run), status, report)
    ensures forall i :: 0 <= i < |steps| ==>
              i < |report.results| && (report.results[i].1.status == ChainOutcome(run, i).status
                                       || (report.stopped && report.results[i].1.status == Cancelled))
  {
    hide IsDag, Distinct, OutcomeFits, Final, ByStep, StepId, DependencyTable, ChainOutcome;
    var tasks := ChainTasks(steps);
    ChainTable(steps);
    forall i | 0 <= i < |steps|
      ensures report.results[i].1.status == ChainOutcome(run, i).status
          || (report.stopped && report.results[i].1.status == Cancelled)
    {
      assert g.ids[i] == StepId(i);
      ChainFinal(DependencyTable(tasks), |steps|, run, i);
    }
  }

  lemma ByStepTerminal(run: nat -> TaskOutcome)
    requires forall j: nat :: IsTerminal(run(j).status)
    ensures forall t :: IsTerminal(ByStep(run)(t).status)
  {
  }

  lemma ChainResults(steps: seq<SequentialStep>, run: nat -> TaskOutcome, g: Graph, status: map<Id, Status>,
                     report: RunResult, results: seq<TaskOutcome>)
    requires g == GraphOf(ChainTasks(steps)) && forall j: nat :: IsTerminal(run(j).status)
    requires report.Report? && !report.stopped && Reports(g, ByStep(run), status, report)
    requires |results| == |report.results| && forall i :: 0 <= i < |results| ==> results[i] == report.results[i].1
    ensures |results| == |steps| && forall i :: 0 <= i < |steps| ==> results[i] == ChainOutcome(run, i)
  {
    hide IsDag, Distinct, OutcomeFits, Final, ByStep, StepId, DependencyTable;
    var tasks := ChainTasks(steps);
    ChainTable(steps);
    forall i | 0 <= i < |steps|
      ensures results[i] == ChainOutcome(run, i)
    {
      assert g.ids[i] == StepId(i);
      ChainReport(DependencyTable(tasks), |steps|, run, status, i, report.results[i].1);
    }
  }

  // ----- where a chain breaks

  /** Step `k` is the first that does not complete. */
  predicate BreaksAt(run: nat -> TaskOutcome, k: nat) {
    run(k).status != Completed && forall i :: 0 <= i < k ==> run(i).status == Completed
  }

  /** Up to the break every step keeps its own outcome; after it every step is cancelled for its predecessor. */
  lemma {:induction false} ChainShape(run: nat -> TaskOutcome, k: nat, i: nat)
    requires BreaksAt(run, k)
    ensures i <= k ==> ChainOutcome(run, i) == run(i)
    ensures i > k ==> ChainOutcome(run, i) == Outcome(Cancelled,
        DependencyError(StepId(i - 1), ChainOutcome(run, i - 1).status))
    ensures i > k ==> ChainOutcome(run, i - 1).status != Completed
  {
    if i > 0 {
      ChainShape(run, k, i - 1);
    }
  }

  /** The whole chain completes exactly when every step would. */
  lemma {:induction false} ChainCompletes(run: nat -> TaskOutcome, n: nat)
    ensures (forall i :: 0 <= i < n ==> ChainOutcome(run, i).status == Completed) <==>
              forall i :: 0 <= i < n ==> run(i).status == Completed
  {
    if n > 0 {
      ChainCompletes(run, n - 1);
      if forall i :: 0 <= i < n - 1 ==> run(i).status == Completed {
        ChainPrefixCompletes(run, n - 1);
      }
    }
  }

  lemma {:induction false} ChainPrefixCompletes(run: nat -> TaskOutcome, n: nat)
    requires forall i :: 0 <= i < n ==> run(i).status == Completed
    ensures ChainOutcome(run, n) == run(n)
  {
    if n > 0 {
      ChainPrefixCompletes(run, n - 1);
    }
  }
}

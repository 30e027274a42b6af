/** The plan validator: judges a plan, and on request hands its repairable findings to the repair layer. */
module PlanValidators {
  import opened Collections
  import opened Graphs
  import opened TaskGraphs
  import opened Plans
  import opened PlanRepairs
  import CycleSearch

  const NO_PROMPT: Prompt := Prompt("")

  /** What validation promises: everything it calls a hard error is absent. */
  ghost predicate IsValidPlan(tasks: seq<PlanTask>) {
    && tasks != []
    && (forall t :: t in tasks ==> t.id != NO_ID && t.prompt != NO_PROMPT)
    && Distinct(PlanIds(tasks))
    && IsDag(PlanTable(tasks))
  }

  // ----- findings that do not reject a plan

  predicate KnowsAgent(agents: seq<Agent>, id: Id) {
    exists i :: 0 <= i < |agents| && agents[i].id == id
  }

  predicate Covers(agent: Agent, caps: seq<Capability>) {
    forall c :: c in caps ==> c in agent.capabilities
  }

  predicate SomeAgentCovers(agents: seq<Agent>, caps: seq<Capability>) {
    exists i :: 0 <= i < |agents| && Covers(agents[i], caps)
  }

  predicate NamesUnknownAgent(agents: seq<Agent>, task: PlanTask) {
    task.agentId.Some? && !KnowsAgent(agents, task.agentId.value)
  }

  predicate NeedsUnsupported(agents: seq<Agent>, task: PlanTask) {
    && task.requiredCapabilities.Some? && |task.requiredCapabilities.value| > 0
    && !SomeAgentCovers(agents, task.requiredCapabilities.value)
  }

  function TaskWarnings(agents: seq<Agent>, task: PlanTask): seq<Issue> {
    (if NamesUnknownAgent(agents, task) then [Issue(Warning, UnknownAgent, Some(task.id))] else [])
    + (if NeedsUnsupported(agents, task) then [Issue(Warning, UnsupportedCapability, Some(task.id))] else [])
  }

  /** The warnings of a plan, in task order. */
  function Warnings(agents: seq<Agent>, tasks: seq<PlanTask>): seq<Issue> {
    if tasks == [] then []
    else Warnings(agents, tasks[..|tasks| - 1]) + TaskWarnings(agents, tasks[|tasks| - 1])
  }

  // ----- hard errors, task by task

  predicate DependenciesFine(task: PlanTask, ids: seq<Id>) {
    forall d :: d in Declared(task.dependsOn) ==> d != task.id && d in ids
  }

  /** The task raises no hard error when it is visited after the tasks before it. */
  predicate TaskFine(tasks: seq<PlanTask>, i: nat)
    requires i < |tasks|
  {
    && tasks[i].id != NO_ID
    && tasks[i].id !in PlanIds(tasks)[..i]
    && tasks[i].prompt != NO_PROMPT
    && DependenciesFine(tasks[i], PlanIds(tasks))
  }

  lemma PlanTableEntry(tasks: seq<PlanTask>, i: nat)
    requires Distinct(PlanIds(tasks)) && i < |tasks|
    ensures tasks[i].id in PlanTable(tasks) && PlanTable(tasks)[tasks[i].id] == Declared(tasks[i].dependsOn)
  {
    TableOfDistinct(PlanDeclarations(tasks), i);
  }

  lemma FineIsDistinct(tasks: seq<PlanTask>)
    requires forall i :: 0 <= i < |tasks| ==> TaskFine(tasks, i)
    ensures Distinct(PlanIds(tasks))
  {
    var ids := PlanIds(tasks);
    forall i, j | 0 <= i < j < |ids|
      ensures ids[i] != ids[j]
    {
      assert TaskFine(tasks, j);
      assert ids[..j][i] == ids[i];
    }
  }

  lemma FineIsKnown(tasks: seq<PlanTask>)
    requires Distinct(PlanIds(tasks)) && forall i :: 0 <= i < |tasks| ==> DependenciesFine(tasks[i], PlanIds(tasks))
    ensures DependenciesKnown(PlanTable(tasks))
  {
    forall u, d | u in PlanTable(tasks) && d in PlanTable(tasks)[u]
      ensures d in PlanTable(tasks) && d != u
    {
      var i :| 0 <= i < |tasks| && PlanIds(tasks)[i] == u;
      PlanTableEntry(tasks, i);
      assert DependenciesFine(tasks[i], PlanIds(tasks));
    }
  }

  lemma KnownIsFine(tasks: seq<PlanTask>, i: nat)
    requires Distinct(PlanIds(tasks)) && DependenciesKnown(PlanTable(tasks)) && i < |tasks|
    ensures DependenciesFine(tasks[i], PlanIds(tasks))
  {
    PlanTableEntry(tasks, i);
  }

  /** Visiting every task finds no hard error, and the graph has no proper cycle, exactly for valid plans. */
  lemma FineIffValid(tasks: seq<PlanTask>)
    requires tasks != []
    ensures IsValidPlan(tasks) <==>
              (forall i :: 0 <= i < |tasks| ==> TaskFine(tasks, i)) && Acyclic(ProperAdjacencyOf(PlanTable(tasks)))
  {
    var fine := forall i :: 0 <= i < |tasks| ==> TaskFine(tasks, i);
    if fine {
      FineIsDistinct(tasks);
      forall i | 0 <= i < |tasks|
        ensures DependenciesFine(tasks[i], PlanIds(tasks))
      {
        assert TaskFine(tasks, i);
      }
      FineIsKnown(tasks);
      NoSelfDependencyAcyclic(PlanTable(tasks));
      assert forall t :: t in tasks ==> exists i :: 0 <= i < |tasks| && tasks[i] == t && TaskFine(tasks, i);
    }
    if IsValidPlan(tasks) {
      NoSelfDependencyAcyclic(PlanTable(tasks));
      forall i | 0 <= i < |tasks|
        ensures TaskFine(tasks, i)
      {
        assert tasks[i] in tasks;
        KnownIsFine(tasks, i);
        DistinctFresh(PlanIds(tasks), i);
      }
    }
  }

  // ----- validation

  datatype Validation =
    | Rejected(issues: seq<Issue>)
    | Accepted(tasks: seq<PlanTask>, issues: seq<Issue>, repaired: bool)

  ghost predicate HasError(issues: seq<Issue>) {
    exists i :: 0 <= i < |issues| && issues[i].severity == Error
  }

  predicate KnownOthers(deps: seq<Id>, self: Id, idSet: set<Id>) {
    forall d :: d in deps ==> d != self && d in idSet
  }

  function DependencyFindings(task: PlanTask, deps: seq<Id>, idSet: set<Id>): seq<Issue> {
    if deps == [] then []
    else
      var last := deps[|deps| - 1];
      DependencyFindings(task, deps[..|deps| - 1], idSet)
      + (if last == task.id then [Issue(Error, IssueCode.SelfDependency, Some(task.id))]
         else if last !in idSet then [Issue(Error, UnknownDependency, Some(task.id))]
         else [])
  }

  /** What one task contributes, given the ids seen before it. The first structural defect hides the rest. */
  function TaskFindings(agents: seq<Agent>, task: PlanTask, seenIds: set<Id>, idSet: set<Id>): seq<Issue> {
    if task.id == NO_ID then [Issue(Error, EmptyTaskId, None)]
    else if task.id in seenIds then [Issue(Error, DuplicateTaskId, Some(task.id))]
    else if task.prompt == NO_PROMPT then [Issue(Error, MissingPrompt, Some(task.id))]
    else DependencyFindings(task, Declared(task.dependsOn), idSet) + TaskWarnings(agents, task)
  }

  function SeenBefore(tasks: seq<PlanTask>, n: nat): set<Id>
    requires n <= |tasks|
  {
    Elements(PlanIds(tasks)[..n]) - {NO_ID}
  }

  function FindingsUpTo(agents: seq<Agent>, tasks: seq<PlanTask>, n: nat): seq<Issue>
    requires n <= |tasks|
  {
    if n == 0 then []
    else FindingsUpTo(agents, tasks, n - 1) + TaskFindings(agents, tasks[n - 1], SeenBefore(tasks, n - 1),
        Elements(PlanIds(tasks)))
  }

  /** Every finding of a plan, in the order validation reports them. */
  ghost function Findings(agents: seq<Agent>, tasks: seq<PlanTask>): seq<Issue> {
    if tasks == [] then [Issue(Error, EmptyPlan, None)]
    else
      FindingsUpTo(agents, tasks, |tasks|)
      + (if Acyclic(ProperAdjacencyOf(PlanTable(tasks))) then [] else [Issue(Error, Cycle, None)])
  }

  lemma KnownOthersAppend(deps: seq<Id>, d: Id, self: Id, idSet: set<Id>)
    ensures KnownOthers(deps + [d], self, idSet) <==> KnownOthers(deps, self, idSet) && d != self && d in idSet
  {
    var longer := deps + [d];
    assert forall e :: e in deps ==> e in longer;
    assert d in longer;
  }

  /** Checks one task; ids seen before it decide duplication. */
  method CheckTask(agents: seq<Agent>, task: PlanTask, seenIds: set<Id>, idSet: set<Id>)
    returns (issues: seq<Issue>, seen: set<Id>, fine: bool)
    ensures fine <==>
              && task.id != NO_ID && task.id !in seenIds && task.prompt != NO_PROMPT
              && KnownOthers(Declared(task.dependsOn), task.id, idSet)
    ensures issues == TaskFindings(agents, task, seenIds, idSet)
    ensures fine ==> issues == TaskWarnings(agents, task)
    ensures !fine ==> HasError(issues)
    ensures seen == if task.id == NO_ID then seenIds else seenIds + {task.id}
  {
    issues, seen, fine := [], seenIds, true;
    if task.id == NO_ID {
      issues := [Issue(Error, EmptyTaskId, None)];
      assert issues[0].severity == Error;
      return issues, seen, false;
    }
    if task.id in seenIds {
      issues := [Issue(Error, DuplicateTaskId, Some(task.id))];
      assert issues[0].severity == Error;
      assert seenIds == seenIds + {task.id};
      return issues, seen, false;
    }
    seen := seenIds + {task.id};
    if task.prompt == NO_PROMPT {
      issues := [Issue(Error, MissingPrompt, Some(task.id))];
      assert issues[0].severity == Error;
      return issues, seen, false;
    }
    var deps := Declared(task.dependsOn);
    for j := 0 to |deps|
      invariant fine <==> KnownOthers(deps[..j], task.id, idSet)
      invariant issues == DependencyFindings(task, deps[..j], idSet)
      invariant fine ==> issues == []
      invariant !fine ==> HasError(issues)
    {
      assert deps[..j + 1][..j] == deps[..j];
      assert deps[..j + 1] == deps[..j] + [deps[j]];
      KnownOthersAppend(deps[..j], deps[j], task.id, idSet);
      ghost var before := issues;
      if deps[j] == task.id {
        issues := issues + [Issue(Error, IssueCode.SelfDependency, Some(task.id))];
        fine := false;
        assert issues[|before|].severity == Error;
      } else if deps[j] !in idSet {
        issues := issues + [Issue(Error, UnknownDependency, Some(task.id))];
        fine := false;
        assert issues[|before|].severity == Error;
      }
    }
    assert deps[..|deps|] == deps;
    ghost var errors := issues;
    if NamesUnknownAgent(agents, task) {
      issues := issues + [Issue(Warning, UnknownAgent, Some(task.id))];
    }
    if NeedsUnsupported(agents, task) {
      issues := issues + [Issue(Warning, UnsupportedCapability, Some(task.id))];
    }
    assert errors <= issues;
  }

  /** Accepts exactly the valid plans; an accepted plan comes back unchanged with its warnings in task order. */
  method Validate(agents: seq<Agent>, tasks: seq<PlanTask>) returns (result: Validation)
    ensures result.Accepted? <==> IsValidPlan(tasks)
    ensures result.Accepted? ==> result == Accepted(tasks, Warnings(agents, tasks), false)
    ensures result.Rejected? ==> HasError(result.issues)
    ensures result.issues == Findings(agents, tasks)
  {
    hide TaskFine, IsValidPlan, Acyclic;
    if tasks == [] {
      var issue := Issue(Error, EmptyPlan, None);
      assert [issue][0].severity == Error;
      EmptyIsInvalid();
      return Rejected([issue]);
    }
    var issues, anyError := CheckTasks(agents, tasks);
    var cycle := CycleSearch.FindCycle(PlanIds(tasks), PlanTable(tasks));
    FineIffValid(tasks);
    if cycle.Some? {
      AppendKeepsErrors(issues, [Issue(Error, Cycle, None)]);
      issues := issues + [Issue(Error, Cycle, None)];
      assert issues[|issues| - 1].severity == Error;
      anyError := true;
    } else {
      assert issues + [] == issues;
    }
    return if anyError then Rejected(issues) else Accepted(tasks, issues, false);
  }

  /** The task-by-task part of validation. */
  method CheckTasks(agents: seq<Agent>, tasks: seq<PlanTask>) returns (issues: seq<Issue>, anyError: bool)
    ensures issues == FindingsUpTo(agents, tasks, |tasks|)
    ensures !anyError <==> forall k :: 0 <= k < |tasks| ==> TaskFine(tasks, k)
    ensures !anyError ==> issues == Warnings(agents, tasks)
    ensures anyError ==> HasError(issues)
  {
    hide HasError, TaskFindings, TaskFine, KnownOthers;
    issues, anyError := [], false;
    var seenIds: set<Id>, idSet := {}, Elements(PlanIds(tasks));
    NothingSeen(tasks);
    for i := 0 to |tasks|
      invariant !anyError <==> forall k :: 0 <= k < i ==> TaskFine(tasks, k)
      invariant issues == FindingsUpTo(agents, tasks, i)
      invariant !anyError ==> issues == Warnings(agents, tasks[..i])
      invariant anyError ==> HasError(issues)
      invariant seenIds == SeenBefore(tasks, i)
    {
      var found, fine;
      found, seenIds, fine := CheckTask(agents, tasks[i], seenIds, idSet);
      TaskStep(tasks, i);
      assert tasks[..i + 1][..i] == tasks[..i];
      AppendKeepsErrors(issues, found);
      issues := issues + found;
      anyError := anyError || !fine;
    }
    assert tasks[..|tasks|] == tasks;
  }

  lemma EmptyIsInvalid()
    ensures !IsValidPlan([])
  {
  }

  lemma NothingSeen(tasks: seq<PlanTask>)
    ensures SeenBefore(tasks, 0) == {}
  {
  }

  lemma TaskStep(tasks: seq<PlanTask>, i: nat)
    requires i < |tasks|
    ensures TaskFine(tasks, i) <==>
              && tasks[i].id != NO_ID && tasks[i].id !in SeenBefore(tasks, i) && tasks[i].prompt != NO_PROMPT
              && KnownOthers(Declared(tasks[i].dependsOn), tasks[i].id, Elements(PlanIds(tasks)))
    ensures SeenBefore(tasks, i + 1) == if tasks[i].id == NO_ID then SeenBefore(tasks, i)
        else SeenBefore(tasks, i) + {tasks[i].id}
  {
    assert PlanIds(tasks)[..i + 1] == PlanIds(tasks)[..i] + [tasks[i].id];
  }

  lemma AppendKeepsErrors(issues: seq<Issue>, more: seq<Issue>)
    ensures HasError(issues + more) <==> HasError(issues) || HasError(more)
  {
    var all := issues + more;
    if HasError(issues) {
      var i :| 0 <= i < |issues| && issues[i].severity == Error;
      assert all[i].severity == Error;
    }
    if HasError(more) {
      var i :| 0 <= i < |more| && more[i].severity == Error;
      assert all[|issues| + i].severity == Error;
    }
  }

  // ----- every defect is reported

  /** Task `k` is the first with its id, and has a prompt, so that all its fields are looked at. */
  ghost predicate IsInspected(tasks: seq<PlanTask>, k: nat)
    requires k < |tasks|
  {
    tasks[k].id != NO_ID && tasks[k].prompt != NO_PROMPT && forall i :: 0 <= i < k ==> tasks[i].id != tasks[k].id
  }

  /** Exactly what validation has to say about task `k`. */
  ghost predicate Deserves(agents: seq<Agent>, tasks: seq<PlanTask>, k: nat, issue: Issue)
    requires k < |tasks|
  {
    var t := tasks[k];
    if issue == Issue(Error, EmptyTaskId, None) then t.id == NO_ID
    else if t.id == NO_ID || issue.taskId != Some(t.id) then false
    else if issue.severity == Error then
      match issue.code
      case DuplicateTaskId => exists i :: 0 <= i < k && tasks[i].id == t.id
      case MissingPrompt => t.prompt == NO_PROMPT && forall i :: 0 <= i < k ==> tasks[i].id != t.id
      case SelfDependency => IsInspected(tasks, k) && t.id in Declared(t.dependsOn)
      case UnknownDependency =>
        IsInspected(tasks, k) && exists d :: d in Declared(t.dependsOn) && forall i :: 0 <= i < |tasks| ==>
          d != tasks[i].id
      case _ => false
    else
      match issue.code
      case UnknownAgent =>
        IsInspected(tasks, k) && t.agentId.Some? && forall a :: a in agents ==> t.agentId.value != a.id
      case UnsupportedCapability =>
        IsInspected(tasks, k) && t.requiredCapabilities.Some? && t.requiredCapabilities.value != [] &&
        forall a :: a in agents ==> exists c :: c in t.requiredCapabilities.value && c !in a.capabilities
      case _ => false
  }

  lemma {:induction false} DependencyFindingsIff(task: PlanTask, deps: seq<Id>, idSet: set<Id>, issue: Issue)
    requires task.id in idSet
    ensures issue in DependencyFindings(task, deps, idSet) <==>
        || (issue == Issue(Error, IssueCode.SelfDependency, Some(task.id)) && task.id in deps)
        || (issue == Issue(Error, UnknownDependency, Some(task.id)) && exists d :: d in deps && d !in idSet)
  {
    if deps != [] {
      var front, last := deps[..|deps| - 1], deps[|deps| - 1];
      assert deps == front + [last];
      DependencyFindingsIff(task, front, idSet, issue);
    }
  }

  lemma UnknownAgentOnFields(agents: seq<Agent>, task: PlanTask)
    ensures NamesUnknownAgent(agents, task) <==>
        task.agentId.Some? && forall a :: a in agents ==> task.agentId.value != a.id
  {
    if task.agentId.Some? && KnowsAgent(agents, task.agentId.value) {
      var i :| 0 <= i < |agents| && agents[i].id == task.agentId.value;
      assert agents[i] in agents;
    }
  }

  lemma UnsupportedOnFields(agents: seq<Agent>, task: PlanTask)
    ensures NeedsUnsupported(agents, task) <==>
        task.requiredCapabilities.Some? && task.requiredCapabilities.value != [] &&
        forall a :: a in agents ==> exists c :: c in task.requiredCapabilities.value && c !in a.capabilities
  {
    if task.requiredCapabilities.Some? {
      var caps := task.requiredCapabilities.value;
      if SomeAgentCovers(agents, caps) {
        var i :| 0 <= i < |agents| && Covers(agents[i], caps);
        assert agents[i] in agents;
      } else {
        forall a | a in agents
          ensures exists c :: c in caps && c !in a.capabilities
        {
          var i :| 0 <= i < |agents| && agents[i] == a;
          assert !Covers(agents[i], caps);
        }
      }
    }
  }

  lemma WarningsIff(agents: seq<Agent>, task: PlanTask, issue: Issue)
    ensures issue in TaskWarnings(agents, task) <==>
        || (issue == Issue(Warning, UnknownAgent, Some(task.id)) && NamesUnknownAgent(agents, task))
        || (issue == Issue(Warning, UnsupportedCapability, Some(task.id)) && NeedsUnsupported(agents, task))
  {
    hide NamesUnknownAgent, NeedsUnsupported;
  }

  lemma SeenIff(tasks: seq<PlanTask>, k: nat)
    requires k < |tasks|
    ensures tasks[k].id in SeenBefore(tasks, k) <==>
        tasks[k].id != NO_ID && exists i :: 0 <= i < k && tasks[i].id == tasks[k].id
    ensures tasks[k].id in Elements(PlanIds(tasks))
  {
    var ids := PlanIds(tasks);
    assert ids[k] == tasks[k].id;
    assert forall i :: 0 <= i < k ==> ids[..k][i] == tasks[i].id;
    if i :| 0 <= i < k && tasks[i].id == tasks[k].id {
      assert ids[..k][i] == tasks[k].id;
    }
  }

  lemma UnlistedIff(tasks: seq<PlanTask>, d: Id)
    ensures d !in Elements(PlanIds(tasks)) <==> forall i :: 0 <= i < |tasks| ==> d != tasks[i].id
  {
    assert forall i :: 0 <= i < |tasks| ==> PlanIds(tasks)[i] == tasks[i].id;
  }

  lemma TaskFindingsIff(agents: seq<Agent>, tasks: seq<PlanTask>, k: nat, issue: Issue)
    requires k < |tasks|
    ensures issue in TaskFindings(agents, tasks[k], SeenBefore(tasks, k), Elements(PlanIds(tasks))) <==>
        Deserves(agents, tasks, k, issue)
  {
    hide SeenBefore, DependencyFindings, TaskWarnings, NamesUnknownAgent, NeedsUnsupported, Elements;
    var t := tasks[k];
    SeenIff(tasks, k);
    DependencyFindingsIff(t, Declared(t.dependsOn), Elements(PlanIds(tasks)), issue);
    WarningsIff(agents, t, issue);
    UnknownAgentOnFields(agents, t);
    UnsupportedOnFields(agents, t);
    forall d | d in Declared(t.dependsOn)
      ensures d !in Elements(PlanIds(tasks)) <==> forall i :: 0 <= i < |tasks| ==> d != tasks[i].id
    {
      UnlistedIff(tasks, d);
    }
  }

  lemma {:induction false} FindingsUpToIff(agents: seq<Agent>, tasks: seq<PlanTask>, n: nat, issue: Issue)
    requires n <= |tasks|
    ensures issue in FindingsUpTo(agents, tasks, n) <==> exists k :: 0 <= k < n && Deserves(agents, tasks, k, issue)
  {
    hide Deserves, TaskFindings;
    if n > 0 {
      FindingsUpToIff(agents, tasks, n - 1, issue);
      TaskFindingsIff(agents, tasks, n - 1, issue);
    }
  }

  /**
   * The issue trail holds exactly what the plan deserves: no error or warning without its cause on
   * the fields of a task or in the dependencies, and no cause without its issue.
   */
  lemma FindingsAreExact(agents: seq<Agent>, tasks: seq<PlanTask>, issue: Issue)
    ensures issue in Findings(agents, tasks) <==>
        || (issue == Issue(Error, EmptyPlan, None) && tasks == [])
        || (issue == Issue(Error, Cycle, None) && exists c :: IsCycle(ProperAdjacencyOf(PlanTable(tasks)), c))
        || exists k :: 0 <= k < |tasks| && Deserves(agents, tasks, k, issue)
  {
    hide Deserves, FindingsUpTo, IsCycle;
    FindingsUpToIff(agents, tasks, |tasks|, issue);
    NoTasksNoCycle(tasks);
  }

  lemma NoTasksNoCycle(tasks: seq<PlanTask>)
    ensures tasks == [] ==> !exists c :: IsCycle(ProperAdjacencyOf(PlanTable(tasks)), c)
  {
    if tasks == [] {
      assert PlanTable(tasks) == map[];
    }
  }

  /** Repair drops an agent exactly when the pool has none with that id, and capabilities nobody covers. */
  lemma RepairOnFields(agents: seq<Agent>, task: PlanTask)
    ensures var r := RepairedTask(agents, task);
            && r == task.(agentId := r.agentId, requiredCapabilities := r.requiredCapabilities)
            && r.agentId == (if task.agentId.Some? && forall a :: a in agents ==> task.agentId.value != a.id
                             then None else task.agentId)
            && r.requiredCapabilities
               == if task.requiredCapabilities.Some? && task.requiredCapabilities.value != []
                      && forall a :: a in agents ==> exists c ::
                           c in task.requiredCapabilities.value && c !in a.capabilities
                  then None else task.requiredCapabilities
  {
    hide NamesUnknownAgent, NeedsUnsupported;
    UnknownAgentOnFields(agents, task);
    UnsupportedOnFields(agents, task);
  }

  // ----- validate and repair

  /** The plan a repair of all warnings leaves. */
  function RepairedTask(agents: seq<Agent>, task: PlanTask): PlanTask {
    FixedTask(task, NamesUnknownAgent(agents, task), NeedsUnsupported(agents, task))
  }

  /** Which tasks the warnings name, when ids are distinct. */
  lemma {:induction false} WarningsName(agents: seq<Agent>, tasks: seq<PlanTask>, t: PlanTask)
    requires Distinct(PlanIds(tasks)) && t in tasks
    ensures Names(Warnings(agents, tasks), UnknownAgent, t.id) <==> NamesUnknownAgent(agents, t)
    ensures Names(Warnings(agents, tasks), UnsupportedCapability, t.id) <==> NeedsUnsupported(agents, t)
  {
    var n := |tasks| - 1;
    var front, last := tasks[..n], tasks[n];
    assert PlanIds(front) == PlanIds(tasks)[..n];
    DistinctPrefix(PlanIds(tasks), n);
    DistinctFresh(PlanIds(tasks), n);
    NamesConcat(Warnings(agents, front), TaskWarnings(agents, last), UnknownAgent, t.id);
    NamesConcat(Warnings(agents, front), TaskWarnings(agents, last), UnsupportedCapability, t.id);
    TaskWarningsName(agents, last, t.id);
    if t in front {
      WarningsName(agents, front, t);
      var i :| 0 <= i < n && front[i] == t;
      assert PlanIds(tasks)[i] == t.id && PlanIds(tasks)[n] == last.id;
    } else {
      UnnamedElsewhere(agents, front, t.id);
    }
  }

  lemma NamesConcat(a: seq<Issue>, b: seq<Issue>, code: IssueCode, id: Id)
    ensures Names(a + b, code, id) <==> Names(a, code, id) || Names(b, code, id)
  {
    var all := a + b;
    if Names(a, code, id) {
      var i :| 0 <= i < |a| && a[i].code == code && a[i].taskId == Some(id);
      assert all[i] == a[i];
    }
    if Names(b, code, id) {
      var i :| 0 <= i < |b| && b[i].code == code && b[i].taskId == Some(id);
      assert all[|a| + i] == b[i];
    }
    if Names(all, code, id) {
      var i :| 0 <= i < |all| && all[i].code == code && all[i].taskId == Some(id);
      assert if i < |a| then a[i] == all[i] else b[i - |a|] == all[i];
    }
  }

  lemma TaskWarningsName(agents: seq<Agent>, task: PlanTask, id: Id)
    ensures Names(TaskWarnings(agents, task), UnknownAgent, id) <==> NamesUnknownAgent(agents, task) && id == task.id
    ensures Names(TaskWarnings(agents, task), UnsupportedCapability, id) <==>
        NeedsUnsupported(agents, task) && id == task.id
  {
    var w := TaskWarnings(agents, task);
    if NamesUnknownAgent(agents, task) {
      assert w[0].code == UnknownAgent && w[0].taskId == Some(task.id);
    }
    if NeedsUnsupported(agents, task) {
      assert w[|w| - 1].code == UnsupportedCapability && w[|w| - 1].taskId == Some(task.id);
    }
  }

  lemma {:induction false} UnnamedElsewhere(agents: seq<Agent>, tasks: seq<PlanTask>, id: Id)
    requires id !in PlanIds(tasks)
    ensures !Names(Warnings(agents, tasks), UnknownAgent, id)
        && !Names(Warnings(agents, tasks), UnsupportedCapability, id)
  {
    if tasks != [] {
      var n := |tasks| - 1;
      assert PlanIds(tasks[..n]) == PlanIds(tasks)[..n] && PlanIds(tasks)[n] == tasks[n].id;
      UnnamedElsewhere(agents, tasks[..n], id);
      NamesConcat(Warnings(agents, tasks[..n]), TaskWarnings(agents, tasks[n]), UnknownAgent, id);
      NamesConcat(Warnings(agents, tasks[..n]), TaskWarnings(agents, tasks[n]), UnsupportedCapability, id);
      TaskWarningsName(agents, tasks[n], id);
    }
  }

  /** A plan without warnings, task by task. */
  lemma {:induction false} NoWarningsIff(agents: seq<Agent>, tasks: seq<PlanTask>)
    ensures Warnings(agents, tasks) == [] <==>
              forall t :: t in tasks ==> !NamesUnknownAgent(agents, t) && !NeedsUnsupported(agents, t)
  {
    if tasks != [] {
      var n := |tasks| - 1;
      NoWarningsIff(agents, tasks[..n]);
      assert tasks == tasks[..n] + [tasks[n]];
    }
  }

  /** The same plan but for agent assignments and capability requirements. */
  ghost predicate SameShape(a: seq<PlanTask>, b: seq<PlanTask>) {
    |a| == |b| && forall i :: 0 <= i < |a| ==>
      && a[i].id == b[i].id && a[i].prompt == b[i].prompt
      && a[i].dependsOn == b[i].dependsOn && a[i].timeoutMs == b[i].timeoutMs
  }

  lemma SameShapeSameTable(a: seq<PlanTask>, b: seq<PlanTask>)
    requires SameShape(a, b)
    ensures PlanIds(a) == PlanIds(b) && PlanTable(a) == PlanTable(b)
  {
    assert PlanDeclarations(a) == PlanDeclarations(b);
  }

  lemma SameShapeValid(a: seq<PlanTask>, b: seq<PlanTask>)
    requires SameShape(a, b) && IsValidPlan(a)
    ensures IsValidPlan(b)
  {
    SameShapeSameTable(a, b);
    forall t | t in b
      ensures t.id != NO_ID && t.prompt != NO_PROMPT
    {
      var i :| 0 <= i < |b| && b[i] == t;
      assert a[i] in a;
    }
  }

  /** A repaired task raises no warning any more. */
  lemma RepairedTaskIsQuiet(agents: seq<Agent>, task: PlanTask)
    ensures !NamesUnknownAgent(agents, RepairedTask(agents, task))
        && !NeedsUnsupported(agents, RepairedTask(agents, task))
  {
  }

  /**
   * Validates, then repairs every warning. The output is valid again with no finding at all, and
   * differs from the input only in dropped agents and capability requirements.
   */
  method ValidateAndRepair(agents: seq<Agent>, tasks: seq<PlanTask>) returns (result: Validation)
    ensures result.Accepted? <==> IsValidPlan(tasks)
    ensures result.Rejected? ==> HasError(result.issues)
    ensures result.Accepted? ==>
              && |result.tasks| == |tasks|
              && (forall i :: 0 <= i < |tasks| ==> result.tasks[i] == RepairedTask(agents, tasks[i]))
              && result.issues == Warnings(agents, tasks)
              && (result.repaired <==> result.issues != [])
    ensures result.Accepted? ==>
              SameShape(tasks, result.tasks) && IsValidPlan(result.tasks) && Warnings(agents, result.tasks) == []
  {
    hide HasError, IsValidPlan, Names, Findings, SameShape, Warnings, NamesUnknownAgent, NeedsUnsupported, FixedTask;
    result := Validate(agents, tasks);
    if result.Rejected? {
      return;
    }
    ValidIsDistinct(tasks);
    var repair := ApplyIssueRepairs(result.tasks, result.issues);
    WarningsRepairable(agents, tasks);
    RepairPerTask(agents, tasks);
    if repair.Some? {
      result := Accepted(repair.value.tasks, result.issues, true);
    } else {
      NothingRepaired(agents, tasks, result.issues);
    }
    RepairSettles(agents, tasks, result.tasks);
  }

  lemma ValidIsDistinct(tasks: seq<PlanTask>)
    requires IsValidPlan(tasks)
    ensures Distinct(PlanIds(tasks))
  {
  }

  /** Without a repairable finding there was no warning, and repairing would change nothing. */
  lemma NothingRepaired(agents: seq<Agent>, tasks: seq<PlanTask>, issues: seq<Issue>)
    requires issues == Warnings(agents, tasks) && forall i :: 0 <= i < |issues| ==> !Repairable(issues[i])
    ensures issues == [] && forall i :: 0 <= i < |tasks| ==> tasks[i] == RepairedTask(agents, tasks[i])
  {
    WarningsRepairable(agents, tasks);
    SomeRepairable(issues);
    NoWarningsIff(agents, tasks);
    assert forall i :: 0 <= i < |tasks| ==> tasks[i] in tasks;
  }

  lemma SomeRepairable(issues: seq<Issue>)
    requires forall i :: 0 <= i < |issues| ==> Repairable(issues[i])
    ensures issues == [] || exists i :: 0 <= i < |issues| && Repairable(issues[i])
  {
    if issues != [] {
      assert Repairable(issues[0]);
    }
  }

  lemma RepairPerTask(agents: seq<Agent>, tasks: seq<PlanTask>)
    requires Distinct(PlanIds(tasks))
    ensures forall i :: 0 <= i < |tasks| ==>
              FixedTask(tasks[i], Names(Warnings(agents, tasks), UnknownAgent, tasks[i].id),
                        Names(Warnings(agents, tasks), UnsupportedCapability, tasks[i].id))
              == RepairedTask(agents, tasks[i])
  {
    forall i | 0 <= i < |tasks|
      ensures Names(Warnings(agents, tasks), UnknownAgent, tasks[i].id) <==> NamesUnknownAgent(agents, tasks[i])
      ensures Names(Warnings(agents, tasks), UnsupportedCapability, tasks[i].id) <==> NeedsUnsupported(agents, tasks[i])
    {
      WarningsName(agents, tasks, tasks[i]);
    }
  }

  lemma {:induction false} WarningsRepairable(agents: seq<Agent>, tasks: seq<PlanTask>)
    ensures forall i :: 0 <= i < |Warnings(agents, tasks)| ==> Repairable(Warnings(agents, tasks)[i])
  {
    if tasks != [] {
      WarningsRepairable(agents, tasks[..|tasks| - 1]);
    }
  }

  lemma RepairSettles(agents: seq<Agent>, tasks: seq<PlanTask>, repaired: seq<PlanTask>)
    requires IsValidPlan(tasks) && |repaired| == |tasks|
    requires forall i :: 0 <= i < |tasks| ==> repaired[i] == RepairedTask(agents, tasks[i])
    ensures SameShape(tasks, repaired) && IsValidPlan(repaired) && Warnings(agents, repaired) == []
  {
    SameShapeValid(tasks, repaired);
    NoWarningsIff(agents, repaired);
    forall t | t in repaired
      ensures !NamesUnknownAgent(agents, t) && !NeedsUnsupported(agents, t)
    {
      var i :| 0 <= i < |repaired| && repaired[i] == t;
      RepairedTaskIsQuiet(agents, tasks[i]);
    }
  }
}

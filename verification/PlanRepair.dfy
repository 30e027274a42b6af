/**
 * Validator findings and the local repairs they allow. Repair never touches ids, prompts,
 * dependencies or the set of tasks.
 */
module PlanRepairs {
  import opened Collections
  import opened Graphs
  import opened Plans

  datatype Severity = Error | Warning

  datatype IssueCode =
    | EmptyPlan
    | EmptyTaskId
    | DuplicateTaskId
    | MissingPrompt
    | SelfDependency
    | UnknownDependency
    | Cycle
    | UnknownAgent
    | UnsupportedCapability

  datatype Issue = Issue(severity: Severity, code: IssueCode, taskId: Option<Id>)

  datatype RepairAction = DropAgent | DropCapabilities
  datatype RepairRecord = RepairRecord(taskId: Id, action: RepairAction)
  datatype PlanRepair = PlanRepair(tasks: seq<PlanTask>, records: seq<RepairRecord>)

  datatype Fix = Fix(dropAgent: bool, dropCaps: bool)

  predicate Repairable(issue: Issue) {
    (issue.code == UnknownAgent || issue.code == UnsupportedCapability) && issue.taskId.Some?
  }

  predicate Names(issues: seq<Issue>, code: IssueCode, id: Id) {
    exists i :: 0 <= i < |issues| && issues[i].code == code && issues[i].taskId == Some(id)
  }

  /** A task with the fields dropped that repairable findings name. */
  function FixedTask(task: PlanTask, dropAgent: bool, dropCaps: bool): PlanTask {
    var out := if dropAgent then task.(agentId := None) else task;
    if dropCaps then out.(requiredCapabilities := None) else out
  }

  function FixRecords(task: PlanTask, dropAgent: bool, dropCaps: bool): seq<RepairRecord> {
    (if dropAgent && task.agentId.Some? then [RepairRecord(task.id, DropAgent)] else [])
    + (if dropCaps && task.requiredCapabilities.Some? then [RepairRecord(task.id, DropCapabilities)] else [])
  }

  /** The repair records of the first `n` tasks, in order. */
  function RecordsUpTo(tasks: seq<PlanTask>, issues: seq<Issue>, n: nat): seq<RepairRecord>
    requires n <= |tasks|
  {
    if n == 0 then []
    else
      var t := tasks[n - 1];
      RecordsUpTo(tasks, issues, n - 1)
      + FixRecords(t, Names(issues, UnknownAgent, t.id), Names(issues, UnsupportedCapability, t.id))
  }

  /** The table of fixes describes exactly the findings seen so far. */
  ghost predicate FixesMatch(perTask: map<Id, Fix>, issues: seq<Issue>) {
    && (forall id :: id in perTask <==> Names(issues, UnknownAgent, id) || Names(issues, UnsupportedCapability, id))
    && (forall id :: id in perTask ==> (perTask[id].dropAgent <==> Names(issues, UnknownAgent, id)))
    && (forall id :: id in perTask ==> (perTask[id].dropCaps <==> Names(issues, UnsupportedCapability, id)))
  }

  lemma NamesAppend(issues: seq<Issue>, issue: Issue, code: IssueCode, id: Id)
    ensures Names(issues + [issue], code, id) <==>
        Names(issues, code, id) || (issue.code == code && issue.taskId == Some(id))
  {
    var more := issues + [issue];
    assert more[|issues|] == issue;
    assert forall i :: 0 <= i < |issues| ==> more[i] == issues[i];
    if Names(issues, code, id) {
      var i :| 0 <= i < |issues| && issues[i].code == code && issues[i].taskId == Some(id);
      assert more[i].code == code && more[i].taskId == Some(id);
    }
  }

  /**
   * Applies the repairable findings. None when nothing is repairable; otherwise each task keeps
   * everything but an agent or capability field that a finding names, and every drop is recorded.
   */
  method ApplyIssueRepairs(tasks: seq<PlanTask>, issues: seq<Issue>) returns (repair: Option<PlanRepair>)
    ensures repair.None? <==> forall i :: 0 <= i < |issues| ==> !Repairable(issues[i])
    ensures repair.Some? ==>
              && |repair.value.tasks| == |tasks|
              && forall i :: 0 <= i < |tasks| ==>
                   repair.value.tasks[i] == FixedTask(tasks[i], Names(issues, UnknownAgent, tasks[i].id),
                                                      Names(issues, UnsupportedCapability, tasks[i].id))
    ensures repair.Some? ==> repair.value.records == RecordsUpTo(tasks, issues, |tasks|)
  {
    hide Names, FixesMatch, FixedTask, FixRecords;
    var perTask, any := CollectFixes(issues);
    if !any {
      return None;
    }
    var records: seq<RepairRecord>, out: seq<PlanTask> := [], [];
    for k := 0 to |tasks|
      invariant |out| == k && records == RecordsUpTo(tasks, issues, k)
      invariant forall i :: 0 <= i < k ==>
                  out[i] == FixedTask(tasks[i], Names(issues, UnknownAgent, tasks[i].id),
                      Names(issues, UnsupportedCapability, tasks[i].id))
    {
      var fixed, more := FixTask(tasks[k], perTask, issues);
      out := out + [fixed];
      records := records + more;
    }
    return Some(PlanRepair(out, records));
  }

  /** Groups the repairable findings by task. */
  method CollectFixes(issues: seq<Issue>) returns (perTask: map<Id, Fix>, any: bool)
    ensures FixesMatch(perTask, issues)
    ensures any <==> exists i :: 0 <= i < |issues| && Repairable(issues[i])
  {
    perTask, any := map[], false;
    for k := 0 to |issues|
      invariant FixesMatch(perTask, issues[..k])
      invariant any <==> exists i :: 0 <= i < k && Repairable(issues[i])
    {
      var issue := issues[k];
      assert issues[..k + 1] == issues[..k] + [issue];
      forall code, id
        ensures Names(issues[..k + 1], code, id) <==>
            Names(issues[..k], code, id) || (issue.code == code && issue.taskId == Some(id))
      {
        NamesAppend(issues[..k], issue, code, id);
      }
      if Repairable(issue) {
        any := true;
        var id := issue.taskId.value;
        var entry := if id in perTask then perTask[id] else Fix(false, false);
        perTask := perTask[id := if issue.code == UnknownAgent then entry.(dropAgent := true)
            else entry.(dropCaps := true)];
      }
    }
    assert issues[..|issues|] == issues;
  }

  /** Drops the fields of one task that its findings name. */
  method FixTask(task: PlanTask, perTask: map<Id, Fix>, ghost issues: seq<Issue>)
      returns (fixed: PlanTask, records: seq<RepairRecord>)
    requires FixesMatch(perTask, issues)
    ensures fixed == FixedTask(task, Names(issues, UnknownAgent, task.id),
        Names(issues, UnsupportedCapability, task.id))
    ensures records == FixRecords(task, Names(issues, UnknownAgent, task.id),
        Names(issues, UnsupportedCapability, task.id))
  {
    hide Names;
    fixed, records := task, [];
    if task.id in perTask {
      var fix := perTask[task.id];
      if fix.dropAgent && fixed.agentId.Some? {
        fixed := fixed.(agentId := None);
        records := records + [RepairRecord(task.id, DropAgent)];
      }
      if fix.dropCaps && fixed.requiredCapabilities.Some? {
        fixed := fixed.(requiredCapabilities := None);
        records := records + [RepairRecord(task.id, DropCapabilities)];
      }
    }
  }

  // ----- failure-driven repair

  predicate ClearsTask(task: PlanTask, targets: set<Id>) {
    task.id in targets && task.agentId.Some?
  }

  /**
   * Clears the explicit agent of the targeted tasks. None ("nothing to repair") exactly when no
   * targeted task has one; otherwise nothing but those agents changes, each change recorded.
   */
  method ClearAgentAssignments(tasks: seq<PlanTask>, taskIds: seq<Id>) returns (repair: Option<PlanRepair>)
    ensures repair.None? <==> forall t :: t in tasks ==> !ClearsTask(t, Elements(taskIds))
    ensures repair.Some? ==> repair.value.tasks == Cleared(tasks, Elements(taskIds))
    ensures repair.Some? ==> repair.value.records == ClearRecords(tasks, Elements(taskIds))
  {
    hide ClearRecords, Cleared;
    var targets := Elements(taskIds);
    NothingCleared(targets);
    var records: seq<RepairRecord>, out: seq<PlanTask> := [], [];
    for k := 0 to |tasks|
      invariant out == Cleared(tasks[..k], targets)
      invariant records == ClearRecords(tasks[..k], targets)
      invariant records == [] <==> forall t :: t in tasks[..k] ==> !ClearsTask(t, targets)
    {
      ClearedStep(tasks, k, targets);
      assert forall t :: t in tasks[..k + 1] <==> t in tasks[..k] || t == tasks[k];
      if tasks[k].id in targets && tasks[k].agentId.Some? {
        records := records + [RepairRecord(tasks[k].id, DropAgent)];
        out := out + [tasks[k].(agentId := None)];
      } else {
        out := out + [tasks[k]];
      }
    }
    assert tasks[..|tasks|] == tasks;
    return if records == [] then None else Some(PlanRepair(out, records));
  }

  lemma NothingCleared(targets: set<Id>)
    ensures Cleared([], targets) == [] && ClearRecords([], targets) == []
  {
  }

  lemma ClearedStep(tasks: seq<PlanTask>, k: nat, targets: set<Id>)
    requires k < |tasks|
    ensures Cleared(tasks[..k + 1], targets) == Cleared(tasks[..k], targets)
        + [if ClearsTask(tasks[k], targets) then tasks[k].(agentId := None) else tasks[k]]
    ensures ClearRecords(tasks[..k + 1], targets) == ClearRecords(tasks[..k], targets)
        + (if ClearsTask(tasks[k], targets) then [RepairRecord(tasks[k].id, DropAgent)] else [])
  {
    assert tasks[..k + 1][..k] == tasks[..k];
  }

  /** One record per cleared task, in plan order. */
  function ClearRecords(tasks: seq<PlanTask>, targets: set<Id>): seq<RepairRecord> {
    if tasks == [] then []
    else
      var last := tasks[|tasks| - 1];
      ClearRecords(tasks[..|tasks| - 1], targets)
      + (if ClearsTask(last, targets) then [RepairRecord(last.id, DropAgent)] else [])
  }

  function Cleared(tasks: seq<PlanTask>, targets: set<Id>): (out: seq<PlanTask>)
    ensures |out| == |tasks|
    ensures forall i :: 0 <= i < |tasks| ==>
              out[i] == if tasks[i].id in targets then tasks[i].(agentId := None) else tasks[i]
  {
    seq(|tasks|, i requires 0 <= i < |tasks| => if ClearsTask(tasks[i], targets) then tasks[i].(agentId := None)
        else tasks[i])
  }

  // ----- what the records say

  /** The task's agent or capabilities are gone after the repair. */
  ghost predicate Dropped(before: PlanTask, after: PlanTask, action: RepairAction) {
    match action
    case DropAgent => before.agentId.Some? && after.agentId.None?
    case DropCapabilities => before.requiredCapabilities.Some? && after.requiredCapabilities.None?
  }

  /** Some task with this id lost this field. */
  ghost predicate Lost(tasks: seq<PlanTask>, after: seq<PlanTask>, n: nat, record: RepairRecord)
    requires |after| == |tasks| && n <= |tasks|
  {
    exists i :: 0 <= i < n && tasks[i].id == record.taskId && Dropped(tasks[i], after[i], record.action)
  }

  lemma {:induction false} RecordsAreLosses(tasks: seq<PlanTask>, issues: seq<Issue>, after: seq<PlanTask>, n: nat,
      record: RepairRecord)
    requires |after| == |tasks| && n <= |tasks|
    requires forall i :: 0 <= i < |tasks| ==>
        after[i] == FixedTask(tasks[i], Names(issues, UnknownAgent, tasks[i].id),
                              Names(issues, UnsupportedCapability, tasks[i].id))
    ensures record in RecordsUpTo(tasks, issues, n) <==> Lost(tasks, after, n, record)
  {
    hide Names, FixedTask, FixRecords, Dropped;
    if n > 0 {
      RecordsAreLosses(tasks, issues, after, n - 1, record);
      var t := tasks[n - 1];
      FixRecordsAreLosses(t, Names(issues, UnknownAgent, t.id), Names(issues, UnsupportedCapability, t.id), record);
    }
  }

  lemma FixRecordsAreLosses(t: PlanTask, dropAgent: bool, dropCaps: bool, record: RepairRecord)
    ensures record in FixRecords(t, dropAgent, dropCaps) <==>
        record.taskId == t.id && Dropped(t, FixedTask(t, dropAgent, dropCaps), record.action)
  {
  }

  /** The records of a repair are exactly the fields it dropped. */
  lemma RepairIsRecorded(tasks: seq<PlanTask>, issues: seq<Issue>, repair: PlanRepair, record: RepairRecord)
    requires |repair.tasks| == |tasks| && repair.records == RecordsUpTo(tasks, issues, |tasks|)
    requires forall i :: 0 <= i < |tasks| ==>
        repair.tasks[i] == FixedTask(tasks[i], Names(issues, UnknownAgent, tasks[i].id),
                                     Names(issues, UnsupportedCapability, tasks[i].id))
    ensures record in repair.records <==> Lost(tasks, repair.tasks, |tasks|, record)
  {
    RecordsAreLosses(tasks, issues, repair.tasks, |tasks|, record);
  }

  /** One record for each task that loses its agent, in plan order. */
  lemma {:induction false} ClearRecordsInOrder(tasks: seq<PlanTask>, targets: set<Id>)
    ensures var hit := Only(tasks, set t | t in tasks && t.id in targets && t.agentId.Some?);
            var records := ClearRecords(tasks, targets);
            |records| == |hit| && forall i :: 0 <= i < |hit| ==> records[i] == RepairRecord(hit[i].id, DropAgent)
  {
    if tasks != [] {
      var n := |tasks| - 1;
      var front, last := tasks[..n], tasks[n];
      assert tasks == front + [last];
      ClearRecordsInOrder(front, targets);
      OnlySnoc(front, last, set t | t in tasks && t.id in targets && t.agentId.Some?);
      OnlySame(front, set t | t in tasks && t.id in targets && t.agentId.Some?,
               set t | t in front && t.id in targets && t.agentId.Some?);
    }
  }
}

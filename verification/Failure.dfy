/** Classifies a failed execution; the classification alone decides which recovery is allowed. */
module Failures {
  import opened Collections
  import opened Graphs
  import opened TaskGraphs

  datatype FailureCode =
    | ValidationFailure
    | RoutingFailure
    | TaskFailure
    | TimeoutFailure
    | CancelledFailure
    | DependencyFailure
    | AgentUnavailable
    | StrategyFailure
    | RuntimeFailure

  datatype Recoverability = Recoverability(retryable: bool, repairable: bool, replanable: bool, fatal: bool)

  function RecoverabilityOf(code: FailureCode): (r: Recoverability)
    ensures r.retryable <==> code == TimeoutFailure
    ensures r.repairable <==> code == AgentUnavailable
    ensures r.replanable <==> code == DependencyFailure
    ensures r.fatal <==> code in {ValidationFailure, RoutingFailure, CancelledFailure}
  {
    match code
    case ValidationFailure => Recoverability(false, false, false, true)
    case RoutingFailure => Recoverability(false, false, false, true)
    case TaskFailure => Recoverability(false, false, false, false)
    case TimeoutFailure => Recoverability(true, false, false, false)
    case CancelledFailure => Recoverability(false, false, false, true)
    case DependencyFailure => Recoverability(false, false, true, false)
    case AgentUnavailable => Recoverability(false, true, false, false)
    case StrategyFailure => Recoverability(false, false, false, false)
    case RuntimeFailure => Recoverability(false, false, false, false)
  }

  /** One entry of a strategy report. */
  datatype ReportEntry = ReportEntry(taskId: Id, agentId: Option<Id>, outcome: TaskOutcome)

  datatype RunStatus = RunCompleted | RunFailed | RunCancelled | RunTimedOut

  datatype SupervisorResult = SupervisorResult(status: RunStatus, entries: seq<ReportEntry>)

  datatype TaskFailureRef = TaskFailureRef(taskId: Id, agentId: Option<Id>, code: FailureCode)

  datatype FailureRecord = FailureRecord(
    code: FailureCode,
    attempt: nat,
    taskId: Option<Id>,
    agentId: Option<Id>,
    taskFailures: Option<seq<TaskFailureRef>>,
    thrown: bool)

  function CodeForOutcome(o: TaskOutcome): FailureCode {
    if o.status == Cancelled then
      if o.error.DependencyError? then DependencyFailure else CancelledFailure
    else
      match o.error
      case TimedOut => TimeoutFailure
      case AgentNotFound(_) => AgentUnavailable
      case NoError => TaskFailure
      case DependencyError(_, _) => TaskFailure
      case RunStopped => TaskFailure
      case OtherError(_) => TaskFailure
  }

  function RefOf(entry: ReportEntry): TaskFailureRef {
    TaskFailureRef(entry.taskId, entry.agentId, CodeForOutcome(entry.outcome))
  }

  /** A reference per entry that did not complete, in report order. */
  function FailureRefs(entries: seq<ReportEntry>): (refs: seq<TaskFailureRef>)
    ensures |refs| <= |entries|
  {
    if entries == [] then []
    else
      var rest := FailureRefs(entries[..|entries| - 1]);
      var last := entries[|entries| - 1];
      if last.outcome.status == Completed then rest else rest + [RefOf(last)]
  }

  lemma {:induction false} RefsMembers(entries: seq<ReportEntry>, ref: TaskFailureRef)
    ensures ref in FailureRefs(entries) <==>
              exists i :: 0 <= i < |entries| && entries[i].outcome.status != Completed && RefOf(entries[i]) == ref
  {
    if entries != [] {
      var n := |entries| - 1;
      RefsMembers(entries[..n], ref);
      assert forall i :: 0 <= i < n ==> entries[..n][i] == entries[i];
    }
  }

  method ExtractTaskFailures(result: SupervisorResult) returns (refs: seq<TaskFailureRef>)
    ensures refs == FailureRefs(result.entries)
  {
    refs := [];
    for i := 0 to |result.entries|
      invariant refs == FailureRefs(result.entries[..i])
    {
      assert result.entries[..i + 1][..i] == result.entries[..i];
      if result.entries[i].outcome.status != Completed {
        refs := refs + [RefOf(result.entries[i])];
      }
    }
    assert result.entries[..|result.entries|] == result.entries;
  }

  // ----- the primary code

  predicate HasCode(refs: seq<TaskFailureRef>, code: FailureCode) {
    exists i :: 0 <= i < |refs| && refs[i].code == code
  }

  /** The most structurally specific recoverable class wins. */
  function PrimaryCode(refs: seq<TaskFailureRef>): FailureCode {
    if HasCode(refs, AgentUnavailable) then AgentUnavailable
    else if HasCode(refs, DependencyFailure) then DependencyFailure
    else if HasCode(refs, TimeoutFailure) then TimeoutFailure
    else if HasCode(refs, CancelledFailure) then CancelledFailure
    else TaskFailure
  }

  /** The first reference that carries the code. */
  function FirstWithCode(refs: seq<TaskFailureRef>, code: FailureCode): (r: Option<TaskFailureRef>)
    ensures r.None? <==> !HasCode(refs, code)
    ensures r.Some? ==> r.value in refs && r.value.code == code
  {
    if refs == [] then None
    else if refs[0].code == code then Some(refs[0])
    else
      assert HasCode(refs, code) ==> HasCode(refs[1..], code) by {
        if i :| 0 <= i < |refs| && refs[i].code == code {
          assert refs[1..][i - 1] == refs[i];
        }
      }
      assert HasCode(refs[1..], code) ==> HasCode(refs, code) by {
        if i :| 0 <= i < |refs[1..]| && refs[1..][i].code == code {
          assert refs[i + 1] == refs[1..][i];
        }
      }
      FirstWithCode(refs[1..], code)
  }

  const PRIORITY: seq<FailureCode> := [AgentUnavailable, DependencyFailure, TimeoutFailure, CancelledFailure,
      TaskFailure]

  /** The record of a returned run. */
  function Classified(result: SupervisorResult, attempt: nat): FailureRecord {
    var refs := FailureRefs(result.entries);
    match result.status
    case RunCancelled => FailureRecord(CancelledFailure, attempt, None, None, Some(refs), false)
    case RunTimedOut => FailureRecord(TimeoutFailure, attempt, None, None, Some(refs), false)
    case _ =>
      var first := FirstWithCode(refs, PrimaryCode(refs));
      FailureRecord(PrimaryCode(refs), attempt,
                    if first.Some? then Some(first.value.taskId) else None,
                    if first.Some? then first.value.agentId else None,
                    Some(refs), false)
  }

  method ClassifyResult(result: SupervisorResult, attempt: nat) returns (r: FailureRecord)
    ensures r == Classified(result, attempt)
  {
    var refs := ExtractTaskFailures(result);
    if result.status == RunCancelled {
      return FailureRecord(CancelledFailure, attempt, None, None, Some(refs), false);
    }
    if result.status == RunTimedOut {
      return FailureRecord(TimeoutFailure, attempt, None, None, Some(refs), false);
    }
    var primary := TaskFailure;
    var i := 0;
    while i < |PRIORITY|
      invariant 0 <= i <= |PRIORITY|
      invariant forall j :: 0 <= j < i ==> !HasCode(refs, PRIORITY[j])
      invariant primary == TaskFailure
    {
      if HasCode(refs, PRIORITY[i]) {
        primary := PRIORITY[i];
        break;
      }
      i := i + 1;
    }
    assert i >= 1 ==> !HasCode(refs, PRIORITY[0]);
    assert i >= 2 ==> !HasCode(refs, PRIORITY[1]);
    assert i >= 3 ==> !HasCode(refs, PRIORITY[2]);
    assert i >= 4 ==> !HasCode(refs, PRIORITY[3]);
    var first := FirstWithCode(refs, primary);
    return FailureRecord(primary, attempt,
                         if first.Some? then Some(first.value.taskId) else None,
                         if first.Some? then first.value.agentId else None,
                         Some(refs), false);
  }

  // ----- what the codes say about the entries

  /** The entry ran, or was to run, on an agent that does not exist. */
  predicate MissedAgent(o: TaskOutcome) {
    o.status != Completed && o.status != Cancelled && o.error.AgentNotFound?
  }

  predicate FellWithDependency(o: TaskOutcome) {
    o.status == Cancelled && o.error.DependencyError?
  }

  predicate RanOutOfTime(o: TaskOutcome) {
    o.status != Completed && o.status != Cancelled && o.error.TimedOut?
  }

  predicate WasCancelled(o: TaskOutcome) {
    o.status == Cancelled && !o.error.DependencyError?
  }

  predicate FailedOtherwise(o: TaskOutcome) {
    o.status != Completed && !MissedAgent(o) && !FellWithDependency(o) && !RanOutOfTime(o) && !WasCancelled(o)
  }

  /** Some entry of the report ended in this way. */
  predicate SomeEntry(entries: seq<ReportEntry>, p: TaskOutcome -> bool) {
    exists i :: 0 <= i < |entries| && p(entries[i].outcome)
  }

  /** Entry `i` is the first that ended in this way. */
  predicate FirstEntry(entries: seq<ReportEntry>, p: TaskOutcome -> bool, i: nat) {
    i < |entries| && p(entries[i].outcome) && forall j :: 0 <= j < i ==> !p(entries[j].outcome)
  }

  /** Among entries that did not complete, exactly those that ended in this way carry the code. */
  ghost predicate Marks(code: FailureCode, p: TaskOutcome -> bool) {
    forall o: TaskOutcome :: p(o) <==> o.status != Completed && CodeForOutcome(o) == code
  }

  lemma CodesMark()
    ensures Marks(AgentUnavailable, MissedAgent) && Marks(DependencyFailure, FellWithDependency)
    ensures Marks(TimeoutFailure, RanOutOfTime) && Marks(CancelledFailure, WasCancelled)
    ensures Marks(TaskFailure, FailedOtherwise)
  {
  }

  lemma MarkedCode(entries: seq<ReportEntry>, code: FailureCode, p: TaskOutcome -> bool)
    requires Marks(code, p)
    ensures HasCode(FailureRefs(entries), code) <==> SomeEntry(entries, p)
  {
    hide FailureRefs, CodeForOutcome;
    var refs := FailureRefs(entries);
    if HasCode(refs, code) {
      var k :| 0 <= k < |refs| && refs[k].code == code;
      assert refs[k] in refs;
      RefsMembers(entries, refs[k]);
    }
    if SomeEntry(entries, p) {
      var i :| 0 <= i < |entries| && p(entries[i].outcome);
      RefsMembers(entries, RefOf(entries[i]));
      var k :| 0 <= k < |refs| && refs[k] == RefOf(entries[i]);
    }
  }

  lemma {:induction false} FirstWithCodeConcat(a: seq<TaskFailureRef>, b: seq<TaskFailureRef>, code: FailureCode)
    ensures FirstWithCode(a + b, code) == if HasCode(a, code) then FirstWithCode(a, code) else FirstWithCode(b, code)
  {
    if a == [] {
      assert a + b == b;
    } else {
      assert (a + b)[1..] == a[1..] + b;
      FirstWithCodeConcat(a[1..], b, code);
      assert HasCode(a[1..], code) <==> FirstWithCode(a[1..], code).Some?;
      assert HasCode(a, code) <==> FirstWithCode(a, code).Some?;
    }
  }

  /** The first reference with a code belongs to the first entry that ended accordingly. */
  lemma {:induction false} MarkedFirst(entries: seq<ReportEntry>, code: FailureCode, p: TaskOutcome -> bool, i: nat)
    requires Marks(code, p) && FirstEntry(entries, p, i)
    ensures FirstWithCode(FailureRefs(entries), code) == Some(RefOf(entries[i]))
    decreases |entries|
  {
    hide CodeForOutcome, FirstWithCode, HasCode, Marks, RefOf, SomeEntry;
    var n := |entries| - 1;
    var front, last := entries[..n], entries[n];
    var tail := if last.outcome.status == Completed then [] else [RefOf(last)];
    assert FailureRefs(entries) == FailureRefs(front) + tail;
    FirstWithCodeConcat(FailureRefs(front), tail, code);
    MarkedCode(front, code, p);
    if i < n {
      assert FirstEntry(front, p, i) && SomeEntry(front, p) by { Exhibits(front, p, i); }
      MarkedFirst(front, code, p, i);
    } else {
      assert !SomeEntry(front, p) by { NoneExhibits(front, p); }
      LoneRef(last, code, p);
    }
  }

  lemma Exhibits(entries: seq<ReportEntry>, p: TaskOutcome -> bool, i: nat)
    requires i < |entries| && p(entries[i].outcome)
    ensures SomeEntry(entries, p)
  {
  }

  lemma NoneExhibits(entries: seq<ReportEntry>, p: TaskOutcome -> bool)
    requires forall j :: 0 <= j < |entries| ==> !p(entries[j].outcome)
    ensures !SomeEntry(entries, p)
  {
  }

  lemma LoneRef(entry: ReportEntry, code: FailureCode, p: TaskOutcome -> bool)
    requires Marks(code, p) && p(entry.outcome)
    ensures entry.outcome.status != Completed && FirstWithCode([RefOf(entry)], code) == Some(RefOf(entry))
  {
    hide CodeForOutcome;
  }

  /**
   * The classification of a failed run, read off its entries: a missing agent outranks a dependency
   * failure, which outranks a timeout, which outranks a cancellation, which outranks anything else.
   */
  lemma ResultMeansEntries(result: SupervisorResult, attempt: nat)
    requires result.status == RunFailed
    ensures var code, entries := Classified(result, attempt).code, result.entries;
            && (code == AgentUnavailable <==> SomeEntry(entries, MissedAgent))
            && (code == DependencyFailure <==>
                !SomeEntry(entries, MissedAgent) && SomeEntry(entries, FellWithDependency))
            && (code == TimeoutFailure <==>
                !SomeEntry(entries, MissedAgent) && !SomeEntry(entries, FellWithDependency) &&
                SomeEntry(entries, RanOutOfTime))
            && (code == CancelledFailure <==>
                !SomeEntry(entries, MissedAgent) && !SomeEntry(entries, FellWithDependency) &&
                !SomeEntry(entries, RanOutOfTime) && SomeEntry(entries, WasCancelled))
            && (code == TaskFailure <==>
                !SomeEntry(entries, MissedAgent) && !SomeEntry(entries, FellWithDependency) &&
                !SomeEntry(entries, RanOutOfTime) && !SomeEntry(entries, WasCancelled))
  {
    hide FailureRefs, CodeForOutcome, SomeEntry, HasCode, FirstWithCode, Marks;
    CodesMark();
    MarkedCode(result.entries, AgentUnavailable, MissedAgent);
    MarkedCode(result.entries, DependencyFailure, FellWithDependency);
    MarkedCode(result.entries, TimeoutFailure, RanOutOfTime);
    MarkedCode(result.entries, CancelledFailure, WasCancelled);
  }

  /** What ended an entry that carries this code. */
  function KindOf(code: FailureCode): TaskOutcome -> bool {
    match code
    case AgentUnavailable => MissedAgent
    case DependencyFailure => FellWithDependency
    case TimeoutFailure => RanOutOfTime
    case CancelledFailure => WasCancelled
    case _ => FailedOtherwise
  }

  /** The record of a failed run names the task and agent of the first entry of the deciding kind. */
  lemma RecordNamesFirst(result: SupervisorResult, attempt: nat, i: nat)
    requires result.status == RunFailed
    requires FirstEntry(result.entries, KindOf(Classified(result, attempt).code), i)
    ensures Classified(result, attempt).taskId == Some(result.entries[i].taskId)
    ensures Classified(result, attempt).agentId == result.entries[i].agentId
  {
    hide FailureRefs, CodeForOutcome, SomeEntry, FirstWithCode, Marks, FirstEntry;
    CodesMark();
    var code := Classified(result, attempt).code;
    MarkedFirst(result.entries, code, KindOf(code), i);
  }

  /** A stopped or timed-out run is classified by its status alone. */
  lemma StatusOutranksEntries(result: SupervisorResult, attempt: nat)
    ensures result.status == RunCancelled ==> Classified(result, attempt).code == CancelledFailure
    ensures result.status == RunTimedOut ==> Classified(result, attempt).code == TimeoutFailure
  {
  }

  /** No candidate that some entry carries outranks the primary code, and the primary is carried whenever any is. */
  lemma PrimaryOutranks(refs: seq<TaskFailureRef>, rank: nat, other: nat)
    requires rank < |PRIORITY| && PrimaryCode(refs) == PRIORITY[rank] && other < rank
    ensures !HasCode(refs, PRIORITY[other])
  {
    assert PRIORITY[0] == AgentUnavailable && PRIORITY[1] == DependencyFailure && PRIORITY[2] == TimeoutFailure
           && PRIORITY[3] == CancelledFailure && PRIORITY[4] == TaskFailure;
    assert rank == 0 || rank == 1 || rank == 2 || rank == 3 || rank == 4;
    assert other == 0 || other == 1 || other == 2 || other == 3;
  }

  // ----- thrown errors

  datatype SupervisorErrorKind = CancellationKind | TimeoutKind | ValidationKind | ExecutionKind | AggregationKind

  datatype ThrownError =
    | SupervisorError(kind: SupervisorErrorKind)
    | PlanRoutingError(taskId: Option<Id>)
    | PlanValidationError
    | PlanParseError
    | PlanIntegrationError
    | TaskGraphError
    | UnknownError

  function ThrownCode(error: ThrownError): FailureCode {
    match error
    case SupervisorError(kind) =>
      (match kind
       case CancellationKind => CancelledFailure
       case TimeoutKind => TimeoutFailure
       case ValidationKind => ValidationFailure
       case ExecutionKind => RuntimeFailure
       case AggregationKind => RuntimeFailure)
    case PlanRoutingError(_) => RoutingFailure
    case PlanValidationError => ValidationFailure
    case PlanParseError => ValidationFailure
    case PlanIntegrationError => RuntimeFailure
    case TaskGraphError => RuntimeFailure
    case UnknownError => RuntimeFailure
  }

  function ClassifyThrown(error: ThrownError, attempt: nat): (r: FailureRecord)
    ensures r.thrown && r.attempt == attempt && r.taskFailures.None?
    ensures !RecoverabilityOf(r.code).repairable && !RecoverabilityOf(r.code).replanable
    ensures RecoverabilityOf(r.code).retryable <==> error == SupervisorError(TimeoutKind)
    ensures r.code == CancelledFailure <==> error == SupervisorError(CancellationKind)
    ensures r.code == ValidationFailure <==>
        error in {SupervisorError(ValidationKind), PlanValidationError, PlanParseError}
    ensures r.code == RoutingFailure <==> error.PlanRoutingError?
    ensures r.code in {CancelledFailure, TimeoutFailure, ValidationFailure, RoutingFailure, RuntimeFailure}
  {
    FailureRecord(ThrownCode(error), attempt, if error.PlanRoutingError? then error.taskId else None, None, None, true)
  }
}

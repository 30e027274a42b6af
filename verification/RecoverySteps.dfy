/**
 * The recovery decision loop as a trail of attempts. The environment fixes, for each attempt, what
 * the supervisor does and when the abort signal is seen; everything else is determined.
 */
module RecoverySteps {
  import opened Collections
  import opened Graphs
  import opened TaskGraphs
  import opened Plans
  import opened PlanRepairs
  import opened PlanValidators
  import opened AgentRouters
  import opened TopologicalOrders
  import opened PlanIntegrations
  import opened StepNames
  import opened Failures
  import opened Replanners

  datatype Decision = Retry | Repair | Replan | AbortRun | Succeeded | GaveUp
  datatype FinalStatus = RunDone | RunFailure | RunAborted | RunTimeout

  /** What the supervisor does in one attempt, and whether the abort signal is set when it is done. */
  datatype Attempt =
    | Returned(result: SupervisorResult, aborted: bool)
    | Threw(error: ThrownError, aborted: bool)

  /** One logical run: the caller's plan, pool, strategy and budget, and the environment. */
  datatype Setting = Setting(
    plan: seq<PlanTask>,
    agents: seq<Agent>,
    strategy: Strategy,
    maxAttempts: nat,
    maxReplans: nat,
    attempt: nat -> Attempt,          // by 1-based attempt number
    abortedBefore: nat -> bool)       // by 1-based attempt number

  /** What follows an attempt. */
  datatype Next =
    | Stop(status: FinalStatus, decision: Decision)
    | Again(decision: Decision, plan: seq<PlanTask>, pool: seq<Agent>)

  datatype AttemptRecord = AttemptRecord(
    plan: seq<PlanTask>,
    pool: seq<Agent>,
    routed: seq<RoutedTask>,
    order: Option<seq<RoutedTask>>,
    failure: Option<FailureRecord>,
    next: Next)

  // ----- from strategy ids back to plan ids

  /** A step id names the task at its position; any other id is left alone. */
  function PlanIdOf(stepId: Id, order: seq<RoutedTask>): Id {
    var index := StepIndex(stepId);
    if index.Some? && index.value < |order| then order[index.value].id else stepId
  }

  function MapRef(ref: TaskFailureRef, order: seq<RoutedTask>): TaskFailureRef {
    ref.(taskId := PlanIdOf(ref.taskId, order))
  }

  function MapRefs(refs: seq<TaskFailureRef>, order: seq<RoutedTask>): (mapped: seq<TaskFailureRef>)
    ensures |mapped| == |refs| && forall i :: 0 <= i < |refs| ==> mapped[i] == MapRef(refs[i], order)
  {
    seq(|refs|, i requires 0 <= i < |refs| => MapRef(refs[i], order))
  }

  /** The failure as the replanner sees it, in plan ids. */
  function MappedFailure(failure: FailureRecord, order: seq<RoutedTask>): FailureRecord {
    if failure.taskFailures.Some?
    then failure.(taskFailures := Some(MapRefs(failure.taskFailures.value, order)))
    else failure
  }

  // ----- repair

  predicate IsUnavailable(ref: TaskFailureRef) {
    ref.code == AgentUnavailable
  }

  /** The plan tasks whose agent turned out to be unavailable. */
  function RepairTargets(failure: FailureRecord, order: seq<RoutedTask>): set<Id> {
    set r | r in Refs(failure) && IsUnavailable(r) :: PlanIdOf(r.taskId, order)
  }

  /** Every agent the failure names as unavailable. */
  function UnavailableAgents(failure: FailureRecord): set<Id> {
    (set r | r in Refs(failure) && IsUnavailable(r) && r.agentId.Some? :: r.agentId.value)
    + (if failure.agentId.Some? then {failure.agentId.value} else {})
  }

  function Evict(pool: seq<Agent>, gone: set<Id>): (left: seq<Agent>)
    ensures forall a :: a in left <==> a in pool && a.id !in gone
  {
    if pool == [] then [] else (if pool[0].id in gone then [] else [pool[0]]) + Evict(pool[1..], gone)
  }

  predicate Repairs(plan: seq<PlanTask>, targets: set<Id>) {
    exists i :: 0 <= i < |plan| && ClearsTask(plan[i], targets)
  }

  // ----- the decision

  /** What follows a failed execution. `more`: another attempt is budgeted; `spare`: another replan is. */
  ghost function NextAfter(plan: seq<PlanTask>, pool: seq<Agent>, order: seq<RoutedTask>, failure: FailureRecord,
                           aborted: bool, more: bool, spare: bool): Next {
    if aborted || failure.code == CancelledFailure then Stop(RunAborted, AbortRun)
    else if failure.code == TimeoutFailure then
      if more then Again(Retry, plan, pool) else Stop(RunTimeout, GaveUp)
    else if failure.code == AgentUnavailable && more && Repairs(plan, RepairTargets(failure, order)) then
      Again(Repair, Cleared(plan, RepairTargets(failure, order)), Evict(pool, UnavailableAgents(failure)))
    else if failure.code == DependencyFailure && more && spare
        && ReplanSpec(plan, MappedFailure(failure, order)).Replanned? then
      Again(Replan, ReplanSpec(plan, MappedFailure(failure, order)).tasks, pool)
    else Stop(RunFailure, GaveUp)
  }

  /** The failure an executed attempt leaves; None when it completed. */
  function FailureOf(attempt: Attempt, number: nat): Option<FailureRecord> {
    match attempt
    case Returned(result, _) => if result.status == RunCompleted then None else Some(Classified(result, number))
    case Threw(error, _) => Some(ClassifyThrown(error, number))
  }

  // ----- one attempt

  ghost predicate Routes(a: AttemptRecord) {
    && IsValidPlan(a.plan) && a.pool != []
    && a.routed == RoutedBy(a.pool, a.plan, 0)
  }

  /** Attempt `number` of a run that has used `replansUsed` replans so far. */
  ghost predicate AttemptFits(s: Setting, a: AttemptRecord, number: nat, replansUsed: nat) {
    var more := number + 1 <= s.maxAttempts;
    var spare := replansUsed < s.maxReplans;
    if !IsValidPlan(a.plan) then
      && a.routed == [] && a.order.None?
      && a.failure == Some(ClassifyThrown(PlanValidationError, number))
      && a.next == Stop(RunFailure, GaveUp)
    else if a.pool == [] then
      && a.routed == [] && a.order.None?
      && a.failure == Some(ClassifyThrown(PlanRoutingError(None), number))
      && a.next == Stop(RunFailure, GaveUp)
    else
      && Routes(a) && a.order == Mapped(a.routed, s.strategy)
      && if a.order.None? then
           && a.failure == Some(ClassifyThrown(PlanIntegrationError, number))
           && a.next == NextAfter(a.plan, a.pool, [], a.failure.value, s.attempt(number).aborted, more, spare)
         else
           && a.failure == FailureOf(s.attempt(number), number)
           && a.next == if a.failure.None? then Stop(RunDone, Succeeded)
                        else NextAfter(a.plan, a.pool, a.order.value, a.failure.value, s.attempt(number).aborted,
                            more, spare)
  }

  // ----- the trail

  function DecisionCount(trail: seq<AttemptRecord>, d: Decision): (n: nat)
    ensures n <= |trail|
  {
    if trail == [] then 0
    else DecisionCount(trail[..|trail| - 1], d) + (if trail[|trail| - 1].next.decision == d then 1 else 0)
  }

  ghost predicate Hands(a: AttemptRecord, b: AttemptRecord) {
    a.next.Again? && b.plan == a.next.plan && b.pool == a.next.pool
  }

  ghost predicate StartsWith(s: Setting, trail: seq<AttemptRecord>) {
    trail != [] ==> trail[0].plan == s.plan && trail[0].pool == s.agents
  }

  ghost predicate EachFits(s: Setting, trail: seq<AttemptRecord>) {
    forall i :: 0 <= i < |trail| ==> AttemptFits(s, trail[i], i + 1, DecisionCount(trail[..i], Replan))
  }

  ghost predicate EachHands(trail: seq<AttemptRecord>) {
    forall i, j :: 0 <= i < |trail| && 0 <= j < |trail| && j == i + 1 ==> Hands(trail[i], trail[j])
  }

  /** Every attempt fits, and each but the last hands its plan and pool to the next. */
  ghost predicate IsTrail(s: Setting, trail: seq<AttemptRecord>) {
    StartsWith(s, trail) && EachFits(s, trail) && EachHands(trail)
  }

  /** Where the loop stands after a trail that goes on. */
  ghost predicate Resumes(s: Setting, trail: seq<AttemptRecord>, plan: seq<PlanTask>, pool: seq<Agent>) {
    if trail == [] then plan == s.plan && pool == s.agents
    else
      var last := trail[|trail| - 1].next;
      last.Again? && plan == last.plan && pool == last.pool
  }

  lemma TrailGrows(s: Setting, trail: seq<AttemptRecord>, a: AttemptRecord)
    requires IsTrail(s, trail) && Resumes(s, trail, a.plan, a.pool)
    requires AttemptFits(s, a, |trail| + 1, DecisionCount(trail, Replan))
    ensures IsTrail(s, trail + [a])
  {
    hide AttemptFits, DecisionCount, Hands;
    var longer := trail + [a];
    forall i | 0 <= i < |longer|
      ensures AttemptFits(s, longer[i], i + 1, DecisionCount(longer[..i], Replan))
    {
      if i < |trail| {
        assert longer[..i] == trail[..i];
      } else {
        assert longer[..i] == trail;
      }
    }
    if trail != [] {
      LastHands(s, trail, a);
    }
  }

  lemma LastHands(s: Setting, trail: seq<AttemptRecord>, a: AttemptRecord)
    requires trail != [] && Resumes(s, trail, a.plan, a.pool)
    ensures Hands(trail[|trail| - 1], a)
  {
  }

  function FailuresOf(trail: seq<AttemptRecord>): seq<FailureRecord> {
    if trail == [] then []
    else FailuresOf(trail[..|trail| - 1]) +
         (if trail[|trail| - 1].failure.Some? then [trail[|trail| - 1].failure.value] else [])
  }

  /** The last result the supervisor returned, completed or not. */
  function LastResultOf(s: Setting, trail: seq<AttemptRecord>): Option<SupervisorResult> {
    if trail == [] then None
    else
      var n := |trail|;
      if trail[n - 1].order.Some? && s.attempt(n).Returned? then Some(s.attempt(n).result)
      else LastResultOf(s, trail[..n - 1])
  }

  function DecisionsOf(trail: seq<AttemptRecord>): (d: seq<Decision>)
    ensures |d| == |trail| && forall i :: 0 <= i < |trail| ==> d[i] == trail[i].next.decision
  {
    seq(|trail|, i requires 0 <= i < |trail| => trail[i].next.decision)
  }
}

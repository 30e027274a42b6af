/** The recovery manager: bounded attempts around the supervisor, each deciding how the next one differs. */
module RecoveryManagers {
  import opened Collections
  import opened Graphs
  import opened TaskGraphs
  import opened Plans
  import opened PlanRepairs
  import opened PlanValidators
  import opened AgentRouters
  import opened TopologicalOrders
  import opened PlanIntegrations
  import opened Failures
  import opened Replanners
  import opened RecoverySteps

  datatype RecoveryResult = RecoveryResult(
    status: FinalStatus,
    attempts: nat,
    repairsUsed: nat,
    replansUsed: nat,
    failures: seq<FailureRecord>,
    decisions: seq<Decision>,
    lastResult: Option<SupervisorResult>)

  class RecoveryManager {
    const agents: seq<Agent>
    const maxAttempts: nat
    const maxReplans: nat

    /** The policy's own checks: at least one attempt, any number of replans. */
    constructor (agents: seq<Agent>, maxAttempts: nat, maxReplans: nat)
      requires maxAttempts >= 1
      ensures this.agents == agents && this.maxAttempts == maxAttempts && this.maxReplans == maxReplans
    {
      this.agents, this.maxAttempts, this.maxReplans := agents, maxAttempts, maxReplans;
    }

    predicate CanAttempt(attempt: nat) {
      1 <= attempt <= maxAttempts
    }

    predicate CanReplan(replansUsed: nat) {
      replansUsed < maxReplans
    }

    ghost function SettingOf(plan: seq<PlanTask>, strategy: Strategy, attempt: nat -> Attempt,
        abortedBefore: nat -> bool): Setting {
      Setting(plan, agents, strategy, maxAttempts, maxReplans, attempt, abortedBefore)
    }

    /** After a thrown error only a retry is possible. */
    method DecideThrown(plan: seq<PlanTask>, pool: seq<Agent>, ghost order: seq<RoutedTask>, failure: FailureRecord,
                        aborted: bool, number: nat, ghost spare: bool) returns (next: Next)
      requires number >= 1 && !RecoverabilityOf(failure.code).repairable && !RecoverabilityOf(failure.code).replanable
      ensures next == NextAfter(plan, pool, order, failure, aborted, number + 1 <= maxAttempts, spare)
    {
      if aborted || failure.code == CancelledFailure {
        return Stop(RunAborted, AbortRun);
      }
      if RecoverabilityOf(failure.code).retryable && CanAttempt(number + 1) {
        return Again(Retry, plan, pool);
      }
      return Stop(if failure.code == TimeoutFailure then RunTimeout else RunFailure, GaveUp);
    }

    /** After a failed result: retry, else repair, else replan, else give up. */
    method Decide(plan: seq<PlanTask>, pool: seq<Agent>, order: seq<RoutedTask>, failure: FailureRecord,
                  aborted: bool, number: nat, replansUsed: nat) returns (next: Next)
      requires number >= 1
      ensures next == NextAfter(plan, pool, order, failure, aborted, number + 1 <= maxAttempts,
          replansUsed < maxReplans)
    {
      hide ReplanSpec;
      if aborted || failure.code == CancelledFailure {
        return Stop(RunAborted, AbortRun);
      }
      var can := RecoverabilityOf(failure.code);
      if can.retryable && CanAttempt(number + 1) {
        return Again(Retry, plan, pool);
      }
      if can.repairable && CanAttempt(number + 1) {
        var targets := TargetIds(failure, order);
        var repair := ClearAgentAssignments(plan, targets);
        RepairsIff(plan, Elements(targets));
        if repair.Some? {
          return Again(Repair, repair.value.tasks, Evict(pool, UnavailableAgents(failure)));
        }
      }
      if can.replanable && CanAttempt(number + 1) && CanReplan(replansUsed) {
        var replanned := DeterministicReplan(plan, MappedFailure(failure, order));
        if replanned.Replanned? {
          return Again(Replan, replanned.tasks, pool);
        }
      }
      return Stop(if failure.code == TimeoutFailure then RunTimeout else RunFailure, GaveUp);
    }

    /** Validate and repair, route, map onto the strategy, let the supervisor run, classify and decide. */
    method RunAttempt(ghost s: Setting, plan: seq<PlanTask>, pool: seq<Agent>, strategy: Strategy, attempt: Attempt,
                      number: nat, replansUsed: nat) returns (record: AttemptRecord)
      requires s.strategy == strategy && s.maxAttempts == maxAttempts && s.maxReplans == maxReplans
      requires number >= 1 && s.attempt(number) == attempt
      ensures record.plan == plan && record.pool == pool
      ensures AttemptFits(s, record, number, replansUsed)
    {
      hide IsValidPlan, NextAfter, Mapped, Classified, HasError, RightfulUpTo, ClassifyThrown, RoutedBy, Applied,
          SameShape, RepairedTask;
      var validated := ValidateAndRepair(pool, plan);
      if validated.Rejected? {
        return AttemptRecord(plan, pool, [], None, Some(ClassifyThrown(PlanValidationError, number)),
            Stop(RunFailure, GaveUp));
      }
      var router := CreateRouter(pool);
      if router.None? {
        return AttemptRecord(plan, pool, [], None, Some(ClassifyThrown(PlanRoutingError(None), number)),
            Stop(RunFailure, GaveUp));
      }
      var routed := router.value.Route(validated.tasks);
      RepairKeepsRouting(pool, plan, validated.tasks, 0);
      var order := MapPlan(routed.tasks, strategy);
      var failure, next;
      if order.None? {
        failure := Some(ClassifyThrown(PlanIntegrationError, number));
        next := DecideThrown(plan, pool, [], failure.value, attempt.aborted, number, replansUsed < maxReplans);
      } else {
        failure, next := Supervise(plan, pool, order.value, attempt, number, replansUsed);
      }
      return AttemptRecord(plan, pool, routed.tasks, order, failure, next);
    }

    /** The supervisor's part of an attempt. */
    method Supervise(plan: seq<PlanTask>, pool: seq<Agent>, order: seq<RoutedTask>, attempt: Attempt, number: nat,
        replansUsed: nat)
      returns (failure: Option<FailureRecord>, next: Next)
      requires number >= 1
      ensures failure == FailureOf(attempt, number)
      ensures next == if failure.None? then Stop(RunDone, Succeeded)
                      else NextAfter(plan, pool, order, failure.value, attempt.aborted, number + 1 <= maxAttempts,
                          replansUsed < maxReplans)
    {
      hide NextAfter, Classified;
      match attempt
      case Threw(error, aborted) =>
        failure := Some(ClassifyThrown(error, number));
        next := DecideThrown(plan, pool, order, failure.value, aborted, number, replansUsed < maxReplans);
      case Returned(result, aborted) =>
        if result.status == RunCompleted {
          return None, Stop(RunDone, Succeeded);
        }
        var classified := ClassifyResult(result, number);
        failure := Some(classified);
        next := Decide(plan, pool, order, classified, aborted, number, replansUsed);
    }

    /**
     * The decision loop. The trail it leaves is the one the environment determines; the result
     * reports that trail: its failures, its decisions and its counts, within the budget.
     */
    method Run(plan: seq<PlanTask>, strategy: Strategy, attempt: nat -> Attempt, abortedBefore: nat -> bool)
      returns (result: RecoveryResult, trail: seq<AttemptRecord>)
      requires maxAttempts >= 1
      ensures IsTrail(SettingOf(plan, strategy, attempt, abortedBefore), trail)
      ensures result.attempts == |trail| <= maxAttempts
      ensures result.failures == FailuresOf(trail)
      ensures result.lastResult == LastResultOf(SettingOf(plan, strategy, attempt, abortedBefore), trail)
      ensures result.repairsUsed == DecisionCount(trail, Repair)
      ensures result.replansUsed == DecisionCount(trail, Replan)
      ensures EndsWith(trail, result, abortedBefore)
    {
      hide IsTrail, AttemptFits, EndsWith, Resumes;
      ghost var s := SettingOf(plan, strategy, attempt, abortedBefore);
      var currentPlan, pool := plan, agents;
      var attempts, repairsUsed, replansUsed := 0, 0, 0;
      var failures: seq<FailureRecord>, decisions: seq<Decision>, lastResult: Option<SupervisorResult> := [], [], None;
      trail := [];
      EmptyTrail(s);
      while true
        invariant attempts == |trail| < maxAttempts
        invariant IsTrail(s, trail) && Resumes(s, trail, currentPlan, pool)
        invariant failures == FailuresOf(trail) && decisions == DecisionsOf(trail)
        invariant lastResult == LastResultOf(s, trail)
        invariant repairsUsed == DecisionCount(trail, Repair) && replansUsed == DecisionCount(trail, Replan)
        decreases maxAttempts - attempts
      {
        if abortedBefore(attempts + 1) {
          result := RecoveryResult(RunAborted, attempts, repairsUsed, replansUsed, failures,
                                   decisions + [AbortRun], lastResult);
          EndsAborted(s, trail, currentPlan, pool, result, abortedBefore);
          return;
        }
        if !CanAttempt(attempts + 1) {
          assert false;
        }
        attempts := attempts + 1;
        var record := RunAttempt(s, currentPlan, pool, strategy, attempt(attempts), attempts, replansUsed);
        TrailGrows(s, trail, record);
        AgainIsBudgeted(s, record, attempts, replansUsed);
        Extended(trail, record);
        ResultExtended(s, trail, record);
        trail := trail + [record];
        if record.failure.Some? {
          failures := failures + [record.failure.value];
        }
        if record.order.Some? && attempt(attempts).Returned? {
          lastResult := Some(attempt(attempts).result);
        }
        decisions := decisions + [record.next.decision];
        repairsUsed := repairsUsed + (if record.next.decision == Repair then 1 else 0);
        replansUsed := replansUsed + (if record.next.decision == Replan then 1 else 0);
        if record.next.Stop? {
          result := RecoveryResult(record.next.status, attempts, repairsUsed, replansUsed, failures, decisions,
              lastResult);
          EndsStopped(trail, result, abortedBefore);
          return;
        }
        currentPlan, pool := record.next.plan, record.next.pool;
        LastResumes(s, trail);
      }
    }
  }

  /** Either the last attempt stopped the run, or the abort signal was seen before another attempt. */
  ghost predicate EndsWith(trail: seq<AttemptRecord>, result: RecoveryResult, abortedBefore: nat -> bool) {
    if trail != [] && trail[|trail| - 1].next.Stop? then
      result.status == trail[|trail| - 1].next.status && result.decisions == DecisionsOf(trail)
    else
      abortedBefore(|trail| + 1) && result.status == RunAborted && result.decisions == DecisionsOf(trail) + [AbortRun]
  }

  lemma EmptyTrail(s: Setting)
    ensures IsTrail(s, []) && Resumes(s, [], s.plan, s.agents)
  {
  }

  lemma EndsAborted(s: Setting, trail: seq<AttemptRecord>, plan: seq<PlanTask>, pool: seq<Agent>,
      result: RecoveryResult,
                    abortedBefore: nat -> bool)
    requires Resumes(s, trail, plan, pool) && abortedBefore(|trail| + 1)
    requires result.status == RunAborted && result.decisions == DecisionsOf(trail) + [AbortRun]
    ensures EndsWith(trail, result, abortedBefore)
  {
  }

  lemma EndsStopped(trail: seq<AttemptRecord>, result: RecoveryResult, abortedBefore: nat -> bool)
    requires trail != [] && trail[|trail| - 1].next.Stop?
    requires result.status == trail[|trail| - 1].next.status && result.decisions == DecisionsOf(trail)
    ensures EndsWith(trail, result, abortedBefore)
  {
  }

  lemma LastResumes(s: Setting, trail: seq<AttemptRecord>)
    requires trail != [] && trail[|trail| - 1].next.Again?
    ensures Resumes(s, trail, trail[|trail| - 1].next.plan, trail[|trail| - 1].next.pool)
  {
  }

  /** The loop goes on only while another attempt is budgeted, so its own budget check never fails. */
  lemma AgainIsBudgeted(s: Setting, a: AttemptRecord, number: nat, replansUsed: nat)
    requires AttemptFits(s, a, number, replansUsed)
    ensures a.next.Again? ==> number + 1 <= s.maxAttempts
    ensures a.next.decision == Replan ==> replansUsed + 1 <= s.maxReplans
  {
    hide IsValidPlan, Mapped, ReplanSpec, Classified;
  }

  lemma Extended(trail: seq<AttemptRecord>, a: AttemptRecord)
    ensures var longer := trail + [a];
            && longer[|longer| - 1] == a
            && FailuresOf(longer) == FailuresOf(trail) + (if a.failure.Some? then [a.failure.value] else [])
            && DecisionsOf(longer) == DecisionsOf(trail) + [a.next.decision]
            && forall d :: DecisionCount(longer, d) == DecisionCount(trail, d) + (if a.next.decision == d then 1 else 0)
  {
    var longer := trail + [a];
    assert longer[..|longer| - 1] == trail;
  }

  lemma ResultExtended(s: Setting, trail: seq<AttemptRecord>, a: AttemptRecord)
    ensures LastResultOf(s, trail + [a]) ==
              if a.order.Some? && s.attempt(|trail| + 1).Returned? then Some(s.attempt(|trail| + 1).result)
              else LastResultOf(s, trail)
  {
    assert (trail + [a])[..|trail|] == trail;
  }

  /** The step ids of the unavailable agents' tasks, in plan ids. */
  function TargetIds(failure: FailureRecord, order: seq<RoutedTask>): (ids: seq<Id>)
    ensures Elements(ids) == RepairTargets(failure, order)
  {
    TargetIdsFrom(Refs(failure), order)
  }

  function TargetIdsFrom(refs: seq<TaskFailureRef>, order: seq<RoutedTask>): (ids: seq<Id>)
    ensures Elements(ids) == set r | r in refs && IsUnavailable(r) :: PlanIdOf(r.taskId, order)
  {
    if refs == [] then []
    else
      var rest := TargetIdsFrom(refs[1..], order);
      assert forall r :: r in refs <==> r == refs[0] || r in refs[1..];
      assert (set r | r in refs && IsUnavailable(r) :: PlanIdOf(r.taskId, order))
          == (set r | r in refs[1..] && IsUnavailable(r) :: PlanIdOf(r.taskId, order))
             + (if IsUnavailable(refs[0]) then {PlanIdOf(refs[0].taskId, order)} else {}) by {
        assert refs[0] in refs;
        assert forall r :: r in refs[1..] ==> r in refs;
      }
      if IsUnavailable(refs[0]) then [PlanIdOf(refs[0].taskId, order)] + rest else rest
  }

  lemma RepairsIff(plan: seq<PlanTask>, targets: set<Id>)
    ensures Repairs(plan, targets) <==> exists t :: t in plan && ClearsTask(t, targets)
  {
    if i :| 0 <= i < |plan| && ClearsTask(plan[i], targets) {
      assert plan[i] in plan;
    }
  }
}

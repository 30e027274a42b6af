/** What every trail of the recovery loop keeps, whatever the supervisor does. */
module RecoveryTrails {
  import opened Collections
  import opened Graphs
  import opened TaskGraphs
  import opened Plans
  import opened PlanRepairs
  import opened PlanValidators
  import opened AgentRouters
  import opened TopologicalOrders
  import opened PlanIntegrations
  import opened Failures
  import opened Replanners
  import opened RecoverySteps

  // ----- one attempt

  predicate CodeAllows(d: Decision, code: FailureCode) {
    match d
    case Retry => code == TimeoutFailure
    case Repair => code == AgentUnavailable
    case Replan => code == DependencyFailure
    case AbortRun => true
    case Succeeded => false
    case GaveUp => code != CancelledFailure
  }

  /** An attempt that leads to another one really ran, failed, and failed with the code its decision is for. */
  lemma AgainMeansRecoverable(s: Setting, a: AttemptRecord, number: nat, replansUsed: nat)
    requires AttemptFits(s, a, number, replansUsed) && a.next.Again?
    ensures Routes(a) && a.order.Some? && a.failure.Some?
    ensures a.next.decision in {Retry, Repair, Replan} && CodeAllows(a.next.decision, a.failure.value.code)
    ensures number < s.maxAttempts && (a.next.decision == Replan ==> replansUsed < s.maxReplans)
    ensures a.next == NextAfter(a.plan, a.pool, a.order.value, a.failure.value, false, true, replansUsed < s.maxReplans)
  {
    hide IsValidPlan, Mapped, ReplanSpec, Classified, RoutedBy;
  }

  /** An attempt that ends the run: the status tells how. */
  lemma StopMeansFinal(s: Setting, a: AttemptRecord, number: nat, replansUsed: nat)
    requires AttemptFits(s, a, number, replansUsed) && a.next.Stop?
    ensures a.failure.None? <==> a.next == Stop(RunDone, Succeeded)
    ensures a.failure.Some? ==>
              CodeAllows(a.next.decision, a.failure.value.code) || !IsValidPlan(a.plan) || a.pool == []
    ensures a.next.status == RunTimeout ==>
        a.failure.Some? && a.failure.value.code == TimeoutFailure && number >= s.maxAttempts
    ensures a.next.status == RunAborted <==> a.next.decision == AbortRun
    ensures a.next.decision !in {Retry, Repair, Replan}
  {
    hide IsValidPlan, Mapped, ReplanSpec, Classified, RoutedBy;
  }

  // ----- budgets and counts

  lemma AttemptAt(s: Setting, trail: seq<AttemptRecord>, i: nat)
    requires IsTrail(s, trail) && i < |trail|
    ensures AttemptFits(s, trail[i], i + 1, DecisionCount(trail[..i], Replan))
    ensures i + 1 < |trail| ==> Hands(trail[i], trail[i + 1])
  {
    hide AttemptFits, Hands, DecisionCount;
    var j := i + 1;
    assert j < |trail| ==> Hands(trail[i], trail[j]);
  }

  lemma TrailPrefix(s: Setting, trail: seq<AttemptRecord>, n: nat)
    requires IsTrail(s, trail) && n <= |trail|
    ensures IsTrail(s, trail[..n])
  {
    hide AttemptFits, Hands, DecisionCount;
    var front := trail[..n];
    forall i | 0 <= i < n
      ensures AttemptFits(s, front[i], i + 1, DecisionCount(front[..i], Replan))
    {
      assert front[..i] == trail[..i] && front[i] == trail[i];
    }
  }

  /** The budget: no more attempts than allowed, no more replans than allowed. */
  lemma {:induction false} BudgetKept(s: Setting, trail: seq<AttemptRecord>)
    requires IsTrail(s, trail) && s.maxAttempts >= 1
    ensures |trail| <= s.maxAttempts && DecisionCount(trail, Replan) <= s.maxReplans
  {
    hide IsTrail, AttemptFits;
    if trail != [] {
      var n := |trail| - 1;
      TrailPrefix(s, trail, n);
      BudgetKept(s, trail[..n]);
      AttemptAt(s, trail, n);
      LastCounts(s, trail[n], n + 1, DecisionCount(trail[..n], Replan));
      if n > 0 {
        AttemptAt(s, trail, n - 1);
        AgainMeansRecoverable(s, trail[n - 1], n, DecisionCount(trail[..n - 1], Replan));
      }
    }
  }

  lemma LastCounts(s: Setting, a: AttemptRecord, number: nat, replansUsed: nat)
    requires AttemptFits(s, a, number, replansUsed)
    ensures a.next.decision == Replan ==> replansUsed < s.maxReplans
  {
    hide IsValidPlan, Mapped, ReplanSpec, Classified, RoutedBy;
  }

  /** One recorded failure per attempt, except for an attempt that completed the run. */
  /** The failures are reported in the order of the attempts that left them. */
  lemma {:induction false} FailuresInOrder(trail: seq<AttemptRecord>, i: nat)
    requires i < |trail| && trail[i].failure.Some?
    ensures |FailuresOf(trail[..i])| < |FailuresOf(trail)|
    ensures FailuresOf(trail)[|FailuresOf(trail[..i])|] == trail[i].failure.value
  {
    var n := |trail| - 1;
    if i < n {
      assert trail[..n][..i] == trail[..i];
      FailuresInOrder(trail[..n], i);
    }
  }

  lemma {:induction false} FailuresCounted(s: Setting, trail: seq<AttemptRecord>)
    requires IsTrail(s, trail)
    ensures |FailuresOf(trail)| == |trail| - (if trail != []
        && trail[|trail| - 1].next == Stop(RunDone, Succeeded) then 1 else 0)
  {
    hide IsTrail, AttemptFits;
    if trail != [] {
      var n := |trail| - 1;
      TrailPrefix(s, trail, n);
      FailuresCounted(s, trail[..n]);
      AttemptAt(s, trail, n);
      FailureOrDone(s, trail[n], n + 1, DecisionCount(trail[..n], Replan));
      if n > 0 {
        AttemptAt(s, trail, n - 1);
        assert trail[..n][n - 1] == trail[n - 1];
      }
    }
  }

  lemma FailureOrDone(s: Setting, a: AttemptRecord, number: nat, replansUsed: nat)
    requires AttemptFits(s, a, number, replansUsed)
    ensures a.failure.None? <==> a.next == Stop(RunDone, Succeeded)
  {
    hide IsValidPlan, Mapped, ReplanSpec, Classified, RoutedBy;
  }

  /** Every attempt but the last was followed by the decision its failure code calls for. */
  lemma DecisionsMatchCodes(s: Setting, trail: seq<AttemptRecord>, i: nat)
    requires IsTrail(s, trail) && i + 1 < |trail|
    ensures trail[i].failure.Some? && CodeAllows(trail[i].next.decision, trail[i].failure.value.code)
    ensures DecisionsOf(trail)[i] in {Retry, Repair, Replan}
  {
    hide IsTrail, AttemptFits;
    AttemptAt(s, trail, i);
    AgainMeansRecoverable(s, trail[i], i + 1, DecisionCount(trail[..i], Replan));
  }

  // ----- plans

  /** The same task but for its agent and capability requirements. */
  predicate SameTask(u: PlanTask, t: PlanTask) {
    u.id == t.id && u.prompt == t.prompt && u.dependsOn == t.dependsOn && u.timeoutMs == t.timeoutMs
  }

  /** What one decision does to the plan: nothing, dropped agents, or a pruned part. */
  ghost predicate OnlyPruned(before: seq<PlanTask>, after: seq<PlanTask>) {
    forall t :: t in after ==> exists u :: u in before && SameTask(u, t)
  }

  lemma AgainKeepsValid(s: Setting, a: AttemptRecord, number: nat, replansUsed: nat)
    requires AttemptFits(s, a, number, replansUsed) && a.next.Again?
    ensures IsValidPlan(a.next.plan) && OnlyPruned(a.plan, a.next.plan)
    ensures forall x :: x in a.next.pool ==> x in a.pool
  {
    hide IsValidPlan, AttemptFits, ReplanSpec;
    AgainMeansRecoverable(s, a, number, replansUsed);
    RoutesIsValid(a);
    var failure, order := a.failure.value, a.order.value;
    if a.next.decision == Repair {
      ClearedKeepsShape(a.plan, RepairTargets(failure, order));
    } else if a.next.decision == Replan {
      ReplanKeepsValid(a.plan, MappedFailure(failure, order));
      ReplanOnlyPrunes(a.plan, MappedFailure(failure, order));
    }
  }

  lemma RoutesIsValid(a: AttemptRecord)
    requires Routes(a)
    ensures IsValidPlan(a.plan) && a.pool != []
  {
  }

  lemma ClearedKeepsShape(plan: seq<PlanTask>, targets: set<Id>)
    requires IsValidPlan(plan)
    ensures IsValidPlan(Cleared(plan, targets)) && OnlyPruned(plan, Cleared(plan, targets))
  {
    var after := Cleared(plan, targets);
    SameShapeValid(plan, after);
    forall t | t in after
      ensures exists u :: u in plan && SameTask(u, t)
    {
      var i :| 0 <= i < |after| && after[i] == t;
      assert plan[i] in plan;
    }
  }

  lemma ReplanOnlyPrunes(plan: seq<PlanTask>, failure: FailureRecord)
    requires ReplanSpec(plan, failure).Replanned?
    ensures OnlyPruned(plan, ReplanSpec(plan, failure).tasks)
  {
    hide Doomed, DoomedSet;
  }

  /** Validation and routing to a non-empty pool can only fail before the first execution. */
  lemma LaterPlansAreValid(s: Setting, trail: seq<AttemptRecord>, i: nat)
    requires IsTrail(s, trail) && 0 < i < |trail|
    ensures IsValidPlan(trail[i].plan)
  {
    hide IsTrail, AttemptFits, IsValidPlan;
    AttemptAt(s, trail, i - 1);
    AgainKeepsValid(s, trail[i - 1], i, DecisionCount(trail[..i - 1], Replan));
  }

  /** Over the whole run, tasks only disappear: ids, prompts and dependencies of those that stay never change. */
  lemma {:induction false} PlansOnlyShrink(s: Setting, trail: seq<AttemptRecord>, i: nat, j: nat)
    requires IsTrail(s, trail) && i <= j < |trail|
    ensures OnlyPruned(trail[i].plan, trail[j].plan)
    decreases j - i
  {
    hide IsTrail, AttemptFits;
    if i < j {
      PlansOnlyShrink(s, trail, i, j - 1);
      AttemptAt(s, trail, j - 1);
      AgainKeepsValid(s, trail[j - 1], j, DecisionCount(trail[..j - 1], Replan));
    }
  }

  // ----- determinism

  lemma AttemptDetermined(s: Setting, a: AttemptRecord, b: AttemptRecord, number: nat, replansUsed: nat)
    requires AttemptFits(s, a, number, replansUsed) && AttemptFits(s, b, number, replansUsed)
    requires a.plan == b.plan && a.pool == b.pool
    ensures a == b
  {
    hide IsValidPlan, Mapped, NextAfter, RoutedBy, FailureOf;
  }

  /** The environment leaves no choice: of two trails of one setting the shorter is a prefix of the longer. */
  lemma {:induction false} TrailsAgree(s: Setting, a: seq<AttemptRecord>, b: seq<AttemptRecord>, n: nat)
    requires IsTrail(s, a) && IsTrail(s, b) && n <= |a| && n <= |b|
    ensures a[..n] == b[..n]
  {
    hide IsTrail, AttemptFits, Hands, DecisionCount;
    if n > 0 {
      TrailsAgree(s, a, b, n - 1);
      AttemptAt(s, a, n - 1);
      AttemptAt(s, b, n - 1);
      SameStart(s, a, b, n);
      AttemptDetermined(s, a[n - 1], b[n - 1], n, DecisionCount(a[..n - 1], Replan));
      assert a[..n] == a[..n - 1] + [a[n - 1]] && b[..n] == b[..n - 1] + [b[n - 1]];
    }
  }

  lemma SameStart(s: Setting, a: seq<AttemptRecord>, b: seq<AttemptRecord>, n: nat)
    requires IsTrail(s, a) && IsTrail(s, b) && 0 < n <= |a| && n <= |b| && a[..n - 1] == b[..n - 1]
    ensures a[n - 1].plan == b[n - 1].plan && a[n - 1].pool == b[n - 1].pool
  {
    hide AttemptFits, DecisionCount, EachFits;
    if n > 1 {
      assert a[..n - 1][n - 2] == a[n - 2] && b[..n - 1][n - 2] == b[n - 2];
      assert Hands(a[n - 2], a[n - 1]) && Hands(b[n - 2], b[n - 1]);
    }
  }

  // ----- pools

  lemma RoutedIsPooled(s: Setting, a: AttemptRecord, number: nat, replansUsed: nat, t: RoutedTask)
    requires AttemptFits(s, a, number, replansUsed) && t in a.routed
    ensures KnowsAgent(a.pool, t.agentId)
  {
    hide IsValidPlan, Mapped, NextAfter, RoutedBy;
    if a.routed != [] {
      RoutedByIsPooled(a.pool, a.plan, 0, t);
    }
  }
}

/**
 * Whole recovery runs of a sequential plan: whatever mixture of retries, repairs and replans a run
 * goes through, each attempt runs the first tasks of every earlier attempt, in the same order.
 */
module SequentialRuns {
  import opened Collections
  import opened Graphs
  import opened TaskGraphs
  import opened Plans
  import opened PlanRepairs
  import opened PlanValidators
  import opened AgentRouters
  import opened TopologicalOrders
  import opened PlanIntegrations
  import opened Sequentials
  import opened Failures
  import opened Replanners
  import opened RecoverySteps
  import opened RecoveryTrails
  import opened SequentialRecoveries

  /** A failed result of the attempt is the report of its chain, as `RunSequentialAttempt` gives it. */
  ghost predicate ReportsChain(s: Setting, a: AttemptRecord, number: nat) {
    a.order.Some? && s.attempt(number).Returned? && s.attempt(number).result.status == RunFailed ==>
      exists run: nat -> TaskOutcome :: s.attempt(number).result.entries == SequentialEntries(a.order.value, run)
  }

  predicate IsPrefix(p: seq<Id>, q: seq<Id>) {
    |p| <= |q| && p == q[..|p|]
  }

  // ----- one replan

  lemma {:induction false} FirstFailing(run: nat -> TaskOutcome, i: nat) returns (k: nat)
    requires run(i).status != Completed
    ensures k <= i && BreaksAt(run, k)
    decreases i
  {
    if j: nat :| j < i && run(j).status != Completed {
      k := FirstFailing(run, j);
    } else {
      k := i;
    }
  }

  lemma ChainBreak(run: nat -> TaskOutcome, i: nat) returns (k: nat)
    requires ChainOutcome(run, i).status != Completed
    ensures k <= i && BreaksAt(run, k)
  {
    if j: nat :| j < i && run(j).status != Completed {
      k := FirstFailing(run, j);
    } else {
      ChainPrefixCompletes(run, i);
      k := i;
    }
  }

  /** A chain with a failure reference broke somewhere. */
  lemma ReferencedBreak(order: seq<RoutedTask>, run: nat -> TaskOutcome) returns (k: nat)
    requires FailureRefs(SequentialEntries(order, run)) != []
    ensures k < |order| && BreaksAt(run, k)
  {
    hide FailureRefs, ChainOutcome, BreaksAt;
    var entries := SequentialEntries(order, run);
    var ref := FailureRefs(entries)[0];
    assert ref in FailureRefs(entries);
    RefsMembers(entries, ref);
    var e :| 0 <= e < |entries| && entries[e].outcome.status != Completed;
    assert entries[e].outcome == ChainOutcome(run, e);
    k := ChainBreak(run, e);
  }

  lemma PrimaryIsCarried(refs: seq<TaskFailureRef>)
    requires PrimaryCode(refs) == DependencyFailure
    ensures refs != []
  {
  }

  /** A replan always answers a broken chain, and keeps the tasks before the break. */
  lemma ReplanKeepsPrefix(s: Setting, a: AttemptRecord, number: nat, replansUsed: nat) returns (k: nat)
    requires AttemptFits(s, a, number, replansUsed) && s.strategy == Sequential && ReportsChain(s, a, number)
    requires a.next.Again? && a.next.decision == Replan
    ensures a.order.Some? && k < |a.order.value|
    ensures a.next.plan == Survivors(a.plan, IdSet(a.order.value[k..]))
  {
    hide IsValidPlan, Mapped, Classified, ReplanSpec, RoutedBy, BreaksAt, SequentialEntries, FailureRefs,
        PrimaryCode, TopologicalOrder, Survivors, IdSet;
    AgainMeansRecoverable(s, a, number, replansUsed);
    RoutedOrder(s, a, number, replansUsed);
    var order := a.order.value;
    var run := FailedChain(s, a, number);
    BrokenChainRecord(order, run, number);
    PrimaryIsCarried(FailureRefs(SequentialEntries(order, run)));
    k := ReferencedBreak(order, run);
    OrderIsLinearization(a.routed);
    ReplanOfChain(a.plan, a.routed, order, run, k, number);
  }

  /** Only a returned, failed run is classified as a dependency failure. */
  lemma FailedChain(s: Setting, a: AttemptRecord, number: nat) returns (run: nat -> TaskOutcome)
    requires ReportsChain(s, a, number) && a.order.Some?
    requires a.failure == FailureOf(s.attempt(number), number) && a.failure.Some?
    requires a.failure.value.code == DependencyFailure
    ensures a.failure.value == Classified(SupervisorResult(RunFailed, SequentialEntries(a.order.value, run)), number)
  {
    var result := s.attempt(number).result;
    assert result.status == RunFailed;
    run :| result.entries == SequentialEntries(a.order.value, run);
    assert result == SupervisorResult(RunFailed, SequentialEntries(a.order.value, run));
  }

  lemma ReplanOfChain(plan: seq<PlanTask>, routed: seq<RoutedTask>, order: seq<RoutedTask>, run: nat -> TaskOutcome,
      k: nat, number: nat)
    requires RoutesTo(plan, routed) && IsLinearization(order, routed) && BreaksAt(run, k) && k < |order|
    ensures var spec := ReplanSpec(plan, MappedFailure(Classified(
                SupervisorResult(RunFailed, SequentialEntries(order, run)), number), order));
            spec.Replanned? ==> spec.tasks == Survivors(plan, IdSet(order[k..]))
  {
    hide IsLinearization, DoomedSet, BreaksAt, RemovedIds, Survivors, Classified, MappedFailure, RefIds, Refs,
        PrimaryCode, IdSet;
    BrokenChainFailedIds(order, run, k);
    BrokenChainRecord(order, run, number);
    DoomedSuffix(plan, routed, order, k);
  }

  // ----- one decision

  lemma ClearedRoutes(plan: seq<PlanTask>, targets: set<Id>, routed: seq<RoutedTask>)
    requires RoutesTo(Cleared(plan, targets), routed)
    ensures RoutesTo(plan, routed)
  {
  }

  /** Retries and repairs keep the order of the tasks; a replan cuts it at the break. */
  lemma NextOrderIsPrefix(s: Setting, a: AttemptRecord, b: AttemptRecord, number: nat, used: nat, usedNext: nat)
    requires AttemptFits(s, a, number, used) && AttemptFits(s, b, number + 1, usedNext) && Hands(a, b)
    requires s.strategy == Sequential && ReportsChain(s, a, number) && b.order.Some?
    ensures a.order.Some? && IsPrefix(Ids(b.order.value), Ids(a.order.value))
    ensures a.next.decision == Replan ==> |b.order.value| < |a.order.value|
    ensures a.next.decision != Replan ==> |b.order.value| == |a.order.value|
  {
    hide AttemptFits, ReplanSpec, TopologicalOrder, Survivors, IdSet, ReportsChain;
    AgainMeansRecoverable(s, a, number, used);
    RoutedOrder(s, a, number, used);
    RoutedOrder(s, b, number + 1, usedNext);
    if a.next.decision == Replan {
      var k := ReplanKeepsPrefix(s, a, number, used);
      SurvivorsOrder(a.plan, a.routed, k, b.routed);
    } else {
      if a.next.decision == Repair {
        ClearedRoutes(a.plan, RepairTargets(a.failure.value, a.order.value), b.routed);
      }
      SameRouting(a.plan, a.routed, b.routed);
      OrderIgnoresAgents(a.routed, b.routed);
    }
  }

  // ----- the whole run

  ghost predicate EachReportsChain(s: Setting, trail: seq<AttemptRecord>) {
    forall i :: 0 <= i < |trail| ==> ReportsChain(s, trail[i], i + 1)
  }

  /**
   * Over a whole run every attempt runs, in the same order, the first tasks of every attempt before
   * it, and each replan in between has taken away at least one of them.
   */
  lemma {:induction false} LaterOrdersArePrefixes(s: Setting, trail: seq<AttemptRecord>, i: nat, j: nat)
    requires IsTrail(s, trail) && s.strategy == Sequential && EachReportsChain(s, trail)
    requires i <= j < |trail| && trail[j].order.Some?
    ensures trail[i].order.Some? && IsPrefix(Ids(trail[j].order.value), Ids(trail[i].order.value))
    ensures |trail[j].order.value| + DecisionCount(trail[..j], Replan)
         <= |trail[i].order.value| + DecisionCount(trail[..i], Replan)
    decreases j - i
  {
    hide IsTrail, AttemptFits, Hands, IsPrefix, ReportsChain;
    if i < j {
      AttemptAt(s, trail, j - 1);
      AttemptAt(s, trail, j);
      NextOrderIsPrefix(s, trail[j - 1], trail[j], j, DecisionCount(trail[..j - 1], Replan),
                        DecisionCount(trail[..j], Replan));
      assert trail[..j][..j - 1] == trail[..j - 1];
      LaterOrdersArePrefixes(s, trail, i, j - 1);
      PrefixTransitive(Ids(trail[j].order.value), Ids(trail[j - 1].order.value), Ids(trail[i].order.value));
    } else {
      PrefixReflexive(Ids(trail[j].order.value));
    }
  }

  lemma PrefixReflexive(p: seq<Id>)
    ensures IsPrefix(p, p)
  {
  }

  lemma PrefixTransitive(p: seq<Id>, q: seq<Id>, r: seq<Id>)
    requires IsPrefix(p, q) && IsPrefix(q, r)
    ensures IsPrefix(p, r)
  {
  }
}

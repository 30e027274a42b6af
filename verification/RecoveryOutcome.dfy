/**
 * What an attempt's own report leads to, read off its entries: which decision follows, which tasks
 * lose their agent, which agents leave the pool and which tasks are pruned.
 */
module RecoveryOutcomes {
  import opened Collections
  import opened Graphs
  import opened TaskGraphs
  import opened Plans
  import opened PlanRepairs
  import opened PlanValidators
  import opened AgentRouters
  import opened TopologicalOrders
  import opened PlanIntegrations
  import opened Sequentials
  import opened Failures
  import opened Replanners
  import opened RecoverySteps
  import opened RecoveryTrails
  import opened SequentialRecoveries

  /** The agents that entries of the report found missing. */
  ghost function MissingAgents(entries: seq<ReportEntry>): set<Id> {
    set i | 0 <= i < |entries| && MissedAgent(entries[i].outcome) && entries[i].agentId.Some? :: entries[i].agentId.value
  }

  /** The plan tasks whose entries found their agent missing. */
  ghost function MissedTasks(entries: seq<ReportEntry>, order: seq<RoutedTask>): set<Id> {
    set i | 0 <= i < |entries| && MissedAgent(entries[i].outcome) :: PlanIdOf(entries[i].taskId, order)
  }

  /** The plan tasks whose entries did not complete. */
  ghost function FailedTasks(entries: seq<ReportEntry>, order: seq<RoutedTask>): set<Id> {
    set i | 0 <= i < |entries| && entries[i].outcome.status != Completed :: PlanIdOf(entries[i].taskId, order)
  }

  ghost function AgentsBut(pool: seq<Agent>, gone: set<Id>): seq<Agent> {
    Only(pool, set x | x in pool && x.id !in gone)
  }

  /** What is left of a plan without the failed tasks and everything that depends on them. */
  ghost function TasksBut(plan: seq<PlanTask>, failed: set<Id>): seq<PlanTask> {
    Only(plan, set t | t in plan && !Doomed(plan, failed, t.id))
  }

  // ----- references and entries

  lemma RefOfEntry(entries: seq<ReportEntry>, ref: TaskFailureRef) returns (i: nat)
    requires ref in FailureRefs(entries)
    ensures i < |entries| && entries[i].outcome.status != Completed && RefOf(entries[i]) == ref
  {
    hide CodeForOutcome, FailureRefs;
    RefsMembers(entries, ref);
    i :| 0 <= i < |entries| && entries[i].outcome.status != Completed && RefOf(entries[i]) == ref;
  }

  lemma EntryIsReferenced(entries: seq<ReportEntry>, i: nat)
    requires i < |entries| && entries[i].outcome.status != Completed
    ensures RefOf(entries[i]) in FailureRefs(entries)
  {
    hide CodeForOutcome, FailureRefs;
    RefsMembers(entries, RefOf(entries[i]));
  }

  lemma UnavailableMeansMissed(entry: ReportEntry)
    ensures entry.outcome.status != Completed && IsUnavailable(RefOf(entry)) <==> MissedAgent(entry.outcome)
  {
  }

  lemma TargetsAreMissed(result: SupervisorResult, number: nat, order: seq<RoutedTask>)
    requires result.status == RunFailed
    ensures RepairTargets(Classified(result, number), order) == MissedTasks(result.entries, order)
  {
    hide FailureRefs, PrimaryCode, FirstWithCode, PlanIdOf, MissedAgent, IsUnavailable, RefOf, CodeForOutcome;
    var refs := FailureRefs(result.entries);
    RecordRefs(result, number);
    forall u | u in RepairTargets(Classified(result, number), order)
      ensures u in MissedTasks(result.entries, order)
    {
      var r :| r in refs && IsUnavailable(r) && PlanIdOf(r.taskId, order) == u;
      var i := RefOfEntry(result.entries, r);
      UnavailableMeansMissed(result.entries[i]);
      RefFields(result.entries[i]);
    }
    forall u | u in MissedTasks(result.entries, order)
      ensures u in RepairTargets(Classified(result, number), order)
    {
      var i :| 0 <= i < |result.entries| && MissedAgent(result.entries[i].outcome)
          && PlanIdOf(result.entries[i].taskId, order) == u;
      UnavailableMeansMissed(result.entries[i]);
      EntryIsReferenced(result.entries, i);
      RefFields(result.entries[i]);
    }
  }

  lemma RecordRefs(result: SupervisorResult, number: nat)
    ensures Refs(Classified(result, number)) == FailureRefs(result.entries)
  {
    hide FailureRefs, PrimaryCode, FirstWithCode;
  }

  lemma RefFields(entry: ReportEntry)
    ensures RefOf(entry).taskId == entry.taskId && RefOf(entry).agentId == entry.agentId
  {
  }

  lemma GoneAreMissing(result: SupervisorResult, number: nat)
    requires result.status == RunFailed && Classified(result, number).code == AgentUnavailable
    ensures UnavailableAgents(Classified(result, number)) == MissingAgents(result.entries)
  {
    hide FailureRefs, MissedAgent, IsUnavailable, RefOf, CodeForOutcome;
    var refs := FailureRefs(result.entries);
    RecordRefs(result, number);
    PrimaryAgent(result, number);
    var gone := UnavailableAgents(Classified(result, number));
    forall x | x in gone
      ensures x in MissingAgents(result.entries)
    {
      var r :| r in refs && IsUnavailable(r) && r.agentId == Some(x);
      var i := RefOfEntry(result.entries, r);
      UnavailableMeansMissed(result.entries[i]);
      RefFields(result.entries[i]);
    }
    forall x | x in MissingAgents(result.entries)
      ensures x in gone
    {
      var i :| 0 <= i < |result.entries| && MissedAgent(result.entries[i].outcome)
          && result.entries[i].agentId.Some? && result.entries[i].agentId.value == x;
      UnavailableMeansMissed(result.entries[i]);
      EntryIsReferenced(result.entries, i);
      RefFields(result.entries[i]);
    }
  }

  /** The agent in the record is that of a reference that is unavailable itself. */
  lemma PrimaryAgent(result: SupervisorResult, number: nat)
    requires result.status == RunFailed && Classified(result, number).code == AgentUnavailable
    ensures Classified(result, number).agentId.Some? ==>
        exists r :: r in FailureRefs(result.entries) && IsUnavailable(r) && r.agentId == Classified(result, number).agentId
  {
    hide FailureRefs;
    var first := FirstWithCode(FailureRefs(result.entries), AgentUnavailable);
    if first.Some? {
      assert first.value in FailureRefs(result.entries) && IsUnavailable(first.value);
    }
  }

  lemma FailedIdsAreFailed(result: SupervisorResult, number: nat, order: seq<RoutedTask>)
    ensures RefIds(Refs(MappedFailure(Classified(result, number), order))) == FailedTasks(result.entries, order)
  {
    hide FailureRefs, PlanIdOf, RefOf, CodeForOutcome, PrimaryCode, FirstWithCode;
    var refs := FailureRefs(result.entries);
    RecordRefs(result, number);
    assert Refs(MappedFailure(Classified(result, number), order)) == MapRefs(refs, order);
    var ids := RefIds(MapRefs(refs, order));
    forall u | u in ids
      ensures u in FailedTasks(result.entries, order)
    {
      MappedIds(refs, order, u);
      var r :| r in refs && MapRef(r, order).taskId == u;
      var i := RefOfEntry(result.entries, r);
      RefFields(result.entries[i]);
    }
    forall u | u in FailedTasks(result.entries, order)
      ensures u in ids
    {
      var i :| 0 <= i < |result.entries| && result.entries[i].outcome.status != Completed
          && PlanIdOf(result.entries[i].taskId, order) == u;
      EntryIsReferenced(result.entries, i);
      RefFields(result.entries[i]);
      assert MapRef(RefOf(result.entries[i]), order).taskId == u;
      MappedIds(refs, order, u);
    }
  }

  lemma {:induction false} EvictKeepsOthers(pool: seq<Agent>, gone: set<Id>)
    ensures Evict(pool, gone) == AgentsBut(pool, gone)
  {
    if pool != [] {
      EvictKeepsOthers(pool[1..], gone);
      assert forall x :: x in pool[1..] ==> x in pool;
      OnlySame(pool[1..], set x | x in pool && x.id !in gone, set x | x in pool[1..] && x.id !in gone);
      assert pool[0] in pool;
    }
  }

  lemma {:induction false} SurvivorsKeepOthers(plan: seq<PlanTask>, remove: set<Id>)
    ensures Survivors(plan, remove) == Only(plan, set t | t in plan && t.id !in remove)
  {
    if plan != [] {
      SurvivorsKeepOthers(plan[1..], remove);
      assert forall t :: t in plan[1..] ==> t in plan;
      OnlySame(plan[1..], set t | t in plan && t.id !in remove, set t | t in plan[1..] && t.id !in remove);
      assert plan[0] in plan;
      SurvivorsCons(plan, remove);
    }
  }

  /** A replan reports exactly the pruned tasks, in plan order. */
  lemma {:induction false} RemovedAreRest(plan: seq<PlanTask>, remove: set<Id>)
    ensures RemovedIds(plan, remove) == PlanIds(Only(plan, set t | t in plan && t.id in remove))
  {
    var gone := set t | t in plan && t.id in remove;
    if plan != [] {
      hide PlanIds;
      var rest := plan[1..];
      RemovedAreRest(rest, remove);
      assert plan == [plan[0]] + rest && plan[0] in plan && forall t :: t in rest ==> t in plan;
      OnlyCons(plan[0], rest, gone);
      OnlySame(rest, gone, set t | t in rest && t.id in remove);
      PlanIdsCons(plan[0], Only(rest, gone));
    } else {
      assert PlanIds(Only(plan, gone)) == [];
    }
  }

  lemma PrunedIsRest(plan: seq<PlanTask>, failed: set<Id>)
    ensures Survivors(plan, DoomedSet(plan, failed)) == TasksBut(plan, failed)
  {
    hide Doomed;
    SurvivorsKeepOthers(plan, DoomedSet(plan, failed));
    assert (set t | t in plan && t.id !in DoomedSet(plan, failed)) == set t | t in plan && !Doomed(plan, failed, t.id);
  }

  // ----- the decision

  /** Some targeted task names its agent itself, so that clearing it changes something. */
  ghost predicate CanReassign(plan: seq<PlanTask>, targets: set<Id>) {
    exists t :: t in plan && t.id in targets && t.agentId.Some?
  }

  ghost predicate Executed(s: Setting, a: AttemptRecord, number: nat, replansUsed: nat, result: SupervisorResult) {
    AttemptFits(s, a, number, replansUsed) && a.order.Some? && s.attempt(number) == Returned(result, false)
  }

  lemma ExecutedNext(s: Setting, a: AttemptRecord, number: nat, replansUsed: nat, result: SupervisorResult)
    requires Executed(s, a, number, replansUsed, result) && result.status != RunCompleted
    ensures a.failure == Some(Classified(result, number))
    ensures a.next == NextAfter(a.plan, a.pool, a.order.value, Classified(result, number), false,
        number < s.maxAttempts, replansUsed < s.maxReplans)
  {
    hide IsValidPlan, Mapped, NextAfter, Classified, RoutedBy;
  }

  /** A missing agent: the tasks it hit lose their agent and the agents it names leave the pool. */
  lemma MissedAgentIsRepaired(s: Setting, a: AttemptRecord, number: nat, replansUsed: nat, result: SupervisorResult)
    requires Executed(s, a, number, replansUsed, result) && result.status == RunFailed
    requires SomeEntry(result.entries, MissedAgent)
    ensures var targets := MissedTasks(result.entries, a.order.value);
            a.next == if number < s.maxAttempts && CanReassign(a.plan, targets)
                      then Again(Repair, Cleared(a.plan, targets), AgentsBut(a.pool, MissingAgents(result.entries)))
                      else Stop(RunFailure, GaveUp)
  {
    hide AttemptFits, Classified, SomeEntry, RepairTargets, UnavailableAgents, MissedTasks, MissingAgents, AgentsBut,
        Evict, ReplanSpec;
    ExecutedNext(s, a, number, replansUsed, result);
    ResultMeansEntries(result, number);
    TargetsAreMissed(result, number, a.order.value);
    GoneAreMissing(result, number);
    EvictKeepsOthers(a.pool, MissingAgents(result.entries));
    ReassignsIff(a.plan, MissedTasks(result.entries, a.order.value));
  }

  lemma ReassignsIff(plan: seq<PlanTask>, targets: set<Id>)
    ensures Repairs(plan, targets) <==> CanReassign(plan, targets)
  {
    if i :| 0 <= i < |plan| && ClearsTask(plan[i], targets) {
      assert plan[i] in plan;
    }
  }

  /** A dependency failure: the failed tasks and everything that depends on them are pruned. */
  lemma DependencyFailureIsReplanned(s: Setting, a: AttemptRecord, number: nat, replansUsed: nat,
      result: SupervisorResult)
    requires Executed(s, a, number, replansUsed, result) && result.status == RunFailed
    requires !SomeEntry(result.entries, MissedAgent) && SomeEntry(result.entries, FellWithDependency)
    ensures var left := TasksBut(a.plan, FailedTasks(result.entries, a.order.value));
            a.next == if number < s.maxAttempts && replansUsed < s.maxReplans && left != []
                      then Again(Replan, left, a.pool) else Stop(RunFailure, GaveUp)
  {
    hide AttemptFits, Classified, RepairTargets, UnavailableAgents, FailedTasks, TasksBut, Survivors, DoomedSet,
        MappedFailure, RefIds, RemovedIds, FellWithDependency, MissedAgent;
    ExecutedNext(s, a, number, replansUsed, result);
    ResultMeansEntries(result, number);
    FailedIdsAreFailed(result, number, a.order.value);
    MappedCode(result, number, a.order.value);
    SomeTaskFailed(result.entries, a.order.value);
    PrunedIsRest(a.plan, FailedTasks(result.entries, a.order.value));
  }

  lemma MappedCode(result: SupervisorResult, number: nat, order: seq<RoutedTask>)
    ensures MappedFailure(Classified(result, number), order).code == Classified(result, number).code
  {
    hide Classified;
  }

  lemma SomeTaskFailed(entries: seq<ReportEntry>, order: seq<RoutedTask>)
    requires SomeEntry(entries, FellWithDependency)
    ensures FailedTasks(entries, order) != {}
  {
    var i :| 0 <= i < |entries| && FellWithDependency(entries[i].outcome);
    assert PlanIdOf(entries[i].taskId, order) in FailedTasks(entries, order);
  }

  /** A timeout without either is retried, a cancellation aborts the run, anything else ends it. */
  lemma OtherFailures(s: Setting, a: AttemptRecord, number: nat, replansUsed: nat, result: SupervisorResult)
    requires Executed(s, a, number, replansUsed, result) && result.status == RunFailed
    requires !SomeEntry(result.entries, MissedAgent) && !SomeEntry(result.entries, FellWithDependency)
    ensures a.next ==
            if SomeEntry(result.entries, RanOutOfTime) then
              if number < s.maxAttempts then Again(Retry, a.plan, a.pool) else Stop(RunTimeout, GaveUp)
            else if SomeEntry(result.entries, WasCancelled) then Stop(RunAborted, AbortRun)
            else Stop(RunFailure, GaveUp)
  {
    hide AttemptFits, Classified, SomeEntry, RepairTargets, UnavailableAgents, ReplanSpec;
    ExecutedNext(s, a, number, replansUsed, result);
    ResultMeansEntries(result, number);
  }

  /** The other statuses decide by themselves. */
  lemma OtherStatuses(s: Setting, a: AttemptRecord, number: nat, replansUsed: nat, result: SupervisorResult)
    requires Executed(s, a, number, replansUsed, result)
    ensures result.status == RunCompleted ==> a.next == Stop(RunDone, Succeeded)
    ensures result.status == RunCancelled ==> a.next == Stop(RunAborted, AbortRun)
    ensures result.status == RunTimedOut ==>
        a.next == if number < s.maxAttempts then Again(Retry, a.plan, a.pool) else Stop(RunTimeout, GaveUp)
  {
    hide IsValidPlan, Mapped, RoutedBy, ReplanSpec, RepairTargets, UnavailableAgents, Evict, FailureRefs;
    if result.status != RunCompleted {
      ExecutedNext(s, a, number, replansUsed, result);
    }
  }

  /** Once the signal is set a failed attempt is the last one, whatever it reports. */
  lemma AbortedIsLast(s: Setting, a: AttemptRecord, number: nat, replansUsed: nat)
    requires AttemptFits(s, a, number, replansUsed) && a.order.Some? && s.attempt(number).aborted
    ensures a.failure.Some? ==> a.next == Stop(RunAborted, AbortRun)
  {
    hide IsValidPlan, Mapped, RoutedBy, ReplanSpec, RepairTargets, UnavailableAgents, Evict, FailureOf;
  }

  /** After a thrown error only a supervisor timeout is tried again; a cancellation aborts the run. */
  lemma ThrownErrors(s: Setting, a: AttemptRecord, number: nat, replansUsed: nat, error: ThrownError)
    requires AttemptFits(s, a, number, replansUsed) && a.order.Some? && s.attempt(number) == Threw(error, false)
    ensures a.next ==
            if error == SupervisorError(TimeoutKind) then
              if number < s.maxAttempts then Again(Retry, a.plan, a.pool) else Stop(RunTimeout, GaveUp)
            else if error == SupervisorError(CancellationKind) then Stop(RunAborted, AbortRun)
            else Stop(RunFailure, GaveUp)
  {
    hide IsValidPlan, Mapped, RoutedBy, ReplanSpec, RepairTargets, UnavailableAgents, Evict, FailureRefs;
  }

  /** What cannot even be executed ends the run: an invalid plan, an empty pool, a plan the strategy refuses. */
  lemma RefusedAttempts(s: Setting, a: AttemptRecord, number: nat, replansUsed: nat)
    requires AttemptFits(s, a, number, replansUsed) && a.order.None?
    ensures a.next.Stop? && a.next.decision in {GaveUp, AbortRun}
    ensures !IsValidPlan(a.plan) || a.pool == [] || !s.attempt(number).aborted ==> a.next == Stop(RunFailure, GaveUp)
    ensures a.failure.Some? && a.failure.value.thrown
  {
    hide IsValidPlan, Mapped, RoutedBy, ReplanSpec, RepairTargets, UnavailableAgents, Evict;
  }

  /** The result a run reports is that of the latest attempt that returned one. */
  lemma {:induction false} LastResultIsLatest(s: Setting, trail: seq<AttemptRecord>, n: nat)
    requires 0 < n <= |trail| && trail[n - 1].order.Some? && s.attempt(n).Returned?
    requires forall i :: n <= i < |trail| ==> !(trail[i].order.Some? && s.attempt(i + 1).Returned?)
    ensures LastResultOf(s, trail) == Some(s.attempt(n).result)
  {
    if n < |trail| {
      LastResultIsLatest(s, trail[..|trail| - 1], n);
    }
  }

  // ----- sequential runs whose last step fails

  lemma LastStepEntries(order: seq<RoutedTask>, run: nat -> TaskOutcome, p: TaskOutcome -> bool)
    requires order != [] && BreaksAt(run, |order| - 1) && forall o: TaskOutcome :: p(o) ==> o.status != Completed
    ensures SomeEntry(SequentialEntries(order, run), p) <==> p(run(|order| - 1))
  {
    hide ChainOutcome, StepId;
    var entries, last := SequentialEntries(order, run), |order| - 1;
    forall i | 0 <= i <= last
      ensures entries[i].outcome == run(i)
    {
      ChainShape(run, last, i);
    }
    if p(run(last)) {
      assert p(entries[last].outcome);
    }
  }

  /** A chain that fails at its last step alone: what follows depends on how that step failed. */
  lemma LastStepDecides(s: Setting, a: AttemptRecord, number: nat, replansUsed: nat, run: nat -> TaskOutcome)
    requires AttemptFits(s, a, number, replansUsed) && a.order.Some? && a.order.value != []
    requires var entries := SequentialEntries(a.order.value, run);
             s.attempt(number) == Returned(SupervisorResult(RunFailed, entries), false)
    requires BreaksAt(run, |a.order.value| - 1) && run(|a.order.value| - 1).status == Failed
    ensures var error := run(|a.order.value| - 1).error;
            && (error.TimedOut? ==>
                a.next == if number < s.maxAttempts then Again(Retry, a.plan, a.pool) else Stop(RunTimeout, GaveUp))
            && (!error.TimedOut? && !error.AgentNotFound? ==> a.next == Stop(RunFailure, GaveUp))
            && (error.AgentNotFound? ==> a.next.decision in {Repair, GaveUp})
  {
    hide AttemptFits, BreaksAt, SomeEntry, SequentialEntries, MissedTasks, Cleared, AgentsBut, MissingAgents;
    var order := a.order.value;
    var result := SupervisorResult(RunFailed, SequentialEntries(order, run));
    LastStepEntries(order, run, MissedAgent);
    LastStepEntries(order, run, FellWithDependency);
    LastStepEntries(order, run, RanOutOfTime);
    LastStepEntries(order, run, WasCancelled);
    if SomeEntry(result.entries, MissedAgent) {
      MissedAgentIsRepaired(s, a, number, replansUsed, result);
    } else {
      OtherFailures(s, a, number, replansUsed, result);
    }
  }

  // ----- who is evicted, over whole runs

  /** The agents that the report of an attempt found missing. */
  ghost function MissingAt(s: Setting, number: nat): set<Id> {
    if s.attempt(number).Returned? then MissingAgents(s.attempt(number).result.entries) else {}
  }

  /** Only a returned, failed run that missed an agent is repaired. */
  lemma RepairHasResult(s: Setting, a: AttemptRecord, number: nat, replansUsed: nat) returns (result: SupervisorResult)
    requires AttemptFits(s, a, number, replansUsed) && a.next.Again? && a.next.decision == Repair
    ensures Executed(s, a, number, replansUsed, result) && result.status == RunFailed
    ensures SomeEntry(result.entries, MissedAgent)
  {
    hide AttemptFits, SomeEntry, ReplanSpec, RepairTargets, UnavailableAgents, Evict;
    AgainMeansRecoverable(s, a, number, replansUsed);
    RepairedReturned(s, a, number, replansUsed);
    result := s.attempt(number).result;
    ResultMeansEntries(result, number);
  }

  lemma RepairedReturned(s: Setting, a: AttemptRecord, number: nat, replansUsed: nat)
    requires AttemptFits(s, a, number, replansUsed) && a.next.Again? && a.next.decision == Repair
    ensures a.order.Some? && s.attempt(number).Returned? && !s.attempt(number).aborted
    ensures var result := s.attempt(number).result;
            result.status == RunFailed && Classified(result, number).code == AgentUnavailable
  {
    hide IsValidPlan, Mapped, ReplanSpec, RoutedBy, RepairTargets, UnavailableAgents, Evict, FailureRefs, PrimaryCode;
  }

  lemma PoolAfter(s: Setting, a: AttemptRecord, b: AttemptRecord, number: nat, replansUsed: nat)
    requires AttemptFits(s, a, number, replansUsed) && Hands(a, b)
    ensures b.pool == if a.next.decision == Repair then AgentsBut(a.pool, MissingAt(s, number)) else a.pool
  {
    hide AttemptFits, ReplanSpec, AgentsBut, MissingAgents, MissedTasks, Cleared, CanReassign;
    AgainMeansRecoverable(s, a, number, replansUsed);
    if a.next.decision == Repair {
      var result := RepairHasResult(s, a, number, replansUsed);
      MissedAgentIsRepaired(s, a, number, replansUsed, result);
    }
  }

  /** No repair before attempt `j` evicted this agent: no report that was repaired names it as missing. */
  ghost predicate NeverMissing(s: Setting, trail: seq<AttemptRecord>, j: nat, x: Id)
    requires j <= |trail|
  {
    forall i :: 0 <= i < j && trail[i].next.decision == Repair ==> x !in MissingAt(s, i + 1)
  }

  /** The pool of an attempt is exactly the caller's pool without the agents found missing before a repair. */
  lemma {:induction false} PoolIsWhoIsLeft(s: Setting, trail: seq<AttemptRecord>, j: nat, x: Agent)
    requires IsTrail(s, trail) && j < |trail|
    ensures x in trail[j].pool <==> x in s.agents && NeverMissing(s, trail, j, x.id)
  {
    hide IsTrail, AttemptFits, Hands, MissingAt;
    if j == 0 {
      FirstPool(s, trail);
    } else {
      PoolIsWhoIsLeft(s, trail, j - 1, x);
      AttemptAt(s, trail, j - 1);
      PoolAfter(s, trail[j - 1], trail[j], j, DecisionCount(trail[..j - 1], Replan));
    }
  }

  lemma FirstPool(s: Setting, trail: seq<AttemptRecord>)
    requires IsTrail(s, trail) && trail != []
    ensures trail[0].pool == s.agents
  {
    hide EachFits, EachHands;
  }

  /**
   * After a repair no later attempt routes any task to an agent that the repaired report names: one
   * whose entry failed, without being cancelled, because the agent does not exist.
   */
  lemma MissingNeverRouted(s: Setting, trail: seq<AttemptRecord>, i: nat, j: nat, k: nat, x: Id, t: RoutedTask)
    requires IsTrail(s, trail) && i < j < |trail| && trail[i].next.decision == Repair
    requires s.attempt(i + 1).Returned? && k < |s.attempt(i + 1).result.entries|
    requires var entry := s.attempt(i + 1).result.entries[k];
             && entry.agentId == Some(x) && entry.outcome.error.AgentNotFound?
             && entry.outcome.status != Completed && entry.outcome.status != Cancelled
    requires t in trail[j].routed
    ensures t.agentId != x
  {
    hide IsTrail, AttemptFits, IsValidPlan, NeverMissing;
    AttemptAt(s, trail, j);
    RoutedIsPooled(s, trail[j], j + 1, DecisionCount(trail[..j], Replan), t);
    var a: nat :| a < |trail[j].pool| && trail[j].pool[a].id == t.agentId;
    PoolIsWhoIsLeft(s, trail, j, trail[j].pool[a]);
    assert s.attempt(i + 1).result.entries[k].agentId.value in MissingAt(s, i + 1);
    assert t.agentId == x ==> !NeverMissing(s, trail, j, x) by { Missed(s, trail, i, j, x); }
  }

  lemma Missed(s: Setting, trail: seq<AttemptRecord>, i: nat, j: nat, x: Id)
    requires i < j <= |trail| && trail[i].next.decision == Repair && x in MissingAt(s, i + 1)
    ensures !NeverMissing(s, trail, j, x)
  {
  }

  /** Some entry of the attempt's report carries this agent. */
  ghost predicate Reported(s: Setting, number: nat, x: Id) {
    s.attempt(number).Returned? && exists k ::
      0 <= k < |s.attempt(number).result.entries| && s.attempt(number).result.entries[k].agentId == Some(x)
  }

  lemma MissingIsReported(s: Setting, number: nat, x: Id)
    requires x in MissingAt(s, number)
    ensures Reported(s, number, x)
  {
    var entries := s.attempt(number).result.entries;
    var k :| 0 <= k < |entries| && entries[k].agentId.Some? && entries[k].agentId.value == x;
    assert s.attempt(number).result.entries[k].agentId == Some(x);
  }

  /** An agent that no report names stays in the pool of every attempt. */
  lemma PresentStays(s: Setting, trail: seq<AttemptRecord>, j: nat, x: Agent)
    requires IsTrail(s, trail) && j < |trail| && x in s.agents
    requires forall n: nat :: n <= j ==> !Reported(s, n, x.id)
    ensures x in trail[j].pool
  {
    hide IsTrail;
    forall n: nat | n <= j
      ensures x.id !in MissingAt(s, n)
    {
      if x.id in MissingAt(s, n) {
        MissingIsReported(s, n, x.id);
      }
    }
    PoolIsWhoIsLeft(s, trail, j, x);
  }
}

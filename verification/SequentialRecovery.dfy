/**
 * Sequential recovery end to end: a chain that breaks in the middle is pruned to exactly the steps
 * that completed, and the next attempt runs those steps in the same order.
 */
module SequentialRecoveries {
  import opened Collections
  import opened Graphs
  import opened TaskGraphs
  import opened Plans
  import opened PlanRepairs
  import opened PlanValidators
  import opened AgentRouters
  import opened TopologicalOrders
  import opened PlanIntegrations
  import opened StepNames
  import opened Sequentials
  import opened Schedulers
  import opened Failures
  import opened Replanners
  import opened RecoverySteps
  import opened RecoveryTrails

  /** What a sequential run reports about the tasks it ran in `order`. */
  function SequentialEntries(order: seq<RoutedTask>, run: nat -> TaskOutcome): (entries: seq<ReportEntry>)
    ensures |entries| == |order|
    ensures forall i :: 0 <= i < |order| ==>
              entries[i] == ReportEntry(StepId(i), Some(order[i].agentId), ChainOutcome(run, i))
  {
    seq(|order|, i requires 0 <= i < |order| => ReportEntry(StepId(i), Some(order[i].agentId), ChainOutcome(run, i)))
  }

  /** The supervisor plan of a sequential mapping: one step per task, in order. */
  function StepsOf(order: seq<RoutedTask>): (steps: seq<SequentialStep>)
    ensures |steps| == |order|
    ensures forall i :: 0 <= i < |order| ==>
              steps[i] == SequentialStep(order[i].agentId, order[i].prompt, order[i].timeoutMs)
  {
    seq(|order|, i requires 0 <= i < |order| =>
      SequentialStep(order[i].agentId, order[i].prompt, order[i].timeoutMs))
  }

  /** What the supervisor itself asks of a sequential plan. */
  predicate AcceptedSteps(steps: seq<SequentialStep>) {
    steps != [] && forall step :: step in steps ==> step.agentId != NO_ID
  }

  predicate SoundSteps(steps: seq<SequentialStep>) {
    forall step :: step in steps ==> SoundStep(step)
  }

  /** When the run's timer and the caller's signal fire: `before` the call, by its end, or by the time it is judged. */
  datatype Interrupts = Interrupts(timedOut: bool, before: bool, cancelled: bool, aborted: bool)

  predicate Timely(i: Interrupts) {
    (i.before ==> i.cancelled) && (i.cancelled ==> i.aborted)
  }

  predicate Undisturbed(i: Interrupts) {
    !i.timedOut && !i.cancelled
  }

  /**
   * The supervisor's sequential attempt: check the plan, run the chain, report every step. A plan
   * that the check refuses is a validation error; a step the task graph refuses is an execution
   * error, or a cancellation when the signal had fired before. A timer or signal that has fired by
   * the end decides the status; otherwise it says whether every step completed.
   */
  method RunSequentialAttempt(order: seq<RoutedTask>, interrupts: Interrupts, run: nat -> TaskOutcome)
      returns (attempt: Attempt)
    requires Timely(interrupts) && forall j: nat :: IsTerminal(run(j).status)
    ensures attempt.aborted == interrupts.aborted
    ensures attempt.Threw? && attempt.error == SupervisorError(ValidationKind) <==> !AcceptedSteps(StepsOf(order))
    ensures attempt.Returned? <==> AcceptedSteps(StepsOf(order)) && SoundSteps(StepsOf(order))
    ensures attempt.Threw? && AcceptedSteps(StepsOf(order)) ==>
        attempt.error == SupervisorError(if interrupts.before then CancellationKind else ExecutionKind)
    ensures attempt.Returned? ==>
              |attempt.result.entries| == |order|
              && forall i :: 0 <= i < |order| ==>
                   attempt.result.entries[i].taskId == StepId(i)
                   && attempt.result.entries[i].agentId == Some(order[i].agentId)
    ensures attempt.Returned? ==>
              (attempt.result.status == RunTimedOut <==> interrupts.timedOut)
              && (attempt.result.status == RunCancelled <==> !interrupts.timedOut && interrupts.cancelled)
              && (attempt.result.status == RunCompleted <==>
                  Undisturbed(interrupts) && forall i :: 0 <= i < |order| ==> run(i).status == Completed)
    ensures attempt.Returned? && Undisturbed(interrupts) ==> attempt.result.entries == SequentialEntries(order, run)
  {
    hide ChainOutcome;
    var steps := StepsOf(order);
    if !AcceptedSteps(steps) {
      return Threw(SupervisorError(ValidationKind), interrupts.aborted);
    }
    var signal := if interrupts.before then FiredBefore else if Undisturbed(interrupts) then Silent else MayFire;
    var report := RunSequential(steps, None, signal, run);
    if report.InvalidStep? {
      return Threw(SupervisorError(if interrupts.before then CancellationKind else ExecutionKind), interrupts.aborted);
    }
    ChainCompletes(run, |order|);
    var entries := seq(|order|, i requires 0 <= i < |order| => ReportEntry(StepId(i), Some(order[i].agentId),
        report.steps[i]));
    var status := if interrupts.timedOut then RunTimedOut else if interrupts.cancelled then RunCancelled
                  else if report.ok then RunCompleted else RunFailed;
    attempt := Returned(SupervisorResult(status, entries), interrupts.aborted);
    assert Undisturbed(interrupts) ==> entries == SequentialEntries(order, run);
  }

  // ----- what the classifier sees

  /** From the break on, and only there, entries are failures. */
  lemma BrokenEntries(order: seq<RoutedTask>, run: nat -> TaskOutcome, k: nat, i: nat)
    requires BreaksAt(run, k) && i < |order|
    ensures var o := SequentialEntries(order, run)[i].outcome;
            && (o.status != Completed <==> i >= k)
            && (i == k ==> o == run(k))
            && (i > k ==> CodeForOutcome(o) == DependencyFailure)
  {
    ChainShape(run, k, i);
  }

  lemma BrokenRefs(order: seq<RoutedTask>, run: nat -> TaskOutcome, k: nat, ref: TaskFailureRef)
    requires BreaksAt(run, k)
    ensures ref in FailureRefs(SequentialEntries(order, run)) <==>
              exists i :: k <= i < |order| && ref == RefOf(SequentialEntries(order, run)[i])
  {
    var entries := SequentialEntries(order, run);
    RefsMembers(entries, ref);
    forall i | 0 <= i < |order|
      ensures entries[i].outcome.status != Completed <==> i >= k
    {
      BrokenEntries(order, run, k, i);
    }
  }

  /** A chain that breaks before its last step, on anything but an unavailable agent, is a dependency failure. */
  lemma BrokenChainIsDependencyFailure(order: seq<RoutedTask>, run: nat -> TaskOutcome, k: nat)
    requires BreaksAt(run, k) && k < |order| - 1 && CodeForOutcome(run(k)) != AgentUnavailable
    ensures PrimaryCode(FailureRefs(SequentialEntries(order, run))) == DependencyFailure
  {
    hide BreaksAt, ChainOutcome, FailureRefs, CodeForOutcome;
    var entries := SequentialEntries(order, run);
    var refs := FailureRefs(entries);
    var last := RefOf(entries[k + 1]);
    BrokenEntries(order, run, k, k + 1);
    BrokenRefs(order, run, k, last);
    var at :| 0 <= at < |refs| && refs[at] == last;
    assert HasCode(refs, DependencyFailure);
    forall j | 0 <= j < |refs|
      ensures refs[j].code != AgentUnavailable
    {
      assert refs[j] in refs;
      BrokenRefs(order, run, k, refs[j]);
      var i :| k <= i < |order| && refs[j] == RefOf(entries[i]);
      BrokenEntries(order, run, k, i);
    }
  }

  /** A failed reference, in plan ids, names a task from the break on. */
  lemma MappedRefIsLate(order: seq<RoutedTask>, run: nat -> TaskOutcome, k: nat, ref: TaskFailureRef) returns (i: nat)
    requires BreaksAt(run, k) && ref in FailureRefs(SequentialEntries(order, run))
    ensures k <= i < |order| && MapRef(ref, order).taskId == order[i].id
  {
    hide BreaksAt, FailureRefs, StepId, ChainOutcome, PlanIdOf;
    BrokenRefs(order, run, k, ref);
    i :| k <= i < |order| && ref == RefOf(SequentialEntries(order, run)[i]);
    StepIsItsTask(order, i);
  }

  lemma LateTaskIsReferenced(order: seq<RoutedTask>, run: nat -> TaskOutcome, k: nat, i: nat)
      returns (ref: TaskFailureRef)
    requires BreaksAt(run, k) && k <= i < |order|
    ensures ref in FailureRefs(SequentialEntries(order, run)) && MapRef(ref, order).taskId == order[i].id
  {
    hide BreaksAt, FailureRefs, StepId, ChainOutcome, PlanIdOf;
    ref := RefOf(SequentialEntries(order, run)[i]);
    BrokenRefs(order, run, k, ref);
    StepIsItsTask(order, i);
  }

  lemma MappedIds(refs: seq<TaskFailureRef>, order: seq<RoutedTask>, u: Id)
    ensures u in RefIds(MapRefs(refs, order)) <==> exists r :: r in refs && MapRef(r, order).taskId == u
  {
    hide MapRef;
    var mapped := MapRefs(refs, order);
    if u in RefIds(mapped) {
      var m :| m in mapped && m.taskId == u;
      var j :| 0 <= j < |mapped| && mapped[j] == m;
      assert refs[j] in refs;
    }
    if r :| r in refs && MapRef(r, order).taskId == u {
      var j :| 0 <= j < |refs| && refs[j] == r;
      assert mapped[j] in mapped;
    }
  }

  /** Its failed tasks, in plan ids, are exactly those from the break on. */
  lemma BrokenChainFailedIds(order: seq<RoutedTask>, run: nat -> TaskOutcome, k: nat)
    requires BreaksAt(run, k) && k < |order|
    ensures RefIds(MapRefs(FailureRefs(SequentialEntries(order, run)), order)) == IdSet(order[k..])
  {
    hide BreaksAt, FailureRefs, MapRef, MapRefs, RefIds, SequentialEntries;
    var refs := FailureRefs(SequentialEntries(order, run));
    forall u
      ensures u in RefIds(MapRefs(refs, order)) <==> u in IdSet(order[k..])
    {
      MappedIds(refs, order, u);
      if r :| r in refs && MapRef(r, order).taskId == u {
        var i := MappedRefIsLate(order, run, k, r);
        assert order[k..][i - k] == order[i];
      }
      if t :| t in order[k..] && t.id == u {
        var j :| 0 <= j < |order[k..]| && order[k..][j] == t;
        var r := LateTaskIsReferenced(order, run, k, k + j);
      }
    }
  }

  /** The record of a broken chain, and its refs as the replanner sees them. */
  lemma BrokenChainRecord(order: seq<RoutedTask>, run: nat -> TaskOutcome, number: nat)
    ensures var failure := Classified(SupervisorResult(RunFailed, SequentialEntries(order, run)), number);
            && failure.code == PrimaryCode(FailureRefs(SequentialEntries(order, run)))
            && MappedFailure(failure, order).code == failure.code
            && Refs(MappedFailure(failure, order)) == MapRefs(FailureRefs(SequentialEntries(order, run)), order)
  {
    hide FailureRefs, SequentialEntries, PrimaryCode, FirstWithCode;
  }

  /** A synthetic step id names the planner task it was made for. */
  lemma StepIsItsTask(order: seq<RoutedTask>, i: nat)
    requires i < |order|
    ensures PlanIdOf(StepId(i), order) == order[i].id
  {
    StepNameRoundTrip(SeqStep, i);
  }

  // ----- what pruning removes

  /** In a linearization, the tasks from any position on are closed under dependents. */
  lemma SuffixIsClosed(plan: seq<PlanTask>, routed: seq<RoutedTask>, order: seq<RoutedTask>, k: nat)
    requires RoutesTo(plan, routed) && IsLinearization(order, routed) && k <= |order|
    ensures ClosedUnderDependents(plan, IdSet(order[k..]))
  {
    forall i, d | 0 <= i < |plan| && d in Declared(plan[i].dependsOn) && d in IdSet(order[k..])
      ensures plan[i].id in IdSet(order[k..])
    {
      assert routed[i] in multiset(routed);
      assert routed[i] in order;
      var j :| 0 <= j < |order| && order[j] == routed[i];
      if j >= k {
        assert order[k..][j - k] == order[j];
      } else {
        LaterIsNoDependency(order, routed, j, k, d);
      }
    }
  }

  /** A dependency of an earlier task is not a later task. */
  lemma LaterIsNoDependency(order: seq<RoutedTask>, routed: seq<RoutedTask>, j: nat, k: nat, d: Id)
    requires IsLinearization(order, routed) && j < k <= |order| && d in Declared(order[j].dependsOn)
    ensures d !in IdSet(order[k..])
  {
    assert d in Ids(order[..j]);
    var i :| 0 <= i < j && order[i].id == d;
    forall t | t in order[k..]
      ensures t.id != d
    {
      var m :| k <= m < |order| && order[m] == t;
      assert Ids(order)[i] != Ids(order)[m];
    }
  }

  lemma DoomedSuffix(plan: seq<PlanTask>, routed: seq<RoutedTask>, order: seq<RoutedTask>, k: nat)
    requires RoutesTo(plan, routed) && IsLinearization(order, routed) && k <= |order|
    ensures DoomedSet(plan, IdSet(order[k..])) == IdSet(order[k..])
  {
    hide DoomedSet, Doomed, IsLinearization;
    SuffixIsClosed(plan, routed, order, k);
    DoomedIsLeastSet(plan, IdSet(order[k..]), IdSet(order[k..]));
    DoomedIsClosed(plan, IdSet(order[k..]));
  }

  /** What survives of the plan is the restriction of the routed plan to the completed steps. */
  lemma {:induction false} SurvivorsAreRestriction(plan: seq<PlanTask>, routed: seq<RoutedTask>, remove: set<Id>,
      keep: set<Id>)
    requires RoutesTo(plan, routed) && forall t :: t in plan ==> (t.id in keep <==> t.id !in remove)
    ensures RoutesTo(Survivors(plan, remove), Restrict(routed, keep))
  {
    hide RoutesTo, Survivors, Restrict;
    if plan == [] {
      NothingSurvives(routed, remove, keep);
    } else {
      assert plan[0] in plan && forall t :: t in plan[1..] ==> t in plan;
      RoutesTail(plan, routed);
      SurvivorsAreRestriction(plan[1..], routed[1..], remove, keep);
      SurvivorsCons(plan, remove);
      RestrictCons(routed, keep);
      RoutesCons(plan[0], routed[0], Survivors(plan[1..], remove), Restrict(routed[1..], keep));
    }
  }

  lemma NothingSurvives(routed: seq<RoutedTask>, remove: set<Id>, keep: set<Id>)
    requires RoutesTo([], routed)
    ensures RoutesTo(Survivors([], remove), Restrict(routed, keep))
  {
  }

  lemma RoutesTail(plan: seq<PlanTask>, routed: seq<RoutedTask>)
    requires RoutesTo(plan, routed) && plan != []
    ensures routed != [] && plan[0].id == routed[0].id
    ensures RoutesTo([plan[0]], [routed[0]]) && RoutesTo(plan[1..], routed[1..])
  {
  }

  lemma RoutesCons(t: PlanTask, r: RoutedTask, plan: seq<PlanTask>, routed: seq<RoutedTask>)
    requires RoutesTo([t], [r]) && RoutesTo(plan, routed)
    ensures RoutesTo([t] + plan, [r] + routed)
  {
    assert [t][0] == t && [r][0] == r;
  }

  lemma RestrictCons(routed: seq<RoutedTask>, keep: set<Id>)
    requires routed != []
    ensures var rest := Restrict(routed[1..], keep);
            Restrict(routed, keep) == if routed[0].id in keep then [routed[0]] + rest else rest
  {
  }

  // ----- the order of the next attempt

  /** The same tasks but for the agents. */
  ghost predicate SameLinks(a: seq<RoutedTask>, b: seq<RoutedTask>) {
    |a| == |b| && forall i :: 0 <= i < |a| ==> a[i].id == b[i].id && a[i].dependsOn == b[i].dependsOn
  }

  lemma SameLinksIdSet(a: seq<RoutedTask>, b: seq<RoutedTask>)
    requires SameLinks(a, b)
    ensures IdSet(a) == IdSet(b) && Ids(a) == Ids(b) && DependencyTable(a) == DependencyTable(b)
  {
    assert Ids(a) == Ids(b);
    IdSetIsElements(a);
    IdSetIsElements(b);
    assert RoutedDeclarations(a) == RoutedDeclarations(b);
  }

  lemma SameLinksTail(a: seq<RoutedTask>, b: seq<RoutedTask>)
    requires SameLinks(a, b) && a != []
    ensures b != [] && a[0].id == b[0].id && SameLinks(a[1..], b[1..]) && SameLinks([a[0]], [b[0]])
  {
  }

  lemma {:induction false} SweepIgnoresAgents(a: seq<RoutedTask>, b: seq<RoutedTask>, deps: map<Id, seq<Id>>,
      done: set<Id>)
    requires SameLinks(a, b) && (forall t :: t in a ==> t.id in deps) && forall t :: t in b ==> t.id in deps
    ensures SameLinks(Sweep(a, deps, done), Sweep(b, deps, done))
  {
    hide AllDone, SameLinks;
    if a == [] {
      SameLinksLength(a, b);
    } else {
      SameLinksTail(a, b);
      var more := done + {a[0].id};
      SweepIgnoresAgents(a[1..], b[1..], deps, more);
      SweepIgnoresAgents(a[1..], b[1..], deps, done);
      SameLinksConcat([a[0]], [b[0]], Sweep(a[1..], deps, more), Sweep(b[1..], deps, more));
    }
  }

  lemma SameLinksConcat(a: seq<RoutedTask>, b: seq<RoutedTask>, c: seq<RoutedTask>, d: seq<RoutedTask>)
    requires SameLinks(a, b) && SameLinks(c, d)
    ensures SameLinks(a + c, b + d)
  {
  }

  lemma {:induction false} RoundsIgnoreAgents(a: seq<RoutedTask>, b: seq<RoutedTask>, deps: map<Id, seq<Id>>,
      done: set<Id>)
    requires SameLinks(a, b) && (forall t :: t in a ==> t.id in deps) && forall t :: t in b ==> t.id in deps
    ensures SameLinks(Rounds(a, deps, done), Rounds(b, deps, done))
    decreases IdSet(a) - done
  {
    hide Sweep, SameLinks, DependencyTable;
    var outA, outB := Sweep(a, deps, done), Sweep(b, deps, done);
    SweepIgnoresAgents(a, b, deps, done);
    SameLinksIdSet(outA, outB);
    RoundsStep(a, deps, done);
    RoundsStep(b, deps, done);
    if outA != [] {
      RoundsIgnoreAgents(a, b, deps, done + IdSet(outA));
      SameLinksConcat(outA, outB, Rounds(a, deps, done + IdSet(outA)), Rounds(b, deps, done + IdSet(outB)));
    } else {
      SameLinksLength(outA, outB);
    }
  }

  lemma SameLinksLength(a: seq<RoutedTask>, b: seq<RoutedTask>)
    requires SameLinks(a, b)
    ensures |a| == |b|
  {
  }

  /** The linear order depends on ids and dependencies only. */
  lemma OrderIgnoresAgents(a: seq<RoutedTask>, b: seq<RoutedTask>)
    requires SameLinks(a, b) && TopologicalOrder(a).Some?
    ensures TopologicalOrder(b).Some? && Ids(TopologicalOrder(b).value) == Ids(TopologicalOrder(a).value)
  {
    hide Rounds;
    TableCovers(a);
    TableCovers(b);
    SameLinksIdSet(a, b);
    RoundsIgnoreAgents(a, b, DependencyTable(a), {});
    assert SameLinks(TopologicalOrder(a).value, Rounds(b, DependencyTable(b), {}));
  }

  /** Keeping a prefix of an order restricts it to that prefix. */
  lemma {:induction false} RestrictPrefix(order: seq<RoutedTask>, k: nat)
    requires Distinct(Ids(order)) && k <= |order|
    ensures Restrict(order, IdSet(order[..k])) == order[..k]
  {
    var keep := IdSet(order[..k]);
    assert order == order[..k] + order[k..];
    RestrictConcat(order[..k], order[k..], keep);
    forall t | t in order[..k]
      ensures t.id in keep
    {
    }
    RestrictAll(order[..k], keep);
    forall t | t in order[k..]
      ensures t.id !in keep
    {
      var m :| k <= m < |order| && order[m] == t;
      DistinctFromPrefix(order, k, m);
    }
    RestrictNone(order[k..], keep);
  }

  lemma DistinctFromPrefix(order: seq<RoutedTask>, k: nat, m: nat)
    requires Distinct(Ids(order)) && k <= |order| && m < |order|
    ensures k <= m ==> order[m].id !in IdSet(order[..k])
  {
    forall t | t in order[..k] && k <= m
      ensures t.id != order[m].id
    {
      var i :| 0 <= i < k && order[i] == t;
      assert Ids(order)[i] != Ids(order)[m];
    }
  }

  lemma {:induction false} RestrictAll(tasks: seq<RoutedTask>, keep: set<Id>)
    requires forall t :: t in tasks ==> t.id in keep
    ensures Restrict(tasks, keep) == tasks
  {
    if tasks != [] {
      RestrictAll(tasks[1..], keep);
    }
  }

  lemma {:induction false} RestrictNone(tasks: seq<RoutedTask>, keep: set<Id>)
    requires forall t :: t in tasks ==> t.id !in keep
    ensures Restrict(tasks, keep) == []
  {
    if tasks != [] {
      RestrictNone(tasks[1..], keep);
    }
  }

  /** Any routing of the surviving plan is ordered like the first `k` tasks of the previous order. */
  lemma SurvivorsOrder(plan: seq<PlanTask>, routed: seq<RoutedTask>, k: nat, next: seq<RoutedTask>)
    requires RoutesTo(plan, routed) && TopologicalOrder(routed).Some? && k <= |TopologicalOrder(routed).value|
    requires RoutesTo(Survivors(plan, IdSet(TopologicalOrder(routed).value[k..])), next)
    ensures TopologicalOrder(next).Some?
    ensures Ids(TopologicalOrder(next).value) == Ids(TopologicalOrder(routed).value)[..k]
  {
    hide TopologicalOrder, IsLinearization, Distinct;
    var order := TopologicalOrder(routed).value;
    var keep := IdSet(order[..k]);
    OrderIsLinearization(routed);
    PrefixOrSuffix(plan, routed, order, k);
    SurvivorsAreRestriction(plan, routed, IdSet(order[k..]), keep);
    SameRouting(Survivors(plan, IdSet(order[k..])), Restrict(routed, keep), next);
    PrefixIsClosed(routed, order, k);
    OrderCommutesWithRestriction(routed, keep);
    LinearIsDistinct(order, routed);
    RestrictPrefix(order, k);
    OrderIgnoresAgents(Restrict(routed, keep), next);
    assert Ids(order[..k]) == Ids(order)[..k];
  }

  lemma LinearIsDistinct(order: seq<RoutedTask>, routed: seq<RoutedTask>)
    requires IsLinearization(order, routed)
    ensures Distinct(Ids(order))
  {
  }

  lemma SameRouting(plan: seq<PlanTask>, a: seq<RoutedTask>, b: seq<RoutedTask>)
    requires RoutesTo(plan, a) && RoutesTo(plan, b)
    ensures SameLinks(a, b)
  {
  }

  /** Every plan task is in the prefix or in the suffix of the order, and not in both. */
  lemma PrefixOrSuffix(plan: seq<PlanTask>, routed: seq<RoutedTask>, order: seq<RoutedTask>, k: nat)
    requires RoutesTo(plan, routed) && IsLinearization(order, routed) && k <= |order|
    ensures forall t :: t in plan ==> (t.id in IdSet(order[..k]) <==> t.id !in IdSet(order[k..]))
  {
    forall t | t in plan
      ensures t.id in IdSet(order[..k]) <==> t.id !in IdSet(order[k..])
    {
      var i :| 0 <= i < |plan| && plan[i] == t;
      assert routed[i] in multiset(routed);
      assert routed[i] in order;
      var j :| 0 <= j < |order| && order[j] == routed[i];
      if j < k {
        assert order[..k][j] == order[j];
        forall u | u in order[k..]
          ensures u.id != t.id
        {
          var m :| k <= m < |order| && order[m] == u;
          assert Ids(order)[j] != Ids(order)[m];
        }
      } else {
        assert order[k..][j - k] == order[j];
        DistinctFromPrefix(order, k, j);
      }
    }
  }

  lemma PrefixIsClosed(routed: seq<RoutedTask>, order: seq<RoutedTask>, k: nat)
    requires IsLinearization(order, routed) && k <= |order|
    ensures DependencyClosed(routed, IdSet(order[..k]))
  {
    forall t, d | t in routed && t.id in IdSet(order[..k]) && d in Declared(t.dependsOn)
      ensures d in IdSet(order[..k])
    {
      assert t in multiset(routed);
      assert t in order;
      var j :| 0 <= j < |order| && order[j] == t;
      DistinctFromPrefix(order, k, j);
      assert d in Ids(order[..j]);
      var i :| 0 <= i < j && order[i].id == d;
      assert order[..k][i] == order[i];
    }
  }

  // ----- the theorem

  /**
   * A sequential attempt whose chain first fails at position `k`, neither first nor last and not
   * for an unavailable agent, is replanned while the budget lasts. The new plan keeps exactly the
   * tasks whose steps completed, and any routing of it is ordered like the first `k` steps were.
   */
  lemma BrokenChainIsPruned(s: Setting, a: AttemptRecord, number: nat, replansUsed: nat, run: nat -> TaskOutcome,
      k: nat)
    requires AttemptFits(s, a, number, replansUsed) && s.strategy == Sequential && a.order.Some?
    requires s.attempt(number) == Returned(SupervisorResult(RunFailed, SequentialEntries(a.order.value, run)), false)
    requires BreaksAt(run, k) && 0 < k < |a.order.value| - 1 && CodeForOutcome(run(k)) != AgentUnavailable
    requires number < s.maxAttempts && replansUsed < s.maxReplans
    ensures a.next == Again(Replan, Survivors(a.plan, IdSet(a.order.value[k..])), a.pool)
    ensures IsValidPlan(a.next.plan)
    ensures forall t :: t in a.next.plan <==> t in a.plan && t.id in IdSet(a.order.value[..k])
    ensures forall next :: RoutesTo(a.next.plan, next) ==>
              TopologicalOrder(next).Some? && Ids(TopologicalOrder(next).value) == Ids(a.order.value)[..k]
  {
    hide BreaksAt, IsValidPlan, IsLinearization, DoomedSet, Classified, ReplanSpec;
    var order := a.order.value;
    RoutedOrder(s, a, number, replansUsed);
    OrderIsLinearization(a.routed);
    PrefixOrSuffix(a.plan, a.routed, order, k);
    BrokenChainReplan(a.plan, a.routed, order, run, k, number);
    RestartIsReplan(s, a, number, replansUsed, run, k);
    AgainKeepsValid(s, a, number, replansUsed);
    forall next | RoutesTo(a.next.plan, next)
      ensures TopologicalOrder(next).Some? && Ids(TopologicalOrder(next).value) == Ids(order)[..k]
    {
      SurvivorsOrder(a.plan, a.routed, k, next);
    }
  }

  lemma RoutedOrder(s: Setting, a: AttemptRecord, number: nat, replansUsed: nat)
    requires AttemptFits(s, a, number, replansUsed) && s.strategy == Sequential && a.order.Some?
    ensures RoutesTo(a.plan, a.routed) && TopologicalOrder(a.routed) == a.order
  {
    hide IsValidPlan, NextAfter, Classified, TopologicalOrder;
  }

  /** What the replanner makes of the broken chain. */
  lemma BrokenChainReplan(plan: seq<PlanTask>, routed: seq<RoutedTask>, order: seq<RoutedTask>, run: nat -> TaskOutcome,
                          k: nat, number: nat)
    requires RoutesTo(plan, routed) && IsLinearization(order, routed)
    requires BreaksAt(run, k) && 0 < k < |order| - 1 && CodeForOutcome(run(k)) != AgentUnavailable
    ensures var failure := Classified(SupervisorResult(RunFailed, SequentialEntries(order, run)), number);
            && failure.code == DependencyFailure
            && ReplanSpec(plan, MappedFailure(failure, order)).Replanned?
            && ReplanSpec(plan, MappedFailure(failure, order)).tasks == Survivors(plan, IdSet(order[k..]))
  {
    hide IsLinearization, DoomedSet, BreaksAt, CodeForOutcome, RemovedIds, Survivors, Classified, MappedFailure,
        RefIds, Refs, PrimaryCode, IdSet;
    BrokenChainIsDependencyFailure(order, run, k);
    BrokenChainFailedIds(order, run, k);
    BrokenChainRecord(order, run, number);
    DoomedSuffix(plan, routed, order, k);
    SuffixNonEmpty(order, k);
    FirstSurvives(plan, routed, order, k);
  }

  lemma SuffixNonEmpty(order: seq<RoutedTask>, k: nat)
    requires k < |order|
    ensures IdSet(order[k..]) != {}
  {
    assert order[k..][0].id in IdSet(order[k..]);
  }

  lemma FirstSurvives(plan: seq<PlanTask>, routed: seq<RoutedTask>, order: seq<RoutedTask>, k: nat)
    requires RoutesTo(plan, routed) && IsLinearization(order, routed) && 0 < k <= |order|
    ensures Survivors(plan, IdSet(order[k..])) != []
  {
    assert order[0] in multiset(order);
    assert order[0] in routed;
    var i :| 0 <= i < |routed| && routed[i] == order[0];
    assert order[..k][0] == order[0];
    PrefixOrSuffix(plan, routed, order, k);
    assert plan[i] in plan && plan[i] in Survivors(plan, IdSet(order[k..]));
  }

  lemma RestartIsReplan(s: Setting, a: AttemptRecord, number: nat, replansUsed: nat, run: nat -> TaskOutcome, k: nat)
    requires AttemptFits(s, a, number, replansUsed) && a.order.Some?
    requires s.attempt(number) == Returned(SupervisorResult(RunFailed, SequentialEntries(a.order.value, run)), false)
    requires number < s.maxAttempts && replansUsed < s.maxReplans
    requires var failure := Classified(SupervisorResult(RunFailed, SequentialEntries(a.order.value, run)), number);
             failure.code == DependencyFailure && ReplanSpec(a.plan, MappedFailure(failure, a.order.value)).Replanned?
    ensures var failure := Classified(SupervisorResult(RunFailed, SequentialEntries(a.order.value, run)), number);
            a.next == Again(Replan, ReplanSpec(a.plan, MappedFailure(failure, a.order.value)).tasks, a.pool)
  {
    hide IsValidPlan, Classified, ReplanSpec, SequentialEntries, Mapped, RoutedBy;
  }

  /** The attempt after such a replan runs the completed steps again, in the same linear order. */
  lemma NextAttemptRunsPrefix(s: Setting, a: AttemptRecord, b: AttemptRecord, number: nat, replansUsed: nat,
                              run: nat -> TaskOutcome, k: nat)
    requires AttemptFits(s, a, number, replansUsed) && s.strategy == Sequential && a.order.Some?
    requires s.attempt(number) == Returned(SupervisorResult(RunFailed, SequentialEntries(a.order.value, run)), false)
    requires BreaksAt(run, k) && 0 < k < |a.order.value| - 1 && CodeForOutcome(run(k)) != AgentUnavailable
    requires number < s.maxAttempts && replansUsed < s.maxReplans
    requires Hands(a, b) && AttemptFits(s, b, number + 1, replansUsed + 1)
    ensures b.order.Some? && Ids(b.order.value) == Ids(a.order.value)[..k]
  {
    hide BreaksAt, IsValidPlan, TopologicalOrder, Survivors, CodeForOutcome;
    BrokenChainIsPruned(s, a, number, replansUsed, run, k);
    PoolKept(s, a, number, replansUsed);
    SequentialMapping(s, b, number + 1, replansUsed + 1);
    assert Ids(TopologicalOrder(b.routed).value) == Ids(a.order.value)[..k];
  }

  lemma PoolKept(s: Setting, a: AttemptRecord, number: nat, replansUsed: nat)
    requires AttemptFits(s, a, number, replansUsed) && a.order.Some?
    ensures a.pool != []
  {
    hide IsValidPlan, Mapped, NextAfter, Classified, RoutedBy;
  }

  lemma SequentialMapping(s: Setting, b: AttemptRecord, number: nat, replansUsed: nat)
    requires AttemptFits(s, b, number, replansUsed) && s.strategy == Sequential && IsValidPlan(b.plan) && b.pool != []
    ensures RoutesTo(b.plan, b.routed)
    ensures TopologicalOrder(b.routed).Some? ==> b.order == TopologicalOrder(b.routed)
  {
    hide IsValidPlan, NextAfter, Classified;
    assert b.routed == [] ==> |b.plan| == 0;
    NonEmptyPlan(b.plan);
  }

  lemma NonEmptyPlan(plan: seq<PlanTask>)
    requires IsValidPlan(plan)
    ensures |plan| > 0
  {
  }

  /** A chain that breaks at its first step leaves nothing to replan, so recovery gives up at once. */
  lemma BrokenAtFirstStepGivesUp(s: Setting, a: AttemptRecord, number: nat, replansUsed: nat, run: nat -> TaskOutcome)
    requires AttemptFits(s, a, number, replansUsed) && s.strategy == Sequential && a.order.Some?
    requires s.attempt(number) == Returned(SupervisorResult(RunFailed, SequentialEntries(a.order.value, run)), false)
    requires BreaksAt(run, 0) && 1 < |a.order.value| && CodeForOutcome(run(0)) != AgentUnavailable
    ensures a.next == Stop(RunFailure, GaveUp)
  {
    hide BreaksAt, IsValidPlan, IsLinearization, DoomedSet, Classified, ReplanSpec;
    var order := a.order.value;
    RoutedOrder(s, a, number, replansUsed);
    OrderIsLinearization(a.routed);
    NothingLeft(a.plan, a.routed, order, run, number);
    RefusedReplanStops(s, a, number, replansUsed, run);
  }

  lemma NothingLeft(plan: seq<PlanTask>, routed: seq<RoutedTask>, order: seq<RoutedTask>, run: nat -> TaskOutcome,
      number: nat)
    requires RoutesTo(plan, routed) && IsLinearization(order, routed)
    requires BreaksAt(run, 0) && 1 < |order| && CodeForOutcome(run(0)) != AgentUnavailable
    ensures var failure := Classified(SupervisorResult(RunFailed, SequentialEntries(order, run)), number);
            failure.code == DependencyFailure && ReplanSpec(plan, MappedFailure(failure, order)).Refused?
  {
    hide IsLinearization, DoomedSet, BreaksAt, CodeForOutcome, RemovedIds, Classified, MappedFailure, RefIds, Refs,
        PrimaryCode;
    BrokenChainIsDependencyFailure(order, run, 0);
    BrokenChainFailedIds(order, run, 0);
    BrokenChainRecord(order, run, number);
    DoomedSuffix(plan, routed, order, 0);
    PrefixOrSuffix(plan, routed, order, 0);
    assert order[..0] == [];
    var left := Survivors(plan, IdSet(order[0..]));
    SomeMember(left);
  }

  lemma RefusedReplanStops(s: Setting, a: AttemptRecord, number: nat, replansUsed: nat, run: nat -> TaskOutcome)
    requires AttemptFits(s, a, number, replansUsed) && a.order.Some?
    requires s.attempt(number) == Returned(SupervisorResult(RunFailed, SequentialEntries(a.order.value, run)), false)
    requires var failure := Classified(SupervisorResult(RunFailed, SequentialEntries(a.order.value, run)), number);
             failure.code == DependencyFailure && ReplanSpec(a.plan, MappedFailure(failure, a.order.value)).Refused?
    ensures a.next == Stop(RunFailure, GaveUp)
  {
    hide IsValidPlan, Classified, ReplanSpec, SequentialEntries, Mapped, RoutedBy;
  }
}

/** Deterministic replanning: prune every failed task together with everything that transitively depends on it. */
module Replanners {
  import opened Collections
  import opened Graphs
  import opened TaskGraphs
  import opened Plans
  import opened PlanValidators
  import opened Failures

  datatype ReplanError = EmptyAfterPrune | UnsupportedCode | NoFailedTasks

  datatype ReplanResult =
    | Refused(error: ReplanError)
    | Replanned(tasks: seq<PlanTask>, removedTaskIds: seq<Id>)

  // ----- which tasks are doomed

  predicate DependsOn(tasks: seq<PlanTask>, u: Id, v: Id) {
    exists i :: 0 <= i < |tasks| && tasks[i].id == u && v in Declared(tasks[i].dependsOn)
  }

  /** A chain of dependencies of the plan from `p[0]` to `p[|p| - 1]`. */
  ghost predicate IsDependencyPath(tasks: seq<PlanTask>, p: seq<Id>) {
    p != [] && forall i :: 0 <= i < |p| - 1 ==> DependsOn(tasks, p[i], p[i + 1])
  }

  /** The task failed, or reaches a failed task through dependencies. */
  ghost predicate Doomed(tasks: seq<PlanTask>, failed: set<Id>, u: Id) {
    exists p :: IsDependencyPath(tasks, p) && p[0] == u && p[|p| - 1] in failed
  }

  ghost predicate ClosedUnderDependents(tasks: seq<PlanTask>, s: set<Id>) {
    forall i :: 0 <= i < |tasks| && (exists d :: d in Declared(tasks[i].dependsOn) && d in s) ==> tasks[i].id in s
  }

  lemma FailedIsDoomed(tasks: seq<PlanTask>, failed: set<Id>, u: Id)
    requires u in failed
    ensures Doomed(tasks, failed, u)
  {
    assert IsDependencyPath(tasks, [u]);
  }

  lemma PathExtends(tasks: seq<PlanTask>, u: Id, p: seq<Id>)
    requires IsDependencyPath(tasks, p) && DependsOn(tasks, u, p[0])
    ensures IsDependencyPath(tasks, [u] + p)
  {
    hide DependsOn;
    var q := [u] + p;
    forall i | 0 <= i < |q| - 1
      ensures DependsOn(tasks, q[i], q[i + 1])
    {
      if i > 0 {
        var k := i - 1;
        assert q[i] == p[k] && q[i + 1] == p[k + 1];
      }
    }
  }

  lemma DependentIsDoomed(tasks: seq<PlanTask>, failed: set<Id>, u: Id, d: Id)
    requires DependsOn(tasks, u, d) && Doomed(tasks, failed, d)
    ensures Doomed(tasks, failed, u)
  {
    hide DependsOn;
    var p :| IsDependencyPath(tasks, p) && p[0] == d && p[|p| - 1] in failed;
    PathExtends(tasks, u, p);
    var q := [u] + p;
    assert q[0] == u && q[|q| - 1] == p[|p| - 1];
  }

  /** Any set that holds the failed tasks and is closed under dependents holds every doomed task. */
  lemma {:induction false} ClosedHoldsPath(tasks: seq<PlanTask>, s: set<Id>, p: seq<Id>)
    requires ClosedUnderDependents(tasks, s) && IsDependencyPath(tasks, p) && p[|p| - 1] in s
    ensures p[0] in s
    decreases |p|
  {
    if |p| > 1 {
      var rest := p[1..];
      forall i | 0 <= i < |rest| - 1
        ensures DependsOn(tasks, rest[i], rest[i + 1])
      {
        var k := i + 1;
        assert rest[i] == p[k] && rest[i + 1] == p[k + 1];
      }
      ClosedHoldsPath(tasks, s, rest);
      assert DependsOn(tasks, p[0], p[1]);
    }
  }

  lemma DoomedIsLeast(tasks: seq<PlanTask>, failed: set<Id>, s: set<Id>, u: Id)
    requires failed <= s && ClosedUnderDependents(tasks, s) && Doomed(tasks, failed, u)
    ensures u in s
  {
    var p :| IsDependencyPath(tasks, p) && p[0] == u && p[|p| - 1] in failed;
    ClosedHoldsPath(tasks, s, p);
  }

  /** A doomed id failed itself or belongs to the plan. */
  lemma DoomedIsBounded(tasks: seq<PlanTask>, failed: set<Id>, u: Id)
    requires Doomed(tasks, failed, u)
    ensures u in failed || u in PlanIds(tasks)
  {
    var p :| IsDependencyPath(tasks, p) && p[0] == u && p[|p| - 1] in failed;
    if |p| > 1 {
      assert DependsOn(tasks, p[0], p[1]);
      var i :| 0 <= i < |tasks| && tasks[i].id == u;
      assert PlanIds(tasks)[i] == u;
    }
  }

  lemma DoomedAreBounded(tasks: seq<PlanTask>, failed: set<Id>)
    ensures forall u :: Doomed(tasks, failed, u) ==> u in failed + Elements(PlanIds(tasks))
  {
    forall u | Doomed(tasks, failed, u)
      ensures u in failed + Elements(PlanIds(tasks))
    {
      DoomedIsBounded(tasks, failed, u);
    }
  }

  /** All doomed ids, failed ids outside the plan included. */
  ghost function DoomedSet(tasks: seq<PlanTask>, failed: set<Id>): (s: set<Id>)
    ensures forall u :: u in s <==> Doomed(tasks, failed, u)
  {
    DoomedAreBounded(tasks, failed);
    set u | u in failed + Elements(PlanIds(tasks)) && Doomed(tasks, failed, u)
  }

  // ----- what is left

  function Survivors(tasks: seq<PlanTask>, remove: set<Id>): (kept: seq<PlanTask>)
    ensures forall t :: t in kept <==> t in tasks && t.id !in remove
    ensures |kept| <= |tasks|
  {
    if tasks == [] then []
    else (if tasks[0].id in remove then [] else [tasks[0]]) + Survivors(tasks[1..], remove)
  }

  function RemovedIds(tasks: seq<PlanTask>, remove: set<Id>): seq<Id> {
    if tasks == [] then []
    else (if tasks[0].id in remove then [tasks[0].id] else []) + RemovedIds(tasks[1..], remove)
  }

  function RefIds(refs: seq<TaskFailureRef>): set<Id> {
    set r | r in refs :: r.taskId
  }

  /** The grow loop: visits the plan until a whole visit adds nothing. */
  method Prune(tasks: seq<PlanTask>, failed: set<Id>) returns (remove: set<Id>)
    ensures remove == DoomedSet(tasks, failed)
  {
    remove := failed;
    forall u | u in failed
      ensures Doomed(tasks, failed, u)
    {
      FailedIsDoomed(tasks, failed, u);
    }
    var grew := true;
    while grew
      invariant failed <= remove <= failed + Elements(PlanIds(tasks))
      invariant forall u :: u in remove ==> Doomed(tasks, failed, u)
      invariant !grew ==> ClosedUnderDependents(tasks, remove)
      decreases failed + Elements(PlanIds(tasks)) - remove, grew
    {
      remove, grew := GrowOnce(tasks, failed, remove);
    }
    forall u | Doomed(tasks, failed, u)
      ensures u in remove
    {
      DoomedIsLeast(tasks, failed, remove, u);
    }
    assert forall u :: u in remove <==> u in DoomedSet(tasks, failed);
  }

  method GrowOnce(tasks: seq<PlanTask>, ghost failed: set<Id>, before: set<Id>) returns (remove: set<Id>, grew: bool)
    requires failed <= before <= failed + Elements(PlanIds(tasks))
    requires forall u :: u in before ==> Doomed(tasks, failed, u)
    ensures before <= remove <= failed + Elements(PlanIds(tasks))
    ensures forall u :: u in remove ==> Doomed(tasks, failed, u)
    ensures grew <==> remove != before
    ensures !grew ==> ClosedUnderDependents(tasks, remove)
  {
    hide Doomed;
    remove, grew := before, false;
    for i := 0 to |tasks|
      invariant before <= remove <= failed + Elements(PlanIds(tasks))
      invariant forall u :: u in remove ==> Doomed(tasks, failed, u)
      invariant grew <==> remove != before
      invariant !grew ==> forall j :: 0 <= j < i && (exists d :: d in Declared(tasks[j].dependsOn) && d in remove) ==>
          tasks[j].id in remove
    {
      if tasks[i].id !in remove {
        if d :| d in Declared(tasks[i].dependsOn) && d in remove {
          assert DependsOn(tasks, tasks[i].id, d);
          DependentIsDoomed(tasks, failed, tasks[i].id, d);
          assert PlanIds(tasks)[i] == tasks[i].id;
          remove := remove + {tasks[i].id};
          grew := true;
        }
      }
    }
  }

  function Refs(failure: FailureRecord): seq<TaskFailureRef> {
    if failure.taskFailures.Some? then failure.taskFailures.value else []
  }

  /** What replanning answers, in terms of the doomed set. */
  ghost function ReplanSpec(tasks: seq<PlanTask>, failure: FailureRecord): ReplanResult {
    var failed := RefIds(Refs(failure));
    var doomed := DoomedSet(tasks, failed);
    if failure.code != DependencyFailure then Refused(UnsupportedCode)
    else if failed == {} then Refused(NoFailedTasks)
    else if Survivors(tasks, doomed) == [] then Refused(EmptyAfterPrune)
    else Replanned(Survivors(tasks, doomed), RemovedIds(tasks, doomed))
  }

  /**
   * Prunes the failed subtree. The survivors are exactly the tasks that neither failed nor reach a
   * failed task, in plan order.
   */
  method DeterministicReplan(tasks: seq<PlanTask>, failure: FailureRecord) returns (result: ReplanResult)
    ensures result == ReplanSpec(tasks, failure)
  {
    hide Survivors, RemovedIds;
    if failure.code != DependencyFailure {
      return Refused(UnsupportedCode);
    }
    var failed := RefIds(Refs(failure));
    if failed == {} {
      return Refused(NoFailedTasks);
    }
    var remove := Prune(tasks, failed);
    var kept := Survivors(tasks, remove);
    return if kept == [] then Refused(EmptyAfterPrune) else Replanned(kept, RemovedIds(tasks, remove));
  }

  // ----- the pruned plan

  lemma PlanIdsCons(t: PlanTask, rest: seq<PlanTask>)
    ensures PlanIds([t] + rest) == [t.id] + PlanIds(rest)
  {
  }

  lemma SurvivorsCons(tasks: seq<PlanTask>, remove: set<Id>)
    requires tasks != []
    ensures var rest := Survivors(tasks[1..], remove);
            Survivors(tasks, remove) == if tasks[0].id in remove then rest else [tasks[0]] + rest
  {
  }

  lemma SurvivorsStep(tasks: seq<PlanTask>, remove: set<Id>)
    requires tasks != []
    ensures PlanIds(tasks) == [tasks[0].id] + PlanIds(tasks[1..])
    ensures var rest := PlanIds(Survivors(tasks[1..], remove));
            PlanIds(Survivors(tasks, remove)) == if tasks[0].id in remove then rest else [tasks[0].id] + rest
  {
    hide Survivors, PlanIds;
    SurvivorsCons(tasks, remove);
    PlanIdsCons(tasks[0], tasks[1..]);
    PlanIdsCons(tasks[0], Survivors(tasks[1..], remove));
    assert tasks == [tasks[0]] + tasks[1..];
  }

  lemma {:induction false} SurvivorsKeepOrder(tasks: seq<PlanTask>, remove: set<Id>)
    requires Distinct(PlanIds(tasks))
    ensures Distinct(PlanIds(Survivors(tasks, remove)))
    ensures forall u :: u in PlanIds(Survivors(tasks, remove)) <==> u in PlanIds(tasks) && u !in remove
  {
    hide Distinct, PlanIds, Survivors;
    if tasks == [] {
      assert Survivors(tasks, remove) == tasks;
    } else {
      SurvivorsStep(tasks, remove);
      DistinctCons(tasks[0].id, PlanIds(tasks[1..]));
      SurvivorsKeepOrder(tasks[1..], remove);
      if tasks[0].id !in remove {
        DistinctCons(tasks[0].id, PlanIds(Survivors(tasks[1..], remove)));
      }
    }
  }

  /** Replanning removes something whenever a failed id is in the plan. */
  lemma {:induction false} PruneShrinks(tasks: seq<PlanTask>, remove: set<Id>, u: Id)
    requires u in PlanIds(tasks) && u in remove
    ensures |Survivors(tasks, remove)| < |tasks|
  {
    if tasks[0].id !in remove {
      assert PlanIds(tasks) == [tasks[0].id] + PlanIds(tasks[1..]);
      PruneShrinks(tasks[1..], remove, u);
    }
  }

  /** Survivors of a valid plan keep all their dependencies. */
  lemma SurvivorsAreKnown(tasks: seq<PlanTask>, remove: set<Id>)
    requires Distinct(PlanIds(tasks)) && DependenciesKnown(PlanTable(tasks)) && ClosedUnderDependents(tasks, remove)
    requires Distinct(PlanIds(Survivors(tasks, remove)))
    ensures DependenciesKnown(PlanTable(Survivors(tasks, remove)))
    ensures forall u :: u in PlanTable(Survivors(tasks, remove)) ==>
        u in PlanTable(tasks) && PlanTable(tasks)[u] == PlanTable(Survivors(tasks, remove))[u]
  {
    hide Distinct, DependenciesKnown, PlanTable, ClosedUnderDependents;
    var kept := Survivors(tasks, remove);
    SurvivorsKeepOrder(tasks, remove);
    forall i | 0 <= i < |kept|
      ensures DependenciesFine(kept[i], PlanIds(kept))
      ensures kept[i].id in PlanTable(tasks) && kept[i].id in PlanTable(kept)
      ensures PlanTable(tasks)[kept[i].id] == PlanTable(kept)[kept[i].id]
    {
      assert kept[i] in tasks;
      var k :| 0 <= k < |tasks| && tasks[k] == kept[i];
      KnownIsFine(tasks, k);
      PlanTableEntry(tasks, k);
      PlanTableEntry(kept, i);
      SurvivorKeepsDependencies(tasks, remove, k);
    }
    FineIsKnown(kept);
    forall u | u in PlanTable(kept)
      ensures u in PlanTable(tasks) && PlanTable(tasks)[u] == PlanTable(kept)[u]
    {
      assert u in PlanIds(kept);
      var i :| 0 <= i < |kept| && PlanIds(kept)[i] == u;
    }
  }

  lemma SurvivorKeepsDependencies(tasks: seq<PlanTask>, remove: set<Id>, k: nat)
    requires ClosedUnderDependents(tasks, remove) && k < |tasks| && tasks[k].id !in remove
    ensures forall d :: d in Declared(tasks[k].dependsOn) ==> d !in remove
  {
  }

  /** A non-empty remainder of a valid plan is a valid plan. */
  lemma SurvivorsAreValid(tasks: seq<PlanTask>, remove: set<Id>)
    requires IsValidPlan(tasks) && ClosedUnderDependents(tasks, remove) && Survivors(tasks, remove) != []
    ensures IsValidPlan(Survivors(tasks, remove))
  {
    hide Distinct, ClosedUnderDependents, DependenciesKnown, Acyclic;
    var kept := Survivors(tasks, remove);
    SurvivorsKeepOrder(tasks, remove);
    SurvivorsAreKnown(tasks, remove);
    var big, small := AdjacencyOf(PlanTable(tasks)), AdjacencyOf(PlanTable(kept));
    assert small.Keys <= big.Keys;
    forall u | u in small
      ensures small[u] <= big[u]
    {
      assert PlanTable(tasks)[u] == PlanTable(kept)[u];
    }
    SubgraphAcyclic(big, small);
  }

  /** The doomed set is closed under dependents. */
  lemma DoomedIsClosed(tasks: seq<PlanTask>, failed: set<Id>)
    ensures ClosedUnderDependents(tasks, DoomedSet(tasks, failed)) && failed <= DoomedSet(tasks, failed)
  {
    hide Doomed;
    forall i, d | 0 <= i < |tasks| && d in Declared(tasks[i].dependsOn) && d in DoomedSet(tasks, failed)
      ensures tasks[i].id in DoomedSet(tasks, failed)
    {
      assert DependsOn(tasks, tasks[i].id, d);
      DependentIsDoomed(tasks, failed, tasks[i].id, d);
    }
    forall u | u in failed
      ensures u in DoomedSet(tasks, failed)
    {
      FailedIsDoomed(tasks, failed, u);
    }
  }

  /** Replanning a valid plan: what is left is valid, and smaller when some failed task belongs to the plan. */
  lemma ReplanKeepsValid(tasks: seq<PlanTask>, failure: FailureRecord)
    requires IsValidPlan(tasks) && ReplanSpec(tasks, failure).Replanned?
    ensures var left := ReplanSpec(tasks, failure).tasks;
            && IsValidPlan(left)
            && ((exists r :: r in Refs(failure) && r.taskId in PlanIds(tasks)) ==> |left| < |tasks|)
  {
    hide Doomed, IsValidPlan;
    var failed := RefIds(Refs(failure));
    DoomedIsClosed(tasks, failed);
    SurvivorsAreValid(tasks, DoomedSet(tasks, failed));
    if r :| r in Refs(failure) && r.taskId in PlanIds(tasks) {
      PruneShrinks(tasks, DoomedSet(tasks, failed), r.taskId);
    }
  }

  /** Nothing smaller would do: any set closed under dependents that holds the failed tasks holds all that is pruned. */
  lemma DoomedIsLeastSet(tasks: seq<PlanTask>, failed: set<Id>, s: set<Id>)
    requires failed <= s && ClosedUnderDependents(tasks, s)
    ensures DoomedSet(tasks, failed) <= s
  {
    forall u | u in DoomedSet(tasks, failed)
      ensures u in s
    {
      DoomedIsLeast(tasks, failed, s, u);
    }
  }
}

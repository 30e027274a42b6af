/**
 * When the Python scheduler can raise its deadlock error without any saturated submit: exactly when
 * one forward sweep may leave a task waiting for something that was skipped after it.
 */
module RuntimeStall {
  import opened Collections
  import opened Graphs
  import opened TaskGraphs
  import opened SchedulerProgress
  import opened RuntimeSteps
  import opened RuntimeSafety
  import opened RuntimeProgress

  /** The plan as a graph; agents play no part. */
  function PlanGraph(job: Job): Graph {
    Graph(job.ids, map t | t in job.deps :: t, job.deps)
  }

  lemma PlanGraphWellFormed(job: Job)
    requires ValidJob(job)
    ensures WellFormed(PlanGraph(job))
    ensures (forall t :: t in job.ids <==> t in job.deps) && forall t :: t in job.ids <==> t in job.timeouts
  {
    hide IsDag, Distinct;
  }

  /** One forward sweep over the plan always reaches everything it has to skip. */
  ghost predicate PlanSweepComplete(job: Job)
    requires ValidJob(job)
  {
    PlanGraphWellFormed(job);
    SweepComplete(PlanGraph(job))
  }

  /** Every task is listed after its dependencies. */
  ghost predicate ListedInOrder(job: Job)
    requires ValidJob(job)
  {
    PlanGraphWellFormed(job);
    InsertedInOrder(PlanGraph(job))
  }

  // ----- one skip sweep against one marking sweep

  lemma SkipOneKeeps(job: Job, s: RunState, t: Id, d: Id)
    requires t in job.deps && Unsuccessful(s.results, d)
    ensures Unsuccessful(SkipOne(job, s, t).results, d)
  {
  }

  /** Visiting a task with an unsuccessful dependency leaves it unsuccessful: it cannot have been submitted. */
  lemma VisitSkips(job: Job, s: RunState, t: Id, d: Id)
    requires Accounted(job, s) && t in job.deps && d in job.deps[t] && Unsuccessful(s.results, d)
    ensures Unsuccessful(SkipOne(job, s, t).results, t)
  {
    hide Distinct, DeadlinesClamped, WithinCap;
    assert !AllSucceeded(s.results, job.deps[t]);
    var i :| 0 <= i < |job.deps[t]| && job.deps[t][i] == d;
    assert HasUnsuccessful(s.results, job.deps[t]);
  }

  lemma {:induction false} MarkedIsUnsuccessful(job: Job, s: RunState, z: Id, n: nat, t: Id)
    requires Accounted(job, s) && n <= |job.ids| && (forall u :: u in job.ids ==> u in job.deps)
    requires Unsuccessful(s.results, z) && t in MarkUpTo(PlanGraph(job), {z}, n)
    ensures Unsuccessful(SkipUpTo(job, s, n).results, t)
  {
    hide Accounted, Unsuccessful, SkipOne;
    if n > 0 {
      var m, u := SkipUpTo(job, s, n - 1), job.ids[n - 1];
      if t in MarkUpTo(PlanGraph(job), {z}, n - 1) {
        MarkedIsUnsuccessful(job, s, z, n - 1, t);
        SkipOneKeeps(job, m, u, t);
      } else {
        var d :| d in job.deps[u] && d in MarkUpTo(PlanGraph(job), {z}, n - 1);
        MarkedIsUnsuccessful(job, s, z, n - 1, d);
        SkipAccounted(job, s, n - 1);
        VisitSkips(job, m, u, d);
      }
    }
  }

  lemma {:induction false} UnsuccessfulIsMarked(job: Job, s: RunState, n: nat, y: Id) returns (z: Id)
    requires n <= |job.ids| && forall u :: u in job.ids ==> u in job.deps
    requires Unsuccessful(SkipUpTo(job, s, n).results, y)
    ensures Unsuccessful(s.results, z) && y in MarkUpTo(PlanGraph(job), {z}, n)
  {
    if n == 0 {
      z := y;
    } else {
      var m, t := SkipUpTo(job, s, n - 1), job.ids[n - 1];
      if Unsuccessful(m.results, y) {
        z := UnsuccessfulIsMarked(job, s, n - 1, y);
      } else {
        var i :| 0 <= i < |job.deps[t]| && Unsuccessful(m.results, job.deps[t][i]);
        z := UnsuccessfulIsMarked(job, s, n - 1, job.deps[t][i]);
        assert Touches(job.deps[t], MarkUpTo(PlanGraph(job), {z}, n - 1));
      }
    }
  }

  /** No pending task waits for something that did not succeed. */
  ghost predicate NothingBlocked(job: Job, s: RunState) {
    forall t, d :: t in s.pending && t in job.deps && d in job.deps[t] ==> !Unsuccessful(s.results, d)
  }

  lemma SweepLeavesNoneBlocked(job: Job, s: RunState)
    requires Accounted(job, s) && WellFormed(PlanGraph(job)) && SweepComplete(PlanGraph(job))
    ensures NothingBlocked(job, Swept(job, s))
  {
    hide WithinCap, DeadlinesClamped, SubmitsJustified, Distinct, Unsuccessful, SkipUpTo, MarkUpTo;
    var w, n := Swept(job, s), |job.ids|;
    SkipAccounted(job, s, n);
    forall t, d | t in w.pending && t in job.deps && d in job.deps[t]
      ensures !Unsuccessful(w.results, d)
    {
      if Unsuccessful(w.results, d) {
        var z := UnsuccessfulIsMarked(job, s, n, d);
        UnsuccessfulIsKnown(job, s, z);
        assert Touches(job.deps[t], MarkUpTo(PlanGraph(job), {z}, n));
        MarkedIsUnsuccessful(job, s, z, n, t);
        PendingIsNoResult(w, t);
      }
    }
  }

  lemma UnsuccessfulIsKnown(job: Job, s: RunState, z: Id)
    requires Partitioned(job, s) && Unsuccessful(s.results, z)
    ensures z in job.deps
  {
  }

  lemma PendingIsNoResult(s: RunState, t: Id)
    requires Unsuccessful(s.results, t)
    ensures t in s.results
  {
  }

  // ----- something pending is ready

  /** With nothing running and nothing blocked, some pending task has only successful dependencies. */
  lemma SomePendingReady(job: Job, s: RunState) returns (t: Id)
    requires IsDag(job.deps) && Partitioned(job, s) && NothingBlocked(job, s) && s.running == map[] && s.pending != {}
    ensures t in s.pending && t in job.deps && AllSucceeded(s.results, job.deps[t])
  {
    hide AllSucceeded, IsDag, NothingBlocked, AdjacencyOf;
    PendingIsKnown(job, s);
    if u :| u in s.pending && AllSucceeded(s.results, job.deps[u]) {
      t := u;
    } else {
      forall u | u in s.pending
        ensures AdjacencyOf(job.deps)[u] * s.pending != {}
      {
        WaitsForPending(job, s, u);
      }
      var c := StuckSetHasCycle(AdjacencyOf(job.deps), s.pending);
      DagHasNoCycle(job.deps, c);
    }
  }

  lemma PendingIsKnown(job: Job, s: RunState)
    requires Partitioned(job, s)
    ensures s.pending <= job.deps.Keys
  {
  }

  lemma DagHasNoCycle(deps: map<Id, seq<Id>>, c: seq<Id>)
    requires IsDag(deps)
    ensures !IsCycle(AdjacencyOf(deps), c)
  {
  }

  /** A pending task that is neither ready nor blocked waits for another pending task. */
  lemma WaitsForPending(job: Job, s: RunState, u: Id)
    requires IsDag(job.deps) && Partitioned(job, s) && NothingBlocked(job, s) && s.running == map[]
    requires u in s.pending && !AllSucceeded(s.results, job.deps[u])
    ensures AdjacencyOf(job.deps)[u] * s.pending != {}
  {
    hide Acyclic;
    var d :| d in job.deps[u] && !(d in s.results && s.results[d] == Success);
    assert !Unsuccessful(s.results, d);
    assert d in AdjacencyOf(job.deps)[u] * s.pending;
  }

  lemma IdleMeansDrained(job: Job, s: RunState, turn: Turn)
    requires WellFormed(PlanGraph(job))
    requires (forall t :: t in job.ids <==> t in job.deps) && forall t :: t in job.ids <==> t in job.timeouts
    requires IsDag(job.deps) && Accounted(job, s) && SweepComplete(PlanGraph(job)) && UsableLimit(job)
    requires turn.saturated == {} && Launched(job, s, turn).running == map[]
    ensures Launched(job, s, turn).pending == {}
  {
    hide IsDag, SubmitsJustified, DeadlinesClamped, WithinCap, SweepComplete, Unsuccessful, SkipUpTo, LaunchUpTo,
        AllSucceeded, Distinct;
    var w, m, n := Swept(job, s), Launched(job, s, turn), |job.ids|;
    SkipAccounted(job, s, n);
    LaunchAccounted(job, w, n, turn.launchNow, turn.saturated);
    SweepLeavesNoneBlocked(job, s);
    LaunchKeepsResults(job, w, n, turn.launchNow);
    if m.pending != {} {
      var t := SomePendingReady(job, m);
      var i :| 0 <= i < n && job.ids[i] == t;
      IdleLaunchFindsNone(job, w, n, turn.launchNow, turn.saturated, i);
    }
  }

  /** Where one sweep always suffices, no run without saturation deadlocks. */
  lemma NoDeadlock(job: Job, turns: seq<Turn>, p: Point)
    requires ValidJob(job) && UsableLimit(job) && PlanSweepComplete(job)
    requires RunTurns(job, turns) == Some(p) && NothingSaturates(turns)
    ensures p.Exited? ==> p.exit != Deadlock
  {
    hide Accounted, Possible, SweepComplete, CollectAll, ExpireAll, LaunchUpTo, SkipUpTo, IsDag, Distinct;
    PlanGraphWellFormed(job);
    if turns != [] {
      var last := |turns| - 1;
      RunAccounted(job, turns[..last]);
      var s := RunTurns(job, turns[..last]).value.state;
      if Launched(job, s, turns[last]).running == map[] {
        IdleMeansDrained(job, s, turns[last]);
      }
      CollectNeverDeadlocks(Launched(job, s, turns[last]), turns[last].done);
    }
  }

  /** In particular when every task is listed after its dependencies. */
  lemma ListedInOrderNeverDeadlocks(job: Job, turns: seq<Turn>, p: Point)
    requires ValidJob(job) && UsableLimit(job) && ListedInOrder(job)
    requires RunTurns(job, turns) == Some(p) && NothingSaturates(turns)
    ensures p.Exited? ==> p.exit != Deadlock
  {
    hide IsDag, Distinct, InsertedInOrder, SweepComplete, RunTurns;
    PlanGraphWellFormed(job);
    OrderedIsSweepComplete(PlanGraph(job));
    NoDeadlock(job, turns, p);
  }

  // ----- necessity

  /** The plan with no limits of any kind. */
  function Unlimited(job: Job): Job {
    Job(job.ids, job.deps, map t | t in job.deps :: None, None, None, None)
  }

  /** The earliest turn there can be, with nothing done yet. */
  function Opening(job: Job): Turn {
    Turn(Early(job), {}, [], 0)
  }

  /** No task ever ran out of budget. */
  ghost predicate BudgetHolds(turns: seq<Turn>) {
    forall i, j :: 0 <= i < |turns| && 0 <= j < |turns[i].done| ==> turns[i].done[j].1 != RaisedBudget
  }

  ghost predicate AllSuccess(results: map<Id, Verdict>) {
    forall t :: t in results ==> results[t] == Success
  }

  ghost predicate Usable(job: Job) {
    && UsableLimit(job)
    && (forall t :: t in job.ids <==> t in job.deps) && (forall t :: t in job.ids <==> t in job.timeouts)
  }

  ghost predicate Free(job: Job) {
    Usable(job) && job.maxConcurrency.None?
  }

  /** Nothing failed so far, and `z` is not over. */
  ghost predicate Calm(job: Job, s: RunState, z: Id) {
    Accounted(job, s) && AllSuccess(s.results) && z in Unresolved(s)
  }

  lemma {:induction false} NothingToSkipYet(job: Job, s: RunState, n: nat)
    requires n <= |job.ids| && (forall t :: t in job.ids ==> t in job.deps) && AllSuccess(s.results)
    ensures SkipUpTo(job, s, n) == s
  {
    if n > 0 {
      NothingToSkipYet(job, s, n - 1);
    }
  }

  /** Without limits a launch sweep leaves no ready task pending. */
  lemma {:induction false} FreeLaunch(job: Job, s: RunState, n: nat, i: nat)
    requires Free(job) && i < n <= |job.ids|
    ensures var m := LaunchUpTo(job, s, n, Early(job), {});
            m.results == s.results && (job.ids[i] in m.pending ==> !AllSucceeded(m.results, job.deps[job.ids[i]]))
  {
    hide AllSucceeded;
    LaunchKeepsResults(job, s, n, Early(job));
    LaunchKeepsResults(job, s, n - 1, Early(job));
    if i < n - 1 {
      FreeLaunch(job, s, n - 1, i);
      LaunchUnfolds(job, s, n);
    }
  }

  lemma LaunchUnfolds(job: Job, s: RunState, n: nat)
    requires Free(job) && 0 < n <= |job.ids|
    ensures LaunchUpTo(job, s, n, Early(job), {}).pending <= LaunchUpTo(job, s, n - 1, Early(job), {}).pending
  {
  }

  lemma FreeLaunchLeavesNoneReady(job: Job, s: RunState, t: Id)
    requires Free(job) && t in LaunchUpTo(job, s, |job.ids|, Early(job), {}).pending && t in job.deps
    ensures !AllSucceeded(LaunchUpTo(job, s, |job.ids|, Early(job), {}).results, job.deps[t])
  {
    hide AllSucceeded, LaunchUpTo;
    var i :| 0 <= i < |job.ids| && job.ids[i] == t;
    FreeLaunch(job, s, |job.ids|, i);
  }

  /** The state after the launch of a calm turn. */
  lemma CalmLaunch(job: Job, s: RunState, z: Id, turn: Turn)
    requires Usable(job) && IsDag(job.deps) && Calm(job, s, z)
    requires turn.launchNow == Early(job) && turn.saturated == {}
    ensures var m := Launched(job, s, turn);
            && m == LaunchUpTo(job, s, |job.ids|, Early(job), {})
            && Calm(job, m, z) && m.running != map[] && Unresolved(m) <= Unresolved(s)
            && TurnStep(job, s, turn) == WaitStep(m, turn)
  {
    hide IsDag, LaunchUpTo, SkipUpTo, AllSucceeded, Accounted, WaitStep;
    var n := |job.ids|;
    NothingToSkipYet(job, s, n);
    LaunchAccounted(job, s, n, Early(job), {});
    LaunchKeepsResults(job, s, n, Early(job));
    LaunchShrinks(job, s, n, Early(job), {});
    var m := Launched(job, s, turn);
    StillUnresolved(job, s, m, z);
    if m.running == map[] {
      CalmIsUnblocked(job, m);
      var t := SomePendingReady(job, m);
      var i :| 0 <= i < n && job.ids[i] == t;
      IdleLaunchFindsNone(job, s, n, Early(job), {}, i);
    }
  }

  lemma StillUnresolved(job: Job, s: RunState, m: RunState, z: Id)
    requires Accounted(job, s) && Accounted(job, m) && m.results == s.results && z in Unresolved(s)
    ensures z in Unresolved(m) && Partitioned(job, m) && (m.running == map[] ==> m.pending != {})
  {
    hide SubmitsJustified, DeadlinesClamped, WithinCap;
  }

  lemma CalmIsUnblocked(job: Job, m: RunState)
    requires AllSuccess(m.results)
    ensures NothingBlocked(job, m)
  {
  }

  lemma CollectOneDone(job: Job, s: RunState, t: Id, output: Output)
    requires Accounted(job, s) && t in s.running && output != RaisedBudget
    ensures Accounted(job, Collect(s, t, output)) && CollectAll(s, [(t, output)]) == Going(Collect(s, t, output))
  {
    hide Accounted;
    RecordRunning(job, s, t, VerdictOf(output));
    var done := [(t, output)];
    assert done[1..] == [];
  }

  /** One turn that completes one running task. */
  lemma OneCompletion(job: Job, turns: seq<Turn>, s: RunState, z: Id, t: Id, output: Output) returns (more: seq<Turn>)
    requires ValidJob(job) && Usable(job) && RunTurns(job, turns) == Some(Going(s)) && Calm(job, s, z)
    requires NothingSaturates(turns) && BudgetHolds(turns)
    requires t in LaunchUpTo(job, s, |job.ids|, Early(job), {}).running && output != RaisedBudget
    ensures NothingSaturates(more) && BudgetHolds(more)
    ensures RunTurns(job, more) == Some(Going(Collect(LaunchUpTo(job, s, |job.ids|, Early(job), {}), t, output)))
    ensures Accounted(job, Collect(LaunchUpTo(job, s, |job.ids|, Early(job), {}), t, output))
  {
    hide IsDag, LaunchUpTo, SkipUpTo, RunTurns, Accounted, Distinct, CollectAll, TurnStep;
    var turn := Opening(job).(done := [(t, output)]);
    CalmLaunch(job, s, z, turn);
    var m := Launched(job, s, turn);
    CollectOneDone(job, m, t, output);
    TurnAppended(job, turns, s, turn);
    more := turns + [turn];
  }

  /** Completing everything else leaves `z` alone in flight. */
  lemma {:induction false} Drain(job: Job, turns: seq<Turn>, s: RunState, z: Id) returns (more: seq<Turn>, r: RunState)
    requires ValidJob(job) && Usable(job) && RunTurns(job, turns) == Some(Going(s)) && Calm(job, s, z)
    requires NothingSaturates(turns) && BudgetHolds(turns)
    ensures RunTurns(job, more) == Some(Going(r)) && NothingSaturates(more) && BudgetHolds(more) && Calm(job, r, z)
    ensures LaunchUpTo(job, r, |job.ids|, Early(job), {}).running.Keys == {z}
    decreases |Unresolved(s)|
  {
    hide IsDag, LaunchUpTo, RunTurns, Accounted, Distinct, ValidJob, TurnStep, NothingSaturates, BudgetHolds;
    JobIsDag(job);
    CalmLaunch(job, s, z, Opening(job));
    var m := LaunchUpTo(job, s, |job.ids|, Early(job), {});
    if t :| t in m.running && t != z {
      var next := OneCompletion(job, turns, s, z, t, Value);
      var c := Collect(m, t, Value);
      CollectedIsCalm(job, m, z, t);
      ProperSubsetSize(Unresolved(c), Unresolved(s));
      more, r := Drain(job, next, c, z);
    } else {
      more, r := turns, s;
      assert m.running.Keys != {};
      assert forall t :: t in m.running.Keys ==> t == z;
    }
  }

  lemma JobIsDag(job: Job)
    requires ValidJob(job)
    ensures IsDag(job.deps)
  {
  }

  lemma CollectedIsCalm(job: Job, m: RunState, z: Id, t: Id)
    requires Calm(job, m, z) && t in m.running && t != z && Accounted(job, Collect(m, t, Value))
    ensures Calm(job, Collect(m, t, Value), z) && Unresolved(Collect(m, t, Value)) < Unresolved(m)
  {
    hide SubmitsJustified, DeadlinesClamped, WithinCap;
    assert t in Unresolved(m) && t !in Unresolved(Collect(m, t, Value));
  }

  /** Nothing that was not ready becomes ready by failures and skips. */
  lemma {:induction false} SkipMakesNothingReady(job: Job, s: RunState, n: nat, deps: seq<Id>)
    requires n <= |job.ids| && (forall t :: t in job.ids ==> t in job.deps) && !AllSucceeded(s.results, deps)
    ensures !AllSucceeded(SkipUpTo(job, s, n).results, deps)
  {
    if n > 0 {
      SkipMakesNothingReady(job, s, n - 1, deps);
      var m := SkipUpTo(job, s, n - 1);
      var d :| d in deps && !(d in m.results && m.results[d] == Success);
      assert !(d in SkipUpTo(job, s, n).results && SkipUpTo(job, s, n).results[d] == Success);
    }
  }

  lemma {:induction false} NothingToLaunch(job: Job, s: RunState, n: nat)
    requires Free(job) && n <= |job.ids| && forall t :: t in s.pending && t in job.deps ==>
        !AllSucceeded(s.results, job.deps[t])
    ensures LaunchUpTo(job, s, n, Early(job), {}) == s
  {
    hide AllSucceeded;
    if n > 0 {
      NothingToLaunch(job, s, n - 1);
    }
  }

  lemma FailureReadiesNothing(m: RunState, z: Id, deps: seq<Id>)
    requires !AllSucceeded(m.results, deps)
    ensures !AllSucceeded(m.results[z := Failure], deps)
  {
    var d :| d in deps && !(d in m.results && m.results[d] == Success);
    assert !(d in m.results[z := Failure] && m.results[z := Failure][d] == Success);
  }

  /** After `z` fails, the next turn sweeps from `z` only; a dependent the sweep missed stays pending. */
  lemma MissedStaysPending(job: Job, s: RunState, z: Id, x: Id)
    requires Free(job) && Accounted(job, s) && s.running == map[] && Unsuccessful(s.results, z)
    requires forall u :: Unsuccessful(s.results, u) ==> u == z
    requires x in job.deps && Touches(job.deps[x], MarkUpTo(PlanGraph(job), {z}, |job.ids|))
    requires x !in MarkUpTo(PlanGraph(job), {z}, |job.ids|)
    ensures x in Swept(job, s).pending
  {
    hide Distinct, DeadlinesClamped, WithinCap, SkipUpTo, MarkUpTo;
    var w, n := Swept(job, s), |job.ids|;
    SkipAccounted(job, s, n);
    var d :| d in job.deps[x] && d in MarkUpTo(PlanGraph(job), {z}, n);
    MarkedIsUnsuccessful(job, s, z, n, d);
    assert !AllSucceeded(w.results, job.deps[x]);
    if Unsuccessful(w.results, x) {
      var y := UnsuccessfulIsMarked(job, s, n, x);
    }
  }

  /** A task whose dependents outrun one sweep gives a run that deadlocks with nothing saturated. */
  lemma DeadlockingRun(job: Job, z: Id, x: Id) returns (turns: seq<Turn>, r: RunState)
    requires ValidJob(job) && Free(job) && z in job.deps && x in job.deps
    requires Touches(job.deps[x], MarkUpTo(PlanGraph(job), {z}, |job.ids|))
    requires x !in MarkUpTo(PlanGraph(job), {z}, |job.ids|)
    ensures NothingSaturates(turns) && RunTurns(job, turns) == Some(Exited(Deadlock, r))
  {
    hide IsDag, LaunchUpTo, SkipUpTo, RunTurns, Accounted, Distinct, ValidJob, MarkUpTo, InitialRun, Unsuccessful;
    RunStarts(job);
    InitialIsCalm(job, z);
    var s;
    turns, s := Drain(job, [], InitialRun(job), z);
    JobIsDag(job);
    CalmLaunch(job, s, z, Opening(job));
    var m := LaunchUpTo(job, s, |job.ids|, Early(job), {});
    turns := OneCompletion(job, turns, s, z, z, Raised);
    var f := Collect(m, z, Raised);
    OnlyFailure(job, m, z);
    MissedStaysPending(job, f, z, x);
    IdleAfterFailure(job, s, m, f, z);
    SkipShrinks(job, f, |job.ids|);
    assert x in f.pending;
    TurnAppended(job, turns, f, Opening(job));
    turns := turns + [Opening(job)];
    r := AbortAll(Launched(job, f, Opening(job)));
  }

  lemma InitialIsCalm(job: Job, z: Id)
    requires ValidJob(job) && z in job.deps
    ensures Calm(job, InitialRun(job), z)
  {
    InitialAccounted(job);
  }

  lemma OnlyFailure(job: Job, m: RunState, z: Id)
    requires Calm(job, m, z) && m.running.Keys == {z}
    ensures var f := Collect(m, z, Raised);
            f.running == map[] && Unsuccessful(f.results, z) && forall u :: Unsuccessful(f.results, u) ==> u == z
  {
    hide Accounted;
    assert (m.running - {z}).Keys == {};
  }

  lemma IdleAfterFailure(job: Job, s: RunState, m: RunState, f: RunState, z: Id)
    requires Free(job) && m == LaunchUpTo(job, s, |job.ids|, Early(job), {})
    requires f == Collect(m, z, Raised) && f.running == map[]
    ensures Launched(job, f, Opening(job)) == Swept(job, f) && Launched(job, f, Opening(job)).running == map[]
  {
    hide LaunchUpTo, AllSucceeded, SkipUpTo;
    var w := Swept(job, f);
    SkipShrinks(job, f, |job.ids|);
    forall t | t in w.pending && t in job.deps
      ensures !AllSucceeded(w.results, job.deps[t])
    {
      FreeLaunchLeavesNoneReady(job, s, t);
      FailureReadiesNothing(m, z, job.deps[t]);
      SkipMakesNothingReady(job, f, |job.ids|, job.deps[t]);
    }
    NothingToLaunch(job, w, |job.ids|);
  }

  // ----- the exact condition

  /** No setting of limits and deadlines lets a run without saturation deadlock on these tasks. */
  ghost predicate NeverDeadlocks(ids: seq<Id>, deps: map<Id, seq<Id>>) {
    forall job: Job, turns: seq<Turn> ::
      job.ids == ids && job.deps == deps && ValidJob(job) && UsableLimit(job) && NothingSaturates(turns)
          && RunTurns(job, turns).Some? ==>
        !(RunTurns(job, turns).value.Exited? && RunTurns(job, turns).value.exit == Deadlock)
  }

  lemma UnlimitedIsFree(job: Job)
    requires ValidJob(job)
    ensures ValidJob(Unlimited(job)) && Free(Unlimited(job)) && UsableLimit(Unlimited(job))
        && PlanGraph(Unlimited(job)) == PlanGraph(job)
  {
    hide IsDag, Distinct;
  }

  lemma IncompleteSweepDeadlocks(job: Job)
    requires ValidJob(job) && !PlanSweepComplete(job)
    ensures !NeverDeadlocks(job.ids, job.deps)
  {
    hide ValidJob, RunTurns, IsDag, Distinct, MarkUpTo, Free;
    var g, free := PlanGraph(job), Unlimited(job);
    PlanGraphWellFormed(job);
    UnlimitedIsFree(job);
    var z, x :| z in g.deps && x in g.deps && Touches(g.deps[x], MarkUpTo(g, {z}, |g.ids|))
        && x !in MarkUpTo(g, {z}, |g.ids|);
    var turns, r := DeadlockingRun(free, z, x);
    assert free.ids == job.ids && free.deps == job.deps;
  }

  /**
   * Exactly when the deadlock error is unreachable without saturation: for every setting of limits
   * and deadlines, if and only if one skip sweep always reaches everything it has to skip.
   */
  lemma NeverDeadlocksIffSweepComplete(job: Job)
    requires ValidJob(job)
    ensures NeverDeadlocks(job.ids, job.deps) <==> PlanSweepComplete(job)
  {
    hide ValidJob, RunTurns, IsDag, Distinct, SweepComplete, WellFormed;
    if PlanSweepComplete(job) {
      forall other: Job, turns: seq<Turn> |
        other.ids == job.ids && other.deps == job.deps && ValidJob(other) && UsableLimit(other)
            && NothingSaturates(turns) && RunTurns(other, turns).Some?
        ensures !(RunTurns(other, turns).value.Exited? && RunTurns(other, turns).value.exit == Deadlock)
      {
        assert PlanGraph(other) == PlanGraph(job);
        NoDeadlock(other, turns, RunTurns(other, turns).value);
      }
    } else {
      IncompleteSweepDeadlocks(job);
    }
  }
}

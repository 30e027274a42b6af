/**
 * When a run of the Python scheduler can lose the result of a task: exactly when some task of the
 * plan can run out of budget and the concurrency limit lets anything start at all.
 */
module RuntimeLoss {
  import opened Collections
  import opened Graphs
  import opened TaskGraphs
  import opened RuntimeSteps
  import opened RuntimeSafety
  import opened RuntimeProgress
  import opened RuntimeStall
  import opened RuntimeResults

  /** Only tasks that may run out of budget ever do. */
  ghost predicate RaisesOnly(turns: seq<Turn>, mayRaise: Id -> bool) {
    forall i, j :: 0 <= i < |turns| && 0 <= j < |turns[i].done| && turns[i].done[j].1 == RaisedBudget ==>
      mayRaise(turns[i].done[j].0)
  }

  /** Some run ends without a result for `z`. */
  ghost predicate CanLose(job: Job, mayRaise: Id -> bool, z: Id)
    requires ValidJob(job)
  {
    exists turns, p ::
      RaisesOnly(turns, mayRaise) && RunTurns(job, turns) == Some(p) && p.Exited? && z !in p.state.results
  }

  /** Some run ends without a result for some task. */
  ghost predicate CanLoseResult(job: Job, mayRaise: Id -> bool)
    requires ValidJob(job)
  {
    exists turns, p ::
      RaisesOnly(turns, mayRaise) && RunTurns(job, turns) == Some(p) && p.Exited?
          && p.state.results.Keys != job.deps.Keys
  }

  // ----- a run that loses a result

  /** Completing everything that stands in its way, and then letting `z` run out of budget. */
  lemma LosingRun(job: Job, z: Id) returns (turns: seq<Turn>, p: Point)
    requires ValidJob(job) && UsableLimit(job) && z in job.deps
    ensures RunTurns(job, turns) == Some(p) && p.Exited? && p.exit == OverBudget(z)
    ensures forall mayRaise: Id -> bool :: mayRaise(z) ==> RaisesOnly(turns, mayRaise)
  {
    hide IsDag, LaunchUpTo, SkipUpTo, RunTurns, Accounted, Distinct, ValidJob, InitialRun, TurnStep, RaisesOnly;
    RunStarts(job);
    InitialIsCalm(job, z);
    JobTables(job);
    JobIsDag(job);
    var before, s := Drain(job, [], InitialRun(job), z);
    var turn := Opening(job).(done := [(z, RaisedBudget)]);
    CalmLaunch(job, s, z, turn);
    TurnAppended(job, before, s, turn);
    turns := before + [turn];
    p := Settled(TurnStep(job, s, turn));
    forall mayRaise: Id -> bool | mayRaise(z)
      ensures RaisesOnly(turns, mayRaise)
    {
      LastRaises(before, turn, z, mayRaise);
    }
  }

  lemma LastRaises(before: seq<Turn>, turn: Turn, z: Id, mayRaise: Id -> bool)
    requires BudgetHolds(before) && turn.done == [(z, RaisedBudget)] && mayRaise(z)
    ensures RaisesOnly(before + [turn], mayRaise)
  {
  }

  // ----- what a budget error takes

  /** An unusable limit starts nothing, so nothing can run out of budget. */
  lemma {:induction false} UnusableLaunchesNothing(job: Job, s: RunState, n: nat, now: int, saturated: set<Id>)
    requires n <= |job.ids| && (forall t :: t in job.ids ==> t in job.deps && t in job.timeouts) && !UsableLimit(job)
    ensures LaunchUpTo(job, s, n, now, saturated) == s
  {
    if n > 0 {
      UnusableLaunchesNothing(job, s, n - 1, now, saturated);
    }
  }

  /** Some turn of an over-budget run held the error of its task, and the limit was usable. */
  lemma OverBudgetWasRaised(job: Job, turns: seq<Turn>, p: Point) returns (j: nat)
    requires ValidJob(job) && RunTurns(job, turns) == Some(p) && p.Exited? && p.exit.OverBudget?
    ensures turns != [] && j < |turns[|turns| - 1].done| && turns[|turns| - 1].done[j] == (p.exit.task, RaisedBudget)
    ensures UsableLimit(job)
  {
    hide ValidJob, CollectAll, LaunchUpTo, SkipUpTo, UsableLimit, AbortAll;
    var last := |turns| - 1;
    JobTables(job);
    var s := RunTurns(job, turns[..last]).value.state;
    j := CollectRaises(Launched(job, s, turns[last]), turns[last].done);
    if !UsableLimit(job) {
      UnusableStaysIdle(job, turns[..last]);
      SkipShrinks(job, s, |job.ids|);
      UnusableLaunchesNothing(job, Swept(job, s), |job.ids|, turns[last].launchNow, turns[last].saturated);
    }
  }

  lemma {:induction false} UnusableStaysIdle(job: Job, turns: seq<Turn>)
    requires ValidJob(job) && !UsableLimit(job) && RunTurns(job, turns).Some? && RunTurns(job, turns).value.Going?
    ensures RunTurns(job, turns).value.state.running == map[]
  {
    hide ValidJob, LaunchUpTo, SkipUpTo, UsableLimit;
    if turns != [] {
      var last := |turns| - 1;
      JobTables(job);
      UnusableStaysIdle(job, turns[..last]);
      var s := RunTurns(job, turns[..last]).value.state;
      SkipShrinks(job, s, |job.ids|);
      UnusableLaunchesNothing(job, Swept(job, s), |job.ids|, turns[last].launchNow, turns[last].saturated);
    }
  }

  /** A task can end without a result exactly when it may run out of budget and something can start. */
  lemma LosesTaskIff(job: Job, mayRaise: Id -> bool, z: Id)
    requires ValidJob(job) && z in job.deps
    ensures CanLose(job, mayRaise, z) <==> UsableLimit(job) && mayRaise(z)
  {
    hide ValidJob, RunTurns, UsableLimit;
    if CanLose(job, mayRaise, z) {
      var turns: seq<Turn>, p :| RaisesOnly(turns, mayRaise) && RunTurns(job, turns) == Some(p) && p.Exited?
          && z !in p.state.results;
      assert z !in p.state.results.Keys;
      if !p.exit.OverBudget? {
        EveryTaskHasResult(job, turns, p);
      }
      var j := OverBudgetWasRaised(job, turns, p);
      OverBudgetLosesOne(job, turns, p);
      assert mayRaise(turns[|turns| - 1].done[j].0);
    }
    if UsableLimit(job) && mayRaise(z) {
      var turns, p := LosingRun(job, z);
      OverBudgetLosesOne(job, turns, p);
      assert z !in p.state.results.Keys;
    }
  }

  /**
   * Exactly when the promised result for every task can be missing: for every plan, limit and
   * deadline, if and only if something can start and some task may run out of budget.
   */
  lemma LosesResultIff(job: Job, mayRaise: Id -> bool)
    requires ValidJob(job)
    ensures CanLoseResult(job, mayRaise) <==> UsableLimit(job) && exists t :: t in job.deps && mayRaise(t)
  {
    hide ValidJob, RunTurns, UsableLimit, RaisesOnly;
    if CanLoseResult(job, mayRaise) {
      var turns: seq<Turn>, p :| RaisesOnly(turns, mayRaise) && RunTurns(job, turns) == Some(p) && p.Exited?
          && p.state.results.Keys != job.deps.Keys;
      if !p.exit.OverBudget? {
        EveryTaskHasResult(job, turns, p);
      }
      OverBudgetLosesOne(job, turns, p);
      assert p.exit.task !in p.state.results.Keys;
      LosesTaskIff(job, mayRaise, p.exit.task);
    }
    if UsableLimit(job) && exists t :: t in job.deps && mayRaise(t) {
      var z :| z in job.deps && mayRaise(z);
      var turns, p := LosingRun(job, z);
      OverBudgetLosesOne(job, turns, p);
    }
  }

  // ----- the shortest such run

  /** One task that runs out of budget: the run ends without any result. */
  lemma LoneTaskLosesResult(t: Id) returns (turns: seq<Turn>)
    ensures ValidJob(LoneJob(t)) && turns == [Turn(0, {}, [(t, RaisedBudget)], 0)]
    ensures RunTurns(LoneJob(t), turns) == Some(Exited(OverBudget(t), RunState({}, map[], map[], [t])))
  {
    hide ValidJob, Possible, TurnStep, Settled, RunTurns, InitialRun;
    var job, turn := LoneJob(t), Turn(0, {}, [(t, RaisedBudget)], 0);
    LoneJobIsValid(t);
    LoneTurn(t, turn);
    RunStarts(job);
    TurnAppended(job, [], InitialRun(job), turn);
    turns := [] + [turn];
  }

  lemma LoneTurn(t: Id, turn: Turn)
    requires turn == Turn(0, {}, [(t, RaisedBudget)], 0)
    ensures var job := LoneJob(t);
            && Possible(job, InitialRun(job), turn)
            && Settled(TurnStep(job, InitialRun(job), turn)) == Exited(OverBudget(t), RunState({}, map[], map[], [t]))
  {
    var job := LoneJob(t);
    var i := InitialRun(job);
    assert job.ids[0] == t && i.pending == {t};
    assert SkipUpTo(job, i, 0) == i;
    assert SkipUpTo(job, i, 1) == i;
    assert LaunchUpTo(job, i, 0, 0, {}) == i;
    var m := RunState({}, map[t := None], map[], [t]);
    assert LaunchUpTo(job, i, 1, 0, {}) == m;
    assert t in m.running;
    var d := DropOverBudget(m, t);
    assert d.running == map[];
    assert CollectAll(m, turn.done) == Exited(OverBudget(t), d);
    assert AbortAll(d).results == map[];
  }
}

/** Accounting of the Python scheduler: where every task is at each turn, and what each exit leaves. */
module RuntimeSafety {
  import opened Collections
  import opened Graphs
  import opened TaskGraphs
  import opened RuntimeSteps

  /** Every task of the plan is in exactly one of the three tables. */
  ghost predicate Partitioned(job: Job, s: RunState) {
    && (forall t :: t in job.deps <==> t in s.pending || t in s.running || t in s.results)
    && (forall t :: t in s.pending ==> t !in s.running && t !in s.results)
    && (forall t :: t in s.running ==> t !in s.results)
  }

  /** Nothing is submitted twice or before its dependencies succeeded; running and succeeded tasks were submitted. */
  ghost predicate SubmitsJustified(job: Job, s: RunState) {
    && Distinct(s.submitted)
    && (forall t :: t in s.submitted ==> t in job.deps && t !in s.pending && AllSucceeded(s.results, job.deps[t]))
    && (forall t :: t in s.running ==> t in s.submitted)
    && (forall t :: t in s.results && s.results[t] == Success ==> t in s.submitted)
  }

  /** A task deadline never lies after the run deadline. */
  ghost predicate DeadlinesClamped(job: Job, s: RunState) {
    job.deadline.Some? ==> forall t :: t in s.running ==> s.running[t].Some? && s.running[t].value <= job.deadline.value
  }

  ghost predicate WithinCap(job: Job, s: RunState) {
    job.maxConcurrency.Some? && job.maxConcurrency.value >= 0 ==> |s.running| <= job.maxConcurrency.value
  }

  ghost predicate Accounted(job: Job, s: RunState) {
    Partitioned(job, s) && SubmitsJustified(job, s) && DeadlinesClamped(job, s) && WithinCap(job, s)
  }

  // ----- recording a verdict for a task that is not submitted, running and unresolved, or pending

  lemma RecordPending(job: Job, s: RunState, t: Id, v: Verdict)
    requires Accounted(job, s) && t in s.pending && v != Success
    ensures Accounted(job, s.(pending := s.pending - {t}, results := s.results[t := v]))
  {
    hide Distinct;
  }

  lemma RecordRunning(job: Job, s: RunState, t: Id, v: Verdict)
    requires Accounted(job, s) && t in s.running
    ensures Accounted(job, s.(running := s.running - {t}, results := s.results[t := v]))
  {
    hide Distinct;
    FewerRunning(s.running, {t});
  }

  lemma FewerRunning(running: map<Id, Option<int>>, gone: set<Id>)
    ensures |running - gone| <= |running|
  {
    SubsetSize((running - gone).Keys, running.Keys);
    assert |(running - gone).Keys| == |running - gone| && |running.Keys| == |running|;
  }

  lemma SkipOneAccounted(job: Job, s: RunState, t: Id)
    requires Accounted(job, s) && t in job.deps
    ensures Accounted(job, SkipOne(job, s, t)) && SkipOne(job, s, t).running == s.running
        && SkipOne(job, s, t).submitted == s.submitted
  {
    hide Accounted, HasUnsuccessful;
    if t in s.pending && HasUnsuccessful(s.results, job.deps[t]) {
      RecordPending(job, s, t, Skipped);
    }
  }

  lemma {:induction false} SkipAccounted(job: Job, s: RunState, n: nat)
    requires Accounted(job, s) && n <= |job.ids| && forall t :: t in job.ids ==> t in job.deps
    ensures Accounted(job, SkipUpTo(job, s, n))
    ensures SkipUpTo(job, s, n).running == s.running && SkipUpTo(job, s, n).submitted == s.submitted
  {
    hide Accounted, SkipOne;
    if n > 0 {
      SkipAccounted(job, s, n - 1);
      SkipOneAccounted(job, SkipUpTo(job, s, n - 1), job.ids[n - 1]);
    }
  }

  lemma LaunchOneAccounted(job: Job, s: RunState, t: Id, now: int, saturated: set<Id>)
    requires Accounted(job, s) && t in job.deps && t in job.timeouts && !AtCap(job, s.running)
    ensures Accounted(job, LaunchOne(job, s, t, now, saturated))
  {
    hide Distinct;
    if t in s.pending && AllSucceeded(s.results, job.deps[t]) {
      if t in saturated {
        RecordPending(job, s, t, Timeout);
      } else {
        SubmitAccounted(job, s, t, now);
      }
    }
  }

  lemma SubmitAccounted(job: Job, s: RunState, t: Id, now: int)
    requires Accounted(job, s) && t in job.deps && t in job.timeouts && !AtCap(job, s.running)
    requires t in s.pending && AllSucceeded(s.results, job.deps[t])
    ensures Accounted(job, s.(pending := s.pending - {t}, running := s.running[t := TaskDeadline(job, t, now)],
                              submitted := s.submitted + [t]))
  {
    hide Distinct, AllSucceeded;
    DistinctAppend(s.submitted, t);
    assert forall u :: u in s.submitted + [t] <==> u in s.submitted || u == t;
  }

  lemma {:induction false} LaunchAccounted(job: Job, s: RunState, n: nat, now: int, saturated: set<Id>)
    requires Accounted(job, s) && n <= |job.ids| && forall t :: t in job.ids ==> t in job.deps && t in job.timeouts
    ensures Accounted(job, LaunchUpTo(job, s, n, now, saturated))
  {
    hide Accounted, LaunchOne;
    if n > 0 {
      LaunchAccounted(job, s, n - 1, now, saturated);
      var m := LaunchUpTo(job, s, n - 1, now, saturated);
      if !AtCap(job, m.running) {
        LaunchOneAccounted(job, m, job.ids[n - 1], now, saturated);
      }
    }
  }

  // ----- waiting

  ghost predicate CollectsRunning(running: map<Id, Option<int>>, done: seq<(Id, Output)>) {
    DistinctDone(done) && forall i :: 0 <= i < |done| ==> done[i].0 in running
  }

  /** What holds after a wait: full accounts, or full accounts but for the task that ran out of budget. */
  ghost predicate PointAccounted(job: Job, p: Point) {
    match p
    case Going(s) => Accounted(job, s)
    case Exited(OverBudget(t), s) =>
      t in job.deps && t !in s.pending && t !in s.running && t !in s.results
          && Accounted(job, s.(running := s.running[t := job.deadline]))
    case Exited(_, s) => Accounted(job, s)
  }

  lemma {:induction false} CollectAccounted(job: Job, s: RunState, done: seq<(Id, Output)>)
    requires Accounted(job, s) && CollectsRunning(s.running, done)
    ensures PointAccounted(job, CollectAll(s, done))
    ensures CollectAll(s, done).Exited? ==> CollectAll(s, done).exit.OverBudget?
    decreases |done|
  {
    hide Accounted;
    if done != [] {
      var t := done[0].0;
      if done[0].1 == RaisedBudget {
        DropAccounted(job, s, t);
      } else {
        RecordRunning(job, s, t, VerdictOf(done[0].1));
        assert forall i :: 0 <= i < |done[1..]| ==> done[1..][i] == done[i + 1];
        CollectAccounted(job, Collect(s, t, done[0].1), done[1..]);
      }
    }
  }

  lemma DropAccounted(job: Job, s: RunState, t: Id)
    requires Accounted(job, s) && t in s.running
    ensures PointAccounted(job, Exited(OverBudget(t), DropOverBudget(s, t)))
  {
    hide Distinct;
    var d := DropOverBudget(s, t);
    var back := d.running[t := job.deadline];
    assert back.Keys == s.running.Keys;
    assert |back.Keys| == |back| && |s.running.Keys| == |s.running|;
  }

  lemma ExpireAccounted(job: Job, s: RunState, now: int)
    requires Accounted(job, s)
    ensures Accounted(job, ExpireAll(s, now))
  {
    hide ExpireAll, Expired, Partitioned, SubmitsJustified, Distinct;
    ExpirePartitioned(job, s, now);
    ExpireJustified(job, s, now);
    var r := ExpireAll(s, now);
    SubsetSize(r.running.Keys, s.running.Keys);
    assert |r.running.Keys| == |r.running| && |s.running.Keys| == |s.running|;
  }

  lemma ExpirePartitioned(job: Job, s: RunState, now: int)
    requires Partitioned(job, s)
    ensures Partitioned(job, ExpireAll(s, now))
  {
    hide ExpireAll, Expired;
  }

  lemma ExpireJustified(job: Job, s: RunState, now: int)
    requires Partitioned(job, s) && SubmitsJustified(job, s)
    ensures SubmitsJustified(job, ExpireAll(s, now))
  {
    hide ExpireAll, Expired, Distinct;
    var r := ExpireAll(s, now);
    forall t | t in r.submitted
      ensures AllSucceeded(r.results, job.deps[t])
    {
      assert AllSucceeded(s.results, job.deps[t]);
    }
  }

  // ----- whole runs

  lemma InitialAccounted(job: Job)
    requires ValidJob(job)
    ensures Accounted(job, InitialRun(job))
  {
  }

  lemma JobTables(job: Job)
    requires ValidJob(job)
    ensures forall t :: t in job.ids <==> t in job.deps
    ensures forall t :: t in job.ids <==> t in job.timeouts
  {
  }

  lemma TurnAccounted(job: Job, s: RunState, turn: Turn)
    requires ValidJob(job) && Accounted(job, s) && Possible(job, s, turn)
    ensures PointAccounted(job, TurnStep(job, s, turn)) && NothingLeftWhenFinished(TurnStep(job, s, turn))
  {
    hide ValidJob, Accounted, ExpireAll, CollectAll, AnyTimeout;
    JobTables(job);
    SkipAccounted(job, s, |job.ids|);
    LaunchAccounted(job, Swept(job, s), |job.ids|, turn.launchNow, turn.saturated);
    var m := Launched(job, s, turn);
    ExpireAccounted(job, m, turn.now);
    CollectAccounted(job, m, turn.done);
  }

  /** Whatever was submitted had all its dependencies succeed. */
  ghost predicate SubmitsFollowSuccess(job: Job, s: RunState) {
    forall t :: t in s.submitted ==> t in job.deps && AllSucceeded(s.results, job.deps[t])
  }

  /** What each exit leaves in the result table. */
  ghost predicate ExitAccounted(job: Job, p: Point)
  {
    p.Exited? ==>
      && SubmitsFollowSuccess(job, p.state)
      && p.state.pending == {} && p.state.running == map[]
      && match p.exit
         case OverBudget(t) =>
           t in job.deps && t !in p.state.results && forall u :: u in p.state.results <==> u in job.deps && u != t
         case _ => forall u :: u in p.state.results <==> u in job.deps
  }

  predicate NothingLeftWhenFinished(p: Point) {
    p.Exited? && p.exit == Finished ==> p.state.pending == {} && p.state.running == map[]
  }

  lemma SettledAccounted(job: Job, p: Point)
    requires PointAccounted(job, p) && NothingLeftWhenFinished(p)
    ensures ExitAccounted(job, Settled(p))
    ensures Settled(p).Going? ==> Accounted(job, Settled(p).state)
  {
    hide DeadlinesClamped, WithinCap, Distinct;
    if Settled(p).Exited? {
      forall t | t in Settled(p).state.submitted
        ensures t in job.deps && AllSucceeded(Settled(p).state.results, job.deps[t])
      {
        assert AllSucceeded(p.state.results, job.deps[t]);
      }
    }
  }

  /** Accounting in every reachable point, for every environment. */
  lemma {:induction false} RunAccounted(job: Job, turns: seq<Turn>)
    requires ValidJob(job)
    ensures var p := RunTurns(job, turns);
            && (p.Some? && p.value.Going? ==> Accounted(job, p.value.state))
            && (p.Some? ==> ExitAccounted(job, p.value))
  {
    hide ValidJob, Accounted, Possible, TurnStep, ExitAccounted, Settled;
    if turns == [] {
      InitialAccounted(job);
      NothingExits(job, Going(InitialRun(job)));
    } else {
      var last := |turns| - 1;
      RunAccounted(job, turns[..last]);
      var p := RunTurns(job, turns[..last]);
      JobTables(job);
      if p.Some? && p.value.Going? && Possible(job, p.value.state, turns[last]) {
        TurnAccounted(job, p.value.state, turns[last]);
        SettledAccounted(job, TurnStep(job, p.value.state, turns[last]));
      }
    }
  }

  lemma NothingExits(job: Job, p: Point)
    requires p.Going?
    ensures ExitAccounted(job, p)
  {
  }

  /** A run that ends any way but over budget leaves exactly one terminal result per task. */
  lemma EveryTaskHasResult(job: Job, turns: seq<Turn>, p: Point)
    requires ValidJob(job) && RunTurns(job, turns) == Some(p) && p.Exited? && !p.exit.OverBudget?
    ensures p.state.results.Keys == job.deps.Keys
  {
    hide ValidJob;
    RunAccounted(job, turns);
  }

  /** A run that ends over budget leaves a result for every task except the one that raised the error. */
  lemma OverBudgetLosesOne(job: Job, turns: seq<Turn>, p: Point)
    requires ValidJob(job) && RunTurns(job, turns) == Some(p) && p.Exited? && p.exit.OverBudget?
    ensures p.exit.task in job.deps && p.state.results.Keys == job.deps.Keys - {p.exit.task}
  {
    hide ValidJob;
    RunAccounted(job, turns);
  }
}

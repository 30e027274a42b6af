/**
 * Runs of the Python scheduler without saturation and expiry: the plan and the outputs of its tasks
 * fix every verdict. The limits, the clock and the order of completions have no part in it.
 */
module RuntimeOutcomes {
  import opened Collections
  import opened Graphs
  import opened TaskGraphs
  import opened RuntimeSteps
  import opened RuntimeSafety
  import opened RuntimeProgress
  import opened RuntimeStall
  import opened RuntimeResults

  /** Whenever a task completes, it completes with its output under `g`. */
  ghost predicate GivesOutputs(turns: seq<Turn>, g: Id -> Output) {
    forall i, j :: 0 <= i < |turns| && 0 <= j < |turns[i].done| ==> turns[i].done[j].1 == g(turns[i].done[j].0)
  }

  /** No wait before the last turn ends by timing out. */
  ghost predicate NoneExpires(turns: seq<Turn>) {
    forall i :: 0 <= i < |turns| - 1 ==> turns[i].done != []
  }

  ghost function OwnVerdict(g: Id -> Output): Id -> Verdict {
    t => VerdictOf(g(t))
  }

  // ----- such a run follows its outputs

  lemma CompletionFollows(job: Job, s: RunState, turn: Turn, g: Id -> Output)
    requires forall t :: t in job.ids ==> t in job.deps && t in job.timeouts
    requires turn.saturated == {} && forall j :: 0 <= j < |turn.done| ==> turn.done[j].1 == g(turn.done[j].0)
    requires turn.done == [] ==> Launched(job, s, turn).running == map[]
    ensures FollowsTurn(job, s, turn, OwnVerdict(g))
  {
    hide LaunchUpTo, SkipUpTo;
  }

  lemma {:induction false} CompletionsFollow(job: Job, turns: seq<Turn>, g: Id -> Output)
    requires ValidJob(job) && NothingSaturates(turns) && GivesOutputs(turns, g)
    requires forall i :: 0 <= i < |turns| ==> turns[i].done != []
    ensures FollowsRun(job, turns, OwnVerdict(g))
  {
    hide ValidJob, FollowsTurn, RunTurns;
    if turns != [] {
      var last := |turns| - 1;
      CompletionsFollow(job, turns[..last], g);
      JobTables(job);
      var p := RunTurns(job, turns[..last]);
      if p.Some? && p.value.Going? {
        CompletionFollows(job, p.value.state, turns[last], g);
      }
    }
  }

  lemma IdleAtTheEnd(job: Job, s: RunState, turn: Turn)
    requires forall t :: t in job.ids ==> t in job.deps && t in job.timeouts
    requires TurnStep(job, s, turn).Exited? && TurnStep(job, s, turn).exit == Finished
    ensures Launched(job, s, turn).running == map[]
  {
    hide SkipUpTo, LaunchUpTo, CollectAll;
    if s.pending == {} && s.running == map[] {
      NothingPendingNothingSkipped(job, s, |job.ids|);
      NothingPendingNothingLaunched(job, s, |job.ids|, turn);
    } else {
      CollectNeverDeadlocks(Launched(job, s, turn), turn.done);
    }
  }

  lemma {:induction false} NothingPendingNothingSkipped(job: Job, s: RunState, n: nat)
    requires n <= |job.ids| && (forall t :: t in job.ids ==> t in job.deps) && s.pending == {}
    ensures SkipUpTo(job, s, n) == s
  {
    if n > 0 {
      NothingPendingNothingSkipped(job, s, n - 1);
    }
  }

  lemma {:induction false} NothingPendingNothingLaunched(job: Job, s: RunState, n: nat, turn: Turn)
    requires n <= |job.ids| && (forall t :: t in job.ids ==> t in job.deps && t in job.timeouts) && s.pending == {}
    ensures LaunchUpTo(job, s, n, turn.launchNow, turn.saturated) == s
  {
    if n > 0 {
      NothingPendingNothingLaunched(job, s, n - 1, turn);
    }
  }

  lemma FinishedFollows(job: Job, turns: seq<Turn>, g: Id -> Output, s: RunState)
    requires ValidJob(job) && RunTurns(job, turns) == Some(Exited(Finished, s))
    requires NothingSaturates(turns) && NoneExpires(turns) && GivesOutputs(turns, g)
    ensures FollowsRun(job, turns, OwnVerdict(g))
  {
    hide ValidJob, FollowsTurn, TurnStep;
    var last := |turns| - 1;
    CompletionsFollow(job, turns[..last], g);
    JobTables(job);
    var before := RunTurns(job, turns[..last]).value.state;
    IdleAtTheEnd(job, before, turns[last]);
    CompletionFollows(job, before, turns[last], g);
  }

  /**
   * A finished run without saturation and expiry gives every task the verdict that the plan and the
   * outputs fix.
   */
  lemma FinishedByOutputs(job: Job, g: Id -> Output, turns: seq<Turn>, s: RunState)
    requires ValidJob(job) && RunTurns(job, turns) == Some(Exited(Finished, s))
    requires NothingSaturates(turns) && NoneExpires(turns) && GivesOutputs(turns, g)
    ensures s.results.Keys == job.deps.Keys
    ensures forall t :: t in job.deps ==> t in s.results && s.results[t] == FinalVerdict(job.deps, OwnVerdict(g), t)
  {
    hide IsDag, Distinct, FollowsRun, RunTurns, FinalVerdict;
    FinishedFollows(job, turns, g, s);
    FinishedIsFinal(job, OwnVerdict(g), turns, s);
  }

  // ----- no time limit, no expiry

  ghost predicate Unhurried(job: Job) {
    job.defaultTimeout.None? && job.deadline.None? && forall t :: t in job.timeouts ==> job.timeouts[t].None?
  }

  ghost predicate Unbounded(running: map<Id, Option<int>>) {
    forall t :: t in running ==> running[t].None?
  }

  lemma {:induction false} LaunchUnbounded(job: Job, s: RunState, n: nat, now: int, saturated: set<Id>)
    requires n <= |job.ids| && (forall t :: t in job.ids ==> t in job.deps && t in job.timeouts)
    requires Unhurried(job) && Unbounded(s.running)
    ensures Unbounded(LaunchUpTo(job, s, n, now, saturated).running)
  {
    if n > 0 {
      LaunchUnbounded(job, s, n - 1, now, saturated);
    }
  }

  lemma {:induction false} CollectUnbounded(s: RunState, done: seq<(Id, Output)>)
    requires Unbounded(s.running)
    ensures Unbounded(CollectAll(s, done).state.running)
    decreases |done|
  {
    if done != [] && done[0].1 != RaisedBudget {
      CollectUnbounded(Collect(s, done[0].0, done[0].1), done[1..]);
    }
  }

  /** A turn that goes on completed something. */
  lemma UnboundedTurn(job: Job, s: RunState, turn: Turn)
    requires forall t :: t in job.ids ==> t in job.deps && t in job.timeouts
    requires Unhurried(job) && Unbounded(s.running) && Possible(job, s, turn) && TurnStep(job, s, turn).Going?
    ensures turn.done != [] && Unbounded(TurnStep(job, s, turn).state.running)
  {
    hide SkipUpTo, LaunchUpTo, CollectAll, Unhurried;
    SkipShrinks(job, s, |job.ids|);
    LaunchUnbounded(job, Swept(job, s), |job.ids|, turn.launchNow, turn.saturated);
    CollectUnbounded(Launched(job, s, turn), turn.done);
    UnhurriedIsEarly(job, turn.now);
  }

  lemma UnhurriedIsEarly(job: Job, now: int)
    ensures Unhurried(job) ==> !DeadlinePassed(job, now)
  {
  }

  lemma {:induction false} UnhurriedNeverExpires(job: Job, turns: seq<Turn>)
    requires ValidJob(job) && Unhurried(job) && RunTurns(job, turns).Some?
    ensures NoneExpires(turns)
    ensures RunTurns(job, turns).value.Going? ==>
        Unbounded(RunTurns(job, turns).value.state.running) && forall i :: 0 <= i < |turns| ==> turns[i].done != []
  {
    hide ValidJob, Unhurried, Possible, TurnStep;
    if turns != [] {
      var last := |turns| - 1;
      UnhurriedNeverExpires(job, turns[..last]);
      JobTables(job);
      var s := RunTurns(job, turns[..last]).value.state;
      if RunTurns(job, turns).value.Going? {
        UnboundedTurn(job, s, turns[last]);
      }
    }
  }

  // ----- the outcome of a run without time limits

  /** Without time limits and budget errors the only ends are the normal one and the deadlock error. */
  lemma UnhurriedEnds(job: Job, s: RunState, turn: Turn, g: Id -> Output)
    requires forall t :: t in job.ids ==> t in job.deps && t in job.timeouts
    requires Unhurried(job) && forall t :: g(t) != RaisedBudget
    requires forall j :: 0 <= j < |turn.done| ==> turn.done[j].1 == g(turn.done[j].0)
    requires TurnStep(job, s, turn).Exited?
    ensures TurnStep(job, s, turn).exit == Finished || TurnStep(job, s, turn).exit == Deadlock
  {
    hide SkipUpTo, LaunchUpTo, CollectAll, Unhurried;
    UnhurriedIsEarly(job, turn.now);
    UnhurriedIsEarly(job, turn.launchNow);
    var m := Launched(job, s, turn);
    if CollectAll(m, turn.done).Exited? {
      var j := CollectRaises(m, turn.done);
    }
  }

  /**
   * Without time limits, saturation and budget errors every run of a plan whose sweeps are complete
   * ends normally, and the plan and the outputs alone fix what it reports.
   */
  lemma OutcomeDetermined(job: Job, g: Id -> Output, turns: seq<Turn>, p: Point)
    requires ValidJob(job) && UsableLimit(job) && PlanSweepComplete(job) && Unhurried(job)
    requires RunTurns(job, turns) == Some(p) && p.Exited? && NothingSaturates(turns)
    requires GivesOutputs(turns, g) && forall t :: g(t) != RaisedBudget
    ensures p.exit == Finished && p.state.results.Keys == job.deps.Keys
    ensures forall t :: t in job.deps ==>
        t in p.state.results && p.state.results[t] == FinalVerdict(job.deps, OwnVerdict(g), t)
  {
    hide ValidJob, Unhurried, Possible, TurnStep, FinalVerdict, PlanSweepComplete, UsableLimit, NoneExpires;
    JobTables(job);
    UnhurriedNeverExpires(job, turns);
    NoDeadlock(job, turns, p);
    var last := |turns| - 1;
    UnhurriedEnds(job, RunTurns(job, turns[..last]).value.state, turns[last], g);
    FinishedByOutputs(job, g, turns, p.state);
  }

  /** Two such runs agree, whatever the order of the plan, the concurrency limits and the timing. */
  lemma OutcomesAgree(a: Job, b: Job, g: Id -> Output, first: seq<Turn>, second: seq<Turn>, p: Point, q: Point)
    requires ValidJob(a) && UsableLimit(a) && PlanSweepComplete(a) && Unhurried(a)
    requires ValidJob(b) && UsableLimit(b) && PlanSweepComplete(b) && Unhurried(b)
    requires a.deps == b.deps && forall t :: g(t) != RaisedBudget
    requires RunTurns(a, first) == Some(p) && p.Exited? && NothingSaturates(first) && GivesOutputs(first, g)
    requires RunTurns(b, second) == Some(q) && q.Exited? && NothingSaturates(second) && GivesOutputs(second, g)
    ensures p.exit == q.exit && p.state.results == q.state.results
  {
    hide Unhurried, RunTurns, FinalVerdict, PlanSweepComplete, UsableLimit, GivesOutputs, NothingSaturates, IsDag;
    OutcomeDetermined(a, g, first, p);
    OutcomeDetermined(b, g, second, q);
    assert p.state.results.Keys == q.state.results.Keys;
    assert forall t :: t in p.state.results ==> t in p.state.results.Keys && t in a.deps.Keys;
  }
}

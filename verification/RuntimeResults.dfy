/** What a finished Python run reports: verdicts fixed by the plan, and the run status read off them. */
module RuntimeResults {
  import opened Collections
  import opened Graphs
  import opened TaskGraphs
  import opened RuntimeSteps
  import opened RuntimeSafety
  import opened RuntimeProgress

  /** Skipped if some dependency does not succeed, else the task's own verdict. */
  ghost function FinalVerdict(deps: map<Id, seq<Id>>, f: Id -> Verdict, t: Id): Verdict
    requires IsDag(deps) && t in deps
    decreases Rank(AdjacencyOf(deps), t)
  {
    if forall d :: d in deps[t] ==> (RankDescends(AdjacencyOf(deps), t, d); FinalVerdict(deps, f, d)) == Success
    then f(t)
    else Skipped
  }

  /** Whatever ends a task in this turn ends it with the verdict `f` fixes: saturation, expiry and completion alike. */
  ghost predicate FollowsTurn(job: Job, s: RunState, turn: Turn, f: Id -> Verdict)
    requires forall t :: t in job.ids ==> t in job.deps && t in job.timeouts
  {
    && (forall t :: t in turn.saturated ==> f(t) == Timeout)
    && (forall i :: 0 <= i < |turn.done| ==> VerdictOf(turn.done[i].1) == f(turn.done[i].0))
    && (turn.done == [] ==>
          forall t :: t in Launched(job, s, turn).running && Expired(Launched(job, s, turn).running, t, turn.now) ==>
            f(t) == Timeout)
  }

  ghost predicate FollowsRun(job: Job, turns: seq<Turn>, f: Id -> Verdict)
    requires ValidJob(job)
  {
    turns == [] ||
    var last := |turns| - 1;
    && FollowsRun(job, turns[..last], f)
    && match RunTurns(job, turns[..last])
       case Some(Going(s)) => (JobTables(job); FollowsTurn(job, s, turns[last], f))
       case _ => true
  }

  ghost predicate Explains(deps: map<Id, seq<Id>>, f: Id -> Verdict, results: map<Id, Verdict>, t: Id)
    requires t in deps && t in results
  {
    || (results[t] == f(t) && AllSucceeded(results, deps[t]))
    || (results[t] == Skipped && HasUnsuccessful(results, deps[t]))
  }

  ghost predicate AllExplained(deps: map<Id, seq<Id>>, f: Id -> Verdict, results: map<Id, Verdict>) {
    forall t :: t in results ==> t in deps && Explains(deps, f, results, t)
  }

  ghost predicate Extends(results: map<Id, Verdict>, more: map<Id, Verdict>) {
    forall t :: t in results ==> t in more && more[t] == results[t]
  }

  lemma ExplanationPersists(deps: map<Id, seq<Id>>, f: Id -> Verdict, results: map<Id, Verdict>,
      more: map<Id, Verdict>, t: Id)
    requires t in deps && t in results && Explains(deps, f, results, t) && Extends(results, more)
    ensures Explains(deps, f, more, t)
  {
    if HasUnsuccessful(results, deps[t]) {
      var i :| 0 <= i < |deps[t]| && Unsuccessful(results, deps[t][i]);
      assert Unsuccessful(more, deps[t][i]);
    }
  }

  /** Recording one new, justified verdict. */
  lemma RecordExplained(deps: map<Id, seq<Id>>, f: Id -> Verdict, results: map<Id, Verdict>, t: Id, v: Verdict)
    requires AllExplained(deps, f, results) && t in deps && t !in results
    requires (v == f(t) && AllSucceeded(results, deps[t])) || (v == Skipped && HasUnsuccessful(results, deps[t]))
    ensures AllExplained(deps, f, results[t := v])
  {
    hide AllSucceeded, HasUnsuccessful;
    var more := results[t := v];
    NewExplained(deps, f, results, t, v);
    forall u | u in more
      ensures u in deps && Explains(deps, f, more, u)
    {
      if u != t {
        ExplanationPersists(deps, f, results, more, u);
      }
    }
  }

  lemma NewExplained(deps: map<Id, seq<Id>>, f: Id -> Verdict, results: map<Id, Verdict>, t: Id, v: Verdict)
    requires t in deps && t !in results
    requires (v == f(t) && AllSucceeded(results, deps[t])) || (v == Skipped && HasUnsuccessful(results, deps[t]))
    ensures Explains(deps, f, results[t := v], t)
  {
    var more := results[t := v];
    if HasUnsuccessful(results, deps[t]) {
      var i :| 0 <= i < |deps[t]| && Unsuccessful(results, deps[t][i]);
      assert Unsuccessful(more, deps[t][i]);
    }
  }

  lemma PendingIsFresh(job: Job, s: RunState, t: Id)
    requires Accounted(job, s) && (t in s.pending || t in s.running)
    ensures t in job.deps && t !in s.results
    ensures t in s.running ==> AllSucceeded(s.results, job.deps[t])
  {
  }

  lemma {:induction false} SkipExplained(job: Job, f: Id -> Verdict, s: RunState, n: nat)
    requires Accounted(job, s) && AllExplained(job.deps, f, s.results) && n <= |job.ids| && forall t ::
        t in job.ids ==> t in job.deps
    ensures AllExplained(job.deps, f, SkipUpTo(job, s, n).results)
  {
    hide Accounted, AllExplained, HasUnsuccessful;
    if n > 0 {
      SkipExplained(job, f, s, n - 1);
      SkipAccounted(job, s, n - 1);
      var m, t := SkipUpTo(job, s, n - 1), job.ids[n - 1];
      if t in m.pending && HasUnsuccessful(m.results, job.deps[t]) {
        PendingIsFresh(job, m, t);
        RecordExplained(job.deps, f, m.results, t, Skipped);
      }
    }
  }

  lemma {:induction false} LaunchExplained(job: Job, f: Id -> Verdict, s: RunState, n: nat, now: int,
      saturated: set<Id>)
    requires Accounted(job, s) && AllExplained(job.deps, f, s.results)
    requires n <= |job.ids| && forall t :: t in job.ids ==> t in job.deps && t in job.timeouts
    requires forall t :: t in saturated ==> f(t) == Timeout
    ensures AllExplained(job.deps, f, LaunchUpTo(job, s, n, now, saturated).results)
  {
    hide Accounted, AllExplained, AllSucceeded;
    if n > 0 {
      LaunchExplained(job, f, s, n - 1, now, saturated);
      LaunchAccounted(job, s, n - 1, now, saturated);
      var m, t := LaunchUpTo(job, s, n - 1, now, saturated), job.ids[n - 1];
      if t in m.pending && AllSucceeded(m.results, job.deps[t]) && t in saturated {
        PendingIsFresh(job, m, t);
        RecordExplained(job.deps, f, m.results, t, Timeout);
      }
    }
  }

  lemma {:induction false} CollectExplained(job: Job, f: Id -> Verdict, s: RunState, done: seq<(Id, Output)>)
    requires Accounted(job, s) && AllExplained(job.deps, f, s.results) && CollectsRunning(s.running, done)
    requires forall i :: 0 <= i < |done| ==> VerdictOf(done[i].1) == f(done[i].0)
    ensures AllExplained(job.deps, f, CollectAll(s, done).state.results)
    decreases |done|
  {
    hide Accounted, AllExplained;
    if done != [] && done[0].1 != RaisedBudget {
      var t := done[0].0;
      PendingIsFresh(job, s, t);
      RecordRunning(job, s, t, VerdictOf(done[0].1));
      RecordExplained(job.deps, f, s.results, t, VerdictOf(done[0].1));
      assert forall i :: 0 <= i < |done[1..]| ==> done[1..][i] == done[i + 1];
      CollectExplained(job, f, Collect(s, t, done[0].1), done[1..]);
    }
  }

  lemma ExpireExplained(job: Job, f: Id -> Verdict, s: RunState, now: int)
    requires Accounted(job, s) && AllExplained(job.deps, f, s.results)
    requires forall t :: t in s.running && Expired(s.running, t, now) ==> f(t) == Timeout
    ensures AllExplained(job.deps, f, ExpireAll(s, now).results)
  {
    hide ExpireAll, Explains, Expired, SubmitsJustified, DeadlinesClamped, WithinCap;
    var r := ExpireAll(s, now);
    forall t | t in r.results
      ensures t in job.deps && Explains(job.deps, f, r.results, t)
    {
      if t in s.results {
        ExplanationPersists(job.deps, f, s.results, r.results, t);
      } else {
        PendingIsFresh(job, s, t);
        ExpiredExplained(job.deps, f, s.results, r.results, t);
      }
    }
  }

  lemma ExpiredExplained(deps: map<Id, seq<Id>>, f: Id -> Verdict, results: map<Id, Verdict>, more: map<Id, Verdict>,
      t: Id)
    requires t in deps && t in more && more[t] == f(t) && AllSucceeded(results, deps[t]) && Extends(results, more)
    ensures Explains(deps, f, more, t)
  {
  }

  lemma TurnExplained(job: Job, f: Id -> Verdict, s: RunState, turn: Turn)
    requires ValidJob(job) && Accounted(job, s) && AllExplained(job.deps, f, s.results)
    requires forall t :: t in job.ids ==> t in job.deps && t in job.timeouts
    requires Possible(job, s, turn) && FollowsTurn(job, s, turn, f)
    ensures AllExplained(job.deps, f, TurnStep(job, s, turn).state.results)
  {
    hide ValidJob, Accounted, AllExplained, LaunchUpTo, SkipUpTo, CollectAll, ExpireAll, AnyTimeout, Expired;
    SkipExplained(job, f, s, |job.ids|);
    SkipAccounted(job, s, |job.ids|);
    LaunchExplained(job, f, Swept(job, s), |job.ids|, turn.launchNow, turn.saturated);
    LaunchAccounted(job, Swept(job, s), |job.ids|, turn.launchNow, turn.saturated);
    var m := Launched(job, s, turn);
    if turn.done == [] {
      ExpireExplained(job, f, m, turn.now);
    } else {
      CollectExplained(job, f, m, turn.done);
    }
  }

  lemma {:induction false} RunExplained(job: Job, f: Id -> Verdict, turns: seq<Turn>)
    requires ValidJob(job) && FollowsRun(job, turns, f) && RunTurns(job, turns).Some?
    ensures var p := RunTurns(job, turns).value;
            p.Going? || p.exit == Finished ==> AllExplained(job.deps, f, p.state.results)
  {
    hide ValidJob, Accounted, AllExplained, Possible, TurnStep, FollowsTurn;
    if turns == [] {
      NothingExplained(job, f);
    } else {
      var last := |turns| - 1;
      RunExplained(job, f, turns[..last]);
      RunAccounted(job, turns[..last]);
      JobTables(job);
      TurnExplained(job, f, RunTurns(job, turns[..last]).value.state, turns[last]);
    }
  }

  lemma NothingExplained(job: Job, f: Id -> Verdict)
    ensures AllExplained(job.deps, f, InitialRun(job).results)
  {
  }

  lemma {:induction false} ResultIsFinal(deps: map<Id, seq<Id>>, f: Id -> Verdict, results: map<Id, Verdict>, t: Id)
    requires IsDag(deps) && AllExplained(deps, f, results) && t in results && t in deps
    ensures results[t] == FinalVerdict(deps, f, t)
    decreases Rank(AdjacencyOf(deps), t)
  {
    assert Explains(deps, f, results, t);
    if AllSucceeded(results, deps[t]) {
      forall d | d in deps[t]
        ensures FinalVerdict(deps, f, d) == Success
      {
        RankDescends(AdjacencyOf(deps), t, d);
        ResultIsFinal(deps, f, results, d);
      }
    } else {
      var i :| 0 <= i < |deps[t]| && Unsuccessful(results, deps[t][i]);
      RankDescends(AdjacencyOf(deps), t, deps[t][i]);
      ResultIsFinal(deps, f, results, deps[t][i]);
    }
  }

  /**
   * Confluence of the Python scheduler: a run that finishes gives every task the verdict of the
   * recursive specification, whatever completes first, however many run at once, and whatever the clock says.
   */
  lemma FinishedIsFinal(job: Job, f: Id -> Verdict, turns: seq<Turn>, s: RunState)
    requires ValidJob(job) && RunTurns(job, turns) == Some(Exited(Finished, s)) && FollowsRun(job, turns, f)
    ensures s.results.Keys == job.deps.Keys
    ensures forall t :: t in job.deps ==> t in s.results && s.results[t] == FinalVerdict(job.deps, f, t)
  {
    hide Accounted, Distinct;
    EveryTaskHasResult(job, turns, Exited(Finished, s));
    RunExplained(job, f, turns);
    forall t | t in job.deps
      ensures t in s.results && s.results[t] == FinalVerdict(job.deps, f, t)
    {
      assert t in s.results.Keys;
      ResultIsFinal(job.deps, f, s.results, t);
    }
  }

  // ----- the run status

  datatype RunStatus = RunSuccess | RunFailed | RunTimeout | RunCancelled

  predicate SomeVerdict(results: map<Id, Verdict>, v: Verdict) {
    exists t :: t in results && results[t] == v
  }

  /** The structured result of a run. */
  function StatusOf(exit: Exit, results: map<Id, Verdict>): RunStatus {
    match exit
    case RunTimedOut => RunTimeout
    case OverBudget(_) => RunCancelled
    case Deadlock => RunFailed
    case Finished => if SomeVerdict(results, Failure) || SomeVerdict(results, Timeout) then RunFailed else RunSuccess
  }

  /** Every dependency ends in success, so the task gets to run. */
  ghost predicate Reached(deps: map<Id, seq<Id>>, f: Id -> Verdict, t: Id)
    requires IsDag(deps) && t in deps
  {
    forall d :: d in deps[t] ==> (RankDescends(AdjacencyOf(deps), t, d); FinalVerdict(deps, f, d)) == Success
  }

  lemma FinalByReach(deps: map<Id, seq<Id>>, f: Id -> Verdict, t: Id)
    requires IsDag(deps) && t in deps
    ensures FinalVerdict(deps, f, t) == if Reached(deps, f, t) then f(t) else Skipped
  {
  }

  /** A task that does not succeed can be traced down to one that ran and did not succeed. */
  lemma {:induction false} UnsuccessHasCause(deps: map<Id, seq<Id>>, f: Id -> Verdict, t: Id) returns (root: Id)
    requires IsDag(deps) && t in deps && FinalVerdict(deps, f, t) != Success
    ensures root in deps && Reached(deps, f, root) && f(root) != Success
    decreases Rank(AdjacencyOf(deps), t)
  {
    hide Reached;
    FinalByReach(deps, f, t);
    if Reached(deps, f, t) {
      root := t;
    } else {
      var d := Unreached(deps, f, t);
      root := UnsuccessHasCause(deps, f, d);
    }
  }

  lemma Unreached(deps: map<Id, seq<Id>>, f: Id -> Verdict, t: Id) returns (d: Id)
    requires IsDag(deps) && t in deps && !Reached(deps, f, t)
    ensures d in deps && FinalVerdict(deps, f, d) != Success && Rank(AdjacencyOf(deps), d) < Rank(AdjacencyOf(deps), t)
  {
    d :| d in deps[t] && (RankDescends(AdjacencyOf(deps), t, d); FinalVerdict(deps, f, d)) != Success;
    RankDescends(AdjacencyOf(deps), t, d);
  }

  /** Some task that gets to run ends with this verdict of its own. */
  ghost predicate SomeEndsWith(deps: map<Id, seq<Id>>, f: Id -> Verdict, v: Verdict)
    requires IsDag(deps)
  {
    exists t :: t in deps && Reached(deps, f, t) && f(t) == v
  }

  /** A verdict other than a skip is in the table exactly when a task that ran ended with it. */
  lemma VerdictReported(deps: map<Id, seq<Id>>, f: Id -> Verdict, results: map<Id, Verdict>, v: Verdict)
    requires IsDag(deps) && v != Skipped && results.Keys == deps.Keys
    requires forall t :: t in deps ==> t in results && results[t] == FinalVerdict(deps, f, t)
    ensures SomeVerdict(results, v) <==> SomeEndsWith(deps, f, v)
  {
    hide IsDag, Reached, FinalVerdict;
    forall t | t in deps
      ensures FinalVerdict(deps, f, t) == if Reached(deps, f, t) then f(t) else Skipped
    {
      FinalByReach(deps, f, t);
    }
    if SomeVerdict(results, v) {
      var t :| t in results && results[t] == v;
      assert t in deps.Keys;
    }
  }

  /**
   * Exactly when a finished run is reported as a success, and exactly when that hides a task that
   * did not succeed: no task that ran failed or timed out, but one ended cancelled or skipped itself.
   */
  lemma SuccessMeansAllSucceeded(job: Job, f: Id -> Verdict, turns: seq<Turn>, s: RunState)
    requires ValidJob(job) && RunTurns(job, turns) == Some(Exited(Finished, s)) && FollowsRun(job, turns, f)
    ensures StatusOf(Finished, s.results) == RunSuccess <==>
        !SomeEndsWith(job.deps, f, Failure) && !SomeEndsWith(job.deps, f, Timeout)
    ensures (StatusOf(Finished, s.results) == RunSuccess && exists t :: Unsuccessful(s.results, t)) <==>
        !SomeEndsWith(job.deps, f, Failure) && !SomeEndsWith(job.deps, f, Timeout) &&
        (SomeEndsWith(job.deps, f, Verdict.Cancelled) || SomeEndsWith(job.deps, f, Skipped))
  {
    hide RunTurns, FollowsRun, AllExplained, IsDag, Distinct, FinalVerdict, Reached;
    FinishedIsFinal(job, f, turns, s);
    VerdictReported(job.deps, f, s.results, Failure);
    VerdictReported(job.deps, f, s.results, Timeout);
    assert forall t :: t in s.results.Keys <==> t in job.deps.Keys;
    if t :| Unsuccessful(s.results, t) {
      var root := UnsuccessHasCause(job.deps, f, t);
    }
    if t :| t in job.deps && Reached(job.deps, f, t) && f(t) != Success {
      FinalByReach(job.deps, f, t);
      assert Unsuccessful(s.results, t);
    }
  }

  lemma {:induction false} SkippedLeavesMark(job: Job, s: RunState, n: nat, t: Id)
    requires n <= |job.ids| && (forall u :: u in job.ids ==> u in job.deps) && t in s.pending
    ensures t in SkipUpTo(job, s, n).pending || Unsuccessful(SkipUpTo(job, s, n).results, t)
  {
    if n > 0 {
      SkippedLeavesMark(job, s, n - 1, t);
    }
  }

  lemma AbortLeavesMark(s: RunState, t: Id)
    requires t in s.pending || t in s.running || Unsuccessful(s.results, t)
    ensures Unsuccessful(AbortAll(s).results, t)
  {
  }

  /** A turn that ends the run with an error leaves some task without success. */
  lemma ErrorLeavesMark(job: Job, s: RunState, turn: Turn) returns (t: Id)
    requires ValidJob(job) && Settled(TurnStep(job, s, turn)).Exited?
    requires Settled(TurnStep(job, s, turn)).exit.RunTimedOut? || Settled(TurnStep(job, s, turn)).exit.Deadlock?
    ensures Unsuccessful(Settled(TurnStep(job, s, turn)).state.results, t)
  {
    hide SkipUpTo, LaunchUpTo, CollectAll, ExpireAll, AbortAll, ValidJob, Unsuccessful;
    JobTables(job);
    var m := Launched(job, s, turn);
    CollectNeverDeadlocks(m, turn.done);
    if s.pending == {} && s.running == map[] {
      t := TimeoutIsUnsuccessful(s);
      AbortLeavesMark(s, t);
    } else if DeadlinePassed(job, turn.launchNow) {
      var w := Swept(job, s);
      SkipShrinks(job, s, |job.ids|);
      assert s.pending != {} || w.running.Keys != {};
      if s.pending != {} {
        t :| t in s.pending;
        SkippedLeavesMark(job, s, |job.ids|, t);
      } else {
        t :| t in w.running.Keys;
      }
      AbortLeavesMark(w, t);
    } else if m.pending != {} {
      t :| t in m.pending;
      AbortLeavesMark(m, t);
    } else {
      t := TimeoutIsUnsuccessful(m);
      AbortLeavesMark(m, t);
    }
  }

  lemma TimeoutIsUnsuccessful(s: RunState) returns (t: Id)
    requires AnyTimeout(s.results)
    ensures Unsuccessful(s.results, t)
  {
    t :| t in s.results && s.results[t] == Timeout;
  }

  /** A run in which every task succeeded is reported as a success, whatever the clock reads at its end. */
  lemma AllSucceededReportsSuccess(job: Job, turns: seq<Turn>, p: Point)
    requires ValidJob(job) && RunTurns(job, turns) == Some(p) && p.Exited?
    requires forall t :: t in job.deps ==> t in p.state.results && p.state.results[t] == Success
    ensures p.exit == Finished && StatusOf(p.exit, p.state.results) == RunSuccess
  {
    hide ValidJob, TurnStep, Settled, Possible;
    assert job.deps.Keys <= p.state.results.Keys;
    if p.exit.OverBudget? {
      OverBudgetLosesOne(job, turns, p);
    }
    EveryTaskHasResult(job, turns, p);
    assert forall t :: t in p.state.results.Keys <==> t in job.deps.Keys;
    var last := |turns| - 1;
    var s := RunTurns(job, turns[..last]).value.state;
    if p.exit != Finished {
      var t := ErrorLeavesMark(job, s, turns[last]);
    }
  }

  function LoneJob(t: Id): Job {
    Job([t], map[t := []], map[t := None], None, None, None)
  }

  lemma LoneJobIsValid(t: Id)
    ensures ValidJob(LoneJob(t))
  {
    var adj := AdjacencyOf(LoneJob(t).deps);
    assert adj[t] == {};
    assert Elements([t]) == {t};
    TopologicalIsAcyclic(adj, [t]);
  }

  /** A run whose only task observed its cancellation is still reported as a success. */
  lemma CancelledRunReportsSuccess(t: Id) returns (turns: seq<Turn>)
    ensures ValidJob(LoneJob(t))
    ensures RunTurns(LoneJob(t), turns) == Some(Exited(Finished, RunState({}, map[], map[t := Verdict.Cancelled], [t])))
    ensures StatusOf(Finished, map[t := Verdict.Cancelled]) == RunSuccess
  {
    hide ValidJob, Possible, TurnStep, Settled, RunTurns, InitialRun;
    var job := LoneJob(t);
    LoneJobIsValid(t);
    var first, second := Turn(0, {}, [(t, RaisedCancelled)], 0), Turn(0, {}, [], 0);
    var s1 := LoneTurns(t, first, second);
    RunStarts(job);
    TurnAppended(job, [], InitialRun(job), first);
    TurnAppended(job, [] + [first], s1, second);
    turns := [] + [first] + [second];
  }

  lemma LoneTurns(t: Id, first: Turn, second: Turn) returns (s: RunState)
    requires first == Turn(0, {}, [(t, RaisedCancelled)], 0) && second == Turn(0, {}, [], 0)
    ensures s == RunState({}, map[], map[t := Verdict.Cancelled], [t])
    ensures var job := LoneJob(t);
            && Possible(job, InitialRun(job), first) && Settled(TurnStep(job, InitialRun(job), first)) == Going(s)
            && Possible(job, s, second) && Settled(TurnStep(job, s, second)) == Exited(Finished, s)
  {
    var job := LoneJob(t);
    var i := InitialRun(job);
    assert job.ids[0] == t && i.pending == {t};
    assert SkipUpTo(job, i, 0) == i;
    assert SkipUpTo(job, i, 1) == i;
    assert LaunchUpTo(job, i, 0, 0, {}) == i;
    var m := RunState({}, map[t := None], map[], [t]);
    assert LaunchUpTo(job, i, 1, 0, {}) == m;
    assert t in m.running;
    s := Collect(m, t, RaisedCancelled);
    assert m.running - {t} == map[];
    assert first.done[1..] == [];
    assert CollectAll(m, first.done) == CollectAll(s, []);
    assert SkipUpTo(job, s, 0) == s;
    assert SkipUpTo(job, s, 1) == s;
    assert LaunchUpTo(job, s, 0, 0, {}) == s;
    assert LaunchUpTo(job, s, 1, 0, {}) == s;
  }
}

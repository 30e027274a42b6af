/**
 * What a run of the Python scheduler records: the verdict of every completed task, what an abort does
 * to the rest, what the status says about the last turn, and when a task succeeds.
 */
module RuntimeHistories {
  import opened Collections
  import opened Graphs
  import opened TaskGraphs
  import opened RuntimeSteps
  import opened RuntimeSafety
  import opened RuntimeProgress
  import opened RuntimeResults
  import opened RuntimeDeadlines
  import opened RuntimeLaunches
  import opened RuntimeOutcomes

  // ----- results are never taken back

  lemma {:induction false} SkipExtends(job: Job, s: RunState, n: nat)
    requires Accounted(job, s) && n <= |job.ids| && forall t :: t in job.ids ==> t in job.deps
    ensures Extends(s.results, SkipUpTo(job, s, n).results)
  {
    hide Accounted, HasUnsuccessful;
    if n > 0 {
      SkipExtends(job, s, n - 1);
      SkipAccounted(job, s, n - 1);
      var m, t := SkipUpTo(job, s, n - 1), job.ids[n - 1];
      if t in m.pending {
        PendingIsFresh(job, m, t);
      }
    }
  }

  lemma {:induction false} LaunchExtends(job: Job, s: RunState, n: nat, now: int, saturated: set<Id>)
    requires Accounted(job, s) && n <= |job.ids| && forall t :: t in job.ids ==> t in job.deps && t in job.timeouts
    ensures Extends(s.results, LaunchUpTo(job, s, n, now, saturated).results)
  {
    hide Accounted, AllSucceeded, AtCap, TaskDeadline;
    if n > 0 {
      LaunchExtends(job, s, n - 1, now, saturated);
      LaunchAccounted(job, s, n - 1, now, saturated);
      var m, t := LaunchUpTo(job, s, n - 1, now, saturated), job.ids[n - 1];
      if t in m.pending {
        PendingIsFresh(job, m, t);
      }
    }
  }

  lemma {:induction false} CollectExtends(job: Job, s: RunState, done: seq<(Id, Output)>)
    requires Accounted(job, s) && CollectsRunning(s.running, done)
    ensures Extends(s.results, CollectAll(s, done).state.results)
    decreases |done|
  {
    hide Accounted;
    if done != [] && done[0].1 != RaisedBudget {
      var t := done[0].0;
      PendingIsFresh(job, s, t);
      RecordRunning(job, s, t, VerdictOf(done[0].1));
      assert forall i :: 0 <= i < |done[1..]| ==> done[1..][i] == done[i + 1];
      CollectExtends(job, Collect(s, t, done[0].1), done[1..]);
    }
  }

  lemma ExtendsTwice(a: map<Id, Verdict>, b: map<Id, Verdict>, c: map<Id, Verdict>)
    requires Extends(a, b) && Extends(b, c)
    ensures Extends(a, c)
  {
  }

  lemma ExpireExtends(job: Job, s: RunState, now: int)
    requires Accounted(job, s)
    ensures Extends(s.results, ExpireAll(s, now).results)
  {
    hide ExpireAll, Expired, Distinct;
  }

  lemma AbortExtends(job: Job, p: Point)
    requires PointAccounted(job, p)
    ensures Extends(p.state.results, Settled(p).state.results)
  {
    hide SubmitsJustified, DeadlinesClamped, WithinCap;
  }

  lemma LaunchedExtends(job: Job, s: RunState, turn: Turn)
    requires Accounted(job, s) && forall t :: t in job.ids ==> t in job.deps && t in job.timeouts
    ensures Extends(s.results, Swept(job, s).results) && Extends(s.results, Launched(job, s, turn).results)
    ensures Accounted(job, Launched(job, s, turn))
  {
    hide Accounted, SkipUpTo, LaunchUpTo, Extends;
    var w := Swept(job, s);
    SkipExtends(job, s, |job.ids|);
    SkipAccounted(job, s, |job.ids|);
    LaunchExtends(job, w, |job.ids|, turn.launchNow, turn.saturated);
    LaunchAccounted(job, w, |job.ids|, turn.launchNow, turn.saturated);
    ExtendsTwice(s.results, w.results, Launched(job, s, turn).results);
  }

  lemma StepExtends(job: Job, s: RunState, turn: Turn)
    requires ValidJob(job) && Accounted(job, s) && forall t :: t in job.ids ==> t in job.deps && t in job.timeouts
    requires Possible(job, s, turn)
    ensures Extends(s.results, Settled(TurnStep(job, s, turn)).state.results)
  {
    hide ValidJob, Accounted, SkipUpTo, LaunchUpTo, CollectAll, ExpireAll, Extends, AnyTimeout;
    var m := Launched(job, s, turn);
    LaunchedExtends(job, s, turn);
    CollectExtends(job, m, turn.done);
    ExpireExtends(job, m, turn.now);
    ExtendsTwice(s.results, m.results, CollectAll(m, turn.done).state.results);
    ExtendsTwice(s.results, m.results, ExpireAll(m, turn.now).results);
    ExtendsItself(s.results);
    TurnAccounted(job, s, turn);
    var p := TurnStep(job, s, turn);
    AbortExtends(job, p);
    ExtendsTwice(s.results, p.state.results, Settled(p).state.results);
  }

  lemma ExtendsItself(results: map<Id, Verdict>)
    ensures Extends(results, results)
  {
  }

  /** Over any further turns every result stays what it is. */
  lemma {:induction false} ResultsPersist(job: Job, turns: seq<Turn>, more: seq<Turn>, p: Point)
    requires ValidJob(job) && RunTurns(job, turns) == Some(p) && RunTurns(job, turns + more).Some?
    ensures Extends(p.state.results, RunTurns(job, turns + more).value.state.results)
    decreases |more|
  {
    hide ValidJob, Accounted, Possible, TurnStep, Settled, Extends;
    if more == [] {
      assert turns + more == turns;
      ExtendsItself(p.state.results);
    } else {
      var last := |more| - 1;
      var all := turns + more;
      assert all[..|all| - 1] == turns + more[..last];
      ResultsPersist(job, turns, more[..last], p);
      RunAccounted(job, turns + more[..last]);
      JobTables(job);
      var s := RunTurns(job, turns + more[..last]).value.state;
      StepExtends(job, s, more[last]);
      ExtendsTwice(p.state.results, s.results, RunTurns(job, all).value.state.results);
    }
  }

  // ----- completed tasks

  /** The budget error was not raised up to and including position `j`. */
  ghost predicate Collected(done: seq<(Id, Output)>, j: nat)
    requires j < |done|
  {
    forall i :: 0 <= i <= j ==> done[i].1 != RaisedBudget
  }

  lemma {:induction false} CollectRecords(job: Job, s: RunState, done: seq<(Id, Output)>, j: nat)
    requires Accounted(job, s) && CollectsRunning(s.running, done) && j < |done| && Collected(done, j)
    ensures var r := CollectAll(s, done).state.results;
            done[j].0 in r && r[done[j].0] == VerdictOf(done[j].1)
    decreases |done|
  {
    hide Accounted;
    var t := done[0].0;
    assert done[0].1 != RaisedBudget;
    var c := Collect(s, t, done[0].1);
    RecordRunning(job, s, t, VerdictOf(done[0].1));
    assert forall i :: 0 <= i < |done[1..]| ==> done[1..][i] == done[i + 1];
    if j == 0 {
      CollectExtends(job, c, done[1..]);
    } else {
      assert Collected(done[1..], j - 1);
      CollectRecords(job, c, done[1..], j - 1);
    }
  }

  /**
   * A completed task is recorded for good by how its future ended: a value is a success, a task result
   * is taken over as it is, an error value is a failure or, when it says so, a timeout, an exception
   * is a failure, and an observed cancellation is a cancellation.
   */
  lemma CompletionIsRecorded(job: Job, turns: seq<Turn>, s: RunState, turn: Turn, more: seq<Turn>, p: Point, j: nat)
    requires ValidJob(job) && RunTurns(job, turns) == Some(Going(s))
    requires RunTurns(job, turns + [turn] + more) == Some(p)
    requires j < |turn.done| && Collected(turn.done, j)
    requires job.deadline.Some? ==> turn.launchNow < job.deadline.value
    ensures var t, output := turn.done[j].0, turn.done[j].1;
            && t in p.state.results
            && (output == Value ==> p.state.results[t] == Success)
            && (output.Verbatim? ==> p.state.results[t] == output.verdict)
            && (output == ErrorValue(true) ==> p.state.results[t] == Timeout)
            && (output == ErrorValue(false) ==> p.state.results[t] == Failure)
            && (output == Raised ==> p.state.results[t] == Failure)
            && (output == RaisedCancelled ==> p.state.results[t] == Verdict.Cancelled)
  {
    hide ValidJob, Accounted, SkipUpTo, LaunchUpTo, CollectAll, ExpireAll, Extends, Collected;
    var first := turns + [turn];
    PrefixRuns(job, first, more);
    assert first[..|turns|] == turns;
    var q := RunTurns(job, first).value;
    RunAccounted(job, turns);
    JobTables(job);
    LaunchedExtends(job, s, turn);
    CollectRecords(job, Launched(job, s, turn), turn.done, j);
    TurnAccounted(job, s, turn);
    AbortExtends(job, TurnStep(job, s, turn));
    WaitedOn(job, s, turn, j);
    ResultsPersist(job, first, more, q);
    Recorded(TurnStep(job, s, turn).state.results, q.state.results, turn.done[j].0);
    Recorded(q.state.results, p.state.results, turn.done[j].0);
  }

  lemma Recorded(a: map<Id, Verdict>, b: map<Id, Verdict>, t: Id)
    requires Extends(a, b) && t in a
    ensures t in b && b[t] == a[t]
  {
  }

  /** A turn with a completion is one that waited. */
  lemma WaitedOn(job: Job, s: RunState, turn: Turn, j: nat)
    requires (forall t :: t in job.ids ==> t in job.deps && t in job.timeouts) && Possible(job, s, turn)
    requires j < |turn.done| && (job.deadline.Some? ==> turn.launchNow < job.deadline.value) && Accounted(job, s)
    ensures TurnStep(job, s, turn) == CollectAll(Launched(job, s, turn), turn.done)
  {
    hide Accounted, SkipUpTo, LaunchUpTo, CollectAll;
    assert turn.done[j].0 in Launched(job, s, turn).running;
    TurnLaunches(job, s, turn);
  }

  lemma {:induction false} PrefixRuns(job: Job, turns: seq<Turn>, more: seq<Turn>)
    requires ValidJob(job) && RunTurns(job, turns + more).Some?
    ensures RunTurns(job, turns).Some?
    decreases |more|
  {
    hide ValidJob, Possible, TurnStep, Settled;
    if more == [] {
      assert turns + more == turns;
    } else {
      assert (turns + more)[..|turns + more| - 1] == turns + more[..|more| - 1];
      PrefixRuns(job, turns, more[..|more| - 1]);
    }
  }

  // ----- aborted tasks

  /**
   * A run that ends by an error cancels what is still in flight: every task that was submitted, had no
   * result before the last turn, and is not among the futures which that turn collected.
   */
  lemma AbortCancelsInFlight(job: Job, turns: seq<Turn>, s: RunState, turn: Turn, exit: Exit, r: RunState, t: Id)
    requires ValidJob(job) && RunTurns(job, turns) == Some(Going(s))
    requires RunTurns(job, turns + [turn]) == Some(Exited(exit, r)) && exit != Finished
    requires t in r.submitted && t !in s.results
    requires exit.OverBudget? ==> forall j :: 0 <= j < |turn.done| ==> turn.done[j].0 != t
    ensures t in r.results && r.results[t] == Verdict.Cancelled
  {
    hide ValidJob, Accounted, SkipUpTo, LaunchUpTo, CollectAll, ExpireAll, TaskDeadline, AnyTimeout;
    assert (turns + [turn])[..|turns|] == turns;
    RunAccounted(job, turns);
    JobTables(job);
    var m := Launched(job, s, turn);
    TurnLaunches(job, s, turn);
    RunningSubmitted(job, s);
    SkipAccounted(job, s, |job.ids|);
    CollectKeepsTables(m, turn.done);
    CollectNeverDeadlocks(m, turn.done);
    StillInFlight(job, s, m, turn, t);
  }

  lemma StillInFlight(job: Job, s: RunState, m: RunState, turn: Turn, t: Id)
    requires Accounted(job, s) && Accounted(job, m) && t !in s.results
    requires forall u :: u in job.ids ==> u in job.deps
    requires LaunchedFrom(job, s.(pending := Swept(job, s).pending), m, turn.launchNow)
    ensures t in s.submitted ==> t in s.running && t in m.running
    ensures t in m.submitted ==> t in m.running
  {
    hide SkipUpTo, TaskDeadline, Distinct;
  }

  // ----- the status of a run

  /** The clock was at or past the run deadline. */
  predicate Late(job: Job, now: int) {
    job.deadline.Some? && now >= job.deadline.value
  }

  ghost predicate NothingLeft(s: RunState) {
    s.pending == {} && s.running == map[]
  }

  /**
   * What the status says, on the last turn and the reported results. Timeout: the deadline had passed
   * when more work was to be launched, or it had at the end and some task timed out. Cancelled: a
   * collected future had run out of budget. Failed: some task failed or timed out, or a task was left
   * that nothing could start. Success: none of these.
   */
  lemma StatusMeans(job: Job, turns: seq<Turn>, s: RunState, turn: Turn, exit: Exit, r: RunState)
    requires ValidJob(job) && RunTurns(job, turns) == Some(Going(s))
    requires RunTurns(job, turns + [turn]) == Some(Exited(exit, r))
    ensures var m := if NothingLeft(s) then s else AtWait(job, s, turn);
            var late := !NothingLeft(s) && Late(job, turn.launchNow);
            var broke := !late && exists j :: 0 <= j < |turn.done| && turn.done[j].1 == RaisedBudget;
            var stuck := !late && m.running == map[] && m.pending != {};
            var troubled := exists t :: t in m.results && (m.results[t] == Failure || m.results[t] == Timeout);
            var ranOut := exists t :: t in m.results && m.results[t] == Timeout;
            var expired := late || (NothingLeft(m) && Late(job, turn.now) && ranOut);
            && (StatusOf(exit, r.results) == RunTimeout <==> expired)
            && (StatusOf(exit, r.results) == RunCancelled <==> broke)
            && (StatusOf(exit, r.results) == RunFailed <==> stuck || (!expired && NothingLeft(m) && troubled))
            && (StatusOf(exit, r.results) == RunSuccess <==> !expired && NothingLeft(m) && !troubled)
  {
    hide ValidJob, Accounted, SkipUpTo, LaunchUpTo, CollectAll, ExpireAll;
    assert (turns + [turn])[..|turns|] == turns;
    JobTables(job);
    var m := Launched(job, s, turn);
    BudgetErrorEnds(m, turn.done);
    CollectNeverDeadlocks(m, turn.done);
    NothingToCollect(job, s, turn);
  }

  lemma NothingToCollect(job: Job, s: RunState, turn: Turn)
    requires (forall t :: t in job.ids ==> t in job.deps && t in job.timeouts) && Possible(job, s, turn)
    ensures Launched(job, s, turn).running == map[] ==> turn.done == []
    ensures NothingLeft(s) ==> turn.done == []
  {
    hide SkipUpTo, LaunchUpTo;
    if NothingLeft(s) {
      NothingPendingNothingSkipped(job, s, |job.ids|);
      NothingPendingNothingLaunched(job, s, |job.ids|, turn);
    }
    if turn.done != [] {
      assert turn.done[0].0 in Launched(job, s, turn).running;
    }
  }

  lemma {:induction false} BudgetErrorEnds(s: RunState, done: seq<(Id, Output)>)
    ensures CollectAll(s, done).Exited? <==> exists j :: 0 <= j < |done| && done[j].1 == RaisedBudget
    decreases |done|
  {
    if done != [] && done[0].1 != RaisedBudget {
      var rest := done[1..];
      BudgetErrorEnds(Collect(s, done[0].0, done[0].1), rest);
      assert forall j :: 0 <= j < |rest| ==> rest[j] == done[j + 1];
      if j :| 0 <= j < |done| && done[j].1 == RaisedBudget {
        assert rest[j - 1].1 == RaisedBudget;
      }
    }
  }

  // ----- when a task succeeds

  /** A future that makes its task a success. */
  predicate Succeeds(output: Output) {
    output == Value || output == Verbatim(Success)
  }

  /** Everything that `t` depends on, itself included, ends well. */
  ghost predicate AllUpstreamSucceed(deps: map<Id, seq<Id>>, g: Id -> Output, t: Id) {
    forall p :: IsWalk(AdjacencyOf(deps), p) && |p| > 0 && p[0] == t ==> Succeeds(g(p[|p| - 1]))
  }

  lemma {:induction false} SuccessIsUpstream(deps: map<Id, seq<Id>>, g: Id -> Output, t: Id)
    requires IsDag(deps) && t in deps
    ensures FinalVerdict(deps, OwnVerdict(g), t) == Success <==> AllUpstreamSucceed(deps, g, t)
    decreases Rank(AdjacencyOf(deps), t)
  {
    hide IsDag;
    OwnSuccess(deps, g, t);
    forall d | d in deps[t]
      ensures d in deps && FinalVerdict(deps, OwnVerdict(g), d) == Success <==> AllUpstreamSucceed(deps, g, d)
    {
      DependencyRanksLower(deps, t, d);
      SuccessIsUpstream(deps, g, d);
    }
    UpstreamSplits(deps, g, t);
  }

  lemma DependencyRanksLower(deps: map<Id, seq<Id>>, t: Id, d: Id)
    requires IsDag(deps) && t in deps && d in deps[t]
    ensures d in deps && Rank(AdjacencyOf(deps), d) < Rank(AdjacencyOf(deps), t)
  {
    RankDescends(AdjacencyOf(deps), t, d);
  }

  lemma OwnSuccess(deps: map<Id, seq<Id>>, g: Id -> Output, t: Id)
    requires IsDag(deps) && t in deps
    ensures forall d :: d in deps[t] ==> d in deps
    ensures FinalVerdict(deps, OwnVerdict(g), t) == Success <==>
        Succeeds(g(t)) && forall d :: d in deps[t] ==> d in deps && FinalVerdict(deps, OwnVerdict(g), d) == Success
  {
  }

  lemma UpstreamSplits(deps: map<Id, seq<Id>>, g: Id -> Output, t: Id)
    requires t in deps
    ensures AllUpstreamSucceed(deps, g, t) <==>
        Succeeds(g(t)) && forall d :: d in deps[t] ==> AllUpstreamSucceed(deps, g, d)
  {
    var adj := AdjacencyOf(deps);
    if AllUpstreamSucceed(deps, g, t) {
      assert IsWalk(adj, [t]) && [t][0] == t;
      forall d, p | d in deps[t] && IsWalk(adj, p) && |p| > 0 && p[0] == d
        ensures Succeeds(g(p[|p| - 1]))
      {
        WalkLonger(adj, t, p);
        var q := [t] + p;
        assert q[0] == t && q[|q| - 1] == p[|p| - 1];
      }
    }
    if Succeeds(g(t)) && forall d :: d in deps[t] ==> AllUpstreamSucceed(deps, g, d) {
      forall p | IsWalk(adj, p) && |p| > 0 && p[0] == t
        ensures Succeeds(g(p[|p| - 1]))
      {
        if |p| > 1 {
          WalkShorter(adj, p);
          var q := p[1..];
          assert q[0] in deps[t] && q[|q| - 1] == p[|p| - 1];
        }
      }
    }
  }

  lemma WalkLonger(adj: Adjacency, t: Id, p: seq<Id>)
    requires t in adj && IsWalk(adj, p) && |p| > 0 && p[0] in adj[t]
    ensures IsWalk(adj, [t] + p)
  {
    var q := [t] + p;
    forall i | 0 <= i < |q| - 1
      ensures q[i] in adj && q[i + 1] in adj[q[i]]
    {
      if i > 0 {
        var k := i - 1;
        assert q[i] == p[k] && q[i + 1] == p[k + 1];
      }
    }
  }

  lemma WalkShorter(adj: Adjacency, p: seq<Id>)
    requires IsWalk(adj, p) && |p| > 1
    ensures IsWalk(adj, p[1..]) && p[0] in adj && p[1] in adj[p[0]]
  {
    var q := p[1..];
    forall i | 0 <= i < |q| - 1
      ensures q[i] in adj && q[i + 1] in adj[q[i]]
    {
      var k := i + 1;
      assert q[i] == p[k] && q[i + 1] == p[k + 1];
    }
  }

  /**
   * In a finished run without saturation and expiry a task succeeds if and only if its own future and
   * those of all its direct and indirect dependencies end in a value or a successful task result.
   */
  lemma SucceedsIffUpstream(job: Job, g: Id -> Output, turns: seq<Turn>, s: RunState, t: Id)
    requires ValidJob(job) && RunTurns(job, turns) == Some(Exited(Finished, s))
    requires NothingSaturates(turns) && NoneExpires(turns) && GivesOutputs(turns, g) && t in job.deps
    ensures t in s.results && (s.results[t] == Success <==> AllUpstreamSucceed(job.deps, g, t))
  {
    hide RunTurns, FinalVerdict, AllUpstreamSucceed, IsDag, NoneExpires;
    FinishedByOutputs(job, g, turns, s);
    SuccessIsUpstream(job.deps, g, t);
  }
}

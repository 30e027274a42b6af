/** Termination and the deadlock error of the Python scheduler. */
module RuntimeProgress {
  import opened Collections
  import opened Graphs
  import opened TaskGraphs
  import opened RuntimeSteps
  import opened RuntimeSafety

  // ----- every turn settles something

  /** A turn that goes on leaves strictly fewer tasks unresolved. */
  ghost function Unresolved(s: RunState): set<Id> {
    s.pending + s.running.Keys
  }

  lemma {:induction false} SkipShrinks(job: Job, s: RunState, n: nat)
    requires n <= |job.ids| && forall t :: t in job.ids ==> t in job.deps
    ensures SkipUpTo(job, s, n).pending <= s.pending && SkipUpTo(job, s, n).running == s.running
  {
    if n > 0 {
      SkipShrinks(job, s, n - 1);
    }
  }

  lemma LaunchOneShrinks(job: Job, s: RunState, t: Id, now: int, saturated: set<Id>)
    requires t in job.deps && t in job.timeouts
    ensures Unresolved(LaunchOne(job, s, t, now, saturated)) <= Unresolved(s)
  {
    hide AllSucceeded, TaskDeadline;
  }

  lemma {:induction false} LaunchShrinks(job: Job, s: RunState, n: nat, now: int, saturated: set<Id>)
    requires n <= |job.ids| && forall t :: t in job.ids ==> t in job.deps && t in job.timeouts
    ensures Unresolved(LaunchUpTo(job, s, n, now, saturated)) <= Unresolved(s)
  {
    hide LaunchOne, Unresolved, AtCap;
    if n > 0 {
      LaunchShrinks(job, s, n - 1, now, saturated);
      LaunchOneShrinks(job, LaunchUpTo(job, s, n - 1, now, saturated), job.ids[n - 1], now, saturated);
    }
  }

  lemma {:induction false} CollectShrinks(s: RunState, done: seq<(Id, Output)>)
    requires CollectsRunning(s.running, done) && CollectAll(s, done).Going? && forall t :: t in s.running ==>
        t !in s.pending
    ensures Unresolved(CollectAll(s, done).state) <= Unresolved(s)
    ensures done != [] ==> done[0].0 in Unresolved(s) && done[0].0 !in Unresolved(CollectAll(s, done).state)
    decreases |done|
  {
    if done != [] {
      assert forall i :: 0 <= i < |done[1..]| ==> done[1..][i] == done[i + 1];
      CollectShrinks(Collect(s, done[0].0, done[0].1), done[1..]);
    }
  }

  /** When a wait times out some task deadline has passed, because task deadlines are clamped to the run deadline. */
  lemma TimeoutExpiresSome(job: Job, s: RunState, now: int) returns (t: Id)
    requires DeadlinesClamped(job, s) && s.running != map[] && NearestPassed(job, s.running, now)
    ensures t in s.running && Expired(s.running, t, now)
  {
    if DeadlinePassed(job, now) {
      assert s.running.Keys != {};
      t :| t in s.running.Keys;
    } else {
      t :| t in s.running && Expired(s.running, t, now);
    }
  }

  lemma TurnShrinks(job: Job, s: RunState, turn: Turn)
    requires ValidJob(job) && Accounted(job, s) && Possible(job, s, turn) && TurnStep(job, s, turn).Going?
    ensures Unresolved(TurnStep(job, s, turn).state) < Unresolved(s)
  {
    hide ValidJob, SubmitsJustified, WithinCap, AnyTimeout, LaunchUpTo, SkipUpTo, CollectAll, ExpireAll,
        NearestPassed, Expired;
    JobTables(job);
    SkipShrinks(job, s, |job.ids|);
    SkipAccounted(job, s, |job.ids|);
    LaunchShrinks(job, Swept(job, s), |job.ids|, turn.launchNow, turn.saturated);
    LaunchAccounted(job, Swept(job, s), |job.ids|, turn.launchNow, turn.saturated);
    var m := Launched(job, s, turn);
    if turn.done == [] {
      var t := TimeoutExpiresSome(job, m, turn.now);
      assert t in Unresolved(m) && t !in Unresolved(ExpireAll(m, turn.now));
    } else {
      CollectShrinks(m, turn.done);
      assert turn.done[0].0 in Unresolved(m);
    }
  }

  /** The loop takes at most one turn more than there are tasks. */
  lemma {:induction false} TurnsBounded(job: Job, turns: seq<Turn>)
    requires ValidJob(job) && RunTurns(job, turns).Some?
    ensures |turns| <= |job.ids| + 1
    ensures RunTurns(job, turns).value.Going? ==> |Unresolved(RunTurns(job, turns).value.state)| + |turns| <= |job.ids|
  {
    hide ValidJob, Accounted, Possible, TurnStep;
    if turns == [] {
      ElementsBound(job.ids);
      assert Unresolved(InitialRun(job)) == Elements(job.ids);
    } else {
      var last := |turns| - 1;
      TurnsBounded(job, turns[..last]);
      RunAccounted(job, turns[..last]);
      JobTables(job);
      var s := RunTurns(job, turns[..last]).value.state;
      if TurnStep(job, s, turns[last]).Going? {
        TurnShrinks(job, s, turns[last]);
        ProperSubsetSize(Unresolved(TurnStep(job, s, turns[last]).state), Unresolved(s));
      }
    }
  }

  lemma ProperSubsetSize(a: set<Id>, b: set<Id>)
    requires a < b
    ensures |a| < |b|
  {
    SubsetSize(a, b);
  }

  // ----- the deadlock error

  ghost predicate UsableLimit(job: Job) {
    job.maxConcurrency.Some? ==> job.maxConcurrency.value >= 1
  }

  /** Without saturation the launch sweep adds no result. */
  lemma {:induction false} LaunchKeepsResults(job: Job, s: RunState, n: nat, now: int)
    requires n <= |job.ids| && forall t :: t in job.ids ==> t in job.deps && t in job.timeouts
    ensures var r := LaunchUpTo(job, s, n, now, {});
            r.results == s.results && r.pending <= s.pending && s.running.Keys <= r.running.Keys
  {
    if n > 0 {
      LaunchKeepsResults(job, s, n - 1, now);
    }
  }

  /** A launch sweep that leaves nothing running has visited every task, and found no pending one ready. */
  lemma {:induction false} IdleLaunchFindsNone(job: Job, s: RunState, n: nat, now: int, saturated: set<Id>, i: nat)
    requires n <= |job.ids| && forall t :: t in job.ids ==> t in job.deps && t in job.timeouts
    requires UsableLimit(job) && LaunchUpTo(job, s, n, now, saturated).running == map[] && i < n
    ensures job.ids[i] in LaunchUpTo(job, s, n, now, saturated).pending ==>
              !AllSucceeded(LaunchUpTo(job, s, n, now, saturated).results, job.deps[job.ids[i]])
    ensures LaunchUpTo(job, s, n - 1, now, saturated).running == map[]
  {
    hide AllSucceeded;
    var m := LaunchUpTo(job, s, n - 1, now, saturated);
    var r := LaunchUpTo(job, s, n, now, saturated);
    assert m.running.Keys <= r.running.Keys;
    assert m.running == map[];
    if i < n - 1 {
      IdleLaunchFindsNone(job, s, n - 1, now, saturated, i);
      SaturatedIsNoSuccess(m.results, job.ids[n - 1], job.deps[job.ids[i]]);
    } else {
      SaturatedIsNoSuccess(m.results, job.ids[n - 1], job.deps[job.ids[i]]);
    }
  }

  lemma SaturatedIsNoSuccess(results: map<Id, Verdict>, t: Id, deps: seq<Id>)
    ensures !AllSucceeded(results, deps) ==> !AllSucceeded(results[t := Timeout], deps)
  {
    if !AllSucceeded(results, deps) {
      var d :| d in deps && !(d in results && results[d] == Success);
      assert !(d in results[t := Timeout] && results[t := Timeout][d] == Success);
    }
  }

  ghost predicate NothingSaturates(turns: seq<Turn>) {
    forall i :: 0 <= i < |turns| ==> turns[i].saturated == {}
  }

  lemma {:induction false} CollectNeverDeadlocks(s: RunState, done: seq<(Id, Output)>)
    ensures CollectAll(s, done).Exited? ==> CollectAll(s, done).exit.OverBudget?
    decreases |done|
  {
    if done != [] {
      CollectNeverDeadlocks(Collect(s, done[0].0, done[0].1), done[1..]);
    }
  }

  /** What ends a wait early is the budget error of one of its futures. */
  lemma {:induction false} CollectRaises(s: RunState, done: seq<(Id, Output)>) returns (j: nat)
    requires CollectAll(s, done).Exited?
    ensures j < |done| && done[j].1 == RaisedBudget && CollectAll(s, done).exit == OverBudget(done[j].0)
    decreases |done|
  {
    if done[0].1 == RaisedBudget {
      j := 0;
    } else {
      var k := CollectRaises(Collect(s, done[0].0, done[0].1), done[1..]);
      j := k + 1;
    }
  }

  // ----- saturation

  ghost predicate CanDeadlock(job: Job)
    requires ValidJob(job)
  {
    exists turns ::
      RunTurns(job, turns).Some? && RunTurns(job, turns).value.Exited? && RunTurns(job, turns).value.exit == Deadlock
  }

  ghost predicate HasEdge(job: Job) {
    exists t :: t in job.deps && job.deps[t] != []
  }

  /** The launch sweep when every submit finds the pool saturated. */
  lemma {:induction false} SaturatedLaunch(job: Job, s: RunState, n: nat, now: int, t: Id)
    requires n <= |job.ids| && forall u :: u in job.ids ==> u in job.deps && u in job.timeouts
    requires s.running == map[] && forall u :: u in s.results ==> s.results[u] != Success
    requires t in job.deps && t in s.pending && job.deps[t] != []
    ensures var r := LaunchUpTo(job, s, n, now, Elements(job.ids));
            r.running == map[] && t in r.pending && forall u :: u in r.results ==> r.results[u] != Success
  {
    if n > 0 {
      SaturatedLaunch(job, s, n - 1, now, t);
      var m := LaunchUpTo(job, s, n - 1, now, Elements(job.ids));
      assert job.ids[n - 1] in Elements(job.ids);
      if job.ids[n - 1] == t {
        assert job.deps[t][0] in job.deps[t];
        assert !AllSucceeded(m.results, job.deps[t]);
      }
    }
  }

  lemma {:induction false} NothingToSkip(job: Job, s: RunState, n: nat)
    requires n <= |job.ids| && (forall t :: t in job.ids ==> t in job.deps) && s.results == map[]
    ensures SkipUpTo(job, s, n) == s
  {
    if n > 0 {
      NothingToSkip(job, s, n - 1);
    }
  }

  /** A clock reading at which launching is still allowed. */
  function Early(job: Job): int {
    if job.deadline.Some? then job.deadline.value - 1 else 0
  }

  /** One turn in which the whole pool is saturated deadlocks any plan with a dependency. */
  lemma SaturationDeadlocks(job: Job)
    requires ValidJob(job) && HasEdge(job)
    ensures CanDeadlock(job)
  {
    hide IsDag;
    JobTables(job);
    var t :| t in job.deps && job.deps[t] != [];
    var s := InitialRun(job);
    var turn := Turn(Early(job), Elements(job.ids), [], 0);
    NothingToSkip(job, s, |job.ids|);
    SaturatedLaunch(job, s, |job.ids|, turn.launchNow, t);
    assert Possible(job, s, turn);
    RunStarts(job);
    TurnAppended(job, [], s, turn);
    assert RunTurns(job, [] + [turn]).value.exit == Deadlock;
  }

  /** Without dependencies every pending task is ready, so an idle launch leaves none. */
  lemma EdgelessDrains(job: Job, s: RunState, turn: Turn)
    requires (forall t :: t in job.ids <==> t in job.deps) && forall t :: t in job.ids <==> t in job.timeouts
    requires Accounted(job, s) && !HasEdge(job) && UsableLimit(job) && Launched(job, s, turn).running == map[]
    ensures Launched(job, s, turn).pending == {}
  {
    hide SubmitsJustified, DeadlinesClamped, WithinCap, SkipUpTo, LaunchUpTo;
    var w, m := Swept(job, s), Launched(job, s, turn);
    SkipAccounted(job, s, |job.ids|);
    LaunchAccounted(job, w, |job.ids|, turn.launchNow, turn.saturated);
    if t :| t in m.pending {
      assert t in job.ids;
      var i :| 0 <= i < |job.ids| && job.ids[i] == t;
      IdleLaunchFindsNone(job, w, |job.ids|, turn.launchNow, turn.saturated, i);
      assert false;
    }
  }

  /**
   * With a usable limit and saturation possible, the deadlock error is reachable exactly when some
   * task has a dependency.
   */
  lemma DeadlockIffEdge(job: Job)
    requires ValidJob(job) && UsableLimit(job)
    ensures CanDeadlock(job) <==> HasEdge(job)
  {
    hide ValidJob, Possible, CollectAll, ExpireAll, LaunchUpTo, SkipUpTo, HasEdge, Accounted;
    if HasEdge(job) {
      SaturationDeadlocks(job);
    } else if CanDeadlock(job) {
      var turns: seq<Turn> :| RunTurns(job, turns).Some? && RunTurns(job, turns).value.Exited?
          && RunTurns(job, turns).value.exit == Deadlock;
      var last := |turns| - 1;
      JobTables(job);
      RunAccounted(job, turns[..last]);
      var s := RunTurns(job, turns[..last]).value.state;
      CollectNeverDeadlocks(Launched(job, s, turns[last]), turns[last].done);
      EdgelessDrains(job, s, turns[last]);
      assert false;
    }
  }

  // ----- dependents listed first

  function ReversedJob(a: Id, b: Id, c: Id): Job {
    Job([c, b, a], ThreeChain(a, b, c), map[a := None, b := None, c := None], None, None, None)
  }

  lemma ReversedJobIsValid(a: Id, b: Id, c: Id)
    requires a != b && a != c && b != c
    ensures ValidJob(ReversedJob(a, b, c))
  {
    hide Acyclic, AdjacencyOf;
    ThreeChainIsAcyclic(a, b, c);
  }

  /** Listed dependents-first, a chain deadlocks when its root fails, even though nothing was saturated. */
  lemma ReversedChainDeadlocks(a: Id, b: Id, c: Id) returns (turns: seq<Turn>)
    requires a != b && a != c && b != c
    ensures ValidJob(ReversedJob(a, b, c)) && UsableLimit(ReversedJob(a, b, c)) && NothingSaturates(turns)
    ensures RunTurns(ReversedJob(a, b, c), turns)
        == Some(Exited(Deadlock, RunState({}, map[], map[a := Failure, b := Skipped, c := Verdict.Cancelled], [a])))
  {
    hide ValidJob, Possible, TurnStep, Settled, RunTurns, InitialRun, ReversedJob;
    var job := ReversedJob(a, b, c);
    ReversedJobIsValid(a, b, c);
    JobTables(job);
    var first, second := Turn(0, {}, [(a, Raised)], 0), Turn(0, {}, [], 0);
    var s1 := ReversedFirstTurn(a, b, c, first);
    ReversedSecondTurn(a, b, c, s1, second);
    ReversedLimit(a, b, c);
    RunStarts(job);
    TurnAppended(job, [], InitialRun(job), first);
    TurnAppended(job, [] + [first], s1, second);
    turns := [] + [first] + [second];
  }

  lemma ReversedLimit(a: Id, b: Id, c: Id)
    ensures UsableLimit(ReversedJob(a, b, c))
  {
  }

  lemma ReversedLaunch(a: Id, b: Id, c: Id)
    requires a != b && a != c && b != c
    ensures var job := ReversedJob(a, b, c);
            LaunchUpTo(job, InitialRun(job), 3, 0, {}) == RunState({b, c}, map[a := None], map[], [a])
  {
    var job := ReversedJob(a, b, c);
    var i := InitialRun(job);
    assert i.pending == {a, b, c};
    assert job.ids[0] == c && job.ids[1] == b && job.ids[2] == a;
    assert LaunchUpTo(job, i, 0, 0, {}) == i;
    assert job.deps[c][0] in job.deps[c] && job.deps[b][0] in job.deps[b];
    assert LaunchUpTo(job, i, 1, 0, {}) == i;
    assert LaunchUpTo(job, i, 2, 0, {}) == i;
    assert {a, b, c} - {a} == {b, c};
  }

  lemma ReversedFirstTurn(a: Id, b: Id, c: Id, turn: Turn) returns (s: RunState)
    requires a != b && a != c && b != c && turn == Turn(0, {}, [(a, Raised)], 0)
    ensures s == RunState({b, c}, map[], map[a := Failure], [a])
    ensures var job := ReversedJob(a, b, c);
            Possible(job, InitialRun(job), turn) && Settled(TurnStep(job, InitialRun(job), turn)) == Going(s)
  {
    hide SkipUpTo, LaunchUpTo, InitialRun;
    var job := ReversedJob(a, b, c);
    InitialHasNoResults(job);
    assert job.ids[0] in InitialRun(job).pending;
    NothingToSkip(job, InitialRun(job), 3);
    ReversedLaunch(a, b, c);
    var m := RunState({b, c}, map[a := None], map[], [a]);
    assert Launched(job, InitialRun(job), turn) == m;
    assert a in m.running;
    s := Collect(m, a, Raised);
    assert m.running - {a} == map[];
    assert turn.done[1..] == [];
    assert CollectAll(m, turn.done) == CollectAll(s, []);
  }

  lemma InitialHasNoResults(job: Job)
    ensures InitialRun(job).results == map[] && forall t :: t in job.ids ==> t in InitialRun(job).pending
  {
  }

  lemma ReversedSecondTurn(a: Id, b: Id, c: Id, s: RunState, turn: Turn)
    requires a != b && a != c && b != c && turn == Turn(0, {}, [], 0)
    requires s == RunState({b, c}, map[], map[a := Failure], [a])
    ensures var job := ReversedJob(a, b, c);
            Possible(job, s, turn)
            && Settled(TurnStep(job, s, turn)) == Exited(Deadlock,
                RunState({}, map[], map[a := Failure, b := Skipped, c := Verdict.Cancelled], [a]))
  {
    var job := ReversedJob(a, b, c);
    assert job.ids[0] == c && job.ids[1] == b && job.ids[2] == a;
    assert SkipUpTo(job, s, 0) == s;
    assert SkipUpTo(job, s, 1) == s;
    assert Unsuccessful(s.results, job.deps[b][0]);
    var w := RunState({c}, map[], map[a := Failure, b := Skipped], [a]);
    assert SkipUpTo(job, s, 2) == w;
    assert SkipUpTo(job, s, 3) == w;
    assert job.deps[c][0] in job.deps[c];
    assert LaunchUpTo(job, w, 0, 0, {}) == w;
    assert LaunchUpTo(job, w, 1, 0, {}) == w;
    assert LaunchUpTo(job, w, 2, 0, {}) == w;
    assert LaunchUpTo(job, w, 3, 0, {}) == w;
    assert AbortAll(w).results == map[a := Failure, b := Skipped, c := Verdict.Cancelled];
  }
}

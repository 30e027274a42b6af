/**
 * What the Python launch sweep submits: in plan order, every ready task up to the limit; a refused
 * submit ends its task without taking a slot.
 */
module RuntimeLaunches {
  import opened Collections
  import opened Graphs
  import opened TaskGraphs
  import opened RuntimeSteps
  import opened RuntimeSafety
  import opened RuntimeProgress
  import opened RuntimeDeadlines

  /** Pending tasks all of whose dependencies succeeded. */
  ghost function ReadyTasks(job: Job, s: RunState): set<Id> {
    set t | t in s.pending && t in job.deps && forall d :: d in job.deps[t] ==> d in s.results && s.results[d] == Success
  }

  /** The earlier submits leave a slot for the candidate. */
  ghost predicate Reached(job: Job, inUse: nat, ready: seq<Id>, taken: set<Id>, i: nat)
    requires i <= |ready|
  {
    job.maxConcurrency.Some? ==> inUse + |Only(ready[..i], taken)| < job.maxConcurrency.value
  }

  /** What became of a candidate: still waiting, refused by the pool, or submitted. */
  ghost predicate Handled(job: Job, m: RunState, taken: set<Id>, saturated: set<Id>, t: Id, reached: bool) {
    if !reached then t in m.pending && t !in taken
    else if t in saturated then t !in m.pending && t !in taken && t in m.results && m.results[t] == Timeout
    else t !in m.pending && t in taken && t in m.running
  }

  ghost predicate AllHandled(job: Job, m: RunState, inUse: nat, ready: seq<Id>, taken: set<Id>, saturated: set<Id>) {
    forall i :: 0 <= i < |ready| ==>
      Handled(job, m, taken, saturated, ready[i], Reached(job, inUse, ready, taken, i))
  }

  /** Exactly the taken candidates are new in the running table, and submitted in order. */
  ghost predicate RunsTaken(w: RunState, m: RunState, ready: seq<Id>, taken: set<Id>) {
    && (forall t :: t in taken ==> t in ready)
    && m.submitted == w.submitted + Only(ready, taken)
    && m.running.Keys == w.running.Keys + taken
    && |m.running| == |w.running| + |Only(ready, taken)|
  }

  /** Only candidates leave the pending table, and only with a timeout get a result. */
  ghost predicate OthersKept(w: RunState, m: RunState, ready: seq<Id>) {
    && (forall t :: t !in ready ==> (t in m.pending <==> t in w.pending))
    && (forall t :: t !in ready ==> (t in m.results <==> t in w.results))
    && (forall t :: t in w.results ==> t in m.results && m.results[t] == w.results[t])
    && (forall t :: t in m.results && t !in w.results ==> m.results[t] == Timeout)
  }

  /** Candidates are taken in order while there is room; nothing else changes. */
  ghost predicate SweepsGreedily(job: Job, w: RunState, m: RunState, ready: seq<Id>, taken: set<Id>,
      saturated: set<Id>) {
    AllHandled(job, m, |w.running|, ready, taken, saturated) && RunsTaken(w, m, ready, taken) && OthersKept(w, m, ready)
  }

  // ----- one candidate more

  lemma InLonger(ready: seq<Id>, t: Id)
    ensures forall u :: u in ready + [t] <==> u in ready || u == t
  {
  }

  lemma ReachedStays(job: Job, inUse: nat, ready: seq<Id>, taken: set<Id>, t: Id, i: nat)
    requires i <= |ready| && t !in ready
    ensures Reached(job, inUse, ready + [t], taken, i) == Reached(job, inUse, ready, taken, i)
    ensures Reached(job, inUse, ready + [t], taken + {t}, i) == Reached(job, inUse, ready, taken, i)
  {
    assert (ready + [t])[..i] == ready[..i];
    assert forall x :: x in ready[..i] ==> x in ready;
    OnlySame(ready[..i], taken, taken + {t});
  }

  lemma OnlyOneMore(ready: seq<Id>, taken: set<Id>, t: Id)
    requires t !in ready && t !in taken
    ensures Only(ready + [t], taken + {t}) == Only(ready, taken) + [t]
    ensures Only(ready + [t], taken) == Only(ready, taken)
  {
    OnlySnoc(ready, t, taken + {t});
    OnlySnoc(ready, t, taken);
    OnlySame(ready, taken, taken + {t});
  }

  /** The sweep stands at its limit exactly when no further candidate is reached. */
  lemma LimitReached(job: Job, w: RunState, m: RunState, ready: seq<Id>, taken: set<Id>)
    requires RunsTaken(w, m, ready, taken)
    ensures AtCap(job, m.running) <==> !Reached(job, |w.running|, ready, taken, |ready|)
  {
    assert ready[..|ready|] == ready;
  }

  /** The earlier candidates stay handled when one more is looked at. */
  lemma HandledAlso(job: Job, m: RunState, r: RunState, inUse: nat, ready: seq<Id>, taken: set<Id>, more: set<Id>,
      saturated: set<Id>, t: Id)
    requires AllHandled(job, m, inUse, ready, taken, saturated) && t !in ready && t !in taken
    requires more == taken || more == taken + {t}
    requires forall u :: u != t ==>
        (u in r.pending <==> u in m.pending) && (u in r.running <==> u in m.running) && (u in r.results <==> u in m.results)
    requires forall u :: u != t && u in m.results ==> u in r.results && r.results[u] == m.results[u]
    requires Handled(job, r, more, saturated, t, Reached(job, inUse, ready, taken, |ready|))
    ensures AllHandled(job, r, inUse, ready + [t], more, saturated)
  {
    hide Reached;
    var longer := ready + [t];
    ReachedStays(job, inUse, ready, taken, t, |ready|);
    forall i | 0 <= i < |longer|
      ensures Handled(job, r, more, saturated, longer[i], Reached(job, inUse, longer, more, i))
    {
      if i < |ready| {
        ReachedStays(job, inUse, ready, taken, t, i);
        assert longer[i] == ready[i] && ready[i] in ready;
        assert Handled(job, m, taken, saturated, ready[i], Reached(job, inUse, ready, taken, i));
      }
    }
  }

  /** A candidate that is not submitted leaves the running table alone. */
  lemma RunsTakenSame(w: RunState, m: RunState, ready: seq<Id>, taken: set<Id>, t: Id)
    requires RunsTaken(w, m, ready, taken) && t !in ready
    ensures RunsTaken(w, m, ready + [t], taken)
  {
    InLonger(ready, t);
    OnlyOneMore(ready, taken, t);
  }

  lemma RunsTakenMore(w: RunState, m: RunState, r: RunState, ready: seq<Id>, taken: set<Id>, t: Id,
      deadline: Option<int>)
    requires RunsTaken(w, m, ready, taken) && t !in ready && t !in taken && t !in w.running
    requires r.running == m.running[t := deadline] && r.submitted == m.submitted + [t]
    ensures RunsTaken(w, r, ready + [t], taken + {t})
  {
    hide Only, Reached;
    InLonger(ready, t);
    OnlyOneMore(ready, taken, t);
    NotRunningYet(w.running.Keys, m.running.Keys, taken, t);
    OneMoreRunning(m.running, t, deadline);
    Appended(w.submitted, Only(ready, taken), t);
  }

  lemma NotRunningYet(before: set<Id>, after: set<Id>, taken: set<Id>, t: Id)
    requires after == before + taken && t !in before && t !in taken
    ensures t !in after && after + {t} == before + (taken + {t})
  {
  }

  lemma Appended(a: seq<Id>, b: seq<Id>, t: Id)
    ensures (a + b) + [t] == a + (b + [t])
  {
  }

  lemma OthersKeptMore(w: RunState, m: RunState, r: RunState, ready: seq<Id>, t: Id)
    requires OthersKept(w, m, ready)
    requires r.pending == m.pending || r.pending == m.pending - {t}
    requires r.results == m.results || (t !in w.results && r.results == m.results[t := Timeout])
    ensures OthersKept(w, r, ready + [t])
  {
    InLonger(ready, t);
  }

  lemma NotTakenYet(w: RunState, m: RunState, ready: seq<Id>, taken: set<Id>, t: Id)
    requires RunsTaken(w, m, ready, taken) && t !in ready
    ensures t !in taken
  {
  }

  lemma WaitsAtLimit(job: Job, w: RunState, m: RunState, ready: seq<Id>, taken: set<Id>, saturated: set<Id>, t: Id)
    requires SweepsGreedily(job, w, m, ready, taken, saturated) && t !in ready && t in m.pending
    requires AtCap(job, m.running)
    ensures SweepsGreedily(job, w, m, ready + [t], taken, saturated)
  {
    hide Reached, AllHandled, AtCap, RunsTaken, OthersKept;
    NotTakenYet(w, m, ready, taken, t);
    LimitReached(job, w, m, ready, taken);
    HandledAlso(job, m, m, |w.running|, ready, taken, taken, saturated, t);
    RunsTakenSame(w, m, ready, taken, t);
    OthersKeptMore(w, m, m, ready, t);
  }

  lemma Refused(job: Job, w: RunState, m: RunState, ready: seq<Id>, taken: set<Id>, saturated: set<Id>, t: Id)
    requires SweepsGreedily(job, w, m, ready, taken, saturated) && t !in ready && t !in w.results
    requires !AtCap(job, m.running) && t in saturated
    ensures SweepsGreedily(job, w, m.(pending := m.pending - {t}, results := m.results[t := Timeout]), ready + [t],
        taken, saturated)
  {
    hide Reached, AllHandled, AtCap, RunsTaken, OthersKept;
    var r := m.(pending := m.pending - {t}, results := m.results[t := Timeout]);
    NotTakenYet(w, m, ready, taken, t);
    LimitReached(job, w, m, ready, taken);
    HandledAlso(job, m, r, |w.running|, ready, taken, taken, saturated, t);
    RunsSame(w, m, r, ready, taken);
    RunsTakenSame(w, r, ready, taken, t);
    OthersKeptMore(w, m, r, ready, t);
  }

  lemma RunsSame(w: RunState, m: RunState, r: RunState, ready: seq<Id>, taken: set<Id>)
    requires RunsTaken(w, m, ready, taken) && r.running == m.running && r.submitted == m.submitted
    ensures RunsTaken(w, r, ready, taken)
  {
  }

  lemma Taken(job: Job, w: RunState, m: RunState, ready: seq<Id>, taken: set<Id>, saturated: set<Id>, t: Id,
      deadline: Option<int>)
    requires SweepsGreedily(job, w, m, ready, taken, saturated) && t !in ready && t !in w.running
    requires !AtCap(job, m.running) && t !in saturated
    ensures SweepsGreedily(job, w,
        m.(pending := m.pending - {t}, running := m.running[t := deadline], submitted := m.submitted + [t]),
        ready + [t], taken + {t}, saturated)
  {
    hide Reached, AllHandled, AtCap, RunsTaken, OthersKept;
    var r := m.(pending := m.pending - {t}, running := m.running[t := deadline], submitted := m.submitted + [t]);
    NotTakenYet(w, m, ready, taken, t);
    LimitReached(job, w, m, ready, taken);
    HandledAlso(job, m, r, |w.running|, ready, taken, taken + {t}, saturated, t);
    RunsTakenMore(w, m, r, ready, taken, t, deadline);
    OthersKeptMore(w, m, r, ready, t);
  }

  lemma OneMoreRunning(running: map<Id, Option<int>>, t: Id, deadline: Option<int>)
    requires t !in running
    ensures |running[t := deadline]| == |running| + 1
    ensures running[t := deadline].Keys == running.Keys + {t}
  {
    assert |running[t := deadline].Keys| == |running[t := deadline]| && |running.Keys| == |running|;
  }

  /** Refusals make nothing ready and nothing unready. */
  lemma SameReadiness(w: RunState, m: RunState, deps: seq<Id>)
    requires forall t :: t in w.results ==> t in m.results && m.results[t] == w.results[t]
    requires forall t :: t in m.results && t !in w.results ==> m.results[t] == Timeout
    ensures AllSucceeded(m.results, deps) <==> AllSucceeded(w.results, deps)
  {
  }

  // ----- the whole sweep

  ghost predicate Tables(job: Job, w: RunState) {
    && Distinct(job.ids) && (forall t :: t in job.ids ==> t in job.deps && t in job.timeouts)
    && forall t :: t in w.pending ==> t !in w.running && t !in w.results
  }

  lemma SweepStep(job: Job, w: RunState, m: RunState, ready: seq<Id>, taken: set<Id>, saturated: set<Id>, t: Id,
      now: int) returns (more: set<Id>)
    requires Tables(job, w) && t in job.deps && t in job.timeouts && t !in ready
    requires SweepsGreedily(job, w, m, ready, taken, saturated)
    ensures var r := if AtCap(job, m.running) then m else LaunchOne(job, m, t, now, saturated);
            SweepsGreedily(job, w, r, if t in ReadyTasks(job, w) then ready + [t] else ready, more, saturated)
  {
    hide Distinct, TaskDeadline, AllHandled, RunsTaken, AtCap, AllSucceeded;
    more := taken;
    SameReadiness(w, m, job.deps[t]);
    ReadyIff(job, w, t);
    if t in ReadyTasks(job, w) {
      if AtCap(job, m.running) {
        WaitsAtLimit(job, w, m, ready, taken, saturated, t);
      } else if t in saturated {
        Refused(job, w, m, ready, taken, saturated, t);
      } else {
        Taken(job, w, m, ready, taken, saturated, t, TaskDeadline(job, t, now));
        more := taken + {t};
      }
    }
  }

  lemma ReadyIff(job: Job, w: RunState, t: Id)
    requires t in job.deps
    ensures t in ReadyTasks(job, w) <==> t in w.pending && AllSucceeded(w.results, job.deps[t])
  {
  }

  lemma {:induction false} LaunchIsGreedy(job: Job, w: RunState, n: nat, now: int, saturated: set<Id>)
      returns (taken: set<Id>)
    requires Tables(job, w) && n <= |job.ids|
    ensures SweepsGreedily(job, w, LaunchUpTo(job, w, n, now, saturated), Only(job.ids[..n], ReadyTasks(job, w)), taken,
        saturated)
  {
    hide SweepsGreedily, ReadyTasks, LaunchOne, AtCap, Distinct;
    if n == 0 {
      taken := {};
      NothingSwept(job, w, saturated);
    } else {
      var t, front := job.ids[n - 1], job.ids[..n - 1];
      assert job.ids[..n] == front + [t];
      var before := LaunchIsGreedy(job, w, n - 1, now, saturated);
      DistinctFresh(job.ids, n - 1);
      OnlySnoc(front, t, ReadyTasks(job, w));
      var m := LaunchUpTo(job, w, n - 1, now, saturated);
      taken := SweepStep(job, w, m, Only(front, ReadyTasks(job, w)), before, saturated, t, now);
      assert Only(front, ReadyTasks(job, w)) + [] == Only(front, ReadyTasks(job, w));
    }
  }

  lemma NothingSwept(job: Job, w: RunState, saturated: set<Id>)
    ensures SweepsGreedily(job, w, w, [], {}, saturated)
  {
  }

  // ----- over whole runs

  /** The tables of a turn after its skips. */
  ghost function AtLaunch(job: Job, s: RunState): RunState
    requires ValidJob(job)
  {
    JobTables(job);
    Swept(job, s)
  }

  /** The tables of a turn after its launches, when it waits. */
  ghost function AtWait(job: Job, s: RunState, turn: Turn): RunState
    requires ValidJob(job)
  {
    JobTables(job);
    Launched(job, s, turn)
  }

  /**
   * Every launch of every run is the greedy one: of the tasks that are ready after the skips, in plan
   * order, each is submitted as long as the limit leaves a slot, unless the pool refuses it, and then
   * it ends as a timeout and takes no slot.
   */
  lemma RunLaunchesGreedily(job: Job, turns: seq<Turn>, s: RunState, turn: Turn) returns (taken: set<Id>)
    requires ValidJob(job) && RunTurns(job, turns) == Some(Going(s))
    ensures var w := AtLaunch(job, s);
            && w.running == s.running && w.submitted == s.submitted
            && SweepsGreedily(job, w, AtWait(job, s, turn), Only(job.ids, ReadyTasks(job, w)), taken, turn.saturated)
  {
    hide ValidJob, Accounted, RunTurns, SkipUpTo, LaunchUpTo, SweepsGreedily, ReadyTasks;
    JobTables(job);
    RunAccounted(job, turns);
    SkipAccounted(job, s, |job.ids|);
    JobDistinct(job);
    AccountedTables(job, Swept(job, s));
    taken := LaunchIsGreedy(job, Swept(job, s), |job.ids|, turn.launchNow, turn.saturated);
    assert job.ids[..|job.ids|] == job.ids;
  }

  lemma JobDistinct(job: Job)
    requires ValidJob(job)
    ensures Distinct(job.ids)
  {
  }

  lemma AccountedTables(job: Job, w: RunState)
    requires Accounted(job, w) && Distinct(job.ids) && forall t :: t in job.ids ==> t in job.deps && t in job.timeouts
    ensures Tables(job, w)
  {
    hide Distinct;
  }

  /** A task left pending although it is ready was not reached. */
  lemma ReadyLeftMeansFull(job: Job, w: RunState, m: RunState, taken: set<Id>, saturated: set<Id>, t: Id)
    requires SweepsGreedily(job, w, m, Only(job.ids, ReadyTasks(job, w)), taken, saturated)
    requires t in job.ids && t in ReadyTasks(job, w) && t in m.pending
    ensures AtCap(job, m.running)
  {
    hide ReadyTasks, OthersKept;
    var ready := Only(job.ids, ReadyTasks(job, w));
    assert t in ready;
    var i :| 0 <= i < |ready| && ready[i] == t;
    assert Handled(job, m, taken, saturated, ready[i], Reached(job, |w.running|, ready, taken, i));
    assert !Reached(job, |w.running|, ready, taken, i);
    OnlyPrefix(ready, i, taken);
  }

  lemma {:induction false} OnlyPrefix(s: seq<Id>, i: nat, keep: set<Id>)
    requires i <= |s|
    ensures |Only(s[..i], keep)| <= |Only(s, keep)|
  {
    if i > 0 {
      assert s[..i][1..] == s[1..][..i - 1];
      OnlyPrefix(s[1..], i - 1, keep);
    }
  }

  /**
   * Work conservation: whenever a run waits, the concurrency limit is reached or no pending task is
   * ready.
   */
  lemma WaitsLoaded(job: Job, turns: seq<Turn>, s: RunState, turn: Turn)
    requires ValidJob(job) && RunTurns(job, turns) == Some(Going(s))
    ensures var m := AtWait(job, s, turn);
            (job.maxConcurrency.Some? && |m.running| >= job.maxConcurrency.value) || ReadyTasks(job, m) == {}
  {
    hide ValidJob, RunTurns, SkipUpTo, LaunchUpTo, Accounted, SweepsGreedily, ReadyTasks;
    JobTables(job);
    var w, m := Swept(job, s), Launched(job, s, turn);
    var taken := RunLaunchesGreedily(job, turns, s, turn);
    RunAccounted(job, turns);
    TurnLaunches(job, s, turn);
    if t :| t in ReadyTasks(job, m) {
      ReadyStaysReady(job, w, m, Only(job.ids, ReadyTasks(job, w)), taken, turn.saturated, t);
      KnownTask(job, m, t);
      ReadyLeftMeansFull(job, w, m, taken, turn.saturated, t);
    }
  }

  lemma KnownTask(job: Job, m: RunState, t: Id)
    requires ValidJob(job) && t in ReadyTasks(job, m)
    ensures t in job.ids && t in m.pending
  {
  }

  lemma ReadyStaysReady(job: Job, w: RunState, m: RunState, ready: seq<Id>, taken: set<Id>, saturated: set<Id>, t: Id)
    requires SweepsGreedily(job, w, m, ready, taken, saturated) && t in ReadyTasks(job, m)
    requires forall u :: u in ready ==> u in ReadyTasks(job, w)
    ensures t in ReadyTasks(job, w)
  {
    hide Handled;
  }
}

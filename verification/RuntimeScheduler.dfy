/** The Python scheduler in its own form: tables updated in place by the methods its loop calls. */
module RuntimeSchedulers {
  import opened Collections
  import opened Graphs
  import opened TaskGraphs
  import opened RuntimeSteps
  import opened RuntimeSafety
  import opened RuntimeProgress
  import opened RuntimeResults

  class TaskScheduler {
    const job: Job
    var pending: set<Id>
    var running: map<Id, Option<int>>
    var results: map<Id, Verdict>
    var submitted: seq<Id>

    function View(): RunState
      reads this
    {
      RunState(pending, running, results, submitted)
    }

    ghost predicate Typed() {
      (forall t :: t in job.ids <==> t in job.deps) && (forall t :: t in job.ids <==> t in job.timeouts)
    }

    constructor (job: Job)
      ensures this.job == job && View() == InitialRun(job)
    {
      this.job := job;
      pending, running, results, submitted := (set t | t in job.ids), map[], map[], [];
    }

    /** Records a verdict for a task that leaves the pending table. */
    method FinishPending(t: Id, v: Verdict)
      modifies this`pending, this`results
      ensures View() == old(View()).(pending := old(pending) - {t}, results := old(results)[t := v])
    {
      results := results[t := v];
      pending := pending - {t};
    }

    /** Cascades: a pending task with an unsuccessful dependency is skipped, in plan order. */
    method SkipBlocked()
      requires Typed()
      modifies this`pending, this`results
      ensures View() == Swept(job, old(View()))
    {
      ghost var s := View();
      for i := 0 to |job.ids|
        invariant View() == SkipUpTo(job, s, i)
      {
        var t := job.ids[i];
        if t in pending {
          for k := 0 to |job.deps[t]|
            invariant View() == SkipUpTo(job, s, i)
            invariant forall j :: 0 <= j < k ==> !Unsuccessful(results, job.deps[t][j])
          {
            if Unsuccessful(results, job.deps[t][k]) {
              FinishPending(t, Skipped);
              break;
            }
          }
        }
      }
    }

    method Submit(t: Id, now: int)
      requires t in job.timeouts
      modifies this`pending, this`running, this`submitted
      ensures View() == old(View()).(pending := old(pending) - {t},
          running := old(running)[t := TaskDeadline(job, t, now)],
                                     submitted := old(submitted) + [t])
    {
      submitted := submitted + [t];
      running := running[t := TaskDeadline(job, t, now)];
      pending := pending - {t};
    }

    /** Launches ready tasks in plan order up to the limit; a saturated submit ends its task as a timeout. */
    method LaunchReady(now: int, saturated: set<Id>) returns (late: bool)
      requires Typed()
      modifies this`pending, this`running, this`results, this`submitted
      ensures late <==> DeadlinePassed(job, now)
      ensures late ==> View() == old(View())
      ensures !late ==> View() == LaunchUpTo(job, old(View()), |job.ids|, now, saturated)
    {
      late := DeadlinePassed(job, now);
      if late {
        return;
      }
      ghost var s := View();
      for i := 0 to |job.ids|
        invariant View() == LaunchUpTo(job, s, i, now, saturated)
      {
        if AtCap(job, running) {
          FullStaysFull(job, s, i, |job.ids|, now, saturated);
          break;
        }
        var t := job.ids[i];
        if t in pending && AllSucceeded(results, job.deps[t]) {
          if t in saturated {
            FinishPending(t, Timeout);
          } else {
            Submit(t, now);
          }
        }
      }
    }

    /** Pops the future before looking at how it ended. */
    method CollectOne(t: Id, output: Output) returns (overBudget: bool)
      modifies this`running, this`results
      ensures overBudget <==> output == RaisedBudget
      ensures View() == if overBudget then DropOverBudget(old(View()), t) else Collect(old(View()), t, output)
    {
      running := running - {t};
      if output == RaisedBudget {
        return true;
      }
      results := results[t := VerdictOf(output)];
      return false;
    }

    /** Ends every running task whose own deadline has passed. */
    method Expire(now: int)
      modifies this`running, this`results
      ensures View() == ExpireAll(old(View()), now)
    {
      ghost var s := View();
      var todo := running.Keys;
      while todo != {}
        invariant todo <= s.running.Keys && pending == s.pending && submitted == s.submitted
        invariant forall t :: t in running <==> t in s.running && (t in todo || !Expired(s.running, t, now))
        invariant forall t :: t in running ==> running[t] == s.running[t]
        invariant forall t :: t in results <==>
            t in s.results || (t in s.running && t !in todo && Expired(s.running, t, now))
        invariant forall t :: t in results ==>
                    results[t] == if t in s.running && t !in todo && Expired(s.running, t, now)
                                  then Timeout else s.results[t]
        decreases todo
      {
        var t :| t in todo;
        if Expired(running, t, now) {
          results := results[t := Timeout];
          running := running - {t};
        }
        todo := todo - {t};
      }
      ExpiredTables(s, now, running, results);
    }

    /** One wait: collect what is done, or expire what is late. */
    method Wait(done: seq<(Id, Output)>, now: int) returns (overBudget: Option<Id>)
      modifies this`running, this`results
      ensures var p := if done == [] then Going(ExpireAll(old(View()), now)) else CollectAll(old(View()), done);
              View() == p.state && (if overBudget.Some? then p.Exited? && p.exit == OverBudget(overBudget.value) else p.Going?)
    {
      overBudget := None;
      ghost var s := View();
      for i := 0 to |done|
        invariant CollectAll(s, done) == CollectAll(View(), done[i..])
      {
        assert done[i..][1..] == done[i + 1..];
        var failed := CollectOne(done[i].0, done[i].1);
        if failed {
          return Some(done[i].0);
        }
      }
      if done == [] {
        Expire(now);
      }
    }

    /** Everything still running or pending ends as cancelled. */
    method Abort()
      modifies this`pending, this`running, this`results
      ensures View() == AbortAll(old(View()))
    {
      ghost var s := View();
      results := results + (map t | t in running.Keys + pending :: Verdict.Cancelled);
      pending, running := {}, map[];
      assert View() == AbortAll(s);
    }

    /** One iteration of the loop, or what follows its end; an exit by error aborts what is left. */
    method Step(turn: Turn) returns (exit: Option<Exit>)
      requires Typed()
      modifies this`pending, this`running, this`results, this`submitted
      ensures var p := Settled(TurnStep(job, old(View()), turn));
              View() == p.state && (if exit.Some? then p == Exited(exit.value, View()) else p.Going?)
    {
      hide SkipUpTo, LaunchUpTo, ExpireAll, CollectAll, AbortAll;
      var over := pending == {} && running == map[];
      if !over {
        SkipBlocked();
        var late := LaunchReady(turn.launchNow, turn.saturated);
        if late {
          exit := Some(RunTimedOut);
        } else if running != map[] {
          var overBudget := Wait(turn.done, turn.now);
          exit := if overBudget.Some? then Some(OverBudget(overBudget.value)) else None;
        } else if pending != {} {
          exit := Some(Deadlock);
        } else {
          over := true;
        }
      }
      if over {
        if !DeadlinePassed(job, turn.now) || !AnyTimeout(results) {
          return Some(Finished);
        }
        exit := Some(RunTimedOut);
      }
      if exit.Some? {
        Abort();
      }
    }

    /**
     * The whole run. The environment is free within what a wait can return; the loop ends after at
     * most one turn more than there are tasks.
     */
    method Execute() returns (exit: Exit, ghost turns: seq<Turn>)
      requires ValidJob(job) && View() == InitialRun(job)
      modifies this`pending, this`running, this`results, this`submitted
      ensures RunTurns(job, turns) == Some(Exited(exit, View()))
      ensures results.Keys == if exit.OverBudget? then job.deps.Keys - {exit.task} else job.deps.Keys
    {
      hide ValidJob, Possible, TurnStep, Settled, IsDag, InitialRun;
      JobTables(job);
      RunStarts(job);
      turns := [];
      var ended := None;
      while ended.None?
        invariant RunTurns(job, turns) == Some(if ended.Some? then Exited(ended.value, View()) else Going(View()))
        decreases |job.ids| + 1 - |turns|, ended.None?
      {
        var turn := NextTurn();
        TurnAppended(job, turns, View(), turn);
        TurnsBounded(job, turns + [turn]);
        ended := Step(turn);
        turns := turns + [turn];
      }
      exit := ended.value;
      RunEnds(job, turns, exit, View());
    }

    /** Whatever turn the environment chooses, as long as a wait can return it. */
    method NextTurn() returns (turn: Turn)
      requires Typed()
      ensures Possible(job, View(), turn)
    {
      turn := *;
      if !Possible(job, View(), turn) {
        var running := Launched(job, View(), turn.(done := [])).running;
        if running == map[] {
          turn := turn.(done := []);
        } else {
          assert running.Keys != {};
          var t :| t in running.Keys;
          turn := turn.(done := [(t, Value)]);
        }
      }
    }
  }

  /** The tables that expiry leaves, entry by entry. */
  lemma ExpiredTables(s: RunState, now: int, running: map<Id, Option<int>>, results: map<Id, Verdict>)
    requires forall t :: t in running <==> t in s.running && !Expired(s.running, t, now)
    requires forall t :: t in running ==> running[t] == s.running[t]
    requires forall t :: t in results <==> t in s.results || (t in s.running && Expired(s.running, t, now))
    requires forall t :: t in results ==>
               results[t] == if t in s.running && Expired(s.running, t, now) then Timeout else s.results[t]
    ensures running == ExpireAll(s, now).running && results == ExpireAll(s, now).results
  {
    hide Expired;
  }

  /** Once the limit is reached the rest of a launch sweep changes nothing. */
  lemma {:induction false} FullStaysFull(job: Job, s: RunState, i: nat, n: nat, now: int, saturated: set<Id>)
    requires i <= n <= |job.ids| && forall t :: t in job.ids ==> t in job.deps && t in job.timeouts
    requires AtCap(job, LaunchUpTo(job, s, i, now, saturated).running)
    ensures LaunchUpTo(job, s, n, now, saturated) == LaunchUpTo(job, s, i, now, saturated)
  {
    if i < n {
      FullStaysFull(job, s, i, n - 1, now, saturated);
    }
  }

  lemma RunEnds(job: Job, turns: seq<Turn>, exit: Exit, s: RunState)
    requires ValidJob(job) && RunTurns(job, turns) == Some(Exited(exit, s))
    ensures s.results.Keys == if exit.OverBudget? then job.deps.Keys - {exit.task} else job.deps.Keys
  {
    if exit.OverBudget? {
      OverBudgetLosesOne(job, turns, Exited(exit, s));
    } else {
      EveryTaskHasResult(job, turns, Exited(exit, s));
    }
  }

  datatype RunReport = RunReport(status: RunStatus, results: map<Id, Verdict>)

  /** The structured form of a run: it never raises, and its status follows the exit. */
  method ExecuteRun(job: Job) returns (report: RunReport, exit: Exit, ghost turns: seq<Turn>)
    requires ValidJob(job)
    ensures RunTurns(job, turns).Some? && RunTurns(job, turns).value.Exited? && exit == RunTurns(job, turns).value.exit
    ensures report.results == RunTurns(job, turns).value.state.results
        && report.status == StatusOf(exit, report.results)
    ensures report.results.Keys == if exit.OverBudget? then job.deps.Keys - {exit.task} else job.deps.Keys
  {
    var scheduler := new TaskScheduler(job);
    exit, turns := scheduler.Execute();
    report := RunReport(StatusOf(exit, scheduler.results), scheduler.results);
  }
}

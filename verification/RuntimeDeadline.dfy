/**
 * Task deadlines of the Python scheduler over whole runs: which limit applies to a running task, and
 * exactly which tasks a wait that times out ends.
 */
module RuntimeDeadlines {
  import opened Collections
  import opened Graphs
  import opened TaskGraphs
  import opened RuntimeSteps
  import opened RuntimeSafety
  import opened RuntimeProgress

  // ----- which limit applies

  function Earlier(a: int, b: Option<int>): int {
    if b.Some? && b.value < a then b.value else a
  }

  /** A task submitted at `at` has used up its time by `now`. */
  predicate TimeIsUp(job: Job, t: Id, at: int, now: int)
    requires t in job.timeouts
  {
    || (job.timeouts[t].Some? && now >= at + job.timeouts[t].value)
    || (job.timeouts[t].None? && job.defaultTimeout.Some? && now >= at + job.defaultTimeout.value)
    || (job.deadline.Some? && now >= job.deadline.value)
  }

  lemma ExpiredMeansTimeIsUp(job: Job, running: map<Id, Option<int>>, t: Id, at: int, now: int)
    requires t in job.timeouts && t in running && running[t] == TaskDeadline(job, t, at)
    ensures Expired(running, t, now) <==> TimeIsUp(job, t, at, now)
  {
  }

  // ----- what one launch adds

  /** The launch adds pending tasks to the running table, with the deadline they get now. */
  ghost predicate LaunchedFrom(job: Job, w: RunState, m: RunState, now: int) {
    && m.pending <= w.pending
    && (forall t :: t in w.running ==> t in m.running && m.running[t] == w.running[t])
    && (forall t :: t in m.running && t !in w.running ==>
          t in w.pending && t in job.timeouts && m.running[t] == TaskDeadline(job, t, now))
    && (forall t :: t in m.submitted <==> t in w.submitted || (t in m.running && t !in w.running))
  }

  /** What is pending has neither been submitted nor is in flight. */
  ghost predicate PendingIsIdle(s: RunState) {
    forall t :: t in s.pending ==> t !in s.running && t !in s.submitted
  }

  lemma LaunchOneFrom(job: Job, w: RunState, m: RunState, t: Id, now: int, saturated: set<Id>)
    requires PendingIsIdle(w) && LaunchedFrom(job, w, m, now) && t in job.deps && t in job.timeouts
    ensures LaunchedFrom(job, w, LaunchOne(job, m, t, now, saturated), now)
  {
    hide AllSucceeded, TaskDeadline;
    assert forall u :: u in m.submitted + [t] <==> u in m.submitted || u == t;
  }

  lemma {:induction false} LaunchFrom(job: Job, w: RunState, n: nat, now: int, saturated: set<Id>)
    requires n <= |job.ids| && forall t :: t in job.ids ==> t in job.deps && t in job.timeouts
    requires PendingIsIdle(w)
    ensures LaunchedFrom(job, w, LaunchUpTo(job, w, n, now, saturated), now)
  {
    hide LaunchedFrom, LaunchOne, PendingIsIdle, AtCap;
    if n == 0 {
      LaunchedFromItself(job, w, now);
    } else {
      LaunchFrom(job, w, n - 1, now, saturated);
      LaunchOneFrom(job, w, LaunchUpTo(job, w, n - 1, now, saturated), job.ids[n - 1], now, saturated);
    }
  }

  lemma LaunchedFromItself(job: Job, w: RunState, now: int)
    ensures LaunchedFrom(job, w, w, now)
  {
  }

  lemma AccountedIdle(job: Job, s: RunState)
    requires Accounted(job, s)
    ensures PendingIsIdle(s)
  {
    hide Distinct;
  }

  /** The tables a turn reaches before it waits, against those it started from. */
  lemma TurnLaunches(job: Job, s: RunState, turn: Turn)
    requires Accounted(job, s) && forall t :: t in job.ids ==> t in job.deps && t in job.timeouts
    ensures var m := Launched(job, s, turn);
            && Accounted(job, m)
            && LaunchedFrom(job, s.(pending := Swept(job, s).pending), m, turn.launchNow)
            && Swept(job, s).pending <= s.pending
            && PendingIsIdle(s)
  {
    hide Accounted, SkipUpTo, LaunchUpTo, LaunchedFrom, PendingIsIdle;
    SkipAccounted(job, s, |job.ids|);
    SkipShrinks(job, s, |job.ids|);
    var w := Swept(job, s);
    LaunchAccounted(job, w, |job.ids|, turn.launchNow, turn.saturated);
    AccountedIdle(job, w);
    AccountedIdle(job, s);
    LaunchFrom(job, w, |job.ids|, turn.launchNow, turn.saturated);
    SameTables(job, s, w, Launched(job, s, turn), turn.launchNow);
  }

  lemma SameTables(job: Job, s: RunState, w: RunState, m: RunState, now: int)
    requires w.running == s.running && w.submitted == s.submitted && LaunchedFrom(job, w, m, now)
    ensures LaunchedFrom(job, s.(pending := w.pending), m, now)
  {
  }

  // ----- over whole runs

  /** The clock at the launch of the turn after which the task first was among the submitted ones. */
  ghost function SubmitTime(job: Job, turns: seq<Turn>, t: Id): Option<int>
    requires ValidJob(job)
  {
    if turns == [] then None
    else
      var last := |turns| - 1;
      var before := SubmitTime(job, turns[..last], t);
      if before.Some? then before
      else
        match RunTurns(job, turns)
        case Some(p) => if t in p.state.submitted then Some(turns[last].launchNow) else None
        case None => None
  }

  /** Every running task has the deadline that its submission gave it. */
  ghost predicate DeadlinesKept(job: Job, turns: seq<Turn>, s: RunState)
    requires ValidJob(job)
  {
    && (forall t :: t in s.submitted <==> SubmitTime(job, turns, t).Some?)
    && (forall t :: t in s.running ==>
          t in s.submitted && t in job.timeouts
          && s.running[t] == TaskDeadline(job, t, SubmitTime(job, turns, t).value))
  }

  /** The tables that a wait works on. */
  ghost predicate DeadlinesAtWait(job: Job, turns: seq<Turn>, turn: Turn, m: RunState)
    requires ValidJob(job)
  {
    forall t :: t in m.running ==>
      t in m.submitted && t in job.timeouts
      && m.running[t] == TaskDeadline(job, t,
             if SubmitTime(job, turns, t).Some? then SubmitTime(job, turns, t).value else turn.launchNow)
  }

  lemma WaitDeadlines(job: Job, turns: seq<Turn>, s: RunState, turn: Turn)
    requires ValidJob(job) && Accounted(job, s) && DeadlinesKept(job, turns, s)
    requires forall t :: t in job.ids ==> t in job.deps && t in job.timeouts
    ensures DeadlinesAtWait(job, turns, turn, Launched(job, s, turn))
    ensures forall t :: t in s.submitted ==> t in Launched(job, s, turn).submitted
  {
    hide ValidJob, Accounted, LaunchUpTo, SkipUpTo, SubmitTime, TaskDeadline;
    TurnLaunches(job, s, turn);
    RunningSubmitted(job, s);
  }

  lemma RunningSubmitted(job: Job, s: RunState)
    requires Accounted(job, s)
    ensures forall t :: t in s.running ==> t in s.submitted
    ensures forall t :: t in s.submitted && t !in s.running ==> t in s.results
  {
    hide Distinct;
  }

  lemma {:induction false} CollectKeepsTables(s: RunState, done: seq<(Id, Output)>)
    ensures var r := CollectAll(s, done).state;
            && r.submitted == s.submitted && r.pending == s.pending
            && (forall t :: t in r.running ==> t in s.running && r.running[t] == s.running[t])
            && (forall t :: t in s.running && (forall j :: 0 <= j < |done| ==> done[j].0 != t) ==> t in r.running)
    decreases |done|
  {
    if done != [] && done[0].1 != RaisedBudget {
      CollectKeepsTables(Collect(s, done[0].0, done[0].1), done[1..]);
      assert forall j :: 0 <= j < |done[1..]| ==> done[1..][j] == done[j + 1];
    }
  }

  lemma WaitKeepsTables(m: RunState, turn: Turn)
    ensures var r := WaitStep(m, turn).state;
            r.submitted == m.submitted && forall t :: t in r.running ==> t in m.running && r.running[t] == m.running[t]
  {
    hide CollectAll, ExpireAll, Expired;
    CollectKeepsTables(m, turn.done);
  }

  /** A turn that goes on was a wait on the launched tables. */
  lemma GoingWaits(job: Job, s: RunState, turn: Turn)
    requires forall t :: t in job.ids ==> t in job.deps && t in job.timeouts
    requires TurnStep(job, s, turn).Going?
    ensures TurnStep(job, s, turn) == WaitStep(Launched(job, s, turn), turn)
    ensures Settled(TurnStep(job, s, turn)) == TurnStep(job, s, turn)
  {
    hide SkipUpTo, LaunchUpTo, WaitStep;
  }

  lemma {:induction false} RunDeadlines(job: Job, turns: seq<Turn>, s: RunState)
    requires ValidJob(job) && RunTurns(job, turns) == Some(Going(s))
    ensures DeadlinesKept(job, turns, s)
  {
    hide ValidJob, Accounted, Possible, TurnStep, Settled, WaitStep, LaunchUpTo, SkipUpTo, TaskDeadline;
    if turns == [] {
      StartsIdle(job);
    } else {
      var last := |turns| - 1;
      var before := RunTurns(job, turns[..last]).value.state;
      RunDeadlines(job, turns[..last], before);
      RunAccounted(job, turns[..last]);
      RunAccounted(job, turns);
      RunningSubmitted(job, s);
      JobTables(job);
      SettledGoing(TurnStep(job, before, turns[last]));
      GoingWaits(job, before, turns[last]);
      WaitDeadlines(job, turns[..last], before, turns[last]);
      WaitKeepsTables(Launched(job, before, turns[last]), turns[last]);
    }
  }

  lemma StartsIdle(job: Job)
    ensures InitialRun(job).running == map[] && InitialRun(job).submitted == []
  {
  }

  lemma SettledGoing(p: Point)
    ensures Settled(p).Going? ==> p.Going? && Settled(p) == p
    ensures Settled(p).Exited? ==> p.Exited? && Settled(p).exit == p.exit
  {
    hide AbortAll;
  }

  /**
   * The deadline of a task in flight, on the job's own fields: submission time plus the task's own
   * limit if it has one, else plus the scheduler's default if there is one, and never after the run
   * deadline.
   */
  lemma RunningDeadline(job: Job, turns: seq<Turn>, s: RunState, t: Id)
    requires ValidJob(job) && RunTurns(job, turns) == Some(Going(s)) && t in s.running
    ensures t in job.timeouts && SubmitTime(job, turns, t).Some?
    ensures var at := SubmitTime(job, turns, t).value;
            s.running[t] ==
              if job.timeouts[t].Some? then Some(Earlier(at + job.timeouts[t].value, job.deadline))
              else if job.defaultTimeout.Some? then Some(Earlier(at + job.defaultTimeout.value, job.deadline))
              else job.deadline
  {
    hide ValidJob, RunTurns, SubmitTime;
    RunDeadlines(job, turns, s);
  }

  /**
   * A wait that times out ends exactly the tasks whose time is up: submitted, not over yet, and past
   * their own limit (or the default where they have none) or the run deadline. They end as timeouts;
   * every other one stays in flight.
   */
  lemma TimedOutWaitExpires(job: Job, turns: seq<Turn>, s: RunState, turn: Turn, r: RunState, t: Id)
    requires ValidJob(job) && RunTurns(job, turns) == Some(Going(s))
    requires RunTurns(job, turns + [turn]) == Some(Going(r)) && turn.done == []
    requires t in r.submitted && t !in s.results
    ensures t in job.timeouts && SubmitTime(job, turns + [turn], t).Some?
    ensures if TimeIsUp(job, t, SubmitTime(job, turns + [turn], t).value, turn.now)
            then t !in r.running && t in r.results && r.results[t] == Timeout
            else t in r.running && t !in r.results
  {
    hide ValidJob, Accounted, Possible, TurnStep, Settled, LaunchUpTo, SkipUpTo, TaskDeadline, ExpireAll, Expired,
        TimeIsUp;
    var more := turns + [turn];
    assert more[..|turns|] == turns;
    JobTables(job);
    RunAccounted(job, turns);
    RunDeadlines(job, turns, s);
    SettledGoing(TurnStep(job, s, turn));
    GoingWaits(job, s, turn);
    var m := Launched(job, s, turn);
    TurnLaunches(job, s, turn);
    WaitDeadlines(job, turns, s, turn);
    InFlightAtWait(job, s, m, t, turn.launchNow);
    ExpiredMeansTimeIsUp(job, m.running, t, SubmitTime(job, more, t).value, turn.now);
  }

  /** At the wait, what was submitted and had no result before the turn is in flight. */
  lemma InFlightAtWait(job: Job, s: RunState, m: RunState, t: Id, now: int)
    requires Accounted(job, s) && Accounted(job, m) && m.pending <= s.pending
    requires exists pending :: pending <= s.pending && LaunchedFrom(job, s.(pending := pending), m, now)
    requires t in m.submitted && t !in s.results
    ensures t in m.running && t !in m.results
  {
    hide DeadlinesClamped, WithinCap, Distinct, TaskDeadline;
  }
}

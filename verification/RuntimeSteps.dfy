/**
 * The Python scheduler as a step system. One turn is one iteration of its loop: skip, launch,
 * wait. Time is an integer; the environment says what the clock reads, which submits find the
 * pool saturated, and which futures are done.
 */
module RuntimeSteps {
  import opened Collections
  import opened Graphs
  import opened TaskGraphs

  /** Terminal statuses. */
  datatype Verdict = Success | Failure | Timeout | Cancelled | Skipped

  /** A validated plan with the scheduler's settings. */
  datatype Job = Job(
    ids: seq<Id>,
    deps: map<Id, seq<Id>>,
    timeouts: map<Id, Option<int>>,
    defaultTimeout: Option<int>,
    maxConcurrency: Option<int>,
    deadline: Option<int>)

  ghost predicate ValidJob(job: Job) {
    && Distinct(job.ids)
    && (forall t :: t in job.ids <==> t in job.deps)
    && (forall t :: t in job.ids <==> t in job.timeouts)
    && IsDag(job.deps)
  }

  datatype RunState = RunState(
    pending: set<Id>,
    running: map<Id, Option<int>>,      // in flight, with task deadlines
    results: map<Id, Verdict>,
    submitted: seq<Id>)

  /** How a future ended. */
  datatype Output =
    | Value
    | Verbatim(verdict: Verdict)        // a task result handed through unchanged
    | ErrorValue(isTimeout: bool)       // a mapping with an "error" key
    | Raised
    | RaisedCancelled
    | RaisedBudget

  datatype Turn = Turn(
    launchNow: int,
    saturated: set<Id>,
    done: seq<(Id, Output)>,            // empty: the wait timed out
    now: int)

  datatype Exit = Finished | RunTimedOut | Deadlock | OverBudget(task: Id)

  datatype Point = Going(state: RunState) | Exited(exit: Exit, state: RunState)

  function InitialRun(job: Job): RunState {
    RunState(set t | t in job.ids, map[], map[], [])
  }

  // ----- skipping

  predicate Unsuccessful(results: map<Id, Verdict>, d: Id) {
    d in results && results[d] != Success
  }

  predicate HasUnsuccessful(results: map<Id, Verdict>, deps: seq<Id>) {
    exists i :: 0 <= i < |deps| && Unsuccessful(results, deps[i])
  }

  /** One entry of the sweep over pending tasks. */
  function SkipOne(job: Job, s: RunState, t: Id): RunState
    requires t in job.deps
  {
    if t in s.pending && HasUnsuccessful(s.results, job.deps[t])
    then s.(pending := s.pending - {t}, results := s.results[t := Skipped])
    else s
  }

  function SkipUpTo(job: Job, s: RunState, n: nat): RunState
    requires n <= |job.ids| && forall t :: t in job.ids ==> t in job.deps
  {
    if n == 0 then s else SkipOne(job, SkipUpTo(job, s, n - 1), job.ids[n - 1])
  }

  // ----- launching

  predicate AllSucceeded(results: map<Id, Verdict>, deps: seq<Id>) {
    forall d :: d in deps ==> d in results && results[d] == Success
  }

  predicate AtCap(job: Job, running: map<Id, Option<int>>) {
    job.maxConcurrency.Some? && |running| >= job.maxConcurrency.value
  }

  /** The task's own limit, or else the scheduler's default. */
  function TaskTimeout(job: Job, t: Id): Option<int>
    requires t in job.timeouts
  {
    if job.timeouts[t].Some? then job.timeouts[t] else job.defaultTimeout
  }

  /** The earlier of the task's own limit and the run deadline. */
  function TaskDeadline(job: Job, t: Id, now: int): (r: Option<int>)
    requires t in job.timeouts
    ensures r.None? <==> job.timeouts[t].None? && job.defaultTimeout.None? && job.deadline.None?
    ensures r.Some? && job.timeouts[t].Some? ==> r.value <= now + job.timeouts[t].value
    ensures r.Some? && job.timeouts[t].None? && job.defaultTimeout.Some? ==> r.value <= now + job.defaultTimeout.value
    ensures r.Some? && job.deadline.Some? ==> r.value <= job.deadline.value
    ensures r.Some? ==>
        || r == job.deadline
        || (job.timeouts[t].Some? && r.value == now + job.timeouts[t].value)
        || (job.timeouts[t].None? && job.defaultTimeout.Some? && r.value == now + job.defaultTimeout.value)
  {
    var timeout := TaskTimeout(job, t);
    if timeout.Some? then
      var own := now + timeout.value;
      Some(if job.deadline.Some? && job.deadline.value < own then job.deadline.value else own)
    else job.deadline
  }

  function LaunchOne(job: Job, s: RunState, t: Id, now: int, saturated: set<Id>): RunState
    requires t in job.deps && t in job.timeouts
  {
    if t !in s.pending || !AllSucceeded(s.results, job.deps[t]) then s
    else if t in saturated then s.(pending := s.pending - {t}, results := s.results[t := Timeout])
    else
      s.(pending := s.pending - {t}, running := s.running[t := TaskDeadline(job, t, now)],
          submitted := s.submitted + [t])
  }

  /** The launch sweep; it ends for good once the cap is reached. */
  function LaunchUpTo(job: Job, s: RunState, n: nat, now: int, saturated: set<Id>): RunState
    requires n <= |job.ids| && forall t :: t in job.ids ==> t in job.deps && t in job.timeouts
  {
    if n == 0 then s
    else
      var m := LaunchUpTo(job, s, n - 1, now, saturated);
      if AtCap(job, m.running) then m else LaunchOne(job, m, job.ids[n - 1], now, saturated)
  }

  // ----- waiting

  function VerdictOf(output: Output): Verdict {
    match output
    case Value => Success
    case Verbatim(v) => v
    case ErrorValue(isTimeout) => if isTimeout then Timeout else Failure
    case Raised => Failure
    case RaisedCancelled => Verdict.Cancelled
    case RaisedBudget => Failure
  }

  function Collect(s: RunState, t: Id, output: Output): RunState {
    s.(running := s.running - {t}, results := s.results[t := VerdictOf(output)])
  }

  /** A future that ran out of budget is taken out of the running table before the error propagates. */
  function DropOverBudget(s: RunState, t: Id): RunState {
    s.(running := s.running - {t})
  }

  /** Collects in order; the first budget error ends the run. */
  function CollectAll(s: RunState, done: seq<(Id, Output)>): Point
    decreases |done|
  {
    if done == [] then Going(s)
    else if done[0].1 == RaisedBudget then Exited(OverBudget(done[0].0), DropOverBudget(s, done[0].0))
    else CollectAll(Collect(s, done[0].0, done[0].1), done[1..])
  }

  predicate Expired(running: map<Id, Option<int>>, t: Id, now: int) {
    t in running && running[t].Some? && running[t].value <= now
  }

  function ExpireAll(s: RunState, now: int): (r: RunState)
    ensures r.pending == s.pending && r.submitted == s.submitted
    ensures forall t :: t in r.running <==> t in s.running && !Expired(s.running, t, now)
    ensures forall t :: t in r.running ==> r.running[t] == s.running[t]
    ensures forall t :: t in r.results <==> t in s.results || (t in s.running && Expired(s.running, t, now))
    ensures forall t :: t in s.results && t !in s.running ==> r.results[t] == s.results[t]
    ensures forall t :: t in s.running && Expired(s.running, t, now) ==> r.results[t] == Timeout
  {
    s.(running := map t | t in s.running && !Expired(s.running, t, now) :: s.running[t],
       results := s.results + map t | t in s.running && Expired(s.running, t, now) :: Timeout)
  }

  // ----- aborting

  function AbortAll(s: RunState): RunState {
    RunState({}, map[], s.results + map t | t in s.running.Keys + s.pending :: Verdict.Cancelled, s.submitted)
  }

  // ----- one turn

  function Swept(job: Job, s: RunState): RunState
    requires forall t :: t in job.ids ==> t in job.deps
  {
    SkipUpTo(job, s, |job.ids|)
  }

  predicate DeadlinePassed(job: Job, now: int) {
    job.deadline.Some? && job.deadline.value <= now
  }

  function Launched(job: Job, s: RunState, turn: Turn): RunState
    requires forall t :: t in job.ids ==> t in job.deps && t in job.timeouts
  {
    LaunchUpTo(job, Swept(job, s), |job.ids|, turn.launchNow, turn.saturated)
  }

  predicate AnyTimeout(results: map<Id, Verdict>) {
    exists t :: t in results && results[t] == Timeout
  }

  function WaitStep(s: RunState, turn: Turn): Point {
    if turn.done == [] then Going(ExpireAll(s, turn.now)) else CollectAll(s, turn.done)
  }

  /** The end of the loop: the run deadline may still have been what ended the last tasks. */
  function Concluded(job: Job, s: RunState, now: int): Point {
    Exited(if DeadlinePassed(job, now) && AnyTimeout(s.results) then RunTimedOut else Finished, s)
  }

  /** What one turn does, before any abort; with nothing pending or running the loop is over. */
  function TurnStep(job: Job, s: RunState, turn: Turn): Point
    requires forall t :: t in job.ids ==> t in job.deps && t in job.timeouts
  {
    if s.pending == {} && s.running == map[] then Concluded(job, s, turn.now)
    else if DeadlinePassed(job, turn.launchNow) then Exited(RunTimedOut, Swept(job, s))
    else
      var m := Launched(job, s, turn);
      if m.running != map[] then WaitStep(m, turn)
      else if m.pending != {} then Exited(Deadlock, m)
      else Concluded(job, m, turn.now)
  }

  /** Every exit but the normal one aborts what is left. */
  function Settled(p: Point): Point {
    if p.Exited? && p.exit != Finished then Exited(p.exit, AbortAll(p.state)) else p
  }

  /** The nearest of the task deadlines and the run deadline has passed. */
  predicate NearestPassed(job: Job, running: map<Id, Option<int>>, now: int) {
    DeadlinePassed(job, now) || exists t :: t in running && Expired(running, t, now)
  }

  predicate DistinctDone(done: seq<(Id, Output)>) {
    forall i, j :: 0 <= i < j < |done| ==> done[i].0 != done[j].0
  }

  /** What a wait can return: some futures of the running table, or nothing once a deadline has passed. */
  predicate Possible(job: Job, s: RunState, turn: Turn)
    requires forall t :: t in job.ids ==> t in job.deps && t in job.timeouts
  {
    var running := Launched(job, s, turn).running;
    && DistinctDone(turn.done)
    && (forall i :: 0 <= i < |turn.done| ==> turn.done[i].0 in running)
    && (turn.done == [] && running != map[] ==> NearestPassed(job, running, turn.now))
  }

  /** The point reached after some turns, or None when the run had already ended or a turn was impossible. */
  ghost function RunTurns(job: Job, turns: seq<Turn>): Option<Point>
    requires ValidJob(job)
  {
    if turns == [] then Some(Going(InitialRun(job)))
    else
      var last := |turns| - 1;
      match RunTurns(job, turns[..last])
      case None => None
      case Some(Exited(_, _)) => None
      case Some(Going(s)) =>
        if Possible(job, s, turns[last]) then Some(Settled(TurnStep(job, s, turns[last]))) else None
  }

  /** Adding one possible turn to a run that goes on. */
  lemma TurnAppended(job: Job, turns: seq<Turn>, s: RunState, turn: Turn)
    requires ValidJob(job) && RunTurns(job, turns) == Some(Going(s)) && Possible(job, s, turn)
    ensures RunTurns(job, turns + [turn]) == Some(Settled(TurnStep(job, s, turn)))
  {
    hide Possible, TurnStep, Settled;
    assert (turns + [turn])[..|turns|] == turns;
  }

  lemma RunStarts(job: Job)
    requires ValidJob(job)
    ensures RunTurns(job, []) == Some(Going(InitialRun(job)))
  {
  }
}

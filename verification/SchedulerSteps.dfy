/**
 * The TypeScript scheduler as a step system. One event is one synchronous stretch between
 * awaits: a loop pass, one execution settling, or the abort signal firing.
 */
module SchedulerSteps {
  import opened Collections
  import opened Graphs
  import opened TaskGraphs

  datatype Phase = Looping | Returned | Stalled

  datatype State = State(
    status: map<Id, Status>,
    outcomes: map<Id, TaskOutcome>,
    order: seq<Id>,            // completion order
    running: set<Id>,
    busy: set<Id>,             // agents with a task in flight
    inflight: set<Id>,         // executions that have not resolved yet
    dispatched: seq<Id>,       // every call of the executor, in order
    aborted: bool,
    stopped: bool,
    woken: bool,               // the loop is due for a pass
    phase: Phase)

  datatype Event = Pass | Settle(task: Id, outcome: TaskOutcome) | Abort

  ghost predicate Typed(g: Graph, s: State) {
    WellFormed(g) && forall t :: t in s.status <==> t in g.deps
  }

  function Initial(g: Graph): State {
    State(map t | t in g.deps :: Pending, map[], [], {}, {}, {}, [], false, false, true, Looping)
  }

  // ----- step 1: cancel tasks whose dependencies did not succeed

  predicate IsBlocking(status: map<Id, Status>, d: Id) {
    d in status && IsTerminal(status[d]) && status[d] != Completed
  }

  /** First declared dependency that ended without completing. */
  function FirstBlocking(status: map<Id, Status>, deps: seq<Id>): (r: Option<Id>)
    ensures r.Some? ==> r.value in deps && IsBlocking(status, r.value)
    ensures r.None? ==> forall d :: d in deps ==> !IsBlocking(status, d)
  {
    if deps == [] then None
    else if IsBlocking(status, deps[0]) then Some(deps[0])
    else FirstBlocking(status, deps[1..])
  }

  /** Nothing declared before it ended without completing. */
  lemma {:induction false} FirstBlockingIsFirst(status: map<Id, Status>, deps: seq<Id>, i: nat)
    requires i < |deps| && IsBlocking(status, deps[i]) && forall j :: 0 <= j < i ==> !IsBlocking(status, deps[j])
    ensures FirstBlocking(status, deps) == Some(deps[i])
  {
    if i > 0 {
      assert forall j :: 0 <= j < |deps[1..]| ==> deps[1..][j] == deps[j + 1];
      FirstBlockingIsFirst(status, deps[1..], i - 1);
    }
  }

  function CancelBlocked(s: State, t: Id, reason: TaskError): State {
    s.(status := s.status[t := Cancelled],
       outcomes := s.outcomes[t := Outcome(Cancelled, reason)],
       order := s.order + [t])
  }

  function CancelOne(g: Graph, s: State, t: Id): State
    requires t in s.status && t in g.deps
  {
    if s.status[t] != Pending then s
    else
      match FirstBlocking(s.status, g.deps[t])
      case None => s
      case Some(d) => CancelBlocked(s, t, DependencyError(d, s.status[d]))
  }

  /** The forward pass over the first `n` tasks in insertion order. */
  function CancelUpTo(g: Graph, s: State, n: nat): (r: State)
    requires Typed(g, s) && n <= |g.ids|
    ensures Typed(g, r)
  {
    if n == 0 then s
    else
      CancelOne(g, CancelUpTo(g, s, n - 1), g.ids[n - 1])
  }

  function CancelPass(g: Graph, s: State): (r: State)
    requires Typed(g, s)
    ensures Typed(g, r)
  {
    CancelUpTo(g, s, |g.ids|)
  }

  // ----- step 2: launch ready tasks

  predicate HasRoom(cap: Option<nat>, inUse: nat) {
    cap.None? || inUse < cap.value
  }

  function Start(g: Graph, s: State, t: Id): State
    requires t in g.agents
  {
    s.(status := s.status[t := Running],
       running := s.running + {t},
       busy := s.busy + {g.agents[t]},
       inflight := s.inflight + {t},
       dispatched := s.dispatched + [t])
  }

  function Launch(g: Graph, cap: Option<nat>, s: State, ready: seq<Id>): (r: State)
    requires Typed(g, s) && forall t :: t in ready ==> t in g.deps
    ensures Typed(g, r)
    decreases |ready|
  {
    if ready == [] || !HasRoom(cap, |s.running|) then s
    else if g.agents[ready[0]] in s.busy then Launch(g, cap, s, ready[1..])
    else Launch(g, cap, Start(g, s, ready[0]), ready[1..])
  }

  lemma LaunchEnds(g: Graph, cap: Option<nat>, s: State, ready: seq<Id>)
    requires Typed(g, s) && (forall t :: t in ready ==> t in g.deps) && (ready == [] || !HasRoom(cap, |s.running|))
    ensures Launch(g, cap, s, ready) == s
  {
  }

  lemma LaunchGoesOn(g: Graph, cap: Option<nat>, s: State, ready: seq<Id>, i: nat)
    requires Typed(g, s) && (forall t :: t in ready ==> t in g.deps) && i < |ready| && HasRoom(cap, |s.running|)
    ensures ready[i] in g.agents && ready[i] in s.status
    ensures var m := if g.agents[ready[i]] in s.busy then s else Start(g, s, ready[i]);
            Typed(g, m) && Launch(g, cap, s, ready[i..]) == Launch(g, cap, m, ready[i + 1..])
  {
    assert ready[i..][1..] == ready[i + 1..];
  }

  /** `stoppedNow`: latches the abort flag. */
  function Latch(s: State): State {
    s.(stopped := s.stopped || s.aborted)
  }

  function LaunchPass(g: Graph, cap: Option<nat>, s: State): (r: State)
    requires Typed(g, s)
    ensures Typed(g, r)
  {
    if s.stopped then s else Launch(g, cap, s, ReadyAmong(g.ids, g.deps, s.status))
  }

  // ----- step 5: cooperative teardown

  function TearDownOne(g: Graph, s: State, t: Id): State
    requires t in s.status && t in g.agents
  {
    if IsTerminal(s.status[t]) then s
    else
      CancelBlocked(s, t, RunStopped).(
        running := s.running - {t},
        busy := if s.status[t] == Running then s.busy - {g.agents[t]} else s.busy)
  }

  function TearDownUpTo(g: Graph, s: State, n: nat): (r: State)
    requires Typed(g, s) && n <= |g.ids|
    ensures Typed(g, r)
  {
    if n == 0 then s
    else
      TearDownOne(g, TearDownUpTo(g, s, n - 1), g.ids[n - 1])
  }

  // ----- one pass of the loop

  ghost predicate AllTerminal(s: State) {
    forall t :: t in s.status ==> IsTerminal(s.status[t])
  }

  /** Steps 1 and 2. */
  function Sweep(g: Graph, cap: Option<nat>, s: State): (r: State)
    requires Typed(g, s)
    ensures Typed(g, r)
  {
    LaunchPass(g, cap, Latch(CancelPass(g, s)))
  }

  /** Steps 3 and 5: return, tear down, throw, or wait for the next event. */
  ghost function Conclude(g: Graph, s: State): (r: State)
    requires Typed(g, s)
    ensures Typed(g, r)
  {
    if s.stopped then
      TearDownUpTo(g, s, |g.ids|).(phase := Returned)
    else if s.running == {} then
      s.(phase := if AllTerminal(s) then Returned else Stalled)
    else
      s.(woken := false)
  }

  ghost function LoopPass(g: Graph, cap: Option<nat>, s: State): (r: State)
    requires Typed(g, s)
    ensures Typed(g, r)
  {
    Conclude(g, Sweep(g, cap, s))
  }

  // ----- completions and cancellation

  function SettleTask(g: Graph, s: State, t: Id, o: TaskOutcome): (r: State)
    requires Typed(g, s) && t in s.status
    ensures Typed(g, r)
  {
    var released := s.(running := s.running - {t}, busy := s.busy - {g.agents[t]},
                       inflight := s.inflight - {t}, woken := true);
    if s.status[t] != Running then released
    else released.(status := s.status[t := o.status], outcomes := s.outcomes[t := o], order := s.order + [t])
  }

  /** The abort signal fires at most once; it only wakes the loop. */
  function AbortRun(s: State): State {
    if s.aborted then s else s.(aborted := true, woken := true)
  }

  // ----- runs

  ghost predicate Enabled(g: Graph, s: State, e: Event) {
    match e
    case Pass => s.phase == Looping && s.woken
    case Settle(t, o) => t in s.inflight && t in s.status && IsTerminal(o.status)
    case Abort => true
  }

  ghost function Apply(g: Graph, cap: Option<nat>, s: State, e: Event): (r: State)
    requires Typed(g, s) && Enabled(g, s, e)
    ensures Typed(g, r)
  {
    match e
    case Pass => LoopPass(g, cap, s)
    case Settle(t, o) => SettleTask(g, s, t, o)
    case Abort => AbortRun(s)
  }

  /** The state after a schedule of events, or None when some event was not enabled. */
  ghost function Run(g: Graph, cap: Option<nat>, events: seq<Event>): (r: Option<State>)
    requires WellFormed(g)
    ensures r.Some? ==> Typed(g, r.value)
  {
    if events == [] then Some(Initial(g))
    else
      var last := |events| - 1;
      match Run(g, cap, events[..last])
      case None => None
      case Some(s) => if Enabled(g, s, events[last]) then Some(Apply(g, cap, s, events[last])) else None
  }

  /** Every execution resolves with the outcome `f` fixes for its task. */
  ghost predicate Follows(events: seq<Event>, f: Id -> TaskOutcome) {
    forall i :: 0 <= i < |events| && events[i].Settle? ==> events[i].outcome == f(events[i].task)
  }

  /** Appending one enabled event to a run. */
  lemma RunStep(g: Graph, cap: Option<nat>, events: seq<Event>, s: State, e: Event)
    requires WellFormed(g) && Run(g, cap, events) == Some(s) && Enabled(g, s, e)
    ensures Run(g, cap, events + [e]) == Some(Apply(g, cap, s, e))
  {
    assert (events + [e])[..|events|] == events;
  }
}

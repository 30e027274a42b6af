/**
 * The scheduler in its own form: one object per run whose sets, maps and flags are updated in
 * place, and the loop that drives it. Every method is tied to the step system.
 */
module Schedulers {
  import opened Collections
  import opened Graphs
  import opened TaskGraphs
  import opened SchedulerSteps
  import opened SchedulerSafety
  import opened SchedulerConfluence
  import opened SchedulerProgress
  import opened SchedulerReasons

  /** What the caller's abort signal does: never fires, fired before the run, or may fire while it runs. */
  datatype Signal = Silent | FiredBefore | MayFire

  datatype RunResult =
    | InvalidConcurrency
    | InvalidGraph(error: GraphError)
    | GraphAlreadyUsed(nonPending: seq<Id>)
    | StalledOn(stuck: seq<Id>)
    | Report(results: seq<(Id, TaskOutcome)>, order: seq<Id>, ok: bool, stopped: bool)

  class SchedulerRun {
    const graph: TaskGraph
    const cap: Option<nat>
    var outcomes: map<Id, TaskOutcome>
    var order: seq<Id>
    var running: set<Id>
    var busy: set<Id>
    var inflight: set<Id>
    var dispatched: seq<Id>
    var aborted: bool
    var stopped: bool
    var woken: bool
    var phase: Phase

    ghost function View(): State
      reads this, graph
    {
      State(graph.status, outcomes, order, running, busy, inflight, dispatched, aborted, stopped, woken, phase)
    }

    /** The state of the run, over the fixed shape of its graph. */
    ghost predicate At(g: Graph, s: State)
      reads this, graph
    {
      graph.Valid() && graph.Shape() == g && View() == s
    }

    constructor (graph: TaskGraph, cap: Option<nat>)
      requires graph.Valid() && forall t :: t in graph.status ==> graph.status[t] == Pending
      ensures this.graph == graph && this.cap == cap
      ensures At(graph.Shape(), Initial(graph.Shape()))
    {
      this.graph, this.cap := graph, cap;
      outcomes, order, running, busy, inflight, dispatched := map[], [], {}, {}, {}, [];
      aborted, stopped, woken, phase := false, false, true, Looping;
      new;
      assert graph.status == map t | t in graph.deps :: Pending;
    }

    method CancelTask(t: Id, reason: TaskError)
      requires graph.Valid() && t in graph.status
      modifies this`outcomes, this`order, graph`status
      ensures At(old(graph.Shape()), CancelBlocked(old(View()), t, reason))
    {
      graph.status := graph.status[t := Cancelled];
      outcomes := outcomes[t := Outcome(Cancelled, reason)];
      order := order + [t];
    }

    /** Step 1: one forward pass cancelling every pending task with an unsuccessful dependency. */
    method CancelBlockedTasks()
      requires graph.Valid()
      modifies this`outcomes, this`order, graph`status
      ensures At(old(graph.Shape()), CancelPass(old(graph.Shape()), old(View())))
    {
      ghost var g, s := graph.Shape(), View();
      for i := 0 to |graph.ids|
        invariant At(g, CancelUpTo(g, s, i))
      {
        var task := graph.ids[i];
        if graph.status[task] == Pending {
          var dep := BlockingDependency(task);
          if dep.Some? {
            CancelTask(task, DependencyError(dep.value, graph.status[dep.value]));
          }
        }
      }
    }

    method BlockingDependency(task: Id) returns (dep: Option<Id>)
      requires graph.Valid() && task in graph.deps
      ensures dep == FirstBlocking(graph.status, graph.deps[task])
    {
      var deps := graph.deps[task];
      for j := 0 to |deps|
        invariant FirstBlocking(graph.status, deps) == FirstBlocking(graph.status, deps[j..])
      {
        if deps[j] in graph.status && IsTerminal(graph.status[deps[j]]) && graph.status[deps[j]] != Completed {
          return Some(deps[j]);
        }
      }
      return None;
    }

    method StartTask(t: Id)
      requires graph.Valid() && t in graph.agents
      modifies this`running, this`busy, this`inflight, this`dispatched, graph`status
      ensures At(old(graph.Shape()), Start(old(graph.Shape()), old(View()), t))
    {
      hide WellFormed;
      AgentsKnown(graph.Shape());
      graph.status := graph.status[t := Ready];
      graph.status := graph.status[t := Running];
      running := running + {t};
      busy := busy + {graph.agents[t]};
      inflight := inflight + {t};
      dispatched := dispatched + [t];
    }

    /** Step 2: latch the stop flag, then launch what is ready unless stopped. */
    method LaunchReadyTasks()
      requires graph.Valid()
      modifies this`stopped, this`running, this`busy, this`inflight, this`dispatched, graph`status
      ensures At(old(graph.Shape()), LaunchPass(old(graph.Shape()), cap, Latch(old(View()))))
    {
      hide Distinct, Launch;
      stopped := stopped || aborted;
      if !stopped {
        var ready := graph.ReadyTasks();
        LaunchEach(ready);
      }
    }

    /** Starts the given tasks in order while there is room, passing over those whose agent is busy. */
    method LaunchEach(ready: seq<Id>)
      requires graph.Valid() && forall t :: t in ready ==> t in graph.deps
      modifies this`running, this`busy, this`inflight, this`dispatched, graph`status
      ensures At(old(graph.Shape()), Launch(old(graph.Shape()), cap, old(View()), ready))
    {
      hide Distinct, Start, Launch, WellFormed;
      ghost var g, s := graph.Shape(), View();
      assert ready[0..] == ready;
      var i := 0;
      while i < |ready|
        invariant 0 <= i <= |ready| && At(g, View())
        invariant Launch(g, cap, View(), ready[i..]) == Launch(g, cap, s, ready)
      {
        if cap.Some? && |running| >= cap.value {
          break;
        }
        LaunchGoesOn(g, cap, View(), ready, i);
        if graph.agents[ready[i]] !in busy {
          StartTask(ready[i]);
        }
        i := i + 1;
      }
      LaunchEnds(g, cap, View(), ready[i..]);
    }

    method TearDownTask(task: Id)
      requires graph.Valid() && task in graph.status
      modifies this`outcomes, this`order, this`running, this`busy, graph`status
      ensures At(old(graph.Shape()), TearDownOne(old(graph.Shape()), old(View()), task))
    {
      hide Distinct;
      if !IsTerminal(graph.status[task]) {
        var wasRunning := graph.status[task] == Running;
        CancelTask(task, RunStopped);
        running := running - {task};
        if wasRunning {
          busy := busy - {graph.agents[task]};
        }
      }
    }

    /** Step 5: every task that is not terminal becomes cancelled and releases its slot. */
    method TearDown()
      requires graph.Valid()
      modifies this`outcomes, this`order, this`running, this`busy, graph`status
      ensures At(old(graph.Shape()), TearDownUpTo(old(graph.Shape()), old(View()), |old(graph.ids)|))
    {
      hide Distinct, TearDownOne;
      ghost var g, s := graph.Shape(), View();
      for i := 0 to |graph.ids|
        invariant At(g, TearDownUpTo(g, s, i))
      {
        TearDownTask(graph.ids[i]);
      }
    }

    /** One iteration of the loop up to its await, its return or its throw. */
    method Pass()
      requires graph.Valid()
      modifies this, graph`status
      ensures At(old(graph.Shape()), LoopPass(old(graph.Shape()), cap, old(View())))
    {
      hide CancelUpTo, LaunchPass, Conclude, Distinct, WellFormed;
      CancelBlockedTasks();
      LaunchReadyTasks();
      ConcludePass();
    }

    /** Steps 3 and 5: tear down and return when stopped, return or throw when nothing runs, else wait. */
    method ConcludePass()
      requires graph.Valid()
      modifies this, graph`status
      ensures At(old(graph.Shape()), Conclude(old(graph.Shape()), old(View())))
    {
      hide TearDownUpTo, Distinct;
      var complete := graph.IsComplete();
      if stopped {
        TearDown();
        phase := Returned;
      } else if running == {} {
        phase := if complete then Returned else Stalled;
      } else {
        woken := false;
      }
    }

    /** An execution resolves; a task that is no longer running keeps its status and outcome. */
    method SettleExecution(t: Id, outcome: TaskOutcome)
      requires graph.Valid() && t in graph.status
      modifies this, graph`status
      ensures At(old(graph.Shape()), SettleTask(old(graph.Shape()), old(View()), t, outcome))
    {
      hide WellFormed, IsTerminal;
      AgentsKnown(graph.Shape());
      if graph.status[t] == Running {
        RecordSettled(t, outcome);
      }
      running := running - {t};
      busy := busy - {graph.agents[t]};
      inflight := inflight - {t};
      woken := true;
    }

    method RecordSettled(t: Id, outcome: TaskOutcome)
      requires graph.Valid() && t in graph.status
      modifies this`outcomes, this`order, graph`status
      ensures graph.Valid() && graph.Shape() == old(graph.Shape())
      ensures View() == old(View()).(status := old(graph.status)[t := outcome.status],
          outcomes := old(outcomes)[t := outcome],
                                     order := old(order) + [t])
    {
      hide WellFormed;
      graph.status := graph.status[t := outcome.status];
      outcomes := outcomes[t := outcome];
      order := order + [t];
    }

    method AbortSignal()
      requires graph.Valid()
      modifies this`aborted, this`woken
      ensures At(old(graph.Shape()), AbortRun(old(View())))
    {
      if !aborted {
        aborted, woken := true, true;
      }
    }

    method ReceiveAbort(f: Id -> TaskOutcome, ghost g: Graph, ghost events: seq<Event>) returns (ghost more: seq<Event>)
      requires WellFormed(g) && At(g, View()) && Run(g, cap, events) == Some(View()) && Follows(events, f)
      requires phase == Looping
      modifies this`aborted, this`woken
      ensures At(g, View()) && Run(g, cap, more) == Some(View()) && Follows(more, f) && more == events + [Abort]
      ensures woken && phase == Looping && Passes(more) == Passes(events) && aborted
    {
      hide Run, Follows, Passes, Distinct, Safe;
      RunSafe(g, cap, events);
      WaitingIsLive(g, cap, View());
      RunStep(g, cap, events, View(), Abort);
      AppendEvent(events, Abort, f);
      more := events + [Abort];
      AbortSignal();
    }

    method ReceiveCompletion(t: Id, f: Id -> TaskOutcome, ghost g: Graph, ghost events: seq<Event>)
      returns (ghost more: seq<Event>)
      requires WellFormed(g) && At(g, View()) && Run(g, cap, events) == Some(View()) && Follows(events, f)
      requires phase == Looping && t in inflight && IsTerminal(f(t).status)
      modifies this, graph`status
      ensures At(g, View()) && Run(g, cap, more) == Some(View()) && Follows(more, f) && events <= more
      ensures woken && phase == Looping && Passes(more) == Passes(events)
      ensures aborted == old(aborted) && stopped == old(stopped)
    {
      hide Run, Follows, Passes, Distinct, Safe;
      RunSafe(g, cap, events);
      InflightRuns(g, cap, View(), t);
      RunStep(g, cap, events, View(), Settle(t, f(t)));
      AppendEvent(events, Settle(t, f(t)), f);
      more := events + [Settle(t, f(t))];
      SettleExecution(t, f(t));
    }

    /** What the signal's kind says about the flags while the loop runs, and about the schedule so far. */
    ghost predicate Heeds(signal: Signal, events: seq<Event>)
      reads this
    {
      && (signal.Silent? ==> !aborted && !stopped)
      && (signal.FiredBefore? ==> aborted && events != [] && events[0] == Abort)
    }

    /** One event that can arrive during the await: the abort, or one execution in flight resolving. */
    method ReceiveEvent(f: Id -> TaskOutcome, signal: Signal, ghost g: Graph, ghost events: seq<Event>)
        returns (ghost more: seq<Event>)
      requires WellFormed(g) && At(g, View()) && Run(g, cap, events) == Some(View()) && Follows(events, f)
      requires phase == Looping && (woken || inflight != {}) && forall t :: IsTerminal(f(t).status)
      requires Heeds(signal, events)
      modifies this, graph`status
      ensures At(g, View()) && Run(g, cap, more) == Some(View()) && Follows(more, f) && Heeds(signal, more)
      ensures woken && phase == Looping && Passes(more) == Passes(events)
    {
      hide Run, Follows, Passes, WellFormed;
      var abort: bool := *;
      more := events;
      if abort && signal.MayFire? {
        more := ReceiveAbort(f, g, events);
      } else if inflight != {} {
        var t :| t in inflight;
        more := ReceiveCompletion(t, f, g, events);
      }
    }

    /** The await: at least one event, then any number more before the loop runs again. */
    method AwaitWake(f: Id -> TaskOutcome, signal: Signal, ghost g: Graph, ghost events: seq<Event>)
        returns (ghost more: seq<Event>)
      requires WellFormed(g) && At(g, View()) && Run(g, cap, events) == Some(View()) && Follows(events, f)
      requires phase == Looping && inflight != {} && forall t :: IsTerminal(f(t).status)
      requires Heeds(signal, events)
      modifies this, graph`status
      ensures At(g, View()) && Run(g, cap, more) == Some(View()) && Follows(more, f) && Heeds(signal, more)
      ensures woken && phase == Looping && Passes(more) == Passes(events)
    {
      hide Run, WellFormed, Follows, Passes, Heeds;
      more := ReceiveEvent(f, signal, g, events);
      var extra :| extra >= 0;
      for i := 0 to extra
        invariant At(g, View()) && Run(g, cap, more) == Some(View()) && Follows(more, f) && Heeds(signal, more)
        invariant woken && phase == Looping && Passes(more) == Passes(events)
      {
        more := ReceiveEvent(f, signal, g, more);
      }
    }

    /** `for (;;)`: passes and awaits until the run returns or throws. */
    method RunLoop(f: Id -> TaskOutcome, signal: Signal, ghost g: Graph) returns (ghost events: seq<Event>)
      requires WellFormed(g) && At(g, Initial(g)) && forall t :: IsTerminal(f(t).status)
      modifies this, graph`status
      ensures At(g, View()) && Run(g, cap, events) == Some(View()) && Follows(events, f)
      ensures phase != Looping && Heeds(signal, events) && (signal.FiredBefore? ==> phase == Returned)
    {
      hide Distinct, LoopPass;
      events := [];
      if signal.FiredBefore? {
        events := ReceiveAbort(f, g, events);
        assert ([] + [Abort])[0] == Abort;
      }
      while phase == Looping
        invariant At(g, View()) && Run(g, cap, events) == Some(View()) && Follows(events, f)
        invariant Heeds(signal, events) && (signal.FiredBefore? ==> phase != Stalled)
        decreases |g.ids| + 1 - Passes(events), phase == Looping
      {
        events := AwaitWakeUnlessDue(f, signal, g, events);
        events := RunPass(f, signal, g, events);
      }
    }

    /** One pass as an event of the schedule. */
    method RunPass(f: Id -> TaskOutcome, signal: Signal, ghost g: Graph, ghost events: seq<Event>)
        returns (ghost more: seq<Event>)
      requires WellFormed(g) && At(g, View()) && Run(g, cap, events) == Some(View()) && Follows(events, f)
      requires phase == Looping && woken && Heeds(signal, events)
      modifies this, graph`status
      ensures At(g, View()) && Run(g, cap, more) == Some(View()) && Follows(more, f) && Heeds(signal, more)
      ensures Passes(more) == Passes(events) + 1 <= |g.ids| + 1
      ensures signal.FiredBefore? ==> phase == Returned
    {
      hide Run, Follows, Passes, Distinct, Safe, LoopPass;
      ghost var s := View();
      Pass();
      RunStep(g, cap, events, s, SchedulerSteps.Pass);
      AppendEvent(events, SchedulerSteps.Pass, f);
      more := events + [SchedulerSteps.Pass];
      RunSafe(g, cap, events);
      PassFlags(g, cap, s);
      PassesBounded(g, cap, more);
    }

    /** The first pass needs no wake-up; every later one follows an await. */
    method AwaitWakeUnlessDue(f: Id -> TaskOutcome, signal: Signal, ghost g: Graph, ghost events: seq<Event>)
        returns (ghost more: seq<Event>)
      requires WellFormed(g) && At(g, View()) && Run(g, cap, events) == Some(View()) && Follows(events, f)
      requires phase == Looping && Heeds(signal, events) && forall t :: IsTerminal(f(t).status)
      modifies this, graph`status
      ensures At(g, View()) && Run(g, cap, more) == Some(View()) && Follows(more, f) && Heeds(signal, more)
      ensures woken && phase == Looping && Passes(more) == Passes(events)
    {
      hide Run, Follows, Passes, Heeds;
      more := events;
      if !woken {
        PassesBounded(g, cap, events);
        more := AwaitWake(f, signal, g, events);
      }
    }

    /** The report: results in insertion order, whatever the completion order was. */
    method Report() returns (report: RunResult)
      requires graph.Valid() && forall t :: t in outcomes <==> t in graph.deps
      ensures report.Report? && report.order == order && report.stopped == (stopped || aborted)
      ensures |report.results| == |graph.ids|
      ensures forall i :: 0 <= i < |graph.ids| ==>
          graph.ids[i] in outcomes && report.results[i] == (graph.ids[i], outcomes[graph.ids[i]])
      ensures report.ok <==> forall t :: t in outcomes ==> outcomes[t].status == Completed
    {
      var results: seq<(Id, TaskOutcome)>, ok := [], true;
      for i := 0 to |graph.ids|
        invariant |results| == i
        invariant forall j :: 0 <= j < i ==>
                    graph.ids[j] in outcomes && results[j] == (graph.ids[j], outcomes[graph.ids[j]])
        invariant ok <==> forall j :: 0 <= j < i ==> outcomes[graph.ids[j]].status == Completed
      {
        var outcome := outcomes[graph.ids[i]];
        results := results + [(graph.ids[i], outcome)];
        if outcome.status != Completed {
          ok := false;
        }
      }
      report := RunResult.Report(results, order, ok, stopped || aborted);
    }
  }

  lemma AgentsKnown(g: Graph)
    requires WellFormed(g)
    ensures forall t :: t in g.agents <==> t in g.deps
  {
  }

  /** A waiting run has not been aborted. */
  lemma WaitingIsLive(g: Graph, cap: Option<nat>, s: State)
    requires Safe(g, cap, s) && s.phase == Looping
    ensures Typed(g, s) && (s.woken || !s.aborted)
  {
  }

  lemma AppendEvent(events: seq<Event>, e: Event, f: Id -> TaskOutcome)
    requires Follows(events, f) && (e.Settle? ==> e.outcome == f(e.task))
    ensures Follows(events + [e], f)
    ensures Passes(events + [e]) == Passes(events) + if e == Pass then 1 else 0
  {
    assert (events + [e])[..|events|] == events;
  }

  /** While the loop waits, an execution in flight belongs to a running task. */
  lemma InflightRuns(g: Graph, cap: Option<nat>, s: State, t: Id)
    requires Safe(g, cap, s) && s.phase == Looping && t in s.inflight
    ensures t in s.status && t in g.agents && s.status[t] == Running
  {
  }

  /** Tasks whose status satisfies `keep`, in insertion order. */
  method TasksWhere(graph: TaskGraph, keep: Status -> bool) returns (found: seq<Id>)
    requires graph.Valid()
    ensures forall t :: t in found <==> t in graph.status && keep(graph.status[t])
    ensures Distinct(found)
  {
    found := [];
    for i := 0 to |graph.ids|
      invariant forall t :: t in found <==> t in graph.ids[..i] && t in graph.status && keep(graph.status[t])
      invariant Distinct(found)
    {
      if keep(graph.status[graph.ids[i]]) {
        found := found + [graph.ids[i]];
      }
    }
    assert graph.ids[..|graph.ids|] == graph.ids;
  }

  /** What a report says: every task once in the order, results in insertion order, statuses as specified. */
  ghost predicate Reports(g: Graph, f: Id -> TaskOutcome, status: map<Id, Status>, report: RunResult)
    requires report.Report?
  {
    && IsDag(g.deps)
    && Distinct(report.order) && (forall t :: t in report.order <==> t in g.deps)
    && (forall t :: t in status <==> t in g.deps)
    && |report.results| == |g.ids|
    && (forall i :: 0 <= i < |g.ids| ==>
          report.results[i].0 == g.ids[i] && g.ids[i] in status && report.results[i].1.status == status[g.ids[i]])
    && (report.ok <==> forall t :: t in status ==> status[t] == Completed)
    && (forall t :: t in g.deps ==>
          t in status && (status[t] == Final(g.deps, f, t) || (report.stopped && status[t] == Cancelled)))
    && (!report.stopped ==> forall i :: 0 <= i < |g.ids| ==>
          g.ids[i] in g.deps && OutcomeFits(g.deps, f, status, g.ids[i], report.results[i].1))
  }

  ghost predicate StallsOn(g: Graph, status: map<Id, Status>, stuck: seq<Id>)
    requires WellFormed(g)
  {
    !SweepComplete(g) && forall t :: t in stuck <==> t in status && !IsTerminal(status[t])
  }

  lemma StallMeansIncomplete(g: Graph, status: map<Id, Status>, report: RunResult)
    requires WellFormed(g) && SweepComplete(g)
    ensures report.StalledOn? ==> !StallsOn(g, status, report.stuck)
  {
    hide SweepComplete;
  }

  lemma FinishedOrder(g: Graph, cap: Option<nat>, events: seq<Event>, s: State)
    requires WellFormed(g) && Run(g, cap, events) == Some(s) && s.phase == Returned
    ensures Distinct(s.order) && forall t :: t in s.order <==> t in g.deps
    ensures forall t :: t in s.status <==> t in g.deps
    ensures forall t :: t in g.deps <==> t in s.outcomes
    ensures forall t :: t in g.deps ==> t in s.outcomes && s.outcomes[t].status == s.status[t]
  {
    hide SlotsConsistent, DispatchesConsistent, Run;
    RunSafe(g, cap, events);
  }

  lemma FinishedStatuses(g: Graph, cap: Option<nat>, f: Id -> TaskOutcome, events: seq<Event>, s: State)
    requires ValidGraph(g) && Run(g, cap, events) == Some(s) && Follows(events, f) && s.phase == Returned
    ensures forall t :: t in g.deps ==>
              t in s.status && (s.status[t] == Final(g.deps, f, t) || (s.stopped && s.status[t] == Cancelled))
  {
    hide SlotsConsistent, OutcomesConsistent, IsDag, Distinct, Run;
    RunSafe(g, cap, events);
    RunExplained(g, cap, f, events);
    forall t | t in g.deps
      ensures s.status[t] == Final(g.deps, f, t) || (s.stopped && s.status[t] == Cancelled)
    {
      TerminalIsFinal(g, f, s, t);
    }
  }

  /** What a finished run leaves behind, read off the invariants of its schedule. */
  lemma FinishedRun(g: Graph, cap: Option<nat>, f: Id -> TaskOutcome, events: seq<Event>, s: State, report: RunResult)
    requires ValidGraph(g) && Run(g, cap, events) == Some(s) && Follows(events, f) && s.phase == Returned
    requires report.Report? && report.order == s.order && report.stopped == (s.stopped || s.aborted)
    requires |report.results| == |g.ids|
    requires forall i :: 0 <= i < |g.ids| ==>
        g.ids[i] in s.outcomes && report.results[i] == (g.ids[i], s.outcomes[g.ids[i]])
    requires report.ok <==> forall t :: t in s.outcomes ==> s.outcomes[t].status == Completed
    ensures Reports(g, f, s.status, report)
  {
    hide Run, Follows, IsDag, Distinct, OutcomeFits, IsTerminal;
    FinishedOrder(g, cap, events, s);
    FinishedStatuses(g, cap, f, events, s);
    if !s.stopped {
      OutcomesDetermined(g, cap, f, events, s);
    }
  }

  /** A run that throws proves its graph's sweeps incomplete. */
  lemma StalledRun(g: Graph, cap: Option<nat>, events: seq<Event>, s: State)
    requires ValidGraph(g) && UsableCap(cap) && Run(g, cap, events) == Some(s) && s.phase == Stalled
    ensures !SweepComplete(g)
  {
    if SweepComplete(g) {
      NoStall(g, cap, events);
    }
  }

  /** The run proper, once the graph has been accepted. */
  method RunAccepted(graph: TaskGraph, cap: Option<nat>, signal: Signal, f: Id -> TaskOutcome)
      returns (result: RunResult)
    requires graph.Valid() && IsDag(graph.deps) && UsableCap(cap) && forall t :: IsTerminal(f(t).status)
    requires forall t :: t in graph.status ==> graph.status[t] == Pending
    modifies graph`status
    ensures graph.Valid() && graph.Shape() == old(graph.Shape())
    ensures result.StalledOn? || result.Report?
    ensures result.StalledOn? ==> StallsOn(graph.Shape(), graph.status, result.stuck)
    ensures result.Report? ==> Reports(graph.Shape(), f, graph.status, result)
    ensures HeedsSignal(signal, graph, result)
  {
    hide Run, Follows, SweepComplete, IsDag, Initial, Reports, Distinct, Passes;
    ghost var g := graph.Shape();
    var run := new SchedulerRun(graph, cap);
    ghost var events := run.RunLoop(f, signal, g);
    ghost var s := run.View();
    if run.phase == Stalled {
      StalledRun(g, run.cap, events, s);
      var stuck := TasksWhere(graph, st => !IsTerminal(st));
      return StalledOn(stuck);
    }
    FinishedOrder(g, run.cap, events, s);
    result := run.Report();
    FinishedRun(g, run.cap, f, events, s, result);
    ReportHeeds(signal, graph, run.cap, events, s, result);
  }

  lemma ReportHeeds(signal: Signal, graph: TaskGraph, cap: Option<nat>, events: seq<Event>, s: State,
      result: RunResult)
    requires WellFormed(graph.Shape()) && Run(graph.Shape(), cap, events) == Some(s) && s.phase == Returned
    requires result.Report? && result.stopped == (s.stopped || s.aborted) && s.status == graph.status
    requires signal.Silent? ==> !s.aborted && !s.stopped
    requires signal.FiredBefore? ==> s.aborted && events != [] && events[0] == Abort
    ensures HeedsSignal(signal, graph, result)
  {
    hide Run, WellFormed;
    if signal.FiredBefore? {
      assert events == [Abort] + events[1..];
      AbortedAtOnceCancelsAll(graph.Shape(), cap, events[1..], s);
    }
  }

  lemma RefusalHeeds(signal: Signal, graph: TaskGraph, result: RunResult)
    requires result.InvalidConcurrency? || result.InvalidGraph? || result.GraphAlreadyUsed?
    ensures HeedsSignal(signal, graph, result)
  {
  }

  /** Without the signal a run is not stopped; if it had fired before, the run cancels every task. */
  ghost predicate HeedsSignal(signal: Signal, graph: TaskGraph, result: RunResult)
    reads graph
  {
    && (signal.Silent? && result.Report? ==> !result.stopped)
    && (signal.FiredBefore? ==> !result.StalledOn?)
    && (signal.FiredBefore? && result.Report? ==>
          result.stopped && forall t :: t in graph.deps ==> t in graph.status && graph.status[t] == Cancelled)
  }

  /**
   * The whole run, from the concurrency check to the report. The environment is free: it picks
   * which execution resolves next, how many resolve before the loop wakes, and, where the signal may
   * fire during the run, whether and when it does.
   */
  method RunGraph(graph: TaskGraph, concurrency: Option<int>, signal: Signal, f: Id -> TaskOutcome)
      returns (result: RunResult)
    requires graph.Valid() && forall t :: IsTerminal(f(t).status)
    modifies graph`status
    ensures graph.Valid() && graph.Shape() == old(graph.Shape())
    ensures result.InvalidConcurrency? <==> concurrency.Some? && concurrency.value < 1
    ensures result.InvalidGraph? <==> !(concurrency.Some? && concurrency.value < 1) && !IsDag(graph.deps)
    ensures result.GraphAlreadyUsed? <==>
              && !(concurrency.Some? && concurrency.value < 1) && IsDag(graph.deps)
              && exists t :: t in old(graph.status) && old(graph.status)[t] != Pending
    ensures result.InvalidConcurrency? || result.InvalidGraph? || result.GraphAlreadyUsed? ==>
        graph.status == old(graph.status)
    ensures result.StalledOn? ==> StallsOn(graph.Shape(), graph.status, result.stuck)
    ensures result.Report? ==> Reports(graph.Shape(), f, graph.status, result)
    ensures HeedsSignal(signal, graph, result)
  {
    hide IsDag, StallsOn, Reports, Distinct, HeedsSignal;
    if concurrency.Some? && concurrency.value < 1 {
      RefusalHeeds(signal, graph, InvalidConcurrency);
      return InvalidConcurrency;
    }
    var error := graph.Validate();
    if error.Some? {
      RefusalHeeds(signal, graph, InvalidGraph(error.value));
      return InvalidGraph(error.value);
    }
    var nonPending := TasksWhere(graph, st => st != Pending);
    if nonPending != [] {
      assert nonPending[0] in nonPending;
      RefusalHeeds(signal, graph, GraphAlreadyUsed(nonPending));
      return GraphAlreadyUsed(nonPending);
    }
    assert forall t :: t in graph.status && graph.status[t] != Pending ==> t in nonPending;
    result := RunAccepted(graph, if concurrency.Some? then Some(concurrency.value) else None, signal, f);
  }
}

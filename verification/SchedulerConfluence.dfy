/**
 * Confluence: the final statuses are a recursive function of the dependency graph and the
 * per-task outcomes, whatever the schedule, the cap, the agents and the insertion order.
 */
module SchedulerConfluence {
  import opened Collections
  import opened Graphs
  import opened TaskGraphs
  import opened SchedulerSteps
  import opened SchedulerSafety

  /** The recursive specification: cancelled if some dependency does not complete, else the task's own outcome. */
  ghost function Final(deps: map<Id, seq<Id>>, f: Id -> TaskOutcome, t: Id): Status
    requires IsDag(deps) && t in deps
    decreases Rank(AdjacencyOf(deps), t)
  {
    if forall d :: d in deps[t] ==> (RankDescends(AdjacencyOf(deps), t, d); Final(deps, f, d)) == Completed
    then f(t).status
    else Cancelled
  }

  lemma FinalOfRoot(deps: map<Id, seq<Id>>, f: Id -> TaskOutcome, t: Id)
    requires IsDag(deps) && t in deps && deps[t] == []
    ensures Final(deps, f, t) == f(t).status
  {
  }

  lemma FinalOfLink(deps: map<Id, seq<Id>>, f: Id -> TaskOutcome, t: Id, d: Id)
    requires IsDag(deps) && t in deps && deps[t] == [d]
    ensures d in deps && Final(deps, f, t) == if Final(deps, f, d) == Completed then f(t).status else Cancelled
  {
    assert deps[t][0] in deps[t];
    RankDescends(AdjacencyOf(deps), t, d);
  }

  ghost predicate HasBlocking(g: Graph, s: State, t: Id)
    requires t in g.deps
  {
    exists d :: d in g.deps[t] && IsBlocking(s.status, d)
  }

  /** Why a terminal task has its status. */
  ghost predicate Explained(g: Graph, f: Id -> TaskOutcome, s: State, t: Id)
    requires Typed(g, s) && t in s.status
  {
    || (t in s.dispatched && s.status[t] == f(t).status)
    || (t !in s.dispatched && s.status[t] == Cancelled && HasBlocking(g, s, t))
    || (s.stopped && s.status[t] == Cancelled)
  }

  ghost predicate AllExplained(g: Graph, f: Id -> TaskOutcome, s: State)
    requires Typed(g, s)
  {
    forall t :: t in s.status && IsTerminal(s.status[t]) ==> Explained(g, f, s, t)
  }

  /** An explanation survives any step that keeps terminal statuses and dispatches. */
  lemma ExplainedPersists(g: Graph, f: Id -> TaskOutcome, s: State, r: State, t: Id)
    requires Typed(g, s) && Typed(g, r)
    requires t in s.status && IsTerminal(s.status[t]) && Explained(g, f, s, t)
    requires forall u :: u in s.status && IsTerminal(s.status[u]) ==> r.status[u] == s.status[u]
    requires t in s.dispatched <==> t in r.dispatched
    requires s.stopped ==> r.stopped
    ensures Explained(g, f, r, t)
  {
    if HasBlocking(g, s, t) {
      var d :| d in g.deps[t] && IsBlocking(s.status, d);
      assert IsBlocking(r.status, d);
    }
  }

  lemma CancelOneExplained(g: Graph, f: Id -> TaskOutcome, s: State, t: Id)
    requires Typed(g, s) && AllExplained(g, f, s) && DispatchesConsistent(g, s) && t in s.status
    ensures AllExplained(g, f, CancelOne(g, s, t))
  {
    hide Distinct, Explained, DispatchesConsistent;
    var r := CancelOne(g, s, t);
    forall u | u in r.status && IsTerminal(r.status[u])
      ensures Explained(g, f, r, u)
    {
      if IsTerminal(s.status[u]) {
        ExplainedPersists(g, f, s, r, u);
      } else {
        CancelledIsExplained(g, f, s, t);
      }
    }
  }

  lemma CancelledIsExplained(g: Graph, f: Id -> TaskOutcome, s: State, t: Id)
    requires Typed(g, s) && DispatchesConsistent(g, s) && t in s.status && s.status[t] == Pending
    requires FirstBlocking(s.status, g.deps[t]).Some?
    ensures Explained(g, f, CancelOne(g, s, t), t)
  {
    hide Distinct;
    var d := FirstBlocking(s.status, g.deps[t]).value;
    assert IsBlocking(CancelOne(g, s, t).status, d);
  }

  lemma {:induction false} CancelUpToExplained(g: Graph, cap: Option<nat>, f: Id -> TaskOutcome, s: State, n: nat)
    requires SafeMidPass(g, cap, s) && AllExplained(g, f, s) && n <= |g.ids|
    ensures AllExplained(g, f, CancelUpTo(g, s, n))
  {
    hide AllExplained, SlotsConsistent, OutcomesConsistent, DispatchesConsistent;
    if n > 0 {
      CancelUpToExplained(g, cap, f, s, n - 1);
      CancelUpToSafe(g, cap, s, n - 1);
      CancelOneExplained(g, f, CancelUpTo(g, s, n - 1), g.ids[n - 1]);
    }
  }

  lemma {:induction false} LaunchExplained(g: Graph, cap: Option<nat>, f: Id -> TaskOutcome, s: State, ready: seq<Id>)
    requires Typed(g, s) && AllExplained(g, f, s) && Distinct(ready)
    requires forall t :: t in ready ==> t in s.status && s.status[t] == Pending
    ensures AllExplained(g, f, Launch(g, cap, s, ready))
    decreases |ready|
  {
    if ready != [] && HasRoom(cap, |s.running|) {
      assert forall u :: u in ready[1..] ==> u in ready && u != ready[0];
      if g.agents[ready[0]] in s.busy {
        LaunchExplained(g, cap, f, s, ready[1..]);
      } else {
        var r := Start(g, s, ready[0]);
        forall u | u in r.status && IsTerminal(r.status[u])
          ensures Explained(g, f, r, u)
        {
          ExplainedPersists(g, f, s, r, u);
        }
        LaunchExplained(g, cap, f, r, ready[1..]);
      }
    }
  }

  lemma {:induction false} TearDownExplained(g: Graph, f: Id -> TaskOutcome, s: State, n: nat)
    requires Typed(g, s) && AllExplained(g, f, s) && s.stopped && n <= |g.ids|
    ensures AllExplained(g, f, TearDownUpTo(g, s, n)) && TearDownUpTo(g, s, n).stopped
  {
    hide AllExplained, Distinct, TearDownOne;
    if n > 0 {
      TearDownExplained(g, f, s, n - 1);
      TearDownOneExplained(g, f, TearDownUpTo(g, s, n - 1), g.ids[n - 1]);
    }
  }

  lemma TearDownOneExplained(g: Graph, f: Id -> TaskOutcome, m: State, t: Id)
    requires Typed(g, m) && AllExplained(g, f, m) && m.stopped && t in m.status
    ensures Typed(g, TearDownOne(g, m, t)) && AllExplained(g, f, TearDownOne(g, m, t)) && TearDownOne(g, m, t).stopped
  {
    hide Distinct, HasBlocking;
    var r := TearDownOne(g, m, t);
    forall u | u in r.status && IsTerminal(r.status[u])
      ensures Explained(g, f, r, u)
    {
      if IsTerminal(m.status[u]) {
        ExplainedPersists(g, f, m, r, u);
      }
    }
  }

  lemma PassExplained(g: Graph, cap: Option<nat>, f: Id -> TaskOutcome, s: State)
    requires Safe(g, cap, s) && s.phase == Looping && AllExplained(g, f, s)
    ensures AllExplained(g, f, LoopPass(g, cap, s))
  {
    hide SlotsConsistent, OutcomesConsistent, DispatchesConsistent, Distinct, Explained;
    CancelUpToExplained(g, cap, f, s, |g.ids|);
    CancelUpToSafe(g, cap, s, |g.ids|);
    CancelKeepsFlags(g, s, |g.ids|);
    var m := CancelPass(g, s);
    var l := Latch(m);
    forall t | t in l.status && IsTerminal(l.status[t])
      ensures Explained(g, f, l, t)
    {
      ExplainedPersists(g, f, m, l, t);
    }
    if l.stopped {
      TearDownExplained(g, f, l, |g.ids|);
      IgnoresFlags(g, f, TearDownUpTo(g, l, |g.ids|), Conclude(g, l));
    } else {
      LaunchExplained(g, cap, f, l, ReadyAmong(g.ids, g.deps, l.status));
      SweepSafe(g, cap, s);
      IgnoresFlags(g, f, Sweep(g, cap, s), LoopPass(g, cap, s));
    }
  }

  lemma IgnoresFlags(g: Graph, f: Id -> TaskOutcome, s: State, r: State)
    requires Typed(g, s) && AllExplained(g, f, s) && r == s.(aborted := r.aborted, woken := r.woken, phase := r.phase)
    ensures AllExplained(g, f, r)
  {
    forall t | t in r.status && IsTerminal(r.status[t])
      ensures Explained(g, f, r, t)
    {
      ExplainedPersists(g, f, s, r, t);
    }
  }

  lemma SettleExplained(g: Graph, cap: Option<nat>, f: Id -> TaskOutcome, s: State, t: Id)
    requires Safe(g, cap, s) && AllExplained(g, f, s) && Enabled(g, s, Settle(t, f(t)))
    ensures AllExplained(g, f, SettleTask(g, s, t, f(t)))
  {
    hide SlotsAccounted, OutcomesRecorded, Distinct, DependenciesCompleted;
    var r := SettleTask(g, s, t, f(t));
    forall u | u in r.status && IsTerminal(r.status[u])
      ensures Explained(g, f, r, u)
    {
      if IsTerminal(s.status[u]) {
        ExplainedPersists(g, f, s, r, u);
      }
    }
  }

  lemma ApplyExplained(g: Graph, cap: Option<nat>, f: Id -> TaskOutcome, s: State, e: Event)
    requires Safe(g, cap, s) && AllExplained(g, f, s) && Enabled(g, s, e)
    requires e.Settle? ==> e.outcome == f(e.task)
    ensures AllExplained(g, f, Apply(g, cap, s, e))
  {
    hide Accounted, AllExplained, Distinct, LoopPass;
    match e
    case Pass => PassExplained(g, cap, f, s);
    case Settle(t, _) => SettleExplained(g, cap, f, s, t);
    case Abort =>
      AccountedTyped(g, cap, s);
      IgnoresFlags(g, f, s, AbortRun(s));
  }

  lemma {:induction false} RunExplained(g: Graph, cap: Option<nat>, f: Id -> TaskOutcome, events: seq<Event>)
    requires WellFormed(g) && Follows(events, f)
    ensures Run(g, cap, events).Some? ==> AllExplained(g, f, Run(g, cap, events).value)
  {
    hide Safe, AllExplained, Enabled;
    if events != [] {
      var last := |events| - 1;
      assert Follows(events[..last], f);
      RunExplained(g, cap, f, events[..last]);
      RunSafe(g, cap, events[..last]);
      var s := Run(g, cap, events[..last]);
      if s.Some? && Enabled(g, s.value, events[last]) {
        ApplyExplained(g, cap, f, s.value, events[last]);
      }
    } else {
      InitialExplained(g, f);
    }
  }

  lemma InitialExplained(g: Graph, f: Id -> TaskOutcome)
    requires WellFormed(g)
    ensures AllExplained(g, f, Initial(g))
  {
  }

  /** In any reachable state a terminal task has its final status, or was cancelled by a stop. */
  lemma {:induction false} TerminalIsFinal(g: Graph, f: Id -> TaskOutcome, s: State, t: Id)
    requires ValidGraph(g) && Typed(g, s) && DispatchesConsistent(g, s) && AllExplained(g, f, s)
    requires t in s.status && IsTerminal(s.status[t])
    ensures s.status[t] == Final(g.deps, f, t) || (s.stopped && s.status[t] == Cancelled)
    decreases Rank(AdjacencyOf(g.deps), t)
  {
    assert Explained(g, f, s, t);
    if t in s.dispatched && s.status[t] == f(t).status {
      forall d | d in g.deps[t]
        ensures Final(g.deps, f, d) == Completed
      {
        assert DependenciesCompleted(g.deps, s.status, t);
        RankDescends(AdjacencyOf(g.deps), t, d);
        TerminalIsFinal(g, f, s, d);
      }
    } else if HasBlocking(g, s, t) && !s.stopped {
      var d :| d in g.deps[t] && IsBlocking(s.status, d);
      RankDescends(AdjacencyOf(g.deps), t, d);
      TerminalIsFinal(g, f, s, d);
    }
  }

  /**
   * Confluence. Whatever the schedule, cap and agents, a run that returns unstopped gives every
   * task its final status, and executes exactly the tasks whose dependencies all complete.
   */
  lemma Confluence(g: Graph, cap: Option<nat>, f: Id -> TaskOutcome, events: seq<Event>, s: State)
    requires ValidGraph(g) && Run(g, cap, events) == Some(s) && Follows(events, f)
    requires s.phase == Returned && !s.stopped
    ensures forall t :: t in g.deps ==> t in s.status && s.status[t] == Final(g.deps, f, t)
    ensures forall t :: t in g.deps ==>
              (t in s.dispatched <==> forall d :: d in g.deps[t] ==> Final(g.deps, f, d) == Completed)
  {
    hide SlotsConsistent, OutcomesConsistent, Distinct;
    RunSafe(g, cap, events);
    RunExplained(g, cap, f, events);
    forall t | t in g.deps
      ensures s.status[t] == Final(g.deps, f, t)
    {
      TerminalIsFinal(g, f, s, t);
    }
    forall t | t in g.deps
      ensures t in s.dispatched <==> forall d :: d in g.deps[t] ==> Final(g.deps, f, d) == Completed
    {
      assert Explained(g, f, s, t);
      if t in s.dispatched {
        assert DependenciesCompleted(g.deps, s.status, t);
      }
    }
  }

  /** Two unstopped runs of the same dependencies agree, even with other agents, caps and insertion orders. */
  lemma RunsAgree(g1: Graph, cap1: Option<nat>, events1: seq<Event>, s1: State,
                  g2: Graph, cap2: Option<nat>, events2: seq<Event>, s2: State, f: Id -> TaskOutcome)
    requires ValidGraph(g1) && ValidGraph(g2) && g1.deps == g2.deps
    requires Run(g1, cap1, events1) == Some(s1) && Run(g2, cap2, events2) == Some(s2)
    requires Follows(events1, f) && Follows(events2, f)
    requires s1.phase == Returned && !s1.stopped && s2.phase == Returned && !s2.stopped
    ensures s1.status == s2.status && Elements(s1.dispatched) == Elements(s2.dispatched)
  {
    hide IsDag, Distinct;
    Confluence(g1, cap1, f, events1, s1);
    Confluence(g2, cap2, f, events2, s2);
    DispatchedKnown(g1, cap1, events1, s1);
    DispatchedKnown(g2, cap2, events2, s2);
    assert forall t :: t in s1.dispatched <==> t in s2.dispatched;
  }

  lemma DispatchedKnown(g: Graph, cap: Option<nat>, events: seq<Event>, s: State)
    requires WellFormed(g) && Run(g, cap, events) == Some(s)
    ensures forall t :: t in s.dispatched ==> t in g.deps
    ensures s.status.Keys == g.deps.Keys
  {
    RunSafe(g, cap, events);
  }
}

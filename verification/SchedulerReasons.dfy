/**
 * Why each outcome is what it is: an executed task keeps the outcome of its one execution, and a
 * task cancelled by its dependencies names one of them together with its unsuccessful status.
 */
module SchedulerReasons {
  import opened Collections
  import opened Graphs
  import opened TaskGraphs
  import opened SchedulerSteps
  import opened SchedulerSafety
  import opened SchedulerConfluence

  /** The recorded reason names a dependency that ended, unsuccessfully, with the named status. */
  predicate NamesBlocker(deps: map<Id, seq<Id>>, status: map<Id, Status>, t: Id, o: TaskOutcome)
    requires t in deps
  {
    && o.status == Cancelled && o.error.DependencyError?
    && o.error.dep in deps[t] && IsBlocking(status, o.error.dep)
    && o.error.depStatus == status[o.error.dep]
  }

  ghost predicate Reasoned(g: Graph, f: Id -> TaskOutcome, s: State, t: Id, o: TaskOutcome)
    requires t in g.deps
  {
    || (t in s.dispatched && o == f(t))
    || (t !in s.dispatched && NamesBlocker(g.deps, s.status, t, o))
    || (s.stopped && o == Outcome(Cancelled, RunStopped))
  }

  ghost predicate AllReasoned(g: Graph, f: Id -> TaskOutcome, s: State) {
    forall t :: t in s.outcomes ==> t in g.deps && Reasoned(g, f, s, t, s.outcomes[t])
  }

  lemma ReasonPersists(g: Graph, f: Id -> TaskOutcome, s: State, r: State, t: Id, o: TaskOutcome)
    requires t in g.deps && Reasoned(g, f, s, t, o)
    requires forall u :: u in s.status && IsTerminal(s.status[u]) ==> u in r.status && r.status[u] == s.status[u]
    requires t in s.dispatched <==> t in r.dispatched
    requires s.stopped ==> r.stopped
    ensures Reasoned(g, f, r, t, o)
  {
  }

  /** A step that adds at most the outcome of `t` keeps every other reason. */
  lemma ReasonsPersist(g: Graph, f: Id -> TaskOutcome, s: State, r: State, t: Id)
    requires AllReasoned(g, f, s)
    requires forall u :: u in s.status && IsTerminal(s.status[u]) ==> u in r.status && r.status[u] == s.status[u]
    requires forall u :: u in r.outcomes && u != t ==> u in s.outcomes && r.outcomes[u] == s.outcomes[u]
    requires forall u :: u in r.outcomes && u != t ==> (u in s.dispatched <==> u in r.dispatched)
    requires s.stopped ==> r.stopped
    requires t in r.outcomes ==> t in g.deps && Reasoned(g, f, r, t, r.outcomes[t])
    ensures AllReasoned(g, f, r)
  {
    hide Reasoned, IsTerminal;
    forall u | u in r.outcomes
      ensures u in g.deps && Reasoned(g, f, r, u, r.outcomes[u])
    {
      if u != t {
        ReasonPersists(g, f, s, r, u, s.outcomes[u]);
      }
    }
  }

  lemma PendingHasNoRecord(g: Graph, cap: Option<nat>, s: State, t: Id)
    requires Accounted(g, cap, s) && t in s.status && s.status[t] == Pending
    ensures t in g.deps && t !in s.outcomes && t !in s.dispatched
  {
  }

  lemma CancelOneReasoned(g: Graph, cap: Option<nat>, f: Id -> TaskOutcome, s: State, t: Id)
    requires Accounted(g, cap, s) && AllReasoned(g, f, s) && t in s.status && t in g.deps
    ensures AllReasoned(g, f, CancelOne(g, s, t))
  {
    hide Accounted, AllReasoned;
    var r := CancelOne(g, s, t);
    if s.status[t] == Pending && FirstBlocking(s.status, g.deps[t]).Some? {
      PendingHasNoRecord(g, cap, s, t);
      var d := FirstBlocking(s.status, g.deps[t]).value;
      assert IsBlocking(r.status, d);
      ReasonsPersist(g, f, s, r, t);
    }
  }

  lemma CancelOfNone(g: Graph, s: State)
    requires Typed(g, s)
    ensures CancelUpTo(g, s, 0) == s
  {
  }

  lemma CancelUnfolds(g: Graph, s: State, n: nat)
    requires Typed(g, s) && 0 < n <= |g.ids|
    ensures var m, t := CancelUpTo(g, s, n - 1), g.ids[n - 1];
            t in m.status && t in g.deps && CancelUpTo(g, s, n) == CancelOne(g, m, t)
  {
    hide CancelOne, Distinct;
  }

  lemma {:induction false} CancelUpToReasoned(g: Graph, cap: Option<nat>, f: Id -> TaskOutcome, s: State, n: nat)
    requires SafeMidPass(g, cap, s) && AllReasoned(g, f, s) && n <= |g.ids|
    ensures AllReasoned(g, f, CancelUpTo(g, s, n))
  {
    hide AllReasoned, Accounted, SafeMidPass, CancelUpTo, CancelOne, Typed;
    MidPassTyped(g, cap, s);
    if n == 0 {
      CancelOfNone(g, s);
    } else {
      CancelUnfolds(g, s, n);
      CancelUpToReasoned(g, cap, f, s, n - 1);
      CancelUpToSafe(g, cap, s, n - 1);
      MidPassAccounted(g, cap, CancelUpTo(g, s, n - 1));
      CancelOneReasoned(g, cap, f, CancelUpTo(g, s, n - 1), g.ids[n - 1]);
    }
  }

  lemma MidPassAccounted(g: Graph, cap: Option<nat>, s: State)
    requires SafeMidPass(g, cap, s)
    ensures Accounted(g, cap, s)
  {
  }

  lemma {:induction false} LaunchReasoned(g: Graph, cap: Option<nat>, f: Id -> TaskOutcome, s: State, ready: seq<Id>)
    requires SafeMidPass(g, cap, s) && AllReasoned(g, f, s) && Distinct(ready)
    requires forall t :: t in ready ==>
        t in s.status && s.status[t] == Pending && DependenciesCompleted(g.deps, s.status, t)
    ensures AllReasoned(g, f, Launch(g, cap, s, ready))
    decreases |ready|
  {
    hide SafeMidPass, AllReasoned, DependenciesCompleted;
    MidPassTyped(g, cap, s);
    if ready != [] && HasRoom(cap, |s.running|) {
      var t := ready[0];
      assert forall u :: u in ready[1..] ==> u in ready && u != t;
      TypedAgent(g, s, t);
      if g.agents[t] in s.busy {
        LaunchReasoned(g, cap, f, s, ready[1..]);
      } else {
        StartSafe(g, cap, s, t);
        StartKeepsReady(g, s, t, ready[1..]);
        StartReasoned(g, cap, f, s, t);
        LaunchReasoned(g, cap, f, Start(g, s, t), ready[1..]);
      }
    }
  }

  lemma StartReasoned(g: Graph, cap: Option<nat>, f: Id -> TaskOutcome, s: State, t: Id)
    requires SafeMidPass(g, cap, s) && AllReasoned(g, f, s) && t in s.status && s.status[t] == Pending && t in g.agents
    ensures AllReasoned(g, f, Start(g, s, t))
  {
    hide Accounted, AllReasoned;
    PendingHasNoRecord(g, cap, s, t);
    ReasonsPersist(g, f, s, Start(g, s, t), t);
  }

  lemma TearDownOneReasoned(g: Graph, cap: Option<nat>, f: Id -> TaskOutcome, s: State, t: Id)
    requires Accounted(g, cap, s) && AllReasoned(g, f, s) && s.stopped && t in s.status
    ensures AllReasoned(g, f, TearDownOne(g, s, t))
  {
    hide SlotsConsistent, OutcomesConsistent, DispatchesConsistent, AllReasoned, Distinct;
    TypedAgent(g, s, t);
    if !IsTerminal(s.status[t]) {
      ReasonsPersist(g, f, s, TearDownOne(g, s, t), t);
    }
  }

  lemma TearDownOfNone(g: Graph, s: State)
    requires Typed(g, s)
    ensures TearDownUpTo(g, s, 0) == s
  {
  }

  lemma TearDownUnfolds(g: Graph, s: State, n: nat)
    requires Typed(g, s) && 0 < n <= |g.ids|
    ensures var m, t := TearDownUpTo(g, s, n - 1), g.ids[n - 1];
            t in m.status && t in g.agents && TearDownUpTo(g, s, n) == TearDownOne(g, m, t)
  {
    hide TearDownOne, Distinct;
  }

  lemma {:induction false} TearDownReasoned(g: Graph, cap: Option<nat>, f: Id -> TaskOutcome, s: State, n: nat)
    requires Accounted(g, cap, s) && AllReasoned(g, f, s) && s.stopped && n <= |g.ids|
    ensures AllReasoned(g, f, TearDownUpTo(g, s, n))
  {
    hide Accounted, AllReasoned, TearDownUpTo, TearDownOne, Typed;
    AccountedTyped(g, cap, s);
    if n == 0 {
      TearDownOfNone(g, s);
    } else {
      TearDownUnfolds(g, s, n);
      TearDownReasoned(g, cap, f, s, n - 1);
      TearDownSafe(g, cap, s, n - 1);
      TearDownOneReasoned(g, cap, f, TearDownUpTo(g, s, n - 1), g.ids[n - 1]);
    }
  }

  lemma FlagsKeepReasons(g: Graph, f: Id -> TaskOutcome, s: State, r: State)
    requires AllReasoned(g, f, s) && (s.stopped ==> r.stopped)
    requires r.status == s.status && r.outcomes == s.outcomes && r.dispatched == s.dispatched
    ensures AllReasoned(g, f, r)
  {
    hide IsBlocking;
  }

  lemma PassReasoned(g: Graph, cap: Option<nat>, f: Id -> TaskOutcome, s: State)
    requires Safe(g, cap, s) && s.phase == Looping && AllReasoned(g, f, s)
    ensures AllReasoned(g, f, LoopPass(g, cap, s))
  {
    hide Accounted, AllReasoned, Distinct, DependenciesCompleted, AllTerminal;
    AccountedTyped(g, cap, s);
    CancelUpToReasoned(g, cap, f, s, |g.ids|);
    CancelUpToSafe(g, cap, s, |g.ids|);
    var m := CancelPass(g, s);
    LatchSafe(g, cap, m);
    FlagsKeepReasons(g, f, m, Latch(m));
    var l := Latch(m);
    if l.stopped {
      TearDownReasoned(g, cap, f, l, |g.ids|);
      TearDownSafe(g, cap, l, |g.ids|);
      FlagsKeepReasons(g, f, TearDownUpTo(g, l, |g.ids|), LoopPass(g, cap, s));
    } else {
      LaunchReasoned(g, cap, f, l, ReadyAmong(g.ids, g.deps, l.status));
      LaunchPassSafe(g, cap, l);
      FlagsKeepReasons(g, f, Sweep(g, cap, s), LoopPass(g, cap, s));
    }
  }

  lemma SettleReasoned(g: Graph, cap: Option<nat>, f: Id -> TaskOutcome, s: State, t: Id)
    requires Safe(g, cap, s) && AllReasoned(g, f, s) && Enabled(g, s, Settle(t, f(t)))
    ensures AllReasoned(g, f, SettleTask(g, s, t, f(t)))
  {
    hide SlotsAccounted, OutcomesRecorded, DispatchesJustified, AllReasoned, Distinct;
    var r := SettleTask(g, s, t, f(t));
    TypedAgent(g, s, t);
    if s.status[t] == Running {
      assert Reasoned(g, f, r, t, f(t));
      ReasonsPersist(g, f, s, r, t);
    } else {
      FlagsKeepReasons(g, f, s, r);
    }
  }

  /** Every outcome of every reachable state has its reason. */
  lemma {:induction false} RunReasoned(g: Graph, cap: Option<nat>, f: Id -> TaskOutcome, events: seq<Event>)
    requires WellFormed(g) && Follows(events, f)
    ensures Run(g, cap, events).Some? ==> AllReasoned(g, f, Run(g, cap, events).value)
  {
    hide Safe, AllReasoned, Distinct, LoopPass, SettleTask;
    if events == [] {
      NothingToReason(g, f);
    } else {
      var last := |events| - 1;
      assert Follows(events[..last], f);
      RunReasoned(g, cap, f, events[..last]);
      RunSafe(g, cap, events[..last]);
      var s := Run(g, cap, events[..last]);
      if s.Some? && Enabled(g, s.value, events[last]) {
        match events[last]
        case Pass => PassReasoned(g, cap, f, s.value);
        case Settle(t, _) => SettleReasoned(g, cap, f, s.value, t);
        case Abort => FlagsKeepReasons(g, f, s.value, AbortRun(s.value));
      }
    }
  }

  lemma NothingToReason(g: Graph, f: Id -> TaskOutcome)
    requires WellFormed(g)
    ensures AllReasoned(g, f, Initial(g))
  {
  }

  /** The outcome of one task, as far as dependencies and its own execution determine it. */
  ghost predicate OutcomeFits(deps: map<Id, seq<Id>>, f: Id -> TaskOutcome, status: map<Id, Status>, t: Id,
      o: TaskOutcome)
    requires IsDag(deps) && t in deps
  {
    if forall d :: d in deps[t] ==> d in deps && Final(deps, f, d) == Completed
    then o == f(t)
    else NamesBlocker(deps, status, t, o)
  }

  /**
   * Outcomes of an unstopped run. A task whose dependencies all complete ends with exactly the
   * outcome of its execution; any other is cancelled for a dependency that really did not complete.
   */
  lemma OutcomesDetermined(g: Graph, cap: Option<nat>, f: Id -> TaskOutcome, events: seq<Event>, s: State)
    requires ValidGraph(g) && Run(g, cap, events) == Some(s) && Follows(events, f)
    requires s.phase == Returned && !s.stopped
    ensures forall t :: t in g.deps ==> t in s.outcomes && OutcomeFits(g.deps, f, s.status, t, s.outcomes[t])
  {
    hide IsDag, Distinct, Safe, AllReasoned, NamesBlocker, Run;
    RunSafe(g, cap, events);
    RunReasoned(g, cap, f, events);
    Confluence(g, cap, f, events, s);
    RecordsAreComplete(g, cap, s);
    forall t | t in g.deps
      ensures OutcomeFits(g.deps, f, s.status, t, s.outcomes[t])
    {
      ReasonOf(g, f, s, t);
      AllKnown(g.deps, t);
    }
  }

  lemma RecordsAreComplete(g: Graph, cap: Option<nat>, s: State)
    requires Safe(g, cap, s) && s.phase == Returned
    ensures forall t :: t in g.deps ==> t in s.outcomes
  {
    hide SlotsConsistent, DispatchesConsistent, Distinct;
  }

  lemma ReasonOf(g: Graph, f: Id -> TaskOutcome, s: State, t: Id)
    requires AllReasoned(g, f, s) && !s.stopped && t in s.outcomes && t in g.deps
    ensures t in s.dispatched ==> s.outcomes[t] == f(t)
    ensures t !in s.dispatched ==> NamesBlocker(g.deps, s.status, t, s.outcomes[t])
  {
    assert Reasoned(g, f, s, t, s.outcomes[t]);
  }

  lemma AllKnown(deps: map<Id, seq<Id>>, t: Id)
    requires IsDag(deps) && t in deps
    ensures forall d :: d in deps[t] ==> d in deps
  {
  }

  /** After a run has returned, a late completion changes no status, no outcome and no order. */
  lemma LateSettleChangesNothing(g: Graph, cap: Option<nat>, events: seq<Event>, s: State, t: Id, o: TaskOutcome)
    requires WellFormed(g) && Run(g, cap, events) == Some(s) && s.phase == Returned && Enabled(g, s, Settle(t, o))
    ensures var r := Apply(g, cap, s, Settle(t, o));
            r.status == s.status && r.outcomes == s.outcomes && r.order == s.order && r.dispatched == s.dispatched
            && r.running == {} == r.busy && r.phase == Returned
  {
    hide SlotsAccounted, OutcomesConsistent, DispatchesConsistent, Distinct;
    RunSafe(g, cap, events);
    NoSlotsInUse(g.agents, cap, s.status, s.running, s.busy);
  }

  // ----- after the abort signal

  lemma {:induction false} TearDownKeepsDispatches(g: Graph, s: State, n: nat)
    requires Typed(g, s) && n <= |g.ids|
    ensures TearDownUpTo(g, s, n).dispatched == s.dispatched && TearDownUpTo(g, s, n).aborted == s.aborted
  {
    if n > 0 {
      TearDownKeepsDispatches(g, s, n - 1);
    }
  }

  lemma AbortedPassStartsNothing(g: Graph, cap: Option<nat>, s: State)
    requires Typed(g, s) && s.aborted
    ensures LoopPass(g, cap, s).dispatched == s.dispatched && LoopPass(g, cap, s).aborted
  {
    hide CancelUpTo, TearDownUpTo, Launch;
    CancelKeepsFlags(g, s, |g.ids|);
    TearDownKeepsDispatches(g, Sweep(g, cap, s), |g.ids|);
  }

  /** A pass leaves the signal alone; it returns once the signal fired, and is stopped by nothing else. */
  lemma PassFlags(g: Graph, cap: Option<nat>, s: State)
    requires Safe(g, cap, s) && Enabled(g, s, Pass)
    ensures LoopPass(g, cap, s).aborted == s.aborted && LoopPass(g, cap, s).stopped == s.aborted
    ensures s.aborted ==> LoopPass(g, cap, s).phase == Returned
  {
    hide Accounted, TearDownUpTo, Sweep, AllTerminal;
    AccountedTyped(g, cap, s);
    SweepSafe(g, cap, s);
    TearDownFlags(g, Sweep(g, cap, s), |g.ids|);
  }

  lemma {:induction false} TearDownFlags(g: Graph, s: State, n: nat)
    requires Typed(g, s) && n <= |g.ids|
    ensures TearDownUpTo(g, s, n).stopped == s.stopped && TearDownUpTo(g, s, n).aborted == s.aborted
  {
    hide TearDownUpTo, Typed;
    if n == 0 {
      TearDownOfNone(g, s);
    } else {
      TearDownUnfolds(g, s, n);
      TearDownFlags(g, s, n - 1);
    }
  }

  /** Once the signal fired no schedule of events executes another task. */
  lemma {:induction false} NothingStartsAfterAbort(g: Graph, cap: Option<nat>, before: seq<Event>, after: seq<Event>)
    requires WellFormed(g) && Run(g, cap, before).Some? && Run(g, cap, before).value.aborted
    ensures var r := Run(g, cap, before + after);
            r.Some? ==> r.value.aborted && r.value.dispatched == Run(g, cap, before).value.dispatched
    decreases |after|
  {
    hide Distinct, LoopPass;
    var last := |after| - 1;
    if after == [] {
      assert before + after == before;
    } else {
      assert (before + after)[..|before| + last] == before + after[..last];
      NothingStartsAfterAbort(g, cap, before, after[..last]);
      var s := Run(g, cap, before + after[..last]);
      if s.Some? && after[last] == Pass {
        AbortedPassStartsNothing(g, cap, s.value);
      }
    }
  }

  /** A signal that had fired before the first pass cancels every task, executing none. */
  lemma AbortedAtOnceCancelsAll(g: Graph, cap: Option<nat>, after: seq<Event>, s: State)
    requires WellFormed(g) && Run(g, cap, [Abort] + after) == Some(s) && s.phase == Returned
    ensures s.dispatched == [] && forall t :: t in g.deps ==> t in s.status && s.status[t] == Cancelled
  {
    hide Distinct, Apply, SlotsAccounted;
    AbortedInitially(g, cap);
    RunStep(g, cap, [], Initial(g), Abort);
    assert [] + [Abort] == [Abort];
    NothingStartsAfterAbort(g, cap, [Abort], after);
    RunSafe(g, cap, [Abort] + after);
  }

  lemma AbortedInitially(g: Graph, cap: Option<nat>)
    requires WellFormed(g)
    ensures Apply(g, cap, Initial(g), Abort).aborted && Apply(g, cap, Initial(g), Abort).dispatched == []
  {
  }

  // ----- the records only grow

  /** Nothing is taken back: what has been completed or executed stays, in that order. */
  ghost predicate Extends(s: State, r: State) {
    s.order <= r.order && s.dispatched <= r.dispatched
  }

  lemma {:induction false} CancelExtends(g: Graph, s: State, n: nat)
    requires Typed(g, s) && n <= |g.ids|
    ensures Extends(s, CancelUpTo(g, s, n))
  {
    hide CancelUpTo, Typed;
    if n == 0 {
      CancelOfNone(g, s);
    } else {
      CancelUnfolds(g, s, n);
      CancelExtends(g, s, n - 1);
    }
  }

  lemma {:induction false} TearDownExtends(g: Graph, s: State, n: nat)
    requires Typed(g, s) && n <= |g.ids|
    ensures Extends(s, TearDownUpTo(g, s, n))
  {
    hide TearDownUpTo, Typed;
    if n == 0 {
      TearDownOfNone(g, s);
    } else {
      TearDownUnfolds(g, s, n);
      TearDownExtends(g, s, n - 1);
    }
  }

  lemma {:induction false} LaunchExtends(g: Graph, cap: Option<nat>, s: State, ready: seq<Id>)
    requires Typed(g, s) && forall t :: t in ready ==> t in g.deps
    ensures Extends(s, Launch(g, cap, s, ready))
    decreases |ready|
  {
    hide Launch, Typed;
    if ready == [] || !HasRoom(cap, |s.running|) {
      LaunchEnds(g, cap, s, ready);
    } else {
      assert ready[0..] == ready;
      LaunchGoesOn(g, cap, s, ready, 0);
      LaunchExtends(g, cap, if g.agents[ready[0]] in s.busy then s else Start(g, s, ready[0]), ready[1..]);
    }
  }

  lemma SweepExtends(g: Graph, cap: Option<nat>, s: State)
    requires Typed(g, s)
    ensures Extends(s, Sweep(g, cap, s))
  {
    hide CancelUpTo, Launch, Distinct;
    CancelExtends(g, s, |g.ids|);
    var m := Latch(CancelPass(g, s));
    if !m.stopped {
      LaunchExtends(g, cap, m, ReadyAmong(g.ids, g.deps, m.status));
    }
  }

  lemma ApplyExtends(g: Graph, cap: Option<nat>, s: State, e: Event)
    requires Typed(g, s) && Enabled(g, s, e)
    ensures Extends(s, Apply(g, cap, s, e))
  {
    hide Sweep, TearDownUpTo, WellFormed, AllTerminal;
    if e == Pass {
      SweepExtends(g, cap, s);
      TearDownExtends(g, Sweep(g, cap, s), |g.ids|);
    }
  }

  /**
   * Over any schedule the completion order and the executions are only ever added to, so the final
   * order lists the tasks in the order in which they became terminal.
   */
  lemma {:induction false} RecordsOnlyGrow(g: Graph, cap: Option<nat>, before: seq<Event>, after: seq<Event>)
    requires WellFormed(g) && Run(g, cap, before + after).Some?
    ensures Run(g, cap, before).Some? && Extends(Run(g, cap, before).value, Run(g, cap, before + after).value)
    decreases |after|
  {
    hide WellFormed, Apply, Enabled;
    var last := |after| - 1;
    if after == [] {
      assert before + after == before;
    } else {
      assert (before + after)[..|before| + last] == before + after[..last];
      RecordsOnlyGrow(g, cap, before, after[..last]);
      ApplyExtends(g, cap, Run(g, cap, before + after[..last]).value, after[last]);
    }
  }

  /** At any return, stopped or not, the completion order is a permutation of the tasks. */
  lemma ReturnedOrderIsPermutation(g: Graph, cap: Option<nat>, events: seq<Event>, s: State)
    requires WellFormed(g) && Run(g, cap, events) == Some(s) && s.phase == Returned
    ensures multiset(s.order) == multiset(g.ids)
  {
    hide SlotsConsistent, DispatchesConsistent, Distinct;
    RunSafe(g, cap, events);
    DistinctPermutation(s.order, g.ids);
  }
}

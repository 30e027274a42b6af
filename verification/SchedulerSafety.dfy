/** What holds in every reachable state of the scheduler, for every schedule of events. */
module SchedulerSafety {
  import opened Collections
  import opened Graphs
  import opened TaskGraphs
  import opened SchedulerSteps

  ghost predicate OneTaskPerAgent(agents: map<Id, Id>, running: set<Id>)
    requires forall t :: t in running ==> t in agents
  {
    forall t, u :: t in running && u in running && agents[t] == agents[u] ==> t == u
  }

  /** Running tasks, their agents and the cap. */
  ghost predicate SlotsAccounted(agents: map<Id, Id>, cap: Option<nat>, status: map<Id, Status>, running: set<Id>,
      busy: set<Id>) {
    && (forall t :: t in running <==> t in status && status[t] == Running)
    && (forall t :: t in running ==> t in agents && agents[t] in busy)
    && (forall a :: a in busy ==> exists t :: t in running && t in agents && agents[t] == a)
    && OneTaskPerAgent(agents, running)
    && (cap.Some? ==> |running| <= cap.value)
  }

  /** The completion order, the outcome table and the terminal statuses describe the same tasks. */
  ghost predicate OutcomesRecorded(status: map<Id, Status>, outcomes: map<Id, TaskOutcome>, order: seq<Id>) {
    && Distinct(order)
    && (forall t :: t in order <==> t in status && IsTerminal(status[t]))
    && (forall t :: t in order <==> t in outcomes)
    && (forall t :: t in outcomes ==> t in status && outcomes[t].status == status[t])
  }

  /** Each task is executed at most once, and only after all its dependencies completed. */
  ghost predicate DispatchesJustified(deps: map<Id, seq<Id>>, status: map<Id, Status>, dispatched: seq<Id>) {
    && Distinct(dispatched)
    && (forall t :: t in dispatched ==>
        t in deps && t in status && status[t] != Pending && DependenciesCompleted(deps, status, t))
    && (forall t :: t in status && (status[t] == Running || status[t] == Completed || status[t] == Failed) ==>
        t in dispatched)
    && (forall t :: t in status ==> status[t] != Ready)
  }

  ghost predicate SlotsConsistent(g: Graph, cap: Option<nat>, s: State) {
    SlotsAccounted(g.agents, cap, s.status, s.running, s.busy)
  }

  ghost predicate OutcomesConsistent(g: Graph, s: State) {
    OutcomesRecorded(s.status, s.outcomes, s.order)
  }

  ghost predicate DispatchesConsistent(g: Graph, s: State) {
    && DispatchesJustified(g.deps, s.status, s.dispatched)
    && (forall t :: t in s.inflight ==> t in s.dispatched)
  }

  ghost predicate PhaseConsistent(g: Graph, s: State)
    requires Typed(g, s)
  {
    && (s.phase == Looping ==> s.inflight == s.running && !s.stopped)
    && (s.phase == Looping && !s.woken ==> s.running != {} && !s.aborted)
    && (s.phase == Stalled ==> s.running == {} && s.inflight == {} && !s.stopped)
    && (s.phase == Returned ==> s.running == {} && AllTerminal(s))
  }

  /** The parts of the invariant that hold at every point of a run. */
  ghost predicate Accounted(g: Graph, cap: Option<nat>, s: State) {
    && Typed(g, s)
    && SlotsConsistent(g, cap, s)
    && OutcomesConsistent(g, s)
    && DispatchesConsistent(g, s)
  }

  ghost predicate Safe(g: Graph, cap: Option<nat>, s: State) {
    Accounted(g, cap, s) && PhaseConsistent(g, s)
  }

  /** Safe in the middle of a pass, where the phase conditions are suspended. */
  ghost predicate SafeMidPass(g: Graph, cap: Option<nat>, s: State) {
    Accounted(g, cap, s) && s.inflight == s.running && s.phase == Looping
  }

  // ----- what each kind of update keeps

  /** A task turning terminal is recorded once, at the end of the order. */
  lemma RecordOutcome(status: map<Id, Status>, outcomes: map<Id, TaskOutcome>, order: seq<Id>, t: Id, o: TaskOutcome)
    requires OutcomesRecorded(status, outcomes, order) && t in status && !IsTerminal(status[t]) && IsTerminal(o.status)
    ensures OutcomesRecorded(status[t := o.status], outcomes[t := o], order + [t])
  {
    hide Distinct;
    DistinctAppend(order, t);
    assert forall u :: u in order + [t] <==> u in order || u == t;
  }

  /** Updating a task that is not completed keeps every dispatch justified. */
  lemma UpdateKeepsDispatches(deps: map<Id, seq<Id>>, status: map<Id, Status>, dispatched: seq<Id>, t: Id, st: Status)
    requires DispatchesJustified(deps, status, dispatched) && t in status && !IsTerminal(status[t])
    requires st == Cancelled || (IsTerminal(st) && status[t] == Running)
    ensures DispatchesJustified(deps, status[t := st], dispatched)
  {
    hide Distinct;
    forall u | u in dispatched
      ensures DependenciesCompleted(deps, status[t := st], u)
    {
      assert DependenciesCompleted(deps, status, u);
    }
  }

  lemma DispatchTask(deps: map<Id, seq<Id>>, status: map<Id, Status>, dispatched: seq<Id>, t: Id)
    requires DispatchesJustified(deps, status, dispatched)
    requires t in deps && t in status && status[t] == Pending && DependenciesCompleted(deps, status, t)
    ensures DispatchesJustified(deps, status[t := Running], dispatched + [t])
  {
    hide Distinct;
    DistinctAppend(dispatched, t);
    forall u | u in dispatched + [t]
      ensures DependenciesCompleted(deps, status[t := Running], u)
    {
      assert u in dispatched || u == t;
      assert DependenciesCompleted(deps, status, u);
    }
  }

  /** A task that stays non-terminal changes no record. */
  lemma UpdateKeepsOutcomes(status: map<Id, Status>, outcomes: map<Id, TaskOutcome>, order: seq<Id>, t: Id, st: Status)
    requires OutcomesRecorded(status, outcomes, order) && t in status && !IsTerminal(status[t]) && !IsTerminal(st)
    ensures OutcomesRecorded(status[t := st], outcomes, order)
  {
    hide Distinct;
  }

  /** A task without a slot changes status without touching the slots. */
  lemma UpdateKeepsSlots(agents: map<Id, Id>, cap: Option<nat>, status: map<Id, Status>, running: set<Id>,
      busy: set<Id>,
                         t: Id, st: Status)
    requires SlotsAccounted(agents, cap, status, running, busy) && t in status && status[t] != Running && st != Running
    ensures SlotsAccounted(agents, cap, status[t := st], running, busy)
    ensures running - {t} == running
  {
  }

  lemma TakeSlot(agents: map<Id, Id>, cap: Option<nat>, status: map<Id, Status>, running: set<Id>, busy: set<Id>, t: Id)
    requires SlotsAccounted(agents, cap, status, running, busy) && t in status && t in agents && status[t] == Pending
    requires HasRoom(cap, |running|) && agents[t] !in busy
    ensures SlotsAccounted(agents, cap, status[t := Running], running + {t}, busy + {agents[t]})
  {
    hide OneTaskPerAgent;
    FreeAgentStaysAlone(agents, running, busy, t);
    var more := running + {t};
    forall a | a in busy + {agents[t]}
      ensures exists u :: u in more && u in agents && agents[u] == a
    {
      if a in busy {
        var u :| u in running && u in agents && agents[u] == a;
        assert u in more;
      } else {
        assert t in more;
      }
    }
  }

  lemma FreeAgentStaysAlone(agents: map<Id, Id>, running: set<Id>, busy: set<Id>, t: Id)
    requires forall u :: u in running ==> u in agents && agents[u] in busy
    requires OneTaskPerAgent(agents, running) && t in agents && agents[t] !in busy
    ensures OneTaskPerAgent(agents, running + {t})
  {
  }

  lemma ReleaseSlot(agents: map<Id, Id>, cap: Option<nat>, status: map<Id, Status>, running: set<Id>, busy: set<Id>,
                    t: Id, st: Status)
    requires SlotsAccounted(agents, cap, status, running, busy) && t in status && t in agents && status[t] == Running
    requires st != Running
    ensures SlotsAccounted(agents, cap, status[t := st], running - {t}, busy - {agents[t]})
  {
    var fewer := running - {t};
    SubsetSize(fewer, running);
    forall a | a in busy - {agents[t]}
      ensures exists u :: u in fewer && u in agents && agents[u] == a
    {
      var u :| u in running && u in agents && agents[u] == a;
      assert u in fewer;
    }
  }

  // ----- cancelling

  lemma CancelBlockedAccounted(g: Graph, cap: Option<nat>, s: State, t: Id, reason: TaskError)
    requires Accounted(g, cap, s) && t in s.status && s.status[t] == Pending
    ensures Accounted(g, cap, CancelBlocked(s, t, reason))
  {
    hide SlotsAccounted, OutcomesRecorded, DispatchesJustified, Distinct;
    RecordOutcome(s.status, s.outcomes, s.order, t, Outcome(Cancelled, reason));
    UpdateKeepsDispatches(g.deps, s.status, s.dispatched, t, Cancelled);
    UpdateKeepsSlots(g.agents, cap, s.status, s.running, s.busy, t, Cancelled);
  }

  lemma MidPassTyped(g: Graph, cap: Option<nat>, s: State)
    requires SafeMidPass(g, cap, s)
    ensures Typed(g, s)
  {
  }

  lemma AccountedTyped(g: Graph, cap: Option<nat>, s: State)
    requires Accounted(g, cap, s)
    ensures Typed(g, s)
  {
  }

  lemma CancelOneSafe(g: Graph, cap: Option<nat>, s: State, t: Id)
    requires SafeMidPass(g, cap, s) && t in s.status && t in g.deps
    ensures SafeMidPass(g, cap, CancelOne(g, s, t))
  {
    hide Accounted;
    if s.status[t] == Pending {
      var d := FirstBlocking(s.status, g.deps[t]);
      if d.Some? {
        CancelBlockedAccounted(g, cap, s, t, DependencyError(d.value, s.status[d.value]));
      }
    }
  }

  lemma {:induction false} CancelUpToSafe(g: Graph, cap: Option<nat>, s: State, n: nat)
    requires SafeMidPass(g, cap, s) && n <= |g.ids|
    ensures SafeMidPass(g, cap, CancelUpTo(g, s, n))
  {
    hide SafeMidPass, Distinct;
    MidPassTyped(g, cap, s);
    if n > 0 {
      CancelUpToSafe(g, cap, s, n - 1);
      CancelOneSafe(g, cap, CancelUpTo(g, s, n - 1), g.ids[n - 1]);
    }
  }

  /** Cancelling touches only statuses, outcomes and the order. */
  lemma {:induction false} CancelKeepsFlags(g: Graph, s: State, n: nat)
    requires Typed(g, s) && n <= |g.ids|
    ensures var r := CancelUpTo(g, s, n);
            r == s.(status := r.status, outcomes := r.outcomes, order := r.order)
  {
    if n > 0 {
      CancelKeepsFlags(g, s, n - 1);
    }
  }

  // ----- launching

  lemma StartAccounted(g: Graph, cap: Option<nat>, s: State, t: Id)
    requires Accounted(g, cap, s) && t in s.status && s.status[t] == Pending && t in g.agents
    requires DependenciesCompleted(g.deps, s.status, t) && HasRoom(cap, |s.running|) && g.agents[t] !in s.busy
    ensures Accounted(g, cap, Start(g, s, t))
  {
    hide SlotsAccounted, OutcomesRecorded, DispatchesJustified, DependenciesCompleted, HasRoom, Distinct;
    TypedAgent(g, s, t);
    TakeSlot(g.agents, cap, s.status, s.running, s.busy, t);
    UpdateKeepsOutcomes(s.status, s.outcomes, s.order, t, Running);
    DispatchTask(g.deps, s.status, s.dispatched, t);
  }

  lemma StartSafe(g: Graph, cap: Option<nat>, s: State, t: Id)
    requires SafeMidPass(g, cap, s) && t in s.status && s.status[t] == Pending && t in g.agents
    requires DependenciesCompleted(g.deps, s.status, t) && HasRoom(cap, |s.running|) && g.agents[t] !in s.busy
    ensures SafeMidPass(g, cap, Start(g, s, t))
  {
    hide Accounted;
    StartAccounted(g, cap, s, t);
  }

  lemma {:induction false} LaunchSafe(g: Graph, cap: Option<nat>, s: State, ready: seq<Id>)
    requires SafeMidPass(g, cap, s) && Distinct(ready)
    requires forall t :: t in ready ==>
        t in s.status && s.status[t] == Pending && DependenciesCompleted(g.deps, s.status, t)
    ensures SafeMidPass(g, cap, Launch(g, cap, s, ready))
    ensures Launch(g, cap, s, ready).stopped == s.stopped && Launch(g, cap, s, ready).aborted == s.aborted
    decreases |ready|
  {
    hide SafeMidPass, DependenciesCompleted;
    MidPassTyped(g, cap, s);
    if ready != [] && HasRoom(cap, |s.running|) {
      var t := ready[0];
      assert forall u :: u in ready[1..] ==> u in ready && u != t;
      TypedAgent(g, s, t);
      if g.agents[t] in s.busy {
        LaunchSafe(g, cap, s, ready[1..]);
      } else {
        StartSafe(g, cap, s, t);
        StartKeepsReady(g, s, t, ready[1..]);
        LaunchSafe(g, cap, Start(g, s, t), ready[1..]);
      }
    }
  }

  /** Starting one task leaves the other ready tasks ready. */
  lemma StartKeepsReady(g: Graph, s: State, t: Id, rest: seq<Id>)
    requires Typed(g, s) && t in s.status && s.status[t] == Pending && t !in rest
    requires forall u :: u in rest ==>
        u in s.status && s.status[u] == Pending && DependenciesCompleted(g.deps, s.status, u)
    ensures forall u :: u in rest ==>
              u in s.status && Start(g, s, t).status[u] == Pending
                  && DependenciesCompleted(g.deps, Start(g, s, t).status, u)
  {
  }

  lemma SweepSafe(g: Graph, cap: Option<nat>, s: State)
    requires Safe(g, cap, s) && s.phase == Looping
    ensures SafeMidPass(g, cap, Sweep(g, cap, s))
    ensures Sweep(g, cap, s).stopped == s.aborted == Sweep(g, cap, s).aborted
  {
    hide Accounted, Distinct;
    AccountedTyped(g, cap, s);
    CancelUpToSafe(g, cap, s, |g.ids|);
    CancelKeepsFlags(g, s, |g.ids|);
    LatchSafe(g, cap, CancelPass(g, s));
    LaunchPassSafe(g, cap, Latch(CancelPass(g, s)));
  }

  lemma LatchSafe(g: Graph, cap: Option<nat>, s: State)
    requires SafeMidPass(g, cap, s)
    ensures SafeMidPass(g, cap, Latch(s))
  {
    hide SlotsAccounted, OutcomesRecorded, DispatchesJustified, Distinct;
  }

  lemma LaunchPassSafe(g: Graph, cap: Option<nat>, s: State)
    requires SafeMidPass(g, cap, s)
    ensures SafeMidPass(g, cap, LaunchPass(g, cap, s))
    ensures LaunchPass(g, cap, s).stopped == s.stopped && LaunchPass(g, cap, s).aborted == s.aborted
  {
    hide SafeMidPass, DependenciesCompleted;
    MidPassTyped(g, cap, s);
    if !s.stopped {
      LaunchSafe(g, cap, s, ReadyAmong(g.ids, g.deps, s.status));
    }
  }

  // ----- teardown

  lemma TearDownOneKeepsTerminal(g: Graph, s: State, t: Id, u: Id)
    requires Typed(g, s) && t in s.status
    ensures var r := TearDownOne(g, s, t);
            && IsTerminal(r.status[t]) && r.stopped == s.stopped
            && (u in s.status && IsTerminal(s.status[u]) ==> r.status[u] == s.status[u])
  {
  }

  lemma TearDownOneAccounted(g: Graph, cap: Option<nat>, s: State, t: Id)
    requires Accounted(g, cap, s) && t in s.status
    ensures Accounted(g, cap, TearDownOne(g, s, t))
  {
    hide SlotsAccounted, OutcomesRecorded, DispatchesJustified, Distinct;
    TypedAgent(g, s, t);
    if !IsTerminal(s.status[t]) {
      RecordOutcome(s.status, s.outcomes, s.order, t, Outcome(Cancelled, RunStopped));
      UpdateKeepsDispatches(g.deps, s.status, s.dispatched, t, Cancelled);
      if s.status[t] == Running {
        ReleaseSlot(g.agents, cap, s.status, s.running, s.busy, t, Cancelled);
      } else {
        UpdateKeepsSlots(g.agents, cap, s.status, s.running, s.busy, t, Cancelled);
      }
    }
  }

  lemma TypedAgent(g: Graph, s: State, t: Id)
    requires Typed(g, s) && t in s.status
    ensures t in g.agents && t in g.deps
  {
  }

  lemma {:induction false} TearDownSafe(g: Graph, cap: Option<nat>, s: State, n: nat)
    requires Accounted(g, cap, s) && n <= |g.ids|
    ensures Accounted(g, cap, TearDownUpTo(g, s, n)) && TearDownUpTo(g, s, n).stopped == s.stopped
  {
    hide Accounted, Distinct;
    AccountedTyped(g, cap, s);
    if n > 0 {
      TearDownSafe(g, cap, s, n - 1);
      TearDownOneAccounted(g, cap, TearDownUpTo(g, s, n - 1), g.ids[n - 1]);
    }
  }

  lemma {:induction false} TearDownTerminates(g: Graph, s: State, n: nat, i: nat)
    requires Typed(g, s) && i < n <= |g.ids|
    ensures IsTerminal(TearDownUpTo(g, s, n).status[g.ids[i]])
  {
    if i < n - 1 {
      TearDownTerminates(g, s, n - 1, i);
    }
    TearDownOneKeepsTerminal(g, TearDownUpTo(g, s, n - 1), g.ids[n - 1], g.ids[i]);
  }

  /** Once every task is terminal no slot is in use. */
  lemma TearDownFreesSlots(g: Graph, cap: Option<nat>, s: State)
    requires Accounted(g, cap, s)
    ensures var r := TearDownUpTo(g, s, |g.ids|); AllTerminal(r) && r.running == {}
  {
    hide OutcomesRecorded, DispatchesJustified, Distinct;
    var r := TearDownUpTo(g, s, |g.ids|);
    TearDownSafe(g, cap, s, |g.ids|);
    forall t | t in r.status
      ensures IsTerminal(r.status[t])
    {
      var i :| 0 <= i < |g.ids| && g.ids[i] == t;
      TearDownTerminates(g, s, |g.ids|, i);
    }
  }

  lemma PhaseChangeKeepsAccounts(g: Graph, cap: Option<nat>, s: State, r: State)
    requires Accounted(g, cap, s) && r == s.(aborted := r.aborted, woken := r.woken, phase := r.phase)
    ensures Accounted(g, cap, r)
  {
    hide SlotsAccounted, OutcomesRecorded, DispatchesJustified, Distinct;
  }

  lemma ConcludeSafe(g: Graph, cap: Option<nat>, s: State)
    requires SafeMidPass(g, cap, s) && s.stopped == s.aborted
    ensures Safe(g, cap, Conclude(g, s))
  {
    hide Accounted, Distinct;
    AccountedTyped(g, cap, s);
    if s.stopped {
      TearDownSafe(g, cap, s, |g.ids|);
      TearDownFreesSlots(g, cap, s);
      PhaseChangeKeepsAccounts(g, cap, TearDownUpTo(g, s, |g.ids|), Conclude(g, s));
    } else {
      PhaseChangeKeepsAccounts(g, cap, s, Conclude(g, s));
    }
  }

  // ----- every event

  lemma InitialSafe(g: Graph, cap: Option<nat>)
    requires WellFormed(g)
    ensures Safe(g, cap, Initial(g))
  {
  }

  lemma SettleKeepsPhase(g: Graph, s: State, t: Id, o: TaskOutcome)
    requires Typed(g, s) && PhaseConsistent(g, s) && Enabled(g, s, Settle(t, o))
    requires t in s.running <==> s.status[t] == Running
    ensures s.status[t] == Running <==> s.phase == Looping
    ensures s.status[t] != Running ==> s.running == {} && s.phase == Returned
    ensures PhaseConsistent(g, SettleTask(g, s, t, o))
  {
  }

  lemma SettleKeepsAccounts(g: Graph, cap: Option<nat>, s: State, t: Id, o: TaskOutcome)
    requires Accounted(g, cap, s) && t in s.status && IsTerminal(o.status)
    requires s.status[t] == Running || s.running == {}
    ensures Accounted(g, cap, SettleTask(g, s, t, o))
  {
    hide SlotsAccounted, OutcomesRecorded, DispatchesJustified, Distinct;
    TypedAgent(g, s, t);
    if s.status[t] == Running {
      RecordOutcome(s.status, s.outcomes, s.order, t, o);
      UpdateKeepsDispatches(g.deps, s.status, s.dispatched, t, o.status);
      ReleaseSlot(g.agents, cap, s.status, s.running, s.busy, t, o.status);
    } else {
      NoSlotsInUse(g.agents, cap, s.status, s.running, s.busy);
      assert s.running - {t} == s.running && s.busy - {g.agents[t]} == s.busy;
    }
  }

  lemma RunningMeansStatus(g: Graph, cap: Option<nat>, s: State, t: Id)
    requires Accounted(g, cap, s) && t in s.status
    ensures t in s.running <==> s.status[t] == Running
  {
  }

  lemma SettleSafe(g: Graph, cap: Option<nat>, s: State, t: Id, o: TaskOutcome)
    requires Safe(g, cap, s) && Enabled(g, s, Settle(t, o))
    ensures Safe(g, cap, SettleTask(g, s, t, o))
  {
    hide Accounted, Distinct, PhaseConsistent;
    AccountedTyped(g, cap, s);
    RunningMeansStatus(g, cap, s, t);
    SettleKeepsPhase(g, s, t, o);
    SettleKeepsAccounts(g, cap, s, t, o);
  }

  lemma NoSlotsInUse(agents: map<Id, Id>, cap: Option<nat>, status: map<Id, Status>, running: set<Id>, busy: set<Id>)
    requires SlotsAccounted(agents, cap, status, running, busy) && running == {}
    ensures busy == {}
  {
  }

  lemma ApplySafe(g: Graph, cap: Option<nat>, s: State, e: Event)
    requires Safe(g, cap, s) && Enabled(g, s, e)
    ensures Safe(g, cap, Apply(g, cap, s, e))
  {
    match e
    case Pass =>
      SweepSafe(g, cap, s);
      ConcludeSafe(g, cap, Sweep(g, cap, s));
    case Settle(t, o) => SettleSafe(g, cap, s, t, o);
    case Abort => AbortSafe(g, cap, s);
  }

  lemma AbortSafe(g: Graph, cap: Option<nat>, s: State)
    requires Safe(g, cap, s)
    ensures Safe(g, cap, AbortRun(s))
  {
    hide Accounted, Distinct;
    PhaseChangeKeepsAccounts(g, cap, s, AbortRun(s));
  }

  /** Safety in every reachable state. */
  lemma {:induction false} RunSafe(g: Graph, cap: Option<nat>, events: seq<Event>)
    requires WellFormed(g)
    ensures Run(g, cap, events).Some? ==> Safe(g, cap, Run(g, cap, events).value)
  {
    hide Safe, Enabled;
    if events == [] {
      InitialSafe(g, cap);
    } else {
      var last := |events| - 1;
      RunSafe(g, cap, events[..last]);
      var s := Run(g, cap, events[..last]);
      if s.Some? && Enabled(g, s.value, events[last]) {
        ApplySafe(g, cap, s.value, events[last]);
      }
    }
  }
}

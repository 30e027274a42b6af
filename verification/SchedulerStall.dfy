/**
 * The exact condition under which the stall error is unreachable: it is unreachable for every
 * agent assignment, cap and schedule if and only if one cancel sweep always suffices.
 */
module SchedulerStall {
  import opened Collections
  import opened Graphs
  import opened TaskGraphs
  import opened SchedulerSteps
  import opened SchedulerSafety
  import opened SchedulerProgress

  /** The same tasks and dependencies under another assignment of agents. */
  function Reassigned(g: Graph, agents: map<Id, Id>): Graph {
    g.(agents := agents)
  }

  ghost predicate NeverStalls(g: Graph)
    requires WellFormed(g)
  {
    forall agents: map<Id, Id>, cap: Option<nat>, events: seq<Event> ::
      agents.Keys == g.deps.Keys && UsableCap(cap) && Run(Reassigned(g, agents), cap, events).Some? ==>
        Run(Reassigned(g, agents), cap, events).value.phase != Stalled
  }

  // ----- sufficiency

  lemma {:induction false} MarkIgnoresAgents(g: Graph, h: Graph, seed: set<Id>, n: nat)
    requires WellFormed(g) && h.ids == g.ids && h.deps == g.deps && n <= |g.ids|
    ensures MarkUpTo(h, seed, n) == MarkUpTo(g, seed, n)
  {
    if n > 0 {
      MarkIgnoresAgents(g, h, seed, n - 1);
    }
  }

  lemma SweepCompleteIgnoresAgents(g: Graph, h: Graph)
    requires WellFormed(g) && WellFormed(h) && h.ids == g.ids && h.deps == g.deps && SweepComplete(g)
    ensures SweepComplete(h)
  {
    hide Distinct;
    forall z, x | z in h.deps && x in h.deps && Touches(h.deps[x], MarkUpTo(h, {z}, |h.ids|))
      ensures x in MarkUpTo(h, {z}, |h.ids|)
    {
      MarkIgnoresAgents(g, h, {z}, |h.ids|);
    }
  }

  lemma SweepCompleteNeverStalls(g: Graph)
    requires WellFormed(g) && IsDag(g.deps) && SweepComplete(g)
    ensures NeverStalls(g)
  {
    hide Distinct, IsDag, SweepComplete;
    forall agents: map<Id, Id>, cap: Option<nat>, events: seq<Event> |
      agents.Keys == g.deps.Keys && UsableCap(cap) && Run(Reassigned(g, agents), cap, events).Some?
      ensures Run(Reassigned(g, agents), cap, events).value.phase != Stalled
    {
      SweepCompleteIgnoresAgents(g, Reassigned(g, agents));
      NoStall(Reassigned(g, agents), cap, events);
    }
  }

  // ----- necessity: a run that stalls when some sweep is incomplete

  /** One agent per task and no cap: nothing but dependencies delays a task. */
  ghost predicate OwnAgents(g: Graph) {
    WellFormed(g) && forall t :: t in g.agents ==> g.agents[t] == t
  }

  ghost predicate NothingBlocks(s: State) {
    forall t :: !IsBlocking(s.status, t)
  }

  ghost predicate NothingReady(g: Graph, s: State)
    requires Typed(g, s)
  {
    forall t :: t in s.status && s.status[t] == Pending ==> !DependenciesCompleted(g.deps, s.status, t)
  }

  /** Waiting for an event, with no failure so far, everything startable started, and `z` unfinished. */
  ghost predicate Quiet(g: Graph, s: State, z: Id) {
    && Safe(g, None, s)
    && s.phase == Looping && !s.woken && !s.aborted
    && NothingBlocks(s)
    && NothingReady(g, s)
    && z in s.status && !IsTerminal(s.status[z])
  }

  lemma {:induction false} CancelPassIdle(g: Graph, s: State, n: nat)
    requires Typed(g, s) && n <= |g.ids| && NothingBlocks(s)
    ensures CancelUpTo(g, s, n) == s
  {
    if n > 0 {
      CancelPassIdle(g, s, n - 1);
    }
  }

  /** With an agent per task and no cap, launching starts every ready task. */
  lemma {:induction false} LaunchStartsAll(g: Graph, s: State, ready: seq<Id>)
    requires OwnAgents(g) && Typed(g, s) && Distinct(ready) && s.busy == s.running
    requires forall t :: t in ready ==> t in s.status && s.status[t] == Pending && t !in s.running
    ensures var r := Launch(g, None, s, ready);
            && (forall t :: t in ready ==> r.status[t] == Running)
            && (forall t :: t in s.status && t !in ready ==> r.status[t] == s.status[t])
            && (s.woken ==> r.woken)
    decreases |ready|
  {
    if ready != [] {
      assert forall u :: u in ready[1..] ==> u in ready && u != ready[0];
      assert forall u :: u in ready ==> u == ready[0] || u in ready[1..];
      LaunchStartsAll(g, Start(g, s, ready[0]), ready[1..]);
    }
  }

  lemma OwnAgentsBusy(g: Graph, s: State)
    requires OwnAgents(g) && Typed(g, s) && SlotsConsistent(g, None, s)
    ensures s.busy == s.running
  {
    assert forall t :: t in s.running ==> g.agents[t] in s.busy;
  }

  lemma LaunchPassStartsAll(g: Graph, s: State)
    requires OwnAgents(g) && SafeMidPass(g, None, s) && !s.stopped
    ensures var r := LaunchPass(g, None, s);
            forall t :: t in s.status ==>
              r.status[t] ==
                  if s.status[t] == Pending && DependenciesCompleted(g.deps, s.status, t)
                  then Running else s.status[t]
  {
    hide OutcomesRecorded, DispatchesJustified, DependenciesCompleted;
    OwnAgentsBusy(g, s);
    LaunchStartsAll(g, s, ReadyAmong(g.ids, g.deps, s.status));
  }

  /** Turning exactly the ready tasks into running ones leaves nothing ready and blocks nothing. */
  lemma StartedIsQuiet(g: Graph, s: State, r: State)
    requires Typed(g, s) && Typed(g, r) && NothingBlocks(s)
    requires forall t :: t in s.status ==>
               r.status[t] ==
                   if s.status[t] == Pending && DependenciesCompleted(g.deps, s.status, t)
                   then Running else s.status[t]
    ensures NothingBlocks(r) && NothingReady(g, r)
  {
    hide WellFormed;
    forall t
      ensures !IsBlocking(r.status, t)
    {
      assert !IsBlocking(s.status, t);
    }
    forall t | t in r.status && r.status[t] == Pending
      ensures !DependenciesCompleted(g.deps, r.status, t)
    {
      var d :| d in g.deps[t] && !(d in s.status && s.status[d] == Completed);
      assert !(d in r.status && r.status[d] == Completed);
    }
  }

  lemma LaunchedIsQuiet(g: Graph, s: State, z: Id)
    requires OwnAgents(g) && SafeMidPass(g, None, s) && !s.stopped && NothingBlocks(s)
    requires z in s.status && !IsTerminal(s.status[z])
    ensures var r := LaunchPass(g, None, s);
            NothingBlocks(r) && NothingReady(g, r) && !IsTerminal(r.status[z])
  {
    hide Accounted, OwnAgents, LaunchPass, DependenciesCompleted, NothingBlocks, NothingReady, Distinct;
    MidPassTyped(g, None, s);
    LaunchPassStartsAll(g, s);
    StartedIsQuiet(g, s, LaunchPass(g, None, s));
  }

  /** A pass without failures starts everything startable and goes back to waiting. */
  lemma PassKeepsQuiet(g: Graph, s: State, z: Id)
    requires OwnAgents(g) && IsDag(g.deps) && Safe(g, None, s)
    requires s.phase == Looping && s.woken && !s.aborted && NothingBlocks(s)
    requires z in s.status && !IsTerminal(s.status[z])
    ensures Quiet(g, LoopPass(g, None, s), z)
  {
    hide Accounted, IsDag, OwnAgents, NothingBlocks, NothingReady, NoBlockedPending, Distinct;
    AccountedTyped(g, None, s);
    OwnAgentsWellFormed(g);
    CancelPassIdle(g, s, |g.ids|);
    ApplySafe(g, None, s, Pass);
    NothingBlocksNoOne(g, s);
    assert Latch(s) == s;
    LaunchedIsQuiet(g, s, z);
    IdleMeansDone(g, None, s);
    LaunchKeepsFlags(g, None, s);
    assert !AllTerminal(LaunchPass(g, None, s));
    QuietIgnoresWoken(g, LaunchPass(g, None, s), LoopPass(g, None, s), z);
  }

  lemma NothingBlocksNoOne(g: Graph, s: State)
    requires Typed(g, s) && NothingBlocks(s)
    ensures NoBlockedPending(g, s)
  {
    forall t, d
      ensures !SpreadFails(g, s, t, d)
    {
      assert !IsBlocking(s.status, d);
    }
  }

  lemma QuietIgnoresWoken(g: Graph, s: State, r: State, z: Id)
    requires Typed(g, s) && r == s.(woken := r.woken)
    requires NothingBlocks(s) && NothingReady(g, s)
    ensures NothingBlocks(r) && NothingReady(g, r)
  {
  }

  lemma LaunchKeepsFlags(g: Graph, cap: Option<nat>, s: State)
    requires Typed(g, s)
    ensures var r := LaunchPass(g, cap, s);
            r.stopped == s.stopped && r.aborted == s.aborted && r.phase == s.phase && r.woken == s.woken
                && r.order == s.order
  {
    if !s.stopped {
      LaunchFlags(g, cap, s, ReadyAmong(g.ids, g.deps, s.status));
    }
  }

  lemma {:induction false} LaunchFlags(g: Graph, cap: Option<nat>, s: State, ready: seq<Id>)
    requires Typed(g, s) && forall t :: t in ready ==> t in g.deps
    ensures var r := Launch(g, cap, s, ready);
            r.stopped == s.stopped && r.aborted == s.aborted && r.phase == s.phase && r.woken == s.woken
                && r.order == s.order
    decreases |ready|
  {
    if ready != [] && HasRoom(cap, |s.running|) {
      if g.agents[ready[0]] in s.busy {
        LaunchFlags(g, cap, s, ready[1..]);
      } else {
        LaunchFlags(g, cap, Start(g, s, ready[0]), ready[1..]);
      }
    }
  }

  const DONE: TaskOutcome := Outcome(Completed, NoError)
  const FAILURE: TaskOutcome := Outcome(Failed, OtherError("failed"))

  lemma DoneBlocksNothing(g: Graph, s: State, t: Id)
    requires Typed(g, s) && t in s.status && NothingBlocks(s)
    ensures NothingBlocks(SettleTask(g, s, t, DONE))
  {
    var r := SettleTask(g, s, t, DONE);
    forall u
      ensures !IsBlocking(r.status, u)
    {
      assert !IsBlocking(s.status, u);
    }
  }

  /** Completing one running task keeps the preconditions of a quiet pass. */
  lemma QuietSettle(g: Graph, s: State, z: Id, t: Id)
    requires Typed(g, s) && Quiet(g, s, z) && t in s.running && t in s.status && t != z
    ensures Enabled(g, s, Settle(t, DONE))
    ensures var r := SettleTask(g, s, t, DONE);
            && Safe(g, None, r)
            && Enabled(g, r, Pass) && r.phase == Looping && r.woken && !r.aborted && !r.stopped && NothingBlocks(r)
            && z in r.status && !IsTerminal(r.status[z]) && r.order == s.order + [t]
  {
    hide OutcomesRecorded, DispatchesJustified, NothingReady, NothingBlocks, Distinct;
    DoneBlocksNothing(g, s, t);
    assert s.status[t] == Running;
    ApplySafe(g, None, s, Settle(t, DONE));
  }

  lemma QuietOrder(g: Graph, r: State)
    requires Typed(g, r) && NothingBlocks(r) && !r.aborted && !r.stopped
    ensures LoopPass(g, None, r).order == r.order
  {
    hide NothingBlocks, Distinct;
    CancelPassIdle(g, r, |g.ids|);
    LaunchKeepsFlags(g, None, r);
    assert Latch(r) == r;
  }

  /** Completing one running task and making a pass stays quiet. */
  lemma QuietStep(g: Graph, s: State, z: Id, t: Id)
    requires OwnAgents(g) && IsDag(g.deps) && Typed(g, s) && Quiet(g, s, z) && t in s.running && t in s.status && t != z
    ensures Enabled(g, s, Settle(t, DONE))
    ensures var r := SettleTask(g, s, t, DONE);
            Enabled(g, r, Pass) && Quiet(g, LoopPass(g, None, r), z) && |LoopPass(g, None, r).order| > |s.order|
  {
    hide *;
    QuietIsTyped(g, s, z);
    QuietSettle(g, s, z, t);
    QuietPass(g, SettleTask(g, s, t, DONE), z);
  }

  lemma QuietPass(g: Graph, r: State, z: Id)
    requires OwnAgents(g) && IsDag(g.deps) && Safe(g, None, r)
    requires r.phase == Looping && r.woken && !r.aborted && !r.stopped && NothingBlocks(r)
    requires z in r.status && !IsTerminal(r.status[z])
    ensures Typed(g, r) && Quiet(g, LoopPass(g, None, r), z) && LoopPass(g, None, r).order == r.order
  {
    hide IsDag, OwnAgents, NothingBlocks, Distinct, Quiet, Accounted, PhaseConsistent, LoopPass;
    AccountedTyped(g, None, r);
    PassKeepsQuiet(g, r, z);
    QuietOrder(g, r);
  }

  lemma QuietIsTyped(g: Graph, s: State, z: Id)
    requires Quiet(g, s, z)
    ensures Typed(g, s) && NothingReady(g, s) && z in s.status && z in g.agents
    ensures forall t :: t in s.running ==> t in s.status && t in g.agents
  {
  }

  lemma OwnAgentsWellFormed(g: Graph)
    requires OwnAgents(g)
    ensures WellFormed(g)
  {
  }

  /** Completing everything that can run without `z` leaves `z` alone in flight. */
  lemma {:induction false} Drain(g: Graph, z: Id, events: seq<Event>, s: State) returns (more: seq<Event>, r: State)
    requires OwnAgents(g) && IsDag(g.deps) && Run(g, None, events) == Some(s) && Quiet(g, s, z)
    ensures Run(g, None, more) == Some(r) && Quiet(g, r, z) && r.running == {z}
    decreases |g.ids| - |s.order|
  {
    hide OutcomesConsistent, DispatchesConsistent, SlotsConsistent, IsDag, NothingReady, NothingBlocks, LoopPass;
    if t :| t in s.running && t != z {
      QuietIsTyped(g, s, z);
      QuietStep(g, s, z, t);
      var m := SettleTask(g, s, t, DONE);
      RunStep(g, None, events, s, Settle(t, DONE));
      RunStep(g, None, events + [Settle(t, DONE)], m, Pass);
      var next := LoopPass(g, None, m);
      OrderBounded(g, next);
      more, r := Drain(g, z, events + [Settle(t, DONE)] + [Pass], next);
    } else {
      more, r := events, s;
      assert forall t :: t in s.running ==> t == z;
    }
  }

  lemma InitialIsDue(g: Graph)
    requires OwnAgents(g)
    ensures Safe(g, None, Initial(g)) && NothingBlocks(Initial(g)) && Enabled(g, Initial(g), Pass)
    ensures Run(g, None, []) == Some(Initial(g))
  {
    InitialSafe(g, None);
  }

  /** From the initial state, the first pass is quiet for any task. */
  lemma FirstPassQuiet(g: Graph, z: Id)
    requires OwnAgents(g) && IsDag(g.deps) && z in g.deps
    ensures Run(g, None, [Pass]) == Some(LoopPass(g, None, Initial(g)))
    ensures Quiet(g, LoopPass(g, None, Initial(g)), z)
  {
    hide Safe, IsDag, Quiet, NothingBlocks, Distinct, OwnAgents, LoopPass, Run, Enabled;
    InitialIsDue(g);
    OwnAgentsWellFormed(g);
    PassKeepsQuiet(g, Initial(g), z);
    RunStep(g, None, [], Initial(g), Pass);
    assert [] + [Pass] == [Pass];
  }

  /** The state right after `z` failed: it alone blocks, and the run is due for a pass. */
  lemma FailureBlocksOnlyItself(g: Graph, s: State, z: Id)
    requires OwnAgents(g) && Typed(g, s) && Quiet(g, s, z) && s.running == {z} && z in s.status
    ensures s.status[z] == Running && Enabled(g, s, Settle(z, FAILURE))
    ensures var f := SettleTask(g, s, z, FAILURE);
            && WellFormed(g) && Enabled(g, f, Pass) && SafeMidPass(g, None, f)
            && f.running == {} && !f.aborted && !f.stopped
            && IsBlocking(f.status, z) && (forall t :: IsBlocking(f.status, t) ==> t == z)
  {
    hide OutcomesRecorded, DispatchesJustified, NothingReady, Distinct;
    assert s.status[z] == Running;
    ApplySafe(g, None, s, Settle(z, FAILURE));
    SafeLooping(g, None, SettleTask(g, s, z, FAILURE));
    forall t | IsBlocking(SettleTask(g, s, z, FAILURE).status, t)
      ensures t == z
    {
      assert !IsBlocking(s.status, t);
    }
  }

  /** What the pass after the failure of `z` leaves: `x` is still pending, and nothing can start. */
  lemma FailureSweep(g: Graph, s: State, z: Id, x: Id, y: Id)
    requires OwnAgents(g) && Typed(g, s) && Quiet(g, s, z) && s.running == {z} && z in s.status
    requires x in g.deps && y in g.deps[x] && y in MarkUpTo(g, {z}, |g.ids|) && x !in MarkUpTo(g, {z}, |g.ids|)
    ensures var m := CancelPass(g, SettleTask(g, s, z, FAILURE));
            && m.status[x] == Pending
            && SafeMidPass(g, None, m)
            && NothingReady(g, m)
  {
    hide OwnAgents, Quiet, NothingReady, NothingBlocks, Distinct, OutcomesRecorded, DispatchesJustified,
        SlotsAccounted, SettleTask, IsBlocking;
    QuietIsTyped(g, s, z);
    FailureBlocksOnlyItself(g, s, z);
    SweepMakesNothingReady(g, s, SettleTask(g, s, z, FAILURE), z);
    var f := SettleTask(g, s, z, FAILURE);
    CancelUpToSafe(g, None, f, |g.ids|);
    MidPassTyped(g, None, f);
    MarkedIsBlocking(g, None, f, z, |g.ids|, y);
    NotSweptNotBlocking(g, f, z, x);
    UnsweptIsPending(g, CancelPass(g, f), x, y);
  }

  lemma NotSweptNotBlocking(g: Graph, f: State, z: Id, x: Id)
    requires Typed(g, f) && x !in MarkUpTo(g, {z}, |g.ids|)
    requires forall t :: IsBlocking(f.status, t) ==> t == z
    ensures !IsBlocking(CancelPass(g, f).status, x)
  {
    if IsBlocking(CancelPass(g, f).status, x) {
      var from := BlockingIsMarked(g, f, |g.ids|, x);
    }
  }

  lemma UnsweptIsPending(g: Graph, m: State, x: Id, y: Id)
    requires Typed(g, m) && SlotsConsistent(g, None, m) && DispatchesConsistent(g, m)
    requires x in g.deps && y in g.deps[x] && IsBlocking(m.status, y) && !IsBlocking(m.status, x)
    ensures m.status[x] == Pending
  {
    assert !DependenciesCompleted(g.deps, m.status, x);
  }

  lemma {:induction false} CancelFrame(g: Graph, s: State, n: nat)
    requires Typed(g, s) && n <= |g.ids|
    ensures forall t :: t in s.status ==>
              CancelUpTo(g, s, n).status[t] == s.status[t]
                  || (s.status[t] == Pending && CancelUpTo(g, s, n).status[t] == Cancelled)
  {
    if n > 0 {
      CancelFrame(g, s, n - 1);
    }
  }

  lemma SweepMakesNothingReady(g: Graph, s: State, f: State, z: Id)
    requires Typed(g, s) && NothingReady(g, s) && z in s.status && s.status[z] == Running
    requires f == SettleTask(g, s, z, FAILURE)
    ensures NothingReady(g, CancelPass(g, f))
  {
    CancelFrame(g, f, |g.ids|);
    var m := CancelPass(g, f);
    hide CancelPass;
    forall t | t in m.status && m.status[t] == Pending
      ensures !DependenciesCompleted(g.deps, m.status, t)
    {
      assert f.status[t] == Pending;
      assert !DependenciesCompleted(g.deps, s.status, t);
      var d :| d in g.deps[t] && !(d in s.status && s.status[d] == Completed);
      assert !(d in m.status && m.status[d] == Completed);
    }
  }

  /** Nothing ready and nothing running while a task is pending: the pass throws. */
  lemma FailureStalls(g: Graph, s: State, z: Id, x: Id, y: Id)
    requires OwnAgents(g) && Typed(g, s) && Quiet(g, s, z) && s.running == {z} && z in s.status
    requires x in g.deps && y in g.deps[x] && y in MarkUpTo(g, {z}, |g.ids|) && x !in MarkUpTo(g, {z}, |g.ids|)
    ensures Enabled(g, s, Settle(z, FAILURE)) && Enabled(g, SettleTask(g, s, z, FAILURE), Pass)
    ensures LoopPass(g, None, SettleTask(g, s, z, FAILURE)).phase == Stalled
  {
    hide OwnAgents, Quiet, NothingReady, SafeMidPass, Distinct, SettleTask, LoopPass;
    QuietIsTyped(g, s, z);
    FailureSweep(g, s, z, x, y);
    FailureBlocksOnlyItself(g, s, z);
    MidPassTyped(g, None, SettleTask(g, s, z, FAILURE));
    IdleUnfinishedStalls(g, SettleTask(g, s, z, FAILURE), x);
  }

  lemma IdleUnfinishedStalls(g: Graph, f: State, x: Id)
    requires Typed(g, f) && f.running == {} && !f.aborted && !f.stopped
    requires x in f.status && CancelPass(g, f).status[x] == Pending && NothingReady(g, CancelPass(g, f))
    ensures LoopPass(g, None, f).phase == Stalled
  {
    hide NothingReady, Distinct;
    CancelKeepsFlags(g, f, |g.ids|);
    var m := CancelPass(g, f);
    NothingToLaunch(g, m);
    assert Latch(m) == m;
    assert !AllTerminal(m);
  }

  lemma NothingToLaunch(g: Graph, m: State)
    requires Typed(g, m) && NothingReady(g, m) && !m.stopped
    ensures LaunchPass(g, None, m) == m
  {
    var ready := ReadyAmong(g.ids, g.deps, m.status);
    assert forall i :: 0 <= i < |ready| ==> ready[i] in ready;
  }

  lemma StallWitness(g: Graph, agents: map<Id, Id>, events: seq<Event>)
    requires WellFormed(g) && agents.Keys == g.deps.Keys
    requires Run(Reassigned(g, agents), None, events).Some?
    requires Run(Reassigned(g, agents), None, events).value.phase == Stalled
    ensures !NeverStalls(g)
  {
  }

  /** A run that fails `z` last, when the sweep from `z` misses a dependent. */
  lemma StallingRun(g: Graph, z: Id, x: Id, y: Id) returns (events: seq<Event>)
    requires OwnAgents(g) && IsDag(g.deps) && z in g.deps
    requires x in g.deps && y in g.deps[x] && y in MarkUpTo(g, {z}, |g.ids|) && x !in MarkUpTo(g, {z}, |g.ids|)
    ensures Run(g, None, events).Some? && Run(g, None, events).value.phase == Stalled
  {
    hide Quiet, IsDag, LoopPass, Distinct, OwnAgents, Run, SettleTask, Enabled, MarkUpTo;
    OwnAgentsWellFormed(g);
    FirstPassQuiet(g, z);
    var before, s := Drain(g, z, [Pass], LoopPass(g, None, Initial(g)));
    QuietIsTyped(g, s, z);
    FailureStalls(g, s, z, x, y);
    RunStep(g, None, before, s, Settle(z, FAILURE));
    var f := SettleTask(g, s, z, FAILURE);
    RunStep(g, None, before + [Settle(z, FAILURE)], f, Pass);
    events := before + [Settle(z, FAILURE)] + [Pass];
  }

  lemma IncompleteSweepStalls(g: Graph)
    requires WellFormed(g) && IsDag(g.deps) && !SweepComplete(g)
    ensures !NeverStalls(g)
  {
    hide IsDag, Distinct, Run, MarkUpTo, NeverStalls;
    var z, x :| z in g.deps && x in g.deps && Touches(g.deps[x], MarkUpTo(g, {z}, |g.ids|))
        && x !in MarkUpTo(g, {z}, |g.ids|);
    var y :| y in g.deps[x] && y in MarkUpTo(g, {z}, |g.ids|);
    var agents := map t | t in g.deps :: t;
    MarkIgnoresAgents(g, Reassigned(g, agents), {z}, |g.ids|);
    var events := StallingRun(Reassigned(g, agents), z, x, y);
    StallWitness(g, agents, events);
  }

  /** The stall error is unreachable, for all agents, caps and schedules, exactly for sweep-complete graphs. */
  lemma NeverStallsIffSweepComplete(g: Graph)
    requires WellFormed(g) && IsDag(g.deps)
    ensures NeverStalls(g) <==> SweepComplete(g)
  {
    if SweepComplete(g) {
      SweepCompleteNeverStalls(g);
    } else {
      IncompleteSweepStalls(g);
    }
  }

  lemma InsertedInOrderNeverStalls(g: Graph)
    requires WellFormed(g) && IsDag(g.deps) && InsertedInOrder(g)
    ensures NeverStalls(g)
  {
    OrderedIsSweepComplete(g);
    SweepCompleteNeverStalls(g);
  }

  // ----- the reversed chain: c needs b, b needs a, inserted c, b, a

  function ReversedChain(a: Id, b: Id, c: Id, agent: Id): Graph {
    Graph([c, b, a], map[a := agent, b := agent, c := agent], ThreeChain(a, b, c))
  }

  lemma ReversedChainIsDag(a: Id, b: Id, c: Id, agent: Id)
    requires a != b && a != c && b != c
    ensures WellFormed(ReversedChain(a, b, c, agent)) && IsDag(ReversedChain(a, b, c, agent).deps)
  {
    hide Acyclic, AdjacencyOf;
    ThreeChainIsAcyclic(a, b, c);
  }

  /** The sweep from `a` reaches `b` after it has passed `c`. */
  lemma ReversedChainSweep(a: Id, b: Id, c: Id, agent: Id)
    requires a != b && a != c && b != c
    ensures var g := ReversedChain(a, b, c, agent);
            b in MarkUpTo(g, {a}, 3) && c !in MarkUpTo(g, {a}, 3)
  {
    var g := ReversedChain(a, b, c, agent);
    assert g.ids[0] == c && g.ids[1] == b && g.ids[2] == a;
    assert MarkUpTo(g, {a}, 0) == {a};
    assert !Touches([b], {a});
    assert MarkUpTo(g, {a}, 1) == {a};
    assert a in [a];
    assert Touches([a], {a});
    assert MarkUpTo(g, {a}, 2) == {a, b};
    assert MarkUpTo(g, {a}, 3) == {a, b};
  }

  /** A three-task chain inserted dependents-first can stall, so the ordering hypothesis is needed. */
  lemma ReversedChainStalls(a: Id, b: Id, c: Id, agent: Id)
    requires a != b && a != c && b != c
    ensures WellFormed(ReversedChain(a, b, c, agent)) && IsDag(ReversedChain(a, b, c, agent).deps)
    ensures !NeverStalls(ReversedChain(a, b, c, agent))
  {
    hide IsDag, NeverStalls, MarkUpTo, Distinct;
    ReversedChainIsDag(a, b, c, agent);
    ReversedChainSweep(a, b, c, agent);
    var g := ReversedChain(a, b, c, agent);
    assert |g.ids| == 3 && b in g.deps[c];
    assert Touches(g.deps[c], MarkUpTo(g, {a}, |g.ids|));
    IncompleteSweepStalls(g);
  }
}

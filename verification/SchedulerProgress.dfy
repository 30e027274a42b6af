/**
 * When the scheduler can stall. Step 1 of a pass is a single forward sweep in insertion order,
 * and the stall check follows at once, so the answer depends on how far one sweep reaches.
 */
module SchedulerProgress {
  import opened Collections
  import opened Graphs
  import opened TaskGraphs
  import opened SchedulerSteps
  import opened SchedulerSafety

  predicate Touches(deps: seq<Id>, marked: set<Id>) {
    exists d :: d in deps && d in marked
  }

  /** Tasks marked by one forward sweep over the first `n` tasks, starting from `seed`. */
  function MarkUpTo(g: Graph, seed: set<Id>, n: nat): (r: set<Id>)
    requires n <= |g.ids| && forall t :: t in g.ids ==> t in g.deps
  {
    if n == 0 then seed
    else
      var m := MarkUpTo(g, seed, n - 1);
      if Touches(g.deps[g.ids[n - 1]], m) then m + {g.ids[n - 1]} else m
  }

  /** One sweep from any single task already marks everything that depends on a marked task. */
  ghost predicate SweepComplete(g: Graph)
    requires WellFormed(g)
  {
    forall z, x :: z in g.deps && x in g.deps && Touches(g.deps[x], MarkUpTo(g, {z}, |g.ids|)) ==>
      x in MarkUpTo(g, {z}, |g.ids|)
  }

  /** Every task is inserted after all its dependencies. */
  ghost predicate InsertedInOrder(g: Graph)
    requires WellFormed(g)
  {
    forall i, d :: 0 <= i < |g.ids| && d in g.deps[g.ids[i]] ==> d in g.ids[..i]
  }

  /** Membership is decided when the sweep visits the task. */
  lemma {:induction false} MarkedAtVisit(g: Graph, seed: set<Id>, n: nat, m: nat, t: Id)
    requires WellFormed(g) && n <= m <= |g.ids|
    ensures MarkUpTo(g, seed, n) <= MarkUpTo(g, seed, m)
    ensures t in MarkUpTo(g, seed, m) && t !in g.ids[n..m] ==> t in MarkUpTo(g, seed, n)
    decreases m
  {
    if n < m {
      MarkedAtVisit(g, seed, n, m - 1, t);
      assert g.ids[n..m] == g.ids[n..m - 1] + [g.ids[m - 1]];
    }
  }

  lemma OrderedDependentIsMarked(g: Graph, seed: set<Id>, i: nat, d: Id)
    requires WellFormed(g) && i < |g.ids| && d in g.deps[g.ids[i]] && d in g.ids[..i]
    requires d in MarkUpTo(g, seed, |g.ids|)
    ensures g.ids[i] in MarkUpTo(g, seed, |g.ids|)
  {
    var n := |g.ids|;
    var j :| 0 <= j < i && g.ids[j] == d;
    assert d !in g.ids[i..n];
    MarkedAtVisit(g, seed, i, n, d);
    MarkedAtVisit(g, seed, i + 1, n, d);
    assert Touches(g.deps[g.ids[i]], MarkUpTo(g, seed, i));
  }

  /** Inserting dependencies first makes every sweep complete. */
  lemma OrderedIsSweepComplete(g: Graph)
    requires WellFormed(g) && InsertedInOrder(g)
    ensures SweepComplete(g)
  {
    hide Distinct;
    forall z, x | z in g.deps && x in g.deps && Touches(g.deps[x], MarkUpTo(g, {z}, |g.ids|))
      ensures x in MarkUpTo(g, {z}, |g.ids|)
    {
      var d :| d in g.deps[x] && d in MarkUpTo(g, {z}, |g.ids|);
      var i :| 0 <= i < |g.ids| && g.ids[i] == x;
      OrderedDependentIsMarked(g, {z}, i, d);
    }
  }

  // ----- one cancel pass against one sweep

  lemma CancelOneKeepsBlocking(g: Graph, s: State, t: Id, u: Id)
    requires Typed(g, s) && t in s.status && IsBlocking(s.status, u)
    ensures IsBlocking(CancelOne(g, s, t).status, u)
  {
  }

  /** Visiting a task with a blocking dependency leaves it blocking: it cannot have been started. */
  lemma VisitBlocks(g: Graph, s: State, t: Id, d: Id)
    requires Typed(g, s) && DispatchesConsistent(g, s) && t in s.status && d in g.deps[t] && IsBlocking(s.status, d)
    ensures IsBlocking(CancelOne(g, s, t).status, t)
  {
    hide Distinct;
    assert !DependenciesCompleted(g.deps, s.status, t);
  }

  /** Everything a sweep marks from a blocking task is blocking after the cancel pass. */
  lemma {:induction false} MarkedIsBlocking(g: Graph, cap: Option<nat>, s: State, z: Id, n: nat, t: Id)
    requires SafeMidPass(g, cap, s) && IsBlocking(s.status, z) && n <= |g.ids|
    requires t in MarkUpTo(g, {z}, n)
    ensures IsBlocking(CancelUpTo(g, s, n).status, t)
  {
    hide SlotsConsistent, OutcomesConsistent, DispatchesConsistent, Distinct, IsBlocking;
    if n > 0 {
      var m, u := CancelUpTo(g, s, n - 1), g.ids[n - 1];
      if t in MarkUpTo(g, {z}, n - 1) {
        MarkedIsBlocking(g, cap, s, z, n - 1, t);
        CancelOneKeepsBlocking(g, m, u, t);
      } else {
        var d :| d in g.deps[u] && d in MarkUpTo(g, {z}, n - 1);
        MarkedIsBlocking(g, cap, s, z, n - 1, d);
        CancelUpToSafe(g, cap, s, n - 1);
        VisitBlocks(g, m, u, d);
      }
    }
  }

  /** A visit makes only the visited task blocking, and only for a dependency that is. */
  lemma NewlyBlocking(g: Graph, m: State, t: Id, y: Id) returns (d: Id)
    requires t in m.status && t in g.deps
    requires IsBlocking(CancelOne(g, m, t).status, y) && !IsBlocking(m.status, y)
    ensures y == t && d in g.deps[t] && IsBlocking(m.status, d)
  {
    d := FirstBlocking(m.status, g.deps[t]).value;
  }

  /** Everything blocking after the cancel pass is marked by a sweep from something blocking before. */
  lemma {:induction false} BlockingIsMarked(g: Graph, s: State, n: nat, y: Id) returns (z: Id)
    requires Typed(g, s) && n <= |g.ids| && IsBlocking(CancelUpTo(g, s, n).status, y)
    ensures IsBlocking(s.status, z) && y in MarkUpTo(g, {z}, n)
  {
    hide Distinct, CancelOne;
    if n == 0 {
      z := y;
    } else {
      var m, t := CancelUpTo(g, s, n - 1), g.ids[n - 1];
      if IsBlocking(m.status, y) {
        z := BlockingIsMarked(g, s, n - 1, y);
      } else {
        var d := NewlyBlocking(g, m, t, y);
        z := BlockingIsMarked(g, s, n - 1, d);
        assert Touches(g.deps[t], MarkUpTo(g, {z}, n - 1));
      }
    }
  }

  ghost predicate NoBlockedPending(g: Graph, s: State)
    requires Typed(g, s)
  {
    forall t, d :: !SpreadFails(g, s, t, d)
  }

  /** After a complete sweep, a task with a blocking dependency is blocking too. */
  lemma BlockingSpreads(g: Graph, cap: Option<nat>, s: State, t: Id, d: Id)
    requires SafeMidPass(g, cap, s) && SweepComplete(g)
    requires t in g.deps && d in g.deps[t] && IsBlocking(CancelPass(g, s).status, d)
    ensures IsBlocking(CancelPass(g, s).status, t)
  {
    hide SlotsConsistent, OutcomesConsistent, DispatchesConsistent, Distinct, IsBlocking;
    var z := BlockingIsMarked(g, s, |g.ids|, d);
    BlockingIsKnown(g, s, z);
    assert Touches(g.deps[t], MarkUpTo(g, {z}, |g.ids|));
    MarkedIsBlocking(g, cap, s, z, |g.ids|, t);
  }

  lemma CancelPassLeavesNoneBlocked(g: Graph, cap: Option<nat>, s: State)
    requires SafeMidPass(g, cap, s) && SweepComplete(g)
    ensures NoBlockedPending(g, CancelPass(g, s))
  {
    hide SweepComplete, CancelPass, Accounted, Distinct;
    MidPassTyped(g, cap, s);
    if !NoBlockedPending(g, CancelPass(g, s)) {
      var t, d :| SpreadFails(g, CancelPass(g, s), t, d);
      BlockingSpreads(g, cap, s, t, d);
    }
  }

  ghost predicate SpreadFails(g: Graph, s: State, t: Id, d: Id)
    requires Typed(g, s)
  {
    t in s.status && s.status[t] == Pending && d in g.deps[t] && IsBlocking(s.status, d)
  }

  lemma BlockingIsKnown(g: Graph, s: State, z: Id)
    requires Typed(g, s) && IsBlocking(s.status, z)
    ensures z in g.deps
  {
  }

  // ----- launching

  /** Nothing changed but pending tasks, which may have become running. */
  ghost predicate OnlyLaunches(s: State, r: State) {
    && s.running <= r.running
    && r.order == s.order && r.aborted == s.aborted && r.stopped == s.stopped && r.phase == s.phase
    && (forall t :: t in s.status ==>
          t in r.status && (r.status[t] == s.status[t] || (s.status[t] == Pending && r.status[t] == Running)))
  }

  lemma LaunchesTwice(s: State, m: State, r: State)
    requires OnlyLaunches(s, m) && OnlyLaunches(m, r)
    ensures OnlyLaunches(s, r)
  {
  }

  lemma StartOnlyLaunches(g: Graph, s: State, t: Id, rest: seq<Id>)
    requires Typed(g, s) && t in s.status && s.status[t] == Pending && t !in rest
    requires forall u :: u in rest ==> u in s.status && s.status[u] == Pending
    ensures t in g.agents && Typed(g, Start(g, s, t)) && OnlyLaunches(s, Start(g, s, t))
    ensures forall u :: u in rest ==> u in s.status && Start(g, s, t).status[u] == Pending
  {
    hide Distinct;
  }

  lemma {:induction false} LaunchFrame(g: Graph, cap: Option<nat>, s: State, ready: seq<Id>)
    requires Typed(g, s) && Distinct(ready)
    requires forall t :: t in ready ==> t in s.status && s.status[t] == Pending
    ensures OnlyLaunches(s, Launch(g, cap, s, ready))
    decreases |ready|
  {
    if ready != [] && HasRoom(cap, |s.running|) {
      hide OnlyLaunches, Typed, Start;
      assert forall u :: u in ready[1..] ==> u in ready && u != ready[0];
      StartOnlyLaunches(g, s, ready[0], ready[1..]);
      if g.agents[ready[0]] in s.busy {
        LaunchFrame(g, cap, s, ready[1..]);
      } else {
        LaunchFrame(g, cap, Start(g, s, ready[0]), ready[1..]);
        LaunchesTwice(s, Start(g, s, ready[0]), Launch(g, cap, Start(g, s, ready[0]), ready[1..]));
      }
    }
  }

  ghost predicate UsableCap(cap: Option<nat>) {
    cap.Some? ==> cap.value >= 1
  }

  /** An idle scheduler starts the first ready task. */
  lemma IdleLaunches(g: Graph, cap: Option<nat>, s: State, ready: seq<Id>)
    requires Typed(g, s) && UsableCap(cap) && s.running == {} && s.busy == {} && ready != [] && Distinct(ready)
    requires forall t :: t in ready ==> t in s.status && s.status[t] == Pending
    ensures Launch(g, cap, s, ready).running != {}
  {
    assert forall u :: u in ready[1..] ==> u in ready && u != ready[0];
    LaunchFrame(g, cap, Start(g, s, ready[0]), ready[1..]);
    assert ready[0] in Start(g, s, ready[0]).running;
  }

  /** With no blocked pending task, an idle scheduler has finished. */
  lemma IdleMeansDone(g: Graph, cap: Option<nat>, s: State)
    requires IsDag(g.deps) && UsableCap(cap) && SafeMidPass(g, cap, s) && !s.stopped
    requires NoBlockedPending(g, s)
    ensures LaunchPass(g, cap, s).running == {} ==> AllTerminal(LaunchPass(g, cap, s))
  {
    hide OutcomesConsistent, NoBlockedPending, IsDag;
    var ready := ReadyAmong(g.ids, g.deps, s.status);
    LaunchFrame(g, cap, s, ready);
    if LaunchPass(g, cap, s).running == {} {
      assert s.running == {};
      assert s.busy == {};
      NothingRunning(g, cap, s);
      if ready != [] {
        IdleLaunches(g, cap, s, ready);
      } else {
        NoneReadyMeansDone(g, s);
      }
    }
  }

  lemma NothingRunning(g: Graph, cap: Option<nat>, s: State)
    requires SafeMidPass(g, cap, s) && s.running == {}
    ensures forall t :: t in s.status ==> s.status[t] != Running && s.status[t] != Ready
  {
  }

  ghost function Waiting(s: State): set<Id> {
    set t | t in s.status && s.status[t] == Pending
  }

  /** A pending task that is neither ready nor blocked waits for another pending task. */
  lemma WaitsForPending(g: Graph, s: State, t: Id)
    requires DependenciesKnown(g.deps) && Typed(g, s) && NoBlockedPending(g, s)
    requires forall u :: u in s.status ==> s.status[u] != Running && s.status[u] != Ready
    requires t in Waiting(s) && !DependenciesCompleted(g.deps, s.status, t)
    ensures AdjacencyOf(g.deps)[t] * Waiting(s) != {}
  {
    var d :| d in g.deps[t] && !(d in s.status && s.status[d] == Completed);
    assert !SpreadFails(g, s, t, d);
    assert d in AdjacencyOf(g.deps)[t] * Waiting(s);
  }

  lemma NoOneWaits(g: Graph, s: State)
    requires IsDag(g.deps) && Typed(g, s) && NoBlockedPending(g, s)
    requires forall t :: t in s.status ==> s.status[t] != Running && s.status[t] != Ready
    requires forall t :: t in Waiting(s) ==> !DependenciesCompleted(g.deps, s.status, t)
    ensures Waiting(s) == {}
  {
    hide NoBlockedPending, Distinct, DependenciesCompleted, WellFormed, AdjacencyOf;
    if Waiting(s) != {} {
      forall t | t in Waiting(s)
        ensures AdjacencyOf(g.deps)[t] * Waiting(s) != {}
      {
        WaitsForPending(g, s, t);
      }
      var c := StuckSetHasCycle(AdjacencyOf(g.deps), Waiting(s));
    }
  }

  lemma NoneReadyMeansDone(g: Graph, s: State)
    requires IsDag(g.deps) && Typed(g, s) && NoBlockedPending(g, s)
    requires forall t :: t in s.status ==> s.status[t] != Running && s.status[t] != Ready
    requires ReadyAmong(g.ids, g.deps, s.status) == []
    ensures AllTerminal(s)
  {
    hide NoBlockedPending, Distinct, DependenciesCompleted, IsDag;
    forall t | t in Waiting(s)
      ensures !DependenciesCompleted(g.deps, s.status, t)
    {
      assert t !in ReadyAmong(g.ids, g.deps, s.status);
    }
    NoOneWaits(g, s);
    assert forall t :: t in s.status && s.status[t] == Pending ==> t in Waiting(s);
  }

  // ----- no stall

  lemma PassDoesNotStall(g: Graph, cap: Option<nat>, s: State)
    requires IsDag(g.deps) && UsableCap(cap) && Safe(g, cap, s) && s.phase == Looping
    requires s.aborted || NoBlockedPending(g, CancelPass(g, s))
    ensures LoopPass(g, cap, s).phase != Stalled
  {
    hide SlotsConsistent, OutcomesConsistent, DispatchesConsistent;
    CancelUpToSafe(g, cap, s, |g.ids|);
    CancelKeepsFlags(g, s, |g.ids|);
    LatchSafe(g, cap, CancelPass(g, s));
    SweepSafe(g, cap, s);
    if !s.aborted {
      IdleMeansDone(g, cap, Latch(CancelPass(g, s)));
    }
  }

  lemma {:induction false} NoStall(g: Graph, cap: Option<nat>, events: seq<Event>)
    requires WellFormed(g) && IsDag(g.deps) && UsableCap(cap) && SweepComplete(g)
    ensures Run(g, cap, events).Some? ==> Run(g, cap, events).value.phase != Stalled
  {
    hide Accounted, SweepComplete, LoopPass, CancelPass, NoBlockedPending, Distinct, IsDag;
    if events != [] {
      var last := |events| - 1;
      NoStall(g, cap, events[..last]);
      RunSafe(g, cap, events[..last]);
      var s := Run(g, cap, events[..last]);
      if s.Some? && Enabled(g, s.value, events[last]) && events[last] == Pass {
        SafeLooping(g, cap, s.value);
        CancelPassLeavesNoneBlocked(g, cap, s.value);
        PassDoesNotStall(g, cap, s.value);
      }
    }
  }

  lemma SafeLooping(g: Graph, cap: Option<nat>, s: State)
    requires Safe(g, cap, s) && s.phase == Looping
    ensures SafeMidPass(g, cap, s)
  {
  }

  // ----- the number of passes

  ghost function Passes(events: seq<Event>): nat {
    if events == [] then 0
    else Passes(events[..|events| - 1]) + if events[|events| - 1] == Pass then 1 else 0
  }

  lemma {:induction false} CancelOrderGrows(g: Graph, s: State, n: nat)
    requires Typed(g, s) && n <= |g.ids|
    ensures |CancelUpTo(g, s, n).order| >= |s.order|
  {
    if n > 0 {
      CancelOrderGrows(g, s, n - 1);
    }
  }

  lemma OrderBounded(g: Graph, s: State)
    requires Typed(g, s) && OutcomesConsistent(g, s)
    ensures |s.order| <= |g.ids|
    ensures (exists t :: t in s.status && s.status[t] == Running) ==> |s.order| < |g.ids|
  {
    DistinctSize(g.ids);
    DistinctWithin(s.order, Elements(g.ids));
    if t :| t in s.status && s.status[t] == Running {
      DistinctWithin(s.order, Elements(g.ids) - {t});
    }
  }

  ghost predicate PassBudget(g: Graph, s: State, passes: nat) {
    && (s.phase == Looping && s.woken && !s.aborted ==> passes <= |s.order|)
    && (s.phase == Looping && !s.woken ==> passes <= |s.order| + 1)
    && (s.phase == Looping && s.woken && s.aborted ==> passes <= |s.order| || passes <= |s.order| + 1 <= |g.ids|)
    && (s.phase != Looping ==> passes <= |g.ids| + 1)
  }

  /**
   * Termination: whatever the schedule, a run makes at most one pass more than it has tasks,
   * and a run that waits has an execution in flight that can wake it.
   */
  lemma {:induction false} PassesBounded(g: Graph, cap: Option<nat>, events: seq<Event>)
    requires WellFormed(g)
    ensures Run(g, cap, events).Some? ==>
              var s := Run(g, cap, events).value;
              && PassBudget(g, s, Passes(events))
              && Passes(events) <= |g.ids| + 1
              && (s.phase == Looping && !s.woken ==> s.inflight != {})
  {
    hide Distinct, LoopPass, SlotsConsistent, OutcomesConsistent, DispatchesConsistent;
    if events != [] {
      var last := |events| - 1;
      PassesBounded(g, cap, events[..last]);
      RunSafe(g, cap, events[..last]);
      RunSafe(g, cap, events);
      var s := Run(g, cap, events[..last]);
      if s.Some? && Enabled(g, s.value, events[last]) {
        StepBudget(g, cap, s.value, events[last], Passes(events[..last]));
      }
    } else {
      assert Run(g, cap, events) == Some(Initial(g));
    }
  }

  lemma PassKeepsOrder(g: Graph, cap: Option<nat>, s: State)
    requires Safe(g, cap, s) && s.phase == Looping
    ensures |Sweep(g, cap, s).order| >= |s.order|
  {
    hide SlotsConsistent, OutcomesConsistent, DispatchesConsistent, Distinct;
    CancelOrderGrows(g, s, |g.ids|);
    var m := Latch(CancelPass(g, s));
    if !m.stopped {
      LaunchFrame(g, cap, m, ReadyAmong(g.ids, g.deps, m.status));
    }
  }

  lemma PassStep(g: Graph, cap: Option<nat>, s: State, passes: nat)
    requires Safe(g, cap, s) && Enabled(g, s, Pass) && PassBudget(g, s, passes)
    ensures PassBudget(g, LoopPass(g, cap, s), passes + 1) && passes <= |g.ids|
  {
    hide SlotsConsistent, OutcomesConsistent, DispatchesConsistent, Distinct, Sweep;
    SweepSafe(g, cap, s);
    PassKeepsOrder(g, cap, s);
    OrderBounded(g, s);
    OrderBounded(g, Sweep(g, cap, s));
  }

  lemma StepBudget(g: Graph, cap: Option<nat>, s: State, e: Event, passes: nat)
    requires Safe(g, cap, s) && Enabled(g, s, e) && PassBudget(g, s, passes)
    ensures var r := Apply(g, cap, s, e);
            var p := passes + if e == Pass then 1 else 0;
            && PassBudget(g, r, p) && p <= |g.ids| + 1
            && (r.phase == Looping && !r.woken ==> r.inflight != {})
  {
    hide DispatchesConsistent, OutcomesConsistent, Distinct, Sweep;
    OrderBounded(g, s);
    ApplySafe(g, cap, s, e);
    if e == Pass {
      PassStep(g, cap, s, passes);
    }
    if e.Abort? && s.phase == Looping && !s.woken {
      var t :| t in s.running;
    }
  }
}

/**
 * What the launch step starts: in insertion order, every ready task whose agent is free, up to the
 * limit. So a run that waits has its slots full or every agent in demand at work.
 */
module SchedulerLaunches {
  import opened Collections
  import opened Graphs
  import opened TaskGraphs
  import opened SchedulerSteps
  import opened SchedulerSafety
  import opened SchedulerProgress

  // ----- the greedy choice

  /** The candidate's agent is idle and not taken by an earlier choice, and the limit leaves a slot. */
  ghost predicate Startable(agents: map<Id, Id>, cap: Option<nat>, inUse: nat, busy: set<Id>, ready: seq<Id>,
      started: seq<Id>, i: nat)
    requires i < |ready| && forall t :: t in ready ==> t in agents
  {
    && agents[ready[i]] !in busy
    && NotTaken(agents, ready, started, i, agents[ready[i]])
    && (cap.Some? ==> inUse + |Only(ready[..i], Elements(started))| < cap.value)
  }

  /** Candidates are taken in order, each exactly when it can be started after the earlier choices. */
  ghost predicate Greedy(agents: map<Id, Id>, cap: Option<nat>, inUse: nat, busy: set<Id>, ready: seq<Id>,
      started: seq<Id>)
    requires forall t :: t in ready ==> t in agents
  {
    && started == Only(ready, Elements(started))
    && forall i :: 0 <= i < |ready| ==>
         (ready[i] in started <==> Startable(agents, cap, inUse, busy, ready, started, i))
  }

  ghost predicate Candidates(g: Graph, s: State, ready: seq<Id>) {
    Distinct(ready) && forall t :: t in ready ==> t in g.agents && t in g.deps && t in s.status && t !in s.running
  }

  lemma GreedyNone(agents: map<Id, Id>, cap: Option<nat>, inUse: nat, busy: set<Id>, ready: seq<Id>)
    requires (forall t :: t in ready ==> t in agents) && (ready == [] || (cap.Some? && inUse >= cap.value))
    ensures Greedy(agents, cap, inUse, busy, ready, [])
  {
    OnlyNothing(ready);
  }

  lemma {:induction false} OnlyNothing(ready: seq<Id>)
    ensures Only(ready, Elements([])) == []
  {
    if ready != [] {
      OnlyNothing(ready[1..]);
    }
  }

  /** The slots taken before position `i`, seen from the first candidate. */
  lemma EarlierCons(t: Id, rest: seq<Id>, started: seq<Id>, chosen: seq<Id>, i: nat)
    requires 0 < i <= |rest| && t !in rest && chosen == (if t in chosen then [t] + started else started)
    ensures |Only(([t] + rest)[..i], Elements(chosen))|
         == |Only(rest[..i - 1], Elements(started))| + (if t in chosen then 1 else 0)
    ensures forall x :: x in rest ==> (x in chosen <==> x in started)
  {
    assert ([t] + rest)[..i] == [t] + rest[..i - 1];
    OnlyCons(t, rest[..i - 1], Elements(chosen));
    assert forall x :: x in rest[..i - 1] ==> x in rest;
    OnlySame(rest[..i - 1], Elements(chosen), Elements(started));
  }

  /** The first candidate's agent is busy: it is passed over. */
  lemma GreedySkips(agents: map<Id, Id>, cap: Option<nat>, inUse: nat, busy: set<Id>, t: Id, rest: seq<Id>,
      started: seq<Id>)
    requires (forall u :: u in [t] + rest ==> u in agents) && Distinct([t] + rest) && agents[t] in busy
    requires (forall u :: u in rest ==> u in agents) && Greedy(agents, cap, inUse, busy, rest, started)
    ensures Greedy(agents, cap, inUse, busy, [t] + rest, started)
  {
    hide Distinct;
    var ready := [t] + rest;
    DistinctCons(t, rest);
    OnlyCons(t, rest, Elements(started));
    assert t !in started;
    forall i | 0 <= i < |ready|
      ensures ready[i] in started <==> Startable(agents, cap, inUse, busy, ready, started, i)
    {
      if i > 0 {
        EarlierCons(t, rest, started, started, i);
        ShiftedChoice(agents, t, rest, started, started, i, agents[rest[i - 1]]);
      }
    }
  }

  /** No choice before position `i` took the agent `a`. */
  ghost predicate NotTaken(agents: map<Id, Id>, ready: seq<Id>, started: seq<Id>, i: nat, a: Id)
    requires i <= |ready| && forall t :: t in ready ==> t in agents
  {
    forall j :: 0 <= j < i && ready[j] in started ==> agents[ready[j]] != a
  }

  /** The earlier choices, seen from the first candidate. */
  lemma ShiftedChoice(agents: map<Id, Id>, t: Id, rest: seq<Id>, started: seq<Id>, chosen: seq<Id>, i: nat, a: Id)
    requires 0 < i <= |rest| && (forall u :: u in [t] + rest ==> u in agents) && forall u :: u in rest ==> u in agents
    requires t in agents && forall x :: x in rest ==> (x in chosen <==> x in started)
    ensures NotTaken(agents, [t] + rest, chosen, i, a) <==>
        (t in chosen ==> agents[t] != a) && NotTaken(agents, rest, started, i - 1, a)
  {
    var ready := [t] + rest;
    assert ready[0] == t && forall j :: 0 <= j < |rest| ==> rest[j] in rest;
    if NotTaken(agents, ready, chosen, i, a) {
      forall j | 0 <= j < i - 1 && rest[j] in started
        ensures agents[rest[j]] != a
      {
        assert ready[j + 1] == rest[j];
      }
    }
    if (t in chosen ==> agents[t] != a) && NotTaken(agents, rest, started, i - 1, a) {
      forall j | 0 <= j < i && ready[j] in chosen
        ensures agents[ready[j]] != a
      {
        if j > 0 {
          assert ready[j] == rest[j - 1];
        }
      }
    }
  }

  /** The first candidate is started, and takes a slot and its agent. */
  lemma GreedyTakes(agents: map<Id, Id>, cap: Option<nat>, inUse: nat, busy: set<Id>, t: Id, rest: seq<Id>,
      started: seq<Id>)
    requires (forall u :: u in [t] + rest ==> u in agents) && Distinct([t] + rest)
    requires agents[t] !in busy && (cap.Some? ==> inUse < cap.value)
    requires (forall u :: u in rest ==> u in agents) && Greedy(agents, cap, inUse + 1, busy + {agents[t]}, rest, started)
    ensures Greedy(agents, cap, inUse, busy, [t] + rest, [t] + started)
  {
    hide Distinct;
    var ready, chosen := [t] + rest, [t] + started;
    DistinctCons(t, rest);
    OnlyCons(t, rest, Elements(chosen));
    OnlySame(rest, Elements(chosen), Elements(started));
    forall i | 0 <= i < |ready|
      ensures ready[i] in chosen <==> Startable(agents, cap, inUse, busy, ready, chosen, i)
    {
      if i == 0 {
        assert ready[..0] == [];
      } else {
        EarlierCons(t, rest, started, chosen, i);
        ShiftedChoice(agents, t, rest, started, chosen, i, agents[rest[i - 1]]);
        assert ready[i] == rest[i - 1];
      }
    }
  }

  /** The launch of a list of candidates is the greedy choice among them. */
  lemma {:induction false} LaunchIsGreedy(g: Graph, cap: Option<nat>, s: State, ready: seq<Id>) returns (started: seq<Id>)
    requires Typed(g, s) && Candidates(g, s, ready)
    ensures Launch(g, cap, s, ready).dispatched == s.dispatched + started
    ensures Launch(g, cap, s, ready).running == s.running + Elements(started)
    ensures forall t :: t in ready ==> t in g.agents
    ensures Greedy(g.agents, cap, |s.running|, s.busy, ready, started)
    decreases |ready|
  {
    hide Typed, Greedy, Launch, Start, Candidates, Distinct, Elements;
    CandidatesKnown(g, s, ready);
    if ready == [] || (cap.Some? && |s.running| >= cap.value) {
      started := [];
      NoneTaken(s.running, s.dispatched);
      LaunchEnds(g, cap, s, ready);
      GreedyNone(g.agents, cap, |s.running|, s.busy, ready);
    } else {
      var t, rest := ready[0], ready[1..];
      assert ready == [t] + rest && ready[0..] == ready;
      CandidatesCons(g, s, t, rest);
      LaunchGoesOn(g, cap, s, ready, 0);
      if g.agents[t] in s.busy {
        started := LaunchIsGreedy(g, cap, s, rest);
        GreedySkips(g.agents, cap, |s.running|, s.busy, t, rest, started);
      } else {
        StartTakes(g, s, t, rest);
        var more := LaunchIsGreedy(g, cap, Start(g, s, t), rest);
        GreedyTakes(g.agents, cap, |s.running|, s.busy, t, rest, more);
        started := [t] + more;
        TakenFirst(s.running, s.dispatched, t, more);
      }
    }
  }

  lemma NoneTaken(running: set<Id>, dispatched: seq<Id>)
    ensures running + Elements([]) == running && dispatched + [] == dispatched
  {
  }

  lemma TakenFirst(running: set<Id>, dispatched: seq<Id>, t: Id, more: seq<Id>)
    ensures (running + {t}) + Elements(more) == running + Elements([t] + more)
    ensures (dispatched + [t]) + more == dispatched + ([t] + more)
  {
    assert forall x :: x in [t] + more <==> x == t || x in more;
  }

  lemma CandidatesKnown(g: Graph, s: State, ready: seq<Id>)
    requires Candidates(g, s, ready)
    ensures forall t :: t in ready ==> t in g.agents && t in g.deps
  {
  }

  lemma CandidatesCons(g: Graph, s: State, t: Id, rest: seq<Id>)
    requires Candidates(g, s, [t] + rest)
    ensures t in g.agents && t in s.status && t !in s.running && t !in rest && Candidates(g, s, rest)
    ensures Distinct([t] + rest)
  {
    hide Distinct;
    DistinctCons(t, rest);
    assert forall u :: u in [t] + rest <==> u == t || u in rest;
  }

  lemma StartTakes(g: Graph, s: State, t: Id, rest: seq<Id>)
    requires Typed(g, s) && t in s.status && t in g.agents && t !in s.running && t !in rest && Candidates(g, s, rest)
    ensures var m := Start(g, s, t);
            && Typed(g, m) && Candidates(g, m, rest)
            && m.running == s.running + {t} && |m.running| == |s.running| + 1
            && m.busy == s.busy + {g.agents[t]} && m.dispatched == s.dispatched + [t]
  {
    hide Distinct, WellFormed;
  }

  // ----- one pass

  /** Pending tasks all of whose dependencies completed. */
  ghost function ReadySet(g: Graph, s: State): set<Id> {
    set t | t in s.status && t in g.deps && s.status[t] == Pending
        && forall d :: d in g.deps[t] ==> d in s.status && s.status[d] == Completed
  }

  lemma {:induction false} ReadyInOrder(ids: seq<Id>, deps: map<Id, seq<Id>>, status: map<Id, Status>, ready: set<Id>)
    requires forall t :: t in ids ==> t in deps && t in status
    requires forall t :: t in ids ==> (t in ready <==> status[t] == Pending && DependenciesCompleted(deps, status, t))
    ensures ReadyAmong(ids, deps, status) == Only(ids, ready)
  {
    hide DependenciesCompleted;
    if ids != [] {
      var front, t := ids[..|ids| - 1], ids[|ids| - 1];
      assert ids == front + [t];
      ReadyInOrder(front, deps, status, ready);
      OnlySnoc(front, t, ready);
    }
  }

  /**
   * An unstopped pass starts the greedy choice among the ready tasks in insertion order: one is passed
   * over only if its agent was busy or taken by an earlier one, or the limit was reached.
   */
  lemma PassStartsGreedily(g: Graph, cap: Option<nat>, events: seq<Event>, s: State) returns (started: seq<Id>)
    requires WellFormed(g) && Run(g, cap, events) == Some(s) && Enabled(g, s, Pass) && !s.aborted
    ensures var m, r := CancelPass(g, s), LoopPass(g, cap, s);
            && r.dispatched == s.dispatched + started
            && m.running == s.running && m.busy == s.busy
            && r.running == s.running + Elements(started)
            && Greedy(g.agents, cap, |s.running|, s.busy, Only(g.ids, ReadySet(g, m)), started)
  {
    hide Run, Greedy, Enabled, Safe, CancelUpTo, SafeMidPass, LoopPass, Launch, Candidates, ReadySet;
    RunSafe(g, cap, events);
    PassIsLaunch(g, cap, s);
    var m := CancelPass(g, s);
    ReadyCandidates(g, cap, m);
    started := LaunchIsGreedy(g, cap, m, Only(g.ids, ReadySet(g, m)));
  }

  /** An unstopped pass launches from the state after its cancellations. */
  lemma PassIsLaunch(g: Graph, cap: Option<nat>, s: State)
    requires Safe(g, cap, s) && Enabled(g, s, Pass) && !s.aborted
    ensures Typed(g, s) && SafeMidPass(g, cap, CancelPass(g, s)) && Typed(g, CancelPass(g, s))
    ensures var m := CancelPass(g, s);
            && m.running == s.running && m.busy == s.busy && m.dispatched == s.dispatched
            && (forall t :: t in ReadyAmong(g.ids, g.deps, m.status) ==> t in g.deps)
            && var r, l := LoopPass(g, cap, s), Launch(g, cap, m, ReadyAmong(g.ids, g.deps, m.status));
               r == l.(woken := r.woken, phase := r.phase)
  {
    hide CancelUpTo, Launch, Accounted, Distinct, WellFormed, LoopPass;
    NotStopped(g, cap, s);
    CancelUpToSafe(g, cap, s, |g.ids|);
    CancelKeepsFlags(g, s, |g.ids|);
    var m := CancelPass(g, s);
    MidPassTyped(g, cap, m);
    SweepIsLaunch(g, cap, s);
    LaunchPassSafe(g, cap, m);
    PassEnds(g, cap, s);
  }

  lemma SweepIsLaunch(g: Graph, cap: Option<nat>, s: State)
    requires Typed(g, s) && Typed(g, CancelPass(g, s)) && !CancelPass(g, s).stopped && !CancelPass(g, s).aborted
    ensures var m := CancelPass(g, s);
            && (forall t :: t in ReadyAmong(g.ids, g.deps, m.status) ==> t in g.deps)
            && LaunchPass(g, cap, m) == Launch(g, cap, m, ReadyAmong(g.ids, g.deps, m.status))
            && Sweep(g, cap, s) == LaunchPass(g, cap, m)
  {
    hide CancelUpTo, Launch, Distinct;
    assert Latch(CancelPass(g, s)) == CancelPass(g, s);
  }

  lemma PassEnds(g: Graph, cap: Option<nat>, s: State)
    requires Typed(g, s) && !Sweep(g, cap, s).stopped
    ensures var r, l := LoopPass(g, cap, s), Sweep(g, cap, s); r == l.(woken := r.woken, phase := r.phase)
  {
    hide Sweep, TearDownUpTo, AllTerminal;
  }

  lemma NotStopped(g: Graph, cap: Option<nat>, s: State)
    requires Safe(g, cap, s) && s.phase == Looping
    ensures SafeMidPass(g, cap, s) && !s.stopped && Typed(g, s)
  {
  }

  lemma ReadyCandidates(g: Graph, cap: Option<nat>, m: State)
    requires SafeMidPass(g, cap, m)
    ensures ReadyAmong(g.ids, g.deps, m.status) == Only(g.ids, ReadySet(g, m))
    ensures Candidates(g, m, Only(g.ids, ReadySet(g, m)))
  {
    hide OutcomesConsistent, DispatchesConsistent, Distinct;
    ReadyInOrder(g.ids, g.deps, m.status, ReadySet(g, m));
  }

  // ----- waiting runs

  /** The slots are full, or the agent of every ready task is working on another task. */
  ghost predicate FullyLoaded(g: Graph, cap: Option<nat>, s: State) {
    (cap.Some? && |s.running| == cap.value)
    || forall t :: t in ReadySet(g, s) && t in g.agents ==>
         exists u :: u in s.running && u in g.agents && g.agents[u] == g.agents[t]
  }

  /** With a free slot, the greedy choice leaves no candidate whose agent is idle. */
  lemma GreedyLeavesNone(agents: map<Id, Id>, cap: Option<nat>, inUse: nat, busy: set<Id>, ready: seq<Id>,
      started: seq<Id>, t: Id)
    requires (forall u :: u in ready ==> u in agents) && Greedy(agents, cap, inUse, busy, ready, started)
    requires (cap.Some? ==> inUse + |started| < cap.value) && t in ready && t !in started
    ensures agents[t] in busy || exists u :: u in started && u in agents && agents[u] == agents[t]
  {
    var i :| 0 <= i < |ready| && ready[i] == t;
    OnlyShorter(ready, i, Elements(started));
    assert !Startable(agents, cap, inUse, busy, ready, started, i);
  }

  lemma {:induction false} OnlyShorter(s: seq<Id>, i: nat, keep: set<Id>)
    requires i <= |s|
    ensures |Only(s[..i], keep)| <= |Only(s, keep)|
  {
    if i > 0 {
      assert s[..i][1..] == s[1..][..i - 1];
      OnlyShorter(s[1..], i - 1, keep);
    }
  }

  /** A pass that leaves the run waiting leaves it fully loaded. */
  lemma PassLoads(g: Graph, cap: Option<nat>, events: seq<Event>, s: State)
    requires WellFormed(g) && Run(g, cap, events) == Some(s) && Enabled(g, s, Pass)
    requires LoopPass(g, cap, s).phase == Looping
    ensures FullyLoaded(g, cap, LoopPass(g, cap, s))
  {
    hide Run, Safe, LoopPass, CancelUpTo, SafeMidPass, Greedy, ReadySet;
    RunSafe(g, cap, events);
    ApplySafe(g, cap, s, Pass);
    NotStopped(g, cap, s);
    AbortEnds(g, cap, s);
    PassIsLaunch(g, cap, s);
    var m, r := CancelPass(g, s), LoopPass(g, cap, s);
    var started := PassStartsGreedily(g, cap, events, s);
    StartedFresh(g, cap, s, started);
    WithinLimit(g, cap, r);
    if !(cap.Some? && |r.running| == cap.value) {
      forall t | t in ReadySet(g, r) && t in g.agents
        ensures exists u :: u in r.running && u in g.agents && g.agents[u] == g.agents[t]
      {
        StillReady(g, cap, s, t);
        var ready := Only(g.ids, ReadySet(g, m));
        if t in started {
          RunningNotReady(g, cap, r, t);
        }
        CandidatesHaveAgents(g, m);
        GreedyLeavesNone(g.agents, cap, |s.running|, s.busy, ready, started, t);
        if g.agents[t] in s.busy {
          BusyMeansRunning(g, cap, s, g.agents[t]);
        }
      }
    }
  }

  lemma CandidatesHaveAgents(g: Graph, m: State)
    requires Typed(g, m)
    ensures forall t :: t in Only(g.ids, ReadySet(g, m)) ==> t in g.agents
  {
  }

  lemma AbortEnds(g: Graph, cap: Option<nat>, s: State)
    requires Typed(g, s)
    ensures s.aborted ==> LoopPass(g, cap, s).phase != Looping
  {
    hide CancelUpTo, Launch, TearDownUpTo;
    CancelKeepsFlags(g, s, |g.ids|);
  }

  lemma WithinLimit(g: Graph, cap: Option<nat>, r: State)
    requires Safe(g, cap, r)
    ensures cap.Some? ==> |r.running| <= cap.value
  {
  }

  lemma RunningNotReady(g: Graph, cap: Option<nat>, r: State, t: Id)
    requires Safe(g, cap, r) && t in r.running
    ensures t !in ReadySet(g, r)
  {
  }

  lemma BusyMeansRunning(g: Graph, cap: Option<nat>, s: State, a: Id)
    requires Safe(g, cap, s) && a in s.busy
    ensures exists u :: u in s.running && u in g.agents && g.agents[u] == a
  {
  }

  /** Started tasks are new in the running table, so each takes a slot of its own. */
  lemma StartedFresh(g: Graph, cap: Option<nat>, s: State, started: seq<Id>)
    requires Typed(g, s) && Safe(g, cap, s)
    requires LoopPass(g, cap, s).running == s.running + Elements(started)
    requires LoopPass(g, cap, s).dispatched == s.dispatched + started
    requires Safe(g, cap, LoopPass(g, cap, s))
    ensures |LoopPass(g, cap, s).running| == |s.running| + |started|
  {
    hide LoopPass, Distinct, Accounted;
    DispatchedOnce(g, cap, LoopPass(g, cap, s));
    DistinctParts(s.dispatched, started);
    forall t | t in s.running
      ensures t !in started
    {
      RunningWasDispatched(g, cap, s, t);
    }
    DistinctSize(started);
    assert s.running !! Elements(started);
  }

  lemma DispatchedOnce(g: Graph, cap: Option<nat>, s: State)
    requires Safe(g, cap, s)
    ensures Distinct(s.dispatched)
  {
    hide SlotsConsistent, OutcomesConsistent;
  }

  lemma DistinctParts(a: seq<Id>, b: seq<Id>)
    requires Distinct(a + b)
    ensures Distinct(b) && forall x :: x in a ==> x !in b
  {
    var c := a + b;
    forall i, j | 0 <= i < j < |b|
      ensures b[i] != b[j]
    {
      assert c[|a| + i] == b[i] && c[|a| + j] == b[j];
    }
    forall x | x in a
      ensures x !in b
    {
      var i :| 0 <= i < |a| && a[i] == x;
      assert forall j :: 0 <= j < |b| ==> c[i] != c[|a| + j] && c[|a| + j] == b[j];
    }
  }

  lemma RunningWasDispatched(g: Graph, cap: Option<nat>, s: State, t: Id)
    requires Safe(g, cap, s) && t in s.running
    ensures t in s.dispatched
  {
  }

  /** What is ready after the pass was ready before the launch. */
  lemma StillReady(g: Graph, cap: Option<nat>, s: State, t: Id)
    requires Safe(g, cap, s) && Enabled(g, s, Pass) && LoopPass(g, cap, s).phase == Looping
    requires t in ReadySet(g, LoopPass(g, cap, s))
    ensures t in Only(g.ids, ReadySet(g, CancelPass(g, s)))
  {
    hide Safe, LoopPass, Launch, Distinct;
    NotStopped(g, cap, s);
    AbortEnds(g, cap, s);
    PassIsLaunch(g, cap, s);
    var m := CancelPass(g, s);
    MidPassTyped(g, cap, m);
    LaunchedKeepsReady(g, cap, m, t);
  }

  lemma LaunchedKeepsReady(g: Graph, cap: Option<nat>, m: State, t: Id)
    requires Typed(g, m) && forall u :: u in ReadyAmong(g.ids, g.deps, m.status) ==> u in g.deps
    requires t in ReadySet(g, Launch(g, cap, m, ReadyAmong(g.ids, g.deps, m.status)))
    ensures t in Only(g.ids, ReadySet(g, m))
  {
    hide Launch, Distinct;
    ReadyDistinct(g, m);
    LaunchFrame(g, cap, m, ReadyAmong(g.ids, g.deps, m.status));
    assert t in g.ids;
  }

  lemma ReadyDistinct(g: Graph, m: State)
    requires Typed(g, m)
    ensures Distinct(ReadyAmong(g.ids, g.deps, m.status))
  {
  }

  /**
   * Work conservation: in every reachable state in which a run waits, whatever the schedule, either
   * the limit is reached or every ready task waits for an agent that is working on another one.
   */
  lemma {:induction false} WaitingIsFullyLoaded(g: Graph, cap: Option<nat>, events: seq<Event>, s: State)
    requires WellFormed(g) && Run(g, cap, events) == Some(s) && s.phase == Looping && !s.woken
    ensures FullyLoaded(g, cap, s)
  {
    hide LoopPass, FullyLoaded, Distinct;
    if events != [] {
      var last := |events| - 1;
      var before := Run(g, cap, events[..last]).value;
      match events[last]
      case Pass => PassLoads(g, cap, events[..last], before);
      case Settle(_, _) =>
      case Abort => WaitingIsFullyLoaded(g, cap, events[..last], before);
    }
  }
}

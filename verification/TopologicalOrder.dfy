/**
 * The planner's deterministic topological order: repeated sweeps over the task list in
 * declaration order, emitting every task whose dependencies are already done.
 */
module TopologicalOrders {
  import opened Collections
  import opened Graphs
  import opened TaskGraphs
  import opened Plans

  function IdSet(tasks: seq<RoutedTask>): set<Id> {
    set t | t in tasks :: t.id
  }

  predicate AllDone(deps: seq<Id>, done: set<Id>) {
    forall d :: d in deps ==> d in done
  }

  /** One sweep: the tasks it emits, in order. */
  function Sweep(tasks: seq<RoutedTask>, deps: map<Id, seq<Id>>, done: set<Id>): (out: seq<RoutedTask>)
    requires forall t :: t in tasks ==> t.id in deps
    ensures forall t :: t in out ==> t in tasks && t.id !in done
  {
    if tasks == [] then []
    else if tasks[0].id !in done && AllDone(deps[tasks[0].id], done)
    then [tasks[0]] + Sweep(tasks[1..], deps, done + {tasks[0].id})
    else Sweep(tasks[1..], deps, done)
  }

  /** Sweeps until one emits nothing. */
  function Rounds(tasks: seq<RoutedTask>, deps: map<Id, seq<Id>>, done: set<Id>): seq<RoutedTask>
    requires forall t :: t in tasks ==> t.id in deps
    decreases IdSet(tasks) - done
  {
    var out := Sweep(tasks, deps, done);
    if out == [] then []
    else
      assert out[0] in out && out[0].id in IdSet(tasks) - done;
      out + Rounds(tasks, deps, done + IdSet(out))
  }

  /** None stands for the error that the plan is not a DAG. */
  function TopologicalOrder(tasks: seq<RoutedTask>): Option<seq<RoutedTask>> {
    TableCovers(tasks);
    var order := Rounds(tasks, DependencyTable(tasks), {});
    if |order| < |tasks| then None else Some(order)
  }

  lemma TableCovers(tasks: seq<RoutedTask>)
    ensures forall t :: t in tasks ==> t.id in DependencyTable(tasks)
  {
    forall t | t in tasks
      ensures t.id in DependencyTable(tasks)
    {
      var i :| 0 <= i < |tasks| && tasks[i] == t;
      assert Ids(tasks)[i] == t.id;
    }
  }

  // ----- what the sweeps emit

  /** Emitted in dependency order, without repetition, from `done` on. */
  ghost predicate Emitted(out: seq<RoutedTask>, deps: map<Id, seq<Id>>, done: set<Id>) {
    && (forall i :: 0 <= i < |out| ==> out[i].id in deps && out[i].id !in done)
    && (forall i, j :: 0 <= i < j < |out| ==> out[i].id != out[j].id)
    && (forall i :: 0 <= i < |out| ==> AllDone(deps[out[i].id], done + IdSet(out[..i])))
  }

  lemma EmittedConcat(a: seq<RoutedTask>, b: seq<RoutedTask>, deps: map<Id, seq<Id>>, done: set<Id>)
    requires Emitted(a, deps, done) && Emitted(b, deps, done + IdSet(a))
    ensures Emitted(a + b, deps, done)
  {
    var c := a + b;
    forall i | 0 <= i < |c|
      ensures c[i].id in deps && c[i].id !in done && AllDone(deps[c[i].id], done + IdSet(c[..i]))
    {
      if i < |a| {
        assert c[..i] == a[..i];
      } else {
        assert c[..i] == a + b[..i - |a|];
        assert IdSet(c[..i]) == IdSet(a) + IdSet(b[..i - |a|]);
      }
    }
    assert forall i :: 0 <= i < |a| ==> a[i] in a && a[i].id in IdSet(a);
  }

  lemma {:induction false} SweepEmits(tasks: seq<RoutedTask>, deps: map<Id, seq<Id>>, done: set<Id>)
    requires forall t :: t in tasks ==> t.id in deps
    ensures Emitted(Sweep(tasks, deps, done), deps, done)
  {
    if tasks != [] {
      var t := tasks[0];
      if t.id !in done && AllDone(deps[t.id], done) {
        SweepEmits(tasks[1..], deps, done + {t.id});
        assert IdSet([t]) == {t.id};
        EmittedConcat([t], Sweep(tasks[1..], deps, done + {t.id}), deps, done);
      } else {
        SweepEmits(tasks[1..], deps, done);
      }
    }
  }

  lemma {:induction false} RoundsEmit(tasks: seq<RoutedTask>, deps: map<Id, seq<Id>>, done: set<Id>)
    requires forall t :: t in tasks ==> t.id in deps
    ensures Emitted(Rounds(tasks, deps, done), deps, done)
    ensures forall t :: t in Rounds(tasks, deps, done) ==> t in tasks
    decreases IdSet(tasks) - done
  {
    var out := Sweep(tasks, deps, done);
    if out != [] {
      assert out[0] in out && out[0].id in IdSet(tasks) - done;
      SweepEmits(tasks, deps, done);
      RoundsEmit(tasks, deps, done + IdSet(out));
      EmittedConcat(out, Rounds(tasks, deps, done + IdSet(out)), deps, done);
    }
  }

  /** A task a sweep leaves behind is done already or has a dependency that is not done after the sweep started. */
  lemma {:induction false} SweepSkips(tasks: seq<RoutedTask>, deps: map<Id, seq<Id>>, done: set<Id>, t: RoutedTask)
    requires forall u :: u in tasks ==> u.id in deps
    requires t in tasks && t.id !in done && Sweep(tasks, deps, done) == []
    ensures !AllDone(deps[t.id], done)
  {
    if tasks[0] != t {
      SweepSkips(tasks[1..], deps, done, t);
    }
  }

  /** Once the rounds end, every task not emitted waits for something not emitted. */
  lemma {:induction false} RoundsEnd(tasks: seq<RoutedTask>, deps: map<Id, seq<Id>>, done: set<Id>, t: RoutedTask)
    requires forall u :: u in tasks ==> u.id in deps
    requires t in tasks && t.id !in done + IdSet(Rounds(tasks, deps, done))
    ensures !AllDone(deps[t.id], done + IdSet(Rounds(tasks, deps, done)))
    decreases IdSet(tasks) - done
  {
    var out := Sweep(tasks, deps, done);
    if out == [] {
      SweepSkips(tasks, deps, done, t);
      assert done + IdSet([]) == done;
    } else {
      assert out[0] in out && out[0].id in IdSet(tasks) - done;
      var rest := Rounds(tasks, deps, done + IdSet(out));
      assert IdSet(out + rest) == IdSet(out) + IdSet(rest);
      assert done + IdSet(out + rest) == done + IdSet(out) + IdSet(rest);
      RoundsEnd(tasks, deps, done + IdSet(out), t);
    }
  }

  // ----- the order exists exactly for closed acyclic plans

  /** Distinct ids, and dependencies that are known, not the task itself, and acyclic. */
  ghost predicate IsOrderable(tasks: seq<RoutedTask>) {
    Distinct(Ids(tasks)) && IsDag(DependencyTable(tasks))
  }

  /** A permutation of the tasks with every task after its dependencies. */
  ghost predicate IsLinearization(order: seq<RoutedTask>, tasks: seq<RoutedTask>) {
    && multiset(order) == multiset(tasks)
    && Distinct(Ids(order))
    && forall i, d :: 0 <= i < |order| && d in Declared(order[i].dependsOn) ==> d in Ids(order[..i])
  }

  lemma IdSetIsElements(tasks: seq<RoutedTask>)
    ensures IdSet(tasks) == Elements(Ids(tasks))
  {
    forall u | u in IdSet(tasks)
      ensures u in Ids(tasks)
    {
      var t :| t in tasks && t.id == u;
      var i :| 0 <= i < |tasks| && tasks[i] == t;
      assert Ids(tasks)[i] == u;
    }
    forall u | u in Ids(tasks)
      ensures u in IdSet(tasks)
    {
      var i :| 0 <= i < |tasks| && Ids(tasks)[i] == u;
      assert tasks[i] in tasks;
    }
  }

  lemma EmittedIsDistinct(order: seq<RoutedTask>, deps: map<Id, seq<Id>>)
    requires Emitted(order, deps, {})
    ensures Distinct(Ids(order)) && |IdSet(order)| == |order|
  {
    IdSetIsElements(order);
    DistinctSize(Ids(order));
  }

  /** An order as long as the plan covers the plan, whose ids are then distinct. */
  lemma FullOrderCovers(tasks: seq<RoutedTask>, order: seq<RoutedTask>)
    requires Emitted(order, DependencyTable(tasks), {}) && |order| >= |tasks|
    requires forall t :: t in order ==> t in tasks
    ensures |order| == |tasks| && Distinct(Ids(tasks)) && Distinct(Ids(order))
    ensures IdSet(order) == IdSet(tasks)
  {
    EmittedIsDistinct(order, DependencyTable(tasks));
    IdSetIsElements(tasks);
    ElementsBound(Ids(tasks));
    SubsetSize(IdSet(order), IdSet(tasks));
    FullSizeIsDistinct(Ids(tasks));
  }

  lemma FullOrderAt(tasks: seq<RoutedTask>, order: seq<RoutedTask>, i: nat)
    requires Emitted(order, DependencyTable(tasks), {}) && i < |order|
    ensures order[i].id in DependencyTable(tasks)
    ensures forall d :: d in DependencyTable(tasks)[order[i].id] ==> d in Ids(order)[..i]
  {
    assert Ids(order)[..i] == Ids(order[..i]);
    IdSetIsElements(order[..i]);
  }

  /** The ids of a full order are a topological order of the table. */
  lemma FullOrderIsTopological(tasks: seq<RoutedTask>, order: seq<RoutedTask>)
    requires Emitted(order, DependencyTable(tasks), {}) && IdSet(order) == IdSet(tasks) && Distinct(Ids(order))
    ensures IsDag(DependencyTable(tasks))
  {
    hide Distinct, Emitted;
    var deps := DependencyTable(tasks);
    IdSetIsElements(tasks);
    IdSetIsElements(order);
    assert forall u :: u in Ids(order) <==> u in IdSet(order);
    assert forall u :: u in Ids(tasks) <==> u in IdSet(tasks);
    FullOrderIsClosed(tasks, order);
    forall i | 0 <= i < |order|
      ensures Ids(order)[i] in AdjacencyOf(deps)
      ensures forall d :: d in AdjacencyOf(deps)[Ids(order)[i]] ==> d in Ids(order)[..i]
    {
      FullOrderAt(tasks, order, i);
    }
    TopologicalIsAcyclic(AdjacencyOf(deps), Ids(order));
  }

  lemma FullOrderIsClosed(tasks: seq<RoutedTask>, order: seq<RoutedTask>)
    requires Emitted(order, DependencyTable(tasks), {}) && Distinct(Ids(order))
    requires forall u :: u in DependencyTable(tasks) <==> u in Ids(order)
    ensures DependenciesKnown(DependencyTable(tasks))
  {
    hide Emitted;
    var deps := DependencyTable(tasks);
    forall u, d | u in deps && d in deps[u]
      ensures d in deps && d != u
    {
      var i :| 0 <= i < |order| && Ids(order)[i] == u;
      FullOrderAt(tasks, order, i);
    }
  }

  /** In an orderable plan the rounds leave nothing behind. */
  lemma OrderableIsEmitted(tasks: seq<RoutedTask>)
    requires IsOrderable(tasks)
    requires forall t :: t in tasks ==> t.id in DependencyTable(tasks)
    ensures |Rounds(tasks, DependencyTable(tasks), {})| >= |tasks|
  {
    hide Distinct, Emitted;
    var deps := DependencyTable(tasks);
    var order := Rounds(tasks, deps, {});
    RoundsEmit(tasks, deps, {});
    EmittedIsDistinct(order, deps);
    NothingStuck(tasks);
    IdSetIsElements(tasks);
    DistinctSize(Ids(tasks));
    SubsetSize(IdSet(tasks), IdSet(order));
  }

  lemma NothingStuck(tasks: seq<RoutedTask>)
    requires IsDag(DependencyTable(tasks))
    requires forall t :: t in tasks ==> t.id in DependencyTable(tasks)
    ensures IdSet(tasks) <= IdSet(Rounds(tasks, DependencyTable(tasks), {}))
  {
    hide AdjacencyOf;
    var deps := DependencyTable(tasks);
    var stuck := IdSet(tasks) - IdSet(Rounds(tasks, deps, {}));
    forall u | u in stuck
      ensures u in deps && AdjacencyOf(deps)[u] * stuck != {}
    {
      StuckTaskWaits(tasks, u);
    }
    if stuck != {} {
      var c := StuckSetHasCycle(AdjacencyOf(deps), stuck);
    }
    assert forall u :: u in IdSet(tasks) && u !in IdSet(Rounds(tasks, deps, {})) ==> u in stuck;
  }

  lemma StuckTaskWaits(tasks: seq<RoutedTask>, u: Id)
    requires DependenciesKnown(DependencyTable(tasks)) && forall t :: t in tasks ==> t.id in DependencyTable(tasks)
    requires u in IdSet(tasks) - IdSet(Rounds(tasks, DependencyTable(tasks), {}))
    ensures u in DependencyTable(tasks)
    ensures AdjacencyOf(DependencyTable(tasks))[u]
         * (IdSet(tasks) - IdSet(Rounds(tasks, DependencyTable(tasks), {}))) != {}
  {
    var deps := DependencyTable(tasks);
    var out := IdSet(Rounds(tasks, deps, {}));
    var t :| t in tasks && t.id == u;
    assert {} + out == out;
    RoundsEnd(tasks, deps, {}, t);
    var d :| d in deps[u] && d !in out;
    IdSetIsElements(tasks);
    assert d in AdjacencyOf(deps)[u] * (IdSet(tasks) - out);
  }

  /** topologicalOrder succeeds exactly on plans with distinct ids and closed, self-free, acyclic dependencies. */
  lemma OrderExistsIff(tasks: seq<RoutedTask>)
    ensures TopologicalOrder(tasks).Some? <==> IsOrderable(tasks)
  {
    TableCovers(tasks);
    var order := Rounds(tasks, DependencyTable(tasks), {});
    RoundsEmit(tasks, DependencyTable(tasks), {});
    if TopologicalOrder(tasks).Some? {
      FullOrderCovers(tasks, order);
      FullOrderIsTopological(tasks, order);
    }
    if IsOrderable(tasks) {
      OrderableIsEmitted(tasks);
    }
  }

  /** Its result is a permutation of the plan in dependency order. */
  lemma OrderIsLinearization(tasks: seq<RoutedTask>)
    requires TopologicalOrder(tasks).Some?
    ensures IsLinearization(TopologicalOrder(tasks).value, tasks)
  {
    hide IsDag;
    TableCovers(tasks);
    var deps := DependencyTable(tasks);
    var order := TopologicalOrder(tasks).value;
    RoundsEmit(tasks, deps, {});
    FullOrderCovers(tasks, order);
    SameTasks(tasks, order);
    forall i, d | 0 <= i < |order| && d in Declared(order[i].dependsOn)
      ensures d in Ids(order[..i])
    {
      OwnEntry(tasks, order[i]);
      assert d in IdSet(order[..i]);
      IdSetIsElements(order[..i]);
    }
  }

  lemma OwnEntry(tasks: seq<RoutedTask>, t: RoutedTask)
    requires Distinct(Ids(tasks)) && t in tasks
    ensures t.id in DependencyTable(tasks) && DependencyTable(tasks)[t.id] == Declared(t.dependsOn)
  {
    var i :| 0 <= i < |tasks| && tasks[i] == t;
    TableOfDistinct(RoutedDeclarations(tasks), i);
  }

  lemma DistinctIdsDistinctTasks(tasks: seq<RoutedTask>)
    requires Distinct(Ids(tasks))
    ensures Distinct(tasks)
    ensures forall t, u :: t in tasks && u in tasks && t.id == u.id ==> t == u
  {
    forall i, j | 0 <= i < j < |tasks|
      ensures tasks[i] != tasks[j]
    {
      assert Ids(tasks)[i] != Ids(tasks)[j];
    }
    forall t, u | t in tasks && u in tasks && t.id == u.id
      ensures t == u
    {
      var i :| 0 <= i < |tasks| && tasks[i] == t;
      var j :| 0 <= j < |tasks| && tasks[j] == u;
      assert Ids(tasks)[i] == Ids(tasks)[j];
    }
  }

  lemma SameTasks(tasks: seq<RoutedTask>, order: seq<RoutedTask>)
    requires Distinct(Ids(tasks)) && Distinct(Ids(order)) && IdSet(order) == IdSet(tasks)
    requires forall t :: t in order ==> t in tasks
    ensures multiset(order) == multiset(tasks)
  {
    DistinctIdsDistinctTasks(tasks);
    DistinctIdsDistinctTasks(order);
    forall t | t in tasks
      ensures t in order
    {
      assert t.id in IdSet(order);
      var u :| u in order && u.id == t.id;
    }
    DistinctPermutation(order, tasks);
  }

  // ----- a plan already in order is left alone

  ghost predicate AlreadyOrdered(tasks: seq<RoutedTask>) {
    Distinct(Ids(tasks)) && forall i, d :: 0 <= i < |tasks| && d in Declared(tasks[i].dependsOn) ==>
        d in Ids(tasks[..i])
  }

  /** The first sweep emits the rest of an ordered plan once the part before it is done. */
  lemma {:induction false} OrderedSweep(tasks: seq<RoutedTask>, from: nat)
    requires AlreadyOrdered(tasks) && from <= |tasks| && forall t :: t in tasks ==> t.id in DependencyTable(tasks)
    ensures Sweep(tasks[from..], DependencyTable(tasks), IdSet(tasks[..from])) == tasks[from..]
    decreases |tasks| - from
  {
    hide AlreadyOrdered, AllDone, DependencyTable, Distinct, Sweep, IdSet;
    var deps := DependencyTable(tasks);
    if from == |tasks| {
      assert tasks[from..] == [];
      SweepOfNone(deps);
    } else {
      OrderedStep(tasks, from);
      OrderedIsDistinct(tasks);
      OrderedIsFresh(tasks, from);
      OrderedSweep(tasks, from + 1);
      DoneGrows(tasks, from);
      SweepVisit(tasks, from, deps, IdSet(tasks[..from]));
      assert tasks[from..] == [tasks[from]] + tasks[from + 1..];
    }
  }

  lemma OrderedIsDistinct(tasks: seq<RoutedTask>)
    requires AlreadyOrdered(tasks)
    ensures Distinct(Ids(tasks))
  {
  }

  lemma DoneGrows(tasks: seq<RoutedTask>, i: nat)
    requires i < |tasks|
    ensures IdSet(tasks[..i + 1]) == IdSet(tasks[..i]) + {tasks[i].id}
  {
    assert tasks[..i + 1] == tasks[..i] + [tasks[i]];
  }

  lemma OrderedStep(tasks: seq<RoutedTask>, i: nat)
    requires AlreadyOrdered(tasks) && i < |tasks|
    ensures tasks[i].id in DependencyTable(tasks) && AllDone(DependencyTable(tasks)[tasks[i].id], IdSet(tasks[..i]))
  {
    TableOfDistinct(RoutedDeclarations(tasks), i);
    IdSetIsElements(tasks[..i]);
  }

  lemma OrderedIsFresh(tasks: seq<RoutedTask>, i: nat)
    requires Distinct(Ids(tasks)) && i < |tasks|
    ensures tasks[i].id !in IdSet(tasks[..i])
  {
    IdSetIsElements(tasks[..i]);
    assert Ids(tasks[..i]) == Ids(tasks)[..i];
  }

  lemma {:induction false} SweepNothing(tasks: seq<RoutedTask>, deps: map<Id, seq<Id>>, done: set<Id>)
    requires forall t :: t in tasks ==> t.id in deps && t.id in done
    ensures Sweep(tasks, deps, done) == []
  {
    if tasks != [] {
      SweepNothing(tasks[1..], deps, done);
    }
  }

  lemma OrderedIsFixed(tasks: seq<RoutedTask>)
    requires AlreadyOrdered(tasks)
    ensures TopologicalOrder(tasks) == Some(tasks)
  {
    TableCovers(tasks);
    var deps := DependencyTable(tasks);
    OrderedSweep(tasks, 0);
    assert tasks[0..] == tasks && tasks[..0] == [] && IdSet([]) == {};
    SweepNothing(tasks, deps, {} + IdSet(tasks));
    assert Rounds(tasks, deps, {} + IdSet(tasks)) == [];
    assert tasks + [] == tasks;
  }

  // ----- restriction to a dependency-closed part of the plan

  function Restrict(tasks: seq<RoutedTask>, keep: set<Id>): seq<RoutedTask> {
    if tasks == [] then []
    else (if tasks[0].id in keep then [tasks[0]] else []) + Restrict(tasks[1..], keep)
  }

  lemma {:induction false} RestrictConcat(a: seq<RoutedTask>, b: seq<RoutedTask>, keep: set<Id>)
    ensures Restrict(a + b, keep) == Restrict(a, keep) + Restrict(b, keep)
  {
    if a == [] {
      assert a + b == b;
    } else {
      assert (a + b)[1..] == a[1..] + b;
      RestrictConcat(a[1..], b, keep);
    }
  }

  lemma {:induction false} RestrictMembers(tasks: seq<RoutedTask>, keep: set<Id>)
    ensures forall t :: t in Restrict(tasks, keep) <==> t in tasks && t.id in keep
    ensures IdSet(Restrict(tasks, keep)) == IdSet(tasks) * keep
  {
    if tasks != [] {
      RestrictMembers(tasks[1..], keep);
    }
    forall u | u in IdSet(tasks) * keep
      ensures u in IdSet(Restrict(tasks, keep))
    {
      var t :| t in tasks && t.id == u;
      assert t in Restrict(tasks, keep);
    }
  }

  /** `keep` holds the dependencies of all its members, under tables that agree on it. */
  ghost predicate ClosedUnder(keep: set<Id>, deps: map<Id, seq<Id>>, part: map<Id, seq<Id>>) {
    && (forall u :: u in keep && u in deps ==> u in part && part[u] == deps[u])
    && (forall u, d :: u in keep && u in deps && d in deps[u] ==> d in keep)
  }

  /** A sweep of the restriction is the restriction of the sweep. */
  lemma {:induction false} RestrictSweep(tasks: seq<RoutedTask>, deps: map<Id, seq<Id>>, part: map<Id, seq<Id>>,
                                         done: set<Id>, keep: set<Id>)
    requires (forall t :: t in tasks ==> t.id in deps) && ClosedUnder(keep, deps, part)
    requires forall t :: t in Restrict(tasks, keep) ==> t.id in part
    ensures Sweep(Restrict(tasks, keep), part, done * keep) == Restrict(Sweep(tasks, deps, done), keep)
  {
    if tasks != [] {
      var t, rest := tasks[0], tasks[1..];
      RestrictMembers(tasks, keep);
      RestrictMembers(rest, keep);
      var emits := t.id !in done && AllDone(deps[t.id], done);
      if t.id in keep {
        assert t.id in part && part[t.id] == deps[t.id];
        assert AllDone(part[t.id], done * keep) <==> AllDone(deps[t.id], done);
        assert Restrict(tasks, keep)[1..] == Restrict(rest, keep);
      } else {
        assert Restrict(tasks, keep) == Restrict(rest, keep);
      }
      if emits {
        RestrictSweep(rest, deps, part, done + {t.id}, keep);
        RestrictConcat([t], Sweep(rest, deps, done + {t.id}), keep);
        assert (done + {t.id}) * keep == if t.id in keep then done * keep + {t.id} else done * keep;
      } else {
        RestrictSweep(rest, deps, part, done, keep);
      }
    }
  }

  /** The rounds of the restriction are the restriction of the rounds. */
  lemma {:induction false} RestrictRounds(tasks: seq<RoutedTask>, deps: map<Id, seq<Id>>, part: map<Id, seq<Id>>,
                                          done: set<Id>, keep: set<Id>)
    requires (forall t :: t in tasks ==> t.id in deps) && ClosedUnder(keep, deps, part)
    requires forall t :: t in Restrict(tasks, keep) ==> t.id in part
    ensures Rounds(Restrict(tasks, keep), part, done * keep) == Restrict(Rounds(tasks, deps, done), keep)
    decreases IdSet(tasks) - done
  {
    var out := Sweep(tasks, deps, done);
    RestrictSweep(tasks, deps, part, done, keep);
    if out != [] {
      assert out[0] in out && out[0].id in IdSet(tasks) - done;
      var next := done + IdSet(out);
      RestrictRounds(tasks, deps, part, next, keep);
      RestrictConcat(out, Rounds(tasks, deps, next), keep);
      RestrictMembers(out, keep);
      assert next * keep == done * keep + IdSet(Restrict(out, keep));
      if Restrict(out, keep) == [] {
        assert next * keep == done * keep;
      }
    }
  }

  lemma {:induction false} RestrictIsDistinct(tasks: seq<RoutedTask>, keep: set<Id>)
    requires Distinct(Ids(tasks))
    ensures Distinct(Ids(Restrict(tasks, keep)))
  {
    if tasks != [] {
      var rest := tasks[1..];
      assert Ids(rest) == Ids(tasks)[1..];
      RestrictIsDistinct(rest, keep);
      RestrictMembers(rest, keep);
      IdSetIsElements(rest);
      IdSetIsElements(Restrict(rest, keep));
      if tasks[0].id in keep {
        assert Restrict(tasks, keep) == [tasks[0]] + Restrict(rest, keep);
        assert Ids(Restrict(tasks, keep)) == [tasks[0].id] + Ids(Restrict(rest, keep));
        assert tasks[0].id !in Ids(rest);
        assert tasks[0].id !in IdSet(rest) * keep;
      } else {
        assert Restrict(tasks, keep) == Restrict(rest, keep);
      }
    }
  }

  /** The plan and its order restrict to equally many tasks. */
  lemma RestrictSameSize(tasks: seq<RoutedTask>, order: seq<RoutedTask>, keep: set<Id>)
    requires Distinct(Ids(tasks)) && Distinct(Ids(order)) && IdSet(tasks) == IdSet(order)
    ensures |Restrict(tasks, keep)| == |Restrict(order, keep)|
  {
    RestrictSize(tasks, keep);
    RestrictSize(order, keep);
  }

  lemma RestrictSize(tasks: seq<RoutedTask>, keep: set<Id>)
    requires Distinct(Ids(tasks))
    ensures |Restrict(tasks, keep)| == |IdSet(tasks) * keep|
  {
    RestrictMembers(tasks, keep);
    RestrictIsDistinct(tasks, keep);
    IdSetIsElements(Restrict(tasks, keep));
    DistinctSize(Ids(Restrict(tasks, keep)));
  }

  /** Every kept task depends only on kept tasks. */
  ghost predicate DependencyClosed(tasks: seq<RoutedTask>, keep: set<Id>) {
    forall t, d :: t in tasks && t.id in keep && d in Declared(t.dependsOn) ==> d in keep
  }

  lemma RestrictedTableAgrees(tasks: seq<RoutedTask>, keep: set<Id>)
    requires Distinct(Ids(tasks)) && DependencyClosed(tasks, keep)
    ensures ClosedUnder(keep, DependencyTable(tasks), DependencyTable(Restrict(tasks, keep)))
  {
    hide Distinct;
    RestrictMembers(tasks, keep);
    RestrictIsDistinct(tasks, keep);
    IdSetIsElements(tasks);
    forall u | u in keep && u in DependencyTable(tasks)
      ensures u in DependencyTable(Restrict(tasks, keep))
      ensures DependencyTable(Restrict(tasks, keep))[u] == DependencyTable(tasks)[u]
      ensures forall d :: d in DependencyTable(tasks)[u] ==> d in keep
    {
      assert u in Elements(Ids(tasks));
      var t :| t in tasks && t.id == u;
      OwnEntry(tasks, t);
      OwnEntry(Restrict(tasks, keep), t);
    }
  }

  /** Ordering a dependency-closed part of a plan gives that part of the plan's order. */
  lemma OrderCommutesWithRestriction(tasks: seq<RoutedTask>, keep: set<Id>)
    requires TopologicalOrder(tasks).Some? && DependencyClosed(tasks, keep)
    ensures TopologicalOrder(Restrict(tasks, keep)) == Some(Restrict(TopologicalOrder(tasks).value, keep))
  {
    hide Emitted, IsDag, ClosedUnder, DependencyClosed, Distinct;
    TableCovers(tasks);
    var deps := DependencyTable(tasks);
    var order := Rounds(tasks, deps, {});
    RoundsEmit(tasks, deps, {});
    FullOrderCovers(tasks, order);
    RestrictedTableAgrees(tasks, keep);
    TableCovers(Restrict(tasks, keep));
    RestrictRounds(tasks, deps, DependencyTable(Restrict(tasks, keep)), {}, keep);
    assert {} * keep == {};
    RestrictSameSize(tasks, order, keep);
  }

  // ----- the sort in its own form

  /** The pending set of a task holds its dependencies minus some that are done. */
  ghost predicate PendingTracks(pending: map<Id, set<Id>>, deps: map<Id, seq<Id>>, done: set<Id>) {
    && (forall u :: u in pending <==> u in deps)
    && (forall u, d :: u in pending && d in pending[u] ==> d in deps[u])
    && (forall u, d :: u in pending && d in deps[u] && d !in pending[u] ==> d in done)
  }

  lemma PruneTracks(pending: map<Id, set<Id>>, deps: map<Id, seq<Id>>, done: set<Id>, u: Id)
    requires PendingTracks(pending, deps, done) && u in deps
    ensures u in pending
    ensures PendingTracks(pending[u := pending[u] - done], deps, done)
    ensures pending[u] - done == {} <==> AllDone(deps[u], done)
  {
    assert forall d :: d in pending[u] - done ==> d in deps[u] && d !in done;
    if pending[u] - done == {} {
      forall d | d in deps[u]
        ensures d in done
      {
        assert d !in pending[u] - done;
      }
    }
  }

  lemma TracksMoreDone(pending: map<Id, set<Id>>, deps: map<Id, seq<Id>>, done: set<Id>, more: set<Id>)
    requires PendingTracks(pending, deps, done) && done <= more
    ensures PendingTracks(pending, deps, more)
  {
  }

  lemma InitiallyTracks(deps: map<Id, seq<Id>>)
    ensures PendingTracks(map u | u in deps :: (set d | d in deps[u]), deps, {})
  {
  }

  lemma IdSetConcat(a: seq<RoutedTask>, b: seq<RoutedTask>)
    ensures IdSet(a + b) == IdSet(a) + IdSet(b)
  {
  }

  lemma IdSetOne(t: RoutedTask)
    ensures IdSet([t]) == {t.id}
  {
  }

  lemma ConcatAssociates(a: seq<RoutedTask>, b: seq<RoutedTask>, c: seq<RoutedTask>)
    ensures a + (b + c) == (a + b) + c
  {
  }

  /** One visit of the inner loop, against the rest of the sweep. */
  lemma SweepVisit(tasks: seq<RoutedTask>, i: nat, deps: map<Id, seq<Id>>, done: set<Id>)
    requires i < |tasks| && forall t :: t in tasks ==> t.id in deps
    ensures Sweep(tasks[i..], deps, done) ==
            if tasks[i].id !in done && AllDone(deps[tasks[i].id], done)
            then [tasks[i]] + Sweep(tasks[i + 1..], deps, done + {tasks[i].id})
            else Sweep(tasks[i + 1..], deps, done)
  {
    assert tasks[i..][1..] == tasks[i + 1..];
  }

  lemma NothingDone(done: set<Id>)
    ensures done + IdSet([]) == done
  {
  }

  lemma SweepOfNone(deps: map<Id, seq<Id>>)
    ensures forall done :: Sweep([], deps, done) == []
  {
  }

  /** The inner loop: one sweep, pruning pending sets in place. */
  method SweepOnce(tasks: seq<RoutedTask>, ghost deps: map<Id, seq<Id>>, pending0: map<Id, set<Id>>, done0: set<Id>)
    returns (out: seq<RoutedTask>, pending: map<Id, set<Id>>, done: set<Id>)
    requires (forall t :: t in tasks ==> t.id in deps) && PendingTracks(pending0, deps, done0)
    ensures out == Sweep(tasks, deps, done0) && done == done0 + IdSet(out) && PendingTracks(pending, deps, done)
  {
    hide AllDone, PendingTracks, Sweep, IdSet;
    out, pending, done := [], pending0, done0;
    NothingDone(done0);
    SweepOfNone(deps);
    var i := 0;
    assert tasks[0..] == tasks;
    while i < |tasks|
      invariant 0 <= i <= |tasks|
      invariant PendingTracks(pending, deps, done) && done == done0 + IdSet(out)
      invariant out + Sweep(tasks[i..], deps, done) == Sweep(tasks, deps, done0)
    {
      var task := tasks[i];
      SweepVisit(tasks, i, deps, done);
      if task.id !in done {
        PruneTracks(pending, deps, done, task.id);
        pending := pending[task.id := pending[task.id] - done];
        if pending[task.id] == {} {
          IdSetConcat(out, [task]);
          IdSetOne(task);
          ConcatAssociates(out, [task], Sweep(tasks[i + 1..], deps, done + {task.id}));
          TracksMoreDone(pending, deps, done, done + {task.id});
          out := out + [task];
          done := done + {task.id};
        }
      }
      i := i + 1;
    }
    assert tasks[i..] == [];
    assert out + [] == out;
  }

  /** Kahn's algorithm as the planner runs it: sweeps until the order is full or one makes no progress. */
  method Sort(tasks: seq<RoutedTask>) returns (result: Option<seq<RoutedTask>>)
    ensures result == TopologicalOrder(tasks)
  {
    hide Emitted, PendingTracks, Sweep, DependencyTable;
    TableCovers(tasks);
    var deps := DependencyTable(tasks);
    InitiallyTracks(deps);
    var pending := map u | u in deps :: (set d | d in deps[u]);
    var order: seq<RoutedTask>, done: set<Id> := [], {};
    var progressed := true;
    EmittedNothing(deps);
    while |order| < |tasks| && progressed
      invariant PendingTracks(pending, deps, done)
      invariant Rounds(tasks, deps, {}) == order + Rounds(tasks, deps, done)
      invariant !progressed ==> Rounds(tasks, deps, done) == []
      invariant done == IdSet(order) && Emitted(order, deps, {}) && forall t :: t in order ==> t in tasks
      decreases IdSet(tasks) - done, progressed
    {
      var out: seq<RoutedTask>;
      SweepEmits(tasks, deps, done);
      assert {} + IdSet(order) == done;
      EmittedConcat(order, Sweep(tasks, deps, done), deps, {});
      RoundsStep(tasks, deps, done);
      IdSetConcat(order, Sweep(tasks, deps, done));
      ghost var rest := Rounds(tasks, deps, done + IdSet(Sweep(tasks, deps, done)));
      ConcatAssociates(order, Sweep(tasks, deps, done), rest);
      out, pending, done := SweepOnce(tasks, deps, pending, done);
      progressed := out != [];
      order := order + out;
    }
    NoRoundsAfterFullOrder(tasks, order);
    assert order + [] == order;
    return if |order| < |tasks| then None else Some(order);
  }

  /** Unfolding one round; a sweep that emits something shrinks what is left. */
  lemma RoundsStep(tasks: seq<RoutedTask>, deps: map<Id, seq<Id>>, done: set<Id>)
    requires forall t :: t in tasks ==> t.id in deps
    ensures var out := Sweep(tasks, deps, done);
            && Rounds(tasks, deps, done) == out + Rounds(tasks, deps, done + IdSet(out))
            && (out == [] ==> Rounds(tasks, deps, done + IdSet(out)) == [] && done + IdSet(out) == done)
            && (out != [] ==> IdSet(tasks) - (done + IdSet(out)) < IdSet(tasks) - done)
  {
    var out := Sweep(tasks, deps, done);
    if out == [] {
      assert done + IdSet(out) == done;
      assert out + Rounds(tasks, deps, done) == Rounds(tasks, deps, done);
    } else {
      assert out[0] in out && out[0].id in IdSet(tasks) - done;
      assert out[0].id in IdSet(out);
    }
  }

  lemma EmittedNothing(deps: map<Id, seq<Id>>)
    ensures Emitted([], deps, {})
  {
  }

  lemma NoRoundsAfterFullOrder(tasks: seq<RoutedTask>, order: seq<RoutedTask>)
    requires Emitted(order, DependencyTable(tasks), {}) && forall t :: t in order ==> t in tasks
    requires forall t :: t in tasks ==> t.id in DependencyTable(tasks)
    ensures |order| >= |tasks| ==> Rounds(tasks, DependencyTable(tasks), IdSet(order)) == []
  {
    hide Emitted, DependencyTable, Distinct;
    if |order| >= |tasks| {
      FullOrderCovers(tasks, order);
      SweepNothing(tasks, DependencyTable(tasks), IdSet(order));
    }
  }
}

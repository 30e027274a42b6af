/** Tasks, their statuses and outcomes, and the strict dependency graph that holds them. */
module TaskGraphs {
  import opened Collections
  import opened Graphs
  import CycleSearch

  datatype Status = Pending | Ready | Running | Completed | Failed | Cancelled

  predicate IsTerminal(st: Status) {
    st == Completed || st == Failed || st == Cancelled
  }

  /** Task errors, by the classes the failure classifier can tell apart. */
  datatype TaskError =
    | NoError
    | TimedOut
    | AgentNotFound(agentId: Id)
    | DependencyError(dep: Id, depStatus: Status)
    | RunStopped
    | OtherError(text: string)

  /** What an executed or cancelled task ends with. */
  datatype TaskOutcome = Outcome(status: Status, error: TaskError)

  /** A number of milliseconds as the host language has them: finite, or infinite or not a number. */
  datatype Duration = Millis(value: real) | NotFinite

  datatype TaskSpec = TaskSpec(id: Id, agentId: Id, timeoutMs: Option<Duration>, dependsOn: seq<Id>)

  datatype SpecError = EmptyId | EmptyAgentId | InvalidTimeout | EmptyDependencyId | RepeatedDependency(dep: Id)

  datatype GraphError =
    | InvalidSpec(reason: SpecError)
    | DuplicateId(id: Id)
    | MissingDependency(task: Id, dep: Id)
    | SelfDependency(task: Id)
    | DependencyCycle(path: seq<Id>)

  const NO_ID: Id := Id("")

  /** A time limit that can be set: none, or a finite positive one. */
  predicate SoundTimeout(timeoutMs: Option<Duration>) {
    timeoutMs.Some? ==> timeoutMs.value.Millis? && timeoutMs.value.value > 0.0
  }

  /** Dependency `i` is the first that is empty or was listed before, and the error says which of the two. */
  ghost predicate FirstBad(deps: seq<Id>, i: nat, error: SpecError) {
    && i < |deps| && NO_ID !in deps[..i] && Distinct(deps[..i])
    && (deps[i] == NO_ID || deps[i] in deps[..i])
    && error == (if deps[i] == NO_ID then EmptyDependencyId else RepeatedDependency(deps[i]))
  }

  /** The task constructor's checks, in its order. */
  function CheckSpec(spec: TaskSpec): (r: Option<SpecError>)
    ensures r.None? <==>
        spec.id != NO_ID && spec.agentId != NO_ID && SoundTimeout(spec.timeoutMs) &&
        NO_ID !in spec.dependsOn && Distinct(spec.dependsOn)
    ensures r == Some(EmptyId) <==> spec.id == NO_ID
    ensures r == Some(EmptyAgentId) <==> spec.id != NO_ID && spec.agentId == NO_ID
    ensures r == Some(InvalidTimeout) <==>
        spec.id != NO_ID && spec.agentId != NO_ID && !SoundTimeout(spec.timeoutMs)
    ensures r.Some? && (r.value.EmptyDependencyId? || r.value.RepeatedDependency?) ==>
        exists i :: FirstBad(spec.dependsOn, i, r.value)
  {
    if spec.id == NO_ID then Some(EmptyId)
    else if spec.agentId == NO_ID then Some(EmptyAgentId)
    else if !SoundTimeout(spec.timeoutMs) then Some(InvalidTimeout)
    else CheckDependencies(spec.dependsOn, 0)
  }

  function CheckDependencies(deps: seq<Id>, from: nat): (r: Option<SpecError>)
    requires from <= |deps| && NO_ID !in deps[..from] && Distinct(deps[..from])
    ensures r.None? <==> NO_ID !in deps && Distinct(deps)
    ensures r.Some? ==> r.value.EmptyDependencyId? || r.value.RepeatedDependency?
    ensures r.Some? ==> exists i :: FirstBad(deps, i, r.value)
    decreases |deps| - from
  {
    if from == |deps| then
      assert deps[..from] == deps;
      None
    else
      assert deps[..from + 1] == deps[..from] + [deps[from]];
      if deps[from] == NO_ID then
        assert FirstBad(deps, from, EmptyDependencyId);
        Some(EmptyDependencyId)
      else if deps[from] in deps[..from] then
        assert FirstBad(deps, from, RepeatedDependency(deps[from]));
        Some(RepeatedDependency(deps[from]))
      else CheckDependencies(deps, from + 1)
  }

  /** A graph as a value: ids in insertion order, the agent of each task, its declared dependencies. */
  datatype Graph = Graph(ids: seq<Id>, agents: map<Id, Id>, deps: map<Id, seq<Id>>)

  ghost predicate WellFormed(g: Graph) {
    && Distinct(g.ids)
    && (forall t :: t in g.ids <==> t in g.deps)
    && (forall t :: t in g.agents <==> t in g.deps)
  }

  /** Every dependency is known and is another task. */
  ghost predicate DependenciesKnown(deps: map<Id, seq<Id>>) {
    forall t, d :: t in deps && d in deps[t] ==> d in deps && d != t
  }

  /** What TaskGraph.validate promises: closed, self-free and acyclic dependencies. */
  ghost predicate IsDag(deps: map<Id, seq<Id>>) {
    DependenciesKnown(deps) && Acyclic(AdjacencyOf(deps))
  }

  ghost predicate ValidGraph(g: Graph) {
    WellFormed(g) && IsDag(g.deps)
  }

  predicate DependenciesCompleted(deps: map<Id, seq<Id>>, status: map<Id, Status>, t: Id)
    requires t in deps
  {
    forall d :: d in deps[t] ==> d in status && status[d] == Completed
  }

  /** Pending tasks whose dependencies all completed, in insertion order. */
  function ReadyAmong(ids: seq<Id>, deps: map<Id, seq<Id>>, status: map<Id, Status>): (ready: seq<Id>)
    requires forall t :: t in ids ==> t in deps && t in status
    ensures forall t :: t in ready <==> t in ids && status[t] == Pending && DependenciesCompleted(deps, status, t)
    ensures Distinct(ids) ==> Distinct(ready)
  {
    if ids == [] then []
    else
      var front, t := ids[..|ids| - 1], ids[|ids| - 1];
      var rest := ReadyAmong(front, deps, status);
      assert forall u :: u in ids <==> u in front || u == t;
      if status[t] == Pending && DependenciesCompleted(deps, status, t) then rest + [t] else rest
  }

  /** Everything before dependency `j` of task `i` is known and no self-dependency. */
  ghost predicate FirstDefect(ids: seq<Id>, deps: map<Id, seq<Id>>, i: nat, j: nat) {
    && i < |ids| && (forall t :: t in ids ==> t in deps) && j < |deps[ids[i]]|
    && (forall t, d :: t in ids[..i] && d in deps[t] ==> d in deps && d != t)
    && (forall d :: d in deps[ids[i]][..j] ==> d in deps && d != ids[i])
  }

  class TaskGraph {
    var ids: seq<Id>               // keys of the task table in insertion order
    var agents: map<Id, Id>
    var deps: map<Id, seq<Id>>
    var status: map<Id, Status>

    ghost predicate Valid()
      reads this
    {
      WellFormed(Shape()) && forall t :: t in status <==> t in deps
    }

    ghost function Shape(): Graph
      reads this
    {
      Graph(ids, agents, deps)
    }

    constructor ()
      ensures Valid() && Shape() == Graph([], map[], map[]) && status == map[]
    {
      ids, agents, deps, status := [], map[], map[], map[];
    }

    /** Appends a pending task; a malformed spec or a known id leaves the graph unchanged. */
    method Add(spec: TaskSpec) returns (error: Option<GraphError>)
      requires Valid()
      modifies this
      ensures Valid()
      ensures error.None? <==> CheckSpec(spec).None? && spec.id !in old(deps)
      ensures error.Some? ==>
                && error.value == (if CheckSpec(spec).Some? then InvalidSpec(CheckSpec(spec).value) else DuplicateId(spec.id))
                && unchanged(this)
      ensures error.None? ==>
                && ids == old(ids) + [spec.id]
                && agents == old(agents)[spec.id := spec.agentId]
                && deps == old(deps)[spec.id := spec.dependsOn]
                && status == old(status)[spec.id := Pending]
    {
      var bad := CheckSpec(spec);
      if bad.Some? {
        return Some(InvalidSpec(bad.value));
      }
      if spec.id in deps {
        return Some(DuplicateId(spec.id));
      }
      ids := ids + [spec.id];
      agents := agents[spec.id := spec.agentId];
      deps := deps[spec.id := spec.dependsOn];
      status := status[spec.id := Pending];
      return None;
    }

    method ReadyTasks() returns (ready: seq<Id>)
      requires Valid()
      ensures forall t :: t in ids ==> t in deps && t in status
      ensures ready == ReadyAmong(ids, deps, status)
    {
      hide Distinct;
      ready := [];
      for i := 0 to |ids|
        invariant ready == ReadyAmong(ids[..i], deps, status)
      {
        assert ids[..i + 1][..i] == ids[..i];
        if status[ids[i]] == Pending {
          var completed := DepsCompleted(ids[i]);
          if completed {
            ready := ready + [ids[i]];
          }
        }
      }
      assert ids[..|ids|] == ids;
    }

    method DepsCompleted(t: Id) returns (completed: bool)
      requires Valid() && t in deps
      ensures completed <==> DependenciesCompleted(deps, status, t)
    {
      for j := 0 to |deps[t]|
        invariant forall d :: d in deps[t][..j] ==> d in status && status[d] == Completed
      {
        var dep := deps[t][j];
        if dep !in status || status[dep] != Completed {
          return false;
        }
      }
      return true;
    }

    /** True exactly when no task can change status any more. */
    method IsComplete() returns (complete: bool)
      requires Valid()
      ensures complete <==> forall t :: t in status ==> IsTerminal(status[t])
    {
      for i := 0 to |ids|
        invariant forall t :: t in ids[..i] ==> t in status && IsTerminal(status[t])
      {
        if !IsTerminal(status[ids[i]]) {
          return false;
        }
      }
      return true;
    }

    /**
     * Accepts exactly the dependency graphs that are closed, self-free and acyclic; an error names
     * the first bad dependency in insertion order, or a cycle when there is none.
     */
    method Validate() returns (error: Option<GraphError>)
      requires Valid()
      ensures error.None? <==> IsDag(deps)
      ensures error.Some? ==>
                match error.value
                case SelfDependency(t) =>
                  exists i: nat, j: nat :: FirstDefect(ids, deps, i, j) && t == ids[i] == deps[t][j]
                case MissingDependency(t, d) =>
                  d !in deps && d != t &&
                  exists i: nat, j: nat :: FirstDefect(ids, deps, i, j) && t == ids[i] && d == deps[t][j]
                case DependencyCycle(path) => DependenciesKnown(deps) && IsCycle(AdjacencyOf(deps), path)
                case InvalidSpec(_) => false
                case DuplicateId(_) => false
    {
      hide Distinct, IsCycle;
      for i := 0 to |ids|
        invariant forall t, d :: t in ids[..i] && d in deps[t] ==> d in deps && d != t
      {
        var t := ids[i];
        for j := 0 to |deps[t]|
          invariant forall d :: d in deps[t][..j] ==> d in deps && d != t
        {
          var dep := deps[t][j];
          if dep == t {
            assert FirstDefect(ids, deps, i, j);
            return Some(SelfDependency(t));
          }
          if dep !in deps {
            assert FirstDefect(ids, deps, i, j);
            return Some(MissingDependency(t, dep));
          }
        }
      }
      assert DependenciesKnown(deps);
      NoSelfDependencyAcyclic(deps);
      var cycle := CycleSearch.FindCycle(ids, deps);
      return if cycle.Some? then Some(DependencyCycle(cycle.value)) else None;
    }
  }
}

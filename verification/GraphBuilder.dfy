/** Building the strict task graph by adding one task after the other. */
module GraphBuilders {
  import opened Collections
  import opened Graphs
  import opened TaskGraphs
  import opened Plans
  import opened TopologicalOrders
  import opened SchedulerProgress
  import opened SchedulerStall

  function SpecOf(t: RoutedTask): TaskSpec {
    TaskSpec(t.id, t.agentId, t.timeoutMs, Declared(t.dependsOn))
  }

  function AgentTable(tasks: seq<RoutedTask>): (agents: map<Id, Id>)
    ensures forall u :: u in agents <==> u in Ids(tasks)
  {
    if tasks == [] then map[]
    else
      var front, last := tasks[..|tasks| - 1], tasks[|tasks| - 1];
      assert Ids(tasks) == Ids(front) + [last.id];
      AgentTable(front)[last.id := last.agentId]
  }

  /** The graph that adding the tasks one after the other builds. */
  function GraphOf(tasks: seq<RoutedTask>): Graph {
    Graph(Ids(tasks), AgentTable(tasks), DependencyTable(tasks))
  }

  /** Every task passes the task constructor and no id repeats. */
  ghost predicate Addable(tasks: seq<RoutedTask>) {
    Distinct(Ids(tasks)) && forall i :: 0 <= i < |tasks| ==> CheckSpec(SpecOf(tasks[i])).None?
  }

  lemma AddableStep(tasks: seq<RoutedTask>, i: nat)
    requires i < |tasks| && Addable(tasks[..i])
    ensures Addable(tasks[..i + 1]) <==> CheckSpec(SpecOf(tasks[i])).None? && tasks[i].id !in Ids(tasks[..i])
    ensures !Addable(tasks[..i + 1]) ==> !Addable(tasks)
  {
    hide CheckSpec;
    assert Ids(tasks[..i + 1]) == Ids(tasks[..i]) + [tasks[i].id];
    assert Ids(tasks[..i + 1])[i] == tasks[i].id;
    if Addable(tasks) {
      assert Ids(tasks[..i + 1]) == Ids(tasks)[..i + 1];
    }
  }

  lemma GraphStep(tasks: seq<RoutedTask>, i: nat)
    requires i < |tasks|
    ensures var front := GraphOf(tasks[..i]);
            GraphOf(tasks[..i + 1]) == Graph(front.ids + [tasks[i].id], front.agents[tasks[i].id := tasks[i].agentId],
                                             front.deps[tasks[i].id := Declared(tasks[i].dependsOn)])
  {
    var more := tasks[..i + 1];
    assert more[..i] == tasks[..i];
    assert Ids(more) == Ids(tasks[..i]) + [tasks[i].id];
    var decls := RoutedDeclarations(more);
    assert decls[..i] == RoutedDeclarations(tasks[..i]);
  }

  /** Adds every task in order; the first defect ends the build. */
  method BuildGraph(tasks: seq<RoutedTask>) returns (graph: TaskGraph, error: Option<GraphError>)
    ensures fresh(graph) && graph.Valid()
    ensures error.None? <==> Addable(tasks)
    ensures error.None? ==> graph.Shape() == GraphOf(tasks) && forall t :: t in graph.status ==>
        graph.status[t] == Pending
    ensures error.Some? ==> error.value.InvalidSpec? || error.value.DuplicateId?
  {
    hide CheckSpec, Distinct, Addable, WellFormed;
    graph := new TaskGraph();
    EmptyAddable();
    for i := 0 to |tasks|
      invariant fresh(graph) && graph.Valid()
      invariant Addable(tasks[..i]) && graph.Shape() == GraphOf(tasks[..i])
      invariant forall t :: t in graph.status ==> graph.status[t] == Pending
    {
      AddableStep(tasks, i);
      GraphStep(tasks, i);
      error := graph.Add(SpecOf(tasks[i]));
      if error.Some? {
        return;
      }
    }
    assert tasks[..|tasks|] == tasks;
    error := None;
  }

  lemma AddableIsDistinct(tasks: seq<RoutedTask>)
    requires Addable(tasks)
    ensures Distinct(Ids(tasks))
  {
  }

  lemma EmptyAddable()
    ensures Addable([])
  {
  }

  lemma GraphIsWellFormed(tasks: seq<RoutedTask>)
    requires Distinct(Ids(tasks))
    ensures WellFormed(GraphOf(tasks))
  {
    hide Distinct;
  }

  lemma OrderedDependency(tasks: seq<RoutedTask>, i: nat)
    requires AlreadyOrdered(tasks) && i < |tasks|
    ensures Ids(tasks)[i] in DependencyTable(tasks)
    ensures forall d :: d in DependencyTable(tasks)[Ids(tasks)[i]] ==> d in Ids(tasks)[..i]
  {
    TableOfDistinct(RoutedDeclarations(tasks), i);
    assert Ids(tasks[..i]) == Ids(tasks)[..i];
  }

  /** Tasks added dependencies-first give a graph whose runs never stall. */
  lemma OrderedGraphNeverStalls(tasks: seq<RoutedTask>)
    requires Distinct(Ids(tasks)) && AlreadyOrdered(tasks) && IsDag(DependencyTable(tasks))
    ensures WellFormed(GraphOf(tasks)) && SweepComplete(GraphOf(tasks)) && NeverStalls(GraphOf(tasks))
  {
    hide IsDag, NeverStalls, SweepComplete, Distinct, AlreadyOrdered, WellFormed, DependencyTable;
    var g := GraphOf(tasks);
    GraphIsWellFormed(tasks);
    forall i, d | 0 <= i < |g.ids| && d in g.deps[g.ids[i]]
      ensures d in g.ids[..i]
    {
      OrderedDependency(tasks, i);
    }
    OrderedIsSweepComplete(g);
    InsertedInOrderNeverStalls(g);
  }
}

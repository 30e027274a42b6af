/** Plan tasks as the planner emits them, agents, and routed tasks. */
module Plans {
  import opened Collections
  import opened Graphs
  import opened TaskGraphs

  datatype Prompt = Prompt(text: string)
  datatype Capability = Capability(name: string)

  datatype Agent = Agent(id: Id, capabilities: seq<Capability>)

  datatype PlanTask = PlanTask(
    id: Id,
    prompt: Prompt,
    agentId: Option<Id>,
    requiredCapabilities: Option<seq<Capability>>,
    dependsOn: Option<seq<Id>>,
    timeoutMs: Option<Duration>)

  datatype RoutedTask = RoutedTask(
    id: Id,
    prompt: Prompt,
    agentId: Id,
    dependsOn: Option<seq<Id>>,
    timeoutMs: Option<Duration>)

  function Declared(dependsOn: Option<seq<Id>>): seq<Id> {
    if dependsOn.Some? then dependsOn.value else []
  }

  /** What the dependency layer sees of a task. */
  datatype Declaration = Declaration(id: Id, dependsOn: seq<Id>)

  function DeclaredIds(decls: seq<Declaration>): (ids: seq<Id>)
    ensures |ids| == |decls| && forall i :: 0 <= i < |decls| ==> ids[i] == decls[i].id
  {
    seq(|decls|, i requires 0 <= i < |decls| => decls[i].id)
  }

  /** The dependency table of a list of declarations; a repeated id keeps its last entry. */
  function TableOf(decls: seq<Declaration>): (deps: map<Id, seq<Id>>)
    ensures forall u :: u in deps <==> u in DeclaredIds(decls)
  {
    if decls == [] then map[]
    else
      var last := decls[|decls| - 1];
      var front := decls[..|decls| - 1];
      assert DeclaredIds(decls) == DeclaredIds(front) + [last.id];
      TableOf(front)[last.id := last.dependsOn]
  }

  /** With distinct ids the table holds each task's own declaration. */
  lemma {:induction false} TableOfDistinct(decls: seq<Declaration>, i: nat)
    requires Distinct(DeclaredIds(decls)) && i < |decls|
    ensures decls[i].id in TableOf(decls)
    ensures TableOf(decls)[decls[i].id] == decls[i].dependsOn
  {
    var n := |decls| - 1;
    if i < n {
      var front := decls[..n];
      assert DeclaredIds(front) == DeclaredIds(decls)[..n];
      DistinctPrefix(DeclaredIds(decls), n);
      TableOfDistinct(front, i);
      assert DeclaredIds(decls)[i] != DeclaredIds(decls)[n];
    }
  }

  // ----- routed tasks

  function Ids(tasks: seq<RoutedTask>): (ids: seq<Id>)
    ensures |ids| == |tasks| && forall i :: 0 <= i < |tasks| ==> ids[i] == tasks[i].id
  {
    seq(|tasks|, i requires 0 <= i < |tasks| => tasks[i].id)
  }

  function RoutedDeclarations(tasks: seq<RoutedTask>): (decls: seq<Declaration>)
    ensures |decls| == |tasks|
    ensures forall i :: 0 <= i < |tasks| ==> decls[i] == Declaration(tasks[i].id, Declared(tasks[i].dependsOn))
    ensures DeclaredIds(decls) == Ids(tasks)
  {
    seq(|tasks|, i requires 0 <= i < |tasks| => Declaration(tasks[i].id, Declared(tasks[i].dependsOn)))
  }

  function DependencyTable(tasks: seq<RoutedTask>): (deps: map<Id, seq<Id>>)
    ensures forall u :: u in deps <==> u in Ids(tasks)
  {
    TableOf(RoutedDeclarations(tasks))
  }

  // ----- plan tasks

  function PlanIds(tasks: seq<PlanTask>): (ids: seq<Id>)
    ensures |ids| == |tasks| && forall i :: 0 <= i < |tasks| ==> ids[i] == tasks[i].id
  {
    seq(|tasks|, i requires 0 <= i < |tasks| => tasks[i].id)
  }

  function PlanDeclarations(tasks: seq<PlanTask>): (decls: seq<Declaration>)
    ensures |decls| == |tasks|
    ensures forall i :: 0 <= i < |tasks| ==> decls[i] == Declaration(tasks[i].id, Declared(tasks[i].dependsOn))
    ensures DeclaredIds(decls) == PlanIds(tasks)
  {
    seq(|tasks|, i requires 0 <= i < |tasks| => Declaration(tasks[i].id, Declared(tasks[i].dependsOn)))
  }

  function PlanTable(tasks: seq<PlanTask>): (deps: map<Id, seq<Id>>)
    ensures forall u :: u in deps <==> u in PlanIds(tasks)
  {
    TableOf(PlanDeclarations(tasks))
  }
}

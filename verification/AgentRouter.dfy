/** Assigns a pool agent to every plan task: explicit assignment, then capability match, then round-robin. */
module AgentRouters {
  import opened Collections
  import opened Graphs
  import opened TaskGraphs
  import opened Plans
  import opened PlanValidators

  datatype Reason = Explicit | CapabilityMatch | RoundRobin
  datatype Assignment = Assignment(taskId: Id, agentId: Id, reason: Reason)
  datatype RoutedPlan = RoutedPlan(tasks: seq<RoutedTask>, assignments: seq<Assignment>)

  // ----- the routing rule

  predicate WantsExplicit(agents: seq<Agent>, task: PlanTask) {
    task.agentId.Some? && KnowsAgent(agents, task.agentId.value)
  }

  predicate WantsCapability(agents: seq<Agent>, task: PlanTask) {
    && !WantsExplicit(agents, task)
    && task.requiredCapabilities.Some? && |task.requiredCapabilities.value| > 0
    && SomeAgentCovers(agents, task.requiredCapabilities.value)
  }

  predicate WantsRoundRobin(agents: seq<Agent>, task: PlanTask) {
    !WantsExplicit(agents, task) && !WantsCapability(agents, task)
  }

  /** Agent `i` is the first in the pool that covers the capabilities. */
  predicate FirstCovering(agents: seq<Agent>, caps: seq<Capability>, i: nat) {
    i < |agents| && Covers(agents[i], caps) && forall j :: 0 <= j < i ==> !Covers(agents[j], caps)
  }

  /** The assignment the precedence rules allow when round-robin stands at turn `turn`. */
  ghost predicate Rightful(agents: seq<Agent>, task: PlanTask, turn: nat, a: Assignment)
    requires agents != []
  {
    && a.taskId == task.id
    && (WantsExplicit(agents, task) ==> a.reason == Explicit && a.agentId == task.agentId.value)
    && (WantsCapability(agents, task) ==>
          a.reason == CapabilityMatch
          && exists i: nat :: FirstCovering(agents, task.requiredCapabilities.value, i) && a.agentId == agents[i].id)
    && (WantsRoundRobin(agents, task) ==> a.reason == RoundRobin && a.agentId == agents[turn % |agents|].id)
  }

  /** Round-robin turns used by the first `n` tasks. */
  function TurnsUsed(agents: seq<Agent>, tasks: seq<PlanTask>, n: nat): (r: nat)
    requires n <= |tasks|
    ensures r <= n
  {
    if n == 0 then 0
    else TurnsUsed(agents, tasks, n - 1) + (if WantsRoundRobin(agents, tasks[n - 1]) then 1 else 0)
  }

  ghost predicate RightfulUpTo(agents: seq<Agent>, plan: seq<PlanTask>, n: nat, turn: nat, assignments: seq<Assignment>)
    requires agents != [] && n <= |plan|
  {
    |assignments| == n && forall i :: 0 <= i < n ==>
      Rightful(agents, plan[i], turn + TurnsUsed(agents, plan, i), assignments[i])
  }

  function Applied(plan: seq<PlanTask>, assignments: seq<Assignment>): (tasks: seq<RoutedTask>)
    requires |assignments| == |plan|
    ensures RoutesTo(plan, tasks)
    ensures forall i :: 0 <= i < |plan| ==> tasks[i].agentId == assignments[i].agentId
  {
    seq(|plan|, i requires 0 <= i < |plan| =>
      RoutedTask(plan[i].id, plan[i].prompt, assignments[i].agentId, plan[i].dependsOn, plan[i].timeoutMs))
  }

  /** The routed form of a plan under some assignment of agents. */
  ghost predicate RoutesTo(plan: seq<PlanTask>, routed: seq<RoutedTask>) {
    |routed| == |plan| && forall i :: 0 <= i < |plan| ==>
      && routed[i].id == plan[i].id && routed[i].prompt == plan[i].prompt
      && routed[i].dependsOn == plan[i].dependsOn && routed[i].timeoutMs == plan[i].timeoutMs
  }

  // ----- the routing of a whole plan

  /** The first pool agent that covers the capabilities. */
  function FirstCover(agents: seq<Agent>, caps: seq<Capability>): (i: nat)
    requires SomeAgentCovers(agents, caps)
    ensures FirstCovering(agents, caps, i)
  {
    if Covers(agents[0], caps) then 0
    else
      var i :| 0 <= i < |agents| && Covers(agents[i], caps);
      assert agents[1..][i - 1] == agents[i];
      assert forall j :: 0 < j < |agents| ==> agents[1..][j - 1] == agents[j];
      1 + FirstCover(agents[1..], caps)
  }

  /** The one assignment of a task when round-robin stands at turn `turn`. */
  function AssignmentFor(agents: seq<Agent>, task: PlanTask, turn: nat): Assignment
    requires agents != []
  {
    if WantsExplicit(agents, task) then Assignment(task.id, task.agentId.value, Explicit)
    else if WantsCapability(agents, task) then
      Assignment(task.id, agents[FirstCover(agents, task.requiredCapabilities.value)].id, CapabilityMatch)
    else Assignment(task.id, agents[turn % |agents|].id, RoundRobin)
  }

  function AssignmentsFor(agents: seq<Agent>, plan: seq<PlanTask>, turn: nat): (assignments: seq<Assignment>)
    requires agents != []
    ensures |assignments| == |plan|
    ensures forall i :: 0 <= i < |plan| ==>
        assignments[i] == AssignmentFor(agents, plan[i], turn + TurnsUsed(agents, plan, i))
  {
    hide AssignmentFor, TurnsUsed;
    seq(|plan|, i requires 0 <= i < |plan| => AssignmentFor(agents, plan[i], turn + TurnsUsed(agents, plan, i)))
  }

  /** The routed form of a plan, for a router that has used `turn` turns. */
  function RoutedBy(agents: seq<Agent>, plan: seq<PlanTask>, turn: nat): (tasks: seq<RoutedTask>)
    requires agents != []
    ensures RoutesTo(plan, tasks)
  {
    hide AssignmentFor, TurnsUsed;
    Applied(plan, AssignmentsFor(agents, plan, turn))
  }

  class AgentRouter {
    const agents: seq<Agent>
    var rr: nat

    /** Routing needs a non-empty pool; see `CreateRouter` for the error. */
    constructor (pool: seq<Agent>)
      requires pool != []
      ensures agents == pool && rr == 0
    {
      agents, rr := pool, 0;
    }

    /** One task; only a round-robin assignment uses up a turn. */
    method Assign(task: PlanTask) returns (a: Assignment)
      requires agents != []
      modifies this
      ensures Rightful(agents, task, old(rr), a)
      ensures rr == old(rr) + (if WantsRoundRobin(agents, task) then 1 else 0)
    {
      if task.agentId.Some? {
        for k := 0 to |agents|
          invariant forall j :: 0 <= j < k ==> agents[j].id != task.agentId.value
        {
          if agents[k].id == task.agentId.value {
            assert KnowsAgent(agents, task.agentId.value);
            return Assignment(task.id, agents[k].id, Explicit);
          }
        }
      }
      assert !WantsExplicit(agents, task);
      if task.requiredCapabilities.Some? && |task.requiredCapabilities.value| > 0 {
        var caps := task.requiredCapabilities.value;
        for k := 0 to |agents|
          invariant forall j :: 0 <= j < k ==> !Covers(agents[j], caps)
        {
          if Covers(agents[k], caps) {
            assert FirstCovering(agents, caps, k) && SomeAgentCovers(agents, caps);
            return Assignment(task.id, agents[k].id, CapabilityMatch);
          }
        }
      }
      a := Assignment(task.id, agents[rr % |agents|].id, RoundRobin);
      rr := rr + 1;
    }

    /** Every task of a plan; only agents and capability requirements are rewritten. */
    method Route(plan: seq<PlanTask>) returns (routed: RoutedPlan)
      requires agents != []
      modifies this
      ensures RightfulUpTo(agents, plan, |plan|, old(rr), routed.assignments)
      ensures routed.tasks == Applied(plan, routed.assignments) == RoutedBy(agents, plan, old(rr))
      ensures rr == old(rr) + TurnsUsed(agents, plan, |plan|)
    {
      hide Rightful, WantsRoundRobin, Applied, RoutedBy, RoutesTo;
      var assignments := [];
      for i := 0 to |plan|
        invariant rr == old(rr) + TurnsUsed(agents, plan, i)
        invariant RightfulUpTo(agents, plan, i, old(rr), assignments)
      {
        var a := Assign(plan[i]);
        assignments := assignments + [a];
      }
      RightfulRouting(agents, plan, old(rr), assignments);
      return RoutedPlan(Applied(plan, assignments), assignments);
    }
  }

  /** None stands for the error that the pool is empty. */
  method CreateRouter(pool: seq<Agent>) returns (router: Option<AgentRouter>)
    ensures router.None? <==> pool == []
    ensures router.Some? ==> fresh(router.value) && router.value.agents == pool && router.value.rr == 0
  {
    if pool == [] {
      return None;
    }
    var r := new AgentRouter(pool);
    return Some(r);
  }

  // ----- what the rule promises

  /** Every task is given exactly one of the three treatments, and always an agent of the pool. */
  lemma RightfulIsPooled(agents: seq<Agent>, task: PlanTask, turn: nat, a: Assignment)
    requires agents != [] && Rightful(agents, task, turn, a)
    ensures KnowsAgent(agents, a.agentId)
  {
    if WantsRoundRobin(agents, task) {
      assert agents[turn % |agents|].id == a.agentId;
    } else if WantsCapability(agents, task) {
      var i: nat :| FirstCovering(agents, task.requiredCapabilities.value, i) && a.agentId == agents[i].id;
      assert agents[i].id == a.agentId;
    }
  }

  /** So every task of a routed plan has an agent of the pool. */
  lemma RoutedByIsPooled(agents: seq<Agent>, plan: seq<PlanTask>, turn: nat, t: RoutedTask)
    requires agents != [] && t in RoutedBy(agents, plan, turn)
    ensures KnowsAgent(agents, t.agentId)
  {
    hide AssignmentFor, TurnsUsed, Rightful;
    var i :| 0 <= i < |plan| && RoutedBy(agents, plan, turn)[i] == t;
    var at := turn + TurnsUsed(agents, plan, i);
    RightfulIff(agents, plan[i], at, AssignmentFor(agents, plan[i], at));
    RightfulIsPooled(agents, plan[i], at, AssignmentFor(agents, plan[i], at));
  }

  /** The rule leaves no choice: routing is deterministic. */
  lemma RightfulIsUnique(agents: seq<Agent>, task: PlanTask, turn: nat, a: Assignment, b: Assignment)
    requires agents != [] && Rightful(agents, task, turn, a) && Rightful(agents, task, turn, b)
    ensures a == b
  {
    if WantsCapability(agents, task) {
      var caps := task.requiredCapabilities.value;
      var i: nat :| FirstCovering(agents, caps, i) && a.agentId == agents[i].id;
      var j: nat :| FirstCovering(agents, caps, j) && b.agentId == agents[j].id;
      assert i <= j && j <= i;
    }
  }

  /** The rule allows exactly the specified assignment. */
  lemma RightfulIff(agents: seq<Agent>, task: PlanTask, turn: nat, a: Assignment)
    requires agents != []
    ensures Rightful(agents, task, turn, a) <==> a == AssignmentFor(agents, task, turn)
  {
    hide Covers;
    if Rightful(agents, task, turn, a) {
      RightfulIsUnique(agents, task, turn, a, AssignmentFor(agents, task, turn));
    }
  }

  lemma RightfulRouting(agents: seq<Agent>, plan: seq<PlanTask>, turn: nat, assignments: seq<Assignment>)
    requires agents != [] && RightfulUpTo(agents, plan, |plan|, turn, assignments)
    ensures Applied(plan, assignments) == RoutedBy(agents, plan, turn)
  {
    hide Rightful, AssignmentFor, TurnsUsed, Applied;
    forall i | 0 <= i < |plan|
      ensures assignments[i] == AssignmentFor(agents, plan[i], turn + TurnsUsed(agents, plan, i))
    {
      RightfulIff(agents, plan[i], turn + TurnsUsed(agents, plan, i), assignments[i]);
    }
    assert assignments == AssignmentsFor(agents, plan, turn);
  }

  /** A repaired task is routed like the original one. */
  lemma RepairKeepsAssignment(agents: seq<Agent>, task: PlanTask, turn: nat)
    requires agents != []
    ensures AssignmentFor(agents, RepairedTask(agents, task), turn) == AssignmentFor(agents, task, turn)
    ensures WantsRoundRobin(agents, RepairedTask(agents, task)) <==> WantsRoundRobin(agents, task)
  {
    hide KnowsAgent, SomeAgentCovers;
  }

  lemma {:induction false} RepairKeepsTurns(agents: seq<Agent>, plan: seq<PlanTask>, repaired: seq<PlanTask>, n: nat)
    requires agents != [] && n <= |plan| == |repaired|
    requires forall i :: 0 <= i < |plan| ==> repaired[i] == RepairedTask(agents, plan[i])
    ensures TurnsUsed(agents, repaired, n) == TurnsUsed(agents, plan, n)
  {
    hide WantsRoundRobin, RepairedTask;
    if n > 0 {
      RepairKeepsTurns(agents, plan, repaired, n - 1);
      RepairKeepsAssignment(agents, plan[n - 1], 0);
    }
  }

  /** Dropping the agents and capabilities that validation warns about changes no assignment. */
  lemma RepairKeepsRouting(agents: seq<Agent>, plan: seq<PlanTask>, repaired: seq<PlanTask>, turn: nat)
    requires agents != [] && |plan| == |repaired| && SameShape(plan, repaired)
    requires forall i :: 0 <= i < |plan| ==> repaired[i] == RepairedTask(agents, plan[i])
    ensures RoutedBy(agents, repaired, turn) == RoutedBy(agents, plan, turn)
  {
    hide AssignmentFor, RepairedTask, TurnsUsed;
    forall i | 0 <= i < |plan|
      ensures AssignmentFor(agents, repaired[i], turn + TurnsUsed(agents, repaired, i))
           == AssignmentFor(agents, plan[i], turn + TurnsUsed(agents, plan, i))
    {
      RepairKeepsTurns(agents, plan, repaired, i);
      RepairKeepsAssignment(agents, plan[i], turn + TurnsUsed(agents, plan, i));
    }
  }

  /** The agent has every required capability. */
  ghost predicate Qualified(agent: Agent, caps: seq<Capability>) {
    forall c :: c in caps ==> c in agent.capabilities
  }

  ghost predicate FirstQualified(agents: seq<Agent>, caps: seq<Capability>, i: nat) {
    i < |agents| && Qualified(agents[i], caps) && forall j :: 0 <= j < i ==> !Qualified(agents[j], caps)
  }

  lemma QualifiedSomewhere(agents: seq<Agent>, caps: seq<Capability>)
    ensures SomeAgentCovers(agents, caps) <==> exists a :: a in agents && Qualified(a, caps)
  {
    if i :| 0 <= i < |agents| && Covers(agents[i], caps) {
      assert agents[i] in agents && Qualified(agents[i], caps);
    }
    if a :| a in agents && Qualified(a, caps) {
      var i :| 0 <= i < |agents| && agents[i] == a;
      assert Covers(agents[i], caps);
    }
  }

  lemma PooledSomewhere(agents: seq<Agent>, id: Id)
    ensures KnowsAgent(agents, id) <==> exists a :: a in agents && a.id == id
  {
    if i :| 0 <= i < |agents| && agents[i].id == id {
      assert agents[i] in agents;
    }
  }

  /**
   * The assignment on the fields of task and pool: a named agent that the pool has; else the first
   * one with all required capabilities, if any are required and somebody has them; else the one at
   * the current turn.
   */
  lemma AssignmentOnFields(agents: seq<Agent>, task: PlanTask, turn: nat)
    requires agents != []
    ensures var a := AssignmentFor(agents, task, turn);
            var named := task.agentId.Some? && exists x :: x in agents && x.id == task.agentId.value;
            var caps := if task.requiredCapabilities.Some? then task.requiredCapabilities.value else [];
            var matched := !named && caps != [] && exists x :: x in agents && Qualified(x, caps);
            && a.taskId == task.id
            && (named ==> a.reason == Explicit && Some(a.agentId) == task.agentId)
            && (matched ==>
                a.reason == CapabilityMatch && exists i: nat :: FirstQualified(agents, caps, i) && a.agentId == agents[i].id)
            && (!named && !matched ==> a.reason == RoundRobin && a.agentId == agents[turn % |agents|].id)
  {
    var caps := if task.requiredCapabilities.Some? then task.requiredCapabilities.value else [];
    QualifiedSomewhere(agents, caps);
    if task.agentId.Some? {
      PooledSomewhere(agents, task.agentId.value);
    }
    if WantsCapability(agents, task) {
      var i := FirstCover(agents, caps);
      assert forall j :: 0 <= j <= i ==> (Covers(agents[j], caps) <==> Qualified(agents[j], caps));
      assert FirstQualified(agents, caps, i);
    }
  }

  /** Round-robin assignments among the first `n`. */
  function RoundRobins(assignments: seq<Assignment>, n: nat): nat
    requires n <= |assignments|
  {
    if n == 0 then 0 else RoundRobins(assignments, n - 1) + (if assignments[n - 1].reason == RoundRobin then 1 else 0)
  }

  /** Those of them that went to this agent. */
  function Load(assignments: seq<Assignment>, n: nat, id: Id): nat
    requires n <= |assignments|
  {
    if n == 0 then 0
    else
      var a := assignments[n - 1];
      Load(assignments, n - 1, id) + (if a.reason == RoundRobin && a.agentId == id then 1 else 0)
  }

  ghost predicate DistinctAgents(agents: seq<Agent>) {
    forall i, j :: 0 <= i < j < |agents| ==> agents[i].id != agents[j].id
  }

  lemma RoundRobinIff(agents: seq<Agent>, task: PlanTask, turn: nat)
    requires agents != []
    ensures AssignmentFor(agents, task, turn).reason == RoundRobin <==> WantsRoundRobin(agents, task)
    ensures WantsRoundRobin(agents, task) ==> AssignmentFor(agents, task, turn).agentId == agents[turn % |agents|].id
  {
    hide WantsExplicit, WantsCapability;
  }

  lemma {:induction false} TurnsAreRoundRobins(agents: seq<Agent>, plan: seq<PlanTask>, n: nat)
    requires agents != [] && n <= |plan|
    ensures TurnsUsed(agents, plan, n) == RoundRobins(AssignmentsFor(agents, plan, 0), n)
  {
    hide WantsRoundRobin, AssignmentFor, AssignmentsFor;
    if n > 0 {
      TurnsAreRoundRobins(agents, plan, n - 1);
      RoundRobinIff(agents, plan[n - 1], TurnsUsed(agents, plan, n - 1));
    }
  }

  lemma {:induction false} LoadIsTurns(agents: seq<Agent>, plan: seq<PlanTask>, n: nat, slot: nat)
    requires agents != [] && DistinctAgents(agents) && n <= |plan| && slot < |agents|
    ensures Load(AssignmentsFor(agents, plan, 0), n, agents[slot].id)
         == TurnsOnSlot(|agents|, slot, TurnsUsed(agents, plan, n))
  {
    hide WantsRoundRobin, AssignmentFor, AssignmentsFor, DistinctAgents;
    if n > 0 {
      LoadIsTurns(agents, plan, n - 1, slot);
      var turn := TurnsUsed(agents, plan, n - 1);
      RoundRobinIff(agents, plan[n - 1], turn);
      SameAgentSameSlot(agents, turn % |agents|, slot);
    }
  }

  lemma SameAgentSameSlot(agents: seq<Agent>, i: nat, j: nat)
    requires DistinctAgents(agents) && i < |agents| && j < |agents|
    ensures agents[i].id == agents[j].id <==> i == j
  {
  }

  /**
   * Round-robin spreads a routed plan evenly: over any first part of the plan, two agents of the pool
   * differ by at most one in the tasks that fell to them by round-robin.
   */
  lemma RoutingIsFair(agents: seq<Agent>, plan: seq<PlanTask>, n: nat, slot: nat, other: nat)
    requires agents != [] && DistinctAgents(agents) && n <= |plan| && slot < |agents| && other < |agents|
    ensures var given := AssignmentsFor(agents, plan, 0);
            Load(given, n, agents[slot].id) <= Load(given, n, agents[other].id) + 1
  {
    LoadIsTurns(agents, plan, n, slot);
    LoadIsTurns(agents, plan, n, other);
    RoundRobinIsFair(|agents|, slot, other, TurnsUsed(agents, plan, n));
  }

  /** How many of the first `turns` round-robin turns fall on pool slot `slot`. */
  function TurnsOnSlot(n: nat, slot: nat, turns: nat): nat
    requires slot < n
  {
    if turns == 0 then 0
    else TurnsOnSlot(n, slot, turns - 1) + (if (turns - 1) % n == slot then 1 else 0)
  }

  /** Closed form of the round-robin load. */
  lemma {:induction false} SlotLoad(n: nat, slot: nat, turns: nat)
    requires slot < n
    ensures TurnsOnSlot(n, slot, turns) == turns / n + (if slot < turns % n then 1 else 0)
  {
    if turns > 0 {
      SlotLoad(n, slot, turns - 1);
      DivisionStep(turns - 1, n);
    }
  }

  lemma DivisionStep(m: nat, n: nat)
    requires n > 0
    ensures m % n == n - 1 ==> (m + 1) / n == m / n + 1 && (m + 1) % n == 0
    ensures m % n != n - 1 ==> (m + 1) / n == m / n && (m + 1) % n == m % n + 1
  {
    var q, r := m / n, m % n;
    assert m + 1 == q * n + (r + 1);
    if r == n - 1 {
      assert m + 1 == (q + 1) * n;
      QuotientUnique(m + 1, n, q + 1, 0);
    } else {
      QuotientUnique(m + 1, n, q, r + 1);
    }
  }

  lemma QuotientUnique(m: nat, n: nat, q: nat, r: nat)
    requires 0 <= r < n && m == q * n + r
    ensures m / n == q && m % n == r
  {
    SameDivision(n, m / n, m % n, q, r);
  }

  lemma SameDivision(n: nat, p: nat, s: nat, q: nat, r: nat)
    requires s < n && r < n && p * n + s == q * n + r
    ensures p == q && s == r
  {
    if p > q {
      AtLeastOnce(p - q, n);
    } else if p < q {
      AtLeastOnce(q - p, n);
    }
  }

  lemma AtLeastOnce(k: nat, n: nat)
    requires k >= 1
    ensures k * n >= n
  {
    assert k * n == n + (k - 1) * n;
  }

  /** Round-robin is fair: after any number of turns two pool slots differ by at most one. */
  lemma RoundRobinIsFair(n: nat, slot: nat, other: nat, turns: nat)
    requires slot < n && other < n
    ensures TurnsOnSlot(n, slot, turns) <= TurnsOnSlot(n, other, turns) + 1
  {
    SlotLoad(n, slot, turns);
    SlotLoad(n, other, turns);
  }

  /** Routing keeps the dependency table, so it keeps validity of the graph. */
  lemma RoutedKeepsTable(plan: seq<PlanTask>, routed: seq<RoutedTask>)
    requires RoutesTo(plan, routed)
    ensures Ids(routed) == PlanIds(plan) && DependencyTable(routed) == PlanTable(plan)
  {
    assert RoutedDeclarations(routed) == PlanDeclarations(plan);
  }
}

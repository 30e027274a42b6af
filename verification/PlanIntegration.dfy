/** Maps a routed plan onto the three supervisor strategies; the relay mapping accepts chains only. */
module PlanIntegrations {
  import opened Collections
  import opened Graphs
  import opened Plans
  import opened TopologicalOrders

  datatype Strategy = Sequential | Broadcast | Relay

  function AgentIds(tasks: seq<RoutedTask>): (ids: seq<Id>)
    ensures |ids| == |tasks| && forall i :: 0 <= i < |tasks| ==> ids[i] == tasks[i].agentId
  {
    seq(|tasks|, i requires 0 <= i < |tasks| => tasks[i].agentId)
  }

  // ----- what each mapping accepts

  /** The first task is a root and every other task depends on exactly its predecessor. */
  ghost predicate IsChain(order: seq<RoutedTask>) {
    && order != []
    && Declared(order[0].dependsOn) == []
    && forall i :: 1 <= i < |order| ==> Declared(order[i].dependsOn) == [order[i - 1].id]
  }

  ghost predicate IsFanOut(tasks: seq<RoutedTask>) {
    && tasks != []
    && (forall t :: t in tasks ==> t.prompt == tasks[0].prompt && Declared(t.dependsOn) == [])
    && Distinct(AgentIds(tasks))
  }

  /** The task order a strategy executes in, or None where its mapping is refused. */
  ghost function Mapped(tasks: seq<RoutedTask>, strategy: Strategy): Option<seq<RoutedTask>> {
    if tasks == [] then None
    else
      match strategy
      case Sequential => TopologicalOrder(tasks)
      case Broadcast => if IsFanOut(tasks) then Some(tasks) else None
      case Relay =>
        var order := TopologicalOrder(tasks);
        if order.Some? && IsChain(order.value) then order else None
  }

  // ----- the relay mapping

  predicate AtMostOneEach(order: seq<RoutedTask>) {
    forall i :: 0 <= i < |order| ==> |Declared(order[i].dependsOn)| <= 1
  }

  predicate IsRoot(t: RoutedTask) {
    Declared(t.dependsOn) == []
  }

  function Roots(order: seq<RoutedTask>): nat {
    if order == [] then 0
    else Roots(order[..|order| - 1]) + (if IsRoot(order[|order| - 1]) then 1 else 0)
  }

  /** Every dependency mention, in order; a repeated one is a fan-out. */
  function Mentions(order: seq<RoutedTask>): seq<Id> {
    if order == [] then []
    else Mentions(order[..|order| - 1]) + Declared(order[|order| - 1].dependsOn)
  }

  /** Only the first task is a root, and every other task names one dependency. */
  ghost predicate OneEach(order: seq<RoutedTask>) {
    && order != [] && Declared(order[0].dependsOn) == []
    && forall i :: 1 <= i < |order| ==> |Declared(order[i].dependsOn)| == 1
  }

  lemma {:induction false} RootsAt(order: seq<RoutedTask>, i: nat)
    requires i < |order| && IsRoot(order[i])
    ensures Roots(order) >= 1
    ensures (exists j :: 0 <= j < |order| && j != i && IsRoot(order[j])) ==> Roots(order) >= 2
  {
    var n := |order| - 1;
    var front := order[..n];
    if i < n {
      RootsAt(front, i);
      assert forall j :: 0 <= j < n ==> front[j] == order[j];
    } else if j :| 0 <= j < n && IsRoot(order[j]) {
      RootsAt(front, j);
    }
  }

  lemma {:induction false} OneRoot(order: seq<RoutedTask>)
    requires order != [] && IsRoot(order[0]) && forall i :: 1 <= i < |order| ==> !IsRoot(order[i])
    ensures Roots(order) == 1
  {
    if |order| == 1 {
      assert order[..0] == [];
    } else {
      OneRoot(order[..|order| - 1]);
    }
  }

  lemma {:induction false} MentionsAt(order: seq<RoutedTask>)
    requires OneEach(order)
    ensures |Mentions(order)| == |order| - 1
    ensures forall i :: 1 <= i < |order| ==> Mentions(order)[i - 1] == Declared(order[i].dependsOn)[0]
  {
    var n := |order| - 1;
    if n == 0 {
      assert Mentions(order) == Mentions(order[..0]) + [];
    } else {
      MentionsAt(order[..n]);
    }
  }

  /** Without fan-out every task names exactly its predecessor, by induction along the order. */
  lemma {:induction false} PredecessorOnly(order: seq<RoutedTask>, tasks: seq<RoutedTask>, i: nat)
    requires IsLinearization(order, tasks) && OneEach(order) && Distinct(Mentions(order)) && 1 <= i < |order|
    ensures Declared(order[i].dependsOn) == [order[i - 1].id]
    decreases i
  {
    var deps := Declared(order[i].dependsOn);
    assert deps == [deps[0]] && deps[0] in Ids(order[..i]);
    var k :| 0 <= k < i && order[k].id == deps[0];
    if k < i - 1 {
      PredecessorOnly(order, tasks, k + 1);
      MentionsAt(order);
      assert false;
    }
  }

  /** The mapping's checks hold of a linearization exactly when it is a chain. */
  lemma ChecksMeanChain(order: seq<RoutedTask>, tasks: seq<RoutedTask>)
    requires IsLinearization(order, tasks) && order != []
    ensures IsChain(order) <==> AtMostOneEach(order) && Roots(order) == 1 && Distinct(Mentions(order))
  {
    FirstIsRoot(order, tasks);
    if AtMostOneEach(order) && Roots(order) == 1 && Distinct(Mentions(order)) {
      RootsAt(order, 0);
      forall i | 1 <= i < |order|
        ensures |Declared(order[i].dependsOn)| == 1
      {
        assert !IsRoot(order[i]);
      }
      forall i | 1 <= i < |order|
        ensures Declared(order[i].dependsOn) == [order[i - 1].id]
      {
        PredecessorOnly(order, tasks, i);
      }
    }
    if IsChain(order) {
      ChainPasses(order, tasks);
    }
  }

  lemma FirstIsRoot(order: seq<RoutedTask>, tasks: seq<RoutedTask>)
    requires IsLinearization(order, tasks) && order != []
    ensures IsRoot(order[0])
  {
    var deps := Declared(order[0].dependsOn);
    assert forall d :: d in deps ==> d in Ids(order[..0]);
    SomeMember(deps);
  }

  lemma ChainPasses(order: seq<RoutedTask>, tasks: seq<RoutedTask>)
    requires IsLinearization(order, tasks) && IsChain(order)
    ensures AtMostOneEach(order) && Roots(order) == 1 && Distinct(Mentions(order))
  {
    forall i | 1 <= i < |order|
      ensures |Declared(order[i].dependsOn)| == 1 && !IsRoot(order[i])
    {
      assert Declared(order[i].dependsOn) == [order[i - 1].id];
    }
    OneRoot(order);
    MentionsAt(order);
    forall i, j | 0 <= i < j < |Mentions(order)|
      ensures Mentions(order)[i] != Mentions(order)[j]
    {
      assert Declared(order[i + 1].dependsOn) == [order[i].id] && Declared(order[j + 1].dependsOn) == [order[j].id];
      assert Ids(order)[i] != Ids(order)[j];
    }
  }

  ghost predicate CountsMentions(dependents: map<Id, nat>, mentions: seq<Id>) {
    && (forall d :: d in dependents <==> d in mentions)
    && (forall d :: d in dependents ==> dependents[d] == multiset(mentions)[d])
  }

  lemma MentionMore(dependents: map<Id, nat>, mentions: seq<Id>, d: Id)
    requires CountsMentions(dependents, mentions)
    ensures CountsMentions(dependents[d := (if d in dependents then dependents[d] else 0) + 1], mentions + [d])
  {
    assert d !in mentions ==> multiset(mentions)[d] == 0;
  }

  lemma CountsShowFanOut(dependents: map<Id, nat>, mentions: seq<Id>)
    requires CountsMentions(dependents, mentions)
    ensures (exists d :: d in dependents && dependents[d] > 1) <==> !Distinct(mentions)
  {
    if Distinct(mentions) {
      forall d | d in dependents
        ensures dependents[d] == 1
      {
        DistinctCounts(mentions, d);
      }
    } else {
      var i, j :| 0 <= i < j < |mentions| && mentions[i] == mentions[j];
      assert mentions == mentions[..j] + mentions[j..];
      assert mentions[..j][i] == mentions[i] && mentions[j..][0] == mentions[i];
      assert multiset(mentions)[mentions[i]] > 1;
    }
  }

  /** Relay: sort, then reject anything but a single chain. */
  method RelayPlan(tasks: seq<RoutedTask>) returns (chain: Option<seq<RoutedTask>>)
    requires tasks != []
    ensures chain == Mapped(tasks, Relay)
  {
    hide Distinct, CountsMentions, Mentions, TopologicalOrder, IsChain;
    chain := Sort(tasks);
    if chain.None? {
      return;
    }
    var order := chain.value;
    OrderIsLinearization(tasks);
    SameLength(order, tasks);
    ChecksMeanChain(order, tasks);
    for i := 0 to |order|
      invariant forall j :: 0 <= j < i ==> |Declared(order[j].dependsOn)| <= 1
    {
      if |Declared(order[i].dependsOn)| > 1 {
        return None;
      }
    }
    var roots, dependents := CountLinks(order);
    CountsShowFanOut(dependents, Mentions(order));
    if roots != 1 || exists d :: d in dependents && dependents[d] > 1 {
      return None;
    }
  }

  /** Roots, and how often each task is named as a dependency. */
  method CountLinks(order: seq<RoutedTask>) returns (roots: nat, dependents: map<Id, nat>)
    requires AtMostOneEach(order)
    ensures roots == Roots(order) && CountsMentions(dependents, Mentions(order))
  {
    hide CountsMentions;
    roots, dependents := 0, map[];
    EmptyCounts();
    for i := 0 to |order|
      invariant roots == Roots(order[..i])
      invariant CountsMentions(dependents, Mentions(order[..i]))
    {
      var deps := Declared(order[i].dependsOn);
      assert order[..i + 1][..i] == order[..i];
      ghost var mentions := Mentions(order[..i]);
      if deps == [] {
        roots := roots + 1;
        assert mentions + deps == mentions;
      } else {
        assert deps == [deps[0]];
        MentionMore(dependents, mentions, deps[0]);
        dependents := dependents[deps[0] := (if deps[0] in dependents then dependents[deps[0]] else 0) + 1];
      }
    }
    assert order[..|order|] == order;
  }

  lemma SameLength(a: seq<RoutedTask>, b: seq<RoutedTask>)
    requires IsLinearization(a, b)
    ensures |a| == |b|
  {
    assert |multiset(a)| == |multiset(b)|;
  }

  lemma EmptyCounts()
    ensures CountsMentions(map[], Mentions([]))
  {
  }

  /** Broadcast: one prompt, no dependencies, no agent twice. */
  method BroadcastPlan(tasks: seq<RoutedTask>) returns (fan: Option<seq<RoutedTask>>)
    requires tasks != []
    ensures fan == Mapped(tasks, Broadcast)
  {
    var prompts := set t | t in tasks :: t.prompt;
    assert tasks[0].prompt in prompts;
    if |prompts| != 1 {
      ManyPrompts(tasks, prompts);
      return None;
    }
    OnePrompt(prompts, tasks[0].prompt);
    assert forall t :: t in tasks ==> t.prompt in prompts;
    if t :| t in tasks && Declared(t.dependsOn) != [] {
      return None;
    }
    var agentIds: set<Id> := {};
    for i := 0 to |tasks|
      invariant Distinct(AgentIds(tasks)[..i])
      invariant agentIds == Elements(AgentIds(tasks)[..i])
    {
      assert AgentIds(tasks)[..i + 1] == AgentIds(tasks)[..i] + [tasks[i].agentId];
      if tasks[i].agentId in agentIds {
        var k :| 0 <= k < i && AgentIds(tasks)[k] == tasks[i].agentId;
        assert AgentIds(tasks)[k] == AgentIds(tasks)[i];
        return None;
      }
      agentIds := agentIds + {tasks[i].agentId};
    }
    assert AgentIds(tasks)[..|tasks|] == AgentIds(tasks);
    return Some(tasks);
  }

  lemma OnePrompt(prompts: set<Prompt>, p: Prompt)
    requires |prompts| == 1 && p in prompts
    ensures forall q :: q in prompts ==> q == p
  {
    assert |prompts - {p}| == 0;
  }

  lemma ManyPrompts(tasks: seq<RoutedTask>, prompts: set<Prompt>)
    requires tasks != [] && prompts == set t | t in tasks :: t.prompt
    ensures (forall t :: t in tasks ==> t.prompt == tasks[0].prompt) ==> |prompts| == 1
  {
    assert tasks[0] in tasks;
    assert (forall t :: t in tasks ==> t.prompt == tasks[0].prompt) ==> prompts == {tasks[0].prompt};
  }

  /** The strategy mapping; None stands for a refused plan. */
  method MapPlan(tasks: seq<RoutedTask>, strategy: Strategy) returns (order: Option<seq<RoutedTask>>)
    ensures order == Mapped(tasks, strategy)
  {
    if tasks == [] {
      return None;
    }
    match strategy {
      case Sequential => order := Sort(tasks);
      case Broadcast => order := BroadcastPlan(tasks);
      case Relay => order := RelayPlan(tasks);
    }
  }

  /** Whatever the strategy, a mapping keeps exactly the plan's tasks and never puts a task before its dependency. */
  lemma MappedKeepsTasks(tasks: seq<RoutedTask>, strategy: Strategy)
    requires Mapped(tasks, strategy).Some?
    ensures multiset(Mapped(tasks, strategy).value) == multiset(tasks)
    ensures var order := Mapped(tasks, strategy).value;
            forall i, d :: 0 <= i < |order| && d in Declared(order[i].dependsOn) ==> d in Ids(order[..i])
  {
    if strategy != Broadcast {
      OrderIsLinearization(tasks);
    }
  }
}

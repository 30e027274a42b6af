/** Kahn's algorithm over dependency sets that shrink in place. */
module KahnSorts {
  import opened Collections
  import opened Graphs

  datatype SortResult =
    | Ordered(order: seq<Id>)
    | UnknownDependencies(task: Id, unknown: set<Id>)
    | CycleAmong(stuck: set<Id>)

  /** The dependency sets of the known ids; an id without an entry depends on nothing. */
  function DependencySets(known: set<Id>, dependsOn: map<Id, seq<Id>>): (adj: Adjacency)
    ensures adj.Keys == known
    ensures forall u :: u in known ==> adj[u] == if u in dependsOn then Elements(dependsOn[u]) else {}
  {
    map u | u in known :: if u in dependsOn then Elements(dependsOn[u]) else {}
  }

  /** `dependents[d]` lists exactly the tasks that depend on `d`, once each. */
  ghost predicate ListsDependents(adj: Adjacency, dependents: map<Id, seq<Id>>, visited: set<Id>) {
    && (forall d :: d in dependents <==> d in adj)
    && (forall d :: d in dependents ==> Distinct(dependents[d]))
    && (forall d, u :: d in dependents ==> (u in dependents[d] <==> u in visited && u in adj && d in adj[u]))
  }

  /** Every pending set holds what is not ordered yet. */
  ghost predicate PendingIs(adj: Adjacency, pending: Adjacency, order: seq<Id>) {
    && (forall u :: u in pending <==> u in adj)
    && (forall u, d :: u in pending ==> (d in pending[u] <==> d in adj[u] && d !in order))
  }

  /** The queue holds exactly the ids with nothing pending that are not ordered yet. */
  ghost predicate ReadyIs(pending: Adjacency, ready: seq<Id>, order: seq<Id>) {
    && Distinct(ready)
    && (forall u :: u in ready <==> u in pending && pending[u] == {} && u !in order)
  }

  function StuckIn(pending: Adjacency): set<Id> {
    set u | u in pending && pending[u] != {}
  }

  method Arrange(s: set<Id>) returns (list: seq<Id>)
    ensures Distinct(list) && forall u :: u in list <==> u in s
  {
    list := [];
    var todo := s;
    while todo != {}
      invariant todo <= s && Distinct(list) && forall u :: u in list <==> u in s && u !in todo
      decreases todo
    {
      var u :| u in todo;
      list := list + [u];
      todo := todo - {u};
    }
  }

  method ListDependents(adj: Adjacency) returns (dependents: map<Id, seq<Id>>)
    requires Closed(adj)
    ensures ListsDependents(adj, dependents, adj.Keys)
  {
    dependents := map u | u in adj :: [];
    var visited: set<Id> := {};
    while visited != adj.Keys
      invariant visited <= adj.Keys && ListsDependents(adj, dependents, visited)
      decreases adj.Keys - visited
    {
      assert adj.Keys - visited != {};
      var u :| u in adj.Keys - visited;
      dependents := ListOne(adj, dependents, visited, u);
      visited := visited + {u};
    }
  }

  method ListOne(adj: Adjacency, before: map<Id, seq<Id>>, ghost visited: set<Id>, u: Id)
      returns (dependents: map<Id, seq<Id>>)
    requires Closed(adj) && ListsDependents(adj, before, visited) && u in adj && u !in visited
    ensures ListsDependents(adj, dependents, visited + {u})
  {
    hide Distinct, ListsDependents, Closed;
    AllListed(adj, before, visited, u);
    dependents := before;
    var todo := adj[u];
    while todo != {}
      invariant todo <= adj[u] && (forall d :: d in dependents <==> d in before)
      invariant forall d :: d in dependents ==>
          dependents[d] == if d in adj[u] && d !in todo then before[d] + [u] else before[d]
      decreases todo
    {
      var d :| d in todo;
      dependents := dependents[d := dependents[d] + [u]];
      todo := todo - {d};
    }
    ListedOne(adj, before, dependents, visited, u);
  }

  lemma ListedOne(adj: Adjacency, before: map<Id, seq<Id>>, dependents: map<Id, seq<Id>>, visited: set<Id>, u: Id)
    requires Closed(adj) && ListsDependents(adj, before, visited) && u in adj && u !in visited
    requires forall d :: d in dependents <==> d in before
    requires forall d :: d in dependents ==> dependents[d] == if d in adj[u] then before[d] + [u] else before[d]
    ensures ListsDependents(adj, dependents, visited + {u})
  {
    hide Distinct, Closed;
    forall d | d in dependents
      ensures Distinct(dependents[d])
      ensures forall v :: v in dependents[d] <==> v in visited + {u} && v in adj && d in adj[v]
    {
      assert u !in before[d];
      if d in adj[u] {
        DistinctAppend(before[d], u);
        assert forall v :: v in before[d] + [u] <==> v in before[d] || v == u;
      }
    }
  }

  lemma AllListed(adj: Adjacency, dependents: map<Id, seq<Id>>, visited: set<Id>, u: Id)
    requires Closed(adj) && ListsDependents(adj, dependents, visited) && u in adj
    ensures forall d :: d in adj[u] ==> d in dependents
  {
    hide Distinct;
  }

  /** Discards a finished task from its followers; those left with nothing become ready, once. */
  method Release(adj: Adjacency, pending0: Adjacency, ready0: seq<Id>, ghost order: seq<Id>, task: Id,
      followers: seq<Id>)
    returns (pending: Adjacency, ready: seq<Id>)
    requires PendingIs(adj, pending0, order) && task in adj && task !in order && pending0[task] == {}
        && Distinct(followers)
    requires forall u :: u in followers <==> u in adj && task in adj[u]
    requires ReadyIs(pending0, [task] + ready0, order) && DependenciesFirst(adj, order)
    ensures PendingIs(adj, pending, order + [task]) && ReadyIs(pending, ready, order + [task])
  {
    pending, ready := pending0, ready0;
    HeadAndTail(task, ready0);
    for k := 0 to |followers|
      invariant forall u :: u in pending <==> u in pending0
      invariant forall u :: u in pending ==>
          pending[u] == if u in followers[..k] then pending0[u] - {task} else pending0[u]
      invariant Distinct(ready)
      invariant forall u :: u in ready <==> u in ready0 || (u in followers[..k] && pending0[u] == {task})
    {
      var u := followers[k];
      FollowerStep(followers, k);
      pending := pending[u := pending[u] - {task}];
      if pending[u] == {} {
        FollowerFresh(adj, pending0, ready0, order, task, u);
        ready := ready + [u];
      }
    }
    assert followers[..|followers|] == followers;
    ReleasedReady(adj, pending0, pending, ready0, ready, order, task);
  }

  lemma HeadAndTail(x: Id, rest: seq<Id>)
    requires Distinct([x] + rest)
    ensures Distinct(rest) && x !in rest
  {
    var all := [x] + rest;
    assert all[0] == x && forall i :: 0 <= i < |rest| ==> all[i + 1] == rest[i];
    forall i | 0 <= i < |rest|
      ensures rest[i] != x && forall j :: i < j < |rest| ==> rest[i] != rest[j]
    {
      assert all[i + 1] == rest[i];
      assert forall j :: i < j < |rest| ==> all[j + 1] == rest[j];
    }
  }

  lemma FollowerStep(followers: seq<Id>, k: nat)
    requires Distinct(followers) && k < |followers|
    ensures followers[..k + 1] == followers[..k] + [followers[k]] && followers[k] !in followers[..k]
  {
  }

  /** A follower still waiting for the task is not in the queue yet, and its pending set holds the task. */
  lemma FollowerFresh(adj: Adjacency, pending: Adjacency, ready: seq<Id>, order: seq<Id>, task: Id, u: Id)
    requires PendingIs(adj, pending, order) && ReadyIs(pending, [task] + ready, order)
    requires u in adj && task in adj[u] && task !in order
    ensures u !in ready && task in pending[u]
    ensures pending[u] - {task} == {} ==> pending[u] == {task}
  {
    assert u in ready ==> u in [task] + ready;
  }

  lemma OrderedIsServed(adj: Adjacency, order: seq<Id>, u: Id)
    requires DependenciesFirst(adj, order) && u in adj
    ensures u in order ==> forall d :: d in adj[u] ==> d in order
  {
    hide Distinct;
    if u in order {
      var i :| 0 <= i < |order| && order[i] == u;
      assert forall d :: d in adj[u] ==> d in order[..i];
    }
  }

  lemma ReleasedReady(adj: Adjacency, pending0: Adjacency, pending: Adjacency, ready0: seq<Id>, ready: seq<Id>,
      order: seq<Id>, task: Id)
    requires PendingIs(adj, pending0, order) && task in adj && task !in order
        && ReadyIs(pending0, [task] + ready0, order) && task !in ready0
    requires DependenciesFirst(adj, order)
    requires forall u :: u in pending <==> u in pending0
    requires forall u :: u in pending ==> pending[u] == if task in adj[u] then pending0[u] - {task} else pending0[u]
    requires Distinct(ready) && forall u :: u in ready <==>
        u in ready0 || (u in adj && task in adj[u] && pending0[u] == {task})
    ensures PendingIs(adj, pending, order + [task]) && ReadyIs(pending, ready, order + [task])
  {
    hide Distinct;
    forall u
      ensures u in ready <==> u in pending && pending[u] == {} && u !in order + [task]
    {
      assert u in [task] + ready0 <==> u == task || u in ready0;
      assert u in order + [task] <==> u in order || u == task;
      if u in pending && task in adj[u] {
        assert task in pending0[u];
        assert pending0[u] - {task} == {} <==> pending0[u] == {task};
        OrderedIsServed(adj, order, u);
      }
      assert u in pending && pending0[u] == {} ==> pending0[u] - {task} == {};
    }
    forall u, d | u in pending
      ensures d in pending[u] <==> d in adj[u] && d !in order + [task]
    {
      assert d in order + [task] <==> d in order || d == task;
    }
  }

  /**
   * Sorts the known ids. An order is returned exactly for closed acyclic dependencies, lists every
   * id once and dependencies first; otherwise the stuck ids really are stuck.
   */
  method TopologicalOrder(ids: seq<Id>, dependsOn: map<Id, seq<Id>>) returns (result: SortResult)
    ensures var adj := DependencySets(Elements(ids), dependsOn);
            && (result.Ordered? <==> Closed(adj) && Acyclic(adj))
            && (result.Ordered? ==> IsTopological(adj, result.order))
            && (result.UnknownDependencies? ==>
                  result.task in adj && result.unknown != {} && result.unknown == adj[result.task] - adj.Keys)
            && (result.CycleAmong? ==>
                  Closed(adj) && result.stuck != {} && result.stuck <= adj.Keys && forall u :: u in result.stuck ==>
                      adj[u] * result.stuck != {})
  {
    var adj := DependencySets(Elements(ids), dependsOn);
    if u :| u in adj && adj[u] - adj.Keys != {} {
      return UnknownDependencies(u, adj[u] - adj.Keys);
    }
    assert Closed(adj) by {
      forall u | u in adj
        ensures adj[u] <= adj.Keys
      {
        assert adj[u] - adj.Keys == {};
        assert forall d :: d in adj[u] && d !in adj.Keys ==> d in adj[u] - adj.Keys;
      }
    }
    result := SortClosed(adj);
  }

  method SortClosed(adj: Adjacency) returns (result: SortResult)
    requires Closed(adj)
    ensures result.Ordered? <==> Acyclic(adj)
    ensures result.Ordered? ==> IsTopological(adj, result.order)
    ensures !result.UnknownDependencies?
    ensures result.CycleAmong? ==>
              result.stuck != {} && result.stuck <= adj.Keys && forall u :: u in result.stuck ==>
                  adj[u] * result.stuck != {}
  {
    hide Acyclic, Closed, ListsDependents, PendingIs, ReadyIs, IsTopological;
    var pending := adj;
    var dependents := ListDependents(adj);
    var ready := Arrange(set u | u in pending && pending[u] == {});
    var order: seq<Id> := [];
    SortStarts(adj, ready);
    while ready != []
      invariant PendingIs(adj, pending, order) && ReadyIs(pending, ready, order) && DependenciesFirst(adj, order)
      decreases |adj.Keys| - |order|
    {
      var task := ready[0];
      assert ready == [task] + ready[1..];
      TakesReady(adj, pending, ready[1..], order, task);
      FollowersOf(adj, dependents, task);
      pending, ready := Release(adj, pending, ready[1..], order, task, dependents[task]);
      order := order + [task];
    }
    SortEnds(adj, pending, order);
    result := if |order| == |adj.Keys| then Ordered(order) else CycleAmong(StuckIn(pending));
  }

  lemma SortStarts(adj: Adjacency, ready: seq<Id>)
    requires Distinct(ready) && forall u :: u in ready <==> u in adj && adj[u] == {}
    ensures PendingIs(adj, adj, []) && ReadyIs(adj, ready, []) && DependenciesFirst(adj, [])
  {
  }

  lemma FollowersOf(adj: Adjacency, dependents: map<Id, seq<Id>>, task: Id)
    requires ListsDependents(adj, dependents, adj.Keys) && task in adj
    ensures task in dependents && Distinct(dependents[task])
    ensures forall u :: u in dependents[task] <==> u in adj && task in adj[u]
  {
  }

  /** The head of the queue extends the order. */
  lemma TakesReady(adj: Adjacency, pending: Adjacency, rest: seq<Id>, order: seq<Id>, task: Id)
    requires PendingIs(adj, pending, order) && ReadyIs(pending, [task] + rest, order) && DependenciesFirst(adj, order)
    ensures task in adj && task !in order && task in pending && pending[task] == {}
    ensures DependenciesFirst(adj, order + [task]) && |order| < |adj.Keys|
  {
    assert task in [task] + rest;
    var longer := order + [task];
    assert forall i :: 0 <= i < |order| ==> longer[..i] == order[..i];
    assert longer[..|order|] == order;
    forall d | d in adj[task]
      ensures d in order
    {
      assert d !in pending[task];
    }
    DistinctWithin(longer, adj.Keys);
  }

  /** Once nothing is ready, the order is full or the rest is stuck on itself. */
  lemma SortEnds(adj: Adjacency, pending: Adjacency, order: seq<Id>)
    requires Closed(adj) && PendingIs(adj, pending, order) && ReadyIs(pending, [], order)
        && DependenciesFirst(adj, order)
    ensures |order| == |adj.Keys| ==> IsTopological(adj, order) && Acyclic(adj)
    ensures |order| != |adj.Keys| ==>
              var stuck := StuckIn(pending);
              !Acyclic(adj) && stuck != {} && stuck <= adj.Keys && forall u :: u in stuck ==> adj[u] * stuck != {}
  {
    DistinctWithin(order, adj.Keys);
    if |order| == |adj.Keys| {
      TopologicalIsAcyclic(adj, order);
    } else {
      var stuck := StuckIn(pending);
      StuckIsRest(adj, pending, order);
      forall u | u in stuck
        ensures adj[u] * stuck != {}
      {
        StuckWaitsForStuck(adj, pending, order, u);
      }
      var c := StuckSetHasCycle(adj, stuck);
    }
  }

  lemma SomeUnordered(adj: Adjacency, order: seq<Id>)
    requires DependenciesFirst(adj, order) && |order| != |adj.Keys|
    ensures exists u :: u in adj && u !in order
  {
    DistinctWithin(order, adj.Keys);
    var rest := adj.Keys - Elements(order);
    assert forall u :: u in Elements(order) ==> u in adj.Keys;
    assert forall u :: u in adj.Keys && u !in Elements(order) ==> u in rest;
    assert rest == {} ==> Elements(order) == adj.Keys;
    DistinctSize(order);
    var u :| u in rest;
  }

  lemma StuckIsRest(adj: Adjacency, pending: Adjacency, order: seq<Id>)
    requires Closed(adj) && PendingIs(adj, pending, order) && ReadyIs(pending, [], order)
        && DependenciesFirst(adj, order)
    requires |order| != |adj.Keys|
    ensures forall u :: u in adj && u !in order ==> pending[u] != {}
    ensures StuckIn(pending) != {}
  {
    forall u | u in adj && u !in order
      ensures pending[u] != {}
    {
      assert u !in [];
    }
    SomeUnordered(adj, order);
    var u :| u in adj && u !in order;
    assert u in StuckIn(pending);
  }

  /** A stuck id waits for an id that is not ordered, and so stuck itself. */
  lemma StuckWaitsForStuck(adj: Adjacency, pending: Adjacency, order: seq<Id>, u: Id)
    requires Closed(adj) && PendingIs(adj, pending, order) && u in StuckIn(pending)
    requires forall v :: v in adj && v !in order ==> pending[v] != {}
    ensures u in adj && adj[u] * StuckIn(pending) != {}
  {
    var d :| d in pending[u];
    assert d in adj[u] && d !in order;
    assert d in adj && d in pending && pending[d] != {};
    assert d in StuckIn(pending);
    assert d in adj[u] * StuckIn(pending);
  }

  /** The stuck ids contain a genuine dependency cycle. */
  lemma StuckHoldsCycle(adj: Adjacency, stuck: set<Id>) returns (c: seq<Id>)
    requires stuck <= adj.Keys && stuck != {} && forall u :: u in stuck ==> adj[u] * stuck != {}
    ensures IsCycle(adj, c) && forall x :: x in c ==> x in stuck
  {
    c := StuckSetHasCycle(adj, stuck);
  }
}

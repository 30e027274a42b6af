/**
 * Finite directed graphs of dependencies: walks, cycles, topological orders.
 * `adj[u]` is the set of nodes that `u` depends on.
 */
module Graphs {
  import opened Collections

  /** Task and agent ids. */
  datatype Id = Id(name: string)
  type Adjacency = map<Id, set<Id>>

  ghost predicate Closed(adj: Adjacency) {
    forall u :: u in adj ==> adj[u] <= adj.Keys
  }

  /** Every element depends on its successor. */
  ghost predicate IsWalk(adj: Adjacency, p: seq<Id>) {
    && (forall i :: 0 <= i < |p| ==> p[i] in adj)
    && (forall i :: 0 <= i < |p| - 1 ==> p[i + 1] in adj[p[i]])
  }

  /** A walk of at least one edge that ends where it starts. */
  ghost predicate IsCycle(adj: Adjacency, c: seq<Id>) {
    |c| >= 2 && IsWalk(adj, c) && c[0] == c[|c| - 1]
  }

  ghost predicate Acyclic(adj: Adjacency) {
    !exists c :: IsCycle(adj, c)
  }

  /** `order` lists nodes without repetition, each after everything it depends on. */
  ghost predicate DependenciesFirst(adj: Adjacency, order: seq<Id>) {
    && Distinct(order)
    && forall i :: 0 <= i < |order| ==> order[i] in adj && forall v :: v in adj[order[i]] ==> v in order[..i]
  }

  ghost predicate IsTopological(adj: Adjacency, order: seq<Id>) {
    DependenciesFirst(adj, order) && Elements(order) == adj.Keys
  }

  /** Declared dependency lists as a graph over the known nodes. */
  function AdjacencyOf(deps: map<Id, seq<Id>>): (adj: Adjacency)
    ensures adj.Keys == deps.Keys
    ensures forall u :: u in deps ==> adj[u] == set v | v in deps[u] && v in deps
  {
    map u | u in deps :: set v | v in deps[u] && v in deps
  }

  /** The same graph without self-dependencies. */
  function ProperAdjacencyOf(deps: map<Id, seq<Id>>): (adj: Adjacency)
    ensures adj.Keys == deps.Keys
    ensures forall u :: u in deps ==> adj[u] == set v | v in deps[u] && v in deps && v != u
  {
    map u | u in deps :: set v | v in deps[u] && v in deps && v != u
  }

  // ----- an order excludes cycles

  /** Along a walk, positions in a dependencies-first order strictly decrease. */
  lemma {:induction false} WalkDescends(adj: Adjacency, order: seq<Id>, p: seq<Id>, at: nat) returns (last: nat)
    requires DependenciesFirst(adj, order) && IsWalk(adj, p) && |p| >= 1
    requires at < |order| && order[at] == p[0]
    ensures last < |order| && order[last] == p[|p| - 1]
    ensures last <= at && (|p| >= 2 ==> last < at)
    decreases |p|
  {
    if |p| == 1 {
      last := at;
    } else {
      assert p[1] in adj[p[0]] && p[1] in order[..at];
      var next :| 0 <= next < at && order[next] == p[1];
      assert forall i :: 0 <= i < |p[1..]| ==> p[1..][i] == p[i + 1];
      last := WalkDescends(adj, order, p[1..], next);
    }
  }

  lemma TopologicalIsAcyclic(adj: Adjacency, order: seq<Id>)
    requires IsTopological(adj, order)
    ensures Acyclic(adj)
  {
    if c :| IsCycle(adj, c) {
      assert c[0] in Elements(order);
      var at :| 0 <= at < |order| && order[at] == c[0];
      var last := WalkDescends(adj, order, c, at);
      assert false;
    }
  }

  // ----- a stuck set holds a cycle

  lemma {:induction false} ExtendWalk(adj: Adjacency, s: set<Id>, p: seq<Id>) returns (c: seq<Id>)
    requires s <= adj.Keys
    requires forall u :: u in s ==> adj[u] * s != {}
    requires |p| >= 1 && Distinct(p) && IsWalk(adj, p) && forall x :: x in p ==> x in s
    ensures IsCycle(adj, c) && forall x :: x in c ==> x in s
    decreases |s| - |p|
  {
    DistinctWithin(p, s);
    var v :| v in adj[p[|p| - 1]] * s;
    if v in p {
      var i :| 0 <= i < |p| && p[i] == v;
      c := p[i..] + [v];
    } else {
      var q := p + [v];
      DistinctWithin(q, s);
      c := ExtendWalk(adj, s, q);
    }
  }

  /** If every member of a non-empty finite set depends on a member, the set contains a cycle. */
  lemma StuckSetHasCycle(adj: Adjacency, s: set<Id>) returns (c: seq<Id>)
    requires s <= adj.Keys && s != {}
    requires forall u :: u in s ==> adj[u] * s != {}
    ensures IsCycle(adj, c) && forall x :: x in c ==> x in s
  {
    var u :| u in s;
    c := ExtendWalk(adj, s, [u]);
  }

  // ----- no cycle gives an order

  lemma {:induction false} ExtendOrder(adj: Adjacency, prefix: seq<Id>) returns (order: seq<Id>)
    requires Closed(adj) && Acyclic(adj) && DependenciesFirst(adj, prefix)
    ensures IsTopological(adj, order)
    decreases |adj.Keys| - |prefix|
  {
    DistinctWithin(prefix, adj.Keys);
    var rest := adj.Keys - Elements(prefix);
    if rest == {} {
      order := prefix;
      assert forall v :: v in adj.Keys && v !in Elements(prefix) ==> v in rest;
      assert forall v :: v in Elements(prefix) ==> v in adj.Keys;
    } else if u :| u in rest && adj[u] * rest == {} {
      var longer := prefix + [u];
      assert forall v :: v in adj[u] && v !in prefix ==> v in adj[u] * rest;
      assert forall i :: 0 <= i < |prefix| ==> longer[..i] == prefix[..i];
      assert longer[..|prefix|] == prefix;
      DistinctWithin(longer, adj.Keys);
      order := ExtendOrder(adj, longer);
    } else {
      var c := StuckSetHasCycle(adj, rest);
      assert false;
    }
  }

  /** A closed finite graph has a topological order exactly when it has no cycle. */
  lemma AcyclicIffTopological(adj: Adjacency)
    requires Closed(adj)
    ensures Acyclic(adj) <==> exists order :: IsTopological(adj, order)
  {
    if Acyclic(adj) {
      var order := ExtendOrder(adj, []);
    }
    if order :| IsTopological(adj, order) {
      TopologicalIsAcyclic(adj, order);
    }
  }

  /** Removing nodes or edges creates no cycle. */
  lemma SubgraphAcyclic(big: Adjacency, small: Adjacency)
    requires Acyclic(big)
    requires small.Keys <= big.Keys && forall u :: u in small ==> small[u] <= big[u]
    ensures Acyclic(small)
  {
    if c :| IsCycle(small, c) {
      assert IsCycle(big, c);
      assert false;
    }
  }

  /** Three tasks in a chain. */
  function ThreeChain(a: Id, b: Id, c: Id): map<Id, seq<Id>> {
    map[a := [], b := [a], c := [b]]
  }

  lemma ThreeChainAdjacency(a: Id, b: Id, c: Id)
    requires a != b && a != c && b != c
    ensures var adj := AdjacencyOf(ThreeChain(a, b, c));
            adj.Keys == {a, b, c} && adj[a] == {} && adj[b] == {a} && adj[c] == {b}
  {
  }

  lemma ThreeChainIsAcyclic(a: Id, b: Id, c: Id)
    requires a != b && a != c && b != c
    ensures Acyclic(AdjacencyOf(ThreeChain(a, b, c)))
  {
    hide AdjacencyOf, ThreeChain, Acyclic;
    ThreeChainAdjacency(a, b, c);
    var adj := AdjacencyOf(ThreeChain(a, b, c));
    var order := [a, b, c];
    assert order[..0] == [] && order[..1] == [a] && order[..2] == [a, b];
    assert Elements(order) == {a, b, c};
    TopologicalIsAcyclic(adj, order);
  }

  /** A graph without self-dependencies is acyclic exactly when its proper part is. */
  lemma NoSelfDependencyAcyclic(deps: map<Id, seq<Id>>)
    requires forall u :: u in deps ==> u !in deps[u]
    ensures AdjacencyOf(deps) == ProperAdjacencyOf(deps)
  {
    assert forall u :: u in deps ==> AdjacencyOf(deps)[u] == ProperAdjacencyOf(deps)[u];
  }

  // ----- a rank for recursion over an acyclic graph

  ghost function SomeTopologicalOrder(adj: Adjacency): (order: seq<Id>)
    requires Closed(adj) && Acyclic(adj)
    ensures IsTopological(adj, order)
  {
    AcyclicIffTopological(adj);
    var order :| IsTopological(adj, order);
    order
  }

  /** Position in some fixed topological order. */
  ghost function Rank(adj: Adjacency, u: Id): (r: nat)
    requires Closed(adj) && Acyclic(adj) && u in adj
    ensures r < |SomeTopologicalOrder(adj)| && SomeTopologicalOrder(adj)[r] == u
  {
    var order := SomeTopologicalOrder(adj);
    assert u in Elements(order);
    var r :| 0 <= r < |order| && order[r] == u;
    r
  }

  lemma RankDescends(adj: Adjacency, u: Id, v: Id)
    requires Closed(adj) && Acyclic(adj) && u in adj && v in adj[u]
    ensures Rank(adj, v) < Rank(adj, u)
  {
    var order := SomeTopologicalOrder(adj);
    assert v in order[..Rank(adj, u)];
  }
}

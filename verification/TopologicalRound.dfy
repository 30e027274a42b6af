/**
 * Which order the sweeps produce, without the sweeps: tasks go by rounds, and within a round by their
 * place in the list. The round of a task counts the dependencies on later-listed tasks on the way
 * down from it, along the path with the most of them.
 */
module TopologicalRounds {
  import opened Collections
  import opened Graphs
  import opened TaskGraphs
  import opened Plans
  import opened TopologicalOrders

  /** `v` is listed after `u`. */
  ghost predicate Later(ids: seq<Id>, v: Id, u: Id) {
    exists i, j :: 0 <= i < j < |ids| && ids[i] == u && ids[j] == v
  }

  /** The round that the first `n` dependencies of `u` force it to wait for. */
  ghost function RoundUpTo(deps: map<Id, seq<Id>>, ids: seq<Id>, u: Id, n: nat): nat
    requires IsDag(deps) && u in deps && n <= |deps[u]|
    decreases Rank(AdjacencyOf(deps), u), n
  {
    if n == 0 then 0
    else
      var d := deps[u][n - 1];
      RankDescends(AdjacencyOf(deps), u, d);
      var before := RoundUpTo(deps, ids, u, n - 1);
      var wait := RoundUpTo(deps, ids, d, |deps[d]|) + if Later(ids, d, u) then 1 else 0;
      if before < wait then wait else before
  }

  ghost function RoundOf(deps: map<Id, seq<Id>>, ids: seq<Id>, u: Id): nat
    requires IsDag(deps) && u in deps
  {
    RoundUpTo(deps, ids, u, |deps[u]|)
  }

  lemma DependencyKnown(deps: map<Id, seq<Id>>, u: Id, d: Id)
    requires IsDag(deps) && u in deps && d in deps[u]
    ensures d in deps && d != u && Rank(AdjacencyOf(deps), d) < Rank(AdjacencyOf(deps), u)
  {
    RankDescends(AdjacencyOf(deps), u, d);
  }

  /** How long a dependency makes its dependent wait. */
  ghost function Wait(deps: map<Id, seq<Id>>, ids: seq<Id>, u: Id, d: Id): nat
    requires IsDag(deps) && u in deps && d in deps
  {
    RoundOf(deps, ids, d) + if Later(ids, d, u) then 1 else 0
  }

  lemma RoundStep(deps: map<Id, seq<Id>>, ids: seq<Id>, u: Id, n: nat)
    requires IsDag(deps) && u in deps && n < |deps[u]|
    ensures deps[u][n] in deps
    ensures var before, wait := RoundUpTo(deps, ids, u, n), Wait(deps, ids, u, deps[u][n]);
            RoundUpTo(deps, ids, u, n + 1) == if before < wait then wait else before
  {
    DependencyKnown(deps, u, deps[u][n]);
  }

  lemma {:induction false} RoundBounds(deps: map<Id, seq<Id>>, ids: seq<Id>, u: Id, n: nat, i: nat)
    requires IsDag(deps) && u in deps && i < n <= |deps[u]|
    ensures deps[u][i] in deps && Wait(deps, ids, u, deps[u][i]) <= RoundUpTo(deps, ids, u, n)
  {
    hide IsDag, RoundUpTo, Wait;
    RoundStep(deps, ids, u, n - 1);
    if i < n - 1 {
      RoundBounds(deps, ids, u, n - 1, i);
    }
  }

  lemma {:induction false} RoundReached(deps: map<Id, seq<Id>>, ids: seq<Id>, u: Id, n: nat) returns (d: Id)
    requires IsDag(deps) && u in deps && n <= |deps[u]| && RoundUpTo(deps, ids, u, n) > 0
    ensures d in deps[u] && d in deps && Wait(deps, ids, u, d) == RoundUpTo(deps, ids, u, n)
  {
    hide IsDag, Wait;
    RoundStep(deps, ids, u, n - 1);
    if RoundUpTo(deps, ids, u, n - 1) == RoundUpTo(deps, ids, u, n) {
      d := RoundReached(deps, ids, u, n - 1);
    } else {
      d := deps[u][n - 1];
    }
  }

  /** The round is the longest wait for a dependency. */
  lemma RoundIsLongestWait(deps: map<Id, seq<Id>>, ids: seq<Id>, u: Id)
    requires IsDag(deps) && u in deps
    ensures forall d :: d in deps[u] ==> d in deps && Wait(deps, ids, u, d) <= RoundOf(deps, ids, u)
    ensures RoundOf(deps, ids, u) > 0 ==>
        exists d :: d in deps[u] && d in deps && Wait(deps, ids, u, d) == RoundOf(deps, ids, u)
  {
    hide IsDag, RoundUpTo, Wait;
    forall d | d in deps[u]
      ensures d in deps && Wait(deps, ids, u, d) <= RoundOf(deps, ids, u)
    {
      var i :| 0 <= i < |deps[u]| && deps[u][i] == d;
      RoundBounds(deps, ids, u, |deps[u]|, i);
    }
    if RoundOf(deps, ids, u) > 0 {
      var d := RoundReached(deps, ids, u, |deps[u]|);
    }
  }

  // ----- one sweep is one round

  /** The ids of the rounds before `k`. */
  ghost function Before(deps: map<Id, seq<Id>>, ids: seq<Id>, k: nat): set<Id>
    requires IsDag(deps)
  {
    set u | u in deps && RoundOf(deps, ids, u) < k
  }

  /** What is done when round `k` has come to position `from`. */
  ghost function DoneAt(deps: map<Id, seq<Id>>, ids: seq<Id>, k: nat, from: nat): set<Id>
    requires IsDag(deps) && from <= |ids|
  {
    set u | u in deps && (RoundOf(deps, ids, u) < k || (RoundOf(deps, ids, u) == k && u in ids[..from]))
  }

  ghost function InRound(tasks: seq<RoutedTask>, deps: map<Id, seq<Id>>, ids: seq<Id>, k: nat): set<RoutedTask>
    requires IsDag(deps)
  {
    set t | t in tasks && t.id in deps && RoundOf(deps, ids, t.id) == k
  }

  /** A task not done yet can go in round `k` exactly when that is its round. */
  lemma GoesInItsRound(deps: map<Id, seq<Id>>, ids: seq<Id>, k: nat, from: nat)
    requires IsDag(deps) && Distinct(ids) && (forall u :: u in deps <==> u in ids) && from < |ids|
    requires RoundOf(deps, ids, ids[from]) >= k
    ensures AllDone(deps[ids[from]], DoneAt(deps, ids, k, from)) <==> RoundOf(deps, ids, ids[from]) == k
  {
    hide IsDag, RoundOf, Distinct, Later;
    var u := ids[from];
    RoundIsLongestWait(deps, ids, u);
    if RoundOf(deps, ids, u) == k {
      forall d | d in deps[u]
        ensures d in DoneAt(deps, ids, k, from)
      {
        if RoundOf(deps, ids, d) == k {
          DependencyKnown(deps, u, d);
          NotLaterIsEarlier(ids, d, from);
        }
      }
    } else {
      var d :| d in deps[u] && d in deps && Wait(deps, ids, u, d) == RoundOf(deps, ids, u);
      if d in DoneAt(deps, ids, k, from) {
        EarlierIsNotLater(ids, d, from);
      }
    }
  }

  lemma NotLaterIsEarlier(ids: seq<Id>, d: Id, from: nat)
    requires from < |ids| && d in ids && d != ids[from] && !Later(ids, d, ids[from])
    ensures d in ids[..from]
  {
    var j :| 0 <= j < |ids| && ids[j] == d;
    assert j < from ==> ids[..from][j] == d;
  }

  lemma EarlierIsNotLater(ids: seq<Id>, d: Id, from: nat)
    requires Distinct(ids) && from < |ids|
    ensures d in ids[..from] ==> !Later(ids, d, ids[from])
  {
  }

  lemma DoneGrows(deps: map<Id, seq<Id>>, ids: seq<Id>, k: nat, from: nat)
    requires IsDag(deps) && Distinct(ids) && from < |ids| && ids[from] in deps
    ensures ids[from] in DoneAt(deps, ids, k, from) <==> RoundOf(deps, ids, ids[from]) < k
    ensures DoneAt(deps, ids, k, from + 1)
         == if RoundOf(deps, ids, ids[from]) == k then DoneAt(deps, ids, k, from) + {ids[from]}
            else DoneAt(deps, ids, k, from)
  {
    hide IsDag, RoundOf;
    DistinctFresh(ids, from);
    assert ids[..from + 1] == ids[..from] + [ids[from]];
  }

  /** The sweep from a position on emits what is left of its round, in list order. */
  lemma {:induction false} SweepIsRound(tasks: seq<RoutedTask>, deps: map<Id, seq<Id>>, k: nat, from: nat)
    requires IsDag(deps) && Distinct(Ids(tasks)) && (forall u :: u in deps <==> u in Ids(tasks)) && from <= |tasks|
    requires forall t :: t in tasks ==> t.id in deps
    ensures Sweep(tasks[from..], deps, DoneAt(deps, Ids(tasks), k, from))
         == Only(tasks[from..], InRound(tasks, deps, Ids(tasks), k))
    decreases |tasks| - from
  {
    hide IsDag, RoundOf, Distinct, Sweep, AllDone, DoneAt;
    var ids := Ids(tasks);
    if from == |tasks| {
      assert tasks[from..] == [];
      SweepOfNone(deps);
    } else {
      var t := tasks[from];
      assert tasks[from..] == [t] + tasks[from + 1..] && t in tasks && ids[from] == t.id;
      OnlyCons(t, tasks[from + 1..], InRound(tasks, deps, ids, k));
      DoneGrows(deps, ids, k, from);
      SweepIsRound(tasks, deps, k, from + 1);
      SweepVisit(tasks, from, deps, DoneAt(deps, ids, k, from));
      if RoundOf(deps, ids, t.id) >= k {
        GoesInItsRound(deps, ids, k, from);
      }
    }
  }

  // ----- the whole order

  /** One task goes before the other: in an earlier round, or in the same round and listed first. */
  ghost predicate Precedes(deps: map<Id, seq<Id>>, ids: seq<Id>, u: Id, v: Id)
    requires IsDag(deps) && u in deps && v in deps
  {
    || RoundOf(deps, ids, u) < RoundOf(deps, ids, v)
    || (RoundOf(deps, ids, u) == RoundOf(deps, ids, v) && Later(ids, v, u))
  }

  ghost predicate GoesByRounds(order: seq<RoutedTask>, deps: map<Id, seq<Id>>, ids: seq<Id>, k: nat)
    requires IsDag(deps)
  {
    && (forall i :: 0 <= i < |order| ==> order[i].id in deps && RoundOf(deps, ids, order[i].id) >= k)
    && (forall i, j :: 0 <= i < j < |order| ==> Precedes(deps, ids, order[i].id, order[j].id))
  }

  ghost predicate InListOrder(out: seq<RoutedTask>, ids: seq<Id>) {
    forall i, j :: 0 <= i < j < |out| ==> Later(ids, out[j].id, out[i].id)
  }

  lemma ListOrderCons(t: RoutedTask, out: seq<RoutedTask>, ids: seq<Id>)
    requires InListOrder(out, ids) && forall u :: u in out ==> Later(ids, u.id, t.id)
    ensures InListOrder([t] + out, ids)
  {
    hide Later;
    var all := [t] + out;
    assert forall j :: 0 < j < |all| ==> all[j] == out[j - 1] && all[j] in out;
  }

  /** Choosing from a list keeps its order. */
  lemma {:induction false} OnlyInOrder(tasks: seq<RoutedTask>, from: nat, keep: set<RoutedTask>)
    requires from <= |tasks|
    ensures InListOrder(Only(tasks[from..], keep), Ids(tasks))
    decreases |tasks| - from
  {
    hide Later, InListOrder, Only;
    if from == |tasks| {
      NothingInOrder(tasks, keep);
    } else {
      var t, rest := tasks[from], tasks[from + 1..];
      assert tasks[from..] == [t] + rest;
      OnlyCons(t, rest, keep);
      OnlyInOrder(tasks, from + 1, keep);
      forall u | u in Only(rest, keep)
        ensures Later(Ids(tasks), u.id, t.id)
      {
        assert u in rest;
        var m :| 0 <= m < |rest| && rest[m] == u;
        ListedLater(tasks, from, from + 1 + m);
      }
      ListOrderCons(t, Only(rest, keep), Ids(tasks));
    }
  }

  lemma NothingInOrder(tasks: seq<RoutedTask>, keep: set<RoutedTask>)
    ensures InListOrder(Only(tasks[|tasks|..], keep), Ids(tasks))
  {
  }

  lemma ListedLater(tasks: seq<RoutedTask>, i: nat, j: nat)
    requires i < j < |tasks|
    ensures Later(Ids(tasks), tasks[j].id, tasks[i].id)
  {
    assert Ids(tasks)[i] == tasks[i].id && Ids(tasks)[j] == tasks[j].id;
  }

  lemma RoundThenRest(out: seq<RoutedTask>, rest: seq<RoutedTask>, deps: map<Id, seq<Id>>, ids: seq<Id>, k: nat)
    requires IsDag(deps) && forall t :: t in out ==> t.id in deps && RoundOf(deps, ids, t.id) == k
    requires InListOrder(out, ids) && GoesByRounds(rest, deps, ids, k + 1)
    ensures GoesByRounds(out + rest, deps, ids, k)
  {
    hide IsDag, RoundOf, Later;
    var all := out + rest;
    forall i, j | 0 <= i < j < |all|
      ensures all[i].id in deps && all[j].id in deps && Precedes(deps, ids, all[i].id, all[j].id)
    {
      assert i < |out| ==> all[i] in out;
      assert j < |out| ==> all[j] in out;
      if i >= |out| {
        var a, b := i - |out|, j - |out|;
        assert all[i] == rest[a] && all[j] == rest[b];
      }
    }
    forall i | 0 <= i < |all|
      ensures all[i].id in deps && RoundOf(deps, ids, all[i].id) >= k
    {
      assert i < |out| ==> all[i] in out;
    }
  }

  lemma BeforeIsDone(deps: map<Id, seq<Id>>, ids: seq<Id>, k: nat)
    requires IsDag(deps) && forall u :: u in deps <==> u in ids
    ensures DoneAt(deps, ids, k, 0) == Before(deps, ids, k)
    ensures DoneAt(deps, ids, k, |ids|) == Before(deps, ids, k + 1)
  {
    hide IsDag, RoundOf;
    assert ids[..|ids|] == ids;
  }

  /** The ids a round adds. */
  lemma RoundAdds(tasks: seq<RoutedTask>, deps: map<Id, seq<Id>>, k: nat)
    requires IsDag(deps) && (forall u :: u in deps <==> u in Ids(tasks))
    ensures var out := Only(tasks, InRound(tasks, deps, Ids(tasks), k));
            Before(deps, Ids(tasks), k) + IdSet(out) == Before(deps, Ids(tasks), k + 1)
  {
    hide IsDag, RoundOf;
    var out := Only(tasks, InRound(tasks, deps, Ids(tasks), k));
    forall u | u in Before(deps, Ids(tasks), k + 1) && u !in Before(deps, Ids(tasks), k)
      ensures u in IdSet(out)
    {
      var i :| 0 <= i < |tasks| && Ids(tasks)[i] == u;
      assert tasks[i] in out;
    }
  }

  lemma {:induction false} RoundsGoByRounds(tasks: seq<RoutedTask>, deps: map<Id, seq<Id>>, k: nat)
    requires IsDag(deps) && Distinct(Ids(tasks)) && (forall u :: u in deps <==> u in Ids(tasks))
    requires forall t :: t in tasks ==> t.id in deps
    ensures GoesByRounds(Rounds(tasks, deps, Before(deps, Ids(tasks), k)), deps, Ids(tasks), k)
    decreases IdSet(tasks) - Before(deps, Ids(tasks), k)
  {
    hide IsDag, RoundOf, Distinct, Later, Precedes, Before;
    var ids := Ids(tasks);
    var done := Before(deps, ids, k);
    var out := Sweep(tasks, deps, done);
    BeforeIsDone(deps, ids, k);
    SweepIsRound(tasks, deps, k, 0);
    assert tasks[0..] == tasks;
    RoundsStep(tasks, deps, done);
    if out != [] {
      RoundAdds(tasks, deps, k);
      RoundsGoByRounds(tasks, deps, k + 1);
      OnlyInOrder(tasks, 0, InRound(tasks, deps, ids, k));
      RoundThenRest(out, Rounds(tasks, deps, Before(deps, ids, k + 1)), deps, ids, k);
    }
  }

  lemma NothingBefore(deps: map<Id, seq<Id>>, ids: seq<Id>)
    requires IsDag(deps)
    ensures Before(deps, ids, 0) == {}
  {
  }

  /**
   * The order of an orderable plan: by rounds, and within a round in list order. With the order being
   * a permutation of the plan this leaves no choice.
   */
  lemma OrderGoesByRounds(tasks: seq<RoutedTask>)
    requires TopologicalOrder(tasks).Some?
    ensures IsDag(DependencyTable(tasks))
    ensures GoesByRounds(TopologicalOrder(tasks).value, DependencyTable(tasks), Ids(tasks), 0)
  {
    hide GoesByRounds, Distinct;
    OrderExistsIff(tasks);
    TableCovers(tasks);
    NothingBefore(DependencyTable(tasks), Ids(tasks));
    RoundsGoByRounds(tasks, DependencyTable(tasks), 0);
  }

  // ----- no other order goes by rounds

  lemma LaterOneWay(ids: seq<Id>, u: Id, v: Id)
    requires Distinct(ids)
    ensures !(Later(ids, u, v) && Later(ids, v, u))
  {
  }

  lemma TailGoesByRounds(order: seq<RoutedTask>, deps: map<Id, seq<Id>>, ids: seq<Id>)
    requires IsDag(deps) && order != [] && GoesByRounds(order, deps, ids, 0)
    ensures GoesByRounds(order[1..], deps, ids, 0)
    ensures forall t :: t in order[1..] ==>
        t.id in deps && order[0].id in deps && Precedes(deps, ids, order[0].id, t.id)
  {
    hide IsDag, RoundOf, Precedes;
    var rest := order[1..];
    assert forall i :: 0 <= i < |rest| ==> rest[i] == order[i + 1];
  }

  lemma NotBothWays(deps: map<Id, seq<Id>>, ids: seq<Id>, u: Id, v: Id)
    requires IsDag(deps) && u in deps && v in deps && Distinct(ids)
    ensures !(Precedes(deps, ids, u, v) && Precedes(deps, ids, v, u))
  {
    hide IsDag, RoundOf, Later;
    LaterOneWay(ids, u, v);
  }

  lemma {:induction false} SameElementsSameOrder(a: seq<RoutedTask>, b: seq<RoutedTask>, deps: map<Id, seq<Id>>,
      ids: seq<Id>)
    requires IsDag(deps) && Distinct(ids) && GoesByRounds(a, deps, ids, 0) && GoesByRounds(b, deps, ids, 0)
    requires forall t :: t in a <==> t in b
    ensures a == b
  {
    hide IsDag, GoesByRounds, Precedes, Distinct;
    if a == [] {
      SomeMember(b);
    } else {
      assert a[0] in a && a[0] in b && b[0] in b;
      var x, y, c, d := a[0], b[0], a[1..], b[1..];
      assert a == [x] + c && b == [y] + d;
      TailGoesByRounds(a, deps, ids);
      TailGoesByRounds(b, deps, ids);
      if x != y {
        NotBothWays(deps, ids, x.id, y.id);
      }
      forall t | t in c
        ensures t in d
      {
        assert t in a && t in b;
        NotBothWays(deps, ids, t.id, t.id);
      }
      forall t | t in d
        ensures t in c
      {
        assert t in a && t in b;
        NotBothWays(deps, ids, t.id, t.id);
      }
      SameElementsSameOrder(c, d, deps, ids);
    }
  }

  /** The sort returns a permutation that goes by rounds, and there is no other one. */
  lemma OrderIsTheOneByRounds(tasks: seq<RoutedTask>, order: seq<RoutedTask>)
    requires IsOrderable(tasks) && multiset(order) == multiset(tasks)
    ensures GoesByRounds(order, DependencyTable(tasks), Ids(tasks), 0) <==> TopologicalOrder(tasks) == Some(order)
  {
    hide IsDag, GoesByRounds, Distinct, DependencyTable;
    OrderExistsIff(tasks);
    OrderGoesByRounds(tasks);
    OrderIsLinearization(tasks);
    var own := TopologicalOrder(tasks).value;
    assert forall t :: t in own <==> t in multiset(own);
    assert forall t :: t in order <==> t in multiset(order);
    if GoesByRounds(order, DependencyTable(tasks), Ids(tasks), 0) {
      SameElementsSameOrder(order, own, DependencyTable(tasks), Ids(tasks));
    }
  }
}

/**
 * The iterative three-colour depth-first search that both TaskGraph.validate and the
 * plan validator run: an explicit stack of frames, the path of gray nodes, and a colour map.
 */
module CycleSearch {
  import opened Collections
  import opened Graphs

  datatype Color = White | Gray | Black
  datatype Frame = Frame(id: Id, iter: nat)

  /** The colour map, the explicit stack, and the path the stack spells. */
  datatype Search = Search(color: map<Id, Color>, stack: seq<Frame>, path: seq<Id>)

  ghost function Colored(s: Search, c: Color): set<Id> {
    set u | u in s.color && s.color[u] == c
  }

  /** Dependencies already handled: black, unknown, or the node itself. */
  ghost predicate Explored(deps: map<Id, seq<Id>>, color: map<Id, Color>, u: Id, upTo: nat)
    requires u in deps && upTo <= |deps[u]| && (forall w :: w in color <==> w in deps)
  {
    forall j :: 0 <= j < upTo ==>
      deps[u][j] == u || deps[u][j] !in deps || color[deps[u][j]] == Black
  }

  /** The stack spells the path; each node depends on the next through the dependency its frame is inside of. */
  ghost predicate StackSpellsPath(deps: map<Id, seq<Id>>, stack: seq<Frame>, path: seq<Id>) {
    && |stack| == |path|
    && (forall i :: 0 <= i < |stack| ==>
          stack[i].id == path[i] && path[i] in deps && stack[i].iter <= |deps[path[i]]|)
    && (forall i :: 0 <= i < |path| - 1 ==> stack[i].iter > 0 && path[i + 1] == deps[path[i]][stack[i].iter - 1])
  }

  /** Gray nodes are exactly the path, black nodes exactly the finished ones. */
  ghost predicate ColorsMatch(deps: map<Id, seq<Id>>, color: map<Id, Color>, path: seq<Id>, finished: seq<Id>) {
    && (forall u :: u in color <==> u in deps)
    && (forall u :: u in deps ==> (color[u] == Gray <==> u in path))
    && (forall u :: u in deps ==> (color[u] == Black <==> u in finished))
  }

  /** Each frame has explored every dependency before the one it is inside of; the top frame, all it has passed. */
  ghost predicate FramesExplored(deps: map<Id, seq<Id>>, color: map<Id, Color>, stack: seq<Frame>, path: seq<Id>)
    requires StackSpellsPath(deps, stack, path) && forall w :: w in color <==> w in deps
  {
    && (forall i :: 0 <= i < |path| - 1 ==> Explored(deps, color, path[i], stack[i].iter - 1))
    && (|path| > 0 ==> Explored(deps, color, path[|path| - 1], stack[|path| - 1].iter))
  }

  /** The search state; `finished` lists the black nodes, dependencies first. */
  ghost predicate SearchState(deps: map<Id, seq<Id>>, s: Search, finished: seq<Id>) {
    && StackSpellsPath(deps, s.stack, s.path)
    && Distinct(s.path)
    && ColorsMatch(deps, s.color, s.path, finished)
    && FramesExplored(deps, s.color, s.stack, s.path)
    && DependenciesFirst(ProperAdjacencyOf(deps), finished)
  }

  ghost function Unexplored(deps: map<Id, seq<Id>>, s: Search, finished: seq<Id>): nat
    requires SearchState(deps, s, finished)
  {
    if |s.stack| == 0 then 0 else |deps[s.path[|s.path| - 1]]| - s.stack[|s.path| - 1].iter
  }

  /** A gray dependency closes a cycle: the path from it to the top, then back to it. */
  lemma GrayClosesCycle(deps: map<Id, seq<Id>>, s: Search, finished: seq<Id>, start: nat)
    requires SearchState(deps, s, finished)
    requires start < |s.path|
    requires s.path[start] in deps[s.path[|s.path| - 1]] && s.path[start] != s.path[|s.path| - 1]
    ensures IsCycle(ProperAdjacencyOf(deps), s.path[start..] + [s.path[start]])
  {
    hide FramesExplored, DependenciesFirst;
    var adj, path := ProperAdjacencyOf(deps), s.path;
    forall i | 0 <= i < |path| - 1
      ensures path[i + 1] in adj[path[i]]
    {
      assert path[i + 1] == deps[path[i]][s.stack[i].iter - 1];
    }
    var c := path[start..] + [path[start]];
    assert forall i :: 0 <= i < |c| - 1 ==> c[i] == path[start + i];
  }

  /** Colouring a node that is not black leaves explored dependencies explored. */
  lemma RecolorKeepsExplored(deps: map<Id, seq<Id>>, color: map<Id, Color>, w: Id, c: Color, u: Id, upTo: nat)
    requires u in deps && upTo <= |deps[u]| && (forall v :: v in color <==> v in deps) && w in deps
    requires Explored(deps, color, u, upTo) && (color[w] == Black ==> c == Black)
    ensures Explored(deps, color[w := c], u, upTo)
  {
  }

  /** The finished order grows by a node whose dependencies are all finished. */
  lemma FinishNode(deps: map<Id, seq<Id>>, color: map<Id, Color>, path: seq<Id>, finished: seq<Id>, u: Id)
    requires ColorsMatch(deps, color, path, finished) && DependenciesFirst(ProperAdjacencyOf(deps), finished)
    requires u in deps && color[u] == Gray && Explored(deps, color, u, |deps[u]|)
    ensures DependenciesFirst(ProperAdjacencyOf(deps), finished + [u])
  {
    hide Distinct;
    var longer := finished + [u];
    DistinctAppend(finished, u);
    assert forall i :: 0 <= i < |finished| ==> longer[..i] == finished[..i];
    assert longer[..|finished|] == finished;
  }

  lemma PopKeepsColors(deps: map<Id, seq<Id>>, color: map<Id, Color>, path: seq<Id>, finished: seq<Id>)
    requires ColorsMatch(deps, color, path, finished) && Distinct(path) && |path| > 0 && path[|path| - 1] in deps
    ensures var u := path[|path| - 1];
            ColorsMatch(deps, color[u := Black], path[..|path| - 1], finished + [u])
  {
    var u, front := path[|path| - 1], path[..|path| - 1];
    assert path == front + [u];
  }

  lemma PopKeepsFrames(deps: map<Id, seq<Id>>, color: map<Id, Color>, stack: seq<Frame>, path: seq<Id>)
    requires StackSpellsPath(deps, stack, path) && (forall w :: w in color <==> w in deps)
    requires FramesExplored(deps, color, stack, path) && |path| > 0
    ensures var top := |path| - 1;
            && StackSpellsPath(deps, stack[..top], path[..top])
            && FramesExplored(deps, color[path[top] := Black], stack[..top], path[..top])
  {
    hide Explored;
    var top := |path| - 1;
    forall i | 0 <= i < top
      ensures Explored(deps, color[path[top] := Black], path[i], stack[i].iter - 1)
    {
      RecolorKeepsExplored(deps, color, path[top], Black, path[i], stack[i].iter - 1);
    }
    if top > 0 {
      NowExplored(deps, color[path[top] := Black], path[top - 1], stack[top - 1].iter - 1);
    }
  }

  lemma NowExplored(deps: map<Id, seq<Id>>, color: map<Id, Color>, u: Id, upTo: nat)
    requires u in deps && upTo < |deps[u]| && forall v :: v in color <==> v in deps
    requires Explored(deps, color, u, upTo)
    requires deps[u][upTo] == u || deps[u][upTo] !in deps || color[deps[u][upTo]] == Black
    ensures Explored(deps, color, u, upTo + 1)
  {
  }

  /** Blackening the exhausted top frame keeps `finished` a dependencies-first order. */
  lemma FinishTop(deps: map<Id, seq<Id>>, s: Search, finished: seq<Id>)
    requires SearchState(deps, s, finished)
    requires |s.path| > 0 && Unexplored(deps, s, finished) == 0
    ensures var top := |s.path| - 1;
            SearchState(deps, Search(s.color[s.path[top] := Black], s.stack[..top], s.path[..top]),
                finished + [s.path[top]])
  {
    hide Explored, DependenciesFirst;
    var top := |s.path| - 1;
    assert s.path[top] in s.path;
    FinishNode(deps, s.color, s.path, finished, s.path[top]);
    PopKeepsColors(deps, s.color, s.path, finished);
    PopKeepsFrames(deps, s.color, s.stack, s.path);
  }

  /** Stepping over a dependency that is black, unknown or the node itself. */
  lemma SkipDependency(deps: map<Id, seq<Id>>, s: Search, finished: seq<Id>)
    requires SearchState(deps, s, finished)
    requires |s.path| > 0 && Unexplored(deps, s, finished) > 0
    requires var top := |s.path| - 1;
             var dep := deps[s.path[top]][s.stack[top].iter];
             dep == s.path[top] || dep !in deps || s.color[dep] == Black
    ensures var top := |s.path| - 1;
            SearchState(deps, s.(stack := s.stack[top := s.stack[top].(iter := s.stack[top].iter + 1)]), finished)
  {
    hide Explored, DependenciesFirst, Distinct;
    NowExplored(deps, s.color, s.path[|s.path| - 1], s.stack[|s.path| - 1].iter);
  }

  lemma PushKeepsFrames(deps: map<Id, seq<Id>>, color: map<Id, Color>, stack: seq<Frame>, path: seq<Id>, dep: Id)
    requires StackSpellsPath(deps, stack, path) && (forall w :: w in color <==> w in deps)
    requires FramesExplored(deps, color, stack, path) && |path| > 0 && stack[|path| - 1].iter < |deps[path[|path| - 1]]|
    requires dep == deps[path[|path| - 1]][stack[|path| - 1].iter] && dep in deps && color[dep] == White
    ensures var top := |path| - 1;
            var pushed := stack[top := stack[top].(iter := stack[top].iter + 1)] + [Frame(dep, 0)];
            && StackSpellsPath(deps, pushed, path + [dep])
            && FramesExplored(deps, color[dep := Gray], pushed, path + [dep])
  {
    hide Explored;
    forall i | 0 <= i < |path|
      ensures Explored(deps, color[dep := Gray], path[i], if i < |path| - 1 then stack[i].iter - 1 else stack[i].iter)
    {
      RecolorKeepsExplored(deps, color, dep, Gray, path[i], if i < |path| - 1 then stack[i].iter - 1
          else stack[i].iter);
    }
    NothingExplored(deps, color[dep := Gray], dep);
  }

  lemma NothingExplored(deps: map<Id, seq<Id>>, color: map<Id, Color>, u: Id)
    requires u in deps && forall v :: v in color <==> v in deps
    ensures Explored(deps, color, u, 0)
  {
  }

  /** Entering a white dependency pushes a gray node. */
  lemma EnterDependency(deps: map<Id, seq<Id>>, s: Search, finished: seq<Id>)
    requires SearchState(deps, s, finished)
    requires |s.path| > 0 && Unexplored(deps, s, finished) > 0
    requires var top := |s.path| - 1;
             var dep := deps[s.path[top]][s.stack[top].iter]; dep in deps && s.color[dep] == White
    ensures var top := |s.path| - 1;
            var dep := deps[s.path[top]][s.stack[top].iter];
            SearchState(deps, Search(s.color[dep := Gray],
                                     s.stack[top := s.stack[top].(iter := s.stack[top].iter + 1)] + [Frame(dep, 0)],
                                     s.path + [dep]), finished)
  {
    hide FramesExplored, DependenciesFirst, Distinct;
    var top := |s.path| - 1;
    var dep := deps[s.path[top]][s.stack[top].iter];
    PushKeepsFrames(deps, s.color, s.stack, s.path, dep);
    DistinctAppend(s.path, dep);
  }

  /** One iteration of the inner loop: looks at the next dependency of the top frame, or pops it. */
  method Advance(deps: map<Id, seq<Id>>, s: Search, ghost finished: seq<Id>)
    returns (cycle: Option<seq<Id>>, t: Search, ghost done: seq<Id>)
    requires SearchState(deps, s, finished) && |s.stack| > 0
    ensures cycle.Some? ==> IsCycle(ProperAdjacencyOf(deps), cycle.value)
    ensures cycle.None? ==> SearchState(deps, t, done)
    ensures cycle.None? ==> Colored(s, Black) <= Colored(t, Black)
    ensures cycle.None? ==>
              || Colored(t, White) < Colored(s, White)
              || (Colored(t, White) == Colored(s, White) && |t.stack| < |s.stack|)
              || (Colored(t, White) == Colored(s, White) && |t.stack| == |s.stack|
                  && Unexplored(deps, t, done) < Unexplored(deps, s, finished))
  {
    hide FramesExplored, DependenciesFirst, Distinct, IsCycle;
    cycle, t, done := None, s, finished;
    var top := |s.stack| - 1;
    var frame := s.stack[top];
    if frame.iter < |deps[frame.id]| {
      var dep := deps[frame.id][frame.iter];
      if dep == frame.id || dep !in s.color || s.color[dep] == Black {
        // self-dependencies are reported separately; unknown ids count as black
        SkipDependency(deps, s, finished);
        t := s.(stack := s.stack[top := frame.(iter := frame.iter + 1)]);
      } else if s.color[dep] == Gray {
        var start := IndexOf(s.path, dep);
        GrayClosesCycle(deps, s, finished, start);
        cycle := Some(s.path[start..] + [dep]);
      } else {
        EnterDependency(deps, s, finished);
        t := Search(s.color[dep := Gray], s.stack[top := frame.(iter := frame.iter + 1)] + [Frame(dep, 0)],
            s.path + [dep]);
        assert dep in Colored(s, White) && dep !in Colored(t, White);
      }
    } else {
      FinishTop(deps, s, finished);
      t := Search(s.color[frame.id := Black], s.stack[..top], s.path[..top]);
      done := finished + [frame.id];
      assert frame.id in s.path;
      assert Colored(t, White) == Colored(s, White);
    }
  }

  lemma InitialSearch(deps: map<Id, seq<Id>>)
    ensures SearchState(deps, Search(map u | u in deps :: White, [], []), [])
  {
  }

  /** The inner loop: explores everything reachable from one white root. */
  method Explore(root: Id, deps: map<Id, seq<Id>>, color: map<Id, Color>, ghost finished: seq<Id>)
    returns (cycle: Option<seq<Id>>, s: Search, ghost done: seq<Id>)
    requires SearchState(deps, Search(color, [], []), finished)
    requires root in deps && color[root] == White
    ensures cycle.Some? ==> IsCycle(ProperAdjacencyOf(deps), cycle.value)
    ensures cycle.None? ==> SearchState(deps, s, done) && s.stack == [] && s.color[root] != White
    ensures cycle.None? ==> Colored(Search(color, [], []), Black) <= Colored(s, Black)
  {
    hide DependenciesFirst, IsCycle;
    cycle, s, done := None, Search(color[root := Gray], [Frame(root, 0)], [root]), finished;
    while |s.stack| > 0
      invariant cycle.None?
      invariant SearchState(deps, s, done)
      invariant root !in Colored(s, White)
      invariant Colored(Search(color, [], []), Black) <= Colored(s, Black)
      decreases Colored(s, White), |s.stack|, Unexplored(deps, s, done)
    {
      cycle, s, done := Advance(deps, s, done);
      if cycle.Some? {
        return;
      }
    }
  }

  /**
   * Returns a cycle of distinct dependencies as a path that ends where it starts, or None.
   * None is returned exactly when every cycle of the graph is a self-dependency.
   */
  method FindCycle(nodes: seq<Id>, deps: map<Id, seq<Id>>) returns (cycle: Option<seq<Id>>)
    requires forall u :: u in nodes <==> u in deps
    ensures cycle.Some? ==> IsCycle(ProperAdjacencyOf(deps), cycle.value)
    ensures cycle.None? <==> Acyclic(ProperAdjacencyOf(deps))
  {
    hide FramesExplored, IsCycle, Distinct;
    var s := Search(map u | u in deps :: White, [], []);
    InitialSearch(deps);
    ghost var finished: seq<Id> := [];
    var r := 0;
    while r < |nodes|
      invariant 0 <= r <= |nodes|
      invariant SearchState(deps, s, finished) && s.stack == []
      invariant Elements(nodes[..r]) <= Colored(s, Black)
    {
      var root := nodes[r];
      assert root in nodes;
      if s.color[root] == White {
        assert s == Search(s.color, [], []);
        cycle, s, finished := Explore(root, deps, s.color, finished);
        if cycle.Some? {
          return;
        }
      }
      assert root in Colored(s, Black);
      assert Elements(nodes[..r + 1]) == Elements(nodes[..r]) + {root};
      r := r + 1;
    }
    assert nodes[..r] == nodes;
    assert forall u :: u in deps ==> u in Elements(nodes);
    assert Elements(finished) == deps.Keys;
    TopologicalIsAcyclic(ProperAdjacencyOf(deps), finished);
    cycle := None;
  }

  method IndexOf(s: seq<Id>, x: Id) returns (i: nat)
    requires x in s
    ensures i < |s| && s[i] == x && x !in s[..i]
  {
    i := 0;
    while s[i] != x
      invariant i < |s| && x !in s[..i]
      decreases |s| - i
    {
      assert x in s[i + 1..];
      i := i + 1;
    }
  }
}

/** The searches of `QMLTopology` on plain values: the depth-first search
    of `_find_cycles_dfs`, the breadth-first searches of `can_reach` and
    `get_components`, and the layering loop of `get_dependency_layers`. */
module TopologySearch {
  import opened Graphs
  import opened TopologyOrder

  // ---------------------------------------------------------------------
  // Walks.

  /** A walk extended by an edge out of its last node. */
  lemma PathSnoc(g: Graph, p: seq<string>, x: string)
    requires IsPath(g, p) && x in Succ(g, p[|p| - 1])
    ensures IsPath(g, p + [x])
  {
    var q := p + [x];
    assert forall i :: 0 <= i < |p| ==> q[i] == p[i];
  }

  /** A suffix of a walk is a walk. */
  lemma PathSuffix(g: Graph, p: seq<string>, i: int)
    requires IsPath(g, p) && 0 <= i < |p|
    ensures IsPath(g, p[i..]) && p[i..][0] == p[i] && p[i..][|p| - i - 1] == p[|p| - 1]
  {
    var q := p[i..];
    forall k | 0 <= k < |q| - 1 ensures q[k + 1] in Succ(g, q[k]) {
      assert q[k] == p[i + k] && q[k + 1] == p[i + k + 1];
    }
  }

  /** `path[cycle_start:] + [neighbor]`: the stack from the first occurrence
      of `nb` on, closed by the edge back to `nb`. */
  lemma CycleFromStack(g: Graph, p: seq<string>, nb: string)
    requires IsPath(g, p) && nb in Succ(g, p[|p| - 1]) && nb in p
    ensures IsCycle(g, p[IndexOf(p, nb)..] + [nb])
    ensures Elems(p[IndexOf(p, nb)..] + [nb]) <= Elems(p)
  {
    var start := IndexOf(p, nb);
    assert start < |p| && p[start] == nb;
    var q := p[start..];
    PathSuffix(g, p, start);
    PathSnoc(g, q, nb);
    ElemsConcat(q, [nb]);
    var c := q + [nb];
    assert c[0] == nb && c[|c| - 1] == nb;
    assert Elems(q) <= Elems(p) by {
      assert p == p[..start] + q;
      ElemsConcat(p[..start], q);
    }
  }

  // ---------------------------------------------------------------------
  // `_find_cycles_dfs`.

  /** What holds when `dfs(node, path)` is entered: `node` is a new item,
      `path` is the walk down to it and `rec_stack` holds exactly the nodes
      of `path`. */
  ghost predicate DfsEntry(items: seq<string>, g: Graph, node: string, path: seq<string>,
                           visited: set<string>, recStack: set<string>) {
    DepsOk(items, g) && node in Elems(items) && node !in visited &&
    recStack == Elems(path) && recStack <= visited && visited <= Elems(items) &&
    (|path| > 0 ==> IsPath(g, path) && node in Succ(g, path[|path| - 1]))
  }

  /** `dfs(node, path)`: marks `node` and everything it explores visited;
      on `True` the cycle it found is a closed walk through items, on
      `False` the recursion stack is as it was. */
  method Dfs(items: seq<string>, g: Graph, node: string, path: seq<string>,
             visited0: set<string>, recStack0: set<string>)
    returns (found: bool, visited: set<string>, recStack: set<string>, cycle: seq<string>)
    requires DfsEntry(items, g, node, path, visited0, recStack0)
    ensures visited0 + {node} <= visited <= Elems(items)
    ensures !found ==> recStack == recStack0
    ensures found ==> IsCycle(g, cycle) && Elems(cycle) <= Elems(items)
    decreases Elems(items) - visited0
  {
    visited := visited0 + {node};
    recStack := recStack0 + {node};
    var p := path + [node];
    ElemsConcat(path, [node]);
    if |path| > 0 {
      PathSnoc(g, path, node);
    }
    assert IsPath(g, p);
    var todo := Succ(g, node);
    found, cycle := false, [];
    while todo != {}
      invariant todo <= Succ(g, node)
      invariant visited0 + {node} <= visited <= Elems(items)
      invariant recStack == Elems(p)
      decreases todo
    {
      var nb :| nb in todo;
      todo := todo - {nb};
      assert nb in Elems(items);
      if nb !in visited {
        found, visited, recStack, cycle := Dfs(items, g, nb, p, visited, recStack);
        if found {
          return;
        }
      } else if nb in recStack {
        CycleFromStack(g, p, nb);
        cycle := p[IndexOf(p, nb)..] + [nb];
        found := true;
        return;
      }
    }
    recStack := recStack - {node};
  }

  /** The loop of `_find_cycles_dfs` over the items: the cycles recorded,
      at most one. */
  method FindCycles(items: seq<string>, g: Graph) returns (cycles: seq<seq<string>>)
    requires DepsOk(items, g)
    ensures |cycles| <= 1
    ensures forall c :: c in cycles ==> IsCycle(g, c) && Elems(c) <= Elems(items)
  {
    var visited: set<string> := {};
    var recStack: set<string> := {};
    cycles := [];
    for k := 0 to |items|
      invariant visited <= Elems(items) && recStack == {} && cycles == []
    {
      assert items[k] in Elems(items);
      if items[k] !in visited {
        var found, cycle;
        found, visited, recStack, cycle := Dfs(items, g, items[k], [], visited, recStack);
        if found {
          cycles := cycles + [cycle];
          return;
        }
      }
    }
  }

  // ---------------------------------------------------------------------
  // `can_reach`.

  /** Dropping the head of a queue. */
  lemma QueueTail(q: seq<string>)
    requires |q| > 0
    ensures Elems(q) == {q[0]} + Elems(q[1..])
  {
    assert q == [q[0]] + q[1..];
    ElemsConcat([q[0]], q[1..]);
  }

  /** The BFS invariant: everything seen is reachable from `from`, `from`
      has been seen, and the visited nodes have all their successors
      visited or queued. */
  ghost predicate Frontier(g: Graph, from: string, visited: set<string>, queue: seq<string>) {
    (forall x :: x in Elems(queue) ==> Reaches(g, from, x)) &&
    (forall x :: x in visited ==> Reaches(g, from, x)) &&
    (from in visited || from in Elems(queue)) &&
    (forall x :: x in visited ==> Succ(g, x) <= visited + Elems(queue))
  }

  /** The inner loop of a BFS step: every successor of `current` not yet
      visited is queued. */
  method EnqueueUnvisited(g: Graph, current: string, visited: set<string>, queue0: seq<string>)
    returns (queue: seq<string>)
    ensures Elems(queue) == Elems(queue0) + (Succ(g, current) - visited)
  {
    queue := queue0;
    var todo := Succ(g, current);
    while todo != {}
      invariant todo <= Succ(g, current)
      invariant Elems(queue) == Elems(queue0) + ((Succ(g, current) - todo) - visited)
      decreases todo
    {
      var dep :| dep in todo;
      todo := todo - {dep};
      if dep !in visited {
        ElemsConcat(queue, [dep]);
        queue := queue + [dep];
      }
    }
  }

  /** A visited node's successors are queued: the frontier invariant
      survives visiting `current`. */
  lemma FrontierVisit(g: Graph, from: string, visited: set<string>, queue: seq<string>, current: string, queue': seq<string>)
    requires Frontier(g, from, visited, [current] + queue)
    requires Elems(queue') == Elems(queue) + (Succ(g, current) - (visited + {current}))
    ensures Frontier(g, from, visited + {current}, queue')
  {
    ElemsConcat([current], queue);
    assert Reaches(g, from, current);
    forall y | y in Elems(queue') ensures Reaches(g, from, y) {
      if y !in Elems(queue) {
        ReachStep(g, from, current, y);
      }
    }
  }

  /** `can_reach(from_item, to_item)`: true for the item itself, otherwise
      a breadth-first search along dependency edges. */
  method Reachable(items: seq<string>, g: Graph, from: string, to: string) returns (r: bool)
    requires DepsOk(items, g)
    ensures r <==> Reaches(g, from, to)
  {
    if from == to {
      ReachRefl(g, from);
      return true;
    }
    ghost var universe := Elems(items) + {from};
    var visited: set<string> := {};
    var queue: seq<string> := [from];
    ReachRefl(g, from);
    while |queue| > 0
      invariant Elems(queue) <= universe && visited <= universe
      invariant Frontier(g, from, visited, queue)
      invariant to !in visited
      decreases universe - visited, |queue|
    {
      var current := queue[0];
      QueueTail(queue);
      assert queue == [current] + queue[1..];
      queue := queue[1..];
      if current == to {
        return true;
      }
      if current in visited {
        continue;
      }
      ghost var queue0 := queue;
      queue := EnqueueUnvisited(g, current, visited + {current}, queue);
      FrontierVisit(g, from, visited, queue0, current, queue);
      visited := visited + {current};
    }
    if Reaches(g, from, to) {
      ClosedReach(g, visited, from, to);
    }
    return false;
  }

  // ---------------------------------------------------------------------
  // `get_components`.

  /** The graph `explore_component` walks: dependencies and dependents. */
  function Undirected(items: seq<string>, deps: Graph, rev: Graph): Graph {
    map x | x in Elems(items) :: Succ(deps, x) + Succ(rev, x)
  }

  ghost predicate Symmetric(g: Graph) {
    forall x, y :: y in Succ(g, x) ==> x in Succ(g, y)
  }

  /** Following an edge back always is possible in the undirected view. */
  lemma UndirectedSymmetric(items: seq<string>, deps: Graph, rev: Graph)
    requires DepsOk(items, deps) && ReverseOf(items, deps, rev)
    ensures Symmetric(Undirected(items, deps, rev))
  {
    var ug := Undirected(items, deps, rev);
    forall x, y | y in Succ(ug, x) ensures x in Succ(ug, y) {
      if y in Succ(deps, x) {
        assert x in Succ(rev, y);
      } else {
        assert x in Succ(deps, y);
      }
    }
  }

  /** Dependencies and dependents are items. */
  lemma NeighboursAreItems(items: seq<string>, deps: Graph, rev: Graph, x: string)
    requires DepsOk(items, deps) && ReverseOf(items, deps, rev)
    ensures Succ(deps, x) <= Elems(items) && Succ(rev, x) <= Elems(items)
  {
    forall b | b in Succ(rev, x) ensures b in Elems(items) {
      assert x in Succ(deps, b);
    }
  }

  /** In a symmetric graph a walk can be walked back. */
  lemma ReachSym(g: Graph, a: string, b: string)
    requires Symmetric(g) && Reaches(g, a, b)
    ensures Reaches(g, b, a)
  {
    var p :| IsPath(g, p) && p[0] == a && p[|p| - 1] == b;
    var n := |p|;
    var q := seq(n, i requires 0 <= i < n => p[n - 1 - i]);
    forall i | 0 <= i < n - 1 ensures q[i + 1] in Succ(g, q[i]) {
      assert p[n - 1 - i] in Succ(g, p[n - 2 - i]);
    }
    assert IsPath(g, q) && q[0] == b && q[n - 1] == a;
  }

  /** The undirected component of `x`. */
  ghost function ComponentOf(items: seq<string>, ug: Graph, x: string): set<string> {
    set y | y in Elems(items) && Reaches(ug, x, y)
  }

  /** The BFS invariant of `explore_component`: the nodes met are connected
      to `start`, and the component's nodes have their neighbours visited
      or queued. */
  ghost predicate Exploring(ug: Graph, start: string, visited: set<string>, component: set<string>, queue: seq<string>) {
    (forall x :: x in Elems(queue) ==> Reaches(ug, start, x)) &&
    (forall x :: x in component ==> Reaches(ug, start, x)) &&
    (start in component || start in Elems(queue)) &&
    (forall x :: x in component ==> Succ(ug, x) <= visited + Elems(queue))
  }

  lemma ExploringVisit(ug: Graph, start: string, visited: set<string>, component: set<string>,
                       queue: seq<string>, current: string, queue': seq<string>)
    requires Exploring(ug, start, visited, component, [current] + queue)
    requires Elems(queue') == Elems(queue) + (Succ(ug, current) - (visited + {current}))
    ensures Exploring(ug, start, visited + {current}, component + {current}, queue')
  {
    ElemsConcat([current], queue);
    assert Reaches(ug, start, current);
    forall y | y in Elems(queue') ensures Reaches(ug, start, y) {
      if y !in Elems(queue) {
        ReachStep(ug, start, current, y);
      }
    }
  }

  /** What the start of `explore_component` needs: the graph's shape, and
      the items visited so far closed under neighbours. */
  ghost predicate ExploreStart(items: seq<string>, deps: Graph, rev: Graph, start: string, visited: set<string>) {
    DepsOk(items, deps) && ReverseOf(items, deps, rev) &&
    start in Elems(items) && start !in visited && visited <= Elems(items) &&
    Closed(Undirected(items, deps, rev), visited)
  }

  /** A component found from `start`, outside a closed set, is the whole
      undirected component of `start`. */
  lemma ExploreDone(items: seq<string>, deps: Graph, rev: Graph, start: string,
                    visited0: set<string>, component: set<string>)
    requires ExploreStart(items, deps, rev, start, visited0)
    requires component <= Elems(items) && visited0 !! component
    requires Exploring(Undirected(items, deps, rev), start, visited0 + component, component, [])
    ensures component == ComponentOf(items, Undirected(items, deps, rev), start)
    ensures Closed(Undirected(items, deps, rev), visited0 + component)
  {
    var ug := Undirected(items, deps, rev);
    var visited := visited0 + component;
    assert Closed(ug, visited);
    UndirectedSymmetric(items, deps, rev);
    forall y | y in ComponentOf(items, ug, start) ensures y in component {
      ClosedReach(ug, visited, start, y);
      if y in visited0 {
        ReachSym(ug, start, y);
        ClosedReach(ug, visited0, y, start);
      }
    }
  }

  /** `explore_component(start_item)`: the component of `start` and the
      visited set grown by it. */
  method ExploreComponent(items: seq<string>, deps: Graph, rev: Graph, start: string, visited0: set<string>)
    returns (component: set<string>, visited: set<string>)
    requires ExploreStart(items, deps, rev, start, visited0)
    ensures component == ComponentOf(items, Undirected(items, deps, rev), start)
    ensures visited == visited0 + component && visited0 !! component
    ensures Closed(Undirected(items, deps, rev), visited)
  {
    ghost var ug := Undirected(items, deps, rev);
    component, visited := {}, visited0;
    var queue := [start];
    ReachRefl(ug, start);
    while |queue| > 0
      invariant Elems(queue) <= Elems(items) && visited <= Elems(items)
      invariant visited == visited0 + component && visited0 !! component
      invariant Exploring(ug, start, visited, component, queue)
      decreases Elems(items) - visited, |queue|
    {
      var current := queue[0];
      QueueTail(queue);
      assert queue == [current] + queue[1..];
      queue := queue[1..];
      if current in visited {
        continue;
      }
      ghost var queue0 := queue;
      NeighboursAreItems(items, deps, rev, current);
      visited := visited + {current};
      component := component + {current};
      queue := EnqueueUnvisited(deps, current, visited, queue);
      queue := EnqueueUnvisited(rev, current, visited, queue);
      assert Succ(ug, current) == Succ(deps, current) + Succ(rev, current);
      ExploringVisit(ug, start, visited - {current}, component - {current}, queue0, current, queue);
      assert component - {current} + {current} == component;
      assert visited - {current} + {current} == visited;
    }
    ExploreDone(items, deps, rev, start, visited0, component);
  }

  /** The union of a list of sets. */
  function Union(ss: seq<set<string>>): set<string> {
    if |ss| == 0 then {} else Union(ss[..|ss| - 1]) + ss[|ss| - 1]
  }

  lemma {:induction false} UnionSnoc(ss: seq<set<string>>, c: set<string>)
    ensures Union(ss + [c]) == Union(ss) + c
  {
    assert (ss + [c])[..|ss|] == ss;
  }

  lemma {:induction false} UnionMember(ss: seq<set<string>>, i: int)
    requires 0 <= i < |ss|
    ensures ss[i] <= Union(ss)
    decreases |ss|
  {
    if i < |ss| - 1 {
      UnionMember(ss[..|ss| - 1], i);
    }
  }

  /** The loop invariant of `get_components`, in three parts. The visited
      set is the union of the components found so far, holds the items
      scanned so far and is closed under both edge directions. */
  ghost predicate Covered(items: seq<string>, ug: Graph, k: int, visited: set<string>, components: seq<set<string>>) {
    visited == Union(components) && visited <= Elems(items) &&
    (forall i :: 0 <= i < k && i < |items| ==> items[i] in visited) &&
    Closed(ug, visited)
  }

  /** The components are pairwise disjoint. */
  ghost predicate Disjoint(components: seq<set<string>>) {
    forall i, j :: 0 <= i < j < |components| ==> components[i] !! components[j]
  }

  /** Each component is the component of its first declared member, and
      those members come in declaration order. */
  ghost predicate Rooted(items: seq<string>, ug: Graph, k: int, components: seq<set<string>>, starts: seq<string>) {
    |starts| == |components| &&
    (forall i :: 0 <= i < |components| ==> starts[i] in components[i] && components[i] == ComponentOf(items, ug, starts[i])) &&
    (forall i :: 0 <= i < |starts| ==> IndexOf(items, starts[i]) < k) &&
    (forall i, j :: 0 <= i < j < |starts| ==> IndexOf(items, starts[i]) < IndexOf(items, starts[j])) &&
    (forall i, x :: 0 <= i < |components| && x in components[i] ==> IndexOf(items, starts[i]) <= IndexOf(items, x))
  }

  lemma CoveredNext(items: seq<string>, ug: Graph, k: int, visited: set<string>,
                    components: seq<set<string>>, component: set<string>)
    requires 0 <= k < |items| && Covered(items, ug, k, visited, components)
    requires items[k] in component && component <= Elems(items) && Closed(ug, visited + component)
    ensures Covered(items, ug, k + 1, visited + component, components + [component])
  {
    UnionSnoc(components, component);
  }

  lemma DisjointNext(visited: set<string>, components: seq<set<string>>, component: set<string>)
    requires Disjoint(components) && visited == Union(components) && visited !! component
    ensures Disjoint(components + [component])
  {
    var cs := components + [component];
    forall i, j | 0 <= i < j < |cs| ensures cs[i] !! cs[j] {
      if j == |components| {
        UnionMember(components, i);
      } else {
        assert cs[i] == components[i] && cs[j] == components[j];
      }
    }
  }

  lemma RootedNext(items: seq<string>, ug: Graph, k: int, visited: set<string>,
                   components: seq<set<string>>, starts: seq<string>, component: set<string>)
    requires NoDuplicates(items) && 0 <= k < |items|
    requires Rooted(items, ug, k, components, starts)
    requires forall i :: 0 <= i < k ==> items[i] in visited
    requires component == ComponentOf(items, ug, items[k]) && items[k] in component && visited !! component
    ensures Rooted(items, ug, k + 1, components + [component], starts + [items[k]])
  {
    IndexOfDistinct(items, k);
    var cs, ss := components + [component], starts + [items[k]];
    forall i, x | 0 <= i < |cs| && x in cs[i] ensures IndexOf(items, ss[i]) <= IndexOf(items, x) {
      if i == |components| {
        assert x in Elems(items);
        assert items[IndexOf(items, x)] == x && x !in visited;
      } else {
        assert cs[i] == components[i] && ss[i] == starts[i];
      }
    }
  }

  /** `get_components()`: the components in the order their first
      declared members appear, with those members as a ghost list. */
  method Components(items: seq<string>, deps: Graph, rev: Graph)
    returns (components: seq<set<string>>, ghost starts: seq<string>)
    requires NoDuplicates(items) && DepsOk(items, deps) && ReverseOf(items, deps, rev)
    ensures Union(components) == Elems(items)
    ensures Disjoint(components)
    ensures Rooted(items, Undirected(items, deps, rev), |items|, components, starts)
  {
    ghost var ug := Undirected(items, deps, rev);
    var visited: set<string> := {};
    components, starts := [], [];
    for k := 0 to |items|
      invariant Covered(items, ug, k, visited, components)
      invariant Disjoint(components)
      invariant Rooted(items, ug, k, components, starts)
    {
      if items[k] !in visited {
        assert items[k] in Elems(items);
        var component, visited' := ExploreComponent(items, deps, rev, items[k], visited);
        ReachRefl(ug, items[k]);
        CoveredNext(items, ug, k, visited, components, component);
        DisjointNext(visited, components, component);
        RootedNext(items, ug, k, visited, components, starts, component);
        components, starts := components + [component], starts + [items[k]];
        visited := visited';
      }
    }
    forall x | x in Elems(items) ensures x in visited {
      var i :| 0 <= i < |items| && items[i] == x;
    }
  }
}

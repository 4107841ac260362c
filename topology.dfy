/** `QMLTopology`: the dependency graph of a questionnaire's items, the
    solver's cycle check, the depth-first cycle search, Kahn's order, and
    the queries on the graph. */
module Topology {
  import opened Wrappers
  import opened Smt
  import opened Graphs
  import opened TopologyOrder
  import opened TopologySearch
  import opened TopologyLayers

  // ---------------------------------------------------------------------
  // The items and the two graphs.

  /** The ids of the items that have a non-empty id, in item order; a
      missing id is written as the empty string. */
  function ItemIds(ids: seq<string>): (r: seq<string>)
    ensures |r| <= |ids|
    ensures Elems(r) == Elems(ids) - {""}
    decreases |ids|
  {
    if |ids| == 0 then []
    else
      var rest := ItemIds(ids[1..]);
      assert Elems(ids) == {ids[0]} + Elems(ids[1..]) by {
        assert ids == [ids[0]] + ids[1..];
        ElemsConcat([ids[0]], ids[1..]);
      }
      if ids[0] == "" then rest
      else
        ElemsConcat([ids[0]], rest);
        [ids[0]] + rest
  }

  /** An empty entry for every item. */
  function EmptyGraph(items: seq<string>): Graph {
    map x | x in Elems(items) :: {}
  }

  /** `dependencies` after `_build_dependency_graph`: empty entries for the
      items, overwritten by the builder's entries. */
  function ItemGraph(items: seq<string>, itemDeps: Graph): Graph {
    EmptyGraph(items) + itemDeps
  }

  /** `reverse_dependencies` once the entries of `seen` have been copied:
      for every item `a`, the ids of `seen` listing `a`. */
  function ReversePart(items: seq<string>, itemDeps: Graph, seen: set<string>): Graph {
    map a | a in Elems(items) :: set b | b in seen && b in itemDeps && a in itemDeps[b]
  }

  /** `reverse[dep_id].add(item_id)` for the `dep_id`s of `targets` that
      are keys. */
  function AddDependent(rev: Graph, targets: set<string>, id: string): Graph {
    map a | a in rev :: if a in targets then rev[a] + {id} else rev[a]
  }

  /** The step of the copying loop: adding `id` under each of its
      dependencies extends the reverse graph by `id`'s entry. */
  lemma ReversePartStep(items: seq<string>, itemDeps: Graph, seen: set<string>, id: string)
    requires id in itemDeps
    ensures AddDependent(ReversePart(items, itemDeps, seen), itemDeps[id], id) == ReversePart(items, itemDeps, seen + {id})
  {
    var l := AddDependent(ReversePart(items, itemDeps, seen), itemDeps[id], id);
    var r := ReversePart(items, itemDeps, seen + {id});
    assert l.Keys == r.Keys;
    forall a | a in l ensures l[a] == r[a] {
    }
  }

  /** The reverse graph built is the reverse of the forward graph built,
      whatever the builder's entries. */
  lemma BuiltGraphsReverse(items: seq<string>, itemDeps: Graph)
    ensures ReverseOf(items, ItemGraph(items, itemDeps), ReversePart(items, itemDeps, itemDeps.Keys))
  {
    var g, rev := ItemGraph(items, itemDeps), ReversePart(items, itemDeps, itemDeps.Keys);
    forall a, b ensures b in Succ(rev, a) <==> a in Elems(items) && a in Succ(g, b) {
      if b in itemDeps {
        assert Succ(g, b) == itemDeps[b];
      } else if b in Elems(items) {
        assert Succ(g, b) == {};
      }
    }
  }

  /** When the builder gives an entry for exactly the items, all inside the
      items, the forward graph is the builder's. */
  lemma BuiltGraphIsBuilders(items: seq<string>, itemDeps: Graph)
    requires DepsOk(items, itemDeps)
    ensures ItemGraph(items, itemDeps) == itemDeps
  {
  }

  /** The inner `for dep_id in deps` loop. */
  method AddDependents(rev0: Graph, targets: set<string>, id: string) returns (rev: Graph)
    ensures rev == AddDependent(rev0, targets, id)
  {
    rev := rev0;
    var todo, done := targets, {};
    while todo != {}
      invariant done + todo == targets
      invariant rev == AddDependent(rev0, done, id)
      decreases todo
    {
      var d :| d in todo;
      if d in rev {
        rev := rev[d := rev[d] + {id}];
      }
      assert rev == AddDependent(rev0, done + {d}, id);
      todo, done := todo - {d}, done + {d};
    }
  }

  /** The first loop of `_build_dependency_graph`: an empty entry per
      item in both graphs. */
  method EmptyGraphs(items: seq<string>) returns (deps: Graph, rev: Graph)
    ensures deps == EmptyGraph(items) && rev == EmptyGraph(items)
  {
    deps, rev := map[], map[];
    for k := 0 to |items|
      invariant deps == EmptyGraph(items[..k]) && rev == EmptyGraph(items[..k])
    {
      assert Elems(items[..k + 1]) == Elems(items[..k]) + {items[k]} by {
        assert items[..k + 1] == items[..k] + [items[k]];
        ElemsConcat(items[..k], [items[k]]);
      }
      deps, rev := deps[items[k] := {}], rev[items[k] := {}];
    }
    assert items[..|items|] == items;
  }

  lemma ReversePartEmpty(items: seq<string>, itemDeps: Graph)
    ensures ReversePart(items, itemDeps, {}) == EmptyGraph(items)
  {
    var l, r := ReversePart(items, itemDeps, {}), EmptyGraph(items);
    assert l.Keys == r.Keys;
    forall a | a in l ensures l[a] == {} {
      assert forall b :: b !in l[a];
    }
  }

  /** The two loops of `_build_dependency_graph` on plain values. */
  method BuildGraphs(items: seq<string>, itemDeps: Graph) returns (deps: Graph, rev: Graph)
    ensures deps == ItemGraph(items, itemDeps)
    ensures rev == ReversePart(items, itemDeps, itemDeps.Keys)
  {
    deps, rev := EmptyGraphs(items);
    ReversePartEmpty(items, itemDeps);
    var todo, seen := itemDeps.Keys, {};
    while todo != {}
      invariant seen + todo == itemDeps.Keys && seen !! todo
      invariant deps == EmptyGraph(items) + (map b | b in seen :: itemDeps[b])
      invariant rev == ReversePart(items, itemDeps, seen)
      decreases todo
    {
      var id :| id in todo;
      deps := deps[id := itemDeps[id]];
      rev := AddDependents(rev, itemDeps[id], id);
      ReversePartStep(items, itemDeps, seen, id);
      todo, seen := todo - {id}, seen + {id};
    }
    assert (map b | b in seen :: itemDeps[b]) == itemDeps;
  }

  // ---------------------------------------------------------------------
  // The constraints `_detect_cycles_z3` adds.

  /** The uniqueness constraints of the pairs `(items[a], items[b])` with
      `a < b < j`. */
  function ApartRow(items: seq<string>, a: int, j: int): set<BoolTerm>
    requires 0 <= a < |items|
  {
    set b | a < b < j && b < |items| :: Apart(items[a], items[b])
  }

  /** The dependency constraints of the entries of `seen`. */
  function DepSet(items: seq<string>, g: Graph, seen: set<string>): set<BoolTerm> {
    set x, y | x in seen && x in g && y in g[x] && y in items :: After(x, y)
  }

  /** The dependency constraints of `x` for the dependencies of `done`. */
  function DepRow(items: seq<string>, x: string, done: set<string>): set<BoolTerm> {
    set y | y in done && y in items :: After(x, y)
  }

  lemma BoundSetStep(items: seq<string>, k: int, n: int)
    requires 0 <= k < |items|
    ensures BoundSet(items, k + 1, n) == BoundSet(items, k, n) + {LowerBound(items[k]), UpperBound(items[k], n)}
  {
  }

  lemma ApartRowStep(items: seq<string>, a: int, j: int)
    requires 0 <= a < j < |items|
    ensures ApartRow(items, a, j + 1) == ApartRow(items, a, j) + {Apart(items[a], items[j])}
  {
  }

  lemma ApartSetStep(items: seq<string>, a: int)
    requires 0 <= a < |items|
    ensures ApartSet(items, a + 1) == ApartSet(items, a) + ApartRow(items, a, |items|)
  {
  }

  lemma DepRowStep(items: seq<string>, x: string, done: set<string>, y: string)
    ensures DepRow(items, x, done + {y}) == DepRow(items, x, done) + (if y in items then {After(x, y)} else {})
  {
  }

  lemma DepSetStep(items: seq<string>, g: Graph, seen: set<string>, x: string)
    requires x in g
    ensures DepSet(items, g, seen + {x}) == DepSet(items, g, seen) + DepRow(items, x, g[x])
  {
  }

  /** Over the dictionary's entries or over the items: the same
      constraints, when the entries are the items'. */
  lemma DepSetIsAfterSet(items: seq<string>, g: Graph)
    requires g.Keys == Elems(items)
    ensures DepSet(items, g, g.Keys) == AfterSet(items, g, |items|)
  {
    forall f | f in AfterSet(items, g, |items|) ensures f in DepSet(items, g, g.Keys) {
      var a, y :| 0 <= a < |items| && y in Succ(g, items[a]) && y in items && f == After(items[a], y);
      assert items[a] in Elems(items);
    }
    forall f | f in DepSet(items, g, g.Keys) ensures f in AfterSet(items, g, |items|) {
      var x, y :| x in g && y in g[x] && y in items && f == After(x, y);
      var a :| 0 <= a < |items| && items[a] == x;
    }
  }

  /** The first loop: both bounds of every order variable. */
  method BoundConstraints(items: seq<string>) returns (cs: seq<BoolTerm>)
    ensures Elems(cs) == BoundSet(items, |items|, |items|)
  {
    cs := [];
    for k := 0 to |items|
      invariant Elems(cs) == BoundSet(items, k, |items|)
    {
      BoundSetStep(items, k, |items|);
      ElemsConcat(cs, [LowerBound(items[k]), UpperBound(items[k], |items|)]);
      cs := cs + [LowerBound(items[k]), UpperBound(items[k], |items|)];
    }
  }

  /** The inner loop over `self.items[i+1:]`. */
  method ApartRowConstraints(items: seq<string>, a: int) returns (cs: seq<BoolTerm>)
    requires 0 <= a < |items|
    ensures Elems(cs) == ApartRow(items, a, |items|)
  {
    cs := [];
    for j := a + 1 to |items|
      invariant Elems(cs) == ApartRow(items, a, j)
    {
      ApartRowStep(items, a, j);
      ElemsConcat(cs, [Apart(items[a], items[j])]);
      cs := cs + [Apart(items[a], items[j])];
    }
  }

  /** The uniqueness loop. */
  method ApartConstraints(items: seq<string>) returns (cs: seq<BoolTerm>)
    ensures Elems(cs) == ApartSet(items, |items|)
  {
    cs := [];
    for a := 0 to |items|
      invariant Elems(cs) == ApartSet(items, a)
    {
      var row := ApartRowConstraints(items, a);
      ApartSetStep(items, a);
      ElemsConcat(cs, row);
      cs := cs + row;
    }
  }

  /** The inner loop over one entry's dependencies. */
  method DepRowConstraints(items: seq<string>, x: string, ds: set<string>) returns (cs: seq<BoolTerm>)
    ensures Elems(cs) == DepRow(items, x, ds)
  {
    cs := [];
    var todo, done := ds, {};
    while todo != {}
      invariant done + todo == ds
      invariant Elems(cs) == DepRow(items, x, done)
      decreases todo
    {
      var y :| y in todo;
      DepRowStep(items, x, done, y);
      if y in items {
        ElemsConcat(cs, [After(x, y)]);
        cs := cs + [After(x, y)];
      }
      todo, done := todo - {y}, done + {y};
    }
  }

  /** The dependency loop over `self.dependencies.items()`. */
  method DepConstraints(items: seq<string>, g: Graph) returns (cs: seq<BoolTerm>)
    ensures Elems(cs) == DepSet(items, g, g.Keys)
  {
    cs := [];
    var todo, seen := g.Keys, {};
    while todo != {}
      invariant seen + todo == g.Keys
      invariant Elems(cs) == DepSet(items, g, seen)
      decreases todo
    {
      var x :| x in todo;
      var row := DepRowConstraints(items, x, g[x]);
      DepSetStep(items, g, seen, x);
      ElemsConcat(cs, row);
      cs := cs + row;
      todo, seen := todo - {x}, seen + {x};
    }
  }

  /** Everything `_detect_cycles_z3` adds to its solver, in order. */
  method OrderConstraints(items: seq<string>, g: Graph) returns (cs: seq<BoolTerm>)
    requires g.Keys == Elems(items)
    ensures Elems(cs) == OrderSet(items, g)
  {
    var bounds := BoundConstraints(items);
    var apart := ApartConstraints(items);
    var after := DepConstraints(items, g);
    DepSetIsAfterSet(items, g);
    ElemsConcat(bounds, apart);
    ElemsConcat(bounds + apart, after);
    cs := bounds + apart + after;
  }

  // ---------------------------------------------------------------------
  // The outcome of Kahn's algorithm.

  lemma SubsetCardEq(a: set<string>, b: set<string>)
    requires a <= b && |a| == |b|
    ensures a == b
  {
    assert b == a + (b - a);
    assert |b - a| == 0;
  }

  /** A schedule of every item is the Kahn order. */
  lemma ScheduleComplete(items: seq<string>, deps: Graph, result: seq<string>)
    requires NoDuplicates(items) && Scheduled(items, deps, result) && |result| == |items|
    ensures IsKahnOrder(items, deps, result)
  {
    DistinctCard(items);
    DistinctCard(result);
    SubsetCardEq(Elems(result), Elems(items));
  }

  /** Distinct items scheduled, fewer than there are: some are left. */
  lemma ItemsLeft(items: seq<string>, result: seq<string>)
    requires NoDuplicates(items) && NoDuplicates(result) && Elems(result) <= Elems(items)
    requires |result| != |items|
    ensures Elems(items) - Elems(result) != {}
  {
    DistinctCard(items);
    DistinctCard(result);
    SubsetCard(Elems(result), Elems(items));
    var d := Elems(items) - Elems(result);
    assert Elems(items) == Elems(result) + d;
    assert Elems(result) !! d;
    assert |d| > 0;
  }

  /** When nothing is ready, each item left waits on another item left. */
  lemma LeftWaiting(items: seq<string>, deps: Graph, done: set<string>, x: string)
    requires DepsOk(items, deps) && ReadySet(items, deps, done) == {}
    requires x in Elems(items) - done
    ensures HasSuccIn(deps, x, Elems(items) - done)
  {
    var i :| 0 <= i < |items| && items[i] == x;
    assert i !in ReadySet(items, deps, done);
    var y :| y in Succ(deps, x) && y !in done;
    assert y in Elems(items);
  }

  /** A schedule of fewer items, with nothing left ready, leaves a set of
      items each waiting on another, so no numbering exists. */
  lemma ScheduleIncomplete(items: seq<string>, deps: Graph, result: seq<string>)
    requires NoDuplicates(items) && DepsOk(items, deps) && Scheduled(items, deps, result)
    requires ReadySet(items, deps, Elems(result)) == {} && |result| != |items|
    ensures !Orderable(items, deps)
  {
    var r := Elems(items) - Elems(result);
    ItemsLeft(items, result);
    forall x | x in r ensures HasSuccIn(deps, x, r) {
      LeftWaiting(items, deps, Elems(result), x);
    }
    StuckNotOrderable(items, deps, r);
  }

  /** The last check of `_compute_topological_order`: every item is
      scheduled exactly when the items admit a numbering, and the schedule
      is then the Kahn order. */
  lemma ScheduleOutcome(items: seq<string>, deps: Graph, result: seq<string>)
    requires NoDuplicates(items) && DepsOk(items, deps) && Scheduled(items, deps, result)
    requires ReadySet(items, deps, Elems(result)) == {}
    ensures |result| == |items| ==> IsKahnOrder(items, deps, result)
    ensures |result| == |items| <==> Orderable(items, deps)
  {
    if |result| == |items| {
      ScheduleComplete(items, deps, result);
      KahnOrderOrderable(items, deps, result);
    } else {
      ScheduleIncomplete(items, deps, result);
    }
  }

  /** With no items any numbering will do. */
  lemma NoItemsOrderable(items: seq<string>, g: Graph)
    requires |items| == 0
    ensures Orderable(items, g)
  {
    var pos: string -> int := x => 0;
    assert IsOrdering(items, g, pos);
  }

  // ---------------------------------------------------------------------
  // The class.

  class QMLTopology {
    var items: seq<string>
    var dependencies: Graph
    var reverseDependencies: Graph
    var topologicalOrder: seq<string>
    var cycles: seq<seq<string>>
    var hasCycles: bool

    /** Distinct items, a forward graph with an entry for each item and
        only items as dependencies, and its reverse. */
    ghost predicate GraphOk()
      reads this
    {
      NoDuplicates(items) && DepsOk(items, dependencies) && ReverseOf(items, dependencies, reverseDependencies)
    }

    /** At most one recorded cycle; each a closed walk through items. */
    ghost predicate CyclesOk()
      reads this
    {
      |cycles| <= 1 &&
      forall c :: c in cycles ==> IsCycle(dependencies, c) && Elems(c) <= Elems(items)
    }

    /** What the constructor leaves: an acyclic verdict carries the Kahn
        order, and a recorded cycle forces the cyclic verdict. */
    ghost predicate Valid()
      reads this
    {
      GraphOk() && CyclesOk() &&
      (!hasCycles ==> IsKahnOrder(items, dependencies, topologicalOrder)) &&
      (cycles != [] ==> hasCycles)
    }

    /** `has_cycles` is the truth: no numbering of the items exists. */
    ghost predicate Decided()
      reads this
    {
      hasCycles <==> !Orderable(items, dependencies)
    }

    /** `_build_dependency_graph()`. */
    method BuildDependencyGraph(itemDeps: Graph)
      modifies this
      ensures items == old(items) && topologicalOrder == old(topologicalOrder)
      ensures cycles == old(cycles) && hasCycles == old(hasCycles)
      ensures dependencies == ItemGraph(items, itemDeps)
      ensures reverseDependencies == ReversePart(items, itemDeps, itemDeps.Keys)
      ensures ReverseOf(items, dependencies, reverseDependencies)
    {
      dependencies, reverseDependencies := BuildGraphs(items, itemDeps);
      BuiltGraphsReverse(items, itemDeps);
    }

    /** `_find_cycles_dfs()`: the search appends the cycle it finds, if any. */
    method FindCyclesDfs()
      requires GraphOk() && CyclesOk() && cycles == []
      modifies this
      ensures items == old(items) && dependencies == old(dependencies)
      ensures reverseDependencies == old(reverseDependencies)
      ensures topologicalOrder == old(topologicalOrder) && hasCycles == old(hasCycles)
      ensures CyclesOk()
    {
      var found := FindCycles(items, dependencies);
      cycles := cycles + found;
    }

    /** `_detect_cycles_z3()`, the solver's `check()` being `check` applied
        to the conjunction of what was added; `cs` lists it. */
    method DetectCycles(check: BoolTerm -> Answer) returns (ghost cs: seq<BoolTerm>)
      requires GraphOk() && !hasCycles && cycles == []
      modifies this
      ensures items == old(items) && dependencies == old(dependencies)
      ensures reverseDependencies == old(reverseDependencies) && topologicalOrder == old(topologicalOrder)
      ensures GraphOk() && CyclesOk()
      ensures Elems(cs) == OrderSet(items, dependencies)
      ensures hasCycles <==> |items| > 0 && check(AndAll(cs)).Unsat?
      ensures |items| == 0 || check(AndAll(cs)).Sat? ==> cycles == []
      ensures SoundSolver(check) && hasCycles ==> !Orderable(items, dependencies)
      ensures SoundSolver(check) && |items| > 0 && check(AndAll(cs)).Sat? ==> Orderable(items, dependencies)
    {
      if |items| == 0 {
        cs := [];
        return;
      }
      var constraints := OrderConstraints(items, dependencies);
      cs := constraints;
      var answer := check(AndAll(constraints));
      if answer.Unsat? {
        hasCycles := true;
        FindCyclesDfs();
      } else if answer.Sat? {
        hasCycles := false;
      } else {
        FindCyclesDfs();
      }
      OrderFormulaMeaning(items, dependencies, cs);
      if SoundSolver(check) && answer.Sat? {
        SatAnswerSatisfiable(check, AndAll(cs));
      }
    }

    /** `_compute_topological_order()`. */
    method ComputeTopologicalOrder()
      requires GraphOk()
      modifies this
      ensures items == old(items) && dependencies == old(dependencies)
      ensures reverseDependencies == old(reverseDependencies) && cycles == old(cycles)
      ensures old(hasCycles) ==> hasCycles && topologicalOrder == old(topologicalOrder)
      ensures !old(hasCycles) ==> Decided()
      ensures !old(hasCycles) && !hasCycles ==> IsKahnOrder(items, dependencies, topologicalOrder)
    {
      if hasCycles {
        return;
      }
      var result := KahnSchedule(items, dependencies, reverseDependencies);
      ScheduleOutcome(items, dependencies, result);
      if |result| == |items| {
        topologicalOrder := result;
      } else {
        hasCycles := true;
      }
    }

    /** `QMLTopology(questionnaire_state, static_builder)`: `ids` are the
        ids of `get_all_items()`, `itemDeps` is
        `static_builder.get_item_dependencies()` and `check` is the
        solver. */
    constructor (ids: seq<string>, itemDeps: Graph, check: BoolTerm -> Answer)
      requires NoDuplicates(ItemIds(ids)) && DepsOk(ItemIds(ids), itemDeps)
      ensures items == ItemIds(ids) && dependencies == itemDeps
      ensures Valid()
      ensures SoundSolver(check) ==> Decided()
      ensures !hasCycles ==> Orderable(items, dependencies)
    {
      items := ItemIds(ids);
      dependencies, reverseDependencies := map[], map[];
      topologicalOrder, cycles, hasCycles := [], [], false;
      new;
      BuildDependencyGraph(itemDeps);
      BuiltGraphIsBuilders(items, itemDeps);
      ghost var cs := DetectCycles(check);
      if !hasCycles {
        ComputeTopologicalOrder();
      }
      if !hasCycles {
        KahnOrderOrderable(items, dependencies, topologicalOrder);
      }
      if cycles != [] {
        CycleNotOrderable(items, dependencies, cycles[0]);
      }
      if |items| == 0 {
        NoItemsOrderable(items, dependencies);
      }
    }

    /** `get_topological_order()`: `None` on a cyclic verdict, otherwise
        the Kahn order, which exists exactly when the items can be
        numbered. */
    function GetTopologicalOrder(): (r: Option<seq<string>>)
      requires Valid()
      reads this
      ensures r.Some? <==> !hasCycles
      ensures r.Some? ==> IsKahnOrder(items, dependencies, r.value)
      ensures r.Some? ==> forall k :: 0 <= k < |r.value| ==> Succ(dependencies, r.value[k]) <= Elems(r.value[..k])
      ensures Decided() ==> (r.None? <==> !Orderable(items, dependencies))
    {
      if hasCycles then None
      else
        KahnOrderOrderable(items, dependencies, topologicalOrder);
        Some(topologicalOrder)
    }

    /** `get_cycles()`. */
    function GetCycles(): (r: seq<seq<string>>)
      requires Valid()
      reads this
      ensures |r| <= 1
      ensures forall c :: c in r ==> IsCycle(dependencies, c) && Elems(c) <= Elems(items)
      ensures r != [] ==> hasCycles && !Orderable(items, dependencies)
    {
      if cycles != [] then
        CycleNotOrderable(items, dependencies, cycles[0]);
        cycles
      else cycles
    }

    /** `get_components()`: the undirected components, each headed by its
        first declared member, in declaration order of those members. */
    method GetComponents() returns (components: seq<set<string>>, ghost starts: seq<string>)
      requires Valid()
      ensures Union(components) == Elems(items)
      ensures Disjoint(components)
      ensures Rooted(items, Undirected(items, dependencies, reverseDependencies), |items|, components, starts)
    {
      components, starts := Components(items, dependencies, reverseDependencies);
    }

    /** `get_dependency_layers()`. */
    method GetDependencyLayers() returns (layers: seq<set<string>>)
      requires Valid()
      ensures hasCycles ==> layers == [Elems(items)]
      ensures !hasCycles ==> layers == LayersFrom(dependencies, Elems(items), {})
      ensures !hasCycles ==> Partition(layers, Elems(items))
      ensures !hasCycles ==> DepsPlaced(dependencies, layers, {}) && PlacedEarliest(dependencies, layers, {})
      ensures !hasCycles ==> Independent(dependencies, layers)
    {
      if hasCycles {
        return [Elems(items)];
      }
      layers := Layers(items, dependencies);
      KahnOrderOrderable(items, dependencies, topologicalOrder);
      if EndsStuck(dependencies, Elems(items), {}) {
        StuckLayersNotOrderable(items, dependencies, Elems(items), {});
      }
      LayersPartition(dependencies, Elems(items), {});
      LayersDepsEarlier(dependencies, Elems(items), {});
      LayersEarliest(dependencies, Elems(items), {});
      LayerIndependent(dependencies, Elems(items), {});
    }

    /** `can_reach(from_item, to_item)`: a walk along dependency edges. */
    method CanReach(from: string, to: string) returns (r: bool)
      requires Valid()
      ensures r <==> Reaches(dependencies, from, to)
    {
      r := Reachable(items, dependencies, from, to);
    }
  }
}

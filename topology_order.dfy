/** The ordering side of `QMLTopology`: the shape of the dependency graph
    and its reverse, the solver's ordering constraints and what their
    satisfiability means, and Kahn's algorithm with a heap keyed by
    declaration index. */
module TopologyOrder {
  import opened Wrappers
  import opened Smt
  import opened Graphs

  /** What the builder's `item_dependencies` looks like: one entry per item,
      every dependency an item. */
  predicate DepsOk(items: seq<string>, g: Graph) {
    g.Keys == Elems(items) && forall x :: x in g ==> g[x] <= Elems(items)
  }

  /** `reverse_dependencies`: `b` is listed under `a` exactly when `a` is an
      item and `b` depends on `a`. */
  ghost predicate ReverseOf(items: seq<string>, g: Graph, rev: Graph) {
    rev.Keys == Elems(items) &&
    forall a, b :: b in Succ(rev, a) <==> a in Elems(items) && a in Succ(g, b)
  }

  /** `list.index(x)`: the first position of `x`, or `|s|` when absent. */
  function IndexOf(s: seq<string>, x: string): (i: int)
    ensures 0 <= i <= |s|
    ensures i < |s| <==> x in s
    ensures i < |s| ==> s[i] == x
    ensures forall j :: 0 <= j < |s| && s[j] == x ==> i <= j
  {
    if |s| == 0 then 0
    else if s[0] == x then 0
    else
      var r := IndexOf(s[1..], x);
      assert forall j :: 1 <= j < |s| ==> s[j] == s[1..][j - 1];
      1 + r
  }

  lemma IndexOfDistinct(s: seq<string>, i: int)
    requires NoDuplicates(s) && 0 <= i < |s|
    ensures IndexOf(s, s[i]) == i
  {
  }

  // ---------------------------------------------------------------------
  // The solver's ordering constraints.

  /** The z3 variable `order_<id>`. */
  function PosVar(x: string): IntTerm {
    IVar("order_" + x)
  }

  function LowerBound(x: string): BoolTerm {
    Compare(Ge, PosVar(x), IConst(0))
  }

  function UpperBound(x: string, n: int): BoolTerm {
    Compare(Lt, PosVar(x), IConst(n))
  }

  function Apart(x: string, y: string): BoolTerm {
    Compare(Ne, PosVar(x), PosVar(y))
  }

  function After(x: string, y: string): BoolTerm {
    Compare(Gt, PosVar(x), PosVar(y))
  }

  function BoundSet(items: seq<string>, k: int, n: int): set<BoolTerm> {
    (set a | 0 <= a < k && a < |items| :: LowerBound(items[a])) +
    (set a | 0 <= a < k && a < |items| :: UpperBound(items[a], n))
  }

  function ApartSet(items: seq<string>, k: int): set<BoolTerm> {
    set a, b | 0 <= a < k && a < b < |items| :: Apart(items[a], items[b])
  }

  function AfterSet(items: seq<string>, g: Graph, k: int): set<BoolTerm> {
    set a, y | 0 <= a < k && a < |items| && y in Succ(g, items[a]) && y in items :: After(items[a], y)
  }

  /** Everything `_detect_cycles_z3` adds to its solver. */
  function OrderSet(items: seq<string>, g: Graph): set<BoolTerm> {
    BoundSet(items, |items|, |items|) + ApartSet(items, |items|) + AfterSet(items, g, |items|)
  }

  /** The numbering a model gives to the order variables. */
  function PosOf(m: Model): string -> int {
    x => m.ints("order_" + x)
  }

  /** A model giving `order_<id>` the value `pos(id)`. */
  function ModelOf(pos: string -> int): Model {
    Model(s => if |s| >= 6 && s[..6] == "order_" then pos(s[6..]) else 0,
          s => false, x => 0, x => 0)
  }

  lemma ModelOfPos(pos: string -> int, x: string)
    ensures PosOf(ModelOf(pos))(x) == pos(x)
  {
    var s := "order_" + x;
    assert s[..6] == "order_" && s[6..] == x;
  }

  /** What each kind of constraint says about the numbering. */
  lemma ConstraintMeaning(x: string, y: string, n: int, m: Model)
    ensures Holds(LowerBound(x), m) <==> PosOf(m)(x) >= 0
    ensures Holds(UpperBound(x, n), m) <==> PosOf(m)(x) < n
    ensures Holds(Apart(x, y), m) <==> PosOf(m)(x) != PosOf(m)(y)
    ensures Holds(After(x, y), m) <==> PosOf(m)(x) > PosOf(m)(y)
  {
    assert EvalInt(PosVar(x), m) == PosOf(m)(x);
    assert EvalInt(PosVar(y), m) == PosOf(m)(y);
  }

  /** A model of the constraints numbers the items. */
  lemma OrderSetToOrdering(items: seq<string>, g: Graph, m: Model)
    requires forall f :: f in OrderSet(items, g) ==> Holds(f, m)
    ensures IsOrdering(items, g, PosOf(m))
  {
    var n := |items|;
    var pos := PosOf(m);
    forall x | x in items ensures 0 <= pos(x) < n {
      var a :| 0 <= a < n && items[a] == x;
      assert LowerBound(items[a]) in BoundSet(items, n, n);
      assert UpperBound(items[a], n) in BoundSet(items, n, n);
      ConstraintMeaning(x, x, n, m);
    }
    forall a, b | 0 <= a < b < n ensures pos(items[a]) != pos(items[b]) {
      assert Apart(items[a], items[b]) in ApartSet(items, n);
      ConstraintMeaning(items[a], items[b], n, m);
    }
    forall x, y | x in items && y in Succ(g, x) && y in items ensures pos(x) > pos(y) {
      var a :| 0 <= a < n && items[a] == x;
      assert After(items[a], y) in AfterSet(items, g, n);
      ConstraintMeaning(x, y, n, m);
    }
  }

  /** A numbering satisfies every constraint. */
  lemma OrderingToOrderSet(items: seq<string>, g: Graph, m: Model)
    requires IsOrdering(items, g, PosOf(m))
    ensures forall f :: f in OrderSet(items, g) ==> Holds(f, m)
  {
    var n := |items|;
    forall f | f in OrderSet(items, g) ensures Holds(f, m) {
      if f in BoundSet(items, n, n) {
        var a :| 0 <= a < n && (f == LowerBound(items[a]) || f == UpperBound(items[a], n));
        assert items[a] in items;
        ConstraintMeaning(items[a], items[a], n, m);
      } else if f in ApartSet(items, n) {
        var a, b :| 0 <= a < n && a < b < n && f == Apart(items[a], items[b]);
        ConstraintMeaning(items[a], items[b], n, m);
      } else {
        var a, y :| 0 <= a < n && y in Succ(g, items[a]) && y in items && f == After(items[a], y);
        assert items[a] in items;
        ConstraintMeaning(items[a], y, n, m);
      }
    }
  }

  /** The solver's formula is satisfiable exactly when the items can be
      ordered. */
  lemma OrderFormulaMeaning(items: seq<string>, g: Graph, cs: seq<BoolTerm>)
    requires Elems(cs) == OrderSet(items, g)
    ensures Satisfiable(AndAll(cs)) <==> Orderable(items, g)
  {
    if Satisfiable(AndAll(cs)) {
      var m :| Holds(AndAll(cs), m);
      forall f | f in OrderSet(items, g) ensures Holds(f, m) {
        var i :| 0 <= i < |cs| && cs[i] == f;
      }
      OrderSetToOrdering(items, g, m);
    }
    if Orderable(items, g) {
      var pos :| IsOrdering(items, g, pos);
      var m := ModelOf(pos);
      forall x ensures PosOf(m)(x) == pos(x) {
        ModelOfPos(pos, x);
      }
      assert IsOrdering(items, g, PosOf(m));
      OrderingToOrderSet(items, g, m);
      forall i | 0 <= i < |cs| ensures Holds(cs[i], m) {
        assert cs[i] in Elems(cs);
      }
      assert Holds(AndAll(cs), m);
    }
  }

  // ---------------------------------------------------------------------
  // ---------------------------------------------------------------------
  // Kahn's algorithm.

  /** Indices of the items not yet scheduled whose dependencies all are:
      the heap's contents with in-degree zero. */
  function ReadySet(items: seq<string>, g: Graph, done: set<string>): set<int> {
    set i | 0 <= i < |items| && items[i] !in done && Succ(g, items[i]) <= done
  }

  /** `x`, scheduled after `prefix`, is ready then and has the smallest
      declaration index among the ready items. */
  ghost predicate GreedyStep(items: seq<string>, g: Graph, prefix: seq<string>, x: string) {
    x in items && x !in prefix && Succ(g, x) <= Elems(prefix) &&
    forall i :: i in ReadySet(items, g, Elems(prefix)) ==> IndexOf(items, x) <= i
  }

  /** What `_compute_topological_order` produces when it schedules every
      item: a permutation of `items`, each step the ready item declared
      first. */
  ghost predicate IsKahnOrder(items: seq<string>, g: Graph, order: seq<string>) {
    |order| == |items| && NoDuplicates(order) && Elems(order) == Elems(items) &&
    forall k :: 0 <= k < |order| ==> GreedyStep(items, g, order[..k], order[k])
  }

  lemma {:induction false} DistinctCard(s: seq<string>)
    requires NoDuplicates(s)
    ensures |Elems(s)| == |s|
  {
    if |s| > 0 {
      var n := |s| - 1;
      assert NoDuplicates(s[..n]);
      DistinctCard(s[..n]);
      assert Elems(s) == Elems(s[..n]) + {s[n]} by {
        assert s == s[..n] + [s[n]];
      }
      assert s[n] !in Elems(s[..n]);
    }
  }

  /** A Kahn order puts each item after all its dependencies, so it is a
      valid numbering. */
  lemma KahnOrderOrderable(items: seq<string>, g: Graph, order: seq<string>)
    requires NoDuplicates(items) && IsKahnOrder(items, g, order)
    ensures forall k :: 0 <= k < |order| ==> Succ(g, order[k]) <= Elems(order[..k])
    ensures Orderable(items, g)
  {
    var pos := x => IndexOf(order, x);
    forall x | x in items ensures 0 <= pos(x) < |items| {
      assert x in Elems(order);
    }
    forall a, b | 0 <= a < b < |items| ensures pos(items[a]) != pos(items[b]) {
      assert items[a] in Elems(order) && items[b] in Elems(order);
    }
    forall x, y | x in items && y in Succ(g, x) && y in items ensures pos(x) > pos(y) {
      assert x in Elems(order);
      var k := IndexOf(order, x);
      assert GreedyStep(items, g, order[..k], order[k]);
      assert y in Elems(order[..k]);
      var j :| 0 <= j < k && order[..k][j] == y;
      assert order[j] == y;
    }
    assert IsOrdering(items, g, pos);
  }

  /** Two Kahn orders of the same graph coincide: the declaration index
      decides every tie. */
  lemma KahnOrderUnique(items: seq<string>, g: Graph, o1: seq<string>, o2: seq<string>)
    requires IsKahnOrder(items, g, o1) && IsKahnOrder(items, g, o2)
    ensures o1 == o2
  {
    var k := 0;
    while k < |o1|
      invariant 0 <= k <= |o1| && o1[..k] == o2[..k]
    {
      assert GreedyStep(items, g, o1[..k], o1[k]);
      assert GreedyStep(items, g, o2[..k], o2[k]);
      var i1, i2 := IndexOf(items, o1[k]), IndexOf(items, o2[k]);
      assert i1 in ReadySet(items, g, Elems(o1[..k]));
      assert i2 in ReadySet(items, g, Elems(o2[..k]));
      assert i1 == i2;
      assert o1[..k + 1] == o1[..k] + [o1[k]] && o2[..k + 1] == o2[..k] + [o2[k]];
      k := k + 1;
    }
    assert o1 == o1[..k] && o2 == o2[..k];
  }

  // The heap.

  /** The `heapq` list keyed by declaration index, kept as an ascending
      list of distinct indices: its first element is the one `heappop`
      returns. */
  predicate Ascending(h: seq<int>) {
    forall i, j :: 0 <= i < j < |h| ==> h[i] < h[j]
  }

  /** An ascending list is its least element followed by an ascending
      list of larger ones. */
  lemma AscendingTail(h: seq<int>)
    requires Ascending(h) && |h| > 0
    ensures Ascending(h[1..]) && Elems(h) == {h[0]} + Elems(h[1..])
    ensures forall y :: y in Elems(h[1..]) ==> h[0] < y
  {
    assert h == [h[0]] + h[1..];
    forall y | y in Elems(h[1..]) ensures h[0] < y {
      var j :| 0 <= j < |h| - 1 && h[1..][j] == y;
      assert h[j + 1] == y;
    }
  }

  /** `heapq.heappush`: the index inserted before the first larger one. */
  function HeapPush(h: seq<int>, x: int): (r: seq<int>)
    ensures Elems(r) == Elems(h) + {x} && |r| == |h| + 1
  {
    if |h| == 0 then [x]
    else if x < h[0] then
      ElemsConcat([x], h);
      [x] + h
    else
      var t := HeapPush(h[1..], x);
      ElemsConcat([h[0]], h[1..]);
      ElemsConcat([h[0]], t);
      assert h == [h[0]] + h[1..];
      [h[0]] + t
  }

  /** Pushing an index not yet in the heap keeps it a heap. */
  lemma {:induction false} HeapPushAscending(h: seq<int>, x: int)
    requires Ascending(h) && x !in h
    ensures Ascending(HeapPush(h, x))
  {
    if |h| > 0 {
      AscendingTail(h);
      var r := HeapPush(h, x);
      if x < h[0] {
        assert forall i :: 0 <= i < |h| ==> h[i] in Elems(h);
        assert forall i :: 1 <= i < |r| ==> r[i] == h[i - 1];
      } else {
        HeapPushAscending(h[1..], x);
        var t := HeapPush(h[1..], x);
        assert forall i :: 1 <= i < |r| ==> r[i] == t[i - 1] && t[i - 1] in Elems(t);
      }
    }
  }

  /** `heapq.heappop`: the first element is the least, the rest is still a
      heap holding the other indices. */
  lemma HeapPop(h: seq<int>)
    requires Ascending(h) && |h| > 0
    ensures forall x :: x in Elems(h) ==> h[0] <= x
    ensures Ascending(h[1..]) && Elems(h[1..]) == Elems(h) - {h[0]}
  {
    AscendingTail(h);
  }

  // Releasing the dependents of the item just scheduled.

  /** `item_index`: the declaration index of every item. */
  predicate IndexMap(items: seq<string>, itemIndex: map<string, int>) {
    forall x :: x in Elems(items) ==> x in itemIndex && 0 <= itemIndex[x] < |items| && items[itemIndex[x]] == x
  }

  /** The position of each item in the item list. */
  function ItemIndex(items: seq<string>): (m: map<string, int>)
    requires NoDuplicates(items)
    ensures IndexMap(items, m)
    ensures forall i :: 0 <= i < |items| ==> items[i] in m && m[items[i]] == i
  {
    map i | 0 <= i < |items| :: items[i] := i
  }

  /** The dependents `rev` lists under `current`. */
  ghost predicate DependentsOf(items: seq<string>, deps: Graph, rev: Graph, current: string) {
    forall b :: b in Succ(rev, current) <==> b in Elems(items) && current in Succ(deps, b)
  }

  /** `current`, just popped after the items `done`: a ready item none of
      whose dependents is scheduled yet. */
  ghost predicate Popped(items: seq<string>, deps: Graph, rev: Graph, current: string, done: set<string>) {
    NoDuplicates(items) && current in Elems(items) && current !in done && Succ(deps, current) <= done &&
    DependentsOf(items, deps, rev, current) && Succ(rev, current) !! done
  }

  /** The in-degree of each item: its dependencies not yet scheduled. */
  ghost predicate InDegrees(deps: Graph, inDegree: map<string, int>, keys: set<string>, done: set<string>) {
    inDegree.Keys == keys && forall x :: x in keys ==> inDegree[x] == |Succ(deps, x) - done|
  }

  /** The heap while the dependents of the item just scheduled are being
      released: ready items other than those still to be released. */
  function Waiting(items: seq<string>, g: Graph, after: set<string>, todo: set<string>): set<int> {
    set i | 0 <= i < |items| && items[i] !in after && items[i] !in todo && Succ(g, items[i]) <= after
  }

  lemma WaitingStep(items: seq<string>, g: Graph, after: set<string>, todo: set<string>, j: int)
    requires NoDuplicates(items) && 0 <= j < |items| && items[j] in todo
    ensures items[j] !in after && Succ(g, items[j]) <= after ==>
      Waiting(items, g, after, todo - {items[j]}) == Waiting(items, g, after, todo) + {j}
    ensures !(items[j] !in after && Succ(g, items[j]) <= after) ==>
      Waiting(items, g, after, todo - {items[j]}) == Waiting(items, g, after, todo)
  {
  }

  /** Before any dependent is released, the heap is the old ready set less
      the item just popped. */
  lemma WaitingStart(items: seq<string>, g: Graph, rev: Graph, current: string, done: set<string>)
    requires Popped(items, g, rev, current, done)
    ensures ReadySet(items, g, done) - {IndexOf(items, current)} == Waiting(items, g, done + {current}, Succ(rev, current))
  {
    var after := done + {current};
    forall i | i in ReadySet(items, g, done) - {IndexOf(items, current)}
      ensures i in Waiting(items, g, after, Succ(rev, current))
    {
      IndexOfDistinct(items, i);
      assert current !in Succ(g, items[i]);
    }
    forall i | i in Waiting(items, g, after, Succ(rev, current))
      ensures i in ReadySet(items, g, done) - {IndexOf(items, current)}
    {
      assert items[i] in Elems(items);
      assert current !in Succ(g, items[i]);
      assert items[i] != current;
    }
  }

  /** The in-degrees while the dependents of `current` are being released:
      those still to be released do not count `current` as scheduled yet. */
  ghost predicate DegreesOk(deps: Graph, inDegree: map<string, int>, keys: set<string>,
                            todo: set<string>, done: set<string>, after: set<string>) {
    forall x :: x in keys ==> x in inDegree && inDegree[x] == |Succ(deps, x) - (if x in todo then done else after)|
  }

  lemma DegreeStep(deps: Graph, inDegree: map<string, int>, keys: set<string>, todo: set<string>,
                   done: set<string>, current: string, d: string)
    requires DegreesOk(deps, inDegree, keys, todo, done, done + {current})
    requires d in todo && d in keys && current !in done && current in Succ(deps, d)
    ensures DegreesOk(deps, inDegree[d := inDegree[d] - 1], keys, todo - {d}, done, done + {current})
    ensures inDegree[d] - 1 == 0 <==> Succ(deps, d) <= done + {current}
  {
    var after := done + {current};
    var sd := Succ(deps, d);
    assert sd - done == (sd - after) + {current};
    assert |sd - done| == |sd - after| + 1;
    if inDegree[d] - 1 == 0 {
      assert sd - after == {};
    }
    var inDegree' := inDegree[d := inDegree[d] - 1];
    forall x | x in keys
      ensures x in inDegree' && inDegree'[x] == |Succ(deps, x) - (if x in todo - {d} then done else after)|
    {
      if x == d {
        assert inDegree'[x] == |sd - after|;
      } else {
        assert inDegree'[x] == inDegree[x];
      }
    }
  }

  /** The loop invariant of the release loop. */
  ghost predicate Releasing(items: seq<string>, deps: Graph, current: string, done: set<string>,
                            todo: set<string>, inDegree: map<string, int>, heap: seq<int>) {
    todo <= Elems(items) && inDegree.Keys == Elems(items) &&
    DegreesOk(deps, inDegree, Elems(items), todo, done, done + {current}) &&
    Ascending(heap) && Elems(heap) == Waiting(items, deps, done + {current}, todo)
  }

  lemma ReleaseStart(items: seq<string>, deps: Graph, rev: Graph, current: string, done: set<string>,
                     inDegree: map<string, int>, heap: seq<int>)
    requires Popped(items, deps, rev, current, done)
    requires InDegrees(deps, inDegree, Elems(items), done)
    requires Ascending(heap) && Elems(heap) == ReadySet(items, deps, done) - {IndexOf(items, current)}
    ensures Releasing(items, deps, current, done, Succ(rev, current), inDegree, heap)
  {
    WaitingStart(items, deps, rev, current, done);
    forall x | x in Elems(items) && x !in Succ(rev, current)
      ensures Succ(deps, x) - (done + {current}) == Succ(deps, x) - done
    {
      assert current !in Succ(deps, x);
    }
  }

  /** The facts about a dependent `d` of `current` that releasing it uses. */
  lemma DependentFacts(items: seq<string>, deps: Graph, rev: Graph, itemIndex: map<string, int>,
                       current: string, done: set<string>, d: string)
    requires Popped(items, deps, rev, current, done) && IndexMap(items, itemIndex)
    requires d in Succ(rev, current)
    ensures d in Elems(items) && d in itemIndex && 0 <= itemIndex[d] < |items| && items[itemIndex[d]] == d
    ensures current in Succ(deps, d) && d !in done + {current}
  {
    assert current in Succ(deps, d) && d !in done;
    assert d != current;
  }

  /** Releasing `d = items[j]` updates the heap. */
  lemma ReleaseHeap(items: seq<string>, deps: Graph, after: set<string>, todo: set<string>,
                    inDegree: map<string, int>, heap: seq<int>, j: int)
    requires NoDuplicates(items) && 0 <= j < |items| && items[j] in todo && items[j] !in after
    requires items[j] in inDegree && (inDegree[items[j]] - 1 == 0 <==> Succ(deps, items[j]) <= after)
    requires Ascending(heap) && Elems(heap) == Waiting(items, deps, after, todo)
    ensures j !in heap
    ensures var heap' := if inDegree[items[j]] - 1 == 0 then HeapPush(heap, j) else heap;
      Ascending(heap') && Elems(heap') == Waiting(items, deps, after, todo - {items[j]})
  {
    assert j !in Elems(heap);
    HeapPushAscending(heap, j);
    WaitingStep(items, deps, after, todo, j);
  }

  /** Releasing one dependent `d`: its in-degree drops by one, and it
      enters the heap when no dependency is left. */
  lemma ReleaseOne(items: seq<string>, deps: Graph, rev: Graph, itemIndex: map<string, int>,
                   current: string, done: set<string>, todo: set<string>,
                   inDegree: map<string, int>, heap: seq<int>, d: string)
    requires Popped(items, deps, rev, current, done) && IndexMap(items, itemIndex)
    requires Releasing(items, deps, current, done, todo, inDegree, heap)
    requires todo <= Succ(rev, current) && d in todo
    ensures d in inDegree && d in itemIndex && itemIndex[d] !in heap
    ensures Releasing(items, deps, current, done, todo - {d}, inDegree[d := inDegree[d] - 1],
      if inDegree[d] - 1 == 0 then HeapPush(heap, itemIndex[d]) else heap)
  {
    DependentFacts(items, deps, rev, itemIndex, current, done, d);
    DegreeStep(deps, inDegree, Elems(items), todo, done, current, d);
    ReleaseHeap(items, deps, done + {current}, todo, inDegree, heap, itemIndex[d]);
  }

  lemma ReleaseEnd(items: seq<string>, deps: Graph, current: string, done: set<string>,
                   inDegree: map<string, int>, heap: seq<int>)
    requires Releasing(items, deps, current, done, {}, inDegree, heap)
    ensures InDegrees(deps, inDegree, Elems(items), done + {current})
    ensures Ascending(heap) && Elems(heap) == ReadySet(items, deps, done + {current})
  {
    assert Waiting(items, deps, done + {current}, {}) == ReadySet(items, deps, done + {current});
  }

  /** The `for dependent in reverse_dependencies[current]` loop of Kahn's
      algorithm: each dependent of the item just scheduled loses one unmet
      dependency and enters the heap when none is left. */
  method ReleaseDependents(items: seq<string>, deps: Graph, rev: Graph, itemIndex: map<string, int>,
                           current: string, ghost done: set<string>,
                           inDegree0: map<string, int>, heap0: seq<int>)
    returns (inDegree: map<string, int>, heap: seq<int>)
    requires Popped(items, deps, rev, current, done) && IndexMap(items, itemIndex)
    requires InDegrees(deps, inDegree0, Elems(items), done)
    requires Ascending(heap0) && Elems(heap0) == ReadySet(items, deps, done) - {IndexOf(items, current)}
    ensures InDegrees(deps, inDegree, Elems(items), done + {current})
    ensures Ascending(heap) && Elems(heap) == ReadySet(items, deps, done + {current})
  {
    var todo := Succ(rev, current);
    inDegree, heap := inDegree0, heap0;
    ReleaseStart(items, deps, rev, current, done, inDegree, heap);
    while todo != {}
      invariant todo <= Succ(rev, current)
      invariant Releasing(items, deps, current, done, todo, inDegree, heap)
      decreases |todo|
    {
      var d :| d in todo;
      ReleaseOne(items, deps, rev, itemIndex, current, done, todo, inDegree, heap, d);
      var k := itemIndex[d];
      todo := todo - {d};
      inDegree := inDegree[d := inDegree[d] - 1];
      if inDegree[d] == 0 {
        heap := HeapPush(heap, k);
      }
    }
    ReleaseEnd(items, deps, current, done, inDegree, heap);
  }

  // The scheduling loop.

  /** The items scheduled so far: distinct items, each ready and declared
      first among the ready ones when it was scheduled. */
  ghost predicate Scheduled(items: seq<string>, deps: Graph, result: seq<string>) {
    NoDuplicates(result) && Elems(result) <= Elems(items) &&
    (forall k :: 0 <= k < |result| ==> GreedyStep(items, deps, result[..k], result[k])) &&
    Closed(deps, Elems(result))
  }

  /** The item the heap yields is ready, and none of its dependents is
      scheduled. */
  lemma PickPopped(items: seq<string>, deps: Graph, rev: Graph, result: seq<string>, idx: int)
    requires NoDuplicates(items) && DepsOk(items, deps) && ReverseOf(items, deps, rev)
    requires Scheduled(items, deps, result)
    requires idx in ReadySet(items, deps, Elems(result))
    ensures IndexOf(items, items[idx]) == idx && Popped(items, deps, rev, items[idx], Elems(result))
  {
    var current := items[idx];
    IndexOfDistinct(items, idx);
    assert current in Elems(items);
    forall b ensures b in Succ(rev, current) <==> b in Elems(items) && current in Succ(deps, b) {
      if current in Succ(deps, b) {
        assert b in deps;
      }
    }
    forall b | b in Succ(rev, current) ensures b !in Elems(result) {
      assert current in Succ(deps, b);
    }
  }

  /** Appending an element not yet present keeps a list duplicate-free. */
  lemma SnocDistinct(s: seq<string>, x: string)
    requires NoDuplicates(s) && x !in s
    ensures NoDuplicates(s + [x]) && Elems(s + [x]) == Elems(s) + {x}
  {
    var r := s + [x];
    forall i, j | 0 <= i < j < |r| ensures r[i] != r[j] {
      if j == |s| {
        assert r[i] == s[i];
      }
    }
  }

  /** Appending a greedy step to a greedy schedule. */
  lemma SnocGreedy(items: seq<string>, deps: Graph, result: seq<string>, x: string)
    requires forall k :: 0 <= k < |result| ==> GreedyStep(items, deps, result[..k], result[k])
    requires GreedyStep(items, deps, result, x)
    ensures forall k :: 0 <= k < |result| + 1 ==> GreedyStep(items, deps, (result + [x])[..k], (result + [x])[k])
  {
    var r := result + [x];
    forall k | 0 <= k < |r| ensures GreedyStep(items, deps, r[..k], r[k]) {
      if k < |result| {
        assert r[..k] == result[..k];
      } else {
        assert r[..k] == result;
      }
    }
  }

  /** Scheduling the ready item declared first keeps `Scheduled`, and
      leaves one item fewer to schedule. */
  lemma ScheduleNext(items: seq<string>, deps: Graph, result: seq<string>, idx: int)
    requires NoDuplicates(items) && Scheduled(items, deps, result)
    requires idx in ReadySet(items, deps, Elems(result))
    requires forall j :: j in ReadySet(items, deps, Elems(result)) ==> idx <= j
    ensures Scheduled(items, deps, result + [items[idx]])
    ensures Elems(result + [items[idx]]) == Elems(result) + {items[idx]}
  {
    var current := items[idx];
    var done := Elems(result);
    IndexOfDistinct(items, idx);
    assert GreedyStep(items, deps, result, current);
    SnocGreedy(items, deps, result, current);
    SnocDistinct(result, current);
    assert Closed(deps, done + {current});
  }

  lemma SubsetCard(a: set<string>, b: set<string>)
    requires a <= b
    ensures |a| <= |b|
  {
    assert b == a + (b - a);
  }

  /** No more items are scheduled than there are. */
  lemma ScheduledBound(items: seq<string>, deps: Graph, result: seq<string>)
    requires NoDuplicates(items) && Scheduled(items, deps, result)
    ensures |result| <= |items|
  {
    DistinctCard(items);
    DistinctCard(result);
    SubsetCard(Elems(result), Elems(items));
  }

  /** The loop invariant of the scheduling loop. */
  ghost predicate KahnInv(items: seq<string>, deps: Graph, result: seq<string>, inDegree: map<string, int>, heap: seq<int>) {
    Scheduled(items, deps, result) && InDegrees(deps, inDegree, Elems(items), Elems(result)) &&
    Ascending(heap) && Elems(heap) == ReadySet(items, deps, Elems(result))
  }

  /** The initial in-degrees: every dependency is unmet. */
  lemma KahnStartDegrees(items: seq<string>, deps: Graph, inDegree: map<string, int>)
    requires DepsOk(items, deps)
    requires inDegree.Keys == Elems(items) && forall x :: x in Elems(items) ==> inDegree[x] == |deps[x]|
    ensures InDegrees(deps, inDegree, Elems(items), {})
  {
    forall x | x in Elems(items) ensures inDegree[x] == |Succ(deps, x) - {}| {
      assert Succ(deps, x) - {} == deps[x];
    }
  }

  /** The initial heap: the items without dependencies. */
  lemma KahnStartHeap(items: seq<string>, deps: Graph, heap: set<int>)
    requires heap == NoDepsBelow(items, deps, |items|)
    ensures heap == ReadySet(items, deps, {})
  {
    forall i | 0 <= i < |items| ensures (Succ(deps, items[i]) == {} <==> Succ(deps, items[i]) <= {}) {
      if Succ(deps, items[i]) <= {} {
        assert Succ(deps, items[i]) == {};
      }
    }
  }

  /** Indices below `k` of the items without dependencies. */
  function NoDepsBelow(items: seq<string>, deps: Graph, k: int): set<int> {
    set i | 0 <= i < k && i < |items| && Succ(deps, items[i]) == {}
  }

  lemma NoDepsBelowStep(items: seq<string>, deps: Graph, k: int)
    requires 0 <= k < |items|
    ensures Succ(deps, items[k]) == {} ==> NoDepsBelow(items, deps, k + 1) == NoDepsBelow(items, deps, k) + {k}
    ensures Succ(deps, items[k]) != {} ==> NoDepsBelow(items, deps, k + 1) == NoDepsBelow(items, deps, k)
  {
  }

  /** The `heappush` loop over the items with in-degree zero. */
  method InitialHeap(items: seq<string>, deps: Graph, itemIndex: map<string, int>, inDegree: map<string, int>)
    returns (heap: seq<int>)
    requires NoDuplicates(items) && DepsOk(items, deps)
    requires forall i :: 0 <= i < |items| ==> items[i] in itemIndex && itemIndex[items[i]] == i
    requires inDegree.Keys == Elems(items) && forall x :: x in Elems(items) ==> inDegree[x] == |deps[x]|
    ensures Ascending(heap) && Elems(heap) == ReadySet(items, deps, {})
  {
    heap := [];
    for k := 0 to |items|
      invariant Ascending(heap) && forall x :: x in Elems(heap) ==> x < k
      invariant Elems(heap) == NoDepsBelow(items, deps, k)
    {
      assert items[k] in Elems(items);
      assert k in heap <==> k in Elems(heap);
      NoDepsBelowStep(items, deps, k);
      assert inDegree[items[k]] == 0 <==> Succ(deps, items[k]) == {};
      if inDegree[items[k]] == 0 {
        HeapPushAscending(heap, k);
        heap := HeapPush(heap, itemIndex[items[k]]);
      }
    }
    KahnStartHeap(items, deps, Elems(heap));
  }

  /** One round of the `while heap` loop: pop the least index, schedule
      its item, release the item's dependents. */
  method KahnStep(items: seq<string>, deps: Graph, rev: Graph, itemIndex: map<string, int>,
                  result: seq<string>, inDegree: map<string, int>, heap: seq<int>)
    returns (result': seq<string>, inDegree': map<string, int>, heap': seq<int>)
    requires NoDuplicates(items) && DepsOk(items, deps) && ReverseOf(items, deps, rev) && IndexMap(items, itemIndex)
    requires KahnInv(items, deps, result, inDegree, heap) && |heap| > 0
    ensures 0 <= heap[0] < |items| && result' == result + [items[heap[0]]]
    ensures KahnInv(items, deps, result', inDegree', heap')
    ensures |result'| <= |items|
  {
    var idx := heap[0];
    HeapPop(heap);
    assert idx in Elems(heap);
    var current := items[idx];
    PickPopped(items, deps, rev, result, idx);
    ScheduleNext(items, deps, result, idx);
    inDegree', heap' := ReleaseDependents(items, deps, rev, itemIndex, current, Elems(result), inDegree, heap[1..]);
    result' := result + [current];
    ScheduledBound(items, deps, result');
  }

  /** Nothing scheduled yet. */
  lemma KahnStart(items: seq<string>, deps: Graph, inDegree: map<string, int>, heap: seq<int>)
    requires InDegrees(deps, inDegree, Elems(items), {})
    requires Ascending(heap) && Elems(heap) == ReadySet(items, deps, {})
    ensures KahnInv(items, deps, [], inDegree, heap)
  {
    var none: seq<string> := [];
    assert Elems(none) == {};
  }

  /** `_compute_topological_order`'s scheduling loop on plain values:
      the items scheduled, in order. */
  method KahnSchedule(items: seq<string>, deps: Graph, rev: Graph) returns (result: seq<string>)
    requires NoDuplicates(items) && DepsOk(items, deps) && ReverseOf(items, deps, rev)
    ensures Scheduled(items, deps, result)
    ensures ReadySet(items, deps, Elems(result)) == {}
  {
    var itemIndex := ItemIndex(items);
    var inDegree := map x | x in Elems(items) :: |deps[x]|;
    var heap := InitialHeap(items, deps, itemIndex, inDegree);
    result := [];
    KahnStartDegrees(items, deps, inDegree);
    KahnStart(items, deps, inDegree, heap);
    while |heap| > 0
      invariant KahnInv(items, deps, result, inDegree, heap) && |result| <= |items|
      decreases |items| - |result|
    {
      result, inDegree, heap := KahnStep(items, deps, rev, itemIndex, result, inDegree, heap);
    }
  }
}

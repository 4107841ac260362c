/** Directed graphs over item ids, as the topology and the path validator
    keep them: a map from an id to the set of ids it depends on. Paths,
    reachability, closed sets and topological numberings. */
module Graphs {

  type Graph = map<string, set<string>>

  /** `graph.get(x, set())`. */
  function Succ(g: Graph, x: string): set<string> {
    if x in g then g[x] else {}
  }

  function Elems<T>(s: seq<T>): set<T> {
    set x | x in s
  }

  lemma ElemsConcat<T>(a: seq<T>, b: seq<T>)
    ensures Elems(a + b) == Elems(a) + Elems(b)
  {
    forall x | x in Elems(a + b) ensures x in Elems(a) + Elems(b) {
      var i :| 0 <= i < |a + b| && (a + b)[i] == x;
      if i >= |a| {
        assert b[i - |a|] == x;
      }
    }
  }

  predicate NoDuplicates<T(==)>(s: seq<T>) {
    forall i, j :: 0 <= i < j < |s| ==> s[i] != s[j]
  }

  /** Every id in `s` has all its successors in `s`. */
  predicate Closed(g: Graph, s: set<string>) {
    forall x :: x in s ==> Succ(g, x) <= s
  }

  /** A walk along edges (at least one node). */
  ghost predicate IsPath(g: Graph, p: seq<string>) {
    |p| >= 1 && forall i :: 0 <= i < |p| - 1 ==> p[i + 1] in Succ(g, p[i])
  }

  ghost predicate Reaches(g: Graph, a: string, b: string) {
    exists p :: IsPath(g, p) && p[0] == a && p[|p| - 1] == b
  }

  /** Reachable along at least one edge. */
  ghost predicate ReachesPlus(g: Graph, a: string, b: string) {
    exists p :: IsPath(g, p) && |p| >= 2 && p[0] == a && p[|p| - 1] == b
  }

  /** A closed walk, self-loops included. */
  ghost predicate IsCycle(g: Graph, c: seq<string>) {
    IsPath(g, c) && |c| >= 2 && c[0] == c[|c| - 1]
  }

  lemma ReachRefl(g: Graph, a: string)
    ensures Reaches(g, a, a)
  {
    assert IsPath(g, [a]);
  }

  /** Extending a walk by one edge. */
  lemma ReachStep(g: Graph, a: string, b: string, c: string)
    requires Reaches(g, a, b) && c in Succ(g, b)
    ensures Reaches(g, a, c) && ReachesPlus(g, a, c)
  {
    var p :| IsPath(g, p) && p[0] == a && p[|p| - 1] == b;
    var q := p + [c];
    assert forall i :: 0 <= i < |p| ==> q[i] == p[i];
    assert IsPath(g, q);
  }

  /** One edge followed by a walk. */
  lemma ReachPlusFirst(g: Graph, a: string, c: string, b: string)
    requires c in Succ(g, a) && Reaches(g, c, b)
    ensures ReachesPlus(g, a, b)
  {
    var p :| IsPath(g, p) && p[0] == c && p[|p| - 1] == b;
    var q := [a] + p;
    assert forall i :: 1 <= i < |q| ==> q[i] == p[i - 1];
    assert IsPath(g, q);
  }

  /** A walk of one edge or more starts with an edge to some successor. */
  lemma ReachPlusSplit(g: Graph, a: string, b: string) returns (c: string)
    requires ReachesPlus(g, a, b)
    ensures c in Succ(g, a) && Reaches(g, c, b)
  {
    var p :| IsPath(g, p) && |p| >= 2 && p[0] == a && p[|p| - 1] == b;
    c := p[1];
    var q := p[1..];
    assert forall i :: 0 <= i < |q| ==> q[i] == p[i + 1];
    assert IsPath(g, q);
  }

  /** No walk leaves a closed set. */
  lemma ClosedReach(g: Graph, s: set<string>, a: string, b: string)
    requires Closed(g, s) && a in s && Reaches(g, a, b)
    ensures b in s
  {
    var p :| IsPath(g, p) && p[0] == a && p[|p| - 1] == b;
    var i := 0;
    while i < |p| - 1
      invariant 0 <= i <= |p| - 1 && p[i] in s
    {
      assert p[i + 1] in Succ(g, p[i]);
      i := i + 1;
    }
  }

  /** An injective numbering of `items` into [0, n) that puts every item
      after each of its dependencies that is an item; the solver's order
      variables `order_<id>`. */
  ghost predicate IsOrdering(items: seq<string>, g: Graph, pos: string -> int) {
    (forall x :: x in items ==> 0 <= pos(x) < |items|) &&
    (forall i, j :: 0 <= i < j < |items| ==> pos(items[i]) != pos(items[j])) &&
    (forall x, y :: x in items && y in Succ(g, x) && y in items ==> pos(x) > pos(y))
  }

  ghost predicate Orderable(items: seq<string>, g: Graph) {
    exists pos :: IsOrdering(items, g, pos)
  }

  /** An element of a non-empty set minimising `f`. */
  lemma MinBy(r: set<string>, f: string -> int) returns (x: string)
    requires r != {}
    ensures x in r && forall y :: y in r ==> f(x) <= f(y)
    decreases r
  {
    var a :| a in r;
    if r == {a} {
      x := a;
    } else {
      var b := MinBy(r - {a}, f);
      x := if f(a) <= f(b) then a else b;
    }
  }

  /** `x` has a successor inside `r`. */
  ghost predicate HasSuccIn(g: Graph, x: string, r: set<string>) {
    exists y :: y in Succ(g, x) && y in r
  }

  /** A non-empty set of items each depending on another item of the set
      admits no numbering: its member with the smallest number would need a
      smaller one. */
  lemma StuckNotOrderable(items: seq<string>, g: Graph, r: set<string>)
    requires r != {} && r <= Elems(items)
    requires forall x :: x in r ==> HasSuccIn(g, x, r)
    ensures !Orderable(items, g)
  {
    forall pos ensures !IsOrdering(items, g, pos) {
      var x := MinBy(r, pos);
      var y :| y in Succ(g, x) && y in r;
      assert pos(y) >= pos(x);
    }
  }

  /** A cycle through items admits no numbering. */
  lemma CycleNotOrderable(items: seq<string>, g: Graph, c: seq<string>)
    requires IsCycle(g, c) && Elems(c) <= Elems(items)
    ensures !Orderable(items, g)
  {
    var r := Elems(c[..|c| - 1]);
    assert c[0] in r;
    forall x | x in r ensures HasSuccIn(g, x, r) {
      var i :| 0 <= i < |c| - 1 && c[i] == x;
      if i + 1 < |c| - 1 {
        assert c[i + 1] in r;
      } else {
        assert c[i + 1] == c[0];
      }
    }
    StuckNotOrderable(items, g, r);
  }
}

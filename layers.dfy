/** `get_dependency_layers()`: peel off, round by round, the remaining
    items whose dependencies have all been placed; when a round finds none,
    the remainder becomes a final layer. */
module TopologyLayers {
  import opened Graphs
  import opened TopologyOrder
  import opened TopologySearch

  /** The items of `remaining` all of whose dependencies are processed. */
  function ReadyLayer(deps: Graph, remaining: set<string>, processed: set<string>): set<string> {
    set x | x in remaining && Succ(deps, x) <= processed
  }

  /** The layers the loop appends, starting from `remaining` and
      `processed`. */
  function LayersFrom(deps: Graph, remaining: set<string>, processed: set<string>): seq<set<string>>
    decreases remaining
  {
    if remaining == {} then []
    else
      var layer := ReadyLayer(deps, remaining, processed);
      if layer == {} then [remaining]
      else
        [layer] + LayersFrom(deps, remaining - layer, processed + layer)
  }

  /** The loop ends on the "cannot create dependency layers" branch. */
  predicate EndsStuck(deps: Graph, remaining: set<string>, processed: set<string>)
    decreases remaining
  {
    remaining != {} &&
    var layer := ReadyLayer(deps, remaining, processed);
    layer == {} ||
    EndsStuck(deps, remaining - layer, processed + layer)
  }

  lemma {:induction false} UnionCons(a: set<string>, ss: seq<set<string>>)
    ensures Union([a] + ss) == a + Union(ss)
    decreases |ss|
  {
    if |ss| > 0 {
      var n := |ss| - 1;
      assert ([a] + ss)[..n + 1] == [a] + ss[..n];
      UnionCons(a, ss[..n]);
    }
  }

  lemma {:induction false} UnionOutside(ss: seq<set<string>>, x: string)
    requires forall k :: 0 <= k < |ss| ==> x !in ss[k]
    ensures x !in Union(ss)
    decreases |ss|
  {
    if |ss| > 0 {
      UnionOutside(ss[..|ss| - 1], x);
    }
  }

  /** `layers` splits `s` into disjoint non-empty sets. */
  ghost predicate Partition(layers: seq<set<string>>, s: set<string>) {
    Union(layers) == s && Disjoint(layers) && forall i :: 0 <= i < |layers| ==> layers[i] != {}
  }

  /** An item of layer `j` did not have all its dependencies placed by
      any earlier layer. */
  ghost predicate PlacedEarliest(deps: Graph, layers: seq<set<string>>, processed: set<string>) {
    forall i, j, x :: 0 <= i < j < |layers| && x in layers[j] ==> !(Succ(deps, x) <= processed + Union(layers[..i]))
  }

  /** No item of a layer depends on another item of the same layer. */
  ghost predicate Independent(deps: Graph, layers: seq<set<string>>) {
    forall i, x, y :: 0 <= i < |layers| && x in layers[i] && y in layers[i] ==> y !in Succ(deps, x)
  }

  /** The layers partition the remaining items into non-empty sets. */
  lemma {:induction false} LayersPartition(deps: Graph, remaining: set<string>, processed: set<string>)
    ensures Partition(LayersFrom(deps, remaining, processed), remaining)
    decreases remaining
  {
    if remaining != {} {
      var layer := ReadyLayer(deps, remaining, processed);
      if layer == {} {
        assert Union([remaining]) == Union([]) + remaining;
      } else {
        var rest := LayersFrom(deps, remaining - layer, processed + layer);
        LayersPartition(deps, remaining - layer, processed + layer);
        UnionCons(layer, rest);
        var layers := [layer] + rest;
        forall i, j | 0 <= i < j < |layers| ensures layers[i] !! layers[j] {
          if i == 0 {
            UnionMember(rest, j - 1);
          } else {
            assert layers[i] == rest[i - 1] && layers[j] == rest[j - 1];
          }
        }
      }
    }
  }

  /** Every dependency of an item of layer `i` is processed before the
      first layer or lies in a layer before `i`. */
  ghost predicate DepsPlaced(deps: Graph, layers: seq<set<string>>, processed: set<string>) {
    forall i, x :: 0 <= i < |layers| && x in layers[i] ==> Succ(deps, x) <= processed + Union(layers[..i])
  }

  /** Without the stuck branch, every dependency of a layer's item lies in
      an earlier layer (or was processed before the start). */
  lemma {:induction false} LayersDepsEarlier(deps: Graph, remaining: set<string>, processed: set<string>)
    requires !EndsStuck(deps, remaining, processed)
    ensures DepsPlaced(deps, LayersFrom(deps, remaining, processed), processed)
    decreases remaining
  {
    if remaining != {} {
      var layer := ReadyLayer(deps, remaining, processed);
      var rest := LayersFrom(deps, remaining - layer, processed + layer);
      LayersDepsEarlier(deps, remaining - layer, processed + layer);
      var layers := [layer] + rest;
      assert layer != {};
      assert LayersFrom(deps, remaining, processed) == layers;
      forall i, y | 0 <= i < |layers| && y in layers[i] ensures Succ(deps, y) <= processed + Union(layers[..i]) {
        if i > 0 {
          assert layers[..i] == [layer] + rest[..i - 1];
          UnionCons(layer, rest[..i - 1]);
          assert y in rest[i - 1];
          assert Succ(deps, y) <= (processed + layer) + Union(rest[..i - 1]);
        } else {
          assert y in layer && layers[..i] == [];
        }
      }
    }
  }

  /** Each item sits in the earliest layer possible: at no earlier round
      were all its dependencies processed. */
  lemma {:induction false} LayersEarliest(deps: Graph, remaining: set<string>, processed: set<string>)
    ensures PlacedEarliest(deps, LayersFrom(deps, remaining, processed), processed)
    decreases remaining
  {
    if remaining != {} {
      var layer := ReadyLayer(deps, remaining, processed);
      if layer != {} {
        var rest := LayersFrom(deps, remaining - layer, processed + layer);
        LayersEarliest(deps, remaining - layer, processed + layer);
        LayersPartition(deps, remaining - layer, processed + layer);
        var layers := [layer] + rest;
        forall i, j, y | 0 <= i < j < |layers| && y in layers[j] ensures !(Succ(deps, y) <= processed + Union(layers[..i])) {
          assert y in rest[j - 1];
          if i > 0 {
            assert layers[..i] == [layer] + rest[..i - 1];
            UnionCons(layer, rest[..i - 1]);
          } else {
            UnionMember(rest, j - 1);
            assert layers[..0] == [];
            assert y in remaining && y !in layer;
          }
        }
      }
    }
  }

  /** Without the stuck branch, no item of a layer depends on another item
      of the same layer. */
  lemma LayerIndependent(deps: Graph, remaining: set<string>, processed: set<string>)
    requires remaining !! processed && !EndsStuck(deps, remaining, processed)
    ensures Independent(deps, LayersFrom(deps, remaining, processed))
  {
    var layers := LayersFrom(deps, remaining, processed);
    LayersPartition(deps, remaining, processed);
    LayersDepsEarlier(deps, remaining, processed);
    forall i, x, y | 0 <= i < |layers| && x in layers[i] && y in layers[i] ensures y !in Succ(deps, x) {
      forall k | 0 <= k < i ensures y !in layers[..i][k] {
        assert layers[k] !! layers[i];
      }
      UnionOutside(layers[..i], y);
    }
  }

  /** Reaching the stuck branch means the items admit no topological
      numbering: every item of the final layer depends on another one. */
  lemma {:induction false} StuckLayersNotOrderable(items: seq<string>, deps: Graph, remaining: set<string>, processed: set<string>)
    requires DepsOk(items, deps) && remaining !! processed && remaining + processed == Elems(items)
    requires EndsStuck(deps, remaining, processed)
    ensures !Orderable(items, deps)
    decreases remaining
  {
    var layer := ReadyLayer(deps, remaining, processed);
    if layer == {} {
      forall x | x in remaining ensures HasSuccIn(deps, x, remaining) {
        assert x !in layer;
        var y :| y in Succ(deps, x) && y !in processed;
        assert y in Elems(items);
      }
      StuckNotOrderable(items, deps, remaining);
    } else {
      StuckLayersNotOrderable(items, deps, remaining - layer, processed + layer);
    }
  }

  lemma ReadyLayerStep(deps: Graph, seen: set<string>, x: string, processed: set<string>)
    ensures ReadyLayer(deps, seen + {x}, processed) ==
      ReadyLayer(deps, seen, processed) + (if Succ(deps, x) <= processed then {x} else {})
  {
  }

  /** The inner `for item_id in remaining` loop. */
  method ReadyLayerOf(deps: Graph, remaining: set<string>, processed: set<string>) returns (layer: set<string>)
    ensures layer == ReadyLayer(deps, remaining, processed)
  {
    layer := {};
    var todo, seen := remaining, {};
    while todo != {}
      invariant seen + todo == remaining
      invariant layer == ReadyLayer(deps, seen, processed)
      decreases todo
    {
      var x :| x in todo;
      ReadyLayerStep(deps, seen, x, processed);
      if Succ(deps, x) <= processed {
        layer := layer + {x};
      }
      todo, seen := todo - {x}, seen + {x};
    }
  }

  /** The `while remaining` loop of `get_dependency_layers()` for an
      acyclic topology. */
  method Layers(items: seq<string>, deps: Graph) returns (layers: seq<set<string>>)
    ensures layers == LayersFrom(deps, Elems(items), {})
  {
    layers := [];
    var remaining := Elems(items);
    var processed: set<string> := {};
    while remaining != {}
      invariant layers + LayersFrom(deps, remaining, processed) == LayersFrom(deps, Elems(items), {})
      decreases remaining
    {
      var layer := ReadyLayerOf(deps, remaining, processed);
      if layer == {} {
        layers := layers + [remaining];
        break;
      }
      assert LayersFrom(deps, remaining, processed) == [layer] + LayersFrom(deps, remaining - layer, processed + layer);
      layers := layers + [layer];
      processed := processed + layer;
      remaining := remaining - layer;
    }
  }
}

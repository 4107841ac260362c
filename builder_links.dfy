/** How a built `StaticBuilder` feeds the topology and the validators:
    its item order is the topology's item list, its `item_dependencies`
    has the shape the topology expects, and compiling every item's
    conditions gives the view the validators read. */
module BuilderLinks {
  import opened Wrappers
  import opened Smt
  import opened Graphs
  import opened TopologyOrder
  import opened Topology
  import opened BuilderTerms
  import opened BuilderSpec
  import opened BuilderProps
  import Conditions

  /** `item.get('id')` for every item, a missing one as the empty string. */
  function IdsOf(items: seq<Item>): (r: seq<string>)
    ensures |r| == |items| && forall k :: 0 <= k < |items| ==> r[k] == items[k].id
  {
    seq(|items|, k requires 0 <= k < |items| => items[k].id)
  }

  lemma {:induction false} ItemIdsConcat(a: seq<string>, b: seq<string>)
    ensures ItemIds(a + b) == ItemIds(a) + ItemIds(b)
    decreases |a|
  {
    if |a| > 0 {
      assert (a + b)[1..] == a[1..] + b && (a + b)[0] == a[0];
      ItemIdsConcat(a[1..], b);
      if a[0] != "" {
        assert ItemIds(a + b) == [a[0]] + ItemIds(a[1..] + b);
        assert ItemIds(a) == [a[0]] + ItemIds(a[1..]);
      }
    } else {
      assert a + b == b;
    }
  }

  /** The builder's `item_order` is the topology's item list. */
  lemma {:induction false} OrderIsItemIds(items: seq<Item>)
    ensures IdsIn(items) == ItemIds(IdsOf(items))
    decreases |items|
  {
    if |items| > 0 {
      var init := items[..|items| - 1];
      var last := items[|items| - 1];
      OrderIsItemIds(init);
      assert IdsOf(items) == IdsOf(init) + [last.id];
      ItemIdsConcat(IdsOf(init), [last.id]);
      assert ItemIds([last.id]) == (if last.id != "" then [last.id] else []) by {
        assert [last.id][1..] == [];
      }
    }
  }

  /** What `QMLTopology` takes from a built `StaticBuilder` meets what its
      constructor requires of `item_dependencies`. */
  lemma BuildFeedsTopology(items: seq<Item>, initCode: string, env: Env)
    ensures var s := Build(items, initCode, env);
      s.itemOrder == ItemIds(IdsOf(items)) && DepsOk(ItemIds(IdsOf(items)), s.itemDependencies)
  {
    BuildFacts(items, initCode, env);
    OrderIsItemIds(items);
  }

  /** Every item's details compiled with `compile_conditions`, as the
      validators read them. */
  function CompiledOf(s: State, env: Env): Conditions.Compiled {
    Conditions.Compiled(
      DomainBase(s),
      s.itemOrder,
      map id | id in s.itemDetails ::
        Conditions.ItemConditions(
          CompileConditions(s, s.itemDetails[id].preconditions, env).0,
          CompileConditions(s, s.itemDetails[id].postconditions, env).0,
          |s.itemDetails[id].postconditions| > 0),
      s.itemVars,
      s.z3Vars)
  }

  /** An item without postconditions compiles to `True`. */
  lemma CompiledWellFormed(s: State, env: Env)
    requires Coherent(SsaOf(s))
    ensures Conditions.WellFormed(CompiledOf(s, env))
  {
    forall id | id in s.itemDetails && |s.itemDetails[id].postconditions| == 0
      ensures CompileConditions(s, s.itemDetails[id].postconditions, env).0 == BConst(true)
    {
      CompileNothing(s, s.itemDetails[id].postconditions, env);
    }
  }

  /** The validators compile conditions one after another, each call
      possibly recording new names; the view does not depend on that
      order. */
  lemma CompiledOrderFree(s: State, st: Ssa, env: Env)
    requires Coherent(SsaOf(s)) && Coherent(st) && Grows(SsaOf(s), st)
    ensures CompiledOf(WithSsa(s, st), env).details == CompiledOf(s, env).details
    ensures CompiledOf(WithSsa(s, st), env).base == CompiledOf(s, env).base
  {
    forall id | id in s.itemDetails
      ensures CompileConditions(WithSsa(s, st), s.itemDetails[id].preconditions, env).0 == CompileConditions(s, s.itemDetails[id].preconditions, env).0
      ensures CompileConditions(WithSsa(s, st), s.itemDetails[id].postconditions, env).0 == CompileConditions(s, s.itemDetails[id].postconditions, env).0
    {
      CompileOrderFree(s, st, s.itemDetails[id].preconditions, env);
      CompileOrderFree(s, st, s.itemDetails[id].postconditions, env);
    }
  }
}

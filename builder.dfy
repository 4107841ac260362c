/** `StaticBuilder`: the builder object whose passes fill its dictionaries
    and lists in place. Every method is proved to leave the fields as the
    matching function of `BuilderSpec` computes them from the fields
    before. */
module Builder {
  import opened Wrappers
  import opened Smt
  import opened Graphs
  import A = PyAst
  import opened BuilderTerms
  import opened BuilderSpec
  import opened BuilderProps

  class StaticBuilder {
    var versionMap: map<string, nat>
    var versionHistory: map<string, seq<(nat, string)>>
    var z3Vars: set<string>
    var itemVars: set<string>
    var domainConstraints: seq<BoolTerm>
    var constraints: seq<BoolTerm>
    var itemDependencies: Graph
    var itemDetails: map<string, Details>
    var itemOrder: seq<string>

    /** The fields, as one value. */
    function Snapshot(): State
      reads this
    {
      State(versionMap, versionHistory, z3Vars, itemVars, domainConstraints, constraints,
            itemDependencies, itemDetails, itemOrder)
    }

    /** `__init__`: empty fields, then `_build_internal`. */
    constructor (items: seq<Item>, initCode: string, env: Env)
      ensures Snapshot() == Build(items, initCode, env)
      ensures Built(Snapshot(), items, env)
    {
      versionMap, versionHistory, z3Vars, itemVars := map[], map[], {}, {};
      domainConstraints, constraints := [], [];
      itemDependencies, itemDetails, itemOrder := map[], map[], [];
      new;
      BuildInternal(items, initCode, env);
      BuildFacts(items, initCode, env);
    }

    /** `_build_internal`: the first pass over the items, the
        initialisation code, the second pass. */
    method BuildInternal(items: seq<Item>, initCode: string, env: Env)
      requires Snapshot() == Empty
      modifies this
      ensures Snapshot() == Build(items, initCode, env)
    {
      for k := 0 to |items|
        invariant Snapshot() == FirstPass(Empty, items[..k])
      {
        assert items[..k + 1][..k] == items[..k];
        AddItemVariable(items[k]);
      }
      assert items[..|items|] == items;
      if initCode != "" {
        ProcessCodeBlock(InitContext, initCode, env);
      }
      ghost var s0 := Snapshot();
      for k := 0 to |items|
        invariant Snapshot() == SecondPass(s0, items[..k], env)
      {
        assert items[..k + 1][..k] == items[..k];
        ProcessOneItem(items[k], env);
      }
      assert items[..|items|] == items;
    }

    /** The body of the first loop for one item. */
    method AddItemVariable(item: Item)
      modifies this
      ensures Snapshot() == AddItem(old(Snapshot()), item)
    {
      if item.id != "" {
        itemVars := itemVars + {item.id};
        itemDependencies := itemDependencies[item.id := {}];
        ExtractDomainConstraints(item.id, item);
        itemDetails := itemDetails[item.id := Details(item.precondition, item.postcondition, item.codeBlock)];
        itemOrder := itemOrder + [item.id];
      }
    }

    /** `_extract_domain_constraints`. */
    method ExtractDomainConstraints(id: string, item: Item)
      modifies this
      ensures Snapshot() == old(Snapshot()).(domainConstraints := old(domainConstraints) + DomainOf(id, item))
    {
      var v := ItemVar(id);
      match item.control
      case Editbox | Slider =>
        if item.min.Some? {
          domainConstraints := domainConstraints + [Compare(Ge, v, IConst(item.min.value))];
        }
        if item.max.Some? {
          domainConstraints := domainConstraints + [Compare(Le, v, IConst(item.max.value))];
        }
      case RadioButton | Dropdown =>
        if |item.options| > 0 {
          var vals: seq<int> := [];
          for i := 0 to |item.options|
            invariant vals == OptionValues(item.options[..i])
          {
            assert item.options[..i + 1][..i] == item.options[..i];
            if item.options[i].Some? {
              vals := vals + [item.options[i].value];
            }
          }
          assert item.options[..|item.options|] == item.options;
          if |vals| > 0 {
            domainConstraints := domainConstraints + [OneOf(v, vals)];
          }
        }
      case OtherControl =>
    }

    /** `_get_next_version`: above every version recorded for `x`. */
    function GetNextVersion(x: string): (v: nat)
      reads this
      ensures HistoryOk(Snapshot()) && x in versionHistory ==>
        forall i :: 0 <= i < |versionHistory[x]| ==> versionHistory[x][i].0 < v
      ensures x in versionMap ==> versionMap[x] < v
    {
      if x in versionHistory && x in versionMap && HistoryShape(versionHistory[x], versionMap[x]) then
        HistoryBelow(versionHistory[x], versionMap[x]);
        NextVersion(versionMap, x)
      else NextVersion(versionMap, x)
    }

    /** `_get_current_z3_var`. */
    method GetCurrentZ3Var(x: string) returns (r: Option<IntTerm>)
      modifies this
      ensures (r, SsaOf(Snapshot())) == CurrentVar(old(SsaOf(Snapshot())), itemVars, x)
      ensures Snapshot() == WithSsa(old(Snapshot()), SsaOf(Snapshot()))
      ensures Coherent(old(SsaOf(Snapshot()))) ==>
        r == Some(Lookup(old(versionMap), itemVars, x)) && Coherent(SsaOf(Snapshot()))
    {
      if x in itemVars {
        return Some(ItemVar(x));
      }
      if x in versionMap {
        var name := SsaName(x, versionMap[x]);
        return if name in z3Vars then Some(IVar(name)) else None;
      }
      z3Vars := z3Vars + {SsaName(x, 0)};
      versionMap := versionMap[x := 0];
      return Some(IVar(SsaName(x, 0)));
    }

    /** `_ast_to_z3` on the builder's fields. */
    method AstToZ3(e: A.Expr, hash: string -> int) returns (r: Option<IntTerm>)
      modifies this
      ensures (r, SsaOf(Snapshot())) == ToInt(e, old(SsaOf(Snapshot())), itemVars, hash)
      ensures Snapshot() == WithSsa(old(Snapshot()), SsaOf(Snapshot()))
    {
      var (t, st) := ToInt(e, SsaOf(Snapshot()), itemVars, hash);
      versionMap, z3Vars := st.versionMap, st.z3Vars;
      r := t;
    }

    /** `_ast_to_z3_bool` on the builder's fields. */
    method AstToZ3Bool(e: A.Expr, hash: string -> int) returns (r: Option<BoolTerm>)
      modifies this
      ensures (r, SsaOf(Snapshot())) == ToBool(e, old(SsaOf(Snapshot())), itemVars, hash)
      ensures Snapshot() == WithSsa(old(Snapshot()), SsaOf(Snapshot()))
    {
      var (t, st) := ToBool(e, SsaOf(Snapshot()), itemVars, hash);
      versionMap, z3Vars := st.versionMap, st.z3Vars;
      r := t;
    }

    /** `_process_code_block`: the `Assign` nodes in walk order, each
        `Name` target that is not an item getting a new version. */
    method ProcessCodeBlock(ctx: string, code: string, env: Env)
      modifies this
      ensures Snapshot() == ProcessCode(old(Snapshot()), ctx, code, env)
    {
      var parsed := env.parseCode(code);
      if parsed.None? {
        return;
      }
      var assigns := A.AssignsInWalk(parsed.value);
      ghost var s0 := Snapshot();
      for i := 0 to |assigns|
        invariant Snapshot() == RunAssigns(s0, ctx, assigns[..i], env.hash)
      {
        assert assigns[..i + 1][..i] == assigns[..i];
        var node := assigns[i];
        ghost var s1 := Snapshot();
        for j := 0 to |node.targets|
          invariant Snapshot() == AssignTargets(s1, ctx, node.targets[..j], node.value, env.hash)
        {
          assert node.targets[..j + 1][..j] == node.targets[..j];
          var target := node.targets[j];
          if target.Name? {
            AssignTarget(ctx, target.id, node.value, env.hash);
          }
        }
        assert node.targets[..|node.targets|] == node.targets;
      }
      assert assigns[..|assigns|] == assigns;
    }

    /** One `Name` target: the new version is recorded before the value is
        translated. */
    method AssignTarget(ctx: string, x: string, value: A.Expr, hash: string -> int)
      modifies this
      ensures Snapshot() == AssignName(old(Snapshot()), ctx, x, value, hash)
    {
      if x in itemVars {
        return;
      }
      var v := GetNextVersion(x);
      var name := SsaName(x, v);
      z3Vars := z3Vars + {name};
      versionMap := versionMap[x := v];
      var h := if x in versionHistory then versionHistory[x] else [];
      versionHistory := versionHistory[x := h + [(v, ctx)]];
      var t := AstToZ3(value, hash);
      if t.Some? {
        constraints := constraints + [AssignConstraint(ctx, name, t.value)];
      }
    }

    /** `_build_precondition_constraint`: the translated predicate and the
        items it mentions. */
    method BuildPreconditionConstraint(pred: string, env: Env) returns (c: Option<BoolTerm>, deps: set<string>)
      modifies this
      ensures (c, deps, Snapshot()) == PreconditionConstraint(old(Snapshot()), pred, env)
    {
      var tree := env.parse(pred);
      if tree.None? {
        return None, {};
      }
      deps := set x | x in A.NamesIn(tree.value) && x in itemVars;
      assert deps == PredicateDeps(tree.value, itemVars);
      c := AstToZ3Bool(tree.value, env.hash);
    }

    /** `_build_postcondition_constraint`: no dependencies. */
    method BuildPostconditionConstraint(pred: string, env: Env) returns (c: Option<BoolTerm>, deps: set<string>)
      modifies this
      ensures (c, deps, Snapshot()) == PostconditionConstraint(old(Snapshot()), pred, env)
    {
      var tree := env.parse(pred);
      if tree.None? {
        return None, {};
      }
      deps := {};
      c := AstToZ3Bool(tree.value, env.hash);
    }

    /** The body of the second loop for one item: preconditions, the code
        block, postconditions. */
    method ProcessOneItem(item: Item, env: Env)
      modifies this
      ensures Snapshot() == ProcessItem(old(Snapshot()), item, env)
    {
      if item.id == "" {
        return;
      }
      var id := item.id;
      ghost var s0 := Snapshot();
      for j := 0 to |item.precondition|
        invariant Snapshot() == Preconditions(s0, id, item.precondition[..j], env)
      {
        assert item.precondition[..j + 1][..j] == item.precondition[..j];
        var pred := item.precondition[j];
        if pred != "" {
          var c, deps := BuildPreconditionConstraint(pred, env);
          if c.Some? {
            constraints := constraints + [Implies(Visited(id), c.value)];
            itemDependencies := itemDependencies[id := Succ(itemDependencies, id) + deps];
          }
        }
      }
      assert item.precondition[..|item.precondition|] == item.precondition;
      if item.codeBlock != "" {
        ProcessCodeBlock(id, item.codeBlock, env);
      }
      ghost var s1 := Snapshot();
      for j := 0 to |item.postcondition|
        invariant Snapshot() == Postconditions(s1, id, item.postcondition[..j], env)
      {
        assert item.postcondition[..j + 1][..j] == item.postcondition[..j];
        var pred := item.postcondition[j];
        if pred != "" {
          var c, _ := BuildPostconditionConstraint(pred, env);
          if c.Some? {
            constraints := constraints + [Implies(Visited(id), c.value)];
          }
        }
      }
      assert item.postcondition[..|item.postcondition|] == item.postcondition;
    }

    /** `get_domain_base()`: B holds exactly when every domain constraint
        does; `True` when there is none. */
    function GetDomainBase(): (b: BoolTerm)
      reads this
      ensures forall m :: Holds(b, m) <==> AllHold(domainConstraints, m)
      ensures |domainConstraints| == 0 ==> b == BConst(true)
    {
      DomainBase(Snapshot())
    }

    /** `compile_conditions`: each predicate that parses and translates,
        conjoined; `True` when none does. */
    method CompileConditions(conds: seq<string>, env: Env) returns (b: BoolTerm)
      modifies this
      ensures (b, SsaOf(Snapshot())) == BuilderSpec.CompileConditions(old(Snapshot()), conds, env)
      ensures Snapshot() == WithSsa(old(Snapshot()), SsaOf(Snapshot()))
    {
      ghost var s0 := Snapshot();
      var compiled: seq<BoolTerm> := [];
      for i := 0 to |conds|
        invariant (compiled, SsaOf(Snapshot())) == CompilePredicates(SsaOf(s0), itemVars, conds[..i], env)
        invariant Snapshot() == WithSsa(s0, SsaOf(Snapshot()))
      {
        assert conds[..i + 1][..i] == conds[..i];
        var pred := conds[i];
        if pred != "" {
          var tree := env.parse(pred);
          if tree.Some? {
            var t := AstToZ3Bool(tree.value, env.hash);
            if t.Some? {
              compiled := compiled + [t.value];
            }
          }
        }
      }
      assert conds[..|conds|] == conds;
      b := AndAll(compiled);
    }
  }
}

/** What `StaticBuilder` computes, on values: the builder's fields as one
    record, and each pass of `_build_internal` as a function from the
    fields before to the fields after. The class in `Builder` is proved to
    perform exactly these steps. */
module BuilderSpec {
  import opened Wrappers
  import opened Smt
  import opened Graphs
  import A = PyAst
  import opened BuilderTerms

  datatype Control = Editbox | Slider | RadioButton | Dropdown | OtherControl

  /** An item of `get_all_items()`, as the builder reads it: its `id` (the
      empty string when missing or empty), `input.control`, `input.min`,
      `input.max`, the `value` of each of `input.options` (when it has
      one), the `predicate` of each precondition and postcondition (the
      empty string when missing), and `codeBlock`. */
  datatype Item = Item(
    id: string,
    control: Control,
    min: Option<int>,
    max: Option<int>,
    options: seq<Option<int>>,
    precondition: seq<string>,
    postcondition: seq<string>,
    codeBlock: string)

  /** `item_details[id]`. */
  datatype Details = Details(preconditions: seq<string>, postconditions: seq<string>, codeBlock: string)

  /** `ast.parse(..., mode='eval')` and `ast.parse(...)`, `None` for a
      syntax error; and Python's `hash` of a string. */
  datatype Env = Env(
    parse: string -> Option<A.Expr>,
    parseCode: string -> Option<seq<A.Stmt>>,
    hash: string -> int)

  /** The fields of a `StaticBuilder`; `z3Vars` and `itemVars` are the keys
      of the dictionaries (each value is the integer constant of that
      name). */
  datatype State = State(
    versionMap: map<string, nat>,
    versionHistory: map<string, seq<(nat, string)>>,
    z3Vars: set<string>,
    itemVars: set<string>,
    domainConstraints: seq<BoolTerm>,
    constraints: seq<BoolTerm>,
    itemDependencies: Graph,
    itemDetails: map<string, Details>,
    itemOrder: seq<string>)

  const Empty := State(map[], map[], {}, {}, [], [], map[], map[], [])

  const InitContext := "__init__"

  function SsaOf(s: State): Ssa {
    Ssa(s.versionMap, s.z3Vars)
  }

  /** `s` with the SSA part replaced. */
  function WithSsa(s: State, st: Ssa): State {
    s.(versionMap := st.versionMap, z3Vars := st.z3Vars)
  }

  /** `item_var >= 0`: the item was visited. */
  function Visited(id: string): BoolTerm {
    Compare(Ge, ItemVar(id), IConst(0))
  }

  // ---------------------------------------------------------------------
  // Domain constraints.

  /** The `value`s of the options, in order. */
  function OptionValues(opts: seq<Option<int>>): (vs: seq<int>)
    ensures forall v :: v in vs <==> Some(v) in opts
    ensures |vs| == 0 ==> forall i :: 0 <= i < |opts| ==> opts[i].None?
    decreases |opts|
  {
    if |opts| == 0 then []
    else
      var rest := OptionValues(opts[..|opts| - 1]);
      assert forall o :: o in opts <==> o in opts[..|opts| - 1] || o == opts[|opts| - 1] by {
        assert opts == opts[..|opts| - 1] + [opts[|opts| - 1]];
      }
      if opts[|opts| - 1].Some? then rest + [opts[|opts| - 1].value] else rest
  }

  /** The disjunction saying that `v` equals one of `vals`. */
  function OneOf(v: IntTerm, vals: seq<int>): BoolTerm {
    OrAll(seq(|vals|, i requires 0 <= i < |vals| => Compare(Eq, v, IConst(vals[i]))))
  }

  /** What `_extract_domain_constraints` appends for an item. */
  function DomainOf(id: string, item: Item): seq<BoolTerm> {
    var v := ItemVar(id);
    match item.control
    case Editbox | Slider =>
      (if item.min.Some? then [Compare(Ge, v, IConst(item.min.value))] else []) +
      (if item.max.Some? then [Compare(Le, v, IConst(item.max.value))] else [])
    case RadioButton | Dropdown =>
      var vals := OptionValues(item.options);
      if |vals| > 0 then [OneOf(v, vals)] else []
    case OtherControl => []
  }

  /** The values the item's control admits. */
  predicate InDomain(item: Item, x: int) {
    match item.control
    case Editbox | Slider =>
      (item.min.None? || item.min.value <= x) && (item.max.None? || x <= item.max.value)
    case RadioButton | Dropdown =>
      Some(x) in item.options || forall o :: o in item.options ==> o.None?
    case OtherControl => true
  }

  /** The domain constraints of an item hold exactly when its variable
      takes a value the control admits. */
  lemma AllHoldSingle(f: BoolTerm, m: Model)
    ensures AllHold([f], m) <==> Holds(f, m)
  {
    assert [f][0] == f;
  }

  lemma AllHoldNone(m: Model)
    ensures AllHold([], m)
  {
  }

  lemma ChoiceMeaning(id: string, opts: seq<Option<int>>, m: Model)
    requires |OptionValues(opts)| > 0
    ensures Holds(OneOf(ItemVar(id), OptionValues(opts)), m) <==> Some(m.ints("item_" + id)) in opts
  {
    var vals := OptionValues(opts);
    var x := m.ints("item_" + id);
    var cs := seq(|vals|, i requires 0 <= i < |vals| => Compare(Eq, ItemVar(id), IConst(vals[i])));
    assert OneOf(ItemVar(id), vals) == OrAll(cs);
    if Some(x) in opts {
      assert x in vals;
      var i :| 0 <= i < |vals| && vals[i] == x;
      assert Holds(cs[i], m);
    }
    if Holds(OrAll(cs), m) {
      var i :| 0 <= i < |cs| && Holds(cs[i], m);
      assert cs[i] == Compare(Eq, ItemVar(id), IConst(vals[i]));
      assert EvalInt(ItemVar(id), m) == x;
      assert Holds(cs[i], m) == (x == vals[i]);
      assert vals[i] in vals;
    }
  }

  /** The domain constraints of an item hold exactly when its variable
      takes a value the control admits. */
  lemma DomainMeaning(id: string, item: Item, m: Model)
    ensures AllHold(DomainOf(id, item), m) <==> InDomain(item, m.ints("item_" + id))
  {
    var x := m.ints("item_" + id);
    var c := item.control;
    if c == RadioButton || c == Dropdown {
      var vals := OptionValues(item.options);
      if |vals| > 0 {
        AllHoldSingle(OneOf(ItemVar(id), vals), m);
        ChoiceMeaning(id, item.options, m);
        assert vals[0] in vals;
      } else {
        AllHoldNone(m);
        forall o | o in item.options ensures o.None? {
          var i :| 0 <= i < |item.options| && item.options[i] == o;
        }
      }
    } else if c == Editbox || c == Slider {
      var lo: seq<BoolTerm> := if item.min.Some? then [Compare(Ge, ItemVar(id), IConst(item.min.value))] else [];
      var hi: seq<BoolTerm> := if item.max.Some? then [Compare(Le, ItemVar(id), IConst(item.max.value))] else [];
      assert DomainOf(id, item) == lo + hi;
      AllHoldConcat(lo, hi, m);
      if item.min.Some? {
        AllHoldSingle(lo[0], m);
      }
      if item.max.Some? {
        AllHoldSingle(hi[0], m);
      }
    }
  }

  // ---------------------------------------------------------------------
  // First pass: item variables, domains, details, order.

  function AddItem(s: State, item: Item): State {
    if item.id == "" then s
    else
      s.(itemVars := s.itemVars + {item.id},
         itemDependencies := s.itemDependencies[item.id := {}],
         domainConstraints := s.domainConstraints + DomainOf(item.id, item),
         itemDetails := s.itemDetails[item.id := Details(item.precondition, item.postcondition, item.codeBlock)],
         itemOrder := s.itemOrder + [item.id])
  }

  function FirstPass(s: State, items: seq<Item>): State
    decreases |items|
  {
    if |items| == 0 then s
    else AddItem(FirstPass(s, items[..|items| - 1]), items[|items| - 1])
  }

  // ---------------------------------------------------------------------
  // Code blocks.

  /** `_get_next_version`. */
  function NextVersion(vm: map<string, nat>, x: string): nat {
    if x in vm then vm[x] + 1 else 0
  }

  /** The constraint recorded for `x_v = value`: unconditional in the
      initialisation code, guarded by the item's visit otherwise. */
  function AssignConstraint(ctx: string, name: string, value: IntTerm): BoolTerm {
    if ctx != InitContext then Implies(Visited(ctx), Compare(Eq, IVar(name), value))
    else Compare(Eq, IVar(name), value)
  }

  /** The new version of `x`, recorded in `z3_vars`, `version_map` and
      `version_history`. */
  function Bump(s: State, ctx: string, x: string): State {
    var v := NextVersion(s.versionMap, x);
    var h := if x in s.versionHistory then s.versionHistory[x] else [];
    s.(z3Vars := s.z3Vars + {SsaName(x, v)},
       versionMap := s.versionMap[x := v],
       versionHistory := s.versionHistory[x := h + [(v, ctx)]])
  }

  /** The right-hand side translated in the bumped state, and its
      constraint when it translates. */
  function Record(s: State, ctx: string, name: string, value: A.Expr, hash: string -> int): State {
    var (t, st) := ToInt(value, SsaOf(s), s.itemVars, hash);
    var s1 := WithSsa(s, st);
    if t.Some? then s1.(constraints := s1.constraints + [AssignConstraint(ctx, name, t.value)]) else s1
  }

  /** One `Name` target of an assignment: a new version, recorded before
      the right-hand side is translated. */
  function AssignName(s: State, ctx: string, x: string, value: A.Expr, hash: string -> int): State {
    if x in s.itemVars then s
    else Record(Bump(s, ctx, x), ctx, SsaName(x, NextVersion(s.versionMap, x)), value, hash)
  }

  /** `for target in node.targets`. */
  function AssignTargets(s: State, ctx: string, targets: seq<A.Expr>, value: A.Expr, hash: string -> int): State
    decreases |targets|
  {
    if |targets| == 0 then s
    else
      var s1 := AssignTargets(s, ctx, targets[..|targets| - 1], value, hash);
      var t := targets[|targets| - 1];
      if t.Name? then AssignName(s1, ctx, t.id, value, hash) else s1
  }

  /** The `Assign` nodes of a code block, in walk order. */
  function RunAssigns(s: State, ctx: string, assigns: seq<A.Stmt>, hash: string -> int): State
    decreases |assigns|
  {
    if |assigns| == 0 then s
    else
      var s1 := RunAssigns(s, ctx, assigns[..|assigns| - 1], hash);
      var a := assigns[|assigns| - 1];
      if a.Assign? then AssignTargets(s1, ctx, a.targets, a.value, hash) else s1
  }

  /** `_process_code_block`: nothing at all on a syntax error. */
  function ProcessCode(s: State, ctx: string, code: string, env: Env): State {
    match env.parseCode(code)
    case None => s
    case Some(stmts) => RunAssigns(s, ctx, A.AssignsInWalk(stmts), env.hash)
  }

  // ---------------------------------------------------------------------
  // Pre- and postconditions.

  /** The items a precondition mentions, by name or as `id.outcome`. */
  function PredicateDeps(e: A.Expr, itemIds: set<string>): set<string> {
    A.NamesIn(e) * itemIds
  }

  /** `_build_precondition_constraint`: the translated predicate with the
      items it mentions; `(None, {})` on a syntax error. */
  function PreconditionConstraint(s: State, pred: string, env: Env): (Option<BoolTerm>, set<string>, State) {
    match env.parse(pred)
    case None => (None, {}, s)
    case Some(e) =>
      var (t, st) := ToBool(e, SsaOf(s), s.itemVars, env.hash);
      (t, PredicateDeps(e, s.itemVars), WithSsa(s, st))
  }

  /** `_build_postcondition_constraint`: never any dependency. */
  function PostconditionConstraint(s: State, pred: string, env: Env): (Option<BoolTerm>, set<string>, State) {
    match env.parse(pred)
    case None => (None, {}, s)
    case Some(e) =>
      var (t, st) := ToBool(e, SsaOf(s), s.itemVars, env.hash);
      (t, {}, WithSsa(s, st))
  }

  /** One precondition of item `id`. */
  function AddPrecondition(s: State, id: string, pred: string, env: Env): State {
    if pred == "" then s
    else
      var (c, deps, s1) := PreconditionConstraint(s, pred, env);
      if c.Some? then
        s1.(constraints := s1.constraints + [Implies(Visited(id), c.value)],
            itemDependencies := s1.itemDependencies[id := Succ(s1.itemDependencies, id) + deps])
      else s1
  }

  /** One postcondition of item `id`. */
  function AddPostcondition(s: State, id: string, pred: string, env: Env): State {
    if pred == "" then s
    else
      var (c, _, s1) := PostconditionConstraint(s, pred, env);
      if c.Some? then s1.(constraints := s1.constraints + [Implies(Visited(id), c.value)]) else s1
  }

  function Preconditions(s: State, id: string, preds: seq<string>, env: Env): State
    decreases |preds|
  {
    if |preds| == 0 then s
    else AddPrecondition(Preconditions(s, id, preds[..|preds| - 1], env), id, preds[|preds| - 1], env)
  }

  function Postconditions(s: State, id: string, preds: seq<string>, env: Env): State
    decreases |preds|
  {
    if |preds| == 0 then s
    else AddPostcondition(Postconditions(s, id, preds[..|preds| - 1], env), id, preds[|preds| - 1], env)
  }

  // ---------------------------------------------------------------------
  // Second pass and the whole build.

  /** Preconditions, then the code block, then postconditions. */
  function ProcessItem(s: State, item: Item, env: Env): State {
    if item.id == "" then s
    else
      var s1 := Preconditions(s, item.id, item.precondition, env);
      var s2 := if item.codeBlock != "" then ProcessCode(s1, item.id, item.codeBlock, env) else s1;
      Postconditions(s2, item.id, item.postcondition, env)
  }

  function SecondPass(s: State, items: seq<Item>, env: Env): State
    decreases |items|
  {
    if |items| == 0 then s
    else ProcessItem(SecondPass(s, items[..|items| - 1], env), items[|items| - 1], env)
  }

  /** The initialisation code, when there is any. */
  function InitPass(s: State, initCode: string, env: Env): State {
    if initCode != "" then ProcessCode(s, InitContext, initCode, env) else s
  }

  /** `_build_internal` from a fresh builder. */
  function Build(items: seq<Item>, initCode: string, env: Env): State {
    SecondPass(InitPass(FirstPass(Empty, items), initCode, env), items, env)
  }

  /** `get_domain_base()`. */
  function DomainBase(s: State): BoolTerm {
    AndAll(s.domainConstraints)
  }

  /** The predicates of `compile_conditions` that parse and translate, each
      in the state left by the previous one. */
  function CompilePredicates(st: Ssa, itemIds: set<string>, preds: seq<string>, env: Env): (seq<BoolTerm>, Ssa)
    decreases |preds|
  {
    if |preds| == 0 then ([], st)
    else
      var (ts, st1) := CompilePredicates(st, itemIds, preds[..|preds| - 1], env);
      var p := preds[|preds| - 1];
      if p == "" || env.parse(p).None? then (ts, st1)
      else
        var (t, st2) := ToBool(env.parse(p).value, st1, itemIds, env.hash);
        (if t.Some? then ts + [t.value] else ts, st2)
  }

  /** `compile_conditions`: `True` when nothing compiles, the one term, or
      the conjunction. */
  function CompileConditions(s: State, preds: seq<string>, env: Env): (BoolTerm, Ssa) {
    var (ts, st) := CompilePredicates(SsaOf(s), s.itemVars, preds, env);
    (AndAll(ts), st)
  }
}

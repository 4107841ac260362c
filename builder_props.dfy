/** Properties of the build: the first pass, the invariant every later
    step keeps (SSA versions and their history, item variables, the shape
    of the dependency map), dependency discovery, the self-referencing
    assignment, and `compile_conditions`. */
module BuilderProps {
  import opened Wrappers
  import opened Smt
  import opened Graphs
  import A = PyAst
  import opened BuilderTerms
  import opened BuilderSpec

  // ---------------------------------------------------------------------
  // First pass.

  /** The non-empty ids of the items, in order. */
  function IdsIn(items: seq<Item>): seq<string>
    decreases |items|
  {
    if |items| == 0 then []
    else
      var last := items[|items| - 1];
      IdsIn(items[..|items| - 1]) + (if last.id != "" then [last.id] else [])
  }

  /** The domain constraints of the items with an id, in order. */
  function Domains(items: seq<Item>): seq<BoolTerm>
    decreases |items|
  {
    if |items| == 0 then []
    else
      var last := items[|items| - 1];
      Domains(items[..|items| - 1]) + (if last.id != "" then DomainOf(last.id, last) else [])
  }

  /** After the first pass: one variable, one empty dependency set and one
      details entry per id, the ids in order, the domains of all items,
      and nothing else yet. */
  ghost predicate FirstPassOk(s: State, items: seq<Item>) {
    s.versionMap == map[] && s.versionHistory == map[] && s.z3Vars == {} && s.constraints == [] &&
    s.itemOrder == IdsIn(items) && s.itemVars == Elems(s.itemOrder) && s.itemDetails.Keys == s.itemVars &&
    s.itemDependencies == (map id | id in s.itemVars :: {}) && s.domainConstraints == Domains(items)
  }

  lemma AddItemOk(s: State, items: seq<Item>)
    requires |items| > 0 && FirstPassOk(s, items[..|items| - 1])
    ensures FirstPassOk(AddItem(s, items[|items| - 1]), items)
  {
    var last := items[|items| - 1];
    assert IdsIn(items) == s.itemOrder + (if last.id != "" then [last.id] else []);
    assert Domains(items) == s.domainConstraints + (if last.id != "" then DomainOf(last.id, last) else []);
    if last.id != "" {
      var s' := AddItem(s, last);
      ElemsConcat(s.itemOrder, [last.id]);
      assert s'.itemVars == Elems(s'.itemOrder);
      assert s'.itemDependencies == (map id | id in s'.itemVars :: {});
    }
  }

  lemma {:induction false} FirstPassFacts(items: seq<Item>)
    ensures FirstPassOk(FirstPass(Empty, items), items)
    decreases |items|
  {
    if |items| > 0 {
      FirstPassFacts(items[..|items| - 1]);
      AddItemOk(FirstPass(Empty, items[..|items| - 1]), items);
    }
  }

  // ---------------------------------------------------------------------
  // The invariant of the later passes.

  /** A variable's history: versions one apart, starting at 0 (or at 1
      when the name was read before its first assignment), ending at the
      current version. */
  predicate HistoryShape(h: seq<(nat, string)>, cur: nat) {
    |h| > 0 && h[0].0 <= 1 && h[|h| - 1].0 == cur &&
    forall i :: 0 <= i < |h| - 1 ==> h[i + 1].0 == h[i].0 + 1
  }

  /** Every assigned name has its history; a name only ever read is at
      version 0. */
  ghost predicate HistoryOk(s: State) {
    (forall x :: x in s.versionHistory ==> x in s.versionMap && HistoryShape(s.versionHistory[x], s.versionMap[x])) &&
    (forall x :: x in s.versionMap && x !in s.versionHistory ==> s.versionMap[x] == 0)
  }

  /** Every version was made by the initialisation code or an item. */
  ghost predicate ContextsOk(s: State) {
    forall x, i :: x in s.versionHistory && 0 <= i < |s.versionHistory[x]| ==>
      s.versionHistory[x][i].1 == InitContext || s.versionHistory[x][i].1 in s.itemVars
  }

  /** One dependency set per item, naming items only. */
  ghost predicate DepsInItems(s: State) {
    s.itemDependencies.Keys == s.itemVars &&
    forall id :: id in s.itemDependencies ==> s.itemDependencies[id] <= s.itemVars
  }

  ghost predicate Inv(s: State) {
    "" !in s.itemVars && s.versionMap.Keys !! s.itemVars && Coherent(SsaOf(s)) && HistoryOk(s) && ContextsOk(s) && DepsInItems(s)
  }

  /** Counting back from the current version, one per assignment. */
  lemma {:induction false} HistoryDistance(h: seq<(nat, string)>, cur: nat, i: int)
    requires HistoryShape(h, cur) && 0 <= i < |h|
    ensures h[i].0 + (|h| - 1 - i) == cur
    decreases |h| - i
  {
    if i < |h| - 1 {
      HistoryDistance(h, cur, i + 1);
    }
  }

  /** Every recorded version is at most the current one, and the versions
      were handed out without gaps from 0 or 1. */
  lemma HistoryBelow(h: seq<(nat, string)>, cur: nat)
    requires HistoryShape(h, cur)
    ensures forall i :: 0 <= i < |h| ==> h[i].0 <= cur
    ensures cur <= |h|
  {
    forall i | 0 <= i < |h| ensures h[i].0 <= cur {
      HistoryDistance(h, cur, i);
    }
    HistoryDistance(h, cur, 0);
  }

  lemma FirstPassInv(items: seq<Item>)
    ensures Inv(FirstPass(Empty, items))
  {
    FirstPassFacts(items);
  }

  /** Writing back the state of a translation keeps the invariant. */
  lemma InvWithSsa(s: State, st: Ssa)
    requires Inv(s) && Grows(SsaOf(s), st) && Coherent(st) && NewKeysOutside(SsaOf(s), st, s.itemVars)
    ensures Inv(WithSsa(s, st))
  {
  }

  lemma InvAfterInt(s: State, e: A.Expr, hash: string -> int)
    requires Inv(s)
    ensures Inv(WithSsa(s, ToInt(e, SsaOf(s), s.itemVars, hash).1))
  {
    IntFacts(e, SsaOf(s), s.itemVars, hash);
    InvWithSsa(s, ToInt(e, SsaOf(s), s.itemVars, hash).1);
  }

  lemma InvAfterBool(s: State, e: A.Expr, hash: string -> int)
    requires Inv(s)
    ensures Inv(WithSsa(s, ToBool(e, SsaOf(s), s.itemVars, hash).1))
  {
    BoolFacts(e, SsaOf(s), s.itemVars, hash);
    InvWithSsa(s, ToBool(e, SsaOf(s), s.itemVars, hash).1);
  }

  /** Recording a new version of `x` keeps the history well formed. */
  lemma BumpHistory(s: State, ctx: string, x: string)
    requires HistoryOk(s)
    ensures HistoryOk(Bump(s, ctx, x))
  {
    var v := NextVersion(s.versionMap, x);
    var h := if x in s.versionHistory then s.versionHistory[x] else [];
    assert HistoryShape(h + [(v, ctx)], v) by {
      if x in s.versionHistory {
        assert HistoryShape(h, s.versionMap[x]);
      }
    }
  }

  lemma BumpContexts(s: State, ctx: string, x: string)
    requires ContextsOk(s) && (ctx == InitContext || ctx in s.itemVars)
    ensures ContextsOk(Bump(s, ctx, x))
  {
    var h := if x in s.versionHistory then s.versionHistory[x] else [];
    var s' := Bump(s, ctx, x);
    forall y, i | y in s'.versionHistory && 0 <= i < |s'.versionHistory[y]|
      ensures s'.versionHistory[y][i].1 == InitContext || s'.versionHistory[y][i].1 in s'.itemVars
    {
      if y == x && i < |h| {
        assert s'.versionHistory[y][i] == h[i];
      }
    }
  }

  lemma BumpCoherent(s: State, ctx: string, x: string)
    requires Coherent(SsaOf(s))
    ensures Coherent(SsaOf(Bump(s, ctx, x)))
  {
  }

  lemma InvBump(s: State, ctx: string, x: string)
    requires Inv(s) && x !in s.itemVars && (ctx == InitContext || ctx in s.itemVars)
    ensures Inv(Bump(s, ctx, x))
  {
    BumpHistory(s, ctx, x);
    BumpContexts(s, ctx, x);
    BumpCoherent(s, ctx, x);
  }

  lemma InvRecord(s: State, ctx: string, name: string, value: A.Expr, hash: string -> int)
    requires Inv(s)
    ensures Keeps(s, Record(s, ctx, name, value, hash))
  {
    InvAfterInt(s, value, hash);
  }

  lemma InvAssignName(s: State, ctx: string, x: string, value: A.Expr, hash: string -> int)
    requires Inv(s) && (ctx == InitContext || ctx in s.itemVars)
    ensures Keeps(s, AssignName(s, ctx, x, value, hash))
  {
    if x !in s.itemVars {
      InvBump(s, ctx, x);
      InvRecord(Bump(s, ctx, x), ctx, SsaName(x, NextVersion(s.versionMap, x)), value, hash);
    }
  }

  /** The fields only the first pass writes. */
  predicate Fixed(s: State, s': State) {
    s'.itemVars == s.itemVars && s'.itemOrder == s.itemOrder &&
    s'.domainConstraints == s.domainConstraints && s'.itemDetails == s.itemDetails
  }

  /** A step that keeps the invariant, the items, and the dependencies. */
  ghost predicate Keeps(s: State, s': State) {
    Inv(s') && Fixed(s, s') && s'.itemDependencies == s.itemDependencies
  }

  lemma {:induction false} InvAssignTargets(s: State, ctx: string, targets: seq<A.Expr>, value: A.Expr, hash: string -> int)
    requires Inv(s) && (ctx == InitContext || ctx in s.itemVars)
    ensures Keeps(s, AssignTargets(s, ctx, targets, value, hash))
    decreases |targets|
  {
    if |targets| > 0 {
      var s1 := AssignTargets(s, ctx, targets[..|targets| - 1], value, hash);
      InvAssignTargets(s, ctx, targets[..|targets| - 1], value, hash);
      var t := targets[|targets| - 1];
      if t.Name? {
        InvAssignName(s1, ctx, t.id, value, hash);
      }
    }
  }

  lemma {:induction false} InvRunAssigns(s: State, ctx: string, assigns: seq<A.Stmt>, hash: string -> int)
    requires Inv(s) && (ctx == InitContext || ctx in s.itemVars)
    ensures Keeps(s, RunAssigns(s, ctx, assigns, hash))
    decreases |assigns|
  {
    if |assigns| > 0 {
      var s1 := RunAssigns(s, ctx, assigns[..|assigns| - 1], hash);
      InvRunAssigns(s, ctx, assigns[..|assigns| - 1], hash);
      var a := assigns[|assigns| - 1];
      if a.Assign? {
        InvAssignTargets(s1, ctx, a.targets, a.value, hash);
      }
    }
  }

  /** A code block changes neither the items nor their dependencies. */
  lemma InvProcessCode(s: State, ctx: string, code: string, env: Env)
    requires Inv(s) && (ctx == InitContext || ctx in s.itemVars)
    ensures Keeps(s, ProcessCode(s, ctx, code, env))
  {
    if env.parseCode(code).Some? {
      InvRunAssigns(s, ctx, A.AssignsInWalk(env.parseCode(code).value), env.hash);
    }
  }

  /** A postcondition never adds a dependency. */
  lemma InvAddPostcondition(s: State, id: string, pred: string, env: Env)
    requires Inv(s)
    ensures Keeps(s, AddPostcondition(s, id, pred, env))
  {
    if pred != "" && env.parse(pred).Some? {
      InvAfterBool(s, env.parse(pred).value, env.hash);
    }
  }

  lemma {:induction false} InvPostconditions(s: State, id: string, preds: seq<string>, env: Env)
    requires Inv(s)
    ensures Keeps(s, Postconditions(s, id, preds, env))
    decreases |preds|
  {
    if |preds| > 0 {
      InvPostconditions(s, id, preds[..|preds| - 1], env);
      InvAddPostcondition(Postconditions(s, id, preds[..|preds| - 1], env), id, preds[|preds| - 1], env);
    }
  }

  // ---------------------------------------------------------------------
  // Dependencies.

  /** The items a precondition adds as dependencies: those it mentions,
      when it parses and translates. */
  function PreDeps(p: string, itemIds: set<string>, env: Env): set<string> {
    if p != "" && env.parse(p).Some? && BoolTranslates(env.parse(p).value, itemIds)
    then PredicateDeps(env.parse(p).value, itemIds)
    else {}
  }

  function PredsDeps(preds: seq<string>, itemIds: set<string>, env: Env): set<string>
    decreases |preds|
  {
    if |preds| == 0 then {}
    else PredsDeps(preds[..|preds| - 1], itemIds, env) + PreDeps(preds[|preds| - 1], itemIds, env)
  }

  /** The dependencies the preconditions of all items with id `id`
      declare. */
  function ItemsDeps(items: seq<Item>, id: string, itemIds: set<string>, env: Env): set<string>
    decreases |items|
  {
    if |items| == 0 then {}
    else
      var last := items[|items| - 1];
      ItemsDeps(items[..|items| - 1], id, itemIds, env) + (if last.id == id then PredsDeps(last.precondition, itemIds, env) else {})
  }

  /** `s'` is `s` with `more` added to the dependencies of `id`. */
  ghost predicate AddsDeps(s: State, s': State, id: string, more: set<string>) {
    Inv(s') && Fixed(s, s') &&
    s'.itemDependencies == s.itemDependencies[id := Succ(s.itemDependencies, id) + more]
  }

  lemma InvAddPrecondition(s: State, id: string, pred: string, env: Env)
    requires Inv(s) && id in s.itemVars
    ensures AddsDeps(s, AddPrecondition(s, id, pred, env), id, PreDeps(pred, s.itemVars, env))
  {
    if pred != "" && env.parse(pred).Some? {
      var e := env.parse(pred).value;
      InvAfterBool(s, e, env.hash);
      BoolTranslatesExactly(e, SsaOf(s), s.itemVars, env.hash);
    }
    if PreDeps(pred, s.itemVars, env) == {} {
      var d := s.itemDependencies;
      assert id in d && Succ(d, id) + {} == d[id];
      assert d[id := d[id]] == d;
    }
  }

  lemma AddsDepsTrans(s: State, s1: State, s2: State, id: string, a: set<string>, b: set<string>)
    requires AddsDeps(s, s1, id, a) && AddsDeps(s1, s2, id, b)
    ensures AddsDeps(s, s2, id, a + b)
  {
    assert Succ(s1.itemDependencies, id) == Succ(s.itemDependencies, id) + a;
    var d := s.itemDependencies;
    var m2 := d[id := Succ(d, id) + a][id := Succ(d, id) + a + b];
    assert s2.itemDependencies == m2;
    assert m2.Keys == d[id := Succ(d, id) + (a + b)].Keys;
    assert forall k :: k in m2 ==> m2[k] == d[id := Succ(d, id) + (a + b)][k];
  }

  lemma {:induction false} InvPreconditions(s: State, id: string, preds: seq<string>, env: Env)
    requires Inv(s) && id in s.itemVars
    ensures AddsDeps(s, Preconditions(s, id, preds, env), id, PredsDeps(preds, s.itemVars, env))
    decreases |preds|
  {
    if |preds| == 0 {
      var d := s.itemDependencies;
      assert id in d && Succ(d, id) + {} == d[id];
      assert d[id := d[id]] == d;
    } else {
      var s1 := Preconditions(s, id, preds[..|preds| - 1], env);
      InvPreconditions(s, id, preds[..|preds| - 1], env);
      InvAddPrecondition(s1, id, preds[|preds| - 1], env);
      AddsDepsTrans(s, s1, AddPrecondition(s1, id, preds[|preds| - 1], env), id,
        PredsDeps(preds[..|preds| - 1], s.itemVars, env), PreDeps(preds[|preds| - 1], s.itemVars, env));
    }
  }

  lemma InvProcessItem(s: State, item: Item, env: Env)
    requires Inv(s) && (item.id == "" || item.id in s.itemVars)
    ensures item.id == "" ==> ProcessItem(s, item, env) == s
    ensures item.id != "" ==> AddsDeps(s, ProcessItem(s, item, env), item.id, PredsDeps(item.precondition, s.itemVars, env))
  {
    if item.id != "" {
      var s1 := Preconditions(s, item.id, item.precondition, env);
      InvPreconditions(s, item.id, item.precondition, env);
      var s2 := if item.codeBlock != "" then ProcessCode(s1, item.id, item.codeBlock, env) else s1;
      if item.codeBlock != "" {
        InvProcessCode(s1, item.id, item.codeBlock, env);
      }
      InvPostconditions(s2, item.id, item.postcondition, env);
    }
  }

  /** Every id of `items` is an item of `s`. */
  predicate IdsKnown(s: State, items: seq<Item>) {
    forall k :: 0 <= k < |items| && items[k].id != "" ==> items[k].id in s.itemVars
  }

  /** The second pass adds to each item the dependencies its
      preconditions declare. */
  ghost predicate SecondPassOk(s: State, s': State, items: seq<Item>, env: Env) {
    Inv(s') && Fixed(s, s') &&
    forall id :: id in s.itemVars ==> Succ(s'.itemDependencies, id) == Succ(s.itemDependencies, id) + ItemsDeps(items, id, s.itemVars, env)
  }

  lemma {:induction false} InvSecondPass(s: State, items: seq<Item>, env: Env)
    requires Inv(s) && IdsKnown(s, items)
    ensures SecondPassOk(s, SecondPass(s, items, env), items, env)
    decreases |items|
  {
    if |items| > 0 {
      var init := items[..|items| - 1];
      var last := items[|items| - 1];
      var s1 := SecondPass(s, init, env);
      InvSecondPass(s, init, env);
      assert IdsKnown(s1, [last]);
      InvProcessItem(s1, last, env);
      SecondPassStep(s, s1, ProcessItem(s1, last, env), items, env);
    }
  }

  lemma SecondPassStep(s: State, s1: State, s2: State, items: seq<Item>, env: Env)
    requires |items| > 0 && SecondPassOk(s, s1, items[..|items| - 1], env)
    requires var last := items[|items| - 1];
      if last.id == "" then s2 == s1 else AddsDeps(s1, s2, last.id, PredsDeps(last.precondition, s1.itemVars, env))
    ensures SecondPassOk(s, s2, items, env)
  {
    var last := items[|items| - 1];
    forall id | id in s.itemVars
      ensures Succ(s2.itemDependencies, id) == Succ(s.itemDependencies, id) + ItemsDeps(items, id, s.itemVars, env)
    {
      assert ItemsDeps(items, id, s.itemVars, env) ==
        ItemsDeps(items[..|items| - 1], id, s.itemVars, env) + (if last.id == id then PredsDeps(last.precondition, s.itemVars, env) else {});
      if last.id != "" {
        assert s1.itemVars == s.itemVars;
        if id == last.id {
          assert Succ(s2.itemDependencies, id) == Succ(s1.itemDependencies, id) + PredsDeps(last.precondition, s.itemVars, env);
        } else {
          assert Succ(s2.itemDependencies, id) == Succ(s1.itemDependencies, id);
        }
      }
    }
  }

  lemma InvInitPass(s: State, initCode: string, env: Env)
    requires Inv(s)
    ensures Keeps(s, InitPass(s, initCode, env))
  {
    if initCode != "" {
      InvProcessCode(s, InitContext, initCode, env);
    }
  }

  /** What `_build_internal` leaves: the invariant, one variable per id in
      declaration order, the domains of all items, and for each item
      exactly the items its preconditions mention (in a precondition that
      parses and translates); postconditions and code blocks add none. */
  ghost predicate Built(s: State, items: seq<Item>, env: Env) {
    Inv(s) && s.itemOrder == IdsIn(items) && s.itemVars == Elems(s.itemOrder) &&
    s.domainConstraints == Domains(items) && s.itemDetails.Keys == s.itemVars &&
    forall id :: id in s.itemVars ==> s.itemDependencies[id] == ItemsDeps(items, id, s.itemVars, env)
  }

  lemma IdsInElems(items: seq<Item>, k: nat)
    requires k < |items| && items[k].id != ""
    ensures items[k].id in Elems(IdsIn(items))
    decreases |items|
  {
    var init := items[..|items| - 1];
    var last := items[|items| - 1];
    ElemsConcat(IdsIn(init), if last.id != "" then [last.id] else []);
    if k < |items| - 1 {
      assert init[k] == items[k];
      IdsInElems(init, k);
    }
  }

  lemma BuildFacts(items: seq<Item>, initCode: string, env: Env)
    ensures Built(Build(items, initCode, env), items, env)
  {
    var s0 := FirstPass(Empty, items);
    FirstPassFacts(items);
    FirstPassInv(items);
    var s1 := InitPass(s0, initCode, env);
    InvInitPass(s0, initCode, env);
    forall k | 0 <= k < |items| && items[k].id != "" ensures items[k].id in s1.itemVars {
      IdsInElems(items, k);
    }
    InvSecondPass(s1, items, env);
  }

  // ---------------------------------------------------------------------
  // The domain base.

  /** The item's variable lies in its control's domain (items without an
      id add no constraint). */
  ghost predicate ItemInDomain(item: Item, m: Model) {
    item.id != "" ==> InDomain(item, m.ints("item_" + item.id))
  }

  /** B holds exactly when every item's variable lies in its control's
      domain. */
  lemma {:induction false} DomainsMeaning(items: seq<Item>, m: Model)
    ensures AllHold(Domains(items), m) <==> forall k :: 0 <= k < |items| ==> ItemInDomain(items[k], m)
    decreases |items|
  {
    if |items| > 0 {
      var init := items[..|items| - 1];
      var last := items[|items| - 1];
      var d := if last.id != "" then DomainOf(last.id, last) else [];
      assert Domains(items) == Domains(init) + d;
      DomainsMeaning(init, m);
      AllHoldConcat(Domains(init), d, m);
      assert AllHold(d, m) <==> ItemInDomain(last, m) by {
        if last.id != "" {
          DomainMeaning(last.id, last, m);
        }
      }
      assert (forall k :: 0 <= k < |items| ==> ItemInDomain(items[k], m)) <==>
        (forall k :: 0 <= k < |init| ==> ItemInDomain(init[k], m)) && ItemInDomain(last, m) by {
        assert forall k :: 0 <= k < |init| ==> init[k] == items[k];
      }
    }
  }

  lemma BaseMeaning(items: seq<Item>, initCode: string, env: Env, m: Model)
    ensures Holds(DomainBase(Build(items, initCode, env)), m) <==>
      forall k :: 0 <= k < |items| ==> ItemInDomain(items[k], m)
  {
    BuildFacts(items, initCode, env);
    DomainsMeaning(items, m);
  }

  // ---------------------------------------------------------------------
  // A name assigned from itself.

  /** `x = x + 1` reads the version it creates: the recorded constraint is
      `x_v == x_v + 1`, which no model satisfies; in an item's code block it
      only holds when the item is not visited. */
  lemma SelfReference(s: State, ctx: string, x: string, hash: string -> int)
    requires Inv(s) && x !in s.itemVars
    ensures
      var n := SsaName(x, NextVersion(s.versionMap, x));
      var c := AssignConstraint(ctx, n, Add(IVar(n), IConst(1)));
      AssignName(s, ctx, x, A.BinOp(A.Name(x), A.OpAdd, A.Const(A.CInt(1))), hash).constraints == s.constraints + [c] &&
      forall m :: Holds(c, m) <==> ctx != InitContext && !Holds(Visited(ctx), m)
  {
    var n := SsaName(x, NextVersion(s.versionMap, x));
    var b := Bump(s, ctx, x);
    var rhs := A.BinOp(A.Name(x), A.OpAdd, A.Const(A.CInt(1)));
    assert x in b.versionMap && b.versionMap[x] == NextVersion(s.versionMap, x);
    assert n in b.z3Vars && x !in b.itemVars;
    assert ToInt(A.Name(x), SsaOf(b), b.itemVars, hash) == (Some(IVar(n)), SsaOf(b));
    assert ToInt(A.Const(A.CInt(1)), SsaOf(b), b.itemVars, hash) == (Some(IConst(1)), SsaOf(b));
    assert ToInt(rhs, SsaOf(b), b.itemVars, hash) == (Some(Add(IVar(n), IConst(1))), SsaOf(b));
    assert AssignName(s, ctx, x, rhs, hash) == Record(b, ctx, n, rhs, hash);
    forall m: Model ensures !Holds(Compare(Eq, IVar(n), Add(IVar(n), IConst(1))), m) {
      assert EvalInt(Add(IVar(n), IConst(1)), m) == EvalInt(IVar(n), m) + 1;
    }
  }

  // ---------------------------------------------------------------------
  // `compile_conditions`.

  /** A predicate that parses and translates in `st`. */
  ghost predicate Compiles(p: string, st: Ssa, itemIds: set<string>, env: Env) {
    p != "" && env.parse(p).Some? && ToBool(env.parse(p).value, st, itemIds, env.hash).0.Some?
  }

  /** The predicates that compile, each translated on its own in `st`. */
  function EachPredicate(st: Ssa, itemIds: set<string>, preds: seq<string>, env: Env): seq<BoolTerm>
    decreases |preds|
  {
    if |preds| == 0 then []
    else
      var p := preds[|preds| - 1];
      EachPredicate(st, itemIds, preds[..|preds| - 1], env) +
        (if p != "" && env.parse(p).Some? && ToBool(env.parse(p).value, st, itemIds, env.hash).0.Some?
         then [ToBool(env.parse(p).value, st, itemIds, env.hash).0.value] else [])
  }

  ghost predicate CompileOk(st: Ssa, itemIds: set<string>, preds: seq<string>, env: Env) {
    var r := CompilePredicates(st, itemIds, preds, env);
    r.0 == EachPredicate(st, itemIds, preds, env) && Grows(st, r.1) && Coherent(r.1) && NewKeysOutside(st, r.1, itemIds)
  }

  /** Compiling the predicates one after another gives what compiling each
      alone gives. */
  lemma {:induction false} CompileEach(st: Ssa, itemIds: set<string>, preds: seq<string>, env: Env)
    requires Coherent(st)
    ensures CompileOk(st, itemIds, preds, env)
    decreases |preds|
  {
    if |preds| > 0 {
      var init := preds[..|preds| - 1];
      CompileEach(st, itemIds, init, env);
      var st1 := CompilePredicates(st, itemIds, init, env).1;
      var p := preds[|preds| - 1];
      if p != "" && env.parse(p).Some? {
        var e := env.parse(p).value;
        SameLookupRefl(st, itemIds);
        SameAfterGrowth(st, st1, st, st, itemIds);
        BoolAlike(e, st1, st, itemIds, env.hash);
        BoolFacts(e, st1, itemIds, env.hash);
        GrowsTrans(st, st1, ToBool(e, st1, itemIds, env.hash).1);
      }
    }
  }

  lemma {:induction false} EachPredicateMembers(st: Ssa, itemIds: set<string>, preds: seq<string>, env: Env)
    ensures forall t :: t in EachPredicate(st, itemIds, preds, env) <==>
      exists j :: 0 <= j < |preds| && Compiles(preds[j], st, itemIds, env) && t == ToBool(env.parse(preds[j]).value, st, itemIds, env.hash).0.value
    decreases |preds|
  {
    if |preds| > 0 {
      var init := preds[..|preds| - 1];
      EachPredicateMembers(st, itemIds, init, env);
      assert forall j :: 0 <= j < |init| ==> init[j] == preds[j];
    }
  }

  lemma {:induction false} EachPredicateNone(st: Ssa, itemIds: set<string>, preds: seq<string>, env: Env)
    ensures (forall j :: 0 <= j < |preds| ==> !Compiles(preds[j], st, itemIds, env)) ==> EachPredicate(st, itemIds, preds, env) == []
    decreases |preds|
  {
    if |preds| > 0 {
      EachPredicateNone(st, itemIds, preds[..|preds| - 1], env);
    }
  }

  /** The compiled conditions hold exactly when every predicate that
      compiles holds; an empty list, or one where nothing compiles, gives
      `True`. */
  lemma CompileConditionsMeaning(s: State, preds: seq<string>, env: Env, m: Model)
    requires Coherent(SsaOf(s))
    ensures Holds(CompileConditions(s, preds, env).0, m) <==>
      forall j :: 0 <= j < |preds| && Compiles(preds[j], SsaOf(s), s.itemVars, env) ==>
        Holds(ToBool(env.parse(preds[j]).value, SsaOf(s), s.itemVars, env.hash).0.value, m)
  {
    var st := SsaOf(s);
    CompileEach(st, s.itemVars, preds, env);
    EachPredicateMembers(st, s.itemVars, preds, env);
    var ts := EachPredicate(st, s.itemVars, preds, env);
    if Holds(AndAll(ts), m) {
      forall j | 0 <= j < |preds| && Compiles(preds[j], st, s.itemVars, env)
        ensures Holds(ToBool(env.parse(preds[j]).value, st, s.itemVars, env.hash).0.value, m)
      {
        var t := ToBool(env.parse(preds[j]).value, st, s.itemVars, env.hash).0.value;
        assert t in ts;
      }
    }
    if forall j :: 0 <= j < |preds| && Compiles(preds[j], st, s.itemVars, env) ==>
        Holds(ToBool(env.parse(preds[j]).value, st, s.itemVars, env.hash).0.value, m) {
      forall i | 0 <= i < |ts| ensures Holds(ts[i], m) {
        assert ts[i] in ts;
      }
    }
  }

  /** When no predicate compiles, the result is `True`. */
  lemma CompileNothing(s: State, preds: seq<string>, env: Env)
    requires Coherent(SsaOf(s))
    ensures (forall j :: 0 <= j < |preds| ==> !Compiles(preds[j], SsaOf(s), s.itemVars, env)) ==>
      CompileConditions(s, preds, env).0 == BConst(true)
  {
    CompileEach(SsaOf(s), s.itemVars, preds, env);
    EachPredicateNone(SsaOf(s), s.itemVars, preds, env);
  }

  /** What `compile_conditions` returns does not depend on what was
      compiled before it: a later call gives the same term. */
  lemma CompileOrderFree(s: State, st: Ssa, preds: seq<string>, env: Env)
    requires Coherent(SsaOf(s)) && Coherent(st) && Grows(SsaOf(s), st)
    ensures CompileConditions(WithSsa(s, st), preds, env).0 == CompileConditions(s, preds, env).0
  {
    CompileEach(SsaOf(s), s.itemVars, preds, env);
    CompileEach(st, s.itemVars, preds, env);
    SameLookupRefl(SsaOf(s), s.itemVars);
    SameAfterGrowth(SsaOf(s), st, SsaOf(s), SsaOf(s), s.itemVars);
    EachAlike(st, SsaOf(s), s.itemVars, preds, env);
  }

  lemma {:induction false} EachAlike(st1: Ssa, st2: Ssa, itemIds: set<string>, preds: seq<string>, env: Env)
    requires Coherent(st1) && Coherent(st2) && SameLookup(st1, st2, itemIds)
    ensures EachPredicate(st1, itemIds, preds, env) == EachPredicate(st2, itemIds, preds, env)
    decreases |preds|
  {
    if |preds| > 0 {
      EachAlike(st1, st2, itemIds, preds[..|preds| - 1], env);
      var p := preds[|preds| - 1];
      if p != "" && env.parse(p).Some? {
        BoolAlike(env.parse(p).value, st1, st2, itemIds, env.hash);
      }
    }
  }
}

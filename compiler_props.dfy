/** Properties of the `PragmaticZ3Compiler` translation, one statement kind
    at a time: what an assignment binds and constrains, where an augmented
    assignment starts, what the merge after an `if` means, and which loops
    are unrolled. */
module PragmaticProps {
  import opened Wrappers
  import opened Smt
  import opened Strings
  import A = PyAst
  import opened Pragmatic

  /** The value an expression compiles to in an environment, when it does. */
  function Rhs(ctx: Ctx, env: Env, e: A.Expr): Value
    requires CompileExpr(ctx, env, e).Ok?
  {
    CompileExpr(ctx, env, e).value.0
  }

  // ---------------------------------------------------------------------
  // Assignment

  /** `x = e` with a term on the right binds `x` to a fresh variable named
      `{item}_{x}_{gen}` of the right-hand side's sort, adds exactly the one
      constraint `var == rhs`, and advances the generation by one. */
  lemma AssignBindsFreshVariable(ctx: Ctx, s: CState, x: string, value: A.Expr)
    requires CompileExpr(ctx, s.env, value).Ok? && IsTerm(Rhs(ctx, s.env, value))
    ensures var rhs := Rhs(ctx, s.env, value);
      var name := SsaName(s.itemId, x, s.gen);
      var r := ExecAssign(ctx, s, [A.Name(x)], value);
      r.Ok? && r.value.gen == s.gen + 1 && r.value.itemId == s.itemId &&
      r.value.env == CompileExpr(ctx, s.env, value).value.1[x := r.value.env[x]] &&
      r.value.env[x] == (if rhs.BoolV? then BoolV(BVar(name)) else IntV(IVar(name))) &&
      r.value.constraints[..|s.constraints|] == s.constraints &&
      |r.value.constraints| == |s.constraints| + 1 &&
      forall m :: Holds(r.value.constraints[|s.constraints|], m) <==> Num(r.value.env[x], m) == Num(rhs, m)
  {
    var r := ExecAssign(ctx, s, [A.Name(x)], value);
    assert r.value.constraints[..|s.constraints|] == s.constraints;
  }

  /** `x = [..]` stores the list itself: no variable, no constraint, and the
      generation is unchanged. */
  lemma AssignListStoresList(ctx: Ctx, s: CState, x: string, value: A.Expr)
    requires CompileExpr(ctx, s.env, value).Ok? && Rhs(ctx, s.env, value).ListV?
    ensures ExecAssign(ctx, s, [A.Name(x)], value) ==
      Ok(s.(env := CompileExpr(ctx, s.env, value).value.1[x := Rhs(ctx, s.env, value)]))
  {
  }

  /** `a, b = ...` and `a = b = ...` raise before anything is compiled. */
  lemma AssignNeedsOneTarget(ctx: Ctx, s: CState, targets: seq<A.Expr>, value: A.Expr)
    requires |targets| != 1
    ensures ExecAssign(ctx, s, targets, value) == Err(MultipleTargets)
  {
  }

  /** `x.outcome = e` binds `S_x` to its `z3var_func` variable and adds
      `S_x == int(e)`, leaving the generation alone. */
  lemma AssignOutcome(ctx: Ctx, s: CState, x: string, value: A.Expr)
    requires CompileExpr(ctx, s.env, value).Ok? && IsTerm(Rhs(ctx, s.env, value))
    ensures var r := ExecAssign(ctx, s, [A.Outcome(x)], value);
      r.Ok? && r.value.gen == s.gen &&
      r.value.env == CompileExpr(ctx, s.env, value).value.1["S_" + x := MkVar(ctx, "S_" + x)] &&
      |r.value.constraints| == |s.constraints| + 1 &&
      forall m :: Holds(r.value.constraints[|s.constraints|], m) <==>
        Num(MkVar(ctx, "S_" + x), m) == Num(Rhs(ctx, s.env, value), m)
  {
  }

  // ---------------------------------------------------------------------
  // Augmented assignment

  /** `x op= e` on a name that is unbound starts from the literal 0: the
      result is a fresh `z3var_func` variable equal to `0 op int(e)`. */
  lemma AugAssignUnboundStartsAtZero(ctx: Ctx, s: CState, x: string, op: A.BinOperator, value: A.Expr)
    requires x !in s.env && op in AugOps()
    requires CompileExpr(ctx, s.env, value).Ok? && IsTerm(Rhs(ctx, s.env, value))
    ensures var r := ExecAugAssign(ctx, s, A.Name(x), op, value);
      var mv := MkVar(ctx, SsaName(s.itemId, x, s.gen));
      r.Ok? && r.value.gen == s.gen + 1 && r.value.env[x] == mv &&
      forall m :: Holds(r.value.constraints[|s.constraints|], m) <==>
        Num(mv, m) == EvalInt(ArithAsWritten(op, IConst(0), ToInt(Rhs(ctx, s.env, value)).i), m)
  {
  }

  /** `x op= e` on a bound integer or boolean name combines its current value
      with `e` as integers. */
  lemma AugAssignBound(ctx: Ctx, s: CState, x: string, op: A.BinOperator, value: A.Expr)
    requires x in s.env && IsTerm(s.env[x]) && op in AugOps()
    requires CompileExpr(ctx, s.env, value).Ok? && IsTerm(Rhs(ctx, s.env, value))
    ensures var r := ExecAugAssign(ctx, s, A.Name(x), op, value);
      var mv := MkVar(ctx, SsaName(s.itemId, x, s.gen));
      r.Ok? && r.value.gen == s.gen + 1 && r.value.env[x] == mv &&
      r.value.constraints[..|s.constraints|] == s.constraints &&
      forall m :: Holds(r.value.constraints[|s.constraints|], m) <==>
        Num(mv, m) == EvalInt(ArithAsWritten(op, ToInt(s.env[x]).i, ToInt(Rhs(ctx, s.env, value)).i), m)
  {
    var r := ExecAugAssign(ctx, s, A.Name(x), op, value);
    assert r.value.constraints[..|s.constraints|] == s.constraints;
  }

  /** Only `+=`, `-=`, `*=`, `//=` and `%=` are accepted: `/=`, `**=` and the
      rest raise once the right-hand side has compiled. */
  lemma AugAssignRejectsOtherOperators(ctx: Ctx, s: CState, x: string, op: A.BinOperator, value: A.Expr)
    requires op !in AugOps()
    requires CompileExpr(ctx, s.env, value).Ok?
    ensures ExecAugAssign(ctx, s, A.Name(x), op, value) == Err(UnsupportedAugOp)
  {
  }

  /** A target that is neither a name nor `x.outcome` raises. */
  lemma AugAssignRejectsOtherTargets(ctx: Ctx, s: CState, target: A.Expr, op: A.BinOperator, value: A.Expr)
    requires !target.Name? && !target.Attribute?
    ensures ExecAugAssign(ctx, s, target, op, value) == Err(UnsupportedAugTarget)
  {
  }

  // ---------------------------------------------------------------------
  // Expressions

  /** Calls of anything but `range`, `int` and `bool` (including `print`)
      compile to the constant 0 without visiting their arguments. */
  lemma UnknownCallIsZero(ctx: Ctx, env: Env, f: A.Expr, args: seq<A.Expr>)
    requires f.Name? ==> f.id != "range" && f.id != "int" && f.id != "bool"
    ensures CompileExpr(ctx, env, A.Call(f, args)) == Ok((IntV(IConst(0)), env))
  {
  }

  /** `range()` and `int()` without arguments are 0, `bool()` is False. */
  lemma EmptyCasts(ctx: Ctx, env: Env)
    ensures CompileExpr(ctx, env, A.Call(A.Name("range"), [])) == Ok((IntV(IConst(0)), env))
    ensures CompileExpr(ctx, env, A.Call(A.Name("int"), [])) == Ok((IntV(IConst(0)), env))
    ensures CompileExpr(ctx, env, A.Call(A.Name("bool"), [])) == Ok((BoolV(BConst(false)), env))
  {
  }

  /** An attribute other than `.outcome` on a name raises. */
  lemma OtherAttributeRaises(ctx: Ctx, env: Env, o: A.Expr, attr: string)
    requires !(o.Name? && attr == "outcome")
    ensures CompileExpr(ctx, env, A.Attribute(o, attr)) == Err(UnsupportedAttribute)
  {
  }

  /** `x.outcome` reads the cached `S_x` variable, creating it on first use. */
  lemma OutcomeReadsCachedVariable(ctx: Ctx, env: Env, x: string)
    ensures var r := CompileExpr(ctx, env, A.Outcome(x));
      r.Ok? && "S_" + x in r.value.1 && r.value.0 == r.value.1["S_" + x] &&
      ("S_" + x in env ==> r.value == (env["S_" + x], env)) &&
      ("S_" + x !in env ==> r.value.0 == MkVar(ctx, "S_" + x))
  {
  }

  /** `**`, bit operators and the like raise once both operands compiled. */
  lemma OtherBinOpRaises(ctx: Ctx, env: Env, l: A.Expr, op: A.BinOperator, r: A.Expr)
    requires op !in ArithOps()
    requires CompileExpr(ctx, env, l).Ok?
    requires CompileExpr(ctx, CompileExpr(ctx, env, l).value.1, r).Ok?
    ensures CompileExpr(ctx, env, A.BinOp(l, op, r)) == Err(UnsupportedBinOp)
  {
  }

  /** In arithmetic a boolean operand counts as 0 or 1: the result is the
      operator applied to the operands' numbers, `/` and `//` being z3's
      `div` and `%` its `mod` (for a non-zero divisor, Euclidean division
      and its non-negative remainder). */
  lemma ArithmeticOnNumbers(ctx: Ctx, env: Env, l: A.Expr, op: A.BinOperator, r: A.Expr)
    requires op in ArithOps()
    requires CompileExpr(ctx, env, l).Ok? && IsTerm(Rhs(ctx, env, l))
    requires CompileExpr(ctx, CompileExpr(ctx, env, l).value.1, r).Ok?
    requires IsTerm(Rhs(ctx, CompileExpr(ctx, env, l).value.1, r))
    ensures var res := CompileExpr(ctx, env, A.BinOp(l, op, r));
      var a := Rhs(ctx, env, l);
      var b := Rhs(ctx, CompileExpr(ctx, env, l).value.1, r);
      res.Ok? && res.value.0.IntV? &&
      forall m :: (op in {A.OpAdd, A.OpSub, A.OpMult} || Num(b, m) != 0) ==> (EvalInt(res.value.0.i, m) ==
        if op == A.OpAdd then Num(a, m) + Num(b, m)
        else if op == A.OpSub then Num(a, m) - Num(b, m)
        else if op == A.OpMult then Num(a, m) * Num(b, m)
        else if op == A.OpMod then Num(a, m) % Num(b, m)
        else Num(a, m) / Num(b, m))
  {
  }

  /** A list literal compiles to the list of its elements' values. */
  lemma CompileListLit(ctx: Ctx, env: Env, elts: seq<A.Expr>)
    requires CompileExprs(ctx, env, elts).Ok?
    ensures var q := CompileExprs(ctx, env, elts).value;
      CompileExpr(ctx, env, A.ListLit(elts)) == Ok((ListV(q.0), q.1))
  {
  }

  /** `l in r` compiles to the membership constraint of the two values. */
  lemma CompileIn(ctx: Ctx, env: Env, l: A.Expr, r: A.Expr)
    requires CompileExpr(ctx, env, l).Ok?
    requires CompileExpr(ctx, CompileExpr(ctx, env, l).value.1, r).Ok?
    requires var pl := CompileExpr(ctx, env, l).value;
      InValues(pl.0, CompileExpr(ctx, pl.1, r).value.0).Ok?
    ensures var pl := CompileExpr(ctx, env, l).value;
      var pr := CompileExpr(ctx, pl.1, r).value;
      CompileExpr(ctx, env, A.Compare(l, [A.CIn], [r])) == Ok((BoolV(InValues(pl.0, pr.0).value), pr.1))
  {
    var e := A.Compare(l, [A.CIn], [r]);
    var pl := CompileExpr(ctx, env, l).value;
    var pr := CompileExpr(ctx, pl.1, r).value;
    assert CompileExpr(ctx, env, l) == Ok(pl);
    assert CompileExpr(ctx, pl.1, e.comparators[0]) == Ok(pr);
    assert CompareValues(e.ops[0], pl.0, pr.0) == InValues(pl.0, pr.0);
  }

  /** `x in []` is False. */
  lemma InEmptyListIsFalse(ctx: Ctx, env: Env, l: A.Expr)
    requires CompileExpr(ctx, env, l).Ok?
    ensures CompileExpr(ctx, env, A.Compare(l, [A.CIn], [A.ListLit([])])) ==
      Ok((BoolV(BConst(false)), CompileExpr(ctx, env, l).value.1))
  {
    var pl := CompileExpr(ctx, env, l).value;
    assert CompileExprs(ctx, pl.1, []) == Ok(([], pl.1));
    CompileListLit(ctx, pl.1, []);
    assert InValues(pl.0, ListV([])) == Ok(BConst(false));
    CompileIn(ctx, env, l, A.ListLit([]));
  }

  /** `x in [e1, .., en]` with terms holds exactly when `x` equals one of
      the elements. */
  lemma InListIsDisjunction(ctx: Ctx, env: Env, l: A.Expr, elts: seq<A.Expr>)
    requires CompileExpr(ctx, env, l).Ok? && IsTerm(Rhs(ctx, env, l))
    requires CompileExprs(ctx, CompileExpr(ctx, env, l).value.1, elts).Ok?
    requires var vs := CompileExprs(ctx, CompileExpr(ctx, env, l).value.1, elts).value.0;
      forall i :: 0 <= i < |vs| ==> IsTerm(vs[i])
    ensures var res := CompileExpr(ctx, env, A.Compare(l, [A.CIn], [A.ListLit(elts)]));
      var a := Rhs(ctx, env, l);
      var vs := CompileExprs(ctx, CompileExpr(ctx, env, l).value.1, elts).value.0;
      res.Ok? && res.value.0.BoolV? &&
      forall m :: Holds(res.value.0.b, m) <==> exists i :: 0 <= i < |vs| && Num(a, m) == Num(vs[i], m)
  {
    var pl := CompileExpr(ctx, env, l).value;
    var q := CompileExprs(ctx, pl.1, elts).value;
    CompileListLit(ctx, pl.1, elts);
    InTerms(pl.0, q.0);
    CompileIn(ctx, env, l, A.ListLit(elts));
  }

  /** `_handle_in_operator` on a list of terms. */
  lemma InTerms(a: Value, vs: seq<Value>)
    requires IsTerm(a) && forall i :: 0 <= i < |vs| ==> IsTerm(vs[i])
    ensures InValues(a, ListV(vs)).Ok?
    ensures forall m :: Holds(InValues(a, ListV(vs)).value, m) <==> exists i :: 0 <= i < |vs| && Num(a, m) == Num(vs[i], m)
  {
    var f := InValues(a, ListV(vs));
    assert f.Ok? by {
      if |vs| > 0 {
        assert EqualitiesWith(a, vs).Ok?;
      }
    }
    forall m ensures Holds(f.value, m) <==> exists i :: 0 <= i < |vs| && Num(a, m) == Num(vs[i], m) {
      if |vs| > 0 {
        if Holds(f.value, m) {
          var i :| 0 <= i < |vs| && EqValues(a, vs[i]).Ok? && Holds(EqValues(a, vs[i]).value, m);
          assert Num(a, m) == Num(vs[i], m);
        }
        if exists i :: 0 <= i < |vs| && Num(a, m) == Num(vs[i], m) {
          var i :| 0 <= i < |vs| && Num(a, m) == Num(vs[i], m);
          assert Holds(EqValues(a, vs[i]).value, m);
        }
      }
    }
  }

  // ---------------------------------------------------------------------
  // The merge after an `if`

  /** What the merge leaves for a name `n` whose branch values are `t` and
      `e`: a term on both sides gives a variable worth `If(cond, t, e)` (a
      boolean merge variable worth the truth of that choice); a list on both
      sides keeps the then-branch's list; otherwise (a side missing, or a
      list against a term) the binding before the merge stays. */
  ghost predicate MergedAs(cond: BoolTerm, t: Value, e: Value, before: Env, after: Env, n: string, m: Model) {
    if Merges(t, e) then
      n in after && IsTerm(after[n]) &&
      (after[n].IntV? ==> Num(after[n], m) == (if Holds(cond, m) then Num(t, m) else Num(e, m))) &&
      (after[n].BoolV? ==> (Holds(after[n].b, m) <==> (if Holds(cond, m) then Num(t, m) != 0 else Num(e, m) != 0)))
    else if t.ListV? && e.ListV? then n in after && after[n] == t
    else (n in after <==> n in before) && (n in before ==> after[n] == before[n])
  }

  /** One merge step binds only its own name, to `z3var_func` of
      `{item}_{n}_{gen}`, and its constraint gives that variable its
      meaning. */
  lemma MergeStepMeaning(ctx: Ctx, cond: BoolTerm, tEnv: Env, eEnv: Env, n: string, s: CState, m: Model)
    requires AllHold(Added(s, MergeStep(ctx, cond, tEnv, eEnv, n, s)), m)
    ensures var r := MergeStep(ctx, cond, tEnv, eEnv, n, s);
      MergedAs(cond, Side(tEnv, s.env, n), Side(eEnv, s.env, n), s.env, r.env, n, m) &&
      (Merges(Side(tEnv, s.env, n), Side(eEnv, s.env, n)) ==>
        r.env[n] == MkVar(ctx, SsaName(s.itemId, n, s.gen)) && r.gen == s.gen + 1) &&
      forall k :: k != n ==> (k in r.env <==> k in s.env) && (k in s.env ==> r.env[k] == s.env[k])
  {
    var t, e := Side(tEnv, s.env, n), Side(eEnv, s.env, n);
    var r := MergeStep(ctx, cond, tEnv, eEnv, n, s);
    if Merges(t, e) {
      var mv := MkVar(ctx, SsaName(s.itemId, n, s.gen));
      assert Added(s, r) == [MergeConstraint(cond, mv, t, e)];
      assert Holds(Added(s, r)[0], m);
      assert Holds(ToBool(t), m) <==> Num(t, m) != 0;
      assert Holds(ToBool(e), m) <==> Num(e, m) != 0;
      assert EvalInt(ToInt(t).i, m) == Num(t, m);
      assert EvalInt(ToInt(e).i, m) == Num(e, m);
      if mv.BoolV? {
        assert Holds(mv.b, m) <==> Holds(BIte(cond, ToBool(t), ToBool(e)), m);
      } else {
        assert EvalInt(mv.i, m) == EvalInt(Ite(cond, ToInt(t).i, ToInt(e).i), m);
      }
      assert r.env[n] == mv;
    }
  }

  /** Whether a merge is as `MergedAs` says depends on the bindings of its
      own name only. */
  lemma MergedAsFrame(cond: BoolTerm, t: Value, e: Value, b1: Env, b2: Env, a1: Env, a2: Env, n: string, m: Model)
    requires (n in b1 <==> n in b2) && (n in b1 ==> b1[n] == b2[n])
    requires (n in a1 <==> n in a2) && (n in a1 ==> a1[n] == a2[n])
    requires MergedAs(cond, t, e, b1, a1, n, m)
    ensures MergedAs(cond, t, e, b2, a2, n, m)
  {
  }

  lemma DistinctTail(names: seq<string>)
    requires |names| > 0
    requires forall i, j :: 0 <= i < j < |names| ==> names[i] != names[j]
    ensures forall i, j :: 0 <= i < j < |names[1..]| ==> names[1..][i] != names[1..][j]
    ensures names[0] !in names[1..]
    ensures forall n :: n in names && n != names[0] ==> n in names[1..]
  {
    forall i, j | 0 <= i < j < |names[1..]| ensures names[1..][i] != names[1..][j] {
      assert names[1..][i] == names[i + 1] && names[1..][j] == names[j + 1];
    }
    forall i | 0 <= i < |names[1..]| ensures names[1..][i] != names[0] {
      assert names[1..][i] == names[i + 1];
    }
  }

  /** The merge loop over distinct names: every name listed is merged as
      `MergedAs` says, every other name keeps its binding. */
  lemma {:induction false} MergeMeaning(ctx: Ctx, cond: BoolTerm, tEnv: Env, eEnv: Env, names: seq<string>, s: CState, m: Model)
    requires forall i, j :: 0 <= i < j < |names| ==> names[i] != names[j]
    requires AllHold(Added(s, Merge(ctx, cond, tEnv, eEnv, names, s)), m)
    ensures var r := Merge(ctx, cond, tEnv, eEnv, names, s);
      (forall n :: n in names ==> MergedAs(cond, Side(tEnv, s.env, n), Side(eEnv, s.env, n), s.env, r.env, n, m)) &&
      (DefaultSorts(ctx) ==> forall n :: n in names && Merges(Side(tEnv, s.env, n), Side(eEnv, s.env, n)) ==> r.env[n].IntV?) &&
      (forall n :: n !in names ==> (n in r.env <==> n in s.env) && (n in s.env ==> r.env[n] == s.env[n]))
    decreases |names|
  {
    if |names| > 0 {
      var n0 := names[0];
      var s1 := MergeStep(ctx, cond, tEnv, eEnv, n0, s);
      var r := Merge(ctx, cond, tEnv, eEnv, names[1..], s1);
      assert r == Merge(ctx, cond, tEnv, eEnv, names, s);
      AddedTwice(s, s1, r);
      AllHoldConcat(Added(s, s1), Added(s1, r), m);
      MergeStepMeaning(ctx, cond, tEnv, eEnv, n0, s, m);
      DistinctTail(names);
      MergeMeaning(ctx, cond, tEnv, eEnv, names[1..], s1, m);
      forall n | n in names
        ensures MergedAs(cond, Side(tEnv, s.env, n), Side(eEnv, s.env, n), s.env, r.env, n, m)
        ensures DefaultSorts(ctx) && Merges(Side(tEnv, s.env, n), Side(eEnv, s.env, n)) ==> r.env[n].IntV?
      {
        if n == n0 {
          MergedAsFrame(cond, Side(tEnv, s.env, n), Side(eEnv, s.env, n), s.env, s.env, s1.env, r.env, n, m);
        } else {
          assert n in names[1..];
          assert Side(tEnv, s1.env, n) == Side(tEnv, s.env, n);
          assert Side(eEnv, s1.env, n) == Side(eEnv, s.env, n);
          MergedAsFrame(cond, Side(tEnv, s.env, n), Side(eEnv, s.env, n), s1.env, s.env, r.env, r.env, n, m);
        }
      }
    }
  }

  /** `visit_If` in full: both branches' constraints hold alongside the
      merge, the generation runs from the parent through the then-branch and
      the else-branch to the merge, and every name bound in either branch is
      merged as `MergedAs` says (with an enumerating set order). */
  lemma IfMeaning(ctx: Ctx, s: CState, st: A.Stmt, m: Model)
    requires st.If? && OrderIsEnumeration(ctx)
    requires ExecIf(ctx, s, st).Ok? && AllHold(ExecIf(ctx, s, st).value.constraints, m)
    ensures var p := CompileExpr(ctx, s.env, st.cond).value;
      var t := ExecStmts(ctx, CState(p.1, [], s.gen, ThenId(s.itemId, s.gen)), st.thenBody).value;
      var e := ExecStmts(ctx, CState(p.1, [], t.gen, ElseId(s.itemId, s.gen)), st.elseBody).value;
      var r := ExecIf(ctx, s, st).value;
      AllHold(t.constraints, m) && AllHold(e.constraints, m) && AllHold(s.constraints, m) &&
      s.gen <= t.gen <= e.gen <= r.gen &&
      forall n :: n in t.env || n in e.env ==>
        MergedAs(ToBool(p.0), Side(t.env, p.1, n), Side(e.env, p.1, n), p.1, r.env, n, m)
  {
    var p := CompileExpr(ctx, s.env, st.cond).value;
    var t := ExecStmts(ctx, CState(p.1, [], s.gen, ThenId(s.itemId, s.gen)), st.thenBody).value;
    var e := ExecStmts(ctx, CState(p.1, [], t.gen, ElseId(s.itemId, s.gen)), st.elseBody).value;
    var names := ctx.order(t.env.Keys + e.env.Keys);
    var merged := Merge(ctx, ToBool(p.0), t.env, e.env, names, CState(p.1, s.constraints, e.gen, s.itemId));
    var r := ExecIf(ctx, s, st).value;
    assert r.constraints == merged.constraints + t.constraints + e.constraints;
    AllHoldConcat(merged.constraints + t.constraints, e.constraints, m);
    AllHoldConcat(merged.constraints, t.constraints, m);
    assert AllHold(s.constraints, m) by {
      forall i | 0 <= i < |s.constraints| ensures Holds(s.constraints[i], m) {
        assert s.constraints[i] == merged.constraints[i];
      }
    }
    assert Enumerates(names, t.env.Keys + e.env.Keys);
    AllHoldSplit(merged.constraints, |s.constraints|, m);
    MergeMeaning(ctx, ToBool(p.0), t.env, e.env, names, CState(p.1, s.constraints, e.gen, s.itemId), m);
  }

  // ---------------------------------------------------------------------
  // Loops

  /** `for x in range(k): body` */
  function RangeLoop(x: string, k: int, body: seq<A.Stmt>): A.Stmt {
    A.For(A.Name(x), A.Call(A.Name("range"), [A.Const(A.CInt(k))]), body)
  }

  /** `range(k)` with a literal `0 <= k <= 20` unrolls the body `k` times
      with the loop variable bound to 0, 1, .., k - 1. */
  lemma ForRangeUnrolls(ctx: Ctx, s: CState, x: string, k: int, body: seq<A.Stmt>)
    requires 0 <= k <= 20
    ensures ExecFor(ctx, s, RangeLoop(x, k, body)) == Unroll(ctx, s, x, RangeValues(k), body)
  {
  }

  /** A literal bound outside 0..20 raises. */
  lemma ForRangeOutOfBounds(ctx: Ctx, s: CState, x: string, k: int, body: seq<A.Stmt>)
    requires k < 0 || k > 20
    ensures ExecFor(ctx, s, RangeLoop(x, k, body)) == Err(ForRangeBound)
  {
  }

  /** `range(n)` with anything but a literal bound is not a supported
      iterable. */
  lemma ForRangeNeedsLiteral(ctx: Ctx, s: CState, x: string, n: A.Expr, body: seq<A.Stmt>)
    requires !n.Const?
    ensures ExecFor(ctx, s, A.For(A.Name(x), A.Call(A.Name("range"), [n]), body)) == Err(ForUnsupportedIterable)
  {
  }

  /** A container literal of more than 20 elements raises once its elements
      are evaluated. */
  lemma ForContainerLimit(ctx: Ctx, s: CState, x: string, elts: seq<A.Expr>, body: seq<A.Stmt>)
    requires |elts| > 20 && ContainerValues(ctx, s.env, elts).Ok?
    ensures ExecFor(ctx, s, A.For(A.Name(x), A.ListLit(elts), body)) == Err(ForContainerTooLarge)
    ensures ExecFor(ctx, s, A.For(A.Name(x), A.TupleLit(elts), body)) == Err(ForContainerTooLarge)
    ensures ExecFor(ctx, s, A.For(A.Name(x), A.SetLit(elts), body)) == Err(ForContainerTooLarge)
  {
  }

  /** Any other iterable (a name, a comprehension, a call) raises. */
  lemma ForOtherIterableRaises(ctx: Ctx, s: CState, x: string, iter: A.Expr, body: seq<A.Stmt>)
    requires !iter.Call? && !iter.ListLit? && !iter.TupleLit? && !iter.SetLit?
    ensures ExecFor(ctx, s, A.For(A.Name(x), iter, body)) == Err(ForUnsupportedIterable)
  {
  }

  /** A loop with at most 20 constant elements runs the body once per
      element, the loop variable bound to the element's integer. */
  lemma ForConstantsUnroll(ctx: Ctx, s: CState, x: string, ns: seq<int>, body: seq<A.Stmt>)
    requires |ns| <= 20
    ensures var elts := seq(|ns|, i requires 0 <= i < |ns| => A.Const(A.CInt(ns[i])));
      var values := seq(|ns|, i requires 0 <= i < |ns| => IntV(IConst(ns[i])));
      ExecFor(ctx, s, A.For(A.Name(x), A.ListLit(elts), body)) == Unroll(ctx, s, x, values, body)
  {
    var elts := seq(|ns|, i requires 0 <= i < |ns| => A.Const(A.CInt(ns[i])));
    var values := seq(|ns|, i requires 0 <= i < |ns| => IntV(IConst(ns[i])));
    ConstantsValues(ctx, s.env, ns);
  }

  lemma {:induction false} ConstantsValues(ctx: Ctx, env: Env, ns: seq<int>)
    ensures ContainerValues(ctx, env, seq(|ns|, i requires 0 <= i < |ns| => A.Const(A.CInt(ns[i])))) ==
      Ok((seq(|ns|, i requires 0 <= i < |ns| => IntV(IConst(ns[i]))), env))
    decreases |ns|
  {
    var elts := seq(|ns|, i requires 0 <= i < |ns| => A.Const(A.CInt(ns[i])));
    var values := seq(|ns|, i requires 0 <= i < |ns| => IntV(IConst(ns[i])));
    if |ns| > 0 {
      ConstantsValues(ctx, env, ns[1..]);
      assert elts[1..] == seq(|ns[1..]|, i requires 0 <= i < |ns[1..]| => A.Const(A.CInt(ns[1..][i])));
      assert values == [IntV(IConst(ns[0]))] + seq(|ns[1..]|, i requires 0 <= i < |ns[1..]| => IntV(IConst(ns[1..][i])));
    }
  }
}

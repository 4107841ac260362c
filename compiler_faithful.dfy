/** A reference semantics for the integer-and-boolean fragment of Python
    code blocks (constants, names, `+ - * // %`, one comparison at a time,
    `and`/`or`/`not`, unary minus and plus, assignments, augmented
    assignments, expression statements, `if`/`else` and `for` over a literal
    `range`), and the theorem that `PragmaticZ3Compiler` is faithful to it:
    the constraints of a code block that Python runs to the end are
    satisfiable, and every model of them gives every variable of the final
    environment the value Python computes. */
module PragmaticFaithful {
  import opened Wrappers
  import opened Smt
  import opened Strings
  import A = PyAst
  import opened Pragmatic
  import P = PragmaticProps

  // ---------------------------------------------------------------------
  // Python values and the reference interpreter

  datatype PyVal = PInt(n: int) | PBool(v: bool)

  type PyEnv = map<string, PyVal>

  /** The integer a Python value counts as (`True` is 1). */
  function PyNum(p: PyVal): int {
    match p
    case PInt(n) => n
    case PBool(b) => if b then 1 else 0
  }

  /** `a op b` on Python integers; `None` for operators outside the fragment
      and for `//` and `%` by a divisor that is not positive: Python raises on
      zero, and on a negative divisor the source's z3 `div` and `mod` round
      differently from Python, so such runs are outside what is proved. */
  function PyArith(op: A.BinOperator, a: int, b: int): Option<int> {
    match op
    case OpAdd => Some(a + b)
    case OpSub => Some(a - b)
    case OpMult => Some(a * b)
    case OpFloorDiv => if b <= 0 then None else Some(PyFloorDiv(a, b))
    case OpMod => if b <= 0 then None else Some(PyMod(a, b))
    case _ => None
  }

  function PyCmp(op: A.CmpOperator, a: int, b: int): Option<bool> {
    match op
    case CEq => Some(a == b)
    case CNotEq => Some(a != b)
    case CLt => Some(a < b)
    case CLtE => Some(a <= b)
    case CGt => Some(a > b)
    case CGtE => Some(a >= b)
    case _ => None
  }

  /** Python's value of an expression of the fragment; `None` outside it
      (an unbound name, a division by zero, another node kind). Ordering two
      booleans is left out of the fragment. */
  function PyEval(py: PyEnv, e: A.Expr): Option<PyVal>
    decreases e
  {
    match e
    case Const(c) =>
      if c.CInt? then Some(PInt(c.i)) else if c.CBool? then Some(PBool(c.b)) else None
    case Name(x) => if x in py then Some(py[x]) else None
    case BinOp(l, op, r) =>
      var a :- PyEval(py, l);
      var b :- PyEval(py, r);
      var n :- PyArith(op, PyNum(a), PyNum(b));
      Some(PInt(n))
    case Compare(l, ops, cs) =>
      if |ops| != 1 || |cs| != 1 then None
      else
        var a :- PyEval(py, l);
        var b :- PyEval(py, cs[0]);
        if ops[0] in {A.CLt, A.CLtE, A.CGt, A.CGtE} && a.PBool? && b.PBool? then None
        else
          var c :- PyCmp(ops[0], PyNum(a), PyNum(b));
          Some(PBool(c))
    case BoolOp(op, vs) =>
      var bs :- PyEvalBools(py, vs);
      Some(PBool(if op == A.OpAnd then (forall i :: 0 <= i < |bs| ==> bs[i]) else (exists i :: 0 <= i < |bs| && bs[i])))
    case UnaryOp(op, x) =>
      var a :- PyEval(py, x);
      if op == A.UNot then Some(PBool(PyNum(a) == 0))
      else if op == A.USub && a.PInt? then Some(PInt(-a.n))
      else if op == A.UAdd && a.PInt? then Some(a)
      else None
    case _ => None
  }

  /** The operands of `and`/`or`, each of which must be a boolean. */
  function PyEvalBools(py: PyEnv, es: seq<A.Expr>): (r: Option<seq<bool>>)
    ensures r.Some? ==> |r.value| == |es|
    decreases es
  {
    if |es| == 0 then Some([])
    else
      var p :- PyEval(py, es[0]);
      if !p.PBool? then None
      else
        var rest :- PyEvalBools(py, es[1..]);
        Some([p.v] + rest)
  }

  /** The names bound after an `if`/`else` on both paths, with the value of
      the path the condition chooses. */
  function PyJoin(b: bool, pt: PyEnv, pe: PyEnv): PyEnv {
    map x | x in pt.Keys && x in pe.Keys :: if b then pt[x] else pe[x]
  }

  function RangeInts(k: nat): (r: seq<int>)
    ensures |r| == k && forall i :: 0 <= i < k ==> r[i] == i
  {
    seq(k, i => i)
  }

  /** Python's run of one statement of the fragment. Both branches of an
      `if` must run (the compiler compiles both), and `for` runs over
      `range(k)` with a literal `0 <= k <= 20`. */
  function PyStmt(py: PyEnv, st: A.Stmt): (r: Option<PyEnv>)
    ensures r.Some? ==> py.Keys <= r.value.Keys
    decreases A.StmtSize(st), 1, 0
  {
    match st
    case Assign(ts, v) =>
      if |ts| == 1 && ts[0].Name? then
        var p :- PyEval(py, v);
        Some(py[ts[0].id := p])
      else None
    case AugAssign(t, op, v) =>
      if t.Name? && t.id in py && op in AugOps() then
        var b :- PyEval(py, v);
        var n :- PyArith(op, PyNum(py[t.id]), PyNum(b));
        Some(py[t.id := PInt(n)])
      else None
    case If(c, tb, eb) =>
      var cv :- PyEval(py, c);
      var pt :- PyExec(py, tb);
      var pe :- PyExec(py, eb);
      Some(PyJoin(PyNum(cv) != 0, pt, pe))
    case For(t, it, body) =>
      if t.Name? && it.Call? && it.func == A.Name("range") && |it.args| == 1 &&
         it.args[0].Const? && it.args[0].c.CInt? && 0 <= it.args[0].c.i <= 20
      then PyLoop(py, t.id, RangeInts(it.args[0].c.i), body)
      else None
    case ExprStmt(e) =>
      var ignored :- PyEval(py, e);
      Some(py)
    case OtherStmt(_, _) => None
  }

  function PyExec(py: PyEnv, ss: seq<A.Stmt>): (r: Option<PyEnv>)
    ensures r.Some? ==> py.Keys <= r.value.Keys
    decreases A.StmtsSize(ss), 2, 0
  {
    if |ss| == 0 then Some(py)
    else
      var py1 :- PyStmt(py, ss[0]);
      PyExec(py1, ss[1..])
  }

  function PyLoop(py: PyEnv, x: string, ks: seq<int>, body: seq<A.Stmt>): (r: Option<PyEnv>)
    ensures r.Some? ==> py.Keys <= r.value.Keys
    decreases A.StmtsSize(body), 3, |ks|
  {
    if |ks| == 0 then Some(py)
    else
      var py1 :- PyExec(py[x := PInt(ks[0])], body);
      PyLoop(py1, x, ks[1..], body)
  }

  // ---------------------------------------------------------------------
  // Representation of Python values by compiled values in a model

  /** `v` has Python's value `p` in `m`; a Python integer is always an
      integer term (a boolean may have become an integer in a merge). */
  predicate Represents(v: Value, m: Model, p: PyVal) {
    IsTerm(v) && Num(v, m) == PyNum(p) && (p.PInt? ==> v.IntV?)
  }

  predicate EnvRep(env: Env, py: PyEnv, m: Model) {
    env.Keys == py.Keys && forall x :: x in py ==> Represents(env[x], m, py[x])
  }

  function ValueNames(v: Value): set<string> {
    match v
    case IntV(i) => NamesI(i)
    case BoolV(b) => NamesB(b)
    case _ => {}
  }

  ghost predicate NamesWithin(env: Env, keys: set<string>) {
    forall x :: x in env ==> ValueNames(env[x]) <= keys
  }

  /** Every variable known so far is numbered below the generation. */
  ghost predicate Fresh(keys: set<string>, gen: nat) {
    forall n :: n in keys ==> NumberSuffix(n) < gen
  }

  /** Values for the variables created so far, as a total model. */
  type Assignment = map<string, int>

  function ModelOf(a: Assignment): Model {
    Model(x => if x in a then a[x] else 0, x => x in a && a[x] != 0, x => 0, x => 0)
  }

  ghost predicate SubAssignment(a: Assignment, b: Assignment) {
    forall x :: x in a ==> x in b && b[x] == a[x]
  }

  lemma ModelsAgree(a: Assignment, b: Assignment, names: set<string>)
    requires SubAssignment(a, b) && names <= a.Keys
    ensures AgreeOn(names, ModelOf(a), ModelOf(b))
  {
  }

  lemma ValueStable(v: Value, a: Assignment, b: Assignment)
    requires IsTerm(v) && ValueNames(v) <= a.Keys && SubAssignment(a, b)
    ensures Num(v, ModelOf(a)) == Num(v, ModelOf(b))
  {
    ModelsAgree(a, b, ValueNames(v));
    if v.IntV? {
      AgreeI(v.i, ModelOf(a), ModelOf(b));
    } else {
      AgreeB(v.b, ModelOf(a), ModelOf(b));
    }
  }

  lemma FormulasStable(fs: seq<BoolTerm>, a: Assignment, b: Assignment)
    requires forall i :: 0 <= i < |fs| ==> NamesB(fs[i]) <= a.Keys
    requires SubAssignment(a, b) && AllHold(fs, ModelOf(a))
    ensures AllHold(fs, ModelOf(b))
  {
    forall i | 0 <= i < |fs| ensures Holds(fs[i], ModelOf(b)) {
      ModelsAgree(a, b, NamesB(fs[i]));
      AgreeB(fs[i], ModelOf(a), ModelOf(b));
    }
  }

  lemma EnvRepStable(env: Env, py: PyEnv, a: Assignment, b: Assignment)
    requires EnvRep(env, py, ModelOf(a)) && NamesWithin(env, a.Keys) && SubAssignment(a, b)
    ensures EnvRep(env, py, ModelOf(b))
  {
    forall x | x in py ensures Represents(env[x], ModelOf(b), py[x]) {
      ValueStable(env[x], a, b);
    }
  }

  // ---------------------------------------------------------------------
  // Variables of compiled terms

  lemma ToIntNames(v: Value)
    requires IsTerm(v)
    ensures NamesI(ToInt(v).i) == ValueNames(v)
  {
  }

  lemma ToBoolNames(v: Value)
    ensures NamesB(ToBool(v)) == ValueNames(v)
  {
  }

  lemma ArithNames(op: A.BinOperator, x: IntTerm, y: IntTerm)
    requires op in ArithOps()
    ensures NamesI(ArithAsWritten(op, x, y)) <= NamesI(x) + NamesI(y)
  {
  }

  lemma CompareNames(op: A.CmpOperator, a: Value, b: Value)
    requires IsTerm(a) && IsTerm(b) && op != A.CIn && CompareValues(op, a, b).Ok?
    ensures NamesB(CompareValues(op, a, b).value) <= ValueNames(a) + ValueNames(b)
  {
    ToIntNames(a);
    ToIntNames(b);
  }

  lemma {:induction false} JunctionNames(fs: seq<BoolTerm>, keys: set<string>)
    requires forall i :: 0 <= i < |fs| ==> NamesB(fs[i]) <= keys
    ensures NamesB(AndAll(fs)) <= keys && NamesB(OrAll(fs)) <= keys
    decreases |fs|
  {
    if |fs| > 1 {
      JunctionNames(fs[1..], keys);
      assert NamesB(fs[0]) <= keys;
    }
  }

  // ---------------------------------------------------------------------
  // Expressions

  /** Compiling an expression of the fragment succeeds, creates no variable,
      and gives a value representing Python's in every model representing
      the environment; its variables are among the environment's. */
  ghost predicate ExprOk(ctx: Ctx, env: Env, py: PyEnv, e: A.Expr, m: Model, keys: set<string>)
    requires PyEval(py, e).Some?
  {
    var r := CompileExpr(ctx, env, e);
    r.Ok? && r.value.1 == env && Represents(r.value.0, m, PyEval(py, e).value) &&
    (NamesWithin(env, keys) ==> ValueNames(r.value.0) <= keys)
  }

  lemma {:induction false} ExprFaithful(ctx: Ctx, env: Env, py: PyEnv, e: A.Expr, m: Model, keys: set<string>)
    requires PyEval(py, e).Some? && EnvRep(env, py, m)
    ensures ExprOk(ctx, env, py, e, m, keys)
    decreases e, 1
  {
    match e
    case Const(c) =>
    case Name(x) =>
    case BinOp(_, _, _) => BinOpFaithful(ctx, env, py, e, m, keys);
    case Compare(_, _, _) => CompareFaithful(ctx, env, py, e, m, keys);
    case BoolOp(_, _) => BoolOpFaithful(ctx, env, py, e, m, keys);
    case UnaryOp(_, _) => UnaryFaithful(ctx, env, py, e, m, keys);
  }

  lemma BinOpFaithful(ctx: Ctx, env: Env, py: PyEnv, e: A.Expr, m: Model, keys: set<string>)
    requires e.BinOp? && PyEval(py, e).Some? && EnvRep(env, py, m)
    ensures ExprOk(ctx, env, py, e, m, keys)
    decreases e, 0
  {
    ExprFaithful(ctx, env, py, e.left, m, keys);
    ExprFaithful(ctx, env, py, e.right, m, keys);
    var a := CompileExpr(ctx, env, e.left).value.0;
    var b := CompileExpr(ctx, env, e.right).value.0;
    var pa, pb := PyEval(py, e.left).value, PyEval(py, e.right).value;
    var x, y := ToInt(a), ToInt(b);
    ToIntNames(a);
    ToIntNames(b);
    ArithNames(e.op, x.i, y.i);
    assert EvalInt(x.i, m) == PyNum(pa) && EvalInt(y.i, m) == PyNum(pb);
    assert CompileExpr(ctx, env, e) == Ok((IntV(ArithAsWritten(e.op, x.i, y.i)), env));
  }

  lemma CompareFaithful(ctx: Ctx, env: Env, py: PyEnv, e: A.Expr, m: Model, keys: set<string>)
    requires e.Compare? && PyEval(py, e).Some? && EnvRep(env, py, m)
    ensures ExprOk(ctx, env, py, e, m, keys)
    decreases e, 0
  {
    ExprFaithful(ctx, env, py, e.first, m, keys);
    ExprFaithful(ctx, env, py, e.comparators[0], m, keys);
    var a := CompileExpr(ctx, env, e.first).value.0;
    var b := CompileExpr(ctx, env, e.comparators[0]).value.0;
    var pa, pb := PyEval(py, e.first).value, PyEval(py, e.comparators[0]).value;
    var op := e.ops[0];
    assert op != A.CIn && op != A.COtherCmp;
    var f := CompareValues(op, a, b);
    assert f.Ok?;
    CompareNames(op, a, b);
    assert Holds(f.value, m) <==> PyCmp(op, PyNum(pa), PyNum(pb)).value;
    assert CompileExpr(ctx, env, e) == Ok((BoolV(f.value), env));
  }

  lemma BoolOpFaithful(ctx: Ctx, env: Env, py: PyEnv, e: A.Expr, m: Model, keys: set<string>)
    requires e.BoolOp? && PyEval(py, e).Some? && EnvRep(env, py, m)
    ensures ExprOk(ctx, env, py, e, m, keys)
    decreases e, 0
  {
    ExprsFaithful(ctx, env, py, e.values, m, keys);
    var vs := CompileExprs(ctx, env, e.values).value.0;
    var bs := PyEvalBools(py, e.values).value;
    var fs := MapToBool(vs);
    forall i | 0 <= i < |fs| ensures Holds(fs[i], m) == bs[i] && (NamesWithin(env, keys) ==> NamesB(fs[i]) <= keys) {
      ToBoolNames(vs[i]);
    }
    if NamesWithin(env, keys) {
      JunctionNames(fs, keys);
    }
    assert CompileExpr(ctx, env, e) == Ok((BoolV(if e.bop == A.OpAnd then AndAll(fs) else OrAll(fs)), env));
  }

  lemma UnaryFaithful(ctx: Ctx, env: Env, py: PyEnv, e: A.Expr, m: Model, keys: set<string>)
    requires e.UnaryOp? && PyEval(py, e).Some? && EnvRep(env, py, m)
    ensures ExprOk(ctx, env, py, e, m, keys)
    decreases e, 0
  {
    ExprFaithful(ctx, env, py, e.operand, m, keys);
    var v := CompileExpr(ctx, env, e.operand).value.0;
    ToBoolNames(v);
  }

  /** The operands of `and`/`or`: all compile, create nothing, and each
      represents its Python boolean. */
  lemma {:induction false} ExprsFaithful(ctx: Ctx, env: Env, py: PyEnv, es: seq<A.Expr>, m: Model, keys: set<string>)
    requires PyEvalBools(py, es).Some? && EnvRep(env, py, m)
    ensures var r := CompileExprs(ctx, env, es);
      var bs := PyEvalBools(py, es).value;
      r.Ok? && r.value.1 == env &&
      (forall i :: 0 <= i < |es| ==> Represents(r.value.0[i], m, PBool(bs[i]))) &&
      (NamesWithin(env, keys) ==> forall i :: 0 <= i < |es| ==> ValueNames(r.value.0[i]) <= keys)
    decreases es, 1
  {
    if |es| > 0 {
      ExprFaithful(ctx, env, py, es[0], m, keys);
      ExprsFaithful(ctx, env, py, es[1..], m, keys);
      var r := CompileExprs(ctx, env, es);
      var p := CompileExpr(ctx, env, es[0]).value;
      var q := CompileExprs(ctx, env, es[1..]).value;
      assert r == Ok(([p.0] + q.0, env));
      var bs := PyEvalBools(py, es).value;
      assert bs == [PyEval(py, es[0]).value.v] + PyEvalBools(py, es[1..]).value;
      forall i | 1 <= i < |es|
        ensures Represents(r.value.0[i], m, PBool(bs[i]))
        ensures NamesWithin(env, keys) ==> ValueNames(r.value.0[i]) <= keys
      {
        assert r.value.0[i] == q.0[i - 1];
        assert bs[i] == PyEvalBools(py, es[1..]).value[i - 1];
      }
    }
  }

  // ---------------------------------------------------------------------
  // Statements

  /** Every model in which `s`'s environment has Python's values `py` and
      the constraints added from `s` to `r` hold gives `r`'s environment
      Python's values `pyOut`. */
  ghost predicate Determined(s: CState, r: CState, py: PyEnv, pyOut: PyEnv)
    requires Extends(s, r)
  {
    forall m :: EnvRep(s.env, py, m) && AllHold(Added(s, r), m) ==> EnvRep(r.env, pyOut, m)
  }

  /** `b` extends `a` with values for the variables created from `s` to `r`
      that satisfy the added constraints; every variable mentioned after the
      step has a value in `b`, and every one is numbered below `r`'s
      generation. */
  ghost predicate Witnessed(s: CState, r: CState, a: Assignment, b: Assignment)
    requires Extends(s, r)
  {
    SubAssignment(a, b) && Satisfied(Added(s, r), b) &&
    NamesWithin(r.env, b.Keys) && Fresh(b.Keys, r.gen)
  }

  /** `b` gives a value to every variable of `fs` and satisfies them all. */
  ghost predicate Satisfied(fs: seq<BoolTerm>, b: Assignment) {
    AllHold(fs, ModelOf(b)) && forall i :: 0 <= i < |fs| ==> NamesB(fs[i]) <= b.Keys
  }

  lemma SatisfiedStable(fs: seq<BoolTerm>, a: Assignment, b: Assignment)
    requires Satisfied(fs, a) && SubAssignment(a, b)
    ensures Satisfied(fs, b)
  {
    FormulasStable(fs, a, b);
  }

  lemma SatisfiedConcat(f: seq<BoolTerm>, g: seq<BoolTerm>, b: Assignment)
    requires Satisfied(f, b) && Satisfied(g, b)
    ensures Satisfied(f + g, b)
  {
    AllHoldConcat(f, g, ModelOf(b));
    forall i | 0 <= i < |f + g| ensures NamesB((f + g)[i]) <= b.Keys {
      if i < |f| {
        assert (f + g)[i] == f[i];
      } else {
        assert (f + g)[i] == g[i - |f|];
      }
    }
  }

  /** `a` gives `s`'s environment Python's values `py`. */
  ghost predicate Start(s: CState, py: PyEnv, a: Assignment) {
    EnvRep(s.env, py, ModelOf(a)) && NamesWithin(s.env, a.Keys) && Fresh(a.Keys, s.gen)
  }

  ghost predicate Assumptions(ctx: Ctx) {
    DefaultSorts(ctx) && OrderIsEnumeration(ctx)
  }

  lemma Next(s: CState, r: CState, py: PyEnv, pyOut: PyEnv, a: Assignment, b: Assignment)
    requires Extends(s, r) && Start(s, py, a) && Determined(s, r, py, pyOut) && Witnessed(s, r, a, b)
    ensures Start(r, pyOut, b)
  {
    EnvRepStable(s.env, py, a, b);
  }

  lemma WitnessedChain(s: CState, t: CState, u: CState, a: Assignment, b: Assignment, c: Assignment)
    requires Extends(s, t) && Extends(t, u) && Witnessed(s, t, a, b) && Witnessed(t, u, b, c)
    ensures Extends(s, u) && Witnessed(s, u, a, c)
  {
    AddedTwice(s, t, u);
    SatisfiedStable(Added(s, t), b, c);
    SatisfiedConcat(Added(s, t), Added(t, u), c);
  }

  lemma DeterminedChain(s: CState, t: CState, u: CState, py: PyEnv, pt: PyEnv, pu: PyEnv)
    requires Extends(s, t) && Extends(t, u)
    requires Determined(s, t, py, pt) && Determined(t, u, pt, pu)
    ensures Extends(s, u) && Determined(s, u, py, pu)
  {
    AddedTwice(s, t, u);
    forall m | EnvRep(s.env, py, m) && AllHold(Added(s, u), m) ensures EnvRep(u.env, pu, m) {
      AllHoldConcat(Added(s, t), Added(t, u), m);
    }
  }

  lemma Chain(s: CState, t: CState, u: CState, py: PyEnv, pt: PyEnv, pu: PyEnv, a: Assignment, b: Assignment, c: Assignment)
    requires Extends(s, t) && Extends(t, u)
    requires Determined(s, t, py, pt) && Witnessed(s, t, a, b)
    requires Determined(t, u, pt, pu) && Witnessed(t, u, b, c)
    ensures Extends(s, u) && Determined(s, u, py, pu) && Witnessed(s, u, a, c)
  {
    WitnessedChain(s, t, u, a, b, c);
    DeterminedChain(s, t, u, py, pt, pu);
  }

  lemma {:induction false} StmtsFaithful(ctx: Ctx, s: CState, ss: seq<A.Stmt>, py: PyEnv, a: Assignment) returns (b: Assignment)
    requires Assumptions(ctx) && PyExec(py, ss).Some? && Start(s, py, a)
    ensures ExecStmts(ctx, s, ss).Ok?
    ensures Determined(s, ExecStmts(ctx, s, ss).value, py, PyExec(py, ss).value)
    ensures Witnessed(s, ExecStmts(ctx, s, ss).value, a, b)
    decreases A.StmtsSize(ss), 2, 0
  {
    if |ss| == 0 {
      b := a;
      assert Added(s, s) == [];
    } else {
      var a1 := StmtFaithful(ctx, s, ss[0], py, a);
      var s1 := ExecStmt(ctx, s, ss[0]).value;
      var py1 := PyStmt(py, ss[0]).value;
      Next(s, s1, py, py1, a, a1);
      b := StmtsFaithful(ctx, s1, ss[1..], py1, a1);
      Chain(s, s1, ExecStmts(ctx, s1, ss[1..]).value, py, py1, PyExec(py1, ss[1..]).value, a, a1, b);
    }
  }

  lemma {:induction false} StmtFaithful(ctx: Ctx, s: CState, st: A.Stmt, py: PyEnv, a: Assignment) returns (b: Assignment)
    requires Assumptions(ctx) && PyStmt(py, st).Some? && Start(s, py, a)
    ensures ExecStmt(ctx, s, st).Ok?
    ensures Determined(s, ExecStmt(ctx, s, st).value, py, PyStmt(py, st).value)
    ensures Witnessed(s, ExecStmt(ctx, s, st).value, a, b)
    decreases A.StmtSize(st), 1, 0
  {
    match st
    case Assign(_, _) => b := AssignFaithful(ctx, s, st, py, a);
    case AugAssign(_, _, _) => b := AugAssignFaithful(ctx, s, st, py, a);
    case If(_, _, _) => b := IfFaithful(ctx, s, st, py, a);
    case For(_, _, _) => b := ForFaithful(ctx, s, st, py, a);
    case ExprStmt(e) =>
      ExprFaithful(ctx, s.env, py, e, ModelOf(a), a.Keys);
      b := a;
      assert ExecStmt(ctx, s, st) == Ok(s);
      assert Added(s, s) == [];
  }

  /** A fresh variable given the value of `t` satisfies `name == t`. */
  lemma EqWitness(name: string, t: IntTerm, a: Assignment)
    requires name !in a && NamesI(t) <= a.Keys
    ensures var b := a[name := EvalInt(t, ModelOf(a))];
      SubAssignment(a, b) && Holds(Compare(Eq, IVar(name), t), ModelOf(b)) &&
      NamesB(Compare(Eq, IVar(name), t)) <= a.Keys + {name}
  {
    var b := a[name := EvalInt(t, ModelOf(a))];
    ValueStable(IntV(t), a, b);
  }

  lemma FreshName(s: CState, x: string, a: Assignment)
    requires Fresh(a.Keys, s.gen)
    ensures SsaName(s.itemId, x, s.gen) !in a
    ensures NumberSuffix(SsaName(s.itemId, x, s.gen)) == s.gen
  {
    NumberSuffixOf(s.itemId + "_" + x, s.gen);
  }

  /** A step that binds `x` to the fresh variable `{item}_{x}_{gen}` and adds
      one constraint, satisfied when that variable has the value `val`. */
  lemma BindWitness(s: CState, x: string, ssa: Value, c: BoolTerm, a: Assignment, val: int)
    requires ssa == IntV(IVar(SsaName(s.itemId, x, s.gen))) || ssa == BoolV(BVar(SsaName(s.itemId, x, s.gen)))
    requires NamesWithin(s.env, a.Keys) && Fresh(a.Keys, s.gen)
    requires NamesB(c) <= a.Keys + {SsaName(s.itemId, x, s.gen)}
    requires Holds(c, ModelOf(a[SsaName(s.itemId, x, s.gen) := val]))
    ensures var r := CState(s.env[x := ssa], s.constraints + [c], s.gen + 1, s.itemId);
      Extends(s, r) && Witnessed(s, r, a, a[SsaName(s.itemId, x, s.gen) := val])
  {
    FreshName(s, x, a);
    var n := SsaName(s.itemId, x, s.gen);
    var b := a[n := val];
    var r := CState(s.env[x := ssa], s.constraints + [c], s.gen + 1, s.itemId);
    assert Added(s, r) == [c];
    assert SubAssignment(a, b);
    assert Satisfied([c], b);
    assert ValueNames(ssa) == {n};
    assert NamesWithin(r.env, b.Keys) by {
      forall y | y in r.env ensures ValueNames(r.env[y]) <= b.Keys {
        if y != x { assert r.env[y] == s.env[y]; }
      }
    }
    assert Fresh(b.Keys, r.gen) by {
      forall k | k in b.Keys ensures NumberSuffix(k) < r.gen {
        if k != n { assert k in a.Keys; }
      }
    }
  }

  lemma AssignFaithful(ctx: Ctx, s: CState, st: A.Stmt, py: PyEnv, a: Assignment) returns (b: Assignment)
    requires st.Assign? && PyStmt(py, st).Some? && Start(s, py, a)
    ensures ExecStmt(ctx, s, st).Ok?
    ensures Determined(s, ExecStmt(ctx, s, st).value, py, PyStmt(py, st).value)
    ensures Witnessed(s, ExecStmt(ctx, s, st).value, a, b)
    decreases A.StmtSize(st), 0, 0
  {
    var x := st.targets[0].id;
    var m0 := ModelOf(a);
    ExprFaithful(ctx, s.env, py, st.value, m0, a.Keys);
    var v := CompileExpr(ctx, s.env, st.value).value.0;
    var name := SsaName(s.itemId, x, s.gen);
    var ssa := if v.BoolV? then BoolV(BVar(name)) else IntV(IVar(name));
    var c := EqValues(ssa, v).value;
    assert ExecStmt(ctx, s, st) == Ok(CState(s.env[x := ssa], s.constraints + [c], s.gen + 1, s.itemId));
    FreshName(s, x, a);
    b := a[name := Num(v, m0)];
    AssignConstraint(name, v, a);
    BindWitness(s, x, ssa, c, a, Num(v, m0));
    AssignDetermined(ctx, s, st, py);
  }

  /** The constraint `name == v` of an assignment holds once the fresh
      variable is given the value of `v`, and names nothing else. */
  lemma AssignConstraint(name: string, v: Value, a: Assignment)
    requires IsTerm(v) && ValueNames(v) <= a.Keys && name !in a
    ensures var ssa := if v.BoolV? then BoolV(BVar(name)) else IntV(IVar(name));
      var c := EqValues(ssa, v).value;
      Holds(c, ModelOf(a[name := Num(v, ModelOf(a))])) && NamesB(c) <= a.Keys + {name}
  {
    var b := a[name := Num(v, ModelOf(a))];
    var ssa := if v.BoolV? then BoolV(BVar(name)) else IntV(IVar(name));
    ValueStable(v, a, b);
    assert Num(ssa, ModelOf(b)) == Num(v, ModelOf(a));
    ToIntNames(v);
  }

  lemma AssignDetermined(ctx: Ctx, s: CState, st: A.Stmt, py: PyEnv)
    requires st.Assign? && PyStmt(py, st).Some? && ExecStmt(ctx, s, st).Ok?
    requires PyEval(py, st.value).Some? && CompileExpr(ctx, s.env, st.value).Ok?
    ensures Determined(s, ExecStmt(ctx, s, st).value, py, PyStmt(py, st).value)
  {
    var x := st.targets[0].id;
    var v := CompileExpr(ctx, s.env, st.value).value.0;
    var r := ExecStmt(ctx, s, st).value;
    forall m | EnvRep(s.env, py, m) && AllHold(Added(s, r), m)
      ensures EnvRep(r.env, PyStmt(py, st).value, m)
    {
      ExprFaithful(ctx, s.env, py, st.value, m, {});
      var name := SsaName(s.itemId, x, s.gen);
      var ssa := if v.BoolV? then BoolV(BVar(name)) else IntV(IVar(name));
      var c := EqValues(ssa, v).value;
      assert r == CState(s.env[x := ssa], s.constraints + [c], s.gen + 1, s.itemId);
      assert Added(s, r)[0] == c;
    }
  }

  /** The augmented value of `x op= v` when `x` is bound to a term. */
  function AugTerm(s: CState, st: A.Stmt, v: Value): IntTerm
    requires st.AugAssign? && st.target.Name? && st.target.id in s.env && st.aop in AugOps()
    requires IsTerm(s.env[st.target.id]) && IsTerm(v)
  {
    ArithAsWritten(st.aop, ToInt(s.env[st.target.id]).i, ToInt(v).i)
  }

  /** The augmented term has Python's value, and only the variables of the
      old binding and of the right-hand side. */
  lemma AugValue(s: CState, st: A.Stmt, v: Value, py: PyEnv, m: Model, keys: set<string>)
    requires st.AugAssign? && PyStmt(py, st).Some? && PyEval(py, st.avalue).Some?
    requires EnvRep(s.env, py, m) && Represents(v, m, PyEval(py, st.avalue).value)
    ensures st.target.id in s.env && IsTerm(s.env[st.target.id])
    ensures EvalInt(AugTerm(s, st, v), m) == PyArith(st.aop, PyNum(py[st.target.id]), PyNum(PyEval(py, st.avalue).value)).value
    ensures ValueNames(s.env[st.target.id]) <= keys && ValueNames(v) <= keys ==> NamesI(AugTerm(s, st, v)) <= keys
  {
    var cur := s.env[st.target.id];
    ToIntNames(cur);
    ToIntNames(v);
    ArithNames(st.aop, ToInt(cur).i, ToInt(v).i);
  }

  /** The state after `x op= v` on a bound name, with the default sorts. */
  lemma AugShape(ctx: Ctx, s: CState, st: A.Stmt)
    requires DefaultSorts(ctx) && st.AugAssign? && st.target.Name? && st.aop in AugOps()
    requires st.target.id in s.env && IsTerm(s.env[st.target.id])
    requires CompileExpr(ctx, s.env, st.avalue).Ok? && CompileExpr(ctx, s.env, st.avalue).value.1 == s.env
    requires IsTerm(CompileExpr(ctx, s.env, st.avalue).value.0)
    ensures var x := st.target.id;
      var name := SsaName(s.itemId, x, s.gen);
      var t := AugTerm(s, st, CompileExpr(ctx, s.env, st.avalue).value.0);
      ExecStmt(ctx, s, st) == Ok(CState(s.env[x := IntV(IVar(name))], s.constraints + [Compare(Eq, IVar(name), t)], s.gen + 1, s.itemId))
  {
    var x := st.target.id;
    assert AugCurrent(ctx, s.env, x, true) == (s.env[x], s.env);
    assert s.(env := s.env) == s;
    assert MkVar(ctx, SsaName(s.itemId, x, s.gen)) == IntV(IVar(SsaName(s.itemId, x, s.gen)));
  }

  lemma AugAssignFaithful(ctx: Ctx, s: CState, st: A.Stmt, py: PyEnv, a: Assignment) returns (b: Assignment)
    requires DefaultSorts(ctx)
    requires st.AugAssign? && PyStmt(py, st).Some? && Start(s, py, a)
    ensures ExecStmt(ctx, s, st).Ok?
    ensures Determined(s, ExecStmt(ctx, s, st).value, py, PyStmt(py, st).value)
    ensures Witnessed(s, ExecStmt(ctx, s, st).value, a, b)
    decreases A.StmtSize(st), 0, 0
  {
    ExprFaithful(ctx, s.env, py, st.avalue, ModelOf(a), a.Keys);
    b := AugWitness(ctx, s, st, a);
    AugAssignDetermined(ctx, s, st, py);
  }

  lemma AugWitness(ctx: Ctx, s: CState, st: A.Stmt, a: Assignment) returns (b: Assignment)
    requires DefaultSorts(ctx) && st.AugAssign? && st.target.Name? && st.aop in AugOps()
    requires st.target.id in s.env && IsTerm(s.env[st.target.id])
    requires CompileExpr(ctx, s.env, st.avalue).Ok? && CompileExpr(ctx, s.env, st.avalue).value.1 == s.env
    requires IsTerm(CompileExpr(ctx, s.env, st.avalue).value.0)
    requires ValueNames(CompileExpr(ctx, s.env, st.avalue).value.0) <= a.Keys
    requires NamesWithin(s.env, a.Keys) && Fresh(a.Keys, s.gen)
    ensures ExecStmt(ctx, s, st).Ok? && Witnessed(s, ExecStmt(ctx, s, st).value, a, b)
  {
    var x := st.target.id;
    var cur := s.env[x];
    var v := CompileExpr(ctx, s.env, st.avalue).value.0;
    var name := SsaName(s.itemId, x, s.gen);
    var t := AugTerm(s, st, v);
    ToIntNames(cur);
    ToIntNames(v);
    ArithNames(st.aop, ToInt(cur).i, ToInt(v).i);
    var n := EvalInt(t, ModelOf(a));
    AugShape(ctx, s, st);
    FreshName(s, x, a);
    b := a[name := n];
    assert NamesI(t) <= a.Keys;
    EqWitness(name, t, a);
    BindWitness(s, x, IntV(IVar(name)), Compare(Eq, IVar(name), t), a, n);
  }

  lemma AugAssignDetermined(ctx: Ctx, s: CState, st: A.Stmt, py: PyEnv)
    requires DefaultSorts(ctx)
    requires st.AugAssign? && PyStmt(py, st).Some?
    requires st.target.id in s.env && IsTerm(s.env[st.target.id])
    requires CompileExpr(ctx, s.env, st.avalue).Ok? && CompileExpr(ctx, s.env, st.avalue).value.1 == s.env
    requires IsTerm(CompileExpr(ctx, s.env, st.avalue).value.0)
    ensures ExecStmt(ctx, s, st).Ok?
    ensures Determined(s, ExecStmt(ctx, s, st).value, py, PyStmt(py, st).value)
  {
    var x := st.target.id;
    var v := CompileExpr(ctx, s.env, st.avalue).value.0;
    var name := SsaName(s.itemId, x, s.gen);
    var t := AugTerm(s, st, v);
    AugShape(ctx, s, st);
    var r := ExecStmt(ctx, s, st).value;
    assert Added(s, r) == [Compare(Eq, IVar(name), t)];
    forall m | EnvRep(s.env, py, m) && AllHold(Added(s, r), m)
      ensures EnvRep(r.env, PyStmt(py, st).value, m)
    {
      ExprFaithful(ctx, s.env, py, st.avalue, m, {});
      assert Holds(Added(s, r)[0], m);
      AugValue(s, st, v, py, m, {});
    }
  }

  lemma NamesWithinMono(env: Env, k1: set<string>, k2: set<string>)
    requires NamesWithin(env, k1) && k1 <= k2
    ensures NamesWithin(env, k2)
  {
  }

  lemma IfFaithful(ctx: Ctx, s: CState, st: A.Stmt, py: PyEnv, a: Assignment) returns (b: Assignment)
    requires Assumptions(ctx) && st.If? && PyStmt(py, st).Some? && Start(s, py, a)
    ensures ExecStmt(ctx, s, st).Ok?
    ensures Determined(s, ExecStmt(ctx, s, st).value, py, PyStmt(py, st).value)
    ensures Witnessed(s, ExecStmt(ctx, s, st).value, a, b)
    decreases A.StmtSize(st), 0, 0
  {
    ExprFaithful(ctx, s.env, py, st.cond, ModelOf(a), a.Keys);
    var cv := CompileExpr(ctx, s.env, st.cond).value.0;
    var cond := ToBool(cv);
    ToBoolNames(cv);
    var t0 := CState(s.env, [], s.gen, ThenId(s.itemId, s.gen));
    var bt := StmtsFaithful(ctx, t0, st.thenBody, py, a);
    var t := ExecStmts(ctx, t0, st.thenBody).value;
    Next(t0, t, py, PyExec(py, st.thenBody).value, a, bt);
    var e0 := CState(s.env, [], t.gen, ElseId(s.itemId, s.gen));
    EnvRepStable(s.env, py, a, bt);
    NamesWithinMono(s.env, a.Keys, bt.Keys);
    var be := StmtsFaithful(ctx, e0, st.elseBody, py, bt);
    var e := ExecStmts(ctx, e0, st.elseBody).value;
    Next(e0, e, py, PyExec(py, st.elseBody).value, bt, be);
    NamesWithinMono(t.env, bt.Keys, be.Keys);
    NamesWithinMono(s.env, bt.Keys, be.Keys);
    var names := ctx.order(t.env.Keys + e.env.Keys);
    var s0 := CState(s.env, s.constraints, e.gen, s.itemId);
    var merged := Merge(ctx, cond, t.env, e.env, names, s0);
    b := MergeWitness(ctx, cond, t.env, e.env, names, s0, be);
    assert ExecStmt(ctx, s, st) == Ok(merged.(constraints := merged.constraints + t.constraints + e.constraints));
    IfWitnessed(s, t0, t, e0, e, s0, merged, a, bt, be, b);
    IfDetermined(ctx, s, st, py, t0, t, e0, e);
  }

  lemma IfWitnessed(s: CState, t0: CState, t: CState, e0: CState, e: CState, s0: CState, merged: CState,
                    a: Assignment, bt: Assignment, be: Assignment, b: Assignment)
    requires Extends(t0, t) && Extends(e0, e) && Extends(s0, merged)
    requires t0.constraints == [] && e0.constraints == [] && s0.constraints == s.constraints
    requires s0.itemId == s.itemId && s0.gen >= s.gen
    requires Witnessed(t0, t, a, bt) && Witnessed(e0, e, bt, be) && Witnessed(s0, merged, be, b)
    ensures var r := merged.(constraints := merged.constraints + t.constraints + e.constraints);
      Extends(s, r) && Witnessed(s, r, a, b)
  {
    var r := merged.(constraints := merged.constraints + t.constraints + e.constraints);
    assert Added(s, r) == Added(s0, merged) + Added(t0, t) + Added(e0, e);
    SatisfiedStable(Added(t0, t), bt, b);
    SatisfiedStable(Added(e0, e), be, b);
    SatisfiedConcat(Added(s0, merged), Added(t0, t), b);
    SatisfiedConcat(Added(s0, merged) + Added(t0, t), Added(e0, e), b);
  }

  lemma IfDetermined(ctx: Ctx, s: CState, st: A.Stmt, py: PyEnv, t0: CState, t: CState, e0: CState, e: CState)
    requires Assumptions(ctx) && st.If? && PyStmt(py, st).Some?
    requires CompileExpr(ctx, s.env, st.cond).Ok? && CompileExpr(ctx, s.env, st.cond).value.1 == s.env
    requires t0 == CState(s.env, [], s.gen, ThenId(s.itemId, s.gen)) && ExecStmts(ctx, t0, st.thenBody) == Ok(t)
    requires e0 == CState(s.env, [], t.gen, ElseId(s.itemId, s.gen)) && ExecStmts(ctx, e0, st.elseBody) == Ok(e)
    requires Determined(t0, t, py, PyExec(py, st.thenBody).value)
    requires Determined(e0, e, py, PyExec(py, st.elseBody).value)
    ensures ExecStmt(ctx, s, st).Ok? && Determined(s, ExecStmt(ctx, s, st).value, py, PyStmt(py, st).value)
  {
    var r := IfResult(ctx, s, st, t0, t, e0, e);
    forall m | EnvRep(s.env, py, m) && AllHold(Added(s, r), m)
      ensures EnvRep(r.env, PyStmt(py, st).value, m)
    {
      IfRep(ctx, s, st, py, t0, t, e0, e, m, r);
    }
  }

  /** The state an `if` leaves: the merge of the two branches, with the
      constraints of both appended. */
  lemma IfResult(ctx: Ctx, s: CState, st: A.Stmt, t0: CState, t: CState, e0: CState, e: CState) returns (r: CState)
    requires st.If?
    requires CompileExpr(ctx, s.env, st.cond).Ok? && CompileExpr(ctx, s.env, st.cond).value.1 == s.env
    requires t0 == CState(s.env, [], s.gen, ThenId(s.itemId, s.gen)) && ExecStmts(ctx, t0, st.thenBody) == Ok(t)
    requires e0 == CState(s.env, [], t.gen, ElseId(s.itemId, s.gen)) && ExecStmts(ctx, e0, st.elseBody) == Ok(e)
    ensures ExecStmt(ctx, s, st) == Ok(r)
    ensures var merged := Merge(ctx, ToBool(CompileExpr(ctx, s.env, st.cond).value.0), t.env, e.env,
                                ctx.order(t.env.Keys + e.env.Keys), CState(s.env, s.constraints, e.gen, s.itemId));
      r == merged.(constraints := merged.constraints + t.constraints + e.constraints)
  {
    var cond := ToBool(CompileExpr(ctx, s.env, st.cond).value.0);
    var names := ctx.order(t.env.Keys + e.env.Keys);
    var s0 := CState(s.env, s.constraints, e.gen, s.itemId);
    var merged := Merge(ctx, cond, t.env, e.env, names, s0);
    r := merged.(constraints := merged.constraints + t.constraints + e.constraints);
    assert ExecStmt(ctx, s, st) == Ok(r);
  }

  /** In a model of what the `if` adds, the merged environment has Python's
      values after the statement. */
  lemma IfRep(ctx: Ctx, s: CState, st: A.Stmt, py: PyEnv, t0: CState, t: CState, e0: CState, e: CState, m: Model, r: CState)
    requires Assumptions(ctx) && st.If? && PyStmt(py, st).Some?
    requires CompileExpr(ctx, s.env, st.cond).Ok? && CompileExpr(ctx, s.env, st.cond).value.1 == s.env
    requires t0 == CState(s.env, [], s.gen, ThenId(s.itemId, s.gen)) && ExecStmts(ctx, t0, st.thenBody) == Ok(t)
    requires e0 == CState(s.env, [], t.gen, ElseId(s.itemId, s.gen)) && ExecStmts(ctx, e0, st.elseBody) == Ok(e)
    requires Determined(t0, t, py, PyExec(py, st.thenBody).value)
    requires Determined(e0, e, py, PyExec(py, st.elseBody).value)
    requires var merged := Merge(ctx, ToBool(CompileExpr(ctx, s.env, st.cond).value.0), t.env, e.env,
                                 ctx.order(t.env.Keys + e.env.Keys), CState(s.env, s.constraints, e.gen, s.itemId));
      r == merged.(constraints := merged.constraints + t.constraints + e.constraints)
    requires EnvRep(s.env, py, m) && AllHold(Added(s, r), m)
    ensures EnvRep(r.env, PyStmt(py, st).value, m)
  {
    var cond := ToBool(CompileExpr(ctx, s.env, st.cond).value.0);
    var pc := PyEval(py, st.cond).value;
    var pt, pe := PyExec(py, st.thenBody).value, PyExec(py, st.elseBody).value;
    var names := ctx.order(t.env.Keys + e.env.Keys);
    assert Enumerates(names, t.env.Keys + e.env.Keys);
    var s0 := CState(s.env, s.constraints, e.gen, s.itemId);
    var merged := Merge(ctx, cond, t.env, e.env, names, s0);
    assert PyStmt(py, st).value == PyJoin(PyNum(pc) != 0, pt, pe);
    AddedSplit(s, r, s0, merged, t0, t, e0, e, m);
    CondRep(ctx, s.env, py, st.cond, m);
    JoinRep(ctx, cond, t.env, e.env, names, s0, m, py, pt, pe, PyNum(pc) != 0);
  }

  /** The constraints an `if` adds hold iff those of the merge and of both
      branches hold. */
  lemma AddedSplit(s: CState, r: CState, s0: CState, merged: CState, t0: CState, t: CState, e0: CState, e: CState, m: Model)
    requires Extends(s0, merged) && Extends(t0, t) && Extends(e0, e) && Extends(s, r)
    requires s0.constraints == s.constraints && t0.constraints == [] && e0.constraints == []
    requires r == merged.(constraints := merged.constraints + t.constraints + e.constraints)
    requires AllHold(Added(s, r), m)
    ensures AllHold(Added(s0, merged), m) && AllHold(Added(t0, t), m) && AllHold(Added(e0, e), m)
  {
    assert Added(s, r) == Added(s0, merged) + Added(t0, t) + Added(e0, e);
    AllHoldConcat(Added(s0, merged) + Added(t0, t), Added(e0, e), m);
    AllHoldConcat(Added(s0, merged), Added(t0, t), m);
  }

  /** The compiled condition holds in a model of the environment iff
      Python's value of it is non-zero. */
  lemma CondRep(ctx: Ctx, env: Env, py: PyEnv, cond: A.Expr, m: Model)
    requires PyEval(py, cond).Some? && EnvRep(env, py, m)
    ensures CompileExpr(ctx, env, cond).Ok? &&
      (Holds(ToBool(CompileExpr(ctx, env, cond).value.0), m) <==> PyNum(PyEval(py, cond).value) != 0)
  {
    ExprFaithful(ctx, env, py, cond, m, {});
  }

  /** In a model of the merge constraints where both branch environments
      have Python's values, the merged environment has the values of
      `PyJoin`. */
  lemma JoinRep(ctx: Ctx, cond: BoolTerm, tEnv: Env, eEnv: Env, names: seq<string>, s0: CState, m: Model,
                py: PyEnv, pt: PyEnv, pe: PyEnv, b: bool)
    requires DefaultSorts(ctx) && Enumerates(names, tEnv.Keys + eEnv.Keys)
    requires EnvRep(tEnv, pt, m) && EnvRep(eEnv, pe, m) && s0.env.Keys == py.Keys
    requires py.Keys <= pt.Keys && py.Keys <= pe.Keys
    requires Holds(cond, m) <==> b
    requires AllHold(Added(s0, Merge(ctx, cond, tEnv, eEnv, names, s0)), m)
    ensures EnvRep(Merge(ctx, cond, tEnv, eEnv, names, s0).env, PyJoin(b, pt, pe), m)
  {
    P.MergeMeaning(ctx, cond, tEnv, eEnv, names, s0, m);
    var r := Merge(ctx, cond, tEnv, eEnv, names, s0);
    var j := PyJoin(b, pt, pe);
    forall n ensures (n in r.env <==> n in j) && (n in j ==> Represents(r.env[n], m, j[n])) {
      if n in tEnv || n in eEnv {
        assert n in names;
      }
      JoinAt(cond, tEnv, eEnv, s0.env, r.env, n, m, py, pt, pe, b);
    }
  }

  lemma JoinAt(cond: BoolTerm, tEnv: Env, eEnv: Env, before: Env, after: Env, n: string, m: Model,
               py: PyEnv, pt: PyEnv, pe: PyEnv, b: bool)
    requires EnvRep(tEnv, pt, m) && EnvRep(eEnv, pe, m) && before.Keys == py.Keys
    requires py.Keys <= pt.Keys && py.Keys <= pe.Keys
    requires Holds(cond, m) <==> b
    requires n in tEnv || n in eEnv ==>
      P.MergedAs(cond, Side(tEnv, before, n), Side(eEnv, before, n), before, after, n, m) &&
      (Merges(Side(tEnv, before, n), Side(eEnv, before, n)) ==> after[n].IntV?)
    requires !(n in tEnv || n in eEnv) ==> (n in after <==> n in before)
    ensures n in after <==> n in PyJoin(b, pt, pe)
    ensures n in PyJoin(b, pt, pe) ==> Represents(after[n], m, PyJoin(b, pt, pe)[n])
  {
  }

  /** The merge constraints are satisfied by giving each merge variable the
      value of the branch the condition chooses. */
  lemma {:induction false} MergeWitness(ctx: Ctx, cond: BoolTerm, tEnv: Env, eEnv: Env, names: seq<string>, s: CState, a: Assignment)
    returns (b: Assignment)
    requires DefaultSorts(ctx)
    requires NamesWithin(tEnv, a.Keys) && NamesWithin(eEnv, a.Keys) && NamesWithin(s.env, a.Keys)
    requires NamesB(cond) <= a.Keys && Fresh(a.Keys, s.gen)
    ensures Witnessed(s, Merge(ctx, cond, tEnv, eEnv, names, s), a, b)
    decreases |names|
  {
    if |names| == 0 {
      b := a;
      assert Added(s, s) == [];
    } else {
      var s1 := MergeStep(ctx, cond, tEnv, eEnv, names[0], s);
      var a1 := MergeStepWitness(ctx, cond, tEnv, eEnv, names[0], s, a);
      NamesWithinMono(tEnv, a.Keys, a1.Keys);
      NamesWithinMono(eEnv, a.Keys, a1.Keys);
      b := MergeWitness(ctx, cond, tEnv, eEnv, names[1..], s1, a1);
      WitnessedChain(s, s1, Merge(ctx, cond, tEnv, eEnv, names[1..], s1), a, a1, b);
    }
  }

  lemma MergeStepWitness(ctx: Ctx, cond: BoolTerm, tEnv: Env, eEnv: Env, n: string, s: CState, a: Assignment)
    returns (b: Assignment)
    requires DefaultSorts(ctx)
    requires NamesWithin(tEnv, a.Keys) && NamesWithin(eEnv, a.Keys) && NamesWithin(s.env, a.Keys)
    requires NamesB(cond) <= a.Keys && Fresh(a.Keys, s.gen)
    ensures Witnessed(s, MergeStep(ctx, cond, tEnv, eEnv, n, s), a, b)
  {
    var t, e := Side(tEnv, s.env, n), Side(eEnv, s.env, n);
    var r := MergeStep(ctx, cond, tEnv, eEnv, n, s);
    if Merges(t, e) {
      var name := SsaName(s.itemId, n, s.gen);
      var m0 := ModelOf(a);
      var val := if Holds(cond, m0) then Num(t, m0) else Num(e, m0);
      FreshName(s, n, a);
      b := a[name := val];
      var mv := MkVar(ctx, name);
      assert mv == IntV(IVar(name));
      MergeCase(cond, t, e, a, name, val);
      BindWitness(s, n, mv, MergeConstraint(cond, mv, t, e), a, val);
    } else {
      b := a;
      assert Added(s, r) == [];
    }
  }

  lemma MergeCase(cond: BoolTerm, t: Value, e: Value, a: Assignment, name: string, val: int)
    requires IsTerm(t) && IsTerm(e) && ValueNames(t) <= a.Keys && ValueNames(e) <= a.Keys
    requires NamesB(cond) <= a.Keys && name !in a
    requires val == if Holds(cond, ModelOf(a)) then Num(t, ModelOf(a)) else Num(e, ModelOf(a))
    ensures var c := MergeConstraint(cond, IntV(IVar(name)), t, e);
      Holds(c, ModelOf(a[name := val])) && NamesB(c) <= a.Keys + {name}
  {
    var b := a[name := val];
    var c := MergeConstraint(cond, IntV(IVar(name)), t, e);
    var ti, ei := ToInt(t).i, ToInt(e).i;
    assert Holds(c, ModelOf(b)) by {
      var ma, mb := ModelOf(a), ModelOf(b);
      ValueStable(t, a, b);
      ValueStable(e, a, b);
      ModelsAgree(a, b, NamesB(cond));
      AgreeB(cond, ma, mb);
      assert EvalInt(ti, mb) == Num(t, ma) && EvalInt(ei, mb) == Num(e, ma);
      assert EvalInt(Ite(cond, ti, ei), mb) == val;
      assert EvalInt(IVar(name), mb) == val;
    }
    assert NamesB(c) <= a.Keys + {name} by {
      ToIntNames(t);
      ToIntNames(e);
    }
  }

  lemma ForFaithful(ctx: Ctx, s: CState, st: A.Stmt, py: PyEnv, a: Assignment) returns (b: Assignment)
    requires Assumptions(ctx) && st.For? && PyStmt(py, st).Some? && Start(s, py, a)
    ensures ExecStmt(ctx, s, st).Ok?
    ensures Determined(s, ExecStmt(ctx, s, st).value, py, PyStmt(py, st).value)
    ensures Witnessed(s, ExecStmt(ctx, s, st).value, a, b)
    decreases A.StmtSize(st), 0, 0
  {
    var k := st.iter.args[0].c.i;
    assert s.(env := s.env) == s;
    assert ExecStmt(ctx, s, st) == Unroll(ctx, s, st.target.id, RangeValues(k), st.body);
    b := UnrollFaithful(ctx, s, st.target.id, RangeValues(k), RangeInts(k), st.body, py, a);
  }

  lemma {:induction false} UnrollFaithful(ctx: Ctx, s: CState, x: string, values: seq<Value>, ks: seq<int>,
                                          body: seq<A.Stmt>, py: PyEnv, a: Assignment) returns (b: Assignment)
    requires Assumptions(ctx)
    requires |values| == |ks| && forall i :: 0 <= i < |ks| ==> values[i] == IntV(IConst(ks[i]))
    requires PyLoop(py, x, ks, body).Some? && Start(s, py, a)
    ensures Unroll(ctx, s, x, values, body).Ok?
    ensures Determined(s, Unroll(ctx, s, x, values, body).value, py, PyLoop(py, x, ks, body).value)
    ensures Witnessed(s, Unroll(ctx, s, x, values, body).value, a, b)
    decreases A.StmtsSize(body), 3, |values|
  {
    if |values| == 0 {
      b := a;
      assert Added(s, s) == [];
    } else {
      var s' := s.(env := s.env[x := values[0]]);
      var py' := py[x := PInt(ks[0])];
      assert Start(s', py', a);
      var a1 := StmtsFaithful(ctx, s', body, py', a);
      var s1 := ExecStmts(ctx, s', body).value;
      var p1 := PyExec(py', body).value;
      Next(s', s1, py', p1, a, a1);
      assert Added(s, s1) == Added(s', s1);
      assert Determined(s, s1, py, p1) by {
        forall m | EnvRep(s.env, py, m) && AllHold(Added(s, s1), m) ensures EnvRep(s1.env, p1, m) {
          assert EnvRep(s'.env, py', m);
        }
      }
      assert forall i :: 0 <= i < |ks[1..]| ==> values[1..][i] == IntV(IConst(ks[1..][i]));
      b := UnrollFaithful(ctx, s1, x, values[1..], ks[1..], body, p1, a1);
      Chain(s, s1, Unroll(ctx, s1, x, values[1..], body).value, py, p1, PyLoop(p1, x, ks[1..], body).value, a, a1, b);
    }
  }

  // ---------------------------------------------------------------------
  // The theorem

  /** A code block that Python runs to the end from an empty environment
      compiles (with the default `z3var_func`); its constraints have a model,
      and in every model of them the final environment binds exactly
      Python's final variables, each to Python's value. */
  lemma CompileCodeFaithful(ctx: Ctx, itemId: string, code: seq<A.Stmt>)
    requires DefaultSorts(ctx) && OrderIsEnumeration(ctx)
    requires PyExec(map[], code).Some?
    ensures CompileCode(ctx, map[], itemId, code).Ok?
    ensures exists m :: AllHold(CompileCode(ctx, map[], itemId, code).value.constraints, m)
    ensures forall m :: AllHold(CompileCode(ctx, map[], itemId, code).value.constraints, m) ==>
      EnvRep(CompileCode(ctx, map[], itemId, code).value.env, PyExec(map[], code).value, m)
  {
    var s := CState(map[], [], 0, itemId);
    var b := StmtsFaithful(ctx, s, code, map[], map[]);
    var r := CompileCode(ctx, map[], itemId, code).value;
    assert Added(s, r) == r.constraints;
    assert AllHold(r.constraints, ModelOf(b));
  }
}

/** Code blocks from the compiler's single-assignment tests, with the values
    every model of their constraints must give. */
module PragmaticExamples {
  import opened Wrappers
  import opened Smt
  import A = PyAst
  import opened Pragmatic
  import opened PragmaticFaithful

  function Assign(x: string, e: A.Expr): A.Stmt {
    A.Assign([A.Name(x)], e)
  }

  function Int(k: int): A.Expr {
    A.Const(A.CInt(k))
  }

  function Bin(x: string, op: A.BinOperator, k: int): A.Expr {
    A.BinOp(A.Name(x), op, Int(k))
  }

  /** `x = 1; x = x + 1; x = x * 2; x = x - 1; result = x` */
  function ChainCode(): seq<A.Stmt> {
    [Assign("x", Int(1)), Assign("x", Bin("x", A.OpAdd, 1)), Assign("x", Bin("x", A.OpMult, 2)),
     Assign("x", Bin("x", A.OpSub, 1)), Assign("result", A.Name("x"))]
  }

  /** Python runs the chain to `result == 3`. */
  lemma ChainRuns()
    ensures PyExec(map[], ChainCode()).Some? && "result" in PyExec(map[], ChainCode()).value
    ensures PyExec(map[], ChainCode()).value["result"] == PInt(3)
  {
    var code := ChainCode();
    var p1 := map["x" := PInt(1)];
    var p2 := map["x" := PInt(2)];
    var p3 := map["x" := PInt(4)];
    var p4 := map["x" := PInt(3)];
    assert PyStmt(map[], code[0]) == Some(p1);
    assert PyEval(p1, Bin("x", A.OpAdd, 1)) == Some(PInt(2));
    assert PyStmt(p1, code[1]) == Some(p1["x" := PInt(2)]);
    assert p1["x" := PInt(2)] == p2;
    assert PyEval(p2, Bin("x", A.OpMult, 2)) == Some(PInt(4));
    assert PyStmt(p2, code[2]) == Some(p2["x" := PInt(4)]);
    assert p2["x" := PInt(4)] == p3;
    assert PyEval(p3, Bin("x", A.OpSub, 1)) == Some(PInt(3));
    assert PyStmt(p3, code[3]) == Some(p3["x" := PInt(3)]);
    assert p3["x" := PInt(3)] == p4;
    assert PyStmt(p4, code[4]) == Some(p4["result" := PInt(3)]);
    assert PyExec(p4, code[4..]) == Some(p4["result" := PInt(3)]) by {
      assert code[4..][1..] == [];
    }
    assert PyExec(p3, code[3..]) == PyExec(p4, code[4..]) by { assert code[3..][1..] == code[4..]; }
    assert PyExec(p2, code[2..]) == PyExec(p3, code[3..]) by { assert code[2..][1..] == code[3..]; }
    assert PyExec(p1, code[1..]) == PyExec(p2, code[2..]) by { assert code[1..][1..] == code[2..]; }
  }

  /** The compiled chain has a model, and in each model `result` is 3. */
  lemma ChainOfSelfReferences(ctx: Ctx, itemId: string)
    requires DefaultSorts(ctx) && OrderIsEnumeration(ctx)
    ensures var r := CompileCode(ctx, map[], itemId, ChainCode());
      r.Ok? && (exists m :: AllHold(r.value.constraints, m)) &&
      forall m :: AllHold(r.value.constraints, m) ==> "result" in r.value.env && IsTerm(r.value.env["result"]) && Num(r.value.env["result"], m) == 3
  {
    ChainRuns();
    CompileCodeFaithful(ctx, itemId, ChainCode());
  }

  /** `x = 5; condition = True; if condition: x = x * 2 else: x = x + 3;
      result = x` */
  function ConditionalCode(): seq<A.Stmt> {
    [Assign("x", Int(5)), Assign("condition", A.Const(A.CBool(true))),
     A.If(A.Name("condition"), [Assign("x", Bin("x", A.OpMult, 2))], [Assign("x", Bin("x", A.OpAdd, 3))]),
     Assign("result", A.Name("x"))]
  }

  /** Python runs the conditional to `result == 10`. */
  lemma ConditionalRuns()
    ensures PyExec(map[], ConditionalCode()).Some? && "result" in PyExec(map[], ConditionalCode()).value
    ensures PyExec(map[], ConditionalCode()).value["result"] == PInt(10)
  {
    var code := ConditionalCode();
    var p1 := map["x" := PInt(5)];
    var p2 := p1["condition" := PBool(true)];
    var pt := p2["x" := PInt(10)];
    var pe := p2["x" := PInt(8)];
    assert PyStmt(map[], code[0]) == Some(p1);
    assert PyStmt(p1, code[1]) == Some(p2);
    assert PyEval(p2, Bin("x", A.OpMult, 2)) == Some(PInt(10));
    assert PyEval(p2, Bin("x", A.OpAdd, 3)) == Some(PInt(8));
    assert PyExec(p2, code[2].thenBody) == Some(pt) by {
      assert PyStmt(p2, code[2].thenBody[0]) == Some(pt);
      assert code[2].thenBody[1..] == [];
    }
    assert PyExec(p2, code[2].elseBody) == Some(pe) by {
      assert PyStmt(p2, code[2].elseBody[0]) == Some(pe);
      assert code[2].elseBody[1..] == [];
    }
    var p3 := PyJoin(true, pt, pe);
    assert PyStmt(p2, code[2]) == Some(p3);
    assert "x" in p3 && p3["x"] == PInt(10);
    assert PyEval(p3, A.Name("x")) == Some(PInt(10));
    assert PyStmt(p3, code[3]) == Some(p3["result" := PInt(10)]);
    assert PyExec(p3, code[3..]) == Some(p3["result" := PInt(10)]) by {
      assert code[3..][1..] == [];
    }
    assert PyExec(p2, code[2..]) == PyExec(p3, code[3..]) by { assert code[2..][1..] == code[3..]; }
    assert PyExec(p1, code[1..]) == PyExec(p2, code[2..]) by { assert code[1..][1..] == code[2..]; }
  }

  /** The compiled conditional has a model, and in each model `result` is 10. */
  lemma ConditionalAssignment(ctx: Ctx, itemId: string)
    requires DefaultSorts(ctx) && OrderIsEnumeration(ctx)
    ensures var r := CompileCode(ctx, map[], itemId, ConditionalCode());
      r.Ok? && (exists m :: AllHold(r.value.constraints, m)) &&
      forall m :: AllHold(r.value.constraints, m) ==> "result" in r.value.env && IsTerm(r.value.env["result"]) && Num(r.value.env["result"], m) == 10
  {
    ConditionalRuns();
    CompileCodeFaithful(ctx, itemId, ConditionalCode());
  }

  /** `total = 0; for i in range(4): total += i` */
  function LoopCode(): seq<A.Stmt> {
    [Assign("total", Int(0)),
     A.For(A.Name("i"), A.Call(A.Name("range"), [Int(4)]), [A.AugAssign(A.Name("total"), A.OpAdd, A.Name("i"))])]
  }

  /** One pass of the loop body `total += i`. */
  lemma LoopStep(py: PyEnv, t: int, k: int)
    requires "total" in py && py["total"] == PInt(t)
    ensures PyExec(py["i" := PInt(k)], LoopCode()[1].body) == Some(py["i" := PInt(k)]["total" := PInt(t + k)])
  {
    var body := LoopCode()[1].body;
    var q := py["i" := PInt(k)];
    assert PyEval(q, A.Name("i")) == Some(PInt(k));
    assert PyStmt(q, body[0]) == Some(q["total" := PInt(t + k)]);
    assert body[1..] == [];
  }

  /** Python's run of the loop example leaves `total == 6`. */
  lemma LoopRuns()
    ensures PyExec(map[], LoopCode()).Some? && "total" in PyExec(map[], LoopCode()).value
    ensures PyExec(map[], LoopCode()).value["total"] == PInt(6)
  {
    var code := LoopCode();
    var body := code[1].body;
    var p0 := map["total" := PInt(0)];
    assert PyStmt(map[], code[0]) == Some(p0);
    var q1 := p0["i" := PInt(0)]["total" := PInt(0)];
    LoopStep(p0, 0, 0);
    var q2 := q1["i" := PInt(1)]["total" := PInt(1)];
    LoopStep(q1, 0, 1);
    var q3 := q2["i" := PInt(2)]["total" := PInt(3)];
    LoopStep(q2, 1, 2);
    var q4 := q3["i" := PInt(3)]["total" := PInt(6)];
    LoopStep(q3, 3, 3);
    assert PyLoop(q4, "i", [], body) == Some(q4);
    assert PyLoop(q3, "i", [3], body) == Some(q4) by { assert [3][1..] == []; }
    assert PyLoop(q2, "i", [2, 3], body) == Some(q4) by { assert [2, 3][1..] == [3]; }
    assert PyLoop(q1, "i", [1, 2, 3], body) == Some(q4) by { assert [1, 2, 3][1..] == [2, 3]; }
    assert PyLoop(p0, "i", [0, 1, 2, 3], body) == Some(q4) by { assert [0, 1, 2, 3][1..] == [1, 2, 3]; }
    assert RangeInts(4) == [0, 1, 2, 3];
    assert PyStmt(p0, code[1]) == Some(q4);
    assert PyExec(p0, code[1..]) == Some(q4) by { assert code[1..][1..] == []; }
  }

  /** The unrolled loop has a model, and in each model `total` is 6. */
  lemma RangeLoopSum(ctx: Ctx, itemId: string)
    requires DefaultSorts(ctx) && OrderIsEnumeration(ctx)
    ensures var r := CompileCode(ctx, map[], itemId, LoopCode());
      r.Ok? && (exists m :: AllHold(r.value.constraints, m)) &&
      forall m :: AllHold(r.value.constraints, m) ==> "total" in r.value.env && IsTerm(r.value.env["total"]) && Num(r.value.env["total"], m) == 6
  {
    LoopRuns();
    CompileCodeFaithful(ctx, itemId, LoopCode());
  }
}

/** `PragmaticZ3Compiler`: compiles a Python code block into z3 equality
    constraints in static single assignment form. The translation is given
    first as functions over an explicit compiler state (`CState`) and then as
    the class `Compiler`, whose statement visitors update their fields in
    place and are proved to agree with those functions. */
module Pragmatic {
  import opened Wrappers
  import opened Smt
  import opened Strings
  import A = PyAst

  datatype Sort = IntSort | BoolSort

  /** What visiting an expression yields: a z3 integer or boolean term, a
      Python list of such values (list, tuple and set literals), or Python's
      `None` (what a node kind without its own visitor yields). */
  datatype Value = IntV(i: IntTerm) | BoolV(b: BoolTerm) | ListV(elems: seq<Value>) | NoneV

  type Env = map<string, Value>

  /** The exceptions the compiler raises (ValueError, AssertionError, and the
      TypeError or Z3Exception an operation with unsuitable operands raises). */
  datatype CompileError =
    | UnsupportedAttribute
    | UnsupportedBinOp
    | UnsupportedComparator
    | CompareArity
    | UnsupportedUnaryOp
    | OperandType
    | MultipleTargets
    | NotSimpleTarget
    | UnsupportedAugTarget
    | UnsupportedAugOp
    | ForTargetNotName
    | ForRangeBound
    | ForContainerTooLarge
    | ForContainerElement
    | ForUnsupportedIterable

  type Out<T> = Result<T, CompileError>

  /** What a compilation depends on besides the code:
      `varSort`, the sort `z3var_func` gives a fresh variable (the default
      callback always gives Int);
      `hash`, Python's per-process string hash;
      `order`, the iteration order of a Python set of names. */
  datatype Ctx = Ctx(varSort: string -> Sort, hash: string -> int, order: set<string> -> seq<string>)

  /** A sequence lists every element of a set exactly once. */
  predicate Enumerates(s: seq<string>, names: set<string>) {
    (forall i :: 0 <= i < |s| ==> s[i] in names) &&
    (forall x :: x in names ==> x in s) &&
    (forall i, j :: 0 <= i < j < |s| ==> s[i] != s[j])
  }

  ghost predicate OrderIsEnumeration(ctx: Ctx) {
    forall names :: Enumerates(ctx.order(names), names)
  }

  /** The default `z3var_func`, which makes every variable an integer. */
  ghost predicate DefaultSorts(ctx: Ctx) {
    forall x :: ctx.varSort(x) == IntSort
  }

  // ---------------------------------------------------------------------
  // Values and their meaning in a model

  predicate IsTerm(v: Value) { v.IntV? || v.BoolV? }

  /** The integer a term stands for, a boolean counting as 0 or 1. */
  function Num(v: Value, m: Model): int
    requires IsTerm(v)
  {
    if v.IntV? then EvalInt(v.i, m) else if Holds(v.b, m) then 1 else 0
  }

  /** `z3var_func(name)` */
  function MkVar(ctx: Ctx, name: string): (r: Value)
    ensures IsTerm(r)
  {
    if ctx.varSort(name) == BoolSort then BoolV(BVar(name)) else IntV(IVar(name))
  }

  /** `_to_z3_bool`: a boolean term as is, an integer term compared with 0,
      and for a list or `None` the Python value `x != 0`, which is `True`. */
  function ToBool(v: Value): (r: BoolTerm)
    ensures IsTerm(v) ==> forall m :: Holds(r, m) <==> Num(v, m) != 0
    ensures !IsTerm(v) ==> r == BConst(true)
  {
    match v
    case BoolV(b) => b
    case IntV(i) => Compare(Ne, i, IConst(0))
    case _ => BConst(true)
  }

  /** `_to_z3_int`: a boolean term becomes `If(b, 1, 0)`; anything else is
      returned unchanged. */
  function ToInt(v: Value): (r: Value)
    ensures IsTerm(v) ==> r.IntV? && forall m :: EvalInt(r.i, m) == Num(v, m)
    ensures !IsTerm(v) ==> r == v
  {
    match v
    case BoolV(b) => IntV(Ite(b, IConst(1), IConst(0)))
    case _ => v
  }

  /** `visit_Constant`: a string becomes `hash(s) % 1000000`; constants that
      are not bool, int or str (None, floats) become 0. */
  function ConstValue(ctx: Ctx, c: A.Constant): (r: Value)
    ensures IsTerm(r)
    ensures c.CBool? ==> r == BoolV(BConst(c.b))
    ensures c.CInt? ==> r == IntV(IConst(c.i))
    ensures c.CStr? ==> r.IntV? && r.i.IConst? && 0 <= r.i.n < 1000000
    ensures c.COther? ==> r == IntV(IConst(0))
  {
    match c
    case CBool(b) => BoolV(BConst(b))
    case CInt(i) => IntV(IConst(i))
    case CStr(s) => IntV(IConst(ctx.hash(s) % 1000000))
    case COther => IntV(IConst(0))
  }

  /** `int(x)` in code: booleans become 0/1, integers stay, anything else is 0. */
  function IntCast(v: Value): (r: Value)
    ensures r.IntV?
    ensures IsTerm(v) ==> forall m :: EvalInt(r.i, m) == Num(v, m)
    ensures !IsTerm(v) ==> r == IntV(IConst(0))
  {
    match v
    case BoolV(b) => IntV(Ite(b, IConst(1), IConst(0)))
    case IntV(_) => v
    case _ => IntV(IConst(0))
  }

  /** `bool(x)` in code: integers compare with 0, anything not a term is False. */
  function BoolCast(v: Value): (r: Value)
    ensures r.BoolV?
    ensures IsTerm(v) ==> forall m :: Holds(r.b, m) <==> Num(v, m) != 0
    ensures !IsTerm(v) ==> r == BoolV(BConst(false))
  {
    match v
    case BoolV(_) => v
    case IntV(i) => BoolV(Compare(Ne, i, IConst(0)))
    case _ => BoolV(BConst(false))
  }

  /** A variable (or its cached `S_<id>` outcome variable) in an expression:
      looked up, or created with `z3var_func` and cached in the environment. */
  function Lookup(ctx: Ctx, env: Env, x: string): (r: (Value, Env))
    ensures x in r.1 && r.0 == r.1[x]
    ensures x in env ==> r == (env[x], env)
    ensures x !in env ==> r.1 == env[x := MkVar(ctx, x)]
  {
    if x in env then (env[x], env) else (MkVar(ctx, x), env[x := MkVar(ctx, x)])
  }

  // ---------------------------------------------------------------------
  // Operators on values, with z3's sort coercion: when a boolean meets an
  // integer, the boolean is cast to `If(b, 1, 0)`.

  /** `a == b`. Two terms of the same sort give `==` (`Iff` for booleans),
      mixed sorts compare as integers. z3 answers the Python value False when
      one side is `None`; two `None`s are equal. A list against a term is a
      z3 error; comparing two lists is not modelled and reported as one. */
  function EqValues(a: Value, b: Value): (r: Out<BoolTerm>)
    ensures IsTerm(a) && IsTerm(b) ==> r.Ok? && forall m :: Holds(r.value, m) <==> Num(a, m) == Num(b, m)
    ensures a.NoneV? || b.NoneV? ==> r == Ok(BConst(a.NoneV? && b.NoneV?))
    ensures (a.ListV? && !b.NoneV?) || (b.ListV? && !a.NoneV?) ==> r.Err?
  {
    if a.BoolV? && b.BoolV? then Ok(Iff(a.b, b.b))
    else if IsTerm(a) && IsTerm(b) then Ok(Compare(Eq, ToInt(a).i, ToInt(b).i))
    else if a.NoneV? || b.NoneV? then Ok(BConst(a.NoneV? && b.NoneV?))
    else Err(OperandType)
  }

  /** `a != b`, the negation of `EqValues` in every case it accepts. */
  function NeValues(a: Value, b: Value): (r: Out<BoolTerm>)
    ensures r.Ok? <==> EqValues(a, b).Ok?
    ensures r.Ok? ==> forall m :: Holds(r.value, m) <==> !Holds(EqValues(a, b).value, m)
  {
    if a.BoolV? && b.BoolV? then Ok(Not(Iff(a.b, b.b)))
    else if IsTerm(a) && IsTerm(b) then Ok(Compare(Ne, ToInt(a).i, ToInt(b).i))
    else if a.NoneV? || b.NoneV? then Ok(BConst(!(a.NoneV? && b.NoneV?)))
    else Err(OperandType)
  }

  function OrderCmp(op: A.CmpOperator): Cmp
    requires op in {A.CLt, A.CLtE, A.CGt, A.CGtE}
  {
    match op
    case CLt => Lt
    case CLtE => Le
    case CGt => Gt
    case CGtE => Ge
  }

  /** `<`, `<=`, `>`, `>=`: integers, or an integer and a boolean; two
      booleans have no ordering in z3 and `None` or a list is refused. */
  function OrderValues(op: A.CmpOperator, a: Value, b: Value): (r: Out<BoolTerm>)
    requires op in {A.CLt, A.CLtE, A.CGt, A.CGtE}
    ensures r.Ok? <==> IsTerm(a) && IsTerm(b) && !(a.BoolV? && b.BoolV?)
    ensures r.Ok? ==> forall m :: Holds(r.value, m) <==> CmpHolds(OrderCmp(op), Num(a, m), Num(b, m))
  {
    if IsTerm(a) && IsTerm(b) && !(a.BoolV? && b.BoolV?) then
      Ok(Compare(OrderCmp(op), ToInt(a).i, ToInt(b).i))
    else Err(OperandType)
  }

  /** The equalities `lhs == v` for every element of a list, in order. */
  function EqualitiesWith(lhs: Value, vs: seq<Value>): (r: Out<seq<BoolTerm>>)
    ensures r.Ok? <==> forall i :: 0 <= i < |vs| ==> EqValues(lhs, vs[i]).Ok?
    ensures r.Ok? ==> |r.value| == |vs| && forall i :: 0 <= i < |vs| ==> r.value[i] == EqValues(lhs, vs[i]).value
    decreases |vs|
  {
    if |vs| == 0 then Ok([])
    else
      var f :- EqValues(lhs, vs[0]);
      var fs :- EqualitiesWith(lhs, vs[1..]);
      Ok([f] + fs)
  }

  /** `_handle_in_operator`: `None` or an empty list contains nothing; a list
      gives the disjunction of equalities with its elements; a single term
      is treated as a singleton. */
  function InValues(lhs: Value, rhs: Value): (r: Out<BoolTerm>)
    ensures rhs.NoneV? || rhs == ListV([]) ==> r == Ok(BConst(false))
    ensures IsTerm(rhs) ==> r == EqValues(lhs, rhs)
    ensures rhs.ListV? && r.Ok? ==> forall m :: Holds(r.value, m) <==>
      exists i :: 0 <= i < |rhs.elems| && EqValues(lhs, rhs.elems[i]).Ok? && Holds(EqValues(lhs, rhs.elems[i]).value, m)
  {
    match rhs
    case NoneV => Ok(BConst(false))
    case ListV(vs) =>
      if |vs| == 0 then Ok(BConst(false))
      else
        var fs :- EqualitiesWith(lhs, vs);
        Ok(OrAll(fs))
    case _ => EqValues(lhs, rhs)
  }

  function CompareValues(op: A.CmpOperator, a: Value, b: Value): Out<BoolTerm> {
    match op
    case CEq => EqValues(a, b)
    case CNotEq => NeValues(a, b)
    case CIn => InValues(a, b)
    case COtherCmp => Err(UnsupportedComparator)
    case _ => OrderValues(op, a, b)
  }

  // ---------------------------------------------------------------------
  // Arithmetic. Python's `//` and `%` round towards minus infinity, z3's
  // `div` and `mod` are Euclidean; the two agree unless the divisor is
  // negative.

  /** Python's floor division on integers. */
  function PyFloorDiv(a: int, b: int): int
    requires b != 0
  {
    if b > 0 then a / b else (-a) / (-b)
  }

  /** Python's remainder, `a - b * (a // b)`. */
  function PyMod(a: int, b: int): int
    requires b != 0
  {
    a - b * PyFloorDiv(a, b)
  }

  /** `a // b` is the floor of the rational quotient `a / b`. */
  lemma PyFloorDivIsFloor(a: int, b: int)
    requires b != 0
    ensures b > 0 ==> b * PyFloorDiv(a, b) <= a < b * PyFloorDiv(a, b) + b
    ensures b < 0 ==> b * PyFloorDiv(a, b) + b < a <= b * PyFloorDiv(a, b)
  {
    if b < 0 {
      var q := (-a) / (-b);
      assert (-b) * q <= -a < (-b) * q + (-b);
      assert b * q == -((-b) * q);
    }
  }

  /** `a % b` takes the sign of the divisor and is smaller than it. */
  lemma PyModRange(a: int, b: int)
    requires b != 0
    ensures b > 0 ==> 0 <= PyMod(a, b) < b
    ensures b < 0 ==> b < PyMod(a, b) <= 0
  {
    PyFloorDivIsFloor(a, b);
  }

  /** `//` as a z3 term with Python's rounding. */
  function FloorDivTerm(x: IntTerm, y: IntTerm): IntTerm {
    Ite(Compare(Lt, y, IConst(0)), Div(Neg(x), Neg(y)), Div(x, y))
  }

  /** `%` as a z3 term with Python's sign convention. */
  function ModTerm(x: IntTerm, y: IntTerm): IntTerm {
    Ite(Compare(Lt, y, IConst(0)), Neg(Mod(Neg(x), Neg(y))), Mod(x, y))
  }

  function ArithOps(): set<A.BinOperator> {
    {A.OpAdd, A.OpSub, A.OpMult, A.OpDiv, A.OpFloorDiv, A.OpMod}
  }

  /** The arithmetic of `visit_BinOp` exactly as written: `/` and `//` both
      become z3 `div`, `%` becomes z3 `mod`. */
  function ArithAsWritten(op: A.BinOperator, x: IntTerm, y: IntTerm): (r: IntTerm)
    requires op in ArithOps()
    ensures forall m :: EvalInt(y, m) > 0 ==>
      (op == A.OpFloorDiv ==> EvalInt(r, m) == PyFloorDiv(EvalInt(x, m), EvalInt(y, m))) &&
      (op == A.OpMod ==> EvalInt(r, m) == PyMod(EvalInt(x, m), EvalInt(y, m)))
    ensures forall m :: op == A.OpAdd ==> EvalInt(r, m) == EvalInt(x, m) + EvalInt(y, m)
    ensures forall m :: op == A.OpSub ==> EvalInt(r, m) == EvalInt(x, m) - EvalInt(y, m)
    ensures forall m :: op == A.OpMult ==> EvalInt(r, m) == EvalInt(x, m) * EvalInt(y, m)
  {
    match op
    case OpAdd => Add(x, y)
    case OpSub => Sub(x, y)
    case OpMult => Mul(x, y)
    case OpDiv => Div(x, y)
    case OpFloorDiv => Div(x, y)
    case OpMod => Mod(x, y)
  }

  /** As written, `7 // -2` compiles to a term worth -3 in every model, while
      Python gives -4; `7 % -2` is worth 1 where Python gives -1. */
  lemma ArithAsWrittenNegativeDivisor(m: Model)
    ensures EvalInt(ArithAsWritten(A.OpFloorDiv, IConst(7), IConst(-2)), m) == -3
    ensures PyFloorDiv(7, -2) == -4
    ensures EvalInt(ArithAsWritten(A.OpMod, IConst(7), IConst(-2)), m) == 1
    ensures PyMod(7, -2) == -1
  {
  }

  /** The corrected arithmetic: `visit_BinOp` and `visit_AugAssign` as
      evidently intended, with `//` and `%` rounding as in Python for every
      non-zero divisor. `/` stays z3 `div`, as in the source (Python's true
      division has no integer counterpart). The compiler below keeps the
      arithmetic as written; `ArithAgreesOnPositiveDivisor` says where the
      two coincide. */
  function Arith(op: A.BinOperator, x: IntTerm, y: IntTerm): (r: IntTerm)
    requires op in ArithOps()
    ensures forall m :: EvalInt(y, m) != 0 ==>
      (op == A.OpFloorDiv ==> EvalInt(r, m) == PyFloorDiv(EvalInt(x, m), EvalInt(y, m))) &&
      (op == A.OpMod ==> EvalInt(r, m) == PyMod(EvalInt(x, m), EvalInt(y, m)))
    ensures forall m :: op == A.OpAdd ==> EvalInt(r, m) == EvalInt(x, m) + EvalInt(y, m)
    ensures forall m :: op == A.OpSub ==> EvalInt(r, m) == EvalInt(x, m) - EvalInt(y, m)
    ensures forall m :: op == A.OpMult ==> EvalInt(r, m) == EvalInt(x, m) * EvalInt(y, m)
  {
    match op
    case OpAdd => Add(x, y)
    case OpSub => Sub(x, y)
    case OpMult => Mul(x, y)
    case OpDiv => Div(x, y)
    case OpFloorDiv =>
      assert forall m :: EvalInt(y, m) != 0 ==>
        EvalInt(FloorDivTerm(x, y), m) == PyFloorDiv(EvalInt(x, m), EvalInt(y, m)) by {
        forall m | EvalInt(y, m) != 0
          ensures EvalInt(FloorDivTerm(x, y), m) == PyFloorDiv(EvalInt(x, m), EvalInt(y, m))
        {
          TermValues(x, y, m);
        }
      }
      FloorDivTerm(x, y)
    case OpMod =>
      assert forall m :: EvalInt(y, m) != 0 ==>
        EvalInt(ModTerm(x, y), m) == PyMod(EvalInt(x, m), EvalInt(y, m)) by {
        forall m | EvalInt(y, m) != 0
          ensures EvalInt(ModTerm(x, y), m) == PyMod(EvalInt(x, m), EvalInt(y, m))
        {
          TermValues(x, y, m);
          ModTermValue(EvalInt(x, m), EvalInt(y, m));
        }
      }
      ModTerm(x, y)
  }

  /** The two arithmetics differ only on a negative divisor. */
  lemma ArithAgreesOnPositiveDivisor(op: A.BinOperator, x: IntTerm, y: IntTerm, m: Model)
    requires op in ArithOps()
    requires EvalInt(y, m) > 0
    ensures EvalInt(ArithAsWritten(op, x, y), m) == EvalInt(Arith(op, x, y), m)
  {
  }

  lemma TermValues(x: IntTerm, y: IntTerm, m: Model)
    requires EvalInt(y, m) != 0
    ensures var a, b := EvalInt(x, m), EvalInt(y, m);
      EvalInt(FloorDivTerm(x, y), m) == (if b < 0 then (-a) / (-b) else a / b) &&
      EvalInt(ModTerm(x, y), m) == (if b < 0 then -((-a) % (-b)) else a % b)
  {
    var a, b := EvalInt(x, m), EvalInt(y, m);
    assert Holds(Compare(Lt, y, IConst(0)), m) <==> b < 0;
    assert EvalInt(Neg(y), m) == -b;
    assert EvalInt(Neg(x), m) == -a;
    if b < 0 {
      assert EvalInt(Mod(Neg(x), Neg(y)), m) == (-a) % (-b);
    } else {
      assert EvalInt(Mod(x, y), m) == a % b;
    }
  }

  lemma ModTermValue(a: int, b: int)
    requires b != 0
    ensures (if b < 0 then -((-a) % (-b)) else a % b) == PyMod(a, b)
  {
    if b < 0 {
      var q := (-a) / (-b);
      assert -a == (-b) * q + (-a) % (-b);
    } else {
      assert a == b * (a / b) + a % b;
    }
  }

  /** An arithmetic operator on operands already passed through `_to_z3_int`:
      two integer terms, combined as the source writes them (`//` and `%` as
      z3 `div` and `mod`), or (for `+`) two lists, which Python concatenates. */
  function ArithValues(op: A.BinOperator, a: Value, b: Value): (r: Out<Value>)
    requires op in ArithOps()
    ensures a.IntV? && b.IntV? ==> r == Ok(IntV(ArithAsWritten(op, a.i, b.i)))
    ensures op == A.OpAdd && a.ListV? && b.ListV? ==> r == Ok(ListV(a.elems + b.elems))
    ensures r.Ok? ==> (a.IntV? && b.IntV?) || (op == A.OpAdd && a.ListV? && b.ListV?)
  {
    if a.IntV? && b.IntV? then Ok(IntV(ArithAsWritten(op, a.i, b.i)))
    else if op == A.OpAdd && a.ListV? && b.ListV? then Ok(ListV(a.elems + b.elems))
    else Err(OperandType)
  }

  /** `visit_UnaryOp`: `not` negates the operand's truth, unary minus needs
      an integer term, unary plus returns the operand, `~` is refused. */
  function UnaryValue(op: A.UnaryOperator, v: Value): (r: Out<Value>)
    ensures op == A.UNot ==> r.Ok? && r.value.BoolV? && forall m :: Holds(r.value.b, m) <==> !Holds(ToBool(v), m)
    ensures op == A.USub ==> (r.Ok? <==> v.IntV?)
    ensures op == A.USub && v.IntV? ==> r.value.IntV? && forall m :: EvalInt(r.value.i, m) == -EvalInt(v.i, m)
    ensures op == A.UAdd ==> r == Ok(v)
    ensures op == A.UInvert ==> r == Err(UnsupportedUnaryOp)
  {
    match op
    case UNot => Ok(BoolV(Not(ToBool(v))))
    case USub => if v.IntV? then Ok(IntV(Neg(v.i))) else Err(OperandType)
    case UAdd => Ok(v)
    case UInvert => Err(UnsupportedUnaryOp)
  }

  function MapToBool(vs: seq<Value>): (r: seq<BoolTerm>)
    ensures |r| == |vs| && forall i :: 0 <= i < |vs| ==> r[i] == ToBool(vs[i])
  {
    seq(|vs|, i requires 0 <= i < |vs| => ToBool(vs[i]))
  }

  // ---------------------------------------------------------------------
  // Expressions. Visiting an expression yields a value and the environment
  // with the variables it created cached.

  function CompileExpr(ctx: Ctx, env: Env, e: A.Expr): (r: Out<(Value, Env)>)
    ensures r.Ok? ==> env.Keys <= r.value.1.Keys && forall x :: x in env ==> r.value.1[x] == env[x]
    decreases e
  {
    match e
    case Const(c) => Ok((ConstValue(ctx, c), env))
    case Name(x) => Ok(Lookup(ctx, env, x))
    case Attribute(o, attr) =>
      if o.Name? && attr == "outcome" then Ok(Lookup(ctx, env, "S_" + o.id))
      else Err(UnsupportedAttribute)
    case Call(f, args) =>
      if f.Name? && f.id == "range" && |args| > 0 then CompileExpr(ctx, env, args[0])
      else if f.Name? && (f.id == "int" || f.id == "bool") && |args| > 0 then
        var p :- CompileExpr(ctx, env, args[0]);
        Ok((if f.id == "int" then IntCast(p.0) else BoolCast(p.0), p.1))
      else if f.Name? && f.id == "bool" then Ok((BoolV(BConst(false)), env))
      else Ok((IntV(IConst(0)), env))
    case BinOp(l, op, rt) =>
      var pl :- CompileExpr(ctx, env, l);
      var pr :- CompileExpr(ctx, pl.1, rt);
      if op in ArithOps() then
        var v :- ArithValues(op, ToInt(pl.0), ToInt(pr.0));
        Ok((v, pr.1))
      else Err(UnsupportedBinOp)
    case Compare(l, ops, cs) =>
      if |ops| != 1 || |cs| != 1 then Err(CompareArity)
      else
        var pl :- CompileExpr(ctx, env, l);
        var pr :- CompileExpr(ctx, pl.1, cs[0]);
        var f :- CompareValues(ops[0], pl.0, pr.0);
        Ok((BoolV(f), pr.1))
    case BoolOp(bop, vs) =>
      var p :- CompileExprs(ctx, env, vs);
      var bs := MapToBool(p.0);
      Ok((BoolV(if bop == A.OpAnd then AndAll(bs) else OrAll(bs)), p.1))
    case UnaryOp(uop, x) =>
      var p :- CompileExpr(ctx, env, x);
      var v :- UnaryValue(uop, p.0);
      Ok((v, p.1))
    case IfExp(t, b, o) =>
      var p1 :- CompileExpr(ctx, env, t);
      var p2 :- CompileExpr(ctx, p1.1, b);
      var p3 :- CompileExpr(ctx, p2.1, o);
      Ok((NoneV, p3.1))
    case ListLit(es) =>
      var p :- CompileExprs(ctx, env, es);
      Ok((ListV(p.0), p.1))
    case TupleLit(es) =>
      var p :- CompileExprs(ctx, env, es);
      Ok((ListV(p.0), p.1))
    case SetLit(es) =>
      var p :- CompileExprs(ctx, env, es);
      Ok((ListV(p.0), p.1))
    case OtherExpr(es) =>
      var p :- CompileExprs(ctx, env, es);
      Ok((NoneV, p.1))
  }

  /** Expressions visited left to right, threading the environment. */
  function CompileExprs(ctx: Ctx, env: Env, es: seq<A.Expr>): (r: Out<(seq<Value>, Env)>)
    ensures r.Ok? ==> |r.value.0| == |es|
    ensures r.Ok? ==> env.Keys <= r.value.1.Keys && forall x :: x in env ==> r.value.1[x] == env[x]
    decreases es
  {
    if |es| == 0 then Ok(([], env))
    else
      var p :- CompileExpr(ctx, env, es[0]);
      var q :- CompileExprs(ctx, p.1, es[1..]);
      Ok(([p.0] + q.0, q.1))
  }

  // ---------------------------------------------------------------------
  // Statements

  /** The fields of a `PragmaticZ3Compiler`: environment, constraints,
      generation counter and item id. */
  datatype CState = CState(env: Env, constraints: seq<BoolTerm>, gen: nat, itemId: string)

  /** What a statement leaves unchanged or only extends. */
  predicate Extends(s: CState, t: CState) {
    t.gen >= s.gen && s.constraints <= t.constraints && t.itemId == s.itemId
  }

  /** The constraints a step from `s` to `t` added. */
  function Added(s: CState, t: CState): seq<BoolTerm>
    requires Extends(s, t)
  {
    t.constraints[|s.constraints|..]
  }

  lemma AddedTwice(s: CState, t: CState, u: CState)
    requires Extends(s, t) && Extends(t, u)
    ensures Extends(s, u) && Added(s, u) == Added(s, t) + Added(t, u)
  {
  }

  /** `f"{item_id}_{name}_{gen}"` */
  function SsaName(itemId: string, name: string, gen: nat): string {
    itemId + "_" + name + "_" + NatToStr(gen)
  }

  function ThenId(itemId: string, gen: nat): string { itemId + "_then_" + NatToStr(gen) }

  function ElseId(itemId: string, gen: nat): string { itemId + "_else_" + NatToStr(gen) }

  /** `visit_Assign` */
  function ExecAssign(ctx: Ctx, s: CState, targets: seq<A.Expr>, value: A.Expr): (r: Out<CState>)
    ensures r.Ok? ==> Extends(s, r.value) && r.value.gen <= s.gen + 1
    ensures r.Ok? ==> |r.value.constraints| <= |s.constraints| + 1
  {
    if |targets| != 1 then Err(MultipleTargets)
    else
      var target := targets[0];
      var p :- CompileExpr(ctx, s.env, value);
      var rhs := p.0;
      if target.Attribute? && target.attr == "outcome" && target.obj.Name? then
        var x := "S_" + target.obj.id;
        var lhs := MkVar(ctx, x);
        var c :- EqValues(lhs, ToInt(rhs));
        Ok(s.(env := p.1[x := lhs], constraints := s.constraints + [c]))
      else if !target.Name? then Err(NotSimpleTarget)
      else if rhs.ListV? then Ok(s.(env := p.1[target.id := rhs]))
      else
        var name := SsaName(s.itemId, target.id, s.gen);
        var ssa := if rhs.BoolV? then BoolV(BVar(name)) else if rhs.IntV? then IntV(IVar(name)) else MkVar(ctx, name);
        var c :- EqValues(ssa, rhs);
        Ok(CState(p.1[target.id := ssa], s.constraints + [c], s.gen + 1, s.itemId))
  }

  function AugOps(): set<A.BinOperator> {
    {A.OpAdd, A.OpSub, A.OpMult, A.OpFloorDiv, A.OpMod}
  }

  /** The current value of an augmented-assignment target: an unbound (or
      `None`) name starts from 0, an unbound outcome from a fresh
      `z3var_func` variable, which is cached. */
  function AugCurrent(ctx: Ctx, env: Env, key: string, isName: bool): (Value, Env) {
    if key in env && !env[key].NoneV? then (env[key], env)
    else if isName then (IntV(IConst(0)), env)
    else (MkVar(ctx, key), env[key := MkVar(ctx, key)])
  }

  /** `visit_AugAssign` */
  function ExecAugAssign(ctx: Ctx, s: CState, target: A.Expr, op: A.BinOperator, value: A.Expr): (r: Out<CState>)
    ensures r.Ok? ==> Extends(s, r.value) && r.value.gen == s.gen + 1
    ensures r.Ok? ==> |r.value.constraints| == |s.constraints| + 1
  {
    var isName := target.Name?;
    if !isName && !(target.Attribute? && target.attr == "outcome") then Err(UnsupportedAugTarget)
    else if !isName && !target.obj.Name? then
      var p :- CompileExpr(ctx, s.env, value);
      Err(UnsupportedAugTarget)
    else
      var key := if isName then target.id else "S_" + target.obj.id;
      var (cur, env1) := AugCurrent(ctx, s.env, key, isName);
      AugUpdate(ctx, s.(env := env1), cur, key, op, value)
  }

  /** The second half of `visit_AugAssign`, once the current value `cur`
      of the target `key` is known: the right-hand side is visited, the
      operator applied to both sides as integers, and the result bound to
      a fresh `z3var_func` variable. */
  function AugUpdate(ctx: Ctx, s: CState, cur: Value, key: string, op: A.BinOperator, value: A.Expr): (r: Out<CState>)
    ensures r.Ok? ==> Extends(s, r.value) && r.value.gen == s.gen + 1
    ensures r.Ok? ==> |r.value.constraints| == |s.constraints| + 1
  {
    var p :- CompileExpr(ctx, s.env, value);
    if op !in AugOps() then Err(UnsupportedAugOp)
    else
      var nv :- ArithValues(op, ToInt(cur), ToInt(p.0));
      var ssa := MkVar(ctx, SsaName(s.itemId, key, s.gen));
      var c :- EqValues(ssa, nv);
      Ok(CState(p.1[key := ssa], s.constraints + [c], s.gen + 1, s.itemId))
  }

  /** `AugUpdate` step by step, as the method takes it. */
  lemma AugUpdateSteps(ctx: Ctx, s: CState, cur: Value, key: string, op: A.BinOperator, value: A.Expr)
    ensures var p := CompileExpr(ctx, s.env, value);
      AugUpdate(ctx, s, cur, key, op, value) ==
        if p.Err? then Err(p.error)
        else if op !in AugOps() then Err(UnsupportedAugOp)
        else
          var nv := ArithValues(op, ToInt(cur), ToInt(p.value.0));
          if nv.Err? then Err(nv.error)
          else
            var ssa := MkVar(ctx, SsaName(s.itemId, key, s.gen));
            var c := EqValues(ssa, nv.value);
            if c.Err? then Err(c.error)
            else Ok(CState(p.value.1[key := ssa], s.constraints + [c.value], s.gen + 1, s.itemId))
  {
  }

  /** A name's value on one side of an `if`: the branch's binding, else the
      binding in the compiler's own environment, else `None`. */
  function Side(branch: Env, own: Env, n: string): Value {
    if n in branch then branch[n] else if n in own then own[n] else NoneV
  }

  /** The constraint tying a merge variable to the branch values. */
  function MergeConstraint(cond: BoolTerm, mv: Value, t: Value, e: Value): BoolTerm
    requires IsTerm(mv) && IsTerm(t) && IsTerm(e)
  {
    if mv.BoolV? then Iff(mv.b, BIte(cond, ToBool(t), ToBool(e)))
    else Compare(Eq, mv.i, Ite(cond, ToInt(t).i, ToInt(e).i))
  }

  /** Whether a name gets a merge variable: both sides present and neither a
      list. */
  predicate Merges(t: Value, e: Value) {
    !t.NoneV? && !e.NoneV? && !t.ListV? && !e.ListV?
  }

  /** One iteration of the merge loop of `visit_If`. */
  function MergeStep(ctx: Ctx, cond: BoolTerm, tEnv: Env, eEnv: Env, n: string, s: CState): (r: CState)
    ensures Extends(s, r)
  {
    var t := Side(tEnv, s.env, n);
    var e := Side(eEnv, s.env, n);
    if t.NoneV? || e.NoneV? then s
    else if t.ListV? && e.ListV? then s.(env := s.env[n := t])
    else if t.ListV? || e.ListV? then s
    else
      var mv := MkVar(ctx, SsaName(s.itemId, n, s.gen));
      CState(s.env[n := mv], s.constraints + [MergeConstraint(cond, mv, t, e)], s.gen + 1, s.itemId)
  }

  function Merge(ctx: Ctx, cond: BoolTerm, tEnv: Env, eEnv: Env, names: seq<string>, s: CState): (r: CState)
    ensures Extends(s, r)
    decreases |names|
  {
    if |names| == 0 then s
    else Merge(ctx, cond, tEnv, eEnv, names[1..], MergeStep(ctx, cond, tEnv, eEnv, names[0], s))
  }

  /** `visit_If`: the condition is compiled, each branch runs in a
      sub-compiler on a copy of the environment (the then-branch numbered
      from the parent's generation, the else-branch from where the
      then-branch stopped), the branch environments are merged, and the
      branches' constraints follow the merge constraints. */
  function ExecIf(ctx: Ctx, s: CState, st: A.Stmt): (r: Out<CState>)
    requires st.If?
    ensures r.Ok? ==> Extends(s, r.value)
    decreases A.StmtSize(st), 0, 0
  {
    var p :- CompileExpr(ctx, s.env, st.cond);
    var cond := ToBool(p.0);
    var t :- ExecStmts(ctx, CState(p.1, [], s.gen, ThenId(s.itemId, s.gen)), st.thenBody);
    var e :- ExecStmts(ctx, CState(p.1, [], t.gen, ElseId(s.itemId, s.gen)), st.elseBody);
    var names := ctx.order(t.env.Keys + e.env.Keys);
    var merged := Merge(ctx, cond, t.env, e.env, names, CState(p.1, s.constraints, e.gen, s.itemId));
    Ok(merged.(constraints := merged.constraints + t.constraints + e.constraints))
  }

  function RangeValues(k: nat): (r: seq<Value>)
    ensures |r| == k && forall i :: 0 <= i < k ==> r[i] == IntV(IConst(i))
  {
    seq(k, i requires 0 <= i < k => IntV(IConst(i)))
  }

  /** z3's `IntVal` of a string: a decimal numeral, with an optional
      leading `-`, denotes that integer; z3 raises on any other string. */
  function NumeralValue(s: string): Option<int> {
    if IsDigits(s) then Some(DigitsToNat(s))
    else if |s| > 1 && s[0] == '-' && IsDigits(s[1..]) then Some(0 - DigitsToNat(s[1..]))
    else None
  }

  /** The rendering of an integer, `str(n)` or `'-' + str(n)`, is read back
      as that integer, and a string holding a non-numeral character is
      refused. */
  lemma NumeralValueMeaning(n: nat, s: string, k: nat)
    requires k < |s| && !IsDigit(s[k]) && (k > 0 || s[k] != '-')
    ensures NumeralValue(NatToStr(n)) == Some(n)
    ensures NumeralValue("-" + NatToStr(n)) == Some(0 - n)
    ensures NumeralValue(s) == None
  {
    ParseRender(n);
    var t := "-" + NatToStr(n);
    assert t[1..] == NatToStr(n) && !IsDigit(t[0]);
    assert !IsDigits(s);
    if |s| > 1 && s[0] == '-' {
      assert s[1..][k - 1] == s[k];
    }
  }

  /** An element of a container literal iterated by `for`: bool constants
      become 0/1, int constants themselves and string constants the integer
      their numeral denotes (z3's `IntVal` raises on any other string and on
      `None`); other expressions are visited and cast with `_to_z3_int`. */
  function ElemValue(ctx: Ctx, env: Env, elt: A.Expr): Out<(Value, Env)> {
    if elt.Const? then
      match elt.c
      case CBool(b) => Ok((IntV(IConst(if b then 1 else 0)), env))
      case CInt(i) => Ok((IntV(IConst(i)), env))
      case CStr(t) =>
        (match NumeralValue(t)
         case Some(i) => Ok((IntV(IConst(i)), env))
         case None => Err(ForContainerElement))
      case COther => Err(ForContainerElement)
    else
      var p :- CompileExpr(ctx, env, elt);
      Ok((ToInt(p.0), p.1))
  }

  function ContainerValues(ctx: Ctx, env: Env, elts: seq<A.Expr>): (r: Out<(seq<Value>, Env)>)
    ensures r.Ok? ==> |r.value.0| == |elts|
    decreases |elts|
  {
    if |elts| == 0 then Ok(([], env))
    else
      var p :- ElemValue(ctx, env, elts[0]);
      var q :- ContainerValues(ctx, p.1, elts[1..]);
      Ok(([p.0] + q.0, q.1))
  }

  /** The values a `for` loop binds in turn: `range(K)` with a literal
      `0 <= K <= 20` (a bool literal counts as 0 or 1), or a list, tuple or
      set literal of at most 20 elements. */
  function LoopValues(ctx: Ctx, env: Env, iter: A.Expr): (r: Out<(seq<Value>, Env)>)
    ensures r.Ok? ==> |r.value.0| <= 20
  {
    if iter.Call? && iter.func.Name? && iter.func.id == "range" && |iter.args| == 1 && iter.args[0].Const? then
      match iter.args[0].c
      case CBool(b) => Ok((RangeValues(if b then 1 else 0), env))
      case CInt(k) => if 0 <= k <= 20 then Ok((RangeValues(k), env)) else Err(ForRangeBound)
      case _ => Err(ForRangeBound)
    else if iter.ListLit? || iter.TupleLit? || iter.SetLit? then
      var p :- ContainerValues(ctx, env, iter.elts);
      if |p.0| > 20 then Err(ForContainerTooLarge) else Ok(p)
    else Err(ForUnsupportedIterable)
  }

  /** The unrolled loop: the body once per value, with the loop variable
      bound to that value. */
  function Unroll(ctx: Ctx, s: CState, x: string, values: seq<Value>, body: seq<A.Stmt>): (r: Out<CState>)
    ensures r.Ok? ==> Extends(s, r.value)
    decreases A.StmtsSize(body), 3, |values|
  {
    if |values| == 0 then Ok(s)
    else
      var s1 :- ExecStmts(ctx, s.(env := s.env[x := values[0]]), body);
      Unroll(ctx, s1, x, values[1..], body)
  }

  /** `visit_For` */
  function ExecFor(ctx: Ctx, s: CState, st: A.Stmt): (r: Out<CState>)
    requires st.For?
    ensures r.Ok? ==> Extends(s, r.value)
    decreases A.StmtSize(st), 0, 0
  {
    if !st.target.Name? then Err(ForTargetNotName)
    else
      var p :- LoopValues(ctx, s.env, st.iter);
      Unroll(ctx, s.(env := p.1), st.target.id, p.0, st.body)
  }

  /** `visit(stmt)`; statement kinds without a visitor have their
      expressions and nested statements visited in order. */
  function ExecStmt(ctx: Ctx, s: CState, st: A.Stmt): (r: Out<CState>)
    ensures r.Ok? ==> Extends(s, r.value)
    decreases A.StmtSize(st), 1, 0
  {
    match st
    case Assign(ts, v) => ExecAssign(ctx, s, ts, v)
    case AugAssign(t, op, v) => ExecAugAssign(ctx, s, t, op, v)
    case If(_, _, _) => ExecIf(ctx, s, st)
    case For(_, _, _) => ExecFor(ctx, s, st)
    case ExprStmt(e) =>
      var p :- CompileExpr(ctx, s.env, e);
      Ok(s.(env := p.1))
    case OtherStmt(es, inner) =>
      var p :- CompileExprs(ctx, s.env, es);
      ExecStmts(ctx, s.(env := p.1), inner)
  }

  function ExecStmts(ctx: Ctx, s: CState, ss: seq<A.Stmt>): (r: Out<CState>)
    ensures r.Ok? ==> Extends(s, r.value)
    decreases A.StmtsSize(ss), 2, 0
  {
    if |ss| == 0 then Ok(s)
    else
      var s1 :- ExecStmt(ctx, s, ss[0]);
      ExecStmts(ctx, s1, ss[1..])
  }

  /** Compiling a module with a fresh compiler (`visit_Module`). */
  function CompileCode(ctx: Ctx, predefined: Env, itemId: string, code: seq<A.Stmt>): Out<CState> {
    ExecStmts(ctx, CState(predefined, [], 0, itemId), code)
  }

  // ---------------------------------------------------------------------
  // The compiler object

  /** A statement visitor's error result and final state agree with the
      specification: no error and the specified state, or the specified
      error (the state after an exception is of no further use). */
  predicate Agrees(r: Out<CState>, err: Option<CompileError>, s: CState) {
    if r.Ok? then err.None? && s == r.value else err == Some(r.error)
  }

  function Prepend(acc: seq<Value>, r: Out<(seq<Value>, Env)>): Out<(seq<Value>, Env)> {
    if r.Ok? then Ok((acc + r.value.0, r.value.1)) else r
  }

  lemma PrependNothing(r: Out<(seq<Value>, Env)>)
    ensures Prepend([], r) == r
  {
    if r.Ok? {
      assert [] + r.value.0 == r.value.0;
    }
  }

  lemma PrependTwice(acc: seq<Value>, v: Value, r: Out<(seq<Value>, Env)>)
    ensures Prepend(acc, Prepend([v], r)) == Prepend(acc + [v], r)
  {
    if r.Ok? {
      assert acc + ([v] + r.value.0) == (acc + [v]) + r.value.0;
    }
  }

  lemma StmtSizeBound(ss: seq<A.Stmt>, i: nat)
    requires i < |ss|
    ensures A.StmtSize(ss[i]) <= A.StmtsSize(ss)
    decreases i
  {
    if i > 0 {
      StmtSizeBound(ss[1..], i - 1);
    }
  }

  class Compiler {
    var env: Env
    var constraints: seq<BoolTerm>
    var gen: nat
    const itemId: string
    const ctx: Ctx

    function State(): CState
      reads this
    {
      CState(env, constraints, gen, itemId)
    }

    constructor (predefined: Env, itemId: string, ctx: Ctx)
      ensures State() == CState(predefined, [], 0, itemId) && this.ctx == ctx
    {
      env := predefined;
      constraints := [];
      gen := 0;
      this.itemId := itemId;
      this.ctx := ctx;
    }

    /** `_e(node)`: visits an expression, caching the variables it creates. */
    method Eval(e: A.Expr) returns (r: Out<Value>)
      modifies this
      ensures var out := CompileExpr(ctx, old(env), e);
        if out.Ok? then r == Ok(out.value.0) && env == out.value.1 else r == Err(out.error)
      ensures constraints == old(constraints) && gen == old(gen)
    {
      var out := CompileExpr(ctx, env, e);
      if out.Ok? {
        env := out.value.1;
        r := Ok(out.value.0);
      } else {
        r := Err(out.error);
      }
    }

    method Visit(st: A.Stmt) returns (err: Option<CompileError>)
      modifies this
      ensures Agrees(ExecStmt(ctx, old(State()), st), err, State())
      decreases A.StmtSize(st), 1
    {
      match st
      case Assign(ts, v) => err := VisitAssign(ts, v);
      case AugAssign(t, op, v) => err := VisitAugAssign(t, op, v);
      case If(_, _, _) => err := VisitIf(st);
      case For(_, _, _) => err := VisitFor(st);
      case ExprStmt(e) =>
        var r := Eval(e);
        err := if r.Err? then Some(r.error) else None;
      case OtherStmt(es, inner) =>
        var p := CompileExprs(ctx, env, es);
        if p.Err? {
          return Some(p.error);
        }
        env := p.value.1;
        err := VisitAll(inner);
    }

    /** The statements in order, stopping at the first exception: the body
      of `visit_Module` and of the branch and loop visits. */
    method VisitAll(ss: seq<A.Stmt>) returns (err: Option<CompileError>)
      modifies this
      ensures Agrees(ExecStmts(ctx, old(State()), ss), err, State())
      decreases A.StmtsSize(ss), 2
    {
      var i := 0;
      while i < |ss|
        invariant 0 <= i <= |ss|
        invariant ExecStmts(ctx, State(), ss[i..]) == ExecStmts(ctx, old(State()), ss)
      {
        assert ss[i..][0] == ss[i] && ss[i..][1..] == ss[i + 1..];
        StmtSizeBound(ss, i);
        err := Visit(ss[i]);
        if err.Some? {
          return;
        }
        i := i + 1;
      }
      return None;
    }

    method VisitAssign(targets: seq<A.Expr>, value: A.Expr) returns (err: Option<CompileError>)
      modifies this
      ensures Agrees(ExecAssign(ctx, old(State()), targets, value), err, State())
    {
      if |targets| != 1 {
        return Some(MultipleTargets);
      }
      var target := targets[0];
      var rv := Eval(value);
      if rv.Err? {
        return Some(rv.error);
      }
      var rhs := rv.value;
      if target.Attribute? && target.attr == "outcome" && target.obj.Name? {
        var x := "S_" + target.obj.id;
        var lhs := MkVar(ctx, x);
        var c := EqValues(lhs, ToInt(rhs));
        if c.Err? {
          return Some(c.error);
        }
        constraints := constraints + [c.value];
        env := env[x := lhs];
        return None;
      }
      if !target.Name? {
        return Some(NotSimpleTarget);
      }
      if rhs.ListV? {
        env := env[target.id := rhs];
        return None;
      }
      var name := SsaName(itemId, target.id, gen);
      var ssa := if rhs.BoolV? then BoolV(BVar(name)) else if rhs.IntV? then IntV(IVar(name)) else MkVar(ctx, name);
      gen := gen + 1;
      var c := EqValues(ssa, rhs);
      assert c.Ok? by {
        if !rhs.NoneV? {
          assert IsTerm(ssa) && IsTerm(rhs);
        }
      }
      constraints := constraints + [c.value];
      env := env[target.id := ssa];
      return None;
    }

    method VisitAugAssign(target: A.Expr, op: A.BinOperator, value: A.Expr) returns (err: Option<CompileError>)
      modifies this
      ensures Agrees(ExecAugAssign(ctx, old(State()), target, op, value), err, State())
    {
      if target.Name? {
        err := AugAssignTo(target.id, true, op, value);
      } else if target.Attribute? && target.attr == "outcome" {
        if !target.obj.Name? {
          var rv := Eval(value);
          return Some(if rv.Err? then rv.error else UnsupportedAugTarget);
        }
        err := AugAssignTo("S_" + target.obj.id, false, op, value);
      } else {
        return Some(UnsupportedAugTarget);
      }
    }

    /** `visit_AugAssign` once the target is known to be the name `key`
        (`isName`) or the outcome variable `key` of an item. */
    method AugAssignTo(key: string, isName: bool, op: A.BinOperator, value: A.Expr) returns (err: Option<CompileError>)
      modifies this
      ensures var (cur, env1) := AugCurrent(ctx, old(env), key, isName);
        Agrees(AugUpdate(ctx, old(State()).(env := env1), cur, key, op, value), err, State())
    {
      var current := if key in env then env[key] else NoneV;
      if current.NoneV? {
        if isName {
          current := IntV(IConst(0));
        } else {
          current := MkVar(ctx, key);
          env := env[key := current];
        }
      }
      err := AugAssignUpdate(current, key, op, value);
    }

    method AugAssignUpdate(current: Value, key: string, op: A.BinOperator, value: A.Expr) returns (err: Option<CompileError>)
      modifies this
      ensures Agrees(AugUpdate(ctx, old(State()), current, key, op, value), err, State())
    {
      AugUpdateSteps(ctx, State(), current, key, op, value);
      var rv := Eval(value);
      if rv.Err? {
        return Some(rv.error);
      }
      if op !in AugOps() {
        return Some(UnsupportedAugOp);
      }
      var nv := ArithValues(op, ToInt(current), ToInt(rv.value));
      if nv.Err? {
        return Some(nv.error);
      }
      var ssa := MkVar(ctx, SsaName(itemId, key, gen));
      gen := gen + 1;
      var c := EqValues(ssa, nv.value);
      if c.Err? {
        return Some(c.error);
      }
      constraints := constraints + [c.value];
      env := env[key := ssa];
      return None;
    }

    method VisitIf(st: A.Stmt) returns (err: Option<CompileError>)
      requires st.If?
      modifies this
      ensures Agrees(ExecIf(ctx, old(State()), st), err, State())
      decreases A.StmtSize(st), 0
    {
      var c := Eval(st.cond);
      if c.Err? {
        return Some(c.error);
      }
      var cond := ToBool(c.value);
      var thenC := new Compiler(env, ThenId(itemId, gen), ctx);
      thenC.gen := gen;
      err := thenC.VisitAll(st.thenBody);
      if err.Some? {
        return;
      }
      var elseC := new Compiler(env, ElseId(itemId, gen), ctx);
      elseC.gen := thenC.gen;
      err := elseC.VisitAll(st.elseBody);
      if err.Some? {
        return;
      }
      gen := elseC.gen;
      var tEnv, eEnv := thenC.env, elseC.env;
      MergeBranches(cond, tEnv, eEnv, ctx.order(tEnv.Keys + eEnv.Keys));
      constraints := constraints + thenC.constraints + elseC.constraints;
    }

    /** The merge loop of `visit_If`. */
    method MergeBranches(cond: BoolTerm, tEnv: Env, eEnv: Env, names: seq<string>)
      modifies this
      ensures State() == Merge(ctx, cond, tEnv, eEnv, names, old(State()))
    {
      var i := 0;
      while i < |names|
        invariant 0 <= i <= |names|
        invariant Merge(ctx, cond, tEnv, eEnv, names[i..], State()) == Merge(ctx, cond, tEnv, eEnv, names, old(State()))
      {
        assert names[i..][0] == names[i] && names[i..][1..] == names[i + 1..];
        var n := names[i];
        var t := Side(tEnv, env, n);
        var e := Side(eEnv, env, n);
        if t.NoneV? || e.NoneV? {
        } else if t.ListV? && e.ListV? {
          env := env[n := t];
        } else if t.ListV? || e.ListV? {
        } else {
          var mv := MkVar(ctx, SsaName(itemId, n, gen));
          gen := gen + 1;
          constraints := constraints + [MergeConstraint(cond, mv, t, e)];
          env := env[n := mv];
        }
        i := i + 1;
      }
    }

    method VisitFor(st: A.Stmt) returns (err: Option<CompileError>)
      requires st.For?
      modifies this
      ensures Agrees(ExecFor(ctx, old(State()), st), err, State())
      decreases A.StmtSize(st), 0
    {
      if !st.target.Name? {
        return Some(ForTargetNotName);
      }
      var values := LoopValuesOf(st.iter);
      if values.Err? {
        return Some(values.error);
      }
      err := RunUnrolled(st.target.id, values.value, st.body);
    }

    /** The values the loop binds, as `visit_For` collects them. */
    method LoopValuesOf(iter: A.Expr) returns (r: Out<seq<Value>>)
      modifies this
      ensures var lv := LoopValues(ctx, old(env), iter);
        if lv.Ok? then r == Ok(lv.value.0) && env == lv.value.1 else r == Err(lv.error)
      ensures constraints == old(constraints) && gen == old(gen)
    {
      if iter.Call? && iter.func.Name? && iter.func.id == "range" && |iter.args| == 1 && iter.args[0].Const? {
        var k := iter.args[0].c;
        if k.CBool? {
          return Ok(RangeValues(if k.b then 1 else 0));
        } else if k.CInt? && 0 <= k.i <= 20 {
          return Ok(RangeValues(k.i));
        } else {
          return Err(ForRangeBound);
        }
      } else if iter.ListLit? || iter.TupleLit? || iter.SetLit? {
        var acc := ContainerLoop(iter.elts);
        if acc.Err? {
          return acc;
        }
        if |acc.value| > 20 {
          return Err(ForContainerTooLarge);
        }
        return acc;
      } else {
        return Err(ForUnsupportedIterable);
      }
    }

    /** The elements of a list, tuple or set literal, in order. */
    method ContainerLoop(elts: seq<A.Expr>) returns (r: Out<seq<Value>>)
      modifies this
      ensures var cv := ContainerValues(ctx, old(env), elts);
        if cv.Ok? then r == Ok(cv.value.0) && env == cv.value.1 else r == Err(cv.error)
      ensures constraints == old(constraints) && gen == old(gen)
    {
      ghost var env0 := env;
      var acc: seq<Value> := [];
      var j := 0;
      assert elts[0..] == elts;
      PrependNothing(ContainerValues(ctx, env0, elts));
      while j < |elts|
        invariant 0 <= j <= |elts|
        invariant ContainerValues(ctx, env0, elts) == Prepend(acc, ContainerValues(ctx, env, elts[j..]))
        invariant constraints == old(constraints) && gen == old(gen)
      {
        assert elts[j..][0] == elts[j] && elts[j..][1..] == elts[j + 1..];
        var elt := elts[j];
        ghost var envBefore := env;
        var v: Value;
        if elt.Const? {
          if elt.c.CBool? {
            v := IntV(IConst(if elt.c.b then 1 else 0));
          } else if elt.c.CInt? {
            v := IntV(IConst(elt.c.i));
          } else if elt.c.CStr? && NumeralValue(elt.c.s).Some? {
            v := IntV(IConst(NumeralValue(elt.c.s).value));
          } else {
            return Err(ForContainerElement);
          }
        } else {
          var e := Eval(elt);
          if e.Err? {
            return Err(e.error);
          }
          v := ToInt(e.value);
        }
        assert ElemValue(ctx, envBefore, elt) == Ok((v, env));
        PrependTwice(acc, v, ContainerValues(ctx, env, elts[j + 1..]));
        acc := acc + [v];
        j := j + 1;
      }
      assert elts[j..] == [] && acc + [] == acc;
      return Ok(acc);
    }

    /** The loop body visited once per value, the target bound to it. */
    method RunUnrolled(x: string, values: seq<Value>, body: seq<A.Stmt>) returns (err: Option<CompileError>)
      modifies this
      ensures Agrees(Unroll(ctx, old(State()), x, values, body), err, State())
      decreases A.StmtsSize(body), 3
    {
      ghost var start := State();
      var k := 0;
      while k < |values|
        invariant 0 <= k <= |values|
        invariant Unroll(ctx, State(), x, values[k..], body) == Unroll(ctx, start, x, values, body)
      {
        assert values[k..][0] == values[k] && values[k..][1..] == values[k + 1..];
        ghost var sk := State();
        env := env[x := values[k]];
        err := VisitAll(body);
        if err.Some? {
          assert Unroll(ctx, sk, x, values[k..], body) == Err(err.value);
          return;
        }
        k := k + 1;
      }
      return None;
    }
  }
}

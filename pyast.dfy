/** The part of Python's abstract syntax (`ast` module) that QML predicates
    and code blocks use, after `ast.parse`. Node kinds the translators do not
    look into are kept as `OtherExpr`/`OtherStmt` with their children, so that
    generic visits and `ast.walk` still see what they contain. */
module PyAst {

  /** A literal; `COther` stands for `None`, floats, bytes and `...`. */
  datatype Constant = CBool(b: bool) | CInt(i: int) | CStr(s: string) | COther

  datatype BinOperator = OpAdd | OpSub | OpMult | OpDiv | OpFloorDiv | OpMod | OpPow | OpOtherBin

  /** `COtherCmp` stands for `not in`, `is` and `is not`. */
  datatype CmpOperator = CEq | CNotEq | CLt | CLtE | CGt | CGtE | CIn | COtherCmp

  datatype BoolOperator = OpAnd | OpOr

  datatype UnaryOperator = UNot | USub | UAdd | UInvert

  datatype Expr =
    | Const(c: Constant)
    | Name(id: string)
    | Attribute(obj: Expr, attr: string)
    | Call(func: Expr, args: seq<Expr>)
    | BinOp(left: Expr, op: BinOperator, right: Expr)
    | Compare(first: Expr, ops: seq<CmpOperator>, comparators: seq<Expr>)
    | BoolOp(bop: BoolOperator, values: seq<Expr>)
    | UnaryOp(uop: UnaryOperator, operand: Expr)
    | IfExp(test: Expr, body: Expr, orelse: Expr)
    | ListLit(elts: seq<Expr>)
    | TupleLit(elts: seq<Expr>)
    | SetLit(elts: seq<Expr>)
    | OtherExpr(children: seq<Expr>)

  datatype Stmt =
    | Assign(targets: seq<Expr>, value: Expr)
    | AugAssign(target: Expr, aop: BinOperator, avalue: Expr)
    | If(cond: Expr, thenBody: seq<Stmt>, elseBody: seq<Stmt>)
    | For(target: Expr, iter: Expr, body: seq<Stmt>)
    | ExprStmt(e: Expr)
    | OtherStmt(exprs: seq<Expr>, inner: seq<Stmt>)

  /** `x.outcome` */
  function Outcome(x: string): Expr { Attribute(Name(x), "outcome") }

  function StmtSize(s: Stmt): nat
    decreases s
  {
    match s
    case If(_, t, e) => 1 + StmtsSize(t) + StmtsSize(e)
    case For(_, _, b) => 1 + StmtsSize(b)
    case OtherStmt(_, b) => 1 + StmtsSize(b)
    case _ => 1
  }

  function StmtsSize(ss: seq<Stmt>): nat
    decreases ss
  {
    if |ss| == 0 then 0 else StmtSize(ss[0]) + StmtsSize(ss[1..])
  }

  lemma {:induction false} StmtsSizeAppend(a: seq<Stmt>, b: seq<Stmt>)
    ensures StmtsSize(a + b) == StmtsSize(a) + StmtsSize(b)
    decreases |a|
  {
    if |a| > 0 {
      assert (a + b)[1..] == a[1..] + b;
      StmtsSizeAppend(a[1..], b);
    } else {
      assert a + b == b;
    }
  }

  /** The statements directly nested in a statement, in field order. */
  function Children(s: Stmt): seq<Stmt> {
    match s
    case If(_, t, e) => t + e
    case For(_, _, b) => b
    case OtherStmt(_, b) => b
    case _ => []
  }

  function ChildrenAll(level: seq<Stmt>): seq<Stmt>
    decreases |level|
  {
    if |level| == 0 then [] else Children(level[0]) + ChildrenAll(level[1..])
  }

  lemma {:induction false} ChildrenAllSize(level: seq<Stmt>)
    ensures StmtsSize(ChildrenAll(level)) + |level| == StmtsSize(level)
    decreases |level|
  {
    if |level| > 0 {
      ChildrenAllSize(level[1..]);
      StmtsSizeAppend(Children(level[0]), ChildrenAll(level[1..]));
      match level[0]
      case If(_, t, e) => StmtsSizeAppend(t, e);
      case _ =>
    }
  }

  /** The statements of a module in the order `ast.walk` yields them:
      breadth first, each level in source order. */
  function Walk(level: seq<Stmt>): seq<Stmt>
    decreases StmtsSize(level)
  {
    if |level| == 0 then []
    else
      ChildrenAllSize(level);
      level + Walk(ChildrenAll(level))
  }

  /** Every top-level statement comes first in the walk, in order. */
  lemma WalkStartsWithLevel(level: seq<Stmt>)
    ensures |Walk(level)| >= |level| && Walk(level)[..|level|] == level
  {
  }

  /** The `Assign` nodes of a module in `ast.walk` order. */
  function AssignsInWalk(code: seq<Stmt>): (r: seq<Stmt>)
    ensures forall i :: 0 <= i < |r| ==> r[i].Assign?
  {
    OnlyAssigns(Walk(code))
  }

  function OnlyAssigns(ss: seq<Stmt>): (r: seq<Stmt>)
    ensures forall i :: 0 <= i < |r| ==> r[i].Assign?
    ensures forall s :: s in r <==> s in ss && s.Assign?
    decreases |ss|
  {
    if |ss| == 0 then []
    else if ss[0].Assign? then [ss[0]] + OnlyAssigns(ss[1..])
    else OnlyAssigns(ss[1..])
  }

  /** Every `Name` identifier of an expression (what `ast.walk` meets as
      `ast.Name` nodes, including the object of an attribute access). */
  function NamesIn(e: Expr): set<string>
    decreases e
  {
    match e
    case Const(_) => {}
    case Name(x) => {x}
    case Attribute(o, _) => NamesIn(o)
    case Call(f, args) => NamesIn(f) + NamesInAll(args)
    case BinOp(l, _, r) => NamesIn(l) + NamesIn(r)
    case Compare(l, _, cs) => NamesIn(l) + NamesInAll(cs)
    case BoolOp(_, vs) => NamesInAll(vs)
    case UnaryOp(_, x) => NamesIn(x)
    case IfExp(t, b, o) => NamesIn(t) + NamesIn(b) + NamesIn(o)
    case ListLit(es) => NamesInAll(es)
    case TupleLit(es) => NamesInAll(es)
    case SetLit(es) => NamesInAll(es)
    case OtherExpr(es) => NamesInAll(es)
  }

  function NamesInAll(es: seq<Expr>): set<string>
    decreases es
  {
    if |es| == 0 then {} else NamesIn(es[0]) + NamesInAll(es[1..])
  }
}

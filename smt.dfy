/** The fragment of z3's term language the analyzers build: integer and
    boolean terms, their meaning in a model, satisfiability, and the contract
    of the solver (`check()` followed by `model()`), which stays abstract. */
module Smt {

  /** A total z3 model (`model_completion=True`): a value for every integer
      and every boolean constant, and the unspecified results of `div` and
      `mod` by zero, which SMT-LIB leaves to the model. */
  datatype Model = Model(
    ints: string -> int,
    bools: string -> bool,
    divByZero: int -> int,
    modByZero: int -> int)

  datatype Cmp = Lt | Le | Gt | Ge | Eq | Ne

  datatype IntTerm =
    | IConst(n: int)
    | IVar(name: string)
    | Add(a: IntTerm, b: IntTerm)
    | Sub(a: IntTerm, b: IntTerm)
    | Mul(a: IntTerm, b: IntTerm)
    | Div(a: IntTerm, b: IntTerm)
    | Mod(a: IntTerm, b: IntTerm)
    | Neg(a: IntTerm)
    | Ite(c: BoolTerm, t: IntTerm, e: IntTerm)

  /** z3's n-ary `And`/`Or` are represented right-nested (see `AndAll`). */
  datatype BoolTerm =
    | BConst(v: bool)
    | BVar(bname: string)
    | Not(p: BoolTerm)
    | And(l: BoolTerm, r: BoolTerm)
    | Or(l: BoolTerm, r: BoolTerm)
    | Implies(l: BoolTerm, r: BoolTerm)
    | BIte(bc: BoolTerm, bt: BoolTerm, be: BoolTerm)
    | Compare(op: Cmp, x: IntTerm, y: IntTerm)
    | Iff(l: BoolTerm, r: BoolTerm)

  function CmpHolds(op: Cmp, x: int, y: int): bool {
    match op
    case Lt => x < y
    case Le => x <= y
    case Gt => x > y
    case Ge => x >= y
    case Eq => x == y
    case Ne => x != y
  }

  /** SMT-LIB integer semantics; `/` and `%` of Dafny are Euclidean, like
      SMT-LIB's `div` and `mod`. */
  function EvalInt(t: IntTerm, m: Model): int
    decreases t
  {
    match t
    case IConst(n) => n
    case IVar(x) => m.ints(x)
    case Add(a, b) => EvalInt(a, m) + EvalInt(b, m)
    case Sub(a, b) => EvalInt(a, m) - EvalInt(b, m)
    case Mul(a, b) => EvalInt(a, m) * EvalInt(b, m)
    case Div(a, b) =>
      var x, y := EvalInt(a, m), EvalInt(b, m);
      if y == 0 then m.divByZero(x) else x / y
    case Mod(a, b) =>
      var x, y := EvalInt(a, m), EvalInt(b, m);
      if y == 0 then m.modByZero(x) else x % y
    case Neg(a) => -EvalInt(a, m)
    case Ite(c, x, y) => if Holds(c, m) then EvalInt(x, m) else EvalInt(y, m)
  }

  predicate Holds(f: BoolTerm, m: Model)
    decreases f
  {
    match f
    case BConst(v) => v
    case BVar(x) => m.bools(x)
    case Not(p) => !Holds(p, m)
    case And(l, r) => Holds(l, m) && Holds(r, m)
    case Or(l, r) => Holds(l, m) || Holds(r, m)
    case Implies(l, r) => Holds(l, m) ==> Holds(r, m)
    case BIte(c, x, y) => if Holds(c, m) then Holds(x, m) else Holds(y, m)
    case Compare(op, x, y) => CmpHolds(op, EvalInt(x, m), EvalInt(y, m))
    case Iff(l, r) => Holds(l, m) == Holds(r, m)
  }

  ghost predicate Satisfiable(f: BoolTerm) {
    exists m: Model :: Holds(f, m)
  }

  /** What `solver.check()` answers, with the model `solver.model()` gives
      after `sat`. */
  datatype Answer = Sat(model: Model) | Unsat | Unknown

  /** The solver is sound: `unsat` only for unsatisfiable formulas, and a
      `sat` answer comes with a model of the formula. It may answer
      `unknown` for anything. */
  ghost predicate SoundSolver(check: BoolTerm -> Answer) {
    forall f :: (check(f).Unsat? ==> !Satisfiable(f)) && (check(f).Sat? ==> Holds(f, check(f).model))
  }

  lemma SatAnswerSatisfiable(check: BoolTerm -> Answer, f: BoolTerm)
    requires SoundSolver(check) && check(f).Sat?
    ensures Satisfiable(f)
  {
    assert Holds(f, check(f).model);
  }

  /** z3's `And(*fs)` over a list, right-nested, in the shape
      `compile_conditions` and `get_domain_base` give a list of constraints:
      `True` when empty, the element itself when single. */
  function AndAll(fs: seq<BoolTerm>): (r: BoolTerm)
    ensures forall m :: Holds(r, m) <==> (forall i :: 0 <= i < |fs| ==> Holds(fs[i], m))
    decreases |fs|
  {
    if |fs| == 0 then BConst(true)
    else if |fs| == 1 then fs[0]
    else And(fs[0], AndAll(fs[1..]))
  }

  /** z3's `Or(*fs)`; the empty disjunction is `False`. */
  function OrAll(fs: seq<BoolTerm>): (r: BoolTerm)
    ensures forall m :: Holds(r, m) <==> (exists i :: 0 <= i < |fs| && Holds(fs[i], m))
    decreases |fs|
  {
    if |fs| == 0 then BConst(false)
    else if |fs| == 1 then fs[0]
    else
      var rest := OrAll(fs[1..]);
      assert forall m :: Holds(rest, m) <==> (exists i :: 1 <= i < |fs| && Holds(fs[i], m)) by {
        forall m ensures Holds(rest, m) <==> (exists i :: 1 <= i < |fs| && Holds(fs[i], m)) {
          if Holds(rest, m) {
            var j :| 0 <= j < |fs| - 1 && Holds(fs[1..][j], m);
            assert Holds(fs[j + 1], m);
          }
          if exists i :: 1 <= i < |fs| && Holds(fs[i], m) {
            var j :| 1 <= j < |fs| && Holds(fs[j], m);
            assert Holds(fs[1..][j - 1], m);
          }
        }
      }
      Or(fs[0], rest)
  }

  /** Every formula of a list holds in the model. */
  predicate AllHold(fs: seq<BoolTerm>, m: Model) {
    forall i :: 0 <= i < |fs| ==> Holds(fs[i], m)
  }

  lemma AllHoldConcat(a: seq<BoolTerm>, b: seq<BoolTerm>, m: Model)
    ensures AllHold(a + b, m) <==> AllHold(a, m) && AllHold(b, m)
  {
    if AllHold(a + b, m) {
      forall i | 0 <= i < |a| ensures Holds(a[i], m) {
        assert a[i] == (a + b)[i];
      }
      forall i | 0 <= i < |b| ensures Holds(b[i], m) {
        assert b[i] == (a + b)[|a| + i];
      }
    }
  }

  /** A list of formulas holds when its prefix up to `k` and the rest do. */
  lemma AllHoldSplit(fs: seq<BoolTerm>, k: nat, m: Model)
    requires k <= |fs|
    ensures AllHold(fs, m) <==> AllHold(fs[..k], m) && AllHold(fs[k..], m)
  {
    assert fs == fs[..k] + fs[k..];
    AllHoldConcat(fs[..k], fs[k..], m);
  }

  // ---------------------------------------------------------------------
  // Variables of a term, and the fact that a term's value depends on them
  // only.

  function NamesI(t: IntTerm): set<string>
    decreases t
  {
    match t
    case IConst(_) => {}
    case IVar(x) => {x}
    case Add(a, b) => NamesI(a) + NamesI(b)
    case Sub(a, b) => NamesI(a) + NamesI(b)
    case Mul(a, b) => NamesI(a) + NamesI(b)
    case Div(a, b) => NamesI(a) + NamesI(b)
    case Mod(a, b) => NamesI(a) + NamesI(b)
    case Neg(a) => NamesI(a)
    case Ite(c, x, y) => NamesB(c) + NamesI(x) + NamesI(y)
  }

  function NamesB(f: BoolTerm): set<string>
    decreases f
  {
    match f
    case BConst(_) => {}
    case BVar(x) => {x}
    case Not(p) => NamesB(p)
    case And(l, r) => NamesB(l) + NamesB(r)
    case Or(l, r) => NamesB(l) + NamesB(r)
    case Implies(l, r) => NamesB(l) + NamesB(r)
    case BIte(c, x, y) => NamesB(c) + NamesB(x) + NamesB(y)
    case Compare(_, x, y) => NamesI(x) + NamesI(y)
    case Iff(l, r) => NamesB(l) + NamesB(r)
  }

  /** Two models agree on a set of names (and on division by zero). */
  ghost predicate AgreeOn(names: set<string>, m1: Model, m2: Model) {
    m1.divByZero == m2.divByZero && m1.modByZero == m2.modByZero &&
    forall x :: x in names ==> m1.ints(x) == m2.ints(x) && m1.bools(x) == m2.bools(x)
  }

  lemma {:induction false} AgreeI(t: IntTerm, m1: Model, m2: Model)
    requires AgreeOn(NamesI(t), m1, m2)
    ensures EvalInt(t, m1) == EvalInt(t, m2)
    decreases t
  {
    match t
    case IConst(_) =>
    case IVar(_) =>
    case Add(a, b) => AgreeI(a, m1, m2); AgreeI(b, m1, m2);
    case Sub(a, b) => AgreeI(a, m1, m2); AgreeI(b, m1, m2);
    case Mul(a, b) => AgreeI(a, m1, m2); AgreeI(b, m1, m2);
    case Div(a, b) => AgreeI(a, m1, m2); AgreeI(b, m1, m2);
    case Mod(a, b) => AgreeI(a, m1, m2); AgreeI(b, m1, m2);
    case Neg(a) => AgreeI(a, m1, m2);
    case Ite(c, x, y) => AgreeB(c, m1, m2); AgreeI(x, m1, m2); AgreeI(y, m1, m2);
  }

  lemma {:induction false} AgreeB(f: BoolTerm, m1: Model, m2: Model)
    requires AgreeOn(NamesB(f), m1, m2)
    ensures Holds(f, m1) == Holds(f, m2)
    decreases f
  {
    match f
    case BConst(_) =>
    case BVar(_) =>
    case Not(p) => AgreeB(p, m1, m2);
    case And(l, r) => AgreeB(l, m1, m2); AgreeB(r, m1, m2);
    case Or(l, r) => AgreeB(l, m1, m2); AgreeB(r, m1, m2);
    case Implies(l, r) => AgreeB(l, m1, m2); AgreeB(r, m1, m2);
    case BIte(c, x, y) => AgreeB(c, m1, m2); AgreeB(x, m1, m2); AgreeB(y, m1, m2);
    case Compare(_, x, y) => AgreeI(x, m1, m2); AgreeI(y, m1, m2);
    case Iff(l, r) => AgreeB(l, m1, m2); AgreeB(r, m1, m2);
  }
}

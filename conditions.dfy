/** What the three validators read from a built `StaticBuilder`: the domain
    base B, the item order, and for each item its compiled precondition P,
    its compiled postcondition Q and whether its postcondition list is
    non-empty; plus the solver's contract in the strength each theorem
    needs. */
module Conditions {
  import opened Smt

  /** `item_details[id]`, compiled: `compile_conditions` of the
      preconditions and of the postconditions, and `bool(postconditions)`. */
  datatype ItemConditions = ItemConditions(pre: BoolTerm, post: BoolTerm, hasPost: bool)

  /** `get_domain_base()`, `item_order`, the compiled `item_details`, the
      keys of `item_vars` and of `z3_vars`. */
  datatype Compiled = Compiled(
    base: BoolTerm,
    order: seq<string>,
    details: map<string, ItemConditions>,
    itemIds: set<string>,
    ssaNames: set<string>)

  /** An empty postcondition list compiles to `True`. */
  predicate WellFormed(c: Compiled) {
    forall id :: id in c.details && !c.details[id].hasPost ==> c.details[id].post == BConst(true)
  }

  /** A solver that never answers `unknown`: with soundness, `unsat` then
      means exactly "unsatisfiable". */
  ghost predicate DecidingSolver(check: BoolTerm -> Answer) {
    SoundSolver(check) && forall f :: !check(f).Unknown?
  }

  lemma DecidingUnsat(check: BoolTerm -> Answer, f: BoolTerm)
    requires DecidingSolver(check)
    ensures check(f).Unsat? <==> !Satisfiable(f)
  {
    if !check(f).Unsat? {
      assert check(f).Sat?;
      SatAnswerSatisfiable(check, f);
    }
  }

  /** `Solver(); s.add(a, b)`: the formula checked. */
  function Both(a: BoolTerm, b: BoolTerm): BoolTerm { And(a, b) }

  /** `s.add(a, b, c)`. */
  function All3(a: BoolTerm, b: BoolTerm, c: BoolTerm): BoolTerm { And(a, And(b, c)) }

  /** Every model of `base` satisfies `f`. */
  ghost predicate Entails(base: BoolTerm, f: BoolTerm) {
    forall m :: Holds(base, m) ==> Holds(f, m)
  }

  /** An unsatisfiable `base ∧ ¬f` means `base` entails `f`. */
  lemma UnsatNegEntails(base: BoolTerm, f: BoolTerm)
    requires !Satisfiable(Both(base, Not(f)))
    ensures Entails(base, f)
  {
    forall m | Holds(base, m) ensures Holds(f, m) {
      if !Holds(f, m) {
        assert Holds(Both(base, Not(f)), m);
      }
    }
  }

  /** Adding a conjunct to an unsatisfiable conjunction keeps it
      unsatisfiable. */
  lemma UnsatWithMore(a: BoolTerm, b: BoolTerm, c: BoolTerm)
    requires !Satisfiable(Both(a, b))
    ensures !Satisfiable(All3(a, b, c))
  {
    forall m ensures !Holds(All3(a, b, c), m) {
      assert Holds(All3(a, b, c), m) == (Holds(a, m) && Holds(b, m) && Holds(c, m));
      assert Holds(Both(a, b), m) == (Holds(a, m) && Holds(b, m));
    }
  }
}

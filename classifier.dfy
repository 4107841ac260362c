/** `ItemClassifier`: per item, the reachability of its precondition
    (ALWAYS / CONDITIONAL / NEVER), the status of its postcondition relative
    to the precondition (NONE / TAUTOLOGICAL / CONSTRAINING / INFEASIBLE) and
    the two global flags of the postcondition, all read off solver answers
    on B, P and Q. */
module Classifier {
  import opened Smt
  import opened Conditions

  datatype PreStatus = Always | Conditional | Never | StatusUnknown

  /** `NoInvariant` is the label "NONE". */
  datatype PostInvariant = NoInvariant | Tautological | Constraining | Infeasible | InvariantUnknown

  /** The record `classify_item` returns. */
  datatype Classification = Classification(
    status: PreStatus,
    postInvariant: PostInvariant,
    vacuous: bool,
    qGloballyTrue: bool,
    qGloballyFalse: bool)

  /** The record for an id the builder has no details for. */
  const UnknownItem := Classification(StatusUnknown, InvariantUnknown, false, false, false)

  /** ALWAYS when B ∧ ¬P is unsat, else NEVER when B ∧ P is unsat, else
      CONDITIONAL. */
  function PreStatusOf(check: BoolTerm -> Answer, base: BoolTerm, p: BoolTerm): (r: PreStatus)
    ensures r != StatusUnknown
    ensures SoundSolver(check) && r == Always ==> Entails(base, p)
    ensures SoundSolver(check) && r == Never ==> !Satisfiable(Both(base, p))
    ensures DecidingSolver(check) ==>
      (r == Conditional <==> Satisfiable(Both(base, Not(p))) && Satisfiable(Both(base, p)))
  {
    assert DecidingSolver(check) ==>
      (check(Both(base, Not(p))).Unsat? <==> !Satisfiable(Both(base, Not(p)))) &&
      (check(Both(base, p)).Unsat? <==> !Satisfiable(Both(base, p))) by {
      if DecidingSolver(check) {
        DecidingUnsat(check, Both(base, Not(p)));
        DecidingUnsat(check, Both(base, p));
      }
    }
    if check(Both(base, Not(p))).Unsat? then
      assert SoundSolver(check) ==> Entails(base, p) by {
        if SoundSolver(check) { UnsatNegEntails(base, p); }
      }
      Always
    else if check(Both(base, p)).Unsat? then Never
    else Conditional
  }

  /** NONE without postconditions; for a reachable item TAUTOLOGICAL when
      B ∧ P ∧ ¬Q is unsat, else INFEASIBLE when B ∧ P ∧ Q is unsat, else
      CONSTRAINING; a vacuous item is labelled TAUTOLOGICAL. */
  function PostInvariantOf(check: BoolTerm -> Answer, base: BoolTerm, p: BoolTerm, q: BoolTerm, hasPost: bool, vacuous: bool): (r: PostInvariant)
    ensures r != InvariantUnknown
    ensures r == NoInvariant <==> !hasPost
    ensures hasPost && vacuous ==> r == Tautological
    ensures SoundSolver(check) && r == Tautological && !vacuous ==> !Satisfiable(All3(base, p, Not(q)))
    ensures SoundSolver(check) && r == Infeasible ==> !Satisfiable(All3(base, p, q))
    ensures DecidingSolver(check) && hasPost && !vacuous ==>
      (r == Constraining <==> Satisfiable(All3(base, p, Not(q))) && Satisfiable(All3(base, p, q)))
  {
    assert DecidingSolver(check) ==>
      (check(All3(base, p, Not(q))).Unsat? <==> !Satisfiable(All3(base, p, Not(q)))) &&
      (check(All3(base, p, q)).Unsat? <==> !Satisfiable(All3(base, p, q))) by {
      if DecidingSolver(check) {
        DecidingUnsat(check, All3(base, p, Not(q)));
        DecidingUnsat(check, All3(base, p, q));
      }
    }
    if !hasPost then NoInvariant
    else if !vacuous then
      if check(All3(base, p, Not(q))).Unsat? then Tautological
      else if check(All3(base, p, q)).Unsat? then Infeasible
      else Constraining
    else Tautological
  }

  /** `classify_item(item_id)`. */
  function ClassifyItem(c: Compiled, check: BoolTerm -> Answer, id: string): (r: Classification)
    ensures id !in c.details ==> r == UnknownItem
    ensures id in c.details ==> r.status != StatusUnknown && r.postInvariant != InvariantUnknown
    ensures id in c.details ==> (r.vacuous <==> r.status == Never)
    ensures id in c.details && !c.details[id].hasPost ==>
      r.postInvariant == NoInvariant && !r.qGloballyTrue && !r.qGloballyFalse
    ensures id in c.details && c.details[id].hasPost ==> r.postInvariant != NoInvariant
    ensures id in c.details && c.details[id].hasPost && r.status == Never ==> r.postInvariant == Tautological
  {
    if id !in c.details then UnknownItem
    else
      var d := c.details[id];
      var status := PreStatusOf(check, c.base, d.pre);
      var vacuous := status == Never;
      var inv := PostInvariantOf(check, c.base, d.pre, d.post, d.hasPost, vacuous);
      var qFalse := d.hasPost && check(Both(c.base, d.post)).Unsat?;
      var qTrue := d.hasPost && check(Both(c.base, Not(d.post))).Unsat?;
      Classification(status, inv, vacuous, qTrue, qFalse)
  }

  /** `classify_all_items()`: the loop filling the result dictionary, one
      entry per id of `item_order`. */
  function ClassifyAll(c: Compiled, check: BoolTerm -> Answer, order: seq<string>): (r: map<string, Classification>)
    ensures forall id :: id in r <==> id in order
    ensures forall id :: id in r ==> r[id] == ClassifyItem(c, check, id)
    decreases |order|
  {
    if |order| == 0 then map[]
    else
      var n := |order| - 1;
      var r := ClassifyAll(c, check, order[..n]);
      assert forall id :: id in order <==> id in order[..n] || id == order[n] by {
        assert order == order[..n] + [order[n]];
      }
      r[order[n] := ClassifyItem(c, check, order[n])]
  }

  // ---------------------------------------------------------------------
  // What the labels mean, for a sound solver.

  /** ALWAYS: every value allowed by B satisfies the precondition. NEVER: no
      value allowed by B does. */
  lemma StatusSound(c: Compiled, check: BoolTerm -> Answer, id: string)
    requires SoundSolver(check) && id in c.details
    ensures var r := ClassifyItem(c, check, id); var d := c.details[id];
      (r.status == Always ==> Entails(c.base, d.pre)) &&
      (r.status == Never ==> !Satisfiable(Both(c.base, d.pre)))
  {
    var d := c.details[id];
    if ClassifyItem(c, check, id).status == Always {
      UnsatNegEntails(c.base, d.pre);
    }
  }

  /** With a solver that never answers unknown, the precondition status is
      exactly the semantic one: ALWAYS iff B entails P, NEVER iff B ∧ P is
      unsat while B does not entail P, CONDITIONAL iff both B ∧ P and
      B ∧ ¬P have models. */
  lemma StatusExact(c: Compiled, check: BoolTerm -> Answer, id: string)
    requires DecidingSolver(check) && id in c.details
    ensures var r := ClassifyItem(c, check, id); var d := c.details[id];
      (r.status == Always <==> !Satisfiable(Both(c.base, Not(d.pre)))) &&
      (r.status == Never <==> Satisfiable(Both(c.base, Not(d.pre))) && !Satisfiable(Both(c.base, d.pre))) &&
      (r.status == Conditional <==> Satisfiable(Both(c.base, Not(d.pre))) && Satisfiable(Both(c.base, d.pre)))
  {
    var d := c.details[id];
    DecidingUnsat(check, Both(c.base, Not(d.pre)));
    DecidingUnsat(check, Both(c.base, d.pre));
  }

  /** An item whose precondition list compiles to `True` is ALWAYS, once the
      solver decides the (trivially unsat) formula B ∧ ¬True. */
  lemma NoPreconditionAlways(c: Compiled, check: BoolTerm -> Answer, id: string)
    requires DecidingSolver(check) && id in c.details && c.details[id].pre == BConst(true)
    ensures ClassifyItem(c, check, id).status == Always
  {
    forall m ensures !Holds(Both(c.base, Not(BConst(true))), m) {
      assert Holds(BConst(true), m);
    }
    DecidingUnsat(check, Both(c.base, Not(BConst(true))));
  }

  /** TAUTOLOGICAL, whether reached through the solver or through
      vacuity: B ∧ P entails Q. */
  lemma TautologicalSound(c: Compiled, check: BoolTerm -> Answer, id: string)
    requires SoundSolver(check) && id in c.details
    requires ClassifyItem(c, check, id).postInvariant == Tautological
    ensures !Satisfiable(All3(c.base, c.details[id].pre, Not(c.details[id].post)))
  {
    var d := c.details[id];
    if ClassifyItem(c, check, id).vacuous {
      StatusSound(c, check, id);
      UnsatWithMore(c.base, d.pre, Not(d.post));
    }
  }

  /** INFEASIBLE: the item is reachable according to the solver, yet no
      value allowed by B satisfies both P and Q. */
  lemma InfeasibleSound(c: Compiled, check: BoolTerm -> Answer, id: string)
    requires SoundSolver(check) && id in c.details
    requires ClassifyItem(c, check, id).postInvariant == Infeasible
    ensures ClassifyItem(c, check, id).status != Never
    ensures !Satisfiable(All3(c.base, c.details[id].pre, c.details[id].post))
  {
  }

  /** With a deciding solver, a reachable item with postconditions is
      CONSTRAINING exactly when Q is sometimes true and sometimes false among
      the values satisfying B ∧ P. */
  lemma ConstrainingExact(c: Compiled, check: BoolTerm -> Answer, id: string)
    requires DecidingSolver(check) && id in c.details && c.details[id].hasPost
    requires ClassifyItem(c, check, id).status != Never
    ensures var d := c.details[id];
      ClassifyItem(c, check, id).postInvariant == Constraining <==>
        Satisfiable(All3(c.base, d.pre, Not(d.post))) && Satisfiable(All3(c.base, d.pre, d.post))
  {
    var d := c.details[id];
    DecidingUnsat(check, All3(c.base, d.pre, Not(d.post)));
    DecidingUnsat(check, All3(c.base, d.pre, d.post));
  }

  /** The global flags: `q_globally_false` means no value allowed by B
      satisfies Q; `q_globally_true` means B entails Q. */
  lemma GlobalFlagsSound(c: Compiled, check: BoolTerm -> Answer, id: string)
    requires SoundSolver(check) && id in c.details
    ensures var r := ClassifyItem(c, check, id); var d := c.details[id];
      (r.qGloballyFalse ==> !Satisfiable(Both(c.base, d.post))) &&
      (r.qGloballyTrue ==> Entails(c.base, d.post))
  {
    var d := c.details[id];
    if ClassifyItem(c, check, id).qGloballyTrue {
      UnsatNegEntails(c.base, d.post);
    }
  }
}

/** `GlobalFormula`: the satisfiability of F = B ∧ ⋀ (P_i ⇒ Q_i) over the
    items of `item_order`, its witness, and the incremental search for the
    implications that make F unsatisfiable. */
module GlobalFormula {
  import opened Wrappers
  import opened Smt
  import opened Conditions
  import opened Classifier

  /** `"SAT"`, `"UNSAT"`, `"UNKNOWN"`. */
  datatype Status = SatStatus | UnsatStatus | UnknownStatus

  /** `GlobalFormulaResult` without its message text; `completion` is its
      `witness`. */
  datatype GlobalFormulaResult = GlobalFormulaResult(satisfiable: bool, status: Status, completion: Option<map<string, int>>)

  // ---------------------------------------------------------------------
  // The formula.

  /** `Implies(P_i, Q_i)` for every id of `order` with details. */
  function Implications(c: Compiled, order: seq<string>): seq<BoolTerm>
    decreases |order|
  {
    if |order| == 0 then []
    else
      var id := order[|order| - 1];
      Implications(c, order[..|order| - 1]) +
        (if id in c.details then [Implies(c.details[id].pre, c.details[id].post)] else [])
  }

  /** What the solver of `check()` holds: B, then the implications. */
  function Formula(c: Compiled): BoolTerm {
    AndAll([c.base] + Implications(c, c.order))
  }

  /** Every item of `order` with details satisfies its postcondition when
      it satisfies its precondition. */
  ghost predicate Respects(c: Compiled, order: seq<string>, m: Model) {
    forall k :: 0 <= k < |order| && order[k] in c.details ==>
      (Holds(c.details[order[k]].pre, m) ==> Holds(c.details[order[k]].post, m))
  }

  lemma {:induction false} ImplicationsMeaning(c: Compiled, order: seq<string>, m: Model)
    ensures AllHold(Implications(c, order), m) <==> Respects(c, order, m)
    decreases |order|
  {
    if |order| > 0 {
      var init := order[..|order| - 1];
      var id := order[|order| - 1];
      var last := if id in c.details then [Implies(c.details[id].pre, c.details[id].post)] else [];
      ImplicationsMeaning(c, init, m);
      AllHoldConcat(Implications(c, init), last, m);
      assert forall k :: 0 <= k < |init| ==> init[k] == order[k];
      if id in c.details {
        assert AllHold(last, m) <==> (Holds(c.details[id].pre, m) ==> Holds(c.details[id].post, m)) by {
          assert last[0] == Implies(c.details[id].pre, c.details[id].post);
        }
      }
    }
  }

  /** F holds exactly in the models of B in which every item's
      precondition implies its postcondition. */
  lemma FormulaMeaning(c: Compiled, m: Model)
    ensures Holds(Formula(c), m) <==> Holds(c.base, m) && Respects(c, c.order, m)
  {
    ImplicationsMeaning(c, c.order, m);
    AllHoldConcat([c.base], Implications(c, c.order), m);
    assert AllHold([c.base], m) <==> Holds(c.base, m) by {
      assert [c.base][0] == c.base;
    }
  }

  // ---------------------------------------------------------------------
  // `check()` and `_extract_witness`.

  /** `"{id}.outcome"` for every item. */
  function OutcomeKeys(itemIds: set<string>): set<string> {
    set id | id in itemIds :: id + ".outcome"
  }

  lemma OutcomeKeyInjective(a: string, b: string)
    requires a + ".outcome" == b + ".outcome"
    ensures a == b
  {
    assert |a| == |b|;
    assert a == (a + ".outcome")[..|a|];
    assert b == (b + ".outcome")[..|b|];
  }

  /** The witness of `_extract_witness`: one key per item variable and one
      per SSA name, an SSA name overriding an item key it coincides with. */
  ghost predicate WitnessOf(w: map<string, int>, itemIds: set<string>, ssaNames: set<string>, m: Model) {
    w.Keys == OutcomeKeys(itemIds) + ssaNames &&
    (forall n :: n in ssaNames ==> w[n] == m.ints(n)) &&
    (forall id :: id in itemIds && id + ".outcome" !in ssaNames ==> w[id + ".outcome"] == m.ints("item_" + id))
  }

  /** The description determines the witness. */
  lemma WitnessUnique(w1: map<string, int>, w2: map<string, int>, itemIds: set<string>, ssaNames: set<string>, m: Model)
    requires WitnessOf(w1, itemIds, ssaNames, m) && WitnessOf(w2, itemIds, ssaNames, m)
    ensures w1 == w2
  {
    forall k | k in w1.Keys ensures w1[k] == w2[k] {
      if k !in ssaNames {
        var id :| id in itemIds && k == id + ".outcome";
      }
    }
  }

  /** `_extract_witness`: the item variables, then the SSA variables. */
  method ExtractWitness(itemIds: set<string>, ssaNames: set<string>, m: Model) returns (w: map<string, int>)
    ensures WitnessOf(w, itemIds, ssaNames, m)
  {
    w := map[];
    var todo := itemIds;
    ghost var done: set<string> := {};
    while todo != {}
      invariant done + todo == itemIds && done !! todo
      invariant w.Keys == OutcomeKeys(done)
      invariant forall id :: id in done ==> w[id + ".outcome"] == m.ints("item_" + id)
      decreases todo
    {
      var id :| id in todo;
      forall other | other in done ensures other + ".outcome" != id + ".outcome" {
        if other + ".outcome" == id + ".outcome" {
          OutcomeKeyInjective(other, id);
        }
      }
      w := w[id + ".outcome" := m.ints("item_" + id)];
      todo, done := todo - {id}, done + {id};
    }
    var names := ssaNames;
    ghost var seen: set<string> := {};
    while names != {}
      invariant seen + names == ssaNames && seen !! names
      invariant w.Keys == OutcomeKeys(itemIds) + seen
      invariant forall n :: n in seen ==> w[n] == m.ints(n)
      invariant forall id :: id in itemIds && id + ".outcome" !in seen ==> w[id + ".outcome"] == m.ints("item_" + id)
      decreases names
    {
      var n :| n in names;
      w := w[n := m.ints(n)];
      names, seen := names - {n}, seen + {n};
    }
  }

  /** The loop of `check()` collecting the implications. */
  method CollectImplications(c: Compiled) returns (impls: seq<BoolTerm>)
    ensures impls == Implications(c, c.order)
  {
    impls := [];
    for k := 0 to |c.order|
      invariant impls == Implications(c, c.order[..k])
    {
      assert c.order[..k + 1][..k] == c.order[..k];
      var id := c.order[k];
      if id in c.details {
        impls := impls + [Implies(c.details[id].pre, c.details[id].post)];
      }
    }
    assert c.order[..|c.order|] == c.order;
  }

  /** `check()`: the answer on F, mapped to a result; a `sat` answer comes
      with the witness read from its model. */
  method Check(c: Compiled, check: BoolTerm -> Answer) returns (r: GlobalFormulaResult)
    ensures r.satisfiable <==> check(Formula(c)).Sat?
    ensures r.status == SatStatus <==> check(Formula(c)).Sat?
    ensures r.status == UnsatStatus <==> check(Formula(c)).Unsat?
    ensures r.completion.Some? <==> check(Formula(c)).Sat?
    ensures r.completion.Some? ==> WitnessOf(r.completion.value, c.itemIds, c.ssaNames, check(Formula(c)).model)
    ensures SoundSolver(check) ==>
      (r.satisfiable ==> Satisfiable(Formula(c))) && (r.status == UnsatStatus ==> !Satisfiable(Formula(c)))
  {
    var impls := CollectImplications(c);
    var answer := check(AndAll([c.base] + impls));
    if answer.Sat? {
      var w := ExtractWitness(c.itemIds, c.ssaNames, answer.model);
      r := GlobalFormulaResult(true, SatStatus, Some(w));
      if SoundSolver(check) {
        SatAnswerSatisfiable(check, Formula(c));
      }
    } else if answer.Unsat? {
      r := GlobalFormulaResult(false, UnsatStatus, None);
    } else {
      r := GlobalFormulaResult(false, UnknownStatus, None);
    }
  }

  // ---------------------------------------------------------------------
  // Per-item validity and F.

  /** Where every W_i = B ∧ P_i ∧ ¬Q_i is unsatisfiable, every model of B
      satisfies F. */
  lemma PerItemEntailsFormula(c: Compiled, m: Model)
    requires forall id :: id in c.details ==> !Satisfiable(All3(c.base, c.details[id].pre, Not(c.details[id].post)))
    requires Holds(c.base, m)
    ensures Holds(Formula(c), m)
  {
    forall k | 0 <= k < |c.order| && c.order[k] in c.details
      ensures Holds(c.details[c.order[k]].pre, m) ==> Holds(c.details[c.order[k]].post, m)
    {
      var d := c.details[c.order[k]];
      if Holds(d.pre, m) && !Holds(d.post, m) {
        assert Holds(All3(c.base, d.pre, Not(d.post)), m);
      }
    }
    FormulaMeaning(c, m);
  }

  /** The postcondition labels that guarantee W_i unsat. */
  predicate Guaranteed(inv: PostInvariant) {
    inv == Tautological || inv == NoInvariant
  }

  /** Soundness: when every item's postcondition is TAUTOLOGICAL or NONE
      and B has a model, F has a model. */
  lemma PerItemSound(c: Compiled, check: BoolTerm -> Answer)
    requires SoundSolver(check) && WellFormed(c) && Satisfiable(c.base)
    requires forall id :: id in c.details ==> Guaranteed(ClassifyItem(c, check, id).postInvariant)
    ensures Satisfiable(Formula(c))
  {
    forall id | id in c.details
      ensures !Satisfiable(All3(c.base, c.details[id].pre, Not(c.details[id].post)))
    {
      var d := c.details[id];
      if ClassifyItem(c, check, id).postInvariant == Tautological {
        TautologicalSound(c, check, id);
      } else {
        assert !d.hasPost;
        assert d.post == BConst(true);
        forall m ensures !Holds(All3(c.base, d.pre, Not(d.post)), m) {
          assert !Holds(Not(d.post), m);
        }
      }
    }
    var m :| Holds(c.base, m);
    PerItemEntailsFormula(c, m);
  }

  // ---------------------------------------------------------------------
  // Accumulated conflicts.

  function RatingVar(): IntTerm { IVar("item_rating") }

  /** B as `get_domain_base()` builds it for the two items: `AndAll` of the
      three domain constraints, written out. */
  function ExampleBase(): BoolTerm {
    And(Compare(Ge, RatingVar(), IConst(1)),
        And(Compare(Le, RatingVar(), IConst(100)),
            Or(Compare(Eq, IVar("item_confirm"), IConst(0)), Compare(Eq, IVar("item_confirm"), IConst(1)))))
  }

  /** Q_1 = rating > 50 and Q_2 = rating < 30, both preconditions true,
      rating in [1, 100] and confirm in {0, 1}. */
  function ConflictExample(): Compiled {
    Compiled(
      ExampleBase(),
      ["rating", "confirm"],
      map["rating" := ItemConditions(BConst(true), Compare(Gt, RatingVar(), IConst(50)), true),
          "confirm" := ItemConditions(BConst(true), Compare(Lt, RatingVar(), IConst(30)), true)],
      {"rating", "confirm"},
      {})
  }

  /** F is unsatisfiable: no rating is both above 50 and below 30. */
  lemma ConflictUnsat()
    ensures !Satisfiable(Formula(ConflictExample()))
  {
    var c := ConflictExample();
    var q1 := Implies(BConst(true), Compare(Gt, RatingVar(), IConst(50)));
    var q2 := Implies(BConst(true), Compare(Lt, RatingVar(), IConst(30)));
    assert c.order[..1] == ["rating"] && c.order[..1][..0] == [];
    assert Implications(c, c.order[..1]) == [q1];
    assert Implications(c, c.order) == [q1, q2];
    var fs := [c.base, q1, q2];
    assert Formula(c) == AndAll(fs);
    forall m ensures !Holds(AndAll(fs), m) {
      assert !Holds(fs[1], m) || !Holds(fs[2], m);
    }
  }

  /** B ∧ P_i ∧ Q_i holds in every model giving rating the value `v`,
      inside item `id`'s postcondition, and confirm 0. */
  lemma ConflictItemHolds(id: string, v: int, m: Model)
    requires id in ConflictExample().details
    requires m.ints("item_rating") == v && m.ints("item_confirm") == 0
    requires if id == "rating" then 50 < v <= 100 else 1 <= v < 30
    ensures Holds(All3(ConflictExample().base, ConflictExample().details[id].pre, ConflictExample().details[id].post), m)
  {
  }

  /** A model with the rating `v` and confirm 0 (the two variable names
      differ in length). */
  function RatingModel(v: int): Model {
    Model(x => if |x| == |"item_rating"| then v else 0, _ => false, _ => 0, _ => 0)
  }

  /** B ∧ P_i ∧ Q_i has a model for each item. */
  lemma ConflictItemsSatisfiable(id: string)
    requires id in ConflictExample().details
    ensures Satisfiable(All3(ConflictExample().base, ConflictExample().details[id].pre, ConflictExample().details[id].post))
  {
    var v := if id == "rating" then 75 else 20;
    var m := RatingModel(v);
    assert m.ints("item_rating") == v && m.ints("item_confirm") == 0;
    ConflictItemHolds(id, v, m);
  }

  /** Yet no sound solver labels either item INFEASIBLE. */
  lemma ConflictNotInfeasible(check: BoolTerm -> Answer, id: string)
    requires SoundSolver(check) && id in ConflictExample().details
    ensures ClassifyItem(ConflictExample(), check, id).postInvariant != Infeasible
  {
    var c := ConflictExample();
    ConflictItemsSatisfiable(id);
    assert !check(All3(c.base, c.details[id].pre, c.details[id].post)).Unsat?;
  }

  // ---------------------------------------------------------------------
  // `get_conflicting_items`.

  /** `a` is `b` with some entries left out. */
  predicate Subsequence(a: seq<string>, b: seq<string>)
    decreases |b|
  {
    if |a| == 0 then true
    else if |b| == 0 then false
    else (a[|a| - 1] == b[|b| - 1] && Subsequence(a[..|a| - 1], b[..|b| - 1])) || Subsequence(a, b[..|b| - 1])
  }

  /** The ids of `order` that have details, in order. */
  function DetailIds(c: Compiled, order: seq<string>): seq<string>
    decreases |order|
  {
    if |order| == 0 then []
    else DetailIds(c, order[..|order| - 1]) + (if order[|order| - 1] in c.details then [order[|order| - 1]] else [])
  }

  /** The loop of `get_conflicting_items` over `order`, starting from the
      retained formulas `kept`: the items whose implication the solver
      finds inconsistent with what is retained, and what is retained at the
      end. */
  function Scan(c: Compiled, check: BoolTerm -> Answer, kept: seq<BoolTerm>, order: seq<string>): (seq<string>, seq<BoolTerm>)
    decreases |order|
  {
    if |order| == 0 then ([], kept)
    else
      var (conf, k1) := Scan(c, check, kept, order[..|order| - 1]);
      var id := order[|order| - 1];
      if id !in c.details then (conf, k1)
      else
        var imp := Implies(c.details[id].pre, c.details[id].post);
        if check(AndAll(k1 + [imp])).Unsat? then (conf + [id], k1) else (conf, k1 + [imp])
  }

  /** `get_conflicting_items()`: nothing when `check()` is satisfiable,
      else the scan from B alone. */
  function ConflictingItems(c: Compiled, check: BoolTerm -> Answer): seq<string> {
    if check(Formula(c)).Sat? then [] else Scan(c, check, [c.base], c.order).0
  }

  /** The method: `check()` first, then the push / add / check / pop loop. */
  method GetConflictingItems(c: Compiled, check: BoolTerm -> Answer) returns (conflicting: seq<string>)
    ensures conflicting == ConflictingItems(c, check)
    ensures check(Formula(c)).Sat? ==> conflicting == []
  {
    var result := Check(c, check);
    if result.satisfiable {
      return [];
    }
    conflicting := [];
    var kept := [c.base];
    for k := 0 to |c.order|
      invariant (conflicting, kept) == Scan(c, check, [c.base], c.order[..k])
    {
      assert c.order[..k + 1][..k] == c.order[..k];
      var id := c.order[k];
      if id in c.details {
        var imp := Implies(c.details[id].pre, c.details[id].post);
        if check(AndAll(kept + [imp])).Unsat? {
          conflicting := conflicting + [id];
        } else {
          kept := kept + [imp];
        }
      }
    }
    assert c.order[..|c.order|] == c.order;
  }

  lemma {:induction false} SubsequenceExtend(a: seq<string>, b: seq<string>, x: string)
    requires Subsequence(a, b)
    ensures Subsequence(a, b + [x]) && Subsequence(a + [x], b + [x])
  {
    assert (b + [x])[..|b|] == b;
    assert (a + [x])[..|a|] == a;
    if |a| > 0 {
      assert Subsequence(a, (b + [x])[..|b + [x]| - 1]);
    }
  }

  /** The reported items are a subsequence of `order`, all with details;
      every other item with details had its implication retained. */
  lemma {:induction false} ScanShape(c: Compiled, check: BoolTerm -> Answer, kept: seq<BoolTerm>, order: seq<string>)
    ensures var (conf, k) := Scan(c, check, kept, order);
      Subsequence(conf, order) && (forall id :: id in conf ==> id in c.details) &&
      |k| >= |kept| && k[..|kept|] == kept && |conf| + (|k| - |kept|) == |DetailIds(c, order)|
    decreases |order|
  {
    if |order| > 0 {
      var init := order[..|order| - 1];
      var x := order[|order| - 1];
      ScanShape(c, check, kept, init);
      assert order == init + [x];
      var (conf, k1) := Scan(c, check, kept, init);
      SubsequenceExtend(conf, init, x);
      if x in c.details {
        var imp := Implies(c.details[x].pre, c.details[x].post);
        assert (k1 + [imp])[..|kept|] == k1[..|kept|];
      }
    } else {
      assert kept[..|kept|] == kept;
    }
  }

  /** With a deciding solver, a satisfiable retained set stays
      satisfiable. */
  lemma {:induction false} ScanKeepsSatisfiable(c: Compiled, check: BoolTerm -> Answer, kept: seq<BoolTerm>, order: seq<string>)
    requires DecidingSolver(check) && Satisfiable(AndAll(kept))
    ensures Satisfiable(AndAll(Scan(c, check, kept, order).1))
    decreases |order|
  {
    if |order| > 0 {
      var init := order[..|order| - 1];
      var x := order[|order| - 1];
      ScanKeepsSatisfiable(c, check, kept, init);
      var k1 := Scan(c, check, kept, init).1;
      if x in c.details {
        var imp := Implies(c.details[x].pre, c.details[x].post);
        DecidingUnsat(check, AndAll(k1 + [imp]));
      }
    }
  }

  /** Without a report, everything was retained. */
  lemma {:induction false} ScanNothingReported(c: Compiled, check: BoolTerm -> Answer, kept: seq<BoolTerm>, order: seq<string>)
    requires Scan(c, check, kept, order).0 == []
    ensures Scan(c, check, kept, order).1 == kept + Implications(c, order)
    decreases |order|
  {
    if |order| > 0 {
      var init := order[..|order| - 1];
      var x := order[|order| - 1];
      var (conf, k1) := Scan(c, check, kept, init);
      assert conf == [] by {
        if x in c.details {
          var imp := Implies(c.details[x].pre, c.details[x].post);
          assert |Scan(c, check, kept, order).0| >= |conf|;
        }
      }
      ScanNothingReported(c, check, kept, init);
    }
  }

  /** With a deciding solver and a satisfiable B, nothing is reported
      exactly when F is satisfiable. */
  lemma ConflictsExact(c: Compiled, check: BoolTerm -> Answer)
    requires DecidingSolver(check) && Satisfiable(c.base)
    ensures ConflictingItems(c, check) == [] <==> Satisfiable(Formula(c))
  {
    DecidingUnsat(check, Formula(c));
    if !check(Formula(c)).Sat? && Scan(c, check, [c.base], c.order).0 == [] {
      ScanNothingReported(c, check, [c.base], c.order);
      assert Satisfiable(AndAll([c.base])) by {
        var m :| Holds(c.base, m);
        assert Holds(AndAll([c.base]), m);
      }
      ScanKeepsSatisfiable(c, check, [c.base], c.order);
    }
  }

  /** Where B is unsatisfiable, every retained set is, and a deciding
      solver reports every item with details. */
  lemma {:induction false} ScanAllReported(c: Compiled, check: BoolTerm -> Answer, kept: seq<BoolTerm>, order: seq<string>)
    requires DecidingSolver(check) && |kept| > 0 && !Satisfiable(kept[0])
    ensures Scan(c, check, kept, order) == (DetailIds(c, order), kept)
    decreases |order|
  {
    if |order| > 0 {
      var init := order[..|order| - 1];
      var x := order[|order| - 1];
      ScanAllReported(c, check, kept, init);
      if x in c.details {
        var imp := Implies(c.details[x].pre, c.details[x].post);
        forall m ensures !Holds(AndAll(kept + [imp]), m) {
          assert (kept + [imp])[0] == kept[0];
          assert !Holds((kept + [imp])[0], m);
        }
        DecidingUnsat(check, AndAll(kept + [imp]));
        assert check(AndAll(kept + [imp])).Unsat?;
        assert Scan(c, check, kept, order) == (DetailIds(c, init) + [x], kept);
      } else {
        assert DetailIds(c, order) == DetailIds(c, init) + [] == DetailIds(c, init);
        assert Scan(c, check, kept, order) == Scan(c, check, kept, init);
      }
    }
  }

  lemma BaseUnsatAllConflicting(c: Compiled, check: BoolTerm -> Answer)
    requires DecidingSolver(check) && !Satisfiable(c.base)
    ensures ConflictingItems(c, check) == DetailIds(c, c.order)
  {
    forall m ensures !Holds(Formula(c), m) {
      assert ([c.base] + Implications(c, c.order))[0] == c.base;
    }
    DecidingUnsat(check, Formula(c));
    ScanAllReported(c, check, [c.base], c.order);
  }
}

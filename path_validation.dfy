/** `PathBasedValidator`: for every item of the topological order, its
    predecessors Pred(i) (the transitive dependencies placed before it),
    its precondition status, and whether it stays reachable under
    A_i = B ∧ ⋀_{j ∈ Pred(i)} (P_j ⇒ Q_j); a CONDITIONAL item that does not
    is dead code. */
module PathValidation {
  import opened Wrappers
  import opened Smt
  import opened Graphs
  import opened Conditions
  import opened Classifier
  import opened TopologyOrder
  import opened GlobalFormula

  /** `ItemReachabilityResult` without its message text; `status` is
      `per_item_status`. */
  datatype ItemReachabilityResult = ItemReachabilityResult(
    id: string,
    status: PreStatus,
    accumulatedReachable: bool,
    isDeadCode: bool,
    predecessors: seq<string>)

  /** `PathValidationResult` without its message text. */
  datatype PathValidationResult = PathValidationResult(
    hasDeadCode: bool,
    deadCodeItems: seq<string>,
    itemResults: map<string, ItemReachabilityResult>)

  // ---------------------------------------------------------------------
  // `_get_transitive_dependencies`.

  /** Every node some edge points to. */
  function Targets(g: Graph): set<string> {
    set k, y | k in g && y in g[k] :: y
  }

  /** The items reachable from `x` along one edge or more. */
  ghost function TransitiveDeps(g: Graph, x: string): set<string> {
    set y | y in Targets(g) && ReachesPlus(g, x, y)
  }

  lemma PlusReaches(g: Graph, a: string, b: string)
    requires ReachesPlus(g, a, b)
    ensures Reaches(g, a, b)
  {
  }

  lemma PlusTarget(g: Graph, a: string, b: string)
    requires ReachesPlus(g, a, b)
    ensures b in Targets(g)
  {
    var p :| IsPath(g, p) && |p| >= 2 && p[0] == a && p[|p| - 1] == b;
    assert b in Succ(g, p[|p| - 2]);
  }

  /** `list(s)`, in some order. */
  method ListOf(s: set<string>) returns (r: seq<string>)
    ensures Elems(r) == s
  {
    r := [];
    var todo := s;
    while todo != {}
      invariant Elems(r) + todo == s
      decreases todo
    {
      var x :| x in todo;
      ElemsConcat(r, [x]);
      r := r + [x];
      todo := todo - {x};
    }
  }

  /** The `to_visit` stack and the `visited` set: what is visited or
      stacked is a transitive dependency, and every visited item's
      dependencies are visited or stacked. */
  ghost predicate Worklist(g: Graph, x: string, visited: set<string>, toVisit: seq<string>) {
    visited <= Targets(g) && Elems(toVisit) <= Targets(g) &&
    (forall y :: y in visited + Elems(toVisit) ==> ReachesPlus(g, x, y)) &&
    Succ(g, x) <= visited + Elems(toVisit) &&
    (forall v :: v in visited ==> Succ(g, v) <= visited + Elems(toVisit))
  }

  lemma SuccTargets(g: Graph, v: string)
    ensures Succ(g, v) <= Targets(g)
  {
  }

  /** `_get_transitive_dependencies(x)`: the worklist loop. */
  method TransitiveDependencies(g: Graph, x: string) returns (visited: set<string>)
    ensures visited == TransitiveDeps(g, x)
  {
    visited := {};
    var toVisit := ListOf(Succ(g, x));
    SuccTargets(g, x);
    forall y | y in Succ(g, x) ensures ReachesPlus(g, x, y) {
      ReachRefl(g, x);
      ReachStep(g, x, x, y);
    }
    while toVisit != []
      invariant Worklist(g, x, visited, toVisit)
      decreases Targets(g) - visited, |toVisit|
    {
      var n := |toVisit| - 1;
      var dep := toVisit[n];
      assert toVisit == toVisit[..n] + [dep];
      ElemsConcat(toVisit[..n], [dep]);
      toVisit := toVisit[..n];
      if dep !in visited {
        var more := ListOf(Succ(g, dep));
        SuccTargets(g, dep);
        forall y | y in Succ(g, dep) ensures ReachesPlus(g, x, y) {
          PlusReaches(g, x, dep);
          ReachStep(g, x, dep, y);
        }
        ElemsConcat(toVisit, more);
        visited := visited + {dep};
        toVisit := toVisit + more;
      }
    }
    forall y | y in TransitiveDeps(g, x) ensures y in visited {
      var c := ReachPlusSplit(g, x, y);
      ClosedReach(g, visited, c, y);
    }
  }

  // ---------------------------------------------------------------------
  // `_build_predecessors_map`.

  /** The elements of `s` that lie in `keep`, in their order. */
  function Filter(s: seq<string>, keep: set<string>): (r: seq<string>)
    ensures forall y :: y in r <==> y in s && y in keep
    decreases |s|
  {
    if |s| == 0 then []
    else
      var init := s[..|s| - 1];
      var x := s[|s| - 1];
      assert forall y :: y in s <==> y in init || y == x by {
        assert s == init + [x];
      }
      Filter(init, keep) + (if x in keep then [x] else [])
  }

  lemma {:induction false} FilterSubsequence(s: seq<string>, keep: set<string>)
    ensures Subsequence(Filter(s, keep), s)
    decreases |s|
  {
    if |s| > 0 {
      var init := s[..|s| - 1];
      var x := s[|s| - 1];
      FilterSubsequence(init, keep);
      assert s == init + [x];
      SubsequenceExtend(Filter(init, keep), init, x);
      if x in keep {
        assert Filter(s, keep) == Filter(init, keep) + [x];
      } else {
        assert Filter(init, keep) + [] == Filter(init, keep);
        assert Filter(s, keep) == Filter(init, keep);
      }
    }
  }

  /** Pred(i): the transitive dependencies of `id` that come before it in
      `order`, in that order. */
  ghost function Pred(order: seq<string>, g: Graph, id: string): seq<string>
    requires id in order
  {
    Filter(order[..IndexOf(order, id)], TransitiveDeps(g, id))
  }

  /** An item is a predecessor exactly when it is a transitive dependency
      placed earlier; Pred(i) keeps the order. */
  lemma PredMeaning(order: seq<string>, g: Graph, id: string)
    requires id in order
    ensures forall y :: y in Pred(order, g, id) <==>
      ReachesPlus(g, id, y) && exists k :: 0 <= k < IndexOf(order, id) && order[k] == y
    ensures Subsequence(Pred(order, g, id), order[..IndexOf(order, id)])
  {
    var i := IndexOf(order, id);
    FilterSubsequence(order[..i], TransitiveDeps(g, id));
    forall y ensures y in Pred(order, g, id) <==> ReachesPlus(g, id, y) && exists k :: 0 <= k < i && order[k] == y {
      if ReachesPlus(g, id, y) {
        PlusTarget(g, id, y);
      }
      if exists k :: 0 <= k < i && order[k] == y {
        var k :| 0 <= k < i && order[k] == y;
        assert order[..i][k] == y;
      }
    }
  }

  /** The predecessors map after the first `k` items of `order`. */
  ghost function PredsUpTo(order: seq<string>, g: Graph, k: nat): map<string, seq<string>>
    requires k <= |order|
  {
    if k == 0 then map[] else PredsUpTo(order, g, k - 1)[order[k - 1] := Pred(order, g, order[k - 1])]
  }

  /** The predecessors map of `order`. */
  ghost function PredsOf(order: seq<string>, g: Graph): map<string, seq<string>> {
    PredsUpTo(order, g, |order|)
  }

  lemma {:induction false} PredsUpToMeaning(order: seq<string>, g: Graph, k: nat)
    requires k <= |order|
    ensures forall id :: id in PredsUpTo(order, g, k) <==> id in order[..k]
    ensures forall id :: id in PredsUpTo(order, g, k) ==> id in order && PredsUpTo(order, g, k)[id] == Pred(order, g, id)
  {
    if k > 0 {
      PredsUpToMeaning(order, g, k - 1);
      assert order[..k] == order[..k - 1] + [order[k - 1]];
    }
  }

  /** Every item of the order has an entry, its list of predecessors. */
  lemma PredsOfMeaning(order: seq<string>, g: Graph)
    ensures forall id :: id in PredsOf(order, g) <==> id in order
    ensures forall id :: id in PredsOf(order, g) ==> PredsOf(order, g)[id] == Pred(order, g, id)
  {
    PredsUpToMeaning(order, g, |order|);
    assert order[..|order|] == order;
  }

  /** The loop of `_build_predecessors_map`. */
  method BuildPredecessorsMap(order: seq<string>, g: Graph) returns (preds: map<string, seq<string>>)
    ensures preds == PredsOf(order, g)
  {
    preds := map[];
    for k := 0 to |order|
      invariant preds == PredsUpTo(order, g, k)
    {
      var id := order[k];
      var pred := PredecessorsOf(order, g, id);
      preds := preds[id := pred];
    }
  }

  /** One entry of `_build_predecessors_map`. */
  method PredecessorsOf(order: seq<string>, g: Graph, id: string) returns (pred: seq<string>)
    requires id in order
    ensures pred == Pred(order, g, id)
  {
    var deps := TransitiveDependencies(g, id);
    var index := IndexOf(order, id);
    pred := Filter(order[..index], deps);
  }

  // ---------------------------------------------------------------------
  // `_check_item_reachability`.

  /** The per-item status as this validator computes it: NEVER unless
      B ∧ P is `sat` (so `unknown` counts as NEVER), then ALWAYS when
      B ∧ ¬P is `unsat`, else CONDITIONAL. */
  function PathStatus(check: BoolTerm -> Answer, base: BoolTerm, p: BoolTerm): (r: PreStatus)
    ensures r != StatusUnknown
    ensures SoundSolver(check) && r != Never ==> Satisfiable(Both(base, p))
    ensures SoundSolver(check) && r == Always ==> Entails(base, p)
    ensures r == Never <==> !check(Both(base, p)).Sat?
  {
    assert SoundSolver(check) && check(Both(base, p)).Sat? ==> Satisfiable(Both(base, p)) by {
      if SoundSolver(check) && check(Both(base, p)).Sat? { SatAnswerSatisfiable(check, Both(base, p)); }
    }
    assert SoundSolver(check) && check(Both(base, Not(p))).Unsat? ==> Entails(base, p) by {
      if SoundSolver(check) && check(Both(base, Not(p))).Unsat? { UnsatNegEntails(base, p); }
    }
    if !check(Both(base, p)).Sat? then Never
    else if check(Both(base, Not(p))).Unsat? then Always
    else Conditional
  }

  /** A_i ∧ P_i as the solver holds it: B, the predecessors'
      implications, then P_i. */
  function Accumulated(c: Compiled, preds: seq<string>, p: BoolTerm): BoolTerm {
    AndAll([c.base] + Implications(c, preds) + [p])
  }

  /** `_check_item_reachability(id, predecessors_map)`. */
  function CheckItem(c: Compiled, check: BoolTerm -> Answer, id: string, predsMap: map<string, seq<string>>): (r: ItemReachabilityResult)
    ensures r.id == id
    ensures id !in c.details ==> r == ItemReachabilityResult(id, StatusUnknown, true, false, [])
    ensures r.isDeadCode <==> r.status == Conditional && !r.accumulatedReachable
    ensures r.status == Never ==> !r.accumulatedReachable
    ensures r.status == Always && r.predecessors == [] ==> r.accumulatedReachable
    ensures id in c.details ==>
      r.status != StatusUnknown && r.predecessors == (if id in predsMap then predsMap[id] else [])
  {
    if id !in c.details then ItemReachabilityResult(id, StatusUnknown, true, false, [])
    else
      var preds := if id in predsMap then predsMap[id] else [];
      var p := c.details[id].pre;
      var status := PathStatus(check, c.base, p);
      if status == Never then ItemReachabilityResult(id, status, false, false, preds)
      else if status == Always && preds == [] then ItemReachabilityResult(id, status, true, false, preds)
      else
        var reachable := check(Accumulated(c, preds, p)).Sat?;
        ItemReachabilityResult(id, status, reachable, status == Conditional && !reachable, preds)
  }

  /** With a deciding solver the status and the dead-code verdict are the
      semantic ones. */
  lemma CheckItemExact(c: Compiled, check: BoolTerm -> Answer, id: string, predsMap: map<string, seq<string>>)
    requires DecidingSolver(check) && id in c.details
    ensures var r := CheckItem(c, check, id, predsMap); var p := c.details[id].pre;
      (r.status == Never <==> !Satisfiable(Both(c.base, p))) &&
      (r.status == Always <==> Satisfiable(Both(c.base, p)) && !Satisfiable(Both(c.base, Not(p)))) &&
      (r.isDeadCode <==> r.status == Conditional && !Satisfiable(Accumulated(c, r.predecessors, p)))
  {
    var p := c.details[id].pre;
    var preds := if id in predsMap then predsMap[id] else [];
    DecidingUnsat(check, Both(c.base, p));
    DecidingUnsat(check, Both(c.base, Not(p)));
    DecidingUnsat(check, Accumulated(c, preds, p));
  }

  /** Where the predecessors are items of the builder's order, a model of
      F in which P_i holds satisfies A_i ∧ P_i. */
  lemma FormulaGivesAccumulated(c: Compiled, preds: seq<string>, p: BoolTerm, m: Model)
    requires forall y :: y in preds ==> y in c.order
    requires Holds(Formula(c), m) && Holds(p, m)
    ensures Holds(Accumulated(c, preds, p), m)
  {
    FormulaMeaning(c, m);
    forall k | 0 <= k < |preds| && preds[k] in c.details
      ensures Holds(c.details[preds[k]].pre, m) ==> Holds(c.details[preds[k]].post, m)
    {
      assert preds[k] in preds;
      var j :| 0 <= j < |c.order| && c.order[j] == preds[k];
    }
    ImplicationsMeaning(c, preds, m);
    var fs := [c.base] + Implications(c, preds);
    AllHoldConcat([c.base], Implications(c, preds), m);
    AllHoldConcat(fs, [p], m);
    assert AllHold([c.base], m) by { assert [c.base][0] == c.base; }
    assert AllHold([p], m) by { assert [p][0] == p; }
  }

  /** Dead code is dead in every completion: with a deciding solver, no
      model of F satisfies the precondition of an item reported dead. */
  lemma DeadCodeNeverCompleted(c: Compiled, check: BoolTerm -> Answer, id: string, predsMap: map<string, seq<string>>, m: Model)
    requires DecidingSolver(check) && id in c.details
    requires CheckItem(c, check, id, predsMap).isDeadCode
    requires forall y :: y in CheckItem(c, check, id, predsMap).predecessors ==> y in c.order
    requires Holds(Formula(c), m)
    ensures !Holds(c.details[id].pre, m)
  {
    var r := CheckItem(c, check, id, predsMap);
    CheckItemExact(c, check, id, predsMap);
    if Holds(c.details[id].pre, m) {
      FormulaGivesAccumulated(c, r.predecessors, c.details[id].pre, m);
    }
  }

  // ---------------------------------------------------------------------
  // `validate`.

  /** The items of `order` reported dead, in order. */
  function DeadItems(c: Compiled, check: BoolTerm -> Answer, order: seq<string>, predsMap: map<string, seq<string>>): seq<string>
    decreases |order|
  {
    if |order| == 0 then []
    else
      var id := order[|order| - 1];
      DeadItems(c, check, order[..|order| - 1], predsMap) + (if CheckItem(c, check, id, predsMap).isDeadCode then [id] else [])
  }

  /** `get_topological_order() or []`. */
  function OrderOrEmpty(topo: Option<seq<string>>): seq<string> {
    if topo.Some? then topo.value else []
  }

  /** The `for item_id in topo_order` loop of `validate()`. */
  method CheckAll(c: Compiled, check: BoolTerm -> Answer, order: seq<string>, predsMap: map<string, seq<string>>)
    returns (results: map<string, ItemReachabilityResult>, dead: seq<string>)
    ensures results.Keys == Elems(order)
    ensures forall id :: id in results ==> results[id] == CheckItem(c, check, id, predsMap)
    ensures dead == DeadItems(c, check, order, predsMap)
  {
    results := map[];
    dead := [];
    for k := 0 to |order|
      invariant results.Keys == Elems(order[..k])
      invariant forall id :: id in results ==> results[id] == CheckItem(c, check, id, predsMap)
      invariant dead == DeadItems(c, check, order[..k], predsMap)
    {
      var id := order[k];
      assert order[..k + 1] == order[..k] + [id];
      assert order[..k + 1][..k] == order[..k];
      ElemsConcat(order[..k], [id]);
      var result := CheckItem(c, check, id, predsMap);
      results := results[id := result];
      if result.isDeadCode {
        dead := dead + [id];
      }
    }
    assert order[..|order|] == order;
  }

  /** `validate()`: one result per item of the topological order (none
      when the topology has cycles), the dead items in that order. */
  method Validate(c: Compiled, check: BoolTerm -> Answer, g: Graph, topo: Option<seq<string>>) returns (r: PathValidationResult)
    ensures r.itemResults.Keys == Elems(OrderOrEmpty(topo))
    ensures forall id :: id in r.itemResults ==>
      r.itemResults[id] == CheckItem(c, check, id, PredsOf(OrderOrEmpty(topo), g))
    ensures r.deadCodeItems == DeadItems(c, check, OrderOrEmpty(topo), PredsOf(OrderOrEmpty(topo), g))
    ensures r.hasDeadCode <==> |r.deadCodeItems| > 0
    ensures topo.None? ==> r.itemResults == map[] && !r.hasDeadCode
  {
    var order := if topo.Some? then topo.value else [];
    var predsMap := BuildPredecessorsMap(order, g);
    var results, dead := CheckAll(c, check, order, predsMap);
    r := PathValidationResult(|dead| > 0, dead, results);
  }

  /** The reported dead items are items of the order, in order, and
      exactly those whose check says dead. */
  lemma {:induction false} DeadItemsShape(c: Compiled, check: BoolTerm -> Answer, order: seq<string>, predsMap: map<string, seq<string>>)
    ensures Subsequence(DeadItems(c, check, order, predsMap), order)
    ensures forall id :: id in DeadItems(c, check, order, predsMap) <==> id in order && CheckItem(c, check, id, predsMap).isDeadCode
    decreases |order|
  {
    if |order| > 0 {
      var init := order[..|order| - 1];
      var x := order[|order| - 1];
      DeadItemsShape(c, check, init, predsMap);
      assert order == init + [x];
      SubsequenceExtend(DeadItems(c, check, init, predsMap), init, x);
      if CheckItem(c, check, x, predsMap).isDeadCode {
        assert DeadItems(c, check, order, predsMap) == DeadItems(c, check, init, predsMap) + [x];
      } else {
        assert DeadItems(c, check, init, predsMap) + [] == DeadItems(c, check, init, predsMap);
        assert DeadItems(c, check, order, predsMap) == DeadItems(c, check, init, predsMap);
      }
    }
  }

  /** An ALWAYS item is never dead code, whatever the solver answers. */
  lemma AlwaysNotDead(c: Compiled, check: BoolTerm -> Answer, id: string, predsMap: map<string, seq<string>>)
    requires CheckItem(c, check, id, predsMap).status == Always
    ensures !CheckItem(c, check, id, predsMap).isDeadCode
  {
  }

  // ---------------------------------------------------------------------
  // The case the per-item check misses: rating in [1, 100] with
  // Q_rating = rating > 80, and feedback (in {0, 1}) shown when
  // rating < 50. Alone, P_feedback is CONDITIONAL; after rating's
  // postcondition it can never hold.

  function Rating(): IntTerm { IVar("item_rating") }

  function FeedbackPre(): BoolTerm { Compare(Lt, Rating(), IConst(50)) }

  function DeadBase(): BoolTerm {
    And(Compare(Ge, Rating(), IConst(1)),
        And(Compare(Le, Rating(), IConst(100)),
            Or(Compare(Eq, IVar("item_feedback"), IConst(0)), Compare(Eq, IVar("item_feedback"), IConst(1)))))
  }

  function DeadExample(): Compiled {
    Compiled(
      DeadBase(),
      ["rating", "feedback"],
      map["rating" := ItemConditions(BConst(true), Compare(Gt, Rating(), IConst(80)), true),
          "feedback" := ItemConditions(FeedbackPre(), BConst(true), false)],
      {"rating", "feedback"},
      {})
  }

  /** feedback depends on rating. */
  function DeadGraph(): Graph { map["feedback" := {"rating"}] }

  /** Pred(feedback) = [rating]. */
  lemma DeadPreds()
    ensures "feedback" in DeadExample().order
    ensures Pred(DeadExample().order, DeadGraph(), "feedback") == ["rating"]
  {
    var order := DeadExample().order;
    var g := DeadGraph();
    assert order[1] == "feedback";
    var i := IndexOf(order, "feedback");
    assert i == 1;
    var p := ["feedback", "rating"];
    assert IsPath(g, p);
    assert "rating" in Targets(g) by { assert "rating" in g["feedback"]; }
    assert "rating" in TransitiveDeps(g, "feedback");
    assert order[..i] == ["rating"] && order[..i][..0] == [];
  }

  /** A model giving rating the value `v` and feedback 0. */
  function RatingIs(v: int): Model {
    Model(x => if |x| == |"item_rating"| then v else 0, _ => false, _ => 0, _ => 0)
  }

  lemma BaseHolds(m: Model)
    requires 1 <= m.ints("item_rating") <= 100 && m.ints("item_feedback") == 0
    ensures Holds(DeadBase(), m)
  {
  }

  /** rating 10 meets feedback's precondition; rating 90 meets its
      negation and every implication. */
  lemma ExampleModelsHold(m: Model)
    requires m.ints("item_feedback") == 0
    ensures m.ints("item_rating") == 10 ==> Holds(Both(DeadBase(), FeedbackPre()), m)
    ensures m.ints("item_rating") == 90 ==> Holds(Both(DeadBase(), Not(FeedbackPre())), m)
    ensures m.ints("item_rating") == 90 ==>
      Holds(AndAll([DeadBase(), Implies(BConst(true), Compare(Gt, Rating(), IConst(80))), Implies(FeedbackPre(), BConst(true))]), m)
  {
    if m.ints("item_rating") == 10 || m.ints("item_rating") == 90 {
      BaseHolds(m);
    }
  }

  /** On its own, feedback's precondition is CONDITIONAL. */
  lemma FeedbackConditional()
    ensures Satisfiable(Both(DeadBase(), FeedbackPre()))
    ensures Satisfiable(Both(DeadBase(), Not(FeedbackPre())))
  {
    var low, high := RatingIs(10), RatingIs(90);
    assert low.ints("item_rating") == 10 && low.ints("item_feedback") == 0;
    assert high.ints("item_rating") == 90 && high.ints("item_feedback") == 0;
    ExampleModelsHold(low);
    ExampleModelsHold(high);
  }

  /** The predecessors' implications for the example. */
  lemma DeadImplications()
    ensures Implications(DeadExample(), ["rating"]) == [Implies(BConst(true), Compare(Gt, Rating(), IConst(80)))]
    ensures Implications(DeadExample(), DeadExample().order) ==
      [Implies(BConst(true), Compare(Gt, Rating(), IConst(80))), Implies(FeedbackPre(), BConst(true))]
  {
    var c := DeadExample();
    assert ["rating"][..0] == [];
    assert c.order[..1] == ["rating"];
  }

  /** A_feedback ∧ P_feedback has no model. */
  lemma DeadAccumulatedUnsat()
    ensures !Satisfiable(Accumulated(DeadExample(), ["rating"], FeedbackPre()))
  {
    DeadImplications();
    var q := Implies(BConst(true), Compare(Gt, Rating(), IConst(80)));
    var fs := [DeadBase(), q, FeedbackPre()];
    assert [DeadBase()] + [q] + [FeedbackPre()] == fs;
    forall m ensures !Holds(AndAll(fs), m) {
      assert !Holds(fs[1], m) || !Holds(fs[2], m);
    }
  }

  /** The questionnaire as a whole is satisfiable (rating 90). */
  lemma DeadFormulaSatisfiable()
    ensures Satisfiable(Formula(DeadExample()))
  {
    DeadImplications();
    var m := RatingIs(90);
    assert m.ints("item_rating") == 90 && m.ints("item_feedback") == 0;
    ExampleModelsHold(m);
    var fs := [DeadBase(), Implies(BConst(true), Compare(Gt, Rating(), IConst(80))), Implies(FeedbackPre(), BConst(true))];
    assert [DeadBase()] + Implications(DeadExample(), DeadExample().order) == fs;
  }

  /** With a deciding solver the validator reports feedback as dead code,
      though the questionnaire is satisfiable and the per-item status is
      CONDITIONAL. */
  lemma DeadExampleReported(check: BoolTerm -> Answer)
    requires DecidingSolver(check)
    ensures var r := CheckItem(DeadExample(), check, "feedback", PredsOf(DeadExample().order, DeadGraph()));
      r.isDeadCode && r.status == Conditional && r.predecessors == ["rating"]
    ensures Satisfiable(Formula(DeadExample()))
  {
    var c := DeadExample();
    var pm := PredsOf(c.order, DeadGraph());
    DeadPreds();
    PredsOfMeaning(c.order, DeadGraph());
    assert pm["feedback"] == ["rating"];
    assert c.details["feedback"].pre == FeedbackPre();
    FeedbackConditional();
    DeadAccumulatedUnsat();
    CheckItemExact(c, check, "feedback", pm);
    DeadFormulaSatisfiable();
  }
}

/** `FlowProcessor`: runtime navigation over a questionnaire state. The
    navigation path is fixed once; going forward returns the first path
    item that is neither disabled nor visited and whose preconditions hold,
    disabling the ones whose preconditions fail; going back pops the
    history; processing an item checks its postconditions, runs its code
    block and propagates variables to later items. Expression evaluation
    and code execution are oracles. */
module Flows {
  import opened Wrappers
  import opened Json
  import opened QuestionnaireStates
  import P = ItemProxies

  /** What evaluating an expression gives: its truth value, or an
      exception. */
  datatype Evaluation = Value(b: bool) | Raised(message: string)

  /** What `to_outcome()` of a proxy gives: the storage form of its
      outcome, or the exception it raises. */
  type Stored = Result<Json, P.ProxyError>

  /** What running a code block gives: an exception, or the resulting
      context's entries that are not item proxies (`env`) together with
      what `to_outcome()` of each item's proxy gives afterwards. */
  datatype Execution = Failed(message: string) | Ran(env: Dict, outcomeOf: nat -> Stored)

  /** The Python runner as oracles. `eval(expr, context, items)` evaluates
      an expression over the variables of `context` and the proxies of
      `items`; `run(code, context, items)` runs a code block likewise. */
  datatype Runner = Runner(
    eval: (Json, Dict, seq<Dict>) -> Evaluation,
    run: (Json, Dict, seq<Dict>) -> Execution)

  /** An exception a context construction raises: `KeyError` for a
      missing `context`, or an error of a proxy or of the store into a
      context that is not a dictionary. */
  datatype Exception = KeyError | PyError(error: P.ProxyError)

  /** The error `ItemProxy(item)` raises, if any: decoding the stored
      outcome comes first, then reading the input configuration. */
  function ProxyFailure(item: Dict): (e: Option<P.ProxyError>)
    ensures e.None? <==> P.Decode(GetOr(item, "kind"), GetOr(item, "outcome")).Ok? && P.InputConfig(item).Ok?
  {
    var d := P.Decode(GetOr(item, "kind"), GetOr(item, "outcome"));
    if d.Err? then Some(d.error)
    else
      var c := P.InputConfig(item);
      if c.Err? then Some(c.error) else None
  }

  /** The error one pass of a proxy loop raises: building the proxy, then,
      for the item with the submitted id, `from_outcome` of the submitted
      outcome. */
  function ItemFailure(item: Dict, submitted: Option<(string, Json)>): Option<P.ProxyError> {
    if ProxyFailure(item).Some? then ProxyFailure(item)
    else if submitted.Some? && IdOf(item) == JStr(submitted.value.0) then
      match P.Decode(GetOr(item, "kind"), submitted.value.1)
      case Err(e) => Some(e)
      case Ok(_) => None
    else None
  }

  /** The error a proxy loop over `items` raises: that of the first item
      whose pass fails (see `FirstFailure`). */
  function ProxiesFailure(items: seq<Dict>, submitted: Option<(string, Json)>): (e: Option<P.ProxyError>)
    ensures e.None? <==> forall j :: 0 <= j < |items| ==> ItemFailure(items[j], submitted).None?
    decreases |items|
  {
    if |items| == 0 then None
    else if ItemFailure(items[0], submitted).Some? then ItemFailure(items[0], submitted)
    else
      assert forall j :: 0 < j < |items| ==> items[1..][j - 1] == items[j];
      ProxiesFailure(items[1..], submitted)
  }

  /** What `to_outcome()` gives for the proxy of `item` built in a proxy
      loop: after `from_outcome` of the submitted outcome when the item has
      the submitted id. */
  function StoredOf(item: Dict, submitted: Option<(string, Json)>): Stored {
    P.StoredOutcome(item, if submitted.Some? && IdOf(item) == JStr(submitted.value.0) then Some(submitted.value.1) else None)
  }

  /** `StoredOf` for each position of `items`. */
  function StoredOutcomes(items: seq<Dict>, submitted: Option<(string, Json)>): nat -> Stored {
    (j: nat) => if j < |items| then StoredOf(items[j], submitted) else Ok(JNone)
  }

  /** The position of the first of `n` items whose `to_outcome()` raises,
      or `n` when none does. */
  function FirstRaising(outcomeOf: nat -> Stored, n: nat): (k: nat)
    ensures k <= n && (forall j :: 0 <= j < k ==> outcomeOf(j).Ok?) && (k < n ==> outcomeOf(k).Err?)
    decreases n
  {
    if n == 0 then 0
    else
      var k := FirstRaising(outcomeOf, n - 1);
      if k < n - 1 || outcomeOf(n - 1).Err? then k else n
  }

  /** The loop reports the error of the first failing pass. */
  lemma {:induction false} FirstFailure(items: seq<Dict>, submitted: Option<(string, Json)>, i: nat)
    requires i < |items| && ItemFailure(items[i], submitted).Some?
    requires forall k :: 0 <= k < i ==> ItemFailure(items[k], submitted).None?
    ensures ProxiesFailure(items, submitted) == ItemFailure(items[i], submitted)
    decreases i
  {
    if i > 0 {
      assert ItemFailure(items[0], submitted).None?;
      forall k | 0 <= k < i - 1 ensures ItemFailure(items[1..][k], submitted).None? {
        assert items[1..][k] == items[k + 1];
      }
      assert items[1..][i - 1] == items[i];
      FirstFailure(items[1..], submitted, i - 1);
    }
  }

  /** What storing the proxies of `items` into a copy of `context` raises:
      the proxy loop's error, and when the context is not a dictionary, the
      first proxy's error or else a `TypeError` at the first store. */
  function ContextFailure(context: Json, items: seq<Dict>, submitted: Option<(string, Json)>): (e: Option<P.ProxyError>)
    ensures context.JDict? ==> e == ProxiesFailure(items, submitted)
    ensures !context.JDict? && |items| > 0 ==> e.Some?
    ensures !context.JDict? && |items| > 0 && ItemFailure(items[0], submitted).None? ==> e == Some(P.TypeError)
    ensures |items| == 0 ==> e.None?
  {
    if context.JDict? || |items| == 0 then ProxiesFailure(items, submitted)
    else if ItemFailure(items[0], submitted).Some? then ItemFailure(items[0], submitted)
    else Some(P.TypeError)
  }

  /** `item.get(key)`, as a truth value. */
  predicate Flag(item: Dict, key: string) {
    Truthy(GetOr(item, key))
  }

  /** The item's `context` dictionary (none when absent). */
  function ContextOf(item: Dict): Dict {
    match GetOr(item, "context")
    case JDict(d) => d
    case _ => []
  }

  /** `condition.get('predicate', '')`. */
  function PredicateOf(c: Json): Json {
    match c
    case JDict(d) => OrElse(Get(d, "predicate"), JStr(""))
    case _ => JStr("")
  }

  /** `condition.get('hint', 'Postcondition failed')`. */
  function HintOf(c: Json): Json {
    match c
    case JDict(d) => OrElse(Get(d, "hint"), JStr("Postcondition failed"))
    case _ => JStr("Postcondition failed")
  }

  /** The conditions under `key`, when they are a list. */
  function ConditionsOf(item: Dict, key: string): Option<seq<Json>> {
    match GetOr(item, key)
    case JList(l) => Some(l)
    case _ => None
  }

  /** `_evaluate_condition`: an empty expression holds, and so does one
      whose evaluation raises (fail-open). */
  predicate Holds(rn: Runner, expr: Json, ctx: Dict, items: seq<Dict>) {
    !Truthy(expr) || match rn.eval(expr, ctx, items) case Value(b) => b case Raised(_) => true
  }

  /** The warning `_evaluate_condition` records: one when the evaluation
      raised and an item id was given. */
  function EvalWarnings(rn: Runner, expr: Json, ctx: Dict, items: seq<Dict>, itemId: Json, kind: string): (w: seq<Warning>)
    ensures |w| <= 1
    ensures |w| == 1 <==> Truthy(expr) && rn.eval(expr, ctx, items).Raised? && Truthy(itemId)
  {
    if Truthy(expr) && rn.eval(expr, ctx, items).Raised? && Truthy(itemId) then
      [Warning(itemId, kind, rn.eval(expr, ctx, items).message)]
    else []
  }

  /** The first condition that does not hold. */
  function FirstFailing(rn: Runner, conds: seq<Json>, ctx: Dict, items: seq<Dict>): (r: Option<nat>)
    ensures r.Some? ==> r.value < |conds| && !Holds(rn, PredicateOf(conds[r.value]), ctx, items)
    ensures r.Some? ==> forall j :: 0 <= j < r.value ==> Holds(rn, PredicateOf(conds[j]), ctx, items)
    ensures r.None? ==> forall j :: 0 <= j < |conds| ==> Holds(rn, PredicateOf(conds[j]), ctx, items)
    decreases |conds|
  {
    if |conds| == 0 then None
    else if !Holds(rn, PredicateOf(conds[0]), ctx, items) then Some(0)
    else
      match FirstFailing(rn, conds[1..], ctx, items)
      case Some(j) => Some(j + 1)
      case None => None
  }

  /** How many conditions are evaluated: up to and including the first
      failing one. */
  function Evaluated(conds: seq<Json>, f: Option<nat>): nat {
    match f
    case Some(k) => if k < |conds| then k + 1 else |conds|
    case None => |conds|
  }

  /** The warnings recorded while evaluating `conds` in order. */
  function Warned(rn: Runner, conds: seq<Json>, ctx: Dict, items: seq<Dict>, itemId: Json, kind: string): (w: seq<Warning>)
    ensures |w| <= |conds|
    decreases |conds|
  {
    if |conds| == 0 then []
    else
      var n := |conds| - 1;
      Warned(rn, conds[..n], ctx, items, itemId, kind) + EvalWarnings(rn, PredicateOf(conds[n]), ctx, items, itemId, kind)
  }

  lemma WarnedSnoc(rn: Runner, conds: seq<Json>, ctx: Dict, items: seq<Dict>, itemId: Json, kind: string, i: nat)
    requires i < |conds|
    ensures Warned(rn, conds[..i + 1], ctx, items, itemId, kind) ==
      Warned(rn, conds[..i], ctx, items, itemId, kind) + EvalWarnings(rn, PredicateOf(conds[i]), ctx, items, itemId, kind)
  {
    assert conds[..i + 1][..i] == conds[..i];
  }

  /** One more evaluated condition adds its warnings to those recorded so
      far. */
  lemma WarnedStep(rn: Runner, conds: seq<Json>, ctx: Dict, items: seq<Dict>, itemId: Json, kind: string, i: nat, w0: seq<Warning>)
    requires i < |conds|
    ensures w0 + Warned(rn, conds[..i], ctx, items, itemId, kind) + EvalWarnings(rn, PredicateOf(conds[i]), ctx, items, itemId, kind) ==
      w0 + Warned(rn, conds[..i + 1], ctx, items, itemId, kind)
  {
    WarnedSnoc(rn, conds, ctx, items, itemId, kind, i);
  }

  /** `_check_preconditions(item, items)`: whether the item may be shown,
      and the warnings recorded. */
  function PreconditionCheck(rn: Runner, item: Dict, items: seq<Dict>): (bool, seq<Warning>) {
    match ConditionsOf(item, "precondition")
    case None => (true, [])
    case Some(conds) =>
      var f := FirstFailing(rn, conds, ContextOf(item), items);
      (f.None?, Warned(rn, conds[..Evaluated(conds, f)], ContextOf(item), items, IdOf(item), "precondition"))
  }

  /** What `_check_preconditions` raises building its context, when the
      item has a precondition list: the context is a copy of
      `item.get('context', {})` with the proxies of all items stored in
      it. */
  function PreconditionFailure(item: Dict, items: seq<Dict>): (e: Option<P.ProxyError>)
    ensures ConditionsOf(item, "precondition").None? ==> e.None?
    ensures ConditionsOf(item, "precondition").Some? ==> e == ContextFailure(OrElse(Get(item, "context"), JDict([])), items, None)
  {
    if ConditionsOf(item, "precondition").None? then None
    else ContextFailure(OrElse(Get(item, "context"), JDict([])), items, None)
  }

  /** Preconditions: satisfied iff none of them evaluates to false. */
  lemma PreconditionCheckMeaning(rn: Runner, item: Dict, items: seq<Dict>)
    ensures PreconditionCheck(rn, item, items).0 <==>
      ConditionsOf(item, "precondition").None? ||
      forall j :: 0 <= j < |ConditionsOf(item, "precondition").value| ==>
        var e := PredicateOf(ConditionsOf(item, "precondition").value[j]);
        !Truthy(e) || rn.eval(e, ContextOf(item), items) != Value(false)
  {
    match ConditionsOf(item, "precondition")
    case None =>
    case Some(conds) =>
      var f := FirstFailing(rn, conds, ContextOf(item), items);
      if f.Some? {
        var e := PredicateOf(conds[f.value]);
        assert !Truthy(e) || rn.eval(e, ContextOf(item), items) != Value(false) ==> Holds(rn, e, ContextOf(item), items);
      }
  }

  /** What a forward scan over the path finds: the item (position and
      id), the items with the `disabled` flags it set, the warnings, and
      the exception a precondition check raised, which ends the scan. */
  datatype Scan = Scan(found: Option<(nat, string)>, items: seq<Dict>, warnings: seq<Warning>, raised: Option<P.ProxyError>)

  /** One path entry of the forward scan: an id with no item and an item
      disabled or visited are passed over; an item whose preconditions hold
      stops the scan; one whose preconditions fail is disabled; building the
      context of the precondition check may raise, which stops the scan
      too. */
  datatype Step = Step(stop: Option<(nat, string)>, items: seq<Dict>, warnings: seq<Warning>, raised: Option<P.ProxyError>)

  function ScanOne(rn: Runner, id: string, items: seq<Dict>): (st: Step)
    ensures |st.items| == |items|
    ensures st.raised.Some? ==> st.stop.None? && st.items == items && st.warnings == []
  {
    match ItemIndex(items, id)
    case None => Step(None, items, [], None)
    case Some(i) =>
      if Flag(items[i], "disabled") || Flag(items[i], "visited") then Step(None, items, [], None)
      else if PreconditionFailure(items[i], items).Some? then Step(None, items, [], PreconditionFailure(items[i], items))
      else
        var pc := PreconditionCheck(rn, items[i], items);
        if pc.0 then Step(Some((i, id)), items, pc.1, None)
        else Step(None, items[i := Put(items[i], "disabled", JBool(true))], pc.1, None)
  }

  /** The forward scan over the path, entry by entry until one stops it. */
  function ScanPath(rn: Runner, path: seq<string>, items: seq<Dict>): (r: Scan)
    ensures |r.items| == |items|
    ensures r.raised.Some? ==> r.found.None?
    decreases |path|
  {
    if |path| == 0 then Scan(None, items, [], None)
    else
      var st := ScanOne(rn, path[0], items);
      if st.stop.Some? || st.raised.Some? then Scan(st.stop, st.items, st.warnings, st.raised)
      else
        var rest := ScanPath(rn, path[1..], st.items);
        Scan(rest.found, rest.items, st.warnings + rest.warnings, rest.raised)
  }

  /** The scan from position `k` of the path. */
  lemma ScanStep(rn: Runner, path: seq<string>, k: nat, items: seq<Dict>)
    requires k < |path|
    ensures var st := ScanOne(rn, path[k], items);
      ScanPath(rn, path[k..], items) ==
        if st.stop.Some? || st.raised.Some? then Scan(st.stop, st.items, st.warnings, st.raised)
        else
          var rest := ScanPath(rn, path[k + 1..], st.items);
          Scan(rest.found, rest.items, st.warnings + rest.warnings, rest.raised)
  {
    assert path[k..][0] == path[k] && path[k..][1..] == path[k + 1..];
  }

  /** The scan from position `k` with `items` and `warnings` so far ends
      where `full`, started with `warnings0`, ends. */
  predicate Resumes(rn: Runner, path: seq<string>, k: nat, items: seq<Dict>, warnings: seq<Warning>,
                    full: Scan, warnings0: seq<Warning>)
    requires k <= |path|
  {
    var r := ScanPath(rn, path[k..], items);
    full.found == r.found && full.items == r.items && full.raised == r.raised && warnings0 + full.warnings == warnings + r.warnings
  }

  /** One pass of the forward loop keeps `Resumes`, and a stop is the end. */
  lemma ResumesStep(rn: Runner, path: seq<string>, k: nat, items: seq<Dict>, warnings: seq<Warning>,
                    full: Scan, warnings0: seq<Warning>)
    requires k < |path| && Resumes(rn, path, k, items, warnings, full, warnings0)
    ensures var st := ScanOne(rn, path[k], items);
      if st.stop.Some? || st.raised.Some? then
        full.found == st.stop && full.items == st.items && full.raised == st.raised && warnings0 + full.warnings == warnings + st.warnings
      else Resumes(rn, path, k + 1, st.items, warnings + st.warnings, full, warnings0)
  {
    ScanStep(rn, path, k, items);
    var st := ScanOne(rn, path[k], items);
    if st.stop.None? && st.raised.None? {
      var rest := ScanPath(rn, path[k + 1..], st.items);
      assert warnings + (st.warnings + rest.warnings) == (warnings + st.warnings) + rest.warnings;
    }
  }

  /** The scan that has reached the end of the path has nothing left. */
  lemma ResumesEnd(rn: Runner, path: seq<string>, items: seq<Dict>, warnings: seq<Warning>,
                   full: Scan, warnings0: seq<Warning>)
    requires Resumes(rn, path, |path|, items, warnings, full, warnings0)
    ensures full.found == None && full.items == items && full.raised == None && warnings0 + full.warnings == warnings
  {
    assert path[|path|..] == [];
  }

  /** Setting `disabled` leaves every other field alone. */
  lemma DisableKeeps(item: Dict)
    ensures Flag(Put(item, "disabled", JBool(true)), "disabled")
    ensures forall k :: k != "disabled" ==> Get(Put(item, "disabled", JBool(true)), k) == Get(item, k)
  {
  }

  /** The scan only disables items that were neither disabled nor visited;
      the item it finds was neither, has an id on the path and has its
      preconditions satisfied, and no `visited` flag changes. */
  lemma {:induction false} ScanFacts(rn: Runner, path: seq<string>, items: seq<Dict>)
    ensures var r := ScanPath(rn, path, items);
      forall j :: 0 <= j < |items| && r.items[j] != items[j] ==>
        r.items[j] == Put(items[j], "disabled", JBool(true)) && !Flag(items[j], "disabled") && !Flag(items[j], "visited")
    ensures var r := ScanPath(rn, path, items);
      r.found.Some? ==>
        r.found.value.0 < |items| && r.found.value.1 in path && IdOf(r.items[r.found.value.0]) == JStr(r.found.value.1) &&
        !Flag(r.items[r.found.value.0], "disabled") && !Flag(r.items[r.found.value.0], "visited") &&
        PreconditionCheck(rn, r.items[r.found.value.0], r.items).0
    ensures var r := ScanPath(rn, path, items);
      r.raised.Some? ==>
        exists i :: 0 <= i < |r.items| &&
          !Flag(r.items[i], "disabled") && !Flag(r.items[i], "visited") && r.raised == PreconditionFailure(r.items[i], r.items)
    decreases |path|
  {
    if |path| > 0 {
      var st := ScanOne(rn, path[0], items);
      OneFacts(rn, path[0], items);
      if st.stop.None? && st.raised.None? {
        ScanFacts(rn, path[1..], st.items);
        var r := ScanPath(rn, path, items);
        forall j | 0 <= j < |items| && r.items[j] != items[j]
          ensures r.items[j] == Put(items[j], "disabled", JBool(true)) && !Flag(items[j], "disabled") && !Flag(items[j], "visited")
        {
          if st.items[j] != items[j] {
            DisableKeeps(items[j]);
            assert Flag(st.items[j], "disabled");
          }
        }
      }
    }
  }

  /** One step disables only an item that was open, and stops only at an
      open item whose preconditions hold. */
  lemma OneFacts(rn: Runner, id: string, items: seq<Dict>)
    ensures var st := ScanOne(rn, id, items);
      forall j :: 0 <= j < |items| && st.items[j] != items[j] ==>
        st.items[j] == Put(items[j], "disabled", JBool(true)) && !Flag(items[j], "disabled") && !Flag(items[j], "visited")
    ensures var st := ScanOne(rn, id, items);
      st.stop.Some? ==>
        st.stop.value.0 < |items| && st.stop.value.1 == id && IdOf(st.items[st.stop.value.0]) == JStr(id) && st.items == items &&
        !Flag(items[st.stop.value.0], "disabled") && !Flag(items[st.stop.value.0], "visited") &&
        PreconditionCheck(rn, items[st.stop.value.0], items).0
    ensures var st := ScanOne(rn, id, items);
      st.raised.Some? ==> (ItemIndex(items, id).Some? && ItemIndex(items, id).value < |items| &&
        var i := ItemIndex(items, id).value;
        !Flag(items[i], "disabled") && !Flag(items[i], "visited") && st.raised == PreconditionFailure(items[i], items))
  {
    match ItemIndex(items, id)
    case None =>
    case Some(i) =>
      if !Flag(items[i], "disabled") && !Flag(items[i], "visited") && PreconditionFailure(items[i], items).None? {
        var pc := PreconditionCheck(rn, items[i], items);
        if !pc.0 {
          var u := items[i := Put(items[i], "disabled", JBool(true))];
          assert ScanOne(rn, id, items).items == u;
          assert forall j :: 0 <= j < |items| && j != i ==> u[j] == items[j];
        } else {
          assert ScanOne(rn, id, items) == Step(Some((i, id)), items, pc.1, None);
        }
      }
  }

  /** The forward scan never clears a `disabled` flag and never changes a
      `visited` flag. */
  lemma ScanKeepsFlags(rn: Runner, path: seq<string>, items: seq<Dict>, j: nat)
    requires j < |items|
    ensures Flag(items[j], "disabled") ==> Flag(ScanPath(rn, path, items).items[j], "disabled")
    ensures Flag(ScanPath(rn, path, items).items[j], "visited") == Flag(items[j], "visited")
  {
    ScanFacts(rn, path, items);
    DisableKeeps(items[j]);
  }

  /** Every path item that exists is visited or disabled (the `all(...)`
      check). */
  predicate AllDone(items: seq<Dict>, path: seq<string>) {
    forall k :: 0 <= k < |path| && ItemIndex(items, path[k]).Some? ==>
      Flag(items[ItemIndex(items, path[k]).value], "visited") || Flag(items[ItemIndex(items, path[k]).value], "disabled")
  }

  /** The item of the last path entry, in path order, that is visited and
      not disabled. */
  function LastDone(items: seq<Dict>, path: seq<string>): (r: Option<nat>)
    ensures r.Some? ==> r.value < |items| && Flag(items[r.value], "visited") && !Flag(items[r.value], "disabled")
    decreases |path|
  {
    if |path| == 0 then None
    else
      var n := |path| - 1;
      match ItemIndex(items, path[n])
      case Some(i) =>
        if Flag(items[i], "visited") && !Flag(items[i], "disabled") then Some(i) else LastDone(items, path[..n])
      case None => LastDone(items, path[..n])
  }

  /** The last item, in declaration order, that is visited. */
  function LastVisited(items: seq<Dict>): (r: Option<nat>)
    ensures r.Some? ==> r.value < |items| && Flag(items[r.value], "visited")
    ensures r.Some? ==> forall j :: r.value < j < |items| ==> !Flag(items[j], "visited")
    ensures r.None? ==> forall j :: 0 <= j < |items| ==> !Flag(items[j], "visited")
    decreases |items|
  {
    if |items| == 0 then None
    else if Flag(items[|items| - 1], "visited") then Some(|items| - 1)
    else LastVisited(items[..|items| - 1])
  }

  /** The state navigation leaves: the item returned, the items, the
      history, the warnings recorded and the exception raised, if any. */
  datatype Navigation = Navigation(current: Option<nat>, items: seq<Dict>, history: seq<string>, warnings: seq<Warning>,
                                   raised: Option<P.ProxyError>)

  function MarkLast(items: seq<Dict>, r: Option<nat>): (m: seq<Dict>)
    ensures |m| == |items|
  {
    match r
    case Some(i) => if i < |items| then items[i := Put(items[i], "isLast", JBool(true))] else items
    case None => items
  }

  /** Forward navigation, `get_current_item(state)`. */
  function Forward(rn: Runner, path: seq<string>, items: seq<Dict>, history: seq<string>): (nav: Navigation)
    ensures |nav.items| == |items|
  {
    if AllDone(items, path) then
      var r := LastDone(items, path);
      Navigation(r, MarkLast(items, r), history, [], None)
    else
      var s := ScanPath(rn, path, items);
      if s.raised.Some? then Navigation(None, s.items, history, s.warnings, s.raised)
      else
        match s.found
        case Some((i, id)) => Navigation(Some(i), s.items, if id in history then history else history + [id], s.warnings, None)
        case None =>
          var r := LastVisited(s.items);
          Navigation(r, MarkLast(s.items, r), history, s.warnings, None)
  }

  /** Backward navigation, `get_current_item(state, backward=True)`. */
  function Backward(items: seq<Dict>, history: seq<string>): (nav: Navigation)
    ensures |history| == 0 ==> nav == Navigation(None, items, history, [], None)
    ensures |history| > 0 ==> nav.history == history[..|history| - 1]
  {
    if |history| == 0 then Navigation(None, items, history, [], None)
    else
      var h := history[..|history| - 1];
      var items' :=
        match ItemIndex(items, history[|history| - 1])
        case Some(i) => items[i := Put(items[i], "visited", JBool(false))]
        case None => items;
      Navigation(if |h| > 0 then ItemIndex(items', h[|h| - 1]) else None, items', h, [], None)
  }

  /** Setting `isLast` or `visited` leaves `disabled` alone. */
  lemma PutKeepsDisabled(item: Dict, key: string, v: Json)
    requires key != "disabled"
    ensures Flag(Put(item, key, v), "disabled") == Flag(item, "disabled")
  {
  }

  /** Marking the last item leaves every `disabled` flag alone. */
  lemma MarkLastKeepsDisabled(items: seq<Dict>, r: Option<nat>, j: nat)
    requires j < |items|
    ensures Flag(MarkLast(items, r)[j], "disabled") == Flag(items[j], "disabled")
  {
    if r.Some? && r.value < |items| && r.value == j {
      PutKeepsDisabled(items[j], "isLast", JBool(true));
    }
  }

  /** Going back never clears a `disabled` flag. */
  lemma BackwardNeverEnables(items: seq<Dict>, history: seq<string>, j: nat)
    requires j < |items| && Flag(items[j], "disabled")
    ensures j < |Backward(items, history).items| && Flag(Backward(items, history).items[j], "disabled")
  {
    if |history| > 0 {
      match ItemIndex(items, history[|history| - 1])
      case Some(i) =>
        PutKeepsDisabled(items[i], "visited", JBool(false));
      case None =>
    }
  }

  /** Going forward raises only from the precondition check of an item
      that was neither disabled nor visited; it then returns no item and
      leaves the history alone. */
  lemma ForwardRaises(rn: Runner, path: seq<string>, items: seq<Dict>, history: seq<string>)
    ensures var nav := Forward(rn, path, items, history);
      nav.raised.Some? ==> (nav.current.None? && nav.history == history &&
        exists i :: 0 <= i < |nav.items| &&
          !Flag(nav.items[i], "disabled") && !Flag(nav.items[i], "visited") && nav.raised == PreconditionFailure(nav.items[i], nav.items))
  {
    if !AllDone(items, path) {
      ScanFacts(rn, path, items);
    }
  }

  /** Going forward never clears a `disabled` flag. */
  lemma ForwardNeverEnables(rn: Runner, path: seq<string>, items: seq<Dict>, history: seq<string>, j: nat)
    requires j < |items| && Flag(items[j], "disabled")
    ensures j < |Forward(rn, path, items, history).items| && Flag(Forward(rn, path, items, history).items[j], "disabled")
  {
    if AllDone(items, path) {
      MarkLastKeepsDisabled(items, LastDone(items, path), j);
    } else {
      var s := ScanPath(rn, path, items);
      ScanKeepsFlags(rn, path, items, j);
      MarkLastKeepsDisabled(s.items, LastVisited(s.items), j);
    }
  }

  /** No navigation ever clears a `disabled` flag. */
  lemma NavigationNeverEnables(rn: Runner, path: seq<string>, items: seq<Dict>, history: seq<string>, backward: bool, j: nat)
    requires j < |items| && Flag(items[j], "disabled")
    ensures var nav := if backward then Backward(items, history) else Forward(rn, path, items, history);
      j < |nav.items| && Flag(nav.items[j], "disabled")
  {
    if backward {
      BackwardNeverEnables(items, history, j);
    } else {
      ForwardNeverEnables(rn, path, items, history, j);
    }
  }

  /** Going forward when some path item is still open returns an item that
      was neither disabled nor visited and whose preconditions hold, adds
      its id to the history only when absent, and changes `disabled` only
      on items that were open. */
  lemma ForwardFinds(rn: Runner, path: seq<string>, items: seq<Dict>, history: seq<string>)
    requires !AllDone(items, path) && ScanPath(rn, path, items).found.Some?
    ensures var nav := Forward(rn, path, items, history); var i := nav.current.value; var id := ScanPath(rn, path, items).found.value.1;
      nav.current.Some? && i < |items| && id in path && IdOf(items[i]) == JStr(id) &&
      !Flag(items[i], "disabled") && !Flag(items[i], "visited") &&
      PreconditionCheck(rn, nav.items[i], nav.items).0 &&
      (id in history ==> nav.history == history) && (id !in history ==> nav.history == history + [id])
  {
    ScanFacts(rn, path, items);
    var s := ScanPath(rn, path, items);
    var i := s.found.value.0;
    if s.items[i] != items[i] {
      DisableKeeps(items[i]);
    }
  }

  /** The result `process_item` reports: unknown id, a failing
      postcondition's hint, or success with the captured output (`output`
      is reported when truthy); or the exception it raises while it builds
      the context, or the one `to_outcome()` raises in the outcome loop. */
  datatype Processed = NotFound | Rejected(hint: Json) | Done(output: Json) | Crashed(error: Exception) | Aborted(raised: P.ProxyError)

  /** The state `process_item` leaves. */
  datatype Processing = Processing(result: Processed, items: seq<Dict>, warnings: seq<Warning>)

  /** The items the proxies are built from: those with the processed id
      carry the submitted outcome. */
  function Submitted(items: seq<Dict>, id: string, outcome: Json): (seen: seq<Dict>)
    ensures |seen| == |items|
  {
    seq(|items|, j requires 0 <= j < |items| => if IdOf(items[j]) == JStr(id) then Put(items[j], "outcome", outcome) else items[j])
  }

  /** Whether `key` is the id of some item, so that the proxy of that item
      hides the context entry. */
  predicate IsItemId(items: seq<Dict>, key: string) {
    exists j :: 0 <= j < |items| && IdOf(items[j]) == JStr(key)
  }

  /** The entries of a context that are not hidden by item proxies. */
  function NonProxy(ctx: Dict, items: seq<Dict>): (r: Dict)
    ensures forall i :: 0 <= i < |r| ==> !IsItemId(items, r[i].0)
    decreases |ctx|
  {
    if |ctx| == 0 then []
    else
      var n := |ctx| - 1;
      NonProxy(ctx[..n], items) + if IsItemId(items, ctx[n].0) then [] else [ctx[n]]
  }

  /** The context with every variable written into it, in order. */
  function PutAll(ctx: Dict, vars: Dict): Dict
    decreases |vars|
  {
    if |vars| == 0 then ctx
    else
      var n := |vars| - 1;
      Put(PutAll(ctx, vars[..n]), vars[n].0, vars[n].1)
  }

  /** The stored outcome after processing: rewritten when it is not equal,
      by Python's `==`, to the stored one, and a new non-`None` outcome
      marks the item visited. */
  function Updated(item: Dict, upd: Json): Dict {
    if !PyEq(upd, GetOr(item, "outcome")) then
      if upd != JNone then Put(Put(item, "outcome", upd), "visited", JBool(true)) else Put(item, "outcome", upd)
    else item
  }

  /** A later item receives the variables into its context. */
  function Propagated(item: Dict, vars: Dict): Dict {
    Put(item, "context", JDict(PutAll(ContextOf(item), vars)))
  }

  /** A loop writing `to_outcome()` of each proxy into its item with
      `step`: the items before the first one whose `to_outcome()` raises
      are written, that one and the later ones are left as they are, and
      the exception is reported. */
  function WriteBack(items: seq<Dict>, outcomeOf: nat -> Stored, step: (Dict, Json) -> Dict): (r: (seq<Dict>, Option<P.ProxyError>))
    ensures |r.0| == |items|
    ensures var k := FirstRaising(outcomeOf, |items|);
      (forall j :: 0 <= j < k ==> r.0[j] == step(items[j], outcomeOf(j).value)) &&
      (forall j :: k <= j < |items| ==> r.0[j] == items[j]) &&
      r.1 == (if k < |items| then Some(outcomeOf(k).error) else None)
    decreases |items|
  {
    if |items| == 0 then ([], None)
    else
      var n := |items| - 1;
      var p := WriteBack(items[..n], outcomeOf, step);
      assert forall j :: 0 <= j < n ==> items[..n][j] == items[j];
      if p.1.Some? then (p.0 + [items[n]], p.1)
      else
        match outcomeOf(n)
        case Err(e) => (p.0 + [items[n]], Some(e))
        case Ok(v) => (p.0 + [step(items[n], v)], None)
  }

  /** The outcome loop of `process_item`: `WriteBack` with `Updated`. */
  function Outcomes(items: seq<Dict>, outcomeOf: nat -> Stored): (r: (seq<Dict>, Option<P.ProxyError>))
    ensures |r.0| == |items|
    ensures var k := FirstRaising(outcomeOf, |items|);
      (forall j :: 0 <= j < k ==> r.0[j] == Updated(items[j], outcomeOf(j).value)) &&
      (forall j :: k <= j < |items| ==> r.0[j] == items[j]) &&
      r.1 == (if k < |items| then Some(outcomeOf(k).error) else None)
  {
    WriteBack(items, outcomeOf, Updated)
  }

  /** The items after the propagation loop: those after `cur` with another
      id receive the variables. */
  function Propagation(items: seq<Dict>, cur: nat, id: string, vars: Dict): (r: seq<Dict>)
    ensures |r| == |items|
    ensures forall j :: 0 <= j < |r| ==> r[j] == PropagatedAt(items[j], j, cur, id, vars)
  {
    seq(|items|, j requires 0 <= j < |items| => PropagatedAt(items[j], j, cur, id, vars))
  }

  /** The item at position `j` after the propagation loop. */
  function PropagatedAt(item: Dict, j: nat, cur: nat, id: string, vars: Dict): Dict {
    if IdOf(item) == JStr(id) || j <= cur then item else Propagated(item, vars)
  }

  /** `process_item(state, id, outcome, skip)` for the item at `cur`, past
      the postcondition check, given the context after the code block. */
  function Apply(items: seq<Dict>, cur: nat, id: string, env: Dict, outcomeOf: nat -> Stored): (r: seq<Dict>)
    requires cur < |items|
    ensures |r| == |items|
  {
    var updated := Outcomes(items, outcomeOf).0;
    Propagation(updated[cur := Put(updated[cur], "visited", JBool(true))], cur, id, Remove(env, "__output__"))
  }

  /** What one item goes through in `Apply`: its `disabled` flag is kept,
      the processed item becomes visited, an item whose outcome changed to
      a non-`None` value becomes visited, an item up to `cur` keeps its
      context, and when no `to_outcome()` raises before it, its outcome is
      the new one unless that equals the stored one by Python's `==`. */
  lemma ApplyAt(items: seq<Dict>, cur: nat, id: string, env: Dict, outcomeOf: nat -> Stored, j: nat)
    requires cur < |items| && j < |items|
    ensures var r := Apply(items, cur, id, env, outcomeOf)[j];
      Flag(r, "disabled") == Flag(items[j], "disabled") &&
      (j == cur ==> Flag(r, "visited")) &&
      (j <= cur ==> Get(r, "context") == Get(items[j], "context")) &&
      (GetOr(r, "outcome") != GetOr(items[j], "outcome") && GetOr(r, "outcome") != JNone ==> Flag(r, "visited")) &&
      (j < FirstRaising(outcomeOf, |items|) ==>
        GetOr(r, "outcome") == (if PyEq(outcomeOf(j).value, GetOr(items[j], "outcome")) then GetOr(items[j], "outcome") else outcomeOf(j).value)) &&
      (j >= FirstRaising(outcomeOf, |items|) ==> GetOr(r, "outcome") == GetOr(items[j], "outcome"))
  {
    var updated := Outcomes(items, outcomeOf).0;
    var visited := updated[cur := Put(updated[cur], "visited", JBool(true))];
    var vars := Remove(env, "__output__");
    var u := updated[j];
    assert u == if j < FirstRaising(outcomeOf, |items|) then Updated(items[j], outcomeOf(j).value) else items[j];
    var v := if j == cur then Put(u, "visited", JBool(true)) else u;
    assert visited[j] == v;
    if j < FirstRaising(outcomeOf, |items|) {
      UpdatedFacts(items[j], outcomeOf(j).value);
    }
    if j == cur {
      MarkVisitedFacts(u);
    }
    assert Apply(items, cur, id, env, outcomeOf)[j] == PropagatedAt(v, j, cur, id, vars);
    if !(IdOf(v) == JStr(id) || j <= cur) {
      PropagatedFacts(v, vars);
    }
  }

  /** The outcome update keeps `disabled` and `context`; an outcome equal
      to the stored one by Python's `==` leaves the item as it is, any other
      is stored, and a changed non-`None` outcome comes with `visited`. */
  lemma UpdatedFacts(item: Dict, upd: Json)
    ensures var u := Updated(item, upd);
      Flag(u, "disabled") == Flag(item, "disabled") && Get(u, "context") == Get(item, "context") &&
      (GetOr(u, "outcome") != GetOr(item, "outcome") && GetOr(u, "outcome") != JNone ==> Flag(u, "visited"))
    ensures PyEq(upd, GetOr(item, "outcome")) ==> Updated(item, upd) == item
    ensures !PyEq(upd, GetOr(item, "outcome")) ==> GetOr(Updated(item, upd), "outcome") == upd
    ensures !PyEq(upd, GetOr(item, "outcome")) && upd != JNone ==> Flag(Updated(item, upd), "visited")
  {
    FieldsDistinct();
    if !PyEq(upd, GetOr(item, "outcome")) {
      var o := Put(item, "outcome", upd);
      assert Get(o, "disabled") == Get(item, "disabled") && Get(o, "context") == Get(item, "context");
      if upd != JNone {
        MarkVisitedFacts(o);
      }
    }
  }

  /** Writing back the outcome an item already stores changes nothing. */
  lemma UpdatedSameOutcome(item: Dict)
    requires WellKeyed(GetOr(item, "outcome"))
    ensures Updated(item, GetOr(item, "outcome")) == item
  {
    PyEqReflexive(GetOr(item, "outcome"));
  }

  /** The field names the processing writes are distinct. */
  lemma FieldsDistinct()
    ensures "outcome" != "visited" && "outcome" != "context" && "visited" != "context"
    ensures "outcome" != "disabled" && "visited" != "disabled" && "context" != "disabled"
  {
    assert "outcome"[0] == 'o' && "visited"[0] == 'v' && "context"[0] == 'c' && |"disabled"| == 8;
  }

  /** Marking an item visited keeps its other fields. */
  lemma MarkVisitedFacts(u: Dict)
    ensures var v := Put(u, "visited", JBool(true));
      Flag(v, "visited") && Flag(v, "disabled") == Flag(u, "disabled") &&
      Get(v, "context") == Get(u, "context") && GetOr(v, "outcome") == GetOr(u, "outcome")
  {
    FieldsDistinct();
    PutOther(u, "visited", JBool(true), "disabled");
    PutOther(u, "visited", JBool(true), "context");
    PutOther(u, "visited", JBool(true), "outcome");
  }

  /** Writing one field leaves another alone. */
  lemma PutOther(d: Dict, k: string, v: Json, k': string)
    requires k != k'
    ensures Get(Put(d, k, v), k') == Get(d, k') && GetOr(Put(d, k, v), k') == GetOr(d, k')
    ensures Flag(Put(d, k, v), k') == Flag(d, k')
  {
  }

  /** Propagation touches only the context. */
  lemma PropagatedFacts(item: Dict, vars: Dict)
    ensures var p := Propagated(item, vars);
      Flag(p, "disabled") == Flag(item, "disabled") && Flag(p, "visited") == Flag(item, "visited") &&
      GetOr(p, "outcome") == GetOr(item, "outcome")
  {
    FieldsDistinct();
    var c := JDict(PutAll(ContextOf(item), vars));
    PutOther(item, "context", c, "disabled");
    PutOther(item, "context", c, "visited");
    PutOther(item, "context", c, "outcome");
  }

  /** The context after the code block: the oracle's, or, when there is no
      code or it raised, the unchanged one with the proxies of the proxy
      loop (the submitted outcome decoded for the processed id); with its
      warning. */
  function AfterCode(rn: Runner, code: Json, ctx: Dict, items: seq<Dict>, id: string, outcome: Json): (Dict, nat -> Stored, seq<Warning>) {
    var seen := Submitted(items, id, outcome);
    var kept := (NonProxy(ctx, seen), StoredOutcomes(items, Some((id, outcome))));
    if !Truthy(code) then (kept.0, kept.1, [])
    else
      match rn.run(code, ctx, seen)
      case Ran(env, outcomeOf) => (env, outcomeOf, [])
      case Failed(msg) => (kept.0, kept.1, if Truthy(JStr(id)) then [Warning(JStr(id), "codeblock", msg)] else [])
  }

  /** What `process_item` raises before the postcondition check: a
      `KeyError` when the item has no `context`, else whatever storing the
      proxies into a copy of it raises, with the submitted outcome decoded
      by the processed item's proxy. */
  function ProcessFailure(items: seq<Dict>, cur: nat, id: string, outcome: Json): (e: Option<Exception>)
    requires cur < |items|
    ensures Get(items[cur], "context").None? ==> e == Some(KeyError)
    ensures Get(items[cur], "context").Some? ==>
      (e.None? <==> ContextFailure(Get(items[cur], "context").value, items, Some((id, outcome))).None?)
  {
    match Get(items[cur], "context")
    case None => Some(KeyError)
    case Some(c) =>
      match ContextFailure(c, items, Some((id, outcome)))
      case Some(x) => Some(PyError(x))
      case None => None
  }

  /** `process_item(state, id, outcome, skip_postcondition)`. */
  function Process(rn: Runner, items: seq<Dict>, id: string, outcome: Json, skip: bool): (p: Processing)
    ensures |p.items| == |items|
  {
    match ItemIndex(items, id)
    case None => Processing(NotFound, items, [])
    case Some(cur) =>
      match ProcessFailure(items, cur, id, outcome)
      case Some(x) => Processing(Crashed(x), items, [])
      case None =>
        var seen := Submitted(items, id, outcome);
        var ctx := ContextOf(items[cur]);
        var (rejected, w) := PostCheck(rn, items[cur], ctx, seen, id, skip);
        if rejected.Some? then Processing(Rejected(rejected.value), items, w)
        else
          var (env, outcomeOf, cw) := AfterCode(rn, GetOr(items[cur], "codeBlock"), ctx, items, id, outcome);
          var (updated, raised) := Outcomes(items, outcomeOf);
          if raised.Some? then Processing(Aborted(raised.value), updated, w + cw)
          else Processing(Done(OrElse(Get(env, "__output__"), JList([]))), Apply(items, cur, id, env, outcomeOf), w + cw)
  }

  /** Warnings recorded in two steps are the warnings of both. */
  lemma AppendAssoc(w: seq<Warning>, x: seq<Warning>, y: seq<Warning>)
    ensures (w + x) + y == w + (x + y)
  {
  }

  /** `Process` for a known item whose postconditions fail. */
  lemma ProcessRejected(rn: Runner, items: seq<Dict>, id: string, outcome: Json, skip: bool, cur: nat)
    requires ItemIndex(items, id) == Some(cur) && cur < |items| && ProcessFailure(items, cur, id, outcome).None?
    requires PostCheck(rn, items[cur], ContextOf(items[cur]), Submitted(items, id, outcome), id, skip).0.Some?
    ensures var c := PostCheck(rn, items[cur], ContextOf(items[cur]), Submitted(items, id, outcome), id, skip);
      Process(rn, items, id, outcome, skip) == Processing(Rejected(c.0.value), items, c.1)
  {
  }

  /** `Process` for a known item whose postconditions pass: aborted by the
      first `to_outcome()` that raises, with the items before it updated,
      else done. */
  lemma ProcessDone(rn: Runner, items: seq<Dict>, id: string, outcome: Json, skip: bool, cur: nat)
    requires ItemIndex(items, id) == Some(cur) && cur < |items| && ProcessFailure(items, cur, id, outcome).None?
    requires PostCheck(rn, items[cur], ContextOf(items[cur]), Submitted(items, id, outcome), id, skip).0.None?
    ensures var seen := Submitted(items, id, outcome);
      var ctx := ContextOf(items[cur]);
      var c := PostCheck(rn, items[cur], ctx, seen, id, skip);
      var a := AfterCode(rn, GetOr(items[cur], "codeBlock"), ctx, items, id, outcome);
      var o := Outcomes(items, a.1);
      Process(rn, items, id, outcome, skip) ==
        if o.1.Some? then Processing(Aborted(o.1.value), o.0, c.1 + a.2)
        else Processing(Done(OrElse(Get(a.0, "__output__"), JList([]))), Apply(items, cur, id, a.0, a.1), c.1 + a.2)
  {
  }

  /** The postcondition check of `process_item`: the hint of the first
      failing postcondition, if any, and the warnings recorded; nothing
      when `skip` is set. */
  function PostCheck(rn: Runner, item: Dict, ctx: Dict, seen: seq<Dict>, id: string, skip: bool): (r: (Option<Json>, seq<Warning>))
    ensures skip ==> r == (None, [])
    ensures var post := ConditionsOf(item, "postcondition");
      r.0.Some? <==> !skip && post.Some? && FirstFailing(rn, post.value, ctx, seen).Some?
  {
    var post := if skip then None else ConditionsOf(item, "postcondition");
    var f := if post.Some? then FirstFailing(rn, post.value, ctx, seen) else None;
    var w := if post.Some? then Warned(rn, post.value[..Evaluated(post.value, f)], ctx, seen, JStr(id), "postcondition") else [];
    (if f.Some? then Some(HintOf(post.value[f.value])) else None, w)
  }

  /** Processing: an unknown id, an exception while the context is built
      or a failing postcondition changes no item; only an unknown id is
      reported as not found, and the exception is raised exactly when
      building the context fails, before any condition is evaluated. */
  lemma ProcessRejects(rn: Runner, items: seq<Dict>, id: string, outcome: Json, skip: bool)
    ensures var p := Process(rn, items, id, outcome, skip); !p.result.Done? && !p.result.Aborted? ==> p.items == items
    ensures var p := Process(rn, items, id, outcome, skip); p.result.NotFound? <==> ItemIndex(items, id).None?
    ensures var p := Process(rn, items, id, outcome, skip);
      p.result.Crashed? <==> ItemIndex(items, id).Some? && ProcessFailure(items, ItemIndex(items, id).value, id, outcome).Some?
    ensures var p := Process(rn, items, id, outcome, skip);
      p.result.Crashed? ==> p.warnings == [] && Some(p.result.error) == ProcessFailure(items, ItemIndex(items, id).value, id, outcome)
  {
  }

  /** The fields of the question group item of `GroupWithoutIndicesCrashes`. */
  lemma GroupItemFields(ctx: Dict)
    ensures var item := [("id", JStr("g")), ("kind", JStr("QuestionGroup")), ("context", JDict(ctx))];
      IdOf(item) == JStr("g") && GetOr(item, "kind") == P.QuestionGroup && GetOr(item, "outcome") == JNone &&
      Get(item, "input").None? && Get(item, "context") == Some(JDict(ctx))
  {
    var item := [("id", JStr("g")), ("kind", JStr("QuestionGroup")), ("context", JDict(ctx))];
    assert "id" != "kind" && "id" != "context" && "kind" != "context" && "outcome" != "id" by {
      assert "id"[0] == 'i' && "kind"[0] == 'k' && "context"[0] == 'c' && "outcome"[0] == 'o';
    }
    assert "outcome" != "kind" && "outcome" != "context" && "input" != "id" && "input" != "kind" && "input" != "context" by {
      assert "outcome"[0] == 'o' && "input"[0] == 'i' && |"input"| != |"id"|;
    }
    assert Keyed(item);
    GetEntry(item, 0);
    GetEntry(item, 1);
    GetEntry(item, 2);
  }

  /** Submitting `{"x": 1}` for a question group raises `ValueError`: no
      key names an index. */
  lemma GroupWithoutIndicesCrashes(rn: Runner, ctx: Dict, skip: bool)
    ensures var item := [("id", JStr("g")), ("kind", JStr("QuestionGroup")), ("context", JDict(ctx))];
      Process(rn, [item], "g", JDict([("x", JInt(1))]), skip) == Processing(Crashed(PyError(P.ValueError)), [item], [])
  {
    var item := [("id", JStr("g")), ("kind", JStr("QuestionGroup")), ("context", JDict(ctx))];
    var d := [("x", JInt(1))];
    var sub := Some(("g", JDict(d)));
    GroupItemFields(ctx);
    assert P.GroupIndex(d[0].0).None? by {
      assert "x"[0] != '_';
    }
    assert P.DecodeGroup(d) == Err(P.ValueError);
    assert P.Decode(P.QuestionGroup, JDict(d)) == Err(P.ValueError);
    assert ProxyFailure(item).None?;
    assert ItemFailure(item, sub) == Some(P.ValueError);
    FirstFailure([item], sub, 0);
    assert ContextFailure(JDict(ctx), [item], sub) == Some(P.ValueError);
    assert ProcessFailure([item], 0, "g", JDict(d)) == Some(PyError(P.ValueError));
    assert ItemIndex([item], "g") == Some(0);
  }

  /** Successful processing: the item becomes visited, an item whose
      outcome changed to a non-`None` value becomes visited (also when the
      outcome loop is aborted), only items after the processed one receive
      the variables, and no `disabled` flag changes. */
  lemma ProcessFacts(rn: Runner, items: seq<Dict>, id: string, outcome: Json, skip: bool, j: nat)
    requires j < |items|
    ensures var p := Process(rn, items, id, outcome, skip);
      Flag(p.items[j], "disabled") == Flag(items[j], "disabled")
    ensures var p := Process(rn, items, id, outcome, skip);
      p.result.Done? ==> Flag(p.items[ItemIndex(items, id).value], "visited")
    ensures var p := Process(rn, items, id, outcome, skip);
      p.result.Done? && j <= ItemIndex(items, id).value ==> Get(p.items[j], "context") == Get(items[j], "context")
    ensures var p := Process(rn, items, id, outcome, skip);
      (p.result.Done? || p.result.Aborted?) && GetOr(p.items[j], "outcome") != GetOr(items[j], "outcome") && GetOr(p.items[j], "outcome") != JNone ==>
        Flag(p.items[j], "visited")
  {
    var p := Process(rn, items, id, outcome, skip);
    if p.result.Done? || p.result.Aborted? {
      var cur := ItemIndex(items, id).value;
      var code := AfterCode(rn, GetOr(items[cur], "codeBlock"), ContextOf(items[cur]), items, id, outcome);
      var o := Outcomes(items, code.1);
      if p.result.Done? {
        assert p.items == Apply(items, cur, id, code.0, code.1);
        ApplyAt(items, cur, id, code.0, code.1, j);
        ApplyAt(items, cur, id, code.0, code.1, cur);
      } else {
        assert p.items == o.0;
        if j < FirstRaising(code.1, |items|) {
          UpdatedFacts(items[j], code.1(j).value);
        }
      }
    } else {
      ProcessRejects(rn, items, id, outcome, skip);
    }
  }

  /** A known item without a code block whose postconditions pass: the
      submission is aborted with the exception of the first item whose
      `to_outcome()` raises, if any, and is otherwise done with the item
      visited. */
  lemma ProcessStores(rn: Runner, items: seq<Dict>, id: string, outcome: Json, skip: bool, cur: nat)
    requires ItemIndex(items, id) == Some(cur) && cur < |items| && ProcessFailure(items, cur, id, outcome).None?
    requires PostCheck(rn, items[cur], ContextOf(items[cur]), Submitted(items, id, outcome), id, skip).0.None?
    requires !Truthy(GetOr(items[cur], "codeBlock"))
    ensures var p := Process(rn, items, id, outcome, skip);
      var k := FirstRaising(StoredOutcomes(items, Some((id, outcome))), |items|);
      (k < |items| ==> p.result == Aborted(StoredOf(items[k], Some((id, outcome))).error)) &&
      (k == |items| ==> p.result.Done? && Flag(p.items[cur], "visited"))
  {
    var stored := StoredOutcomes(items, Some((id, outcome)));
    var a := AfterCode(rn, GetOr(items[cur], "codeBlock"), ContextOf(items[cur]), items, id, outcome);
    assert a.1 == stored;
    ProcessDone(rn, items, id, outcome, skip, cur);
    if FirstRaising(stored, |items|) == |items| {
      ApplyAt(items, cur, id, a.0, a.1, cur);
    }
  }

  /** In the same case, each item before the first whose `to_outcome()`
      raises takes the outcome its proxy stores, unless that equals the old
      one by Python's `==`. */
  lemma ProcessStoresOutcome(rn: Runner, items: seq<Dict>, id: string, outcome: Json, skip: bool, cur: nat, j: nat)
    requires ItemIndex(items, id) == Some(cur) && cur < |items| && ProcessFailure(items, cur, id, outcome).None?
    requires PostCheck(rn, items[cur], ContextOf(items[cur]), Submitted(items, id, outcome), id, skip).0.None?
    requires !Truthy(GetOr(items[cur], "codeBlock"))
    requires j < FirstRaising(StoredOutcomes(items, Some((id, outcome))), |items|)
    ensures var p := Process(rn, items, id, outcome, skip);
      var s := StoredOf(items[j], Some((id, outcome))).value;
      GetOr(p.items[j], "outcome") == (if PyEq(s, GetOr(items[j], "outcome")) then GetOr(items[j], "outcome") else s)
  {
    var stored := StoredOutcomes(items, Some((id, outcome)));
    var a := AfterCode(rn, GetOr(items[cur], "codeBlock"), ContextOf(items[cur]), items, id, outcome);
    assert a.1 == stored;
    ProcessDone(rn, items, id, outcome, skip, cur);
    if FirstRaising(stored, |items|) == |items| {
      ApplyAt(items, cur, id, a.0, a.1, j);
    } else {
      UpdatedFacts(items[j], stored(j).value);
    }
  }

  /** A question answered with a plain value and no code block stores it
      as `{'_': value}` (unless the stored outcome already equals that by
      Python's `==`), which decodes back to the value. */
  lemma ProcessStoresAnswer(rn: Runner, items: seq<Dict>, id: string, outcome: Json, skip: bool, cur: nat)
    requires ItemIndex(items, id) == Some(cur) && cur < |items| && ProcessFailure(items, cur, id, outcome).None?
    requires PostCheck(rn, items[cur], ContextOf(items[cur]), Submitted(items, id, outcome), id, skip).0.None?
    requires !Truthy(GetOr(items[cur], "codeBlock")) && GetOr(items[cur], "kind") == P.Question
    requires !P.Blank(outcome) && !outcome.JDict?
    requires forall j :: 0 <= j < |items| ==> StoredOf(items[j], Some((id, outcome))).Ok?
    ensures var p := Process(rn, items, id, outcome, skip); var s := JDict([("_", outcome)]);
      p.result.Done? && Flag(p.items[cur], "visited") &&
      GetOr(p.items[cur], "outcome") == (if PyEq(s, GetOr(items[cur], "outcome")) then GetOr(items[cur], "outcome") else s) &&
      P.Decode(P.Question, s) == Ok(P.AsJson(outcome))
  {
    var stored := StoredOutcomes(items, Some((id, outcome)));
    assert forall j :: 0 <= j < |items| ==> stored(j) == StoredOf(items[j], Some((id, outcome)));
    assert FirstRaising(stored, |items|) == |items|;
    ProcessStores(rn, items, id, outcome, skip, cur);
    ProcessStoresOutcome(rn, items, id, outcome, skip, cur, cur);
    assert StoredOf(items[cur], Some((id, outcome))) == P.StoredOutcome(items[cur], Some(outcome));
    P.StoredQuestionDecodesBack(items[cur], Some(outcome));
  }

  /** The state of the outcome loop where it stops, at the first raising
      `to_outcome()` or at the end, is `Outcomes`. */
  lemma OutcomesStop(items0: seq<Dict>, outcomeOf: nat -> Stored, items: seq<Dict>, j: nat)
    requires j <= |items| == |items0|
    requires forall k :: 0 <= k < j ==> outcomeOf(k).Ok? && items[k] == Updated(items0[k], outcomeOf(k).value)
    requires forall k :: j <= k < |items| ==> items[k] == items0[k]
    requires j == |items| || outcomeOf(j).Err?
    ensures (items, if j < |items| then Some(outcomeOf(j).error) else None) == Outcomes(items0, outcomeOf)
  {
    assert FirstRaising(outcomeOf, |items0|) == j;
    var r := Outcomes(items0, outcomeOf);
    assert items == r.0;
  }

  /** The state of the initialization loop where it stops, at the first
      raising `to_outcome()` or at the end, is `InitItems`. */
  lemma InitItemsStop(items0: seq<Dict>, outcomeOf: nat -> Stored, vars: Dict, items: seq<Dict>, j: nat)
    requires j <= |items| == |items0|
    requires forall k :: 0 <= k < j ==> outcomeOf(k).Ok? && items[k] == InitItem(items0[k], outcomeOf(k).value, vars)
    requires forall k :: j <= k < |items| ==> items[k] == items0[k]
    requires j == |items| || outcomeOf(j).Err?
    ensures (items, if j < |items| then Some(outcomeOf(j).error) else None) == InitItems(items0, outcomeOf, vars)
  {
    assert FirstRaising(outcomeOf, |items0|) == j;
    var r := InitItems(items0, outcomeOf, vars);
    assert items == r.0;
  }

  /** The path `_initialize_questionnaire` stores: the topological order
      when it is non-empty and there are no cycles, else the item ids in
      declaration order. */
  function InitPath(items: seq<Dict>, order: seq<string>, hasCycles: bool): (p: seq<string>)
    ensures !(|order| > 0 && !hasCycles) ==> |p| == |items|
  {
    if |order| > 0 && !hasCycles then order
    else seq(|items|, j requires 0 <= j < |items| => if IdOf(items[j]).JStr? then IdOf(items[j]).s else "")
  }

  /** The item loop of initialization: each item before the first whose
      `to_outcome()` raises takes the outcome its proxy stores, is not
      visited and gets a context holding the variables; that item and the
      later ones are left as they are, and the exception is reported. */
  function InitItems(items: seq<Dict>, outcomeOf: nat -> Stored, vars: Dict): (r: (seq<Dict>, Option<P.ProxyError>))
    ensures |r.0| == |items|
    ensures var k := FirstRaising(outcomeOf, |items|);
      (forall j :: 0 <= j < k ==> r.0[j] == InitItem(items[j], outcomeOf(j).value, vars)) &&
      (forall j :: k <= j < |items| ==> r.0[j] == items[j]) &&
      r.1 == (if k < |items| then Some(outcomeOf(k).error) else None)
  {
    WriteBack(items, outcomeOf, (item, v) => InitItem(item, v, vars))
  }

  /** One item after initialization. */
  function InitItem(item: Dict, outcome: Json, vars: Dict): Dict {
    PutAll(item, [("outcome", outcome), ("visited", JBool(false)), ("context", JDict(vars))])
  }

  /** An initialized item has its outcome set, is not visited, has the
      variables as its context and keeps every other field. */
  lemma InitItemFacts(item: Dict, outcome: Json, vars: Dict)
    ensures var r := InitItem(item, outcome, vars);
      !Flag(r, "visited") && Get(r, "context") == Some(JDict(vars)) && Get(r, "outcome") == Some(outcome) &&
      forall k :: k != "outcome" && k != "visited" && k != "context" ==> Get(r, k) == Get(item, k)
  {
    FieldsDistinct();
    var l := [("outcome", outcome), ("visited", JBool(false)), ("context", JDict(vars))];
    assert l[..2][..1][..0] == [] && l[..2][..1] == l[..1] && l[..3] == l;
    var a := Put(item, "outcome", outcome);
    var b := Put(a, "visited", JBool(false));
    assert PutAll(item, l[..1]) == a;
    assert PutAll(item, l[..2]) == b;
    assert InitItem(item, outcome, vars) == Put(b, "context", JDict(vars));
  }

  /** The init code's effect: the variables and the outcomes; without
      code, or when it raises, no variables and what the proxies built from
      the items store. */
  function InitRun(rn: Runner, code: string, items: seq<Dict>): (Dict, nat -> Stored) {
    var kept := ([], StoredOutcomes(items, None));
    if |code| == 0 then kept
    else
      match rn.run(JStr(code), [], items)
      case Ran(env, outcomeOf) => (env, outcomeOf)
      case Failed(_) => kept
  }

  /** Without init code, initialization gives each item the storage form
      of its own outcome (`to_outcome()` of `ItemProxy(item)`), no variables
      and `visited` false, up to the first item whose `to_outcome()` raises;
      a question's stored outcome decodes back to its answer. */
  lemma InitStores(rn: Runner, items: seq<Dict>, j: nat)
    requires j < |items|
    ensures var run := InitRun(rn, "", items); var r := InitItems(items, run.1, run.0);
      var k := FirstRaising(run.1, |items|);
      run.0 == [] &&
      (k < |items| ==> r.1 == Some(P.StoredOutcome(items[k], None).error)) &&
      (j < k ==> (Get(r.0[j], "outcome") == Some(P.StoredOutcome(items[j], None).value) &&
        Get(r.0[j], "context") == Some(JDict([])) && !Flag(r.0[j], "visited"))) &&
      (j < k && GetOr(items[j], "kind") == P.Question ==>
        P.Decode(P.Question, GetOr(r.0[j], "outcome")) == P.Decode(P.Question, GetOr(items[j], "outcome")))
  {
    var run := InitRun(rn, "", items);
    var k := FirstRaising(run.1, |items|);
    assert run.1 == StoredOutcomes(items, None);
    if k < |items| {
      assert run.1(k) == P.StoredOutcome(items[k], None);
    }
    if j < k {
      assert run.1(j) == P.StoredOutcome(items[j], None);
      InitItemFacts(items[j], run.1(j).value, run.0);
      if GetOr(items[j], "kind") == P.Question {
        P.StoredQuestionDecodesBack(items[j], None);
      }
    }
  }

  /** `get_navigation_path()`: the topology's items when it has cycles,
      else its topological order unless that is empty. */
  function FlowPath(topologyItems: seq<string>, order: seq<string>, hasCycles: bool): (p: seq<string>)
    ensures hasCycles ==> p == topologyItems
    ensures !hasCycles && |order| > 0 ==> p == order
  {
    if hasCycles then topologyItems
    else if |order| > 0 then order else topologyItems
  }

  class FlowProcessor {
    const state: QuestionnaireState
    const topologyItems: seq<string>
    const order: seq<string>
    const hasCycles: bool
    /** The exception the constructor raised while initializing, if any. */
    var initError: Option<P.ProxyError>

    /** `FlowProcessor(state)`: initializes the state unless a navigation
        path is stored. The topology's results are given. When building
        the proxies raises, the path is already stored and the items are
        untouched; when a `to_outcome()` raises, the items before it are
        already initialized. */
    constructor (s: QuestionnaireState, rn: Runner, topologyItems: seq<string>, order: seq<string>, hasCycles: bool)
      requires s.HasIds()
      modifies s
      ensures state == s && this.topologyItems == topologyItems && this.order == order && this.hasCycles == hasCycles
      ensures |old(s.GetNavigationPath())| > 0 ==>
        s.items == old(s.items) && s.navigationPath == old(s.navigationPath) && initError == None
      ensures |old(s.GetNavigationPath())| == 0 ==>
        var (vars, outcomeOf) := InitRun(rn, OrElse(old(s.codeInit), ""), old(s.items));
        var init := InitItems(old(s.items), outcomeOf, vars);
        var proxies := ProxiesFailure(old(s.items), None);
        s.navigationPath == Some(InitPath(old(s.items), order, hasCycles)) &&
        initError == (if proxies.Some? then proxies else init.1) &&
        s.items == if proxies.Some? then old(s.items) else init.0
      ensures s.history == old(s.history) && s.warnings == old(s.warnings) && s.StaticKept()
    {
      state := s;
      this.topologyItems := topologyItems;
      this.order := order;
      this.hasCycles := hasCycles;
      initError := None;
      new;
      if |s.GetNavigationPath()| == 0 {
        initError := Initialize(s, rn, order, hasCycles);
      }
    }

    /** `get_navigation_path()` */
    function GetNavigationPath(): seq<string> {
      FlowPath(topologyItems, order, hasCycles)
    }

    /** `_evaluate_condition(expr, context, item_id, kind)` */
    method EvaluateCondition(rn: Runner, expr: Json, ctx: Dict, items: seq<Dict>, itemId: Json, kind: string) returns (ok: bool)
      modifies state
      ensures ok == Holds(rn, expr, ctx, items)
      ensures state.warnings == old(state.warnings) + EvalWarnings(rn, expr, ctx, items, itemId, kind)
      ensures state.WarningsOnly()
    {
      if !Truthy(expr) {
        return true;
      }
      match rn.eval(expr, ctx, items)
      case Value(b) =>
        ok := b;
      case Raised(msg) =>
        if Truthy(itemId) {
          state.AddWarning(itemId, kind, msg);
        }
        ok := true;
    }

    /** Evaluating conditions in order until one fails (the loops of
        `_check_preconditions` and of the postcondition check). */
    method EvaluateAll(rn: Runner, conds: seq<Json>, ctx: Dict, items: seq<Dict>, itemId: Json, kind: string) returns (f: Option<nat>)
      modifies state
      ensures f == FirstFailing(rn, conds, ctx, items)
      ensures state.warnings == old(state.warnings) + Warned(rn, conds[..Evaluated(conds, f)], ctx, items, itemId, kind)
      ensures state.WarningsOnly()
    {
      var i := 0;
      while i < |conds|
        invariant 0 <= i <= |conds|
        invariant AllHold(rn, conds, i, ctx, items)
        invariant state.warnings == old(state.warnings) + Warned(rn, conds[..i], ctx, items, itemId, kind)
        invariant state.WarningsOnly()
      {
        var ok := EvaluateCondition(rn, PredicateOf(conds[i]), ctx, items, itemId, kind);
        WarnedStep(rn, conds, ctx, items, itemId, kind, i, old(state.warnings));
        if !ok {
          FirstFailingAt(rn, conds, ctx, items, i);
          return Some(i);
        }
        AllHoldStep(rn, conds, i, ctx, items);
        i := i + 1;
      }
      assert conds[..i] == conds;
      FirstFailingNone(rn, conds, ctx, items);
      return None;
    }

    /** `_check_preconditions(item, all_items)` for the item at `i`: its
        verdict, or the exception building the context raised. */
    method CheckPreconditions(rn: Runner, i: nat) returns (r: Result<bool, P.ProxyError>)
      requires i < |state.items|
      modifies state
      ensures var e := PreconditionFailure(old(state.items[i]), old(state.items));
        r == if e.Some? then Err(e.value) else Ok(PreconditionCheck(rn, old(state.items[i]), old(state.items)).0)
      ensures state.warnings == old(state.warnings) + if r.Err? then [] else PreconditionCheck(rn, old(state.items[i]), old(state.items)).1
      ensures state.items == old(state.items) && state.history == old(state.history) && state.navigationPath == old(state.navigationPath)
      ensures state.StaticKept()
    {
      var item := state.items[i];
      var conds := ConditionsOf(item, "precondition");
      if conds.None? {
        return Ok(true);
      }
      var failure := BuildContext(OrElse(Get(item, "context"), JDict([])), state.items, None);
      if failure.Some? {
        return Err(failure.value);
      }
      var f := EvaluateAll(rn, conds.value, ContextOf(item), state.items, IdOf(item), "precondition");
      return Ok(f.None?);
    }

    /** The reverse loop over the path when every path item is done. */
    method MarkLastDone(path: seq<string>) returns (r: Option<nat>)
      modifies state
      ensures r == LastDone(old(state.items), path)
      ensures state.items == MarkLast(old(state.items), r)
      ensures state.warnings == old(state.warnings) && state.history == old(state.history) && state.navigationPath == old(state.navigationPath)
      ensures state.StaticKept()
    {
      var k := |path|;
      assert path[..k] == path;
      while k > 0
        invariant 0 <= k <= |path|
        invariant LastDone(state.items, path) == LastDone(state.items, path[..k])
        invariant state.items == old(state.items) && state.warnings == old(state.warnings) && state.history == old(state.history)
        invariant state.navigationPath == old(state.navigationPath) && state.StaticKept()
      {
        assert path[..k][..k - 1] == path[..k - 1];
        k := k - 1;
        var idx := state.GetItem(path[k]);
        if idx.Some? && Flag(state.items[idx.value], "visited") && !Flag(state.items[idx.value], "disabled") {
          state.SetItemField(idx.value, "isLast", JBool(true));
          return idx;
        }
      }
      return None;
    }

    /** One pass of the forward loop, for the path entry `id`. */
    method ScanEntry(rn: Runner, id: string) returns (stop: Option<(nat, string)>, raised: Option<P.ProxyError>)
      modifies state
      ensures var st := ScanOne(rn, id, old(state.items));
        stop == st.stop && raised == st.raised && state.items == st.items && state.warnings == old(state.warnings) + st.warnings
      ensures state.history == old(state.history) && state.navigationPath == old(state.navigationPath) && state.StaticKept()
    {
      var idx := state.GetItem(id);
      if idx.Some? {
        var i := idx.value;
        if !Flag(state.items[i], "disabled") && !Flag(state.items[i], "visited") {
          var ok := CheckPreconditions(rn, i);
          if ok.Err? {
            return None, Some(ok.error);
          }
          if ok.value {
            return Some((i, id)), None;
          }
          state.SetItemField(i, "disabled", JBool(true));
        }
      }
      return None, None;
    }

    /** The forward loop over the path. */
    method ScanForward(rn: Runner, path: seq<string>) returns (found: Option<(nat, string)>, raised: Option<P.ProxyError>)
      modifies state
      ensures var s := ScanPath(rn, path, old(state.items));
        found == s.found && raised == s.raised && state.items == s.items && state.warnings == old(state.warnings) + s.warnings
      ensures state.history == old(state.history) && state.navigationPath == old(state.navigationPath) && state.StaticKept()
    {
      ghost var full := ScanPath(rn, path, state.items);
      ghost var warnings0 := state.warnings;
      var k := 0;
      assert path[k..] == path;
      while k < |path|
        invariant 0 <= k <= |path|
        invariant Resumes(rn, path, k, state.items, state.warnings, full, warnings0)
        invariant state.history == old(state.history) && state.navigationPath == old(state.navigationPath) && state.StaticKept()
      {
        ghost var items := state.items;
        ghost var warnings := state.warnings;
        var stop, err := ScanEntry(rn, path[k]);
        ResumesStep(rn, path, k, items, warnings, full, warnings0);
        if stop.Some? || err.Some? {
          return stop, err;
        }
        k := k + 1;
      }
      ResumesEnd(rn, path, state.items, state.warnings, full, warnings0);
      return None, None;
    }

    /** `get_current_item(state, backward)`: the item to show, by its
        position. */
    method GetCurrentItem(rn: Runner, backward: bool) returns (r: Option<nat>, raised: Option<P.ProxyError>)
      modifies state
      ensures var nav := if backward then Backward(old(state.items), old(state.history))
        else Forward(rn, old(state.GetNavigationPath()), old(state.items), old(state.history));
        r == nav.current && raised == nav.raised && state.items == nav.items && state.history == nav.history &&
        state.warnings == old(state.warnings) + nav.warnings
      ensures state.navigationPath == old(state.navigationPath) && state.StaticKept()
    {
      raised := None;
      if backward {
        r := GoBack();
        return;
      }
      var path := state.GetNavigationPath();
      if AllDone(state.items, path) {
        r := MarkLastDone(path);
        return;
      }
      var found;
      found, raised := ScanForward(rn, path);
      if raised.Some? {
        return None, raised;
      }
      if found.Some? {
        if found.value.1 !in state.history {
          state.AddToHistory(found.value.1);
        }
        return Some(found.value.0), None;
      }
      r := LastVisited(state.items);
      if r.Some? {
        state.SetItemField(r.value, "isLast", JBool(true));
      }
    }

    /** The backward branch of `get_current_item`. */
    method GoBack() returns (r: Option<nat>)
      modifies state
      ensures var nav := Backward(old(state.items), old(state.history));
        r == nav.current && state.items == nav.items && state.history == nav.history && state.warnings == old(state.warnings)
      ensures state.navigationPath == old(state.navigationPath) && state.StaticKept()
    {
      if |state.history| == 0 {
        return None;
      }
      var current := state.history[|state.history| - 1];
      state.history := state.history[..|state.history| - 1];
      var idx := state.GetItem(current);
      if idx.Some? {
        state.SetItemField(idx.value, "visited", JBool(false));
      }
      if |state.history| > 0 {
        r := state.GetItem(state.history[|state.history| - 1]);
      } else {
        r := None;
      }
    }

    /** `process_item(state, id, outcome, skip_postcondition)` */
    method ProcessItem(rn: Runner, id: string, outcome: Json, skip: bool) returns (result: Processed)
      modifies state
      ensures var p := Process(rn, old(state.items), id, outcome, skip);
        result == p.result && state.items == p.items && state.warnings == old(state.warnings) + p.warnings
      ensures state.history == old(state.history) && state.navigationPath == old(state.navigationPath) && state.StaticKept()
    {
      var found := state.GetItem(id);
      if found.None? {
        return NotFound;
      }
      var cur := found.value;
      var context := Get(state.items[cur], "context");
      if context.None? {
        return Crashed(KeyError);
      }
      var failure := BuildContext(context.value, state.items, Some((id, outcome)));
      if failure.Some? {
        return Crashed(PyError(failure.value));
      }
      ghost var items0, warnings0 := state.items, state.warnings;
      var seen := Submitted(state.items, id, outcome);
      var ctx := ContextOf(state.items[cur]);
      ghost var c := PostCheck(rn, items0[cur], ctx, seen, id, skip);
      var rejected := CheckPostconditions(rn, cur, ctx, seen, id, skip);
      if rejected.Some? {
        ProcessRejected(rn, items0, id, outcome, skip, cur);
        return Rejected(rejected.value);
      }
      ProcessDone(rn, items0, id, outcome, skip, cur);
      ghost var a := AfterCode(rn, GetOr(items0[cur], "codeBlock"), ctx, items0, id, outcome);
      var output, raised := FinishItem(rn, cur, id, outcome, ctx);
      AppendAssoc(warnings0, c.1, a.2);
      if raised.Some? {
        return Aborted(raised.value);
      }
      result := Done(output);
    }

    /** The code block and the update of `process_item` once the
        postconditions pass. */
    method FinishItem(rn: Runner, cur: nat, id: string, outcome: Json, ctx: Dict) returns (output: Json, raised: Option<P.ProxyError>)
      requires cur < |state.items|
      modifies state
      ensures var a := AfterCode(rn, GetOr(old(state.items)[cur], "codeBlock"), ctx, old(state.items), id, outcome);
        var o := Outcomes(old(state.items), a.1);
        output == OrElse(Get(a.0, "__output__"), JList([])) && raised == o.1 &&
        state.items == (if o.1.Some? then o.0 else Apply(old(state.items), cur, id, a.0, a.1)) &&
        state.warnings == old(state.warnings) + a.2
      ensures state.history == old(state.history) && state.navigationPath == old(state.navigationPath) && state.StaticKept()
    {
      var env, outcomeOf := ExecuteCodeBlock(rn, GetOr(state.items[cur], "codeBlock"), ctx, id, outcome);
      output := OrElse(Get(env, "__output__"), JList([]));
      raised := ApplyProcessing(cur, id, env, outcomeOf);
    }

    /** The postcondition loop of `process_item` for the item at `cur`. */
    method CheckPostconditions(rn: Runner, cur: nat, ctx: Dict, seen: seq<Dict>, id: string, skip: bool) returns (rejected: Option<Json>)
      requires cur < |state.items|
      modifies state
      ensures var c := PostCheck(rn, old(state.items[cur]), ctx, seen, id, skip);
        rejected == c.0 && state.warnings == old(state.warnings) + c.1
      ensures state.items == old(state.items) && state.history == old(state.history) && state.navigationPath == old(state.navigationPath)
      ensures state.StaticKept()
    {
      if skip {
        return None;
      }
      var post := ConditionsOf(state.items[cur], "postcondition");
      if post.None? {
        return None;
      }
      var f := EvaluateAll(rn, post.value, ctx, seen, JStr(id), "postcondition");
      if f.Some? {
        return Some(HintOf(post.value[f.value]));
      }
      return None;
    }

    /** `_execute_code_block(code, context, item_id)` */
    method ExecuteCodeBlock(rn: Runner, code: Json, ctx: Dict, id: string, outcome: Json) returns (env: Dict, outcomeOf: nat -> Stored)
      modifies state
      ensures var a := AfterCode(rn, code, ctx, old(state.items), id, outcome);
        env == a.0 && outcomeOf == a.1 && state.warnings == old(state.warnings) + a.2
      ensures state.items == old(state.items) && state.history == old(state.history) && state.navigationPath == old(state.navigationPath)
      ensures state.StaticKept()
    {
      var seen := Submitted(state.items, id, outcome);
      env := NonProxy(ctx, seen);
      outcomeOf := StoredOutcomes(state.items, Some((id, outcome)));
      if !Truthy(code) {
        return;
      }
      match rn.run(code, ctx, seen)
      case Ran(e, o) =>
        env, outcomeOf := e, o;
      case Failed(msg) =>
        if Truthy(JStr(id)) {
          state.AddWarning(JStr(id), "codeblock", msg);
        }
    }

    /** The outcome loop, the visited mark and the propagation loop of
        `process_item`. */
    method ApplyProcessing(cur: nat, id: string, env: Dict, outcomeOf: nat -> Stored) returns (raised: Option<P.ProxyError>)
      requires cur < |state.items|
      modifies state
      ensures var o := Outcomes(old(state.items), outcomeOf);
        raised == o.1 && state.items == if o.1.Some? then o.0 else Apply(old(state.items), cur, id, env, outcomeOf)
      ensures state.warnings == old(state.warnings) && state.history == old(state.history) && state.navigationPath == old(state.navigationPath)
      ensures state.StaticKept()
    {
      raised := UpdateOutcomes(outcomeOf);
      if raised.Some? {
        return;
      }
      state.SetItemField(cur, "visited", JBool(true));
      PropagateVariables(cur, id, Remove(env, "__output__"));
    }

    /** The loop writing back the outcomes the proxies hold, until a
        `to_outcome()` raises. */
    method UpdateOutcomes(outcomeOf: nat -> Stored) returns (raised: Option<P.ProxyError>)
      modifies state
      ensures (state.items, raised) == Outcomes(old(state.items), outcomeOf)
      ensures state.warnings == old(state.warnings) && state.history == old(state.history) && state.navigationPath == old(state.navigationPath)
      ensures state.StaticKept()
    {
      var items;
      items, raised := WriteOutcomes(state.items, outcomeOf);
      state.items := items;
    }

    /** The loop propagating the variables into the later items' contexts. */
    method PropagateVariables(cur: nat, id: string, vars: Dict)
      modifies state
      ensures state.items == Propagation(old(state.items), cur, id, vars)
      ensures state.warnings == old(state.warnings) && state.history == old(state.history) && state.navigationPath == old(state.navigationPath)
      ensures state.StaticKept()
    {
      var items := state.items;
      ghost var items1 := items;
      var j := 0;
      while j < |items|
        invariant 0 <= j <= |items| == |items1|
        invariant forall k :: 0 <= k < j ==> items[k] == PropagatedAt(items1[k], k, cur, id, vars)
        invariant forall k :: j <= k < |items| ==> items[k] == items1[k]
        invariant unchanged(state)
      {
        var item := PropagateAt(items[j], j, cur, id, vars);
        items := items[j := item];
        j := j + 1;
      }
      state.items := items;
    }

    /** `_initialize_questionnaire(state)` */
    static method Initialize(s: QuestionnaireState, rn: Runner, order: seq<string>, hasCycles: bool) returns (failure: Option<P.ProxyError>)
      requires s.HasIds()
      modifies s
      ensures var (vars, outcomeOf) := InitRun(rn, OrElse(old(s.codeInit), ""), old(s.items));
        var init := InitItems(old(s.items), outcomeOf, vars);
        var proxies := ProxiesFailure(old(s.items), None);
        s.navigationPath == Some(InitPath(old(s.items), order, hasCycles)) &&
        failure == (if proxies.Some? then proxies else init.1) &&
        s.items == if proxies.Some? then old(s.items) else init.0
      ensures s.history == old(s.history) && s.warnings == old(s.warnings) && s.StaticKept()
    {
      StoreInitPath(s, order, hasCycles);
      failure := BuildProxies(s.items, None);
      if failure.Some? {
        return;
      }
      var run := InitRun(rn, OrElse(s.codeInit, ""), s.items);
      failure := InitializeItems(s, run.1, run.0);
    }

    /** The navigation path of `_initialize_questionnaire`. */
    static method StoreInitPath(s: QuestionnaireState, order: seq<string>, hasCycles: bool)
      requires s.HasIds()
      modifies s
      ensures s.navigationPath == Some(InitPath(old(s.items), order, hasCycles))
      ensures s.items == old(s.items) && s.history == old(s.history) && s.warnings == old(s.warnings) && s.StaticKept()
    {
      if |order| > 0 && !hasCycles {
        s.SetNavigationPath(order);
      } else {
        var ids: seq<string> := [];
        var j := 0;
        while j < |s.items|
          invariant 0 <= j <= |s.items| && |ids| == j
          invariant forall k :: 0 <= k < j ==> ids[k] == IdOf(s.items[k]).s
        {
          ids := ids + [IdOf(s.items[j]).s];
          j := j + 1;
        }
        assert ids == InitPath(s.items, order, hasCycles);
        s.SetNavigationPath(ids);
      }
    }

    /** The item loop of `_initialize_questionnaire`, until a
        `to_outcome()` raises. */
    static method InitializeItems(s: QuestionnaireState, outcomeOf: nat -> Stored, vars: Dict) returns (raised: Option<P.ProxyError>)
      modifies s
      ensures (s.items, raised) == InitItems(old(s.items), outcomeOf, vars)
      ensures s.navigationPath == old(s.navigationPath) && s.history == old(s.history) && s.warnings == old(s.warnings)
      ensures s.StaticKept()
    {
      var items;
      items, raised := WriteInitItems(s.items, outcomeOf, vars);
      s.items := items;
    }
  }

  /** The outcome loop of `process_item` over the items: each item in
      turn takes what its proxy's `to_outcome()` gives, until one raises. */
  method WriteOutcomes(items0: seq<Dict>, outcomeOf: nat -> Stored) returns (items: seq<Dict>, raised: Option<P.ProxyError>)
    ensures (items, raised) == Outcomes(items0, outcomeOf)
  {
    items := items0;
    var j := 0;
    while j < |items| && outcomeOf(j).Ok?
      invariant 0 <= j <= |items| == |items0|
      invariant forall k :: 0 <= k < j ==> outcomeOf(k).Ok? && items[k] == Updated(items0[k], outcomeOf(k).value)
      invariant forall k :: j <= k < |items| ==> items[k] == items0[k]
    {
      items := items[j := Updated(items[j], outcomeOf(j).value)];
      j := j + 1;
    }
    OutcomesStop(items0, outcomeOf, items, j);
    raised := if j < |items| then Some(outcomeOf(j).error) else None;
  }

  /** The item loop of `_initialize_questionnaire` over the items: each
      item in turn takes its proxy's stored outcome, `visited` false and
      the variables as context, until a `to_outcome()` raises. */
  method WriteInitItems(items0: seq<Dict>, outcomeOf: nat -> Stored, vars: Dict) returns (items: seq<Dict>, raised: Option<P.ProxyError>)
    ensures (items, raised) == InitItems(items0, outcomeOf, vars)
  {
    items := items0;
    var j := 0;
    while j < |items| && outcomeOf(j).Ok?
      invariant 0 <= j <= |items| == |items0|
      invariant forall k :: 0 <= k < j ==> outcomeOf(k).Ok? && items[k] == InitItem(items0[k], outcomeOf(k).value, vars)
      invariant forall k :: j <= k < |items| ==> items[k] == items0[k]
    {
      items := items[j := InitItem(items[j], outcomeOf(j).value, vars)];
      j := j + 1;
    }
    InitItemsStop(items0, outcomeOf, vars, items, j);
    raised := if j < |items| then Some(outcomeOf(j).error) else None;
  }

  /** The proxy loop: `ItemProxy(item)` for each item in turn, then
      `from_outcome(outcome)` on the proxy of an item with the submitted
      id. */
  method BuildProxies(items: seq<Dict>, submitted: Option<(string, Json)>) returns (e: Option<P.ProxyError>)
    ensures e == ProxiesFailure(items, submitted)
  {
    var i := 0;
    while i < |items|
      invariant 0 <= i <= |items|
      invariant forall k :: 0 <= k < i ==> ItemFailure(items[k], submitted).None?
    {
      var f := ProxyPass(items[i], submitted);
      if f.Some? {
        FirstFailure(items, submitted, i);
        return f;
      }
      i := i + 1;
    }
    return None;
  }

  /** One pass of the proxy loop: `ItemProxy(item)`, then `from_outcome`
      of the submitted outcome when the item has the submitted id. */
  method ProxyPass(item: Dict, submitted: Option<(string, Json)>) returns (e: Option<P.ProxyError>)
    ensures e == ItemFailure(item, submitted)
  {
    var p := P.NewProxy(item);
    if p.Err? {
      return Some(p.error);
    }
    if submitted.Some? && IdOf(item) == JStr(submitted.value.0) {
      var r := p.value.FromOutcome(submitted.value.1);
      if r.Err? {
        return Some(r.error);
      }
    }
    return None;
  }

  /** Storing the proxies into a copy of `context`: when it is not a
      dictionary, the first store raises. */
  method BuildContext(context: Json, items: seq<Dict>, submitted: Option<(string, Json)>) returns (e: Option<P.ProxyError>)
    ensures e == ContextFailure(context, items, submitted)
  {
    if context.JDict? || |items| == 0 {
      e := BuildProxies(items, submitted);
      return;
    }
    e := BuildProxies(items[..1], submitted);
    assert items[..1][0] == items[0] && items[..1][1..] == [];
    if e.None? {
      e := Some(P.TypeError);
    }
  }

  /** The item loop of the propagation: each variable written into the
      context in turn. */
  method PropagateInto(ctx: Dict, vars: Dict) returns (r: Dict)
    ensures r == PutAll(ctx, vars)
  {
    r := ctx;
    var i := 0;
    while i < |vars|
      invariant 0 <= i <= |vars| && r == PutAll(ctx, vars[..i])
    {
      ghost var pre := vars[..i + 1];
      assert pre[..i] == vars[..i] && pre[i] == vars[i];
      assert PutAll(ctx, pre) == Put(PutAll(ctx, vars[..i]), vars[i].0, vars[i].1);
      r := Put(r, vars[i].0, vars[i].1);
      i := i + 1;
    }
    assert vars[..i] == vars;
  }

  /** One pass of the propagation loop: a later item with another id
      receives the variables into its context. */
  method PropagateAt(item: Dict, j: nat, cur: nat, id: string, vars: Dict) returns (r: Dict)
    ensures r == PropagatedAt(item, j, cur, id, vars)
  {
    r := item;
    if IdOf(item) != JStr(id) && j > cur {
      var ctx := PropagateInto(ContextOf(item), vars);
      r := Put(item, "context", JDict(ctx));
    }
  }

  /** Propagation writes every variable, the last write of a name winning,
      and keeps the other entries. */
  lemma {:induction false} PutAllMeaning(ctx: Dict, vars: Dict, k: string)
    ensures Get(PutAll(ctx, vars), k) == if HasKey(vars, k) then Get(PutAll([], vars), k) else Get(ctx, k)
    decreases |vars|
  {
    if |vars| > 0 {
      var n := |vars| - 1;
      PutAllMeaning(ctx, vars[..n], k);
      PutAllMeaning([], vars[..n], k);
      HasKeyLast(vars, k);
    }
  }

  /** No failing condition: none is found. */
  lemma FirstFailingNone(rn: Runner, conds: seq<Json>, ctx: Dict, items: seq<Dict>)
    requires AllHold(rn, conds, |conds|, ctx, items)
    ensures FirstFailing(rn, conds, ctx, items) == None
  {
  }

  /** The first `n` conditions hold. */
  predicate AllHold(rn: Runner, conds: seq<Json>, n: nat, ctx: Dict, items: seq<Dict>)
    requires n <= |conds|
  {
    forall j :: 0 <= j < n ==> Holds(rn, PredicateOf(conds[j]), ctx, items)
  }

  /** One more condition that holds. */
  lemma AllHoldStep(rn: Runner, conds: seq<Json>, n: nat, ctx: Dict, items: seq<Dict>)
    requires n < |conds| && AllHold(rn, conds, n, ctx, items) && Holds(rn, PredicateOf(conds[n]), ctx, items)
    ensures AllHold(rn, conds, n + 1, ctx, items)
  {
  }

  /** The first failing condition is found where the loop stops. */
  lemma {:induction false} FirstFailingAt(rn: Runner, conds: seq<Json>, ctx: Dict, items: seq<Dict>, i: nat)
    requires i < |conds| && !Holds(rn, PredicateOf(conds[i]), ctx, items) && AllHold(rn, conds, i, ctx, items)
    ensures FirstFailing(rn, conds, ctx, items) == Some(i)
  {
  }
}

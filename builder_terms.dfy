/** The translators of `StaticBuilder`: `_get_current_z3_var`, `_ast_to_z3`
    and `_ast_to_z3_bool`, as functions threading the builder's SSA state
    (`version_map` and the names of `z3_vars`), since reading a name that
    was never assigned creates its version 0. */
module BuilderTerms {
  import opened Wrappers
  import opened Smt
  import opened Strings
  import A = PyAst

  /** `f"{var_name}_{version}"`. */
  function SsaName(x: string, v: nat): string {
    x + "_" + NatToStr(v)
  }

  /** `Int(f"item_{item_id}")`. */
  function ItemVar(id: string): IntTerm {
    IVar("item_" + id)
  }

  /** `version_map` and the keys of `z3_vars` (each key names the z3
      integer constant stored under it). */
  datatype Ssa = Ssa(versionMap: map<string, nat>, z3Vars: set<string>)

  /** Every current version has its z3 variable. */
  predicate Coherent(st: Ssa) {
    forall x :: x in st.versionMap ==> SsaName(x, st.versionMap[x]) in st.z3Vars
  }

  /** The name of the variable a name denotes: the item's outcome
      variable, else the current version, else version 0. */
  function VarName(vm: map<string, nat>, itemIds: set<string>, x: string): string {
    if x in itemIds then "item_" + x
    else if x in vm then SsaName(x, vm[x])
    else SsaName(x, 0)
  }

  function Lookup(vm: map<string, nat>, itemIds: set<string>, x: string): IntTerm {
    IVar(VarName(vm, itemIds, x))
  }

  /** The variables the names `ns` denote. */
  function VarsOf(ns: set<string>, vm: map<string, nat>, itemIds: set<string>): set<string> {
    set x | x in ns :: VarName(vm, itemIds, x)
  }

  /** `st2` is `st1` plus version-0 entries for names `st1` did not know,
      and perhaps more variables. */
  predicate Grows(st1: Ssa, st2: Ssa) {
    st1.z3Vars <= st2.z3Vars &&
    (forall x :: x in st1.versionMap ==> x in st2.versionMap && st2.versionMap[x] == st1.versionMap[x]) &&
    (forall x :: x in st2.versionMap && x !in st1.versionMap ==> st2.versionMap[x] == 0)
  }

  /** Growing never changes what a name denotes. */
  lemma GrowsLookup(st1: Ssa, st2: Ssa, itemIds: set<string>, x: string)
    requires Grows(st1, st2)
    ensures VarName(st1.versionMap, itemIds, x) == VarName(st2.versionMap, itemIds, x)
  {
  }

  lemma GrowsVarsOf(st1: Ssa, st2: Ssa, itemIds: set<string>, ns: set<string>)
    requires Grows(st1, st2)
    ensures VarsOf(ns, st1.versionMap, itemIds) == VarsOf(ns, st2.versionMap, itemIds)
  {
    forall x | x in ns {
      GrowsLookup(st1, st2, itemIds, x);
    }
  }

  lemma GrowsTrans(st1: Ssa, st2: Ssa, st3: Ssa)
    requires Grows(st1, st2) && Grows(st2, st3)
    ensures Grows(st1, st3)
  {
  }

  /** Two states in which every name denotes the same variable. */
  ghost predicate SameLookup(st1: Ssa, st2: Ssa, itemIds: set<string>) {
    forall x :: VarName(st1.versionMap, itemIds, x) == VarName(st2.versionMap, itemIds, x)
  }

  /** States that denote alike keep doing so as both grow. */
  lemma SameAfterGrowth(st1: Ssa, st1': Ssa, st2: Ssa, st2': Ssa, itemIds: set<string>)
    requires SameLookup(st1, st2, itemIds) && Grows(st1, st1') && Grows(st2, st2')
    ensures SameLookup(st1', st2', itemIds)
  {
    forall x ensures VarName(st1'.versionMap, itemIds, x) == VarName(st2'.versionMap, itemIds, x) {
      GrowsLookup(st1, st1', itemIds, x);
      GrowsLookup(st2, st2', itemIds, x);
    }
  }

  /** `_get_current_z3_var(name)`: `None` only when the current version has
      no stored variable, which a coherent state rules out. */
  function CurrentVar(st: Ssa, itemIds: set<string>, x: string): (r: (Option<IntTerm>, Ssa))
    ensures Coherent(st) ==> r.0 == Some(Lookup(st.versionMap, itemIds, x)) && Coherent(r.1)
    ensures Grows(st, r.1)
    ensures x !in itemIds && x !in st.versionMap ==> r.1.versionMap == st.versionMap[x := 0]
    ensures x in itemIds || x in st.versionMap ==> r.1 == st
  {
    if x in itemIds then (Some(ItemVar(x)), st)
    else if x in st.versionMap then
      var name := SsaName(x, st.versionMap[x]);
      (if name in st.z3Vars then Some(IVar(name)) else None, st)
    else
      (Some(IVar(SsaName(x, 0))), Ssa(st.versionMap[x := 0], st.z3Vars + {SsaName(x, 0)}))
  }

  /** `BinOp`s `_ast_to_z3` handles: `/` is z3's integer division. */
  function ArithOf(op: A.BinOperator, l: IntTerm, r: IntTerm): Option<IntTerm> {
    match op
    case OpAdd => Some(Add(l, r))
    case OpSub => Some(Sub(l, r))
    case OpMult => Some(Mul(l, r))
    case OpDiv => Some(Div(l, r))
    case OpMod => Some(Mod(l, r))
    case _ => None
  }

  /** The comparisons `_ast_to_z3_bool` handles. */
  function CmpOf(op: A.CmpOperator): Option<Cmp> {
    match op
    case CEq => Some(Eq)
    case CNotEq => Some(Ne)
    case CLt => Some(Lt)
    case CLtE => Some(Le)
    case CGt => Some(Gt)
    case CGtE => Some(Ge)
    case _ => None
  }

  /** `_ast_to_z3(node)`: `hash` is Python's string hash. */
  function ToInt(e: A.Expr, st: Ssa, itemIds: set<string>, hash: string -> int): (Option<IntTerm>, Ssa)
    decreases e, 0
  {
    match e
    case Const(c) =>
      (match c
       case CBool(b) => Some(IConst(if b then 1 else 0))
       case CInt(i) => Some(IConst(i))
       case CStr(s) => Some(IConst(hash(s) % 1000000))
       case COther => None, st)
    case Name(x) => CurrentVar(st, itemIds, x)
    case Attribute(o, attr) =>
      if o.Name? && attr == "outcome" && o.id in itemIds then (Some(ItemVar(o.id)), st) else (None, st)
    case BinOp(l, op, r) =>
      var (lt, st1) := ToInt(l, st, itemIds, hash);
      var (rt, st2) := ToInt(r, st1, itemIds, hash);
      (if lt.Some? && rt.Some? then ArithOf(op, lt.value, rt.value) else None, st2)
    case UnaryOp(uop, x) =>
      var (t, st1) := ToInt(x, st, itemIds, hash);
      (if t.None? then None
       else match uop
         case USub => Some(Neg(t.value))
         case UAdd => t
         case _ => None, st1)
    case IfExp(c, b, o) =>
      var (ct, st1) := ToBool(c, st, itemIds, hash);
      var (bt, st2) := ToInt(b, st1, itemIds, hash);
      var (ot, st3) := ToInt(o, st2, itemIds, hash);
      (if ct.Some? && bt.Some? && ot.Some? then Some(Ite(ct.value, bt.value, ot.value)) else None, st3)
    case _ => (None, st)
  }

  /** The operands of an `and`/`or` that compile, in order. */
  function ToBoolAll(vs: seq<A.Expr>, st: Ssa, itemIds: set<string>, hash: string -> int): (seq<BoolTerm>, Ssa)
    decreases vs
  {
    if |vs| == 0 then ([], st)
    else
      var (t, st1) := ToBool(vs[0], st, itemIds, hash);
      var (ts, st2) := ToBoolAll(vs[1..], st1, itemIds, hash);
      ((if t.Some? then [t.value] else []) + ts, st2)
  }

  /** `None` for no clause, the clause itself for one, `join` of all for
      more. */
  function Clauses(ts: seq<BoolTerm>, conj: bool): Option<BoolTerm> {
    if |ts| == 0 then None
    else if |ts| == 1 then Some(ts[0])
    else Some(if conj then AndAll(ts) else OrAll(ts))
  }

  /** The fallback of `_ast_to_z3_bool`: a number is true when non-zero. */
  function Truthy(p: (Option<IntTerm>, Ssa)): (Option<BoolTerm>, Ssa) {
    (if p.0.Some? then Some(Compare(Ne, p.0.value, IConst(0))) else None, p.1)
  }

  /** `_ast_to_z3_bool(node)`: comparisons, `and`/`or`, `not` and boolean
      literals directly; anything else through `_ast_to_z3` and `!= 0`
      (`_ast_to_z3` never yields a z3 boolean). */
  function ToBool(e: A.Expr, st: Ssa, itemIds: set<string>, hash: string -> int): (Option<BoolTerm>, Ssa)
    decreases e, 1
  {
    match e
    case Compare(l, ops, cs) =>
      if |ops| == 1 && |cs| == 1 then
        var (lt, st1) := ToInt(l, st, itemIds, hash);
        var (rt, st2) := ToInt(cs[0], st1, itemIds, hash);
        (if lt.Some? && rt.Some? && CmpOf(ops[0]).Some? then Some(Compare(CmpOf(ops[0]).value, lt.value, rt.value)) else None, st2)
      else (None, st)
    case BoolOp(bop, vs) =>
      var (ts, st1) := ToBoolAll(vs, st, itemIds, hash);
      (Clauses(ts, bop == A.OpAnd), st1)
    case UnaryOp(uop, x) =>
      if uop.UNot? then
        var (t, st1) := ToBool(x, st, itemIds, hash);
        (if t.Some? then Some(Not(t.value)) else None, st1)
      else Truthy(ToInt(e, st, itemIds, hash))
    case Const(c) =>
      if c.CBool? then (Some(BConst(c.b)), st) else Truthy(ToInt(e, st, itemIds, hash))
    case _ => Truthy(ToInt(e, st, itemIds, hash))
  }

  // ---------------------------------------------------------------------
  // What a translation does to the state and which variables it mentions.

  /** Names that gained a version are no item ids. */
  predicate NewKeysOutside(st1: Ssa, st2: Ssa, itemIds: set<string>) {
    forall x :: x in st2.versionMap && x !in st1.versionMap ==> x !in itemIds
  }

  /** `_ast_to_z3(e)` keeps the state coherent, only adds version-0
      entries for names that are no item ids, and mentions only the
      variables of the names `e` reads. */
  ghost predicate IntOk(e: A.Expr, st: Ssa, itemIds: set<string>, hash: string -> int) {
    var r := ToInt(e, st, itemIds, hash);
    Grows(st, r.1) && Coherent(r.1) && NewKeysOutside(st, r.1, itemIds) &&
    (r.0.Some? ==> NamesI(r.0.value) <= VarsOf(A.NamesIn(e), st.versionMap, itemIds))
  }

  ghost predicate BoolOk(e: A.Expr, st: Ssa, itemIds: set<string>, hash: string -> int) {
    var r := ToBool(e, st, itemIds, hash);
    Grows(st, r.1) && Coherent(r.1) && NewKeysOutside(st, r.1, itemIds) &&
    (r.0.Some? ==> NamesB(r.0.value) <= VarsOf(A.NamesIn(e), st.versionMap, itemIds))
  }

  ghost predicate AllOk(vs: seq<A.Expr>, st: Ssa, itemIds: set<string>, hash: string -> int) {
    var r := ToBoolAll(vs, st, itemIds, hash);
    Grows(st, r.1) && Coherent(r.1) && NewKeysOutside(st, r.1, itemIds) &&
    (forall i :: 0 <= i < |r.0| ==> NamesB(r.0[i]) <= VarsOf(A.NamesInAll(vs), st.versionMap, itemIds))
  }

  lemma {:induction false} AndAllNames(ts: seq<BoolTerm>, names: set<string>)
    requires forall i :: 0 <= i < |ts| ==> NamesB(ts[i]) <= names
    ensures NamesB(AndAll(ts)) <= names && NamesB(OrAll(ts)) <= names
    decreases |ts|
  {
    if |ts| > 1 {
      AndAllNames(ts[1..], names);
    }
  }

  lemma {:induction false} IntFacts(e: A.Expr, st: Ssa, itemIds: set<string>, hash: string -> int)
    requires Coherent(st)
    ensures IntOk(e, st, itemIds, hash)
    decreases e, 0
  {
    match e
    case Const(c) =>
    case Name(x) =>
    case Attribute(o, attr) =>
    case BinOp(l, op, r) =>
      IntFacts(l, st, itemIds, hash);
      IntFacts(r, ToInt(l, st, itemIds, hash).1, itemIds, hash);
      BinOpOk(l, op, r, st, itemIds, hash);
    case UnaryOp(uop, x) =>
      IntFacts(x, st, itemIds, hash);
    case IfExp(c, b, o) =>
      var st1 := ToBool(c, st, itemIds, hash).1;
      BoolFacts(c, st, itemIds, hash);
      IntFacts(b, st1, itemIds, hash);
      IntFacts(o, ToInt(b, st1, itemIds, hash).1, itemIds, hash);
      IfExpOk(c, b, o, st, itemIds, hash);
    case _ =>
  }

  /** The `BinOp` step of `IntFacts`, from the facts for its operands. */
  lemma BinOpOk(l: A.Expr, op: A.BinOperator, r: A.Expr, st: Ssa, itemIds: set<string>, hash: string -> int)
    requires Coherent(st) && IntOk(l, st, itemIds, hash)
    requires IntOk(r, ToInt(l, st, itemIds, hash).1, itemIds, hash)
    ensures IntOk(A.BinOp(l, op, r), st, itemIds, hash)
  {
    var st1 := ToInt(l, st, itemIds, hash).1;
    GrowsVarsOf(st, st1, itemIds, A.NamesIn(r));
    GrowsTrans(st, st1, ToInt(r, st1, itemIds, hash).1);
  }

  /** The `IfExp` step of `IntFacts`, from the facts for its parts. */
  lemma IfExpOk(c: A.Expr, b: A.Expr, o: A.Expr, st: Ssa, itemIds: set<string>, hash: string -> int)
    requires Coherent(st) && BoolOk(c, st, itemIds, hash)
    requires IntOk(b, ToBool(c, st, itemIds, hash).1, itemIds, hash)
    requires IntOk(o, ToInt(b, ToBool(c, st, itemIds, hash).1, itemIds, hash).1, itemIds, hash)
    ensures IntOk(A.IfExp(c, b, o), st, itemIds, hash)
  {
    var (ct, st1) := ToBool(c, st, itemIds, hash);
    var (bt, st2) := ToInt(b, st1, itemIds, hash);
    var (ot, st3) := ToInt(o, st2, itemIds, hash);
    var e := A.IfExp(c, b, o);
    assert ToInt(e, st, itemIds, hash) == (if ct.Some? && bt.Some? && ot.Some? then Some(Ite(ct.value, bt.value, ot.value)) else None, st3);
    GrowsVarsOf(st, st1, itemIds, A.NamesIn(b));
    GrowsTrans(st, st1, st2);
    GrowsVarsOf(st, st2, itemIds, A.NamesIn(o));
    GrowsTrans(st, st2, st3);
    NewKeysTrans(st, st1, st2, itemIds);
    NewKeysTrans(st, st2, st3, itemIds);
    if ct.Some? && bt.Some? && ot.Some? {
      IteNames(c, b, o, ct.value, bt.value, ot.value, st.versionMap, itemIds);
    }
  }

  lemma IteNames(c: A.Expr, b: A.Expr, o: A.Expr, ct: BoolTerm, bt: IntTerm, ot: IntTerm, vm: map<string, nat>, itemIds: set<string>)
    requires NamesB(ct) <= VarsOf(A.NamesIn(c), vm, itemIds)
    requires NamesI(bt) <= VarsOf(A.NamesIn(b), vm, itemIds)
    requires NamesI(ot) <= VarsOf(A.NamesIn(o), vm, itemIds)
    ensures NamesI(Ite(ct, bt, ot)) <= VarsOf(A.NamesIn(A.IfExp(c, b, o)), vm, itemIds)
  {
    VarsOfUnion(A.NamesIn(c), A.NamesIn(b), vm, itemIds);
    VarsOfUnion(A.NamesIn(c) + A.NamesIn(b), A.NamesIn(o), vm, itemIds);
  }

  lemma NewKeysTrans(st1: Ssa, st2: Ssa, st3: Ssa, itemIds: set<string>)
    requires Grows(st1, st2) && NewKeysOutside(st1, st2, itemIds) && NewKeysOutside(st2, st3, itemIds)
    ensures NewKeysOutside(st1, st3, itemIds)
  {
  }

  lemma VarsOfUnion(a: set<string>, b: set<string>, vm: map<string, nat>, itemIds: set<string>)
    ensures VarsOf(a + b, vm, itemIds) == VarsOf(a, vm, itemIds) + VarsOf(b, vm, itemIds)
  {
  }

  lemma {:induction false} BoolFacts(e: A.Expr, st: Ssa, itemIds: set<string>, hash: string -> int)
    requires Coherent(st)
    ensures BoolOk(e, st, itemIds, hash)
    decreases e, 1
  {
    match e
    case Compare(l, ops, cs) =>
      if |ops| == 1 && |cs| == 1 {
        var (lt, st1) := ToInt(l, st, itemIds, hash);
        IntFacts(l, st, itemIds, hash);
        IntFacts(cs[0], st1, itemIds, hash);
        GrowsVarsOf(st, st1, itemIds, A.NamesIn(cs[0]));
        GrowsTrans(st, st1, ToInt(cs[0], st1, itemIds, hash).1);
      }
    case BoolOp(bop, vs) =>
      AllFacts(vs, st, itemIds, hash);
      AndAllNames(ToBoolAll(vs, st, itemIds, hash).0, VarsOf(A.NamesIn(e), st.versionMap, itemIds));
    case UnaryOp(uop, x) =>
      if uop.UNot? {
        BoolFacts(x, st, itemIds, hash);
      } else {
        IntFacts(e, st, itemIds, hash);
      }
    case Const(c) =>
      IntFacts(e, st, itemIds, hash);
    case _ =>
      IntFacts(e, st, itemIds, hash);
  }

  lemma {:induction false} AllFacts(vs: seq<A.Expr>, st: Ssa, itemIds: set<string>, hash: string -> int)
    requires Coherent(st)
    ensures AllOk(vs, st, itemIds, hash)
    decreases vs
  {
    if |vs| > 0 {
      var (t, st1) := ToBool(vs[0], st, itemIds, hash);
      BoolFacts(vs[0], st, itemIds, hash);
      AllFacts(vs[1..], st1, itemIds, hash);
      GrowsVarsOf(st, st1, itemIds, A.NamesInAll(vs[1..]));
      GrowsTrans(st, st1, ToBoolAll(vs[1..], st1, itemIds, hash).1);
    }
  }

  // ---------------------------------------------------------------------
  // A translation depends only on what each name denotes, so the order in
  // which the builder translates constraints does not matter.

  lemma {:induction false} IntAlike(e: A.Expr, st1: Ssa, st2: Ssa, itemIds: set<string>, hash: string -> int)
    requires Coherent(st1) && Coherent(st2) && SameLookup(st1, st2, itemIds)
    ensures ToInt(e, st1, itemIds, hash).0 == ToInt(e, st2, itemIds, hash).0
    decreases e, 0
  {
    match e
    case Const(c) =>
    case Name(x) =>
      assert VarName(st1.versionMap, itemIds, x) == VarName(st2.versionMap, itemIds, x);
    case Attribute(o, attr) =>
    case BinOp(l, op, r) =>
      IntAlike(l, st1, st2, itemIds, hash);
      IntFacts(l, st1, itemIds, hash);
      IntFacts(l, st2, itemIds, hash);
      var st1', st2' := ToInt(l, st1, itemIds, hash).1, ToInt(l, st2, itemIds, hash).1;
      SameAfterGrowth(st1, st1', st2, st2', itemIds);
      IntAlike(r, st1', st2', itemIds, hash);
    case UnaryOp(uop, x) =>
      IntAlike(x, st1, st2, itemIds, hash);
    case IfExp(c, b, o) =>
      BoolAlike(c, st1, st2, itemIds, hash);
      BoolFacts(c, st1, itemIds, hash);
      BoolFacts(c, st2, itemIds, hash);
      var s1, s2 := ToBool(c, st1, itemIds, hash).1, ToBool(c, st2, itemIds, hash).1;
      SameAfterGrowth(st1, s1, st2, s2, itemIds);
      IntAlike(b, s1, s2, itemIds, hash);
      IntFacts(b, s1, itemIds, hash);
      IntFacts(b, s2, itemIds, hash);
      var t1, t2 := ToInt(b, s1, itemIds, hash).1, ToInt(b, s2, itemIds, hash).1;
      SameAfterGrowth(s1, t1, s2, t2, itemIds);
      IntAlike(o, t1, t2, itemIds, hash);
    case _ =>
  }

  lemma {:induction false} BoolAlike(e: A.Expr, st1: Ssa, st2: Ssa, itemIds: set<string>, hash: string -> int)
    requires Coherent(st1) && Coherent(st2) && SameLookup(st1, st2, itemIds)
    ensures ToBool(e, st1, itemIds, hash).0 == ToBool(e, st2, itemIds, hash).0
    decreases e, 1
  {
    match e
    case Compare(l, ops, cs) =>
      if |ops| == 1 && |cs| == 1 {
        IntAlike(l, st1, st2, itemIds, hash);
        IntFacts(l, st1, itemIds, hash);
        IntFacts(l, st2, itemIds, hash);
        var st1', st2' := ToInt(l, st1, itemIds, hash).1, ToInt(l, st2, itemIds, hash).1;
        SameAfterGrowth(st1, st1', st2, st2', itemIds);
        IntAlike(cs[0], st1', st2', itemIds, hash);
      }
    case BoolOp(bop, vs) =>
      AllAlike(vs, st1, st2, itemIds, hash);
    case UnaryOp(uop, x) =>
      if uop.UNot? {
        BoolAlike(x, st1, st2, itemIds, hash);
      } else {
        IntAlike(e, st1, st2, itemIds, hash);
      }
    case Const(c) =>
      IntAlike(e, st1, st2, itemIds, hash);
    case _ =>
      IntAlike(e, st1, st2, itemIds, hash);
  }

  lemma {:induction false} AllAlike(vs: seq<A.Expr>, st1: Ssa, st2: Ssa, itemIds: set<string>, hash: string -> int)
    requires Coherent(st1) && Coherent(st2) && SameLookup(st1, st2, itemIds)
    ensures ToBoolAll(vs, st1, itemIds, hash).0 == ToBoolAll(vs, st2, itemIds, hash).0
    decreases vs
  {
    if |vs| > 0 {
      BoolAlike(vs[0], st1, st2, itemIds, hash);
      BoolFacts(vs[0], st1, itemIds, hash);
      BoolFacts(vs[0], st2, itemIds, hash);
      var st1', st2' := ToBool(vs[0], st1, itemIds, hash).1, ToBool(vs[0], st2, itemIds, hash).1;
      SameAfterGrowth(st1, st1', st2, st2', itemIds);
      AllAlike(vs[1..], st1', st2', itemIds, hash);
    }
  }

  lemma SameLookupRefl(st: Ssa, itemIds: set<string>)
    ensures SameLookup(st, st, itemIds)
  {
  }

  /** Translating `e1` first leaves the translation of `e2` as it was. */
  lemma TranslationOrderFree(e1: A.Expr, e2: A.Expr, st: Ssa, itemIds: set<string>, hash: string -> int)
    requires Coherent(st)
    ensures ToBool(e2, ToBool(e1, st, itemIds, hash).1, itemIds, hash).0 == ToBool(e2, st, itemIds, hash).0
  {
    var st' := ToBool(e1, st, itemIds, hash).1;
    BoolFacts(e1, st, itemIds, hash);
    SameLookupRefl(st, itemIds);
    SameAfterGrowth(st, st', st, st, itemIds);
    BoolAlike(e2, st', st, itemIds, hash);
  }

  // ---------------------------------------------------------------------
  // Meaning of the translated connectives.

  /** The operands that translate, each translated on its own. */
  function EachCompiled(vs: seq<A.Expr>, st: Ssa, itemIds: set<string>, hash: string -> int): seq<BoolTerm>
    decreases vs
  {
    if |vs| == 0 then []
    else
      var t := ToBool(vs[0], st, itemIds, hash).0;
      (if t.Some? then [t.value] else []) + EachCompiled(vs[1..], st, itemIds, hash)
  }

  lemma {:induction false} EachCompiledMembers(vs: seq<A.Expr>, st: Ssa, itemIds: set<string>, hash: string -> int)
    ensures forall t :: t in EachCompiled(vs, st, itemIds, hash) <==>
      exists i :: 0 <= i < |vs| && ToBool(vs[i], st, itemIds, hash).0 == Some(t)
    ensures |EachCompiled(vs, st, itemIds, hash)| == 0 <==>
      forall i :: 0 <= i < |vs| ==> ToBool(vs[i], st, itemIds, hash).0.None?
    decreases vs
  {
    if |vs| > 0 {
      EachCompiledMembers(vs[1..], st, itemIds, hash);
      assert forall i :: 1 <= i < |vs| ==> vs[1..][i - 1] == vs[i];
      forall t | (exists i :: 0 <= i < |vs| && ToBool(vs[i], st, itemIds, hash).0 == Some(t))
        ensures t in EachCompiled(vs, st, itemIds, hash)
      {
        var i :| 0 <= i < |vs| && ToBool(vs[i], st, itemIds, hash).0 == Some(t);
        if i > 0 {
          assert vs[1..][i - 1] == vs[i];
        }
      }
      forall t | t in EachCompiled(vs[1..], st, itemIds, hash)
        ensures exists i :: 0 <= i < |vs| && ToBool(vs[i], st, itemIds, hash).0 == Some(t)
      {
        var i :| 0 <= i < |vs[1..]| && ToBool(vs[1..][i], st, itemIds, hash).0 == Some(t);
        assert vs[1..][i] == vs[i + 1];
      }
    }
  }

  /** Translating the operands left to right, each in the state the
      previous one left, gives what translating each alone gives. */
  lemma {:induction false} ToBoolAllEach(vs: seq<A.Expr>, st: Ssa, itemIds: set<string>, hash: string -> int)
    requires Coherent(st)
    ensures ToBoolAll(vs, st, itemIds, hash).0 == EachCompiled(vs, st, itemIds, hash)
    decreases vs
  {
    if |vs| > 0 {
      var st1 := ToBool(vs[0], st, itemIds, hash).1;
      BoolFacts(vs[0], st, itemIds, hash);
      SameLookupRefl(st, itemIds);
      SameAfterGrowth(st, st1, st, st, itemIds);
      AllAlike(vs[1..], st1, st, itemIds, hash);
      ToBoolAllEach(vs[1..], st, itemIds, hash);
    }
  }

  /** `None` exactly for no clause; otherwise the conjunction or the
      disjunction of the clauses. */
  lemma ClausesMeaning(ts: seq<BoolTerm>, conj: bool, m: Model)
    ensures Clauses(ts, conj).None? <==> |ts| == 0
    ensures Clauses(ts, conj).Some? ==> (Holds(Clauses(ts, conj).value, m) <==>
      if conj then forall t :: t in ts ==> Holds(t, m) else exists t :: t in ts && Holds(t, m))
  {
    if |ts| > 1 {
      if conj {
        if forall t :: t in ts ==> Holds(t, m) {
          forall i | 0 <= i < |ts| ensures Holds(ts[i], m) {
            assert ts[i] in ts;
          }
        }
      } else {
        if Holds(OrAll(ts), m) {
          var i :| 0 <= i < |ts| && Holds(ts[i], m);
          assert ts[i] in ts;
        }
        if exists t :: t in ts && Holds(t, m) {
          var t :| t in ts && Holds(t, m);
          var i :| 0 <= i < |ts| && ts[i] == t;
        }
      }
    }
  }

  /** An `and`/`or` translates unless none of its operands does. */
  lemma BoolOpTranslates(bop: A.BoolOperator, vs: seq<A.Expr>, st: Ssa, itemIds: set<string>, hash: string -> int)
    requires Coherent(st)
    ensures ToBool(A.BoolOp(bop, vs), st, itemIds, hash).0.None? <==>
      forall i :: 0 <= i < |vs| ==> ToBool(vs[i], st, itemIds, hash).0.None?
  {
    var ts := ToBoolAll(vs, st, itemIds, hash).0;
    assert ToBool(A.BoolOp(bop, vs), st, itemIds, hash).0 == Clauses(ts, bop == A.OpAnd);
    ToBoolAllEach(vs, st, itemIds, hash);
    EachCompiledMembers(vs, st, itemIds, hash);
  }

  /** An `and`/`or` holds exactly when all / some of its operands that
      translate hold: operands that do not translate are dropped. */
  lemma BoolOpMeaning(bop: A.BoolOperator, vs: seq<A.Expr>, st: Ssa, itemIds: set<string>, hash: string -> int, m: Model)
    requires Coherent(st)
    ensures ToBool(A.BoolOp(bop, vs), st, itemIds, hash).0.Some? ==>
      (Holds(ToBool(A.BoolOp(bop, vs), st, itemIds, hash).0.value, m) <==>
        if bop == A.OpAnd then
          forall i :: 0 <= i < |vs| && ToBool(vs[i], st, itemIds, hash).0.Some? ==> Holds(ToBool(vs[i], st, itemIds, hash).0.value, m)
        else
          exists i :: 0 <= i < |vs| && ToBool(vs[i], st, itemIds, hash).0.Some? && Holds(ToBool(vs[i], st, itemIds, hash).0.value, m))
  {
    var ts := ToBoolAll(vs, st, itemIds, hash).0;
    assert ToBool(A.BoolOp(bop, vs), st, itemIds, hash).0 == Clauses(ts, bop == A.OpAnd);
    ToBoolAllEach(vs, st, itemIds, hash);
    EachCompiledMembers(vs, st, itemIds, hash);
    ClausesMeaning(ts, bop == A.OpAnd, m);
  }

  /** An item id, bare or as `id.outcome`, denotes the item's variable and
      leaves the state alone. */
  lemma ItemReference(id: string, st: Ssa, itemIds: set<string>, hash: string -> int)
    requires id in itemIds
    ensures ToInt(A.Name(id), st, itemIds, hash) == (Some(ItemVar(id)), st)
    ensures ToInt(A.Outcome(id), st, itemIds, hash) == (Some(ItemVar(id)), st)
  {
  }

  /** A name that is no item id denotes its current version, and is true
      in a condition exactly when that version is non-zero. */
  lemma NameTruthy(x: string, st: Ssa, itemIds: set<string>, hash: string -> int, m: Model)
    requires Coherent(st) && x !in itemIds
    ensures ToBool(A.Name(x), st, itemIds, hash).0.Some?
    ensures Holds(ToBool(A.Name(x), st, itemIds, hash).0.value, m) <==>
      m.ints(if x in st.versionMap then SsaName(x, st.versionMap[x]) else SsaName(x, 0)) != 0
  {
  }

  // ---------------------------------------------------------------------
  // Which expressions translate, independently of the state.

  /** The shapes `_ast_to_z3` turns into a term. */
  predicate IntTranslates(e: A.Expr, itemIds: set<string>)
    decreases e, 0
  {
    match e
    case Const(c) => !c.COther?
    case Name(_) => true
    case Attribute(o, attr) => o.Name? && attr == "outcome" && o.id in itemIds
    case BinOp(l, op, r) => IntTranslates(l, itemIds) && IntTranslates(r, itemIds) && op in {A.OpAdd, A.OpSub, A.OpMult, A.OpDiv, A.OpMod}
    case UnaryOp(uop, x) => IntTranslates(x, itemIds) && (uop == A.USub || uop == A.UAdd)
    case IfExp(c, b, o) => BoolTranslates(c, itemIds) && IntTranslates(b, itemIds) && IntTranslates(o, itemIds)
    case _ => false
  }

  /** The shapes `_ast_to_z3_bool` turns into a formula. */
  predicate BoolTranslates(e: A.Expr, itemIds: set<string>)
    decreases e, 1
  {
    match e
    case Compare(l, ops, cs) =>
      |ops| == 1 && |cs| == 1 && IntTranslates(l, itemIds) && IntTranslates(cs[0], itemIds) && ops[0] !in {A.CIn, A.COtherCmp}
    case BoolOp(_, vs) => exists i :: 0 <= i < |vs| && BoolTranslates(vs[i], itemIds)
    case UnaryOp(uop, x) => if uop == A.UNot then BoolTranslates(x, itemIds) else IntTranslates(e, itemIds)
    case Const(c) => c.CBool? || IntTranslates(e, itemIds)
    case _ => IntTranslates(e, itemIds)
  }

  /** In a coherent state an expression translates exactly when it has one
      of the shapes above, whatever the versions. */
  lemma {:induction false} IntTranslatesExactly(e: A.Expr, st: Ssa, itemIds: set<string>, hash: string -> int)
    requires Coherent(st)
    ensures ToInt(e, st, itemIds, hash).0.Some? <==> IntTranslates(e, itemIds)
    decreases e, 0
  {
    match e
    case Const(c) =>
    case Name(x) =>
    case Attribute(o, attr) =>
    case BinOp(l, op, r) =>
      IntTranslatesExactly(l, st, itemIds, hash);
      IntFacts(l, st, itemIds, hash);
      IntTranslatesExactly(r, ToInt(l, st, itemIds, hash).1, itemIds, hash);
    case UnaryOp(uop, x) =>
      IntTranslatesExactly(x, st, itemIds, hash);
    case IfExp(c, b, o) =>
      BoolTranslatesExactly(c, st, itemIds, hash);
      BoolFacts(c, st, itemIds, hash);
      var st1 := ToBool(c, st, itemIds, hash).1;
      IntTranslatesExactly(b, st1, itemIds, hash);
      IntFacts(b, st1, itemIds, hash);
      IntTranslatesExactly(o, ToInt(b, st1, itemIds, hash).1, itemIds, hash);
    case _ =>
  }

  lemma {:induction false} BoolTranslatesExactly(e: A.Expr, st: Ssa, itemIds: set<string>, hash: string -> int)
    requires Coherent(st)
    ensures ToBool(e, st, itemIds, hash).0.Some? <==> BoolTranslates(e, itemIds)
    decreases e, 1
  {
    match e
    case Compare(l, ops, cs) =>
      if |ops| == 1 && |cs| == 1 {
        IntTranslatesExactly(l, st, itemIds, hash);
        IntFacts(l, st, itemIds, hash);
        IntTranslatesExactly(cs[0], ToInt(l, st, itemIds, hash).1, itemIds, hash);
      }
    case BoolOp(bop, vs) =>
      ToBoolAllEach(vs, st, itemIds, hash);
      EachCompiledMembers(vs, st, itemIds, hash);
      forall i | 0 <= i < |vs| {
        BoolTranslatesExactly(vs[i], st, itemIds, hash);
      }
    case UnaryOp(uop, x) =>
      if uop.UNot? {
        BoolTranslatesExactly(x, st, itemIds, hash);
      } else {
        IntTranslatesExactly(e, st, itemIds, hash);
      }
    case Const(c) =>
      IntTranslatesExactly(e, st, itemIds, hash);
    case _ =>
      IntTranslatesExactly(e, st, itemIds, hash);
  }
}

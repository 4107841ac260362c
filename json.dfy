/** The stored form of questionnaire data: JSON-like values whose objects are
    Python dictionaries, kept as lists of entries in insertion order. */
module Json {
  import opened Wrappers

  datatype Json =
    | JNone
    | JInt(i: int)
    | JStr(s: string)
    | JBool(b: bool)
    | JList(l: seq<Json>)
    | JDict(d: seq<(string, Json)>)

  type Dict = seq<(string, Json)>

  /** A dictionary has each key once. */
  predicate Keyed(d: Dict) {
    forall i, j :: 0 <= i < j < |d| ==> d[i].0 != d[j].0
  }

  function KeysOf(d: Dict): (ks: seq<string>)
    ensures |ks| == |d| && forall i :: 0 <= i < |d| ==> ks[i] == d[i].0
  {
    seq(|d|, i requires 0 <= i < |d| => d[i].0)
  }

  predicate HasKey(d: Dict, k: string) {
    exists i :: 0 <= i < |d| && d[i].0 == k
  }

  /** `d.get(k)`, as an option. */
  function Get(d: Dict, k: string): (r: Option<Json>)
    ensures r.Some? <==> HasKey(d, k)
    ensures r.Some? ==> exists i :: 0 <= i < |d| && d[i] == (k, r.value)
    decreases |d|
  {
    if |d| == 0 then None
    else if d[0].0 == k then Some(d[0].1)
    else
      var r := Get(d[1..], k);
      assert HasKey(d, k) <==> HasKey(d[1..], k) by {
        if HasKey(d[1..], k) {
          var i :| 0 <= i < |d| - 1 && d[1..][i].0 == k;
          assert d[i + 1].0 == k;
        }
        if HasKey(d, k) {
          var i :| 0 <= i < |d| && d[i].0 == k;
          assert i > 0 && d[1..][i - 1].0 == k;
        }
      }
      if r.Some? then
        var i :| 0 <= i < |d| - 1 && d[1..][i] == (k, r.value);
        assert d[i + 1] == (k, r.value);
        r
      else r
  }

  /** The first key of a dictionary does not come again. */
  lemma {:induction false} FirstKeyNotLater(d: Dict)
    requires Keyed(d) && |d| > 0
    ensures !HasKey(d[1..], d[0].0)
  {
    forall j | 0 <= j < |d| - 1
      ensures d[1..][j].0 != d[0].0
    {
      assert d[1..][j] == d[j + 1];
    }
  }

  /** In a dictionary, an entry is what `Get` finds for its key. */
  lemma {:induction false} GetEntry(d: Dict, i: nat)
    requires Keyed(d) && i < |d|
    ensures Get(d, d[i].0) == Some(d[i].1)
    decreases i
  {
    if i > 0 {
      assert d[0].0 != d[i].0;
      assert d[1..][i - 1] == d[i];
      GetEntry(d[1..], i - 1);
    }
  }

  /** Looking up in a list with one more entry at the end: the earlier
      entries win. */
  lemma {:induction false} GetAppend(d: Dict, e: (string, Json), k: string)
    ensures Get(d + [e], k) == if HasKey(d, k) then Get(d, k) else if e.0 == k then Some(e.1) else None
    decreases |d|
  {
    if |d| > 0 {
      assert (d + [e])[1..] == d[1..] + [e];
      if d[0].0 != k {
        GetAppend(d[1..], e, k);
        assert HasKey(d, k) <==> HasKey(d[1..], k) by {
          if HasKey(d, k) {
            var i :| 0 <= i < |d| && d[i].0 == k;
            assert d[1..][i - 1].0 == k;
          }
          if HasKey(d[1..], k) {
            var i :| 0 <= i < |d| - 1 && d[1..][i].0 == k;
            assert d[i + 1].0 == k;
          }
        }
      }
    }
  }

  /** A key is in a non-empty dictionary iff it is in all but the last
      entry or is the last entry's. */
  lemma HasKeyLast(d: Dict, k: string)
    requires |d| > 0
    ensures HasKey(d, k) <==> HasKey(d[..|d| - 1], k) || d[|d| - 1].0 == k
  {
    var n := |d| - 1;
    if HasKey(d, k) && d[n].0 != k {
      var i :| 0 <= i < |d| && d[i].0 == k;
      assert d[..n][i].0 == k;
    }
    if HasKey(d[..n], k) {
      var i :| 0 <= i < n && d[..n][i].0 == k;
      assert d[i].0 == k;
    }
  }

  /** `d.get(k)` with the default `None`. */
  function GetOr(d: Dict, k: string): Json {
    match Get(d, k)
    case Some(v) => v
    case None => JNone
  }

  /** `d[k] = v`: an existing entry keeps its place, a new one goes last. */
  function Put(d: Dict, k: string, v: Json): (r: Dict)
    ensures |r| == if HasKey(d, k) then |d| else |d| + 1
    ensures Keyed(d) ==> Keyed(r)
    ensures Get(r, k) == Some(v)
    ensures forall k' :: k' != k ==> Get(r, k') == Get(d, k')
    decreases |d|
  {
    if |d| == 0 then [(k, v)]
    else if d[0].0 == k then [(k, v)] + d[1..]
    else
      var rest := Put(d[1..], k, v);
      assert HasKey(d, k) <==> HasKey(d[1..], k) by {
        if HasKey(d, k) {
          var i :| 0 <= i < |d| && d[i].0 == k;
          assert i > 0 && d[1..][i - 1].0 == k;
        }
      }
      assert Keyed(d) ==> !HasKey(rest, d[0].0) by {
        if Keyed(d) {
          FirstKeyNotLater(d);
          assert Get(rest, d[0].0) == Get(d[1..], d[0].0);
        }
      }
      [d[0]] + rest
  }

  /** Writing a key the dictionary lacks appends an entry. */
  lemma {:induction false} PutNew(d: Dict, k: string, v: Json)
    requires !HasKey(d, k)
    ensures Put(d, k, v) == d + [(k, v)]
    decreases |d|
  {
    if |d| > 0 {
      assert d[0].0 != k;
      PutNew(d[1..], k, v);
      assert Put(d, k, v) == [d[0]] + Put(d[1..], k, v);
      assert d + [(k, v)] == [d[0]] + (d[1..] + [(k, v)]);
    }
  }

  /** `d.pop(k, None)` / `del d[k]`: the entry goes, the others keep their
      order. */
  function Remove(d: Dict, k: string): (r: Dict)
    ensures Keyed(d) ==> Keyed(r)
    ensures Get(r, k) == None
    ensures forall k' :: k' != k ==> Get(r, k') == Get(d, k')
    ensures forall i :: 0 <= i < |r| ==> exists j :: 0 <= j < |d| && r[i] == d[j]
    decreases |d|
  {
    if |d| == 0 then []
    else if d[0].0 == k then Remove(d[1..], k)
    else
      var rest := Remove(d[1..], k);
      assert forall i :: 0 <= i < |rest| ==> exists j :: 0 <= j < |d| && rest[i] == d[j] by {
        forall i | 0 <= i < |rest| ensures exists j :: 0 <= j < |d| && rest[i] == d[j] {
          var j :| 0 <= j < |d| - 1 && rest[i] == d[1..][j];
          assert rest[i] == d[j + 1];
        }
      }
      assert Keyed(d) ==> !HasKey(rest, d[0].0) by {
        if Keyed(d) {
          FirstKeyNotLater(d);
        }
      }
      [d[0]] + rest
  }

  /** Python's truth value of a stored value. */
  predicate Truthy(j: Json) {
    match j
    case JNone => false
    case JInt(i) => i != 0
    case JStr(s) => |s| > 0
    case JBool(b) => b
    case JList(l) => |l| > 0
    case JDict(d) => |d| > 0
  }

  /** The number a boolean stands for when Python compares it with an
      integer. */
  function BoolNum(b: bool): int {
    if b then 1 else 0
  }

  /** Python's `==` on stored values: `True == 1` and `False == 0`, lists
      equal element by element, dictionaries equal when they have the same
      keys with equal values, whatever the insertion order. */
  predicate PyEq(a: Json, b: Json)
    decreases a
  {
    match a
    case JNone => b.JNone?
    case JInt(i) => (b.JInt? && b.i == i) || (b.JBool? && BoolNum(b.b) == i)
    case JBool(x) => (b.JBool? && b.b == x) || (b.JInt? && b.i == BoolNum(x))
    case JStr(s) => b.JStr? && b.s == s
    case JList(l) => b.JList? && |l| == |b.l| && forall i :: 0 <= i < |l| ==> PyEq(l[i], b.l[i])
    case JDict(d) =>
      b.JDict? &&
      (forall j :: 0 <= j < |b.d| ==> HasKey(d, b.d[j].0)) &&
      forall i :: 0 <= i < |d| ==> HasKey(b.d, d[i].0) && PyEq(d[i].1, Get(b.d, d[i].0).value)
  }

  /** Every dictionary inside the value has each key once, as a Python
      dictionary does. */
  predicate WellKeyed(a: Json) {
    match a
    case JList(l) => forall i :: 0 <= i < |l| ==> WellKeyed(l[i])
    case JDict(d) => Keyed(d) && forall i :: 0 <= i < |d| ==> WellKeyed(d[i].1)
    case _ => true
  }

  /** Every value equals itself. */
  lemma {:induction false} PyEqReflexive(a: Json)
    requires WellKeyed(a)
    ensures PyEq(a, a)
    decreases a
  {
    match a
    case JList(l) =>
      forall i | 0 <= i < |l| ensures PyEq(l[i], l[i]) {
        PyEqReflexive(l[i]);
      }
    case JDict(d) =>
      forall j | 0 <= j < |d| ensures HasKey(d, d[j].0) {
      }
      forall i | 0 <= i < |d| ensures HasKey(d, d[i].0) && PyEq(d[i].1, Get(d, d[i].0).value) {
        GetEntry(d, i);
        PyEqReflexive(d[i].1);
      }
    case _ =>
  }

  /** Python's `==` does not depend on the side. */
  lemma {:induction false} PyEqSymmetric(a: Json, b: Json)
    requires WellKeyed(a) && WellKeyed(b) && PyEq(a, b)
    ensures PyEq(b, a)
    decreases a
  {
    match a
    case JList(l) =>
      forall i | 0 <= i < |b.l| ensures PyEq(b.l[i], l[i]) {
        PyEqSymmetric(l[i], b.l[i]);
      }
    case JDict(d) =>
      var e := b.d;
      forall i | 0 <= i < |d| ensures HasKey(e, d[i].0) {
      }
      forall j | 0 <= j < |e| ensures HasKey(d, e[j].0) && PyEq(e[j].1, Get(d, e[j].0).value) {
        var k := e[j].0;
        assert HasKey(d, k);
        var i :| 0 <= i < |d| && d[i].0 == k;
        GetEntry(d, i);
        GetEntry(e, j);
        assert PyEq(d[i].1, e[j].1);
        PyEqSymmetric(d[i].1, e[j].1);
      }
    case _ =>
  }

  /** Two dictionaries written in different orders are different values
      here and equal for Python. */
  lemma PyEqIgnoresOrder()
    ensures var a, b := JDict([("_1", JInt(2)), ("_0", JInt(1))]), JDict([("_0", JInt(1)), ("_1", JInt(2))]);
      a != b && PyEq(a, b)
  {
    var d := [("_1", JInt(2)), ("_0", JInt(1))];
    var e := [("_0", JInt(1)), ("_1", JInt(2))];
    assert "_1" != "_0" by { assert "_1"[1] != "_0"[1]; }
    assert d[0] != e[0];
    assert HasKey(d, e[0].0) && HasKey(d, e[1].0);
    assert HasKey(e, d[0].0) && HasKey(e, d[1].0);
    assert Get(e, "_1") == Some(JInt(2)) && Get(e, "_0") == Some(JInt(1));
  }

  /** A boolean equals the integer it stands for, in both directions. */
  lemma PyEqBoolInt(x: bool, i: int)
    ensures PyEq(JBool(x), JInt(i)) <==> i == BoolNum(x)
    ensures PyEq(JInt(i), JBool(x)) <==> i == BoolNum(x)
    ensures PyEq(JBool(x), JBool(!x)) == false
  {
  }
}

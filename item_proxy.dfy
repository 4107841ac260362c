/** `ItemProxy`: the view of a questionnaire item that code blocks and
    conditions see. The stored outcome is decoded by item kind on the way
    in (`from_outcome`) and encoded back for storage (`to_outcome`):
    a question stores `{'_': v}`, a question group `{'_0': v0, '_1': v1, ...}`
    and a matrix question `{'_0_0': v, '_0_1': v, ...}`, unanswered entries
    left out. */
module ItemProxies {
  import opened Wrappers
  import opened Json
  import opened Strings
  import T = Tables

  datatype ProxyError = ValueError | AttributeError | TypeError

  const Question := JStr("Question")
  const QuestionGroup := JStr("QuestionGroup")
  const MatrixQuestion := JStr("MatrixQuestion")

  /** `outcome is None or outcome == {}` */
  predicate Blank(raw: Json) {
    raw == JNone || raw == JDict([])
  }

  function MaxNat(a: nat, b: nat): nat {
    if a < b then b else a
  }

  // ---------------------------------------------------------------------
  // Question groups: keys `_<i>`

  /** The key of entry `i`: `f'_{i}'`. */
  function GroupKey(i: nat): string {
    "_" + NatToStr(i)
  }

  /** For a key `_<digits>`, the number `int(key[1:])` (leading zeros
      allowed); other keys give nothing. */
  function GroupIndex(key: string): Option<nat> {
    if |key| > 0 && key[0] == '_' && IsDigits(key[1..]) then Some(DigitsToNat(key[1..])) else None
  }

  lemma GroupKeyParses(i: nat)
    ensures GroupIndex(GroupKey(i)) == Some(i)
  {
    assert GroupKey(i)[1..] == NatToStr(i);
    ParseRender(i);
  }

  /** The index of every group key among `ks`, in key order. */
  function GroupIndices(ks: seq<string>): (r: seq<nat>)
    ensures forall x :: x in r <==> exists i :: 0 <= i < |ks| && GroupIndex(ks[i]) == Some(x)
    decreases |ks|
  {
    if |ks| == 0 then []
    else
      var rest := GroupIndices(ks[1..]);
      forall x | exists i :: 0 <= i < |ks| - 1 && GroupIndex(ks[1..][i]) == Some(x)
        ensures exists i :: 0 <= i < |ks| && GroupIndex(ks[i]) == Some(x)
      {
        var i :| 0 <= i < |ks| - 1 && GroupIndex(ks[1..][i]) == Some(x);
        assert ks[i + 1] == ks[1..][i];
      }
      forall x, i | 0 <= i < |ks| && GroupIndex(ks[i]) == Some(x) && i > 0
        ensures exists i :: 0 <= i < |ks| - 1 && GroupIndex(ks[1..][i]) == Some(x)
      {
        assert ks[1..][i - 1] == ks[i];
      }
      match GroupIndex(ks[0])
      case Some(n) => [n] + rest
      case None => rest
  }

  /** `max(xs)` */
  function Max(xs: seq<nat>): (m: nat)
    requires |xs| > 0
    ensures m in xs && forall x :: x in xs ==> x <= m
    decreases |xs|
  {
    if |xs| == 1 then xs[0]
    else
      var m := Max(xs[1..]);
      assert forall x :: x in xs ==> x == xs[0] || x in xs[1..];
      MaxNat(xs[0], m)
  }

  /** The list a stored group outcome decodes to: as long as one past the
      largest index found among the keys, each entry the value stored under
      its canonical key `_<i>` or `None`. A key with a leading zero, such as
      `_01`, counts toward the length but its value is not read. */
  function DecodeGroup(d: Dict): (r: Result<seq<Json>, ProxyError>)
    ensures r.Err? <==> forall i :: 0 <= i < |d| ==> GroupIndex(d[i].0).None?
    ensures r.Err? ==> r.error == ValueError
    ensures r.Ok? ==>
      (exists i :: 0 <= i < |d| && GroupIndex(d[i].0) == Some(|r.value| - 1)) &&
      (forall i :: 0 <= i < |d| && GroupIndex(d[i].0).Some? ==> GroupIndex(d[i].0).value < |r.value|)
    ensures r.Ok? ==> forall i :: 0 <= i < |r.value| ==> r.value[i] == GetOr(d, GroupKey(i))
  {
    var idx := GroupIndices(KeysOf(d));
    GroupIndicesOf(d);
    if |idx| == 0 then Err(ValueError)
    else Ok(GroupEntries(d, Max(idx) + 1))
  }

  /** The first `n` entries of a group: for each `i < n` the value stored
      under `_<i>`, or `None`. */
  function GroupEntries(d: Dict, n: nat): (r: seq<Json>)
    ensures |r| == n && forall i :: 0 <= i < n ==> r[i] == GetOr(d, GroupKey(i))
  {
    seq(n, i requires 0 <= i => GetOr(d, GroupKey(i)))
  }

  /** A decoded group ends at the largest index found among the keys. */
  lemma DecodeGroupSize(d: Dict)
    requires |GroupIndices(KeysOf(d))| > 0
    ensures DecodeGroup(d).Ok? && |DecodeGroup(d).value| == Max(GroupIndices(KeysOf(d))) + 1
  {
  }

  /** The list loop of `from_outcome` for a question group: a list of
      `size` entries, each filled from its key when the key is present. */
  method GroupList(d: Dict, size: nat) returns (result: seq<Json>)
    ensures result == GroupEntries(d, size)
  {
    result := seq(size, _ => JNone);
    var i := 0;
    while i < size
      invariant 0 <= i <= size && |result| == size
      invariant forall k :: 0 <= k < i ==> result[k] == GetOr(d, GroupKey(k))
      invariant forall k :: i <= k < size ==> result[k] == JNone
    {
      var key := GroupKey(i);
      if HasKey(d, key) {
        result := result[i := GetOr(d, key)];
      }
      i := i + 1;
    }
  }

  /** The indices found among the keys of a dictionary: none exactly when no
      key is a group key, and otherwise the largest bounds them all. */
  lemma GroupIndicesOf(d: Dict)
    ensures var idx := GroupIndices(KeysOf(d));
      |idx| == 0 <==> forall i :: 0 <= i < |d| ==> GroupIndex(d[i].0).None?
    ensures var idx := GroupIndices(KeysOf(d));
      |idx| > 0 ==>
        (exists i :: 0 <= i < |d| && GroupIndex(d[i].0) == Some(Max(idx))) &&
        (forall i :: 0 <= i < |d| && GroupIndex(d[i].0).Some? ==> GroupIndex(d[i].0).value <= Max(idx))
  {
    var ks := KeysOf(d);
    var idx := GroupIndices(ks);
    assert forall i :: 0 <= i < |d| && GroupIndex(d[i].0).Some? ==> GroupIndex(d[i].0).value in idx by {
      forall i | 0 <= i < |d| && GroupIndex(d[i].0).Some? ensures GroupIndex(d[i].0).value in idx {
        assert ks[i] == d[i].0;
      }
    }
    if |idx| > 0 {
      var m := Max(idx);
      var i :| 0 <= i < |ks| && GroupIndex(ks[i]) == Some(m);
      assert GroupIndex(d[i].0) == Some(m);
    }
  }

  /** The stored dictionary of a group list: `_<i>` for each answered
      entry, in list order. */
  function EncodeGroup(l: seq<Json>): Dict
    decreases |l|
  {
    if |l| == 0 then []
    else
      var n := |l| - 1;
      EncodeGroup(l[..n]) + (if l[n] != JNone then [(GroupKey(n), l[n])] else [])
  }

  /** An entry of a stored group: an answered entry under its key. */
  ghost predicate GroupEntry(l: seq<Json>, x: (string, Json)) {
    exists i :: 0 <= i < |l| && l[i] != JNone && x == (GroupKey(i), l[i])
  }

  /** Every stored entry is an answered entry of the list under its key. */
  lemma {:induction false} EncodeGroupEntries(l: seq<Json>)
    ensures forall m :: 0 <= m < |EncodeGroup(l)| ==> GroupEntry(l, EncodeGroup(l)[m])
    decreases |l|
  {
    if |l| > 0 {
      var n := |l| - 1;
      EncodeGroupEntries(l[..n]);
      var e := EncodeGroup(l);
      var p := EncodeGroup(l[..n]);
      assert e == p + (if l[n] != JNone then [(GroupKey(n), l[n])] else []);
      forall m | 0 <= m < |e|
        ensures GroupEntry(l, e[m])
      {
        if m < |p| {
          assert GroupEntry(l[..n], p[m]);
          var i :| 0 <= i < n && l[..n][i] != JNone && p[m] == (GroupKey(i), l[..n][i]);
          assert e[m] == p[m] && l[..n][i] == l[i];
        } else {
          assert e[m] == (GroupKey(n), l[n]);
        }
      }
    }
  }

  /** Every answered entry of the list is stored under its key. */
  lemma {:induction false} EncodeGroupHas(l: seq<Json>, i: nat)
    requires i < |l| && l[i] != JNone
    ensures exists m :: 0 <= m < |EncodeGroup(l)| && EncodeGroup(l)[m] == (GroupKey(i), l[i])
    decreases |l|
  {
    var n := |l| - 1;
    var e := EncodeGroup(l);
    var p := EncodeGroup(l[..n]);
    assert e == p + (if l[n] != JNone then [(GroupKey(n), l[n])] else []);
    if i < n {
      assert l[..n][i] == l[i];
      EncodeGroupHas(l[..n], i);
      var m :| 0 <= m < |p| && p[m] == (GroupKey(i), l[..n][i]);
      assert e[m] == p[m];
    } else {
      assert e[|p|] == (GroupKey(n), l[n]);
    }
  }

  /** No key of a stored group names an entry past the end of the list, so
      each write of the encoding loop adds a new entry at the end. */
  lemma {:induction false} EncodeGroupFreshKey(l: seq<Json>, j: nat)
    requires j >= |l|
    ensures !HasKey(EncodeGroup(l), GroupKey(j))
  {
    var e := EncodeGroup(l);
    EncodeGroupEntries(l);
    if HasKey(e, GroupKey(j)) {
      var m :| 0 <= m < |e| && e[m].0 == GroupKey(j);
      assert GroupEntry(l, e[m]);
      var i :| 0 <= i < |l| && l[i] != JNone && e[m] == (GroupKey(i), l[i]);
      GroupKeyParses(i);
      GroupKeyParses(j);
    }
  }

  /** Reading a stored group gives back each entry of the list, unanswered
      entries as `None`. */
  lemma {:induction false} GroupLookup(l: seq<Json>, i: nat)
    requires i < |l|
    ensures GetOr(EncodeGroup(l), GroupKey(i)) == l[i]
  {
    var e := EncodeGroup(l);
    match Get(e, GroupKey(i))
    case Some(v) =>
      var m :| 0 <= m < |e| && e[m] == (GroupKey(i), v);
      EncodeGroupEntries(l);
      assert GroupEntry(l, e[m]);
      var j :| 0 <= j < |l| && l[j] != JNone && e[m] == (GroupKey(j), l[j]);
      GroupKeyParses(i);
      GroupKeyParses(j);
    case None =>
      if l[i] != JNone {
        EncodeGroupHas(l, i);
      }
  }

  // ---------------------------------------------------------------------
  // Matrix questions: keys `_<r>_<c>`

  /** `s.split('_')` */
  function Split(s: string): (parts: seq<string>)
    ensures |parts| >= 1
    decreases |s|
  {
    var k := LastUnderscore(s);
    if k < 0 then [s] else Split(s[..k]) + [s[k + 1..]]
  }

  /** For a key `_<digits>_<digits>`, its row and column; other keys give
      nothing. */
  function CellKey(key: string): Option<(nat, nat)> {
    if |key| > 0 && key[0] == '_' then
      var parts := Split(key[1..]);
      if |parts| == 2 && IsDigits(parts[0]) && IsDigits(parts[1]) then
        Some((DigitsToNat(parts[0]), DigitsToNat(parts[1])))
      else None
    else None
  }

  /** The key of cell `(r, c)`: `f'_{r}_{c}'`. */
  function CellName(r: nat, c: nat): string {
    "_" + NatToStr(r) + "_" + NatToStr(c)
  }

  lemma CellNameParses(r: nat, c: nat)
    ensures CellKey(CellName(r, c)) == Some((r, c))
  {
    var a, b := NatToStr(r), NatToStr(c);
    var s := CellName(r, c)[1..];
    assert s == a + "_" + b;
    DigitsNoUnderscore(r);
    DigitsNoUnderscore(c);
    LastUnderscoreOf(a, b);
    assert s[..|a|] == a && s[|a| + 1..] == b;
    NoLastUnderscore(a);
    assert Split(s) == [a, b];
    ParseRender(r);
    ParseRender(c);
  }

  /** The largest row and column among the cell keys, each 0 when there is
      none. */
  function Dims(d: Dict): (m: (nat, nat))
    ensures forall i :: 0 <= i < |d| && CellKey(d[i].0).Some? ==>
      CellKey(d[i].0).value.0 <= m.0 && CellKey(d[i].0).value.1 <= m.1
    ensures m.0 == 0 || exists i :: 0 <= i < |d| && CellKey(d[i].0).Some? && CellKey(d[i].0).value.0 == m.0
    ensures m.1 == 0 || exists i :: 0 <= i < |d| && CellKey(d[i].0).Some? && CellKey(d[i].0).value.1 == m.1
    decreases |d|
  {
    if |d| == 0 then (0, 0)
    else
      var n := |d| - 1;
      var p := Dims(d[..n]);
      DimsStep(d, d[..n], p);
      match CellKey(d[n].0)
      case Some(rc) => (MaxNat(p.0, rc.0), MaxNat(p.1, rc.1))
      case None => p
  }

  /** The step of `Dims`: bounds and witnesses for the entries but the last
      carry over to the whole dictionary. */
  lemma DimsStep(d: Dict, q: Dict, p: (nat, nat))
    requires |d| > 0 && q == d[..|d| - 1]
    requires forall i :: 0 <= i < |q| && CellKey(q[i].0).Some? ==>
      CellKey(q[i].0).value.0 <= p.0 && CellKey(q[i].0).value.1 <= p.1
    requires p.0 == 0 || exists i :: 0 <= i < |q| && CellKey(q[i].0).Some? && CellKey(q[i].0).value.0 == p.0
    requires p.1 == 0 || exists i :: 0 <= i < |q| && CellKey(q[i].0).Some? && CellKey(q[i].0).value.1 == p.1
    ensures forall i :: 0 <= i < |d| - 1 && CellKey(d[i].0).Some? ==>
      CellKey(d[i].0).value.0 <= p.0 && CellKey(d[i].0).value.1 <= p.1
    ensures p.0 == 0 || exists i :: 0 <= i < |d| && CellKey(d[i].0).Some? && CellKey(d[i].0).value.0 == p.0
    ensures p.1 == 0 || exists i :: 0 <= i < |d| && CellKey(d[i].0).Some? && CellKey(d[i].0).value.1 == p.1
  {
    assert forall i :: 0 <= i < |q| ==> q[i] == d[i];
  }

  /** The value of the last entry whose key names cell `(r, c)`. */
  function LastFor(d: Dict, r: nat, c: nat): Option<Json>
    decreases |d|
  {
    if |d| == 0 then None
    else
      var n := |d| - 1;
      if CellKey(d[n].0) == Some((r, c)) then Some(d[n].1) else LastFor(d[..n], r, c)
  }

  /** `LastFor` finds a value iff some entry names the cell, and then the
      value of an entry naming it after which none does. */
  lemma LastForMeaning(d: Dict, r: nat, c: nat)
    ensures var v := LastFor(d, r, c);
      v.Some? <==> exists i :: 0 <= i < |d| && CellKey(d[i].0) == Some((r, c))
    ensures var v := LastFor(d, r, c);
      v.Some? ==> exists i :: 0 <= i < |d| && CellKey(d[i].0) == Some((r, c)) && d[i].1 == v.value &&
                               forall j :: i < j < |d| ==> CellKey(d[j].0) != Some((r, c))
  {
    LastForFound(d, r, c);
    if LastFor(d, r, c).Some? {
      var i := LastForAt(d, r, c);
    }
  }

  /** `LastFor` finds a value iff some entry names the cell. */
  lemma {:induction false} LastForFound(d: Dict, r: nat, c: nat)
    ensures LastFor(d, r, c).Some? <==> exists i :: 0 <= i < |d| && CellKey(d[i].0) == Some((r, c))
    decreases |d|
  {
    if |d| > 0 {
      var n := |d| - 1;
      if CellKey(d[n].0) != Some((r, c)) {
        LastForFound(d[..n], r, c);
        if exists i :: 0 <= i < |d| && CellKey(d[i].0) == Some((r, c)) {
          var i :| 0 <= i < |d| && CellKey(d[i].0) == Some((r, c));
          assert i < n && d[..n][i] == d[i];
        }
        if exists i :: 0 <= i < n && CellKey(d[..n][i].0) == Some((r, c)) {
          var i :| 0 <= i < n && CellKey(d[..n][i].0) == Some((r, c));
          assert d[..n][i] == d[i];
        }
      }
    }
  }

  /** The position of the entry whose value `LastFor` finds: it names the
      cell and no later entry does. */
  lemma {:induction false} LastForAt(d: Dict, r: nat, c: nat) returns (i: nat)
    requires LastFor(d, r, c).Some?
    ensures i < |d| && CellKey(d[i].0) == Some((r, c)) && d[i].1 == LastFor(d, r, c).value
    ensures forall j :: i < j < |d| ==> CellKey(d[j].0) != Some((r, c))
    decreases |d|
  {
    var n := |d| - 1;
    if CellKey(d[n].0) == Some((r, c)) {
      return n;
    }
    i := LastForAt(d[..n], r, c);
    assert d[..n][i] == d[i];
    forall j | i < j < |d| ensures CellKey(d[j].0) != Some((r, c)) {
      if j < n {
        assert d[..n][j] == d[j];
      }
    }
  }

  function CellValue(d: Dict, r: nat, c: nat): Json {
    match LastFor(d, r, c)
    case Some(v) => v
    case None => JNone
  }

  /** Some entry of the row holds an answer. */
  predicate Answered(row: seq<Json>) {
    exists c :: 0 <= c < |row| && row[c] != JNone
  }

  predicate Rectangular(g: seq<seq<Json>>, cols: nat) {
    forall r :: 0 <= r < |g| ==> |g[r]| == cols
  }

  /** The grid a stored matrix outcome decodes to: one row past the
      largest row and one column past the largest column among the valid
      keys (so at least one of each), each cell the value of the last entry
      naming it, in dictionary order, or `None`. */
  function DecodeMatrix(d: Dict): (g: (nat, nat, seq<seq<Json>>))
    ensures g.0 >= 1 && g.1 >= 1 && |g.2| == g.0 && Rectangular(g.2, g.1)
    ensures forall i :: 0 <= i < |d| && CellKey(d[i].0).Some? ==>
      CellKey(d[i].0).value.0 < g.0 && CellKey(d[i].0).value.1 < g.1
    ensures forall r, c :: 0 <= r < g.0 && 0 <= c < g.1 ==> g.2[r][c] == CellValue(d, r, c)
  {
    var m := Dims(d);
    (m.0 + 1, m.1 + 1, seq(m.0 + 1, r requires 0 <= r => seq(m.1 + 1, c requires 0 <= c => CellValue(d, r, c))))
  }

  /** An entry of a stored row: an answered cell under its key. */
  ghost predicate RowEntry(r: nat, row: seq<Json>, x: (string, Json)) {
    exists c :: 0 <= c < |row| && row[c] != JNone && x == (CellName(r, c), row[c])
  }

  /** The stored entries of row `r`, in column order. */
  function EncodeRow(r: nat, row: seq<Json>): Dict
    decreases |row|
  {
    if |row| == 0 then []
    else
      var n := |row| - 1;
      EncodeRow(r, row[..n]) + (if row[n] != JNone then [(CellName(r, n), row[n])] else [])
  }

  /** The stored dictionary of a grid, row by row. */
  function EncodeGrid(g: seq<seq<Json>>): Dict
    decreases |g|
  {
    if |g| == 0 then [] else EncodeGrid(g[..|g| - 1]) + EncodeRow(|g| - 1, g[|g| - 1])
  }

  lemma {:induction false} EncodeRowEntries(r: nat, row: seq<Json>)
    ensures forall m :: 0 <= m < |EncodeRow(r, row)| ==> RowEntry(r, row, EncodeRow(r, row)[m])
    decreases |row|
  {
    if |row| > 0 {
      var n := |row| - 1;
      EncodeRowEntries(r, row[..n]);
      var e := EncodeRow(r, row);
      var p := EncodeRow(r, row[..n]);
      assert e == p + (if row[n] != JNone then [(CellName(r, n), row[n])] else []);
      forall m | 0 <= m < |e|
        ensures RowEntry(r, row, e[m])
      {
        if m < |p| {
          assert RowEntry(r, row[..n], p[m]);
          var c :| 0 <= c < n && row[..n][c] != JNone && p[m] == (CellName(r, c), row[..n][c]);
          assert e[m] == p[m] && row[..n][c] == row[c];
        } else {
          assert e[m] == (CellName(r, n), row[n]);
        }
      }
    }
  }

  lemma {:induction false} EncodeRowHas(r: nat, row: seq<Json>, c: nat)
    requires c < |row| && row[c] != JNone
    ensures exists m :: 0 <= m < |EncodeRow(r, row)| && EncodeRow(r, row)[m] == (CellName(r, c), row[c])
    decreases |row|
  {
    var n := |row| - 1;
    var e := EncodeRow(r, row);
    var p := EncodeRow(r, row[..n]);
    assert e == p + (if row[n] != JNone then [(CellName(r, n), row[n])] else []);
    if c < n {
      assert row[..n][c] == row[c];
      EncodeRowHas(r, row[..n], c);
      var m :| 0 <= m < |p| && p[m] == (CellName(r, c), row[..n][c]);
      assert e[m] == p[m];
    } else {
      assert e[|p|] == (CellName(r, n), row[n]);
    }
  }

  /** An entry of a stored grid: an answered cell under its key. */
  ghost predicate GridEntry(g: seq<seq<Json>>, x: (string, Json)) {
    exists r, c :: 0 <= r < |g| && 0 <= c < |g[r]| && g[r][c] != JNone && x == (CellName(r, c), g[r][c])
  }

  lemma {:induction false} EncodeGridEntries(g: seq<seq<Json>>)
    ensures forall m :: 0 <= m < |EncodeGrid(g)| ==> GridEntry(g, EncodeGrid(g)[m])
    decreases |g|
  {
    if |g| > 0 {
      var n := |g| - 1;
      EncodeGridEntries(g[..n]);
      EncodeRowEntries(n, g[n]);
      var e := EncodeGrid(g);
      var p := EncodeGrid(g[..n]);
      var q := EncodeRow(n, g[n]);
      assert e == p + q;
      forall m | 0 <= m < |e|
        ensures GridEntry(g, e[m])
      {
        if m < |p| {
          assert GridEntry(g[..n], p[m]);
          var r, c :| 0 <= r < n && 0 <= c < |g[..n][r]| && g[..n][r][c] != JNone && p[m] == (CellName(r, c), g[..n][r][c]);
          assert e[m] == p[m] && g[..n][r] == g[r];
        } else {
          assert RowEntry(n, g[n], q[m - |p|]);
          var c :| 0 <= c < |g[n]| && g[n][c] != JNone && q[m - |p|] == (CellName(n, c), g[n][c]);
          assert e[m] == q[m - |p|];
        }
      }
    }
  }

  lemma {:induction false} EncodeGridHas(g: seq<seq<Json>>, r: nat, c: nat)
    requires r < |g| && c < |g[r]| && g[r][c] != JNone
    ensures exists m :: 0 <= m < |EncodeGrid(g)| && EncodeGrid(g)[m] == (CellName(r, c), g[r][c])
    decreases |g|
  {
    var n := |g| - 1;
    var e := EncodeGrid(g);
    var p := EncodeGrid(g[..n]);
    var q := EncodeRow(n, g[n]);
    assert e == p + q;
    if r < n {
      assert g[..n][r] == g[r];
      EncodeGridHas(g[..n], r, c);
      var m :| 0 <= m < |p| && p[m] == (CellName(r, c), g[..n][r][c]);
      assert e[m] == p[m];
    } else {
      EncodeRowHas(n, g[n], c);
      var m :| 0 <= m < |q| && q[m] == (CellName(n, c), g[n][c]);
      assert e[|p| + m] == q[m];
    }
  }

  /** Reading a stored grid gives back every cell, unanswered cells as
      `None`. */
  lemma {:induction false} GridLookup(g: seq<seq<Json>>, r: nat, c: nat)
    requires r < |g| && c < |g[r]|
    ensures CellValue(EncodeGrid(g), r, c) == g[r][c]
  {
    var e := EncodeGrid(g);
    CellNameParses(r, c);
    LastForMeaning(e, r, c);
    match LastFor(e, r, c)
    case Some(v) =>
      var i :| 0 <= i < |e| && CellKey(e[i].0) == Some((r, c)) && e[i].1 == v;
      EncodeGridEntries(g);
      assert GridEntry(g, e[i]);
      var r', c' :| 0 <= r' < |g| && 0 <= c' < |g[r']| && g[r'][c'] != JNone && e[i] == (CellName(r', c'), g[r'][c']);
      CellNameParses(r', c');
    case None =>
      if g[r][c] != JNone {
        EncodeGridHas(g, r, c);
      }
  }

  /** No key already written names the cell the encoding loop visits
      next, so each of its writes adds a new entry. */
  lemma {:induction false} EncodeGridFreshKey(g: seq<seq<Json>>, row: nat, col: nat)
    requires row < |g| && col <= |g[row]|
    ensures !HasKey(EncodeGrid(g[..row]) + EncodeRow(row, g[row][..col]), CellName(row, col))
  {
    var a := EncodeGrid(g[..row]);
    var b := EncodeRow(row, g[row][..col]);
    var e := a + b;
    CellNameParses(row, col);
    if HasKey(e, CellName(row, col)) {
      var m :| 0 <= m < |e| && e[m].0 == CellName(row, col);
      if m < |a| {
        EncodeGridEntries(g[..row]);
        assert e[m] == a[m] && GridEntry(g[..row], a[m]);
        var r, c :| 0 <= r < row && 0 <= c < |g[..row][r]| && g[..row][r][c] != JNone && a[m] == (CellName(r, c), g[..row][r][c]);
        CellNameParses(r, c);
      } else {
        EncodeRowEntries(row, g[row][..col]);
        assert e[m] == b[m - |a|] && RowEntry(row, g[row][..col], b[m - |a|]);
        var c :| 0 <= c < col && g[row][..col][c] != JNone && b[m - |a|] == (CellName(row, c), g[row][..col][c]);
        CellNameParses(row, c);
      }
    }
  }

  // ---------------------------------------------------------------------
  // Decoding and encoding by item kind

  /** What `from_outcome` leaves in the `outcome` attribute: the previous
      value (an item of another kind with a non-blank outcome), a plain
      value or list, or a new table of the given shape and cells. */
  datatype Decoding = Keep | AsJson(j: Json) | AsGrid(rows: nat, cols: nat, cells: seq<seq<Json>>)

  /** `from_outcome(raw)` for an item of kind `kind`. A blank outcome of a
      question, group or matrix decodes to `None`, of any other kind to
      itself; a group or matrix outcome that is not a dictionary fails on
      `outcome.keys()`. */
  function Decode(kind: Json, raw: Json): (r: Result<Decoding, ProxyError>)
    ensures (kind == Question || kind == QuestionGroup || kind == MatrixQuestion) && Blank(raw) ==> r == Ok(AsJson(JNone))
    ensures kind == Question ==> r.Ok? && r.value.AsJson?
    ensures kind == Question && !Blank(raw) && !raw.JDict? ==> r == Ok(AsJson(raw))
    ensures (kind == QuestionGroup || kind == MatrixQuestion) && !Blank(raw) && !raw.JDict? ==> r == Err(AttributeError)
    ensures kind == QuestionGroup && raw.JDict? && !Blank(raw) ==>
      (r.Ok? <==> DecodeGroup(raw.d).Ok?) && (r.Ok? ==> r.value == AsJson(JList(DecodeGroup(raw.d).value)))
    ensures kind == MatrixQuestion && raw.JDict? && !Blank(raw) ==>
      r.Ok? && r.value.AsGrid? && (r.value.rows, r.value.cols, r.value.cells) == DecodeMatrix(raw.d)
    ensures kind != Question && kind != QuestionGroup && kind != MatrixQuestion ==>
      r == Ok(if Blank(raw) then AsJson(raw) else Keep)
  {
    if kind == Question then
      Ok(AsJson(if Blank(raw) then JNone else if raw.JDict? then GetOr(raw.d, "_") else raw))
    else if kind == QuestionGroup then
      if Blank(raw) then Ok(AsJson(JNone))
      else if !raw.JDict? then Err(AttributeError)
      else
        match DecodeGroup(raw.d)
        case Ok(l) => Ok(AsJson(JList(l)))
        case Err(e) => Err(e)
    else if kind == MatrixQuestion then
      if Blank(raw) then Ok(AsJson(JNone))
      else if !raw.JDict? then Err(AttributeError)
      else
        var g := DecodeMatrix(raw.d);
        Ok(AsGrid(g.0, g.1, g.2))
    else if Blank(raw) then Ok(AsJson(raw))
    else Ok(Keep)
  }

  /** `to_outcome` of a question: `{'_': v}`, or `None`. */
  function EncodeQuestion(v: Json): (r: Json)
    ensures r == JNone <==> v == JNone
  {
    if v == JNone then JNone else JDict([("_", v)])
  }

  /** What `enumerate` walks: a list's elements, a string's characters or
      a dictionary's keys; other values are not iterable. */
  function Iterated(j: Json): (r: Option<seq<Json>>)
    ensures r.Some? <==> j.JList? || j.JStr? || j.JDict?
    ensures j.JList? ==> r == Some(j.l)
    ensures j.JStr? ==> r.Some? && |r.value| == |j.s| && forall i :: 0 <= i < |j.s| ==> r.value[i] == JStr([j.s[i]])
    ensures j.JDict? ==> r.Some? && |r.value| == |j.d| && forall i :: 0 <= i < |j.d| ==> r.value[i] == JStr(j.d[i].0)
  {
    match j
    case JList(l) => Some(l)
    case JStr(s) => Some(seq(|s|, i requires 0 <= i < |s| => JStr([s[i]])))
    case JDict(d) => Some(seq(|d|, i requires 0 <= i < |d| => JStr(d[i].0)))
    case _ => None
  }

  // ---------------------------------------------------------------------
  // Round trips

  /** A question's answer survives storage. */
  lemma QuestionRoundTrip(v: Json)
    ensures Decode(Question, EncodeQuestion(v)) == Ok(AsJson(v))
  {
  }

  /** Every key of a stored group names an entry of the list. */
  lemma EncodedGroupIndex(l: seq<Json>, m: nat)
    requires m < |EncodeGroup(l)|
    ensures GroupIndex(EncodeGroup(l)[m].0).Some? && GroupIndex(EncodeGroup(l)[m].0).value < |l|
  {
    var e := EncodeGroup(l);
    EncodeGroupEntries(l);
    assert GroupEntry(l, e[m]);
    var j :| 0 <= j < |l| && l[j] != JNone && e[m] == (GroupKey(j), l[j]);
    GroupKeyParses(j);
  }

  /** A stored group whose last entry is answered decodes to a list of the
      same length. */
  lemma {:induction false} GroupLength(l: seq<Json>)
    requires |l| > 0 && l[|l| - 1] != JNone
    ensures DecodeGroup(EncodeGroup(l)).Ok? && |DecodeGroup(EncodeGroup(l)).value| == |l|
  {
    var e := EncodeGroup(l);
    var n := |l| - 1;
    EncodeGroupHas(l, n);
    var m :| 0 <= m < |e| && e[m] == (GroupKey(n), l[n]);
    GroupKeyParses(n);
    assert GroupIndex(e[m].0) == Some(n);
    var idx := GroupIndices(KeysOf(e));
    GroupIndicesOf(e);
    assert |idx| > 0;
    var top := Max(idx);
    assert n <= top;
    var i :| 0 <= i < |e| && GroupIndex(e[i].0) == Some(top);
    EncodedGroupIndex(l, i);
    DecodeGroupSize(e);
  }

  lemma {:induction false} DecodeEncodedGroup(l: seq<Json>)
    requires |l| > 0 && l[|l| - 1] != JNone
    ensures DecodeGroup(EncodeGroup(l)) == Ok(l)
  {
    GroupLength(l);
    var v := DecodeGroup(EncodeGroup(l)).value;
    forall k | 0 <= k < |l| ensures v[k] == l[k] {
      GroupLookup(l, k);
    }
    assert v == l;
  }

  /** A group list whose last entry is answered survives storage. */
  lemma {:induction false} GroupRoundTrip(l: seq<Json>)
    requires |l| > 0 && l[|l| - 1] != JNone
    ensures Decode(QuestionGroup, JDict(EncodeGroup(l))) == Ok(AsJson(JList(l)))
  {
    DecodeEncodedGroup(l);
    assert EncodeGroup(l) != [];
  }

  /** Unanswered entries at the end of a group list are not stored, so
      they do not come back. */
  lemma {:induction false} GroupTrailingUnanswered(l: seq<Json>)
    ensures EncodeGroup(l + [JNone]) == EncodeGroup(l)
  {
    assert (l + [JNone])[..|l|] == l;
  }

  /** A group with no answered entry stores an empty dictionary, which
      decodes to `None`. */
  lemma {:induction false} GroupUnanswered(l: seq<Json>)
    requires forall i :: 0 <= i < |l| ==> l[i] == JNone
    ensures EncodeGroup(l) == []
    ensures Decode(QuestionGroup, JDict(EncodeGroup(l))) == Ok(AsJson(JNone))
    decreases |l|
  {
    if |l| > 0 {
      GroupUnanswered(l[..|l| - 1]);
    }
  }

  /** A key spelled with a leading zero counts toward the length of the
      list, but the entry it holds is read from the canonical key only. */
  lemma NonCanonicalGroupKey()
    ensures Decode(QuestionGroup, JDict([("_01", JInt(5))])) == Ok(AsJson(JList([JNone, JNone])))
  {
    var d := [("_01", JInt(5))];
    assert "_01"[1..] == "01";
    assert DigitsToNat("01") == 1 by {
      assert "01"[..1] == "0";
      assert "0"[..0] == "";
    }
    assert GroupIndex("_01") == Some(1);
    assert KeysOf(d) == ["_01"];
    assert GroupIndices(["_01"]) == [1] by {
      assert ["_01"][1..] == [];
    }
    assert GroupKey(0) == "_0" && GroupKey(1) == "_1";
    assert Get(d, "_0") == None && Get(d, "_1") == None;
    var r := DecodeGroup(d);
    assert r.Ok? && |r.value| == 2;
    assert r.value == [JNone, JNone];
  }

  /** Every key of a stored grid names a cell of the grid. */
  lemma EncodedCellKey(g: seq<seq<Json>>, m: nat)
    requires m < |EncodeGrid(g)|
    ensures CellKey(EncodeGrid(g)[m].0).Some?
    ensures CellKey(EncodeGrid(g)[m].0).value.0 < |g|
    ensures CellKey(EncodeGrid(g)[m].0).value.1 < |g[CellKey(EncodeGrid(g)[m].0).value.0]|
  {
    var e := EncodeGrid(g);
    EncodeGridEntries(g);
    assert GridEntry(g, e[m]);
    var r, c :| 0 <= r < |g| && 0 <= c < |g[r]| && g[r][c] != JNone && e[m] == (CellName(r, c), g[r][c]);
    CellNameParses(r, c);
  }

  /** A stored grid whose last row and last column each hold an answer
      decodes to a table of the same shape. */
  lemma {:induction false} GridShape(g: seq<seq<Json>>, cols: nat)
    requires |g| > 0 && cols > 0 && Rectangular(g, cols)
    requires Answered(g[|g| - 1])
    requires exists r :: 0 <= r < |g| && g[r][cols - 1] != JNone
    ensures DecodeMatrix(EncodeGrid(g)).0 == |g| && DecodeMatrix(EncodeGrid(g)).1 == cols
    ensures |EncodeGrid(g)| > 0
  {
    var last := g[|g| - 1];
    var c0 :| 0 <= c0 < |last| && last[c0] != JNone;
    var r0 :| 0 <= r0 < |g| && g[r0][cols - 1] != JNone;
    DimsLower(g, |g| - 1, c0);
    DimsLower(g, r0, cols - 1);
    DimsUpper(g, cols);
  }

  /** An answered cell of a grid lies within the dimensions of its stored
      form. */
  lemma DimsLower(g: seq<seq<Json>>, r: nat, c: nat)
    requires r < |g| && c < |g[r]| && g[r][c] != JNone
    ensures |EncodeGrid(g)| > 0 && r <= Dims(EncodeGrid(g)).0 && c <= Dims(EncodeGrid(g)).1
  {
    var e := EncodeGrid(g);
    EncodeGridHas(g, r, c);
    var m :| 0 <= m < |e| && e[m] == (CellName(r, c), g[r][c]);
    CellNameParses(r, c);
  }

  /** The dimensions of a stored grid lie within the grid. */
  lemma DimsUpper(g: seq<seq<Json>>, cols: nat)
    requires |g| > 0 && cols > 0 && Rectangular(g, cols)
    ensures Dims(EncodeGrid(g)).0 < |g| && Dims(EncodeGrid(g)).1 < cols
  {
    var e := EncodeGrid(g);
    var m := Dims(e);
    if m.0 > 0 {
      var i :| 0 <= i < |e| && CellKey(e[i].0).Some? && CellKey(e[i].0).value.0 == m.0;
      EncodedCellKey(g, i);
    }
    if m.1 > 0 {
      var i :| 0 <= i < |e| && CellKey(e[i].0).Some? && CellKey(e[i].0).value.1 == m.1;
      EncodedCellKey(g, i);
    }
  }

  /** Two grids of one shape with equal cells are equal. */
  lemma GridsEqual(a: seq<seq<Json>>, b: seq<seq<Json>>, cols: nat)
    requires |a| == |b| && Rectangular(a, cols) && Rectangular(b, cols)
    requires forall r, c :: 0 <= r < |a| && 0 <= c < cols ==> a[r][c] == b[r][c]
    ensures a == b
  {
    forall r | 0 <= r < |a| ensures a[r] == b[r] {
    }
  }

  lemma {:induction false} DecodeEncodedGrid(g: seq<seq<Json>>, cols: nat)
    requires |g| > 0 && cols > 0 && Rectangular(g, cols)
    requires Answered(g[|g| - 1])
    requires exists r :: 0 <= r < |g| && g[r][cols - 1] != JNone
    ensures DecodeMatrix(EncodeGrid(g)) == (|g|, cols, g)
  {
    GridShape(g, cols);
    var e := EncodeGrid(g);
    var dm := DecodeMatrix(e);
    forall r, c | 0 <= r < |g| && 0 <= c < cols ensures dm.2[r][c] == g[r][c] {
      GridLookup(g, r, c);
    }
    GridsEqual(dm.2, g, cols);
  }

  /** A grid whose last row and last column each hold an answer survives
      storage. */
  lemma {:induction false} GridRoundTrip(g: seq<seq<Json>>, cols: nat)
    requires |g| > 0 && cols > 0 && Rectangular(g, cols)
    requires Answered(g[|g| - 1])
    requires exists r :: 0 <= r < |g| && g[r][cols - 1] != JNone
    ensures Decode(MatrixQuestion, JDict(EncodeGrid(g))) == Ok(AsGrid(|g|, cols, g))
  {
    GridShape(g, cols);
    DecodeEncodedGrid(g, cols);
    var e := EncodeGrid(g);
    assert !Blank(JDict(e));
  }

  /** A non-blank matrix outcome without a single `_<r>_<c>` key decodes
      to a 1 x 1 table holding `None`. */
  lemma {:induction false} MatrixWithoutCellKeys(d: Dict)
    requires d != [] && forall i :: 0 <= i < |d| ==> CellKey(d[i].0).None?
    ensures Decode(MatrixQuestion, JDict(d)) == Ok(AsGrid(1, 1, [[JNone]]))
  {
    var dm := DecodeMatrix(d);
    assert Dims(d) == (0, 0);
    assert dm.0 == 1 && dm.1 == 1;
    LastForMeaning(d, 0, 0);
    assert LastFor(d, 0, 0).None?;
    assert |dm.2[0]| == 1 && dm.2[0][0] == JNone;
    assert dm.2[0] == [JNone];
    assert dm.2 == [[JNone]];
    assert !Blank(JDict(d));
  }

  /** The two spellings of cell `(1, 0)` in the example below. */
  lemma ExampleCellKeys()
    ensures CellKey("_1_0") == Some((1, 0)) && CellKey("_01_0") == Some((1, 0))
  {
    assert NatToStr(1) == "1" && NatToStr(0) == "0";
    assert CellName(1, 0) == "_1_0";
    CellNameParses(1, 0);
    var s := "01_0";
    assert "_01_0"[1..] == s;
    assert LastUnderscore(s) == 2 by {
      assert s[..3] == "01_";
    }
    assert s[..2] == "01" && s[3..] == "0";
    assert LastUnderscore("01") == -1 by {
      assert "01"[..1] == "0";
      assert "0"[..0] == "";
    }
    assert Split(s) == ["01", "0"];
    assert DigitsToNat("01") == 1 by {
      assert "01"[..1] == "0";
      assert "0"[..0] == "";
    }
    assert DigitsToNat("0") == 0 by {
      assert "0"[..0] == "";
    }
  }

  /** Two spellings of one cell: the later entry in dictionary order wins. */
  lemma LaterSpellingWins()
    ensures Decode(MatrixQuestion, JDict([("_1_0", JInt(1)), ("_01_0", JInt(2))])) ==
      Ok(AsGrid(2, 1, [[JNone], [JInt(2)]]))
  {
    var d := [("_1_0", JInt(1)), ("_01_0", JInt(2))];
    ExampleCellKeys();
    assert d[..1] == [("_1_0", JInt(1))];
    assert Dims(d[..1]) == (1, 0) by {
      assert d[..1][..0] == [];
    }
    assert Dims(d) == (1, 0);
    assert LastFor(d, 1, 0) == Some(JInt(2));
    assert LastFor(d, 0, 0) == None;
    var dm := DecodeMatrix(d);
    assert dm.0 == 2 && dm.1 == 1;
    assert dm.2[0] == [JNone] && dm.2[1] == [JInt(2)];
    assert dm.2 == [[JNone], [JInt(2)]];
  }

  // ---------------------------------------------------------------------
  // Input properties

  /** The input settings a proxy exposes, besides `labels` and `control`. */
  const InputSettings: seq<string> := ["min", "max", "step", "default", "left", "right", "on", "off"]

  /** The properties named in `names` that `cfg` has, copied one at a
      time. */
  function CopyProps(cfg: Dict, names: seq<string>): (m: map<string, Json>)
    ensures forall k :: k in m <==> HasKey(cfg, k) && k in names
    ensures forall k :: k in m ==> Get(cfg, k) == Some(m[k])
    decreases |names|
  {
    if |names| == 0 then map[]
    else
      var n := |names| - 1;
      var m := CopyProps(cfg, names[..n]);
      assert forall k :: k in names <==> k in names[..n] || k == names[n];
      if HasKey(cfg, names[n]) then m[names[n] := GetOr(cfg, names[n])] else m
  }

  /** The input properties of an item: exactly the listed settings,
      `labels` and `control` that its input configuration has, with their
      values. */
  function InputProps(cfg: Dict): (m: map<string, Json>)
    ensures forall k :: k in m <==> HasKey(cfg, k) && (k in InputSettings || k == "labels" || k == "control")
    ensures forall k :: k in m ==> Get(cfg, k) == Some(m[k])
  {
    CopyProps(cfg, PropNames())
  }

  /** Every property name the constructor looks up in the input
      configuration. */
  function PropNames(): seq<string> {
    InputSettings + ["labels", "control"]
  }

  /** `item.get('input', {})` as the dictionary the properties are copied
      from. A string or a list answers `prop in input_config` without
      raising: one that contains none of the names gives no properties,
      and one that contains a name fails on `input_config[prop]`. Any other
      value fails at the first `prop in input_config`. */
  function InputConfig(item: Dict): (r: Result<Dict, ProxyError>)
    ensures Get(item, "input").None? ==> r == Ok([])
    ensures (match Get(item, "input") case Some(JDict(cfg)) => r == Ok(cfg) case _ => true)
    ensures r.Err? ==> r.error == TypeError
    ensures (match Get(item, "input")
      case Some(JStr(s)) => r.Err? <==> exists n :: n in PropNames() && Contains(s, n)
      case Some(JList(l)) => r.Err? <==> exists n :: n in PropNames() && JStr(n) in l
      case Some(JDict(_)) => r.Ok?
      case None => r.Ok?
      case Some(_) => r.Err?)
  {
    match Get(item, "input")
    case None => Ok([])
    case Some(JDict(cfg)) => Ok(cfg)
    case Some(JStr(s)) =>
      var hit := exists i :: 0 <= i < |PropNames()| && Contains(s, PropNames()[i]);
      assert hit <==> exists n :: n in PropNames() && Contains(s, n) by {
        if exists n :: n in PropNames() && Contains(s, n) {
          var n :| n in PropNames() && Contains(s, n);
          var i :| 0 <= i < |PropNames()| && PropNames()[i] == n;
        }
      }
      if hit then Err(TypeError) else Ok([])
    case Some(JList(l)) =>
      var hit := exists i :: 0 <= i < |PropNames()| && JStr(PropNames()[i]) in l;
      assert hit <==> exists n :: n in PropNames() && JStr(n) in l by {
        if exists n :: n in PropNames() && JStr(n) in l {
          var n :| n in PropNames() && JStr(n) in l;
          var i :| 0 <= i < |PropNames()| && PropNames()[i] == n;
        }
      }
      if hit then Err(TypeError) else Ok([])
    case Some(_) => Err(TypeError)
  }

  /** A string setting with no property name in it, such as `"x"`, gives no
      properties; `"minimal"` contains `min` and fails. */
  lemma StringInputConfig()
    ensures InputConfig([("input", JStr("x"))]) == Ok([])
    ensures InputConfig([("input", JStr("minimal"))]) == Err(TypeError)
  {
    var x := "x";
    forall n | n in PropNames() ensures !Contains(x, n) {
      assert |n| >= 2;
      ContainsBounds(x, n);
    }
    ContainsBounds("minimal", "min");
    assert PropNames()[0] == "min";
  }

  // ---------------------------------------------------------------------
  // The proxy object

  /** The `outcome` attribute: not yet set, a plain value (a list for a
      question group), or a table for a matrix question. */
  datatype Outcome = Unset | OJson(j: Json) | OTable(t: T.Table<Json>)

  class ItemProxy {
    var id: Json
    var rawOutcome: Json
    var kind: Json
    var outcome: Outcome
    var inputProps: map<string, Json>

    /** Only a matrix question holds a table, and a question or group has
        its outcome set. */
    predicate Consistent()
      reads this
    {
      (outcome.OTable? ==> kind == MatrixQuestion) &&
      (kind == Question || kind == QuestionGroup ==> outcome.OJson?)
    }

    /** The attributes `id`, `raw_outcome` and `kind`, read from the item
        before its outcome is decoded. */
    constructor Init(item: Dict)
      ensures id == GetOr(item, "id") && rawOutcome == GetOr(item, "outcome") && kind == GetOr(item, "kind")
      ensures outcome == Unset && inputProps == map[]
    {
      id := GetOr(item, "id");
      rawOutcome := GetOr(item, "outcome");
      kind := GetOr(item, "kind");
      outcome := Unset;
      inputProps := map[];
    }

    /** `from_outcome(raw)`: sets `outcome` as `Decode` says, or raises its
        error leaving `outcome` as it was. */
    method FromOutcome(raw: Json) returns (r: Result<(), ProxyError>)
      modifies this
      ensures id == old(id) && rawOutcome == old(rawOutcome) && kind == old(kind) && inputProps == old(inputProps)
      ensures r.Err? <==> Decode(kind, raw).Err?
      ensures r.Err? ==> r.error == Decode(kind, raw).error && outcome == old(outcome)
      ensures r.Ok? && Decode(kind, raw).value.Keep? ==> outcome == old(outcome)
      ensures r.Ok? && Decode(kind, raw).value.AsJson? ==> outcome == OJson(Decode(kind, raw).value.j)
      ensures r.Ok? && Decode(kind, raw).value.AsGrid? ==>
        outcome.OTable? && fresh(outcome.t) && outcome.t.Valid() &&
        outcome.t.rows == Decode(kind, raw).value.rows && outcome.t.cols == Decode(kind, raw).value.cols &&
        outcome.t.defaultValue == JNone && outcome.t.Cells() == Decode(kind, raw).value.cells
    {
      if kind == Question {
        if Blank(raw) {
          outcome := OJson(JNone);
        } else if raw.JDict? {
          outcome := OJson(GetOr(raw.d, "_"));
        } else {
          outcome := OJson(raw);
        }
        return Ok(());
      } else if kind == QuestionGroup {
        if Blank(raw) {
          outcome := OJson(JNone);
          return Ok(());
        }
        if !raw.JDict? {
          return Err(AttributeError);
        }
        var d := raw.d;
        var indices := GroupIndices(KeysOf(d));
        if |indices| == 0 {
          return Err(ValueError);
        }
        var result := GroupList(d, Max(indices) + 1);
        assert result == DecodeGroup(d).value;
        outcome := OJson(JList(result));
        return Ok(());
      } else if kind == MatrixQuestion {
        if Blank(raw) {
          outcome := OJson(JNone);
          return Ok(());
        }
        if !raw.JDict? {
          return Err(AttributeError);
        }
        var d := raw.d;
        var table := MatrixFromDict(d);
        outcome := OTable(table);
        return Ok(());
      } else {
        if Blank(raw) {
          outcome := OJson(raw);
        }
        return Ok(());
      }
    }

    /** The input properties of `item`, copied one setting at a time. */
    method ExtractInput(item: Dict) returns (r: Result<(), ProxyError>)
      modifies this
      ensures id == old(id) && rawOutcome == old(rawOutcome) && kind == old(kind) && outcome == old(outcome)
      ensures r.Err? <==> InputConfig(item).Err?
      ensures r.Err? ==> r.error == TypeError && inputProps == old(inputProps)
      ensures r.Ok? ==> inputProps == InputProps(InputConfig(item).value)
    {
      var config := InputConfig(item);
      if config.Err? {
        return Err(TypeError);
      }
      inputProps := CollectProps(config.value);
      return Ok(());
    }

    /** `to_outcome()`: the storage form of the `outcome` attribute. */
    method ToOutcome() returns (r: Result<Json, ProxyError>)
      requires Consistent()
      requires outcome.OTable? ==> outcome.t.Valid()
      ensures kind == Question ==> r == Ok(EncodeQuestion(outcome.j))
      ensures kind == QuestionGroup && outcome.j == JNone ==> r == Ok(JNone)
      ensures kind == QuestionGroup && outcome.j != JNone ==>
        r == match Iterated(outcome.j) case Some(l) => Ok(JDict(EncodeGroup(l))) case None => Err(TypeError)
      ensures kind == MatrixQuestion && outcome.OTable? ==> r == Ok(JDict(EncodeGrid(outcome.t.Cells())))
      ensures kind == MatrixQuestion && !outcome.OTable? ==> r == Ok(JNone)
      ensures kind != Question && kind != QuestionGroup && kind != MatrixQuestion ==>
        r == if outcome.Unset? then Err(AttributeError) else Ok(outcome.j)
    {
      if kind == Question {
        var v := outcome.j;
        if v == JNone {
          return Ok(JNone);
        }
        return Ok(JDict([("_", v)]));
      } else if kind == QuestionGroup {
        var v := outcome.j;
        if v == JNone {
          return Ok(JNone);
        }
        var items := Iterated(v);
        if items.None? {
          return Err(TypeError);
        }
        var l := items.value;
        var out: Dict := [];
        var i := 0;
        while i < |l|
          invariant 0 <= i <= |l| && out == EncodeGroup(l[..i])
        {
          assert l[..i + 1][..i] == l[..i];
          if l[i] != JNone {
            EncodeGroupFreshKey(l[..i], i);
            PutNew(out, GroupKey(i), l[i]);
            out := Put(out, GroupKey(i), l[i]);
          }
          i := i + 1;
        }
        assert l[..i] == l;
        return Ok(JDict(out));
      } else if kind == MatrixQuestion {
        if !outcome.OTable? {
          return Ok(JNone);
        }
        var out := MatrixToDict(outcome.t);
        return Ok(JDict(out));
      }
      if outcome.Unset? {
        return Err(AttributeError);
      }
      return Ok(outcome.j);
    }
  }

  /** The first pass of the matrix branch of `from_outcome`: the largest
      row and column among the cell keys. */
  method MatrixShape(d: Dict) returns (maxRow: nat, maxCol: nat)
    ensures (maxRow, maxCol) == Dims(d)
  {
    maxRow, maxCol := 0, 0;
    var k := 0;
    while k < |d|
      invariant 0 <= k <= |d| && (maxRow, maxCol) == Dims(d[..k])
    {
      assert d[..k + 1][..k] == d[..k];
      var rc := CellKey(d[k].0);
      if rc.Some? {
        maxRow := MaxNat(maxRow, rc.value.0);
        maxCol := MaxNat(maxCol, rc.value.1);
      }
      k := k + 1;
    }
    assert d[..k] == d;
  }

  /** Copying one more name. */
  lemma CopyPropsSnoc(cfg: Dict, names: seq<string>, n: string)
    ensures CopyProps(cfg, names + [n]) ==
      if HasKey(cfg, n) then CopyProps(cfg, names)[n := GetOr(cfg, n)] else CopyProps(cfg, names)
  {
    assert (names + [n])[..|names|] == names;
  }

  /** Each name of `names` that the configuration has, in turn. */
  method CopyEach(cfg: Dict, names: seq<string>) returns (props: map<string, Json>)
    ensures props == CopyProps(cfg, names)
  {
    props := map[];
    var i := 0;
    while i < |names|
      invariant 0 <= i <= |names| && props == CopyProps(cfg, names[..i])
    {
      var prop := names[i];
      CopyPropsSnoc(cfg, names[..i], prop);
      assert names[..i] + [prop] == names[..i + 1];
      if HasKey(cfg, prop) {
        props := props[prop := GetOr(cfg, prop)];
      }
      i := i + 1;
    }
    assert names[..i] == names;
  }

  /** The copying of the constructor: each listed setting, then `labels`,
      then `control`, when the configuration has it. */
  method CollectProps(cfg: Dict) returns (props: map<string, Json>)
    ensures props == InputProps(cfg)
  {
    props := CopyEach(cfg, InputSettings);
    CopyPropsSnoc(cfg, InputSettings, "labels");
    if HasKey(cfg, "labels") {
      props := props["labels" := GetOr(cfg, "labels")];
    }
    CopyPropsSnoc(cfg, InputSettings + ["labels"], "control");
    if HasKey(cfg, "control") {
      props := props["control" := GetOr(cfg, "control")];
    }
    assert InputSettings + ["labels"] + ["control"] == PropNames();
  }

  /** One more entry changes only the cell it names. */
  lemma CellValueStep(d: Dict, k: nat, r: nat, c: nat)
    requires k < |d|
    ensures CellValue(d[..k + 1], r, c) == if CellKey(d[k].0) == Some((r, c)) then d[k].1 else CellValue(d[..k], r, c)
  {
    assert d[..k + 1][..k] == d[..k];
  }

  /** Writing entry `k` to its cell takes the cells from the first `k`
      entries' values to the first `k + 1` entries'. */
  lemma FillStep(before: seq<seq<Json>>, after: seq<seq<Json>>, rows: int, cols: int, d: Dict, k: nat)
    requires k < |d| && |before| >= rows && |after| >= rows
    requires forall r :: 0 <= r < rows ==> |before[r]| >= cols && |after[r]| >= cols
    requires forall r, c :: 0 <= r < rows && 0 <= c < cols ==> before[r][c] == CellValue(d[..k], r, c)
    requires forall r, c :: 0 <= r < rows && 0 <= c < cols ==>
      after[r][c] == if CellKey(d[k].0) == Some((r, c)) then d[k].1 else before[r][c]
    ensures forall r, c :: 0 <= r < rows && 0 <= c < cols ==> after[r][c] == CellValue(d[..k + 1], r, c)
  {
    forall r, c | 0 <= r < rows && 0 <= c < cols
      ensures after[r][c] == CellValue(d[..k + 1], r, c)
    {
      CellValueStep(d, k, r, c);
    }
  }

  /** `table[row, col] = value` for a valid cell key. */
  method PlaceEntry(table: T.Table<Json>, rc: Option<(nat, nat)>, v: Json)
    requires table.Valid() && (rc.Some? ==> table.InBounds(rc.value.0, rc.value.1))
    modifies table.data
    ensures table.Valid() && table.data == old(table.data)
    ensures forall r, c :: table.InBounds(r, c) ==>
      table.Cells()[r][c] == if rc == Some((r, c)) then v else old(table.Cells())[r][c]
  {
    if rc.Some? {
      var ok := table.Set(T.Pair(rc.value.0, rc.value.1), v);
    }
  }

  /** The matrix branch of `from_outcome`: the shape from a first pass
      over the keys, then the cells from a second pass in dictionary
      order. */
  method MatrixFromDict(d: Dict) returns (table: T.Table<Json>)
    ensures fresh(table) && table.Valid() && table.defaultValue == JNone
    ensures table.rows == DecodeMatrix(d).0 && table.cols == DecodeMatrix(d).1
    ensures table.Cells() == DecodeMatrix(d).2
  {
    var maxRow, maxCol := MatrixShape(d);
    table := new T.Table(maxRow + 1, maxCol + 1, JNone);
    FillCells(table, d);
    GridsEqual(table.Cells(), DecodeMatrix(d).2, maxCol + 1);
  }

  /** The second pass: each entry with a cell key, in dictionary order,
      written to its cell of a table that starts out empty. */
  method FillCells(table: T.Table<Json>, d: Dict)
    requires table.Valid() && forall r, c :: table.InBounds(r, c) ==> table.Cells()[r][c] == JNone
    requires forall i :: 0 <= i < |d| && CellKey(d[i].0).Some? ==> table.InBounds(CellKey(d[i].0).value.0, CellKey(d[i].0).value.1)
    modifies table.data
    ensures table.Valid() && table.data == old(table.data)
    ensures forall r, c :: table.InBounds(r, c) ==> table.Cells()[r][c] == CellValue(d, r, c)
  {
    var k := 0;
    while k < |d|
      invariant 0 <= k <= |d|
      invariant table.Valid() && table.data == old(table.data)
      invariant forall r, c :: table.InBounds(r, c) ==> table.Cells()[r][c] == CellValue(d[..k], r, c)
    {
      ghost var before := table.Cells();
      PlaceEntry(table, CellKey(d[k].0), d[k].1);
      FillStep(before, table.Cells(), table.rows, table.cols, d, k);
      k := k + 1;
    }
    assert d[..k] == d;
  }

  /** The matrix branch of `to_outcome`: every answered cell under its
      key, row by row. */
  method MatrixToDict(t: T.Table<Json>) returns (out: Dict)
    requires t.Valid()
    ensures out == EncodeGrid(t.Cells())
  {
    ghost var g := t.Cells();
    out := [];
    var row := 0;
    while row < t.rows
      invariant 0 <= row <= T.Clamp(t.rows) && out == EncodeGrid(g[..row])
    {
      out := RowToDict(t, row, out);
      assert g[..row + 1][..row] == g[..row];
      row := row + 1;
    }
    assert g[..row] == g;
  }

  /** The inner loop of the matrix branch of `to_outcome`: the answered
      cells of one row appended under their keys. */
  method RowToDict(t: T.Table<Json>, row: nat, out0: Dict) returns (out: Dict)
    requires t.Valid() && row < t.rows && out0 == EncodeGrid(t.Cells()[..row])
    ensures out == out0 + EncodeRow(row, t.Cells()[row])
  {
    ghost var g := t.Cells();
    out := out0;
    var col := 0;
    while col < t.cols
      invariant 0 <= col <= T.Clamp(t.cols)
      invariant out == out0 + EncodeRow(row, g[row][..col])
    {
      var cell := t.Get(T.Pair(row, col));
      var value := cell.value.value;
      RowStep(g, row, col, out0, out);
      if value != JNone {
        out := Put(out, CellName(row, col), value);
      }
      col := col + 1;
    }
    assert g[row][..col] == g[row];
  }

  /** One cell of the inner loop: an answered cell is a new key, written
      last. */
  lemma RowStep(g: seq<seq<Json>>, row: nat, col: nat, out0: Dict, out: Dict)
    requires row < |g| && col < |g[row]|
    requires out0 == EncodeGrid(g[..row]) && out == out0 + EncodeRow(row, g[row][..col])
    ensures (if g[row][col] != JNone then Put(out, CellName(row, col), g[row][col]) else out) ==
      out0 + EncodeRow(row, g[row][..col + 1])
  {
    assert g[row][..col + 1][..col] == g[row][..col];
    if g[row][col] != JNone {
      EncodeGridFreshKey(g, row, col);
      PutNew(out, CellName(row, col), g[row][col]);
    }
  }

  /** `ItemProxy(item)`: fails when decoding the outcome fails or reading
      the input configuration raises, with the error of the first. */
  method NewProxy(item: Dict) returns (r: Result<ItemProxy, ProxyError>)
    ensures r.Err? <==> Decode(GetOr(item, "kind"), GetOr(item, "outcome")).Err? || InputConfig(item).Err?
    ensures var d := Decode(GetOr(item, "kind"), GetOr(item, "outcome"));
      r.Err? ==> r.error == (if d.Err? then d.error else InputConfig(item).error)
    ensures r.Ok? ==> fresh(r.value) && r.value.Consistent()
    ensures r.Ok? ==> r.value.id == GetOr(item, "id") && r.value.kind == GetOr(item, "kind")
    ensures r.Ok? ==> r.value.rawOutcome == GetOr(item, "outcome") && r.value.inputProps == InputProps(InputConfig(item).value)
    ensures r.Ok? ==> var d := Decode(GetOr(item, "kind"), GetOr(item, "outcome")).value;
      (d.Keep? ==> r.value.outcome == Unset) && (d.AsJson? ==> r.value.outcome == OJson(d.j)) &&
      (d.AsGrid? ==> (r.value.outcome.OTable? && fresh(r.value.outcome.t) && r.value.outcome.t.Valid() &&
        r.value.outcome.t.rows == d.rows && r.value.outcome.t.cols == d.cols && r.value.outcome.t.Cells() == d.cells))
  {
    var p := new ItemProxy.Init(item);
    var e := p.FromOutcome(p.rawOutcome);
    if e.Err? {
      return Err(e.error);
    }
    var e2 := p.ExtractInput(item);
    if e2.Err? {
      return Err(e2.error);
    }
    return Ok(p);
  }

  // ---------------------------------------------------------------------
  // The stored outcome

  /** The `outcome` attribute as a value: never set, a plain value (a list
      for a question group), or the shape and cells of a table. */
  datatype Held = NotSet | Plain(j: Json) | Grid(rows: nat, cols: nat, cells: seq<seq<Json>>)

  /** The attribute after `from_outcome(raw)` on a proxy of kind `kind`
      that holds `prev`: what `Decode` gives, or `prev` when the decoding
      keeps the attribute (a failing decoding raises and leaves it too). */
  function Hold(prev: Held, kind: Json, raw: Json): (h: Held)
    ensures h.Grid? ==> prev.Grid? || kind == MatrixQuestion
  {
    match Decode(kind, raw)
    case Ok(AsJson(j)) => Plain(j)
    case Ok(AsGrid(r, c, cells)) => Grid(r, c, cells)
    case _ => prev
  }

  /** `to_outcome()` of a proxy of kind `kind` whose attribute is `h`;
      reading an attribute that was never set raises `AttributeError`. */
  function Storage(kind: Json, h: Held): Result<Json, ProxyError>
    requires h.Grid? ==> kind == MatrixQuestion
  {
    match h
    case NotSet => Err(AttributeError)
    case Grid(_, _, cells) => Ok(JDict(EncodeGrid(cells)))
    case Plain(v) =>
      if kind == Question then Ok(EncodeQuestion(v))
      else if kind == QuestionGroup then
        if v == JNone then Ok(JNone)
        else
          match Iterated(v)
          case Some(l) => Ok(JDict(EncodeGroup(l)))
          case None => Err(TypeError)
      else if kind == MatrixQuestion then Ok(JNone)
      else Ok(v)
  }

  /** `ItemProxy(item).to_outcome()`, after `from_outcome(s)` when an
      outcome `s` is submitted: the storage form of the decoded outcome. An
      item of another kind keeps a blank outcome; it has no attribute to
      store when both outcomes are non-blank. */
  function StoredOutcome(item: Dict, submitted: Option<Json>): (r: Result<Json, ProxyError>)
    ensures var kind := GetOr(item, "kind");
      var d := Decode(kind, if submitted.Some? then submitted.value else GetOr(item, "outcome"));
      kind == Question ==> r == Ok(EncodeQuestion(d.value.j))
    ensures var kind := GetOr(item, "kind");
      var d := Decode(kind, if submitted.Some? then submitted.value else GetOr(item, "outcome"));
      kind == QuestionGroup && d.Ok? ==>
        r == match d.value case AsJson(JList(l)) => Ok(JDict(EncodeGroup(l))) case _ => Ok(JNone)
    ensures var kind := GetOr(item, "kind");
      var d := Decode(kind, if submitted.Some? then submitted.value else GetOr(item, "outcome"));
      kind == MatrixQuestion && d.Ok? ==>
        r == if d.value.AsGrid? then Ok(JDict(EncodeGrid(d.value.cells))) else Ok(JNone)
    ensures var kind := GetOr(item, "kind");
      var raw := if submitted.Some? then submitted.value else GetOr(item, "outcome");
      kind != Question && kind != QuestionGroup && kind != MatrixQuestion ==>
        r == if Blank(raw) then Ok(raw)
             else if submitted.Some? && Blank(GetOr(item, "outcome")) then Ok(GetOr(item, "outcome"))
             else Err(AttributeError)
  {
    var kind := GetOr(item, "kind");
    var h := Hold(NotSet, kind, GetOr(item, "outcome"));
    Storage(kind, if submitted.Some? then Hold(h, kind, submitted.value) else h)
  }

  /** A question's stored outcome decodes back to the decoded answer. */
  lemma StoredQuestionDecodesBack(item: Dict, submitted: Option<Json>)
    requires GetOr(item, "kind") == Question
    ensures var d := Decode(Question, if submitted.Some? then submitted.value else GetOr(item, "outcome"));
      StoredOutcome(item, submitted) == Ok(EncodeQuestion(d.value.j)) &&
      Decode(Question, StoredOutcome(item, submitted).value) == d
  {
    var d := Decode(Question, if submitted.Some? then submitted.value else GetOr(item, "outcome"));
    assert StoredOutcome(item, submitted) == Ok(EncodeQuestion(d.value.j));
    QuestionRoundTrip(d.value.j);
  }

  /** A group's stored outcome decodes back to the decoded list when its
      last entry is answered. */
  lemma StoredGroupDecodesBack(item: Dict, submitted: Option<Json>, l: seq<Json>)
    requires GetOr(item, "kind") == QuestionGroup
    requires Decode(QuestionGroup, if submitted.Some? then submitted.value else GetOr(item, "outcome")) == Ok(AsJson(JList(l)))
    requires |l| > 0 && l[|l| - 1] != JNone
    ensures StoredOutcome(item, submitted) == Ok(JDict(EncodeGroup(l)))
    ensures Decode(QuestionGroup, StoredOutcome(item, submitted).value) == Ok(AsJson(JList(l)))
  {
    assert StoredOutcome(item, submitted) == Ok(JDict(EncodeGroup(l)));
    GroupRoundTrip(l);
  }
}

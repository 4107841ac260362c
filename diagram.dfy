/** The parts of `QMLDiagram` that decide what a diagram says: the text
    helpers for node labels, the splice of a colouring section between the
    item-styling markers, the flow and analysis colouring tables and the
    nodes styled as cycle members. */
module Diagram {
  import opened Wrappers
  import opened Smt
  import opened Graphs
  import opened Conditions
  import opened Classifier
  import opened Topology
  import J = Json

  // ---------------------------------------------------------------------
  // `_truncate_text`.

  /** Python's `t[:n]`: a negative `n` counts from the end. */
  function PrefixSlice(t: string, n: int): (r: string)
    ensures 0 <= n <= |t| ==> r == t[..n]
    ensures n > |t| ==> r == t
    ensures n < 0 ==> r == t[..if |t| + n < 0 then 0 else |t| + n]
  {
    if n >= 0 then (if n <= |t| then t[..n] else t)
    else if |t| + n < 0 then "" else t[..|t| + n]
  }

  /** `_truncate_text(text, max_length)`. */
  function Truncate(text: string, maxLength: int): string {
    if |text| <= maxLength then text else PrefixSlice(text, maxLength - 3) + "..."
  }

  /** Text that fits is unchanged; longer text keeps its first
      `maxLength - 3` characters followed by "...", exactly `maxLength`
      characters in all, once `maxLength` is at least 3. */
  lemma TruncateMeaning(text: string, maxLength: int)
    ensures |text| <= maxLength ==> Truncate(text, maxLength) == text
    ensures |text| > maxLength >= 3 ==>
      var r := Truncate(text, maxLength);
      |r| == maxLength && r[..maxLength - 3] == text[..maxLength - 3] && r[maxLength - 3..] == "..."
    ensures |Truncate(text, maxLength)| <= |text| + 3
  {
  }

  /** Below 3 the slice index is negative and counts from the end, so the
      result is longer than the limit. */
  lemma TruncateShortLimit()
    ensures Truncate("abcde", 2) == "abcd..."
  {
    assert PrefixSlice("abcde", -1) == "abcd";
  }

  // ---------------------------------------------------------------------
  // `_escape_for_mermaid`.

  /** `s.replace(c, rep)` for a one-character pattern. */
  function ReplaceChar(s: string, c: char, rep: string): (r: string)
    ensures c !in rep ==> c !in r
    ensures forall x :: x in r ==> x in s || x in rep
    decreases |s|
  {
    if |s| == 0 then ""
    else (if s[0] == c then rep else [s[0]]) + ReplaceChar(s[1..], c, rep)
  }

  lemma {:induction false} ReplaceCharConcat(a: string, b: string, c: char, rep: string)
    ensures ReplaceChar(a + b, c, rep) == ReplaceChar(a, c, rep) + ReplaceChar(b, c, rep)
    decreases |a|
  {
    if |a| > 0 {
      assert (a + b)[0] == a[0] && (a + b)[1..] == a[1..] + b;
      ReplaceCharConcat(a[1..], b, c, rep);
    } else {
      assert a + b == b;
    }
  }

  lemma {:induction false} ReplaceAbsent(s: string, c: char, rep: string)
    requires c !in s
    ensures ReplaceChar(s, c, rep) == s
    decreases |s|
  {
    if |s| > 0 {
      ReplaceAbsent(s[1..], c, rep);
      assert s == [s[0]] + s[1..];
    }
  }

  /** The three `replace` passes. */
  function Passes(s: string): string {
    ReplaceChar(ReplaceChar(ReplaceChar(s, '<', "&lt;"), '>', "&gt;"), '"', "&quot;")
  }

  /** `_escape_for_mermaid(text)`: the empty text is returned as it is;
      otherwise `<`, `>` and `"` are replaced, in that order. */
  function Escape(text: string): string {
    if text == "" then text else Passes(text)
  }

  /** The entity for one character. */
  function EscapeChar(ch: char): string {
    if ch == '<' then "&lt;" else if ch == '>' then "&gt;" else if ch == '"' then "&quot;" else [ch]
  }

  /** Each character replaced by its entity, all at once. */
  function EscapeEach(s: string): string
    decreases |s|
  {
    if |s| == 0 then "" else EscapeChar(s[0]) + EscapeEach(s[1..])
  }

  lemma PassesConcat(a: string, b: string)
    ensures Passes(a + b) == Passes(a) + Passes(b)
  {
    ReplaceCharConcat(a, b, '<', "&lt;");
    var a1, b1 := ReplaceChar(a, '<', "&lt;"), ReplaceChar(b, '<', "&lt;");
    ReplaceCharConcat(a1, b1, '>', "&gt;");
    ReplaceCharConcat(ReplaceChar(a1, '>', "&gt;"), ReplaceChar(b1, '>', "&gt;"), '"', "&quot;");
  }

  lemma ReplaceOne(ch: char, c: char, rep: string)
    ensures ReplaceChar([ch], c, rep) == if ch == c then rep else [ch]
  {
    assert [ch][1..] == [];
    var head := if ch == c then rep else [ch];
    assert head + "" == head;
  }

  /** No pass touches what an earlier one produced. */
  lemma PassesChar(ch: char)
    ensures Passes([ch]) == EscapeChar(ch)
  {
    var s1 := ReplaceChar([ch], '<', "&lt;");
    ReplaceOne(ch, '<', "&lt;");
    var s2 := ReplaceChar(s1, '>', "&gt;");
    if ch == '<' {
      ReplaceAbsent(s1, '>', "&gt;");
      ReplaceAbsent(s2, '"', "&quot;");
    } else {
      ReplaceOne(ch, '>', "&gt;");
      if ch == '>' {
        ReplaceAbsent(s2, '"', "&quot;");
      } else {
        ReplaceOne(ch, '"', "&quot;");
      }
    }
  }

  /** Replacing in sequence is the same as replacing every character by
      its entity at once. */
  lemma {:induction false} EscapeIsEach(s: string)
    ensures Escape(s) == EscapeEach(s)
    decreases |s|
  {
    if |s| > 0 {
      var rest := s[1..];
      assert s == [s[0]] + rest;
      PassesConcat([s[0]], rest);
      PassesChar(s[0]);
      EscapeIsEach(rest);
      if rest == "" {
        assert Passes(rest) == "";
      }
    }
  }

  /** The escaped text has none of the three characters, and nothing else
      of the text changes. */
  lemma EscapeMeaning(s: string)
    ensures s == "" ==> Escape(s) == s
    ensures '<' !in Escape(s) && '>' !in Escape(s) && '"' !in Escape(s)
    ensures (forall k :: 0 <= k < |s| ==> s[k] != '<' && s[k] != '>' && s[k] != '"') ==> Escape(s) == s
  {
    EscapeIsEach(s);
    EachNoSpecial(s);
    if forall k :: 0 <= k < |s| ==> s[k] != '<' && s[k] != '>' && s[k] != '"' {
      PlainEach(s);
    }
  }

  lemma {:induction false} EachNoSpecial(s: string)
    ensures '<' !in EscapeEach(s) && '>' !in EscapeEach(s) && '"' !in EscapeEach(s)
    decreases |s|
  {
    if |s| > 0 {
      EachNoSpecial(s[1..]);
      var h := EscapeChar(s[0]);
      assert '<' !in h && '>' !in h && '"' !in h;
    }
  }

  lemma {:induction false} PlainEach(s: string)
    requires forall k :: 0 <= k < |s| ==> s[k] != '<' && s[k] != '>' && s[k] != '"'
    ensures EscapeEach(s) == s
    decreases |s|
  {
    if |s| > 0 {
      PlainEach(s[1..]);
      assert s == [s[0]] + s[1..];
    }
  }

  // ---------------------------------------------------------------------
  // `split('\n')` and `'\n'.join(...)`.

  /** The index of the first `c` in `s`, or `|s|`. */
  function IndexOfChar(s: string, c: char): (i: nat)
    ensures i <= |s| && (i < |s| ==> s[i] == c) && c !in s[..i]
    decreases |s|
  {
    if |s| == 0 then 0
    else if s[0] == c then 0
    else
      var i := IndexOfChar(s[1..], c);
      assert s[..i + 1] == [s[0]] + s[1..][..i];
      i + 1
  }

  /** `s.split('\n')`: never empty; the empty text is one empty line. */
  function Split(s: string): (lines: seq<string>)
    ensures |lines| >= 1
    ensures forall k :: 0 <= k < |lines| ==> '\n' !in lines[k]
    decreases |s|
  {
    var i := IndexOfChar(s, '\n');
    if i == |s| then (assert s[..i] == s; [s])
    else [s[..i]] + Split(s[i + 1..])
  }

  /** `'\n'.join(lines)`. */
  function Join(lines: seq<string>): string
    decreases |lines|
  {
    if |lines| == 0 then ""
    else if |lines| == 1 then lines[0]
    else lines[0] + "\n" + Join(lines[1..])
  }

  /** Joining the lines gives the text back. */
  lemma {:induction false} JoinSplit(s: string)
    ensures Join(Split(s)) == s
    decreases |s|
  {
    var i := IndexOfChar(s, '\n');
    if i < |s| {
      var rest := s[i + 1..];
      JoinSplit(rest);
      var tail := Split(rest);
      var lines := [s[..i]] + tail;
      assert Split(s) == lines;
      assert |lines| >= 2 && lines[0] == s[..i] && lines[1..] == tail;
      assert Join(lines) == s[..i] + "\n" + Join(tail);
      assert s == s[..i] + "\n" + rest;
    } else {
      assert s[..i] == s;
    }
  }

  /** Splitting a join of lines without line breaks gives the lines back. */
  lemma {:induction false} SplitJoin(lines: seq<string>)
    requires |lines| >= 1 && forall k :: 0 <= k < |lines| ==> '\n' !in lines[k]
    ensures Split(Join(lines)) == lines
    decreases |lines|
  {
    var s := Join(lines);
    if |lines| == 1 {
      assert s == lines[0];
      assert IndexOfChar(s, '\n') == |s|;
    } else {
      var rest := Join(lines[1..]);
      SplitJoin(lines[1..]);
      assert s == lines[0] + "\n" + rest;
      var i := IndexOfChar(s, '\n');
      assert s[|lines[0]|] == '\n';
      assert s[..|lines[0]|] == lines[0];
      assert i == |lines[0]|;
      assert s[i + 1..] == rest;
    }
  }

  // ---------------------------------------------------------------------
  // `_insert_coloring`.

  const BeginMarker := "%% BEGIN_ITEM_STYLING"
  const EndMarker := "%% END_ITEM_STYLING"

  /** Python's `p in s` for strings. */
  predicate Contains(s: string, p: string)
    decreases |s|
  {
    p <= s || (|s| > 0 && Contains(s[1..], p))
  }

  predicate IsBegin(line: string) { Contains(line, BeginMarker) }

  /** The `elif`: a line with both markers counts as the begin marker. */
  predicate IsEnd(line: string) { !IsBegin(line) && Contains(line, EndMarker) }

  /** The first end-marker line, or -1. */
  function EndIndex(lines: seq<string>): (e: int)
    ensures -1 <= e < |lines|
    ensures e >= 0 ==> IsEnd(lines[e]) && forall j :: 0 <= j < e ==> !IsEnd(lines[j])
    ensures e == -1 ==> forall j :: 0 <= j < |lines| ==> !IsEnd(lines[j])
    decreases |lines|
  {
    if |lines| == 0 then -1
    else if IsEnd(lines[0]) then 0
    else
      var e := EndIndex(lines[1..]);
      if e < 0 then -1 else e + 1
  }

  /** The last begin-marker line before `limit`, or -1. */
  function LastBegin(lines: seq<string>, limit: nat): (b: int)
    requires limit <= |lines|
    ensures -1 <= b < limit
    ensures b >= 0 ==> IsBegin(lines[b]) && forall j :: b < j < limit ==> !IsBegin(lines[j])
    ensures b == -1 ==> forall j :: 0 <= j < limit ==> !IsBegin(lines[j])
    decreases limit
  {
    if limit == 0 then -1
    else if IsBegin(lines[limit - 1]) then limit - 1
    else LastBegin(lines, limit - 1)
  }

  /** `begin_index` and `end_index` after the scan, which stops at the
      first end marker. */
  function Markers(lines: seq<string>): (int, int) {
    var e := EndIndex(lines);
    (LastBegin(lines, if e >= 0 then e else |lines|), e)
  }

  /** The lines `_insert_coloring` joins: between the markers the old
      content is replaced; after a lone begin marker the block is inserted;
      without a begin marker the colouring is appended. */
  function WithColoring(lines: seq<string>, coloring: seq<string>): seq<string> {
    var b, e := Markers(lines).0, Markers(lines).1;
    if b >= 0 && e >= 0 then lines[..b + 1] + Block(coloring) + lines[e..]
    else if b >= 0 then lines[..b + 1] + Block(coloring) + lines[b + 1..]
    else lines + [""] + coloring
  }

  /** The scan of `_insert_coloring`, which stops at the first end
      marker. */
  method ScanMarkers(lines: seq<string>) returns (beginIndex: int, endIndex: int)
    ensures (beginIndex, endIndex) == Markers(lines)
  {
    beginIndex, endIndex := -1, -1;
    for i := 0 to |lines|
      invariant endIndex == -1 && beginIndex == LastBegin(lines, i)
      invariant forall j :: 0 <= j < i ==> !IsEnd(lines[j])
    {
      if Contains(lines[i], BeginMarker) {
        beginIndex := i;
      } else if Contains(lines[i], EndMarker) {
        endIndex := i;
        return;
      }
    }
  }

  /** The splice of `_insert_coloring`, on the split lines. */
  method InsertColoringLines(lines: seq<string>, coloring: seq<string>) returns (out: seq<string>)
    ensures out == WithColoring(lines, coloring)
  {
    var beginIndex, endIndex := ScanMarkers(lines);
    if beginIndex >= 0 && endIndex >= 0 {
      out := lines[..beginIndex + 1] + Block(coloring) + lines[endIndex..];
    } else if beginIndex >= 0 {
      out := lines[..beginIndex + 1] + Block(coloring) + lines[beginIndex + 1..];
    } else {
      out := lines + [""] + coloring;
    }
  }

  /** `_insert_coloring(lines, coloring)`. */
  method InsertColoring(diagram: string, coloring: seq<string>) returns (r: string)
    ensures r == Join(WithColoring(Split(diagram), coloring))
  {
    var lines := Split(diagram);
    var out := InsertColoringLines(lines, coloring);
    r := Join(out);
  }

  /** A line that is neither marker. */
  predicate Plain(line: string) { !IsBegin(line) && !Contains(line, EndMarker) }

  /** A begin marker closing `pre`, marker-free lines in `block` and an end
      marker opening `post`: the scan finds exactly those two markers. */
  lemma SpliceMarkers(pre: seq<string>, block: seq<string>, post: seq<string>)
    requires |pre| >= 1 && IsBegin(pre[|pre| - 1]) && forall j :: 0 <= j < |pre| ==> !IsEnd(pre[j])
    requires forall j :: 0 <= j < |block| ==> Plain(block[j])
    requires |post| >= 1 && IsEnd(post[0])
    ensures Markers(pre + block + post) == (|pre| - 1, |pre| + |block|)
  {
    var out := pre + block + post;
    var e2 := |pre| + |block|;
    forall j | 0 <= j < e2 ensures !IsEnd(out[j]) {
      if j < |pre| {
        assert out[j] == pre[j];
      } else {
        assert out[j] == block[j - |pre|];
      }
    }
    assert out[e2] == post[0];
    assert EndIndex(out) == e2;
    forall j | |pre| - 1 < j < e2 ensures !IsBegin(out[j]) {
      assert out[j] == block[j - |pre|];
    }
    assert out[|pre| - 1] == pre[|pre| - 1];
  }

  /** The block `_insert_coloring` inserts: blank lines around the
      colouring. */
  function Block(coloring: seq<string>): seq<string> {
    [""] + coloring + [""]
  }

  lemma BlockPlain(coloring: seq<string>)
    requires forall k :: 0 <= k < |coloring| ==> Plain(coloring[k])
    ensures forall j :: 0 <= j < |Block(coloring)| ==> Plain(Block(coloring)[j])
  {
    assert !Contains("", BeginMarker) && !Contains("", EndMarker);
    forall j | 0 <= j < |Block(coloring)| ensures Plain(Block(coloring)[j]) {
      if 1 <= j <= |coloring| {
        assert Block(coloring)[j] == coloring[j - 1];
      }
    }
  }

  /** With both markers present, the result is the lines up to the begin
      marker, the block, and the lines from the end marker on. */
  lemma BothMarkersSplice(lines: seq<string>, coloring: seq<string>)
    requires Markers(lines).0 >= 0 && Markers(lines).1 >= 0
    ensures var (b, e) := Markers(lines);
      b < e && WithColoring(lines, coloring) == lines[..b + 1] + Block(coloring) + lines[e..] &&
      IsBegin(lines[b]) && IsEnd(lines[e]) && forall j :: 0 <= j <= b ==> !IsEnd(lines[j])
  {
  }

  /** With both markers present and colouring lines that are no marker,
      the result has both markers again, at the same begin line, with
      exactly the new colouring block between them. */
  lemma ColoringBetweenMarkers(lines: seq<string>, coloring: seq<string>)
    requires Markers(lines).0 >= 0 && Markers(lines).1 >= 0
    requires forall k :: 0 <= k < |coloring| ==> Plain(coloring[k])
    ensures var out := WithColoring(lines, coloring); var (b, e) := Markers(lines);
      Markers(out) == (b, b + |coloring| + 3) &&
      out[b + 1..b + |coloring| + 3] == Block(coloring) &&
      out[..b + 1] == lines[..b + 1] && out[b + |coloring| + 3..] == lines[e..]
  {
    var (b, e) := Markers(lines);
    BothMarkersSplice(lines, coloring);
    var pre, post := lines[..b + 1], lines[e..];
    var block := Block(coloring);
    assert pre[|pre| - 1] == lines[b] && post[0] == lines[e];
    assert forall j :: 0 <= j < |pre| ==> pre[j] == lines[j];
    BlockPlain(coloring);
    SpliceMarkers(pre, block, post);
    var out := pre + block + post;
    assert out[..b + 1] == pre;
    assert out[b + 1..b + |block| + 1] == block;
    assert out[b + |block| + 1..] == post;
  }

  /** Colouring again replaces the previous colouring: only the last one
      is left in the diagram. */
  lemma Recolour(lines: seq<string>, first: seq<string>, second: seq<string>)
    requires Markers(lines).0 >= 0 && Markers(lines).1 >= 0
    requires forall k :: 0 <= k < |first| ==> Plain(first[k])
    ensures WithColoring(WithColoring(lines, first), second) == WithColoring(lines, second)
  {
    var (b, e) := Markers(lines);
    ColoringBetweenMarkers(lines, first);
    BothMarkersSplice(lines, second);
    var out := WithColoring(lines, first);
    BothMarkersSplice(out, second);
  }

  // ---------------------------------------------------------------------
  // `apply_flow_coloring` and `apply_analysis_coloring`.

  /** `f"  {item_id}:::{style}"`. */
  function StyleLine(id: string, style: string): string {
    "  " + id + ":::" + style
  }

  /** `current_item_id` is set (neither None nor empty) and names `id`. */
  predicate IsCurrent(id: string, current: Option<string>) {
    current.Some? && current.value != "" && id == current.value
  }

  /** The flow style of one item. */
  function FlowStyle(id: string, current: Option<string>, visited: set<string>): string {
    if IsCurrent(id, current) then "current"
    else if id in visited then "visited"
    else "pending"
  }

  /** The flow colouring: one line per item of the topology, in order. */
  function FlowLines(items: seq<string>, current: Option<string>, visited: set<string>): seq<string> {
    seq(|items|, k requires 0 <= k < |items| => StyleLine(items[k], FlowStyle(items[k], current, visited)))
  }

  /** The style names never collide, so each style means what it says:
      only the current item is `current`, a visited item other than it is
      `visited`, every other item `pending`. */
  lemma FlowStyleMeaning(id: string, current: Option<string>, visited: set<string>)
    ensures FlowStyle(id, current, visited) == "current" <==> IsCurrent(id, current)
    ensures FlowStyle(id, current, visited) == "visited" <==> !IsCurrent(id, current) && id in visited
    ensures FlowStyle(id, current, visited) == "pending" <==> !IsCurrent(id, current) && id !in visited
  {
  }

  /** Styles are recognisable from the end of the line. */
  lemma StyleLineSuffix(id: string, style: string)
    ensures |StyleLine(id, style)| >= |style| && StyleLine(id, style)[|StyleLine(id, style)| - |style|..] == style
  {
  }

  /** With distinct items, exactly one line is styled `current` when the
      current id is an item, none otherwise. */
  lemma CurrentLineUnique(items: seq<string>, current: Option<string>, visited: set<string>)
    requires NoDuplicates(items)
    ensures forall j, k :: (0 <= j < |items| && 0 <= k < |items| &&
      FlowStyle(items[j], current, visited) == "current" && FlowStyle(items[k], current, visited) == "current") ==> j == k
    ensures (exists k :: 0 <= k < |items| && FlowStyle(items[k], current, visited) == "current") <==>
      current.Some? && current.value != "" && current.value in items
  {
    if current.Some? && current.value != "" && current.value in items {
      var k :| 0 <= k < |items| && items[k] == current.value;
      assert FlowStyle(items[k], current, visited) == "current";
    }
  }

  /** The loop of `apply_flow_coloring`. */
  method FlowColoring(items: seq<string>, current: Option<string>, visited: set<string>) returns (coloring: seq<string>)
    ensures coloring == FlowLines(items, current, visited)
  {
    coloring := [];
    for k := 0 to |items|
      invariant coloring == FlowLines(items[..k], current, visited)
    {
      var id := items[k];
      if current.Some? && current.value != "" && id == current.value {
        coloring := coloring + [StyleLine(id, "current")];
      } else if id in visited {
        coloring := coloring + [StyleLine(id, "visited")];
      } else {
        coloring := coloring + [StyleLine(id, "pending")];
      }
    }
    assert items[..|items|] == items;
  }

  /** The ids of the items flagged as visited, the set comprehension of
      `apply_flow_coloring` over the state's items (string ids only). */
  function VisitedIds(items: seq<J.Dict>): (r: set<string>)
    ensures forall id :: id in r <==>
      exists k :: 0 <= k < |items| && J.GetOr(items[k], "id") == J.JStr(id) && J.Truthy(J.GetOr(items[k], "visited"))
    decreases |items|
  {
    if |items| == 0 then {}
    else
      var init := items[..|items| - 1];
      var last := items[|items| - 1];
      var rest := VisitedIds(init);
      assert forall k :: 0 <= k < |init| ==> init[k] == items[k];
      if J.Truthy(J.GetOr(last, "visited")) && J.GetOr(last, "id").JStr? then rest + {J.GetOr(last, "id").s} else rest
  }

  /** `apply_flow_coloring(base_diagram, current_item_id)` for the items of
      the topology, coloured by the state's items. */
  method ApplyFlowColoring(topology: QMLTopology, stateItems: seq<J.Dict>, baseDiagram: string, current: Option<string>) returns (r: string)
    ensures r == Join(WithColoring(Split(baseDiagram), FlowLines(topology.items, current, VisitedIds(stateItems))))
  {
    var visited := VisitedIds(stateItems);
    var coloring := FlowColoring(topology.items, current, visited);
    r := InsertColoring(baseDiagram, coloring);
  }

  /** The analysis style of one classification. */
  function AnalysisStyle(cl: Classification): string {
    match cl.status
    case Always =>
      if cl.postInvariant == Constraining && !cl.vacuous then "always"
      else if cl.postInvariant == Tautological then "tautological"
      else if cl.postInvariant == Infeasible then "infeasible"
      else if cl.postInvariant == NoInvariant then "always"
      else "visited"
    case Conditional =>
      if cl.postInvariant == Tautological then "tautological"
      else if cl.postInvariant == Infeasible then "infeasible"
      else "conditional"
    case Never => "never"
    case StatusUnknown => "pending"
  }

  /** What an item's analysis style says about it: an unknown item is
      `pending`; for a known item the fallback `visited` never occurs;
      `tautological` and `infeasible` come from the postcondition and
      need a reachable item; otherwise the style is the precondition
      status. */
  lemma AnalysisStyleOfItem(c: Compiled, check: BoolTerm -> Answer, id: string)
    ensures id !in c.details ==> AnalysisStyle(ClassifyItem(c, check, id)) == "pending"
    ensures id in c.details ==>
      var cl := ClassifyItem(c, check, id); var style := AnalysisStyle(cl);
      style != "visited" && style != "pending" &&
      (style == "never" <==> cl.status == Never) &&
      (style == "tautological" <==> cl.status != Never && cl.postInvariant == Tautological) &&
      (style == "infeasible" <==> cl.status != Never && cl.postInvariant == Infeasible) &&
      (style == "always" <==> cl.status == Always && (cl.postInvariant == Constraining || cl.postInvariant == NoInvariant)) &&
      (style == "conditional" <==> cl.status == Conditional && (cl.postInvariant == Constraining || cl.postInvariant == NoInvariant))
  {
  }

  /** With a sound solver the styles are sound: an `always` item's
      precondition follows from the domains, a `never` item's cannot hold,
      a `tautological` item's postcondition follows from its precondition
      and an `infeasible` item's cannot hold with it. */
  lemma AnalysisStyleSound(c: Compiled, check: BoolTerm -> Answer, id: string)
    requires SoundSolver(check) && id in c.details
    ensures var style := AnalysisStyle(ClassifyItem(c, check, id)); var d := c.details[id];
      (style == "always" ==> Entails(c.base, d.pre)) &&
      (style == "never" ==> !Satisfiable(Both(c.base, d.pre))) &&
      (style == "tautological" ==> !Satisfiable(All3(c.base, d.pre, Not(d.post)))) &&
      (style == "infeasible" ==> !Satisfiable(All3(c.base, d.pre, d.post)))
  {
    var cl := ClassifyItem(c, check, id);
    AnalysisStyleOfItem(c, check, id);
    StatusSound(c, check, id);
    if cl.postInvariant == Tautological {
      TautologicalSound(c, check, id);
    }
    if cl.postInvariant == Infeasible {
      InfeasibleSound(c, check, id);
    }
  }

  /** The classifier `apply_analysis_coloring` queries: the builder's
      compiled conditions and the solver. */
  datatype ClassifierView = ClassifierView(compiled: Compiled, check: BoolTerm -> Answer)

  /** The analysis colouring: every item `pending` without a classifier,
      else its analysis style. */
  function AnalysisLines(items: seq<string>, classifier: Option<ClassifierView>): seq<string> {
    seq(|items|, k requires 0 <= k < |items| =>
      StyleLine(items[k], if classifier.None? then "pending"
                          else AnalysisStyle(ClassifyItem(classifier.value.compiled, classifier.value.check, items[k]))))
  }

  /** The loops of `apply_analysis_coloring`. */
  method AnalysisColoring(items: seq<string>, classifier: Option<ClassifierView>) returns (coloring: seq<string>)
    ensures coloring == AnalysisLines(items, classifier)
  {
    coloring := [];
    if classifier.Some? {
      var view := classifier.value;
      for k := 0 to |items|
        invariant coloring == AnalysisLines(items[..k], classifier)
      {
        var cl := ClassifyItem(view.compiled, view.check, items[k]);
        var style := AnalysisStyle(cl);
        coloring := coloring + [StyleLine(items[k], style)];
      }
    } else {
      for k := 0 to |items|
        invariant coloring == AnalysisLines(items[..k], classifier)
      {
        coloring := coloring + [StyleLine(items[k], "pending")];
      }
    }
    assert items[..|items|] == items;
  }

  /** `apply_analysis_coloring(base_diagram, classifier)` for the items of
      the topology. */
  method ApplyAnalysisColoring(topology: QMLTopology, baseDiagram: string, classifier: Option<ClassifierView>) returns (r: string)
    ensures r == Join(WithColoring(Split(baseDiagram), AnalysisLines(topology.items, classifier)))
  {
    var coloring := AnalysisColoring(topology.items, classifier);
    r := InsertColoring(baseDiagram, coloring);
  }

  // ---------------------------------------------------------------------
  // The nodes `_add_cycle_highlighting` styles as `cycleNode`.

  /** `cycle[:-1]`. */
  function DropLast(cycle: seq<string>): seq<string> {
    if |cycle| == 0 then [] else cycle[..|cycle| - 1]
  }

  /** The union of `cycle[:-1]` over the recorded cycles. */
  method CycleNodes(cycles: seq<seq<string>>) returns (nodes: set<string>)
    ensures forall x :: x in nodes <==> exists k :: 0 <= k < |cycles| && x in DropLast(cycles[k])
  {
    nodes := {};
    for k := 0 to |cycles|
      invariant forall x :: x in nodes <==> exists j :: 0 <= j < k && x in DropLast(cycles[j])
    {
      nodes := nodes + Elems(DropLast(cycles[k]));
    }
  }

  /** Dropping the closing node of a closed walk loses no node. */
  lemma DropLastClosed(g: Graph, cycle: seq<string>)
    requires IsCycle(g, cycle)
    ensures Elems(DropLast(cycle)) == Elems(cycle)
  {
    var n := |cycle| - 1;
    assert cycle == cycle[..n] + [cycle[n]];
    assert cycle[n] == cycle[..n][0];
  }

  /** For the cycles a valid topology records, the styled nodes are
      exactly the items on a cycle, and all are items. */
  lemma CycleNodesOfTopology(topology: QMLTopology, nodes: set<string>)
    requires topology.CyclesOk()
    requires forall x :: x in nodes <==> exists k :: 0 <= k < |topology.cycles| && x in DropLast(topology.cycles[k])
    ensures forall x :: x in nodes <==> exists k :: 0 <= k < |topology.cycles| && x in topology.cycles[k]
    ensures nodes <= Elems(topology.items)
  {
    forall k | 0 <= k < |topology.cycles|
      ensures Elems(DropLast(topology.cycles[k])) == Elems(topology.cycles[k])
    {
      assert topology.cycles[k] in topology.cycles;
      DropLastClosed(topology.dependencies, topology.cycles[k]);
    }
    forall x | x in nodes ensures x in Elems(topology.items) {
      var k :| 0 <= k < |topology.cycles| && x in DropLast(topology.cycles[k]);
      assert topology.cycles[k] in topology.cycles;
    }
  }
}

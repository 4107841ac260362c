/** `QuestionnaireState`: the stored state of one questionnaire run, with the
    flat list of items (each an ordered dictionary of its fields), the
    navigation history, the visited list, the warnings and the navigation
    path. */
module QuestionnaireStates {
  import opened Wrappers
  import opened Json

  /** One warning record `{item_id, type, message}`. */
  datatype Warning = Warning(itemId: Json, kind: string, message: string)

  /** The saved state handed to the constructor: each top-level key is
      present with its value or absent. */
  datatype Saved = Saved(
    history: Option<seq<string>>,
    visitedItems: Option<seq<string>>,
    blocks: Option<seq<Dict>>,
    items: Option<seq<Dict>>,
    variables: Option<Dict>,
    warnings: Option<seq<Warning>>,
    baseMermaidDiagram: Option<Json>,
    navigationPath: Option<seq<string>>,
    currentItemId: Option<string>,
    codeInit: Option<string>)

  /** `QuestionnaireState(None)`: no key present. */
  const NoState := Saved(None, None, None, None, None, None, None, None, None, None)

  function OrElse<T>(o: Option<T>, d: T): T {
    match o
    case Some(v) => v
    case None => d
  }

  /** The `id` field of an item, `None` when it has none. */
  function IdOf(item: Dict): Json {
    GetOr(item, "id")
  }

  /** The position of the first item whose id is `id`. */
  function ItemIndex(items: seq<Dict>, id: string): (r: Option<nat>)
    ensures r.Some? ==> r.value < |items| && IdOf(items[r.value]) == JStr(id)
    ensures r.Some? ==> forall j :: 0 <= j < r.value ==> IdOf(items[j]) != JStr(id)
    ensures r.None? ==> forall j :: 0 <= j < |items| ==> IdOf(items[j]) != JStr(id)
    decreases |items|
  {
    if |items| == 0 then None
    else if IdOf(items[0]) == JStr(id) then Some(0)
    else
      match ItemIndex(items[1..], id)
      case Some(j) => Some(j + 1)
      case None => None
  }

  /** The runtime fields of an item, which `reset` removes. */
  predicate RuntimeField(k: string) {
    k == "outcome" || k == "visited" || k == "disabled" || k == "context"
  }

  /** An item without its runtime fields. */
  function StripRuntime(item: Dict): (r: Dict)
    ensures forall k :: RuntimeField(k) ==> Get(r, k) == None
    ensures forall k :: !RuntimeField(k) ==> Get(r, k) == Get(item, k)
    ensures Keyed(item) ==> Keyed(r)
  {
    var a := Remove(item, "outcome");
    var b := Remove(a, "visited");
    var c := Remove(b, "disabled");
    Remove(c, "context")
  }

  /** The loop of `reset()` over the items: each loses its runtime
      fields, in place. */
  method StripItems(items: seq<Dict>) returns (r: seq<Dict>)
    ensures |r| == |items| && forall i :: 0 <= i < |r| ==> r[i] == StripRuntime(items[i])
  {
    r := items;
    var i := 0;
    while i < |r|
      invariant 0 <= i <= |r| == |items|
      invariant forall j :: 0 <= j < i ==> r[j] == StripRuntime(items[j])
      invariant forall j :: i <= j < |r| ==> r[j] == items[j]
    {
      r := r[i := StripRuntime(r[i])];
      i := i + 1;
    }
  }

  /** The visited list after `add_to_visited(id)`. */
  function Visit(visited: seq<string>, id: string): (r: seq<string>)
    ensures forall x :: x in r <==> x in visited || x == id
    ensures Distinct(visited) ==> Distinct(r)
    ensures visited <= r
  {
    if id in visited then visited else visited + [id]
  }

  predicate Distinct(s: seq<string>) {
    forall i, j :: 0 <= i < j < |s| ==> s[i] != s[j]
  }

  /** Visiting an id twice is visiting it once. */
  lemma VisitIdempotent(visited: seq<string>, id: string)
    ensures Visit(Visit(visited, id), id) == Visit(visited, id)
  {
    assert id in Visit(visited, id);
  }

  class QuestionnaireState {
    var history: seq<string>
    var visitedItems: seq<string>
    var blocks: seq<Dict>
    var items: seq<Dict>
    var variables: Dict
    var warnings: seq<Warning>
    /** `None` when the key is absent; `Some(JNone)` is the stored `None`. */
    var baseMermaidDiagram: Option<Json>
    var navigationPath: Option<seq<string>>
    var currentItemId: Option<string>
    var codeInit: Option<string>

    /** `QuestionnaireState(state)`: the keys the saved state has keep their
        values, and each missing required key gets its default. */
    constructor (s: Saved)
      ensures history == OrElse(s.history, []) && visitedItems == OrElse(s.visitedItems, [])
      ensures blocks == OrElse(s.blocks, []) && items == OrElse(s.items, [])
      ensures variables == OrElse(s.variables, []) && warnings == OrElse(s.warnings, [])
      ensures baseMermaidDiagram == Some(OrElse(s.baseMermaidDiagram, JNone))
      ensures navigationPath == s.navigationPath && currentItemId == s.currentItemId && codeInit == s.codeInit
    {
      history := OrElse(s.history, []);
      visitedItems := OrElse(s.visitedItems, []);
      blocks := OrElse(s.blocks, []);
      items := OrElse(s.items, []);
      variables := OrElse(s.variables, []);
      warnings := OrElse(s.warnings, []);
      baseMermaidDiagram := Some(OrElse(s.baseMermaidDiagram, JNone));
      navigationPath := s.navigationPath;
      currentItemId := s.currentItemId;
      codeInit := s.codeInit;
    }

    /** `get_item(id)`: the position of the first item with that id, which
        stands for the item dictionary itself. */
    method GetItem(id: string) returns (r: Option<nat>)
      ensures r == ItemIndex(items, id)
    {
      var i := 0;
      while i < |items|
        invariant 0 <= i <= |items|
        invariant forall j :: 0 <= j < i ==> IdOf(items[j]) != JStr(id)
      {
        if IdOf(items[i]) == JStr(id) {
          ItemIndexFirst(items, id, i);
          return Some(i);
        }
        i := i + 1;
      }
      ItemIndexNone(items, id);
      return None;
    }

    /** `add_to_history(id)`: appends, duplicates included. */
    method AddToHistory(id: string)
      modifies this
      ensures history == old(history) + [id]
      ensures visitedItems == old(visitedItems) && items == old(items) && warnings == old(warnings)
      ensures navigationPath == old(navigationPath) && blocks == old(blocks) && variables == old(variables)
      ensures baseMermaidDiagram == old(baseMermaidDiagram) && currentItemId == old(currentItemId) && codeInit == old(codeInit)
    {
      history := history + [id];
    }

    /** `add_to_visited(id)`: appends only an id not yet present. */
    method AddToVisited(id: string)
      modifies this
      ensures visitedItems == Visit(old(visitedItems), id)
      ensures history == old(history) && items == old(items) && warnings == old(warnings)
      ensures navigationPath == old(navigationPath) && blocks == old(blocks) && variables == old(variables)
      ensures baseMermaidDiagram == old(baseMermaidDiagram) && currentItemId == old(currentItemId) && codeInit == old(codeInit)
    {
      if id !in visitedItems {
        visitedItems := visitedItems + [id];
      }
    }

    predicate IsItemVisited(id: string)
      reads this
    {
      id in visitedItems
    }

    /** `reset()`: no history, no visited items, no warnings, no navigation
        path and no cached diagram, and every item without its runtime
        fields. */
    method Reset()
      modifies this
      ensures history == [] && visitedItems == [] && warnings == []
      ensures navigationPath == None && baseMermaidDiagram == None
      ensures |items| == |old(items)| && forall i :: 0 <= i < |items| ==> items[i] == StripRuntime(old(items)[i])
      ensures blocks == old(blocks) && variables == old(variables) && currentItemId == old(currentItemId) && codeInit == old(codeInit)
    {
      history := [];
      visitedItems := [];
      warnings := [];
      navigationPath := None;
      baseMermaidDiagram := None;
      items := StripItems(items);
    }

    method SetCurrentItem(id: string)
      modifies this
      ensures currentItemId == Some(id)
      ensures history == old(history) && visitedItems == old(visitedItems) && items == old(items) && warnings == old(warnings)
      ensures navigationPath == old(navigationPath) && blocks == old(blocks) && variables == old(variables)
      ensures baseMermaidDiagram == old(baseMermaidDiagram) && codeInit == old(codeInit)
    {
      currentItemId := Some(id);
    }

    /** `set_navigation_path(path)`: `get_navigation_path()` now returns
        `path`. */
    method SetNavigationPath(path: seq<string>)
      modifies this
      ensures navigationPath == Some(path) && GetNavigationPath() == path
      ensures history == old(history) && visitedItems == old(visitedItems) && items == old(items) && warnings == old(warnings)
      ensures blocks == old(blocks) && variables == old(variables)
      ensures baseMermaidDiagram == old(baseMermaidDiagram) && currentItemId == old(currentItemId) && codeInit == old(codeInit)
    {
      navigationPath := Some(path);
    }

    /** `get_navigation_path()`, `[]` when none is stored. */
    function GetNavigationPath(): seq<string>
      reads this
    {
      OrElse(navigationPath, [])
    }

    /** `add_warning(item_id, type, message)`: exactly one more record. */
    method AddWarning(itemId: Json, kind: string, message: string)
      modifies this
      ensures warnings == old(warnings) + [Warning(itemId, kind, message)] && HasWarnings()
      ensures history == old(history) && visitedItems == old(visitedItems) && items == old(items)
      ensures navigationPath == old(navigationPath) && blocks == old(blocks) && variables == old(variables)
      ensures baseMermaidDiagram == old(baseMermaidDiagram) && currentItemId == old(currentItemId) && codeInit == old(codeInit)
    {
      warnings := warnings + [Warning(itemId, kind, message)];
    }

    predicate HasWarnings()
      reads this
    {
      |warnings| > 0
    }

    /** Item ids are strings, as `item['id']` lookups demand. */
    predicate HasIds()
      reads this
    {
      forall i :: 0 <= i < |items| ==> IdOf(items[i]).JStr?
    }

    /** The fields that navigation and item processing leave alone. */
    twostate predicate StaticKept()
      reads this
    {
      visitedItems == old(visitedItems) && blocks == old(blocks) && variables == old(variables) &&
      baseMermaidDiagram == old(baseMermaidDiagram) && currentItemId == old(currentItemId) && codeInit == old(codeInit)
    }

    /** Only the warnings may have changed. */
    twostate predicate WarningsOnly()
      reads this
    {
      items == old(items) && history == old(history) && navigationPath == old(navigationPath) && StaticKept()
    }

    /** `item[key] = value` on the item at position `i`. */
    method SetItemField(i: nat, key: string, value: Json)
      requires i < |items|
      modifies this
      ensures items == old(items)[i := Put(old(items)[i], key, value)]
      ensures history == old(history) && visitedItems == old(visitedItems) && warnings == old(warnings)
      ensures navigationPath == old(navigationPath) && blocks == old(blocks) && variables == old(variables)
      ensures baseMermaidDiagram == old(baseMermaidDiagram) && currentItemId == old(currentItemId) && codeInit == old(codeInit)
    {
      items := items[i := Put(items[i], key, value)];
    }
  }

  /** An item with the id at position `i`, none before it: `ItemIndex`
      finds `i`. */
  lemma {:induction false} ItemIndexFirst(items: seq<Dict>, id: string, i: nat)
    requires i < |items| && IdOf(items[i]) == JStr(id)
    requires forall j :: 0 <= j < i ==> IdOf(items[j]) != JStr(id)
    ensures ItemIndex(items, id) == Some(i)
    decreases i
  {
    if i > 0 {
      assert IdOf(items[0]) != JStr(id);
      assert items[1..][i - 1] == items[i];
      ItemIndexFirst(items[1..], id, i - 1);
    }
  }

  /** No item with the id: `ItemIndex` finds nothing. */
  lemma {:induction false} ItemIndexNone(items: seq<Dict>, id: string)
    requires forall j :: 0 <= j < |items| ==> IdOf(items[j]) != JStr(id)
    ensures ItemIndex(items, id) == None
    decreases |items|
  {
    if |items| > 0 {
      assert IdOf(items[0]) != JStr(id);
      ItemIndexNone(items[1..], id);
    }
  }
}

/** `QMLLoader._flatten_questionnaire_structure`: a questionnaire whose
    blocks hold their items becomes one whose blocks are metadata only and
    whose items form one flat list, each item tagged with its block's id. */
module Loader {
  import opened Wrappers
  import opened Json

  /** The exceptions the flattening can raise: iterating over a value that is
      not iterable (`TypeError`), a block that is not a dictionary (no
      `.items()`), an item `dict()` cannot copy, and a block with items but
      no `id` (`KeyError`). */
  datatype FlattenError = NotIterable | BlockNotADict | ItemNotADict | MissingBlockId

  /** What a Python `for` loop meets when it iterates over a stored value: the
      elements of a list, the one-character strings of a string, the keys of
      a dictionary; other values cannot be iterated. */
  function Elements(j: Json): (r: Result<seq<Json>, FlattenError>)
    ensures j.JList? ==> r == Ok(j.l)
    ensures r.Ok? && j.JStr? ==> |r.value| == |j.s|
    ensures r.Ok? && j.JDict? ==> |r.value| == |j.d|
    ensures r.Err? <==> j.JNone? || j.JInt? || j.JBool?
  {
    match j
    case JList(l) => Ok(l)
    case JStr(s) => Ok(seq(|s|, i requires 0 <= i < |s| => JStr([s[i]])))
    case JDict(d) => Ok(seq(|d|, i requires 0 <= i < |d| => JStr(d[i].0)))
    case _ => Err(NotIterable)
  }

  /** `dict(item)`: a dictionary is copied; the empty string and the empty
      list give an empty dictionary. */
  function ItemCopy(item: Json): (r: Result<Dict, FlattenError>)
    ensures item.JDict? ==> r == Ok(item.d)
    ensures r.Ok? ==> item.JDict? || item == JStr("") || item == JList([])
  {
    match item
    case JDict(d) => Ok(d)
    case JStr(s) => if |s| == 0 then Ok([]) else Err(ItemNotADict)
    case JList(l) => if |l| == 0 then Ok([]) else Err(ItemNotADict)
    case _ => Err(ItemNotADict)
  }

  /** One flattened item: the copy with `blockId` set to its block's id. */
  function Tagged(copy: Dict, blockId: Json): Json {
    JDict(Put(copy, "blockId", blockId))
  }

  /** The inner loop: the items of one block, tagged, in order, with the
      block's `id` (`block['id']`, looked up for each item); the first failure
      wins. */
  function TagItems(items: seq<Json>, blockId: Option<Json>): Result<seq<Json>, FlattenError>
    decreases |items|
  {
    if |items| == 0 then Ok([])
    else
      match TagItems(items[..|items| - 1], blockId)
      case Err(e) => Err(e)
      case Ok(done) =>
        match ItemCopy(items[|items| - 1])
        case Err(e) => Err(e)
        case Ok(copy) =>
          match blockId
          case None => Err(MissingBlockId)
          case Some(id) => Ok(done + [Tagged(copy, id)])
  }

  /** `block.get('items', [])` iterated and tagged. */
  function BlockEntries(block: Dict): Result<seq<Json>, FlattenError> {
    match Elements(GetOr(block, "items")) {
      case Err(e) => if HasKey(block, "items") then Err(e) else Ok([])
      case Ok(items) => TagItems(items, Get(block, "id"))
    }
  }

  /** The outer loop over the blocks: the metadata list and the flat item
      list built so far. */
  function FlattenBlocks(blocks: seq<Json>): Result<(seq<Json>, seq<Json>), FlattenError>
    decreases |blocks|
  {
    if |blocks| == 0 then Ok(([], []))
    else
      match FlattenBlocks(blocks[..|blocks| - 1])
      case Err(e) => Err(e)
      case Ok(acc) =>
        var block := blocks[|blocks| - 1];
        if !block.JDict? then Err(BlockNotADict)
        else
          match BlockEntries(block.d)
          case Err(e) => Err(e)
          case Ok(entries) => Ok((acc.0 + [JDict(Remove(block.d, "items"))], acc.1 + entries))
  }

  /** The blocks of a questionnaire, as the loop iterates them. */
  function BlocksOf(q: Dict): Result<seq<Json>, FlattenError> {
    if HasKey(q, "blocks") then Elements(GetOr(q, "blocks")) else Ok([])
  }

  /** The whole flattening: a copy of the questionnaire with `blocks` and
      `items` replaced. */
  function Flatten(q: Dict): Result<Dict, FlattenError> {
    match BlocksOf(q)
    case Err(e) => Err(e)
    case Ok(blocks) =>
      match FlattenBlocks(blocks)
      case Err(e) => Err(e)
      case Ok(out) => Ok(Put(Put(q, "blocks", JList(out.0)), "items", JList(out.1)))
  }

  // ---------------------------------------------------------------------
  // What the flattening promises.

  /** The number of items a block contributes. */
  function ItemCount(block: Json): nat {
    if block.JDict? then
      match Elements(GetOr(block.d, "items"))
      case Ok(items) => |items|
      case Err(_) => 0
    else 0
  }

  function TotalItems(blocks: seq<Json>): nat
    decreases |blocks|
  {
    if |blocks| == 0 then 0 else TotalItems(blocks[..|blocks| - 1]) + ItemCount(blocks[|blocks| - 1])
  }

  /** The block id an item is tagged with, `None` standing for a block
      without one (which is never used: such a block fails). */
  function OrElse(blockId: Option<Json>): Json {
    if blockId.Some? then blockId.value else JNone
  }

  /** `out` is `items`, each copied and tagged with `id`. */
  predicate TaggedAll(items: seq<Json>, out: seq<Json>, id: Json) {
    |out| == |items| &&
    forall j :: 0 <= j < |items| ==> ItemCopy(items[j]).Ok? && out[j] == Tagged(ItemCopy(items[j]).value, id)
  }

  lemma TaggedAllSnoc(items: seq<Json>, out: seq<Json>, id: Json, x: Json)
    requires TaggedAll(items, out, id) && ItemCopy(x).Ok?
    ensures TaggedAll(items + [x], out + [Tagged(ItemCopy(x).value, id)], id)
  {
    var items', out' := items + [x], out + [Tagged(ItemCopy(x).value, id)];
    forall j | 0 <= j < |items'|
      ensures ItemCopy(items'[j]).Ok? && out'[j] == Tagged(ItemCopy(items'[j]).value, id)
    {
      if j < |items| {
        assert items'[j] == items[j] && out'[j] == out[j];
      }
    }
  }

  /** A successful inner loop tags every item of the block, keeping their
      order, with the block's id. */
  lemma {:induction false} TagItemsFacts(items: seq<Json>, blockId: Option<Json>)
    requires TagItems(items, blockId).Ok?
    ensures |items| > 0 ==> blockId.Some?
    ensures TaggedAll(items, TagItems(items, blockId).value, OrElse(blockId))
    decreases |items|
  {
    if |items| > 0 {
      var n := |items| - 1;
      var prefix, last := items[..n], items[n];
      assert items == prefix + [last];
      var r := TagItems(prefix, blockId);
      assert r.Ok?;
      TagItemsFacts(prefix, blockId);
      var x := Tagged(ItemCopy(last).value, blockId.value);
      assert TagItems(items, blockId) == Ok(r.value + [x]);
      TaggedAllSnoc(prefix, r.value, blockId.value, last);
    }
  }

  /** A flattened item carries its block's id under `blockId` and every other
      field of the original item. */
  lemma TaggedFields(copy: Dict, blockId: Json)
    ensures Get(Tagged(copy, blockId).d, "blockId") == Some(blockId)
    ensures forall k :: k != "blockId" ==> Get(Tagged(copy, blockId).d, k) == Get(copy, k)
  {
  }

  /** `out` is `blocks`, each without its `items` entry. */
  predicate MetadataAll(blocks: seq<Json>, out: seq<Json>) {
    |out| == |blocks| &&
    forall k :: 0 <= k < |blocks| ==> blocks[k].JDict? && out[k] == JDict(Remove(blocks[k].d, "items"))
  }

  lemma MetadataSnoc(blocks: seq<Json>, out: seq<Json>, block: Dict)
    requires MetadataAll(blocks, out)
    ensures MetadataAll(blocks + [JDict(block)], out + [JDict(Remove(block, "items"))])
  {
    var blocks', out' := blocks + [JDict(block)], out + [JDict(Remove(block, "items"))];
    forall k | 0 <= k < |blocks'|
      ensures blocks'[k].JDict? && out'[k] == JDict(Remove(blocks'[k].d, "items"))
    {
      if k < |blocks| {
        assert blocks'[k] == blocks[k] && out'[k] == out[k];
      }
    }
  }

  /** The inner loop yields one entry per item of the block. */
  lemma BlockEntriesCount(block: Dict)
    requires BlockEntries(block).Ok?
    ensures |BlockEntries(block).value| == ItemCount(JDict(block))
  {
    match Elements(GetOr(block, "items")) {
      case Err(_) =>
      case Ok(items) => TagItemsFacts(items, Get(block, "id"));
    }
  }

  /** Successful flattening of a prefix: the blocks keep their order and lose
      only `items`, and the flat list is as long as all the blocks' items
      together. */
  lemma {:induction false} FlattenBlocksShape(blocks: seq<Json>)
    requires FlattenBlocks(blocks).Ok?
    ensures MetadataAll(blocks, FlattenBlocks(blocks).value.0)
    ensures |FlattenBlocks(blocks).value.1| == TotalItems(blocks)
    decreases |blocks|
  {
    if |blocks| > 0 {
      var n := |blocks| - 1;
      var prefix, last := blocks[..n], blocks[n];
      assert blocks == prefix + [last];
      var acc := FlattenBlocks(prefix);
      assert acc.Ok?;
      FlattenBlocksShape(prefix);
      assert last.JDict?;
      var entries := BlockEntries(last.d);
      assert FlattenBlocks(blocks) == Ok((acc.value.0 + [JDict(Remove(last.d, "items"))], acc.value.1 + entries.value));
      BlockEntriesCount(last.d);
      MetadataSnoc(prefix, acc.value.0, last.d);
    }
  }

  /** Flattening succeeds on every prefix of a list of blocks it succeeds
      on, and the prefix's results are prefixes of the whole's. */
  lemma {:induction false} FlattenBlocksPrefix(blocks: seq<Json>, k: nat)
    requires FlattenBlocks(blocks).Ok? && k <= |blocks|
    ensures FlattenBlocks(blocks[..k]).Ok?
    ensures FlattenBlocks(blocks[..k]).value.0 <= FlattenBlocks(blocks).value.0
    ensures FlattenBlocks(blocks[..k]).value.1 <= FlattenBlocks(blocks).value.1
    decreases |blocks|
  {
    if k < |blocks| {
      var n := |blocks| - 1;
      assert blocks[..n][..k] == blocks[..k];
      FlattenBlocksPrefix(blocks[..n], k);
    } else {
      assert blocks[..k] == blocks;
    }
  }

  /** The items of block `k` form, in their order and tagged with that
      block's id, the slice of the flat list that starts after the items of
      the blocks before it. */
  lemma BlockSlice(blocks: seq<Json>, k: nat)
    requires FlattenBlocks(blocks).Ok? && k < |blocks|
    ensures var before := FlattenBlocks(blocks[..k]);
      var upto := FlattenBlocks(blocks[..k + 1]);
      before.Ok? && upto.Ok? && blocks[k].JDict? && BlockEntries(blocks[k].d).Ok? &&
      upto.value.1 == before.value.1 + BlockEntries(blocks[k].d).value &&
      upto.value.1 <= FlattenBlocks(blocks).value.1
  {
    FlattenBlocksPrefix(blocks, k + 1);
    assert blocks[..k + 1][..k] == blocks[..k];
  }

  /** On success, the questionnaire's `blocks` and `items` are the
      flattened lists and every other top-level key keeps its value. */
  lemma FlattenKeeps(q: Dict)
    requires Flatten(q).Ok?
    ensures var r := Flatten(q).value;
      var out := FlattenBlocks(BlocksOf(q).value).value;
      Get(r, "blocks") == Some(JList(out.0)) && Get(r, "items") == Some(JList(out.1)) &&
      (forall k :: k != "blocks" && k != "items" ==> Get(r, k) == Get(q, k))
  {
  }

  /** A questionnaire without `blocks` flattens to empty lists. */
  lemma FlattenNoBlocks(q: Dict)
    requires !HasKey(q, "blocks")
    ensures Flatten(q) == Ok(Put(Put(q, "blocks", JList([])), "items", JList([])))
  {
  }

  /** Once the inner loop has failed, the items after cannot change the
      outcome. */
  lemma {:induction false} TagItemsSticky(items: seq<Json>, blockId: Option<Json>, k: nat)
    requires k <= |items| && TagItems(items[..k], blockId).Err?
    ensures TagItems(items, blockId) == TagItems(items[..k], blockId)
    decreases |items|
  {
    if k < |items| {
      var n := |items| - 1;
      assert items[..n][..k] == items[..k];
      TagItemsSticky(items[..n], blockId, k);
    } else {
      assert items[..k] == items;
    }
  }

  /** Once the outer loop has failed, the blocks after cannot change the
      outcome. */
  lemma {:induction false} FlattenBlocksSticky(blocks: seq<Json>, k: nat)
    requires k <= |blocks| && FlattenBlocks(blocks[..k]).Err?
    ensures FlattenBlocks(blocks) == FlattenBlocks(blocks[..k])
    decreases |blocks|
  {
    if k < |blocks| {
      var n := |blocks| - 1;
      assert blocks[..n][..k] == blocks[..k];
      FlattenBlocksSticky(blocks[..n], k);
    } else {
      assert blocks[..k] == blocks;
    }
  }

  // ---------------------------------------------------------------------
  // The loops themselves.

  /** `_flatten_questionnaire_structure`, with its two nested loops
      appending to the local lists. */
  method FlattenQuestionnaireStructure(q: Dict) returns (r: Result<Dict, FlattenError>)
    ensures r == Flatten(q)
  {
    var blocks: seq<Json> := [];
    if HasKey(q, "blocks") {
      var bs := Elements(GetOr(q, "blocks"));
      if bs.Err? {
        return Err(bs.error);
      }
      blocks := bs.value;
    }
    var flatItems: seq<Json> := [];
    var flatBlocks: seq<Json> := [];
    var i := 0;
    while i < |blocks|
      invariant i <= |blocks|
      invariant FlattenBlocks(blocks[..i]) == Ok((flatBlocks, flatItems))
    {
      assert blocks[..i + 1][..i] == blocks[..i];
      var block := blocks[i];
      if !block.JDict? {
        FlattenBlocksSticky(blocks, i + 1);
        return Err(BlockNotADict);
      }
      flatBlocks := flatBlocks + [JDict(Remove(block.d, "items"))];
      var entries := BlockItems(block.d);
      if entries.Err? {
        FlattenBlocksSticky(blocks, i + 1);
        return Err(entries.error);
      }
      flatItems := flatItems + entries.value;
      i := i + 1;
    }
    assert blocks[..i] == blocks;
    r := Ok(Put(Put(q, "blocks", JList(flatBlocks)), "items", JList(flatItems)));
  }

  /** One block's `block.get('items', [])` and the inner loop over it. */
  method BlockItems(block: Dict) returns (r: Result<seq<Json>, FlattenError>)
    ensures r == BlockEntries(block)
  {
    var items: seq<Json> := [];
    if HasKey(block, "items") {
      var elems := Elements(GetOr(block, "items"));
      if elems.Err? {
        return Err(elems.error);
      }
      items := elems.value;
    }
    r := TagBlockItems(items, block);
  }

  /** The inner loop over one block's items. */
  method TagBlockItems(items: seq<Json>, block: Dict) returns (r: Result<seq<Json>, FlattenError>)
    ensures r == TagItems(items, Get(block, "id"))
  {
    var out: seq<Json> := [];
    var j := 0;
    while j < |items|
      invariant j <= |items|
      invariant TagItems(items[..j], Get(block, "id")) == Ok(out)
    {
      assert items[..j + 1][..j] == items[..j];
      var copy := ItemCopy(items[j]);
      if copy.Err? {
        TagItemsSticky(items, Get(block, "id"), j + 1);
        return Err(copy.error);
      }
      var id := Get(block, "id");
      if id.None? {
        TagItemsSticky(items, Get(block, "id"), j + 1);
        return Err(MissingBlockId);
      }
      out := out + [Tagged(copy.value, id.value)];
      j := j + 1;
    }
    assert items[..j] == items;
    r := Ok(out);
  }
}

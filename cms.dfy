/**
 * The shape of the CMS pages API as the page mappings read it. A JSON object
 * is a map from property names to string values; a property that is absent
 * or `null` is simply not in the map, so `obj?.key` is `Prop(obj, key)` and
 * `??` / `||` are `Coalesce` / `Or`. Block payloads also carry array-valued
 * properties (banners, services, items, …), kept apart in `lists`.
 */
module Cms {
  import opened Wrappers

  /** A flat JSON object with string properties. */
  type Entry = map<string, string>

  /** The `data` of a block: string properties and arrays of flat objects. */
  datatype Data = Data(props: Entry, lists: map<string, seq<Entry>>)

  /** `{ type, data }`; `kind` is the block's `type` ("" when absent). */
  datatype Block = Block(kind: string, data: Option<Data>)

  /** A page of the API's `data` array; `blocks` is `None` when the property is not an array. */
  datatype Page = Page(title: string, slug: string, kind: string, blocks: Option<seq<Block>>)

  /** `e?.key` on an object that may itself be missing. */
  function Prop(e: Option<Entry>, key: string): Option<string> {
    if e.Some? && key in e.value then Some(e.value[key]) else None
  }

  /** `d?.key` on block data that may be missing. */
  function DataProp(d: Option<Data>, key: string): Option<string> {
    if d.Some? then Prop(Some(d.value.props), key) else None
  }

  /** `d?.key` for an array-valued property: `None` unless it holds an array. */
  function DataList(d: Option<Data>, key: string): Option<seq<Entry>> {
    if d.Some? && key in d.value.lists then Some(d.value.lists[key]) else None
  }

  /** JavaScript truthiness of a string that may be missing. */
  predicate Truthy(v: Option<string>) {
    v.Some? && v.value != ""
  }

  /** `a ?? b`: `b` only when `a` is null or undefined. */
  function Coalesce(a: Option<string>, b: Option<string>): Option<string> {
    if a.Some? then a else b
  }

  /** `a || b`: `b` whenever `a` is falsy, including the empty string. */
  function Or(a: Option<string>, b: Option<string>): Option<string> {
    if Truthy(a) then a else b
  }

  /** `blocks.findIndex(b => b.type === kind)`, with `|blocks|` for "not found". */
  function BlockIndex(blocks: seq<Block>, kind: string): (r: nat)
    ensures r <= |blocks|
    ensures r < |blocks| ==> blocks[r].kind == kind
    ensures forall j :: 0 <= j < r ==> blocks[j].kind != kind
  {
    if blocks == [] || blocks[0].kind == kind then 0 else 1 + BlockIndex(blocks[1..], kind)
  }

  /** `blocks.find(b => b.type === kind)`: the first block of that type. */
  function FirstBlock(blocks: seq<Block>, kind: string): (r: Option<Block>)
    ensures r.None? <==> forall i :: 0 <= i < |blocks| ==> blocks[i].kind != kind
    ensures r.Some? ==> exists i :: (0 <= i < |blocks| && blocks[i] == r.value && blocks[i].kind == kind
      && forall j :: 0 <= j < i ==> blocks[j].kind != kind)
  {
    var i := BlockIndex(blocks, kind);
    if i < |blocks| then Some(blocks[i]) else None
  }

  /** `blocks.find(b => b.type === kind)?.data`: the data of the first block of that type, if any. */
  function BlockData(blocks: seq<Block>, kind: string): Option<Data> {
    match FirstBlock(blocks, kind)
    case None => None
    case Some(b) => b.data
  }

  /** Appending a block moves the first block of a type only when there was none before and the new one has that type. */
  lemma {:induction false} BlockIndexAppend(blocks: seq<Block>, b: Block, kind: string)
    ensures BlockIndex(blocks + [b], kind) ==
      if BlockIndex(blocks, kind) < |blocks| || b.kind == kind then BlockIndex(blocks, kind) else |blocks| + 1
    decreases |blocks|
  {
    if blocks != [] {
      assert (blocks + [b])[0] == blocks[0];
      assert (blocks + [b])[1..] == blocks[1..] + [b];
      BlockIndexAppend(blocks[1..], b, kind);
    }
  }

  /** A later block of a type already present, or of another type, does not change what `find` returns. */
  lemma {:induction false} BlockDataAppend(blocks: seq<Block>, b: Block, kind: string)
    requires b.kind != kind || exists i :: 0 <= i < |blocks| && blocks[i].kind == kind
    ensures BlockData(blocks + [b], kind) == BlockData(blocks, kind)
  {
    BlockIndexAppend(blocks, b, kind);
    var k := BlockIndex(blocks, kind);
    if k < |blocks| {
      assert (blocks + [b])[k] == blocks[k];
    }
  }
}

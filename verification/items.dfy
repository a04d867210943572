/** Items as the recipe loader sees them, the registry it asks, and item decoding. */
module Items {
  import opened Results

  /** An item stack: numeric id, meta (damage) value, stack size, and whether the
      meta is the wildcard that matches any damage value. */
  datatype Item = Item(id: int, meta: int, count: int, anyDamage: bool)

  /** The item factory's registration table, reduced to the two questions the
      loader asks of it: is this (id, meta) variant known, and is this bare id known. */
  datatype Registry = Registry(variants: set<(int, int)>, ids: set<int>) {

    predicate IsRegistered(id: int, meta: int) {
      (id, meta) in variants
    }

    predicate IsRegisteredId(id: int) {
      id in ids
    }
  }

  /** The JSON data of one item, before decoding: either a well-formed encoding of
      an item, or data the decoder rejects. */
  datatype ItemJson = Wellformed(item: Item) | Malformed

  /** Item::jsonDeserialize: a well-formed encoding yields its item, a rejected one
      aborts the load. */
  function Deserialize(j: ItemJson): (r: Result<Item>)
    ensures r.Ok? <==> j.Wellformed?
    ensures r.Ok? ==> r.value == j.item
    ensures r.Err? ==> r.error == ItemDecodeFailure
  {
    match j
    case Wellformed(it) => Ok(it)
    case Malformed => Err(ItemDecodeFailure)
  }

  predicate AllWellformed(js: seq<ItemJson>) {
    forall i :: 0 <= i < |js| ==> js[i].Wellformed?
  }

  /** The items a list of well-formed encodings stands for, position by position. */
  function Payload(js: seq<ItemJson>): seq<Item>
    requires AllWellformed(js)
  {
    seq(|js|, i requires 0 <= i < |js| => js[i].item)
  }

  /** `array_map` of the decoder over a list: decodes left to right and aborts at
      the first rejected encoding. */
  function DecodeAll(js: seq<ItemJson>): (r: Result<seq<Item>>)
    ensures r.Ok? <==> AllWellformed(js)
    ensures r.Ok? ==> r.value == Payload(js)
    ensures r.Err? ==> r.error == ItemDecodeFailure
    decreases |js|
  {
    if js == [] then Ok([])
    else
      var head :- Deserialize(js[0]);
      var tail :- DecodeAll(js[1..]);
      Ok([head] + tail)
  }

  predicate AllWellformedKeyed(kv: seq<(string, ItemJson)>) {
    forall i :: 0 <= i < |kv| ==> kv[i].1.Wellformed?
  }

  /** The keyed items a keyed list of well-formed encodings stands for: same keys,
      same order. */
  function KeyedPayload(kv: seq<(string, ItemJson)>): seq<(string, Item)>
    requires AllWellformedKeyed(kv)
  {
    seq(|kv|, i requires 0 <= i < |kv| => (kv[i].0, kv[i].1.item))
  }

  /** The items of a keyed list, in order, without their keys (what `foreach`
      over a PHP array visits). */
  function Values(kv: seq<(string, Item)>): seq<Item> {
    seq(|kv|, i requires 0 <= i < |kv| => kv[i].1)
  }

  /** `array_map` of the decoder over a keyed array: keys are kept, values are
      decoded left to right, and the first rejected encoding aborts. */
  function DecodeKeyed(kv: seq<(string, ItemJson)>): (r: Result<seq<(string, Item)>>)
    ensures r.Ok? <==> AllWellformedKeyed(kv)
    ensures r.Ok? ==> r.value == KeyedPayload(kv)
    ensures r.Err? ==> r.error == ItemDecodeFailure
    decreases |kv|
  {
    if kv == [] then Ok([])
    else
      var head :- Deserialize(kv[0].1);
      var tail :- DecodeKeyed(kv[1..]);
      Ok([(kv[0].0, head)] + tail)
  }
}

/**
 * The records the store keeps (an inventory item and an activity-log entry),
 * item creation from a partially filled form, and the per-item update that
 * every in-place edit of the item list is built from.
 */
module Inventory {
  import opened Wrappers

  /** Fixed conversion rate from the base currency (USD) to the display currency (ZAR). */
  const USD_TO_ZAR: real := 16.22

  /** One day in milliseconds. */
  const DAY_MS: int := 24 * 60 * 60 * 1000

  datatype ItemStatus = Available | ToRepair | InUse | Sold

  datatype LogType = In | Out | Adjust | Create | Delete | MarketplaceSale | Sale | StatusChange

  datatype CustomField = CustomField(fieldLabel: string, value: string)

  datatype AttachmentKind = Pdf | Image | Link

  datatype Attachment = Attachment(name: string, url: string, kind: AttachmentKind)

  /**
   * One tracked asset lot. `serialNumber` and `warrantyExpiry` are "" when
   * absent; `lastUpdated` is a time in milliseconds.
   */
  datatype Item = Item(
    id: string,
    name: string,
    sku: string,
    serialNumber: string,
    warrantyExpiry: string,
    quantity: int,
    minThreshold: int,
    price: real,
    priceZar: real,
    category: string,
    lastUpdated: int,
    totalSold: int,
    status: ItemStatus,
    images: seq<string>,
    customFields: seq<CustomField>,
    attachments: seq<Attachment>)

  /** One activity-log entry; `timestamp` is a time in milliseconds. */
  datatype Log = Log(
    id: string,
    itemId: string,
    itemName: string,
    kind: LogType,
    delta: int,
    value: real,
    timestamp: int,
    metadata: string)

  /**
   * The fields the add-asset form may supply. `None` stands for a field the
   * form left undefined (or a number input that parsed to NaN).
   */
  datatype Draft = Draft(
    name: Option<string>,
    sku: Option<string>,
    serialNumber: Option<string>,
    warrantyExpiry: Option<string>,
    quantity: Option<int>,
    minThreshold: Option<int>,
    price: Option<real>,
    category: Option<string>)

  /** A string field read with JavaScript's `field || fallback`: "" and undefined are falsy. */
  function TextOr(field: Option<string>, fallback: string): (r: string)
    ensures field.Some? && field.value != "" ==> r == field.value
    ensures field.None? || field.value == "" ==> r == fallback
  {
    if field.Some? && field.value != "" then field.value else fallback
  }

  /** An integer field read with `field || fallback`: 0 and undefined are falsy. */
  function IntOr(field: Option<int>, fallback: int): (r: int)
    ensures field.Some? && field.value != 0 ==> r == field.value
    ensures field.None? || field.value == 0 ==> r == fallback
  {
    if field.Some? && field.value != 0 then field.value else fallback
  }

  /** A price field read with `field || fallback`: 0 and undefined are falsy. */
  function RealOr(field: Option<real>, fallback: real): (r: real)
    ensures field.Some? && field.value != 0.0 ==> r == field.value
    ensures field.None? || field.value == 0.0 ==> r == fallback
  {
    if field.Some? && field.value != 0.0 then field.value else fallback
  }

  /** The display price is the base price converted at the fixed rate. */
  predicate PriceConsistent(item: Item)
  {
    item.priceZar == item.price * USD_TO_ZAR
  }

  predicate AllPriceConsistent(items: seq<Item>)
  {
    forall k :: 0 <= k < |items| ==> PriceConsistent(items[k])
  }

  /** Stock worth of one item: unit price times quantity on hand. */
  function Value(item: Item): real
  {
    item.price * item.quantity as real
  }

  /** An item is critical (low on stock) when its quantity is at or below its threshold. */
  predicate Critical(item: Item)
  {
    item.quantity <= item.minThreshold
  }

  predicate UniqueIds(items: seq<Item>)
  {
    forall j, k :: 0 <= j < k < |items| ==> items[j].id != items[k].id
  }

  /**
   * The item `handleAddItem` registers: every omitted or falsy field takes its
   * default, the display price is derived, status is forced to Available and
   * nothing has been sold yet. `id`, `fallbackSku` and `now` stand for the
   * random id, the random `SKU-nnnn` placeholder and the current time.
   */
  function CreateItem(draft: Draft, id: string, fallbackSku: string, now: int): (item: Item)
    ensures item.id == id && item.lastUpdated == now
    ensures item.name != "" && (fallbackSku != "" ==> item.sku != "")
    ensures draft.name.None? || draft.name.value == "" ==> item.name == "Unnamed Item"
    ensures draft.name.Some? && draft.name.value != "" ==> item.name == draft.name.value
    ensures draft.sku.None? || draft.sku.value == "" ==> item.sku == fallbackSku
    ensures draft.sku.Some? && draft.sku.value != "" ==> item.sku == draft.sku.value
    ensures draft.category.None? || draft.category.value == "" ==> item.category == "General"
    ensures draft.category.Some? && draft.category.value != "" ==> item.category == draft.category.value
    ensures draft.quantity.None? ==> item.quantity == 0
    ensures draft.quantity.Some? ==> item.quantity == draft.quantity.value
    ensures draft.price.None? ==> item.price == 0.0 && item.priceZar == 0.0
    ensures draft.price.Some? ==> item.price == draft.price.value
    ensures item.minThreshold != 0
    ensures draft.minThreshold.None? || draft.minThreshold.value == 0 ==> item.minThreshold == 5
    ensures draft.minThreshold.Some? && draft.minThreshold.value != 0 ==> item.minThreshold == draft.minThreshold.value
    ensures PriceConsistent(item)
    ensures item.status == Available && item.totalSold == 0
    ensures item.images == [] && item.customFields == [] && item.attachments == []
    ensures draft.serialNumber.None? ==> item.serialNumber == ""
    ensures draft.serialNumber.Some? ==> item.serialNumber == draft.serialNumber.value
    ensures draft.warrantyExpiry.None? ==> item.warrantyExpiry == ""
    ensures draft.warrantyExpiry.Some? ==> item.warrantyExpiry == draft.warrantyExpiry.value
  {
    var price := RealOr(draft.price, 0.0);
    Item(
      id := id,
      name := TextOr(draft.name, "Unnamed Item"),
      sku := TextOr(draft.sku, fallbackSku),
      serialNumber := TextOr(draft.serialNumber, ""),
      warrantyExpiry := TextOr(draft.warrantyExpiry, ""),
      quantity := IntOr(draft.quantity, 0),
      minThreshold := IntOr(draft.minThreshold, 5),
      price := price,
      priceZar := price * USD_TO_ZAR,
      category := TextOr(draft.category, "General"),
      lastUpdated := now,
      totalSold := 0,
      status := Available,
      images := [],
      customFields := [],
      attachments := [])
  }

  /** The one entry `handleAddItem` logs for a newly registered item. */
  function CreationLog(item: Item, logId: string, now: int): (log: Log)
    ensures log.kind == Create && log.itemId == item.id && log.itemName == item.name
    ensures log.delta == item.quantity && log.value == Value(item)
    ensures log.timestamp == now
  {
    Log(logId, item.id, item.name, Create, item.quantity, item.quantity as real * item.price, now,
        "Initial Registration")
  }

  /**
   * `items.map(i => i.id === id ? f(i) : i)`: the shape of every in-place
   * update of the item list. Rows with another id are untouched, and the
   * list keeps its length and its order of ids when `f` keeps ids.
   */
  function UpdateWhere(items: seq<Item>, id: string, f: Item -> Item): (r: seq<Item>)
    ensures |r| == |items|
    ensures forall k :: 0 <= k < |items| && items[k].id != id ==> r[k] == items[k]
    ensures forall k :: 0 <= k < |items| && items[k].id == id ==> r[k] == f(items[k])
  {
    seq(|items|, k requires 0 <= k < |items| => if items[k].id == id then f(items[k]) else items[k])
  }

  /** `items.find(i => i.id === id)`: the first item with that id, if any. */
  function FindItem(items: seq<Item>, id: string): (r: Option<Item>)
    ensures r.None? <==> forall k :: 0 <= k < |items| ==> items[k].id != id
    ensures r.Some? ==> r.value.id == id
    ensures r.Some? ==>
              exists k :: 0 <= k < |items| && items[k] == r.value && forall j :: 0 <= j < k ==> items[j].id != id
  {
    if items == [] then None
    else if items[0].id == id then Some(items[0])
    else
      var r := FindItem(items[1..], id);
      if r.Some? then
        var k :| 0 <= k < |items[1..]| && items[1..][k] == r.value &&
          forall j :: 0 <= j < k ==> items[1..][j].id != id;
        assert items[k + 1] == r.value;
        r
      else r
  }

  /**
   * An update that keeps ids and is applied to every row with the searched id
   * is found again, applied to the row that was found before.
   */
  lemma {:induction false} FindAfterUpdate(items: seq<Item>, id: string, f: Item -> Item)
    requires forall x :: f(x).id == x.id
    ensures FindItem(UpdateWhere(items, id, f), id) ==
      if FindItem(items, id).Some? then Some(f(FindItem(items, id).value)) else None
  {
    if items != [] && items[0].id != id {
      FindAfterUpdate(items[1..], id, f);
      assert UpdateWhere(items, id, f)[1..] == UpdateWhere(items[1..], id, f);
    }
  }

  /** With unique ids, looking up the id of row `k` finds row `k`. */
  lemma FindUnique(items: seq<Item>, id: string, k: int)
    requires UniqueIds(items) && 0 <= k < |items| && items[k].id == id
    ensures FindItem(items, id) == Some(items[k])
  {
  }
}

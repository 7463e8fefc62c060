/**
 * The registry's spreadsheet mode: a draft copy of the rows the registry
 * search shows, edited cell by cell and committed over the whole item list.
 */
module Spreadsheet {
  import opened Inventory
  import opened Search
  import opened InventoryStore

  /** An edit of one editable cell, with the value already parsed as the input does. */
  datatype Edit =
    | SetName(name: string)
    | SetSku(sku: string)
    | SetSerial(serial: string)
    | SetQuantity(quantity: int)
    | SetPrice(price: real)
    | SetWarranty(warranty: string)

  /**
   * One cell written into a row. A new price also re-derives the display
   * price; no edit touches the id, the status or the update time.
   */
  function ApplyEdit(item: Item, e: Edit): (r: Item)
    ensures r.id == item.id && r.status == item.status && r.lastUpdated == item.lastUpdated
    ensures r.category == item.category && r.minThreshold == item.minThreshold
    ensures e.SetName? ==> r == item.(name := e.name)
    ensures e.SetSku? ==> r == item.(sku := e.sku)
    ensures e.SetSerial? ==> r == item.(serialNumber := e.serial)
    ensures e.SetQuantity? ==> r == item.(quantity := e.quantity)
    ensures e.SetWarranty? ==> r == item.(warrantyExpiry := e.warranty)
    ensures e.SetPrice? ==> r == item.(price := e.price, priceZar := r.priceZar) && PriceConsistent(r)
    ensures !e.SetPrice? && PriceConsistent(item) ==> PriceConsistent(r)
  {
    match e
    case SetName(v) => item.(name := v)
    case SetSku(v) => item.(sku := v)
    case SetSerial(v) => item.(serialNumber := v)
    case SetQuantity(v) => item.(quantity := v)
    case SetPrice(v) => item.(price := v, priceZar := v * USD_TO_ZAR)
    case SetWarranty(v) => item.(warrantyExpiry := v)
  }

  /**
   * The draft after `updateCell`: the edit lands on the rows with that id and nowhere else;
   * the rows keep their ids and order, and consistent display prices stay consistent.
   */
  function EditCell(draft: seq<Item>, id: string, e: Edit): (r: seq<Item>)
    ensures |r| == |draft|
    ensures forall k :: 0 <= k < |draft| ==> r[k].id == draft[k].id
    ensures forall k :: 0 <= k < |draft| && draft[k].id != id ==> r[k] == draft[k]
    ensures forall k :: 0 <= k < |draft| && draft[k].id == id ==> r[k] == ApplyEdit(draft[k], e)
    ensures AllPriceConsistent(draft) ==> AllPriceConsistent(r)
  {
    UpdateWhere(draft, id, (i: Item) => ApplyEdit(i, e))
  }

  /** A series of cell edits, applied in order. */
  function ApplyEdits(draft: seq<Item>, edits: seq<(string, Edit)>): (r: seq<Item>)
    ensures |r| == |draft|
    ensures forall k :: 0 <= k < |draft| ==> r[k].id == draft[k].id
    ensures AllPriceConsistent(draft) ==> AllPriceConsistent(r)
    decreases |edits|
  {
    if edits == [] then draft
    else ApplyEdits(EditCell(draft, edits[0].0, edits[0].1), edits[1..])
  }

  /**
   * The sheet is opened on the registry's filtered rows, so a commit drops
   * every item the search term hid: with unique ids, no committed row has a
   * hidden item's id, whatever cells were edited.
   */
  lemma CommitDropsHiddenItems(items: seq<Item>, term: string, edits: seq<(string, Edit)>, k: int)
    requires UniqueIds(items) && 0 <= k < |items| && !TextMatch(items[k], term)
    ensures forall j :: 0 <= j < |ApplyEdits(RegistrySearch(items, term), edits)| ==>
              ApplyEdits(RegistrySearch(items, term), edits)[j].id != items[k].id
  {
    var shown := RegistrySearch(items, term);
    forall j | 0 <= j < |shown| ensures shown[j].id != items[k].id {
      var m :| 0 <= m < |items| && items[m] == shown[j];
      assert m != k;
    }
  }

  /**
   * A sheet opened on a store whose display prices are consistent commits
   * consistent rows, whatever cells were edited.
   */
  lemma CommitKeepsPriceConsistent(items: seq<Item>, term: string, edits: seq<(string, Edit)>)
    requires AllPriceConsistent(items)
    ensures AllPriceConsistent(ApplyEdits(RegistrySearch(items, term), edits))
  {
    var shown := RegistrySearch(items, term);
    forall j | 0 <= j < |shown| ensures PriceConsistent(shown[j]) {
      var m :| 0 <= m < |items| && items[m] == shown[j];
    }
  }

  class Sheet {
    const store: Store
    var draft: seq<Item>
    var dirty: bool

    /** The sheet starts on the rows the registry search shows, with nothing edited. */
    constructor(store: Store, searchTerm: string)
      ensures this.store == store
      ensures draft == RegistrySearch(store.items, searchTerm) && !dirty
    {
      this.store := store;
      draft := RegistrySearch(store.items, searchTerm);
      dirty := false;
    }

    /** Edits one cell of the draft; the sheet becomes dirty once a row with that id was edited. */
    method UpdateCell(id: string, e: Edit)
      modifies this
      ensures draft == EditCell(old(draft), id, e)
      ensures dirty == (old(dirty) || FindItem(old(draft), id).Some?)
    {
      dirty := dirty || FindItem(draft, id).Some?;
      draft := EditCell(draft, id, e);
    }

    /** `save`: the store's item list becomes the draft, the log is untouched, the sheet is clean. */
    method Save()
      modifies this, store
      ensures store.items == old(draft) && store.logs == old(store.logs)
      ensures draft == old(draft) && !dirty
    {
      store.Commit(draft);
      dirty := false;
    }
  }
}

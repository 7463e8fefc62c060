/**
 * The in-memory store: the item list and the newest-first activity log,
 * and the events that change them. Every event that changes a quantity or
 * a status prepends exactly one log entry; a spreadsheet commit overwrites
 * the item list and logs nothing.
 */
module InventoryStore {
  import opened Inventory
  import opened Workflow
  import opened Dashboard

  /** The entry the marketplace synchronisation logs: an adjustment with no quantity and no value. */
  function SyncLog(logId: string, now: int): (log: Log)
    ensures log.kind == Adjust && log.delta == 0 && log.value == 0.0
    ensures log.itemId == "global" && log.timestamp == now
  {
    Log(logId, "global", "Marketplace Ecosystem", Adjust, 0, 0.0, now,
        "Global synchronization with Takealot, Amazon, and eBay complete.")
  }

  /** Registering an item keeps every display price consistent. */
  lemma CreateKeepsPriceConsistent(items: seq<Item>, draft: Draft, id: string, fallbackSku: string, now: int)
    requires AllPriceConsistent(items)
    ensures AllPriceConsistent(items + [CreateItem(draft, id, fallbackSku, now)])
  {
  }

  /**
   * An item at exactly its threshold is low on stock; adding one unit lifts
   * it out of the low-stock list and logs one IN entry worth one unit.
   */
  lemma AddLiftsItemOutOfLowStock(item: Item, logId: string, now: int)
    requires item.quantity == 5 && item.minThreshold == 5 && item.price == 100.0
    ensures LowStock([item]) == [item]
    ensures var r := Workflow.Confirm([item], item.id, Add, 1, item.status, logId, now);
            && r.Applied?
            && r.items[0].quantity == 6
            && LowStock(r.items) == []
            && r.log.kind == In && r.log.delta == 1 && r.log.value == 100.0
  {
    var r := Workflow.Confirm([item], item.id, Add, 1, item.status, logId, now);
    assert r.items[0].quantity == 6;
    assert r.items == [r.items[0]];
    assert r.log.value == 1 as real * 100.0;
  }

  class Store {
    var items: seq<Item>
    var logs: seq<Log>

    /** A store holding what was loaded at start-up. */
    constructor(loadedItems: seq<Item>, loadedLogs: seq<Log>)
      ensures items == loadedItems && logs == loadedLogs
    {
      items := loadedItems;
      logs := loadedLogs;
    }

    /** `addLog`: prepends one entry, so the log stays newest-first; the items are untouched. */
    method AddLog(logId: string, itemId: string, itemName: string, kind: LogType, delta: int, value: real,
                  now: int, metadata: string)
      modifies this
      ensures logs == [Log(logId, itemId, itemName, kind, delta, value, now, metadata)] + old(logs)
      ensures items == old(items)
    {
      logs := [Log(logId, itemId, itemName, kind, delta, value, now, metadata)] + logs;
    }

    /**
     * `handleAddItem`: the new item goes to the end of the list and exactly one
     * CREATE entry goes to the front of the log; nothing already stored changes.
     */
    method AddItem(draft: Draft, id: string, fallbackSku: string, logId: string, now: int) returns (item: Item)
      modifies this
      ensures item == CreateItem(draft, id, fallbackSku, now)
      ensures items == old(items) + [item]
      ensures logs == [CreationLog(item, logId, now)] + old(logs)
    {
      item := CreateItem(draft, id, fallbackSku, now);
      items := items + [item];
      var log := CreationLog(item, logId, now);
      AddLog(log.id, log.itemId, log.itemName, log.kind, log.delta, log.value, log.timestamp, log.metadata);
    }

    /** The log effect of `handleGlobalSync`: one zero adjustment entry; the items are untouched. */
    method Sync(logId: string, now: int)
      modifies this
      ensures logs == [SyncLog(logId, now)] + old(logs)
      ensures items == old(items)
    {
      AddLog(logId, "global", "Marketplace Ecosystem", Adjust, 0, 0.0, now,
             "Global synchronization with Takealot, Amazon, and eBay complete.");
    }

    /**
     * `WorkflowsView.confirm`: a rejected or empty selection changes nothing;
     * an accepted step rewrites the selected rows and prepends its one entry.
     */
    method Confirm(selectedId: string, mode: Mode, amount: nat, target: ItemStatus, logId: string, now: int)
      returns (outcome: Outcome)
      requires amount >= 1
      modifies this
      ensures outcome == Workflow.Confirm(old(items), selectedId, mode, amount, target, logId, now)
      ensures outcome.Applied? ==> items == outcome.items && logs == [outcome.log] + old(logs)
      ensures !outcome.Applied? ==> items == old(items) && logs == old(logs)
    {
      var found := FindItem(items, selectedId);
      if found.None? {
        return NoSelection;
      }
      var selected := found.value;
      if mode == Remove && selected.quantity < amount {
        return InsufficientStock;
      }
      var change := Change(mode, amount);
      if mode == Move {
        items := UpdateWhere(items, selected.id, Retag(target, now));
      } else {
        items := UpdateWhere(items, selected.id, Bump(change, now));
      }
      var log := WorkflowLog(selected, mode, amount, target, logId, now);
      AddLog(log.id, log.itemId, log.itemName, log.kind, log.delta, log.value, now, log.metadata);
      outcome := Applied(items, log);
    }

    /** `setItems(draft)` from the spreadsheet: the list is overwritten and no entry is logged. */
    method Commit(draft: seq<Item>)
      modifies this
      ensures items == draft && logs == old(logs)
    {
      items := draft;
    }
  }
}

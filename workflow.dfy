/**
 * The workflow hub's confirm step: add stock, remove stock (rejected when
 * the selected item holds too little) or move the item to another status.
 * Each accepted step rewrites the selected item and produces exactly one
 * log entry.
 */
module Workflow {
  import opened Wrappers
  import opened Inventory
  import Text

  datatype Mode = Add | Remove | Move

  /** What confirming a step yields: nothing selected, a rejection, or the new item list and its log entry. */
  datatype Outcome = NoSelection | InsufficientStock | Applied(items: seq<Item>, log: Log)

  /** The status labels as the user sees them. */
  function StatusName(s: ItemStatus): string
  {
    match s
    case Available => "Available"
    case ToRepair => "To Repair"
    case InUse => "In Use"
    case Sold => "Sold"
  }

  function Abs(x: int): nat
  {
    if x < 0 then -x else x
  }

  /** The signed quantity change of a step. */
  function Change(mode: Mode, amount: nat): int
  {
    match mode
    case Add => amount
    case Remove => -(amount as int)
    case Move => 0
  }

  function Metadata(selected: Item, mode: Mode, amount: nat, target: ItemStatus): string
  {
    match mode
    case Add => "Manual inventory addition (+" + Text.Decimal(amount) + " units)."
    case Remove => "Manual inventory depletion (-" + Text.Decimal(amount) + " units)."
    case Move =>
      "Operational status transition: " + StatusName(selected.status) + " \U{2192} " + StatusName(target) + "."
  }

  /**
   * The entry a confirmed step logs: the step's kind, its signed quantity
   * change and its monetary magnitude at the selected item's price.
   */
  function WorkflowLog(selected: Item, mode: Mode, amount: nat, target: ItemStatus, logId: string, now: int): (log: Log)
    ensures log.itemId == selected.id && log.itemName == selected.name && log.timestamp == now
    ensures log.kind == StatusChange <==> mode == Move
    ensures log.kind == In <==> mode == Add
    ensures log.kind == Out <==> mode == Remove
    ensures mode == Add ==> log.delta == amount
    ensures mode == Remove ==> log.delta == -(amount as int)
    ensures mode == Move ==> log.delta == 0 && log.value == 0.0
    ensures log.value == Abs(log.delta) as real * selected.price
  {
    var change := Change(mode, amount);
    var kind := if mode == Move then StatusChange else if mode == Add then In else Out;
    Log(logId, selected.id, selected.name, kind, change, Abs(change) as real * selected.price, now,
        Metadata(selected, mode, amount, target))
  }

  /** The row update of an ADD or REMOVE step. */
  function Bump(change: int, now: int): Item -> Item
  {
    (i: Item) => i.(quantity := i.quantity + change, lastUpdated := now)
  }

  /** The row update of a MOVE step. */
  function Retag(target: ItemStatus, now: int): Item -> Item
  {
    (i: Item) => i.(status := target, lastUpdated := now)
  }

  /**
   * `WorkflowsView.confirm`. The selected item is the first one with
   * `selectedId`; the quantity check and the logged value use that item.
   * `amount` is at least 1, as the amount input clamps it.
   */
  function Confirm(items: seq<Item>, selectedId: string, mode: Mode, amount: nat, target: ItemStatus,
                   logId: string, now: int): (r: Outcome)
    requires amount >= 1
    ensures r.NoSelection? <==> FindItem(items, selectedId).None?
    ensures r.InsufficientStock? <==>
              FindItem(items, selectedId).Some? && mode == Remove && FindItem(items, selectedId).value.quantity < amount
    ensures r.Applied? ==> r.log == WorkflowLog(FindItem(items, selectedId).value, mode, amount, target, logId, now)
    ensures r.Applied? ==> |r.items| == |items|
    ensures r.Applied? ==> forall k :: 0 <= k < |items| && items[k].id != selectedId ==> r.items[k] == items[k]
    ensures r.Applied? && mode != Move ==>
              forall k :: 0 <= k < |items| && items[k].id == selectedId ==>
                r.items[k] == items[k].(quantity := items[k].quantity + r.log.delta, lastUpdated := now)
    ensures r.Applied? && mode == Move ==>
              forall k :: 0 <= k < |items| && items[k].id == selectedId ==>
                r.items[k] == items[k].(status := target, lastUpdated := now)
  {
    match FindItem(items, selectedId)
    case None => NoSelection
    case Some(selected) =>
      if mode == Remove && selected.quantity < amount then InsufficientStock
      else
        var change := Change(mode, amount);
        var update := if mode == Move then Retag(target, now) else Bump(change, now);
        Applied(UpdateWhere(items, selected.id, update), WorkflowLog(selected, mode, amount, target, logId, now))
  }

  /**
   * Removing exactly the quantity on hand is allowed, and with unique ids no
   * accepted removal takes a non-negative stock below zero.
   */
  lemma RemoveKeepsStockNonNegative(items: seq<Item>, selectedId: string, amount: nat, target: ItemStatus,
                                    logId: string, now: int)
    requires amount >= 1 && UniqueIds(items)
    requires forall k :: 0 <= k < |items| ==> items[k].quantity >= 0
    ensures var r := Confirm(items, selectedId, Remove, amount, target, logId, now);
            r.Applied? ==> forall k :: 0 <= k < |r.items| ==> r.items[k].quantity >= 0
  {
    var r := Confirm(items, selectedId, Remove, amount, target, logId, now);
    if r.Applied? {
      forall k | 0 <= k < |r.items| ensures r.items[k].quantity >= 0 {
        if items[k].id == selectedId {
          FindUnique(items, selectedId, k);
        }
      }
    }
  }

  /**
   * A removal of the whole stock of the first item with its id is accepted
   * and leaves that item at zero.
   */
  lemma RemoveAllAccepted(items: seq<Item>, k: int, target: ItemStatus, logId: string, now: int)
    requires 0 <= k < |items| && items[k].quantity >= 1
    requires forall j :: 0 <= j < k ==> items[j].id != items[k].id
    ensures var r := Confirm(items, items[k].id, Remove, items[k].quantity, target, logId, now);
            r.Applied? && r.items[k].quantity == 0
  {
    var found := FindItem(items, items[k].id);
    var m :| 0 <= m < |items| && items[m] == found.value && forall j :: 0 <= j < m ==> items[j].id != items[k].id;
    assert m == k;
  }

  /** An ADD and a REMOVE of the same amount at the same price log the same value. */
  lemma OppositeLogsSameValue(a: Item, b: Item, amount: nat, target: ItemStatus,
                              logId1: string, now1: int, logId2: string, now2: int)
    requires a.price == b.price
    ensures WorkflowLog(a, Add, amount, target, logId1, now1).value
         == WorkflowLog(b, Remove, amount, target, logId2, now2).value
  {
  }

  /** An accepted ADD or REMOVE step is the quantity update of the selected rows plus its log entry. */
  lemma AdjustStep(items: seq<Item>, selectedId: string, mode: Mode, amount: nat, target: ItemStatus,
                   logId: string, now: int)
    requires amount >= 1 && mode != Move
    requires FindItem(items, selectedId).Some?
    requires mode == Remove ==> FindItem(items, selectedId).value.quantity >= amount
    ensures Confirm(items, selectedId, mode, amount, target, logId, now)
         == Applied(UpdateWhere(items, selectedId, Bump(Change(mode, amount), now)),
                    WorkflowLog(FindItem(items, selectedId).value, mode, amount, target, logId, now))
  {
  }

  /** Raising and then lowering the same rows by the same amount restores them up to their update time. */
  lemma {:induction false} BumpThenUndo(items: seq<Item>, id: string, amount: int, now1: int, now2: int)
    ensures var back := UpdateWhere(UpdateWhere(items, id, Bump(amount, now1)), id, Bump(-amount, now2));
            && |back| == |items|
            && forall k :: 0 <= k < |items| ==> back[k] == items[k].(lastUpdated := back[k].lastUpdated)
  {
    var added := UpdateWhere(items, id, Bump(amount, now1));
    var back := UpdateWhere(added, id, Bump(-amount, now2));
    forall k | 0 <= k < |items|
      ensures back[k] == items[k].(lastUpdated := back[k].lastUpdated)
    {
      if items[k].id == id {
        assert added[k] == items[k].(quantity := items[k].quantity + amount, lastUpdated := now1);
        assert back[k] == items[k].(lastUpdated := now2);
      }
    }
  }

  /**
   * Adding and then removing the same amount is never rejected when the stock
   * was non-negative, restores every item except its update time, and logs
   * two entries whose deltas cancel and whose values agree.
   */
  lemma AddThenRemoveRestores(items: seq<Item>, selectedId: string, amount: nat, target: ItemStatus,
                              logId1: string, now1: int, logId2: string, now2: int)
    requires amount >= 1
    requires FindItem(items, selectedId).Some? && FindItem(items, selectedId).value.quantity >= 0
    ensures Confirm(items, selectedId, Add, amount, target, logId1, now1).Applied?
    ensures var r1 := Confirm(items, selectedId, Add, amount, target, logId1, now1);
            var r2 := Confirm(r1.items, selectedId, Remove, amount, target, logId2, now2);
            && r2.Applied?
            && |r2.items| == |items|
            && (forall k :: 0 <= k < |items| ==> r2.items[k] == items[k].(lastUpdated := r2.items[k].lastUpdated))
            && r1.log.delta + r2.log.delta == 0
            && r1.log.value == r2.log.value
  {
    var sel := FindItem(items, selectedId).value;
    var added := UpdateWhere(items, selectedId, Bump(amount, now1));
    var r1 := Confirm(items, selectedId, Add, amount, target, logId1, now1);
    AdjustStep(items, selectedId, Add, amount, target, logId1, now1);
    assert r1.items == added && r1.log.delta == amount;
    FindAfterUpdate(items, selectedId, Bump(amount, now1));
    var sel2 := Bump(amount, now1)(sel);
    assert FindItem(added, selectedId) == Some(sel2);
    var r2 := Confirm(added, selectedId, Remove, amount, target, logId2, now2);
    AdjustStep(added, selectedId, Remove, amount, target, logId2, now2);
    assert r2.items == UpdateWhere(added, selectedId, Bump(-(amount as int), now2));
    assert r2.log.delta == -(amount as int) && sel2.price == sel.price;
    assert Abs(r1.log.delta) == Abs(r2.log.delta);
    OppositeLogsSameValue(sel, sel2, amount, target, logId1, now1, logId2, now2);
    BumpThenUndo(items, selectedId, amount, now1, now2);
    assert Confirm(r1.items, selectedId, Remove, amount, target, logId2, now2) == r2;
  }

  /** Moving logs a status change even when the item already has the target status. */
  lemma MoveAlwaysLogs(items: seq<Item>, k: int, logId: string, now: int)
    requires 0 <= k < |items|
    ensures var r := Confirm(items, items[k].id, Move, 1, items[k].status, logId, now);
            && r.Applied?
            && r.log.kind == StatusChange && r.log.delta == 0 && r.log.value == 0.0
            && r.items[k] == items[k].(lastUpdated := now)
  {
  }

  /** An entry logged at a non-negative price has a non-negative value. */
  lemma EntryValueNonNegative(selected: Item, mode: Mode, amount: nat, target: ItemStatus, logId: string, now: int)
    requires selected.price >= 0.0
    ensures WorkflowLog(selected, mode, amount, target, logId, now).value >= 0.0
  {
    var log := WorkflowLog(selected, mode, amount, target, logId, now);
    var m := Abs(log.delta) as real;
    assert m >= 0.0;
  }

  /** Every logged workflow step has a non-negative value when prices are non-negative. */
  lemma WorkflowLogValueNonNegative(items: seq<Item>, selectedId: string, mode: Mode, amount: nat,
                                    target: ItemStatus, logId: string, now: int)
    requires amount >= 1
    requires forall k :: 0 <= k < |items| ==> items[k].price >= 0.0
    ensures var r := Confirm(items, selectedId, mode, amount, target, logId, now);
            r.Applied? ==> r.log.value >= 0.0
  {
    var found := FindItem(items, selectedId);
    if found.Some? {
      var k :| 0 <= k < |items| && items[k] == found.value && forall j :: 0 <= j < k ==> items[j].id != selectedId;
      EntryValueNonNegative(found.value, mode, amount, target, logId, now);
    }
  }

  /** A workflow step never touches prices, so it keeps the display prices consistent. */
  lemma WorkflowKeepsPriceConsistent(items: seq<Item>, selectedId: string, mode: Mode, amount: nat,
                                     target: ItemStatus, logId: string, now: int)
    requires amount >= 1 && AllPriceConsistent(items)
    ensures var r := Confirm(items, selectedId, mode, amount, target, logId, now);
            r.Applied? ==> AllPriceConsistent(r.items)
  {
  }
}

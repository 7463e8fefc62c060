/**
 * The operations dashboard's figures: stock worth, the low-stock list and
 * the stock that flowed in and out during the last 24 hours.
 */
module Dashboard {
  import opened Inventory
  import opened Seqs

  lemma ValueNonNegative(item: Item)
    requires item.price >= 0.0 && item.quantity >= 0
    ensures Value(item) >= 0.0
  {
  }

  /** `items.reduce((acc, i) => acc + i.price * i.quantity, 0)`: the worth of the whole stock. */
  function TotalValue(items: seq<Item>): real
  {
    if items == [] then 0.0
    else TotalValue(items[..|items| - 1]) + Value(items[|items| - 1])
  }

  /** The stock worth is never negative when no price or quantity is. */
  lemma {:induction false} TotalValueNonNegative(items: seq<Item>)
    requires forall k :: 0 <= k < |items| ==> items[k].price >= 0.0 && items[k].quantity >= 0
    ensures TotalValue(items) >= 0.0
  {
    if items != [] {
      TotalValueNonNegative(items[..|items| - 1]);
      ValueNonNegative(items[|items| - 1]);
    }
  }

  /**
   * The critical items: exactly those whose quantity is at or below their
   * threshold (the boundary counts as critical), in their original order.
   */
  function LowStock(items: seq<Item>): (r: seq<Item>)
    ensures forall k :: 0 <= k < |r| ==> r[k] in items && r[k].quantity <= r[k].minThreshold
    ensures forall k :: 0 <= k < |items| && items[k].quantity <= items[k].minThreshold ==> items[k] in r
    ensures IsSubsequence(r, items)
    ensures forall x :: multiset(r)[x] == if x.quantity <= x.minThreshold then multiset(items)[x] else 0
  {
    Keep(items, (i: Item) => Critical(i))
  }

  /** Positive deltas logged at or after `since`. */
  function Inflow(logs: seq<Log>, since: int): (r: int)
    ensures r >= 0
  {
    if logs == [] then 0
    else
      var last := logs[|logs| - 1];
      Inflow(logs[..|logs| - 1], since) + (if last.timestamp >= since && last.delta > 0 then last.delta else 0)
  }

  /** Magnitudes of the negative deltas logged at or after `since`. */
  function Outflow(logs: seq<Log>, since: int): (r: int)
    ensures r >= 0
  {
    if logs == [] then 0
    else
      var last := logs[|logs| - 1];
      Outflow(logs[..|logs| - 1], since) + (if last.timestamp >= since && last.delta < 0 then -last.delta else 0)
  }

  /** The net quantity change logged at or after `since`. */
  function WindowNet(logs: seq<Log>, since: int): int
  {
    if logs == [] then 0
    else
      var last := logs[|logs| - 1];
      WindowNet(logs[..|logs| - 1], since) + (if last.timestamp >= since then last.delta else 0)
  }

  /** Inflow minus outflow is the net change of the window. */
  lemma {:induction false} NetFlow(logs: seq<Log>, since: int)
    ensures Inflow(logs, since) - Outflow(logs, since) == WindowNet(logs, since)
  {
    if logs != [] {
      NetFlow(logs[..|logs| - 1], since);
    }
  }

  /** Both flows add up over a split of the log. */
  lemma {:induction false} FlowSplit(a: seq<Log>, b: seq<Log>, since: int)
    ensures Inflow(a + b, since) == Inflow(a, since) + Inflow(b, since)
    ensures Outflow(a + b, since) == Outflow(a, since) + Outflow(b, since)
    decreases |b|
  {
    if b != [] {
      assert (a + b)[..|a + b| - 1] == a + b[..|b| - 1];
      FlowSplit(a, b[..|b| - 1], since);
    } else {
      assert a + b == a;
    }
  }

  /** An entry with a zero delta (a status change, a synchronisation) changes neither flow. */
  lemma ZeroDeltaInvisible(log: Log, logs: seq<Log>, since: int)
    requires log.delta == 0
    ensures Inflow([log] + logs, since) == Inflow(logs, since)
    ensures Outflow([log] + logs, since) == Outflow(logs, since)
  {
    FlowSplit([log], logs, since);
    assert [log][..0] == [];
  }

  /** The window is closed at its start: an entry logged exactly at `since` counts. */
  lemma WindowStartIncluded(log: Log, since: int)
    requires log.timestamp == since
    ensures Inflow([log], since) == (if log.delta > 0 then log.delta else 0)
    ensures Outflow([log], since) == (if log.delta < 0 then -log.delta else 0)
  {
    assert [log][..0] == [];
  }

  /** The figures the dashboard shows. */
  datatype Stats = Stats(
    totalItems: nat,
    totalValue: real,
    lowStockCount: nat,
    lowStockItems: seq<Item>,
    inflow: int,
    outflow: int)

  /**
   * The dashboard's statistics memo. The flows are accumulated by one pass
   * over the log, counting entries at or after `now` minus 24 hours.
   */
  method ComputeStats(items: seq<Item>, logs: seq<Log>, now: int) returns (s: Stats)
    ensures s.totalItems == |items| && s.totalValue == TotalValue(items)
    ensures s.lowStockItems == LowStock(items) && s.lowStockCount == |s.lowStockItems|
    ensures s.inflow == Inflow(logs, now - DAY_MS) && s.outflow == Outflow(logs, now - DAY_MS)
    ensures s.inflow >= 0 && s.outflow >= 0
  {
    var windowStart := now - DAY_MS;
    var inflow, outflow := 0, 0;
    for i := 0 to |logs|
      invariant inflow == Inflow(logs[..i], windowStart)
      invariant outflow == Outflow(logs[..i], windowStart)
    {
      var log := logs[i];
      if log.timestamp >= windowStart {
        if log.delta > 0 {
          inflow := inflow + log.delta;
        } else if log.delta < 0 {
          outflow := outflow - log.delta;
        }
      }
      assert logs[..i + 1][..i] == logs[..i];
    }
    assert logs[..|logs|] == logs;
    var low := LowStock(items);
    s := Stats(|items|, TotalValue(items), |low|, low, inflow, outflow);
  }
}

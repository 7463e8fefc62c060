/**
 * The intelligence report's category roll-up: stock worth grouped by the
 * raw category string, one entry per category in order of first appearance.
 */
module Reports {
  import opened Inventory
  import opened Dashboard

  /** Worth of the items whose category is exactly `c`. */
  function CategoryValue(items: seq<Item>, c: string): real
  {
    if items == [] then 0.0
    else
      var last := items[|items| - 1];
      CategoryValue(items[..|items| - 1], c) + (if last.category == c then Value(last) else 0.0)
  }

  predicate Distinct(cs: seq<string>)
  {
    forall j, k :: 0 <= j < k < |cs| ==> cs[j] != cs[k]
  }

  /**
   * The categories of `items`, each once, in the order in which they first
   * appear.
   */
  function Categories(items: seq<Item>): (r: seq<string>)
    ensures Distinct(r)
    ensures forall k :: 0 <= k < |items| ==> items[k].category in r
  {
    if items == [] then []
    else
      var init := items[..|items| - 1];
      var last := items[|items| - 1];
      var cs := Categories(init);
      assert forall k :: 0 <= k < |init| ==> init[k] == items[k];
      if last.category in cs then cs else cs + [last.category]
  }

  /** Every listed category is the category of some item. */
  lemma {:induction false} CategoriesOccur(items: seq<Item>, j: int)
    requires 0 <= j < |Categories(items)|
    ensures exists k :: 0 <= k < |items| && items[k].category == Categories(items)[j]
  {
    var init := items[..|items| - 1];
    if j < |Categories(init)| {
      CategoriesOccur(init, j);
      var k :| 0 <= k < |init| && init[k].category == Categories(init)[j];
      assert items[k] == init[k];
    } else {
      assert items[|items| - 1].category == Categories(items)[j];
    }
  }

  /** The entries `Object.entries(cats)` yields for the categories `cs`. */
  function Rollup(cs: seq<string>, items: seq<Item>): (r: seq<(string, real)>)
    ensures |r| == |cs|
    ensures forall k :: 0 <= k < |cs| ==> r[k].0 == cs[k] && r[k].1 == CategoryValue(items, cs[k])
  {
    seq(|cs|, k requires 0 <= k < |cs| => (cs[k], CategoryValue(items, cs[k])))
  }

  function SumValues(entries: seq<(string, real)>): real
  {
    if entries == [] then 0.0 else SumValues(entries[..|entries| - 1]) + entries[|entries| - 1].1
  }

  /** A category that never occurs has no worth. */
  lemma {:induction false} AbsentCategoryIsZero(items: seq<Item>, c: string)
    requires c !in Categories(items)
    ensures CategoryValue(items, c) == 0.0
  {
    if items != [] {
      AbsentCategoryIsZero(items[..|items| - 1], c);
    }
  }

  /** Adding one item raises the roll-up over distinct categories by its worth, if its category is listed. */
  lemma {:induction false} RollupAddItem(cs: seq<string>, items: seq<Item>, x: Item)
    requires Distinct(cs)
    ensures SumValues(Rollup(cs, items + [x]))
         == SumValues(Rollup(cs, items)) + (if x.category in cs then Value(x) else 0.0)
  {
    if cs != [] {
      var init := cs[..|cs| - 1];
      RollupAddItem(init, items + [x], x);
      RollupAddItem(init, items, x);
      assert Rollup(cs, items + [x])[..|init|] == Rollup(init, items + [x]);
      assert Rollup(cs, items)[..|init|] == Rollup(init, items);
      assert (items + [x])[..|items|] == items;
      assert x.category in cs <==> x.category in init || x.category == cs[|cs| - 1];
    }
  }

  /** Category totals partition the stock worth: they add up to the dashboard's total value. */
  lemma {:induction false} RollupSumsToTotal(items: seq<Item>)
    ensures SumValues(Rollup(Categories(items), items)) == TotalValue(items)
  {
    if items != [] {
      var init := items[..|items| - 1];
      var x := items[|items| - 1];
      assert items == init + [x];
      var cs := Categories(init);
      RollupSumsToTotal(init);
      if x.category in cs {
        RollupAddItem(cs, init, x);
      } else {
        var cs' := cs + [x.category];
        assert Rollup(cs', items)[..|cs|] == Rollup(cs, items);
        RollupAddItem(cs, init, x);
        AbsentCategoryIsZero(init, x.category);
      }
    }
  }

  /** `cats` and `order` hold the roll-up of `prefix`: its categories in order and each one's worth. */
  ghost predicate Tallied(cats: map<string, real>, order: seq<string>, prefix: seq<Item>)
  {
    && order == Categories(prefix)
    && (forall c :: c in cats <==> c in order)
    && (forall c :: c in cats ==> cats[c] == CategoryValue(prefix, c))
  }

  /** Counting one more item into the dictionary keeps it the roll-up of the longer prefix. */
  lemma TallyStep(items: seq<Item>, i: int, cats: map<string, real>, order: seq<string>)
    requires 0 <= i < |items| && Tallied(cats, order, items[..i])
    ensures var c0 := items[i].category;
            Tallied(cats[c0 := (if c0 in cats then cats[c0] else 0.0) + Value(items[i])],
                    if c0 in cats then order else order + [c0],
                    items[..i + 1])
  {
    var prefix, longer := items[..i], items[..i + 1];
    assert longer[..|longer| - 1] == prefix && longer[|longer| - 1] == items[i];
    var c0 := items[i].category;
    var cats' := cats[c0 := (if c0 in cats then cats[c0] else 0.0) + Value(items[i])];
    forall c | c in cats'
      ensures cats'[c] == CategoryValue(longer, c)
    {
      if c != c0 {
        assert CategoryValue(longer, c) == CategoryValue(prefix, c);
      } else if c0 !in cats {
        AbsentCategoryIsZero(prefix, c0);
      }
    }
  }

  lemma RollupStep(cs: seq<string>, j: int, items: seq<Item>)
    requires 0 <= j < |cs|
    ensures Rollup(cs[..j + 1], items) == Rollup(cs[..j], items) + [(cs[j], CategoryValue(items, cs[j]))]
  {
  }

  /**
   * The report memo: one pass over the items accumulating each category's
   * worth in a dictionary, then the dictionary's entries in insertion order.
   */
  method CategoryTotals(items: seq<Item>) returns (entries: seq<(string, real)>)
    ensures entries == Rollup(Categories(items), items)
  {
    var cats: map<string, real> := map[];
    var order: seq<string> := [];
    for i := 0 to |items|
      invariant Tallied(cats, order, items[..i])
    {
      var item := items[i];
      TallyStep(items, i, cats, order);
      var sofar := if item.category in cats then cats[item.category] else 0.0;
      if item.category !in cats {
        order := order + [item.category];
      }
      cats := cats[item.category := sofar + Value(item)];
    }
    assert items[..|items|] == items;
    entries := [];
    for j := 0 to |order|
      invariant entries == Rollup(order[..j], items)
    {
      RollupStep(order, j, items);
      entries := entries + [(order[j], cats[order[j]])];
    }
    assert order[..|order|] == order;
  }
}

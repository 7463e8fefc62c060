/**
 * The registry's free-text filter and the deep-search view's conjunction of
 * text, category, price and recency filters.
 */
module Search {
  import opened Inventory
  import opened Seqs
  import opened Text

  /**
   * Case-insensitive substring match of `term` against the name, the SKU or,
   * when it is not empty, the serial number.
   */
  predicate TextMatch(item: Item, term: string)
  {
    var t := Lower(term);
    || Includes(Lower(item.name), t)
    || Includes(Lower(item.sku), t)
    || (item.serialNumber != "" && Includes(Lower(item.serialNumber), t))
  }

  /** The registry's filtered list: the items matching the header search term, in order. */
  function RegistrySearch(items: seq<Item>, term: string): (r: seq<Item>)
    ensures forall k :: 0 <= k < |r| ==> r[k] in items && TextMatch(r[k], term)
    ensures forall k :: 0 <= k < |items| && TextMatch(items[k], term) ==> items[k] in r
    ensures IsSubsequence(r, items)
    ensures forall x :: multiset(r)[x] == if TextMatch(x, term) then multiset(items)[x] else 0
  {
    Keep(items, (i: Item) => TextMatch(i, term))
  }

  /** The registry search ignores the case of the term: `IPAD` and `ipad` show the same items. */
  lemma SearchIgnoresCase(items: seq<Item>, a: string, b: string)
    requires |a| == |b| && forall k :: 0 <= k < |a| ==> SameLetter(a[k], b[k])
    ensures RegistrySearch(items, a) == RegistrySearch(items, b)
  {
    LowerIgnoresCase(a, b);
    KeepAgree(items, (i: Item) => TextMatch(i, a), (i: Item) => TextMatch(i, b));
  }

  /** An empty search term matches every item, so the registry shows the whole list. */
  lemma EmptyTermKeepsAll(items: seq<Item>)
    ensures RegistrySearch(items, "") == items
  {
    forall k | 0 <= k < |items| ensures TextMatch(items[k], "") {
      IncludesEmpty(Lower(items[k].name));
    }
    KeepAll(items, (i: Item) => TextMatch(i, ""));
  }

  datatype DateFilter = AnyTime | Today | Week | Month

  /** The deep-search controls. */
  datatype Query = Query(text: string, tags: seq<string>, priceLimit: real, dateFilter: DateFilter)

  /** The price slider's initial position. */
  const DEFAULT_PRICE_LIMIT: real := 100000.0

  /** How many days back each recency filter reaches. */
  function WindowDays(f: DateFilter): nat
  {
    match f
    case AnyTime => 0
    case Today => 1
    case Week => 7
    case Month => 30
  }

  /** The recency filter: the item's age in (fractional) days is within the window. */
  predicate DateMatch(f: DateFilter, lastUpdated: int, now: int)
  {
    f == AnyTime || (now - lastUpdated) as real / DAY_MS as real <= WindowDays(f) as real
  }

  /**
   * The fractional-day comparison is the same as comparing ages in
   * milliseconds; an item updated in the future is always recent.
   */
  lemma DateMatchWindow(f: DateFilter, lastUpdated: int, now: int)
    ensures DateMatch(f, lastUpdated, now) <==> f == AnyTime || now - lastUpdated <= WindowDays(f) * DAY_MS
    ensures lastUpdated >= now ==> DateMatch(f, lastUpdated, now)
  {
  }

  /** All four filters hold; an empty category selection lets every category through. */
  predicate Matches(item: Item, q: Query, now: int)
  {
    && TextMatch(item, q.text)
    && (|q.tags| == 0 || item.category in q.tags)
    && item.price <= q.priceLimit
    && DateMatch(q.dateFilter, item.lastUpdated, now)
  }

  /** The deep-search result: the items passing every filter, in order. */
  function AdvancedSearch(items: seq<Item>, q: Query, now: int): (r: seq<Item>)
    ensures forall k :: 0 <= k < |r| ==>
              && r[k] in items && TextMatch(r[k], q.text)
              && (|q.tags| == 0 || r[k].category in q.tags)
              && r[k].price <= q.priceLimit
              && DateMatch(q.dateFilter, r[k].lastUpdated, now)
    ensures forall k :: 0 <= k < |items| && Matches(items[k], q, now) ==> items[k] in r
    ensures IsSubsequence(r, items)
    ensures forall x :: multiset(r)[x] == if Matches(x, q, now) then multiset(items)[x] else 0
  {
    Keep(items, (i: Item) => Matches(i, q, now))
  }

  /**
   * With no text, no category and no recency filter, only the price limit
   * filters; when every price is within it, the whole list comes back.
   */
  lemma NeutralQueryFiltersByPriceOnly(items: seq<Item>, limit: real, now: int)
    ensures AdvancedSearch(items, Query("", [], limit, AnyTime), now)
         == Keep(items, (i: Item) => i.price <= limit)
    ensures (forall k :: 0 <= k < |items| ==> items[k].price <= limit) ==>
              AdvancedSearch(items, Query("", [], limit, AnyTime), now) == items
  {
    var q := Query("", [], limit, AnyTime);
    forall k | 0 <= k < |items| ensures TextMatch(items[k], "") {
      IncludesEmpty(Lower(items[k].name));
    }
    KeepAgree(items, (i: Item) => Matches(i, q, now), (i: Item) => i.price <= limit);
    if forall k :: 0 <= k < |items| ==> items[k].price <= limit {
      KeepAll(items, (i: Item) => i.price <= limit);
    }
  }

  /** Opened with the default controls, deep search shows every item priced within the slider's range. */
  lemma DefaultQueryShowsAll(items: seq<Item>, now: int)
    requires forall k :: 0 <= k < |items| ==> items[k].price <= DEFAULT_PRICE_LIMIT
    ensures AdvancedSearch(items, Query("", [], DEFAULT_PRICE_LIMIT, AnyTime), now) == items
  {
    NeutralQueryFiltersByPriceOnly(items, DEFAULT_PRICE_LIMIT, now);
  }

  /** An item the registry search hides is also hidden by a deep search with the same text. */
  lemma AdvancedNarrowsRegistry(items: seq<Item>, q: Query, now: int)
    ensures forall x :: x in AdvancedSearch(items, q, now) ==> x in RegistrySearch(items, q.text)
  {
  }
}

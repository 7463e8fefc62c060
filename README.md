# Inventory store model

A Dafny model of the client-side store of a single-page inventory dashboard
for an electronics reseller. The store holds two collections: the item list,
and the activity log, kept newest-first. A handful of events change them:

- registering an asset;
- the workflow hub's ADD / REMOVE / MOVE step;
- the spreadsheet's batch commit;
- the marketplace synchronisation's log entry.

Several derived views read them:

- the dashboard's stock worth, low-stock list and 24-hour inflow/outflow;
- the report's per-category worth;
- the registry's text search and the deep-search filter.

Layout, one module per concern:

- `wrappers.dfy` (`Wrappers`): the `Option` type used for form fields that may be missing.
- `text.dfy` (`Text`): lower-casing, substring search (`includes`) and decimal rendering of a count.
- `seqs.dfy` (`Seqs`): `filter` as `Keep`, and the subsequence relation it establishes.
- `inventory.dfy` (`Inventory`):
  - the records `Item`, `Log` and `Draft` (the add-asset form);
  - the closed enumerations of status and log type;
  - item creation with JavaScript's falsy `||` defaults;
  - the row update `UpdateWhere`, which is `items.map(i => i.id === id ? f(i) : i)`;
  - the lookup `FindItem`, which is `items.find`.
- `workflow.dfy` (`Workflow`): the confirm step as a pure function, from the item list to an outcome and one log entry.
- `dashboard.dfy` (`Dashboard`):
  - total value and the low-stock list;
  - the windowed inflow/outflow, as specification functions;
  - the statistics method, whose loop is proved against those functions.
- `reports.dfy` (`Reports`):
  - the category roll-up, as a specification function;
  - the dictionary-building method, proved against that function;
  - the proof that the category totals add up to the total value.
- `search.dfy` (`Search`): the registry filter and the four-way deep-search filter.
- `store.dfy` (`InventoryStore`): the `Store` class, whose fields `items` and `logs` are replaced by each event.
- `spreadsheet.dfy` (`Spreadsheet`): the `Sheet` class, which holds the draft rows and the dirty flag, with cell edits and the commit.

Modelling choices:

- Prices are `real`, so the model uses exact arithmetic, not IEEE doubles.
- The conversion rate is exactly 16.22.
- Times are integer milliseconds.
- Random ids, the random `SKU-nnnn` placeholder and the current time are parameters.
- Omitted or NaN form fields are `None`.
- An absent serial number or warranty date is `""`. The search treats the empty string and `undefined` alike, as falsy.
- Lower-casing covers the ASCII letters.

Behaviour of the code that the model keeps as written:

- The deep-search recency filter compares fractional days, `(now - lastUpdated) / 86400000 <= 1 | 7 | 30`, so an item 1.5 days old fails the today filter (`Search.DateMatchWindow` states the millisecond form).
- The spreadsheet commit does not recompute display prices. Only a price edit does (`Spreadsheet.ApplyEdit`).
- The commit writes back only the rows the registry search showed, so hidden items are dropped (`Spreadsheet.CommitDropsHiddenItems`).
- The REMOVE check and the logged value use the selected item. That item is found by id in the current list.

## Model

| member | source | states |
|---|---|---|
| `Inventory.CreateItem` | App.tsx:74-92 | An omitted or empty name, SKU or category becomes "Unnamed Item", the generated placeholder or "General"; a non-empty one is kept. An omitted or zero threshold becomes 5 and a non-zero one is kept, so the threshold is never 0. Quantity and price are kept, or 0 when omitted. An omitted serial number or warranty date becomes "" and a supplied one is kept. Display price = price × 16.22. Status is Available, nothing sold, no images, fields or attachments. |
| `Inventory.CreationLog` | App.tsx:94 | The creation entry is of kind CREATE for the new item, with delta = its quantity and value = its worth. |
| `Inventory.UpdateWhere` | App.tsx:799 | The per-id map keeps the list's length. Rows with another id are untouched. Every row with the id is rewritten by the update. |
| `Inventory.FindItem` | App.tsx:857 | `find` returns nothing exactly when no item has the id. Otherwise it returns an item with that id, at an index with no earlier match. |
| `Inventory.FindAfterUpdate` | App.tsx:799-809 | After an id-preserving update of the selected rows, looking the id up again yields the updated selected item. |
| `Text.Lower` | App.tsx:523 | Lower-casing keeps the length, turns each upper-case letter into its lower-case letter and keeps every other character. |
| `Text.LowerIgnoresCase` | App.tsx:523-525 | Two strings that differ only in the case of their letters lower-case to the same string. |
| `Text.LowerIdempotent` | App.tsx:523 | Lower-casing twice is lower-casing once, so a lower-cased term matches a lower-cased field. |
| `Text.IncludesIff` | App.tsx:523-525 | `includes` is true exactly when the needle occurs at some position of the haystack. |
| `Text.Decimal` | App.tsx:798 | The rendered count is a non-empty string of digits with no leading zero. |
| `Text.DecimalRoundTrip` | App.tsx:802 | Reading the rendered count back gives the count. |
| `Seqs.Keep` | App.tsx:202 | `filter` returns a subsequence of its input, in order. It holds each passing element as many times as the input does, and no failing element. |
| `Seqs.KeepAll` | App.tsx:521-527 | A filter whose predicate every element passes returns its input unchanged. |
| `Workflow.WorkflowLog` | App.tsx:809 | ADD logs IN with +amount. REMOVE logs OUT with −amount. MOVE logs STATUS_CHANGE with delta 0 and value 0. The value is always \|delta\| × the selected item's price. |
| `Workflow.Confirm` | App.tsx:786-813 | Nothing happens when no item has the selected id. REMOVE is rejected exactly when the selected quantity is below the amount. An accepted step keeps the list's length and leaves every other id's rows identical. ADD/REMOVE change only quantity (by the logged delta) and update time; MOVE changes only status and update time. |
| `Workflow.RemoveKeepsStockNonNegative` | App.tsx:789-803 | With unique ids and non-negative stock, no accepted REMOVE makes any quantity negative. |
| `Workflow.RemoveAllAccepted` | App.tsx:789 | Removing exactly the quantity on hand of the first item with its id is accepted and leaves it at 0, so the rejection bound is strict. Duplicated ids later in the list do not matter. |
| `Workflow.AddThenRemoveRestores` | App.tsx:796-809 | ADD then REMOVE of the same amount is never rejected on non-negative stock. It restores every item except its update time. The two deltas sum to zero and the two values are equal. |
| `Workflow.OppositeLogsSameValue` | App.tsx:809 | An ADD and a REMOVE of the same amount at the same price log the same value. |
| `Workflow.MoveAlwaysLogs` | App.tsx:804-809 | A MOVE to the status the item already has is still applied. It logs STATUS_CHANGE with delta 0 and value 0 and changes only the update time. |
| `Workflow.EntryValueNonNegative` | App.tsx:809 | An entry logged at a non-negative price has a non-negative value, whatever the mode. |
| `Workflow.WorkflowLogValueNonNegative` | App.tsx:809 | With non-negative prices, every workflow entry has a non-negative value. |
| `Workflow.WorkflowKeepsPriceConsistent` | App.tsx:799-806 | A workflow step keeps every display price equal to price × rate. |
| `Dashboard.TotalValueNonNegative` | App.tsx:201 | The stock worth (the sum of price × quantity) is non-negative when prices and quantities are. |
| `Dashboard.LowStock` | App.tsx:202 | The low-stock list is the order-preserving subsequence of items with quantity ≤ threshold, each as often as it occurs in the list. An item at exactly its threshold is included. |
| `Dashboard.Inflow` | App.tsx:213 | The inflow is never negative. |
| `Dashboard.Outflow` | App.tsx:214 | The outflow is never negative. |
| `Dashboard.NetFlow` | App.tsx:207-216 | Inflow minus outflow equals the net delta of the window. |
| `Dashboard.FlowSplit` | App.tsx:210-216 | Both flows add up over any split of the log. |
| `Dashboard.ZeroDeltaInvisible` | App.tsx:213-214 | An entry with delta 0 (a status change, a synchronisation) changes neither flow. |
| `Dashboard.WindowStartIncluded` | App.tsx:205-212 | An entry stamped exactly 24 hours ago still counts. |
| `Dashboard.ComputeStats` | App.tsx:199-219 | The statistics are: the item count; total value; the low-stock list and its length; and inflow and outflow over the entries at or after now − 24 h, both ≥ 0. The `forEach` loop accumulates the flows. |
| `Reports.Categories` | App.tsx:929-931 | The roll-up's categories are distinct and include every item's raw category string. |
| `Reports.CategoriesOccur` | App.tsx:929-931 | Every listed category is some item's category. |
| `Reports.Rollup` | App.tsx:931 | One entry per listed category, holding that category's worth. |
| `Reports.AbsentCategoryIsZero` | App.tsx:930 | A category no item has is worth 0. |
| `Reports.RollupSumsToTotal` | App.tsx:930 | The category totals add up to the dashboard's total value. |
| `Reports.CategoryTotals` | App.tsx:928-932 | The loop builds a dictionary per category, then lists its entries in insertion order. The result is the roll-up of `Categories`. |
| `Search.RegistrySearch` | App.tsx:521-527 | The registry list is the order-preserving subsequence of items whose name, SKU or non-empty serial number contains the term, ignoring case, each as often as it occurs in the list. |
| `Search.SearchIgnoresCase` | App.tsx:523-525 | Search terms that differ only in letter case show the same items. |
| `Search.EmptyTermKeepsAll` | App.tsx:521-527 | An empty search term returns every item, in order. |
| `Search.DateMatchWindow` | App.tsx:701-709 | The today/week/month filters hold exactly when the age in milliseconds is at most 1, 7 or 30 days. Items updated in the future always pass. |
| `Search.AdvancedSearch` | App.tsx:693-713 | The deep-search result is an order-preserving subsequence. It keeps an item, as often as it occurs, exactly when the text matches, the category is selected (or none is), the price is within the limit and the date filter holds. |
| `Search.DefaultQueryShowsAll` | App.tsx:688-691 | With the controls as the view opens them (no text, no category, price limit 100000, any date), every item priced within 100000 is shown, in order. |
| `Search.NeutralQueryFiltersByPriceOnly` | App.tsx:689-699 | With no text, no category and no date filter, only the price limit filters. If every price is within the limit, the whole list is returned. |
| `Search.AdvancedNarrowsRegistry` | App.tsx:695-697 | Deep search never shows an item that the registry search with the same text hides. |
| `Spreadsheet.ApplyEdit` | App.tsx:619-620 | A cell edit changes only its field, except that a price edit also sets display price = price × rate. Id, status, category, threshold and update time stay. Consistent display prices stay consistent. |
| `Spreadsheet.EditCell` | App.tsx:615-625 | `updateCell` edits only the rows with that id. It keeps length, ids and order, and keeps all display prices consistent. |
| `Spreadsheet.ApplyEdits` | App.tsx:615-625 | Any series of cell edits keeps the draft's length and its ids, row by row, and keeps every display price equal to price × rate. |
| `Spreadsheet.CommitKeepsPriceConsistent` | App.tsx:609-628 | A sheet opened on a store with consistent display prices commits rows whose display prices are all consistent, whatever was edited. |
| `Spreadsheet.CommitDropsHiddenItems` | App.tsx:544 | The sheet starts from the search-filtered rows. So, with unique ids, a committed list never holds the id of an item the search hid, whatever was edited. |
| `Spreadsheet.Sheet.constructor` | App.tsx:609-611 | A new sheet's draft is the registry's filtered rows, and the sheet is not dirty. |
| `Spreadsheet.Sheet.UpdateCell` | App.tsx:615-625 | The draft becomes the edited draft. The sheet turns dirty once a row with the id was edited. |
| `Spreadsheet.Sheet.Save` | App.tsx:627-630 | The store's item list becomes the draft, the log is untouched and the sheet is clean. |
| `InventoryStore.SyncLog` | App.tsx:104 | The synchronisation entry is an ADJUST for "global" with delta 0 and value 0. |
| `InventoryStore.CreateKeepsPriceConsistent` | App.tsx:84 | Registering an item keeps every display price consistent. |
| `InventoryStore.AddLiftsItemOutOfLowStock` | App.tsx:796-809 | An item with quantity 5, threshold 5 and price 100 is low on stock. ADD 1 takes it to 6 and out of the low-stock list, and logs one IN entry with delta 1 and value 100. |
| `InventoryStore.Store.constructor` | App.tsx:45-52 | The store starts with the loaded items and log. |
| `InventoryStore.Store.AddLog` | App.tsx:64-72 | Exactly one entry is prepended, so the log stays newest-first. The items are unchanged. |
| `InventoryStore.Store.AddItem` | App.tsx:74-96 | The created item is appended at the end and one CREATE entry is prepended. Every existing item and entry is unchanged. |
| `InventoryStore.Store.Sync` | App.tsx:104 | One zero ADJUST entry is prepended. The items are unchanged. |
| `InventoryStore.Store.Confirm` | App.tsx:786-813 | The outcome is that of `Workflow.Confirm` on the current list. A rejection or an empty selection leaves both collections unchanged. An accepted step stores the new list and prepends exactly its one entry. |
| `InventoryStore.Store.Commit` | App.tsx:628 | The item list is replaced by the draft, and no entry is logged. |

## Left out

- Persistence: loading and saving both collections through browser storage with JSON (App.tsx:45-62). It is a browser API and a library serialiser; the store's constructor takes the loaded contents instead.
- The hosted text-generation calls in services/geminiService.ts: a foreign API call.
- The sync's delay, its in-progress flag and its last-sync time (App.tsx:98-103): asynchronous UI state. Only its log entry is modelled.
- `Math.random` ids and SKUs, and `new Date()` timestamps: these are parameters. An item's creation time and its CREATE entry's time are both `now`.
- Parsing of form and cell inputs (`parseInt`, `parseFloat`): callers pass the parsed value, with `None` for NaN or undefined.
- IEEE floating point: prices and values are exact reals, so rounding of `price * 16.22` is not modelled. Quantities, deltas and the workflow amount are unbounded integers, while JavaScript numbers are exact only up to 2^53. Text.Decimal renders every count in plain digits, while `${amount}` switches to exponent notation ("1e+21") from 10^21 up.
- Text.Lower: lower-cases ASCII letters only. `toLowerCase` also folds non-ASCII letters.
- Currency formatting, the 1.05 marketplace display markup, charts, icons and every view's rendering: presentation only.
- The optional item fields `manufacturer`, `projectLink`, `marketplace` and `tags`: no modelled operation reads or writes them. Also the unused `MarketplaceStats` type and the display fields of category configurations.
- The workflow view's UI resets after confirming (clearing the selection, resetting the amount to 1) and the alert text. The `selected` snapshot is taken to be the current item with that id, so a snapshot that went stale between selection and confirm is not modelled.
- Workflow.RemoveKeepsStockNonNegative: assumes unique item ids. With a duplicated id the check reads the first item while the update applies to every item with that id. Ids are random, so this is not a case the source guards against.
- Spreadsheet.CommitDropsHiddenItems: assumes unique item ids, for the same reason.
- The spreadsheet's re-copy of the draft whenever its input rows change (`useEffect`, App.tsx:613): render-cycle behaviour. Also the commit button appearing only while the sheet is dirty: `Sheet.Save` commits unconditionally.
- Reports.CategoryTotals: lists entries in insertion order. JavaScript's `Object.entries` lists integer-like keys (a category named "42") first, in numeric order.
- Reports.CategoryTotals: treats every category name as an ordinary key. In the code the tally is a plain `{}` object, so a category named after an inherited property behaves differently. With "constructor" or "toString", the first read yields the inherited function, and adding a number gives a string. With "__proto__", the assignment is ignored and the category is missing from the entries. For such names `Reports.RollupSumsToTotal` does not describe the code. Only stored data can carry such a name, because the add form offers the configured categories or "General".
- Dates that fail to parse (NaN comparisons): times are integers here.

# Inventory stock accounting, modelled in Dafny

This project models the stock-accounting core of a small single-business
inventory tool. The model has two parts.

- **Product** (`models/order.py`) keeps three integer counters. They are
  stock on hand (`current_stock`), stock reserved for pending orders
  (`reserved_stock`) and units sold (`total_sold`). Four guarded operations
  change them: add, reserve, release and fulfil. Each one either applies its
  whole update or leaves the product unchanged. A product also answers
  stock-status queries: low stock, out of stock and a three-way status.
- **Inventory** (`models/inventory.py`) files products by id. It keeps a
  low-stock alert list that can go stale and is only rebuilt on request, and
  an append-only restock history. It offers lookup, insert-or-replace,
  removal, search, restocking, the alert rebuild, and the aggregates behind
  the inventory report.

Everything is immutable. Each operation is a function from the old state to
the new one. Where the source returns a success flag, the function returns
that flag too. The scans that build a list (search, the low-stock check) and
the sums (inventory value, stock units, per-category values) are methods with
loops, proved against order-independent reference definitions. The set of
categories, the low-stock and out-of-stock counts and the report's product
rows are set and map comprehensions. Python's default arguments are Dafny
default parameters with the same defaults: a threshold of 10 and an empty
supplier for a new product, an empty business name, an empty search term and
category, and no unit cost for a restock. The current time is an explicit
parameter and comes before the defaulted ones.

| file | module | models |
|---|---|---|
| `wrappers.dfy` | `Wrappers` | `Option`, standing in for Python's `None` |
| `text.dfy` | `Text` | lower-casing and substring search, used by product search |
| `stock.dfy` | `Stock` | the `Product` class |
| `sums.dfy` | `Sums` | order-independent sums and counts over a product map (the reference definitions) |
| `catalog.dfy` | `Catalog` | the `Inventory` class, apart from the report |
| `report.dfy` | `Reporting` | the figures of `generate_inventory_report` |

Invariants:

- `Stock.Valid` is `0 <= reserved_stock <= current_stock`.
- `Catalog.Valid` adds two things: every product is filed under its own id,
  and every product is `Stock.Valid`.

These invariants are the model's form of the checks made by the
validation helper in `debbug.py`.

Three behaviours of the code worth knowing:

- `remove_product` returns nothing. It does not return the removed product.
- `restock_product` leaves `total_cost` empty when the unit cost is zero, as
  well as when no cost is given. The code tests the cost for truthiness.
- `is_low_stock` is inclusive (`current_stock <= min_stock_level`). Its
  docstring says "below".

## Model

| member | source | states |
|---|---|---|
| `Stock.NewProduct` | models/order.py:12-23 | a new product has no stock, no reservations and no sales, has never been restocked, and satisfies the stock invariant; the threshold defaults to 10 and the supplier to empty |
| `Stock.AvailableStock` | models/order.py:25-28 | available stock plus reserved stock is stock on hand; for a valid product it lies between 0 and stock on hand |
| `Stock.OutOfStockIsLowStock` | models/order.py:30-36 | with a non-negative threshold, out of stock (stock at most 0) implies low stock (stock at most the threshold, boundary included) |
| `Stock.AddStock` | models/order.py:38-47 | a positive quantity raises stock on hand by exactly that amount and stamps the restock time; a non-positive one changes nothing; reservations, sales and identity are never touched |
| `Stock.ReserveStock` | models/order.py:49-54 | succeeds iff the quantity is at most the available stock; on success reservations grow by the quantity; on failure nothing changes; stock on hand is never touched |
| `Stock.ReleaseReservedStock` | models/order.py:56-59 | reservations drop by the quantity when at least that much is reserved, otherwise nothing changes; stock on hand and sales are untouched |
| `Stock.FulfillOrder` | models/order.py:61-68 | succeeds iff the quantity is at most both reservations and stock on hand; on success stock and reservations drop by it and sales rise by it, all three together; on failure nothing changes |
| `Stock.StockStatus` | models/order.py:72 | "OUT OF STOCK" exactly when out of stock, "LOW STOCK" exactly when low but not out, "IN STOCK" otherwise (out of stock wins) |
| `Stock.GetStockInfo` | models/order.py:70-82 | the snapshot copies the counters, its available stock is on-hand minus reserved, and its status is "OUT OF STOCK" exactly when out of stock, "LOW STOCK" exactly when low but not out, and "IN STOCK" otherwise |
| `Stock.AddStockPreservesValid` | models/order.py:38-47 | adding stock keeps the stock invariant for every quantity |
| `Stock.ReserveStockPreservesValid` | models/order.py:49-54 | reserving a non-negative quantity keeps the stock invariant |
| `Stock.ReleaseReservedStockPreservesValid` | models/order.py:56-59 | releasing a non-negative quantity keeps the stock invariant |
| `Stock.FulfillOrderPreservesValid` | models/order.py:61-68 | fulfilling a non-negative quantity keeps the stock invariant |
| `Stock.TotalSoldNeverDecreases` | models/order.py:38-68 | for a non-negative quantity, none of the four mutators lowers the sales counter |
| `Stock.ReserveThenReleaseRestores` | models/order.py:49-59 | on a valid product, a successful reservation followed by releasing the same quantity restores the product exactly |
| `Stock.ReservationShowsInStockInfo` | models/order.py:70-82 | after a successful reservation the stock snapshot shows the quantity moved from available to reserved, with stock on hand and status unchanged |
| `Stock.ReserveThenFulfill` | models/order.py:49-68 | a successful reservation then fulfilment of the same quantity lowers stock by it, returns reservations to their old value, raises sales by it, and leaves a valid product |
| `Stock.FreshProductIsLowAndOut` | models/order.py:30-36 | a fresh product with a non-negative threshold is both low and out of stock, with status "OUT OF STOCK" |
| `Stock.ReservationScenario` | models/order.py:38-54 | after adding 50 units, reserving 60 fails and changes nothing, and reserving 20 succeeds and leaves 30 available |
| `Stock.NegativeReserveBreaksInvariant` | models/order.py:49-54 | reserving -1 units of an empty product succeeds and leaves -1 reserved, breaking the invariant |
| `Stock.NegativeReleaseBreaksInvariant` | models/order.py:56-59 | releasing -1 units of an empty product leaves 1 reserved with 0 on hand, breaking the invariant |
| `Stock.NegativeFulfillUnsells` | models/order.py:61-68 | fulfilling -1 units of an empty product succeeds, creates a unit of stock and sets sales to -1 |
| `Stock.ReserveStockChecked` | models/order.py:49-54 | the corrected reservation succeeds iff 0 < quantity <= available stock, then adding the quantity to reservations; it never touches stock on hand, sales, identity or the restock time, and on failure changes nothing |
| `Stock.ReleaseReservedStockChecked` | models/order.py:56-59 | the corrected release lowers reservations by the quantity only for 0 < quantity <= reserved and otherwise changes nothing; stock on hand, sales, identity and the restock time are never touched |
| `Stock.FulfillOrderChecked` | models/order.py:61-68 | the corrected fulfilment succeeds iff 0 < quantity and the quantity is covered by both reservations and stock, then lowering stock and reservations and raising sales by it; identity and the restock time are kept, and on failure nothing changes |
| `Stock.CheckedMutatorsPreserveValid` | models/order.py:49-68 | the corrected mutators keep the stock invariant and never lower sales, for every integer quantity |
| `Catalog.NewInventory` | models/inventory.py:3-7 | a new inventory has no products, no alerts and no history, and is valid; the business name defaults to empty |
| `Catalog.AddProduct` | models/inventory.py:9-15 | the product is filed under its own id and replaces any earlier one there; every other entry, the alerts and the history are unchanged |
| `Catalog.RemoveProduct` | models/inventory.py:17-23 | removes exactly the given id; every other entry is kept as it was; an unknown id leaves the inventory unchanged |
| `Catalog.GetProduct` | models/inventory.py:25-27 | finds a product iff the id is present, and then it is the product filed there |
| `Catalog.AddProductPreservesValid` | models/inventory.py:9-12 | adding a valid product keeps the inventory invariant |
| `Catalog.RemoveProductPreservesValid` | models/inventory.py:17-23 | removing keeps the inventory invariant |
| `Catalog.GetAfterAdd` | models/inventory.py:9-27 | a lookup of a just-added product's id returns that product |
| `Catalog.GetAfterRemove` | models/inventory.py:17-27 | a lookup of a just-removed id finds nothing |
| `Catalog.AddThenRemoveRestores` | models/inventory.py:9-23 | adding a product under a fresh id and removing it again gives back the original inventory |
| `Catalog.LastAddWins` | models/inventory.py:9-12 | adding two products with one id is the same as adding only the second |
| `Catalog.WithoutAlertsFor` | models/inventory.py:45 | keeps exactly the alerts whose product id differs from the given one, never more than before |
| `Catalog.WithoutAlertsForConcat` | models/inventory.py:45 | alert removal distributes over concatenation, so the kept alerts stay in their relative order |
| `Catalog.WithoutAlertsForAbsent` | models/inventory.py:44-45 | when no alert names the id, removal leaves the list unchanged |
| `Catalog.TotalCost` | models/inventory.py:53 | the record's total cost is present iff a non-zero unit cost was given, and is then unit cost times quantity |
| `Catalog.RestockProduct` | models/inventory.py:38-57 | an unknown id changes nothing; a known one gets the add-stock update and exactly one record appended to the history, whose earlier records stay as they were; the only alerts removed are the restocked id's, and only when that product is no longer low |
| `Catalog.RestockClearsAlertsWhenNotLow` | models/inventory.py:43-45 | once the restocked product is no longer low, no alert for it remains |
| `Catalog.RestockAlertsKeepOrder` | models/inventory.py:43-45 | after a restock the alert list is either unchanged or is the old list with the id's alerts filtered out |
| `Catalog.RestockRecordsRejectedQuantity` | models/inventory.py:41-55 | a non-positive quantity leaves the products unchanged, yet a history record with that quantity is still appended |
| `Catalog.RestockPreservesValid` | models/inventory.py:38-57 | restocking keeps the inventory invariant for every quantity |
| `Catalog.HistoryIsAppendOnly` | models/inventory.py:47-55 | any sequence of restocks, each with its own product, quantity, unit cost and time, only extends the history, earlier records keep their positions, and no product is added or dropped |
| `Catalog.CheckLowStock` | models/inventory.py:59-73 | the alert list is replaced wholesale by exactly one alert per low-stock product and none for any other; nothing else changes |
| `Catalog.SearchProducts` | models/inventory.py:29-36 | returns each product once, and exactly those whose lower-cased name contains the lower-cased term and, when a category is given, whose category equals it ignoring case; term and category default to empty |
| `Catalog.AlertsListLowStock` | models/inventory.py:61-73 | an alert list built from a duplicate-free enumeration of the low-stock keys has one alert per low-stock product, each for a low-stock product, and as many alerts as there are low-stock products |
| `Catalog.HitsListMatches` | models/inventory.py:31-36 | a result list built from a duplicate-free enumeration of the matching keys holds every matching product, only matching products, and as many as there are matching keys |
| `Catalog.EmptySearchMatchesAll` | models/inventory.py:29-36 | an empty term and an empty category match every product |
| `Catalog.CategorySearchScenario` | models/inventory.py:33-34 | with an empty term, category "A" matches a product in "A" and not one in "B" |
| `Catalog.NameSearchScenario` | models/inventory.py:33 | the term "WID" matches a product named "Widget" |
| `Catalog.GetInventoryValue` | models/inventory.py:75-78 | the value is the sum of stock times price over all products, 0 for an empty inventory, and non-negative when every term is |
| `Catalog.ValueAfterAddProduct` | models/inventory.py:75-78 | filing a product replaces exactly the contribution of the product previously at its id |
| `Catalog.GetCategories` | models/inventory.py:80-82 | a category is listed iff some product has it, each once |
| `Text.Contains` | models/inventory.py:33 | the executable substring test agrees with the definition "the term is a prefix of some suffix" |
| `Sums.CategoryBreakdownAddsUp` | models/inventory.py:109-115 | over all categories, the product counts add up to the number of products and the stock values add up to the inventory value |
| `Reporting.OutOfStockCountAtMostLowCount` | models/inventory.py:98-99 | with non-negative thresholds, the out-of-stock products are among the low-stock ones, so their count is no larger |
| `Reporting.ShortStatus` | models/inventory.py:135 | the table's "OUT"/"LOW"/"OK" coincides with the stock status "OUT OF STOCK"/"LOW STOCK"/"IN STOCK" |
| `Reporting.CategoryBreakdown` | models/inventory.py:109-115 | one line per distinct category, holding that category's product count and stock value |
| `Reporting.Summarize` | models/inventory.py:94-116 | the summary of a non-empty inventory: product count, stock units and value as sums over all products, low and out-of-stock counts (out at most low for non-negative thresholds), one category line per distinct category whose counts add up to the product count and whose values add up to the total value, and one table row per product |
| `Reporting.GenerateInventoryReport` | models/inventory.py:84-141 | an empty inventory gives "No products in inventory" and changes nothing; otherwise the report holds the product count, stock units, value, low and out-of-stock counts (out at most low for non-negative thresholds), category lines adding up to the totals, and one row per product; the alert list is rebuilt exactly as by the low-stock check, and that is the only change |

## Left out

- Printing. Every `print` in the operations is dropped, including the
  "not found" and "quantity must be positive" messages. The source reports
  those outcomes only by printing, so the model returns no flag for them.
  It returns the unchanged state.
- Clocks. `datetime.now()` values become a `now` parameter. This covers the
  creation date, the restock time, alert dates and history dates. The
  report's "Generated" timestamp is dropped.
- Floating point. Prices and unit costs are integers in the smallest
  currency unit.
- `Stock.AddStock`: the `cost_per_unit` argument only feeds a printed
  message, so it is not a parameter.
- Product search and the alert rebuild do not model dictionary iteration
  order. Each result is described by a ghost sequence of distinct keys, in
  some order.
- `Text.Lower`: lower-cases ASCII letters only. Python's `str.lower()`
  also folds other Unicode letters.
- `Reporting.GenerateInventoryReport`: does not model the report text. That
  covers column widths, truncation to 24 and 14 characters, number
  formatting, the alphabetical order of categories and the name order of
  rows. Category lines and rows are maps keyed by category and by product
  id.
- Unbound names. `models/inventory.py` imports neither `Product` nor
  `datetime`, so as that file stands `add_product`, `check_low_stock` (on the
  first low-stock product), `restock_product` (after the stock update, before
  the history append) and the report would raise `NameError`. The model
  assumes both names are in scope, as in the single `inventory_system` module
  that clip.py:8 imports.
- The `isinstance` check in `add_product`. The parameter's type rules out
  a non-product.
- Shared references. In the source, mutating a product obtained from
  `get_product` also changes the inventory. In the model, a caller writes
  the changed product back with `Catalog.AddProduct` under the same id.
- The `OrderStatus` enum and the `__str__` methods. Neither carries stock
  logic.
- `seed.py` (random sample data), `clip.py` (the interactive menu) and the
  logging decorator in `debbug.py` are glue around the core. The stock
  invariants that `debbug.py` checks are stated as `Stock.Valid` and
  `Catalog.Valid`.

## Findings

| source | as written | input that shows it | evidently intended | confidence | as-written member | corrected member |
|---|---|---|---|---|---|---|
| models/order.py:49-54 | `reserve_stock` only checks `quantity <= available_stock`, so any negative quantity passes | a product with 0 on hand and 0 reserved, quantity -1: the call succeeds and leaves -1 reserved | quantities are positive, the rule `add_stock` applies | high; not executed | `Stock.NegativeReserveBreaksInvariant` | `Stock.ReserveStockChecked` |
| models/order.py:56-59 | `release_reserved_stock` only checks `quantity <= reserved_stock`, so any negative quantity passes | a product with 0 on hand and 0 reserved, quantity -1: 1 unit ends up reserved with none on hand | quantities are positive, the rule `add_stock` applies | high; not executed | `Stock.NegativeReleaseBreaksInvariant` | `Stock.ReleaseReservedStockChecked` |
| models/order.py:61-68 | `fulfill_order` only checks the quantity against reservations and stock, so any negative quantity passes | a product with 0 on hand and 0 reserved, quantity -1: stock rises to 1 and the sales counter drops to -1 | quantities are positive, the rule `add_stock` applies | high; not executed | `Stock.NegativeFulfillUnsells` | `Stock.FulfillOrderChecked` |

Each as-written operation (`Stock.ReserveStock`, `Stock.ReleaseReservedStock`,
`Stock.FulfillOrder`) is modelled exactly as the code reads. The lemma named in
the row exhibits the input. The corrected operations reject a non-positive
quantity and change nothing. `Stock.CheckedMutatorsPreserveValid` proves that
they keep the invariant for every integer quantity. The as-written operations
keep it only for non-negative quantities. No inventory operation calls these
three, so the correction does not change anything else in the model.

`restock_product` writes a history record even when `add_stock` rejected the
quantity: the append at models/inventory.py:48 is unconditional, and
`Catalog.RestockRecordsRejectedQuantity` proves the model does the same. For
quantity -5 at unit cost 100 the record carries a total cost of -500 for a
restock that changed nothing. The code does not say whether a rejected
quantity should be recorded, so this is not listed as a finding; the model
keeps the code's behaviour.

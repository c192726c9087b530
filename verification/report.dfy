/**
 * The figures behind the inventory report (`generate_inventory_report` in
 * models/inventory.py): summary counts and sums, the per-category breakdown,
 * a freshly rebuilt alert list and the per-product status column. The text
 * layout of the report is not modelled.
 */
module Reporting {

  import opened Stock
  import opened Sums
  import opened Catalog

  /** What the report says when there is nothing to report on. */
  const EmptyReportMessage: string := "No products in inventory"

  /** A category's line in the breakdown: how many products, and their stock value. */
  datatype CategoryLine = CategoryLine(productCount: nat, value: Money)

  /** A row of the detailed product table. */
  datatype ProductLine = ProductLine(
    productId: ProductId,
    name: string,
    category: string,
    currentStock: int,
    availableStock: int,
    price: Money,
    value: Money,
    status: string)

  datatype Report =
    | NoProducts(message: string)
    | Summary(
        businessName: string,
        totalProducts: nat,
        totalStockUnits: int,
        totalValue: Money,
        lowStockCount: nat,
        outOfStockCount: nat,
        categories: map<string, CategoryLine>,
        lowStockAlerts: seq<Alert>,
        rows: map<ProductId, ProductLine>)

  /** Every threshold is non-negative. */
  predicate ThresholdsNonNegative(m: ProductMap)
  {
    forall k :: k in m ==> 0 <= m[k].minStockLevel
  }

  /** With non-negative thresholds, no more products are out of stock than are low on stock. */
  lemma OutOfStockCountAtMostLowCount(m: ProductMap)
    requires ThresholdsNonNegative(m)
    ensures OutOfStockKeys(m) <= LowStockKeys(m)
    ensures |OutOfStockKeys(m)| <= |LowStockKeys(m)|
  {
    forall k | k in OutOfStockKeys(m)
      ensures k in LowStockKeys(m)
    {
      OutOfStockIsLowStock(m[k]);
    }
    SubsetNoLarger(OutOfStockKeys(m), LowStockKeys(m));
  }

  /** The short status of the product table: out of stock first, then low, else fine. */
  function ShortStatus(p: Product): (s: string)
    ensures s == "OUT" <==> StockStatus(p) == "OUT OF STOCK"
    ensures s == "LOW" <==> StockStatus(p) == "LOW STOCK"
    ensures s == "OK" <==> StockStatus(p) == "IN STOCK"
  {
    if IsOutOfStock(p) then "OUT" else if IsLowStock(p) then "LOW" else "OK"
  }

  function LineFor(p: Product): (l: ProductLine)
    ensures l.value == StockValue(p) && l.availableStock == AvailableStock(p)
    ensures l.currentStock == p.currentStock && l.status == ShortStatus(p)
    ensures l.productId == p.productId && l.name == p.name && l.category == p.category
    ensures l.price == p.price
  {
    ProductLine(p.productId, p.name, p.category, p.currentStock, AvailableStock(p), p.price, StockValue(p),
                ShortStatus(p))
  }

  /** One line per category, with its product count and the value of its stock. */
  method CategoryBreakdown(m: ProductMap) returns (lines: map<string, CategoryLine>)
    ensures lines.Keys == Categories(m)
    ensures forall c :: c in lines ==>
              && lines[c].productCount == |CategoryKeys(m, c)|
              && lines[c].value == Sum(InCategory(m, c), StockValue)
  {
    var cats := Categories(m);
    lines := map[];
    var rest := cats;
    while rest != {}
      invariant rest <= cats
      invariant lines.Keys == cats - rest
      invariant forall c :: c in lines ==>
                  && lines[c].productCount == |CategoryKeys(m, c)|
                  && lines[c].value == Sum(InCategory(m, c), StockValue)
      decreases rest
    {
      CategoriesEmptyOrInhabited(rest);
      var c :| c in rest;
      var value := SumOver(InCategory(m, c), StockValue);
      lines := lines[c := CategoryLine(|CategoryKeys(m, c)|, value)];
      rest := rest - {c};
    }
  }

  /** The summary of a non-empty product map, carrying the alert list it is given. */
  method Summarize(inv: Inventory, alerts: seq<Alert>) returns (report: Report)
    requires |inv.products| > 0
    ensures report.Summary? && report.lowStockAlerts == alerts
    ensures report.businessName == inv.businessName
    ensures report.totalProducts == |inv.products|
    ensures report.totalStockUnits == Sum(inv.products, StockUnits)
    ensures report.totalValue == Sum(inv.products, StockValue)
    ensures report.lowStockCount == |LowStockKeys(inv.products)|
    ensures report.outOfStockCount == |OutOfStockKeys(inv.products)|
    ensures report.categories.Keys == GetCategories(inv)
    ensures forall c :: c in report.categories ==>
              report.categories[c].productCount == |CategoryKeys(inv.products, c)|
    ensures CountSum(inv.products, report.categories.Keys) == report.totalProducts
    ensures forall c :: c in report.categories ==>
              report.categories[c].value == Sum(InCategory(inv.products, c), StockValue)
    ensures CategoryValueSum(inv.products, report.categories.Keys) == report.totalValue
    ensures report.rows.Keys == inv.products.Keys
    ensures forall k :: k in report.rows ==> report.rows[k] == LineFor(inv.products[k])
    ensures ThresholdsNonNegative(inv.products) ==> report.outOfStockCount <= report.lowStockCount
  {
    var m := inv.products;
    var units := SumOver(m, StockUnits);
    var value := GetInventoryValue(inv);
    var categories := CategoryBreakdown(m);
    var rows := map k | k in m :: LineFor(m[k]);
    report := Summary(inv.businessName, |m|, units, value, |LowStockKeys(m)|, |OutOfStockKeys(m)|,
                      categories, alerts, rows);
    CategoryBreakdownAddsUp(m);
    if ThresholdsNonNegative(m) {
      OutOfStockCountAtMostLowCount(m);
    }
  }

  /**
   * Builds the report. An empty inventory gives the fixed message and leaves
   * the inventory alone. Otherwise the report carries the summary figures and
   * the category breakdown, and the alert list is rebuilt exactly as
   * `CheckLowStock` rebuilds it, which is the one change to the inventory.
   */
  method GenerateInventoryReport(inv: Inventory, now: Timestamp)
      returns (r: Inventory, report: Report, ghost ks: seq<ProductId>)
    ensures |inv.products| == 0 <==> report.NoProducts?
    ensures report.NoProducts? ==> r == inv && report.message == EmptyReportMessage
    ensures report.Summary? ==>
      && r == inv.(lowStockAlerts := report.lowStockAlerts)
      && report.businessName == inv.businessName
      && report.totalProducts == |inv.products|
      && report.totalStockUnits == Sum(inv.products, StockUnits)
      && report.totalValue == Sum(inv.products, StockValue)
      && report.lowStockCount == |LowStockKeys(inv.products)|
      && report.outOfStockCount == |OutOfStockKeys(inv.products)|
      && report.categories.Keys == GetCategories(inv)
      && (forall c :: c in report.categories ==>
            report.categories[c].productCount == |CategoryKeys(inv.products, c)|)
      && CountSum(inv.products, report.categories.Keys) == report.totalProducts
      && (forall c :: c in report.categories ==>
            report.categories[c].value == Sum(InCategory(inv.products, c), StockValue))
      && CategoryValueSum(inv.products, report.categories.Keys) == report.totalValue
      && report.rows.Keys == inv.products.Keys
      && (forall k :: k in report.rows ==> report.rows[k] == LineFor(inv.products[k]))
    ensures report.Summary? && ThresholdsNonNegative(inv.products) ==>
              report.outOfStockCount <= report.lowStockCount
    ensures report.Summary? ==>
      && |report.lowStockAlerts| == report.lowStockCount
      && (forall k :: k in inv.products && IsLowStock(inv.products[k]) ==>
            AlertFor(inv.products[k], now) in report.lowStockAlerts)
    ensures report.Summary? ==>
      && |ks| == |report.lowStockAlerts|
      && (forall i, j :: 0 <= i < j < |ks| ==> ks[i] != ks[j])
      && (forall i :: 0 <= i < |ks| ==>
            ks[i] in inv.products && report.lowStockAlerts[i] == AlertFor(inv.products[ks[i]], now))
      && (forall k :: k in ks <==> k in inv.products && IsLowStock(inv.products[k]))
  {
    if |inv.products| == 0 {
      return inv, NoProducts(EmptyReportMessage), [];
    }
    var alerts;
    r, alerts, ks := CheckLowStock(inv, now);
    report := Summarize(inv, alerts);
  }
}

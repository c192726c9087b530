/**
 * One stock-keeping unit and its stock counters (the `Product` class of
 * models/order.py).
 *
 * A product keeps three integer counters: `currentStock` (physically on hand),
 * `reservedStock` (held for pending orders) and `totalSold`. They change only
 * through four guarded operations; each either applies its whole update or
 * leaves the product as it was. Quantities are unbounded integers, exactly as
 * in the source, which never checks their sign outside `AddStock`.
 */
module Stock {

  import opened Wrappers

  type ProductId = int

  /** A point in time; clocks are outside the model, so callers pass one in. */
  type Timestamp = int

  /** A currency amount in the smallest unit (cents). */
  type Money = int

  /** The reorder threshold a product gets when none is given. */
  const DefaultMinStockLevel: int := 10

  datatype Product = Product(
    productId: ProductId,
    name: string,
    category: string,
    price: Money,
    minStockLevel: int,
    supplier: string,
    currentStock: int,
    reservedStock: int,
    createdDate: Timestamp,
    lastRestocked: Option<Timestamp>,
    totalSold: int)

  /** The result of an operation that reports success: the new product and the flag. */
  datatype Attempt = Attempt(product: Product, ok: bool)

  /** The physical-consistency invariant every reachable product should keep. */
  predicate Valid(p: Product)
  {
    0 <= p.reservedStock <= p.currentStock
  }

  /** Two products describe the same item: only stock bookkeeping may differ. */
  predicate SameItem(p: Product, q: Product)
  {
    && p.productId == q.productId
    && p.name == q.name
    && p.category == q.category
    && p.price == q.price
    && p.minStockLevel == q.minStockLevel
    && p.supplier == q.supplier
    && p.createdDate == q.createdDate
  }

  /** A new product starts with no stock, no reservations and nothing sold. */
  function NewProduct(id: ProductId, name: string, category: string, price: Money, now: Timestamp,
                      minStockLevel: int := DefaultMinStockLevel, supplier: string := ""): (p: Product)
    ensures Valid(p)
    ensures p.currentStock == 0 && p.reservedStock == 0 && p.totalSold == 0
    ensures p.lastRestocked == None && p.createdDate == now
    ensures p.productId == id && p.name == name && p.category == category
    ensures p.price == price && p.minStockLevel == minStockLevel && p.supplier == supplier
  {
    Product(id, name, category, price, minStockLevel, supplier, 0, 0, now, None, 0)
  }

  /** Stock free for new orders; always derived, never stored. */
  function AvailableStock(p: Product): (a: int)
    ensures a + p.reservedStock == p.currentStock
    ensures Valid(p) ==> 0 <= a <= p.currentStock
  {
    p.currentStock - p.reservedStock
  }

  /** At or below the reorder threshold (the boundary counts as low). */
  predicate IsLowStock(p: Product)
  {
    p.currentStock <= p.minStockLevel
  }

  predicate IsOutOfStock(p: Product)
  {
    p.currentStock <= 0
  }

  /** With a non-negative threshold, an out-of-stock product is also low on stock. */
  lemma OutOfStockIsLowStock(p: Product)
    requires 0 <= p.minStockLevel
    ensures IsOutOfStock(p) ==> IsLowStock(p)
  {
  }

  /**
   * Adds `quantity` units when it is positive and stamps the restock time;
   * a non-positive quantity is rejected and changes nothing. The unit cost
   * only feeds a printed message in the source, so it is not a parameter.
   */
  function AddStock(p: Product, quantity: int, now: Timestamp): (r: Product)
    ensures SameItem(r, p)
    ensures r.reservedStock == p.reservedStock && r.totalSold == p.totalSold
    ensures quantity > 0 ==> r.currentStock == p.currentStock + quantity && r.lastRestocked == Some(now)
    ensures quantity <= 0 ==> r == p
  {
    if quantity > 0 then
      p.(currentStock := p.currentStock + quantity, lastRestocked := Some(now))
    else
      p
  }

  /** Reserves `quantity` units if that many are available, and reports whether it did. */
  function ReserveStock(p: Product, quantity: int): (r: Attempt)
    ensures r.ok <==> quantity <= AvailableStock(p)
    ensures SameItem(r.product, p)
    ensures r.product.currentStock == p.currentStock && r.product.totalSold == p.totalSold
    ensures r.product.lastRestocked == p.lastRestocked
    ensures r.ok ==> r.product.reservedStock == p.reservedStock + quantity
    ensures !r.ok ==> r.product == p
  {
    if quantity <= AvailableStock(p) then
      Attempt(p.(reservedStock := p.reservedStock + quantity), true)
    else
      Attempt(p, false)
  }

  /** Gives back `quantity` reserved units when that many are reserved; otherwise a no-op. */
  function ReleaseReservedStock(p: Product, quantity: int): (r: Product)
    ensures SameItem(r, p)
    ensures r.currentStock == p.currentStock && r.totalSold == p.totalSold
    ensures r.lastRestocked == p.lastRestocked
    ensures quantity <= p.reservedStock ==> r.reservedStock == p.reservedStock - quantity
    ensures quantity > p.reservedStock ==> r == p
  {
    if quantity <= p.reservedStock then p.(reservedStock := p.reservedStock - quantity) else p
  }

  /**
   * Ships `quantity` reserved units: stock on hand and reservations both drop
   * by `quantity` and the sales counter rises by it, all together or not at all.
   */
  function FulfillOrder(p: Product, quantity: int): (r: Attempt)
    ensures r.ok <==> quantity <= p.reservedStock && quantity <= p.currentStock
    ensures SameItem(r.product, p) && r.product.lastRestocked == p.lastRestocked
    ensures r.ok ==> && r.product.currentStock == p.currentStock - quantity
                     && r.product.reservedStock == p.reservedStock - quantity
                     && r.product.totalSold == p.totalSold + quantity
    ensures !r.ok ==> r.product == p
  {
    if quantity <= p.reservedStock && quantity <= p.currentStock then
      Attempt(p.(currentStock := p.currentStock - quantity,
                 reservedStock := p.reservedStock - quantity,
                 totalSold := p.totalSold + quantity), true)
    else
      Attempt(p, false)
  }

  /** The three stock states, out-of-stock taking precedence over low-stock. */
  function StockStatus(p: Product): (s: string)
    ensures s == "OUT OF STOCK" <==> IsOutOfStock(p)
    ensures s == "LOW STOCK" <==> !IsOutOfStock(p) && IsLowStock(p)
    ensures s == "IN STOCK" <==> !IsOutOfStock(p) && !IsLowStock(p)
  {
    if IsOutOfStock(p) then "OUT OF STOCK" else if IsLowStock(p) then "LOW STOCK" else "IN STOCK"
  }

  /** The snapshot a stock-information query returns. */
  datatype StockInfo = StockInfo(
    productId: ProductId,
    name: string,
    currentStock: int,
    reservedStock: int,
    availableStock: int,
    minStockLevel: int,
    status: string,
    totalSold: int)

  function GetStockInfo(p: Product): (info: StockInfo)
    ensures info.availableStock == info.currentStock - info.reservedStock
    ensures info.currentStock == p.currentStock && info.reservedStock == p.reservedStock
    ensures info.productId == p.productId && info.name == p.name
    ensures info.minStockLevel == p.minStockLevel && info.totalSold == p.totalSold
    ensures info.status == "OUT OF STOCK" <==> IsOutOfStock(p)
    ensures info.status == "IN STOCK" <==> !IsLowStock(p) && !IsOutOfStock(p)
    ensures info.status == "LOW STOCK" <==> IsLowStock(p) && !IsOutOfStock(p)
  {
    StockInfo(p.productId, p.name, p.currentStock, p.reservedStock, AvailableStock(p),
              p.minStockLevel, StockStatus(p), p.totalSold)
  }

  // ---------------------------------------------------------------------------
  // The invariant under the four mutators, for non-negative quantities.
  // ---------------------------------------------------------------------------

  lemma AddStockPreservesValid(p: Product, quantity: int, now: Timestamp)
    requires Valid(p)
    ensures Valid(AddStock(p, quantity, now))
  {
  }

  lemma ReserveStockPreservesValid(p: Product, quantity: int)
    requires Valid(p) && 0 <= quantity
    ensures Valid(ReserveStock(p, quantity).product)
  {
  }

  lemma ReleaseReservedStockPreservesValid(p: Product, quantity: int)
    requires Valid(p) && 0 <= quantity
    ensures Valid(ReleaseReservedStock(p, quantity))
  {
  }

  lemma FulfillOrderPreservesValid(p: Product, quantity: int)
    requires Valid(p) && 0 <= quantity
    ensures Valid(FulfillOrder(p, quantity).product)
  {
  }

  /** No mutator lowers the sales counter when quantities are non-negative. */
  lemma TotalSoldNeverDecreases(p: Product, quantity: int, now: Timestamp)
    requires 0 <= quantity
    ensures AddStock(p, quantity, now).totalSold >= p.totalSold
    ensures ReserveStock(p, quantity).product.totalSold >= p.totalSold
    ensures ReleaseReservedStock(p, quantity).totalSold >= p.totalSold
    ensures FulfillOrder(p, quantity).product.totalSold >= p.totalSold
  {
  }

  /** A successful reservation undone by a release restores the product exactly. */
  lemma ReserveThenReleaseRestores(p: Product, quantity: int)
    requires Valid(p) && ReserveStock(p, quantity).ok
    ensures ReleaseReservedStock(ReserveStock(p, quantity).product, quantity) == p
  {
  }

  /**
   * A successful reservation followed by fulfilling it ships `quantity` units:
   * stock on hand drops by `quantity`, reservations are back where they were
   * and the sales counter rises by `quantity`.
   */
  lemma ReserveThenFulfill(p: Product, quantity: int)
    requires Valid(p) && ReserveStock(p, quantity).ok
    ensures var f := FulfillOrder(ReserveStock(p, quantity).product, quantity);
            && f.ok
            && f.product.currentStock == p.currentStock - quantity
            && f.product.reservedStock == p.reservedStock
            && f.product.totalSold == p.totalSold + quantity
            && Valid(f.product)
  {
  }

  /**
   * The stock snapshot tracks the operations: a successful reservation of
   * `quantity` shows up as that much less available and that much more
   * reserved, with the same stock on hand and the same status.
   */
  lemma ReservationShowsInStockInfo(p: Product, quantity: int)
    requires ReserveStock(p, quantity).ok
    ensures var before, after := GetStockInfo(p), GetStockInfo(ReserveStock(p, quantity).product);
            && after.availableStock == before.availableStock - quantity
            && after.reservedStock == before.reservedStock + quantity
            && after.currentStock == before.currentStock
            && after.status == before.status
  {
  }

  /** A fresh product with a non-negative threshold is both low and out of stock. */
  lemma FreshProductIsLowAndOut(id: ProductId, name: string, category: string, price: Money,
                                minStockLevel: int, supplier: string, now: Timestamp)
    requires 0 <= minStockLevel
    ensures var p := NewProduct(id, name, category, price, now, minStockLevel, supplier);
            IsLowStock(p) && IsOutOfStock(p) && StockStatus(p) == "OUT OF STOCK"
  {
  }

  /**
   * Fifty units added to a fresh product: a reservation of sixty fails, one of
   * twenty succeeds, leaving thirty available.
   */
  lemma ReservationScenario(now: Timestamp, later: Timestamp)
    ensures var p := AddStock(NewProduct(1, "Widget", "A", 500, now), 50, later);
            && p.currentStock == 50 && p.lastRestocked == Some(later)
            && !ReserveStock(p, 60).ok && ReserveStock(p, 60).product == p
            && ReserveStock(p, 20).ok && AvailableStock(ReserveStock(p, 20).product) == 30
  {
  }

  // ---------------------------------------------------------------------------
  // Negative quantities. Only AddStock checks the sign of its quantity; the
  // other three mutators accept a negative one and then break the invariant
  // or run the sales counter backwards. Each as-written operation above has a
  // witness below and a corrected counterpart that rejects non-positive
  // quantities, as AddStock does.
  // ---------------------------------------------------------------------------

  /** Reserving -1 units of an empty product succeeds and leaves -1 reserved. */
  lemma NegativeReserveBreaksInvariant()
    ensures var p := NewProduct(1, "Widget", "A", 500, 0);
            var r := ReserveStock(p, -1);
            Valid(p) && r.ok && r.product.reservedStock == -1 && !Valid(r.product)
  {
  }

  /** Releasing -1 units of an empty product reserves a unit that is not there. */
  lemma NegativeReleaseBreaksInvariant()
    ensures var p := NewProduct(1, "Widget", "A", 500, 0);
            var r := ReleaseReservedStock(p, -1);
            Valid(p) && r.reservedStock == 1 && r.currentStock == 0 && !Valid(r)
  {
  }

  /** Fulfilling -1 units of an empty product creates stock and un-sells a unit. */
  lemma NegativeFulfillUnsells()
    ensures var p := NewProduct(1, "Widget", "A", 500, 0);
            var r := FulfillOrder(p, -1);
            Valid(p) && r.ok && r.product.totalSold == -1 && r.product.currentStock == 1
  {
  }

  /** `ReserveStock` with the positivity guard `AddStock` applies. */
  function ReserveStockChecked(p: Product, quantity: int): (r: Attempt)
    ensures r.ok <==> 0 < quantity <= AvailableStock(p)
    ensures r.ok ==> r.product.reservedStock == p.reservedStock + quantity
    ensures SameItem(r.product, p) && r.product.lastRestocked == p.lastRestocked
    ensures r.product.currentStock == p.currentStock && r.product.totalSold == p.totalSold
    ensures !r.ok ==> r.product == p
  {
    if quantity <= 0 then Attempt(p, false) else ReserveStock(p, quantity)
  }

  /** `ReleaseReservedStock` with the positivity guard `AddStock` applies. */
  function ReleaseReservedStockChecked(p: Product, quantity: int): (r: Product)
    ensures 0 < quantity <= p.reservedStock ==> r.reservedStock == p.reservedStock - quantity
    ensures SameItem(r, p) && r.lastRestocked == p.lastRestocked
    ensures r.currentStock == p.currentStock && r.totalSold == p.totalSold
    ensures !(0 < quantity <= p.reservedStock) ==> r == p
  {
    if quantity <= 0 then p else ReleaseReservedStock(p, quantity)
  }

  /** `FulfillOrder` with the positivity guard `AddStock` applies. */
  function FulfillOrderChecked(p: Product, quantity: int): (r: Attempt)
    ensures r.ok <==> 0 < quantity && quantity <= p.reservedStock && quantity <= p.currentStock
    ensures r.ok ==> && r.product.currentStock == p.currentStock - quantity
                     && r.product.reservedStock == p.reservedStock - quantity
                     && r.product.totalSold == p.totalSold + quantity
    ensures SameItem(r.product, p) && r.product.lastRestocked == p.lastRestocked
    ensures !r.ok ==> r.product == p
  {
    if quantity <= 0 then Attempt(p, false) else FulfillOrder(p, quantity)
  }

  /** The corrected mutators keep the invariant and the sales counter for every quantity. */
  lemma CheckedMutatorsPreserveValid(p: Product, quantity: int)
    requires Valid(p)
    ensures Valid(ReserveStockChecked(p, quantity).product)
    ensures Valid(ReleaseReservedStockChecked(p, quantity))
    ensures Valid(FulfillOrderChecked(p, quantity).product)
    ensures FulfillOrderChecked(p, quantity).product.totalSold >= p.totalSold
  {
  }
}

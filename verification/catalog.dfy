/**
 * The product catalogue of one business (the `Inventory` class of
 * models/inventory.py): products keyed by id, a low-stock alert list that is
 * only rebuilt on request, and an append-only restock history.
 */
module Catalog {

  import opened Wrappers
  import opened Text
  import opened Stock
  import opened Sums

  /** A low-stock notice, a snapshot of the product when the alert was raised. */
  datatype Alert = Alert(
    productId: ProductId,
    productName: string,
    currentStock: int,
    minStockLevel: int,
    supplier: string,
    alertDate: Timestamp)

  /** One restock attempt; `totalCost` is absent when no (or a zero) unit cost was given. */
  datatype RestockRecord = RestockRecord(
    productId: ProductId,
    productName: string,
    quantity: int,
    costPerUnit: Option<Money>,
    totalCost: Option<Money>,
    date: Timestamp)

  datatype Inventory = Inventory(
    businessName: string,
    products: ProductMap,
    lowStockAlerts: seq<Alert>,
    reorderHistory: seq<RestockRecord>)

  /** Every product is filed under its own id. */
  predicate KeysMatch(m: ProductMap)
  {
    forall k :: k in m ==> m[k].productId == k
  }

  /** The invariant of reachable inventories: ids match keys and every product is consistent. */
  predicate Valid(inv: Inventory)
  {
    && KeysMatch(inv.products)
    && forall k :: k in inv.products ==> Stock.Valid(inv.products[k])
  }

  function NewInventory(businessName: string := ""): (inv: Inventory)
    ensures Valid(inv)
    ensures inv.businessName == businessName
    ensures |inv.products| == 0 && inv.lowStockAlerts == [] && inv.reorderHistory == []
  {
    Inventory(businessName, map[], [], [])
  }

  /** Files `p` under its id; an existing product with that id is replaced. */
  function AddProduct(inv: Inventory, p: Product): (r: Inventory)
    ensures r.products.Keys == inv.products.Keys + {p.productId}
    ensures r.products[p.productId] == p
    ensures forall k :: k in inv.products && k != p.productId ==> r.products[k] == inv.products[k]
    ensures r.businessName == inv.businessName
    ensures r.lowStockAlerts == inv.lowStockAlerts && r.reorderHistory == inv.reorderHistory
  {
    inv.(products := inv.products[p.productId := p])
  }

  /** Drops the product with id `id`; an unknown id leaves the inventory unchanged. */
  function RemoveProduct(inv: Inventory, id: ProductId): (r: Inventory)
    ensures id !in inv.products ==> r == inv
    ensures r.products.Keys == inv.products.Keys - {id}
    ensures forall k :: k in r.products ==> r.products[k] == inv.products[k]
    ensures r.businessName == inv.businessName
    ensures r.lowStockAlerts == inv.lowStockAlerts && r.reorderHistory == inv.reorderHistory
  {
    if id in inv.products then inv.(products := inv.products - {id}) else inv
  }

  function GetProduct(inv: Inventory, id: ProductId): (r: Option<Product>)
    ensures r.Some? <==> id in inv.products
    ensures r.Some? ==> r.value == inv.products[id]
  {
    if id in inv.products then Some(inv.products[id]) else None
  }

  lemma AddProductPreservesValid(inv: Inventory, p: Product)
    requires Valid(inv) && Stock.Valid(p)
    ensures Valid(AddProduct(inv, p))
  {
  }

  lemma RemoveProductPreservesValid(inv: Inventory, id: ProductId)
    requires Valid(inv)
    ensures Valid(RemoveProduct(inv, id))
  {
  }

  /** A product just added is what a lookup of its id returns. */
  lemma GetAfterAdd(inv: Inventory, p: Product)
    ensures GetProduct(AddProduct(inv, p), p.productId) == Some(p)
  {
  }

  /** After removal, a lookup of the id finds nothing. */
  lemma GetAfterRemove(inv: Inventory, id: ProductId)
    ensures GetProduct(RemoveProduct(inv, id), id) == None
  {
  }

  /** Adding a product under a fresh id and removing it again gives back the inventory. */
  lemma AddThenRemoveRestores(inv: Inventory, p: Product)
    requires p.productId !in inv.products
    ensures RemoveProduct(AddProduct(inv, p), p.productId) == inv
  {
    assert inv.products[p.productId := p] - {p.productId} == inv.products;
  }

  /** Adding twice under one id: the later product wins. */
  lemma LastAddWins(inv: Inventory, p: Product, q: Product)
    requires p.productId == q.productId
    ensures AddProduct(AddProduct(inv, p), q) == AddProduct(inv, q)
  {
  }

  // ---------------------------------------------------------------------------
  // Low-stock alerts
  // ---------------------------------------------------------------------------

  function AlertFor(p: Product, now: Timestamp): (a: Alert)
    ensures a.productId == p.productId && a.productName == p.name && a.supplier == p.supplier
    ensures a.currentStock == p.currentStock && a.minStockLevel == p.minStockLevel
  {
    Alert(p.productId, p.name, p.currentStock, p.minStockLevel, p.supplier, now)
  }

  predicate HasAlertFor(alerts: seq<Alert>, id: ProductId)
  {
    exists i :: 0 <= i < |alerts| && alerts[i].productId == id
  }

  /** The alerts for every product except `id`, in their original order. */
  function WithoutAlertsFor(alerts: seq<Alert>, id: ProductId): (r: seq<Alert>)
    ensures |r| <= |alerts|
    ensures forall a :: a in r <==> a in alerts && a.productId != id
  {
    if |alerts| == 0 then []
    else if alerts[0].productId == id then WithoutAlertsFor(alerts[1..], id)
    else [alerts[0]] + WithoutAlertsFor(alerts[1..], id)
  }

  /** Removal distributes over concatenation, so the kept alerts keep their relative order. */
  lemma {:induction false} WithoutAlertsForConcat(a: seq<Alert>, b: seq<Alert>, id: ProductId)
    ensures WithoutAlertsFor(a + b, id) == WithoutAlertsFor(a, id) + WithoutAlertsFor(b, id)
    decreases |a|
  {
    if |a| > 0 {
      assert (a + b)[0] == a[0];
      assert (a + b)[1..] == a[1..] + b;
      WithoutAlertsForConcat(a[1..], b, id);
      var x, y := WithoutAlertsFor(a[1..], id), WithoutAlertsFor(b, id);
      if a[0].productId != id {
        assert [a[0]] + (x + y) == ([a[0]] + x) + y;
      }
    } else {
      assert a + b == b;
    }
  }

  /** With no alert for `id`, removal changes nothing. */
  lemma {:induction false} WithoutAlertsForAbsent(alerts: seq<Alert>, id: ProductId)
    requires !HasAlertFor(alerts, id)
    ensures WithoutAlertsFor(alerts, id) == alerts
    decreases |alerts|
  {
    if |alerts| > 0 {
      assert alerts[0].productId != id;
      assert !HasAlertFor(alerts[1..], id) by {
        forall i | 0 <= i < |alerts[1..]|
          ensures alerts[1..][i].productId != id
        {
          assert alerts[1..][i] == alerts[i + 1];
        }
      }
      WithoutAlertsForAbsent(alerts[1..], id);
      assert [alerts[0]] + alerts[1..] == alerts;
    }
  }

  // ---------------------------------------------------------------------------
  // Restocking
  // ---------------------------------------------------------------------------

  /** The cost column of a restock record: absent unless a non-zero unit cost was given. */
  function TotalCost(costPerUnit: Option<Money>, quantity: int): (c: Option<Money>)
    ensures c.Some? <==> costPerUnit.Some? && costPerUnit.value != 0
    ensures c.Some? ==> c.value == costPerUnit.value * quantity
  {
    if costPerUnit.Some? && costPerUnit.value != 0 then Some(costPerUnit.value * quantity) else None
  }

  /** The alert list after product `id` was restocked to `p`. */
  function AlertsAfterRestock(alerts: seq<Alert>, id: ProductId, p: Product): seq<Alert>
  {
    if !IsLowStock(p) && HasAlertFor(alerts, id) then WithoutAlertsFor(alerts, id) else alerts
  }

  /**
   * Adds stock to product `id`, drops its alerts if it is no longer low, and
   * records the attempt in the history. The record is written even when the
   * quantity was rejected and the stock did not change. An unknown id changes
   * nothing.
   */
  function RestockProduct(inv: Inventory, id: ProductId, quantity: int, now: Timestamp,
                          costPerUnit: Option<Money> := None): (r: Inventory)
    ensures id !in inv.products ==> r == inv
    ensures id in inv.products ==>
      && r.products == inv.products[id := AddStock(inv.products[id], quantity, now)]
      && |r.reorderHistory| == |inv.reorderHistory| + 1
      && r.reorderHistory[..|inv.reorderHistory|] == inv.reorderHistory
      && r.reorderHistory[|inv.reorderHistory|]
         == RestockRecord(id, inv.products[id].name, quantity, costPerUnit,
                          TotalCost(costPerUnit, quantity), now)
    ensures r.businessName == inv.businessName
    ensures forall a :: a in r.lowStockAlerts ==> a in inv.lowStockAlerts
    ensures forall a :: a in inv.lowStockAlerts && a !in r.lowStockAlerts ==>
              && a.productId == id && id in inv.products
              && !IsLowStock(r.products[id])
  {
    if id in inv.products then
      var p := AddStock(inv.products[id], quantity, now);
      inv.(products := inv.products[id := p],
           lowStockAlerts := AlertsAfterRestock(inv.lowStockAlerts, id, p),
           reorderHistory := inv.reorderHistory
                             + [RestockRecord(id, p.name, quantity, costPerUnit,
                                              TotalCost(costPerUnit, quantity), now)])
    else
      inv
  }

  /** Every alert for `id` goes once the restocked product is no longer low. */
  lemma RestockClearsAlertsWhenNotLow(inv: Inventory, id: ProductId, quantity: int,
                                      costPerUnit: Option<Money>, now: Timestamp)
    requires id in inv.products
    requires !IsLowStock(AddStock(inv.products[id], quantity, now))
    ensures !HasAlertFor(RestockProduct(inv, id, quantity, now, costPerUnit).lowStockAlerts, id)
  {
    var alerts := RestockProduct(inv, id, quantity, now, costPerUnit).lowStockAlerts;
    if HasAlertFor(inv.lowStockAlerts, id) {
      forall i | 0 <= i < |alerts|
        ensures alerts[i].productId != id
      {
        assert alerts[i] in WithoutAlertsFor(inv.lowStockAlerts, id);
      }
    }
  }

  /** A rejected quantity leaves the products as they were, yet the history still grows. */
  lemma RestockRecordsRejectedQuantity(inv: Inventory, id: ProductId, quantity: int,
                                       costPerUnit: Option<Money>, now: Timestamp)
    requires id in inv.products && quantity <= 0
    ensures var r := RestockProduct(inv, id, quantity, now, costPerUnit);
            && r.products == inv.products
            && |r.reorderHistory| == |inv.reorderHistory| + 1
            && r.reorderHistory[|inv.reorderHistory|].quantity == quantity
  {
    assert inv.products[id := inv.products[id]] == inv.products;
  }

  /** Restocking either keeps the alert list or drops exactly the alerts for `id`. */
  lemma RestockAlertsKeepOrder(inv: Inventory, id: ProductId, quantity: int,
                               costPerUnit: Option<Money>, now: Timestamp)
    ensures var alerts := RestockProduct(inv, id, quantity, now, costPerUnit).lowStockAlerts;
            alerts == inv.lowStockAlerts || alerts == WithoutAlertsFor(inv.lowStockAlerts, id)
  {
  }

  /** Restocking keeps every product consistent and filed under its id, whatever the quantity. */
  lemma RestockPreservesValid(inv: Inventory, id: ProductId, quantity: int,
                              costPerUnit: Option<Money>, now: Timestamp)
    requires Valid(inv)
    ensures Valid(RestockProduct(inv, id, quantity, now, costPerUnit))
  {
  }

  /** One restock call: which product, how much, at what unit cost, and when. */
  datatype RestockRequest = RestockRequest(id: ProductId, quantity: int, costPerUnit: Option<Money>,
                                           now: Timestamp)

  /** Applies the restock requests in turn. */
  function RestockAll(inv: Inventory, reqs: seq<RestockRequest>): Inventory
    decreases |reqs|
  {
    if |reqs| == 0 then inv
    else
      var q := reqs[0];
      RestockAll(RestockProduct(inv, q.id, q.quantity, q.now, q.costPerUnit), reqs[1..])
  }

  /**
   * The history is append-only: any sequence of restocks, each with its own
   * product, quantity, unit cost and time, only ever extends it, and never
   * adds or drops a product.
   */
  lemma {:induction false} HistoryIsAppendOnly(inv: Inventory, reqs: seq<RestockRequest>)
    ensures var r := RestockAll(inv, reqs);
            && |inv.reorderHistory| <= |r.reorderHistory|
            && r.reorderHistory[..|inv.reorderHistory|] == inv.reorderHistory
            && r.products.Keys == inv.products.Keys
    decreases |reqs|
  {
    if |reqs| > 0 {
      var q := reqs[0];
      var next := RestockProduct(inv, q.id, q.quantity, q.now, q.costPerUnit);
      HistoryIsAppendOnly(next, reqs[1..]);
      var r := RestockAll(next, reqs[1..]);
      assert r.reorderHistory[..|inv.reorderHistory|]
          == r.reorderHistory[..|next.reorderHistory|][..|inv.reorderHistory|];
    }
  }

  // ---------------------------------------------------------------------------
  // Scans over the product map. The source visits products in dictionary order;
  // here the order is left open, and each result is described by the ghost
  // sequence of keys it was produced from.
  // ---------------------------------------------------------------------------

  /** One `view` of each product that passes `keep`, each key used once. */
  method Collect<T>(m: ProductMap, keep: Product -> bool, view: Product -> T)
      returns (r: seq<T>, ghost ks: seq<ProductId>)
    ensures |ks| == |r|
    ensures forall i, j :: 0 <= i < j < |ks| ==> ks[i] != ks[j]
    ensures forall i :: 0 <= i < |ks| ==> ks[i] in m && r[i] == view(m[ks[i]])
    ensures forall k :: k in ks <==> k in m && keep(m[k])
  {
    r, ks := [], [];
    var rest := m.Keys;
    while rest != {}
      invariant rest <= m.Keys
      invariant |ks| == |r|
      invariant forall i, j :: 0 <= i < j < |ks| ==> ks[i] != ks[j]
      invariant forall i :: 0 <= i < |ks| ==> ks[i] in m && ks[i] !in rest && r[i] == view(m[ks[i]])
      invariant forall k :: k in ks <==> k in m && k !in rest && keep(m[k])
      decreases rest
    {
      KeysEmptyOrInhabited(rest);
      var k :| k in rest;
      if keep(m[k]) {
        r, ks := r + [view(m[k])], ks + [k];
      }
      rest := rest - {k};
    }
  }

  /** A sequence of distinct keys is as long as the set of keys it lists. */
  lemma {:induction false} DistinctKeysCount(ks: seq<ProductId>, s: set<ProductId>)
    requires forall i, j :: 0 <= i < j < |ks| ==> ks[i] != ks[j]
    requires forall k :: k in ks <==> k in s
    ensures |ks| == |s|
    decreases |ks|
  {
    if |ks| == 0 {
      KeysEmptyOrInhabited(s);
    } else {
      var last := ks[|ks| - 1];
      var init := ks[..|ks| - 1];
      forall k
        ensures k in init <==> k in s - {last}
      {
        if k in init {
          var i :| 0 <= i < |init| && init[i] == k;
          assert ks[i] == k;
        }
        if k in s - {last} {
          assert k in ks;
          var i :| 0 <= i < |ks| && ks[i] == k;
          assert i != |ks| - 1;
          assert init[i] == k;
        }
      }
      DistinctKeysCount(init, s - {last});
    }
  }

  /**
   * Rebuilds the alert list from scratch: afterwards it holds exactly one
   * alert per low-stock product and none for any other. Nothing else changes.
   */
  method CheckLowStock(inv: Inventory, now: Timestamp)
      returns (r: Inventory, alerts: seq<Alert>, ghost ks: seq<ProductId>)
    ensures r == inv.(lowStockAlerts := alerts)
    ensures |alerts| == |LowStockKeys(inv.products)|
    ensures forall i :: 0 <= i < |alerts| ==>
              exists k :: k in inv.products && IsLowStock(inv.products[k])
                          && alerts[i] == AlertFor(inv.products[k], now)
    ensures forall k :: k in inv.products && IsLowStock(inv.products[k]) ==>
              AlertFor(inv.products[k], now) in alerts
    ensures |ks| == |alerts|
    ensures forall i, j :: 0 <= i < j < |ks| ==> ks[i] != ks[j]
    ensures forall i :: 0 <= i < |ks| ==> ks[i] in inv.products && alerts[i] == AlertFor(inv.products[ks[i]], now)
    ensures forall k :: k in ks <==> k in inv.products && IsLowStock(inv.products[k])
  {
    alerts, ks := Collect(inv.products, IsLowStock, p => AlertFor(p, now));
    r := inv.(lowStockAlerts := alerts);
    AlertsListLowStock(inv.products, now, alerts, ks);
  }

  /** Alerts built from an enumeration of the low-stock keys: one per low-stock product. */
  lemma AlertsListLowStock(m: ProductMap, now: Timestamp, alerts: seq<Alert>, ks: seq<ProductId>)
    requires |ks| == |alerts|
    requires forall i, j :: 0 <= i < j < |ks| ==> ks[i] != ks[j]
    requires forall i :: 0 <= i < |ks| ==> ks[i] in m && alerts[i] == AlertFor(m[ks[i]], now)
    requires forall k :: k in ks <==> k in m && IsLowStock(m[k])
    ensures |alerts| == |LowStockKeys(m)|
    ensures forall i :: 0 <= i < |alerts| ==>
              exists k :: k in m && IsLowStock(m[k]) && alerts[i] == AlertFor(m[k], now)
    ensures forall k :: k in m && IsLowStock(m[k]) ==> AlertFor(m[k], now) in alerts
  {
    DistinctKeysCount(ks, LowStockKeys(m));
    forall i | 0 <= i < |alerts|
      ensures exists k :: k in m && IsLowStock(m[k]) && alerts[i] == AlertFor(m[k], now)
    {
      assert ks[i] in ks;
    }
    forall k | k in m && IsLowStock(m[k])
      ensures AlertFor(m[k], now) in alerts
    {
      var i :| 0 <= i < |ks| && ks[i] == k;
      assert alerts[i] == AlertFor(m[k], now);
    }
  }

  /** A case-insensitive match of name and, when one is given, category. */
  predicate Matches(p: Product, searchTerm: string, category: string)
  {
    && Contains(Lower(p.name), Lower(searchTerm))
    && (category == "" || Lower(category) == Lower(p.category))
  }

  /** Reference definition of a search hit, in terms of `IsSubstring`. */
  ghost predicate SearchHit(p: Product, searchTerm: string, category: string)
  {
    && IsSubstring(Lower(searchTerm), Lower(p.name))
    && (category == "" || Lower(category) == Lower(p.category))
  }

  /**
   * The products whose lower-cased name contains the lower-cased search term
   * and, unless `category` is empty, whose category equals it ignoring case.
   */
  method SearchProducts(inv: Inventory, searchTerm: string := "", category: string := "")
      returns (r: seq<Product>, ghost ks: seq<ProductId>)
    ensures |r| == |set k | k in inv.products && SearchHit(inv.products[k], searchTerm, category)|
    ensures forall i :: 0 <= i < |r| ==>
              SearchHit(r[i], searchTerm, category) && exists k :: k in inv.products && r[i] == inv.products[k]
    ensures forall k :: k in inv.products && SearchHit(inv.products[k], searchTerm, category) ==>
              inv.products[k] in r
    ensures |ks| == |r|
    ensures forall i, j :: 0 <= i < j < |ks| ==> ks[i] != ks[j]
    ensures forall i :: 0 <= i < |ks| ==> ks[i] in inv.products && r[i] == inv.products[ks[i]]
    ensures forall k :: k in ks <==> k in inv.products && SearchHit(inv.products[k], searchTerm, category)
  {
    r, ks := Collect(inv.products, p => Matches(p, searchTerm, category), p => p);
    HitsListMatches(inv.products, searchTerm, category, r, ks);
  }

  /** Products picked by an enumeration of the matching keys: each match exactly once. */
  lemma HitsListMatches(m: ProductMap, searchTerm: string, category: string,
                        r: seq<Product>, ks: seq<ProductId>)
    requires |ks| == |r|
    requires forall i, j :: 0 <= i < j < |ks| ==> ks[i] != ks[j]
    requires forall i :: 0 <= i < |ks| ==> ks[i] in m && r[i] == m[ks[i]]
    requires forall k :: k in ks <==> k in m && SearchHit(m[k], searchTerm, category)
    ensures |r| == |set k | k in m && SearchHit(m[k], searchTerm, category)|
    ensures forall i :: 0 <= i < |r| ==>
              SearchHit(r[i], searchTerm, category) && exists k :: k in m && r[i] == m[k]
    ensures forall k :: k in m && SearchHit(m[k], searchTerm, category) ==> m[k] in r
  {
    DistinctKeysCount(ks, set k | k in m && SearchHit(m[k], searchTerm, category));
    forall i | 0 <= i < |r|
      ensures SearchHit(r[i], searchTerm, category) && exists k :: k in m && r[i] == m[k]
    {
      assert ks[i] in ks;
    }
    forall k | k in m && SearchHit(m[k], searchTerm, category)
      ensures m[k] in r
    {
      var i :| 0 <= i < |ks| && ks[i] == k;
      assert r[i] == m[k];
    }
  }

  /** An empty search term and no category match every product. */
  lemma EmptySearchMatchesAll(p: Product)
    ensures Matches(p, "", "")
  {
    EmptyOccursEverywhere(Lower(p.name));
  }

  /** Two products in categories "A" and "B": an empty term with category "A" finds only the first. */
  lemma CategorySearchScenario(widget: Product, gadget: Product)
    requires widget.category == "A" && gadget.category == "B"
    ensures Matches(widget, "", "A") && !Matches(gadget, "", "A")
  {
    assert Lower("A") == "a" && Lower("B") == "b";
    EmptyOccursEverywhere(Lower(widget.name));
  }

  /** The term "WID" finds a product named "Widget", whatever its category, when no category is given. */
  lemma NameSearchScenario(widget: Product)
    requires widget.name == "Widget"
    ensures Matches(widget, "WID", "")
  {
    var name := Lower("Widget");
    assert name[0] == 'w' && name[1] == 'i' && name[2] == 'd';
    assert Lower("WID") == "wid";
    assert "wid" <= name[0..];
  }

  /** The total of `f` over the product map, visiting the products in any order. */
  method SumOver(m: ProductMap, f: Product -> int) returns (total: int)
    ensures total == Sum(m, f)
  {
    total := 0;
    var rest := m;
    while |rest| > 0
      invariant forall k :: k in rest ==> k in m && rest[k] == m[k]
      invariant total + Sum(rest, f) == Sum(m, f)
      decreases |rest|
    {
      KeysEmptyOrInhabited(rest.Keys);
      var k :| k in rest;
      SumSplit(rest, f, k);
      RemoveKeyShrinks(rest, k);
      total := total + f(rest[k]);
      rest := rest - {k};
    }
  }

  /** The value of all stock on hand: the sum of stock times price over every product. */
  method GetInventoryValue(inv: Inventory) returns (value: Money)
    ensures value == Sum(inv.products, StockValue)
    ensures |inv.products| == 0 ==> value == 0
    ensures (forall k :: k in inv.products ==> StockValue(inv.products[k]) >= 0) ==> value >= 0
  {
    value := SumOver(inv.products, StockValue);
    if forall k :: k in inv.products ==> StockValue(inv.products[k]) >= 0 {
      SumNonNegative(inv.products, StockValue);
    }
  }

  /** Filing a product replaces exactly its old contribution to the inventory value. */
  lemma ValueAfterAddProduct(inv: Inventory, p: Product)
    ensures Sum(AddProduct(inv, p).products, StockValue)
         == Sum(inv.products - {p.productId}, StockValue) + StockValue(p)
  {
    SumAfterInsert(inv.products, StockValue, p.productId, p);
  }

  /** The distinct categories of the products, each once. */
  function GetCategories(inv: Inventory): (cats: set<string>)
    ensures forall c :: c in cats <==> exists k :: k in inv.products && inv.products[k].category == c
  {
    Categories(inv.products)
  }
}

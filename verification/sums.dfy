/**
 * Sums and counts over a product map, defined independently of the
 * order in which anything is visited. These are the reference definitions
 * the inventory's aggregate queries and the report are proved against.
 */
module Sums {

  import opened Stock

  type ProductMap = map<ProductId, Product>

  // The two lemmas below are the same fact for the two element types the
  // model picks from. A single generic version does not give the verifier
  // the witness it needs once the element type is boxed.

  /** A set of keys is empty or has a key to pick. */
  lemma KeysEmptyOrInhabited(s: set<ProductId>)
    ensures s == {} || exists k :: k in s
  {
    if !(exists k :: k in s) {
      assert s == {};
    }
  }

  /** A set of categories is empty or has a category to pick. */
  lemma CategoriesEmptyOrInhabited(s: set<string>)
    ensures s == {} || exists c :: c in s
  {
    if !(exists c :: c in s) {
      assert s == {};
    }
  }

  /** A subset of keys is no larger than the whole. */
  lemma {:induction false} SubsetNoLarger(a: set<ProductId>, b: set<ProductId>)
    requires a <= b
    ensures |a| <= |b|
    decreases b
  {
    if a != {} {
      KeysEmptyOrInhabited(a);
      var x :| x in a;
      SubsetNoLarger(a - {x}, b - {x});
    }
  }

  /**
   * Some key of a non-empty product map, for the ghost definitions below.
   * Compiled loops pick their key with `:|` after `KeysEmptyOrInhabited`.
   */
  ghost function PickKey(m: ProductMap): (k: ProductId)
    requires |m| > 0
    ensures k in m
  {
    KeysEmptyOrInhabited(m.Keys);
    assert m.Keys != {};
    var k :| k in m.Keys; k
  }

  /** Some element of a non-empty set of categories. */
  ghost function PickCategory(cats: set<string>): (c: string)
    requires cats != {}
    ensures c in cats
  {
    CategoriesEmptyOrInhabited(cats);
    var c :| c in cats; c
  }

  /** Removing a present key makes a product map one entry smaller. */
  lemma RemoveKeyShrinks(m: ProductMap, k: ProductId)
    requires k in m
    ensures |m - {k}| == |m| - 1
  {
    assert (m - {k}).Keys == m.Keys - {k};
  }

  /** The sum of `f` over every product of the map. */
  ghost function Sum(m: ProductMap, f: Product -> int): int
    decreases |m|
  {
    if |m| == 0 then 0
    else
      var k := PickKey(m);
      RemoveKeyShrinks(m, k);
      f(m[k]) + Sum(m - {k}, f)
  }

  /** Any product, not just the one `Sum` happens to pick, can be split off. */
  lemma {:induction false} SumSplit(m: ProductMap, f: Product -> int, k: ProductId)
    requires k in m
    ensures Sum(m, f) == f(m[k]) + Sum(m - {k}, f)
    decreases |m|
  {
    var j := PickKey(m);
    if j != k {
      RemoveKeyShrinks(m, j);
      RemoveKeyShrinks(m, k);
      SumSplit(m - {j}, f, k);
      SumSplit(m - {k}, f, j);
      assert m - {j} - {k} == m - {k} - {j};
    }
  }

  /** The value of one product's stock on hand. */
  function StockValue(p: Product): Money
  {
    p.currentStock * p.price
  }

  function StockUnits(p: Product): int
  {
    p.currentStock
  }

  /** Putting a product at a key replaces that key's contribution to a sum. */
  lemma {:induction false} SumAfterInsert(m: ProductMap, f: Product -> int, k: ProductId, p: Product)
    ensures Sum(m[k := p], f) == Sum(m - {k}, f) + f(p)
  {
    SumSplit(m[k := p], f, k);
    assert m[k := p] - {k} == m - {k};
  }

  /** A sum of non-negative terms is non-negative. */
  lemma {:induction false} SumNonNegative(m: ProductMap, f: Product -> int)
    requires forall k :: k in m ==> f(m[k]) >= 0
    ensures Sum(m, f) >= 0
    decreases |m|
  {
    if |m| > 0 {
      var k := PickKey(m);
      RemoveKeyShrinks(m, k);
      SumNonNegative(m - {k}, f);
    }
  }

  /** The keys of low-stock products. */
  function LowStockKeys(m: ProductMap): set<ProductId>
  {
    set k | k in m && IsLowStock(m[k])
  }

  /** The keys of out-of-stock products. */
  function OutOfStockKeys(m: ProductMap): set<ProductId>
  {
    set k | k in m && IsOutOfStock(m[k])
  }

  /** The keys of products in category `c`. */
  function CategoryKeys(m: ProductMap, c: string): set<ProductId>
  {
    set k | k in m && m[k].category == c
  }

  /** The keys of products whose category lies in `cats`. */
  function KeysInCategories(m: ProductMap, cats: set<string>): set<ProductId>
  {
    set k | k in m && m[k].category in cats
  }

  /** The sum over `cats` of each category's product count. */
  ghost function CountSum(m: ProductMap, cats: set<string>): int
    decreases cats
  {
    if cats == {} then 0
    else
      var c := PickCategory(cats);
      |CategoryKeys(m, c)| + CountSum(m, cats - {c})
  }

  /** Category product counts partition the products of those categories. */
  lemma {:induction false} CountSumPartitions(m: ProductMap, cats: set<string>)
    ensures CountSum(m, cats) == |KeysInCategories(m, cats)|
    decreases cats
  {
    if cats != {} {
      var c := PickCategory(cats);
      CountSumPartitions(m, cats - {c});
      assert KeysInCategories(m, cats) == CategoryKeys(m, c) + KeysInCategories(m, cats - {c});
      assert CategoryKeys(m, c) !! KeysInCategories(m, cats - {c});
    }
  }

  /** The products of category `c`. */
  function InCategory(m: ProductMap, c: string): (sub: ProductMap)
    ensures sub.Keys == CategoryKeys(m, c)
    ensures forall k :: k in sub ==> sub[k] == m[k]
  {
    map k | k in m && m[k].category == c :: m[k]
  }

  /** The products whose category lies in `cats`. */
  function InCategories(m: ProductMap, cats: set<string>): (sub: ProductMap)
    ensures sub.Keys == KeysInCategories(m, cats)
    ensures forall k :: k in sub ==> sub[k] == m[k]
  {
    map k | k in m && m[k].category in cats :: m[k]
  }

  /** Taking a key of `a` out of a disjoint union takes it out of `a`. */
  lemma UnionWithoutKey(a: ProductMap, b: ProductMap, k: ProductId)
    requires k in a && a.Keys !! b.Keys
    ensures k in a + b && (a + b)[k] == a[k]
    ensures (a + b) - {k} == (a - {k}) + b
  {
    assert ((a + b) - {k}).Keys == ((a - {k}) + b).Keys;
  }

  /** A sum over two product maps with no key in common is the sum of their sums. */
  lemma {:induction false} SumDisjointUnion(a: ProductMap, b: ProductMap, f: Product -> int)
    requires a.Keys !! b.Keys
    ensures Sum(a + b, f) == Sum(a, f) + Sum(b, f)
    decreases |a|
  {
    if |a| == 0 {
      assert a.Keys == {} by {
        KeysEmptyOrInhabited(a.Keys);
      }
      assert (a + b).Keys == b.Keys;
      assert a + b == b;
    } else {
      var k := PickKey(a);
      RemoveKeyShrinks(a, k);
      UnionWithoutKey(a, b, k);
      SumDisjointUnion(a - {k}, b, f);
      SumSplit(a, f, k);
      SumSplit(a + b, f, k);
      calc {
        Sum(a + b, f);
        f(a[k]) + Sum((a + b) - {k}, f);
        { assert (a + b) - {k} == (a - {k}) + b; }
        f(a[k]) + Sum((a - {k}) + b, f);
        f(a[k]) + Sum(a - {k}, f) + Sum(b, f);
        Sum(a, f) + Sum(b, f);
      }
    }
  }

  /** The sum over `cats` of each category's stock value. */
  ghost function CategoryValueSum(m: ProductMap, cats: set<string>): int
    decreases cats
  {
    if cats == {} then 0
    else
      var c := PickCategory(cats);
      Sum(InCategory(m, c), StockValue) + CategoryValueSum(m, cats - {c})
  }

  /** The products of `cats` are those of one member `c` plus those of the rest, apart. */
  lemma InCategoriesSplit(m: ProductMap, cats: set<string>, c: string)
    requires c in cats
    ensures InCategory(m, c).Keys !! InCategories(m, cats - {c}).Keys
    ensures InCategories(m, cats) == InCategory(m, c) + InCategories(m, cats - {c})
  {
    var whole, one, rest := InCategories(m, cats), InCategory(m, c), InCategories(m, cats - {c});
    assert whole.Keys == (one + rest).Keys;
    forall k | k in whole
      ensures whole[k] == (one + rest)[k]
    {
    }
  }

  /** Category stock values add up to the stock value of those categories' products. */
  lemma {:induction false} CategoryValuesPartition(m: ProductMap, cats: set<string>)
    ensures CategoryValueSum(m, cats) == Sum(InCategories(m, cats), StockValue)
    decreases cats
  {
    if cats == {} {
      assert InCategories(m, cats) == map[];
    } else {
      var c := PickCategory(cats);
      CategoryValuesPartition(m, cats - {c});
      InCategoriesSplit(m, cats, c);
      SumDisjointUnion(InCategory(m, c), InCategories(m, cats - {c}), StockValue);
    }
  }

  /** The distinct categories of a product map. */
  function Categories(m: ProductMap): set<string>
  {
    set k | k in m :: m[k].category
  }

  /**
   * Over all categories, the per-category product counts add up to the number
   * of products and the per-category stock values add up to the total value.
   */
  lemma CategoryBreakdownAddsUp(m: ProductMap)
    ensures CountSum(m, Categories(m)) == |m|
    ensures CategoryValueSum(m, Categories(m)) == Sum(m, StockValue)
  {
    var cats := Categories(m);
    forall k | k in m
      ensures m[k].category in cats
    {
    }
    assert KeysInCategories(m, cats) == m.Keys;
    CountSumPartitions(m, cats);
    CategoryValuesPartition(m, cats);
    assert InCategories(m, cats) == m;
  }
}

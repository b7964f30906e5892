/**
 * The tables of the ledger: one record type per stored entity and the `Store`
 * that holds them. Every operation that persists something takes the store and
 * keeps `Valid()`, which collects the database constraints (foreign keys,
 * unique-together keys, the one-to-one inventory) and an item's derived
 * subtotal and profit. An order's total agrees with its items only once
 * `calculate_total` has run, so that rule is kept apart in `Consistent()`.
 */
module Schema {
  import opened Wrappers

  /** Primary keys. */
  type Id = nat

  datatype AccountStatus = Active | Suspended

  datatype BusinessRow = BusinessRow(
    businessCode: string,
    password: string,
    recoveryContact: string,
    status: AccountStatus,
    isActive: bool,
    isStaff: bool,
    isSuperuser: bool)

  datatype CategoryRow = CategoryRow(categoryCode: int, name: string, isActive: bool, business: Id)

  datatype Unit = Number | Kg | Liter | Meter | Box | Pack

  /** A product; `cost` and `price` are decimals with no fractional digits. */
  datatype ProductRow = ProductRow(
    business: Id,
    name: string,
    productCode: string,
    category: Option<Id>,
    isActive: bool,
    unit: Unit,
    cost: int,
    price: int,
    description: Option<string>,
    unlimitedStock: bool,
    createdAt: int)

  /** The inventory of one product (the table is keyed by the product's id). */
  datatype InventoryRow = InventoryRow(quantity: real, lowStockThreshold: Option<real>)

  datatype OrderStatus = Open | Delivered | Canceled
  datatype CustomerType = Male | Female | Legal
  datatype OrderSource = Instagram | Website | Phone | InPerson | Other

  /** An order; timestamps are seconds on one clock. */
  datatype OrderRow = OrderRow(
    id: Id,
    business: Id,
    orderCode: string,
    customerType: CustomerType,
    source: OrderSource,
    customerName: string,
    customerPhone: string,
    customerAddress: string,
    orderDate: int,
    deliveryDate: Option<int>,
    description: Option<string>,
    totalAmount: real,
    status: OrderStatus,
    createdAt: int)

  /** A line item: the price and cost snapshot and the two derived amounts. */
  datatype ItemRow = ItemRow(
    id: Id,
    order: Id,
    product: Id,
    quantity: real,
    price: int,
    cost: int,
    subtotal: real,
    profit: real)

  /** `calculate_subtotal`'s two formulas hold of the stored item. */
  predicate AmountsDerived(it: ItemRow)
  {
    it.subtotal == it.price as real * it.quantity && it.profit == (it.price - it.cost) as real * it.quantity
  }

  /** The items of one order, in table order (`order.items.all()`). */
  function ItemsOf(items: seq<ItemRow>, order: Id): seq<ItemRow>
  {
    if items == [] then []
    else (if items[0].order == order then [items[0]] else []) + ItemsOf(items[1..], order)
  }

  /** `ItemsOf` keeps exactly the items of the order. */
  lemma {:induction false} ItemsOfMembers(items: seq<ItemRow>, order: Id)
    ensures |ItemsOf(items, order)| <= |items|
    ensures forall it :: it in ItemsOf(items, order) <==> it in items && it.order == order
  {
    if items != [] {
      ItemsOfMembers(items[1..], order);
      assert forall it :: it in items <==> it == items[0] || it in items[1..];
    }
  }

  lemma {:induction false} ItemsOfAppend(a: seq<ItemRow>, b: seq<ItemRow>, order: Id)
    ensures ItemsOf(a + b, order) == ItemsOf(a, order) + ItemsOf(b, order)
  {
    if a != [] {
      assert (a + b)[1..] == a[1..] + b;
      ItemsOfAppend(a[1..], b, order);
    } else {
      assert a + b == b;
    }
  }

  lemma {:induction false} ItemsOfNone(items: seq<ItemRow>, order: Id)
    requires forall it :: it in items ==> it.order != order
    ensures ItemsOf(items, order) == []
  {
    if items != [] {
      ItemsOfNone(items[1..], order);
    }
  }

  lemma {:induction false} ItemsOfAll(items: seq<ItemRow>, order: Id)
    requires forall it :: it in items ==> it.order == order
    ensures ItemsOf(items, order) == items
  {
    if items != [] {
      ItemsOfAll(items[1..], order);
    }
  }

  /** The sum of the subtotals (0 for no items). */
  function SumSubtotals(items: seq<ItemRow>): real
  {
    if items == [] then 0.0 else items[0].subtotal + SumSubtotals(items[1..])
  }

  lemma {:induction false} SumSubtotalsAppend(a: seq<ItemRow>, b: seq<ItemRow>)
    ensures SumSubtotals(a + b) == SumSubtotals(a) + SumSubtotals(b)
  {
    if a != [] {
      assert (a + b)[1..] == a[1..] + b;
      SumSubtotalsAppend(a[1..], b);
    } else {
      assert a + b == b;
    }
  }

  /** `m` is the least of `keys`. */
  predicate IsMin(m: Id, keys: set<Id>)
  {
    m in keys && forall k :: k in keys ==> m <= k
  }

  ghost function MinOf(keys: set<Id>): (m: Id)
    requires keys != {}
    ensures IsMin(m, keys)
    decreases |keys|
  {
    var x :| x in keys;
    if keys == {x} then
      assert forall k :: k in keys ==> k == x;
      x
    else
      var r := MinOf(keys - {x});
      var m := if x < r then x else r;
      assert forall k :: k in keys ==> k == x || k in keys - {x};
      m
  }

  /** The keys of a table in increasing order: the order in which the model walks a table. */
  function SortedIds(keys: set<Id>): (r: seq<Id>)
    ensures |r| == |keys|
    ensures forall k :: k in r <==> k in keys
    decreases |keys|
  {
    if keys == {} then []
    else
      ghost var least := MinOf(keys);
      var m :| IsMin(m, keys);
      [m] + SortedIds(keys - {m})
  }

  predicate Increasing(r: seq<Id>)
  {
    forall i, j :: 0 <= i < j < |r| ==> r[i] < r[j]
  }

  /** The listing is strictly increasing, so no key appears twice. */
  lemma {:induction false} SortedIdsIncreasing(keys: set<Id>)
    ensures Increasing(SortedIds(keys))
    decreases |keys|
  {
    if keys != {} {
      var r := SortedIds(keys);
      var m := r[0];
      var rest := SortedIds(keys - {m});
      assert r == [m] + rest;
      assert IsMin(m, keys);
      forall k | k in rest ensures m < k {
        assert k in keys - {m};
      }
      SortedIdsIncreasing(keys - {m});
      IncreasingPrepend(m, rest);
    }
  }

  lemma IncreasingPrepend(m: Id, rest: seq<Id>)
    requires Increasing(rest) && forall k :: k in rest ==> m < k
    ensures Increasing([m] + rest)
  {
    var r := [m] + rest;
    forall i, j | 0 <= i < j < |r| ensures r[i] < r[j] {
      assert r[j] == rest[j - 1] && rest[j - 1] in rest;
      if i > 0 { assert r[i] == rest[i - 1]; }
    }
  }

  ghost predicate KeysBelow<V>(m: map<Id, V>, next: Id)
  {
    forall k :: k in m ==> k < next
  }

  ghost predicate ItemIdsBelow(items: seq<ItemRow>, next: Id)
  {
    forall i :: 0 <= i < |items| ==> items[i].id < next
  }

  /** business_code and recovery_contact are unique columns. */
  ghost predicate BusinessesUnique(businesses: map<Id, BusinessRow>)
  {
    forall b, b' :: BusinessesDiffer(businesses, b, b')
  }

  /**
   * Two distinct businesses differ in both unique columns. The uniqueness
   * rules quantify over such pair predicates, so that a proof meets a pair
   * only when it names it.
   */
  predicate BusinessesDiffer(businesses: map<Id, BusinessRow>, b: Id, b': Id)
  {
    b in businesses && b' in businesses && b != b' ==>
      businesses[b].businessCode != businesses[b'].businessCode &&
      businesses[b].recoveryContact != businesses[b'].recoveryContact
  }

  /** Categories belong to a business and (business, category_code) is unique. */
  ghost predicate CategoriesWellFormed(categories: map<Id, CategoryRow>, businesses: map<Id, BusinessRow>)
  {
    && (forall c :: c in categories ==> categories[c].business in businesses)
    && (forall c, c' :: CategoriesDiffer(categories, c, c'))
  }

  /** Two distinct categories of one business have different codes. */
  predicate CategoriesDiffer(categories: map<Id, CategoryRow>, c: Id, c': Id)
  {
    c in categories && c' in categories && c != c' && categories[c].business == categories[c'].business
    ==> categories[c].categoryCode != categories[c'].categoryCode
  }

  /**
   * Products belong to a business, point at an existing category and carry a
   * product code unique within their business.
   */
  ghost predicate ProductsWellFormed(products: map<Id, ProductRow>, categories: map<Id, CategoryRow>,
                               businesses: map<Id, BusinessRow>)
  {
    && (forall p :: p in products ==> products[p].business in businesses)
    && (forall p :: p in products && products[p].category.Some? ==> products[p].category.value in categories)
    && (forall p :: p in products ==> products[p].productCode != "")
    && (forall p, p' :: ProductsDiffer(products, p, p'))
  }

  /** Two distinct products of one business have different codes. */
  predicate ProductsDiffer(products: map<Id, ProductRow>, p: Id, p': Id)
  {
    p in products && p' in products && p != p' && products[p].business == products[p'].business
    ==> products[p].productCode != products[p'].productCode
  }

  /** Orders are stored under their own id, belong to a business and carry a unique, non-empty code. */
  ghost predicate OrdersWellFormed(orders: map<Id, OrderRow>, businesses: map<Id, BusinessRow>)
  {
    && (forall o :: o in orders ==> orders[o].id == o && orders[o].business in businesses)
    && (forall o :: o in orders ==> orders[o].orderCode != "")
    && (forall o, o' :: OrdersDiffer(orders, o, o'))
  }

  /** Two distinct orders have different codes. */
  predicate OrdersDiffer(orders: map<Id, OrderRow>, o: Id, o': Id)
  {
    o in orders && o' in orders && o != o' ==> orders[o].orderCode != orders[o'].orderCode
  }

  /** Items point at an existing order and product, have distinct ids and carry their derived amounts. */
  ghost predicate ItemsWellFormed(items: seq<ItemRow>, orders: map<Id, OrderRow>, products: map<Id, ProductRow>)
  {
    && (forall i :: 0 <= i < |items| ==> items[i].order in orders && items[i].product in products)
    && (forall i, j :: ItemsDiffer(items, i, j))
    && (forall i :: 0 <= i < |items| ==> AmountsDerived(items[i]))
  }

  /** Two items at different positions have different ids. */
  predicate ItemsDiffer(items: seq<ItemRow>, i: int, j: int)
  {
    0 <= i < j < |items| ==> items[i].id != items[j].id
  }

  /** An order's total_amount is the sum of its items' subtotals. */
  ghost predicate TotalsConsistent(orders: map<Id, OrderRow>, items: seq<ItemRow>)
  {
    forall o :: o in orders ==> orders[o].totalAmount == SumSubtotals(ItemsOf(items, o))
  }

  /** The tables of the database: one map per table, keyed by primary key, and the key counter. */
  datatype Tables = Tables(
    businesses: map<Id, BusinessRow>,
    categories: map<Id, CategoryRow>,
    products: map<Id, ProductRow>,
    /** Keyed by product: each product has at most one inventory. */
    inventories: map<Id, InventoryRow>,
    orders: map<Id, OrderRow>,
    items: seq<ItemRow>,
    /** The next primary key handed out, above every key in use. */
    nextId: Id)

  /** The empty database. */
  const Empty := Tables(map[], map[], map[], map[], map[], [], 1)

  /**
   * The database constraints and derived-value rules; every product has its
   * inventory (created with it).
   */
  ghost predicate TablesValid(t: Tables)
  {
    && KeysBelow(t.businesses, t.nextId) && KeysBelow(t.categories, t.nextId)
    && KeysBelow(t.products, t.nextId) && KeysBelow(t.orders, t.nextId) && ItemIdsBelow(t.items, t.nextId)
    && BusinessesUnique(t.businesses)
    && CategoriesWellFormed(t.categories, t.businesses)
    && ProductsWellFormed(t.products, t.categories, t.businesses)
    && t.inventories.Keys == t.products.Keys
    && OrdersWellFormed(t.orders, t.businesses)
    && ItemsWellFormed(t.items, t.orders, t.products)
  }

  /** `TablesValid` and every order's total agrees with its items (true between requests). */
  ghost predicate TablesConsistent(t: Tables)
  {
    TablesValid(t) && TotalsConsistent(t.orders, t.items)
  }

  // Frame lemmas: each says which part of `TablesValid` survives one kind of change.

  /** A row inserted under the next key keeps every key below the raised counter. */
  lemma KeysBelowInsert<V>(m: map<Id, V>, next: Id, v: V)
    requires KeysBelow(m, next)
    ensures next !in m && KeysBelow(m[next := v], next + 1)
  {
  }

  lemma KeysBelowRaise<V>(m: map<Id, V>, next: Id)
    requires KeysBelow(m, next)
    ensures KeysBelow(m, next + 1)
  {
  }

  /** Overwriting an existing row keeps the table's keys. */
  lemma KeysUpdate<V>(m: map<Id, V>, k: Id, v: V)
    requires k in m
    ensures m[k := v].Keys == m.Keys
  {
  }

  lemma ItemIdsBelowRaise(items: seq<ItemRow>, next: Id)
    requires ItemIdsBelow(items, next)
    ensures ItemIdsBelow(items, next + 1)
  {
  }

  /** Items keep their references while the order and product tables only gain keys. */
  lemma ItemsGrowParents(items: seq<ItemRow>, orders: map<Id, OrderRow>, products: map<Id, ProductRow>,
                         orders': map<Id, OrderRow>, products': map<Id, ProductRow>)
    requires ItemsWellFormed(items, orders, products)
    requires orders.Keys <= orders'.Keys && products.Keys <= products'.Keys
    ensures ItemsWellFormed(items, orders', products')
  {
  }

  /** Products keep their references while the category and business tables only gain keys. */
  lemma ProductsGrowParents(products: map<Id, ProductRow>, categories: map<Id, CategoryRow>, businesses: map<Id, BusinessRow>,
                            categories': map<Id, CategoryRow>, businesses': map<Id, BusinessRow>)
    requires ProductsWellFormed(products, categories, businesses)
    requires categories.Keys <= categories'.Keys && businesses.Keys <= businesses'.Keys
    ensures ProductsWellFormed(products, categories', businesses')
  {
  }

  lemma CategoriesGrowBusinesses(categories: map<Id, CategoryRow>, businesses: map<Id, BusinessRow>,
                                 businesses': map<Id, BusinessRow>)
    requires CategoriesWellFormed(categories, businesses) && businesses.Keys <= businesses'.Keys
    ensures CategoriesWellFormed(categories, businesses')
  {
  }

  lemma OrdersGrowBusinesses(orders: map<Id, OrderRow>, businesses: map<Id, BusinessRow>,
                             businesses': map<Id, BusinessRow>)
    requires OrdersWellFormed(orders, businesses) && businesses.Keys <= businesses'.Keys
    ensures OrdersWellFormed(orders, businesses')
  {
  }

  /** The database: the tables, which every persisting operation replaces. */
  class Store {
    var tables: Tables

    constructor ()
      ensures tables == Empty && Valid()
    {
      tables := Empty;
    }

    ghost predicate Valid()
      reads this
    {
      TablesValid(tables)
    }

    ghost predicate Consistent()
      reads this
    {
      TablesConsistent(tables)
    }
  }
}

/**
 * Orders and their line items: `OrderItem.save` (the price and cost snapshot,
 * `calculate_subtotal`, and the stock it takes), `Order.save` (the order code
 * made on first save and the unique code column) and `Order.calculate_total`.
 * The random surrogate id and the calendar day and hour of the order date
 * enter as parameters.
 */
module Orders {
  import opened Wrappers
  import opened Schema
  import opened Stock
  import opened OrderCodes

  datatype OrderError = CodeInUse

  /** A line item as submitted: product, quantity, and a price and cost where 0 means "take the product's". */
  datatype ItemInput = ItemInput(product: Id, quantity: real, price: int, cost: int)

  /** `calculate_subtotal`: subtotal = price × quantity, profit = (price − cost) × quantity. */
  function CalculateSubtotal(it: ItemRow): (r: ItemRow)
    ensures AmountsDerived(r)
    ensures r.(subtotal := it.subtotal, profit := it.profit) == it
  {
    it.(subtotal := it.price as real * it.quantity, profit := (it.price - it.cost) as real * it.quantity)
  }

  /**
   * An item already carries its derived amounts exactly when recomputing them
   * changes nothing; so a second `calculate_subtotal` is a no-op, and the profit
   * is the subtotal less the cost of the quantity.
   */
  lemma SubtotalFixedPoint(it: ItemRow)
    ensures AmountsDerived(it) <==> CalculateSubtotal(it) == it
    ensures CalculateSubtotal(CalculateSubtotal(it)) == CalculateSubtotal(it)
    ensures CalculateSubtotal(it).profit == CalculateSubtotal(it).subtotal - it.cost as real * it.quantity
  {
  }

  /**
   * `OrderItem.save`'s `if not self.x: self.x = self.product.x`, for the price
   * and for the cost alike: a zero (falsy) submitted value takes the product's
   * current one, any other is kept.
   */
  function Snapshot(given: int, current: int): (v: int)
    ensures given != 0 ==> v == given
    ensures given == 0 ==> v == current
  {
    if given == 0 then current else given
  }

  /** The row `OrderItem.save` inserts: the price and cost snapshot, then the derived amounts. */
  function SnapshotItem(id: Id, order: Id, input: ItemInput, p: ProductRow): (r: ItemRow)
    ensures r.id == id && r.order == order && r.product == input.product && r.quantity == input.quantity
    ensures r.price == Snapshot(input.price, p.price) && r.cost == Snapshot(input.cost, p.cost)
    ensures AmountsDerived(r)
  {
    CalculateSubtotal(ItemRow(id, order, input.product, input.quantity, Snapshot(input.price, p.price), Snapshot(input.cost, p.cost), 0.0, 0.0))
  }

  /** The subtotal an item submitted against product `p` ends up with. */
  function LineSubtotal(input: ItemInput, p: ProductRow): real
  {
    Snapshot(input.price, p.price) as real * input.quantity
  }

  lemma SnapshotSubtotal(id: Id, order: Id, input: ItemInput, p: ProductRow)
    ensures SnapshotItem(id, order, input, p).subtotal == LineSubtotal(input, p)
  {
  }

  /**
   * `OrderItem.objects.create(order=order, **input)` on the tables: the item is
   * appended under the next key, then the product's stock is reduced by the
   * quantity; a refused removal (too little stock) leaves the stock as it was
   * and the item stays.
   */
  function WithItem(t: Tables, order: Id, input: ItemInput): (r: Tables)
    requires input.product in t.products && input.product in t.inventories
  {
    var p := t.products[input.product];
    var inv := t.inventories[input.product];
    t.(items := t.items + [SnapshotItem(t.nextId, order, input, p)],
       nextId := t.nextId + 1,
       inventories := t.inventories[input.product :=
         inv.(quantity := Removed(inv.quantity, p.unlimitedStock, input.quantity).quantity)])
  }

  /** An item with a fresh id, existing parents and derived amounts keeps the tables valid. */
  lemma ItemAppendKeepsTables(t: Tables, row: ItemRow)
    requires TablesValid(t)
    requires row.id == t.nextId && row.order in t.orders && row.product in t.products && AmountsDerived(row)
    ensures TablesValid(t.(items := t.items + [row], nextId := t.nextId + 1))
  {
    var items := t.items + [row];
    KeysBelowRaise(t.businesses, t.nextId);
    KeysBelowRaise(t.categories, t.nextId);
    KeysBelowRaise(t.products, t.nextId);
    KeysBelowRaise(t.orders, t.nextId);
    forall i, j ensures ItemsDiffer(items, i, j) {
      if j < |t.items| {
        assert ItemsDiffer(t.items, i, j);
      }
    }
    assert forall i :: 0 <= i < |t.items| ==> items[i] == t.items[i];
  }

  /** `OrderItem.objects.create` */
  method CreateItem(db: Store, order: Id, input: ItemInput)
    requires db.Valid() && order in db.tables.orders && input.product in db.tables.products
    modifies db
    ensures db.Valid()
    ensures db.tables == WithItem(old(db.tables), order, input)
  {
    var p := db.tables.products[input.product];
    var row := SnapshotItem(db.tables.nextId, order, input, p);
    ItemAppendKeepsTables(db.tables, row);
    db.tables := db.tables.(items := db.tables.items + [row], nextId := db.tables.nextId + 1);
    if !p.unlimitedStock {
      var _ := RemoveStock(db, input.product, input.quantity);
    } else {
      var inv := db.tables.inventories[input.product];
      assert db.tables.inventories[input.product := inv.(quantity := Removed(inv.quantity, true, input.quantity).quantity)]
             == db.tables.inventories;
    }
  }

  /** The items of `inputs` created in turn for `order`. */
  function WithItems(t: Tables, order: Id, inputs: seq<ItemInput>): (r: Tables)
    requires forall i :: 0 <= i < |inputs| ==> inputs[i].product in t.products
    requires t.inventories.Keys == t.products.Keys
    ensures r.businesses == t.businesses && r.categories == t.categories && r.products == t.products
    ensures r.orders == t.orders && r.inventories.Keys == t.inventories.Keys
    ensures r.nextId == t.nextId + |inputs|
    decreases |inputs|
  {
    if inputs == [] then t
    else
      var front := WithItems(t, order, inputs[..|inputs| - 1]);
      WithItem(front, order, inputs[|inputs| - 1])
  }

  /** `for item_data in items_data: OrderItem.objects.create(order=order, **item_data)` */
  method CreateItems(db: Store, order: Id, inputs: seq<ItemInput>)
    requires db.Valid() && order in db.tables.orders
    requires forall i :: 0 <= i < |inputs| ==> inputs[i].product in db.tables.products
    modifies db
    ensures db.Valid()
    ensures db.tables == WithItems(old(db.tables), order, inputs)
  {
    ghost var t := db.tables;
    var i := 0;
    while i < |inputs|
      invariant 0 <= i <= |inputs|
      invariant db.Valid() && db.tables == WithItems(t, order, inputs[..i])
    {
      WithItemsStep(t, order, inputs, i);
      CreateItem(db, order, inputs[i]);
      i := i + 1;
    }
    assert inputs[..i] == inputs;
  }

  lemma WithItemsStep(t: Tables, order: Id, inputs: seq<ItemInput>, i: nat)
    requires i < |inputs| && forall j :: 0 <= j < |inputs| ==> inputs[j].product in t.products
    requires t.inventories.Keys == t.products.Keys
    ensures inputs[i].product in WithItems(t, order, inputs[..i]).products
    ensures WithItems(t, order, inputs[..i + 1]) == WithItem(WithItems(t, order, inputs[..i]), order, inputs[i])
  {
    assert inputs[..i + 1][..i] == inputs[..i] && inputs[..i + 1][i] == inputs[i];
  }

  /** Creating items one after another keeps the tables valid. */
  lemma {:induction false} WithItemsKeepsTables(t: Tables, order: Id, inputs: seq<ItemInput>)
    requires TablesValid(t) && order in t.orders
    requires forall i :: 0 <= i < |inputs| ==> inputs[i].product in t.products
    ensures TablesValid(WithItems(t, order, inputs))
    decreases |inputs|
  {
    if inputs != [] {
      var front := WithItems(t, order, inputs[..|inputs| - 1]);
      WithItemsKeepsTables(t, order, inputs[..|inputs| - 1]);
      var input := inputs[|inputs| - 1];
      ItemAppendKeepsTables(front, SnapshotItem(front.nextId, order, input, front.products[input.product]));
      var t1 := front.(items := front.items + [SnapshotItem(front.nextId, order, input, front.products[input.product])],
                       nextId := front.nextId + 1);
      var inv := t1.inventories[input.product];
      InventoryWriteKeepsTables(t1, input.product,
        inv.(quantity := Removed(inv.quantity, t1.products[input.product].unlimitedStock, input.quantity).quantity));
    }
  }

  /** The sum of the subtotals the inputs produce against the products table. */
  function InputsTotal(products: map<Id, ProductRow>, inputs: seq<ItemInput>): real
    requires forall i :: 0 <= i < |inputs| ==> inputs[i].product in products
    decreases |inputs|
  {
    if inputs == [] then 0.0
    else InputsTotal(products, inputs[..|inputs| - 1]) + LineSubtotal(inputs[|inputs| - 1], products[inputs[|inputs| - 1].product])
  }

  /** The created items belong to `order`: its items gain exactly the inputs' subtotals. */
  lemma {:induction false} WithItemsTotal(t: Tables, order: Id, inputs: seq<ItemInput>)
    requires forall i :: 0 <= i < |inputs| ==> inputs[i].product in t.products
    requires t.inventories.Keys == t.products.Keys
    ensures SumSubtotals(ItemsOf(WithItems(t, order, inputs).items, order)) ==
              SumSubtotals(ItemsOf(t.items, order)) + InputsTotal(t.products, inputs)
    decreases |inputs|
  {
    if inputs != [] {
      var front := WithItems(t, order, inputs[..|inputs| - 1]);
      WithItemsTotal(t, order, inputs[..|inputs| - 1]);
      var input := inputs[|inputs| - 1];
      var row := SnapshotItem(front.nextId, order, input, t.products[input.product]);
      assert WithItems(t, order, inputs) == WithItem(front, order, input);
      assert WithItems(t, order, inputs).items == front.items + [row];
      ItemsOfAppend(front.items, [row], order);
      assert ItemsOf([row], order) == [row];
      SumSubtotalsAppend(ItemsOf(front.items, order), [row]);
      assert SumSubtotals([row]) == row.subtotal;
      SnapshotSubtotal(front.nextId, order, input, t.products[input.product]);
    }
  }

  /** Every other order keeps its items while items are created for `order`. */
  lemma {:induction false} WithItemsOthers(t: Tables, order: Id, inputs: seq<ItemInput>, other: Id)
    requires forall i :: 0 <= i < |inputs| ==> inputs[i].product in t.products
    requires t.inventories.Keys == t.products.Keys
    requires other != order
    ensures ItemsOf(WithItems(t, order, inputs).items, other) == ItemsOf(t.items, other)
    decreases |inputs|
  {
    if inputs != [] {
      var front := WithItems(t, order, inputs[..|inputs| - 1]);
      WithItemsOthers(t, order, inputs[..|inputs| - 1], other);
      var input := inputs[|inputs| - 1];
      var row := SnapshotItem(front.nextId, order, input, front.products[input.product]);
      assert WithItems(t, order, inputs).items == front.items + [row];
      ItemsOfAppend(front.items, [row], other);
      assert ItemsOf([row], other) == [];
    }
  }

  /** The quantities the inputs order of one product, in input order. */
  function QuantitiesOf(inputs: seq<ItemInput>, product: Id): seq<real>
    decreases |inputs|
  {
    if inputs == [] then []
    else QuantitiesOf(inputs[..|inputs| - 1], product) +
         (if inputs[|inputs| - 1].product == product then [inputs[|inputs| - 1].quantity] else [])
  }

  lemma {:induction false} RemoveSeriesAppend(quantity: real, unlimited: bool, amounts: seq<real>, amount: real)
    ensures RemoveSeries(quantity, unlimited, amounts + [amount]) ==
              Removed(RemoveSeries(quantity, unlimited, amounts), unlimited, amount).quantity
    decreases amounts
  {
    if amounts != [] {
      assert (amounts + [amount])[1..] == amounts[1..] + [amount];
      RemoveSeriesAppend(Removed(quantity, unlimited, amounts[0]).quantity, unlimited, amounts[1..], amount);
    } else {
      assert (amounts + [amount])[1..] == [];
    }
  }

  /**
   * Each product's stock ends where the series of `remove_stock` calls for its
   * quantities, in order, leaves it (unchanged for unlimited stock).
   */
  lemma {:induction false} WithItemsStock(t: Tables, order: Id, inputs: seq<ItemInput>, product: Id)
    requires forall i :: 0 <= i < |inputs| ==> inputs[i].product in t.products
    requires t.inventories.Keys == t.products.Keys && product in t.products
    ensures WithItems(t, order, inputs).inventories[product].quantity ==
              RemoveSeries(t.inventories[product].quantity, t.products[product].unlimitedStock, QuantitiesOf(inputs, product))
    ensures WithItems(t, order, inputs).inventories[product].lowStockThreshold == t.inventories[product].lowStockThreshold
    decreases |inputs|
  {
    if inputs != [] {
      var front := WithItems(t, order, inputs[..|inputs| - 1]);
      WithItemsStock(t, order, inputs[..|inputs| - 1], product);
      var input := inputs[|inputs| - 1];
      assert WithItems(t, order, inputs) == WithItem(front, order, input);
      if input.product == product {
        assert QuantitiesOf(inputs, product) == QuantitiesOf(inputs[..|inputs| - 1], product) + [input.quantity];
        RemoveSeriesAppend(t.inventories[product].quantity, t.products[product].unlimitedStock,
                           QuantitiesOf(inputs[..|inputs| - 1], product), input.quantity);
        var inv := front.inventories[product];
        assert WithItem(front, order, input).inventories[product] ==
               inv.(quantity := Removed(inv.quantity, t.products[product].unlimitedStock, input.quantity).quantity);
      } else {
        assert QuantitiesOf(inputs, product) == QuantitiesOf(inputs[..|inputs| - 1], product) + [];
        assert QuantitiesOf(inputs, product) == QuantitiesOf(inputs[..|inputs| - 1], product);
        assert WithItem(front, order, input).inventories[product] == front.inventories[product];
      }
    }
  }

  /** The tables once `calculate_total` has stored the sum of the order's item subtotals. */
  function Totalled(t: Tables, order: Id): (r: Tables)
    requires order in t.orders
    ensures r.items == t.items && r.orders.Keys == t.orders.Keys
  {
    t.(orders := t.orders[order := t.orders[order].(totalAmount := SumSubtotals(ItemsOf(t.items, order)))])
  }

  /** Rewriting an order under its own key with its own code and an existing business keeps the tables valid. */
  lemma OrderRewriteKeepsTables(t: Tables, order: Id, row: OrderRow)
    requires TablesValid(t) && order in t.orders
    requires row.id == order && row.orderCode == t.orders[order].orderCode && row.business in t.businesses
    ensures TablesValid(t.(orders := t.orders[order := row]))
  {
    var orders := t.orders[order := row];
    KeysUpdate(t.orders, order, row);
    forall o, o' ensures OrdersDiffer(orders, o, o') {
      assert OrdersDiffer(t.orders, o, o');
    }
    ItemsGrowParents(t.items, t.orders, t.products, orders, t.products);
  }

  /**
   * `calculate_total`: sum the subtotals of the order's items (0 for none) and
   * store the sum; the `save()` that follows keeps the order's non-empty code.
   */
  method CalculateTotal(db: Store, order: Id)
    requires db.Valid() && order in db.tables.orders
    modifies db
    ensures db.Valid()
    ensures db.tables == Totalled(old(db.tables), order)
  {
    var t := db.tables;
    var items := t.items;
    var total := 0.0;
    var i := 0;
    while i < |items|
      invariant 0 <= i <= |items|
      invariant total == SumSubtotals(ItemsOf(items[..i], order))
    {
      assert items[..i + 1] == items[..i] + [items[i]];
      ItemsOfAppend(items[..i], [items[i]], order);
      SumSubtotalsAppend(ItemsOf(items[..i], order), ItemsOf([items[i]], order));
      if items[i].order == order {
        total := total + items[i].subtotal;
      }
      i := i + 1;
    }
    assert items[..i] == items;
    var row := t.orders[order].(totalAmount := total);
    OrderRewriteKeepsTables(t, order, row);
    db.tables := t.(orders := t.orders[order := row]);
  }

  /** Every order other than `order` has the total of its items. */
  ghost predicate TotalsConsistentExcept(orders: map<Id, OrderRow>, items: seq<ItemRow>, order: Id)
  {
    forall o :: o in orders && o != order ==> orders[o].totalAmount == SumSubtotals(ItemsOf(items, o))
  }

  /** `calculate_total` restores consistency once only its order's total was out of date. */
  lemma TotalledConsistent(t: Tables, order: Id)
    requires order in t.orders && TotalsConsistentExcept(t.orders, t.items, order)
    ensures TotalsConsistent(Totalled(t, order).orders, Totalled(t, order).items)
    ensures Totalled(t, order).orders[order].totalAmount == SumSubtotals(ItemsOf(t.items, order))
  {
  }

  /** On consistent tables `calculate_total` changes nothing. */
  lemma TotalledIdempotent(t: Tables, order: Id)
    requires order in t.orders && TotalsConsistent(t.orders, t.items)
    ensures Totalled(t, order) == t
  {
    assert t.orders[order := t.orders[order]] == t.orders;
  }

  /** Creating items for `order` keeps every other order's total right. */
  lemma WithItemsConsistentExcept(t: Tables, order: Id, inputs: seq<ItemInput>)
    requires forall i :: 0 <= i < |inputs| ==> inputs[i].product in t.products
    requires t.inventories.Keys == t.products.Keys
    requires TotalsConsistentExcept(t.orders, t.items, order)
    ensures TotalsConsistentExcept(WithItems(t, order, inputs).orders, WithItems(t, order, inputs).items, order)
  {
    forall o | o in t.orders && o != order
      ensures ItemsOf(WithItems(t, order, inputs).items, o) == ItemsOf(t.items, o)
    {
      WithItemsOthers(t, order, inputs, o);
    }
  }

  /** The order code a save stores: the existing one, or one made from the id (or the draw) and the order date. */
  function SavedOrderCode(key: Option<Id>, row: OrderRow, draw: int, dayOfYear: int, hour: int): (code: string)
    requires 1 <= draw && 1 <= dayOfYear <= 366 && 0 <= hour <= 23
    ensures row.orderCode != "" ==> code == row.orderCode
    ensures row.orderCode == "" ==> code == GenerateOrderCode(if key.Some? then key.value else draw, dayOfYear, hour)
    ensures code != ""
  {
    if row.orderCode != "" then row.orderCode
    else GenerateOrderCode(if key.Some? then key.value else draw, dayOfYear, hour)
  }

  predicate CodeUsedElsewhere(orders: map<Id, OrderRow>, code: string, key: Id)
  {
    exists o :: o in orders && o != key && orders[o].orderCode == code
  }

  /**
   * `Order.save`: an empty code is generated first (from the id when the row
   * has one, else from a random draw in [1, 1000000]); the row is then written
   * under its key, or inserted under the next key, unless another order holds
   * the code (the unique column refuses it).
   */
  function OrderSave(t: Tables, key: Option<Id>, row: OrderRow, draw: int, dayOfYear: int, hour: int): (r: (Result<Id, OrderError>, Tables))
    requires key.Some? ==> key.value in t.orders
    requires 1 <= draw <= 1_000_000 && 1 <= dayOfYear <= 366 && 0 <= hour <= 23
    ensures r.1.businesses == t.businesses && r.1.categories == t.categories && r.1.products == t.products
    ensures r.1.inventories == t.inventories && r.1.items == t.items
    ensures r.0.Failure? ==> r.1 == t
    ensures r.0.Success? ==> r.0.value in r.1.orders
  {
    var k := if key.Some? then key.value else t.nextId;
    var code := SavedOrderCode(key, row, draw, dayOfYear, hour);
    if CodeUsedElsewhere(t.orders, code, k) then (Failure(CodeInUse), t)
    else (Success(k), t.(orders := t.orders[k := row.(id := k, orderCode := code)],
                         nextId := if key.Some? then t.nextId else t.nextId + 1))
  }

  /** A new order with an unused, non-empty code under the next key keeps the tables valid. */
  lemma OrderInsertKeepsTables(t: Tables, row: OrderRow)
    requires TablesValid(t) && row.business in t.businesses && row.id == t.nextId && row.orderCode != ""
    requires !CodeUsedElsewhere(t.orders, row.orderCode, t.nextId)
    ensures TablesValid(t.(orders := t.orders[t.nextId := row], nextId := t.nextId + 1))
  {
    var orders := t.orders[t.nextId := row];
    KeysBelowInsert(t.orders, t.nextId, row);
    KeysBelowRaise(t.businesses, t.nextId);
    KeysBelowRaise(t.categories, t.nextId);
    KeysBelowRaise(t.products, t.nextId);
    ItemIdsBelowRaise(t.items, t.nextId);
    forall o, o' ensures OrdersDiffer(orders, o, o') {
      if o != t.nextId && o' != t.nextId {
        assert OrdersDiffer(t.orders, o, o');
      }
    }
    ItemsGrowParents(t.items, t.orders, t.products, orders, t.products);
  }

  /** An order rewritten under its key with a non-empty code no other order holds keeps the tables valid. */
  lemma OrderUpdateKeepsTables(t: Tables, k: Id, row: OrderRow)
    requires TablesValid(t) && k in t.orders && row.business in t.businesses && row.id == k && row.orderCode != ""
    requires !CodeUsedElsewhere(t.orders, row.orderCode, k)
    ensures TablesValid(t.(orders := t.orders[k := row]))
  {
    var orders := t.orders[k := row];
    KeysUpdate(t.orders, k, row);
    forall o, o' ensures OrdersDiffer(orders, o, o') {
      if o != k && o' != k {
        assert OrdersDiffer(t.orders, o, o');
      }
    }
    ItemsGrowParents(t.items, t.orders, t.products, orders, t.products);
  }

  /** `order.save()` */
  method SaveOrder(db: Store, key: Option<Id>, row: OrderRow, draw: int, dayOfYear: int, hour: int) returns (r: Result<Id, OrderError>)
    requires db.Valid() && row.business in db.tables.businesses
    requires key.Some? ==> key.value in db.tables.orders
    requires 1 <= draw <= 1_000_000 && 1 <= dayOfYear <= 366 && 0 <= hour <= 23
    modifies db
    ensures db.Valid()
    ensures (r, db.tables) == OrderSave(old(db.tables), key, row, draw, dayOfYear, hour)
  {
    var t := db.tables;
    var k := if key.Some? then key.value else t.nextId;
    var code := if row.orderCode != "" then row.orderCode
                else GenerateOrderCode(if key.Some? then key.value else draw, dayOfYear, hour);
    if CodeUsedElsewhere(t.orders, code, k) {
      r := Failure(CodeInUse);
    } else if key.Some? {
      OrderUpdateKeepsTables(t, k, row.(id := k, orderCode := code));
      r := Success(k);
      db.tables := t.(orders := t.orders[k := row.(id := k, orderCode := code)]);
    } else {
      OrderInsertKeepsTables(t, row.(id := k, orderCode := code));
      r := Success(k);
      db.tables := t.(orders := t.orders[k := row.(id := k, orderCode := code)], nextId := t.nextId + 1);
    }
  }

  /**
   * A save succeeds exactly when no other order holds the code it stores; a
   * new order gets the next key, and the stored row is the given one with its
   * id and code filled in, the code nine characters long and starting "FZ-"
   * when it was generated.
   */
  lemma OrderSaveSpec(t: Tables, key: Option<Id>, row: OrderRow, draw: int, dayOfYear: int, hour: int)
    requires TablesValid(t)
    requires key.Some? ==> key.value in t.orders
    requires 1 <= draw <= 1_000_000 && 1 <= dayOfYear <= 366 && 0 <= hour <= 23
    ensures var (r, t') := OrderSave(t, key, row, draw, dayOfYear, hour);
            var k := if key.Some? then key.value else t.nextId;
            var code := SavedOrderCode(key, row, draw, dayOfYear, hour);
            && (r.Success? <==> !CodeUsedElsewhere(t.orders, code, k))
            && (r.Success? ==> r.value == k && t'.orders == t.orders[k := row.(id := k, orderCode := code)])
            && (key.None? ==> k !in t.orders)
            && (row.orderCode == "" ==> |code| == 9 && code[..3] == "FZ-")
  {
    var k := if key.Some? then key.value else t.nextId;
    if row.orderCode == "" {
      OrderCodeShape(if key.Some? then key.value else draw, dayOfYear, hour);
    }
  }

  /** The code a new order generated in the given hour of the year gets for a check number. */
  function HourCode(dayOfYear: int, hour: int, check: nat): string
    requires 1 <= dayOfYear <= 366 && 0 <= hour <= 23 && check < 100
  {
    var t := HourOfYear(dayOfYear, hour);
    "FZ-" + Mid(t) + "-" + Check(check)
  }

  /**
   * A new order's code depends on the draw only through a check number below
   * 100: once the hundred codes of an hour of the year are in use (in any year),
   * every further new order in that hour is refused, whatever the draw.
   */
  lemma HourCodesExhausted(t: Tables, row: OrderRow, draw: int, dayOfYear: int, hour: int)
    requires row.orderCode == ""
    requires 1 <= draw <= 1_000_000 && 1 <= dayOfYear <= 366 && 0 <= hour <= 23
    requires forall c :: 0 <= c < 100 ==> exists o :: o in t.orders && t.orders[o].orderCode == HourCode(dayOfYear, hour, c)
    requires KeysBelow(t.orders, t.nextId)
    ensures OrderSave(t, None, row, draw, dayOfYear, hour).0 == Failure(CodeInUse)
  {
    var c := CheckNumber(draw, HourOfYear(dayOfYear, hour));
    var code := SavedOrderCode(None, row, draw, dayOfYear, hour);
    assert code == HourCode(dayOfYear, hour, c);
    var o :| o in t.orders && t.orders[o].orderCode == HourCode(dayOfYear, hour, c);
    assert o != t.nextId;
    assert CodeUsedElsewhere(t.orders, code, t.nextId);
  }
}

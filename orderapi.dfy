/**
 * The order endpoints: `OrderSerializer.create` and `.update`, the open-order
 * listing of `OrderViewSet.get_queryset`, `deliver` and `monthly_sales`.
 * Detail endpoints see only the open orders of the requesting business.
 */
module OrderApi {
  import opened Wrappers
  import opened Schema
  import opened Stock
  import opened Sorting
  import opened Orders

  datatype ApiError =
    | NotFound             // no open order of the requesting business under that key (404)
    | UnknownProduct       // an item names a product that does not exist (400)
    | DuplicateOrderCode   // the generated code is already used (the unique column refuses it)

  /** The writable order fields of a new order; absent optional fields are None. */
  datatype OrderInput = OrderInput(
    customerType: CustomerType,
    source: OrderSource,
    customerName: string,
    customerPhone: string,
    customerAddress: string,
    orderDate: Option<int>,
    deliveryDate: Option<int>,
    description: Option<string>,
    status: Option<OrderStatus>)

  /** `PrimaryKeyRelatedField(queryset=Product.objects.all())`: any existing product, of any business. */
  predicate ProductsExist(products: map<Id, ProductRow>, inputs: seq<ItemInput>)
  {
    forall i :: 0 <= i < |inputs| ==> inputs[i].product in products
  }

  /** The unsaved order: no code yet, total 0, open unless told otherwise, dated now unless told otherwise. */
  function NewOrderRow(business: Id, input: OrderInput, now: int): (o: OrderRow)
    ensures o.orderCode == "" && o.totalAmount == 0.0 && o.business == business && o.createdAt == now
    ensures o.status == input.status.GetOr(Open) && o.orderDate == input.orderDate.GetOr(now)
  {
    OrderRow(0, business, "", input.customerType, input.source, input.customerName, input.customerPhone,
             input.customerAddress, input.orderDate.GetOr(now), input.deliveryDate, input.description,
             0.0, input.status.GetOr(Open), now)
  }

  /**
   * `OrderSerializer.create` on the tables: validate the items' products,
   * insert the order (its code made from the draw and the order date), create
   * each item in turn, then `calculate_total`.
   */
  function CreateOutcome(t: Tables, business: Id, input: OrderInput, items: seq<ItemInput>, now: int,
                         draw: int, dayOfYear: int, hour: int): (r: (Result<Id, ApiError>, Tables))
    requires TablesValid(t) && business in t.businesses
    requires 1 <= draw <= 1_000_000 && 1 <= dayOfYear <= 366 && 0 <= hour <= 23
    ensures r.0 == Failure(UnknownProduct) <==> !ProductsExist(t.products, items)
    ensures r.0.Failure? ==> r.1 == t
  {
    if !ProductsExist(t.products, items) then (Failure(UnknownProduct), t)
    else
      var saved := OrderSave(t, None, NewOrderRow(business, input, now), draw, dayOfYear, hour);
      if saved.0.Failure? then (Failure(DuplicateOrderCode), t)
      else
        var k := saved.0.value;
        (Success(k), Totalled(WithItems(saved.1, k, items), k))
  }

  /** `OrderViewSet.create` */
  method CreateOrder(db: Store, business: Id, input: OrderInput, items: seq<ItemInput>, now: int,
                     draw: int, dayOfYear: int, hour: int) returns (r: Result<Id, ApiError>)
    requires db.Valid() && business in db.tables.businesses
    requires 1 <= draw <= 1_000_000 && 1 <= dayOfYear <= 366 && 0 <= hour <= 23
    modifies db
    ensures db.Valid()
    ensures (r, db.tables) == CreateOutcome(old(db.tables), business, input, items, now, draw, dayOfYear, hour)
  {
    if !ProductsExist(db.tables.products, items) {
      return Failure(UnknownProduct);
    }
    var saved := SaveOrder(db, None, NewOrderRow(business, input, now), draw, dayOfYear, hour);
    if saved.Failure? {
      return Failure(DuplicateOrderCode);
    }
    var k := saved.value;
    CreateItems(db, k, items);
    CalculateTotal(db, k);
    r := Success(k);
  }

  /** A new order has no items yet: every stored item points at an existing order. */
  lemma NewOrderHasNoItems(t: Tables, k: Id)
    requires TablesValid(t) && k !in t.orders
    ensures ItemsOf(t.items, k) == []
  {
    forall it | it in t.items ensures it.order != k {
      var i :| 0 <= i < |t.items| && t.items[i] == it;
    }
    ItemsOfNone(t.items, k);
  }

  /**
   * A created order is new, holds a non-empty code, and its total is the sum of
   * its items' subtotals (each with the product's price where none was given);
   * every other order keeps its total, so consistent tables stay consistent.
   */
  lemma CreateSpec(t: Tables, business: Id, input: OrderInput, items: seq<ItemInput>, now: int,
                   draw: int, dayOfYear: int, hour: int)
    requires TablesConsistent(t) && business in t.businesses
    requires 1 <= draw <= 1_000_000 && 1 <= dayOfYear <= 366 && 0 <= hour <= 23
    requires CreateOutcome(t, business, input, items, now, draw, dayOfYear, hour).0.Success?
    ensures var (r, t') := CreateOutcome(t, business, input, items, now, draw, dayOfYear, hour);
            && r.value == t.nextId && r.value !in t.orders && r.value in t'.orders
            && t'.orders[r.value].orderCode != ""
            && t'.orders[r.value].totalAmount == InputsTotal(t.products, items)
            && t'.orders[r.value].status == input.status.GetOr(Open)
            && TotalsConsistent(t'.orders, t'.items)
  {
    var k := t.nextId;
    var row := NewOrderRow(business, input, now);
    OrderSaveSpec(t, None, row, draw, dayOfYear, hour);
    var t1 := OrderSave(t, None, row, draw, dayOfYear, hour).1;
    NewOrderHasNoItems(t, k);
    assert TotalsConsistentExcept(t1.orders, t1.items, k);
    WithItemsConsistentExcept(t1, k, items);
    WithItemsTotal(t1, k, items);
    TotalledConsistent(WithItems(t1, k, items), k);
  }

  /**
   * Creating an order takes each product's stock through the `remove_stock`
   * calls for its items' quantities in order; nothing else about stock changes.
   */
  lemma CreateStock(t: Tables, business: Id, input: OrderInput, items: seq<ItemInput>, now: int,
                    draw: int, dayOfYear: int, hour: int, product: Id)
    requires TablesValid(t) && business in t.businesses && product in t.products
    requires 1 <= draw <= 1_000_000 && 1 <= dayOfYear <= 366 && 0 <= hour <= 23
    requires CreateOutcome(t, business, input, items, now, draw, dayOfYear, hour).0.Success?
    ensures var t' := CreateOutcome(t, business, input, items, now, draw, dayOfYear, hour).1;
            t'.inventories[product].quantity ==
              RemoveSeries(t.inventories[product].quantity, t.products[product].unlimitedStock, QuantitiesOf(items, product))
  {
    var t1 := OrderSave(t, None, NewOrderRow(business, input, now), draw, dayOfYear, hour).1;
    WithItemsStock(t1, t.nextId, items, product);
  }

  /** The order fields `update` copies when present; the rest (notably order_date) stays. */
  datatype OrderPatch = OrderPatch(
    customerType: Option<CustomerType>,
    source: Option<OrderSource>,
    customerName: Option<string>,
    customerPhone: Option<string>,
    customerAddress: Option<string>,
    deliveryDate: Option<Option<int>>,
    description: Option<Option<string>>,
    status: Option<OrderStatus>)

  function Patched(o: OrderRow, patch: OrderPatch): (r: OrderRow)
    ensures r.id == o.id && r.business == o.business && r.orderCode == o.orderCode
    ensures r.orderDate == o.orderDate && r.totalAmount == o.totalAmount && r.createdAt == o.createdAt
    ensures patch.status.Some? ==> r.status == patch.status.value
    ensures patch.status.None? ==> r.status == o.status
  {
    o.(customerType := patch.customerType.GetOr(o.customerType),
       source := patch.source.GetOr(o.source),
       customerName := patch.customerName.GetOr(o.customerName),
       customerPhone := patch.customerPhone.GetOr(o.customerPhone),
       customerAddress := patch.customerAddress.GetOr(o.customerAddress),
       deliveryDate := patch.deliveryDate.GetOr(o.deliveryDate),
       description := patch.description.GetOr(o.description),
       status := patch.status.GetOr(o.status))
  }

  /** The fields `update` copies from the request, in the order it visits them. */
  datatype Field = CustomerTypeField | SourceField | CustomerNameField | CustomerPhoneField
                 | CustomerAddressField | DeliveryDateField | DescriptionField | StatusField

  const Whitelist: seq<Field> := [CustomerTypeField, SourceField, CustomerNameField, CustomerPhoneField,
                                  CustomerAddressField, DeliveryDateField, DescriptionField, StatusField]

  /** `setattr(instance, field, validated_data[field])` when the field was sent. */
  function SetField(o: OrderRow, patch: OrderPatch, field: Field): OrderRow
  {
    match field
    case CustomerTypeField => o.(customerType := patch.customerType.GetOr(o.customerType))
    case SourceField => o.(source := patch.source.GetOr(o.source))
    case CustomerNameField => o.(customerName := patch.customerName.GetOr(o.customerName))
    case CustomerPhoneField => o.(customerPhone := patch.customerPhone.GetOr(o.customerPhone))
    case CustomerAddressField => o.(customerAddress := patch.customerAddress.GetOr(o.customerAddress))
    case DeliveryDateField => o.(deliveryDate := patch.deliveryDate.GetOr(o.deliveryDate))
    case DescriptionField => o.(description := patch.description.GetOr(o.description))
    case StatusField => o.(status := patch.status.GetOr(o.status))
  }

  /** The row after the first `n` whitelisted fields have been visited in turn. */
  function SetFields(o: OrderRow, patch: OrderPatch, n: nat): OrderRow
    requires n <= |Whitelist|
  {
    if n == 0 then o else SetField(SetFields(o, patch, n - 1), patch, Whitelist[n - 1])
  }

  /** Visiting the whole whitelist field by field copies exactly the patch. */
  lemma WhitelistCopiesPatch(o: OrderRow, patch: OrderPatch)
    ensures SetFields(o, patch, |Whitelist|) == Patched(o, patch)
  {
    assert SetFields(o, patch, 1) == SetField(o, patch, Whitelist[0]);
    assert SetFields(o, patch, 2) == SetField(SetFields(o, patch, 1), patch, Whitelist[1]);
    assert SetFields(o, patch, 3) == SetField(SetFields(o, patch, 2), patch, Whitelist[2]);
    assert SetFields(o, patch, 4) == SetField(SetFields(o, patch, 3), patch, Whitelist[3]);
    assert SetFields(o, patch, 5) == SetField(SetFields(o, patch, 4), patch, Whitelist[4]);
    assert SetFields(o, patch, 6) == SetField(SetFields(o, patch, 5), patch, Whitelist[5]);
    assert SetFields(o, patch, 7) == SetField(SetFields(o, patch, 6), patch, Whitelist[6]);
    assert SetFields(o, patch, 8) == SetField(SetFields(o, patch, 7), patch, Whitelist[7]);
  }

  /** The field-copying loop of `update`. */
  method CopyFields(o: OrderRow, patch: OrderPatch) returns (r: OrderRow)
    ensures r == Patched(o, patch)
  {
    r := o;
    var i := 0;
    while i < |Whitelist|
      invariant 0 <= i <= |Whitelist|
      invariant r == SetFields(o, patch, i)
    {
      r := SetField(r, patch, Whitelist[i]);
      i := i + 1;
    }
    WhitelistCopiesPatch(o, patch);
  }

  /** `get_object()` through `get_queryset`: an open order of the requesting business. */
  predicate OpenOrderOf(orders: map<Id, OrderRow>, business: Id, order: Id)
  {
    order in orders && orders[order].business == business && orders[order].status == Open
  }

  /** `instance.items.all().delete()`: the items of other orders, in table order. */
  function DropItems(items: seq<ItemRow>, order: Id): seq<ItemRow>
  {
    if items == [] then []
    else (if items[0].order != order then [items[0]] else []) + DropItems(items[1..], order)
  }

  lemma {:induction false} DropItemsMembers(items: seq<ItemRow>, order: Id)
    ensures forall it :: it in DropItems(items, order) <==> it in items && it.order != order
  {
    if items != [] {
      DropItemsMembers(items[1..], order);
      assert forall it :: it in items <==> it == items[0] || it in items[1..];
    }
  }

  /** Deleting items keeps the remaining ids distinct. */
  lemma {:induction false} DropItemsDistinct(items: seq<ItemRow>, order: Id)
    requires forall i, j :: ItemsDiffer(items, i, j)
    ensures forall i, j :: ItemsDiffer(DropItems(items, order), i, j)
  {
    if items != [] {
      var rest := items[1..];
      forall i, j ensures ItemsDiffer(rest, i, j) {
        assert ItemsDiffer(items, i + 1, j + 1);
      }
      DropItemsDistinct(rest, order);
      if items[0].order != order {
        var d := DropItems(items, order);
        var dr := DropItems(rest, order);
        assert d == [items[0]] + dr;
        DropItemsMembers(rest, order);
        forall i, j ensures ItemsDiffer(d, i, j) {
          if 0 <= i < j < |d| {
            if i == 0 {
              assert d[j] == dr[j - 1] && dr[j - 1] in dr;
              var k :| 0 <= k < |rest| && rest[k] == d[j];
              assert ItemsDiffer(items, 0, k + 1);
            } else {
              assert ItemsDiffer(dr, i - 1, j - 1);
            }
          }
        }
      } else {
        assert DropItems(items, order) == DropItems(rest, order);
      }
    }
  }

  /** Deleting an order's items keeps the tables valid. */
  lemma DropItemsKeepsTables(t: Tables, order: Id)
    requires TablesValid(t)
    ensures TablesValid(t.(items := DropItems(t.items, order)))
  {
    var d := DropItems(t.items, order);
    DropItemsMembers(t.items, order);
    DropItemsDistinct(t.items, order);
    forall i | 0 <= i < |d|
      ensures d[i].id < t.nextId && d[i].order in t.orders && d[i].product in t.products && AmountsDerived(d[i])
    {
      assert d[i] in t.items;
      var j :| 0 <= j < |t.items| && t.items[j] == d[i];
    }
  }

  /** After the delete the order has no items and every other order keeps its own. */
  lemma {:induction false} DropItemsOf(items: seq<ItemRow>, order: Id, other: Id)
    ensures ItemsOf(DropItems(items, order), order) == []
    ensures other != order ==> ItemsOf(DropItems(items, order), other) == ItemsOf(items, other)
  {
    if items != [] {
      DropItemsOf(items[1..], order, other);
      var head := if items[0].order != order then [items[0]] else [];
      assert DropItems(items, order) == head + DropItems(items[1..], order);
      ItemsOfAppend(head, DropItems(items[1..], order), order);
      ItemsOfAppend(head, DropItems(items[1..], order), other);
    }
  }

  /** The tables once the patched fields are saved, with the items replaced when new ones were sent. */
  function Rewritten(t: Tables, order: Id, patch: OrderPatch, items: Option<seq<ItemInput>>): (r: Tables)
    requires order in t.orders && t.inventories.Keys == t.products.Keys
    requires items.Some? ==> ProductsExist(t.products, items.value)
    ensures order in r.orders && r.products == t.products && r.inventories.Keys == t.inventories.Keys
  {
    var t1 := t.(orders := t.orders[order := Patched(t.orders[order], patch)]);
    if items.Some? then WithItems(t1.(items := DropItems(t1.items, order)), order, items.value) else t1
  }

  /**
   * `OrderSerializer.update` through `OrderViewSet.update`: the order must be an
   * open order of the business; the whitelisted fields are copied and saved;
   * when items were sent the order's items are deleted (their stock is not put
   * back) and the new ones created; then `calculate_total`.
   */
  function UpdateOutcome(t: Tables, business: Id, order: Id, patch: OrderPatch, items: Option<seq<ItemInput>>): (r: (Result<(), ApiError>, Tables))
    requires TablesValid(t)
    ensures r.0 == Failure(NotFound) <==> !OpenOrderOf(t.orders, business, order)
    ensures r.0.Failure? ==> r.1 == t
  {
    if !OpenOrderOf(t.orders, business, order) then (Failure(NotFound), t)
    else if items.Some? && !ProductsExist(t.products, items.value) then (Failure(UnknownProduct), t)
    else (Success(()), Totalled(Rewritten(t, order, patch, items), order))
  }

  /** `OrderViewSet.update` / `partial_update` */
  method UpdateOrder(db: Store, business: Id, order: Id, patch: OrderPatch, items: Option<seq<ItemInput>>)
    returns (r: Result<(), ApiError>)
    requires db.Valid()
    modifies db
    ensures db.Valid()
    ensures (r, db.tables) == UpdateOutcome(old(db.tables), business, order, patch, items)
  {
    if !OpenOrderOf(db.tables.orders, business, order) {
      return Failure(NotFound);
    }
    if items.Some? && !ProductsExist(db.tables.products, items.value) {
      return Failure(UnknownProduct);
    }
    var row := CopyFields(db.tables.orders[order], patch);
    OrderRewriteKeepsTables(db.tables, order, row);
    db.tables := db.tables.(orders := db.tables.orders[order := row]);
    if items.Some? {
      DropItemsKeepsTables(db.tables, order);
      db.tables := db.tables.(items := DropItems(db.tables.items, order));
      CreateItems(db, order, items.value);
    }
    CalculateTotal(db, order);
    r := Success(());
  }

  /**
   * An update never changes the order's code, business, order date or creation
   * time; its status and contact fields follow the patch; and the total is the
   * sum of the subtotals of the items it ends with.
   */
  lemma UpdateKeepsIdentity(t: Tables, business: Id, order: Id, patch: OrderPatch, items: Option<seq<ItemInput>>)
    requires TablesValid(t)
    requires UpdateOutcome(t, business, order, patch, items).0.Success?
    ensures var t' := UpdateOutcome(t, business, order, patch, items).1;
            && order in t'.orders
            && t'.orders[order] == Patched(t.orders[order], patch).(totalAmount := SumSubtotals(ItemsOf(t'.items, order)))
            && (forall o :: o in t.orders && o != order ==> o in t'.orders && t'.orders[o] == t.orders[o])
  {
  }

  /**
   * Consistent tables stay consistent through an update. Without items the
   * items and stock are untouched and the total is unchanged; with items the
   * total is the new items' sum and each product's stock goes through the
   * `remove_stock` calls of the new quantities only.
   */
  lemma UpdateConsistent(t: Tables, business: Id, order: Id, patch: OrderPatch, items: Option<seq<ItemInput>>)
    requires TablesConsistent(t)
    requires UpdateOutcome(t, business, order, patch, items).0.Success?
    ensures var t' := UpdateOutcome(t, business, order, patch, items).1;
            && TotalsConsistent(t'.orders, t'.items)
            && (items.None? ==> t'.items == t.items && t'.inventories == t.inventories &&
                                t'.orders[order].totalAmount == t.orders[order].totalAmount)
            && (items.Some? ==> t'.orders[order].totalAmount == InputsTotal(t.products, items.value))
  {
    var t1 := t.(orders := t.orders[order := Patched(t.orders[order], patch)]);
    assert TotalsConsistentExcept(t1.orders, t1.items, order);
    if items.Some? {
      var t2 := t1.(items := DropItems(t1.items, order));
      forall o | o in t2.orders && o != order
        ensures t2.orders[o].totalAmount == SumSubtotals(ItemsOf(t2.items, o))
      {
        DropItemsOf(t1.items, order, o);
      }
      DropItemsOf(t1.items, order, order);
      WithItemsConsistentExcept(t2, order, items.value);
      WithItemsTotal(t2, order, items.value);
      TotalledConsistent(WithItems(t2, order, items.value), order);
    } else {
      TotalledConsistent(t1, order);
    }
  }

  /** Replacing the items takes stock only for the new items; the deleted ones are not restocked. */
  lemma UpdateStock(t: Tables, business: Id, order: Id, patch: OrderPatch, items: seq<ItemInput>, product: Id)
    requires TablesValid(t) && product in t.products
    requires UpdateOutcome(t, business, order, patch, Some(items)).0.Success?
    ensures var t' := UpdateOutcome(t, business, order, patch, Some(items)).1;
            t'.inventories[product].quantity ==
              RemoveSeries(t.inventories[product].quantity, t.products[product].unlimitedStock, QuantitiesOf(items, product))
  {
    var t1 := t.(orders := t.orders[order := Patched(t.orders[order], patch)]);
    WithItemsStock(t1.(items := DropItems(t1.items, order)), order, items, product);
  }

  /** `deliver` on the tables: an open order of the business becomes delivered; nothing else changes. */
  function DeliverOutcome(t: Tables, business: Id, order: Id): (r: (Result<(), ApiError>, Tables))
    ensures r.0.Failure? <==> !OpenOrderOf(t.orders, business, order)
    ensures r.0.Failure? ==> r.1 == t
    ensures r.0.Success? ==> r.1 == t.(orders := t.orders[order := t.orders[order].(status := Delivered)])
  {
    if !OpenOrderOf(t.orders, business, order) then (Failure(NotFound), t)
    else (Success(()), t.(orders := t.orders[order := t.orders[order].(status := Delivered)]))
  }

  /** `deliver` */
  method Deliver(db: Store, business: Id, order: Id) returns (r: Result<(), ApiError>)
    requires db.Valid()
    modifies db
    ensures db.Valid()
    ensures (r, db.tables) == DeliverOutcome(old(db.tables), business, order)
  {
    if !OpenOrderOf(db.tables.orders, business, order) {
      return Failure(NotFound);
    }
    var row := db.tables.orders[order].(status := Delivered);
    OrderRewriteKeepsTables(db.tables, order, row);
    db.tables := db.tables.(orders := db.tables.orders[order := row]);
    r := Success(());
  }

  function CreatedAtKey(o: OrderRow): Option<real>
  {
    Some(o.createdAt as real)
  }

  /** The open orders of a business among `keys`, in key order. */
  function OpenRows(orders: map<Id, OrderRow>, business: Id, keys: seq<Id>): (r: seq<OrderRow>)
    requires forall k :: k in keys ==> k in orders
    ensures forall o :: o in r <==> exists k :: k in keys && orders[k] == o && o.business == business && o.status == Open
  {
    if keys == [] then []
    else
      assert forall k :: k in keys <==> k == keys[0] || k in keys[1..];
      (if orders[keys[0]].business == business && orders[keys[0]].status == Open then [orders[keys[0]]] else [])
      + OpenRows(orders, business, keys[1..])
  }

  /** `OrderViewSet.get_queryset`: the business's open orders, newest first. */
  function OpenOrders(orders: map<Id, OrderRow>, business: Id): (r: seq<OrderRow>)
    ensures SortedDesc(r, CreatedAtKey)
    ensures forall o :: o in r <==> exists k :: k in orders && orders[k] == o && OpenOrderOf(orders, business, k)
    ensures multiset(r) == multiset(OpenRows(orders, business, SortedIds(orders.Keys)))
  {
    var keys := SortedIds(orders.Keys);
    var rows := OpenRows(orders, business, keys);
    assert forall o :: o in rows <==> exists k :: k in orders && orders[k] == o && OpenOrderOf(orders, business, k) by {
      forall o ensures o in rows <==> exists k :: k in orders && orders[k] == o && OpenOrderOf(orders, business, k) {
        if o in rows {
          var k :| k in keys && orders[k] == o && o.business == business && o.status == Open;
          assert OpenOrderOf(orders, business, k);
        }
        if exists k :: k in orders && orders[k] == o && OpenOrderOf(orders, business, k) {
          var k :| k in orders && orders[k] == o && OpenOrderOf(orders, business, k);
          assert k in keys;
        }
      }
    }
    SortDescMembers(rows, CreatedAtKey);
    SortDesc(rows, CreatedAtKey)
  }

  /** A delivered order leaves the open listing and can no longer be delivered or updated. */
  lemma DeliverClosesOrder(t: Tables, business: Id, order: Id)
    requires TablesValid(t) && OpenOrderOf(t.orders, business, order)
    ensures var t' := DeliverOutcome(t, business, order).1;
            && !OpenOrderOf(t'.orders, business, order)
            && DeliverOutcome(t', business, order).0 == Failure(NotFound)
            && t'.orders[order].(status := Open) == t.orders[order]
            && t'.orders[order] !in OpenOrders(t'.orders, business)
  {
  }

  /** `timedelta(days=30)` in seconds. */
  const MonthSeconds := 30 * 24 * 60 * 60

  /** An order `monthly_sales` counts: the business's, created in the last 30 days, open or delivered. */
  predicate Counted(o: OrderRow, business: Id, now: int)
  {
    o.business == business && o.createdAt >= now - MonthSeconds && (o.status == Open || o.status == Delivered)
  }

  function SalesOver(orders: map<Id, OrderRow>, business: Id, now: int, keys: seq<Id>): real
    requires forall k :: k in keys ==> k in orders
  {
    if keys == [] then 0.0
    else (if Counted(orders[keys[0]], business, now) then orders[keys[0]].totalAmount else 0.0)
         + SalesOver(orders, business, now, keys[1..])
  }

  /** `monthly_sales`: the sum of the counted orders' totals, 0 when there are none. */
  function MonthlySales(orders: map<Id, OrderRow>, business: Id, now: int): (total: real)
    ensures (forall k :: k in orders ==> !Counted(orders[k], business, now)) ==> total == 0.0
  {
    SalesNone(orders, business, now, SortedIds(orders.Keys));
    SalesOver(orders, business, now, SortedIds(orders.Keys))
  }

  lemma {:induction false} SalesNone(orders: map<Id, OrderRow>, business: Id, now: int, keys: seq<Id>)
    requires forall k :: k in keys ==> k in orders
    ensures (forall k :: k in keys ==> !Counted(orders[k], business, now)) ==> SalesOver(orders, business, now, keys) == 0.0
  {
    if keys != [] {
      SalesNone(orders, business, now, keys[1..]);
    }
  }

  /** Two order tables that agree on what each key contributes give the same sum. */
  lemma {:induction false} SalesAgree(orders: map<Id, OrderRow>, orders': map<Id, OrderRow>, business: Id, now: int, keys: seq<Id>)
    requires forall k :: k in keys ==> k in orders && k in orders'
    requires forall k :: k in keys ==>
               Counted(orders[k], business, now) == Counted(orders'[k], business, now) &&
               (Counted(orders[k], business, now) ==> orders[k].totalAmount == orders'[k].totalAmount)
    ensures SalesOver(orders, business, now, keys) == SalesOver(orders', business, now, keys)
  {
    if keys != [] {
      SalesAgree(orders, orders', business, now, keys[1..]);
    }
  }

  /** Delivering an order leaves every business's monthly sales as they were (open and delivered both count). */
  lemma DeliverKeepsMonthlySales(t: Tables, business: Id, order: Id, anyBusiness: Id, now: int)
    ensures MonthlySales(DeliverOutcome(t, business, order).1.orders, anyBusiness, now) == MonthlySales(t.orders, anyBusiness, now)
  {
    var orders' := DeliverOutcome(t, business, order).1.orders;
    assert orders'.Keys == t.orders.Keys;
    SalesAgree(t.orders, orders', anyBusiness, now, SortedIds(t.orders.Keys));
  }
}

/**
 * The stock ledger of `Inventory`: `add_stock`, `remove_stock` and
 * `is_low_stock`. A product with unlimited stock is not tracked: every
 * operation leaves its quantity alone. A removal is all-or-nothing.
 */
module Stock {
  import opened Wrappers
  import opened Schema

  /** The quantity after `add_stock(amount)`. */
  function Added(quantity: real, unlimited: bool, amount: real): (r: real)
    ensures unlimited ==> r == quantity
    ensures !unlimited ==> r == quantity + amount
  {
    if unlimited then quantity else quantity + amount
  }

  /** What `remove_stock(amount)` leaves and returns. */
  datatype Removal = Removal(quantity: real, ok: bool)

  function Removed(quantity: real, unlimited: bool, amount: real): (r: Removal)
    ensures r.ok <==> unlimited || quantity >= amount
    ensures !r.ok || unlimited ==> r.quantity == quantity
    ensures r.ok && !unlimited ==> r.quantity == quantity - amount
  {
    if unlimited then Removal(quantity, true)
    else if quantity >= amount then Removal(quantity - amount, true)
    else Removal(quantity, false)
  }

  /** From a non-negative quantity, a removal of a non-negative amount never goes below zero. */
  lemma RemovedNonNegative(quantity: real, unlimited: bool, amount: real)
    requires quantity >= 0.0 && amount >= 0.0
    ensures Removed(quantity, unlimited, amount).quantity >= 0.0
  {
  }

  /** `is_low_stock`: never for unlimited stock or without a positive threshold. */
  function IsLow(inventory: InventoryRow, unlimited: bool): (r: bool)
    ensures r <==> !unlimited && inventory.lowStockThreshold.Some? && inventory.lowStockThreshold.value > 0.0 &&
                   inventory.quantity <= inventory.lowStockThreshold.value
  {
    if unlimited then false
    else match inventory.lowStockThreshold
      case Some(t) => if t > 0.0 then inventory.quantity <= t else false
      case None => false
  }

  /** `product.inventory.is_low_stock()` */
  function IsLowStock(db: Store, product: Id): (r: bool)
    reads db
    requires db.Valid() && product in db.tables.products
    ensures r ==> !db.tables.products[product].unlimitedStock
  {
    IsLow(db.tables.inventories[product], db.tables.products[product].unlimitedStock)
  }

  /** Replacing the inventory row of a product keeps the tables valid. */
  lemma InventoryWriteKeepsTables(t: Tables, product: Id, row: InventoryRow)
    requires TablesValid(t) && product in t.products
    ensures TablesValid(t.(inventories := t.inventories[product := row]))
  {
    KeysUpdate(t.inventories, product, row);
  }

  /** `product.inventory.add_stock(amount)` */
  method AddStock(db: Store, product: Id, amount: real)
    requires db.Valid() && product in db.tables.products
    modifies db
    ensures db.Valid()
    ensures var before := old(db.tables).inventories[product];
            db.tables == old(db.tables).(inventories := old(db.tables).inventories[product := before.(quantity :=
              Added(before.quantity, old(db.tables).products[product].unlimitedStock, amount))])
  {
    var inventory := db.tables.inventories[product];
    var updated := inventory.(quantity := Added(inventory.quantity, db.tables.products[product].unlimitedStock, amount));
    InventoryWriteKeepsTables(db.tables, product, updated);
    if !db.tables.products[product].unlimitedStock {
      db.tables := db.tables.(inventories := db.tables.inventories[product := updated]);
    } else {
      assert db.tables.inventories[product := updated] == db.tables.inventories;
    }
  }

  /**
   * `product.inventory.remove_stock(amount)`: with enough stock the amount comes
   * off and the call succeeds; without it nothing changes and the call fails;
   * unlimited stock always succeeds unchanged.
   */
  method RemoveStock(db: Store, product: Id, amount: real) returns (ok: bool)
    requires db.Valid() && product in db.tables.products
    modifies db
    ensures db.Valid()
    ensures var before := old(db.tables).inventories[product];
            var r := Removed(before.quantity, old(db.tables).products[product].unlimitedStock, amount);
            ok == r.ok && db.tables == old(db.tables).(inventories := old(db.tables).inventories[product := before.(quantity := r.quantity)])
  {
    var inventory := db.tables.inventories[product];
    var r := Removed(inventory.quantity, db.tables.products[product].unlimitedStock, amount);
    InventoryWriteKeepsTables(db.tables, product, inventory.(quantity := r.quantity));
    if !db.tables.products[product].unlimitedStock && inventory.quantity >= amount {
      db.tables := db.tables.(inventories := db.tables.inventories[product := inventory.(quantity := inventory.quantity - amount)]);
      ok := true;
    } else {
      assert db.tables.inventories[product := inventory.(quantity := r.quantity)] == db.tables.inventories;
      ok := db.tables.products[product].unlimitedStock;
    }
  }

  /** The sum of a sequence of amounts. */
  function Sum(amounts: seq<real>): real
  {
    if amounts == [] then 0.0 else amounts[0] + Sum(amounts[1..])
  }

  /** The quantity after a series of `remove_stock` calls, in order. */
  function RemoveSeries(quantity: real, unlimited: bool, amounts: seq<real>): real
    decreases amounts
  {
    if amounts == [] then quantity
    else RemoveSeries(Removed(quantity, unlimited, amounts[0]).quantity, unlimited, amounts[1..])
  }

  /** The total of the amounts whose removal succeeded (all of them when unlimited). */
  function GrantedSeries(quantity: real, unlimited: bool, amounts: seq<real>): real
    decreases amounts
  {
    if amounts == [] then 0.0
    else
      var r := Removed(quantity, unlimited, amounts[0]);
      (if r.ok then amounts[0] else 0.0) + GrantedSeries(r.quantity, unlimited, amounts[1..])
  }

  /** A tracked quantity drops by exactly the amounts that were granted. */
  lemma {:induction false} SeriesAccounting(quantity: real, amounts: seq<real>)
    ensures RemoveSeries(quantity, false, amounts) == quantity - GrantedSeries(quantity, false, amounts)
    decreases amounts
  {
    if amounts != [] {
      SeriesAccounting(Removed(quantity, false, amounts[0]).quantity, amounts[1..]);
    }
  }

  /** Starting from a non-negative quantity, no series of removals drives it negative. */
  lemma {:induction false} SeriesNeverNegative(quantity: real, unlimited: bool, amounts: seq<real>)
    requires quantity >= 0.0
    requires forall i :: 0 <= i < |amounts| ==> amounts[i] >= 0.0
    ensures RemoveSeries(quantity, unlimited, amounts) >= 0.0
    decreases amounts
  {
    if amounts != [] {
      RemovedNonNegative(quantity, unlimited, amounts[0]);
      SeriesNeverNegative(Removed(quantity, unlimited, amounts[0]).quantity, unlimited, amounts[1..]);
    }
  }

  /** Unlimited stock never moves. */
  lemma {:induction false} SeriesUnlimited(quantity: real, amounts: seq<real>)
    ensures RemoveSeries(quantity, true, amounts) == quantity
  {
    if amounts != [] {
      SeriesUnlimited(quantity, amounts[1..]);
    }
  }

  /** With enough stock for the whole series, every removal succeeds and the total comes off. */
  lemma {:induction false} SeriesWithEnoughStock(quantity: real, amounts: seq<real>)
    requires forall i :: 0 <= i < |amounts| ==> amounts[i] >= 0.0
    requires quantity >= Sum(amounts)
    ensures RemoveSeries(quantity, false, amounts) == quantity - Sum(amounts)
    ensures GrantedSeries(quantity, false, amounts) == Sum(amounts)
    decreases amounts
  {
    if amounts != [] {
      SumNonNegative(amounts[1..]);
      assert quantity >= amounts[0];
      SeriesWithEnoughStock(quantity - amounts[0], amounts[1..]);
    }
  }

  lemma {:induction false} SumNonNegative(amounts: seq<real>)
    requires forall i :: 0 <= i < |amounts| ==> amounts[i] >= 0.0
    ensures Sum(amounts) >= 0.0
  {
    if amounts != [] {
      SumNonNegative(amounts[1..]);
    }
  }
}

/**
 * The product catalogue of one business: `Product.save` with its two
 * defaults (a fresh five-digit product code when the code is empty, the
 * business's category 10 "سایر" when no category is set), the post-save hook
 * that gives a newly created product its inventory, and the next-code rule of
 * `CategorySerializer.create`.
 */
module Catalog {
  import opened Wrappers
  import opened Text
  import opened Draws
  import opened Schema

  const DefaultCategoryCode: int := 10
  const DefaultCategoryName: string := "سایر"
  /** The code of a business's first category made through the API. */
  const FirstCategoryCode: int := 11

  datatype CatalogError =
    | CodesExhausted          // every supplied draw was already in use
    | DuplicateProductCode    // the unique (business, product_code) constraint refused the row
    | UnknownCategory         // the submitted category id names no category

  /** `str(n)` for a draw n in [10000, 99999]. */
  function ProductCode(n: int): (code: string)
    requires 10000 <= n <= 99999
    ensures |code| == 5 && AllDigits(code) && code[0] != '0' && DecimalValue(code) == n
  {
    assert Pow10(4) == 10000 && Pow10(5) == 100000;
    NatToStringLength(n, 5);
    NatToStringRoundTrip(n);
    NatToString(n)
  }

  function ProductCodes(draws: seq<int>): (codes: seq<string>)
    requires forall i :: 0 <= i < |draws| ==> 10000 <= draws[i] <= 99999
    ensures |codes| == |draws| && forall i :: 0 <= i < |draws| ==> codes[i] == ProductCode(draws[i])
  {
    seq(|draws|, i requires 0 <= i < |draws| => ProductCode(draws[i]))
  }

  /** The product codes a business already uses. */
  function CodesInUse(products: map<Id, ProductRow>, business: Id): (codes: set<string>)
    ensures forall p :: p in products && products[p].business == business ==> products[p].productCode in codes
    ensures forall c :: c in codes ==> exists p :: p in products && products[p].business == business && products[p].productCode == c
  {
    set p | p in products && products[p].business == business :: products[p].productCode
  }

  /**
   * `generate_product_code`: redraw from [10000, 99999] until no product of the
   * same business carries the code; the first such draw wins.
   */
  method GenerateProductCode(products: map<Id, ProductRow>, business: Id, draws: seq<int>) returns (r: Option<string>)
    requires forall i :: 0 <= i < |draws| ==> 10000 <= draws[i] <= 99999
    ensures r == FirstUnused(ProductCodes(draws), CodesInUse(products, business))
    ensures r.Some? ==> |r.value| == 5 && AllDigits(r.value)
    ensures r.Some? ==> forall p :: p in products && products[p].business == business ==> products[p].productCode != r.value
  {
    ghost var codes := ProductCodes(draws);
    var taken := CodesInUse(products, business);
    var i := 0;
    while i < |draws|
      invariant 0 <= i <= |draws|
      invariant forall j :: 0 <= j < i ==> codes[j] in taken
    {
      var code := NatToString(draws[i]);
      if code !in taken {
        FirstUnusedSkip(codes, taken, i);
        return Some(ProductCode(draws[i]));
      }
      i := i + 1;
    }
    FirstUnusedSkip(codes, taken, i);
    r := None;
  }

  /** A product of another business never blocks a code. */
  lemma CodesInUseOtherBusiness(products: map<Id, ProductRow>, business: Id, id: Id, row: ProductRow)
    requires id !in products && row.business != business
    ensures CodesInUse(products[id := row], business) == CodesInUse(products, business)
  {
    var before, after := CodesInUse(products, business), CodesInUse(products[id := row], business);
    forall c | c in after ensures c in before {
      var p :| p in products[id := row] && products[id := row][p].business == business && products[id := row][p].productCode == c;
      assert p != id && p in products;
    }
    forall c | c in before ensures c in after {
      var p :| p in products && products[p].business == business && products[p].productCode == c;
      assert p in products[id := row] && products[id := row][p] == products[p];
    }
  }

  predicate IsDefaultCategory(categories: map<Id, CategoryRow>, c: Id, business: Id)
  {
    c in categories && categories[c].business == business && categories[c].categoryCode == DefaultCategoryCode
  }

  /** The category codes a business already uses. */
  function CategoryCodes(categories: map<Id, CategoryRow>, business: Id): (codes: set<int>)
    ensures forall c :: c in categories && categories[c].business == business ==> categories[c].categoryCode in codes
    ensures forall code :: code in codes ==> exists c :: c in categories && categories[c].business == business && categories[c].categoryCode == code
  {
    set c | c in categories && categories[c].business == business :: categories[c].categoryCode
  }

  /** The tables after inserting `row` as a new category under the next key. */
  function WithCategory(t: Tables, row: CategoryRow): Tables
  {
    t.(categories := t.categories[t.nextId := row], nextId := t.nextId + 1)
  }

  /** A category whose code its business does not use yet keeps the category table well formed. */
  lemma CategoryInsertWellFormed(categories: map<Id, CategoryRow>, businesses: map<Id, BusinessRow>, k: Id, row: CategoryRow)
    requires CategoriesWellFormed(categories, businesses) && k !in categories && row.business in businesses
    requires row.categoryCode !in CategoryCodes(categories, row.business)
    ensures CategoriesWellFormed(categories[k := row], businesses)
  {
    var after := categories[k := row];
    forall c, c' ensures CategoriesDiffer(after, c, c') {
      if c == k && c' in categories && categories[c'].business == row.business {
        assert categories[c'].categoryCode in CategoryCodes(categories, row.business);
      } else if c' == k && c in categories && categories[c].business == row.business {
        assert categories[c].categoryCode in CategoryCodes(categories, row.business);
      } else {
        assert CategoriesDiffer(categories, c, c');
      }
    }
  }

  /**
   * A category under a fresh key, with a code its business does not use yet,
   * keeps the tables valid; it is stored under a key no row used before.
   */
  lemma NewCategoryKeepsTables(t: Tables, row: CategoryRow)
    requires TablesValid(t) && row.business in t.businesses
    requires row.categoryCode !in CategoryCodes(t.categories, row.business)
    ensures t.nextId !in t.categories && t.nextId !in t.products && t.nextId !in t.orders
    ensures TablesValid(WithCategory(t, row))
  {
    var t' := WithCategory(t, row);
    KeysBelowInsert(t.categories, t.nextId, row);
    KeysBelowRaise(t.businesses, t.nextId);
    KeysBelowRaise(t.products, t.nextId);
    KeysBelowRaise(t.orders, t.nextId);
    ItemIdsBelowRaise(t.items, t.nextId);
    CategoryInsertWellFormed(t.categories, t.businesses, t.nextId, row);
    ProductsGrowParents(t.products, t.categories, t.businesses, t'.categories, t.businesses);
  }

  /** The business's category with the given code. */
  predicate IsCategory(categories: map<Id, CategoryRow>, c: Id, business: Id, code: int)
  {
    c in categories && categories[c].business == business && categories[c].categoryCode == code
  }

  /** The first key in `keys` of the business's category with the given code. */
  function FindCategory(categories: map<Id, CategoryRow>, business: Id, code: int, keys: seq<Id>): (r: Option<Id>)
    ensures r.Some? ==> r.value in keys && IsCategory(categories, r.value, business, code)
    ensures r.None? ==> forall k :: k in keys ==> !IsCategory(categories, k, business, code)
  {
    if keys == [] then None
    else if IsCategory(categories, keys[0], business, code) then Some(keys[0])
    else
      var r := FindCategory(categories, business, code, keys[1..]);
      assert forall k :: k in keys ==> k == keys[0] || k in keys[1..];
      r
  }

  /** `Category.objects.get(business=..., category_code=...)`, None when there is no such row. */
  function CategoryByCode(categories: map<Id, CategoryRow>, business: Id, code: int): (r: Option<Id>)
    ensures r.Some? ==> IsCategory(categories, r.value, business, code)
    ensures r.None? <==> code !in CategoryCodes(categories, business)
  {
    FindCategory(categories, business, code, SortedIds(categories.Keys))
  }

  /** The lookup half of `get_or_create`: the business's category with code 10, if any. */
  function DefaultCategoryOf(categories: map<Id, CategoryRow>, business: Id): (r: Option<Id>)
    ensures r.Some? ==> IsDefaultCategory(categories, r.value, business)
    ensures r.None? <==> DefaultCategoryCode !in CategoryCodes(categories, business)
  {
    CategoryByCode(categories, business, DefaultCategoryCode)
  }

  /**
   * `get_or_create_default_category` on the tables: the category found, or the
   * key of a new active category "سایر" with code 10 and the tables holding it.
   */
  function DefaultCategory(t: Tables, business: Id): (r: (Id, Tables))
    ensures IsDefaultCategory(r.1.categories, r.0, business)
    ensures r.1.businesses == t.businesses && r.1.products == t.products && r.1.inventories == t.inventories
    ensures r.1.orders == t.orders && r.1.items == t.items
    ensures DefaultCategoryCode in CategoryCodes(t.categories, business) ==> r.1 == t
    ensures DefaultCategoryCode !in CategoryCodes(t.categories, business) ==>
              r.0 == t.nextId && r.1.nextId == t.nextId + 1 &&
              r.1.categories == t.categories[t.nextId := CategoryRow(DefaultCategoryCode, DefaultCategoryName, true, business)]
  {
    match DefaultCategoryOf(t.categories, business)
    case Some(c) => (c, t)
    case None => (t.nextId, WithCategory(t, CategoryRow(DefaultCategoryCode, DefaultCategoryName, true, business)))
  }

  /** The default category is made at most once: asking again finds it and changes nothing. */
  lemma DefaultCategoryIdempotent(t: Tables, business: Id)
    ensures var (c, t1) := DefaultCategory(t, business);
            DefaultCategory(t1, business).1 == t1
  {
    var (c, t1) := DefaultCategory(t, business);
    assert t1.categories[c].categoryCode in CategoryCodes(t1.categories, business);
  }

  /** Getting or making the default category keeps the tables valid. */
  lemma DefaultCategoryKeepsTables(t: Tables, business: Id)
    requires TablesValid(t) && business in t.businesses
    ensures TablesValid(DefaultCategory(t, business).1)
  {
    if DefaultCategoryCode !in CategoryCodes(t.categories, business) {
      NewCategoryKeepsTables(t, CategoryRow(DefaultCategoryCode, DefaultCategoryName, true, business));
    }
  }

  /** `get_or_create_default_category` */
  method GetOrCreateDefaultCategory(db: Store, business: Id) returns (c: Id)
    requires db.Valid() && business in db.tables.businesses
    modifies db
    ensures db.Valid()
    ensures (c, db.tables) == DefaultCategory(old(db.tables), business)
  {
    DefaultCategoryKeepsTables(db.tables, business);
    var found := DefaultCategoryOf(db.tables.categories, business);
    if found.Some? {
      return found.value;
    }
    c := db.tables.nextId;
    db.tables := WithCategory(db.tables, CategoryRow(DefaultCategoryCode, DefaultCategoryName, true, business));
  }

  /** The greatest element of a non-empty set of codes. */
  predicate IsMax(m: int, codes: set<int>)
  {
    m in codes && forall c :: c in codes ==> c <= m
  }

  lemma EmptyOrElement(codes: set<int>)
    ensures codes == {} || exists c :: c in codes
  {
    if forall c :: c !in codes {
      assert codes == {};
    }
  }

  ghost function MaxOf(codes: set<int>): (m: int)
    requires codes != {}
    ensures IsMax(m, codes)
    decreases |codes|
  {
    EmptyOrElement(codes);
    var x :| x in codes;
    if codes == {x} then
      assert forall c :: c in codes ==> c == x;
      x
    else
      var r := MaxOf(codes - {x});
      assert forall c :: c in codes ==> c == x || c in codes - {x};
      if x > r then x else r
  }

  /**
   * The next-code rule of `CategorySerializer.create`: one past the business's
   * highest category code, 11 for a business without categories.
   */
  function NextCategoryCode(codes: set<int>): (next: int)
    ensures next !in codes
    ensures codes == {} ==> next == FirstCategoryCode
    ensures codes != {} ==> next - 1 in codes && forall c :: c in codes ==> c < next
  {
    if codes == {} then FirstCategoryCode
    else
      ghost var top := MaxOf(codes);
      assert IsMax(top, codes);
      var m :| IsMax(m, codes);
      m + 1
  }

  /**
   * `CategorySerializer.create`: a category of the requesting business with the
   * next code; it never clashes with the business's existing codes.
   */
  method CreateCategory(db: Store, business: Id, name: string, isActive: bool) returns (c: Id)
    requires db.Valid() && business in db.tables.businesses
    modifies db
    ensures db.Valid()
    ensures c == old(db.tables).nextId && c !in old(db.tables).categories
    ensures db.tables == WithCategory(old(db.tables),
              CategoryRow(NextCategoryCode(CategoryCodes(old(db.tables).categories, business)), name, isActive, business))
  {
    var row := CategoryRow(NextCategoryCode(CategoryCodes(db.tables.categories, business)), name, isActive, business);
    NewCategoryKeepsTables(db.tables, row);
    c := db.tables.nextId;
    db.tables := WithCategory(db.tables, row);
  }

  /** The inventory table after the post-save hook: a creation gets a fresh inventory unless one exists. */
  function WithInventory(inventories: map<Id, InventoryRow>, product: Id, created: bool): (r: map<Id, InventoryRow>)
    ensures r.Keys == if created then inventories.Keys + {product} else inventories.Keys
    ensures forall q :: q in inventories ==> r[q] == inventories[q]
    ensures created && product !in inventories ==> r[product] == InventoryRow(0.0, Some(0.0))
  {
    if created && product !in inventories then inventories[product := InventoryRow(0.0, Some(0.0))] else inventories
  }

  /** Running the hook twice leaves what running it once left: at most one inventory per product. */
  lemma WithInventoryIdempotent(inventories: map<Id, InventoryRow>, product: Id, created: bool)
    ensures WithInventory(WithInventory(inventories, product, created), product, created) == WithInventory(inventories, product, created)
  {
  }

  /** `create_product_inventory`, the post-save hook on products. */
  method CreateProductInventory(db: Store, product: Id, created: bool)
    modifies db
    ensures db.tables == old(db.tables).(inventories := WithInventory(old(db.tables).inventories, product, created))
  {
    if created && product !in db.tables.inventories {
      db.tables := db.tables.(inventories := db.tables.inventories[product := InventoryRow(0.0, Some(0.0))]);
    }
  }

  /** Another product of the same business already carries `code`. */
  predicate CodeTaken(products: map<Id, ProductRow>, business: Id, code: string, self: Option<Id>)
  {
    exists p :: p in products && (self.None? || p != self.value) &&
                products[p].business == business && products[p].productCode == code
  }

  /** The key a write uses: the stored row's own key, or the next key for an insert. */
  function WriteKey(t: Tables, id: Option<Id>): Id
  {
    if id.None? then t.nextId else id.value
  }

  /** The tables after `super().save()` inserted `saved` under the next key and the hook gave it an inventory. */
  function InsertProduct(t: Tables, saved: ProductRow): Tables
  {
    t.(products := t.products[t.nextId := saved],
       inventories := WithInventory(t.inventories, t.nextId, true),
       nextId := t.nextId + 1)
  }

  /** The tables after `super().save()` overwrote the product stored under `pid`; the hook does nothing. */
  function UpdateProduct(t: Tables, pid: Id, saved: ProductRow): Tables
  {
    t.(products := t.products[pid := saved], inventories := WithInventory(t.inventories, pid, false))
  }

  /** The tables after `super().save()` wrote `saved` and the post-save hook ran. */
  function WithProduct(t: Tables, id: Option<Id>, saved: ProductRow): Tables
  {
    if id.None? then InsertProduct(t, saved) else UpdateProduct(t, id.value, saved)
  }

  /** Writing a product whose code is free in its business keeps the product table well formed. */
  lemma ProductWriteWellFormed(products: map<Id, ProductRow>, categories: map<Id, CategoryRow>,
                               businesses: map<Id, BusinessRow>, pid: Id, self: Option<Id>, saved: ProductRow)
    requires ProductsWellFormed(products, categories, businesses)
    requires saved.business in businesses && saved.productCode != ""
    requires saved.category.Some? ==> saved.category.value in categories
    requires self.None? ==> pid !in products
    requires self.Some? ==> pid == self.value
    requires !CodeTaken(products, saved.business, saved.productCode, self)
    ensures ProductsWellFormed(products[pid := saved], categories, businesses)
  {
    var after := products[pid := saved];
    forall p, p' ensures ProductsDiffer(after, p, p') {
      if p == pid && p' in after && p' != pid {
        assert p' in products && (self.None? || p' != self.value);
      } else if p' == pid && p in after && p != pid {
        assert p in products && (self.None? || p != self.value);
      } else {
        assert ProductsDiffer(products, p, p');
      }
    }
  }

  /** Inserting a product whose code is free in its business keeps the tables valid. */
  lemma ProductInsertKeepsTables(t: Tables, saved: ProductRow)
    requires TablesValid(t)
    requires saved.business in t.businesses && saved.productCode != ""
    requires saved.category.Some? ==> saved.category.value in t.categories
    requires !CodeTaken(t.products, saved.business, saved.productCode, None)
    ensures t.nextId !in t.products
    ensures TablesValid(InsertProduct(t, saved))
  {
    var t' := InsertProduct(t, saved);
    KeysBelowInsert(t.products, t.nextId, saved);
    ProductWriteWellFormed(t.products, t.categories, t.businesses, t.nextId, None, saved);
    KeysBelowRaise(t.businesses, t.nextId);
    KeysBelowRaise(t.categories, t.nextId);
    KeysBelowRaise(t.orders, t.nextId);
    ItemIdsBelowRaise(t.items, t.nextId);
    ItemsGrowParents(t.items, t.orders, t.products, t.orders, t'.products);
  }

  /** Overwriting a stored product with a row whose code is free among the other products keeps the tables valid. */
  lemma ProductUpdateKeepsTables(t: Tables, pid: Id, saved: ProductRow)
    requires TablesValid(t) && pid in t.products
    requires saved.business in t.businesses && saved.productCode != ""
    requires saved.category.Some? ==> saved.category.value in t.categories
    requires !CodeTaken(t.products, saved.business, saved.productCode, Some(pid))
    ensures TablesValid(UpdateProduct(t, pid, saved))
  {
    var t' := UpdateProduct(t, pid, saved);
    KeysUpdate(t.products, pid, saved);
    ProductWriteWellFormed(t.products, t.categories, t.businesses, pid, Some(pid), saved);
    ItemsGrowParents(t.items, t.orders, t.products, t.orders, t'.products);
  }

  /**
   * The write of `Product.save` (`super().save()`) followed by the post-save
   * hook: insert under a fresh key, or overwrite the stored row.
   */
  method WriteProduct(db: Store, id: Option<Id>, saved: ProductRow) returns (pid: Id)
    requires db.Valid() && saved.business in db.tables.businesses && saved.productCode != ""
    requires saved.category.Some? ==> saved.category.value in db.tables.categories
    requires id.Some? ==> id.value in db.tables.products
    requires !CodeTaken(db.tables.products, saved.business, saved.productCode, id)
    modifies db
    ensures db.Valid()
    ensures pid == WriteKey(old(db.tables), id)
    ensures db.tables == WithProduct(old(db.tables), id, saved)
  {
    if id.None? {
      ProductInsertKeepsTables(db.tables, saved);
    } else {
      ProductUpdateKeepsTables(db.tables, id.value, saved);
    }
    pid := WriteKey(db.tables, id);
    db.tables := db.tables.(products := db.tables.products[pid := saved],
                            nextId := if id.None? then db.tables.nextId + 1 else db.tables.nextId);
    CreateProductInventory(db, pid, id.None?);
  }

  /** The code `Product.save` stores: the row's own, or the first unused draw when it is empty. */
  function SavedCode(products: map<Id, ProductRow>, row: ProductRow, draws: seq<int>): (r: Option<string>)
    requires forall i :: 0 <= i < |draws| ==> 10000 <= draws[i] <= 99999
    ensures row.productCode != "" ==> r == Some(row.productCode)
    ensures row.productCode == "" ==> r == FirstUnused(ProductCodes(draws), CodesInUse(products, row.business))
    ensures r.Some? ==> r.value != ""
  {
    if row.productCode != "" then Some(row.productCode)
    else FirstUnused(ProductCodes(draws), CodesInUse(products, row.business))
  }

  /** The first half of `Product.save`: keep the row's code, or generate one when it is empty. */
  method SavedCodeOf(products: map<Id, ProductRow>, row: ProductRow, draws: seq<int>) returns (r: Option<string>)
    requires forall i :: 0 <= i < |draws| ==> 10000 <= draws[i] <= 99999
    ensures r == SavedCode(products, row, draws)
  {
    if row.productCode != "" {
      return Some(row.productCode);
    }
    r := GenerateProductCode(products, row.business, draws);
  }

  /** The category `Product.save` stores, and the tables once the default category was fetched or made. */
  function SavedCategory(t: Tables, row: ProductRow): (r: (Id, Tables))
    ensures row.category.Some? ==> r == (row.category.value, t)
    ensures row.category.None? ==> r == DefaultCategory(t, row.business)
  {
    if row.category.Some? then (row.category.value, t) else DefaultCategory(t, row.business)
  }

  /**
   * `Product.save` on the tables: the outcome and the tables afterwards. With
   * `id` None the row is inserted, otherwise the stored row is overwritten. An
   * empty code is replaced by a generated one, a missing category by the
   * default category; a code clash fails after the default category was made.
   */
  function SaveOutcome(t: Tables, id: Option<Id>, row: ProductRow, draws: seq<int>): (r: (Result<Id, CatalogError>, Tables))
    requires forall i :: 0 <= i < |draws| ==> 10000 <= draws[i] <= 99999
    ensures r.0 != Failure(UnknownCategory)
    ensures r.0.Failure? ==> r.1.products == t.products && r.1.inventories == t.inventories
    ensures r.1.businesses == t.businesses && r.1.orders == t.orders && r.1.items == t.items
  {
    var code := SavedCode(t.products, row, draws);
    if code.None? then (Failure(CodesExhausted), t)
    else
      var (category, t1) := SavedCategory(t, row);
      if CodeTaken(t1.products, row.business, code.value, id) then (Failure(DuplicateProductCode), t1)
      else (Success(WriteKey(t1, id)), WithProduct(t1, id, row.(productCode := code.value, category := Some(category))))
  }

  /** `Product.save` */
  method SaveProduct(db: Store, id: Option<Id>, row: ProductRow, draws: seq<int>) returns (r: Result<Id, CatalogError>)
    requires db.Valid() && row.business in db.tables.businesses
    requires row.category.Some? ==> row.category.value in db.tables.categories
    requires id.Some? ==> id.value in db.tables.products
    requires forall i :: 0 <= i < |draws| ==> 10000 <= draws[i] <= 99999
    modifies db
    ensures db.Valid()
    ensures (r, db.tables) == SaveOutcome(old(db.tables), id, row, draws)
  {
    var code := SavedCodeOf(db.tables.products, row, draws);
    if code.None? {
      r := Failure(CodesExhausted);
    } else {
      var category := row.category;
      if category.None? {
        var c := GetOrCreateDefaultCategory(db, row.business);
        category := Some(c);
      }
      assert (category.value, db.tables) == SavedCategory(old(db.tables), row);
      if CodeTaken(db.tables.products, row.business, code.value, id) {
        r := Failure(DuplicateProductCode);
      } else {
        var pid := WriteProduct(db, id, row.(productCode := code.value, category := category));
        r := Success(pid);
      }
    }
  }

  /**
   * How `Product.save` fails: for want of a code only when the code was empty
   * and the draws ran out, and then nothing changes; on a clash exactly when
   * another product of the business holds the submitted code.
   */
  lemma SaveFailures(t: Tables, id: Option<Id>, row: ProductRow, draws: seq<int>)
    requires forall i :: 0 <= i < |draws| ==> 10000 <= draws[i] <= 99999
    ensures var r := SaveOutcome(t, id, row, draws).0;
      r == Failure(CodesExhausted) <==>
        row.productCode == "" && FirstUnused(ProductCodes(draws), CodesInUse(t.products, row.business)).None?
    ensures SaveOutcome(t, id, row, draws).0 == Failure(CodesExhausted) ==> SaveOutcome(t, id, row, draws).1 == t
    ensures var r := SaveOutcome(t, id, row, draws).0;
      r == Failure(DuplicateProductCode) <==> row.productCode != "" && CodeTaken(t.products, row.business, row.productCode, id)
  {
    var code := SavedCode(t.products, row, draws);
    if code.Some? && row.productCode == "" {
      var t1 := SavedCategory(t, row).1;
      assert !CodeTaken(t1.products, row.business, code.value, id);
    }
  }

  /**
   * A successful `Product.save` stores the submitted row with the code and the
   * category filled in, under the row's own key or a key no product had, and
   * changes the products table at that key only.
   */
  lemma SaveStoresRow(t: Tables, id: Option<Id>, row: ProductRow, draws: seq<int>)
    requires forall i :: 0 <= i < |draws| ==> 10000 <= draws[i] <= 99999
    requires KeysBelow(t.products, t.nextId)
    requires SaveOutcome(t, id, row, draws).0.Success?
    ensures var (r, t') := SaveOutcome(t, id, row, draws);
      && r.value in t'.products && t'.products == t.products[r.value := t'.products[r.value]]
      && (id.Some? ==> r.value == id.value)
      && (id.None? ==> r.value !in t.products && t.nextId <= r.value)
      && t'.products[r.value].(productCode := row.productCode, category := row.category) == row
      && t'.products[r.value].productCode == SavedCode(t.products, row, draws).value
      && t'.products[r.value].category.Some?
  {
    var (category, t1) := SavedCategory(t, row);
    assert t1.nextId >= t.nextId;
  }

  /**
   * A successful `Product.save` keeps a submitted category and otherwise
   * stores the business's default category; a new product has its inventory.
   */
  lemma SaveCategoryAndInventory(t: Tables, id: Option<Id>, row: ProductRow, draws: seq<int>)
    requires forall i :: 0 <= i < |draws| ==> 10000 <= draws[i] <= 99999
    requires SaveOutcome(t, id, row, draws).0.Success?
    ensures var (r, t') := SaveOutcome(t, id, row, draws);
      && (row.category.Some? ==> t'.products[r.value].category == row.category)
      && (row.category.None? ==>
            t'.products[r.value].category.Some? &&
            IsDefaultCategory(t'.categories, t'.products[r.value].category.value, row.business))
      && t'.inventories == WithInventory(SavedCategory(t, row).1.inventories, r.value, id.None?)
      && SavedCategory(t, row).1.inventories == t.inventories
  {
  }

  /** The fields a client submits when creating a product; the code, the owner and the timestamps are not among them. */
  datatype ProductInput = ProductInput(
    name: string,
    category: Option<Id>,
    unit: Unit,
    cost: int,
    price: int,
    description: Option<string>,
    unlimitedStock: bool)

  /** The unsaved product `ProductSerializer.create` builds: owned by the requesting business, active, no code yet. */
  function NewProduct(business: Id, input: ProductInput, now: int): (p: ProductRow)
    ensures p.business == business && p.productCode == "" && p.isActive && p.createdAt == now
    ensures p.category == input.category && p.name == input.name && p.cost == input.cost && p.price == input.price
  {
    ProductRow(business, input.name, "", input.category, true, input.unit, input.cost, input.price,
               input.description, input.unlimitedStock, now)
  }

  /**
   * `ProductSerializer.create` on the tables: a category id that names no
   * category is refused; otherwise the product is saved for the requesting
   * business.
   */
  function CreateOutcome(t: Tables, business: Id, input: ProductInput, now: int, draws: seq<int>): (r: (Result<Id, CatalogError>, Tables))
    requires forall i :: 0 <= i < |draws| ==> 10000 <= draws[i] <= 99999
    ensures r.0 == Failure(UnknownCategory) <==> input.category.Some? && input.category.value !in t.categories
    ensures r.0 == Failure(UnknownCategory) ==> r.1 == t
  {
    if input.category.Some? && input.category.value !in t.categories then (Failure(UnknownCategory), t)
    else SaveOutcome(t, None, NewProduct(business, input, now), draws)
  }

  /** `ProductSerializer.create` */
  method CreateProduct(db: Store, business: Id, input: ProductInput, now: int, draws: seq<int>) returns (r: Result<Id, CatalogError>)
    requires db.Valid() && business in db.tables.businesses
    requires forall i :: 0 <= i < |draws| ==> 10000 <= draws[i] <= 99999
    modifies db
    ensures db.Valid()
    ensures (r, db.tables) == CreateOutcome(old(db.tables), business, input, now, draws)
  {
    if input.category.Some? && input.category.value !in db.tables.categories {
      return Failure(UnknownCategory);
    }
    r := SaveProduct(db, None, NewProduct(business, input, now), draws);
  }

  /**
   * A created product always gets a generated code, so the only failures are
   * an unknown category and running out of draws; on success it is a new key
   * holding an active product of the business, with a category, and it has its
   * inventory.
   */
  lemma CreateOutcomeSpec(t: Tables, business: Id, input: ProductInput, now: int, draws: seq<int>)
    requires forall i :: 0 <= i < |draws| ==> 10000 <= draws[i] <= 99999
    requires TablesValid(t)
    ensures var (r, t') := CreateOutcome(t, business, input, now, draws);
      && r != Failure(DuplicateProductCode)
      && (r == Failure(CodesExhausted) <==>
            !(input.category.Some? && input.category.value !in t.categories) &&
            FirstUnused(ProductCodes(draws), CodesInUse(t.products, business)).None?)
      && (r.Success? ==>
            && r.value !in t.products && r.value in t'.products
            && t'.products[r.value].business == business && t'.products[r.value].isActive
            && t'.products[r.value].createdAt == now && t'.products[r.value].category.Some?
            && t'.products[r.value].productCode == FirstUnused(ProductCodes(draws), CodesInUse(t.products, business)).value
            && r.value in t'.inventories)
  {
    if !(input.category.Some? && input.category.value !in t.categories) {
      var row := NewProduct(business, input, now);
      SaveFailures(t, None, row, draws);
      if SaveOutcome(t, None, row, draws).0.Success? {
        SaveStoresRow(t, None, row, draws);
        SaveCategoryAndInventory(t, None, row, draws);
      }
    }
  }
}

/**
 * The product endpoints of `ProductViewSet` and the price-update form
 * `PriceUpdateSerializer`: computing a new price, applying it, moving a
 * product to another category of its business, and the margin report.
 * Every endpoint sees only the products of the requesting business; a product
 * of another business is "not found", as is a missing one.
 */
module ProductApi {
  import opened Wrappers
  import opened Schema
  import opened Pricing
  import opened Catalog
  import opened Sorting

  /** What `PriceUpdateSerializer` refuses. */
  datatype PriceUpdateError =
    | PercentRequired        // cost_increase_percent missing
    | PercentOutOfRange      // outside [0, 1000]
    | CustomPriceTooLong     // more than 12 digits
    | CustomPriceRequired    // `validate`: no recommended price and no (non-zero) custom price

  datatype ApiError =
    | NotFound                               // no such row for the requesting business (404)
    | Invalid(errors: set<PriceUpdateError>)  // the form's errors (400)
    | CategoryCodeRequired                   // `move_to_category` without a code (400)
    | ZeroDivision                           // an unhandled division by zero (500)
    | UnknownStatusKey                       // the report has no list named "نامشخص" (500)

  /** The submitted price-update form; absent fields are None. */
  datatype PriceUpdateInput = PriceUpdateInput(
    costIncreasePercent: Option<real>,
    useRecommended: Option<bool>,
    customPrice: Option<int>)

  /** The validated form. */
  datatype PriceUpdate = PriceUpdate(costIncreasePercent: real, useRecommended: bool, customPrice: Option<int>)

  const MinPercent: real := 0.0
  const MaxPercent: real := 1000.0
  /** `max_digits=12, decimal_places=0`: at most twelve integer digits. */
  const CustomPriceBound: int := 1_000_000_000_000

  /** The field-level errors; DRF reports all of them together. */
  function FieldErrors(input: PriceUpdateInput): (errors: set<PriceUpdateError>)
    ensures PercentRequired in errors <==> input.costIncreasePercent.None?
    ensures PercentOutOfRange in errors <==>
              input.costIncreasePercent.Some? &&
              !(MinPercent <= input.costIncreasePercent.value <= MaxPercent)
    ensures CustomPriceTooLong in errors <==>
              input.customPrice.Some? && !(-CustomPriceBound < input.customPrice.value < CustomPriceBound)
    ensures CustomPriceRequired !in errors
  {
    (match input.costIncreasePercent
     case None => {PercentRequired}
     case Some(p) => if MinPercent <= p <= MaxPercent then {} else {PercentOutOfRange})
    + (match input.customPrice
       case Some(c) => if -CustomPriceBound < c < CustomPriceBound then {} else {CustomPriceTooLong}
       case None => {})
  }

  /**
   * `PriceUpdateSerializer.is_valid()`: the fields first, then `validate`, which
   * runs only on valid fields and refuses to go without the recommended price
   * unless a non-zero custom price is given. use_recommended defaults to true.
   */
  function ValidatePriceUpdate(input: PriceUpdateInput): (r: Result<PriceUpdate, set<PriceUpdateError>>)
    ensures r.Failure? ==> r.error != {}
    ensures r.Failure? && FieldErrors(input) != {} ==> r.error == FieldErrors(input)
    ensures r.Success? <==>
              && FieldErrors(input) == {}
              && (input.useRecommended.GetOr(true) || (input.customPrice.Some? && input.customPrice.value != 0))
    ensures r.Success? ==>
              r.value == PriceUpdate(input.costIncreasePercent.value, input.useRecommended.GetOr(true), input.customPrice)
  {
    var errors := FieldErrors(input);
    if errors != {} then Failure(errors)
    else
      var useRecommended := input.useRecommended.GetOr(true);
      if !useRecommended && (input.customPrice.None? || input.customPrice.value == 0) then Failure({CustomPriceRequired})
      else Success(PriceUpdate(input.costIncreasePercent.value, useRecommended, input.customPrice))
  }

  /** A validated form is within the field bounds. */
  lemma ValidatedBounds(input: PriceUpdateInput)
    requires ValidatePriceUpdate(input).Success?
    ensures var u := ValidatePriceUpdate(input).value;
            && MinPercent <= u.costIncreasePercent <= MaxPercent
            && (!u.useRecommended ==> u.customPrice.Some? && u.customPrice.value != 0)
            && (u.customPrice.Some? ==> -CustomPriceBound < u.customPrice.value < CustomPriceBound)
  {
  }

  /** `self.get_object()`: the product exists and belongs to the requesting business. */
  predicate Owned(products: map<Id, ProductRow>, business: Id, pid: Id)
  {
    pid in products && products[pid].business == business
  }

  /** `calculate_new_prices` on a stored product. */
  function Calculation(p: ProductRow, pct: real): Result<PriceCalculation, PricingError>
  {
    CalculateNewPrices(p.productCode, p.name, p.cost, p.price, pct)
  }

  /**
   * `calculate_price`: the repricing of the product for the submitted increase;
   * nothing is stored.
   */
  function CalculatePrice(t: Tables, business: Id, pid: Id, input: PriceUpdateInput): (r: Result<PriceCalculation, ApiError>)
    ensures r == Failure(NotFound) <==> !Owned(t.products, business, pid)
    ensures Owned(t.products, business, pid) && ValidatePriceUpdate(input).Failure? ==>
              r == Failure(Invalid(ValidatePriceUpdate(input).error))
    ensures r.Success? <==>
              Owned(t.products, business, pid) && ValidatePriceUpdate(input).Success? &&
              Calculation(t.products[pid], input.costIncreasePercent.value).Success?
    ensures r.Success? ==> Success(r.value) == Calculation(t.products[pid], input.costIncreasePercent.value)
  {
    if !Owned(t.products, business, pid) then Failure(NotFound)
    else
      var form := ValidatePriceUpdate(input);
      if form.Failure? then Failure(Invalid(form.error))
      else
        var pc := Calculation(t.products[pid], form.value.costIncreasePercent);
        if pc.Failure? then Failure(ZeroDivision) else Success(pc.value)
  }

  /** The reply of `apply_price_update`. */
  datatype PriceUpdateReply = PriceUpdateReply(newCost: int, newPrice: int, newMargin: real)

  /** The price `apply_price_update` stores: the recommended one, or the custom one. */
  function ChosenPrice(u: PriceUpdate, pc: PriceCalculation): (price: int)
    requires !u.useRecommended ==> u.customPrice.Some?
    ensures u.useRecommended ==> price == pc.recommendedPrice
    ensures !u.useRecommended ==> price == u.customPrice.value
  {
    if u.useRecommended then pc.recommendedPrice else u.customPrice.value
  }

  /**
   * A stored product written back under its own key with its own code always
   * saves: no other product of the business can hold that code.
   */
  lemma ResaveSucceeds(t: Tables, pid: Id, row: ProductRow)
    requires TablesValid(t) && pid in t.products
    requires row.productCode == t.products[pid].productCode && row.business == t.products[pid].business
    ensures SaveOutcome(t, Some(pid), row, []).0 == Success(pid)
  {
    var t1 := SavedCategory(t, row).1;
    assert t1.products == t.products;
    forall p | p in t.products && p != pid
      ensures !(t.products[p].business == row.business && t.products[p].productCode == row.productCode)
    {
      assert ProductsDiffer(t.products, p, pid);
    }
    assert !CodeTaken(t1.products, row.business, row.productCode, Some(pid));
  }

  /**
   * `apply_price_update` on the tables: the outcome and the tables afterwards.
   * The product's cost becomes the rounded new cost and its price the chosen
   * one, through `Product.save`; the reply's margin divides by the new price,
   * which fails after the save when that price is zero.
   */
  function ApplyOutcome(t: Tables, business: Id, pid: Id, input: PriceUpdateInput): (r: (Result<PriceUpdateReply, ApiError>, Tables))
    ensures r.0 == Failure(NotFound) <==> !Owned(t.products, business, pid)
    ensures !Owned(t.products, business, pid) || ValidatePriceUpdate(input).Failure? ==> r.1 == t
  {
    if !Owned(t.products, business, pid) then (Failure(NotFound), t)
    else
      var form := ValidatePriceUpdate(input);
      if form.Failure? then (Failure(Invalid(form.error)), t)
      else
        var p := t.products[pid];
        var pc := Calculation(p, form.value.costIncreasePercent);
        if pc.Failure? then (Failure(ZeroDivision), t)
        else
          var newPrice := ChosenPrice(form.value, pc.value);
          var t' := SaveOutcome(t, Some(pid), p.(cost := pc.value.costNew, price := newPrice), []).1;
          if newPrice == 0 then (Failure(ZeroDivision), t')
          else (Success(PriceUpdateReply(pc.value.costNew, newPrice,
                                          MarginPercent(newPrice as real, pc.value.costNew as real))), t')
  }

  /** `apply_price_update` */
  method ApplyPriceUpdate(db: Store, business: Id, pid: Id, input: PriceUpdateInput) returns (r: Result<PriceUpdateReply, ApiError>)
    requires db.Valid()
    modifies db
    ensures db.Valid()
    ensures (r, db.tables) == ApplyOutcome(old(db.tables), business, pid, input)
  {
    if !Owned(db.tables.products, business, pid) {
      return Failure(NotFound);
    }
    var form := ValidatePriceUpdate(input);
    if form.Failure? {
      return Failure(Invalid(form.error));
    }
    var p := db.tables.products[pid];
    var pc := Calculation(p, form.value.costIncreasePercent);
    if pc.Failure? {
      return Failure(ZeroDivision);
    }
    var newPrice := ChosenPrice(form.value, pc.value);
    var saved := SaveProduct(db, Some(pid), p.(cost := pc.value.costNew, price := newPrice), []);
    if newPrice == 0 {
      return Failure(ZeroDivision);
    }
    r := Success(PriceUpdateReply(pc.value.costNew, newPrice, MarginPercent(newPrice as real, pc.value.costNew as real)));
  }

  /**
   * Once the form is valid and the repricing succeeds, the product is stored
   * with the rounded new cost and the chosen price; its code, name, business,
   * unit and the rest stay as they were (a product without a category gets the
   * default one, as every save does).
   */
  lemma ApplyStoresPrices(t: Tables, business: Id, pid: Id, input: PriceUpdateInput)
    requires TablesValid(t)
    requires Owned(t.products, business, pid) && ValidatePriceUpdate(input).Success?
    requires Calculation(t.products[pid], input.costIncreasePercent.value).Success?
    ensures var u := ValidatePriceUpdate(input).value;
            var pc := Calculation(t.products[pid], u.costIncreasePercent).value;
            var t' := ApplyOutcome(t, business, pid, input).1;
            && pid in t'.products
            && t'.products[pid].cost == pc.costNew
            && t'.products[pid].price == (if u.useRecommended then pc.recommendedPrice else u.customPrice.value)
            && t'.products[pid].(cost := t.products[pid].cost, price := t.products[pid].price,
                                 category := t.products[pid].category) == t.products[pid]
            && (t.products[pid].category.Some? ==> t'.products[pid].category == t.products[pid].category)
  {
    var u := ValidatePriceUpdate(input).value;
    var p := t.products[pid];
    var pc := Calculation(p, u.costIncreasePercent).value;
    var row := p.(cost := pc.costNew, price := ChosenPrice(u, pc));
    ResaveSucceeds(t, pid, row);
    SaveStoresRow(t, Some(pid), row, []);
    SaveCategoryAndInventory(t, Some(pid), row, []);
  }

  /**
   * With the recommended price chosen, the stored price is the one
   * `calculate_price` reports for the same product and increase.
   */
  lemma ApplyAgreesWithCalculate(t: Tables, business: Id, pid: Id, input: PriceUpdateInput)
    requires TablesValid(t)
    requires CalculatePrice(t, business, pid, input).Success? && input.useRecommended.GetOr(true)
    ensures var t' := ApplyOutcome(t, business, pid, input).1;
            pid in t'.products && t'.products[pid].price == CalculatePrice(t, business, pid, input).value.recommendedPrice
  {
    ApplyStoresPrices(t, business, pid, input);
  }

  /**
   * A zero new price is stored and then fails the reply: the save happened
   * though the request errs.
   */
  lemma ApplyZeroPriceFailsAfterSave(t: Tables, business: Id, pid: Id, input: PriceUpdateInput)
    requires TablesValid(t)
    requires Owned(t.products, business, pid) && ValidatePriceUpdate(input).Success?
    requires Calculation(t.products[pid], input.costIncreasePercent.value).Success?
    requires ChosenPrice(ValidatePriceUpdate(input).value,
                         Calculation(t.products[pid], input.costIncreasePercent.value).value) == 0
    ensures ApplyOutcome(t, business, pid, input).0 == Failure(ZeroDivision)
    ensures pid in ApplyOutcome(t, business, pid, input).1.products
    ensures ApplyOutcome(t, business, pid, input).1.products[pid].price == 0
  {
    ApplyStoresPrices(t, business, pid, input);
  }

  /**
   * `move_to_category` on the tables: a missing or zero code is refused, the
   * code must name a category of the requesting business, and the product is
   * saved with that category.
   */
  function MoveOutcome(t: Tables, business: Id, pid: Id, code: Option<int>): (r: (Result<(), ApiError>, Tables))
    ensures !Owned(t.products, business, pid) ==> r == (Failure(NotFound), t)
    ensures Owned(t.products, business, pid) && (code.None? || code.value == 0) ==> r == (Failure(CategoryCodeRequired), t)
    ensures (Owned(t.products, business, pid) && code.Some? && code.value != 0 &&
             code.value !in CategoryCodes(t.categories, business)) ==> r == (Failure(NotFound), t)
  {
    if !Owned(t.products, business, pid) then (Failure(NotFound), t)
    else if code.None? || code.value == 0 then (Failure(CategoryCodeRequired), t)
    else match CategoryByCode(t.categories, business, code.value)
      case None => (Failure(NotFound), t)
      case Some(c) => (Success(()), SaveOutcome(t, Some(pid), t.products[pid].(category := Some(c)), []).1)
  }

  /** `move_to_category` */
  method MoveToCategory(db: Store, business: Id, pid: Id, code: Option<int>) returns (r: Result<(), ApiError>)
    requires db.Valid()
    modifies db
    ensures db.Valid()
    ensures (r, db.tables) == MoveOutcome(old(db.tables), business, pid, code)
  {
    if !Owned(db.tables.products, business, pid) {
      return Failure(NotFound);
    }
    if code.None? || code.value == 0 {
      return Failure(CategoryCodeRequired);
    }
    var category := CategoryByCode(db.tables.categories, business, code.value);
    if category.None? {
      return Failure(NotFound);
    }
    var saved := SaveProduct(db, Some(pid), db.tables.products[pid].(category := category), []);
    r := Success(());
  }

  /**
   * A move succeeds exactly when the code names a category of the business,
   * and then the product points at that category and nothing else about it
   * changes.
   */
  lemma MoveSpec(t: Tables, business: Id, pid: Id, code: Option<int>)
    requires TablesValid(t)
    ensures var (r, t') := MoveOutcome(t, business, pid, code);
            && (r.Success? <==> Owned(t.products, business, pid) && code.Some? && code.value != 0 &&
                                code.value in CategoryCodes(t.categories, business))
            && (r.Success? ==>
                  && pid in t'.products && t'.products[pid].category.Some?
                  && IsCategory(t'.categories, t'.products[pid].category.value, business, code.value)
                  && t'.products[pid].(category := t.products[pid].category) == t.products[pid]
                  && t' == t.(products := t.products[pid := t'.products[pid]]))
            && (r.Failure? ==> t' == t)
  {
    if Owned(t.products, business, pid) && code.Some? && code.value != 0 {
      var c := CategoryByCode(t.categories, business, code.value);
      if c.Some? {
        var row := t.products[pid].(category := c);
        ResaveSucceeds(t, pid, row);
        SaveStoresRow(t, Some(pid), row, []);
        SaveCategoryAndInventory(t, Some(pid), row, []);
      }
    }
  }

  /** One line of the status report. */
  datatype ReportEntry = ReportEntry(code: string, name: string, price: int, cost: int, margin: real)

  /** The report's three lists. */
  datatype Report = Report(green: seq<ReportEntry>, yellow: seq<ReportEntry>, red: seq<ReportEntry>)

  function EntryOf(p: ProductRow): ReportEntry
    requires p.price != 0
  {
    ReportEntry(p.productCode, p.name, p.price, p.cost, MarginPercent(p.price as real, p.cost as real))
  }

  /** The product has a status that names one of the report's lists. */
  predicate Listed(p: ProductRow)
  {
    GetStatus(p.cost, p.price).Success? && GetStatus(p.cost, p.price).value != Unknown
  }

  /** The loop body of `status_report`: append the product's line to the list its status names. */
  function AddEntry(report: Report, p: ProductRow): (r: Result<Report, ApiError>)
    ensures r.Success? <==> Listed(p)
  {
    match GetStatus(p.cost, p.price)
    case Failure(_) => Failure(ZeroDivision)
    case Success(status) =>
      match status
      case Green => Success(report.(green := report.green + [EntryOf(p)]))
      case Yellow => Success(report.(yellow := report.yellow + [EntryOf(p)]))
      case Red => Success(report.(red := report.red + [EntryOf(p)]))
      case Unknown => Failure(UnknownStatusKey)
  }

  /** The report over a listing, built front to back; the first unlisted product ends it. */
  function ReportOf(listing: seq<ProductRow>): Result<Report, ApiError>
  {
    if listing == [] then Success(Report([], [], []))
    else
      var rest := ReportOf(listing[..|listing| - 1]);
      if rest.Failure? then rest else AddEntry(rest.value, listing[|listing| - 1])
  }

  /** The products of one business, in key order. */
  function RowsOf(products: map<Id, ProductRow>, business: Id, keys: seq<Id>): (r: seq<ProductRow>)
    requires forall k :: k in keys ==> k in products
    ensures forall p :: p in r ==> p.business == business
    ensures forall k :: k in keys && products[k].business == business ==> products[k] in r
    ensures forall p :: p in r ==> exists k :: k in keys && products[k] == p
  {
    if keys == [] then []
    else
      var rest := RowsOf(products, business, keys[1..]);
      assert forall k :: k in keys ==> k == keys[0] || k in keys[1..];
      (if products[keys[0]].business == business then [products[keys[0]]] else []) + rest
  }

  function CreatedAt(p: ProductRow): Option<real>
  {
    Some(p.createdAt as real)
  }

  /** The product listing: the business's products, newest first (`ordering = ['-created_at']`). */
  function Listing(products: map<Id, ProductRow>, business: Id): (r: seq<ProductRow>)
    ensures SortedDesc(r, CreatedAt)
    ensures forall p :: p in r ==> p.business == business
    ensures forall k :: k in products && products[k].business == business ==> products[k] in r
  {
    var rows := RowsOf(products, business, SortedIds(products.Keys));
    SortDescMembers(rows, CreatedAt);
    SortDesc(rows, CreatedAt)
  }

  /**
   * The listing holds stored rows only, one per product of the business: the
   * same rows as the key-order scan, as many as the business has products.
   */
  lemma ListingRows(products: map<Id, ProductRow>, business: Id)
    ensures var r := Listing(products, business);
            && (forall p :: p in r ==> exists k :: k in products && products[k] == p)
            && |r| == |OwnedKeys(products, business)|
            && multiset(r) == multiset(RowsOf(products, business, SortedIds(products.Keys)))
  {
    var keys := SortedIds(products.Keys);
    var rows := RowsOf(products, business, keys);
    SortedIdsIncreasing(products.Keys);
    RowsOfCount(products, business, keys);
    assert OwnedAmong(products, business, keys) == OwnedKeys(products, business);
    SortDescMembers(rows, CreatedAt);
  }

  /** The keys of the business's products. */
  function OwnedKeys(products: map<Id, ProductRow>, business: Id): set<Id>
  {
    set k | k in products && products[k].business == business
  }

  /** The keys among `keys` of the business's products. */
  function OwnedAmong(products: map<Id, ProductRow>, business: Id, keys: seq<Id>): set<Id>
  {
    set k | k in keys && k in products && products[k].business == business
  }

  /** Over distinct keys, a business's rows are listed once per key. */
  lemma {:induction false} RowsOfCount(products: map<Id, ProductRow>, business: Id, keys: seq<Id>)
    requires forall k :: k in keys ==> k in products
    requires Increasing(keys)
    ensures |RowsOf(products, business, keys)| == |OwnedAmong(products, business, keys)|
  {
    if keys != [] {
      var tail := keys[1..];
      assert Increasing(tail) by {
        forall i, j | 0 <= i < j < |tail| ensures tail[i] < tail[j] {
          assert tail[i] == keys[i + 1] && tail[j] == keys[j + 1];
        }
      }
      RowsOfCount(products, business, tail);
      var rest := OwnedAmong(products, business, tail);
      assert keys[0] !in rest by {
        forall i | 0 <= i < |tail| ensures tail[i] != keys[0] {
          assert tail[i] == keys[i + 1];
        }
      }
      var mine := if products[keys[0]].business == business then {keys[0]} else {};
      assert OwnedAmong(products, business, keys) == mine + rest by {
        forall k ensures k in OwnedAmong(products, business, keys) <==> k in mine + rest {
          assert k in keys <==> k == keys[0] || k in tail;
        }
      }
    }
  }

  lemma {:induction false} ReportPrefixFails(listing: seq<ProductRow>, i: nat)
    requires i <= |listing| && ReportOf(listing[..i]).Failure?
    ensures ReportOf(listing) == ReportOf(listing[..i])
    decreases |listing| - i
  {
    if i < |listing| {
      assert listing[..i + 1][..i] == listing[..i];
      ReportPrefixFails(listing, i + 1);
    } else {
      assert listing[..i] == listing;
    }
  }

  /** `status_report` */
  method StatusReport(db: Store, business: Id) returns (r: Result<Report, ApiError>)
    ensures r == ReportOf(Listing(db.tables.products, business))
  {
    var listing := Listing(db.tables.products, business);
    var report := Report([], [], []);
    var i := 0;
    while i < |listing|
      invariant 0 <= i <= |listing|
      invariant ReportOf(listing[..i]) == Success(report)
    {
      assert listing[..i + 1][..i] == listing[..i] && listing[..i + 1][i] == listing[i];
      var next := AddEntry(report, listing[i]);
      if next.Failure? {
        ReportPrefixFails(listing, i + 1);
        return next;
      }
      report := next.value;
      i := i + 1;
    }
    assert listing[..i] == listing;
    r := Success(report);
  }

  /** The lines of the listed products with the given status, in listing order. */
  function Bucket(listing: seq<ProductRow>, status: Status): (r: seq<ReportEntry>)
    requires forall i :: 0 <= i < |listing| ==> Listed(listing[i])
  {
    if listing == [] then []
    else
      assert Listed(listing[0]);
      assert forall i :: 0 <= i < |listing[1..]| ==> listing[1..][i] == listing[i + 1];
      (if GetStatus(listing[0].cost, listing[0].price).value == status then [EntryOf(listing[0])] else [])
         + Bucket(listing[1..], status)
  }

  lemma {:induction false} BucketAppend(listing: seq<ProductRow>, p: ProductRow, status: Status)
    requires forall i :: 0 <= i < |listing| ==> Listed(listing[i])
    requires Listed(p)
    ensures forall i :: 0 <= i < |listing + [p]| ==> Listed((listing + [p])[i])
    ensures Bucket(listing + [p], status) ==
              Bucket(listing, status) + (if GetStatus(p.cost, p.price).value == status then [EntryOf(p)] else [])
  {
    if listing != [] {
      assert (listing + [p])[1..] == listing[1..] + [p];
      BucketAppend(listing[1..], p, status);
    }
  }

  /**
   * `status_report` succeeds exactly when every product has a status naming a
   * list (a zero cost gives "نامشخص", which does not), and then each list holds
   * exactly the lines of the products with that status, in listing order.
   */
  lemma {:induction false} ReportPartition(listing: seq<ProductRow>)
    ensures ReportOf(listing).Success? <==> forall i :: 0 <= i < |listing| ==> Listed(listing[i])
    ensures ReportOf(listing).Success? ==>
              ReportOf(listing).value == Report(Bucket(listing, Green), Bucket(listing, Yellow), Bucket(listing, Red))
    decreases |listing|
  {
    if listing != [] {
      var front, p := listing[..|listing| - 1], listing[|listing| - 1];
      assert listing == front + [p];
      ReportPartition(front);
      assert forall i :: 0 <= i < |front| ==> front[i] == listing[i];
      if ReportOf(front).Success? && Listed(p) {
        BucketAppend(front, p, Green);
        BucketAppend(front, p, Yellow);
        BucketAppend(front, p, Red);
      }
    }
  }

  /** A product with cost 0 in the listing makes the report fail. */
  lemma ZeroCostBreaksReport(listing: seq<ProductRow>, i: nat)
    requires i < |listing| && listing[i].cost == 0
    ensures ReportOf(listing).Failure?
  {
    ReportPartition(listing);
    assert !Listed(listing[i]);
  }
}

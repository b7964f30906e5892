# Firouzh ledger — a Dafny model

Firouzh is a small back office for shops that sell through Instagram, a web
site, the phone or in person. A business account (`Business`) keeps a
catalogue of categories and products. Each product has a five-digit code, a
cost, a price, a margin status (green, yellow or red against a fixed 55 %
target) and an inventory. Orders carry a generated order code and line items
whose price and cost are snapshots of the product. Saving an item draws down
the stock. The reports list delivered orders with their totals and best
seller, and a dashboard gives sales, profit, the top three products and a
per-period chart.

This project models that core as Dafny definitions and proves what it
promises. The database is the class `Schema.Store`: one field holds all the
tables as maps keyed by primary key (items as a sequence in key order), plus
the next key to hand out. `Store.Valid()` collects the database constraints:
foreign keys, the unique-together keys of categories and products, unique
order codes and business codes, the one-to-one inventory of a product, and
each item's derived subtotal and profit. `Store.Consistent()` adds the rule
that an order's total equals the sum of its items' subtotals. That rule holds
only once `calculate_total` has run, as it does in the source.

Every operation that writes to the database is a method on the store. Each
method's `ensures` ties the new tables to a function of the old ones (`…Outcome`,
`With…`, `Totalled`). Lemmas about those functions then state the behaviour
the source promises.

Pure computations are functions:

- the margin status and the repricing formula;
- base-36 order codes;
- the retry loops that draw random codes, modelled as a walk over a given
  sequence of draws;
- the report aggregates.

Loops in the source are loops here:

- `base36_encode`;
- the field whitelist of an order update;
- the item inserts of an order;
- the summing of an order's items;
- the two code generators;
- the status report.

Modules, one file each:

| file | module | models |
|---|---|---|
| wrappers.dfy | Wrappers | `Option` and `Result` |
| text.dfy | Text | decimal strings, `zfill`, ASCII case mapping, `icontains` |
| sorting.dfy | Sorting | a descending insertion sort used for every `order_by('-…')` |
| aggregates.dfy | Aggregates | `Sum` over rows, distinct grouping keys, ascending distinct keys |
| draws.dfy | Draws | the "draw until unused" loop shared by both code generators |
| schema.dfy | Schema | the rows, the tables, `Store` and its invariants |
| accounts.dfy | Accounts | `BusinessManager`, `Business.set_password`, permissions, business codes |
| pricing.dfy | Pricing | `Product.get_status`, `Product.calculate_new_prices` |
| catalog.dfy | Catalog | product codes, categories, the default category, `Product.save`, the inventory hook |
| stock.dfy | Stock | `Inventory.is_low_stock`, `add_stock`, `remove_stock` |
| productapi.dfy | ProductApi | `PriceUpdateSerializer` and the product view actions |
| ordercodes.dfy | OrderCodes | `generate_order_code`, `base36_encode` |
| orders.dfy | Orders | `OrderItem.save`, `calculate_subtotal`, `Order.save`, `calculate_total` |
| orderapi.dfy | OrderApi | `OrderSerializer.create`/`update`, the order view actions |
| reports.dfy | Reports | the report queryset, `stats`, `dashboard` |

Conventions:

- Money columns with no decimal places (`cost`, `price`) are `int`.
- Quantities, subtotals and totals are `real`.
- Timestamps are integer seconds on one clock.
- A random draw is an element of a sequence given as a parameter. A code
  generator that runs out of draws returns `None`.
- A Python exception becomes a `Failure`, for example the division by zero
  in `get_status` or the `KeyError` of the status report.
- An HTTP 404 or 400 becomes `Failure(NotFound)` or a validation error
  value.

## Model

| member | source | states |
|---|---|---|
| Accounts.SetPassword | accounts/models.py:62-65 | fails with PasswordTooShort exactly when the password is missing or shorter than 6 characters; otherwise stores the hash of the given password and changes nothing else |
| Accounts.CreateUser | accounts/models.py:8-21 | rejects an empty business code, then an empty recovery contact, then a short password, in that order, leaving the tables untouched; succeeds exactly when all three pass and the code and contact are unused; the new row gets a fresh key, the hashed password and the extra fields |
| Accounts.NewBusinessKeepsTables | accounts/models.py:30-44 | inserting a business whose code and recovery contact are unused keeps every table constraint |
| Accounts.SuperuserExtra | accounts/models.py:23-25 | is_staff and is_superuser default to true unless given; other extra fields pass through unchanged |
| Accounts.CreateSuperuser | accounts/models.py:23-26 | behaves exactly as CreateUser called with the superuser defaults: the same three rejections in the same order, nothing changed on failure, success exactly when the fields pass and the code and contact are unused, and then the same insert of the hashed-password row, whose staff and superuser flags default to true |
| Accounts.HasPerm | accounts/models.py:73-74 | any permission is granted exactly to superusers |
| Accounts.HasModulePerms | accounts/models.py:76-77 | module permissions are granted exactly to superusers |
| Accounts.RecoveryContactDigits | accounts/models.py:38-43 | without a trailing newline, the validator accepts exactly the strings of 10 to 15 ASCII digits |
| Accounts.RecoveryContactNewline | accounts/models.py:38-43 | with one trailing newline, the validator accepts exactly 10 to 15 ASCII digits followed by that newline, as `$` matches before a final newline |
| Accounts.BusinessCodeShape | accounts/utils.py:5-8 | a business code is 9 characters, "FZ-" followed by six digits without a leading zero that read back as the drawn number |
| Accounts.BusinessCodes | accounts/utils.py:7-8 | the candidate codes are the drawn numbers formatted one by one |
| Accounts.BusinessCodesInUse | accounts/utils.py:9 | exactly the codes of the stored businesses, the set the `exists()` query tests |
| Accounts.GenerateBusinessCode | accounts/utils.py:4-10 | returns the first candidate whose code no stored business carries, which has the "FZ-" shape and comes from one of the draws; None only when every draw is taken |
| Draws.FirstUnused | products/models.py:74-77 | the result is the first candidate not in the taken set, and every earlier candidate is taken; None exactly when all candidates are taken |
| Draws.FirstUnusedSkip | accounts/utils.py:6-10 | skipping a prefix of taken candidates does not change the outcome of the retry loop |
| Pricing.GetStatus | products/models.py:88-100 | the status is "unknown" exactly when cost is 0; a zero price with a non-zero cost raises a division by zero |
| Pricing.MarginAtLeast | products/models.py:93-97 | for a positive price, the margin percentage reaches a bound exactly when (price − cost)·100 ≥ bound·price |
| Pricing.StatusByIntegers | products/models.py:95-100 | with a positive price, green, yellow and red are decided by integer comparisons against 55 % and 10 % |
| Pricing.StatusExamples | products/models.py:88-100 | cost 45, 80, 95 and 0 on price 100 give green, yellow, red and unknown |
| Pricing.RoundHalfEven | products/models.py:118 | Python's `round` to an integer is within one half of its argument and picks the even neighbour on a tie |
| Pricing.RoundHalfEvenUnique | products/models.py:122 | any integer with those two properties is the rounding, so the rounding is uniquely defined |
| Pricing.RoundTenths | products/models.py:120 | the margin rounded to one decimal is within 0.05 of the exact margin |
| Pricing.CalculateNewPrices | products/models.py:102-124 | fails exactly when get_status would; the status reported is get_status's; should_update holds exactly when the current margin is below 55 % |
| Pricing.RecommendedHitsTarget | products/models.py:109-110 | the recommended price (cost / 0.45) has a margin of exactly 55 % |
| Pricing.ShouldUpdateByCost | products/models.py:112-123 | with a positive old price, an update is suggested exactly when the new cost exceeds 45 % of the old price |
| Pricing.RoundedOutputs | products/models.py:118-122 | the reported new cost and recommended price are within one half of their exact values |
| Pricing.RepriceExample | products/models.py:102-124 | cost 100, price 150 and a 20 % increase give new cost 120, recommended price 267, margin 20.0, yellow, update suggested |
| Catalog.ProductCode | products/models.py:75 | a product code is five digits, without a leading zero, that read back as the drawn number |
| Catalog.ProductCodes | products/models.py:74-75 | the candidate codes are the drawn numbers formatted one by one |
| Catalog.CodesInUse | products/models.py:76 | the set of codes in use is exactly the codes of that business's products |
| Catalog.GenerateProductCode | products/models.py:72-77 | returns the first drawn code that no product of the same business uses, five digits long; None only when every draw is taken |
| Catalog.CodesInUseOtherBusiness | products/models.py:57 | a product of another business does not change which codes are taken, so codes are unique per business only |
| Catalog.CategoryCodes | products/serializers.py:14 | the set is exactly the codes of the business's categories |
| Catalog.CategoryInsertWellFormed | products/models.py:15 | a category with a code unused in its business keeps (business, category_code) unique |
| Catalog.NewCategoryKeepsTables | products/models.py:7-16 | inserting such a category under the next key keeps every table constraint |
| Catalog.FindCategory | products/views.py:76-80 | the lookup finds a category of the business with the code among the keys searched, or there is none |
| Catalog.CategoryByCode | products/views.py:76-80 | a category is found exactly when the business has one with that code |
| Catalog.DefaultCategoryOf | products/models.py:79-86 | the default category (code 10) is found exactly when the business has one |
| Catalog.DefaultCategory | products/models.py:79-86 | returns the business's code-10 category; if there was none, creates exactly one named "سایر" under the next key and changes no other table |
| Catalog.DefaultCategoryIdempotent | products/models.py:81-85 | get_or_create a second time changes nothing |
| Catalog.DefaultCategoryKeepsTables | products/models.py:79-86 | get_or_create of the default category keeps every table constraint |
| Catalog.GetOrCreateDefaultCategory | products/models.py:79-86 | the method returns the category and leaves the tables that DefaultCategory describes |
| Catalog.MaxOf | products/serializers.py:14 | a non-empty set of codes has a largest member |
| Catalog.NextCategoryCode | products/serializers.py:14-15 | the next code is unused; 11 for the first category, otherwise one above the largest code |
| Catalog.CreateCategory | products/serializers.py:11-19 | the new category is stored under the next key with the next code of its business and the given name and flag |
| Catalog.WithInventory | products/signals.py:5-9 | on creation the product gets an inventory with quantity 0 and threshold 0 if it had none; no other inventory changes, and an update adds nothing |
| Catalog.WithInventoryIdempotent | products/signals.py:9 | running the hook twice is the same as once |
| Catalog.CreateProductInventory | products/signals.py:5-9 | the method leaves exactly the inventories that WithInventory describes |
| Catalog.ProductWriteWellFormed | products/models.py:57 | writing a product whose code is unused by the business's other products keeps (business, product_code) unique and the foreign keys valid |
| Catalog.ProductInsertKeepsTables | products/models.py:37-57 | inserting such a product under the next key keeps every table constraint |
| Catalog.ProductUpdateKeepsTables | products/models.py:57 | rewriting an existing product with such a row keeps every table constraint |
| Catalog.WriteProduct | products/models.py:70 | the row is inserted under the next key or replaces the given product, and the constraints still hold |
| Catalog.SavedCode | products/models.py:63-65 | a product that has a code keeps it; one without gets the first unused drawn code of its business |
| Catalog.SavedCodeOf | products/models.py:63-65 | the method computes the code that SavedCode describes |
| Catalog.SavedCategory | products/models.py:67-68 | a product that has a category keeps it; one without gets the default category, created if needed |
| Catalog.SaveOutcome | products/models.py:63-70 | saving never fails for an unknown category; on failure products and inventories are untouched; businesses, orders and items never change |
| Catalog.SaveProduct | products/models.py:63-70 | the method returns and leaves exactly what SaveOutcome describes, keeping the constraints |
| Catalog.SaveFailures | products/models.py:63-77 | save fails for lack of codes exactly when the product has no code and every draw is taken, and then nothing changes; it fails on a duplicate exactly when the given code is already used by another product of the business |
| Catalog.SaveStoresRow | products/models.py:63-70 | a successful save stores the row (new key for a new product, same key for an existing one) with only its code and category filled in, and changes no other product |
| Catalog.SaveCategoryAndInventory | products/models.py:67-70 | a saved product has its own category or the default category; the inventory hook runs on creation only |
| Catalog.NewProduct | products/serializers.py:38-40 | a created product belongs to the requesting business, is active, has no code yet and copies the input fields |
| Catalog.CreateOutcome | products/serializers.py:38-40 | creation fails for an unknown category exactly when the input names a category that does not exist, and then nothing changes |
| Catalog.CreateProduct | products/serializers.py:38-40 | the method returns and leaves exactly what CreateOutcome describes, keeping the constraints |
| Catalog.CreateOutcomeSpec | products/serializers.py:38-40 | creation never hits a duplicate code; it runs out of codes exactly when the category is known and every draw is taken; a created product is new, active, of the business, has a category, the first unused drawn code and an inventory |
| Stock.Added | products/models.py:151-154 | adding stock to an unlimited product changes nothing; otherwise the quantity grows by the amount |
| Stock.Removed | products/models.py:156-163 | removal succeeds exactly when the product is unlimited or has enough stock; only a successful limited removal lowers the quantity, by the amount |
| Stock.RemovedNonNegative | products/models.py:158-160 | removal never drives a non-negative quantity below zero |
| Stock.IsLow | products/models.py:144-149 | stock is low exactly when the product is limited, has a positive threshold, and the quantity is at or below it |
| Stock.IsLowStock | products/models.py:144-149 | an unlimited product is never low on stock |
| Stock.InventoryWriteKeepsTables | products/models.py:128 | rewriting the inventory of an existing product keeps every table constraint |
| Stock.AddStock | products/models.py:151-154 | only that product's inventory quantity changes, as Added says |
| Stock.RemoveStock | products/models.py:156-163 | reports success as Removed does and changes only that product's quantity |
| Stock.SeriesAccounting | products/models.py:156-163 | after a series of removals, the stock equals the start minus the amounts actually granted |
| Stock.SeriesNeverNegative | products/models.py:158 | a series of non-negative removals never makes stock negative |
| Stock.SeriesUnlimited | products/models.py:157 | removals never change an unlimited product's stock |
| Stock.SeriesWithEnoughStock | products/models.py:158-160 | with enough stock for all, every removal is granted and the stock drops by their sum |
| ProductApi.FieldErrors | products/serializers.py:43-45 | the percent is required and must lie in [0, 1000]; a custom price must fit 12 digits; field checks never raise the custom-price-required error |
| ProductApi.ValidatePriceUpdate | products/serializers.py:42-50 | valid exactly when the fields pass and either the recommended price is used (default true) or a non-zero custom price is given; field errors are reported before the cross-field rule |
| ProductApi.ValidatedBounds | products/serializers.py:43-50 | validated data has a percent in range and, unless the recommended price is used, a non-zero custom price |
| ProductApi.CalculatePrice | products/views.py:27-37 | a product of another business is not found; invalid input is rejected with its errors; otherwise the reply is the product's calculate_new_prices |
| ProductApi.ChosenPrice | products/views.py:48-51 | the new price is the recommended price or the custom one, as the flag says |
| ProductApi.ResaveSucceeds | products/views.py:53-55 | re-saving an existing product with its own code and business always succeeds under its key |
| ProductApi.ApplyOutcome | products/views.py:39-63 | a product of another business is not found; nothing is written unless the product is found and the input is valid |
| ProductApi.ApplyPriceUpdate | products/views.py:39-63 | the method returns and leaves exactly what ApplyOutcome describes, keeping the constraints |
| ProductApi.ApplyStoresPrices | products/views.py:46-55 | the stored cost is the rounded new cost and the stored price the chosen price; nothing else of the product changes except a default category for one that had none |
| ProductApi.ApplyAgreesWithCalculate | products/views.py:46-49 | applying with the recommended price stores exactly the price that calculate_price reported |
| ProductApi.ApplyZeroPriceFailsAfterSave | products/views.py:55-61 | a chosen price of 0 is saved and then the margin in the reply divides by zero |
| ProductApi.MoveOutcome | products/views.py:65-85 | a product of another business is not found; a missing or zero code is rejected; an unknown code of the business is not found; each leaves the tables unchanged |
| ProductApi.MoveToCategory | products/views.py:65-85 | the method returns and leaves exactly what MoveOutcome describes, keeping the constraints |
| ProductApi.MoveSpec | products/views.py:65-85 | a move succeeds exactly when the product is the business's and the code names one of its categories; then the product's category becomes that category, and every other field, every other product and every other table stay as they were; a refused move changes nothing |
| ProductApi.AddEntry | products/views.py:98-105 | a product can be listed exactly when its status is a report key and its margin is defined |
| ProductApi.RowsOf | products/views.py:22-25 | the rows are exactly the business's products among the keys |
| ProductApi.Listing | products/views.py:22-25 | the listing holds every product of the business and no other, newest first |
| ProductApi.ListingRows | products/views.py:22-25 | every listed row is a stored product, the listing has exactly one row per product of the business, and it holds the same rows as the key-order scan |
| ProductApi.RowsOfCount | products/views.py:22-25 | over distinct keys, the scan lists one row per key of a product of the business |
| ProductApi.ReportPrefixFails | products/views.py:97-105 | once one product fails, the whole report fails with that error |
| ProductApi.StatusReport | products/views.py:87-107 | the loop computes the report of the business's listing |
| ProductApi.BucketAppend | products/views.py:97-105 | appending a product adds its entry to the bucket of its status only |
| ProductApi.ReportPartition | products/views.py:91-107 | the report succeeds exactly when every product can be listed, and then the three lists partition the listing by status, in listing order |
| ProductApi.ZeroCostBreaksReport | products/views.py:98-99 | any product with cost 0 makes the report fail, because "unknown" is not a key of the report |
| OrderCodes.DigitChar36 | orders/models.py:107 | a base-36 digit is a character of the alphabet 0-9A-Z |
| OrderCodes.AlphabetAgrees | orders/models.py:107 | the arithmetic digit mapping agrees with the 36-character alphabet string |
| OrderCodes.DigitValue | orders/models.py:107 | reading a digit character back gives the digit it encodes |
| OrderCodes.Digits | orders/models.py:109-111 | the digits are from the alphabet, with no leading zero, and empty only for 0 |
| OrderCodes.Base36Encode | orders/models.py:104-112 | the divmod loop computes Base36 |
| OrderCodes.DigitsRoundTrip | orders/models.py:109-111 | decoding the digits gives the number back |
| OrderCodes.Base36Properties | orders/models.py:104-112 | 0 encodes as "0"; every encoding is in the alphabet, has no leading zero and decodes to the number |
| OrderCodes.DigitsLength | orders/models.py:109-111 | a number below 36^k has at most k digits |
| OrderCodes.UpperKeepsAlphabet | orders/models.py:100 | upper-casing an encoding changes nothing |
| OrderCodes.HourOfYear | orders/models.py:97-99 | T = day·24 + hour lies between 24 and 8807, so it has at most three base-36 digits |
| OrderCodes.Mid | orders/models.py:100 | the middle part is three alphabet characters |
| OrderCodes.Check | orders/models.py:101 | the check part is two decimal digits |
| OrderCodes.CheckNumber | orders/models.py:101 | the check number is below 100 |
| OrderCodes.GenerateOrderCode | orders/models.py:95-102 | an order code is nine characters long |
| OrderCodes.MidShape | orders/models.py:100 | the zero-filled upper-cased base-36 part is three alphabet characters and decodes to T |
| OrderCodes.CheckShape | orders/models.py:101 | the zero-filled check is two digits and reads back as the number |
| OrderCodes.OrderCodeShape | orders/models.py:95-102 | the code is "FZ-", then T in three base-36 digits, "-", then (id + T) mod 100 in two digits, and each part decodes back |
| OrderCodes.LeadingZerosBase36 | orders/models.py:100 | zero-filling does not change the base-36 value |
| OrderCodes.MidExample | orders/models.py:100 | T = 1090 is written "0UA" |
| OrderCodes.CheckExample | orders/models.py:101 | the check number 97 is written "97" |
| OrderCodes.OrderCodeExample | orders/models.py:95-102 | order 7 on day 45 at 10 o'clock gets the code FZ-0UA-97 |
| Orders.CalculateSubtotal | orders/models.py:77-80 | the subtotal is price·quantity and the profit (price − cost)·quantity; nothing else changes |
| Orders.SubtotalFixedPoint | orders/models.py:77-80 | recomputing leaves an item unchanged exactly when its amounts are already derived; recomputing is idempotent; profit equals subtotal minus cost·quantity |
| Orders.Snapshot | orders/models.py:83-86 | a zero submitted price or cost is replaced by the product's current one; a non-zero one is kept |
| Orders.SnapshotItem | orders/models.py:82-87 | the stored item has the snapshot price and cost, the given quantity and product, and derived amounts |
| Orders.SnapshotSubtotal | orders/models.py:82-87 | the stored subtotal is the line's snapshot price times its quantity |
| Orders.ItemAppendKeepsTables | orders/models.py:66-72 | appending an item of an existing order and product with derived amounts keeps every table constraint |
| Orders.CreateItem | orders/models.py:82-92 | the method appends the snapshot item and draws down the product's stock, as WithItem describes |
| Orders.WithItems | orders/serializers.py:45-46 | creating items changes only the items, the inventories' quantities and the key counter, by one key per item |
| Orders.CreateItems | orders/serializers.py:45-46 | the loop leaves exactly the tables WithItems describes, keeping the constraints |
| Orders.WithItemsStep | orders/serializers.py:45-46 | creating one more item extends the outcome of the prefix by one step |
| Orders.WithItemsKeepsTables | orders/serializers.py:45-46 | creating any number of items keeps every table constraint |
| Orders.WithItemsTotal | orders/serializers.py:45-47 | the order's subtotals grow by the sum of the new lines' snapshot subtotals |
| Orders.WithItemsOthers | orders/serializers.py:45-46 | other orders' items are unchanged |
| Orders.RemoveSeriesAppend | orders/models.py:90-92 | one more removal continues from the stock the earlier ones left |
| Orders.WithItemsStock | orders/models.py:90-92 | each product's stock afterwards is the outcome of removing, in order, the quantities of the lines for that product; the threshold does not change |
| Orders.Totalled | orders/models.py:60-63 | calculate_total changes no item and no set of orders |
| Orders.OrderRewriteKeepsTables | orders/models.py:60-63 | rewriting an order with its own key and code keeps every table constraint |
| Orders.CalculateTotal | orders/models.py:60-63 | the loop over the items leaves exactly the tables Totalled describes |
| Orders.TotalledConsistent | orders/models.py:60-63 | after calculate_total the order's total is the sum of its items' subtotals, so every total agrees |
| Orders.TotalledIdempotent | orders/models.py:60-63 | when the totals already agree, calculate_total changes nothing |
| Orders.WithItemsConsistentExcept | orders/serializers.py:45-47 | adding items to one order leaves every other order's total correct |
| Orders.SavedOrderCode | orders/models.py:53-57 | an order that has a code keeps it; otherwise the code is generated from its key, or from a random number when it has none yet |
| Orders.OrderSave | orders/models.py:53-58 | saving an order changes only the orders (and the key counter); a failed save changes nothing; a successful one stores the order |
| Orders.OrderInsertKeepsTables | orders/models.py:33 | inserting an order whose code is unused keeps every table constraint |
| Orders.OrderUpdateKeepsTables | orders/models.py:33 | rewriting an order with a code no other order uses keeps every table constraint |
| Orders.SaveOrder | orders/models.py:53-58 | the method returns and leaves exactly what OrderSave describes, keeping the constraints |
| Orders.OrderSaveSpec | orders/models.py:53-58 | a save succeeds exactly when the code is not used by another order, and stores the row with its key and code; a generated code has the "FZ-" shape |
| Orders.HourCodesExhausted | orders/models.py:95-102 | once all 100 check values of an hour are taken, a new order in that hour cannot be saved |
| OrderApi.NewOrderRow | orders/serializers.py:43-44 | a new order belongs to the requesting business, has no code and a zero total, and defaults to open and to now |
| OrderApi.CreateOutcome | orders/serializers.py:41-48 | creation fails for an unknown product exactly when a line names one, and then nothing changes |
| OrderApi.CreateOrder | orders/serializers.py:41-48 | the method returns and leaves exactly what CreateOutcome describes, keeping the constraints |
| OrderApi.NewOrderHasNoItems | orders/serializers.py:44 | an order under a fresh key has no items yet |
| OrderApi.CreateSpec | orders/serializers.py:41-48 | a created order has a new key and a code; its total is the sum of the line subtotals; every order total agrees afterwards |
| OrderApi.CreateStock | orders/serializers.py:45-46 | each product's stock is drawn down by the quantities of the new lines for it, in order |
| OrderApi.Patched | orders/serializers.py:53-56 | an update never changes the key, business, code, order date, total or creation time; each whitelisted field takes the given value if present |
| OrderApi.WhitelistCopiesPatch | orders/serializers.py:53-56 | copying the eight whitelisted fields one by one gives the patched order |
| OrderApi.CopyFields | orders/serializers.py:53-56 | the loop over the whitelist computes the patched order |
| OrderApi.DropItemsMembers | orders/serializers.py:60 | deleting an order's items keeps exactly the items of other orders |
| OrderApi.DropItemsDistinct | orders/serializers.py:60 | the remaining items keep distinct keys |
| OrderApi.DropItemsKeepsTables | orders/serializers.py:60 | deleting an order's items keeps every table constraint |
| OrderApi.DropItemsOf | orders/serializers.py:60 | afterwards the order has no items and other orders keep theirs |
| OrderApi.Rewritten | orders/serializers.py:50-63 | an update keeps the order and the products, and the set of inventories |
| OrderApi.UpdateOutcome | orders/serializers.py:50-64 | an update is refused as not found exactly when the order is not an open order of the business, and then nothing changes |
| OrderApi.UpdateOrder | orders/serializers.py:50-64 | the method returns and leaves exactly what UpdateOutcome describes, keeping the constraints |
| OrderApi.UpdateKeepsIdentity | orders/serializers.py:53-63 | the updated order is the patched order with its total recomputed from its items; every other order is unchanged |
| OrderApi.UpdateConsistent | orders/serializers.py:59-63 | totals agree afterwards; without items the items, stock and total are unchanged; with items the total is the sum of the new line subtotals |
| OrderApi.UpdateStock | orders/serializers.py:59-62 | replacing the items draws the stock down by the new lines' quantities, and does not restore what the old items took |
| OrderApi.DeliverOutcome | orders/views.py:37-43 | delivery is refused exactly when the order is not an open order of the business; otherwise only its status becomes delivered |
| OrderApi.Deliver | orders/views.py:37-43 | the method returns and leaves exactly what DeliverOutcome describes, keeping the constraints |
| OrderApi.OpenRows | orders/views.py:15-22 | the rows are exactly the open orders of the business among the keys |
| OrderApi.OpenOrders | orders/views.py:15-22 | the order list holds exactly the business's open orders, newest first, with the same multiplicities as the key-order scan |
| OrderApi.DeliverClosesOrder | orders/views.py:37-43 | a delivered order leaves the open list, cannot be delivered again and differs from before only in its status |
| OrderApi.MonthlySales | orders/views.py:24-35 | the sum is 0 when no open or delivered order of the business was created in the last 30 days |
| OrderApi.SalesNone | orders/views.py:33 | a sum over no counted orders is 0 |
| OrderApi.SalesAgree | orders/views.py:29-33 | the sum depends only on which orders are counted and their totals |
| OrderApi.DeliverKeepsMonthlySales | orders/views.py:29-33 | delivering an order does not change any business's monthly sales |
| Reports.Selected | reports/views.py:17-33 | a filtered queryset holds exactly the rows that pass the filter, and no more rows than it started with |
| Reports.ReportQueryset | reports/views.py:17-33 | the report lists exactly the business's delivered orders inside the date bounds whose code contains the search text ignoring case, by delivery date descending |
| Reports.SelectedAgree | reports/views.py:23-31 | two filters that agree on every row select the same rows |
| Reports.CodeFilterIgnoresCase | reports/views.py:29-31 | searching for the upper-cased code gives the same report |
| Reports.Lines | reports/views.py:44-46 | the lines are exactly the items of the reported orders, each with its product's name, quantity and revenue |
| Reports.LinesEmpty | reports/views.py:44-53 | there are no lines exactly when no item belongs to a reported order |
| Reports.Names | reports/views.py:46 | the product names are distinct and are exactly the names of the lines |
| Reports.GroupsOf | reports/views.py:46-47 | there is one group per product name |
| Reports.GroupsOfMembers | reports/views.py:46-47 | each group is a line's name with its summed quantity and revenue, with no repeats |
| Reports.RankedGroups | reports/views.py:44-48 | the ranking is by summed quantity descending, holds every name exactly once, and is empty exactly when there are no lines |
| Reports.RankedAbove | reports/views.py:48 | every group ranked above a name's group sold at least as much |
| Reports.TopProduct | reports/views.py:44-53 | there is no top product (quantity 0) exactly when there are no lines; otherwise it names a product that occurs, with that name's summed quantity |
| Reports.TopProductIsLargest | reports/views.py:48 | no product sold more than the top product |
| Reports.Average | reports/views.py:40 | the average is 0 with no orders, and otherwise times the count gives the total |
| Reports.Stats | reports/views.py:36-60 | total sales is the sum of the reported totals; the order count is the number of reported orders; the average is their ratio, 0 when there are none |
| Reports.StatsTopProduct | reports/views.py:44-53 | the top product is absent exactly when no item belongs to a reported order; otherwise it is the name of such an item, with its summed quantity, and no item's name sums to more |
| Reports.StatsEmpty | reports/views.py:39-53 | with no reported orders every statistic is zero and there is no top product |
| Reports.WindowOf | reports/views.py:68-84 | "daily", "weekly" and "yearly" choose their windows of 7, 28 and 1825 days; any other value means monthly, 180 days |
| Reports.WindowsWiden | reports/views.py:68-84 | the windows widen from daily to yearly, and a missing timeframe means monthly |
| Reports.Entries | reports/views.py:118-125 | there is one chart entry per counted order |
| Reports.SummaryOf | reports/views.py:93-104 | total profit is the sum over the orders of sales minus item cost |
| Reports.ProfitSplits | reports/views.py:103 | total profit is total sales minus total item cost |
| Reports.PeriodProfitSplits | reports/views.py:126-130 | a period's profit is its sales minus its item cost |
| Reports.Series | reports/views.py:134-135 | a series has one value per label |
| Reports.SeriesAt | reports/views.py:134-135 | each series value is the sum of its period's entries |
| Reports.Labels | reports/views.py:131-133 | the labels are exactly the periods that occur, each once, ascending |
| Reports.ChartOf | reports/views.py:118-135 | labels, sales and profit have equal length; labels ascend and are exactly the periods that occur; each period's sales are its orders' totals and its profit is those sales minus its items' cost |
| Reports.ChartAsWritten | reports/views.py:118-135 | as written, a period whose orders have no items gets profit 0; every other value agrees with ChartOf |
| Reports.SeriesPartition | reports/views.py:118-125 | when every entry's period is a label, the series sums to the total over all entries |
| Reports.ChartAddsUp | reports/views.py:93-135 | the chart's sales and profit add up to the summary's total sales and total profit |
| Reports.ChartDropsItemlessProfit | reports/views.py:126-135 | where ChartAsWritten and ChartOf part: an entry of 100 with no items has summary profit 100, profit 0 in the chart as written and 100 in ChartOf; consistent tables never hold such an entry (Reports.DashboardChartAgrees) |
| Reports.ChartAsWrittenAgrees | reports/views.py:118-135 | when no entry without items has sales or cost, the chart as written equals ChartOf |
| Reports.EntriesItemlessEmpty | orders/models.py:60-63 | on consistent tables a counted order without items has total 0 and no item cost |
| Reports.DashboardChartAgrees | reports/views.py:118-135 | on consistent tables, which every modelled write of orders leaves, the dashboard's chart equals the chart as the view computes it, summed per order (see the Reports.DashboardOf line under "## Left out"), item-less periods included |
| Reports.TopProducts | reports/views.py:107-115 | at most three products, by summed quantity descending |
| Reports.TopProductsAreTop | reports/views.py:107-115 | three products unless fewer names occur; each carries its name's summed quantity and revenue; names are distinct; no product left out sold more than a listed one |
| Reports.DashboardRows | reports/views.py:86-90 | the rows are exactly the business's open or delivered orders created since the window start |
| Reports.DashboardOf | reports/views.py:66-152 | at most three top products in rank order; a chart of equal-length ascending series; profit is sales minus item cost; the chart adds up to the summary |
| Reports.DashboardSummary | reports/views.py:93-104 | the order count is the number of counted orders and total sales the sum of their totals |
| Reports.EntriesSales | reports/views.py:94 | the entries' sales sum to the counted orders' totals |
| Text.ContainsIgnoreCase | reports/views.py:31 | `icontains` holds exactly when the lower-cased needle occurs in the lower-cased text |
| Text.ZFill | orders/models.py:100 | zfill pads with zeros on the left to the width and keeps the string as its suffix |
| Text.ZFillDigits | orders/models.py:101 | zero-filling digits keeps their value |
| Text.NatToString | orders/models.py:101 | `str` of a number is digits without a leading zero |
| Text.NatToStringRoundTrip | orders/models.py:101 | reading `str` of a number back gives the number |
| Sorting.SortDesc | reports/views.py:33 | a descending sort is sorted, has the same elements with the same multiplicities, and the same length |
| Aggregates.TotalPermutation | reports/views.py:39 | a sum does not depend on the order of the rows |
| Aggregates.Distinct | reports/views.py:46 | grouping keys are taken once each, and exactly those that occur |
| Aggregates.AscendingDistinct | reports/views.py:131 | ordering the distinct periods gives each once, strictly ascending |

## Left out

- HTTP, authentication and routing are left out. Every view is modelled for an authenticated business passed in as a parameter. The empty querysets of anonymous requests are not modelled.
- Randomness, the clock and the calendar are parameters: the random draws, `now`, and the day of the year and hour of an order date. The dashboard's `Trunc*` functions are a given `truncate` function from a bucket and a timestamp to a period number.
- Password hashing (`make_password`) is a given function. `check_password` is not part of this model.
- Accounts.GenerateBusinessCode: the source retries forever; the model walks a finite sequence of draws and returns None when all are taken.
- Catalog.GenerateProductCode: the same, for product codes.
- Orders.SaveOrder: a generated order code that collides with another order is rejected as a failure, where the database's unique constraint would raise. The source does not retry: the integrity error surfaces as a server error. The code has no year component, so the 100 codes of one hour-of-year are shared by all businesses and all years (Orders.HourCodesExhausted).
- Floating point is left out. `calculate_new_prices` converts to `float`, and the inventory fields are `FloatField`; the model uses exact reals. `round` is modelled as round-half-even on those exact values. Quantities are one numeric type.
- Orders.SnapshotItem: a line's quantity is required; the source's `default=1` for an omitted quantity (orders/models.py:68) is not modelled.
- ProductApi.MoveOutcome: the category code is modelled as a JSON integer, so 0 is refused as missing. A form-encoded "0" is a non-empty string in the source, passes the `if not category_code` test and then fails the lookup with 404.
- Orders.CreateItem: the source's `remove_stock(self.quantity)` subtracts a `Decimal` item quantity from the inventory's `float` quantity, which raises `TypeError` whenever a limited product has enough stock. The request then fails after the item row is saved, so the later items and `calculate_total` are skipped. The model debits the stock and goes on.
- Decimal storage rounding is left out. `DecimalField` values are stored exactly; the digit limits (`max_digits`) and the rounding of quantities to three places and amounts to whole units are not enforced, except for the custom price bound of the price-update form.
- Reports.DashboardOf: sums per order. The source computes `Sum('total_amount')`, `Count('id')` and the item cost in one aggregate over a join of orders with their items. That multiplies an order's total by its number of items; the model sums each order once, as the summary's names say.
- Reports.ChartOf: the same per-order reading applies to the chart's sales. ChartOf is the chart as written wherever the tables are consistent (Reports.DashboardChartAgrees).
- Reports.TopProduct: among products with equal quantities, which one the database returns first is not modelled. The model returns one of the tied names; which one is not part of its contract.
- Reports.TopProducts: the same for ties at the third place.
- Reports.ReportQueryset: an order without a delivery date is placed last in the descending order, as SQLite does. Other databases may put it first.
- The date parameters `from_date` and `to_date` are integer timestamps. Parsing of date strings is not modelled.
- The chart labels are period numbers. `strftime` formatting of labels is not modelled.
- Text.ContainsIgnoreCase: case folding covers ASCII letters only.
- The inventory hook in products/signals.py is modelled as an explicit step of `Product.save` on creation. The file as given does not import `Product` or `Inventory`, and the code that connects the receiver is not part of this model.
- `updated_at`, `created_at` auto-updates and the Shamsi date fields of the order serializer are not modelled. `created_at` is set from `now` when a row is created.
- The `PUT` requirement that every order field be present is not modelled: an update takes a partial patch.
- Concurrency between requests is not modelled. Each request runs alone on the tables.
- reports/serializers.py, products/admin.py and the account views are not part of this model.

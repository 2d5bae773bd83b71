# Inventory service model

A Dafny model of a small stock-tracking service. The service stores products
in one JSON map keyed by product id. It offers four operations: add a
product, query its status, restock every product by a priority rule, and
purchase units of a product.

- `schema.dfy` (module `Schema`): the validated request body of a new
  product (`Product`) and the stored record (`Record`). A stored record is a
  JSON object that may lack any key, so each field is an `Option`, and its
  priority is any string. The module also holds the field keys, the derived
  `Status` and the status view.
- `storage.dfy` (module `Storage`): the restock policy `AutoRestock` and the
  validity predicate `ValidateProduct`, both pure functions of one record.
- `service.dfy` (module `Service`): the status rule, the outcome kinds and
  the replies the handlers give, the add-time adjustments, the batch restock
  loop and its specification functions, and the class `Inventory`, which
  holds the store's map (`data`) and a count of writes (`saves`). Each
  operation reads `data` as its load and assigns it as its save.

Modelling decisions:
- `int(restock_quantity * 1.5)` is three halves truncated toward zero. This
  is stated for negative quantities too, since an add does not reject them.
- `stock < min_threshold * 0.7` is modelled as the exact comparison
  `10 * stock < 7 * min_threshold`.
- Field values, when present, are assumed to have the kinds the request
  schema gives them (integers for counts, strings otherwise).
- A handler reads an absent field of a stored record as a lookup failure
  (`MissingField`). The status query and a purchase read `min_threshold`
  only when the stock is not zero. A purchase writes the store before it
  derives the status, so a purchase on a record without a threshold is saved
  and is still reported as a failure.
- Each handler raises 400 or 404 for a rejected request, but inside a `try`
  whose `except Exception` turns it into 500. The model follows the code
  (`AsWrittenReply`). The mapping the raised codes intend is `IntendedReply`
  (see Findings).
- The batch restock visits keys in any order; the source visits them in the
  file's order. Each product's result depends only on its own record, so the
  outcome does not depend on the order.

## Model

| member | source | states |
|---|---|---|
| `Schema.PriorityName` | schema.py:12 | each priority is stored as its own literal: Low as "low", Medium as "medium", High as "high" |
| `Schema.ToRecord` | test.py:39 | the record written for a product holds every field with the product's own value (id, name, counts, category) and the product's priority spelled as its literal |
| `Storage.MissingFrom` | storage.py:33-35 | the missing list holds exactly the required fields the record lacks, and no more entries than the required list |
| `Storage.BelowSeventyPercent` | storage.py:42 | the integer comparison `10 * stock < 7 * threshold` holds exactly when stock < 0.7 * threshold over the reals |
| `Storage.HighAmount` | storage.py:39-40 | `int(q * 1.5)` is 3q/2 truncated toward zero: for q >= 0, 2a <= 3q < 2a + 2; for q < 0, 2a - 2 < 3q <= 2a <= 0 |
| `Storage.AutoRestock` | storage.py:30-54 | fails exactly when one of the four inputs is absent, naming every absent one and nothing else; otherwise the amount is within [0, 3q/2] for q >= 0, at most 10 for "low", and 0 for an unknown priority |
| `Storage.AutoRestockHigh` | storage.py:39-40 | "high" with stock below the threshold gives `int(q * 1.5)` |
| `Storage.AutoRestockMedium` | storage.py:42-43 | "medium" with stock below 70% of the threshold gives exactly q |
| `Storage.AutoRestockLow` | storage.py:46-47 | "low" with stock 0 gives min(q, 10) |
| `Storage.AutoRestockNoRule` | storage.py:49 | a complete record that no rule matches (including an unknown priority) gives 0 |
| `Storage.AutoRestockExamples` | storage.py:33-49 | high 5/10 with 20 gives 30; medium 6/10 with 15 gives 15; low empty with 25 gives 10; low with 1 unit gives 0; a missing priority gives an error naming it |
| `Storage.ValidateProduct` | storage.py:56-78 | valid iff all seven fields are present, the priority is one of the three and stock, threshold and restock quantity are all >= 0 |
| `Storage.ValidRecordRestocks` | storage.py:30-78 | on a valid record the policy never fails and gives a non-negative amount |
| `Service.StatusOf` | test.py:62-67 | stock 0 is out of stock whatever the threshold; otherwise below the threshold is below_threshold; otherwise ok |
| `Service.StatusMonotone` | test.py:62-67 | for non-negative stock, more stock never gives a worse status |
| `Service.AsWrittenReply` | test.py:48-50 | every failure reaches the caller as 500 with no success payload; only a success gives 200 |
| `Service.IntendedCode` | test.py:117-132 | 404 exactly for an unknown id, 400 exactly for duplicate, negative stock, bad quantity or insufficient stock, 500 exactly for a missing field |
| `Service.IntendedReply` | test.py:117-132 | each failure reaches the caller with the code it was raised with |
| `Service.ClientErrorsBecomeInternal` | test.py:153-155 | the as-written and intended replies agree exactly on successes and internal failures; every 400 and 404 is replaced by 500 |
| `Service.Admitted` | test.py:25-29 | a high priority ends with a threshold of 10 or more; the threshold changes only from below 10 to 10 and only for high; category is "high_volume" iff restock > 50, else "low_volume"; nothing else changes |
| `Service.AdmittedExamples` | test.py:25-29 | high with threshold 5 is stored with 10; restock 60 is high volume and restock 40 is low volume |
| `Service.AddedRecordValidity` | test.py:25-39 | an added record passes `validate_product` iff stock and restock quantity are >= 0 and the threshold is >= 0 or the priority is high |
| `Service.WellKeptValidity` | storage.py:56-78 | a record the service wrote is valid iff its threshold and restock quantity are >= 0, and the policy never fails on it |
| `Service.RestockLoop` | test.py:82-95 | the loop's map is the restocked inventory and its report is the restock report, whatever the visiting order |
| `Service.RestockedInventory` | test.py:82-95 | the key set is unchanged; a product the policy gives a positive amount has its stock raised by exactly that amount; every other product, including a malformed one, keeps its record |
| `Service.RestockReport` | test.py:89-92 | the report holds exactly the products the policy gives a positive amount, never one missing a policy input, each with the amount added and its new stock |
| `Service.ReportPartition` | test.py:100-104 | restocked and skipped products partition the inventory, so restocked + skipped = inventory size |
| `Service.NothingRestockedNothingChanged` | test.py:97-98 | when nothing is restocked, the inventory is exactly as it was |
| `Service.RestockKeepsWellKept` | test.py:85-88 | restocking keeps every record one the service could have written |
| `Service.RestockNeverWorsens` | test.py:85-88 | restocking never lowers a non-negative stock, strictly raises it when restocked, and never worsens the status |
| `Service.RestockOneGoodOneBroken` | test.py:82-104 | with one restockable and one malformed record, the first is restocked, the second skipped, and the skipped count is 1 |
| `Service.Inventory.Empty` | storage.py:18-20 | a store with no file loads as the empty map |
| `Service.Inventory.Stored` | storage.py:21-22 | a store with a file loads that map as it is |
| `Service.Inventory.AddProduct` | test.py:20-47 | a duplicate id is rejected before a negative stock; either rejection leaves the store unwritten; otherwise the adjusted product is inserted, the count is the old size + 1, the other entries are unchanged, and the store invariant is kept |
| `Service.Inventory.GetProductStatus` | test.py:52-70 | an unknown id is NotFound; otherwise the view holds the id, stock, priority and the status rule's result; the threshold is needed only when the stock is not zero; a kept record always succeeds |
| `Service.Inventory.RestockAll` | test.py:76-105 | the new store is the restocked inventory with the same keys; the report lists exactly the restocked products; restocked + skipped = inventory size; the store is written once iff something was restocked |
| `Service.Inventory.PurchaseProduct` | test.py:111-151 | rejections come in order (unknown id, quantity <= 0, missing stock, quantity above stock with the available amount) and leave the store unwritten; otherwise only that product's stock drops by exactly the quantity, the store is written, and the new status is the status rule on the new stock (so buying it all gives out_of_stock) |

## Left out

- `load_inventory` and `save_inventory` (storage.py:18-27) do file I/O. The file becomes the `data` field; loading a missing file is the `Empty` constructor; every write is counted in `saves`.
- The web framework layer is not modelled: routing, `async`, request-body parsing and the `response_model` projection. The status view takes its `productId` from the requested id, not from the stored record. For every record the service writes these agree (`WellKept`). The projection's own validation of the stored `product_id` and `priority` is not modelled.
- Logging calls and the logger configuration (test.py:9-18 and throughout) have no effect on results and are left out.
- The unused module-level `inventory = {}` objects (test.py:8, storage.py:14) and the extra `app` in storage.py:12 are left out.
- Field values of the wrong kind in a hand-edited file are not modelled. In the source they would raise a `TypeError`, which `auto_restock` turns into a `ValueError`.
- The catch-all in `restock_all` (test.py:106-108) is not modelled, because no failure can reach it once field kinds are fixed. `RestockAll` therefore returns its summary directly.
- `validate_product` is modelled but nothing in the service calls it.
- Storage.HighAmount: states exact three-halves truncation. The source computes a double, which rounds for quantities beyond 2^52.
- Storage.BelowSeventyPercent: an exact comparison. The source compares against the rounded double `min_threshold * 0.7`.
- Concurrency between requests (lost updates between load and save) is not modelled. Each operation runs alone.

## Findings

| source | as written | input that shows it | evidently intended | confidence | as-written member | corrected member |
|---|---|---|---|---|---|---|
| test.py:48-50 | each handler's `except Exception` also catches the `HTTPException` raised inside its own `try`, so 400 and 404 reach the caller as 500 (also test.py:71-73 and 153-155) | a purchase of an unknown id is raised as 404 and replied as 500 | the raised 404 or 400 reaches the caller | high (not executed) | `Service.AsWrittenReply` (discrepancy in `Service.ClientErrorsBecomeInternal`) | `Service.IntendedReply` |

/** The inventory service: adding a product, the status query, the batch
    restock and purchases, run against the store's product map. */
module Service {
  import opened Schema
  import opened Storage

  // ---------------------------------------------------------------------------
  // Status rule

  /** The three-way status of a stock level against its threshold. */
  function StatusOf(stock: int, threshold: int): (s: Status)
    ensures s == OutOfStock <==> stock == 0
    ensures s == BelowThreshold <==> stock != 0 && stock < threshold
    ensures s == Ok <==> stock != 0 && stock >= threshold
  {
    if stock == 0 then OutOfStock else if stock < threshold then BelowThreshold else Ok
  }

  /** Statuses ordered from worst to best. */
  function Rank(s: Status): nat {
    match s
    case OutOfStock => 0
    case BelowThreshold => 1
    case Ok => 2
  }

  /** For non-negative stock, more stock never gives a worse status. */
  lemma StatusMonotone(less: int, more: int, threshold: int)
    requires 0 <= less <= more
    ensures Rank(StatusOf(less, threshold)) <= Rank(StatusOf(more, threshold))
  {
  }

  // ---------------------------------------------------------------------------
  // Outcomes

  /** Why an operation did not complete. `MissingField` is the lookup of an
      absent field in a stored record. */
  datatype Failure =
    | NotFound
    | Duplicate
    | NegativeStock
    | BadQuantity
    | Insufficient(available: int)
    | MissingField(field: Field)

  type Outcome<T> = Result<T, Failure>

  /** The reply of a handler: a status code and, on success, a body. */
  datatype Reply<T> = Reply(code: int, body: Option<T>)

  /** The replies as the handlers give them: every failure raised inside a
      handler, its own 400 and 404 included, is caught by the handler's
      catch-all and replaced by 500. */
  function AsWrittenReply<T>(o: Outcome<T>): (r: Reply<T>)
    ensures r.code == 200 <==> o.Success?
    ensures r.code != 200 ==> r.code == 500 && r.body.None?
    ensures o.Success? ==> r.body == Some(o.value)
  {
    match o
    case Success(v) => Reply(200, Some(v))
    case Failure(_) => Reply(500, None)
  }

  /** The code each failure is raised with: 404 for an unknown product, 400 for
      a rejected request, 500 for anything else. */
  function IntendedCode(f: Failure): (c: int)
    ensures c == 404 <==> f == NotFound
    ensures c == 400 <==> f.Duplicate? || f.NegativeStock? || f.BadQuantity? || f.Insufficient?
    ensures c == 500 <==> f.MissingField?
  {
    match f
    case NotFound => 404
    case Duplicate => 400
    case NegativeStock => 400
    case BadQuantity => 400
    case Insufficient(_) => 400
    case MissingField(_) => 500
  }

  /** The replies with each raised code passed through to the caller. */
  function IntendedReply<T>(o: Outcome<T>): (r: Reply<T>)
    ensures o.Success? ==> r == Reply(200, Some(o.value))
    ensures o.Failure? ==> r.body.None? && r.code == IntendedCode(o.error)
  {
    match o
    case Success(v) => Reply(200, Some(v))
    case Failure(f) => Reply(IntendedCode(f), None)
  }

  /** The two agree on every success and every internal failure, and differ on
      exactly the client errors, which the handlers turn into 500. */
  lemma ClientErrorsBecomeInternal<T>(o: Outcome<T>)
    ensures AsWrittenReply(o) == IntendedReply(o) <==> o.Success? || o.error.MissingField?
    ensures o.Failure? && !o.error.MissingField? ==>
              AsWrittenReply(o).code == 500 && IntendedReply(o).code in {400, 404}
  {
  }

  // ---------------------------------------------------------------------------
  // Adding a product

  /** What a successful add returns: the stored product and the new count. */
  datatype Added = Added(product: Product, inventoryCount: nat)

  /** The product as an add stores it: a high-priority threshold below 10 is
      raised to 10, and the category is derived from the restock quantity. */
  function Admitted(p: Product): (q: Product)
    ensures q.priority == High ==> q.minThreshold >= 10
    ensures q.minThreshold != p.minThreshold ==> q.priority == High && p.minThreshold < q.minThreshold == 10
    ensures q.category == Some("high_volume") <==> p.restockQuantity > 50
    ensures q.category == Some("low_volume") <==> p.restockQuantity <= 50
    ensures q.(minThreshold := p.minThreshold, category := p.category) == p
  {
    var raised := if p.priority == High && p.minThreshold < 10 then p.(minThreshold := 10) else p;
    raised.(category := Some(if raised.restockQuantity > 50 then "high_volume" else "low_volume"))
  }

  /** The worked cases: high with threshold 5 is stored with 10; restock 60 is
      high volume and restock 40 low volume. */
  lemma AdmittedExamples()
    ensures Admitted(Product("p", "n", 0, 5, 20, High, None)).minThreshold == 10
    ensures Admitted(Product("p", "n", 0, 5, 60, Low, None)).category == Some("high_volume")
    ensures Admitted(Product("p", "n", 0, 5, 40, Low, None)).category == Some("low_volume")
  {
  }

  /** An add checks the stock but not the threshold or restock quantity, so the
      record it writes passes the validity predicate only when those are
      non-negative too (a high priority always ends with a threshold of 10 or more). */
  lemma AddedRecordValidity(p: Product)
    ensures ValidateProduct(ToRecord(Admitted(p))) <==>
              p.stockQuantity >= 0 && p.restockQuantity >= 0 && (p.priority == High || p.minThreshold >= 0)
  {
  }

  // ---------------------------------------------------------------------------
  // Records the service itself writes

  /** A record as the service writes it under key `id`: the key is its
      identifier, every field is present, the priority is known and the stock
      is not negative. Nothing here forbids a negative threshold or restock
      quantity, since adding a product does not check them. */
  predicate WellKept(id: string, r: Record) {
    && r.productId == Some(id)
    && r.name.Some? && r.stockQuantity.Some? && r.minThreshold.Some?
    && r.restockQuantity.Some? && r.priority.Some? && r.category.Some?
    && r.priority.value in PriorityNames
    && r.stockQuantity.value >= 0
  }

  /** Every record of the map is kept under its own key. */
  predicate AllWellKept(inventory: map<string, Record>) {
    forall id :: id in inventory ==> WellKept(id, inventory[id])
  }

  /** A kept record passes the validity predicate exactly when its threshold and
      restock quantity are non-negative; the restock policy never fails on it. */
  lemma WellKeptValidity(id: string, r: Record)
    requires WellKept(id, r)
    ensures ValidateProduct(r) <==> r.minThreshold.value >= 0 && r.restockQuantity.value >= 0
    ensures AutoRestock(r).Success?
  {
  }

  // ---------------------------------------------------------------------------
  // Restocking

  /** The policy asks for a positive amount for this record. */
  predicate Restocks(r: Record) {
    AutoRestock(r).Success? && AutoRestock(r).value > 0
  }

  /** What the batch restock reports for one restocked product. */
  datatype Restock = Restock(added: int, newStock: int)

  /** The record after the batch restock: stock raised by the policy's amount
      when that amount is positive, otherwise unchanged. */
  function RestockedRecord(r: Record): Record {
    if Restocks(r) then r.(stockQuantity := Some(r.stockQuantity.value + AutoRestock(r).value)) else r
  }

  /** The report entry of a restocked record. */
  function ReportEntry(r: Record): Restock
    requires Restocks(r)
  {
    Restock(AutoRestock(r).value, r.stockQuantity.value + AutoRestock(r).value)
  }

  /** Every product after the batch restock: a product the policy gives a
      positive amount has its stock raised by exactly that amount, every other
      product keeps its record, and no key is added or removed. */
  function RestockedInventory(inventory: map<string, Record>): (after: map<string, Record>)
    ensures after.Keys == inventory.Keys
    ensures forall k :: k in inventory && Restocks(inventory[k]) ==>
              after[k] == inventory[k].(stockQuantity := Some(inventory[k].stockQuantity.value + AutoRestock(inventory[k]).value))
    ensures forall k :: k in inventory && !Restocks(inventory[k]) ==> after[k] == inventory[k]
  {
    map k | k in inventory :: RestockedRecord(inventory[k])
  }

  /** The report of the batch restock: exactly the products the policy gives a
      positive amount (never one missing a policy input), each with the amount
      added and its new stock. */
  function RestockReport(inventory: map<string, Record>): (report: map<string, Restock>)
    ensures forall k :: k in report <==> k in inventory && Restocks(inventory[k])
    ensures forall k :: k in inventory && !HasRestockInputs(inventory[k]) ==> k !in report
    ensures forall k :: k in report ==>
              report[k] == Restock(AutoRestock(inventory[k]).value,
                                   inventory[k].stockQuantity.value + AutoRestock(inventory[k]).value)
  {
    map k | k in inventory && Restocks(inventory[k]) :: ReportEntry(inventory[k])
  }

  /** The products the batch restock leaves alone: the policy gave 0 or less,
      or the record lacked one of its inputs. */
  function Skipped(inventory: map<string, Record>): set<string> {
    set k | k in inventory && !Restocks(inventory[k])
  }

  /** The loop of the batch restock over the loaded product map: each product
      is evaluated once, a positive amount replaces its record by a copy with
      the raised stock and adds a report entry, and a missing-field error skips
      it. Keys are visited in any order (the source visits the file's order); the
      result does not depend on it. */
  method RestockLoop(inventory: map<string, Record>)
    returns (updated: map<string, Record>, restocked: map<string, Restock>)
    ensures updated == RestockedInventory(inventory)
    ensures restocked == RestockReport(inventory)
  {
    updated, restocked := inventory, map[];
    var pending := inventory.Keys;
    while pending != {}
      invariant pending <= inventory.Keys
      invariant updated.Keys == inventory.Keys
      invariant forall k :: k in pending ==> updated[k] == inventory[k]
      invariant forall k :: k in inventory && k !in pending ==> updated[k] == RestockedRecord(inventory[k])
      invariant forall k :: k in restocked <==> k in inventory && k !in pending && Restocks(inventory[k])
      invariant forall k :: k in restocked ==> restocked[k] == ReportEntry(inventory[k])
      decreases pending
    {
      var id :| id in pending;
      var product := updated[id];
      assert product == inventory[id];
      match AutoRestock(product) {
        case Failure(_) =>
        case Success(amount) =>
          if amount > 0 {
            var updatedProduct := product.(stockQuantity := Some(product.stockQuantity.value + amount));
            updated := updated[id := updatedProduct];
            restocked := restocked[id := Restock(amount, updatedProduct.stockQuantity.value)];
          }
      }
      assert updated[id] == RestockedRecord(inventory[id]);
      pending := pending - {id};
    }
    LoopResult(inventory, updated, restocked);
  }

  /** Maps that agree entry by entry with the restocked inventory and report are them. */
  lemma LoopResult(inventory: map<string, Record>, updated: map<string, Record>, restocked: map<string, Restock>)
    requires updated.Keys == inventory.Keys
    requires forall k :: k in inventory ==> updated[k] == RestockedRecord(inventory[k])
    requires forall k :: k in restocked <==> k in inventory && Restocks(inventory[k])
    requires forall k :: k in restocked ==> restocked[k] == ReportEntry(inventory[k])
    ensures updated == RestockedInventory(inventory) && restocked == RestockReport(inventory)
  {
  }

  /** Restocked and skipped products partition the inventory. */
  lemma ReportPartition(inventory: map<string, Record>)
    ensures RestockReport(inventory).Keys + Skipped(inventory) == inventory.Keys
    ensures |RestockReport(inventory)| + |Skipped(inventory)| == |inventory|
  {
    var restocked, skipped := RestockReport(inventory).Keys, Skipped(inventory);
    assert restocked + skipped == inventory.Keys;
    assert restocked * skipped == {};
  }

  /** When nothing is restocked, the batch leaves every record as it was. */
  lemma NothingRestockedNothingChanged(inventory: map<string, Record>)
    requires RestockReport(inventory) == map[]
    ensures RestockedInventory(inventory) == inventory
  {
    forall k | k in inventory ensures RestockedRecord(inventory[k]) == inventory[k] {
      assert k !in RestockReport(inventory);
    }
  }

  /** A map is empty exactly when its size is zero. */
  lemma EmptyMapSize<V>(m: map<string, V>)
    ensures m == map[] <==> |m| == 0
  {
    if |m| == 0 {
      assert m.Keys == {};
    }
  }

  /** Two maps over the same keys have the same size. */
  lemma SameKeysSameSize<V, W>(m: map<string, V>, n: map<string, W>)
    requires m.Keys == n.Keys
    ensures |m| == |n|
  {
    assert |m.Keys| == |n.Keys|;
  }

  /** The batch restock only raises a present, non-negative stock, so records
      the service wrote stay such records. */
  lemma RestockKeepsWellKept(inventory: map<string, Record>)
    requires AllWellKept(inventory)
    ensures AllWellKept(RestockedInventory(inventory))
  {
    forall id | id in RestockedInventory(inventory)
      ensures WellKept(id, RestockedInventory(inventory)[id])
    {
      assert WellKept(id, inventory[id]);
    }
  }

  /** What the batch restock needs about its result, gathered in one place. */
  lemma RestockBatchFacts(inventory: map<string, Record>)
    ensures RestockedInventory(inventory).Keys == inventory.Keys
    ensures |RestockedInventory(inventory)| == |inventory|
    ensures |RestockReport(inventory)| + |Skipped(inventory)| == |inventory|
    ensures RestockReport(inventory) == map[] <==> |RestockReport(inventory)| == 0
    ensures RestockReport(inventory) == map[] ==> RestockedInventory(inventory) == inventory
    ensures AllWellKept(inventory) ==> AllWellKept(RestockedInventory(inventory))
  {
    ReportPartition(inventory);
    SameKeysSameSize(RestockedInventory(inventory), inventory);
    EmptyMapSize(RestockReport(inventory));
    if RestockReport(inventory) == map[] {
      NothingRestockedNothingChanged(inventory);
    }
    if AllWellKept(inventory) {
      RestockKeepsWellKept(inventory);
    }
  }

  /** Restocking never lowers a non-negative stock, so it never worsens a
      product's status; a restocked product ends with strictly more stock. */
  lemma RestockNeverWorsens(r: Record)
    requires r.stockQuantity.Some? && r.stockQuantity.value >= 0 && r.minThreshold.Some?
    ensures RestockedRecord(r).stockQuantity.Some?
    ensures RestockedRecord(r).stockQuantity.value >= r.stockQuantity.value
    ensures Restocks(r) ==> RestockedRecord(r).stockQuantity.value > r.stockQuantity.value
    ensures Rank(StatusOf(r.stockQuantity.value, r.minThreshold.value))
              <= Rank(StatusOf(RestockedRecord(r).stockQuantity.value, r.minThreshold.value))
  {
    StatusMonotone(r.stockQuantity.value, RestockedRecord(r).stockQuantity.value, r.minThreshold.value);
  }

  /** A batch of one record the policy restocks and one record missing a
      policy input: the first is restocked, the second skipped, and the
      skipped count is one. */
  lemma RestockOneGoodOneBroken(a: string, b: string, good: Record, broken: Record)
    requires a != b && Restocks(good) && !HasRestockInputs(broken)
    ensures RestockReport(map[a := good, b := broken]) == map[a := ReportEntry(good)]
    ensures RestockedInventory(map[a := good, b := broken]) == map[a := RestockedRecord(good), b := broken]
    ensures Skipped(map[a := good, b := broken]) == {b}
    ensures |Skipped(map[a := good, b := broken])| == 1
  {
    var inventory := map[a := good, b := broken];
    assert AutoRestock(broken).Failure?;
    assert RestockReport(inventory).Keys == {a};
    assert Skipped(inventory) == {b};
  }

  // ---------------------------------------------------------------------------
  // Purchases and status queries

  /** What a successful purchase returns. */
  datatype Purchase = Purchase(productId: string, purchasedQuantity: int, remainingStock: int, newStatus: Status)

  /** What the batch restock returns. */
  datatype RestockSummary = RestockSummary(restockedProducts: map<string, Restock>, totalRestocked: nat, skippedProducts: nat)

  // ---------------------------------------------------------------------------
  // The store and the operations run against it

  /** The store's product map, keyed by product id, and the number of times it
      has been written. Every operation reads `data` first (the load) and
      assigns it when it writes (the save). */
  class Inventory {
    var data: map<string, Record>
    var saves: nat

    /** Every record is one the service could have written under its key. */
    ghost predicate Valid()
      reads this
    {
      AllWellKept(data)
    }

    /** A store with nothing persisted yet loads as the empty map. */
    constructor Empty()
      ensures data == map[] && saves == 0 && Valid()
    {
      data, saves := map[], 0;
    }

    /** A store holding a previously written map, whatever it contains. */
    constructor Stored(stored: map<string, Record>)
      ensures data == stored && saves == 0
    {
      data, saves := stored, 0;
    }

    /** Adds a product: adjusts threshold and category, then rejects a
        duplicate id before a negative stock; otherwise inserts and saves. */
    method AddProduct(p: Product) returns (o: Outcome<Added>)
      modifies this
      ensures p.productId in old(data) ==>
                o == Failure(Duplicate) && data == old(data) && saves == old(saves)
      ensures p.productId !in old(data) && p.stockQuantity < 0 ==>
                o == Failure(NegativeStock) && data == old(data) && saves == old(saves)
      ensures p.productId !in old(data) && p.stockQuantity >= 0 ==>
                && o == Success(Added(Admitted(p), |old(data)| + 1))
                && data == old(data)[p.productId := ToRecord(Admitted(p))]
                && |data| == |old(data)| + 1
                && saves == old(saves) + 1
      ensures old(Valid()) ==> Valid()
    {
      var inventory := data;
      var product := p;
      if product.priority == High && product.minThreshold < 10 {
        product := product.(minThreshold := 10);
      }
      product := product.(category := Some(if product.restockQuantity > 50 then "high_volume" else "low_volume"));
      if product.productId in inventory {
        return Failure(Duplicate);
      }
      if product.stockQuantity < 0 {
        return Failure(NegativeStock);
      }
      inventory := inventory[product.productId := ToRecord(product)];
      data, saves := inventory, saves + 1;
      o := Success(Added(product, |inventory|));
    }

    /** The status view of one product. The threshold is consulted only when
        the stock is not zero. On a kept record the query always succeeds. */
    method GetProductStatus(id: string) returns (o: Outcome<StatusView>)
      ensures id !in data ==> o == Failure(NotFound)
      ensures id in data && data[id].stockQuantity.None? ==> o == Failure(MissingField(StockQuantityKey))
      ensures id in data && data[id].stockQuantity == Some(0) ==>
                o == Success(StatusView(id, 0, OutOfStock, data[id].priority))
      ensures id in data && data[id].stockQuantity.Some? && data[id].stockQuantity.value != 0
              && data[id].minThreshold.None? ==>
                o == Failure(MissingField(MinThresholdKey))
      ensures id in data && data[id].stockQuantity.Some? && data[id].minThreshold.Some? ==>
                var r := data[id];
                o == Success(StatusView(id, r.stockQuantity.value,
                                        StatusOf(r.stockQuantity.value, r.minThreshold.value), r.priority))
      ensures id in data && WellKept(id, data[id]) ==> o.Success?
    {
      var inventory := data;
      if id !in inventory {
        return Failure(NotFound);
      }
      var product := inventory[id];
      if product.stockQuantity.None? {
        return Failure(MissingField(StockQuantityKey));
      }
      var stock := product.stockQuantity.value;
      var status;
      if stock == 0 {
        status := OutOfStock;
      } else if product.minThreshold.None? {
        return Failure(MissingField(MinThresholdKey));
      } else if stock < product.minThreshold.value {
        status := BelowThreshold;
      } else {
        status := Ok;
      }
      o := Success(StatusView(id, stock, status, product.priority));
    }

    /** Restocks every product the policy asks for, saving only when at least
        one product was restocked; the counts cover the whole inventory. */
    method RestockAll() returns (summary: RestockSummary)
      modifies this
      ensures data == RestockedInventory(old(data))
      ensures data.Keys == old(data).Keys
      ensures summary.restockedProducts == RestockReport(old(data))
      ensures summary.totalRestocked == |summary.restockedProducts|
      ensures summary.skippedProducts == |Skipped(old(data))|
      ensures summary.totalRestocked + summary.skippedProducts == |old(data)|
      ensures saves == old(saves) + (if summary.totalRestocked > 0 then 1 else 0)
      ensures old(Valid()) ==> Valid()
    {
      var inventory := data;
      var updated, restocked := RestockLoop(inventory);
      RestockBatchFacts(inventory);
      if restocked != map[] {
        data, saves := updated, saves + 1;
      }
      summary := RestockSummary(restocked, |restocked|, |updated| - |restocked|);
    }

    /** Buys `quantity` units: rejects an unknown id, then a quantity that is not
        positive, then a quantity above the stock; otherwise lowers the stock,
        saves, and derives the new status. The save comes before the status, so
        a record without a threshold is saved and still reported as a failure. */
    method PurchaseProduct(id: string, quantity: int) returns (o: Outcome<Purchase>)
      modifies this
      ensures id !in old(data) ==>
                o == Failure(NotFound) && data == old(data) && saves == old(saves)
      ensures id in old(data) && quantity <= 0 ==>
                o == Failure(BadQuantity) && data == old(data) && saves == old(saves)
      ensures id in old(data) && quantity > 0 && old(data)[id].stockQuantity.None? ==>
                o == Failure(MissingField(StockQuantityKey)) && data == old(data) && saves == old(saves)
      ensures id in old(data) && quantity > 0 && old(data)[id].stockQuantity.Some?
              && old(data)[id].stockQuantity.value < quantity ==>
                o == Failure(Insufficient(old(data)[id].stockQuantity.value))
                && data == old(data) && saves == old(saves)
      ensures id in old(data) && quantity > 0 && old(data)[id].stockQuantity.Some?
              && quantity <= old(data)[id].stockQuantity.value ==>
                var r := old(data)[id];
                var remaining := r.stockQuantity.value - quantity;
                && data == old(data)[id := r.(stockQuantity := Some(remaining))]
                && saves == old(saves) + 1
                && (remaining == 0 ==> o == Success(Purchase(id, quantity, 0, OutOfStock)))
                && (remaining != 0 && r.minThreshold.None? ==> o == Failure(MissingField(MinThresholdKey)))
                && (r.minThreshold.Some? ==>
                      o == Success(Purchase(id, quantity, remaining, StatusOf(remaining, r.minThreshold.value))))
      ensures o.Success? ==> o.value.purchasedQuantity > 0 && o.value.remainingStock >= 0
      ensures old(Valid()) ==> Valid() && !(o.Failure? && o.error.MissingField?)
    {
      var inventory := data;
      if id !in inventory {
        return Failure(NotFound);
      }
      var product := inventory[id];
      if quantity <= 0 {
        return Failure(BadQuantity);
      }
      if product.stockQuantity.None? {
        return Failure(MissingField(StockQuantityKey));
      }
      if product.stockQuantity.value < quantity {
        return Failure(Insufficient(product.stockQuantity.value));
      }
      var remaining := product.stockQuantity.value - quantity;
      product := product.(stockQuantity := Some(remaining));
      inventory := inventory[id := product];
      data, saves := inventory, saves + 1;
      if remaining != 0 && product.minThreshold.None? {
        return Failure(MissingField(MinThresholdKey));
      }
      var status := if remaining == 0 then OutOfStock
                    else if remaining < product.minThreshold.value then BelowThreshold
                    else Ok;
      o := Success(Purchase(id, quantity, remaining, status));
    }
  }
}

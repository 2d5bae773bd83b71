/** The restock policy and the record-validity predicate of the store module:
    both are pure functions of one stored record. */
module Storage {
  import opened Schema

  /** Fields the restock policy reads, in the order they are checked. */
  const RequiredFields: seq<Field> := [PriorityKey, StockQuantityKey, MinThresholdKey, RestockQuantityKey]

  /** Fields a complete record carries. */
  const ValidationFields: seq<Field> :=
    [ProductIdKey, NameKey, StockQuantityKey, MinThresholdKey, RestockQuantityKey, PriorityKey, CategoryKey]

  /** The priorities a valid record may name. */
  const PriorityNames: seq<string> := ["low", "medium", "high"]

  /** Whether the record holds the field (dictionary membership). */
  predicate HasField(p: Record, f: Field) {
    match f
    case ProductIdKey => p.productId.Some?
    case NameKey => p.name.Some?
    case StockQuantityKey => p.stockQuantity.Some?
    case MinThresholdKey => p.minThreshold.Some?
    case RestockQuantityKey => p.restockQuantity.Some?
    case PriorityKey => p.priority.Some?
    case CategoryKey => p.category.Some?
  }

  /** The fields in `fields` that the record lacks, in the order of `fields`. */
  function MissingFrom(fields: seq<Field>, p: Record): (missing: seq<Field>)
    ensures forall f :: f in missing <==> f in fields && !HasField(p, f)
    ensures |missing| <= |fields|
  {
    if fields == [] then []
    else
      var rest := MissingFrom(fields[1..], p);
      if HasField(p, fields[0]) then rest else [fields[0]] + rest
  }

  /** The four restock inputs are all present. */
  predicate HasRestockInputs(p: Record) {
    p.priority.Some? && p.stockQuantity.Some? && p.minThreshold.Some? && p.restockQuantity.Some?
  }

  /** The error raised when the policy cannot be evaluated. */
  datatype RestockError = MissingFields(missing: seq<Field>)

  /** `int(q * 1.5)` for an integer q: three halves of q, truncated toward zero. */
  function HighAmount(q: int): (a: int)
    ensures q >= 0 ==> 0 <= 2 * a <= 3 * q < 2 * a + 2
    ensures q < 0 ==> 2 * a - 2 < 3 * q <= 2 * a <= 0
  {
    if q >= 0 then (3 * q) / 2 else -((-3 * q) / 2)
  }

  /** `stock < threshold * 0.7`, compared exactly. */
  predicate BelowSeventyPercent(stock: int, threshold: int)
    ensures BelowSeventyPercent(stock, threshold) <==> (stock as real) < (threshold as real) * 0.7
  {
    10 * stock < 7 * threshold
  }

  /** The restock amount for one record: first the presence check, then the
      ordered decision list (high below threshold, medium below 70% of the
      threshold, low when empty), and 0 when no rule applies. */
  function AutoRestock(p: Record): (r: Result<int, RestockError>)
    ensures r.Failure? <==> !HasRestockInputs(p)
    ensures r.Failure? ==> r.error.missing != []
    ensures r.Failure? ==> forall f :: f in r.error.missing <==> f in RequiredFields && !HasField(p, f)
    ensures r.Success? && p.restockQuantity.value >= 0 ==>
              0 <= r.value <= (3 * p.restockQuantity.value) / 2
    ensures r.Success? && p.priority.value !in PriorityNames ==> r.value == 0
    ensures r.Success? && p.priority.value == "low" ==> r.value <= 10
  {
    var missing := MissingFrom(RequiredFields, p);
    if missing != [] then
      assert missing[0] in missing;
      Failure(MissingFields(missing))
    else
      assert PriorityKey in RequiredFields && StockQuantityKey in RequiredFields;
      assert MinThresholdKey in RequiredFields && RestockQuantityKey in RequiredFields;
      var priority, stock := p.priority.value, p.stockQuantity.value;
      var threshold, quantity := p.minThreshold.value, p.restockQuantity.value;
      if priority == "high" && stock < threshold then
        Success(HighAmount(quantity))
      else if priority == "medium" && BelowSeventyPercent(stock, threshold) then
        Success(quantity)
      else if priority == "low" && stock == 0 then
        Success(if quantity <= 10 then quantity else 10)
      else
        Success(0)
  }

  /** The record is complete, names a known priority and has no negative count.
      The kinds of the field values are not checked. */
  predicate ValidateProduct(p: Record)
    ensures ValidateProduct(p) <==>
      && p.productId.Some? && p.name.Some? && p.stockQuantity.Some? && p.minThreshold.Some?
      && p.restockQuantity.Some? && p.priority.Some? && p.category.Some?
      && p.priority.value in PriorityNames
      && p.stockQuantity.value >= 0 && p.minThreshold.value >= 0 && p.restockQuantity.value >= 0
  {
    var missing := MissingFrom(ValidationFields, p);
    assert ProductIdKey in ValidationFields && NameKey in ValidationFields;
    assert StockQuantityKey in ValidationFields && MinThresholdKey in ValidationFields;
    assert RestockQuantityKey in ValidationFields && PriorityKey in ValidationFields;
    assert CategoryKey in ValidationFields;
    if missing != [] then
      assert missing[0] in missing;
      false
    else if p.priority.value !in PriorityNames then false
    else if p.stockQuantity.value < 0 || p.minThreshold.value < 0 || p.restockQuantity.value < 0 then false
    else true
  }

  /** A valid record never makes the policy fail, and gets a non-negative amount. */
  lemma ValidRecordRestocks(p: Record)
    requires ValidateProduct(p)
    ensures AutoRestock(p).Success? && AutoRestock(p).value >= 0
  {
  }

  // The decision list, rule by rule.

  lemma AutoRestockHigh(p: Record)
    requires HasRestockInputs(p) && p.priority.value == "high"
    requires p.stockQuantity.value < p.minThreshold.value
    ensures AutoRestock(p) == Success(HighAmount(p.restockQuantity.value))
  {
  }

  lemma AutoRestockMedium(p: Record)
    requires HasRestockInputs(p) && p.priority.value == "medium"
    requires BelowSeventyPercent(p.stockQuantity.value, p.minThreshold.value)
    ensures AutoRestock(p) == Success(p.restockQuantity.value)
  {
  }

  lemma AutoRestockLow(p: Record)
    requires HasRestockInputs(p) && p.priority.value == "low" && p.stockQuantity.value == 0
    ensures AutoRestock(p) == Success(if p.restockQuantity.value <= 10 then p.restockQuantity.value else 10)
  {
  }

  /** Every complete record that no rule matches gets 0. */
  lemma AutoRestockNoRule(p: Record)
    requires HasRestockInputs(p)
    requires p.priority.value == "high" ==> p.stockQuantity.value >= p.minThreshold.value
    requires p.priority.value == "medium" ==> !BelowSeventyPercent(p.stockQuantity.value, p.minThreshold.value)
    requires p.priority.value == "low" ==> p.stockQuantity.value != 0
    ensures AutoRestock(p) == Success(0)
  {
  }

  /** The worked cases: high 5/10 with 20 gives 30, medium 6/10 with 15 gives 15,
      low empty with 25 gives 10, low with one unit gives 0. */
  lemma AutoRestockExamples()
    ensures AutoRestock(Record(None, None, Some(5), Some(10), Some(20), Some("high"), None)) == Success(30)
    ensures AutoRestock(Record(None, None, Some(6), Some(10), Some(15), Some("medium"), None)) == Success(15)
    ensures AutoRestock(Record(None, None, Some(0), Some(10), Some(25), Some("low"), None)) == Success(10)
    ensures AutoRestock(Record(None, None, Some(1), Some(10), Some(25), Some("low"), None)) == Success(0)
    ensures AutoRestock(Record(None, None, Some(0), Some(10), Some(25), None, None))
              == Failure(MissingFields([PriorityKey]))
  {
    var noPriority := Record(None, None, Some(0), Some(10), Some(25), None, None);
    assert MissingFrom(RequiredFields, noPriority) == [PriorityKey];
  }
}

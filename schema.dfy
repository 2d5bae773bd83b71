/** Value types of the inventory service: the validated request body of a new
    product, the stored (possibly incomplete) product record, the derived status
    and the status view returned by the status query. */
module Schema {

  datatype Option<+T> = None | Some(value: T)

  datatype Result<+T, +E> = Success(value: T) | Failure(error: E)

  /** The three priorities a request body may name. */
  datatype Priority = Low | Medium | High

  /** The spelling of a priority in a stored record. */
  function PriorityName(p: Priority): (s: string)
    ensures s in ["low", "medium", "high"]
    ensures (p == Low <==> s == "low") && (p == Medium <==> s == "medium") && (p == High <==> s == "high")
  {
    match p
    case Low => "low"
    case Medium => "medium"
    case High => "high"
  }

  /** Derived stock status; never stored, always recomputed. */
  datatype Status = Ok | BelowThreshold | OutOfStock

  /** A product as the request body of an add carries it: every field present,
      priority one of the three literals, category optional (and overwritten). */
  datatype Product = Product(
    productId: string,
    name: string,
    stockQuantity: int,
    minThreshold: int,
    restockQuantity: int,
    priority: Priority,
    category: Option<string>)

  /** A product record as the store holds it. The store is a JSON file that may
      have been written by other means, so any field may be absent (None) and the
      priority may be any string. */
  datatype Record = Record(
    productId: Option<string>,
    name: Option<string>,
    stockQuantity: Option<int>,
    minThreshold: Option<int>,
    restockQuantity: Option<int>,
    priority: Option<string>,
    category: Option<string>)

  /** The keys of a stored record. */
  datatype Field =
    | ProductIdKey | NameKey | StockQuantityKey | MinThresholdKey
    | RestockQuantityKey | PriorityKey | CategoryKey

  /** The record written for a product: all its fields, under their names. */
  function ToRecord(p: Product): (r: Record)
    ensures r.productId == Some(p.productId) && r.stockQuantity == Some(p.stockQuantity)
    ensures r.minThreshold == Some(p.minThreshold) && r.restockQuantity == Some(p.restockQuantity)
    ensures r.priority == Some(PriorityName(p.priority)) && r.priority.value in ["low", "medium", "high"]
    ensures r.name == Some(p.name) && r.category == p.category
  {
    Record(Some(p.productId), Some(p.name), Some(p.stockQuantity), Some(p.minThreshold),
           Some(p.restockQuantity), Some(PriorityName(p.priority)), p.category)
  }

  /** What the status query exposes: identifier, stock, derived status and the
      stored priority; name, thresholds, restock quantity and category are hidden. */
  datatype StatusView = StatusView(
    productId: string,
    stockQuantity: int,
    status: Status,
    priority: Option<string>)
}

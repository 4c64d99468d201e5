/**
 * The state-changing routes as one request type, and a run of requests against a store: a
 * rejected request leaves the store as it was, an accepted one replaces it. Every run that
 * starts from a consistent store ends in one, so a catalog that starts empty always has each
 * product's cached stock equal to the stock its ledger derives.
 */
module Routes {
  import opened Results
  import opened Model
  import opened Ledger
  import opened Catalog
  import opened Orders
  import opened Invariants

  /** The requests of the routes that write to the store. */
  datatype Request =
    | CreateProductRequest(actor: Actor, name: string, unit: string, basePrice: int)
    | UpdateProductRequest(actor: Actor, id: int, price: Option<int>, addStock: Option<int>,
                           minLevel: Option<int>, criticalLevel: Option<int>)
    | CreateOrderRequest(userId: string, items: seq<Item>)
    | StatusRequest(orderId: int, status: string)
    | ChallanRequest(actor: Actor, orderId: int)

  /** A request and the instant it is handled. */
  datatype Call = Call(request: Request, now: int)

  /** The route a request goes to. */
  function Handle(s: Store, c: Call): Outcome {
    match c.request
    case CreateProductRequest(actor, name, unit, basePrice) =>
      CreateProduct(s, actor, name, unit, basePrice, c.now)
    case UpdateProductRequest(actor, id, price, addStock, minLevel, criticalLevel) =>
      UpdateProduct(s, actor, id, price, addStock, minLevel, criticalLevel, c.now)
    case CreateOrderRequest(userId, items) => CreateOrder(s, userId, items, c.now)
    case StatusRequest(orderId, status) => UpdateStatus(s, orderId, status, c.now)
    case ChallanRequest(actor, orderId) => UploadChallan(s, actor, orderId, c.now)
  }

  /** The store after one request: unchanged when the route rejects it. */
  function Step(s: Store, c: Call): Store {
    match Handle(s, c)
    case Ok(t) => t
    case Err(_) => s
  }

  /** The store after a sequence of requests, handled in order. */
  function Run(s: Store, calls: seq<Call>): Store {
    if |calls| == 0 then s
    else Step(Run(s, calls[..|calls| - 1]), calls[|calls| - 1])
  }

  /** Every accepted request leaves a consistent store consistent. */
  lemma HandlePreservesWf(s: Store, c: Call)
    requires Wf(s)
    requires Handle(s, c).Ok?
    ensures Wf(Handle(s, c).value)
  {
    match c.request
    case CreateProductRequest(actor, name, unit, basePrice) =>
      CreateProductPreservesWf(s, actor, name, unit, basePrice, c.now);
    case UpdateProductRequest(actor, id, price, addStock, minLevel, criticalLevel) =>
      UpdateProductPreservesWf(s, actor, id, price, addStock, minLevel, criticalLevel, c.now);
    case CreateOrderRequest(userId, items) =>
      CreateOrderPreservesWf(s, userId, items, c.now);
    case StatusRequest(orderId, status) =>
      UpdateStatusPreservesWf(s, orderId, status, c.now);
    case ChallanRequest(actor, orderId) =>
      UploadChallanPreservesWf(s, actor, orderId, c.now);
  }

  /** A run of requests keeps a consistent store consistent, whatever is accepted or
      rejected along the way. */
  lemma {:induction false} RunPreservesWf(s: Store, calls: seq<Call>)
    requires Wf(s)
    ensures Wf(Run(s, calls))
  {
    if |calls| > 0 {
      var before := Run(s, calls[..|calls| - 1]);
      RunPreservesWf(s, calls[..|calls| - 1]);
      var c := calls[|calls| - 1];
      if Handle(before, c).Ok? {
        HandlePreservesWf(before, c);
      }
    }
  }

  /** Starting from accounts alone, after any run of requests every product's cached stock
      equals the IN total minus the OUT total of its ledger entries, every ledger entry names
      a product of the catalog, and ledger ids strictly increase. */
  lemma CachedStockIsDerived(users: seq<User>, calls: seq<Call>)
    ensures var t := Run(Store(users, [], [], []), calls);
      && (forall j :: 0 <= j < |t.products| ==>
            t.products[j].currentStock == InTotal(t.ledger, t.products[j].id)
                                          - OutTotal(t.ledger, t.products[j].id))
      && (forall k :: 0 <= k < |t.ledger| ==> t.ledger[k].productId in ProductIds(t.products))
      && IdsIncreasing(t.ledger)
  {
    EmptyStoreWf(users);
    RunPreservesWf(Store(users, [], [], []), calls);
  }
}

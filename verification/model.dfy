/**
 * The documents of the four Firestore collections the server uses (users, products, orders,
 * ledger), held in memory as one immutable `Store`, plus the typed errors its routes report.
 *
 * Times are integers (the handler's `now` is a parameter); prices and amounts are integers
 * in the smallest currency unit.
 */
module Model {
  import opened Results
  import Ids

  /** The two roles an account can hold (models/User.js). */
  datatype Role = WarehouseManager | FranchiseOwner

  /** The claims of a verified session token: account id, role and e-mail. */
  datatype Actor = Actor(id: string, role: Role, email: string)

  /** A numeric document field as Firestore holds it: absent from the document, stored as
      `null`, or a number. */
  datatype NumField = Absent | Null | Num(n: int)

  /** An account document. A manager account stores `franchiseId: null`; `outletName` is
      empty when the account has none; the agreement dates are absent when no agreement is
      on record. */
  datatype User = User(
    id: string,
    email: string,
    role: Role,
    franchiseId: NumField,
    outletName: string,
    agreementStart: Option<int>,
    agreementEnd: Option<int>)

  /** Order lifecycle states (models/Order.js). */
  datatype Status = Pending | Approved | Dispatched | Delivered | Cancelled

  /** The status as it is written in a request and stored on an order. */
  function StatusName(st: Status): string {
    match st
    case Pending => "Pending"
    case Approved => "Approved"
    case Dispatched => "Dispatched"
    case Delivered => "Delivered"
    case Cancelled => "Cancelled"
  }

  /** Reads a requested status; anything that is not one of the five exact names is None. */
  function ParseStatus(name: string): (r: Option<Status>)
    ensures r.Some? ==> StatusName(r.value) == name
    ensures r.None? ==> forall st: Status :: StatusName(st) != name
  {
    if name == "Pending" then Some(Pending)
    else if name == "Approved" then Some(Approved)
    else if name == "Dispatched" then Some(Dispatched)
    else if name == "Delivered" then Some(Delivered)
    else if name == "Cancelled" then Some(Cancelled)
    else None
  }

  /** Ledger movement types (models/StockLedger.js). */
  datatype MovementType = In | Out | Create | PriceUpdate

  /** Who a ledger entry is attributed to: `Manager (<email>)` or `System (Order #<id>)`. */
  datatype PerformedBy = Manager(email: string) | System(orderId: int)

  /** Why a ledger entry was written: `Price updated: <old> -> <new>`, `Manual Stock In`,
      `Initial Creation` or `Dispatch Order #<id>`. */
  datatype Reference =
    | PriceUpdated(oldPrice: int, newPrice: int)
    | ManualStockIn
    | InitialCreation
    | DispatchOrder(orderId: int)

  /** One immutable movement of the append-only ledger; the product name is a snapshot taken
      when the entry is written. */
  datatype LedgerEntry = LedgerEntry(
    id: int,
    date: int,
    productId: int,
    productName: string,
    kind: MovementType,
    quantity: int,
    performedBy: PerformedBy,
    reference: Reference)

  /** A catalog product with its cached stock level. */
  datatype Product = Product(
    id: int,
    name: string,
    unit: string,
    basePrice: int,
    currentStock: int,
    minLevel: int,
    criticalLevel: int)

  /** One entry of an order request's `items` object: product id (as `Number` reads the key)
      and requested quantity. */
  datatype Item = Item(productId: int, qty: int)

  /** A priced line of an order, its unit price locked when the order is created. */
  datatype LineItem = LineItem(
    productId: int,
    name: string,
    unit: string,
    quantity: int,
    unitPrice: int,
    totalPrice: int)

  /** An order document. `items` is the raw request object kept alongside the priced
      `lineItems`; dispatch reads `items`. `franchiseId` is None when it is `null` or
      absent, which dispatch treats alike. */
  datatype Order = Order(
    id: int,
    date: int,
    status: Status,
    totalAmount: int,
    itemsCount: int,
    itemsSummary: string,
    items: seq<Item>,
    lineItems: seq<LineItem>,
    franchiseId: Option<int>,
    outletName: string,
    challanUploaded: bool,
    challanDate: Option<int>)

  /** The whole persistent state. */
  datatype Store = Store(
    users: seq<User>,
    products: seq<Product>,
    orders: seq<Order>,
    ledger: seq<LedgerEntry>)

  /** The rule a rejected request violated. `WriteRejected` is a write the Firestore client
      refuses (an update with no field, or a document with an undefined field value), which
      the route reports as a server error. */
  datatype Error =
    | Forbidden
    | NotFound
    | ValidationFailed
    | DuplicateProductName
    | AgreementExpired
    | ProductNotFound(productId: int)
    | InsufficientStock(productId: int, available: int, required: int)
    | OrderClosed(status: Status)
    | CannotCancelDispatched
    | ChallanAlreadyUploaded
    | WriteRejected

  type Outcome = Result<Store, Error>

  function ProductIds(ps: seq<Product>): (ids: seq<int>)
    ensures |ids| == |ps| && forall i :: 0 <= i < |ps| ==> ids[i] == ps[i].id
  {
    seq(|ps|, i requires 0 <= i < |ps| => ps[i].id)
  }

  function OrderIds(os: seq<Order>): (ids: seq<int>)
    ensures |ids| == |os| && forall i :: 0 <= i < |os| ==> ids[i] == os[i].id
  {
    seq(|os|, i requires 0 <= i < |os| => os[i].id)
  }

  function LedgerIds(l: seq<LedgerEntry>): (ids: seq<int>)
    ensures |ids| == |l| && forall i :: 0 <= i < |l| ==> ids[i] == l[i].id
  {
    seq(|l|, i requires 0 <= i < |l| => l[i].id)
  }

  /** `getProductById` / `productsRef.where('id', '==', id).limit(1)`: the position of the
      first product with that id. */
  function FindProduct(ps: seq<Product>, id: int): (r: Option<nat>)
    ensures r.Some? ==> r.value < |ps| && ps[r.value].id == id
    ensures r.Some? ==> forall j :: 0 <= j < r.value ==> ps[j].id != id
    ensures r.None? <==> forall j :: 0 <= j < |ps| ==> ps[j].id != id
  {
    Ids.IndexOf(ProductIds(ps), id)
  }

  /** `ordersRef.where('id', '==', id).limit(1)`: the position of the first order with that id. */
  function FindOrder(os: seq<Order>, id: int): (r: Option<nat>)
    ensures r.Some? ==> r.value < |os| && os[r.value].id == id
    ensures r.Some? ==> forall j :: 0 <= j < r.value ==> os[j].id != id
    ensures r.None? <==> forall j :: 0 <= j < |os| ==> os[j].id != id
  {
    Ids.IndexOf(OrderIds(os), id)
  }

  /** `getUserById`: the first account whose document id matches. */
  function FindUserById(us: seq<User>, id: string): (r: Option<nat>)
    ensures r.Some? ==> r.value < |us| && us[r.value].id == id
    ensures r.None? <==> forall j :: 0 <= j < |us| ==> us[j].id != id
  {
    if |us| == 0 then None
    else if us[0].id == id then Some(0)
    else
      match FindUserById(us[1..], id)
      case None => None
      case Some(i) => Some(i + 1)
  }

  /** `usersRef.where('franchiseId', '==', f).limit(1)`: the first account of franchise `f`. */
  function FindUserByFranchise(us: seq<User>, f: int): (r: Option<nat>)
    ensures r.Some? ==> r.value < |us| && us[r.value].franchiseId == Num(f)
    ensures r.Some? ==> forall j :: 0 <= j < r.value ==> us[j].franchiseId != Num(f)
    ensures r.None? <==> forall j :: 0 <= j < |us| ==> us[j].franchiseId != Num(f)
  {
    if |us| == 0 then None
    else if us[0].franchiseId == Num(f) then Some(0)
    else
      match FindUserByFranchise(us[1..], f)
      case None => None
      case Some(i) => Some(i + 1)
  }
}

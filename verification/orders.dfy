/**
 * The order routes: `POST /orders` (agreement gate, price locking, totals, summary, id),
 * `PUT /orders/:id/status` (the status machine, including dispatch with its agreement
 * re-check, all-or-nothing stock pre-check and per-item OUT postings) and
 * `PUT /orders/:id/challan` (the one-shot challan flag).
 */
module Orders {
  import opened Results
  import opened Model
  import opened Ledger
  import opened Agreement
  import Text
  import Ids

  /** Id of the first order in an empty collection, and the outlet name used when the
      ordering account has none. */
  const FirstOrderId: int := 1001
  const DefaultOutletName: string := "Franchise Outlet"
  const SummarySeparator: string := ", "

  // ---------------------------------------------------------------- order creation

  /** An item becomes a line of the order: its quantity is positive and its product exists. */
  predicate Priced(ps: seq<Product>, it: Item) {
    it.qty > 0 && FindProduct(ps, it.productId).Some?
  }

  /** The items that become lines, in request order (the others are skipped silently). */
  function KeptItems(ps: seq<Product>, items: seq<Item>): (r: seq<Item>)
    ensures |r| <= |items|
    ensures forall k :: 0 <= k < |r| ==> Priced(ps, r[k])
    ensures forall it :: it in r <==> it in items && Priced(ps, it)
  {
    if |items| == 0 then []
    else (if Priced(ps, items[0]) then [items[0]] else []) + KeptItems(ps, items[1..])
  }

  /** Skipping keeps multiplicities: an item that becomes a line occurs among the kept items
      exactly as often as in the request, and any other item not at all. */
  lemma {:induction false} KeptItemsCounts(ps: seq<Product>, items: seq<Item>)
    ensures forall it :: multiset(KeptItems(ps, items))[it]
                         == if Priced(ps, it) then multiset(items)[it] else 0
  {
    if |items| > 0 {
      KeptItemsCounts(ps, items[1..]);
      assert items == [items[0]] + items[1..];
    }
  }

  /** Skipping works item by item: the kept items of a concatenation are the kept items of
      each part, in the same order, so lines keep the request order. */
  lemma {:induction false} KeptItemsAppend(ps: seq<Product>, a: seq<Item>, b: seq<Item>)
    ensures KeptItems(ps, a + b) == KeptItems(ps, a) + KeptItems(ps, b)
  {
    if |a| > 0 {
      KeptItemsAppend(ps, a[1..], b);
      assert (a + b)[1..] == a[1..] + b;
    } else {
      assert a + b == b;
    }
  }

  /** Sum of unit price times quantity over the lines. */
  function LinesTotal(lines: seq<LineItem>): int {
    if |lines| == 0 then 0
    else lines[0].unitPrice * lines[0].quantity + LinesTotal(lines[1..])
  }

  /** The summary label of one line: "<name> x<quantity>". */
  function Label(line: LineItem): string {
    line.name + " x" + Text.IntToString(line.quantity)
  }

  function Labels(lines: seq<LineItem>): (r: seq<string>)
    ensures |r| == |lines| && forall k :: 0 <= k < |lines| ==> r[k] == Label(lines[k])
  {
    if |lines| == 0 then [] else [Label(lines[0])] + Labels(lines[1..])
  }

  /** `line` is the line the kept item `it` yields now: the item's product and quantity, the
      product's current name and unit, its current base price locked in as unit price, and
      that price times the quantity as line total. */
  predicate LocksPrice(ps: seq<Product>, it: Item, line: LineItem)
    requires Priced(ps, it)
  {
    var p := ps[FindProduct(ps, it.productId).value];
    && line.productId == it.productId && line.quantity == it.qty
    && line.name == p.name && line.unit == p.unit
    && line.unitPrice == p.basePrice
    && line.totalPrice == line.unitPrice * line.quantity
  }

  /** What the creation loop accumulates: line items, running total, item count and names. */
  datatype Tally = Tally(lines: seq<LineItem>, total: int, count: nat, names: seq<string>)

  /** The creation loop over the request items. Each kept item yields one line whose unit
      price is the product's base price at this moment and whose total is that price times
      the quantity; the running total is the sum of unit price times quantity over the
      lines, the count is the number of lines and the names are the lines' labels. */
  function TallyItems(ps: seq<Product>, items: seq<Item>): (t: Tally)
    ensures t.total == LinesTotal(t.lines)
    ensures t.count == |t.lines|
    ensures t.names == Labels(t.lines)
    ensures |t.lines| == |KeptItems(ps, items)|
  {
    if |items| == 0 then Tally([], 0, 0, [])
    else
      var rest := TallyItems(ps, items[1..]);
      var it := items[0];
      if !Priced(ps, it) then rest
      else
        var p := ps[FindProduct(ps, it.productId).value];
        var line := LineItem(p.id, p.name, p.unit, it.qty, p.basePrice, p.basePrice * it.qty);
        assert ([line] + rest.lines)[1..] == rest.lines;
        Tally([line] + rest.lines, line.totalPrice + rest.total, rest.count + 1,
              [Label(line)] + rest.names)
  }

  /** Line k of the tally is the line kept item k yields: the price each line locks in is
      the product's base price at the moment the order is placed. */
  lemma {:induction false} TallyLocksPrices(ps: seq<Product>, items: seq<Item>)
    ensures var t := TallyItems(ps, items);
      forall k :: 0 <= k < |t.lines| ==> LocksPrice(ps, KeptItems(ps, items)[k], t.lines[k])
  {
    if |items| > 0 {
      TallyLocksPrices(ps, items[1..]);
      var it := items[0];
      var t := TallyItems(ps, items);
      var rest := TallyItems(ps, items[1..]);
      if Priced(ps, it) {
        var kept := KeptItems(ps, items);
        var keptRest := KeptItems(ps, items[1..]);
        assert kept == [it] + keptRest;
        forall k | 0 <= k < |t.lines|
          ensures LocksPrice(ps, kept[k], t.lines[k])
        {
          if k > 0 {
            assert kept[k] == keptRest[k - 1];
            assert t.lines[k] == rest.lines[k - 1];
            assert LocksPrice(ps, keptRest[k - 1], rest.lines[k - 1]);
          }
        }
      } else {
        assert KeptItems(ps, items) == KeptItems(ps, items[1..]);
      }
    }
  }

  /** The franchise id the order stores: the account's number, or `null`. */
  function StoredFranchise(f: NumField): Option<int> {
    if f.Num? then Some(f.n) else None
  }

  /** `outletName || 'Franchise Outlet'`. */
  function OutletOf(u: User): string {
    if u.outletName == "" then DefaultOutletName else u.outletName
  }

  /** The account may place an order now: only a franchise owner is held to the agreement. */
  predicate MayOrder(u: User, now: int) {
    u.role == FranchiseOwner ==> AgreementValid(u.agreementEnd, now)
  }

  /** `POST /orders` for the account `userId` with request items `items`. */
  function CreateOrder(s: Store, userId: string, items: seq<Item>, now: int): (r: Outcome)
    ensures FindUserById(s.users, userId).None? ==> r == Err(NotFound)
    ensures FindUserById(s.users, userId).Some?
            && !MayOrder(s.users[FindUserById(s.users, userId).value], now)
            ==> r == Err(AgreementExpired)
    ensures FindUserById(s.users, userId).Some?
            && MayOrder(s.users[FindUserById(s.users, userId).value], now) && |items| == 0
            ==> r == Err(ValidationFailed)
    ensures FindUserById(s.users, userId).Some?
            && MayOrder(s.users[FindUserById(s.users, userId).value], now) && |items| > 0
            && s.users[FindUserById(s.users, userId).value].franchiseId.Absent?
            ==> r == Err(WriteRejected)
    ensures r.Ok? <==> FindUserById(s.users, userId).Some?
                       && MayOrder(s.users[FindUserById(s.users, userId).value], now)
                       && |items| > 0
                       && !s.users[FindUserById(s.users, userId).value].franchiseId.Absent?
    ensures r.Ok? ==>
      && r.value.users == s.users && r.value.products == s.products && r.value.ledger == s.ledger
      && |r.value.orders| == |s.orders| + 1 && r.value.orders[..|s.orders|] == s.orders
    ensures r.Ok? ==>
      var u := s.users[FindUserById(s.users, userId).value];
      var o := r.value.orders[|s.orders|];
      && (|s.orders| == 0 ==> o.id == FirstOrderId)
      && (forall j :: 0 <= j < |s.orders| ==> s.orders[j].id < o.id)
      && (|s.orders| > 0 ==> exists j :: 0 <= j < |s.orders| && o.id == s.orders[j].id + 1)
      && o.date == now && o.status == Pending
      && o.items == items
      && o.lineItems == TallyItems(s.products, items).lines
      && o.totalAmount == LinesTotal(o.lineItems)
      && o.itemsCount == |o.lineItems|
      && o.itemsSummary == Text.Abbreviate(Text.Join(Labels(o.lineItems), SummarySeparator))
      && |o.itemsSummary| <= Text.SummaryLimit
      && (u.franchiseId.Num? ==> o.franchiseId == Some(u.franchiseId.n))
      && (u.franchiseId.Null? ==> o.franchiseId.None?)
      && o.outletName == OutletOf(u)
      && !o.challanUploaded && o.challanDate.None?
  {
    match FindUserById(s.users, userId)
    case None => Err(NotFound)
    case Some(ui) =>
      var u := s.users[ui];
      if !MayOrder(u, now) then Err(AgreementExpired)
      else if |items| == 0 then Err(ValidationFailed)
      else if u.franchiseId.Absent? then Err(WriteRejected)
      else
        var t := TallyItems(s.products, items);
        var summary := Text.Abbreviate(Text.Join(t.names, SummarySeparator));
        var id := Ids.NextId(OrderIds(s.orders), FirstOrderId);
        var o := Order(id, now, Pending, t.total, t.count, summary, items, t.lines,
                       StoredFranchise(u.franchiseId), OutletOf(u), false, None);
        assert (s.orders + [o])[..|s.orders|] == s.orders;
        Ok(s.(orders := s.orders + [o]))
  }

  // ---------------------------------------------------------------- dispatch

  /** The dispatch-time agreement check blocks: the order has a (truthy, so non-zero)
      franchise id, an account of that franchise exists, and the first such account's
      agreement is not in force. Without a franchise id or an account the check passes. */
  predicate DispatchBlocked(us: seq<User>, franchiseId: Option<int>, now: int) {
    && franchiseId.Some? && franchiseId.value != 0
    && FindUserByFranchise(us, franchiseId.value).Some?
    && !AgreementValid(us[FindUserByFranchise(us, franchiseId.value).value].agreementEnd, now)
  }

  /** An item passes the dispatch stock check: its product exists and its cached stock is
      not below the requested quantity. */
  predicate Available(ps: seq<Product>, it: Item) {
    FindProduct(ps, it.productId).Some?
    && !(ps[FindProduct(ps, it.productId).value].currentStock < it.qty)
  }

  /** The error the stock check reports for an item that fails it. */
  function ShortfallError(ps: seq<Product>, it: Item): Error {
    match FindProduct(ps, it.productId)
    case None => ProductNotFound(it.productId)
    case Some(i) => InsufficientStock(it.productId, ps[i].currentStock, it.qty)
  }

  /** The stock pre-check: the position of the first item that fails, or None when every
      item passes. */
  function FirstShortfall(ps: seq<Product>, items: seq<Item>): (r: Option<nat>)
    ensures r.None? <==> forall k :: 0 <= k < |items| ==> Available(ps, items[k])
    ensures r.Some? ==> r.value < |items| && !Available(ps, items[r.value])
    ensures r.Some? ==> forall j :: 0 <= j < r.value ==> Available(ps, items[j])
  {
    if |items| == 0 then None
    else if !Available(ps, items[0]) then Some(0)
    else
      match FirstShortfall(ps, items[1..])
      case None => None
      case Some(k) => Some(k + 1)
  }

  /** Sum of the quantities the items request for product `pid`. */
  function SumQty(items: seq<Item>, pid: int): int {
    if |items| == 0 then 0
    else
      var last := items[|items| - 1];
      SumQty(items[..|items| - 1], pid) + (if last.productId == pid then last.qty else 0)
  }

  /** `e` is the OUT entry the dispatch of order `orderId` posts for item `it`. */
  predicate IsDispatchOut(e: LedgerEntry, it: Item, orderId: int, now: int) {
    && e.kind == Out && e.productId == it.productId && e.quantity == it.qty
    && e.performedBy == System(orderId) && e.reference == DispatchOrder(orderId)
    && e.date == now
  }

  /** One step of the posting loop: an OUT entry for item `it`, attributed to the order and
      carrying the product's current name, and the decrement of that product's cached stock. */
  function PostOne(s: Store, orderId: int, it: Item, now: int): (r: Store)
    requires FindProduct(s.products, it.productId).Some?
    ensures r.users == s.users && r.orders == s.orders
    ensures ProductIds(r.products) == ProductIds(s.products)
    ensures |r.ledger| == |s.ledger| + 1 && r.ledger[..|s.ledger|] == s.ledger
    ensures IsDispatchOut(r.ledger[|s.ledger|], it, orderId, now)
    ensures r.ledger[|s.ledger|].id == NextLedgerId(s.ledger)
    ensures r.ledger[|s.ledger|].productName
            == s.products[FindProduct(s.products, it.productId).value].name
    ensures |r.products| == |s.products|
    ensures var i := FindProduct(s.products, it.productId).value;
      r.products[i] == s.products[i].(currentStock := s.products[i].currentStock - it.qty)
    ensures forall j :: 0 <= j < |s.products| && s.products[j].id != it.productId ==>
              r.products[j] == s.products[j]
  {
    var i := FindProduct(s.products, it.productId).value;
    var p := s.products[i];
    var products := s.products[i := p.(currentStock := p.currentStock - it.qty)];
    assert ProductIds(products) == ProductIds(s.products);
    s.(ledger := Post(s.ledger, now, it.productId, p.name, Out, it.qty,
                      System(orderId), DispatchOrder(orderId)),
       products := products)
  }

  /** Every item names an existing product (what the dispatch pre-check establishes). */
  predicate AllFound(ps: seq<Product>, items: seq<Item>) {
    forall k :: 0 <= k < |items| ==> FindProduct(ps, items[k].productId).Some?
  }

  /** The posting loop of dispatch: the items in order, each handled by `PostOne` on the
      store the previous items left behind. */
  function PostOuts(s: Store, orderId: int, items: seq<Item>, now: int): (r: Store)
    requires AllFound(s.products, items)
    ensures r.users == s.users && r.orders == s.orders
    ensures ProductIds(r.products) == ProductIds(s.products)
    ensures |r.ledger| == |s.ledger| + |items| && r.ledger[..|s.ledger|] == s.ledger
    decreases |items|
  {
    if |items| == 0 then s
    else
      var t := PostOuts(s, orderId, items[..|items| - 1], now);
      var it := items[|items| - 1];
      assert FindProduct(t.products, it.productId) == FindProduct(s.products, it.productId);
      var r := PostOne(t, orderId, it, now);
      ExtendsTrans(s.ledger, t.ledger, r.ledger);
      r
  }

  /** Dispatch of the order at position `i`: the agreement re-check, then the stock check of
      every item of the raw `items` map, all before anything changes; then the postings and
      the status change. */
  function Dispatch(s: Store, i: nat, now: int): (r: Outcome)
    requires i < |s.orders|
    ensures DispatchBlocked(s.users, s.orders[i].franchiseId, now) ==> r == Err(AgreementExpired)
    ensures !DispatchBlocked(s.users, s.orders[i].franchiseId, now)
            && FirstShortfall(s.products, s.orders[i].items).Some?
            ==> r == Err(ShortfallError(s.products,
                           s.orders[i].items[FirstShortfall(s.products, s.orders[i].items).value]))
    ensures r.Ok? <==> !DispatchBlocked(s.users, s.orders[i].franchiseId, now)
                       && forall k :: 0 <= k < |s.orders[i].items| ==>
                            Available(s.products, s.orders[i].items[k])
    ensures r.Ok? ==>
      var o := s.orders[i];
      var t := PostOuts(s, o.id, o.items, now);
      && r.value.users == s.users
      && r.value.orders == s.orders[i := o.(status := Dispatched)]
      && r.value.products == t.products && r.value.ledger == t.ledger
  {
    var o := s.orders[i];
    if DispatchBlocked(s.users, o.franchiseId, now) then Err(AgreementExpired)
    else
      match FirstShortfall(s.products, o.items)
      case Some(k) => Err(ShortfallError(s.products, o.items[k]))
      case None =>
        var t := PostOuts(s, o.id, o.items, now);
        Ok(t.(orders := t.orders[i := o.(status := Dispatched)]))
  }

  // ---------------------------------------------------------------- status route

  /** `t` is `s` with only the status of the order at position `i` set to `st`. */
  predicate OnlyStatusChanged(s: Store, t: Store, i: nat, st: Status) {
    && i < |s.orders|
    && t.users == s.users && t.products == s.products && t.ledger == s.ledger
    && t.orders == s.orders[i := s.orders[i].(status := st)]
  }

  predicate Closed(st: Status) {
    st == Delivered || st == Cancelled
  }

  function SetStatus(s: Store, i: nat, st: Status): (t: Store)
    requires i < |s.orders|
    ensures OnlyStatusChanged(s, t, i, st)
  {
    s.(orders := s.orders[i := s.orders[i].(status := st)])
  }

  /** `PUT /orders/:id/status` with requested status `requested` (no role is checked). */
  function UpdateStatus(s: Store, orderId: int, requested: string, now: int): (r: Outcome)
    ensures FindOrder(s.orders, orderId).None? ==> r == Err(NotFound)
    ensures FindOrder(s.orders, orderId).Some? ==>
      var i := FindOrder(s.orders, orderId).value;
      var o := s.orders[i];
      && (requested == "Delivered" ==> r.Ok? && OnlyStatusChanged(s, r.value, i, Delivered))
      && (requested != "Delivered" && Closed(o.status) ==> r == Err(OrderClosed(o.status)))
      && ((!Closed(o.status) && requested == "Approved")
            ==> r.Ok? && OnlyStatusChanged(s, r.value, i, Approved))
      && ((!Closed(o.status) && requested == "Dispatched") ==> r == Dispatch(s, i, now))
      && ((!Closed(o.status) && requested == "Cancelled" && o.status != Dispatched)
            ==> r.Ok? && OnlyStatusChanged(s, r.value, i, Cancelled))
      && ((!Closed(o.status) && requested == "Cancelled" && o.status == Dispatched)
            ==> r == Err(CannotCancelDispatched))
      && ((!Closed(o.status) && requested !in {"Delivered", "Approved", "Dispatched", "Cancelled"})
            ==> r == Ok(s))
  {
    match FindOrder(s.orders, orderId)
    case None => Err(NotFound)
    case Some(i) =>
      var o := s.orders[i];
      var target := ParseStatus(requested);
      if target == Some(Delivered) then Ok(SetStatus(s, i, Delivered))
      else if Closed(o.status) then Err(OrderClosed(o.status))
      else if target == Some(Approved) then Ok(SetStatus(s, i, Approved))
      else if target == Some(Dispatched) then Dispatch(s, i, now)
      else if target == Some(Cancelled) then
        if o.status == Pending || o.status == Approved then Ok(SetStatus(s, i, Cancelled))
        else Err(CannotCancelDispatched)
      else Ok(s)
  }

  // ---------------------------------------------------------------- challan

  /** `PUT /orders/:id/challan`: a warehouse manager marks the order's challan as uploaded,
      once; a second upload is refused whatever the order's status. */
  function UploadChallan(s: Store, actor: Actor, orderId: int, now: int): (r: Outcome)
    ensures actor.role != WarehouseManager ==> r == Err(Forbidden)
    ensures actor.role == WarehouseManager && FindOrder(s.orders, orderId).None? ==> r == Err(NotFound)
    ensures actor.role == WarehouseManager && FindOrder(s.orders, orderId).Some?
            && s.orders[FindOrder(s.orders, orderId).value].challanUploaded
            ==> r == Err(ChallanAlreadyUploaded)
    ensures r.Ok? <==> actor.role == WarehouseManager && FindOrder(s.orders, orderId).Some?
                       && !s.orders[FindOrder(s.orders, orderId).value].challanUploaded
    ensures r.Ok? ==>
      var i := FindOrder(s.orders, orderId).value;
      && r.value.users == s.users && r.value.products == s.products && r.value.ledger == s.ledger
      && r.value.orders == s.orders[i := s.orders[i].(challanUploaded := true, challanDate := Some(now))]
  {
    if actor.role != WarehouseManager then Err(Forbidden)
    else
      match FindOrder(s.orders, orderId)
      case None => Err(NotFound)
      case Some(i) =>
        var o := s.orders[i];
        if o.challanUploaded then Err(ChallanAlreadyUploaded)
        else Ok(s.(orders := s.orders[i := o.(challanUploaded := true, challanDate := Some(now))]))
  }
}

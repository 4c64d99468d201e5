/**
 * The product catalog routes: `POST /products` (create a product, with a CREATE ledger
 * entry) and `POST /products/:id/update` (thresholds, price with a PRICE_UPDATE entry, and
 * stock-in with an IN entry plus an increment of the cached stock).
 */
module Catalog {
  import opened Results
  import opened Model
  import opened Ledger
  import Text
  import Ids

  /** Thresholds a new product starts with. */
  const DefaultMinLevel: int := 100
  const DefaultCriticalLevel: int := 50

  /** Some product already carries exactly this name (the duplicate query compares the
      stored name with the trimmed request name, case-sensitively). */
  predicate NameTaken(ps: seq<Product>, name: string) {
    exists j :: 0 <= j < |ps| && ps[j].name == name
  }

  /** The request passes the route's field check (`!name || !unit || !basePrice`): an empty
      name or unit, or a zero price, is refused. */
  predicate FieldsPresent(name: string, unit: string, basePrice: int) {
    name != "" && unit != "" && basePrice != 0
  }

  /** `POST /products`. */
  function CreateProduct(s: Store, actor: Actor, name: string, unit: string, basePrice: int,
                         now: int): (r: Outcome)
    ensures actor.role != WarehouseManager ==> r == Err(Forbidden)
    ensures (actor.role == WarehouseManager && !FieldsPresent(name, unit, basePrice))
              ==> r == Err(ValidationFailed)
    ensures (actor.role == WarehouseManager && FieldsPresent(name, unit, basePrice)
             && NameTaken(s.products, Text.Trim(name)))
              ==> r == Err(DuplicateProductName)
    ensures r.Ok? <==> actor.role == WarehouseManager && FieldsPresent(name, unit, basePrice)
                       && !NameTaken(s.products, Text.Trim(name))
    ensures r.Ok? ==>
      var n := |s.products|;
      var ps := r.value.products;
      && |ps| == n + 1 && ps[..n] == s.products
      && (n == 0 ==> ps[n].id == 1)
      && (forall j :: 0 <= j < n ==> s.products[j].id < ps[n].id)
      && (n > 0 ==> exists j :: 0 <= j < n && ps[n].id == s.products[j].id + 1)
      && ps[n].name == Text.Trim(name) && ps[n].unit == unit && ps[n].basePrice == basePrice
      && ps[n].currentStock == 0
      && ps[n].minLevel == DefaultMinLevel && ps[n].criticalLevel == DefaultCriticalLevel
      && |r.value.ledger| == |s.ledger| + 1 && r.value.ledger[..|s.ledger|] == s.ledger
      && r.value.ledger[|s.ledger|].id == NextLedgerId(s.ledger)
      && r.value.ledger[|s.ledger|].kind == Create
      && r.value.ledger[|s.ledger|].quantity == 0
      && r.value.ledger[|s.ledger|].productId == ps[n].id
      && r.value.ledger[|s.ledger|].productName == ps[n].name
      && r.value.ledger[|s.ledger|].performedBy == Manager(actor.email)
      && r.value.ledger[|s.ledger|].reference == InitialCreation
      && r.value.ledger[|s.ledger|].date == now
      && r.value.orders == s.orders && r.value.users == s.users
  {
    if actor.role != WarehouseManager then Err(Forbidden)
    else if !FieldsPresent(name, unit, basePrice) then Err(ValidationFailed)
    else
      var trimmed := Text.Trim(name);
      if NameTaken(s.products, trimmed) then Err(DuplicateProductName)
      else
        var id := Ids.NextId(ProductIds(s.products), 1);
        var product := Product(id, trimmed, unit, basePrice, 0, DefaultMinLevel, DefaultCriticalLevel);
        var ledger := Post(s.ledger, now, id, trimmed, Create, 0, Manager(actor.email), InitialCreation);
        assert (s.products + [product])[..|s.products|] == s.products;
        Ok(s.(products := s.products + [product], ledger := ledger))
  }

  /** The number of ledger entries an update writes: one for a price change, one for a
      stock-in. */
  function UpdateEntries(price: Option<int>, addStock: Option<int>): nat {
    (if price.Some? then 1 else 0) + (if addStock.Some? then 1 else 0)
  }

  /** The PRICE_UPDATE entry of an update: when a price is given, one entry of quantity 0
      recording the old and the new price; otherwise nothing. */
  function LogPrice(l: seq<LedgerEntry>, p: Product, who: PerformedBy, price: Option<int>,
                    now: int): (r: seq<LedgerEntry>)
    ensures |r| == |l| + (if price.Some? then 1 else 0) && r[..|l|] == l
    ensures price.Some? ==>
              && r[|l|].productId == p.id && r[|l|].productName == p.name
              && r[|l|].performedBy == who && r[|l|].kind == PriceUpdate && r[|l|].quantity == 0
              && r[|l|].reference == PriceUpdated(p.basePrice, price.value) && r[|l|].date == now
              && r[|l|].id == NextLedgerId(l)
    ensures IdsIncreasing(l) ==> IdsIncreasing(r)
  {
    if price.None? then l
    else
      PostIds(l, now, p.id, p.name, PriceUpdate, 0, who, PriceUpdated(p.basePrice, price.value));
      Post(l, now, p.id, p.name, PriceUpdate, 0, who, PriceUpdated(p.basePrice, price.value))
  }

  /** The IN entry of an update: when stock is added, one entry of the added quantity;
      otherwise nothing. */
  function LogStock(l: seq<LedgerEntry>, p: Product, who: PerformedBy, addStock: Option<int>,
                    now: int): (r: seq<LedgerEntry>)
    ensures |r| == |l| + (if addStock.Some? then 1 else 0) && r[..|l|] == l
    ensures addStock.Some? ==>
              && r[|l|].productId == p.id && r[|l|].productName == p.name
              && r[|l|].performedBy == who && r[|l|].kind == In
              && r[|l|].quantity == addStock.value && r[|l|].reference == ManualStockIn
              && r[|l|].date == now && r[|l|].id == NextLedgerId(l)
    ensures IdsIncreasing(l) ==> IdsIncreasing(r)
  {
    if addStock.None? then l
    else
      PostIds(l, now, p.id, p.name, In, addStock.value, who, ManualStockIn);
      Post(l, now, p.id, p.name, In, addStock.value, who, ManualStockIn)
  }

  /** The ledger entries an update writes for product `p`: a PRICE_UPDATE of quantity 0
      recording the old and new price when a price is given, then an IN of the added
      quantity when stock is added; nothing else is appended and nothing is rewritten. */
  function LogUpdate(l: seq<LedgerEntry>, p: Product, who: PerformedBy, price: Option<int>,
                     addStock: Option<int>, now: int): (r: seq<LedgerEntry>)
    ensures |r| == |l| + UpdateEntries(price, addStock) && r[..|l|] == l
    ensures forall k :: |l| <= k < |r| ==>
              r[k].productId == p.id && r[k].productName == p.name && r[k].performedBy == who
              && r[k].date == now
    ensures price.Some? ==> r[|l|].kind == PriceUpdate && r[|l|].quantity == 0
                            && r[|l|].reference == PriceUpdated(p.basePrice, price.value)
                            && r[|l|].id == NextLedgerId(l)
    ensures addStock.Some? ==> r[|r| - 1].kind == In && r[|r| - 1].quantity == addStock.value
                               && r[|r| - 1].reference == ManualStockIn
                               && r[|r| - 1].id == NextLedgerId(r[..|r| - 1])
    ensures IdsIncreasing(l) ==> IdsIncreasing(r)
  {
    var l1 := LogPrice(l, p, who, price, now);
    var l2 := LogStock(l1, p, who, addStock, now);
    assert l2[..|l|] == l by {
      assert l2[..|l|] == l2[..|l1|][..|l|];
    }
    assert price.Some? ==> l2[|l|] == l1[|l|] by {
      if price.Some? {
        assert l2[|l|] == l2[..|l1|][|l|];
      }
    }
    assert addStock.Some? ==> l2[..|l2| - 1] == l1;
    l2
  }

  /** The update request carries none of the four fields, so the route writes no ledger entry
      and then asks Firestore to update the product with an empty set of fields, which the
      client refuses. */
  predicate NoFieldGiven(price: Option<int>, addStock: Option<int>, minLevel: Option<int>,
                         criticalLevel: Option<int>) {
    price.None? && addStock.None? && minLevel.None? && criticalLevel.None?
  }

  /** `POST /products/:id/update`. Each optional field that is present is applied to the
      product; the cached stock grows by exactly the added quantity and the ledger receives
      the entries of `LogUpdate`. */
  function UpdateProduct(s: Store, actor: Actor, id: int, price: Option<int>,
                         addStock: Option<int>, minLevel: Option<int>,
                         criticalLevel: Option<int>, now: int): (r: Outcome)
    ensures actor.role != WarehouseManager ==> r == Err(Forbidden)
    ensures actor.role == WarehouseManager && FindProduct(s.products, id).None? ==> r == Err(NotFound)
    ensures actor.role == WarehouseManager && FindProduct(s.products, id).Some?
            && NoFieldGiven(price, addStock, minLevel, criticalLevel)
            ==> r == Err(WriteRejected)
    ensures r.Ok? <==> actor.role == WarehouseManager && FindProduct(s.products, id).Some?
                       && !NoFieldGiven(price, addStock, minLevel, criticalLevel)
    ensures r.Ok? ==> |r.value.products| == |s.products|
    ensures r.Ok? ==>
      var i := FindProduct(s.products, id).value;
      var p := s.products[i];
      var q := r.value.products[i];
      && (forall j :: 0 <= j < |s.products| && j != i ==> r.value.products[j] == s.products[j])
      && q.id == p.id && q.name == p.name && q.unit == p.unit
      && q.basePrice == price.GetOr(p.basePrice)
      && q.currentStock == p.currentStock + addStock.GetOr(0)
      && q.minLevel == minLevel.GetOr(p.minLevel)
      && q.criticalLevel == criticalLevel.GetOr(p.criticalLevel)
      && r.value.orders == s.orders && r.value.users == s.users
      && r.value.ledger == LogUpdate(s.ledger, p, Manager(actor.email), price, addStock, now)
  {
    if actor.role != WarehouseManager then Err(Forbidden)
    else
      match FindProduct(s.products, id)
      case None => Err(NotFound)
      case Some(i) =>
        if NoFieldGiven(price, addStock, minLevel, criticalLevel) then Err(WriteRejected)
        else
          var p := s.products[i];
          var q := p.(basePrice := price.GetOr(p.basePrice),
                      currentStock := p.currentStock + addStock.GetOr(0),
                      minLevel := minLevel.GetOr(p.minLevel),
                      criticalLevel := criticalLevel.GetOr(p.criticalLevel));
          Ok(s.(products := s.products[i := q],
                ledger := LogUpdate(s.ledger, p, Manager(actor.email), price, addStock, now)))
  }

  /** Stock-in and the ledger move together: after an update the derived stock of the
      updated product changes by exactly the amount added to its cached stock, and the
      derived stock of every other product does not change. */
  lemma UpdateMovesLedgerWithStock(s: Store, actor: Actor, id: int, price: Option<int>,
                                   addStock: Option<int>, minLevel: Option<int>,
                                   criticalLevel: Option<int>, now: int, pid: int)
    requires UpdateProduct(s, actor, id, price, addStock, minLevel, criticalLevel, now).Ok?
    ensures
      var r := UpdateProduct(s, actor, id, price, addStock, minLevel, criticalLevel, now).value;
      var p := s.products[FindProduct(s.products, id).value];
      Derived(r.ledger, pid) == Derived(s.ledger, pid) + (if pid == p.id then addStock.GetOr(0) else 0)
  {
    var p := s.products[FindProduct(s.products, id).value];
    LogUpdateMovement(s.ledger, p, Manager(actor.email), price, addStock, now, pid);
  }

  /** The derived-stock effect of `LogUpdate`: the added quantity for the product, zero for
      every other product. */
  lemma LogUpdateMovement(l: seq<LedgerEntry>, p: Product, who: PerformedBy, price: Option<int>,
                          addStock: Option<int>, now: int, pid: int)
    ensures Derived(LogUpdate(l, p, who, price, addStock, now), pid)
            == Derived(l, pid) + (if pid == p.id then addStock.GetOr(0) else 0)
  {
    var l1 := LogPrice(l, p, who, price, now);
    var l2 := LogStock(l1, p, who, addStock, now);
    assert Derived(l1, pid) == Derived(l, pid) by {
      if price.Some? {
        assert l1 == l + [l1[|l|]];
        DerivedAppend(l, l1[|l|], pid);
      }
    }
    assert Derived(l2, pid) == Derived(l1, pid) + (if pid == p.id then addStock.GetOr(0) else 0) by {
      if addStock.Some? {
        assert l2 == l1 + [l2[|l1|]];
        DerivedAppend(l1, l2[|l1|], pid);
      }
    }
    assert LogUpdate(l, p, who, price, addStock, now) == l2;
  }

  /** Catalog edits never touch an order, so the unit prices locked into existing orders
      (and their totals) survive every later price change. */
  lemma PriceEditKeepsLockedPrices(s: Store, actor: Actor, id: int, price: Option<int>,
                                   addStock: Option<int>, minLevel: Option<int>,
                                   criticalLevel: Option<int>, now: int, k: nat)
    requires UpdateProduct(s, actor, id, price, addStock, minLevel, criticalLevel, now).Ok?
    requires k < |s.orders|
    ensures
      var r := UpdateProduct(s, actor, id, price, addStock, minLevel, criticalLevel, now).value;
      && k < |r.orders|
      && r.orders[k].lineItems == s.orders[k].lineItems
      && r.orders[k].totalAmount == s.orders[k].totalAmount
  {
  }
}

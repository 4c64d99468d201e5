/**
 * The consistency the server's design relies on, stated once for a whole store and proved to
 * survive every state-changing route: ids stay unique, the ledger stays ordered and refers
 * only to catalogued products, each product's cached `currentStock` equals the stock its
 * ledger entries derive, and each order's totals stay those of its locked line items.
 */
module Invariants {
  import opened Results
  import opened Model
  import opened Ledger
  import opened Catalog
  import opened Orders
  import opened Lifecycle
  import Ids

  /** Every ledger entry names a product of the catalog. */
  predicate LedgerRefersToProducts(s: Store) {
    forall k :: 0 <= k < |s.ledger| ==> s.ledger[k].productId in ProductIds(s.products)
  }

  /** The cached stock of every product is the stock its ledger entries derive. */
  predicate StockMatchesLedger(s: Store) {
    forall j :: 0 <= j < |s.products| ==>
      s.products[j].currentStock == Derived(s.ledger, s.products[j].id)
  }

  /** Every order's total and item count are those of its locked line items. */
  predicate TotalsLocked(s: Store) {
    forall k :: 0 <= k < |s.orders| ==>
      s.orders[k].totalAmount == LinesTotal(s.orders[k].lineItems)
      && s.orders[k].itemsCount == |s.orders[k].lineItems|
  }

  /** The store invariant. */
  predicate Wf(s: Store) {
    && Ids.Distinct(ProductIds(s.products))
    && Ids.Distinct(OrderIds(s.orders))
    && IdsIncreasing(s.ledger)
    && LedgerRefersToProducts(s)
    && StockMatchesLedger(s)
    && TotalsLocked(s)
  }

  /** A store with accounts but no products, orders or ledger entries is consistent. */
  lemma EmptyStoreWf(users: seq<User>)
    ensures Wf(Store(users, [], [], []))
  {
  }

  /** A product whose id is not among the catalog's ids is named by no ledger entry of a
      store whose entries all name catalogued products, so its derived stock is 0. */
  lemma UnlistedProductDerivesZero(s: Store, pid: int)
    requires LedgerRefersToProducts(s)
    requires forall j :: 0 <= j < |s.products| ==> s.products[j].id != pid
    ensures Derived(s.ledger, pid) == 0
  {
    forall k | 0 <= k < |s.ledger| ensures s.ledger[k].productId != pid {
      var i :| 0 <= i < |s.products| && ProductIds(s.products)[i] == s.ledger[k].productId;
    }
    DerivedWithoutEntries(s.ledger, pid);
  }

  /** Appending a product with a fresh id and an entry that names it keeps every entry
      naming a catalogued product. */
  lemma AppendProductRefs(s: Store, p: Product, e: LedgerEntry)
    requires LedgerRefersToProducts(s)
    requires e.productId == p.id
    ensures LedgerRefersToProducts(s.(products := s.products + [p], ledger := s.ledger + [e]))
  {
    var r := s.(products := s.products + [p], ledger := s.ledger + [e]);
    var n := |s.products|;
    forall k | 0 <= k < |r.ledger|
      ensures r.ledger[k].productId in ProductIds(r.products)
    {
      if k < |s.ledger| {
        var j :| 0 <= j < n && ProductIds(s.products)[j] == s.ledger[k].productId;
        assert ProductIds(r.products)[j] == s.ledger[k].productId;
      } else {
        assert ProductIds(r.products)[n] == p.id;
      }
    }
  }

  /** Appending a product whose id exceeds every existing product id and whose stock is 0,
      together with a ledger entry for it that moves no stock and keeps entry ids
      increasing, keeps the store consistent. */
  lemma AppendProductPreservesWf(s: Store, p: Product, e: LedgerEntry)
    requires Wf(s)
    requires forall j :: 0 <= j < |s.products| ==> s.products[j].id < p.id
    requires p.currentStock == 0
    requires e.productId == p.id && Movement(e, p.id) == 0
    requires IdsIncreasing(s.ledger + [e])
    ensures Wf(s.(products := s.products + [p], ledger := s.ledger + [e]))
  {
    var r := s.(products := s.products + [p], ledger := s.ledger + [e]);
    var n := |s.products|;
    assert Ids.Distinct(ProductIds(r.products)) by {
      forall a, b | 0 <= a < b < |r.products|
        ensures ProductIds(r.products)[a] != ProductIds(r.products)[b]
      {
        if b < n {
          assert ProductIds(s.products)[a] != ProductIds(s.products)[b];
        }
      }
    }
    AppendProductRefs(s, p, e);
    assert StockMatchesLedger(r) by {
      forall j | 0 <= j < |r.products|
        ensures r.products[j].currentStock == Derived(r.ledger, r.products[j].id)
      {
        DerivedAppend(s.ledger, e, r.products[j].id);
        if j == n {
          UnlistedProductDerivesZero(s, p.id);
        }
      }
    }
  }

  /** Creating a product keeps the store consistent: the new id is fresh, the new product
      starts at stock 0 and no earlier entry names it, and the CREATE entry moves no stock. */
  lemma CreateProductPreservesWf(s: Store, actor: Actor, name: string, unit: string,
                                 basePrice: int, now: int)
    requires Wf(s)
    requires CreateProduct(s, actor, name, unit, basePrice, now).Ok?
    ensures Wf(CreateProduct(s, actor, name, unit, basePrice, now).value)
  {
    var r := CreateProduct(s, actor, name, unit, basePrice, now).value;
    var p := r.products[|s.products|];
    var e := r.ledger[|s.ledger|];
    assert r.ledger == Post(s.ledger, now, p.id, p.name, Create, 0, Manager(actor.email),
                            InitialCreation);
    PostIds(s.ledger, now, p.id, p.name, Create, 0, Manager(actor.email), InitialCreation);
    assert r == s.(products := s.products + [p], ledger := s.ledger + [e]) by {
      assert r.products == r.products[..|s.products|] + [p];
      assert r.ledger == r.ledger[..|s.ledger|] + [e];
    }
    AppendProductPreservesWf(s, p, e);
  }

  /** Replacing product `i` by one with the same id, together with a ledger that extends
      the old one by entries for that product only, keeps entry ids increasing and moves the
      product's derived stock by exactly the change of its cached stock, keeps the store
      consistent. */
  lemma ReplaceProductPreservesWf(s: Store, i: nat, q: Product, l: seq<LedgerEntry>)
    requires Wf(s)
    requires i < |s.products| && q.id == s.products[i].id
    requires |s.ledger| <= |l| && l[..|s.ledger|] == s.ledger
    requires forall k :: |s.ledger| <= k < |l| ==> l[k].productId == q.id
    requires IdsIncreasing(l)
    requires forall pid :: Derived(l, pid) == Derived(s.ledger, pid)
               + (if pid == q.id then q.currentStock - s.products[i].currentStock else 0)
    ensures Wf(s.(products := s.products[i := q], ledger := l))
  {
    var r := s.(products := s.products[i := q], ledger := l);
    assert ProductIds(r.products) == ProductIds(s.products);
    assert LedgerRefersToProducts(r) by {
      forall k | 0 <= k < |l|
        ensures l[k].productId in ProductIds(r.products)
      {
        if k < |s.ledger| {
          assert l[k] == l[..|s.ledger|][k];
        } else {
          assert ProductIds(r.products)[i] == q.id;
        }
      }
    }
    assert StockMatchesLedger(r) by {
      forall j | 0 <= j < |r.products|
        ensures r.products[j].currentStock == Derived(l, r.products[j].id)
      {
        assert Derived(l, r.products[j].id) == Derived(s.ledger, r.products[j].id)
          + (if r.products[j].id == q.id then q.currentStock - s.products[i].currentStock else 0);
        if j != i {
          assert ProductIds(s.products)[j] != ProductIds(s.products)[i];
        }
      }
    }
  }

  /** What an accepted update does to the store, in the terms `ReplaceProductPreservesWf`
      asks for: product `i` is replaced by one with the same id, and the ledger is extended
      by entries for that product only, with increasing ids when they increased before. */
  lemma UpdateProductShape(s: Store, actor: Actor, id: int, price: Option<int>,
                           addStock: Option<int>, minLevel: Option<int>,
                           criticalLevel: Option<int>, now: int)
    requires UpdateProduct(s, actor, id, price, addStock, minLevel, criticalLevel, now).Ok?
    ensures var r := UpdateProduct(s, actor, id, price, addStock, minLevel, criticalLevel, now).value;
            var i := FindProduct(s.products, id).value;
      && i < |s.products| == |r.products| && r.products[i].id == s.products[i].id
      && r == s.(products := s.products[i := r.products[i]], ledger := r.ledger)
      && |s.ledger| <= |r.ledger| && r.ledger[..|s.ledger|] == s.ledger
      && (forall k :: |s.ledger| <= k < |r.ledger| ==> r.ledger[k].productId == s.products[i].id)
      && (IdsIncreasing(s.ledger) ==> IdsIncreasing(r.ledger))
  {
    var r := UpdateProduct(s, actor, id, price, addStock, minLevel, criticalLevel, now).value;
    var i := FindProduct(s.products, id).value;
    var l := LogUpdate(s.ledger, s.products[i], Manager(actor.email), price, addStock, now);
    assert r.ledger == l;
  }

  /** An accepted update moves every product's derived stock by the change of its cached
      stock: the stock-in for the updated product, nothing for any other. */
  lemma UpdateProductDerived(s: Store, actor: Actor, id: int, price: Option<int>,
                             addStock: Option<int>, minLevel: Option<int>,
                             criticalLevel: Option<int>, now: int)
    requires UpdateProduct(s, actor, id, price, addStock, minLevel, criticalLevel, now).Ok?
    ensures var r := UpdateProduct(s, actor, id, price, addStock, minLevel, criticalLevel, now).value;
            var i := FindProduct(s.products, id).value;
      && i < |s.products| == |r.products|
      && forall pid :: Derived(r.ledger, pid) == Derived(s.ledger, pid)
           + (if pid == r.products[i].id then r.products[i].currentStock - s.products[i].currentStock
              else 0)
  {
    var r := UpdateProduct(s, actor, id, price, addStock, minLevel, criticalLevel, now).value;
    var i := FindProduct(s.products, id).value;
    assert r.products[i].id == id && s.products[i].id == id;
    assert r.products[i].currentStock - s.products[i].currentStock == addStock.GetOr(0);
    forall pid
      ensures Derived(r.ledger, pid) == Derived(s.ledger, pid) + (if pid == id then addStock.GetOr(0) else 0)
    {
      UpdateMovesLedgerWithStock(s, actor, id, price, addStock, minLevel, criticalLevel, now, pid);
    }
  }

  /** Updating a product keeps the store consistent: ids are untouched, and the stock-in is
      added to the cached stock and written to the ledger together. */
  lemma UpdateProductPreservesWf(s: Store, actor: Actor, id: int, price: Option<int>,
                                 addStock: Option<int>, minLevel: Option<int>,
                                 criticalLevel: Option<int>, now: int)
    requires Wf(s)
    requires UpdateProduct(s, actor, id, price, addStock, minLevel, criticalLevel, now).Ok?
    ensures Wf(UpdateProduct(s, actor, id, price, addStock, minLevel, criticalLevel, now).value)
  {
    var r := UpdateProduct(s, actor, id, price, addStock, minLevel, criticalLevel, now).value;
    var i := FindProduct(s.products, id).value;
    UpdateProductShape(s, actor, id, price, addStock, minLevel, criticalLevel, now);
    UpdateProductDerived(s, actor, id, price, addStock, minLevel, criticalLevel, now);
    ReplaceProductPreservesWf(s, i, r.products[i], r.ledger);
  }

  /** Appending an order whose id exceeds every existing order id and whose totals are those
      of its lines keeps the store consistent. */
  lemma AppendOrderPreservesWf(s: Store, o: Order)
    requires Wf(s)
    requires forall j :: 0 <= j < |s.orders| ==> s.orders[j].id < o.id
    requires o.totalAmount == LinesTotal(o.lineItems) && o.itemsCount == |o.lineItems|
    ensures Wf(s.(orders := s.orders + [o]))
  {
    var r := s.(orders := s.orders + [o]);
    forall a, b | 0 <= a < b < |r.orders|
      ensures OrderIds(r.orders)[a] != OrderIds(r.orders)[b]
    {
      if b < |s.orders| {
        assert OrderIds(s.orders)[a] != OrderIds(s.orders)[b];
      }
    }
  }

  /** Placing an order keeps the store consistent: the order id is fresh and the order's
      totals are those of its lines. */
  lemma CreateOrderPreservesWf(s: Store, userId: string, items: seq<Item>, now: int)
    requires Wf(s)
    requires CreateOrder(s, userId, items, now).Ok?
    ensures Wf(CreateOrder(s, userId, items, now).value)
  {
    var r := CreateOrder(s, userId, items, now).value;
    var o := r.orders[|s.orders|];
    assert r == s.(orders := s.orders + [o]) by {
      assert r.orders == r.orders[..|s.orders|] + [o];
    }
    AppendOrderPreservesWf(s, o);
  }

  /** Marking a challan keeps the store consistent: only the challan fields of one order
      change. */
  lemma UploadChallanPreservesWf(s: Store, actor: Actor, orderId: int, now: int)
    requires Wf(s)
    requires UploadChallan(s, actor, orderId, now).Ok?
    ensures Wf(UploadChallan(s, actor, orderId, now).value)
  {
    var r := UploadChallan(s, actor, orderId, now).value;
    assert OrderIds(r.orders) == OrderIds(s.orders);
  }

  /** A status change that touches nothing but one order's status keeps the store
      consistent. */
  lemma StatusOnlyPreservesWf(s: Store, t: Store, i: nat, st: Status)
    requires Wf(s)
    requires OnlyStatusChanged(s, t, i, st)
    ensures Wf(t)
  {
    assert OrderIds(t.orders) == OrderIds(s.orders);
    assert TotalsLocked(t) by {
      forall k | 0 <= k < |t.orders|
        ensures t.orders[k].totalAmount == LinesTotal(t.orders[k].lineItems)
        ensures t.orders[k].itemsCount == |t.orders[k].lineItems|
      {
        assert t.orders[k].lineItems == s.orders[k].lineItems;
      }
    }
  }

  /** A dispatch that succeeds found the product of every item of the order. */
  lemma DispatchFoundAll(s: Store, i: nat, now: int)
    requires i < |s.orders| && Dispatch(s, i, now).Ok?
    ensures AllFound(s.products, s.orders[i].items)
  {
    var o := s.orders[i];
    forall k | 0 <= k < |o.items|
      ensures FindProduct(s.products, o.items[k].productId).Some?
    {
      assert Available(s.products, o.items[k]);
    }
  }

  /** Every entry the dispatch loop appends names a catalogued product. */
  lemma {:induction false} PostOutsRefs(s: Store, orderId: int, items: seq<Item>, now: int)
    requires AllFound(s.products, items)
    ensures var r := PostOuts(s, orderId, items, now);
      forall k :: |s.ledger| <= k < |r.ledger| ==> r.ledger[k].productId in ProductIds(s.products)
    decreases |items|
  {
    if |items| > 0 {
      var init := items[..|items| - 1];
      var it := items[|items| - 1];
      PostOutsLastEntry(s, orderId, items, now);
      PostOutsRefs(s, orderId, init, now);
      var t := PostOuts(s, orderId, init, now);
      var r := PostOuts(s, orderId, items, now);
      forall k | |s.ledger| <= k < |r.ledger|
        ensures r.ledger[k].productId in ProductIds(s.products)
      {
        if k < |t.ledger| {
          assert r.ledger[k] == r.ledger[..|t.ledger|][k];
        } else {
          var j := FindProduct(s.products, it.productId).value;
          assert ProductIds(s.products)[j] == it.productId;
        }
      }
    }
  }

  /** Every OUT entry a dispatch posts names a catalogued product. */
  lemma DispatchKeepsLedgerRefs(s: Store, i: nat, now: int)
    requires Wf(s)
    requires i < |s.orders| && Dispatch(s, i, now).Ok?
    ensures LedgerRefersToProducts(Dispatch(s, i, now).value)
  {
    var o := s.orders[i];
    var r := Dispatch(s, i, now).value;
    DispatchFoundAll(s, i, now);
    PostOutsRefs(s, o.id, o.items, now);
    assert r.ledger == PostOuts(s, o.id, o.items, now).ledger;
    assert ProductIds(r.products) == ProductIds(s.products);
    forall k | 0 <= k < |r.ledger|
      ensures r.ledger[k].productId in ProductIds(r.products)
    {
      if k < |s.ledger| {
        assert r.ledger[k] == r.ledger[..|s.ledger|][k];
      }
    }
  }

  /** A dispatch lowers each product's cached stock and derived stock by the same amount. */
  lemma DispatchKeepsStockMatch(s: Store, i: nat, now: int)
    requires Wf(s)
    requires i < |s.orders| && Dispatch(s, i, now).Ok?
    ensures StockMatchesLedger(Dispatch(s, i, now).value)
  {
    var o := s.orders[i];
    var r := Dispatch(s, i, now).value;
    DispatchFoundAll(s, i, now);
    PostOutsStock(s, o.id, o.items, now);
    forall j | 0 <= j < |r.products|
      ensures r.products[j].currentStock == Derived(r.ledger, r.products[j].id)
    {
      PostOutsDerived(s, o.id, o.items, now, s.products[j].id);
    }
  }

  /** Dispatch keeps the store consistent. */
  lemma DispatchPreservesWf(s: Store, i: nat, now: int)
    requires Wf(s)
    requires i < |s.orders| && Dispatch(s, i, now).Ok?
    ensures Wf(Dispatch(s, i, now).value)
  {
    var o := s.orders[i];
    var r := Dispatch(s, i, now).value;
    DispatchFoundAll(s, i, now);
    PostOutsLedger(s, o.id, o.items, now);
    DispatchKeepsLedgerRefs(s, i, now);
    DispatchKeepsStockMatch(s, i, now);
    StatusOnlyPreservesWf(s, s.(orders := r.orders), i, Dispatched);
    assert OrderIds(r.orders) == OrderIds(s.orders);
  }

  /** Every accepted status request keeps the store consistent. */
  lemma UpdateStatusPreservesWf(s: Store, orderId: int, requested: string, now: int)
    requires Wf(s)
    requires UpdateStatus(s, orderId, requested, now).Ok?
    ensures Wf(UpdateStatus(s, orderId, requested, now).value)
  {
    var i := FindOrder(s.orders, orderId).value;
    var o := s.orders[i];
    var r := UpdateStatus(s, orderId, requested, now).value;
    if requested == "Delivered" {
      StatusOnlyPreservesWf(s, r, i, Delivered);
    } else if requested == "Approved" {
      StatusOnlyPreservesWf(s, r, i, Approved);
    } else if requested == "Cancelled" {
      StatusOnlyPreservesWf(s, r, i, Cancelled);
    } else if requested == "Dispatched" {
      DispatchPreservesWf(s, i, now);
    }
  }
}

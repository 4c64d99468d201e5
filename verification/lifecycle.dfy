/**
 * What the order routes guarantee across calls: the exact effect of a dispatch on stock and
 * ledger, its all-or-nothing pre-check, the status machine as the server implements it
 * (including the transitions its guards let through), and the one-shot challan lock.
 */
module Lifecycle {
  import opened Results
  import opened Model
  import opened Ledger
  import opened Agreement
  import opened Orders
  import Ids

  /** The loop over all items is the loop over all but the last, followed by one step for
      the last item. */
  lemma PostOutsInit(s: Store, orderId: int, items: seq<Item>, now: int)
    requires |items| > 0 && AllFound(s.products, items)
    ensures var init := items[..|items| - 1];
      && AllFound(s.products, init)
      && FindProduct(PostOuts(s, orderId, init, now).products, items[|items| - 1].productId).Some?
      && PostOuts(s, orderId, items, now)
         == PostOne(PostOuts(s, orderId, init, now), orderId, items[|items| - 1], now)
  {
    var init := items[..|items| - 1];
    var t := PostOuts(s, orderId, init, now);
    assert FindProduct(t.products, items[|items| - 1].productId)
           == FindProduct(s.products, items[|items| - 1].productId);
  }

  /** The last step of the loop appends the last item's OUT entry to what the earlier steps
      posted. */
  lemma PostOutsLastEntry(s: Store, orderId: int, items: seq<Item>, now: int)
    requires |items| > 0 && AllFound(s.products, items)
    ensures AllFound(s.products, items[..|items| - 1])
    ensures var t := PostOuts(s, orderId, items[..|items| - 1], now);
            var r := PostOuts(s, orderId, items, now);
      && |r.ledger| == |t.ledger| + 1 && r.ledger[..|t.ledger|] == t.ledger
      && IsDispatchOut(r.ledger[|t.ledger|], items[|items| - 1], orderId, now)
  {
    PostOutsInit(s, orderId, items, now);
  }

  /** The last step of the loop lowers the cached stock of the last item's product and
      leaves every other product as the earlier steps left it. */
  lemma PostOutsLastStock(s: Store, orderId: int, items: seq<Item>, now: int)
    requires |items| > 0 && AllFound(s.products, items)
    ensures AllFound(s.products, items[..|items| - 1])
    ensures var t := PostOuts(s, orderId, items[..|items| - 1], now);
            var r := PostOuts(s, orderId, items, now);
            var it := items[|items| - 1];
            var i := FindProduct(s.products, it.productId).value;
      && |r.products| == |t.products| == |s.products|
      && r.products[i] == t.products[i].(currentStock := t.products[i].currentStock - it.qty)
      && forall j :: 0 <= j < |t.products| && t.products[j].id != it.productId ==>
           r.products[j] == t.products[j]
  {
    PostOutsInit(s, orderId, items, now);
    var t := PostOuts(s, orderId, items[..|items| - 1], now);
    var it := items[|items| - 1];
    assert FindProduct(t.products, it.productId) == FindProduct(s.products, it.productId);
  }

  /** The dispatch loop keeps ledger entry ids increasing. */
  lemma {:induction false} PostOutsLedger(s: Store, orderId: int, items: seq<Item>, now: int)
    requires AllFound(s.products, items)
    requires IdsIncreasing(s.ledger)
    ensures IdsIncreasing(PostOuts(s, orderId, items, now).ledger)
    decreases |items|
  {
    if |items| > 0 {
      var init := items[..|items| - 1];
      var it := items[|items| - 1];
      PostOutsInit(s, orderId, items, now);
      PostOutsLedger(s, orderId, init, now);
      var t := PostOuts(s, orderId, init, now);
      var p := t.products[FindProduct(t.products, it.productId).value];
      PostIds(t.ledger, now, it.productId, p.name, Out, it.qty, System(orderId), DispatchOrder(orderId));
    }
  }

  /** The entry the dispatch loop appends for item `k`: an OUT of that item's product and
      quantity, dated `now`, with the order id in both `performedBy` and `reference`. */
  lemma {:induction false} PostOutsEntry(s: Store, orderId: int, items: seq<Item>, now: int,
                                         k: nat)
    requires AllFound(s.products, items)
    requires k < |items|
    ensures |s.ledger| + k < |PostOuts(s, orderId, items, now).ledger|
    ensures IsDispatchOut(PostOuts(s, orderId, items, now).ledger[|s.ledger| + k], items[k],
                          orderId, now)
    decreases |items|
  {
    var m := |items| - 1;
    var init := items[..m];
    PostOutsLastEntry(s, orderId, items, now);
    var t := PostOuts(s, orderId, init, now);
    var r := PostOuts(s, orderId, items, now);
    if k < m {
      PostOutsEntry(s, orderId, init, now, k);
      var e := t.ledger[|s.ledger| + k];
      assert IsDispatchOut(e, items[k], orderId, now) by {
        assert init[k] == items[k];
      }
      assert r.ledger[|s.ledger| + k] == e by {
        assert r.ledger[|s.ledger| + k] == r.ledger[..|t.ledger|][|s.ledger| + k];
      }
    } else {
      assert |s.ledger| + k == |t.ledger|;
    }
  }

  /** The last step of the loop gives its entry the next id after everything the earlier
      steps posted. */
  lemma PostOutsLastId(s: Store, orderId: int, items: seq<Item>, now: int)
    requires |items| > 0 && AllFound(s.products, items)
    ensures AllFound(s.products, items[..|items| - 1])
    ensures var t := PostOuts(s, orderId, items[..|items| - 1], now);
            var r := PostOuts(s, orderId, items, now);
      && |t.ledger| < |r.ledger| && r.ledger[..|t.ledger|] == t.ledger
      && r.ledger[|t.ledger|].id == NextLedgerId(t.ledger)
  {
    PostOutsInit(s, orderId, items, now);
  }

  /** Every entry from position `from` on carries the id a single post would have given it:
      the next id after all the entries before it. */
  predicate PostedFrom(l: seq<LedgerEntry>, from: nat) {
    forall a :: from <= a < |l| ==> l[a].id == NextLedgerId(l[..a])
  }

  /** Appending one entry with the next id keeps `PostedFrom`. */
  lemma PostedExtend(t: seq<LedgerEntry>, r: seq<LedgerEntry>, from: nat)
    requires PostedFrom(t, from)
    requires |r| == |t| + 1 && r[..|t|] == t && r[|t|].id == NextLedgerId(t)
    ensures PostedFrom(r, from)
  {
    forall a | from <= a < |r| ensures r[a].id == NextLedgerId(r[..a]) {
      if a < |t| {
        assert r[a] == t[a];
        assert r[..a] == t[..a];
      } else {
        assert r[..a] == t;
      }
    }
  }

  /** The dispatch loop posts its entries one by one: each entry it appends carries the
      next id after everything before it, counting the entries posted for earlier items. */
  lemma {:induction false} PostOutsPosted(s: Store, orderId: int, items: seq<Item>, now: int)
    requires AllFound(s.products, items)
    ensures PostedFrom(PostOuts(s, orderId, items, now).ledger, |s.ledger|)
    decreases |items|
  {
    if |items| > 0 {
      var init := items[..|items| - 1];
      PostOutsLastId(s, orderId, items, now);
      PostOutsPosted(s, orderId, init, now);
      PostedExtend(PostOuts(s, orderId, init, now).ledger, PostOuts(s, orderId, items, now).ledger,
                   |s.ledger|);
    } else {
      assert PostOuts(s, orderId, items, now).ledger == s.ledger;
    }
  }

  /** With distinct product ids, the dispatch loop lowers each product's cached stock by the
      total quantity the items request for it, and changes nothing else about any product. */
  lemma {:induction false} PostOutsStock(s: Store, orderId: int, items: seq<Item>, now: int)
    requires AllFound(s.products, items)
    requires Ids.Distinct(ProductIds(s.products))
    ensures var r := PostOuts(s, orderId, items, now);
      && |r.products| == |s.products|
      && forall j :: 0 <= j < |s.products| ==>
           r.products[j] == s.products[j].(currentStock := s.products[j].currentStock
                                                          - SumQty(items, s.products[j].id))
    decreases |items|
  {
    if |items| > 0 {
      var init := items[..|items| - 1];
      var it := items[|items| - 1];
      PostOutsLastStock(s, orderId, items, now);
      PostOutsStock(s, orderId, init, now);
      var t := PostOuts(s, orderId, init, now);
      var r := PostOuts(s, orderId, items, now);
      var i := FindProduct(s.products, it.productId).value;
      forall j | 0 <= j < |s.products|
        ensures r.products[j] == s.products[j].(currentStock := s.products[j].currentStock
                                                               - SumQty(items, s.products[j].id))
      {
        var pj := s.products[j];
        var tj := t.products[j];
        if j == i {
          assert it.productId == pj.id;
          assert r.products[j] == tj.(currentStock := tj.currentStock - it.qty);
        } else {
          assert pj.id != it.productId by {
            assert ProductIds(s.products)[j] != ProductIds(s.products)[i];
          }
          assert r.products[j] == tj;
        }
        StockStep(pj, tj, r.products[j], it, SumQty(init, pj.id), SumQty(items, pj.id));
      }
    }
  }

  /** The dispatch loop leaves a product that no item names exactly as it was, whether or
      not product ids are distinct. */
  lemma {:induction false} PostOutsUnmentioned(s: Store, orderId: int, items: seq<Item>,
                                               now: int, j: nat)
    requires AllFound(s.products, items)
    requires j < |s.products|
    requires forall k :: 0 <= k < |items| ==> items[k].productId != s.products[j].id
    ensures j < |PostOuts(s, orderId, items, now).products|
    ensures PostOuts(s, orderId, items, now).products[j] == s.products[j]
    decreases |items|
  {
    if |items| > 0 {
      var init := items[..|items| - 1];
      PostOutsLastStock(s, orderId, items, now);
      assert forall k :: 0 <= k < |init| ==> init[k].productId != s.products[j].id by {
        forall k | 0 <= k < |init| ensures init[k].productId != s.products[j].id {
          assert init[k] == items[k];
        }
      }
      PostOutsUnmentioned(s, orderId, init, now, j);
      var t := PostOuts(s, orderId, init, now);
      assert t.products[j].id == s.products[j].id by {
        assert ProductIds(t.products)[j] == ProductIds(s.products)[j];
      }
    }
  }

  /** One posting step changes no product's name. */
  lemma PostOneKeepsNames(s: Store, orderId: int, it: Item, now: int)
    requires FindProduct(s.products, it.productId).Some?
    ensures forall j :: 0 <= j < |s.products| ==>
              PostOne(s, orderId, it, now).products[j].name == s.products[j].name
  {
  }

  /** The dispatch loop changes no product's name. */
  lemma {:induction false} PostOutsKeepsNames(s: Store, orderId: int, items: seq<Item>,
                                              now: int, j: nat)
    requires AllFound(s.products, items)
    requires j < |s.products|
    ensures j < |PostOuts(s, orderId, items, now).products|
    ensures PostOuts(s, orderId, items, now).products[j].name == s.products[j].name
    decreases |items|
  {
    if |items| > 0 {
      var init := items[..|items| - 1];
      PostOutsInit(s, orderId, items, now);
      PostOutsKeepsNames(s, orderId, init, now, j);
      PostOneKeepsNames(PostOuts(s, orderId, init, now), orderId, items[|items| - 1], now);
    }
  }

  /** The last step of the loop writes the last item's product name as it was when the
      dispatch started. */
  lemma PostOutsLastName(s: Store, orderId: int, items: seq<Item>, now: int)
    requires |items| > 0 && AllFound(s.products, items)
    ensures var t := PostOuts(s, orderId, items[..|items| - 1], now);
            var r := PostOuts(s, orderId, items, now);
            var it := items[|items| - 1];
      && |t.ledger| < |r.ledger|
      && r.ledger[|t.ledger|].productName
         == s.products[FindProduct(s.products, it.productId).value].name
  {
    PostOutsInit(s, orderId, items, now);
    var init := items[..|items| - 1];
    var t := PostOuts(s, orderId, init, now);
    var it := items[|items| - 1];
    var i := FindProduct(s.products, it.productId).value;
    PostOutsKeepsNames(s, orderId, init, now, i);
    assert FindProduct(t.products, it.productId) == FindProduct(s.products, it.productId);
  }

  /** The entry the dispatch loop appends for item `k` carries the name the item's product
      has when the dispatch starts. */
  lemma {:induction false} PostOutsEntryName(s: Store, orderId: int, items: seq<Item>,
                                             now: int, k: nat)
    requires AllFound(s.products, items)
    requires k < |items|
    ensures |s.ledger| + k < |PostOuts(s, orderId, items, now).ledger|
    ensures PostOuts(s, orderId, items, now).ledger[|s.ledger| + k].productName
            == s.products[FindProduct(s.products, items[k].productId).value].name
    decreases |items|
  {
    var m := |items| - 1;
    var init := items[..m];
    PostOutsLastEntry(s, orderId, items, now);
    PostOutsLastName(s, orderId, items, now);
    var t := PostOuts(s, orderId, init, now);
    var r := PostOuts(s, orderId, items, now);
    if k < m {
      PostOutsEntryName(s, orderId, init, now, k);
      assert init[k] == items[k];
      assert r.ledger[|s.ledger| + k] == r.ledger[..|t.ledger|][|s.ledger| + k];
    } else {
      assert |s.ledger| + k == |t.ledger|;
    }
  }

  /** One step of the stock accounting: a product that had lost `before` loses the item's
      quantity as well when the item names it, and nothing more otherwise. */
  lemma StockStep(p: Product, t: Product, r: Product, it: Item, before: int, after: int)
    requires t == p.(currentStock := p.currentStock - before)
    requires r == if it.productId == p.id then t.(currentStock := t.currentStock - it.qty) else t
    requires after == before + (if it.productId == p.id then it.qty else 0)
    ensures r == p.(currentStock := p.currentStock - after)
  {
  }

  /** The dispatch loop lowers every product's derived stock by the total quantity the items
      request for it: ledger and cached stock move by the same amounts. */
  lemma {:induction false} PostOutsDerived(s: Store, orderId: int, items: seq<Item>, now: int,
                                           pid: int)
    requires AllFound(s.products, items)
    ensures Derived(PostOuts(s, orderId, items, now).ledger, pid)
            == Derived(s.ledger, pid) - SumQty(items, pid)
    decreases |items|
  {
    if |items| > 0 {
      var init := items[..|items| - 1];
      PostOutsInit(s, orderId, items, now);
      PostOutsDerived(s, orderId, init, now, pid);
      var t := PostOuts(s, orderId, init, now);
      var r := PostOuts(s, orderId, items, now);
      assert r.ledger == t.ledger + [r.ledger[|t.ledger|]];
      DerivedAppend(t.ledger, r.ledger[|t.ledger|], pid);
    }
  }

  /** The order at position `i` has id `orderId` and may still be changed. */
  predicate OpenOrder(s: Store, orderId: int, i: nat) {
    FindOrder(s.orders, orderId) == Some(i) && !Closed(s.orders[i].status)
  }

  /** Dispatch pre-check is all-or-nothing: if any item's product is missing or its cached
      stock is below the requested quantity, the request fails, naming the first failing item
      unless the agreement check already failed, and no store is produced (nothing changes). */
  lemma DispatchAllOrNothing(s: Store, orderId: int, i: nat, now: int, k: nat)
    requires OpenOrder(s, orderId, i)
    requires k < |s.orders[i].items| && !Available(s.products, s.orders[i].items[k])
    ensures UpdateStatus(s, orderId, "Dispatched", now).Err?
    ensures !DispatchBlocked(s.users, s.orders[i].franchiseId, now) ==>
      var f := FirstShortfall(s.products, s.orders[i].items);
      && f.Some? && f.value <= k
      && UpdateStatus(s, orderId, "Dispatched", now)
           == Err(ShortfallError(s.products, s.orders[i].items[f.value]))
  {
  }

  /** Quirk kept from the server: a raw item whose quantity is zero or negative passes the
      stock check whenever its product exists with a stock that is not negative, since the
      check only compares the stock with the quantity. */
  lemma NonPositiveQuantityPasses(ps: seq<Product>, it: Item)
    requires FindProduct(ps, it.productId).Some? && it.qty <= 0
    requires ps[FindProduct(ps, it.productId).value].currentStock >= 0
    ensures Available(ps, it)
  {
  }

  /** An agreement that is no longer in force blocks dispatch of an order of that franchise,
      whatever the stock. */
  lemma DispatchNeedsAgreement(s: Store, orderId: int, i: nat, now: int, u: nat)
    requires OpenOrder(s, orderId, i)
    requires s.orders[i].franchiseId.Some? && s.orders[i].franchiseId.value != 0
    requires FindUserByFranchise(s.users, s.orders[i].franchiseId.value) == Some(u)
    requires !AgreementValid(s.users[u].agreementEnd, now)
    ensures UpdateStatus(s, orderId, "Dispatched", now) == Err(AgreementExpired)
  {
  }

  /** A successful dispatch changes the order's status to Dispatched and nothing else on
      any order, and never touches the accounts. */
  lemma DispatchSetsStatus(s: Store, orderId: int, i: nat, now: int)
    requires OpenOrder(s, orderId, i)
    requires UpdateStatus(s, orderId, "Dispatched", now).Ok?
    ensures var r := UpdateStatus(s, orderId, "Dispatched", now).value;
      && r.users == s.users
      && r.orders == s.orders[i := s.orders[i].(status := Dispatched)]
  {
  }

  /** A successful dispatch, with distinct product ids: each product's cached stock drops by
      the quantity the order's raw items request for it, and nothing else about a product
      changes. */
  lemma DispatchStock(s: Store, orderId: int, i: nat, now: int)
    requires OpenOrder(s, orderId, i)
    requires Ids.Distinct(ProductIds(s.products))
    requires UpdateStatus(s, orderId, "Dispatched", now).Ok?
    ensures var r := UpdateStatus(s, orderId, "Dispatched", now).value;
            var o := s.orders[i];
      && |r.products| == |s.products|
      && (forall j :: 0 <= j < |s.products| ==>
            r.products[j] == s.products[j].(currentStock := s.products[j].currentStock
                                                           - SumQty(o.items, s.products[j].id)))
  {
    var o := s.orders[i];
    assert AllFound(s.products, o.items);
    PostOutsStock(s, o.id, o.items, now);
    assert UpdateStatus(s, orderId, "Dispatched", now).value.products
           == PostOuts(s, o.id, o.items, now).products;
  }

  /** A successful dispatch leaves a product that no item of the order names exactly as it
      was. */
  lemma DispatchLeavesOtherProducts(s: Store, orderId: int, i: nat, now: int, j: nat)
    requires OpenOrder(s, orderId, i)
    requires UpdateStatus(s, orderId, "Dispatched", now).Ok?
    requires j < |s.products|
    requires forall k :: 0 <= k < |s.orders[i].items| ==> s.orders[i].items[k].productId != s.products[j].id
    ensures var r := UpdateStatus(s, orderId, "Dispatched", now).value;
      j < |r.products| && r.products[j] == s.products[j]
  {
    var o := s.orders[i];
    assert AllFound(s.products, o.items);
    PostOutsUnmentioned(s, o.id, o.items, now, j);
    assert UpdateStatus(s, orderId, "Dispatched", now).value.products
           == PostOuts(s, o.id, o.items, now).products;
  }

  /** A successful dispatch appends exactly one OUT entry per raw item, in item order, with
      the item's product, that product's name and the item's quantity, dated `now`, and the
      order id in `performedBy` and `reference`; earlier entries are untouched. */
  lemma DispatchLedger(s: Store, orderId: int, i: nat, now: int, k: nat)
    requires OpenOrder(s, orderId, i)
    requires UpdateStatus(s, orderId, "Dispatched", now).Ok?
    requires k < |s.orders[i].items|
    ensures var r := UpdateStatus(s, orderId, "Dispatched", now).value;
            var o := s.orders[i];
      && |r.ledger| == |s.ledger| + |o.items| && r.ledger[..|s.ledger|] == s.ledger
      && IsDispatchOut(r.ledger[|s.ledger| + k], o.items[k], o.id, now)
      && FindProduct(s.products, o.items[k].productId).Some?
      && r.ledger[|s.ledger| + k].productName
         == s.products[FindProduct(s.products, o.items[k].productId).value].name
      && r.ledger[|s.ledger| + k].id == NextLedgerId(r.ledger[..|s.ledger| + k])
  {
    var o := s.orders[i];
    assert AllFound(s.products, o.items);
    PostOutsEntry(s, o.id, o.items, now, k);
    PostOutsEntryName(s, o.id, o.items, now, k);
    PostOutsPosted(s, o.id, o.items, now);
  }

  /** Quirk kept from the server: a Dispatched order can be set back to Approved, because
      Approved is checked only against the closed states. */
  lemma DispatchedCanBeApproved(s: Store, orderId: int, i: nat, now: int)
    requires FindOrder(s.orders, orderId) == Some(i) && s.orders[i].status == Dispatched
    ensures UpdateStatus(s, orderId, "Approved", now).Ok?
    ensures UpdateStatus(s, orderId, "Approved", now).value.orders[i].status == Approved
  {
  }

  /** Quirk kept from the server: a Dispatched order can be dispatched again; when the stock
      still covers it, the second dispatch posts its OUT entries and decrements stock again. */
  lemma RedispatchPostsAgain(s: Store, orderId: int, i: nat, now: int)
    requires FindOrder(s.orders, orderId) == Some(i) && s.orders[i].status == Dispatched
    requires !DispatchBlocked(s.users, s.orders[i].franchiseId, now)
    requires forall k :: 0 <= k < |s.orders[i].items| ==> Available(s.products, s.orders[i].items[k])
    ensures UpdateStatus(s, orderId, "Dispatched", now).Ok?
    ensures |UpdateStatus(s, orderId, "Dispatched", now).value.ledger|
            == |s.ledger| + |s.orders[i].items|
  {
  }

  /** Quirk kept from the server: Delivered is accepted from every status, even Cancelled,
      since it is handled before the closed-order check. */
  lemma DeliveredFromAnyStatus(s: Store, orderId: int, i: nat, now: int)
    requires FindOrder(s.orders, orderId) == Some(i)
    ensures UpdateStatus(s, orderId, "Delivered", now).Ok?
    ensures OnlyStatusChanged(s, UpdateStatus(s, orderId, "Delivered", now).value, i, Delivered)
  {
  }

  /** No request ever moves an order back to Pending: after any accepted status request the
      order is Pending only if it was Pending before. */
  lemma NoReturnToPending(s: Store, orderId: int, i: nat, requested: string, now: int)
    requires FindOrder(s.orders, orderId) == Some(i)
    requires UpdateStatus(s, orderId, requested, now).Ok?
    ensures var r := UpdateStatus(s, orderId, requested, now).value;
      |r.orders| == |s.orders| && (r.orders[i].status == Pending ==> s.orders[i].status == Pending)
  {
  }

  /** Quirk kept from the server: an item the order creation skipped because its product
      did not exist is left out of the lines but stays in the order's raw items, where the
      dispatch stock check will meet it again (see `DispatchAllOrNothing`). */
  lemma SkippedItemStaysInItems(s: Store, userId: string, items: seq<Item>, now: int, k: nat)
    requires CreateOrder(s, userId, items, now).Ok?
    requires k < |items| && FindProduct(s.products, items[k].productId).None?
    ensures items[k] !in KeptItems(s.products, items)
    ensures var t := CreateOrder(s, userId, items, now).value;
      && |s.orders| < |t.orders| && k < |t.orders[|s.orders|].items|
      && !Available(t.products, t.orders[|s.orders|].items[k])
  {
  }

  /** An account whose franchise id is stored as `null`, such as a manager account, may
      place an order; the order stores `null`, so its dispatch skips the agreement check at
      every later instant. */
  lemma NullFranchiseSkipsAgreement(s: Store, userId: string, items: seq<Item>, now: int,
                                    later: int)
    requires CreateOrder(s, userId, items, now).Ok?
    requires s.users[FindUserById(s.users, userId).value].franchiseId.Null?
    ensures var t := CreateOrder(s, userId, items, now).value;
      && |s.orders| < |t.orders|
      && t.orders[|s.orders|].franchiseId.None?
      && !DispatchBlocked(t.users, t.orders[|s.orders|].franchiseId, later)
  {
  }

  /** The challan lock is one-shot: once an upload succeeds, every later upload for that
      order is refused. */
  lemma ChallanOneShot(s: Store, actor: Actor, orderId: int, now: int, later: int)
    requires UploadChallan(s, actor, orderId, now).Ok?
    ensures UploadChallan(UploadChallan(s, actor, orderId, now).value, actor, orderId, later)
            == Err(ChallanAlreadyUploaded)
  {
    var i := FindOrder(s.orders, orderId).value;
    var t := UploadChallan(s, actor, orderId, now).value;
    assert OrderIds(t.orders) == OrderIds(s.orders);
  }

  /** Status requests never touch the challan lock, so a set flag stays set through every
      later status change and a second upload stays refused whatever the status. */
  lemma StatusKeepsChallan(s: Store, orderId: int, requested: string, now: int, j: nat)
    requires UpdateStatus(s, orderId, requested, now).Ok?
    requires j < |s.orders|
    ensures var r := UpdateStatus(s, orderId, requested, now).value;
      && j < |r.orders|
      && r.orders[j].challanUploaded == s.orders[j].challanUploaded
      && r.orders[j].challanDate == s.orders[j].challanDate
  {
    var i := FindOrder(s.orders, orderId).value;
    var o := s.orders[i];
    var r := UpdateStatus(s, orderId, requested, now).value;
    if requested in {"Delivered", "Approved", "Dispatched", "Cancelled"} {
      assert r.orders == s.orders[i := o.(status := ParseStatus(requested).value)];
    }
  }
}

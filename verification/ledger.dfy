/**
 * The append-only stock ledger: how an entry is posted (id = largest id + 1, or 1 in an
 * empty ledger) and how a product's stock is derived from it (`getDerivedStock`).
 */
module Ledger {
  import opened Model
  import Ids

  /** Sum of the quantities of the IN entries for product `pid`. */
  function InTotal(l: seq<LedgerEntry>, pid: int): int {
    if |l| == 0 then 0
    else
      var e := l[|l| - 1];
      InTotal(l[..|l| - 1], pid) + (if e.productId == pid && e.kind == In then e.quantity else 0)
  }

  /** Sum of the quantities of the OUT entries for product `pid`. */
  function OutTotal(l: seq<LedgerEntry>, pid: int): int {
    if |l| == 0 then 0
    else
      var e := l[|l| - 1];
      OutTotal(l[..|l| - 1], pid) + (if e.productId == pid && e.kind == Out then e.quantity else 0)
  }

  /** The stock the ledger records for `pid`: IN quantities minus OUT quantities. */
  function Derived(l: seq<LedgerEntry>, pid: int): int {
    InTotal(l, pid) - OutTotal(l, pid)
  }

  /** The signed change one entry records for `pid`: +quantity for IN, -quantity for OUT,
      nothing for CREATE and PRICE_UPDATE or for another product. */
  function Movement(e: LedgerEntry, pid: int): int {
    if e.productId != pid then 0
    else
      match e.kind
      case In => e.quantity
      case Out => -e.quantity
      case Create => 0
      case PriceUpdate => 0
  }

  /** `getDerivedStock`: walks the product's ledger entries, adding IN quantities and
      subtracting OUT quantities; the result is the IN total minus the OUT total. */
  method GetDerivedStock(ledger: seq<LedgerEntry>, productId: int) returns (stock: int)
    ensures stock == InTotal(ledger, productId) - OutTotal(ledger, productId)
  {
    stock := 0;
    var i := 0;
    while i < |ledger|
      invariant 0 <= i <= |ledger|
      invariant stock == InTotal(ledger[..i], productId) - OutTotal(ledger[..i], productId)
    {
      var e := ledger[i];
      if e.productId == productId {
        if e.kind == In {
          stock := stock + e.quantity;
        }
        if e.kind == Out {
          stock := stock - e.quantity;
        }
      }
      assert ledger[..i + 1][..i] == ledger[..i];
      i := i + 1;
    }
    assert ledger[..|ledger|] == ledger;
  }

  /** Appending one entry moves the derived stock of every product by that entry's signed
      movement, and by nothing else. */
  lemma DerivedAppend(l: seq<LedgerEntry>, e: LedgerEntry, pid: int)
    ensures Derived(l + [e], pid) == Derived(l, pid) + Movement(e, pid)
  {
    assert (l + [e])[..|l|] == l;
  }

  /** Appending is transitive: a ledger that extends an extension of `a` extends `a`. */
  lemma ExtendsTrans(a: seq<LedgerEntry>, b: seq<LedgerEntry>, c: seq<LedgerEntry>)
    requires |a| <= |b| <= |c| && b[..|a|] == a && c[..|b|] == b
    ensures c[..|a|] == a
  {
    assert c[..|a|] == c[..|b|][..|a|];
  }

  /** A product no entry mentions derives a stock of 0. */
  lemma {:induction false} DerivedWithoutEntries(l: seq<LedgerEntry>, pid: int)
    requires forall k :: 0 <= k < |l| ==> l[k].productId != pid
    ensures Derived(l, pid) == 0
  {
    if |l| > 0 {
      DerivedWithoutEntries(l[..|l| - 1], pid);
    }
  }

  /** Entry ids strictly increase along the ledger (so no two entries share an id). */
  predicate IdsIncreasing(l: seq<LedgerEntry>) {
    forall i, j :: 0 <= i < j < |l| ==> l[i].id < l[j].id
  }

  /** The id the next entry receives. */
  function NextLedgerId(l: seq<LedgerEntry>): int {
    Ids.NextId(LedgerIds(l), 1)
  }

  /** Posts one entry: the ledger only grows at its end and the new entry carries exactly the
      given data under the next id. */
  function Post(l: seq<LedgerEntry>, date: int, productId: int, productName: string,
                kind: MovementType, quantity: int, actor: PerformedBy, cause: Reference)
    : (r: seq<LedgerEntry>)
    ensures |r| == |l| + 1 && r[..|l|] == l
    ensures r[|l|].id == NextLedgerId(l) && r[|l|].date == date && r[|l|].productId == productId
    ensures r[|l|].productName == productName && r[|l|].kind == kind
    ensures r[|l|].quantity == quantity && r[|l|].performedBy == actor && r[|l|].reference == cause
  {
    l + [LedgerEntry(NextLedgerId(l), date, productId, productName, kind, quantity, actor, cause)]
  }

  /** The id of a posted entry is 1 in an empty ledger and otherwise one more than the
      largest id present, so it exceeds every earlier id and increasing ids stay increasing. */
  lemma PostIds(l: seq<LedgerEntry>, date: int, productId: int, productName: string,
                kind: MovementType, quantity: int, actor: PerformedBy, cause: Reference)
    ensures var r := Post(l, date, productId, productName, kind, quantity, actor, cause);
      && (|l| == 0 ==> r[|l|].id == 1)
      && (|l| > 0 ==> exists k :: 0 <= k < |l| && r[|l|].id == l[k].id + 1)
      && (forall k :: 0 <= k < |l| ==> l[k].id < r[|l|].id)
      && (IdsIncreasing(l) ==> IdsIncreasing(r))
  {
    var r := Post(l, date, productId, productName, kind, quantity, actor, cause);
    var ids := LedgerIds(l);
    assert |l| > 0 ==> NextLedgerId(l) - 1 in ids;
    assert forall k :: 0 <= k < |l| ==> l[k].id == ids[k] < NextLedgerId(l);
    if |l| > 0 {
      var k :| 0 <= k < |ids| && ids[k] == NextLedgerId(l) - 1;
      assert r[|l|].id == l[k].id + 1;
    }
    if IdsIncreasing(l) {
      forall i, j | 0 <= i < j < |r| ensures r[i].id < r[j].id {
        if j < |l| {
          assert r[i] == l[i] && r[j] == l[j];
        } else {
          assert r[i] == l[i];
        }
      }
    }
  }
}

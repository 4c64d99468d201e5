/**
 * Sequential integer ids and first-match lookup.
 *
 * Every collection of the server (products, orders, ledger) assigns a new id by reading the
 * document with the largest id (`orderBy('id', 'desc').limit(1)`) and adding one, starting
 * from a fixed first id when the collection is empty; documents are found again by an
 * equality query on `id` with `limit(1)`, i.e. the first match.
 */
module Ids {
  import opened Results

  /** The largest of a non-empty sequence of ids. */
  function MaxOf(ids: seq<int>): (m: int)
    requires |ids| > 0
    ensures m in ids
    ensures forall k :: 0 <= k < |ids| ==> ids[k] <= m
  {
    if |ids| == 1 then ids[0]
    else
      var rest := MaxOf(ids[1..]);
      if ids[0] > rest then ids[0] else rest
  }

  /** The id a new document receives: `first` in an empty collection, otherwise one more than
      the largest id present, so it is strictly greater than every existing id. */
  function NextId(ids: seq<int>, first: int): (r: int)
    ensures |ids| == 0 ==> r == first
    ensures |ids| > 0 ==> r - 1 in ids
    ensures |ids| > 0 ==> exists k :: 0 <= k < |ids| && r == ids[k] + 1
    ensures forall k :: 0 <= k < |ids| ==> ids[k] < r
  {
    if |ids| == 0 then first else MaxOf(ids) + 1
  }

  /** The position of the first occurrence of `key`, or None when it does not occur. */
  function IndexOf(ids: seq<int>, key: int): (r: Option<nat>)
    ensures r.Some? ==> r.value < |ids| && ids[r.value] == key
    ensures r.Some? ==> forall j :: 0 <= j < r.value ==> ids[j] != key
    ensures r.None? <==> forall j :: 0 <= j < |ids| ==> ids[j] != key
  {
    if |ids| == 0 then None
    else if ids[0] == key then Some(0)
    else
      match IndexOf(ids[1..], key)
      case None => None
      case Some(i) => Some(i + 1)
  }

  /** No id occurs twice. */
  predicate Distinct(ids: seq<int>) {
    forall a, b :: 0 <= a < b < |ids| ==> ids[a] != ids[b]
  }
}

/** shared/pkg/pagination/cursor.go: offset pages over a list of a known length. */
module Pagination {
  import opened Prelude
  import GoTime

  const DEFAULT_LIMIT: int := 20
  const MAX_LIMIT: int := 100

  datatype OffsetPage = OffsetPage(page: int, limit: int)

  /** The clamping of `ParseOffset`, on the integers its query parameters parse to. */
  function ParseOffset(page: int, limit: int): (p: OffsetPage)
    ensures p.page == 1 || p.page == page
    ensures page >= 1 && 1 <= limit <= 100 <==> p == OffsetPage(page, limit)
    ensures page < 1 ==> p.page == 1
    ensures limit < 1 ==> p.limit == 20
    ensures limit > 100 ==> p.limit == 100
    ensures p.page >= 1 && 1 <= p.limit <= 100
  {
    var page' := if page <= 0 then 1 else page;
    var limit' := if limit <= 0 then DEFAULT_LIMIT else limit;
    OffsetPage(page', if limit' > MAX_LIMIT then MAX_LIMIT else limit')
  }

  /** An int64 product. */
  function Offset(p: OffsetPage): int { GoTime.Wrap64((p.page - 1) * p.limit) }

  function TotalPages(limit: int, total: int): int
    requires limit >= 0
  {
    if limit == 0 then 0
    else
      var pages := GoTime.TruncDiv(total, limit);
      if total - pages * limit > 0 then pages + 1 else pages
  }

  /** `LIMIT limit OFFSET offset` over the rows of a list. */
  function Fetch<T>(list: seq<T>, offset: nat, limit: nat): seq<T> {
    if offset >= |list| then [] else if offset + limit > |list| then list[offset..] else list[offset..offset + limit]
  }

  lemma PagesCover(limit: int, total: nat)
    requires limit > 0
    ensures var n := TotalPages(limit, total);
      n >= 0 && n * limit >= total && (n > 0 ==> (n - 1) * limit < total) && (n == 0 <==> total == 0)
  {
  }

  /** The product wraps around exactly when it leaves the int64 range. */
  lemma OffsetWraps(p: OffsetPage)
    ensures Offset(p) == (p.page - 1) * p.limit
       <==> GoTime.MIN_INT64 <= (p.page - 1) * p.limit <= GoTime.MAX_INT64
  {
    GoTime.WrapLaws((p.page - 1) * p.limit);
  }

  /** Every page up to the last starts inside the list, so its offset does not wrap. */
  lemma OffsetExact(limit: int, total: nat, k: int)
    requires 1 <= limit && total <= GoTime.MAX_INT64 && 1 <= k <= TotalPages(limit, total)
    ensures Offset(OffsetPage(k, limit)) == (k - 1) * limit && 0 <= (k - 1) * limit < total
  {
    PagesCover(limit, total);
    MulMonotone(limit, k - 1, TotalPages(limit, total) - 1);
    MulMonotone(limit, 0, k - 1);
  }

  /** The first `k` pages, fetched one by one. */
  function Pages<T>(list: seq<T>, limit: nat, k: nat): seq<seq<T>>
    requires 1 <= limit && |list| <= GoTime.MAX_INT64 && k <= TotalPages(limit, |list|)
  {
    if k == 0 then []
    else
      OffsetExact(limit, |list|, k);
      Pages(list, limit, k - 1) + [Fetch(list, Offset(OffsetPage(k, limit)), limit)]
  }

  /** A page that starts inside the list is non-empty and goes on where the rows before it stop. */
  lemma FetchAdvances<T>(list: seq<T>, start: nat, limit: nat)
    requires 0 < limit && start < |list|
    ensures var page := Fetch(list, start, limit);
      && 0 < |page| <= limit && (start + limit <= |list| ==> |page| == limit)
      && list[..start] + page == if start + limit <= |list| then list[..start + limit] else list
  {
  }

  lemma PageStart(limit: int, total: nat, k: int) returns (start: nat)
    requires 1 <= limit && total <= GoTime.MAX_INT64 && 1 <= k <= TotalPages(limit, total)
    ensures start == (k - 1) * limit == Offset(OffsetPage(k, limit)) && k * limit == start + limit && start < total
    ensures k < TotalPages(limit, total) ==> start + limit <= total
  {
    OffsetExact(limit, total, k);
    PagesCover(limit, total);
    start := (k - 1) * limit;
    var n := TotalPages(limit, total);
    MulNext(limit, k - 1);
    if k < n { MulMonotone(limit, k, n - 1); }
  }

  ghost predicate FullButLast<T>(ps: seq<seq<T>>, limit: nat, n: int) {
    forall i :: 0 <= i < |ps| ==> 0 < |ps[i]| <= limit && (i < n - 1 ==> |ps[i]| == limit)
  }

  /** After `k` pages one has the first k * limit rows, and every page but the last is full. */
  lemma {:induction false} PagesPrefix<T>(list: seq<T>, limit: nat, k: nat)
    requires 1 <= limit && |list| <= GoTime.MAX_INT64 && k <= TotalPages(limit, |list|)
    ensures k * limit >= 0
    ensures |Pages(list, limit, k)| == k && FullButLast(Pages(list, limit, k), limit, TotalPages(limit, |list|))
    ensures Flatten(Pages(list, limit, k)) == if k * limit <= |list| then list[..k * limit] else list
  {
    if k > 0 {
      PagesPrefix(list, limit, k - 1);
      var start := PageStart(limit, |list|, k);
      FetchAdvances(list, start, limit);
      FlattenSnoc(Pages(list, limit, k - 1), Fetch(list, start, limit));
    }
  }

  /** Pages 1 to `TotalPages` concatenate to exactly the list: full ones, then a last non-empty one. */
  lemma {:induction false} PagesAreTheList<T>(list: seq<T>, limit: nat)
    requires 1 <= limit && |list| <= GoTime.MAX_INT64
    ensures var n := TotalPages(limit, |list|);
      n >= 0 && (var ps := Pages(list, limit, n); Flatten(ps) == list && |ps| == n && FullButLast(ps, limit, n))
  {
    PagesCover(limit, |list|);
    var n := TotalPages(limit, |list|);
    PagesPrefix(list, limit, n);
    if n * limit <= |list| { assert list[..n * limit] == list; }
  }
}

/** Page arithmetic (`create_pagination_info`) and the walk from page to page. */
module Pagination {
  import opened Results

  datatype PaginationInfo = PaginationInfo(
    page: int,
    limit: int,
    total: int,
    hasMore: bool,
    totalPages: int,
    firstPage: int,
    lastPage: int,
    prevPage: Option<int>,
    nextPage: Option<int>)

  /** Python's `a // b`, which rounds down. */
  function FloorDiv(a: int, b: int): (q: int)
    requires b != 0
    ensures b > 0 ==> q * b <= a < (q + 1) * b
    ensures b < 0 ==> (q + 1) * b < a <= q * b
  {
    if b > 0 || a % b == 0 then a / b else a / b - 1
  }

  /** A zero limit raises `ZeroDivisionError`, unless there is nothing to divide. */
  function CreatePaginationInfo(page: int, limit: int, total: int, firstPage: int := 1): Result<PaginationInfo> {
    if total > 0 && limit == 0 then Err("integer division or modulo by zero")
    else
      var totalPages := if total > 0 then FloorDiv(total + limit - 1, limit) else 0;
      var hasMore := page < totalPages;
      Ok(PaginationInfo(page, limit, total, hasMore, totalPages, firstPage,
                        if totalPages > 1 then totalPages else 1,
                        if page > firstPage then Some(page - 1) else None,
                        if hasMore then Some(page + 1) else None))
  }

  /** The items of a page: `page` counts from 1. */
  predicate OnPage(item: int, page: int, limit: int, total: int) {
    (page - 1) * limit <= item < page * limit && item < total
  }

  /** The page that holds an item. */
  function PageOf(item: nat, limit: int): int
    requires limit >= 1
  {
    FloorDiv(item, limit) + 1
  }

  lemma {:induction false} OneMoreTimes(a: int, c: int)
    ensures (a + 1) * c == a * c + c
  {
  }

  lemma {:induction false} ProductGrows(a: int, b: int, c: int)
    requires a <= b && c >= 1
    ensures a * c + (b - a) <= b * c
    decreases b - a
  {
    if a < b {
      ProductGrows(a, b - 1, c);
      OneMoreTimes(b - 1, c);
    }
  }

  lemma {:induction false} ProductOrder(a: int, b: int, c: int)
    requires c >= 1
    ensures a < b ==> (a + 1) * c <= b * c
    ensures a * c < b * c <==> a < b
  {
    if a < b {
      ProductGrows(a, b, c);
      ProductGrows(a + 1, b, c);
    } else {
      ProductGrows(b, a, c);
    }
  }

  /** `has_more` tells whether an item lies beyond the page, and the page count is the ceiling of
      `total / limit`. */
  lemma {:induction false} HasMoreIff(page: int, limit: int, total: int, firstPage: int)
    requires limit >= 1 && total >= 0
    ensures var r := CreatePaginationInfo(page, limit, total, firstPage);
      && r.Ok?
      && (r.value.hasMore <==> page < r.value.totalPages)
      && (total > 0 ==> (r.value.totalPages - 1) * limit < total <= r.value.totalPages * limit)
      && (r.value.hasMore <==> page * limit < total)
  {
    var n := CreatePaginationInfo(page, limit, total, firstPage).value.totalPages;
    if total > 0 {
      assert (n + 1) * limit == n * limit + limit && (n - 1) * limit == n * limit - limit;
      ProductOrder(page, n, limit);
      ProductOrder(n - 1, page, limit);
    } else {
      ProductOrder(page, 0, limit);
    }
  }

  /** The page, limit and total come back as given; the page before is told from the first page on, the page
      after up to the last one, which is never before page 1. */
  lemma {:induction false} InfoTellsPage(page: int, limit: int, total: int, firstPage: int)
    ensures CreatePaginationInfo(page, limit, total, firstPage).Err? <==> limit == 0 && total > 0
    ensures forall info :: CreatePaginationInfo(page, limit, total, firstPage) == Ok(info) ==>
      && (info.page, info.limit, info.total, info.firstPage) == (page, limit, total, firstPage)
      && (info.prevPage.Some? <==> firstPage < page) && (info.prevPage.Some? ==> info.prevPage.value + 1 == page)
      && (info.nextPage.Some? <==> info.hasMore) && (info.nextPage.Some? ==> page + 1 == info.nextPage.value)
      && info.lastPage >= 1 && info.lastPage >= info.totalPages
      && (info.lastPage == 1 || info.lastPage == info.totalPages)
      && (info.nextPage.Some? ==> info.nextPage.value <= info.lastPage)
  {
  }

  /** Each item lies on exactly one page, one of those from 1 to the page count, and those pages
      are not empty. */
  lemma {:induction false} PagesPartitionItems(item: nat, page: int, limit: int, total: nat)
    requires limit >= 1 && item < total
    ensures OnPage(item, page, limit, total) <==> page == PageOf(item, limit)
    ensures 1 <= PageOf(item, limit) <= CreatePaginationInfo(1, limit, total).value.totalPages
  {
    var p := PageOf(item, limit);
    HasMoreIff(1, limit, total, 1);
    var n := CreatePaginationInfo(1, limit, total).value.totalPages;
    ProductOrder(p - 1, n, limit);
    ProductOrder(0, p, limit);
    ProductOrder(page - 1, p, limit);
    ProductOrder(p - 1, page, limit);
  }

  lemma {:induction false} PagesAreNotEmpty(page: int, limit: int, total: nat)
    requires limit >= 1 && total > 0
    requires 1 <= page <= CreatePaginationInfo(1, limit, total).value.totalPages
    ensures OnPage((page - 1) * limit, page, limit, total)
  {
    HasMoreIff(page - 1, limit, total, 1);
    assert page * limit == (page - 1) * limit + limit;
  }

  /** The pages visited by following `next_page` from `page`. */
  function Walk(page: int, limit: int, total: int): seq<int>
    requires limit >= 1
    decreases CreatePaginationInfo(page, limit, total).value.totalPages - page
  {
    var next := CreatePaginationInfo(page, limit, total).value.nextPage;
    [page] + if next.None? then [] else Walk(next.value, limit, total)
  }

  /** Following `next_page` from page 1 visits the pages 1 to `ceil(total / limit)`, in order. */
  lemma {:induction false} WalkVisitsEveryPage(page: int, limit: int, total: int)
    requires limit >= 1 && total > 0 && 1 <= page <= CreatePaginationInfo(1, limit, total).value.totalPages
    ensures var n := CreatePaginationInfo(1, limit, total).value.totalPages;
      n == CreatePaginationInfo(1, limit, total).value.lastPage && |Walk(page, limit, total)| == n - page + 1
      && forall i | 0 <= i < |Walk(page, limit, total)| :: Walk(page, limit, total)[i] == page + i
    decreases CreatePaginationInfo(1, limit, total).value.totalPages - page
  {
    if page < CreatePaginationInfo(1, limit, total).value.totalPages {
      WalkVisitsEveryPage(page + 1, limit, total);
    }
  }

  /** Going to the next page and back leads to the same page, wherever the first page is not beyond it. */
  lemma {:induction false} PrevUndoesNext(page: int, limit: int, total: int, firstPage: int)
    requires limit >= 1
    ensures var here := CreatePaginationInfo(page, limit, total, firstPage).value;
      here.nextPage.Some? ==>
        var there := CreatePaginationInfo(here.nextPage.value, limit, total, firstPage).value;
        (there.prevPage == Some(page) <==> firstPage <= page)
  {
  }

  /** The whole walk: its windows cover the items 0 to `total`, each exactly once. */
  lemma {:induction false} WalkCoversItemsOnce(item: nat, limit: int, total: nat, i: nat)
    requires limit >= 1 && item < total
    ensures var walk := Walk(1, limit, total);
      i < |walk| ==> (OnPage(item, walk[i], limit, total) <==> i == PageOf(item, limit) - 1)
    ensures 0 <= PageOf(item, limit) - 1 < |Walk(1, limit, total)|
  {
    PagesPartitionItems(item, i + 1, limit, total);
    WalkVisitsEveryPage(1, limit, total);
  }
}

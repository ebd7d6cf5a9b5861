/** The pagination arithmetic shared by the blog listing, the search and a user's blogs:
    page and limit defaults, the row offset and the next/previous page links. */
module Pagination {
  import opened Common
  import opened Numbers

  const DefaultPage := 1
  const DefaultLimit := 6

  /** The page asked for, the page size and the number of rows skipped. */
  datatype Window = Window(page: int, limit: int, offset: int)

  /** `currentPage = parseInt(page) || 1`, `limit = parseInt(limit) || 6`,
      `offset = (currentPage - 1) * limit`, given what `parseInt` made of the two
      values (None for NaN). */
  function WindowOf(page: Option<int>, limit: Option<int>): (w: Window)
    ensures w.page == (if page.None? || page.value == 0 then DefaultPage else page.value)
    ensures w.limit == (if limit.None? || limit.value == 0 then DefaultLimit else limit.value)
    ensures w.page != 0 && w.limit != 0
    ensures w.offset == (w.page - 1) * w.limit
  {
    var p := OrDefault(page, DefaultPage);
    var l := OrDefault(limit, DefaultLimit);
    Window(p, l, (p - 1) * l)
  }

  /** One page of a listing and the links to its neighbours (None is JSON null). */
  datatype Page<T> = Page(rows: seq<T>, nextPage: Option<int>, prevPage: Option<int>)

  /** Builds the reply from the rows fetched for the window and the total count: an empty
      page is 404 and the total plays no part in it. */
  function Paginate<T>(w: Window, rows: seq<T>, total: nat, notFound: string): (r: Result<Page<T>>)
    ensures rows == [] <==> r.Err?
    ensures r.Err? ==> r.error == ApiError(notFound, 404)
    ensures r.Ok? ==> r.value.rows == rows
    ensures r.Ok? ==> (r.value.nextPage.Some? <==> total > w.page * w.limit)
    ensures r.Ok? && r.value.nextPage.Some? ==> r.value.nextPage.value == w.page + 1
    ensures r.Ok? ==> (r.value.prevPage.Some? <==> w.page > 1)
    ensures r.Ok? && r.value.prevPage.Some? ==> r.value.prevPage.value == w.page - 1
  {
    if rows == [] then Err(ApiError(notFound, 404))
    else
      var hasNextPage := total > w.page * w.limit;
      var hasPrevPage := w.page > 1;
      Ok(Page(rows, if hasNextPage then Some(w.page + 1) else None, if hasPrevPage then Some(w.page - 1) else None))
  }

  /** How many pages of `limit` rows a listing of `total` rows fills (at least one). */
  function PageCount(limit: nat, total: nat): (n: nat)
    requires limit > 0
    ensures n >= 1
  {
    if total <= limit then 1 else 1 + PageCount(limit, total - limit)
  }

  /** For a positive page and limit, a next page is offered exactly on the pages before the
      last one, so following nextPage from page 1 visits every page and stops at the last. */
  lemma {:induction false} NextPageUntilLast(page: int, limit: int, total: nat)
    requires page >= 1 && limit > 0
    ensures total > page * limit <==> page < PageCount(limit, total)
  {
    if total > limit && page > 1 {
      NextPageUntilLast(page - 1, limit, total - limit);
      assert (page - 1) * limit == page * limit - limit;
    } else if total <= limit {
      assert page * limit >= limit by {
        assert (page - 1) * limit >= 0;
      }
    }
  }

  /** The last page holds the last row: it starts before the total and ends at or after it. */
  lemma {:induction false} LastPageHoldsLastRow(limit: int, total: nat)
    requires limit > 0 && total > 0
    ensures (PageCount(limit, total) - 1) * limit < total <= PageCount(limit, total) * limit
  {
    if total > limit {
      LastPageHoldsLastRow(limit, total - limit);
      var n := PageCount(limit, total - limit);
      assert (n + 1) * limit == n * limit + limit;
    }
  }
}

/** Page arithmetic of the list queries, and what it means for the pages a client walks through. */
module Pagination {
  import opened Wrappers

  datatype Params = Params(page: nat, perPage: nat, offset: nat)
  datatype Meta = Meta(total: nat, page: nat, perPage: nat, totalPages: nat, hasNext: bool, hasPrevious: bool)

  function Min(a: int, b: int): int {
    if a < b then a else b
  }

  function Max(a: int, b: int): int {
    if a < b then b else a
  }

  /** A missing number and zero both give the default. */
  function OrDefault(n: Option<int>, default: int): int {
    if n.Some? && n.value != 0 then n.value else default
  }

  function Parse(page: Option<int>, perPage: Option<int>): (params: Params)
    ensures params.page >= 1 && 1 <= params.perPage <= 100
    ensures if page.Some? && page.value >= 1 then params.page == page.value else params.page == 1
    ensures perPage.None? || perPage.value == 0 ==> params.perPage == 20
    ensures perPage.Some? && perPage.value < 0 ==> params.perPage == 1
    ensures perPage.Some? && 1 <= perPage.value <= 100 ==> params.perPage == perPage.value
    ensures perPage.Some? && perPage.value > 100 ==> params.perPage == 100
  {
    var page := Max(1, OrDefault(page, 1));
    var perPage := Min(100, Max(1, OrDefault(perPage, 20)));
    Params(page, perPage, (page - 1) * perPage)
  }

  function TotalPages(total: nat, perPage: nat): nat
    requires perPage >= 1
  {
    (total + perPage - 1) / perPage
  }

  function BuildMeta(total: nat, page: nat, perPage: nat): Meta
    requires perPage >= 1
  {
    var totalPages := TotalPages(total, perPage);
    Meta(total, page, perPage, totalPages, page < totalPages, page > 1)
  }

  /** The rows a query with this limit and offset gives. */
  function Rows<T>(items: seq<T>, params: Params): seq<T> {
    var from := Min(params.offset, |items|);
    var to := Min(params.offset + params.perPage, |items|);
    items[from..to]
  }

  /** Pages 1 to `n`, one after the other, as a client gets them. */
  function FirstPages<T>(items: seq<T>, perPage: Option<int>, n: nat): seq<T> {
    if n == 0 then [] else FirstPages(items, perPage, n - 1) + Rows(items, Parse(Some(n), perPage))
  }

  /** The size of page the client gets, whatever it asked for. */
  function PageSize(perPage: Option<int>): nat {
    Parse(None, perPage).perPage
  }

  /** The number of pages is the least that has room for everything. */
  lemma TotalPagesIsLeast(total: nat, perPage: nat, n: nat)
    requires perPage >= 1
    ensures TotalPages(total, perPage) <= n <==> total <= n * perPage
  {
    var all := total + perPage - 1;
    var q := TotalPages(total, perPage);
    assert all == q * perPage + all % perPage;
    if q <= n {
      MulMonotone(q, n, perPage);
    } else {
      MulMonotone(n + 1, q, perPage);
      assert (n + 1) * perPage == n * perPage + perPage;
    }
  }

  lemma MulMonotone(a: nat, b: nat, c: nat)
    requires a <= b
    ensures a * c <= b * c
  {
  }

  lemma NextSlice<T>(items: seq<T>, page: nat, offset: nat, size: nat)
    ensures items[..Min(offset, |items|)] + Rows(items, Params(page, size, offset)) == items[..Min(offset + size, |items|)]
  {
  }

  lemma PageParams(perPage: Option<int>, n: nat)
    requires n > 0
    ensures var params := Parse(Some(n), perPage);
      && params == Params(n, PageSize(perPage), params.offset)
      && params.offset == (n - 1) * PageSize(perPage)
      && params.offset + PageSize(perPage) == n * PageSize(perPage)
  {
  }

  lemma {:induction false} FirstPagesArePrefix<T>(items: seq<T>, perPage: Option<int>, n: nat)
    ensures FirstPages(items, perPage, n) == items[..Min(n * PageSize(perPage), |items|)]
    decreases n
  {
    if n > 0 {
      var size := PageSize(perPage);
      FirstPagesArePrefix(items, perPage, n - 1);
      var params := Parse(Some(n), perPage);
      PageParams(perPage, n);
      NextSlice(items, n, params.offset, size);
    }
  }

  /** Walking through all pages gives the list, each entry once and in order. */
  lemma PagesConcatenate<T>(items: seq<T>, perPage: Option<int>)
    ensures FirstPages(items, perPage, TotalPages(|items|, PageSize(perPage))) == items
  {
    var n := TotalPages(|items|, PageSize(perPage));
    TotalPagesIsLeast(|items|, PageSize(perPage), n);
    FirstPagesArePrefix(items, perPage, n);
  }

  lemma RowCount<T>(items: seq<T>, params: Params)
    ensures |Rows(items, params)| ==
            if |items| <= params.offset then 0 else Min(params.perPage, |items| - params.offset)
  {
  }

  /** Whatever a client asks for: a page before the last is full, the last is not empty, a page
    * beyond is empty; and hasNext tells exactly whether the next page holds anything. */
  lemma PageSizes<T>(items: seq<T>, page: Option<int>, perPage: Option<int>)
    ensures var params := Parse(page, perPage);
      var meta := BuildMeta(|items|, params.page, params.perPage);
      var rows, next := Rows(items, params), Rows(items, Parse(Some(params.page + 1), perPage));
      && (params.page < meta.totalPages ==> |rows| == params.perPage)
      && (rows != [] <==> params.page <= meta.totalPages)
      && (meta.hasNext <==> next != [])
      && (meta.hasPrevious <==> params.page != 1)
  {
    var params := Parse(page, perPage);
    var after := Parse(Some(params.page + 1), perPage);
    var total := |items|;
    TotalPagesIsLeast(total, params.perPage, params.page);
    TotalPagesIsLeast(total, params.perPage, params.page - 1);
    NextOffset(page, perPage);
    RowCount(items, params);
    RowCount(items, after);
  }

  lemma NextOffset(page: Option<int>, perPage: Option<int>)
    ensures var params := Parse(page, perPage);
      var after := Parse(Some(params.page + 1), perPage);
      && after.perPage == params.perPage
      && after.offset == params.offset + params.perPage == params.page * params.perPage
      && params.offset == (params.page - 1) * params.perPage
  {
  }
}

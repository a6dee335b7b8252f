/**
 * The listing arithmetic shared by the three paginated listings: the
 * defaults for page and limit, the row offset, the page count, and the
 * shape of a listing response.
 */
module Pagination {
  import opened Wrappers

  /** The query options a listing receives: absent values take the defaults. */
  datatype PaginationOptions = PaginationOptions(page: Option<int>, limit: Option<int>, search: Option<string>)

  const DefaultPage: int := 1
  const DefaultLimit: int := 10

  function PageOf(options: PaginationOptions): int { options.page.GetOr(DefaultPage) }
  function LimitOf(options: PaginationOptions): int { options.limit.GetOr(DefaultLimit) }

  /** `(page - 1) * limit`: the number of rows skipped before the requested page. */
  function Offset(page: int, limit: int): (r: int)
    requires page >= 1 && limit >= 0
    ensures r >= 0
    ensures r == 0 <==> page == 1 || limit == 0
  {
    (page - 1) * limit
  }

  /** The offset skips exactly `page - 1` whole pages of `limit` rows. */
  lemma OffsetSkipsWholePages(page: int, limit: int)
    requires page >= 1 && limit >= 1
    ensures Offset(page, limit) % limit == 0 && Offset(page, limit) / limit == page - 1
  {
    DivUnique((page - 1) * limit, limit, page - 1, 0);
  }

  /** Euclidean division has one quotient and one remainder. */
  lemma DivUnique(a: int, d: int, k: int, m: int)
    requires d > 0 && a == d * k + m && 0 <= m < d
    ensures a / d == k && a % d == m
  {
    var k', m' := a / d, a % d;
    if k > k' {
      assert d * k == d * k' + d * (k - k');
      MulAtLeast(d, k - k');
    } else if k < k' {
      assert d * k' == d * k + d * (k' - k);
      MulAtLeast(d, k' - k);
    }
  }

  lemma MulAtLeast(d: int, x: int)
    requires d > 0 && x >= 1
    ensures d * x >= d
  {
  }

  /** `Math.ceil(count / limit)`: the least number of pages of `limit` rows that hold `count` rows. */
  function CeilDiv(count: nat, limit: int): (r: nat)
    requires limit >= 1
    ensures r * limit >= count
    ensures r > 0 ==> (r - 1) * limit < count
    ensures r == 0 <==> count == 0
  {
    (count + limit - 1) / limit
  }

  /** Any page count that holds `count` rows and wastes no whole page is the one computed. */
  lemma CeilDivUnique(count: nat, limit: int, pages: nat)
    requires limit >= 1
    requires pages * limit >= count && (pages > 0 ==> (pages - 1) * limit < count)
    ensures pages == CeilDiv(count, limit)
  {
  }

  /** A paged query: the filter, the page size and the number of rows skipped, newest first. */
  datatype PageQuery<F> = PageQuery(filter: F, limit: int, offset: int)

  /** What `findAndCountAll` gives back: one page of rows and the number of rows matching the filter. */
  datatype Counted<T> = Counted(rows: seq<T>, count: nat)

  /** A listing response: the rows, the page count, the echoed page, the total, and the optional message. */
  datatype Listing<T> = Listing(rows: seq<T>, totalPages: int, currentPage: int, total: int, message: Option<string>)

  /**
   * The response built from a counted query: with `emptyMessage` given,
   * a zero count gives the fixed empty shape carrying that message;
   * otherwise the rows, `ceil(count / limit)` pages and no message.
   */
  function ListingOf<T>(rows: seq<T>, count: nat, page: int, limit: int, emptyMessage: Option<string>): (r: Listing<T>)
    requires limit >= 1
    ensures r.currentPage == page && r.total == count
    ensures count == 0 && emptyMessage.Some? ==> r == Listing([], 0, page, 0, emptyMessage)
    ensures count > 0 || emptyMessage.None? ==>
      r.rows == rows && r.message == None && r.totalPages * limit >= count && (r.totalPages > 0 ==> (r.totalPages - 1) * limit < count)
    ensures r.totalPages == 0 <==> count == 0
  {
    if count == 0 && emptyMessage.Some? then Listing([], 0, page, 0, emptyMessage)
    else Listing(rows, CeilDiv(count, limit), page, count, None)
  }
}

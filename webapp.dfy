/** Request-parameter handling of the web application (cmd/webapp/main.go): the list API's
    sort and page defaults, its offset and page count, the fixed first page of the home page,
    and the parsing of the detail route's id. Store calls and rendering are not modelled;
    each handler is reduced to the query it would issue and the numbers it would report. */
module WebApp {
  import opened Wrappers
  import opened Text

  const PageSize: nat := 24
  const DefaultSort: string := "updated_desc"

  /** The query parameters of GET /api/animes, as strings ("" when absent). */
  datatype ListRequest = ListRequest(search: string, sort: string, page: string)

  /** The store query a handler issues: search, sort, page size and offset. */
  datatype PageQuery = PageQuery(search: string, sort: string, limit: int, offset: int)

  /** The list API's answer besides the rows: the page it reports and the page count. */
  datatype ListPlan = ListPlan(query: PageQuery, currentPage: int, totalPages: int)

  /** What the home page queries and renders besides the rows. */
  datatype HomePlan = HomePlan(query: PageQuery, sort: string, currentPage: int, totalPages: int, nextPage: int)

  // ================================================================ normalisation

  /** An empty sort becomes "updated_desc"; any other value passes through unchanged. */
  function NormalizeSort(sort: string): (r: string)
    ensures r != ""
    ensures sort != "" ==> r == sort
  {
    if sort == "" then DefaultSort else sort
  }

  /** The page: the parsed integer when it parses and is at least 1, otherwise 1. */
  function NormalizePage(pageStr: string): (r: int)
    ensures 1 <= r <= MaxInt64
    ensures r != 1 ==> Atoi(pageStr) == Some(r)
    ensures Atoi(pageStr).Some? && Atoi(pageStr).value >= 1 ==> r == Atoi(pageStr).value
  {
    match Atoi(pageStr)
    case Some(page) => if page < 1 then 1 else page
    case None => 1
  }

  /** The number of pages of 24 rows that hold `total` rows: the least n with 24n >= total. */
  function TotalPages(total: nat): (r: nat)
    ensures r * PageSize >= total
    ensures r > 0 ==> (r - 1) * PageSize < total
    ensures r == 0 <==> total == 0
  {
    (total + PageSize - 1) / PageSize
  }

  // ================================================================ the offset

  /** Go's int: the 64-bit two's-complement value of an integer. */
  function Wrap64(x: int): (r: int)
    ensures MinInt64 <= r <= MaxInt64
    ensures MinInt64 <= x <= MaxInt64 ==> r == x
  {
    (x - MinInt64) % 0x1_0000_0000_0000_0000 + MinInt64
  }

  /** `(page - 1) * pageSize` as written: a 64-bit value, equal to the product whenever the
      product fits and wrapped around otherwise. */
  function OffsetAsWritten(page: int): (r: int)
    ensures MinInt64 <= r <= MaxInt64
    ensures MinInt64 <= (page - 1) * PageSize <= MaxInt64 ==> r == (page - 1) * PageSize
  {
    Wrap64((page - 1) * PageSize)
  }

  /** The largest page whose offset fits in 64 bits. */
  const MaxPage: int := MaxInt64 / PageSize + 1

  /** The offset of a page with the page clamped to MaxPage: a non-negative multiple of 24
      that fits in 64 bits, equal to (page - 1) * 24 for every page up to MaxPage. */
  function Offset(page: int): (r: int)
    requires page >= 1
    ensures 0 <= r <= MaxInt64 && r % PageSize == 0
    ensures page <= MaxPage ==> r == (page - 1) * PageSize
    ensures page > MaxPage ==> r == (MaxPage - 1) * PageSize
  {
    if page <= MaxPage then (page - 1) * PageSize else (MaxPage - 1) * PageSize
  }

  /** Up to MaxPage the code as written computes the same offset as the clamped one. */
  lemma OffsetAgreesUpToMaxPage(page: int)
    requires 1 <= page <= MaxPage
    ensures OffsetAsWritten(page) == Offset(page)
  {
    assert 0 <= (page - 1) * PageSize <= MaxInt64;
  }

  /** One page further the product passes 2^63 and the offset as written comes out negative,
      and that page is what a request with the page written in decimal normalises to. */
  lemma OffsetOverflow()
    ensures MaxPage + 1 == 384307168202282327
    ensures OffsetAsWritten(MaxPage + 1) == -9223372036854775792
    ensures NormalizePage(DecimalString(MaxPage + 1)) == MaxPage + 1
  {
    assert MaxPage == 384307168202282326;
    assert (MaxPage + 1 - 1) * PageSize == 9223372036854775824;
    assert 9223372036854775824 - MinInt64 == 0x1_0000_0000_0000_0000 + 16;
    assert (9223372036854775824 - MinInt64) % 0x1_0000_0000_0000_0000 == 16;
    AtoiFormatRoundTrip(MaxPage + 1);
  }

  // ================================================================ handlers

  /** apiListAnimesHandler: the normalised sort and page, the offset of that page as the code
      computes it, and the page count of the matching rows (`total`, as counted by the store).
      Up to MaxPage the offset is the intended non-negative multiple of 24. */
  function ListAnimes(req: ListRequest, total: nat): (r: ListPlan)
    ensures r.query.search == req.search && r.query.sort == NormalizeSort(req.sort)
    ensures r.query.limit == PageSize && r.currentPage == NormalizePage(req.page)
    ensures r.query.offset == OffsetAsWritten(r.currentPage)
    ensures r.currentPage <= MaxPage ==>
              r.query.offset == Offset(r.currentPage) && 0 <= r.query.offset && r.query.offset % PageSize == 0
    ensures r.totalPages == TotalPages(total)
  {
    var page := NormalizePage(req.page);
    ListPlan(PageQuery(req.search, NormalizeSort(req.sort), PageSize, OffsetAsWritten(page)), page, TotalPages(total))
  }

  /** The list API itself sends the negative offset for the page one past MaxPage. */
  lemma ListAnimesNegativeOffset(search: string, sort: string, total: nat)
    ensures ListAnimes(ListRequest(search, sort, DecimalString(MaxPage + 1)), total).query.offset < 0
  {
    OffsetOverflow();
  }

  /** homeHandler: the first page sorted by update time, page 1 of TotalPages, next page 2. */
  function Home(total: nat): (r: HomePlan)
    ensures r.query.search == "" && r.query.sort == NormalizeSort("") && r.sort == r.query.sort
    ensures r.currentPage == NormalizePage("") && r.query.limit == PageSize && r.query.offset == Offset(r.currentPage)
    ensures r.totalPages == TotalPages(total) && r.nextPage == r.currentPage + 1
  {
    HomePlan(PageQuery("", DefaultSort, PageSize, 0), DefaultSort, 1, TotalPages(total), 2)
  }

  /** The home page issues exactly the query and reports exactly the page numbers of the list
      API asked with no parameters. */
  lemma HomeIsFirstListPage(total: nat)
    ensures Home(total).query == ListAnimes(ListRequest("", "", ""), total).query
    ensures Home(total).currentPage == ListAnimes(ListRequest("", "", ""), total).currentPage
    ensures Home(total).totalPages == ListAnimes(ListRequest("", "", ""), total).totalPages
    ensures Home(total).nextPage == Home(total).currentPage + 1
  {
  }

  /** Consecutive pages of the list API ask for consecutive, non-overlapping windows of 24 rows. */
  lemma ConsecutivePagesTile(n: nat)
    requires 1 <= n < MaxPage
    ensures var req := ListRequest("", "", DecimalString(n));
            var next := ListRequest("", "", DecimalString(n + 1));
            ListAnimes(next, 0).query.offset == ListAnimes(req, 0).query.offset + PageSize
  {
    PageOfDecimal(n);
    PageOfDecimal(n + 1);
  }

  /** A page number written in decimal normalises to itself. */
  lemma PageOfDecimal(n: nat)
    requires 1 <= n <= MaxInt64
    ensures NormalizePage(DecimalString(n)) == n
  {
    AtoiFormatRoundTrip(n);
  }

  datatype DetailRoute = NotFound | Lookup(animeId: int)

  /** animeDetailHandler's parsing: an id that is not a 64-bit integer is NotFound before
      any store call. */
  function ParseDetailRoute(idStr: string): (r: DetailRoute)
    ensures r.NotFound? <==> Atoi(idStr).None?
    ensures r.Lookup? ==> r.animeId == Atoi(idStr).value
  {
    match Atoi(idStr)
    case None => NotFound
    case Some(id) => Lookup(id)
  }

  /** Every anime id the catalogue hands out round-trips through the route. */
  lemma DetailRouteRoundTrip(id: nat)
    requires id <= MaxInt64
    ensures ParseDetailRoute(DecimalString(id)) == Lookup(id)
  {
    AtoiFormatRoundTrip(id);
  }
}

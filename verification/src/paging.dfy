/**
 * Pagination parameters and the paginated envelope (app/schemas/common.py),
 * plus the OFFSET/LIMIT window that every listing endpoint applies to an
 * ordered query result.
 */
module Paging {
  import opened Outcomes
  import Text

  const DefaultPageSize: int := 20
  const MaxPageSize: int := 100

  datatype PageParams = PageParams(page: int, size: int)

  /**
   * Field validation of `PaginationParams`: an absent page is 1 and an
   * absent size the configured default; a page below 1 or a size outside
   * 1..100 is a 422.
   */
  function MakePageParams(page: Option<int>, size: Option<int>): (r: Result<PageParams>)
    ensures r.Ok? <==> (page.None? || page.value >= 1) && (size.None? || 1 <= size.value <= MaxPageSize)
    ensures r.Ok? && page.None? ==> r.value.page == 1
    ensures r.Ok? && page.Some? ==> r.value.page == page.value
    ensures r.Ok? && size.None? ==> r.value.size == DefaultPageSize
    ensures r.Ok? && size.Some? ==> r.value.size == size.value
    ensures r.Ok? ==> ValidParams(r.value)
    ensures r.Err? ==> r.error.Http? && r.error.status == 422
  {
    var p := if page.Some? then page.value else 1;
    var s := if size.Some? then size.value else DefaultPageSize;
    if p < 1 || s < 1 || s > MaxPageSize then Err(Http(422, "")) else Ok(PageParams(p, s))
  }

  predicate ValidParams(p: PageParams) { p.page >= 1 && 1 <= p.size <= MaxPageSize }

  /** `PaginationParams.skip`: the number of rows before the first one of the page. */
  function Skip(p: PageParams): (n: int)
    ensures ValidParams(p) ==> n >= 0 && n % p.size == 0 && n / p.size == p.page - 1
  {
    var n := (p.page - 1) * p.size;
    if ValidParams(p) then Text.DivModUnique(n, p.size, p.page - 1, 0); n else n
  }

  /** `math.ceil(total / size) if size > 0 else 0` on exact integers. */
  function PageCount(total: nat, size: int): (pages: nat)
    ensures size <= 0 ==> pages == 0
  {
    if size > 0 then (total + size - 1) / size else 0
  }

  /** The page count is the least number of pages of `size` rows that holds `total` rows. */
  lemma PageCountIsCeiling(total: nat, size: int)
    requires size > 0
    ensures PageCount(total, size) * size >= total
    ensures total == 0 <==> PageCount(total, size) == 0
    ensures PageCount(total, size) > 0 ==> (PageCount(total, size) - 1) * size < total
  {
    var q := (total + size - 1) / size;
    var r := (total + size - 1) % size;
    assert total + size - 1 == q * size + r;
    if total == 0 {
      Text.DivModUnique(size - 1, size, 0, size - 1);
    }
  }

  datatype PaginatedResponse<T> = PaginatedResponse(items: seq<T>, total: nat, page: int, size: int, pages: nat)

  /** `PaginatedResponse.create`: the caller's items, total, page and size, with the page count derived. */
  function CreateResponse<T>(items: seq<T>, total: nat, page: int, size: int): (r: PaginatedResponse<T>)
    ensures r.items == items && r.total == total && r.page == page && r.size == size
    ensures size > 0 ==> r.pages * size >= total && (r.pages == 0 <==> total == 0)
  {
    var r := PaginatedResponse(items, total, page, size, PageCount(total, size));
    if size > 0 then PageCountIsCeiling(total, size); r else r
  }

  function Min(a: int, b: int): int { if a <= b then a else b }

  /** SQL `OFFSET offset LIMIT limit`, equally Python `xs[offset:offset + limit]`. */
  function Window<T(!new)>(xs: seq<T>, offset: nat, limit: nat): (r: seq<T>)
    ensures |r| == if offset >= |xs| then 0 else Min(limit, |xs| - offset)
    ensures forall i :: 0 <= i < |r| ==> r[i] == xs[offset + i]
    ensures forall x :: x in r ==> x in xs
  {
    if offset >= |xs| then [] else xs[offset..offset + Min(limit, |xs| - offset)]
  }

  /** Two consecutive windows read the same rows as one window spanning both. */
  lemma WindowsTile<T(!new)>(xs: seq<T>, offset: nat, a: nat, b: nat)
    ensures Window(xs, offset, a) + Window(xs, offset + a, b) == Window(xs, offset, a + b)
  {
  }

  /** The position of the first row of page `q`. */
  function PageStart(q: int, size: int): int { (q - 1) * size }

  /** Every row lies on exactly one page: page `i / size + 1`, at position `i % size`. */
  lemma EveryRowOnItsPage<T(!new)>(xs: seq<T>, size: int, i: int)
    requires 1 <= size && 0 <= i < |xs|
    ensures var p := i / size + 1;
      1 <= p <= PageCount(|xs|, size)
      && (p - 1) * size <= i
      && i - (p - 1) * size < |Window(xs, (p - 1) * size, size)|
      && Window(xs, (p - 1) * size, size)[i - (p - 1) * size] == xs[i]
    ensures forall q :: 1 <= q && PageStart(q, size) <= i < PageStart(q, size) + size ==> q == i / size + 1
  {
    var p := i / size + 1;
    var offset := (p - 1) * size;
    PageOfRow(|xs|, size, i);
    assert offset <= i < offset + size;
    assert Window(xs, offset, size)[i - offset] == xs[offset + (i - offset)];
    forall q | 1 <= q && PageStart(q, size) <= i < PageStart(q, size) + size ensures q == p {
      Text.DivModUnique(i, size, q - 1, i - (q - 1) * size);
    }
  }

  /** Row `i` falls on page `i / size + 1`, which is one of the pages. */
  lemma PageOfRow(total: nat, size: int, i: int)
    requires 1 <= size && 0 <= i < total
    ensures var p := i / size + 1;
      1 <= p <= PageCount(total, size) && (p - 1) * size <= i < (p - 1) * size + size
  {
    var p := i / size + 1;
    assert i == (p - 1) * size + i % size;
    PageCountIsCeiling(total, size);
    MulCancel(PageCount(total, size), p - 1, size);
  }

  lemma MulCancel(a: int, b: int, s: int)
    requires s > 0 && a * s > b * s
    ensures a > b
  {
  }
}

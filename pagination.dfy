/** Offset pagination as Flask-SQLAlchemy's `query.paginate(page=..., per_page=...,
    error_out=False)` performs it. */
module Pagination {

  /** One page of a query: its rows, the number of rows the whole query
      matches, and the number of pages. */
  datatype Page<T> = Page(items: seq<T>, total: nat, pages: nat)

  /** Page size Flask-SQLAlchemy falls back to when `per_page` is below 1. */
  const FallbackPerPage: nat := 20

  /** With `error_out=False`, a page number below 1 is read as page 1. */
  function PageNumber(page: int): (p: int)
    ensures p >= 1
    ensures page >= 1 ==> p == page
  {
    if page < 1 then 1 else page
  }

  /** With `error_out=False`, a page size below 1 is read as the fallback size. */
  function PageSize(perPage: int): (n: nat)
    ensures n >= 1
    ensures perPage >= 1 ==> n == perPage
  {
    if perPage < 1 then FallbackPerPage else perPage
  }

  /** How many rows come before the page: `(page - 1) * per_page`. */
  function Offset(page: int, perPage: int): nat {
    (PageNumber(page) - 1) * PageSize(perPage)
  }

  /** Largest value of PostgreSQL's `bigint`, the type LIMIT and OFFSET take. */
  const BigintMax: int := 0x7FFF_FFFF_FFFF_FFFF

  /** The database can run the page's query: its LIMIT (the size) and its
      OFFSET fit in a `bigint`; otherwise the query fails. */
  predicate PageFitsBigint(page: int, perPage: int) {
    PageSize(perPage) <= BigintMax && Offset(page, perPage) <= BigintMax
  }

  /** `ceil(total / size)`, and 0 for an empty result. */
  function PageCount(total: nat, size: nat): (n: nat)
    requires size >= 1
    ensures total == 0 <==> n == 0
    ensures total <= n * size
    ensures total > 0 ==> (n - 1) * size < total
  {
    if total == 0 then 0
    else
      var n := (total + size - 1) / size;
      assert total + size - 1 == n * size + (total + size - 1) % size;
      assert (n - 1) * size == n * size - size;
      n
  }

  function Min(a: int, b: int): int {
    if a <= b then a else b
  }

  /** The page numbered `page` of `rows`, `perPage` rows to a page. A page
      past the end is empty; it is not an error. */
  function Paginate<T>(rows: seq<T>, page: int, perPage: int): (p: Page<T>)
    ensures p.total == |rows|
    ensures p.pages == PageCount(|rows|, PageSize(perPage))
    ensures |p.items| <= PageSize(perPage)
    ensures Offset(page, perPage) >= |rows| ==> p.items == []
    ensures Offset(page, perPage) < |rows| ==>
              |p.items| == Min(PageSize(perPage), |rows| - Offset(page, perPage))
    ensures forall i :: 0 <= i < |p.items| ==>
              Offset(page, perPage) + i < |rows| && p.items[i] == rows[Offset(page, perPage) + i]
  {
    var size, offset := PageSize(perPage), Offset(page, perPage);
    var items := if offset >= |rows| then [] else rows[offset..Min(offset + size, |rows|)];
    Page(items, |rows|, PageCount(|rows|, size))
  }

  /** Row `i` of the result is on page `i / size + 1`, at position `i % size`. */
  lemma RowOnItsPage<T>(rows: seq<T>, size: int, i: int)
    requires size >= 1
    requires 0 <= i < |rows|
    ensures var p := Paginate(rows, i / size + 1, size);
            i % size < |p.items| && p.items[i % size] == rows[i]
  {
    var q, r := i / size, i % size;
    assert i == q * size + r;
    assert q >= 0;
    assert Offset(q + 1, size) == q * size;
  }

  /** Every row of the result is on some page, whatever the page size. */
  lemma RowOnSomePage<T>(rows: seq<T>, perPage: int, n: int)
    requires 0 <= n < |rows|
    ensures exists page, i :: page >= 1 && 0 <= i < |Paginate(rows, page, perPage).items| &&
                              Paginate(rows, page, perPage).items[i] == rows[n]
  {
    var size := PageSize(perPage);
    RowOnItsPage(rows, size, n);
    var page, i := n / size + 1, n % size;
    assert PageSize(size) == size;
    assert Offset(page, size) == Offset(page, perPage);
    assert Paginate(rows, page, perPage).items[i] == rows[n];
  }

  /** No row is on two pages: the page number and the position on the page
      are determined by the row's index in the result. */
  lemma PagesDisjoint<T>(rows: seq<T>, size: int, p1: int, j1: int, p2: int, j2: int)
    requires size >= 1 && p1 >= 1 && p2 >= 1
    requires 0 <= j1 < |Paginate(rows, p1, size).items|
    requires 0 <= j2 < |Paginate(rows, p2, size).items|
    requires Offset(p1, size) + j1 == Offset(p2, size) + j2
    ensures p1 == p2 && j1 == j2
  {
    assert Offset(p1, size) == (p1 - 1) * size;
    assert Offset(p2, size) == (p2 - 1) * size;
    BlockStep(p1 - 1, p2 - 1, size);
    BlockStep(p2 - 1, p1 - 1, size);
  }

  /** The next block of `c` rows starts no earlier than `c` rows further on. */
  lemma BlockStep(a: int, b: int, c: int)
    requires c >= 1
    ensures a < b ==> a * c + c <= b * c
  {
    if a < b {
      var k := b - a;
      assert b * c == a * c + k * c;
      assert k * c >= c;
    }
  }

  /** A page keeps the order of the query: rows listed in decreasing order
      stay in decreasing order on their page. */
  lemma PageKeepsOrder(rows: seq<int>, page: int, perPage: int, i: int, j: int)
    requires forall a, b :: 0 <= a < b < |rows| ==> rows[a] > rows[b]
    requires 0 <= i < j < |Paginate(rows, page, perPage).items|
    ensures Paginate(rows, page, perPage).items[i] > Paginate(rows, page, perPage).items[j]
  {
    var o := Offset(page, perPage);
    assert Paginate(rows, page, perPage).items[j] == rows[o + j];
  }
}

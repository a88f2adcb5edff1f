/**
  `updatePaginationInfo`: the number of pages, `Math.ceil(total /
  itemsPerPage)`, and the values written into the top and bottom
  pagination elements. The division is exact here: for a positive page
  size the result is the least page count whose pages hold every product.
 */
module Pagination {
  import opened JsValues

  /** The JavaScript number `Math.ceil` yields: an integer, or the
      non-finite results of dividing by zero. */
  datatype PageCount = Finite(n: int) | PosInfinity | NegInfinity | NaN

  /** Ceiling of `t / d` for a positive `d`. Dafny's `/` on `int` rounds
      down when the divisor is positive. */
  function CeilDiv(t: int, d: int): (q: int)
    requires d > 0
    ensures q * d >= t
    ensures (q - 1) * d < t
  {
    var q := -((-t) / d);
    assert (-t) == ((-t) / d) * d + (-t) % d;
    q
  }

  /** `Math.ceil(total / itemsPerPage)`. */
  function TotalPages(total: int, itemsPerPage: int): (r: PageCount)
    ensures itemsPerPage > 0 ==>
      r.Finite? && r.n * itemsPerPage >= total && (r.n - 1) * itemsPerPage < total
    ensures itemsPerPage < 0 ==>
      r.Finite? && r.n * itemsPerPage <= total && (r.n - 1) * itemsPerPage > total
    ensures itemsPerPage == 0 ==>
      r == (if total > 0 then PosInfinity else if total < 0 then NegInfinity else NaN)
  {
    if itemsPerPage > 0 then Finite(CeilDiv(total, itemsPerPage))
    else if itemsPerPage < 0 then
      var q := CeilDiv(-total, -itemsPerPage);
      assert q * -itemsPerPage >= -total;
      assert (q - 1) * -itemsPerPage < -total;
      Finite(q)
    else if total > 0 then PosInfinity
    else if total < 0 then NegInfinity
    else NaN
  }

  /** Multiplying by a positive page size keeps the sign and, for a
      non-negative count, does not shrink it. */
  lemma {:induction false} MulByPositive(n: int, d: int)
    requires d > 0
    ensures n > 0 ==> n * d >= d
    ensures n < 0 ==> n * d <= -d
    ensures n == 0 ==> n * d == 0
    ensures n >= 0 ==> n * d >= n
    decreases if n >= 0 then n else -n
  {
    if n > 1 {
      MulByPositive(n - 1, d);
      assert n * d == (n - 1) * d + d;
    } else if n < -1 {
      MulByPositive(n + 1, d);
      assert n * d == (n + 1) * d - d;
    }
  }

  /** Multiplying by a positive page size preserves order. */
  lemma MulMonotone(a: int, b: int, d: int)
    requires d > 0
    ensures a <= b ==> a * d <= b * d
  {
    MulByPositive(b - a, d);
    assert b * d - a * d == (b - a) * d;
  }

  /** For a positive page size the page count is the least number of pages
      that hold every product. */
  lemma TotalPagesIsLeast(total: int, itemsPerPage: int, m: int)
    requires itemsPerPage > 0
    requires m * itemsPerPage >= total
    ensures TotalPages(total, itemsPerPage).n <= m
  {
    MulMonotone(m, TotalPages(total, itemsPerPage).n - 1, itemsPerPage);
  }

  /** With a positive page size and a non-negative total there are no pages
      exactly when there are no products, and otherwise between one and
      `total` pages. */
  lemma TotalPagesZeroIff(total: int, itemsPerPage: int)
    requires itemsPerPage > 0 && total >= 0
    ensures TotalPages(total, itemsPerPage).n >= 0
    ensures TotalPages(total, itemsPerPage).n == 0 <==> total == 0
    ensures total > 0 ==> TotalPages(total, itemsPerPage).n <= total
  {
    var n := TotalPages(total, itemsPerPage).n;
    MulByPositive(n, itemsPerPage);
    MulByPositive(n - 1, itemsPerPage);
    MulByPositive(total, itemsPerPage);
    TotalPagesIsLeast(total, itemsPerPage, total);
  }

  /** 45 products at 20 per page fill 3 pages. */
  lemma TotalPagesExample()
    ensures TotalPages(45, 20) == Finite(3)
  {
  }

  /** What one call writes into the pagination elements: the current page
      (`None` when the global is unset), the page count, and the product
      total for the "products found" text. */
  datatype PaginationView = PaginationView(currentPage: Option<int>, totalPages: PageCount, totalProducts: int)

  /** `updatePaginationInfo`. It reads the globals as they are, without the
      `||` defaults of the request: dividing by an unset `itemsPerPage`
      gives NaN. */
  function UpdatePaginationInfo(currentPage: Option<int>, itemsPerPage: Option<int>, totalProducts: int): (v: PaginationView)
    ensures v.currentPage == currentPage && v.totalProducts == totalProducts
    ensures itemsPerPage.None? ==> v.totalPages == NaN
    ensures itemsPerPage == Some(0) ==>
      v.totalPages == (if totalProducts > 0 then PosInfinity else if totalProducts < 0 then NegInfinity else NaN)
    ensures itemsPerPage.Some? && itemsPerPage.value > 0 ==>
      && v.totalPages.Finite?
      && v.totalPages.n * itemsPerPage.value >= totalProducts
      && (v.totalPages.n - 1) * itemsPerPage.value < totalProducts
  {
    var pages := match itemsPerPage
      case None => NaN
      case Some(p) => TotalPages(totalProducts, p);
    PaginationView(currentPage, pages, totalProducts)
  }
}

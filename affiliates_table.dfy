/**
 * The affiliates table component: the number of pages, the window of page links
 * with ellipsis markers, the Prev/Next guards, and the DNI search box.
 */
module AffiliatesTable {
  import opened Wrappers
  import opened JsText
  import opened AffiliateSchema
  import opened AffiliatesService

  /** `Math.ceil(totalItems / limit)`, for a positive limit. */
  function TotalPages(totalItems: nat, limit: int): (pages: nat)
    requires limit > 0
    ensures totalItems <= pages * limit
    ensures pages == 0 || (pages - 1) * limit < totalItems
  {
    var n := totalItems + limit - 1;
    assert n == (n / limit) * limit + n % limit;
    n / limit
  }

  /** Ten items at five per page fill exactly two pages; eleven need a third. */
  lemma TotalPagesExamples()
    ensures TotalPages(10, 5) == 2 && TotalPages(11, 5) == 3 && TotalPages(0, 5) == 0
  {
  }

  /** `maxPagesToShow`. */
  const MaxPagesToShow := 5

  /**
   * The entries of the page bar, written out case by case: every page when there are at
   * most five; otherwise the first and last page, the current page with its neighbours
   * (or the four pages at the near end), and ellipsis markers -1 and -2 for the gaps.
   */
  function PageWindow(totalPages: int, currentPage: int): seq<int> {
    if totalPages <= MaxPagesToShow then
      seq(if totalPages < 0 then 0 else totalPages, k => k + 1)
    else if currentPage <= 3 then [1, 2, 3, 4, -1, totalPages]
    else if currentPage >= totalPages - 2 then [1, -1, totalPages - 3, totalPages - 2, totalPages - 1, totalPages]
    else [1, -1, currentPage - 1, currentPage, currentPage + 1, -2, totalPages]
  }

  /** `getPageNumbers()`: the entries pushed one by one, as the component builds them. */
  method GetPageNumbers(totalPages: int, currentPage: int) returns (pages: seq<int>)
    ensures pages == PageWindow(totalPages, currentPage)
  {
    pages := [];
    var maxPagesToShow := 5;
    if totalPages <= maxPagesToShow {
      var i := 1;
      while i <= totalPages
        invariant 1 <= i <= (if totalPages >= 1 then totalPages + 1 else 1)
        invariant pages == seq(i - 1, k => k + 1)
      {
        pages := pages + [i];
        i := i + 1;
      }
    } else {
      if currentPage <= 3 {
        var i := 1;
        while i <= 4
          invariant 1 <= i <= 5
          invariant pages == seq(i - 1, k => k + 1)
        {
          pages := pages + [i];
          i := i + 1;
        }
        assert pages == [1, 2, 3, 4];
        pages := pages + [-1];
        pages := pages + [totalPages];
      } else if currentPage >= totalPages - 2 {
        pages := pages + [1];
        pages := pages + [-1];
        var i := totalPages - 3;
        while i <= totalPages
          invariant totalPages - 3 <= i <= totalPages + 1
          invariant pages == [1, -1] + seq(i - (totalPages - 3), k => totalPages - 3 + k)
        {
          pages := pages + [i];
          i := i + 1;
        }
        assert pages == [1, -1, totalPages - 3, totalPages - 2, totalPages - 1, totalPages];
      } else {
        pages := pages + [1];
        pages := pages + [-1];
        var i := currentPage - 1;
        while i <= currentPage + 1
          invariant currentPage - 1 <= i <= currentPage + 2
          invariant pages == [1, -1] + seq(i - (currentPage - 1), k => currentPage - 1 + k)
        {
          pages := pages + [i];
          i := i + 1;
        }
        assert pages == [1, -1, currentPage - 1, currentPage, currentPage + 1];
        pages := pages + [-2];
        pages := pages + [totalPages];
      }
    }
  }

  /** At most seven entries; every entry is a page of `[1, totalPages]` or a marker -1/-2. */
  lemma WindowShape(totalPages: int, currentPage: int)
    ensures |PageWindow(totalPages, currentPage)| <= 7
    ensures |PageWindow(totalPages, currentPage)| <= MaxPagesToShow ==> totalPages <= MaxPagesToShow
    ensures forall i :: 0 <= i < |PageWindow(totalPages, currentPage)| ==>
              var e := PageWindow(totalPages, currentPage)[i];
              (1 <= e <= totalPages) || e == -1 || e == -2
  {
  }

  /** The page numbers in the bar are strictly increasing, and the two markers differ. */
  lemma WindowOrdered(totalPages: int, currentPage: int)
    ensures forall i, j :: 0 <= i < j < |PageWindow(totalPages, currentPage)| ==>
              var w := PageWindow(totalPages, currentPage);
              (w[i] > 0 && w[j] > 0 ==> w[i] < w[j]) && (w[i] < 0 && w[j] < 0 ==> w[i] != w[j])
  {
  }

  /**
   * A marker stands exactly where pages are left out: adjacent page numbers are
   * consecutive, and a marker sits between two page numbers that are at least two apart.
   */
  lemma EllipsisMarksGaps(totalPages: int, currentPage: int, i: int)
    requires 0 <= i < |PageWindow(totalPages, currentPage)|
    ensures var w := PageWindow(totalPages, currentPage);
            (w[i] > 0 && i + 1 < |w| && w[i + 1] > 0 ==> w[i + 1] == w[i] + 1)
            && (w[i] < 0 ==> 0 < i < |w| - 1 && w[i - 1] > 0 && w[i + 1] > 0 && w[i + 1] - w[i - 1] >= 2)
  {
  }

  /** The first and the last page are always offered, and so is the current page. */
  lemma WindowShowsEndsAndCurrent(totalPages: int, currentPage: int)
    requires totalPages >= 1
    ensures var w := PageWindow(totalPages, currentPage);
            |w| > 0 && w[0] == 1 && w[|w| - 1] == totalPages
            && (1 <= currentPage <= totalPages ==> currentPage in w)
  {
    var w := PageWindow(totalPages, currentPage);
    if totalPages <= MaxPagesToShow && 1 <= currentPage <= totalPages {
      assert w[currentPage - 1] == currentPage;
    }
  }

  /** Page 5 of 10: `[1, -1, 4, 5, 6, -2, 10]`. */
  lemma MiddleWindowExample()
    ensures PageWindow(10, 5) == [1, -1, 4, 5, 6, -2, 10]
  {
  }

  /** Clicking Previous: `hasPrev && onPageChange(currentPage - 1)`. */
  function PrevClick(hasPrev: bool, currentPage: int): (target: Option<int>)
    ensures target.Some? <==> hasPrev
    ensures target.Some? ==> target.value + 1 == currentPage
  {
    if hasPrev then Some(currentPage - 1) else None
  }

  /** Clicking Next: `hasNext && onPageChange(currentPage + 1)`. */
  function NextClick(hasNext: bool, currentPage: int): (target: Option<int>)
    ensures target.Some? <==> hasNext
    ensures target.Some? ==> target.value == currentPage + 1
  {
    if hasNext then Some(currentPage + 1) else None
  }

  /** The pagination bar is rendered only when there is more than one page. */
  predicate ShowPagination(totalPages: int) {
    totalPages > 1
  }

  /** The bar appears exactly when the items do not fit on one page. */
  lemma PaginationShownIff(totalItems: nat, limit: int)
    requires limit >= 1
    ensures ShowPagination(TotalPages(totalItems, limit)) <==> limit < totalItems
  {
    var pages := TotalPages(totalItems, limit);
    if pages > 1 {
      MulMonotone(1, pages - 1, limit);
    } else {
      MulMonotone(pages, 1, limit);
    }
  }

  lemma MulMonotone(a: int, b: int, c: int)
    requires a <= b && c >= 0
    ensures a * c <= b * c
  {
  }

  /**
   * Rendering a listing page: Previous offers a page exactly when this is not the
   * first page, Next exactly when this is not the last page. Previous never offers a
   * page below 1 and Next never one past the last page; while the current page is
   * within the listing, both offer a page between 1 and the number of pages. (A page
   * past the end, which the service does not refuse, makes Previous offer a page past
   * the end too.)
   */
  lemma GuardsStayWithinListing(records: seq<Affiliate>, page: int, limit: int)
    requires page >= 1 && limit >= 1
    ensures var r := FindAllPage(records, page, limit);
            var total := TotalPages(r.totalItems, r.limit);
            (PrevClick(r.hasPrev, r.page).Some? <==> page > 1)
            && (PrevClick(r.hasPrev, r.page).Some? ==> 1 <= PrevClick(r.hasPrev, r.page).value)
            && (NextClick(r.hasNext, r.page).Some? <==> page < total)
            && (NextClick(r.hasNext, r.page).Some? ==> NextClick(r.hasNext, r.page).value <= total)
    ensures var r := FindAllPage(records, page, limit);
            var total := TotalPages(r.totalItems, r.limit);
            page <= total ==>
              (PrevClick(r.hasPrev, r.page).Some? ==> PrevClick(r.hasPrev, r.page).value <= total)
              && (NextClick(r.hasNext, r.page).Some? ==> 1 <= NextClick(r.hasNext, r.page).value)
  {
    var total := TotalPages(|records|, limit);
    if page < total {
      MulMonotone(page, total - 1, limit);
    } else {
      MulMonotone(total, page, limit);
    }
  }

  /** The search box: its text, and whether an `onFilterChange` handler was passed. */
  class SearchBox {
    var searchValue: string
    const hasFilterHandler: bool

    constructor (hasFilterHandler: bool)
      ensures searchValue == "" && this.hasFilterHandler == hasFilterHandler
    {
      searchValue := "";
      this.hasFilterHandler := hasFilterHandler;
    }

    /** The input's `onChange`. */
    method Type(value: string)
      modifies this
      ensures searchValue == value
    {
      searchValue := value;
    }

    /** The Search button is disabled while the trimmed text is empty. */
    predicate SearchDisabled()
      reads this
    {
      Trim(searchValue) == ""
    }

    /** `handleSearch`: emits the text as typed (untrimmed) to the handler, if any. */
    method HandleSearch() returns (emitted: Option<string>)
      ensures emitted == if hasFilterHandler then Some(searchValue) else None
    {
      if hasFilterHandler {
        emitted := Some(searchValue);
      } else {
        emitted := None;
      }
    }

    /** `handleKeyPress`: Enter searches, also while the Search button is disabled. */
    method HandleKeyPress(key: string) returns (emitted: Option<string>)
      ensures emitted == if key == "Enter" && hasFilterHandler then Some(searchValue) else None
    {
      if key == "Enter" {
        emitted := HandleSearch();
      } else {
        emitted := None;
      }
    }

    /** `handleClearFilter`: empties the box and emits the empty filter. */
    method HandleClearFilter() returns (emitted: Option<string>)
      modifies this
      ensures searchValue == ""
      ensures emitted == if hasFilterHandler then Some("") else None
      ensures SearchDisabled()
    {
      searchValue := "";
      if hasFilterHandler {
        emitted := Some("");
      } else {
        emitted := None;
      }
    }
  }

  /** The Search button is disabled exactly when the text is blank (whitespace only). */
  lemma SearchDisabledIffBlank(box: SearchBox)
    ensures box.SearchDisabled() <==> AllWhitespace(box.searchValue)
  {
  }
}

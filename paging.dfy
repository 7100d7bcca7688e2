/** Page arithmetic shared by the history report and the personnel list:
    `Math.ceil(total / itemsPerPage)` pages, the 1-based page slice, the
    `changePage` guard, the five-button page window and the "start-end"
    label. */
module Paging {

  /** `Math.ceil(count / size)`; zero when there is nothing to show. */
  function TotalPages(count: nat, size: int): (pages: nat)
    requires size >= 1
    ensures pages * size >= count
    ensures count > 0 ==> (pages - 1) * size < count
    ensures count == 0 ==> pages == 0
  {
    var q := (count + size - 1) / size;
    assert q * size + (count + size - 1) % size == count + size - 1;
    q
  }

  /** The page a `changePage(page)` call accepts. */
  predicate CanGoTo(page: int, count: nat, size: int)
    requires size >= 1
  {
    1 <= page <= TotalPages(count, size)
  }

  /** Index of the first row of `page`. */
  function PageStart(page: int, size: int): (start: nat)
    requires page >= 1 && size >= 1
  {
    (page - 1) * size
  }

  /** `rows.slice((page - 1) * size, (page - 1) * size + size)`. */
  function PageSlice<T>(rows: seq<T>, page: int, size: int): (shown: seq<T>)
    requires page >= 1 && size >= 1
    ensures |shown| <= size
    ensures forall i :: 0 <= i < |shown| ==> PageStart(page, size) + i < |rows| && shown[i] == rows[PageStart(page, size) + i]
    ensures PageStart(page, size) < |rows| ==> |shown| == (if |rows| < PageStart(page, size) + size then |rows| else PageStart(page, size) + size) - PageStart(page, size)
    ensures PageStart(page, size) >= |rows| ==> shown == []
  {
    var start := PageStart(page, size);
    if start >= |rows| then []
    else rows[start..if |rows| < start + size then |rows| else start + size]
  }

  /** A page past the last one (which `currentPage` can be after re-filtering,
      since nothing clamps it) shows nothing. */
  lemma PageBeyondEndIsEmpty<T>(rows: seq<T>, page: int, size: int)
    requires page >= 1 && size >= 1
    requires page > TotalPages(|rows|, size)
    ensures PageSlice(rows, page, size) == []
  {
    var pages := TotalPages(|rows|, size);
    MulMonotone(pages, page - 1, size);
  }

  /** Every page that `changePage` accepts shows at least one row. */
  lemma AcceptedPageIsNonEmpty<T>(rows: seq<T>, page: int, size: int)
    requires size >= 1 && CanGoTo(page, |rows|, size)
    ensures PageSlice(rows, page, size) != []
  {
    var pages := TotalPages(|rows|, size);
    MulMonotone(page - 1, pages - 1, size);
  }

  /** Every row is on exactly the page `i / size + 1`, at offset `i % size`,
      and that page is one `changePage` accepts: the pages cover the rows. */
  lemma EveryRowIsOnAPage<T>(rows: seq<T>, i: nat, size: int)
    requires size >= 1 && i < |rows|
    ensures CanGoTo(i / size + 1, |rows|, size)
    ensures i % size < |PageSlice(rows, i / size + 1, size)|
    ensures PageSlice(rows, i / size + 1, size)[i % size] == rows[i]
  {
    var page := i / size + 1;
    var pages := TotalPages(|rows|, size);
    assert PageStart(page, size) == (i / size) * size;
    assert (i / size) * size + i % size == i;
    if page > pages {
      MulMonotone(pages, i / size, size);
      assert false;
    }
  }

  lemma MulMonotone(a: int, b: int, size: int)
    requires 0 <= a <= b && size >= 1
    ensures a * size <= b * size
  {
  }

  /** The page-number buttons: `max(1, p - 2)` to `min(totalPages, p + 2)`. */
  function PageWindow(current: int, pages: nat): (window: (int, int))
  {
    (if current - 2 < 1 then 1 else current - 2,
     if pages < current + 2 then pages else current + 2)
  }

  /** Every button in the window leads to a page `changePage` accepts, the
      window spans at most five buttons, and it contains the current page
      when that page exists. */
  lemma PageWindowIsValid(current: int, count: nat, size: int)
    requires size >= 1
    ensures var (lo, hi) := PageWindow(current, TotalPages(count, size));
      (forall k :: lo <= k <= hi ==> CanGoTo(k, count, size)) &&
      hi - lo <= 4 &&
      (CanGoTo(current, count, size) ==> lo <= current <= hi)
  {
  }

  /** The "start-end" numbers of the page label. */
  function PageLabel(page: int, size: int, count: nat): (bounds: (int, int))
    requires page >= 1 && size >= 1
  {
    ((page - 1) * size + 1, if page * size < count then page * size else count)
  }

  /** The label counts exactly the rows the page shows; a page past the end
      shows the inverted label `start > end`. */
  lemma PageLabelMatchesSlice<T>(rows: seq<T>, page: int, size: int)
    requires page >= 1 && size >= 1
    ensures var (first, last) := PageLabel(page, size, |rows|);
      |PageSlice(rows, page, size)| == (if last < first then 0 else last - first + 1)
  {
    assert page * size == PageStart(page, size) + size;
  }
}

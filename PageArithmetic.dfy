/**
 * The page arithmetic of the Doctrine paginator adapter, on plain numbers.
 *
 * A paginated query starts at a zero-based `offset` and returns at most
 * `pageSize` records; the whole result set holds `total` records. Pages are
 * numbered from 1. The adapter reports the current page as the floor of
 * offset / pageSize plus one, and the last page as the ceiling of
 * total / pageSize.
 */
module PageArithmetic {

  /** The 1-based number of the page on which the record at `offset` lies. */
  function PageOf(offset: nat, pageSize: nat): (page: nat)
    requires pageSize > 0
    ensures page >= 1
    ensures offset == 0 ==> page == 1
    ensures offset < pageSize <==> page == 1
  {
    offset / pageSize + 1
  }

  /** The number of pages of `pageSize` records that `total` records fill: the ceiling of total / pageSize. */
  function PageCount(total: nat, pageSize: nat): (pages: nat)
    requires pageSize > 0
    ensures pages == 0 <==> total == 0
  {
    total / pageSize + (if total % pageSize == 0 then 0 else 1)
  }

  // ---------------------------------------------------------------------
  // Floor: the current page
  // ---------------------------------------------------------------------

  /** The record at `offset` lies inside the page it is reported on. */
  lemma PageContainment(offset: nat, pageSize: nat)
    requires pageSize > 0
    ensures (PageOf(offset, pageSize) - 1) * pageSize <= offset < PageOf(offset, pageSize) * pageSize
  {
    var q, r := offset / pageSize, offset % pageSize;
    assert offset == q * pageSize + r;
    assert (q + 1) * pageSize == q * pageSize + pageSize;
  }

  /** A page number holds `offset` exactly when it is the reported page: the page is unique. */
  lemma PageOfUnique(offset: nat, pageSize: nat, page: int)
    requires pageSize > 0
    ensures (page - 1) * pageSize <= offset < page * pageSize <==> page == PageOf(offset, pageSize)
  {
    PageContainment(offset, pageSize);
    var p := PageOf(offset, pageSize);
    if (page - 1) * pageSize <= offset < page * pageSize {
      LessAfterScaling(page - 1, p, pageSize);
      LessAfterScaling(p - 1, page, pageSize);
    }
  }

  /** Moving forward through the result set never moves back a page. */
  lemma PageOfMonotonic(offset: nat, offset': nat, pageSize: nat)
    requires pageSize > 0
    requires offset <= offset'
    ensures PageOf(offset, pageSize) <= PageOf(offset', pageSize)
  {
    PageContainment(offset, pageSize);
    PageContainment(offset', pageSize);
    LessAfterScaling(PageOf(offset, pageSize) - 1, PageOf(offset', pageSize), pageSize);
  }

  // ---------------------------------------------------------------------
  // Ceiling: the last page
  // ---------------------------------------------------------------------

  /** The pages reported hold all `total` records, and the last of them is not empty. */
  lemma PageCountCovers(total: nat, pageSize: nat)
    requires pageSize > 0
    ensures PageCount(total, pageSize) * pageSize >= total
    ensures total > 0 ==> (PageCount(total, pageSize) - 1) * pageSize < total
  {
    var q, r := total / pageSize, total % pageSize;
    assert total == q * pageSize + r;
    assert (q + 1) * pageSize == q * pageSize + pageSize;
  }

  /** `n` pages hold `total` records exactly when `n` is at least the reported page count: it is the least such count. */
  lemma PageCountMinimal(total: nat, pageSize: nat, n: nat)
    requires pageSize > 0
    ensures n * pageSize >= total <==> n >= PageCount(total, pageSize)
  {
    PageCountCovers(total, pageSize);
    var c := PageCount(total, pageSize);
    if n >= c {
      MultiplyMonotonic(c, n, pageSize);
    } else {
      MultiplyMonotonic(n, c - 1, pageSize);
    }
  }

  /** An exact multiple of the page size fills its pages with no extra page. */
  lemma PageCountExactMultiple(pages: nat, pageSize: nat)
    requires pageSize > 0
    ensures PageCount(pages * pageSize, pageSize) == pages
  {
    PageCountMinimal(pages * pageSize, pageSize, pages);
    if pages > 0 {
      PageCountMinimal(pages * pageSize, pageSize, pages - 1);
    }
  }

  /** More records never mean fewer pages. */
  lemma PageCountMonotonic(total: nat, total': nat, pageSize: nat)
    requires pageSize > 0
    requires total <= total'
    ensures PageCount(total, pageSize) <= PageCount(total', pageSize)
  {
    PageCountCovers(total', pageSize);
    PageCountMinimal(total, pageSize, PageCount(total', pageSize));
  }

  /** A record that exists lies on a page no later than the last page. */
  lemma PageWithinCount(offset: nat, total: nat, pageSize: nat)
    requires pageSize > 0
    requires offset < total
    ensures PageOf(offset, pageSize) <= PageCount(total, pageSize)
  {
    PageContainment(offset, pageSize);
    PageCountCovers(total, pageSize);
    LessAfterScaling(PageOf(offset, pageSize) - 1, PageCount(total, pageSize), pageSize);
  }

  // ---------------------------------------------------------------------
  // Independent reference definitions, by skipping whole pages
  // ---------------------------------------------------------------------

  /** The page of `offset`, found by skipping one full page at a time. */
  function PageBySkipping(offset: nat, pageSize: nat): nat
    requires pageSize > 0
    decreases offset
  {
    if offset < pageSize then 1 else 1 + PageBySkipping(offset - pageSize, pageSize)
  }

  /** The number of pages needed for `total` records, found by filling one page at a time. */
  function PagesToHold(total: nat, pageSize: nat): nat
    requires pageSize > 0
    decreases total
  {
    if total == 0 then 0
    else if total <= pageSize then 1
    else 1 + PagesToHold(total - pageSize, pageSize)
  }

  /** The floor formula agrees with skipping pages one by one. */
  lemma {:induction false} PageOfBySkipping(offset: nat, pageSize: nat)
    requires pageSize > 0
    ensures PageOf(offset, pageSize) == PageBySkipping(offset, pageSize)
    decreases offset
  {
    if offset >= pageSize {
      PageOfBySkipping(offset - pageSize, pageSize);
      PageOfUnique(offset, pageSize, PageOf(offset - pageSize, pageSize) + 1);
      PageContainment(offset - pageSize, pageSize);
    }
  }

  /** The ceiling formula agrees with filling pages one by one. */
  lemma {:induction false} PageCountByFilling(total: nat, pageSize: nat)
    requires pageSize > 0
    ensures PageCount(total, pageSize) == PagesToHold(total, pageSize)
    decreases total
  {
    if total > pageSize {
      var rest := total - pageSize;
      PageCountByFilling(rest, pageSize);
      var c := PageCount(rest, pageSize);
      PageCountCovers(rest, pageSize);
      PageCountMinimal(total, pageSize, c + 1);
      PageCountMinimal(total, pageSize, c);
    } else if total > 0 {
      PageCountMinimal(total, pageSize, 1);
    }
  }

  // ---------------------------------------------------------------------
  // Helpers: scaling by the page size preserves order
  // ---------------------------------------------------------------------

  lemma LessAfterScaling(a: int, b: int, k: nat)
    requires k > 0
    requires a * k < b * k
    ensures a < b
  {
    assert (b - a) * k == b * k - a * k;
  }

  lemma MultiplyMonotonic(a: int, b: int, k: nat)
    requires a <= b
    ensures a * k <= b * k
  {
    assert b * k - a * k == (b - a) * k;
  }
}

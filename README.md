# Doctrine paginator adapter: page arithmetic

This project models the pagination adapter of the Fractal Doctrine paginator
package (`DoctrinePaginatorAdapter`). The adapter wraps a Doctrine ORM
paginator and a route generator and reports, for a generic pagination
interface, the current page, the last page, the total number of records, the
number of records on the current page, the page size and the URL of any page.

The paginator is a foreign object; the adapter reads only four values from it,
so the model takes them as plain data (`DoctrinePagination.Paginator`):

- `query.firstResult`: the query's first result (`getFirstResult`), a natural number;
- `query.maxResults`: the query's maximum number of results (`getMaxResults`), the page size;
- `count`: what `count($paginator)` returns, the number of records across all pages;
- `iteratorCount`: the count of the paginator's iterator, `None` when the iterator has no callable `count` method.

The route generator is an opaque function value `int -> string`. The adapter
itself (`DoctrinePagination.Adapter`) is an immutable datatype: the source
assigns its two fields once, in the constructor, and no method changes them.

Files:

- `Wrappers.dfy`: `Option` and `Result`.
- `PageArithmetic.dfy`: the floor page number and the ceiling page count on
  plain numbers, their laws (containment, uniqueness, least cover, exact
  multiples, monotonicity), and independent reference definitions that skip
  or fill one page at a time, with lemmas that the formulas agree with them.
- `DoctrinePaginatorAdapter.dfy`: the adapter's six operations, a lemma
  relating the current and last pages, and the repository's test scenario.

`GetCount` fails with the `RuntimeException` and message that
src/DoctrinePaginatorAdapter.php:92 throws. `GetPerPage` has no page-size
precondition, because `getPerPage` (src/DoctrinePaginatorAdapter.php:104)
does not divide.

## Model

| member | source | states |
|---|---|---|
| PageArithmetic.PageOf | src/DoctrinePaginatorAdapter.php:57 | the current page is at least 1; offset 0 is page 1; the page is 1 exactly when the offset is below the page size |
| PageArithmetic.PageCount | src/DoctrinePaginatorAdapter.php:67 | the last page is 0 exactly when there are no records |
| PageArithmetic.PageContainment | src/DoctrinePaginatorAdapter.php:57 | the offset lies inside the page it is reported on: (page-1)*pageSize <= offset < page*pageSize |
| PageArithmetic.PageOfUnique | src/DoctrinePaginatorAdapter.php:57 | a page number contains the offset if and only if it is the reported page |
| PageArithmetic.PageOfMonotonic | src/DoctrinePaginatorAdapter.php:57 | the current page never decreases as the offset grows |
| PageArithmetic.PageOfBySkipping | src/DoctrinePaginatorAdapter.php:57 | the floor formula equals the page found by skipping whole pages one at a time |
| PageArithmetic.PageCountCovers | src/DoctrinePaginatorAdapter.php:67 | lastPage*pageSize >= total, and when total > 0, (lastPage-1)*pageSize < total |
| PageArithmetic.PageCountMinimal | src/DoctrinePaginatorAdapter.php:67 | n pages hold total records if and only if n >= lastPage: the last page is the least cover |
| PageArithmetic.PageCountExactMultiple | src/DoctrinePaginatorAdapter.php:67 | k*pageSize records give exactly k pages (no off-by-one from the ceiling) |
| PageArithmetic.PageCountMonotonic | src/DoctrinePaginatorAdapter.php:67 | the last page never decreases as the total grows |
| PageArithmetic.PageCountByFilling | src/DoctrinePaginatorAdapter.php:67 | the ceiling formula equals the number of pages found by filling one page at a time |
| PageArithmetic.PageWithinCount | src/DoctrinePaginatorAdapter.php:57-67 | an offset below the total lies on a page no later than the last page |
| DoctrinePagination.Adapter.GetCurrentPage | src/DoctrinePaginatorAdapter.php:55-58 | the current page is at least 1, is 1 for first result 0, and contains the first result in units of the page size |
| DoctrinePagination.Adapter.GetLastPage | src/DoctrinePaginatorAdapter.php:65-68 | the last page's pages cover the total, one page fewer does not when the total is positive, and no records give page 0 |
| DoctrinePagination.Adapter.GetTotal | src/DoctrinePaginatorAdapter.php:75-78 | the paginator's count is returned unchanged |
| DoctrinePagination.Adapter.GetCount | src/DoctrinePaginatorAdapter.php:88-95 | succeeds if and only if the iterator has a callable count, then with that count; otherwise fails with the RuntimeException and its message |
| DoctrinePagination.Adapter.GetPerPage | src/DoctrinePaginatorAdapter.php:102-105 | the query's maximum results are returned unchanged |
| DoctrinePagination.Adapter.GetUrl | src/DoctrinePaginatorAdapter.php:114-127 | the URL of any page is the stored route generator applied to it, with no range check against the last page |
| DoctrinePagination.CurrentPageWithinLastPage | src/DoctrinePaginatorAdapter.php:55-68 | when the first result is below the total, 1 <= current page <= last page |
| DoctrinePagination.ExampleRoute | test/Pagination/DoctrinePaginatorAdapterTest.php:33-36 | the test's route generator: the fixed base URL followed by exactly the decimal form of the page, all digits for a non-negative page and a leading '-' for a negative one |
| DoctrinePagination.ExampleRouteNamesPage | test/Pagination/DoctrinePaginatorAdapterTest.php:35 | the digits after the base URL denote the page's value (after the '-' for a negative page) |
| DoctrinePagination.NaturalString | test/Pagination/DoctrinePaginatorAdapterTest.php:35 | PHP's rendering of a natural number under `.`: a non-empty string of decimal digits whose value is the number, one digit exactly below 10, "0" for zero and no leading zero otherwise |
| DoctrinePagination.DecimalString | test/Pagination/DoctrinePaginatorAdapterTest.php:35 | PHP's rendering of an integer under `.`: decimal digits with no leading zero whose value is the number's magnitude, preceded by '-' exactly when it is negative |
| DoctrinePagination.ExampleScenario | test/Pagination/DoctrinePaginatorAdapterTest.php:11-46 | fifty records, five per page, first result 5: current page 2, last page 10, count 5, total 50, per page 5, and the URLs of pages 1 and 3 |

## Left out

- Doctrine's `Paginator`, `AbstractQuery::getFirstResult`/`getMaxResults`, `count($paginator)` and `getIterator` are a foreign library; the model takes their results as plain values, and exceptions that `getIterator` itself may throw are not modelled.
- PHP's float division followed by the `(int)` cast (current page) or `ceil` (last page) is modelled as integer floor and ceiling division on non-negative numbers with unbounded integers; float rounding for very large values, truncation toward zero for negative offsets, and PHP's 64-bit integer overflow (with page size 1 and first result `PHP_INT_MAX`, the `+ 1` of the current page turns the result into a float) are not modelled.
- A query without a limit (`getMaxResults` null or 0) divides by zero in the source; the model makes a positive page size a precondition of `GetCurrentPage` and `GetLastPage` instead of modelling that failure. A negative limit, for which the source reports (its `(int)` cast truncating toward zero) a current page of 1 or less, 0 or less once the first result reaches the limit's absolute value, a last page of 0 or less, and a negative page size, is excluded by the types: first result, limit and counts are natural numbers.
- The runtime check `is_callable([$iterator, 'count'])` becomes the presence of `iteratorCount`.
- The route generator is an opaque function; nothing is assumed about the form of its URLs (the test's string concatenation is modelled only for the test scenario).
- Conformance to Fractal's `PaginatorInterface` and the test's mocks are not modelled; the private accessor `getRouteGenerator` is the field `routeGenerator`.

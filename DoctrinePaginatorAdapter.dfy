/**
 * A pagination adapter over a Doctrine ORM paginator.
 *
 * The adapter holds a paginator and a route generator, both fixed when it is
 * built, and answers the questions of a generic pagination interface: the
 * current page, the last page, the total number of records, the number of
 * records on the current page, the page size and the URL of a page. All it
 * reads from the paginator are four values, so the model takes the paginator
 * as those values: the query's first result and maximum number of results,
 * the paginator's total count, and the count of its iterator when that
 * iterator has a `count` method.
 */
module DoctrinePagination {
  import opened Wrappers
  import opened PageArithmetic

  /** The part of the paginated query the adapter reads. */
  datatype Query = Query(
    firstResult: nat, // zero-based index of the first record of the page
    maxResults: nat   // the page size
  )

  /** The values the adapter reads from the wrapped paginator. */
  datatype Paginator = Paginator(
    query: Query,
    count: nat,                  // the number of records across all pages
    iteratorCount: Option<nat>   // the iterator's count, None when it has no callable count method
  )

  /** The one error the adapter raises. */
  datatype Error = RuntimeException(message: string)

  const InvalidIteratorMessage: string :=
    "Invalid iterator returned by paginator. Must have a callable \"count\" method."

  /**
   * The adapter. Both fields are given to the constructor and no operation
   * changes them, so the adapter is an immutable value.
   */
  datatype Adapter = Adapter(paginator: Paginator, routeGenerator: int -> string) {

    /** The query limits its pages; without this the page arithmetic divides by zero. */
    predicate HasPageSize() {
      paginator.query.maxResults > 0
    }

    /** The 1-based page on which the query's first result lies. */
    function GetCurrentPage(): (page: nat)
      requires HasPageSize()
      ensures page >= 1
      ensures paginator.query.firstResult == 0 ==> page == 1
      ensures (page - 1) * GetPerPage() <= paginator.query.firstResult < page * GetPerPage()
    {
      PageContainment(paginator.query.firstResult, paginator.query.maxResults);
      PageOf(paginator.query.firstResult, paginator.query.maxResults)
    }

    /** The number of the last page: the fewest pages of the page size that hold every record. */
    function GetLastPage(): (page: nat)
      requires HasPageSize()
      ensures page * GetPerPage() >= GetTotal()
      ensures GetTotal() > 0 ==> (page - 1) * GetPerPage() < GetTotal()
      ensures GetTotal() == 0 <==> page == 0
    {
      PageCountCovers(GetTotal(), paginator.query.maxResults);
      PageCount(GetTotal(), paginator.query.maxResults)
    }

    /** The number of records across all pages, as the paginator counts them. */
    function GetTotal(): (total: nat)
      ensures total == paginator.count
    {
      paginator.count
    }

    /** The number of records on the current page, or an error when the iterator cannot be counted. */
    function GetCount(): (r: Result<nat, Error>)
      ensures r.Success? <==> paginator.iteratorCount.Some?
      ensures r.Success? ==> r.value == paginator.iteratorCount.value
      ensures r.Failure? ==> r.error == RuntimeException(InvalidIteratorMessage)
    {
      match paginator.iteratorCount
      case None => Failure(RuntimeException(InvalidIteratorMessage))
      case Some(n) => Success(n)
    }

    /** The page size of the query. */
    function GetPerPage(): (perPage: nat)
      ensures perPage == paginator.query.maxResults
    {
      paginator.query.maxResults
    }

    /** The URL of `page`, as the route generator builds it; any page is accepted, even one past the last. */
    function GetUrl(page: int): (url: string)
      ensures url == routeGenerator(page)
    {
      routeGenerator(page)
    }
  }

  /** When the query starts inside the result set, the current page is no later than the last page. */
  lemma CurrentPageWithinLastPage(a: Adapter)
    requires a.HasPageSize()
    requires a.paginator.query.firstResult < a.GetTotal()
    ensures 1 <= a.GetCurrentPage() <= a.GetLastPage()
  {
    PageWithinCount(a.paginator.query.firstResult, a.GetTotal(), a.paginator.query.maxResults);
  }

  // ---------------------------------------------------------------------
  // The repository's test scenario
  // ---------------------------------------------------------------------

  /** The number a string of decimal digits denotes, most significant digit first. */
  function DigitsValue(s: string): int
    decreases |s|
  {
    if |s| == 0 then 0 else 10 * DigitsValue(s[..|s| - 1]) + (s[|s| - 1] as int - '0' as int)
  }

  /** The decimal form of an integer, as string concatenation in the test's route generator renders it. */
  function DecimalString(n: int): (s: string)
    ensures |s| >= 1
    ensures n >= 0 ==> DigitsValue(s) == n
    ensures n < 0 ==> |s| >= 2 && s[0] == '-' && DigitsValue(s[1..]) == -n
    ensures forall i :: (if n < 0 then 1 else 0) <= i < |s| ==> '0' <= s[i] <= '9'
    ensures n == 0 ==> s == "0"
    ensures n > 0 ==> s[0] != '0'
    ensures n < 0 ==> s[1] != '0'
  {
    if n < 0 then
      var digits := NaturalString(-n);
      assert ("-" + digits)[1..] == digits;
      "-" + digits
    else NaturalString(n)
  }

  /** The digits of a natural number, most significant first, with no leading zero. */
  function NaturalString(n: nat): (s: string)
    ensures |s| >= 1
    ensures forall i :: 0 <= i < |s| ==> '0' <= s[i] <= '9'
    ensures n == 0 ==> s == "0"
    ensures n > 0 ==> s[0] != '0'
    ensures n < 10 <==> |s| == 1
    ensures DigitsValue(s) == n
    decreases n
  {
    if n < 10 then [DigitChar(n)]
    else
      var prefix := NaturalString(n / 10);
      assert (prefix + [DigitChar(n % 10)])[..|prefix|] == prefix;
      prefix + [DigitChar(n % 10)]
  }

  function DigitChar(d: nat): (c: char)
    requires d < 10
    ensures '0' <= c <= '9' && c as int - '0' as int == d
  {
    "0123456789"[d]
  }

  const ExampleBaseUrl: string := "http://example.com/foo?page="

  /** The test's route generator: a fixed URL with the page number appended in decimal. */
  function ExampleRoute(page: int): (url: string)
    ensures |url| > |ExampleBaseUrl| && url[..|ExampleBaseUrl|] == ExampleBaseUrl
    ensures page >= 0 ==> forall i :: |ExampleBaseUrl| <= i < |url| ==> '0' <= url[i] <= '9'
    ensures page < 0 ==> url[|ExampleBaseUrl|] == '-'
    ensures url[|ExampleBaseUrl|..] == DecimalString(page)
  {
    var digits := DecimalString(page);
    assert (ExampleBaseUrl + digits)[|ExampleBaseUrl|..] == digits;
    ExampleBaseUrl + digits
  }

  /** The page number in the test's URL denotes the page itself. */
  lemma ExampleRouteNamesPage(page: int)
    ensures page >= 0 ==> DigitsValue(ExampleRoute(page)[|ExampleBaseUrl|..]) == page
    ensures page < 0 ==> DigitsValue(ExampleRoute(page)[|ExampleBaseUrl| + 1..]) == -page
  {
    var url := ExampleRoute(page);
    if page < 0 {
      assert url[|ExampleBaseUrl| + 1..] == DecimalString(page)[1..];
    }
  }

  /** Page 2 of fifty records, five to a page, over an iterator that counts five. */
  function ExampleAdapter(): Adapter {
    Adapter(Paginator(Query((2 - 1) * 5, 5), 50, Some(5)), ExampleRoute)
  }

  /** The test's expectations: an exact multiple of the page size gives exactly ten pages. */
  lemma ExampleScenario()
    ensures ExampleAdapter().GetCurrentPage() == 2
    ensures ExampleAdapter().GetLastPage() == 10
    ensures ExampleAdapter().GetCount() == Success(5)
    ensures ExampleAdapter().GetTotal() == 50
    ensures ExampleAdapter().GetPerPage() == 5
    ensures ExampleAdapter().GetUrl(1) == "http://example.com/foo?page=1"
    ensures ExampleAdapter().GetUrl(3) == "http://example.com/foo?page=3"
  {
  }
}

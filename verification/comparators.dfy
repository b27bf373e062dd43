/**
 * The two orders on posts: newest first by date, and by title with the URL
 * as the fallback, plus the stable sort that applies the date order.
 */
module Comparators {
  import opened Wrappers
  import opened JavaLang
  import opened Pages

  /** `Date.compareTo`: -1, 0 or 1 as the first instant is before, at or after the second. */
  function CompareDates(a: int, b: int): (r: int)
    ensures r == 0 <==> a == b
    ensures r < 0 <==> a < b
  {
    if a < b then -1 else if a == b then 0 else 1
  }

  /** `PostComparatorOnDate.compare`: the negated date comparison; a null date is dereferenced. */
  function CompareOnDate(p1: Page, p2: Page): (r: Result<int, Exception>)
    ensures r.Success? <==> p1.date.Some? && p2.date.Some?
    ensures r.Failure? ==> r.error == NullPointer
  {
    if p1.date.None? || p2.date.None? then Failure(NullPointer)
    else Success(0 - CompareDates(p1.date.value, p2.date.value))
  }

  /** Later dates sort first, equal dates tie, and swapping the posts flips the sign. */
  lemma CompareOnDateOrder(p1: Page, p2: Page)
    requires p1.date.Some? && p2.date.Some?
    ensures CompareOnDate(p1, p2).value < 0 <==> p1.date.value > p2.date.value
    ensures CompareOnDate(p1, p2).value == 0 <==> p1.date.value == p2.date.value
    ensures CompareOnDate(p1, p2).value == -CompareOnDate(p2, p1).value
  {
  }

  /**
   * `PostComparatorOnNames.compare`: by URL when both titles are null, a null
   * title after any title, else the titles compared case-sensitively.
   */
  function CompareOnNames(p1: Page, p2: Page): Result<int, Exception>
  {
    if p1.title.None? && p2.title.None? then
      if p1.url.None? || p2.url.None? then Failure(NullPointer) else Success(JavaLang.CompareTo(p1.url.value, p2.url.value))
    else if p1.title.None? then Success(1)
    else if p2.title.None? then Success(-1)
    else Success(JavaLang.CompareTo(p1.title.value, p2.title.value))
  }

  /** Swapping the arguments flips the sign, and fails exactly when the original fails. */
  lemma CompareOnNamesFlips(p1: Page, p2: Page)
    ensures CompareOnNames(p1, p2).Success? <==> CompareOnNames(p2, p1).Success?
    ensures CompareOnNames(p1, p2).Success? ==> CompareOnNames(p1, p2).value == -CompareOnNames(p2, p1).value
  {
    if p1.title.None? && p2.title.None? && p1.url.Some? && p2.url.Some? {
      CompareToAntisymmetric(p1.url.value, p2.url.value);
    } else if p1.title.Some? && p2.title.Some? {
      CompareToAntisymmetric(p1.title.value, p2.title.value);
    }
  }

  /** A titled post sorts before an untitled one; two titled posts tie only with equal titles. */
  lemma CompareOnNamesTitles(p1: Page, p2: Page)
    ensures p1.title.Some? && p2.title.None? ==> CompareOnNames(p1, p2) == Success(-1)
    ensures p1.title.Some? && p2.title.Some? ==>
              (CompareOnNames(p1, p2) == Success(0) <==> p1.title == p2.title)
    ensures p1.title.None? && p2.title.None? && p1.url.Some? && p2.url.Some? ==>
              (CompareOnNames(p1, p2) == Success(0) <==> p1.url == p2.url)
  {
  }

  /** Every page has a date: the date order can be applied without a null dereference. */
  predicate AllDated(pages: seq<Page>)
  {
    forall i :: 0 <= i < |pages| ==> pages[i].date.Some?
  }

  /** Newest first: no page is followed by a newer one. */
  predicate NewestFirst(pages: seq<Page>)
    requires AllDated(pages)
  {
    forall i :: 0 <= i < |pages| - 1 ==> pages[i].date.value >= pages[i + 1].date.value
  }

  /**
   * Inserts `p` after the pages strictly newer than it and before the rest,
   * so that among equal dates the page inserted last comes first.
   */
  function Insert(p: Page, sorted: seq<Page>): (r: seq<Page>)
    requires p.date.Some? && AllDated(sorted) && NewestFirst(sorted)
    ensures AllDated(r) && NewestFirst(r)
    ensures multiset(r) == multiset(sorted) + multiset{p}
    ensures |r| == |sorted| + 1
    ensures r[0] == p || (|sorted| > 0 && r[0] == sorted[0])
  {
    if |sorted| == 0 then [p]
    else if sorted[0].date.value > p.date.value then
      var rest := Insert(p, sorted[1..]);
      assert sorted == [sorted[0]] + sorted[1..];
      [sorted[0]] + rest
    else [p] + sorted
  }

  /**
   * `Collections.sort(pages, new PostComparatorOnDate())`: a stable sort,
   * newest first. With two or more pages every page is compared, so a page
   * without a date is dereferenced.
   */
  function SortByDate(pages: seq<Page>): (r: Result<seq<Page>, Exception>)
    ensures r.Success? <==> |pages| <= 1 || AllDated(pages)
    ensures r.Failure? ==> r.error == NullPointer
    ensures r.Success? ==> |r.value| == |pages| && multiset(r.value) == multiset(pages)
    ensures r.Success? && AllDated(pages) ==> AllDated(r.value) && NewestFirst(r.value)
    ensures r.Success? ==> forall d :: WithDate(r.value, d) == WithDate(pages, d)
  {
    if |pages| <= 1 then Success(pages)
    else if !AllDated(pages) then Failure(NullPointer)
    else
      assert forall d :: WithDate(InsertionSort(pages), d) == WithDate(pages, d) by {
        forall d
          ensures WithDate(InsertionSort(pages), d) == WithDate(pages, d)
        {
          InsertionSortStable(pages, d);
        }
      }
      Success(InsertionSort(pages))
  }

  /** The pages of one date, in their order in the list. */
  function WithDate(pages: seq<Page>, d: int): (r: seq<Page>)
    ensures forall i :: 0 <= i < |r| ==> r[i].date == Some(d)
  {
    if |pages| == 0 then []
    else (if pages[0].date == Some(d) then [pages[0]] else []) + WithDate(pages[1..], d)
  }

  /** Inserting a page puts it first among the pages of its date and moves no other page of any date. */
  lemma {:induction false} InsertWithDate(p: Page, sorted: seq<Page>, d: int)
    requires p.date.Some? && AllDated(sorted) && NewestFirst(sorted)
    ensures WithDate(Insert(p, sorted), d) == (if p.date == Some(d) then [p] else []) + WithDate(sorted, d)
  {
    if |sorted| > 0 && sorted[0].date.value > p.date.value {
      var rest := sorted[1..];
      InsertWithDate(p, rest, d);
      assert Insert(p, sorted) == [sorted[0]] + Insert(p, rest);
      assert ([sorted[0]] + Insert(p, rest))[1..] == Insert(p, rest);
    } else {
      assert ([p] + sorted)[1..] == sorted;
    }
  }

  /** The sort is stable: the pages of each date keep their relative order. */
  lemma {:induction false} InsertionSortStable(pages: seq<Page>, d: int)
    requires AllDated(pages)
    ensures WithDate(InsertionSort(pages), d) == WithDate(pages, d)
  {
    if |pages| > 0 {
      InsertionSortStable(pages[1..], d);
      InsertWithDate(pages[0], InsertionSort(pages[1..]), d);
    }
  }

  /**
   * Sorting by insertion from the back of the list: each page goes in front
   * of the later pages of the same date, which keeps the sort stable.
   */
  function InsertionSort(pages: seq<Page>): (r: seq<Page>)
    requires AllDated(pages)
    ensures AllDated(r) && NewestFirst(r)
    ensures multiset(r) == multiset(pages) && |r| == |pages|
  {
    if |pages| == 0 then []
    else
      assert pages == [pages[0]] + pages[1..];
      Insert(pages[0], InsertionSort(pages[1..]))
  }
}

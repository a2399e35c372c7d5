/** The page window of the client's pagination bar: the first page, a run of inner pages around
    the current page, and the last page. */
module ClientUtils {

  /** The integers `lo, lo + 1, ..., hi - 1`; empty when `hi <= lo`. */
  function Range(lo: int, hi: int): (r: seq<int>)
    ensures |r| == if hi > lo then hi - lo else 0
    ensures forall k :: 0 <= k < |r| ==> r[k] == lo + k
    decreases hi - lo
  {
    if hi <= lo then [] else Range(lo, hi - 1) + [hi - 1]
  }

  /** The window `createPaginationArray` uses when its caller gives none. */
  const DefaultMaxVisiblePages: int := 5

  /** How many pages sit between the first and the last: the window or the pages, whichever is
      smaller, less the two ends. */
  function InnerCount(numPages: int, maxVisiblePages: int): (n: int)
    ensures n + 2 <= numPages && n + 2 <= maxVisiblePages
    ensures n + 2 == numPages || n + 2 == maxVisiblePages
  {
    if numPages > maxVisiblePages then maxVisiblePages - 2 else numPages - 2
  }

  /** The inner pages, by the five cases of `createPaginationArray`. */
  function InnerPages(curPage: int, numPages: int, maxVisiblePages: int): (r: seq<int>)
    ensures forall k :: 0 < k < |r| ==> r[k] == r[k - 1] + 1
  {
    var n := InnerCount(numPages, maxVisiblePages);
    if n == 1 && curPage > 1 && curPage < numPages then [curPage]
    else if numPages < maxVisiblePages then Range(2, n + 2)
    else if curPage < n + 1 then Range(2, n + 2)
    else if curPage > numPages - n then Range(numPages - n, numPages)
    else
      var start := if curPage - n / 2 > 2 then curPage - n / 2 else 2;
      Range(start, start + n)
  }

  /** The page numbers the bar shows. */
  function Pagination(curPage: int, numPages: int, maxVisiblePages: int): (r: seq<int>)
    ensures numPages <= 0 ==> r == []
    ensures numPages == 1 ==> r == [1]
  {
    if numPages <= 0 then []
    else if numPages == 1 then [1]
    else [1] + InnerPages(curPage, numPages, maxVisiblePages) + [numPages]
  }

  /** One of the `for` loops of `createPaginationArray`: push `count` consecutive pages from
      `start` on. */
  method PushRun(pages: seq<int>, start: int, count: int) returns (r: seq<int>)
    ensures r == pages + Range(start, start + count)
  {
    r := pages;
    var i := 0;
    while i < count
      invariant 0 <= i <= (if count > 0 then count else 0)
      invariant r == pages + Range(start, start + i)
    {
      r := r + [start + i];
      i := i + 1;
    }
  }

  /** The five cases of `createPaginationArray` that push the inner pages. */
  method PushInner(pages: seq<int>, curPage: int, numPages: int, maxVisiblePages: int) returns (r: seq<int>)
    ensures r == pages + InnerPages(curPage, numPages, maxVisiblePages)
  {
    var n := InnerCount(numPages, maxVisiblePages);
    ghost var inner := InnerPages(curPage, numPages, maxVisiblePages);
    if n == 1 && curPage > 1 && curPage < numPages {
      assert inner == [curPage];
      r := pages + [curPage];
    } else if numPages < maxVisiblePages {
      assert inner == Range(2, n + 2);
      r := PushRun(pages, 2, n);
    } else if curPage < n + 1 {
      assert inner == Range(2, n + 2);
      r := PushRun(pages, 2, n);
    } else if curPage > numPages - n {
      assert inner == Range(numPages - n, numPages);
      r := PushRun(pages, numPages - n, n);
    } else {
      var start := if curPage - n / 2 > 2 then curPage - n / 2 else 2;
      assert inner == Range(start, start + n);
      r := PushRun(pages, start, n);
    }
  }

  /** `createPaginationArray`. */
  method CreatePaginationArray(curPage: int, numPages: int, maxVisiblePages: int) returns (pages: seq<int>)
    ensures pages == Pagination(curPage, numPages, maxVisiblePages)
  {
    if numPages <= 0 {
      return [];
    } else if numPages == 1 {
      return [1];
    }
    pages := [1];
    pages := PushInner(pages, curPage, numPages, maxVisiblePages);
    pages := pages + [numPages];
  }

  /** With two pages or more, the first page and the last page are at the ends. */
  lemma EndsAreFirstAndLast(curPage: int, numPages: int, maxVisiblePages: int)
    requires numPages >= 2
    ensures var r := Pagination(curPage, numPages, maxVisiblePages);
      |r| >= 2 && r[0] == 1 && r[|r| - 1] == numPages
  {
  }

  /** Every page is in `[1, numPages]`, and the pages increase strictly. */
  lemma {:induction false} StrictlyIncreasingWithinBounds(curPage: int, numPages: int, maxVisiblePages: int)
    ensures var r := Pagination(curPage, numPages, maxVisiblePages);
      (forall k :: 0 <= k < |r| ==> 1 <= r[k] <= numPages) &&
      (forall j, k :: 0 <= j < k < |r| ==> r[j] < r[k])
  {
    if numPages >= 2 {
      var inner := InnerPages(curPage, numPages, maxVisiblePages);
      InnerPagesWithin(curPage, numPages, maxVisiblePages);
      var r := [1] + inner + [numPages];
      assert forall k :: 0 <= k < |r| ==> r[k] == if k == 0 then 1 else if k == |r| - 1 then numPages else inner[k - 1];
    }
  }

  /** The inner pages increase by one from each to the next and lie strictly between the
      first and the last page. */
  lemma InnerPagesWithin(curPage: int, numPages: int, maxVisiblePages: int)
    requires numPages >= 2
    ensures var inner := InnerPages(curPage, numPages, maxVisiblePages);
      (forall k :: 0 <= k < |inner| ==> 1 < inner[k] < numPages) &&
      (forall k :: 0 < k < |inner| ==> inner[k] == inner[k - 1] + 1)
  {
    var n := InnerCount(numPages, maxVisiblePages);
    assert n <= numPages - 2;
  }

  /** The number of inner pages, when the window has room for the two ends. */
  lemma InnerLength(curPage: int, numPages: int, maxVisiblePages: int)
    requires numPages >= 2 && maxVisiblePages >= 2
    ensures |InnerPages(curPage, numPages, maxVisiblePages)| == InnerCount(numPages, maxVisiblePages)
  {
  }

  /** When the window has room for the two ends, the bar shows as many pages as fit, or all. */
  lemma LengthIsWindowOrAll(curPage: int, numPages: int, maxVisiblePages: int)
    requires numPages >= 1 && maxVisiblePages >= 2
    ensures |Pagination(curPage, numPages, maxVisiblePages)| ==
      if numPages < maxVisiblePages then numPages else maxVisiblePages
  {
    if numPages >= 2 {
      InnerLength(curPage, numPages, maxVisiblePages);
    }
  }

  /** When every page fits in the window, the bar shows every page in order. */
  lemma {:induction false} AllPagesWhenTheyFit(curPage: int, numPages: int, maxVisiblePages: int)
    requires 2 <= numPages <= maxVisiblePages
    ensures Pagination(curPage, numPages, maxVisiblePages) == Range(1, numPages + 1)
  {
    var r := Pagination(curPage, numPages, maxVisiblePages);
    InnerLength(curPage, numPages, maxVisiblePages);
    InnerPagesWithin(curPage, numPages, maxVisiblePages);
    StrictlyIncreasingWithinBounds(curPage, numPages, maxVisiblePages);
    var inner := InnerPages(curPage, numPages, maxVisiblePages);
    assert |inner| == numPages - 2;
    if |inner| > 0 {
      InnerStartsAtTwo(inner, numPages);
    }
    forall k | 0 <= k < |r| ensures r[k] == 1 + k {
      if 0 < k < |r| - 1 {
        assert r[k] == inner[k - 1];
        InnerIsConsecutive(inner, k - 1);
      }
    }
  }

  /** A run of consecutive integers between 1 and `numPages` that has `numPages - 2` elements
      starts at 2. */
  lemma InnerStartsAtTwo(inner: seq<int>, numPages: int)
    requires |inner| == numPages - 2 > 0
    requires forall k :: 0 <= k < |inner| ==> 1 < inner[k] < numPages
    requires forall k :: 0 < k < |inner| ==> inner[k] == inner[k - 1] + 1
    ensures inner[0] == 2
  {
    InnerIsConsecutive(inner, |inner| - 1);
  }

  lemma {:induction false} InnerIsConsecutive(inner: seq<int>, k: int)
    requires 0 <= k < |inner|
    requires forall j :: 0 < j < |inner| ==> inner[j] == inner[j - 1] + 1
    ensures inner[k] == inner[0] + k
  {
    if k > 0 {
      InnerIsConsecutive(inner, k - 1);
    }
  }

  /** With room for at least three pages, the current page is always shown. */
  lemma {:induction false} CurrentPageIsShown(curPage: int, numPages: int, maxVisiblePages: int)
    requires 1 <= curPage <= numPages && maxVisiblePages >= 3
    ensures curPage in Pagination(curPage, numPages, maxVisiblePages)
  {
    var r := Pagination(curPage, numPages, maxVisiblePages);
    if curPage == 1 {
      assert r[0] == curPage;
    } else if curPage == numPages {
      assert r[|r| - 1] == curPage;
    } else {
      var n := InnerCount(numPages, maxVisiblePages);
      var inner := InnerPages(curPage, numPages, maxVisiblePages);
      assert n >= 1;
      assert curPage in inner by {
        if n == 1 {
          assert inner == [curPage];
        } else if numPages < maxVisiblePages || curPage < n + 1 {
          assert inner == Range(2, n + 2);
          assert inner[curPage - 2] == curPage;
        } else if curPage > numPages - n {
          assert inner == Range(numPages - n, numPages);
          assert inner[curPage - (numPages - n)] == curPage;
        } else {
          var start := if curPage - n / 2 > 2 then curPage - n / 2 else 2;
          assert inner == Range(start, start + n);
          assert inner[curPage - start] == curPage;
        }
      }
      assert r == [1] + inner + [numPages];
    }
  }

  /** With the default window, the bar shows at most five pages, every page when there are at
      most five, and always the current page. */
  lemma DefaultWindow(curPage: int, numPages: int)
    requires 1 <= curPage <= numPages
    ensures var r := Pagination(curPage, numPages, DefaultMaxVisiblePages);
      |r| == (if numPages < 5 then numPages else 5) && curPage in r &&
      (numPages <= 5 ==> r == Range(1, numPages + 1))
  {
    LengthIsWindowOrAll(curPage, numPages, DefaultMaxVisiblePages);
    CurrentPageIsShown(curPage, numPages, DefaultMaxVisiblePages);
    if 2 <= numPages <= 5 {
      AllPagesWhenTheyFit(curPage, numPages, DefaultMaxVisiblePages);
    }
  }
}

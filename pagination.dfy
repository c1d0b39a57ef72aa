/** The pagination arithmetic of the to-do list: how many pages a list of a
    given length spans, which records a page shows, and how the Previous and
    Next controls move the current page. Everything here is pure; the list
    controller in module TodoList applies it to its own state. */
module Pagination {

  /** Records shown per page (`itemsPerPage`). */
  const PageSize: nat := 5

  function Min(a: int, b: int): int { if a <= b then a else b }

  function Max(a: int, b: int): int { if a <= b then b else a }

  /** `Math.ceil(n / PageSize)`: the least number of pages that holds `n`
      records. */
  function TotalPages(n: nat): (r: nat)
    ensures n <= r * PageSize
    ensures r == 0 || (r - 1) * PageSize < n
  {
    (n + PageSize - 1) / PageSize
  }

  /** How Array.prototype.slice turns an argument into an index of a list of
      length `len`: a negative one counts from the end, and both are clamped
      to the list's bounds. */
  function SliceIndex(k: int, len: nat): (r: nat)
    ensures r <= len
    ensures 0 <= k ==> r == Min(k, len)
  {
    if k < 0 then Max(len + k, 0) else Min(k, len)
  }

  /** Array.prototype.slice(start, end): the elements from `start` up to but
      not including `end`, after clamping; empty when they cross. */
  function Slice<T>(s: seq<T>, start: int, end: int): (r: seq<T>)
    ensures |r| <= |s|
    ensures 0 <= start && 0 <= end ==> |r| == Max(0, Min(end, |s|) - start)
    ensures 0 <= start ==> forall i :: 0 <= i < |r| ==> start + i < |s| && r[i] == s[start + i]
  {
    var lo := SliceIndex(start, |s|);
    var hi := SliceIndex(end, |s|);
    if lo < hi then s[lo..hi] else []
  }

  /** The records shown on page `page` (1-based): the slice from
      `page * PageSize - PageSize` to `page * PageSize`. On a real page it is
      the run of at most PageSize records starting at index
      `(page - 1) * PageSize`, cut short at the end of the list. */
  function PageSlice<T>(s: seq<T>, page: int): (r: seq<T>)
    ensures |r| <= PageSize
    ensures 1 <= page ==> |r| == Min(PageSize, Max(0, |s| - (page - 1) * PageSize))
    ensures 1 <= page ==> forall i :: 0 <= i < |r| ==>
      (page - 1) * PageSize + i < |s| && r[i] == s[(page - 1) * PageSize + i]
  {
    var last := page * PageSize;
    var first := last - PageSize;
    Slice(s, first, last)
  }

  /** A page shows something exactly when it is one of pages 1 to
      TotalPages; a cursor left past the last page shows an empty list. */
  lemma PageNonEmptyIff<T>(s: seq<T>, page: nat)
    ensures PageSlice(s, page) != [] <==> 1 <= page <= TotalPages(|s|)
  {
  }

  /** Record `k` is shown on page `k / PageSize + 1`, at position
      `k % PageSize` of that page. */
  lemma RecordOnItsPage<T>(s: seq<T>, k: nat)
    requires k < |s|
    ensures 1 <= k / PageSize + 1 <= TotalPages(|s|)
    ensures k % PageSize < |PageSlice(s, k / PageSize + 1)|
    ensures PageSlice(s, k / PageSize + 1)[k % PageSize] == s[k]
  {
  }

  /** The last record of a non-empty list is the last one shown on the last
      page. */
  lemma LastRecordOnLastPage<T>(s: seq<T>)
    requires s != []
    ensures var v := PageSlice(s, TotalPages(|s|)); v != [] && v[|v| - 1] == s[|s| - 1]
  {
  }

  /** Pages 1 to `n` shown one after another. */
  function PagesUpTo<T>(s: seq<T>, n: nat): seq<T>
  {
    if n == 0 then [] else PagesUpTo(s, n - 1) + PageSlice(s, n)
  }

  /** Reading pages 1 to `n` in order reads the list from its start. */
  lemma {:induction false} PagesUpToIsPrefix<T>(s: seq<T>, n: nat)
    ensures PagesUpTo(s, n) == s[..Min(n * PageSize, |s|)]
  {
    if n > 0 {
      PagesUpToIsPrefix(s, n - 1);
      var a := Min((n - 1) * PageSize, |s|);
      var b := Min(n * PageSize, |s|);
      var v := PageSlice(s, n);
      assert |v| == b - a;
      assert v == s[a..b];
      assert s[..a] + s[a..b] == s[..b];
    }
  }

  /** The pages partition the list: pages 1 to TotalPages, read in order,
      are the whole list, each record once and in list order. */
  lemma PagesCoverList<T>(s: seq<T>)
    ensures PagesUpTo(s, TotalPages(|s|)) == s
  {
    PagesUpToIsPrefix(s, TotalPages(|s|));
  }

  /** `goToNextPage`: `Math.min(page + 1, total)`. From a page in range it
      stays in range and never goes back; it advances by one unless it is
      already on the last page. */
  function NextPage(page: int, total: int): (r: int)
    ensures 1 <= page <= total ==> page <= r <= total
    ensures page < total ==> r == page + 1
    ensures total <= page ==> r == total
  {
    Min(page + 1, total)
  }

  /** `goToPreviousPage`: `Math.max(page - 1, 1)`. Never below page 1 and
      never after the old page; it steps back by one unless on page 1. */
  function PrevPage(page: int): (r: int)
    ensures 1 <= r
    ensures 1 <= page ==> r <= page
    ensures 1 < page ==> r == page - 1
    ensures page <= 1 ==> r == 1
  {
    Max(page - 1, 1)
  }

  /** The cursor invariant: a page between 1 and the last page, page 1
      standing in for the last page of an empty list. */
  predicate PageInRange(page: int, n: nat) {
    1 <= page <= Max(1, TotalPages(n))
  }

  /** With the controls shown (more than one page), Next and Previous keep
      the cursor in range. */
  lemma NavigationKeepsPageInRange(page: int, n: nat)
    requires PageInRange(page, n)
    ensures TotalPages(n) > 1 ==> PageInRange(NextPage(page, TotalPages(n)), n)
    ensures PageInRange(PrevPage(page), n)
  {
  }

  /** Next undoes Previous and Previous undoes Next, away from the ends. */
  lemma NextPrevInverse(page: int, total: int)
    ensures 1 <= page < total ==> PrevPage(NextPage(page, total)) == page
    ensures 1 < page <= total ==> NextPage(PrevPage(page), total) == page
  {
  }
}

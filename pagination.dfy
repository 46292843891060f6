/** Index arithmetic of the book list: JavaScript's Array.prototype.slice, the
    "Show more (N)" counts, and the page-by-page reveal the handlers' indices describe. */
module Pagination {
  import opened Catalog

  /** The two-element `range` array [start, end] of the view state. */
  datatype Range = Range(start: int, end: int)

  function Min(a: int, b: int): int { if a <= b then a else b }

  function Max(a: int, b: int): int { if a >= b then a else b }

  /** How slice reads one of its arguments against a length n: a negative index
      counts from the end; the result is clamped into [0, n]. */
  function ClampIndex(i: int, n: nat): (r: nat)
    ensures r <= n
    ensures 0 <= i ==> r == Min(i, n)
  {
    if i < 0 then (if n + i < 0 then 0 else n + i)
    else if i > n then n
    else i
  }

  /** s.slice(start, end): never out of bounds, empty when the clamped end does not
      pass the clamped start. */
  function Slice<T>(s: seq<T>, start: int, end: int): (r: seq<T>)
    ensures |r| <= |s|
    ensures |r| == Max(ClampIndex(end, |s|) - ClampIndex(start, |s|), 0)
    ensures forall k :: 0 <= k < |r| ==> r[k] == s[ClampIndex(start, |s|) + k]
  {
    var lo, hi := ClampIndex(start, |s|), ClampIndex(end, |s|);
    if lo < hi then s[lo..hi] else []
  }

  /** For a range of non-negative indices, slice is the contiguous part of s they
      delimit, cut off at the end of s. */
  lemma SliceOfNaturalRange<T>(s: seq<T>, start: int, end: int)
    requires 0 <= start <= end
    ensures Slice(s, start, end) == s[Min(start, |s|)..Min(end, |s|)]
  {
  }

  /** The number of books not yet shown after `page` pages: Math.max(length - page * size, 0). */
  function RemainingCount(matchCount: nat, page: int): (n: nat)
    ensures n == 0 <==> page * BooksPerPage >= matchCount
    ensures n > 0 ==> n + page * BooksPerPage == matchCount
  {
    Max(matchCount - page * BooksPerPage, 0)
  }

  /** The count the show-more handler writes into its label: length - endIndex, not clamped. */
  function ShowMoreCount(matchCount: nat, page: int): int {
    matchCount - page * BooksPerPage
  }

  /** The disabled flag the show-more handler sets: endIndex >= length. */
  predicate ShowMoreDisabled(matchCount: nat, page: int) {
    page * BooksPerPage >= matchCount
  }

  /** After show-more the button is disabled exactly when the count it displays is not positive. */
  lemma ShowMoreDisabledIffCountNonPositive(matchCount: nat, page: int)
    ensures ShowMoreDisabled(matchCount, page) <==> ShowMoreCount(matchCount, page) <= 0
  {
  }

  /** The clamped count is the show-more count cut off at zero. */
  lemma RemainingIsClampedShowMoreCount(matchCount: nat, page: int)
    ensures RemainingCount(matchCount, page) == Max(ShowMoreCount(matchCount, page), 0)
    ensures RemainingCount(matchCount, page) == 0 <==> ShowMoreDisabled(matchCount, page)
  {
  }

  /** The show-more label goes negative: with 40 books the start-up label shows 4, and
      one click (page 2) displays -32 where the clamped count is 0. */
  lemma ShowMoreCountCanBeNegative()
    ensures RemainingCount(40, 1) == 4
    ensures ShowMoreCount(40, 2) == -32
    ensures RemainingCount(40, 2) == 0
  {
  }

  /** The books of page `page` (1-based): slice((page - 1) * size, page * size), the
      startIndex / endIndex the show-more handler computes. */
  function PageSlice(matches: seq<Book>, page: nat): (r: seq<Book>)
    requires page >= 1
    ensures |r| <= BooksPerPage
    ensures page * BooksPerPage <= |matches| ==>
      r == matches[(page - 1) * BooksPerPage..page * BooksPerPage]
  {
    Slice(matches, (page - 1) * BooksPerPage, page * BooksPerPage)
  }

  /** The list a cumulative reveal shows after `pages` pages: page 1, then 2, ... */
  function Revealed(matches: seq<Book>, pages: nat): seq<Book> {
    if pages == 0 then [] else Revealed(matches, pages - 1) + PageSlice(matches, pages)
  }

  /** Revealing page after page shows each book once, in order: the first
      pages * size books (or all of them). */
  lemma {:induction false} RevealedIsPrefix(matches: seq<Book>, pages: nat)
    ensures Revealed(matches, pages) == matches[..Min(pages * BooksPerPage, |matches|)]
  {
    if pages > 0 {
      RevealedIsPrefix(matches, pages - 1);
      var lo := Min((pages - 1) * BooksPerPage, |matches|);
      var hi := Min(pages * BooksPerPage, |matches|);
      SliceOfNaturalRange(matches, (pages - 1) * BooksPerPage, pages * BooksPerPage);
      assert matches[..lo] + matches[lo..hi] == matches[..hi];
    }
  }

  /** Once the remaining count is zero, the reveal has shown every book exactly once. */
  lemma RevealedAllWhenNoneRemain(matches: seq<Book>, pages: nat)
    requires RemainingCount(|matches|, pages) == 0
    ensures Revealed(matches, pages) == matches
  {
    RevealedIsPrefix(matches, pages);
    assert matches[..|matches|] == matches;
  }
}

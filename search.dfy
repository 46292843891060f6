/** The search form's filter: which books of the current matches pass a
    title / author / genre criteria triple, and in what order. */
module Search {
  import opened Catalog
  import opened Text

  /** The three form fields of a search submission, as strings. */
  datatype Filters = Filters(title: string, author: string, genre: string)

  /** A blank (after trimming) query matches every title; otherwise the lower-cased
      title must contain the lower-cased query, which is NOT trimmed. */
  predicate TitleMatch(book: Book, query: string) {
    Trim(query) == [] || Includes(ToLower(book.title), ToLower(query))
  }

  predicate AuthorMatch(book: Book, author: string) {
    author == Any || book.author == author
  }

  predicate GenreMatch(book: Book, genre: string) {
    genre == Any || genre in book.genres
  }

  /** The condition under which the submit handler keeps a book. */
  predicate Matches(book: Book, f: Filters) {
    TitleMatch(book, f.title) && AuthorMatch(book, f.author) && GenreMatch(book, f.genre)
  }

  /** The handler's result: the books of `books` that match, in their original order.
      Defined on the prefix, as the push loop builds it. */
  function Filter(books: seq<Book>, f: Filters): (r: seq<Book>)
    ensures |r| <= |books|
    ensures forall k :: 0 <= k < |r| ==> Matches(r[k], f)
  {
    if books == [] then []
    else
      var prev := Filter(books[..|books| - 1], f);
      var last := books[|books| - 1];
      if Matches(last, f) then prev + [last] else prev
  }

  /** r occurs in s as a subsequence (same relative order, gaps allowed). */
  predicate IsSubsequence(r: seq<Book>, s: seq<Book>)
    decreases |s|
  {
    if r == [] then true
    else if s == [] then false
    else if r[|r| - 1] == s[|s| - 1] then IsSubsequence(r[..|r| - 1], s[..|s| - 1])
    else IsSubsequence(r, s[..|s| - 1])
  }

  /** A book is in the result exactly when it is among the books and matches. */
  lemma {:induction false} FilterMembership(books: seq<Book>, f: Filters, b: Book)
    ensures b in Filter(books, f) <==> b in books && Matches(b, f)
  {
    if books != [] {
      var init := books[..|books| - 1];
      FilterMembership(init, f, b);
      assert books == init + [books[|books| - 1]];
    }
  }

  /** Filtering a concatenation filters each part: the filter keeps relative order. */
  lemma {:induction false} FilterAppend(a: seq<Book>, b: seq<Book>, f: Filters)
    ensures Filter(a + b, f) == Filter(a, f) + Filter(b, f)
  {
    if b == [] {
      assert a + b == a;
    } else {
      var init := b[..|b| - 1];
      var last := b[|b| - 1];
      FilterAppend(a, init, f);
      assert (a + b)[..|a + b| - 1] == a + init;
      assert (a + b)[|a + b| - 1] == last;
      if Matches(last, f) {
        calc {
          Filter(a + b, f);
          Filter(a + init, f) + [last];
          Filter(a, f) + Filter(init, f) + [last];
          Filter(a, f) + (Filter(init, f) + [last]);
        }
      }
    }
  }

  /** The result is a subsequence of the input. */
  lemma {:induction false} FilterIsSubsequence(books: seq<Book>, f: Filters)
    ensures IsSubsequence(Filter(books, f), books)
  {
    if books != [] {
      var init := books[..|books| - 1];
      var last := books[|books| - 1];
      var r := Filter(books, f);
      FilterIsSubsequence(init, f);
      if Matches(last, f) {
        assert r[..|r| - 1] == Filter(init, f);
      } else if r != [] {
        assert r[|r| - 1] in r;
        assert r[|r| - 1] != last;
      }
    }
  }

  /** Every matching book is kept as often as it occurs; no other book is kept. */
  lemma {:induction false} FilterCount(books: seq<Book>, f: Filters, b: Book)
    ensures multiset(Filter(books, f))[b] == if Matches(b, f) then multiset(books)[b] else 0
  {
    if books != [] {
      var init := books[..|books| - 1];
      FilterCount(init, f, b);
      assert books == init + [books[|books| - 1]];
    }
  }

  /** Filtering the result again with the same criteria changes nothing. */
  lemma {:induction false} FilterIdempotent(books: seq<Book>, f: Filters)
    ensures Filter(Filter(books, f), f) == Filter(books, f)
  {
    if books != [] {
      var init := books[..|books| - 1];
      var last := books[|books| - 1];
      FilterIdempotent(init, f);
      if Matches(last, f) {
        var r := Filter(books, f);
        assert r[..|r| - 1] == Filter(init, f);
      }
    }
  }

  /** A whitespace-only or empty title query imposes no constraint on the title. */
  lemma BlankQueryMatchesEveryTitle(book: Book, query: string)
    requires IsBlank(query)
    ensures TitleMatch(book, query)
  {
    TrimEmptyIffBlank(query);
  }

  /** A non-blank query matches exactly the titles that contain it, ignoring case. */
  lemma NonBlankQueryIsSubstringTest(book: Book, query: string)
    requires !IsBlank(query)
    ensures TitleMatch(book, query) <==> exists i: nat :: OccursAt(ToLower(book.title), ToLower(query), i)
  {
    TrimEmptyIffBlank(query);
    IncludesIffOccurs(ToLower(book.title), ToLower(query));
  }

  /** Lower-casing the query first changes nothing: the title test ignores the query's case. */
  lemma TitleMatchIgnoresQueryCase(book: Book, query: string)
    ensures TitleMatch(book, ToLower(query)) <==> TitleMatch(book, query)
  {
    TrimEmptyIffBlank(query);
    TrimEmptyIffBlank(ToLower(query));
    ToLowerKeepsBlank(query);
    ToLowerIdempotent(query);
  }

  /** With a blank query and "any" author and genre, the result is every book, in order. */
  lemma {:induction false} UnconstrainedFilterKeepsAll(books: seq<Book>, f: Filters)
    requires IsBlank(f.title) && f.author == Any && f.genre == Any
    ensures Filter(books, f) == books
  {
    if books != [] {
      var init := books[..|books| - 1];
      UnconstrainedFilterKeepsAll(init, f);
      BlankQueryMatchesEveryTitle(books[|books| - 1], f.title);
      assert books == init + [books[|books| - 1]];
    }
  }

  /** The submit handler's loop over the current matches, pushing each match. */
  method FilterBooks(matches: seq<Book>, filters: Filters) returns (result: seq<Book>)
    ensures result == Filter(matches, filters)
  {
    result := [];
    var i := 0;
    while i < |matches|
      invariant 0 <= i <= |matches|
      invariant result == Filter(matches[..i], filters)
    {
      var book := matches[i];
      var titleMatch := TitleMatch(book, filters.title);
      var authorMatch := AuthorMatch(book, filters.author);
      var genreMatch := GenreMatch(book, filters.genre);
      assert matches[..i + 1][..i] == matches[..i];
      if titleMatch && authorMatch && genreMatch {
        result := result + [book];
      }
      i := i + 1;
    }
    assert matches[..|matches|] == matches;
  }
}

/** The view-state objects of the split version: `app` (read by the utility
    functions) and `bookPagination` (copied by the event handlers). Both are written
    as the same literal: the imported books, page 1, range [0, BOOKS_PER_PAGE]. The
    two files import the data module by different relative paths; the model takes
    both to name the same books and page size. */
module ViewStates {
  import opened Catalog
  import opened Pagination

  class ViewState {
    var matches: seq<Book>
    var page: nat
    var range: Range

    constructor (books: seq<Book>)
      ensures matches == books && page == 1 && range == Range(0, BooksPerPage)
    {
      matches := books;
      page := 1;
      range := Range(0, BooksPerPage);
    }
  }
}

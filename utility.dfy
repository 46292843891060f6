/** The rendering helpers of the split version. They read the `app` view state. */
module Utility {
  import opened Catalog
  import opened Pagination
  import opened Options
  import opened Dom
  import opened ViewStates

  /** Replaces the list with one preview per book of app.matches.slice(range[0], range[1]). */
  method CreateHtmlItems(app: ViewState, html: Html)
    modifies html`items
    ensures html.items == Slice(app.matches, app.range.start, app.range.end)
  {
    var extractedBooks := Slice(app.matches, app.range.start, app.range.end);
    html.items := extractedBooks;
  }

  /** The label shows the clamped remaining count; the button is disabled exactly when
      the pages shown so far reach the end of app.matches. */
  method CalcShowMoreButton(app: ViewState, html: Html)
    modifies html`listButtonCount, html`listButtonDisabled
    ensures html.listButtonCount == RemainingCount(|app.matches|, app.page)
    ensures html.listButtonCount >= 0
    ensures html.listButtonDisabled <==> app.page * BooksPerPage >= |app.matches|
  {
    var remainingCount := Max(|app.matches| - app.page * BooksPerPage, 0);
    html.listButtonCount := remainingCount;
    html.listButtonDisabled := remainingCount <= 0;
  }

  method CreateGenreOptions(genres: seq<Entry>, html: Html)
    modifies html`genreOptions
    ensures html.genreOptions == old(html.genreOptions) + OptionList("All Genres", genres)
  {
    var genresFragment := BuildOptions("All Genres", genres);
    html.genreOptions := html.genreOptions + genresFragment;
  }

  method CreateAuthorOptions(authors: seq<Entry>, html: Html)
    modifies html`authorOptions
    ensures html.authorOptions == old(html.authorOptions) + OptionList("All Authors", authors)
  {
    var authorsFragment := BuildOptions("All Authors", authors);
    html.authorOptions := html.authorOptions + authorsFragment;
  }

  /** Start-up: first page of the list, the button, then the author and genre selects. */
  method InitializeList(app: ViewState, html: Html, authors: seq<Entry>, genres: seq<Entry>)
    modifies html`items, html`listButtonCount, html`listButtonDisabled, html`authorOptions,
      html`genreOptions
    ensures html.items == Slice(app.matches, app.range.start, app.range.end)
    ensures html.listButtonCount == RemainingCount(|app.matches|, app.page)
    ensures html.listButtonDisabled <==> app.page * BooksPerPage >= |app.matches|
    ensures html.authorOptions == old(html.authorOptions) + OptionList("All Authors", authors)
    ensures html.genreOptions == old(html.genreOptions) + OptionList("All Genres", genres)
  {
    CreateHtmlItems(app, html);
    CalcShowMoreButton(app, html);
    CreateAuthorOptions(authors, html);
    CreateGenreOptions(genres, html);
  }
}

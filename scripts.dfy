/** The single-file version of the book list: module-level `page`, `matches` and
    `range`, the start-up rendering and the event handlers that read and write them. */
module Scripts {
  import opened Catalog
  import opened Search
  import opened Pagination
  import opened Detail
  import opened Theme
  import opened Options
  import opened Dom

  class BookList {
    /** The current page; only show-more changes it. */
    var page: nat
    /** The books searched and shown; never reassigned after start-up. */
    var matches: seq<Book>
    /** The slice of matches the list renders; never reassigned after start-up. */
    var range: Range
    const html: Html

    /** Module load: the initial state, the first rendering of the list, the two
        selects, the theme from the dark-mode preference, and the initial label. */
    constructor (books: seq<Book>, authors: seq<Entry>, genres: seq<Entry>, prefersDark: bool, html: Html)
      modifies html`items, html`genreOptions, html`authorOptions, html`themeValue, html`colors,
        html`listButtonCount
      ensures this.html == html
      ensures page == 1 && matches == books && range == Range(0, 36)
      ensures html.items == old(html.items) + Slice(books, 0, 36)
      ensures html.genreOptions == old(html.genreOptions) + OptionList("All Genres", genres)
      ensures html.authorOptions == old(html.authorOptions) + OptionList("All Authors", authors)
      ensures html.themeValue == InitialThemeValue(prefersDark)
      ensures html.colors == Some(ThemeColors(InitialThemeValue(prefersDark)))
      ensures html.listButtonCount == RemainingCount(|books|, 1)
    {
      page := 1;
      matches := books;
      range := Range(0, 36);
      this.html := html;
      new;
      CreateHtmlItems();
      CreateGenreOptions(genres);
      CreateAuthorOptions(authors);
      html.themeValue := if prefersDark then "night" else "day";
      html.colors := Some(InitialColors(prefersDark));
      InitialColorsAgreeWithSettings(prefersDark);
      html.listButtonCount :=
        if |matches| - page * BooksPerPage > 0 then |matches| - page * BooksPerPage else 0;
    }

    /** Appends a preview for each book of matches.slice(range[0], range[1]). */
    method CreateHtmlItems()
      modifies html`items
      ensures html.items == old(html.items) + Slice(matches, range.start, range.end)
    {
      var extracted := Slice(matches, range.start, range.end);
      html.items := html.items + extracted;
    }

    method CreateGenreOptions(genres: seq<Entry>)
      modifies html`genreOptions
      ensures html.genreOptions == old(html.genreOptions) + OptionList("All Genres", genres)
    {
      var fragment := BuildOptions("All Genres", genres);
      html.genreOptions := html.genreOptions + fragment;
    }

    method CreateAuthorOptions(authors: seq<Entry>)
      modifies html`authorOptions
      ensures html.authorOptions == old(html.authorOptions) + OptionList("All Authors", authors)
    {
      var fragment := BuildOptions("All Authors", authors);
      html.authorOptions := html.authorOptions + fragment;
    }

    /** Settings submit: the colours for the chosen theme; the overlay closes. */
    method SettingsFormSubmit(theme: string)
      modifies html`colors, html`settingsOpen
      ensures html.colors == Some(ThemeColors(theme)) && !html.settingsOpen
    {
      if theme == "night" {
        html.colors := Some(Colors(White, Ink));
      } else {
        html.colors := Some(Colors(Ink, White));
      }
      html.settingsOpen := false;
    }

    method SettingsCancel()
      modifies html`settingsOpen
      ensures !html.settingsOpen
    {
      html.settingsOpen := false;
    }

    method HeaderSettingsClick()
      modifies html`settingsOpen
      ensures html.settingsOpen
    {
      html.settingsOpen := true;
    }

    /** Show more: the page advances by one whatever is left; the list gets the SAME
        range appended again (startIndex and endIndex are not passed on); the label
        count is length - endIndex, which may be negative. */
    method ShowMore()
      modifies this`page, html`items, html`listButtonDisabled, html`listButtonCount
      ensures page == old(page) + 1
      ensures html.items == old(html.items) + Slice(matches, range.start, range.end)
      ensures html.listButtonDisabled == ShowMoreDisabled(|matches|, page)
      ensures html.listButtonCount == ShowMoreCount(|matches|, page)
      ensures html.listButtonDisabled <==> html.listButtonCount <= 0
    {
      page := page + 1;
      var endIndex := page * BooksPerPage;
      CreateHtmlItems();
      var remaining := |matches| - endIndex;
      html.listButtonDisabled := endIndex >= |matches|;
      html.listButtonCount := remaining;
    }

    /** Search submit: the list is replaced by the books of matches that pass the
        filters; matches, page and range stay as they are; the button is reset to a
        disabled "Show more (0)" and the search overlay closes. */
    method SearchFormSubmit(filters: Filters)
      modifies html`items, html`noResultShown, html`listButtonCount, html`searchOpen,
        html`listButtonDisabled
      ensures matches == old(matches) && page == old(page) && range == old(range)
      ensures html.items == Filter(matches, filters)
      ensures html.noResultShown <==> Filter(matches, filters) == []
      ensures html.listButtonCount == 0 && html.listButtonDisabled && !html.searchOpen
    {
      html.items := [];
      var result := FilterBooks(matches, filters);
      if |result| < 1 {
        html.items := [];
        html.noResultShown := true;
      } else {
        html.noResultShown := false;
        html.items := html.items + result;
      }
      html.listButtonCount := 0;
      html.searchOpen := false;
      html.listButtonDisabled := true;
    }

    method SearchOpen()
      modifies html`searchOpen
      ensures html.searchOpen
    {
      html.searchOpen := true;
    }

    method SearchCancel()
      modifies html`searchOpen
      ensures !html.searchOpen
    {
      html.searchOpen := false;
    }

    /** A click in the list: the detail overlay opens first; the detail fields show the
        book the path leads to, and are left as they were when it leads to none. */
    method ActiveListItem(path: seq<PathNode>)
      modifies html`activeOpen, html`detail
      ensures html.activeOpen
      ensures html.detail == if Lookup(path, matches).Some? then Lookup(path, matches) else old(html.detail)
    {
      html.activeOpen := true;
      var active := FindActive(path, matches);
      if active.None? {
        return;
      }
      html.detail := active;
    }

    method CloseButton()
      modifies html`activeOpen
      ensures !html.activeOpen
    {
      html.activeOpen := false;
    }
  }

  /** With more than one page of books, a first click on "Show more" renders the first
      page a second time: position 36 of the list holds book 0, not book 36. */
  method ShowMoreRepeatsFirstPage(books: seq<Book>) returns (items: seq<Book>)
    requires |books| > BooksPerPage
    ensures items == books[..BooksPerPage] + books[..BooksPerPage]
    ensures items[BooksPerPage] == books[0]
  {
    var html := new Html();
    var list := new BookList(books, [], [], false, html);
    list.ShowMore();
    items := html.items;
  }
}

/** The event handlers of the split version. They keep module-local copies of the
    pagination object's `matches`, `page` and `range`, while the rendering helpers
    they call read the separate `app` object. */
module EventHandlers {
  import opened Catalog
  import opened Search
  import opened Pagination
  import opened Detail
  import opened Theme
  import opened Options
  import opened Dom
  import opened ViewStates
  import Utility

  class Handlers {
    var matches: seq<Book>
    var page: nat
    var range: Range
    const html: Html
    /** The object the rendering helpers read; no handler writes it. */
    const app: ViewState

    /** Module load: matches, page and range copied out of the pagination object. */
    constructor (pagination: ViewState, app: ViewState, html: Html)
      ensures matches == pagination.matches && page == pagination.page && range == pagination.range
      ensures this.app == app && this.html == html
    {
      matches := pagination.matches;
      page := pagination.page;
      range := pagination.range;
      this.app := app;
      this.html := html;
    }

    /** Settings submit: the colours for the chosen theme; the overlay closes. */
    method SettingsFormSubmit(theme: string)
      modifies html`colors, html`settingsOpen
      ensures html.colors == Some(ThemeColors(theme)) && !html.settingsOpen
    {
      if theme == "night" {
        html.colors := Some(Colors(White, Ink));
      } else {
        html.colors := Some(Colors(Ink, White));
      }
      html.settingsOpen := false;
    }

    method SettingsCancel()
      modifies html`settingsOpen
      ensures !html.settingsOpen
    {
      html.settingsOpen := false;
    }

    method HeaderSettingsClick()
      modifies html`settingsOpen
      ensures html.settingsOpen
    {
      html.settingsOpen := true;
    }

    /** Show more: only the module-local page advances; the list is re-rendered from
        `app`, whose page and range did not move, so it shows the same slice; the label
        count is length - endIndex over the local matches, possibly negative. */
    method ShowMoreButton()
      modifies this`page, html`items, html`listButtonDisabled, html`listButtonCount
      ensures page == old(page) + 1
      ensures html.items == Slice(app.matches, app.range.start, app.range.end)
      ensures html.listButtonDisabled == ShowMoreDisabled(|matches|, page)
      ensures html.listButtonCount == ShowMoreCount(|matches|, page)
      ensures html.listButtonDisabled <==> html.listButtonCount <= 0
    {
      page := page + 1;
      var endIndex := page * BooksPerPage;
      Utility.CreateHtmlItems(app, html);
      var remaining := |matches| - endIndex;
      html.listButtonDisabled := endIndex >= |matches|;
      html.listButtonCount := remaining;
    }

    /** Search submit: the list is replaced by the local matches that pass the filters;
        matches and page are not touched; the button is reset to a disabled
        "Show more (0)" and the search overlay closes. */
    method SearchFormSubmit(filters: Filters)
      modifies html`items, html`noResultShown, html`listButtonCount, html`searchOpen,
        html`listButtonDisabled
      ensures matches == old(matches) && page == old(page) && range == old(range)
      ensures html.items == Filter(matches, filters)
      ensures html.noResultShown <==> Filter(matches, filters) == []
      ensures html.listButtonCount == 0 && html.listButtonDisabled && !html.searchOpen
    {
      html.items := [];
      var result := FilterBooks(matches, filters);
      if |result| < 1 {
        html.items := [];
        html.noResultShown := true;
      } else {
        html.noResultShown := false;
        html.items := html.items + result;
      }
      html.listButtonCount := 0;
      html.searchOpen := false;
      html.listButtonDisabled := true;
    }

    method CloseButton()
      modifies html`activeOpen
      ensures !html.activeOpen
    {
      html.activeOpen := false;
    }

    /** A click in the list: the detail overlay opens first; the detail fields show the
        book the path leads to among the local matches, unchanged when it leads to none. */
    method ActiveListItem(path: seq<PathNode>)
      modifies html`activeOpen, html`detail
      ensures html.activeOpen
      ensures html.detail == if Lookup(path, matches).Some? then Lookup(path, matches) else old(html.detail)
    {
      html.activeOpen := true;
      var active := FindActive(path, matches);
      if active.None? {
        return;
      }
      html.detail := active;
    }

    method SearchOpen()
      modifies html`searchOpen
      ensures html.searchOpen
    {
      html.searchOpen := true;
    }

    method SearchCancel()
      modifies html`searchOpen
      ensures !html.searchOpen
    {
      html.searchOpen := false;
    }
  }

  /** Start-up followed by one show-more click: the handlers' page is 2, but `app` still
      says page 1, so recomputing the button afterwards gives the first page's count. */
  method ShowMoreInvisibleToCalc(books: seq<Book>) returns (count: int, localPage: nat, appPage: nat)
    ensures localPage == 2 && appPage == 1
    ensures count == RemainingCount(|books|, 1)
  {
    var app := new ViewState(books);
    var pagination := new ViewState(books);
    var html := new Html();
    Utility.InitializeList(app, html, [], []);
    var handlers := new Handlers(pagination, app, html);
    handlers.ShowMoreButton();
    Utility.CalcShowMoreButton(app, html);
    count, localPage, appPage := html.listButtonCount, handlers.page, app.page;
  }
}

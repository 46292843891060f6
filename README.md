# Book catalog list view — a Dafny model

The repository is a browser catalog of books. It renders a list of book previews
36 at a time, filters the list from a search form (title, author, genre), opens a
detail overlay when a preview is clicked, and switches between a day and a night
colour theme. All of this happens inside DOM event handlers. The handlers exist twice.
`scripts.js` is one file with module-level `page`, `matches` and `range`.
The split version has `js/modules/eventHandlers.js`, `js/modules/utility.js` and two
state objects, `app` and `bookPagination`.

This project takes the view logic out of the DOM and models it:

- `Catalog` holds the book record, the page size and the `"any"` sentinel.
- `Text` holds trim, lower-case and substring search. `Search` holds the three-way
  title/author/genre test, the filter it defines, and the filter loop.
- `Pagination` holds JavaScript's `slice` clamping, the two "Show more (N)" counts
  the code computes, and the page-by-page reveal that the show-more indices describe.
- `Detail` holds the click lookup: a scan of the event path, with an inner scan of
  `matches` for each node.
- `Theme` holds the colour pair. `Options` holds the author and genre select lists.
- `Dom.Html` gathers the page outputs the handlers write, as plain fields. These are
  the list contents, the button's label count and disabled flag, the no-result flag,
  the overlay flags, the detail book, the colours and the selects.
- `Scripts.BookList` is `scripts.js`: its state, its start-up code and its handlers.
- `ViewStates.ViewState` is the `app` / `bookPagination` object. `Utility` is
  `utility.js`. `EventHandlers.Handlers` is `eventHandlers.js` with its module-local
  copies of `matches`, `page` and `range`.

The model follows what the code does, including these behaviours:

- A search filters `matches` but never reassigns it and never resets `page`.
- Show-more never moves `range`, so every render shows the same first slice.
  `scripts.js` appends that slice again; `utility.js` replaces the list with it.
- The show-more label count is not clamped and can go negative.
- In the split version, show-more advances only the handlers' own `page`.
  `calcShowMoreButton` reads `app.page`, which stays 1.
- The detail overlay opens before the lookup, so it opens even when nothing is found.
  On a miss the detail fields keep their old contents.

So a search does not replace `matches` and does not reset the page to 1. Show-more
advances the page even when no books remain, and it does not reveal the next page. A
failed lookup still opens the overlay. The model states these behaviours as they are.
The next-page reveal that the show-more indices describe is modelled separately as
`Pagination.Revealed` (see Findings).

Inputs that come from the browser are parameters. These are the dark-mode preference,
the submitted form fields, the theme choice and the event path (a sequence of optional
`data-preview` ids). `data.js` is not part of this model: the books and the author and
genre tables are parameters, and `BOOKS_PER_PAGE` is taken as 36, the value of the
`range` literal in `scripts.js`.

## Model

| member | source | states |
|---|---|---|
| `Text.TrimEmptyIffBlank` | scripts.js:319 | `trim()` of the query is empty exactly when every character of the query is whitespace |
| `Text.TrimStartStops` | js/modules/eventHandlers.js:118 | trimming the front empties exactly the blank strings, and otherwise stops at a non-whitespace character |
| `Text.TrimEndEmptyIffBlank` | js/modules/eventHandlers.js:118 | trimming the back empties exactly the blank strings |
| `Text.ToLowerKeepsBlank` | scripts.js:319-320 | lower-casing keeps a query blank exactly when it was blank |
| `Text.IncludesIffOccurs` | scripts.js:320 | `includes` is true exactly when the query occurs at some index of the title (both directions) |
| `Text.Includes` | js/modules/eventHandlers.js:119 | the empty string is included in every string; a longer string is never included |
| `Text.Trim` | scripts.js:319 | `trim()`: the front and back trims in turn; `Text.TrimEmptyIffBlank` states that the result is empty exactly for whitespace-only strings |
| `Text.ToLower` | scripts.js:320 | `toLowerCase()`: same length, and each character is lowered on its own (ASCII letters only) |
| `Search.Filter` | scripts.js:317-329 | every book of the result passes the title, author and genre tests; the result is no longer than `matches` |
| `Search.FilterMembership` | scripts.js:317-329 | a book is in the result if and only if it is in `matches` and passes all three tests |
| `Search.FilterAppend` | js/modules/eventHandlers.js:116-129 | filtering a concatenation filters each part in turn, so the result keeps the relative order of `matches` |
| `Search.FilterIsSubsequence` | scripts.js:317-329 | the result is a subsequence of `matches` |
| `Search.FilterCount` | js/modules/eventHandlers.js:116-129 | a passing book is kept as many times as it occurs in `matches`; a failing book is never kept |
| `Search.FilterIdempotent` | scripts.js:317-329 | filtering the result again with the same criteria returns it unchanged |
| `Search.BlankQueryMatchesEveryTitle` | scripts.js:318-319 | an empty or whitespace-only title query matches every book |
| `Search.NonBlankQueryIsSubstringTest` | js/modules/eventHandlers.js:117-119 | for any other query, a title matches exactly when the lower-cased, untrimmed query occurs in the lower-cased title |
| `Search.TitleMatchIgnoresQueryCase` | scripts.js:320 | lower-casing the query beforehand never changes the title test |
| `Search.UnconstrainedFilterKeepsAll` | scripts.js:318-325 | with a blank query and author and genre `"any"`, the result is all of `matches` in the same order |
| `Search.FilterBooks` | scripts.js:314-330 | the push loop (also js/modules/eventHandlers.js:113-129) builds exactly the filter result |
| `Search.TitleMatch` | scripts.js:318-320 | the title test: a blank query passes; otherwise the lower-cased title must contain the lower-cased, untrimmed query (pinned down by `Search.BlankQueryMatchesEveryTitle` and `Search.NonBlankQueryIsSubstringTest`) |
| `Search.AuthorMatch` | scripts.js:321-323 | the author test: author `"any"` passes every book; otherwise the book's author must be equal |
| `Search.GenreMatch` | scripts.js:324-325 | the genre test: genre `"any"` passes every book; otherwise the genre must be among the book's genres |
| `Search.Matches` | js/modules/eventHandlers.js:117-126 | a book is kept when all three tests pass; `Search.FilterMembership` states that the result holds exactly these books |
| `Pagination.ClampIndex` | scripts.js:86 | a slice index is clamped into [0, length], and a non-negative index becomes min(index, length) |
| `Pagination.Slice` | scripts.js:86 | `slice(start, end)` never goes out of bounds: its length is the clamped end minus the clamped start (at least 0), and element k is the element at the clamped start plus k |
| `Pagination.SliceOfNaturalRange` | js/modules/utility.js:6 | for 0 <= start <= end, the slice is the contiguous part of `matches` between the two indices, cut off at its end |
| `Pagination.RemainingCount` | js/modules/utility.js:18 | the clamped count is 0 exactly when page * 36 reaches the number of matches; otherwise it is the number of matches left after page * 36 |
| `Pagination.ShowMoreDisabledIffCountNonPositive` | js/modules/eventHandlers.js:88-89 | after show-more the button is disabled exactly when the count it displays is <= 0 |
| `Pagination.ShowMoreCount` | scripts.js:287 | the count the show-more label displays, `length - page * 36`, not clamped; `Pagination.ShowMoreCountCanBeNegative` shows it below 0 |
| `Pagination.ShowMoreDisabled` | js/modules/eventHandlers.js:89 | the disabled flag after show-more, `page * 36 >= length`; `Pagination.ShowMoreDisabledIffCountNonPositive` ties it to the count |
| `Pagination.RemainingIsClampedShowMoreCount` | scripts.js:259-261 | the initial label count is the show-more count cut off at 0, and it is 0 exactly when show-more would disable the button |
| `Pagination.ShowMoreCountCanBeNegative` | scripts.js:287 | with 40 books the start-up count is 4, and the first click (page 2) shows -32 where the clamped count is 0 |
| `Pagination.RevealedIsPrefix` | scripts.js:281-282 | showing page 1, 2, ..., k in turn (the startIndex/endIndex slices) shows the first min(k * 36, length) books, each once, in order |
| `Pagination.PageSlice` | scripts.js:281-282 | the slice of page p (`startIndex` to `endIndex`) holds at most 36 books; when the page is full it is exactly books (p-1)*36 to p*36 |
| `Pagination.Revealed` | scripts.js:281-285 | pages 1..k shown one after the other (the intended reveal); `Pagination.RevealedIsPrefix` states what it shows |
| `Pagination.RevealedAllWhenNoneRemain` | js/modules/utility.js:18-22 | once the clamped count is 0, that reveal has shown every book exactly once |
| `Detail.FirstWithId` | scripts.js:424-429 | the inner scan stops at the first book whose id equals the node's id; no book before it has that id |
| `Detail.FirstHit` | scripts.js:417-430 | the outer scan stops at the first path node whose id names some book; no earlier node names one |
| `Detail.LookupIsFirstHit` | js/modules/eventHandlers.js:188-201 | the lookup's result is the first book with the id of the first path node that has a hit, and nothing when no node has one |
| `Detail.LookupFound` | scripts.js:417-433 | a book found is one of `matches`, and its id is on the path |
| `Detail.FindActive` | scripts.js:413-430 | the nested loops with their breaks (also js/modules/eventHandlers.js:184-201) compute exactly the lookup |
| `Detail.FindById` | scripts.js:424-429 | the inner scan's result: a book found is one of `matches` and carries the node's id; nothing is found exactly when no book carries it |
| `Detail.Lookup` | scripts.js:417-430 | the outer scan: the first node whose id some book carries decides; `Detail.LookupIsFirstHit` and `Detail.LookupFound` pin it down |
| `Theme.ThemeColors` | scripts.js:196-205 | the dark colour is "255, 255, 255" exactly when the theme is "night"; the two colours always differ and are the pair white / "10, 10, 20" |
| `Theme.InitialColorsAgreeWithSettings` | scripts.js:165-176 | the start-up colours from the dark-mode preference are those the settings form gives for the select value written at start-up |
| `Theme.DayIsSwappedNight` | js/modules/eventHandlers.js:26-35 | every value other than "night" gives the night colours swapped |
| `Theme.InitialThemeValue` | scripts.js:168 | the theme select starts at "night" when dark mode is preferred and at "day" otherwise |
| `Theme.InitialColors` | scripts.js:169-176 | the start-up colours; `Theme.InitialColorsAgreeWithSettings` states that they are the settings colours for the start-up select value |
| `Options.OptionListShape` | js/modules/utility.js:29-41 | the select list has 1 + (number of entries) options: `"any"` with its label first, then entry k at position k + 1 |
| `Options.EntryOptionsAt` | js/modules/utility.js:36-41 | one option per table entry, carrying the entry's id and name, in entry order |
| `Options.BuildOptions` | js/modules/utility.js:46-58 | the builder loop (also scripts.js:117-162) produces exactly that list |
| `Options.EntryOptions` | js/modules/utility.js:36-41 | one option per table entry; `Options.EntryOptionsAt` states its length and each option |
| `Options.OptionList` | scripts.js:117-133 | the `"any"` option followed by the entries' options; `Options.OptionListShape` states its shape |
| `Scripts.BookList.constructor` | scripts.js:21-41 | start-up: page 1, all books, range [0, 36]. It also renders the first slice (104), adds both selects (134, 163), sets the theme from the preference (165-176) and writes the clamped initial count (256-263) |
| `Scripts.BookList.CreateHtmlItems` | scripts.js:84-102 | appends `matches.slice(range[0], range[1])` to the list |
| `Scripts.BookList.CreateGenreOptions` | scripts.js:117-133 | appends "All Genres" and one option per genre to the genre select |
| `Scripts.BookList.CreateAuthorOptions` | scripts.js:146-162 | appends "All Authors" and one option per author to the author select |
| `Scripts.BookList.SettingsFormSubmit` | scripts.js:191-208 | sets the colours of the chosen theme and closes the settings overlay |
| `Scripts.BookList.SettingsCancel` | scripts.js:219-221 | closes the settings overlay |
| `Scripts.BookList.HeaderSettingsClick` | scripts.js:233-235 | opens the settings overlay |
| `Scripts.BookList.ShowMore` | scripts.js:277-290 | page grows by exactly 1; the same range is appended again; disabled is page * 36 >= length; the count is length - page * 36; disabled exactly when that count is <= 0 |
| `Scripts.BookList.SearchFormSubmit` | scripts.js:307-362 | matches, page and range are unchanged; the list becomes the filter result; the no-result flag is set exactly when the result is empty; the button shows 0 and is disabled; the search overlay closes |
| `Scripts.BookList.SearchOpen` | scripts.js:374-377 | opens the search overlay |
| `Scripts.BookList.SearchCancel` | scripts.js:389-391 | closes the search overlay |
| `Scripts.BookList.ActiveListItem` | scripts.js:409-444 | the detail overlay is open afterwards in every case; the detail shows the looked-up book, or stays as it was on a miss |
| `Scripts.BookList.CloseButton` | scripts.js:455-457 | closes the detail overlay |
| `Scripts.ShowMoreRepeatsFirstPage` | scripts.js:277-290 | with more than 36 books, one click leaves the list as the first 36 books twice, so position 36 holds book 0 |
| `ViewStates.ViewState.constructor` | js/modules/bookListConfig.js:40-44 | `app` and `bookPagination` (js/modules/bookPagination.js:3-7) start with all books, page 1 and range [0, 36] |
| `Dom.Html.constructor` | js/modules/bookListConfig.js:3-38 | the page parts the handlers look up start blank: empty list and selects, button enabled with count 0, every overlay closed, no detail, no colours set (the markup itself is not part of this model) |
| `Utility.CreateHtmlItems` | js/modules/utility.js:5-15 | replaces the list with `app.matches.slice(app.range[0], app.range[1])` |
| `Utility.CalcShowMoreButton` | js/modules/utility.js:17-27 | the label count is the clamped remaining count of `app`, never negative; disabled exactly when app.page * 36 >= the number of app.matches |
| `Utility.CreateGenreOptions` | js/modules/utility.js:29-44 | appends the genre option list to the genre select |
| `Utility.CreateAuthorOptions` | js/modules/utility.js:46-61 | appends the author option list to the author select |
| `Utility.InitializeList` | js/modules/utility.js:64-71 | start-up: the first slice, the button, then both selects |
| `EventHandlers.Handlers.constructor` | js/modules/eventHandlers.js:5-7 | the handlers' matches, page and range are copies of the pagination object's |
| `EventHandlers.Handlers.SettingsFormSubmit` | js/modules/eventHandlers.js:21-38 | sets the colours of the chosen theme and closes the settings overlay |
| `EventHandlers.Handlers.SettingsCancel` | js/modules/eventHandlers.js:49-51 | closes the settings overlay |
| `EventHandlers.Handlers.HeaderSettingsClick` | js/modules/eventHandlers.js:63-65 | opens the settings overlay |
| `EventHandlers.Handlers.ShowMoreButton` | js/modules/eventHandlers.js:78-91 | only the local page grows by 1, and `app` is not written; the list is re-rendered from `app`'s unchanged range; disabled and count follow the local page, and the button is disabled exactly when the count is <= 0 |
| `EventHandlers.Handlers.SearchFormSubmit` | js/modules/eventHandlers.js:106-153 | local matches and page are unchanged; the list becomes the filter result; the no-result flag is set exactly when it is empty; the button shows 0 and is disabled; the search overlay closes |
| `EventHandlers.Handlers.CloseButton` | js/modules/eventHandlers.js:164-166 | closes the detail overlay |
| `EventHandlers.Handlers.ActiveListItem` | js/modules/eventHandlers.js:180-215 | the detail overlay is open afterwards in every case; the detail shows the looked-up book, or stays as it was on a miss |
| `EventHandlers.Handlers.SearchOpen` | js/modules/eventHandlers.js:227-230 | opens the search overlay |
| `EventHandlers.Handlers.SearchCancel` | js/modules/eventHandlers.js:242-244 | closes the search overlay |
| `EventHandlers.ShowMoreInvisibleToCalc` | js/modules/eventHandlers.js:5-7 | after start-up and one click the handlers' page is 2 but `app.page` is 1, so `calcShowMoreButton` still gives the first page's count |

## Left out

- Element construction, `innerHTML`/`textContent` writes, fragments and the `book-preview` component. The list is modelled as the sequence of books it previews; the button label as its count N.
- Author display names: the previews and the detail subtitle look up `authors[book.author]`. The subtitle's year comes from `new Date(published).getFullYear()`. Neither is modelled; the detail overlay is modelled as the book it shows, and the year as a given integer field.
- `window.matchMedia`, `FormData`/`Object.fromEntries`, `window.scrollTo` and focus handling are browser I/O. The dark-mode preference, the form fields and the theme choice are parameters.
- `event.composedPath()` is modelled as a sequence of optional `data-preview` ids, one per node.
- Text.Trim: only the ASCII whitespace characters are removed; JavaScript also removes Unicode spaces and line terminators.
- Text.ToLower: only ASCII letters are lower-cased; JavaScript's Unicode case mapping is not modelled.
- `Object.entries` order: the author and genre tables are given as sequences of entries in the order the loop visits them.
- `data.js` is not part of this model. Books and tables are parameters, and `BOOKS_PER_PAGE` is 36.
- The page's markup is not part of this model. `Dom.Html` starts blank, with the button enabled and count 0.
- The listener wiring in `js/scripts.js`. A disabled button fires no click, but the model lets every handler run in any state.
- `js/modules/eventHandlers.js:1` imports `html` and `createPreviewItem` from `utility.js`, which exports neither. Under ES-module linking that is a SyntaxError, so `js/scripts.js` would not run at all. The model assumes the imports resolve to the shared page and to one preview per book.
- One data module: `bookListConfig.js` and `utility.js` import `../data/data.js`, while `bookPagination.js` and `eventHandlers.js` import `../../data/data.js`. The model assumes both paths name the same books and the same `BOOKS_PER_PAGE`, so `app.matches` and the handlers' `matches` start equal.
- `<book-preview id=…>` (js/modules/utility.js:11) carries no `data-preview` attribute. So in the split version a click on a list item rendered by `createHtmlItems` finds no book. The model takes the event path as given and does not derive it from the rendered items.
- The `themeColors` constant of `js/modules/bookListConfig.js:46-49` is never read by the handlers.

## Findings

| source | as written | input that shows it | evidently intended | confidence | as-written member | corrected member |
|---|---|---|---|---|---|---|
| scripts.js:287-289 | the show-more label is `length - endIndex`, not clamped (same at js/modules/eventHandlers.js:88-90) | 40 books: the start-up label reads "Show more (4)"; one click gives page 2 and "Show more (-32)", in both versions | the clamped count used for the initial label (scripts.js:259-261) and by `calcShowMoreButton` (js/modules/utility.js:18) | high; not executed | `Pagination.ShowMoreCountCanBeNegative` | `Pagination.RemainingCount` |
| scripts.js:281-285 | `startIndex`/`endIndex` are computed but not used; `createHtmlItems` renders the fixed `range` again | 37 books, one click: the list holds books 0-35 twice, and show-more never shows book 36 | render the next page, so that pages 1..k together show the first k * 36 books once each | high; not executed | `Scripts.ShowMoreRepeatsFirstPage` | `Pagination.RevealedIsPrefix` |

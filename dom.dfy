/** The parts of the page the handlers write, kept as abstract values instead of
    elements: the list container, the "Show more" button, the no-result message,
    the three overlays, the detail fields, the colour variables and the selects. */
module Dom {
  import opened Catalog
  import opened Theme
  import opened Options

  class Html {
    /** The list container: one preview per book, in document order. */
    var items: seq<Book>
    var listButtonDisabled: bool
    /** The N of the button's "Show more (N)" label. */
    var listButtonCount: int
    /** Whether the no-result message carries its "show" class. */
    var noResultShown: bool
    var searchOpen: bool
    var settingsOpen: bool
    var activeOpen: bool
    /** The book whose image, title, subtitle and description the detail overlay shows. */
    var detail: Option<Book>
    /** The --color-dark / --color-light variables; None while the stylesheet's own apply. */
    var colors: Option<Colors>
    /** The value of the theme select in the settings form. */
    var themeValue: string
    var genreOptions: seq<SelectOption>
    var authorOptions: seq<SelectOption>

    /** A page whose dynamic parts are all empty, closed or unset. */
    constructor()
      ensures items == [] && !listButtonDisabled && listButtonCount == 0 && !noResultShown
      ensures !searchOpen && !settingsOpen && !activeOpen && detail == None
      ensures colors == None && themeValue == "" && genreOptions == [] && authorOptions == []
    {
      items, listButtonDisabled, listButtonCount, noResultShown := [], false, 0, false;
      searchOpen, settingsOpen, activeOpen, detail := false, false, false, None;
      colors, themeValue, genreOptions, authorOptions := None, "", [], [];
    }
  }
}

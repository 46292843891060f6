/** The two colour variables (--color-dark, --color-light) the theme setting writes. */
module Theme {

  datatype Colors = Colors(dark: string, light: string)

  const White: string := "255, 255, 255"
  const Ink: string := "10, 10, 20"

  /** The settings handler: "night" puts white text on an ink background; any other
      value, the reverse. */
  function ThemeColors(theme: string): (c: Colors)
    ensures (c.dark == White) <==> theme == "night"
    ensures c.dark != c.light
    ensures {c.dark, c.light} == {White, Ink}
  {
    if theme == "night" then Colors(White, Ink) else Colors(Ink, White)
  }

  /** The choice made at start-up from the dark-mode preference: the value of the theme
      select, and the colours written alongside it. */
  function InitialThemeValue(prefersDark: bool): string {
    if prefersDark then "night" else "day"
  }

  function InitialColors(prefersDark: bool): Colors {
    Colors(if prefersDark then White else Ink, if prefersDark then Ink else White)
  }

  /** Start-up writes the same colours the settings form would for the select's value. */
  lemma InitialColorsAgreeWithSettings(prefersDark: bool)
    ensures InitialColors(prefersDark) == ThemeColors(InitialThemeValue(prefersDark))
  {
  }

  /** The two themes are each other's swap: any non-"night" value gives "night" reversed. */
  lemma DayIsSwappedNight(theme: string)
    requires theme != "night"
    ensures ThemeColors(theme) == Colors(ThemeColors("night").light, ThemeColors("night").dark)
  {
  }
}

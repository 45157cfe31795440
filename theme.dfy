/** The light/dark theme: the preference kept in local storage under the key
    `theme`, the `data-theme` attribute of the body and the string the script
    assigns as the colour-scheme hint
    of the root element. */
module Theme {
  import opened Wrappers

  const Light := "light"
  const Dark := "dark"

  /** `stored || 'dark'`: a missing preference, and the empty string (which
      JavaScript treats as false), fall back to `dark`; any other stored
      string is kept as it is. */
  function StoredOrDefault(stored: Option<string>): (theme: string)
    ensures theme != ""
    ensures stored.Some? && stored.value != "" ==> theme == stored.value
    ensures stored.None? || stored.value == "" ==> theme == Dark
  {
    match stored
    case Some(v) => if v != "" then v else Dark
    case None => Dark
  }

  /** The theme applied at start-up: `light` exactly when the stored string is
      `light`, and `dark` in every other case, nothing stored included. */
  function AppliedTheme(stored: Option<string>): (theme: string)
    ensures theme == Light <==> stored == Some(Light)
    ensures theme == Light || theme == Dark
  {
    if StoredOrDefault(stored) == Light then Light else Dark
  }

  /** The theme a toggle switches to, given the current `data-theme`
      attribute (missing when `None`): `dark` exactly when the current theme is
      `light`; anything else, a missing attribute included, leads to `light`. */
  function NextTheme(current: Option<string>): (next: string)
    ensures next == Dark <==> current == Some(Light)
    ensures next == Light || next == Dark
  {
    if current == Some(Light) then Dark else Light
  }

  /** Two toggles from a light or dark theme come back to it. */
  lemma ToggleTwiceRestores(theme: string)
    requires theme == Light || theme == Dark
    ensures NextTheme(Some(NextTheme(Some(theme)))) == theme
  {
  }

  /** A toggled theme survives a reload: start-up reads back what the toggle
      stored and applies the same theme. */
  lemma ToggleSurvivesReload(current: Option<string>)
    ensures AppliedTheme(Some(NextTheme(current))) == NextTheme(current)
  {
  }

  /** The string assigned as the colour-scheme hint is the stored string
      before normalisation, so it equals the applied theme exactly when
      storage holds nothing, the empty string, `light` or `dark`. */
  lemma HintMatchesAttribute(stored: Option<string>)
    ensures StoredOrDefault(stored) == AppliedTheme(stored) <==>
              stored.None? || stored.value in {"", Light, Dark}
  {
  }

  /** The page state the theme code reads and writes. */
  class ThemePage {
    /** The `theme` entry of local storage. */
    var stored: Option<string>
    /** The body's `data-theme` attribute. */
    var dataTheme: Option<string>
    /** The string last assigned to the root element's `style.colorScheme`
        (what the browser then parses and keeps is not modelled). */
    var colorScheme: string

    constructor (stored: Option<string>, dataTheme: Option<string>, colorScheme: string)
      ensures this.stored == stored && this.dataTheme == dataTheme && this.colorScheme == colorScheme
    {
      this.stored := stored;
      this.dataTheme := dataTheme;
      this.colorScheme := colorScheme;
    }

    /** `initTheme`: applies the stored preference. The attribute is always
        normalised to `light` or `dark`, but the colour-scheme hint is assigned
        the stored string itself. Storage is only read. */
    method InitTheme()
      modifies this
      ensures stored == old(stored)
      ensures dataTheme == Some(AppliedTheme(stored))
      ensures colorScheme == StoredOrDefault(stored)
    {
      var theme := StoredOrDefault(stored);
      dataTheme := Some(if theme == Light then Light else Dark);
      colorScheme := theme;
    }

    /** `toggleTheme`: flips the applied theme and stores the new value, so
        that the attribute, the hint and storage all agree afterwards. */
    method ToggleTheme()
      modifies this
      ensures dataTheme == Some(NextTheme(old(dataTheme)))
      ensures colorScheme == NextTheme(old(dataTheme))
      ensures stored == dataTheme
    {
      var next := if dataTheme == Some(Light) then Dark else Light;
      dataTheme := Some(next);
      colorScheme := next;
      stored := Some(next);
    }
  }

  /** After a toggle, a reload (a fresh start-up from what was stored) shows
      the theme the toggle chose. */
  method ToggleThenReload(page: ThemePage)
    modifies page
    ensures page.dataTheme == Some(NextTheme(old(page.dataTheme)))
  {
    page.ToggleTheme();
    page.InitTheme();
  }
}

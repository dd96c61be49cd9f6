/** The theme switch (`src/components/ThemeToggle.tsx`): the dark/light choice resolved on mount
    from `localStorage` and the system preference, and the toggle that flips and persists it. */
module Theme {

  import opened Wrappers

  /** The component's `isDark`, the stored `theme` item, and whether the root element carries
      the `dark` class. */
  datatype ThemeState = ThemeState(isDark: bool, stored: Option<string>, darkClass: bool)

  /** The item a toggle writes. */
  function ThemeName(dark: bool): string {
    if dark then "dark" else "light"
  }

  /** The mount effect. A stored `dark` gives the dark theme on every system, any other stored
      name gives the light theme on every system, and with nothing (or an empty string) stored
      the theme follows the system preference. The class is only ever added, and only for the
      dark theme. Storage is only read. */
  function Mount(stored: Option<string>, systemDark: bool, darkClass: bool): (st: ThemeState)
    ensures stored == Some("dark") ==> st.isDark
    ensures stored.Some? && stored.value !in {"dark", ""} ==> !st.isDark
    ensures stored.None? || stored == Some("") ==> st.isDark == systemDark
    ensures st.stored == stored
    ensures st.darkClass == (darkClass || st.isDark)
  {
    var dark := stored == Some("dark") || ((stored.None? || stored == Some("")) && systemDark);
    ThemeState(dark, stored, darkClass || dark)
  }

  /** A stored choice beats the system preference: `light` stays light on a dark system. */
  lemma StoredLightWins(darkClass: bool)
    ensures !Mount(Some("light"), true, darkClass).isDark
  {
  }

  /** `toggleTheme`: negate, then set or clear the class and persist the new name. */
  function Toggle(st: ThemeState): (r: ThemeState)
    ensures r.isDark == !st.isDark
    ensures r.stored == Some("dark") <==> r.isDark
    ensures r.stored.Some? && r.stored.value in {"dark", "light"}
    ensures r.darkClass == r.isDark
  {
    var dark := !st.isDark;
    ThemeState(dark, Some(ThemeName(dark)), dark)
  }

  /** The state a toggle leaves: storage and class agree with `isDark`. */
  predicate Persisted(st: ThemeState) {
    st.stored == Some(ThemeName(st.isDark)) && st.darkClass == st.isDark
  }

  /** Two toggles restore a persisted state exactly, and every toggle leaves a persisted one. */
  lemma ToggleTwice(st: ThemeState)
    ensures Persisted(Toggle(st))
    ensures Persisted(st) ==> Toggle(Toggle(st)) == st
  {
  }

  /** After a toggle, mounting again (a reload) resolves the same theme from storage, whatever
      the system preference and the class left on the element. */
  lemma ToggleSurvivesReload(st: ThemeState, systemDark: bool, darkClass: bool)
    ensures Mount(Toggle(st).stored, systemDark, darkClass).isDark == Toggle(st).isDark
  {
  }
}

/**
 * The theme applied on page load: dark when the stored theme says so, or
 * when nothing usable is stored and the system prefers dark.
 */
module ThemeProvider {
  import opened JsText
  import opened Dom

  /** The decision shared by the provider and the toggle: a stored "dark"
      wins, any other non-empty stored value means light, and an absent or
      empty one defers to the system preference. */
  function ShouldBeDark(saved: Option<string>, prefersDark: bool): (dark: bool)
    ensures saved == Some("dark") ==> dark
    ensures saved.Some? && saved.value != "" && saved.value != "dark" ==> !dark
    ensures saved.None? || saved.value == "" ==> dark == prefersDark
  {
    saved == Some("dark") || ((saved.None? || saved.value == "") && prefersDark)
  }

  /** An empty stored value counts as no stored value. */
  lemma EmptyIsUnset(prefersDark: bool)
    ensures ShouldBeDark(Some(""), prefersDark) == ShouldBeDark(None, prefersDark)
  {
  }

  /** The load-time effect: the root gets the class "dark" exactly when the
      decision is dark; no other class and nothing stored changes. */
  method ApplySavedTheme(doc: Document, prefersDark: bool)
    modifies doc
    ensures "dark" in doc.rootClasses <==> ShouldBeDark(old(doc.GetItem(ThemeKey)), prefersDark)
    ensures doc.rootClasses - {"dark"} == old(doc.rootClasses) - {"dark"}
    ensures doc.storage == old(doc.storage) && doc.bodyOverflow == old(doc.bodyOverflow)
  {
    var savedTheme := doc.GetItem(ThemeKey);
    var shouldBeDark := ShouldBeDark(savedTheme, prefersDark);
    if shouldBeDark {
      doc.rootClasses := doc.rootClasses + {"dark"};
    } else {
      doc.rootClasses := doc.rootClasses - {"dark"};
    }
  }
}

/**
 * The theme toggle button: it takes the load-time decision on mount, and
 * each press flips the theme, stores it and updates the root classes.
 */
module ThemeToggle {
  import opened JsText
  import opened Dom
  import opened ThemeProvider

  const Transition := "theme-transition"

  /** What a toggle reads and writes: its own `isDark`, the root classes and
      the storage. */
  datatype Look = Look(isDark: bool, classes: set<string>, storage: map<string, string>)

  /** The look after one press: the flag flips, the transition class is
      added, "dark" follows the new flag and the storage names it. */
  function Toggled(l: Look): (t: Look)
    ensures t.isDark == !l.isDark
    ensures "dark" in t.classes <==> t.isDark
    ensures Transition in t.classes
    ensures t.classes - {"dark", Transition} == l.classes - {"dark", Transition}
    ensures ThemeKey in t.storage && t.storage[ThemeKey] == (if t.isDark then "dark" else "light")
    ensures forall k :: k in l.storage && k != ThemeKey ==> k in t.storage && t.storage[k] == l.storage[k]
    ensures forall k :: k in t.storage ==> k == ThemeKey || k in l.storage
  {
    var dark := !l.isDark;
    var classes := l.classes + {Transition};
    Look(dark,
         if dark then classes + {"dark"} else classes - {"dark"},
         l.storage[ThemeKey := if dark then "dark" else "light"])
  }

  /** Two presses give back the flag and the "dark" class, and leave the
      storage naming the theme the page started with. */
  lemma ToggleTwice(l: Look)
    requires "dark" in l.classes <==> l.isDark
    ensures Toggled(Toggled(l)).isDark == l.isDark
    ensures "dark" in Toggled(Toggled(l)).classes <==> "dark" in l.classes
    ensures Toggled(Toggled(l)).storage[ThemeKey] == (if l.isDark then "dark" else "light")
  {
  }

  /** A press is remembered: on the next load the stored value alone decides
      the theme, whatever the system prefers. */
  lemma ToggleSurvivesReload(l: Look, prefersDark: bool)
    ensures ShouldBeDark(Some(Toggled(l).storage[ThemeKey]), prefersDark) == Toggled(l).isDark
  {
  }

  class Toggle {
    var isDark: bool
    const doc: Document

    constructor (doc: Document)
      ensures !isDark && this.doc == doc
    {
      isDark := false;
      this.doc := doc;
    }

    /** The mount effect: the same decision as on page load, kept in the
        button's state and applied to the root. */
    method Mount(prefersDark: bool)
      modifies this, doc
      ensures isDark == ShouldBeDark(old(doc.GetItem(ThemeKey)), prefersDark)
      ensures "dark" in doc.rootClasses <==> isDark
      ensures doc.rootClasses - {"dark"} == old(doc.rootClasses) - {"dark"}
      ensures doc.storage == old(doc.storage) && doc.bodyOverflow == old(doc.bodyOverflow)
    {
      var savedTheme := doc.GetItem(ThemeKey);
      var shouldBeDark := ShouldBeDark(savedTheme, prefersDark);
      isDark := shouldBeDark;
      if shouldBeDark {
        doc.rootClasses := doc.rootClasses + {"dark"};
      } else {
        doc.rootClasses := doc.rootClasses - {"dark"};
      }
    }

    /** One press. */
    method ToggleTheme()
      modifies this, doc
      ensures Look(isDark, doc.rootClasses, doc.storage)
                == Toggled(Look(old(isDark), old(doc.rootClasses), old(doc.storage)))
      ensures doc.bodyOverflow == old(doc.bodyOverflow)
    {
      var newTheme := !isDark;
      isDark := newTheme;
      doc.rootClasses := doc.rootClasses + {Transition};
      if newTheme {
        doc.rootClasses := doc.rootClasses + {"dark"};
        doc.storage := doc.storage[ThemeKey := "dark"];
      } else {
        doc.rootClasses := doc.rootClasses - {"dark"};
        doc.storage := doc.storage[ThemeKey := "light"];
      }
    }
  }
}

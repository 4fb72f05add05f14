/**
 * The parts of the browser the components write to: the class list of the
 * root element, `localStorage`, and the `overflow` style of the body.
 */
module Dom {
  import opened JsText

  /** The storage key under which the chosen theme is kept. */
  const ThemeKey := "theme"

  class Document {
    /** `document.documentElement.classList`. */
    var rootClasses: set<string>
    /** `localStorage`. */
    var storage: map<string, string>
    /** `document.body.style.overflow`. */
    var bodyOverflow: string

    constructor (rootClasses: set<string>, storage: map<string, string>)
      ensures this.rootClasses == rootClasses && this.storage == storage && bodyOverflow == ""
    {
      this.rootClasses := rootClasses;
      this.storage := storage;
      bodyOverflow := "";
    }

    /** `localStorage.getItem(key)`: None when nothing is stored. */
    function GetItem(key: string): (v: Option<string>)
      reads this
      ensures v.Some? <==> key in storage
      ensures v.Some? ==> v.value == storage[key]
    {
      if key in storage then Some(storage[key]) else None
    }
  }
}

/**
 * The mobile menu: a panel that opens and closes, locks the page's scroll
 * while open, closes on Escape, on the backdrop, on its close button and
 * after a navigation, and highlights the active section's item.
 *
 * The `onNavigate` callback is recorded in `navigated`.
 */
module MobileMenu {
  import opened Dom
  import Page

  const MenuItems: seq<string> := ["home", "about", "journey", "projects", "skills", "contact"]

  /** The lock the open-state effect keeps on the body. */
  function OverflowFor(isOpen: bool): (o: string)
    ensures o == "hidden" <==> isOpen
    ensures !isOpen ==> o == ""
  {
    if isOpen then "hidden" else ""
  }

  class Menu {
    var isOpen: bool
    var navigated: seq<string>
    const doc: Document

    /** The body is locked exactly while the menu is open. */
    predicate Valid()
      reads this, doc
    {
      doc.bodyOverflow == OverflowFor(isOpen)
    }

    /** The menu starts closed, and the first run of the effect clears the
        lock. */
    constructor (doc: Document)
      modifies doc
      ensures Valid() && !isOpen && navigated == [] && this.doc == doc
      ensures doc.rootClasses == old(doc.rootClasses) && doc.storage == old(doc.storage)
    {
      isOpen := false;
      navigated := [];
      this.doc := doc;
      doc.bodyOverflow := "";
    }

    /** A state change followed by the effect's cleanup and re-run. */
    method SetOpen(open: bool)
      modifies this, doc
      ensures isOpen == open && Valid() && navigated == old(navigated)
      ensures doc.rootClasses == old(doc.rootClasses) && doc.storage == old(doc.storage)
    {
      isOpen := open;
      doc.bodyOverflow := "";
      if open {
        doc.bodyOverflow := "hidden";
      }
    }

    /** The menu button. */
    method ToggleOpen()
      modifies this, doc
      ensures isOpen == !old(isOpen) && Valid() && navigated == old(navigated)
      ensures doc.rootClasses == old(doc.rootClasses) && doc.storage == old(doc.storage)
    {
      SetOpen(!isOpen);
    }

    /** The backdrop and the close button. */
    method Close()
      modifies this, doc
      ensures !isOpen && Valid() && navigated == old(navigated)
      ensures doc.rootClasses == old(doc.rootClasses) && doc.storage == old(doc.storage)
    {
      SetOpen(false);
    }

    /** A menu item: passes its id on, then closes the menu. */
    method HandleNavigate(section: string)
      modifies this, doc
      ensures navigated == old(navigated) + [section] && !isOpen && Valid()
      ensures doc.rootClasses == old(doc.rootClasses) && doc.storage == old(doc.storage)
    {
      navigated := navigated + [section];
      SetOpen(false);
    }

    /** A key press: Escape closes an open menu; anything else, or Escape on
        a closed menu, changes nothing. */
    method HandleKey(key: string)
      requires Valid()
      modifies this, doc
      ensures isOpen == (old(isOpen) && key != "Escape") && Valid() && navigated == old(navigated)
      ensures doc.rootClasses == old(doc.rootClasses) && doc.storage == old(doc.storage)
      ensures !(key == "Escape" && old(isOpen)) ==> doc.bodyOverflow == old(doc.bodyOverflow)
    {
      if key == "Escape" && isOpen {
        SetOpen(false);
      }
    }

    /** Unmounting runs the cleanup, which always releases the lock. */
    method Unmount()
      modifies doc
      ensures doc.bodyOverflow == ""
      ensures doc.rootClasses == old(doc.rootClasses) && doc.storage == old(doc.storage)
    {
      doc.bodyOverflow := "";
    }
  }

  /** Whatever section is active, at most one menu item is highlighted,
      and one is exactly when the section has an item. "achievements" has a
      desktop nav button but no menu item, so it lights up nothing here. */
  lemma MenuHighlight(active: string)
    ensures forall i, j ::
              (0 <= i < |MenuItems| && 0 <= j < |MenuItems|
               && Page.Highlights(MenuItems, active)[i] && Page.Highlights(MenuItems, active)[j]) ==> i == j
    ensures (exists i :: 0 <= i < |MenuItems| && Page.Highlights(MenuItems, active)[i]) <==> active in MenuItems
    ensures "achievements" in Page.NavItems
    ensures active == "achievements" ==> forall i :: 0 <= i < |MenuItems| ==> !Page.Highlights(MenuItems, active)[i]
  {
    assert Page.Distinct(MenuItems);
    Page.OneHighlight(MenuItems, active);
  }
}

/**
 * The home page's navigation rules: which section is active for a scroll
 * position, the keyboard shortcuts, scrolling to a section (and recording
 * it in the history), the nav highlight, the tech-badge overflow and the
 * staggered reveal of sections.
 *
 * The document is a `Layout`: the elements `getElementById` finds, keyed by
 * id, with their `offsetTop` and `offsetHeight`.
 */
module Page {
  import opened JsText

  /** The sections the scroll handler looks at, in the order it tries them. */
  const Sections: seq<string> := [
    "home", "about", "journey", "projects", "github-stats", "freelance",
    "opensource", "skills", "resume", "achievements", "job-match", "contact"]

  /** The ids of the desktop navigation buttons. */
  const NavItems: seq<string> := ["home", "about", "journey", "projects", "skills", "achievements", "contact"]

  /** How far below the top of the viewport a section must reach to count
      as the one being read. */
  const ScrollOffset := 100

  datatype Box = Box(offsetTop: int, offsetHeight: int)

  type Layout = map<string, Box>

  /** `id` is on the page and its half-open box contains `pos`. */
  predicate Hit(layout: Layout, id: string, pos: int) {
    id in layout && layout[id].offsetTop <= pos < layout[id].offsetTop + layout[id].offsetHeight
  }

  /** The first of `ids` hit at `pos`. */
  function FirstHit(ids: seq<string>, layout: Layout, pos: int): (r: Option<nat>)
    ensures r.Some? ==> r.value < |ids| && Hit(layout, ids[r.value], pos)
    ensures r.Some? ==> forall k :: 0 <= k < r.value ==> !Hit(layout, ids[k], pos)
    ensures r.None? ==> forall k :: 0 <= k < |ids| ==> !Hit(layout, ids[k], pos)
  {
    if ids == [] then None
    else if Hit(layout, ids[0], pos) then Some(0)
    else match FirstHit(ids[1..], layout, pos)
      case Some(k) => Some(k + 1)
      case None => None
  }

  /** A position at the very end of a section's box does not select it. */
  lemma EndIsExclusive(layout: Layout, id: string)
    requires id in layout
    ensures !Hit(layout, id, layout[id].offsetTop + layout[id].offsetHeight)
  {
  }

  /** The section a key press leads to: h/H home and c/C contact, unless
      the key was typed into a text input or text area. */
  function KeyTarget(key: string, targetTag: string): (t: Option<string>)
    ensures t.Some? <==> (key in ["h", "H", "c", "C"] && targetTag !in ["INPUT", "TEXTAREA"])
    ensures t.Some? ==> t.value == (if key in ["h", "H"] then "home" else "contact")
  {
    if targetTag == "INPUT" || targetTag == "TEXTAREA" then None
    else if key == "h" || key == "H" then Some("home")
    else if key == "c" || key == "C" then Some("contact")
    else None
  }

  class Portfolio {
    var activeSection: string
    /** The URL hashes pushed to the history, oldest first. */
    var history: seq<string>
    /** The sections scrolled into view, oldest first. */
    var scrolled: seq<string>

    constructor ()
      ensures activeSection == "home" && history == [] && scrolled == []
    {
      activeSection := "home";
      history := [];
      scrolled := [];
    }

    /** The scroll handler: the first section, in list order, whose box
        contains `scrollY + 100` becomes active; when none does, the active
        section stays. */
    method HandleScroll(layout: Layout, scrollY: int)
      modifies this
      ensures FirstHit(Sections, layout, scrollY + ScrollOffset).Some? ==>
                activeSection == Sections[FirstHit(Sections, layout, scrollY + ScrollOffset).value]
      ensures FirstHit(Sections, layout, scrollY + ScrollOffset).None? ==> activeSection == old(activeSection)
      ensures history == old(history) && scrolled == old(scrolled)
    {
      var scrollPosition := scrollY + ScrollOffset;
      var i := 0;
      while i < |Sections|
        invariant 0 <= i <= |Sections|
        invariant forall k :: 0 <= k < i ==> !Hit(layout, Sections[k], scrollPosition)
        invariant activeSection == old(activeSection)
      {
        var section := Sections[i];
        if section in layout {
          var box := layout[section];
          if scrollPosition >= box.offsetTop && scrollPosition < box.offsetTop + box.offsetHeight {
            activeSection := section;
            FirstHitIsFirst(Sections, layout, scrollPosition, i);
            break;
          }
        }
        i := i + 1;
      }
      if i == |Sections| {
        FirstHitNone(Sections, layout, scrollPosition);
      }
    }

    /** Scrolls to a section and pushes `#id`, only when it is on the page. */
    method ScrollToSection(layout: Layout, id: string)
      modifies this
      ensures id in layout ==> history == old(history) + ["#" + id] && scrolled == old(scrolled) + [id]
      ensures id !in layout ==> history == old(history) && scrolled == old(scrolled)
      ensures activeSection == old(activeSection)
    {
      if id in layout {
        scrolled := scrolled + [id];
        history := history + ["#" + id];
      }
    }

    /** The keyboard handler. */
    method HandleKeyPress(layout: Layout, key: string, targetTag: string)
      modifies this
      ensures KeyTarget(key, targetTag).Some? && KeyTarget(key, targetTag).value in layout ==>
                history == old(history) + ["#" + KeyTarget(key, targetTag).value]
                && scrolled == old(scrolled) + [KeyTarget(key, targetTag).value]
      ensures KeyTarget(key, targetTag).None? || KeyTarget(key, targetTag).value !in layout ==>
                history == old(history) && scrolled == old(scrolled)
      ensures activeSection == old(activeSection)
    {
      if key == "h" || key == "H" {
        if targetTag != "INPUT" && targetTag != "TEXTAREA" {
          ScrollToSection(layout, "home");
        }
      }
      if key == "c" || key == "C" {
        if targetTag != "INPUT" && targetTag != "TEXTAREA" {
          ScrollToSection(layout, "contact");
        }
      }
    }
  }

  lemma {:induction false} FirstHitIsFirst(ids: seq<string>, layout: Layout, pos: int, i: nat)
    requires i < |ids| && Hit(layout, ids[i], pos)
    requires forall k :: 0 <= k < i ==> !Hit(layout, ids[k], pos)
    ensures FirstHit(ids, layout, pos) == Some(i)
  {
    if i > 0 {
      FirstHitIsFirst(ids[1..], layout, pos, i - 1);
    }
  }

  lemma {:induction false} FirstHitNone(ids: seq<string>, layout: Layout, pos: int)
    requires forall k :: 0 <= k < |ids| ==> !Hit(layout, ids[k], pos)
    ensures FirstHit(ids, layout, pos) == None
  {
    if ids != [] {
      FirstHitNone(ids[1..], layout, pos);
    }
  }

  /** Whether each nav button is highlighted for the active section. */
  function Highlights(items: seq<string>, active: string): (h: seq<bool>)
    ensures |h| == |items| && forall i :: 0 <= i < |items| ==> (h[i] <==> items[i] == active)
  {
    seq(|items|, i requires 0 <= i < |items| => items[i] == active)
  }

  /** No id appears twice. */
  predicate Distinct(items: seq<string>) {
    forall i, j :: 0 <= i < j < |items| ==> items[i] != items[j]
  }

  /** With distinct ids, exactly one button lights up for a section that
      has one, and none for a section that has none. */
  lemma OneHighlight(items: seq<string>, active: string)
    requires Distinct(items)
    ensures active in items ==>
              exists i :: 0 <= i < |items| && Highlights(items, active)[i]
                && (forall j :: 0 <= j < |items| && j != i ==> !Highlights(items, active)[j])
    ensures active !in items ==> forall i :: 0 <= i < |items| ==> !Highlights(items, active)[i]
  {
    if active in items {
      var i :| 0 <= i < |items| && items[i] == active;
      var h := Highlights(items, active);
      assert h[i] && forall j :: 0 <= j < |items| && j != i ==> !h[j];
    }
  }

  /** The desktop nav has one button per id; sections it leaves out, such
      as "freelance", light up no button. */
  lemma NavHighlight()
    ensures Distinct(NavItems)
    ensures "freelance" in Sections && "freelance" !in NavItems
  {
  }

  /** The badges shown for a project's technologies: the first four. */
  function ShownBadges(tech: seq<string>): (b: seq<string>)
    ensures |b| == if |tech| < 4 then |tech| else 4
    ensures b == tech[..|b|]
  {
    if |tech| <= 4 then tech else tech[..4]
  }

  /** The number in the "+n more" badge, present only past four. */
  function Overflow(tech: seq<string>): (n: Option<nat>)
    ensures n.Some? <==> |tech| > 4
  {
    if |tech| > 4 then Some(|tech| - 4) else None
  }

  /** Every technology is either shown or counted in the overflow badge. */
  lemma BadgesAccountForAll(tech: seq<string>)
    ensures |ShownBadges(tech)| + (if Overflow(tech).Some? then Overflow(tech).value else 0) == |tech|
  {
  }

  /** The reveal delay, in milliseconds, of the `i`-th section ref. */
  function RevealDelay(i: nat): (d: nat)
    ensures d >= 100
  {
    100 + i * 50
  }

  /** One reveal request: which ref, and after how many milliseconds. */
  datatype Reveal = Reveal(index: nat, delay: nat)

  /** The reveal loop over the refs: each mounted ref is revealed with its
      own delay; unmounted refs are skipped. The result lists the reveals in
      the order they are requested. */
  method RevealAll(mounted: seq<bool>) returns (requested: seq<Reveal>)
    ensures forall e :: e in requested <==> e.index < |mounted| && mounted[e.index] && e.delay == RevealDelay(e.index)
    ensures forall a, b :: 0 <= a < b < |requested| ==>
              requested[a].index < requested[b].index && requested[a].delay < requested[b].delay
  {
    requested := [];
    for index := 0 to |mounted|
      invariant forall e :: e in requested <==> e.index < index && mounted[e.index] && e.delay == RevealDelay(e.index)
      invariant forall a, b :: 0 <= a < b < |requested| ==>
                  requested[a].index < requested[b].index && requested[a].delay < requested[b].delay
      invariant forall a :: 0 <= a < |requested| ==> requested[a].index < index
    {
      if mounted[index] {
        requested := requested + [Reveal(index, RevealDelay(index))];
      }
    }
  }
}

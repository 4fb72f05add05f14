/**
 * The animation helpers: each one does nothing for a missing element, and
 * otherwise starts an animation on it. `textReveal` first rewrites the
 * element's markup into one inline-block span per character.
 *
 * The animation library is not modelled: a started animation is recorded
 * on the element with the parameters that vary between calls.
 */
module Animations {
  import opened JsText

  datatype Animation =
    | FadeInUp(delay: real)
    | Parallax(speed: real)
    | ScaleOnScroll
    | TextReveal(spans: nat, delay: real)

  class Element {
    var textContent: Option<string>
    var innerHTML: string
    var animations: seq<Animation>

    constructor (textContent: Option<string>)
      ensures this.textContent == textContent && innerHTML == "" && animations == []
    {
      this.textContent := textContent;
      innerHTML := "";
      animations := [];
    }
  }

  /** The objects a helper may touch: the element, when there is one. */
  function Frame(element: Element?): set<object> {
    if element == null then {} else {element}
  }

  method FadeIn(element: Element?, delay: real)
    modifies Frame(element)
    ensures element != null ==> element.animations == old(element.animations) + [FadeInUp(delay)]
    ensures element != null ==> element.innerHTML == old(element.innerHTML)
    ensures element != null ==> element.textContent == old(element.textContent)
  {
    if element == null {
      return;
    }
    element.animations := element.animations + [FadeInUp(delay)];
  }

  method ParallaxOn(element: Element?, speed: real)
    modifies Frame(element)
    ensures element != null ==> element.animations == old(element.animations) + [Parallax(speed)]
    ensures element != null ==> element.innerHTML == old(element.innerHTML)
    ensures element != null ==> element.textContent == old(element.textContent)
  {
    if element == null {
      return;
    }
    element.animations := element.animations + [Parallax(speed)];
  }

  method ScaleOn(element: Element?)
    modifies Frame(element)
    ensures element != null ==> element.animations == old(element.animations) + [ScaleOnScroll]
    ensures element != null ==> element.innerHTML == old(element.innerHTML)
    ensures element != null ==> element.textContent == old(element.textContent)
  {
    if element == null {
      return;
    }
    element.animations := element.animations + [ScaleOnScroll];
  }

  const SpanOpen := "<span style=\"display:inline-block\">"
  const SpanClose := "</span>"
  const Nbsp := "&nbsp;"

  /** The span of one character: a space becomes `&nbsp;`, anything else
      goes in as it is, unescaped. */
  function Span(c: char): (s: string)
    ensures c == ' ' ==> s == SpanOpen + Nbsp + SpanClose
    ensures c != ' ' ==> s == SpanOpen + [c] + SpanClose
  {
    SpanOpen + (if c == ' ' then Nbsp else [c]) + SpanClose
  }

  /** The markup `textReveal` writes: the spans of the characters, in
      order, joined with nothing between them. */
  function RevealMarkup(text: string): (m: string)
    ensures text == [] <==> m == []
  {
    if text == [] then [] else Span(text[0]) + RevealMarkup(text[1..])
  }

  /** Reads markup written by `RevealMarkup` back into text: one character
      per span, `&nbsp;` standing for a space. */
  function ReadSpans(m: string): Option<string>
    decreases |m|
  {
    if m == [] then Some([])
    else if |m| < |SpanOpen| || m[..|SpanOpen|] != SpanOpen then None
    else
      var body := m[|SpanOpen|..];
      var nbsp := Nbsp + SpanClose;
      if |body| >= |nbsp| && body[..|nbsp|] == nbsp then
        Prepend(' ', ReadSpans(body[|nbsp|..]))
      else if |body| >= 1 + |SpanClose| && body[1..1 + |SpanClose|] == SpanClose then
        Prepend(body[0], ReadSpans(body[1 + |SpanClose|..]))
      else None
  }

  lemma ReadSpan(c: char, rest: string)
    ensures ReadSpans(Span(c) + rest) == Prepend(c, ReadSpans(rest))
  {
    var m := Span(c) + rest;
    assert m[..|SpanOpen|] == SpanOpen;
    var body := m[|SpanOpen|..];
    var nbsp := Nbsp + SpanClose;
    if c == ' ' {
      assert body == nbsp + rest;
      assert body[..|nbsp|] == nbsp;
      assert body[|nbsp|..] == rest;
    } else {
      assert body == [c] + SpanClose + rest;
      assert !(|body| >= |nbsp| && body[..|nbsp|] == nbsp) by {
        if |body| >= |nbsp| {
          assert body[1] == SpanClose[0] && nbsp[1] == 'n';
        }
      }
      assert body[1..1 + |SpanClose|] == SpanClose;
      assert body[1 + |SpanClose|..] == rest;
    }
  }

  /** Reading the spans back gives the original text, character for
      character, so there is exactly one span per character. */
  lemma {:induction false} RevealRoundTrip(text: string)
    ensures ReadSpans(RevealMarkup(text)) == Some(text)
  {
    if text != [] {
      ReadSpan(text[0], RevealMarkup(text[1..]));
      RevealRoundTrip(text[1..]);
      assert [text[0]] + text[1..] == text;
    }
  }

  /** The characters `textReveal` splits: none when `textContent` is null. */
  function RevealedText(content: Option<string>): (t: string)
    ensures content.None? ==> t == []
    ensures content.Some? ==> t == content.value
  {
    if content.Some? then content.value else []
  }

  /** `textReveal`: the element's markup becomes the spans of its text (so
      an empty or missing text leaves it empty) and the spans are
      animated. */
  method TextRevealOn(element: Element?, delay: real)
    modifies Frame(element)
    ensures element != null ==> element.innerHTML == RevealMarkup(RevealedText(old(element.textContent)))
    ensures element != null ==>
              element.animations == old(element.animations) + [TextReveal(|RevealedText(old(element.textContent))|, delay)]
  {
    if element == null {
      return;
    }
    var chars := RevealedText(element.textContent);
    element.innerHTML := RevealMarkup(chars);
    element.animations := element.animations + [TextReveal(|chars|, delay)];
  }
}

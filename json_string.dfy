/**
 * `JSON.stringify` of a string (the QuoteJSONString operation of ECMAScript)
 * and the matching decoder of a JSON string literal, as far as the chat
 * endpoint's `{content: text}` frames need them.
 *
 * Lone surrogate code units, which `JSON.stringify` writes as `\uXXXX`, are
 * not representable here.
 */
module JsonString {
  import opened JsText

  function HexDigit(d: nat): (c: char)
    requires d < 16
  {
    if d < 10 then ('0' as int + d) as char else ('a' as int + d - 10) as char
  }

  predicate IsHex(c: char) {
    ('0' <= c <= '9') || ('a' <= c <= 'f') || ('A' <= c <= 'F')
  }

  function HexValue(c: char): (d: nat)
    requires IsHex(c)
    ensures d < 16
  {
    if '0' <= c <= '9' then (c as int) - ('0' as int)
    else if 'a' <= c <= 'f' then (c as int) - ('a' as int) + 10
    else (c as int) - ('A' as int) + 10
  }

  lemma HexRoundTrip(d: nat)
    requires d < 16
    ensures IsHex(HexDigit(d)) && HexValue(HexDigit(d)) == d
  {
  }

  /** One character as it appears inside a JSON string literal. */
  function EscapeChar(c: char): (r: string)
    ensures |r| >= 1
    ensures forall i :: 0 <= i < |r| ==> r[i] as int >= 0x20
  {
    var n := c as int;
    if n == 8 then "\\b"
    else if n == 9 then "\\t"
    else if n == 10 then "\\n"
    else if n == 12 then "\\f"
    else if n == 13 then "\\r"
    else if c == '"' then "\\\""
    else if c == '\\' then "\\\\"
    else if n < 0x20 then "\\u00" + [HexDigit(n / 16), HexDigit(n % 16)]
    else [c]
  }

  /** The characters between the quotes of `JSON.stringify(s)`: no control
      character, in particular no line break, survives. */
  function Escape(s: string): (r: string)
    ensures forall i :: 0 <= i < |r| ==> r[i] as int >= 0x20
  {
    if s == [] then [] else EscapeChar(s[0]) + Escape(s[1..])
  }

  /** `JSON.stringify(s)`. */
  function Quote(s: string): string {
    "\"" + Escape(s) + "\""
  }

  /** The character a two-character escape `\c` stands for. */
  function ShortEscape(c: char): Option<char> {
    if c == 'b' then Some(8 as char)
    else if c == 't' then Some('\t')
    else if c == 'n' then Some('\n')
    else if c == 'f' then Some(12 as char)
    else if c == 'r' then Some('\r')
    else if c == '"' || c == '\\' || c == '/' then Some(c)
    else None
  }

  /** Decoder of the characters between the quotes of a JSON string literal;
      None when they are not well formed. */
  function Unescape(e: string): Option<string>
    decreases |e|
  {
    if e == [] then Some([])
    else if e[0] == '\\' then
      if |e| < 2 then None
      else if e[1] == 'u' then
        if |e| >= 6 && IsHex(e[2]) && IsHex(e[3]) && IsHex(e[4]) && IsHex(e[5]) then
          var v := HexValue(e[2]) * 4096 + HexValue(e[3]) * 256 + HexValue(e[4]) * 16 + HexValue(e[5]);
          if 0xD800 <= v < 0xE000 then None else Prepend(v as char, Unescape(e[6..]))
        else None
      else
        match ShortEscape(e[1])
        case Some(d) => Prepend(d, Unescape(e[2..]))
        case None => None
    else if e[0] == '"' || (e[0] as int) < 0x20 then None
    else Prepend(e[0], Unescape(e[1..]))
  }

  lemma UnescapeChar(c: char, rest: string)
    ensures Unescape(EscapeChar(c) + rest) == Prepend(c, Unescape(rest))
  {
    var n := c as int;
    var e := EscapeChar(c) + rest;
    if n < 0x20 && n != 8 && n != 9 && n != 10 && n != 12 && n != 13 {
      HexRoundTrip(n / 16);
      HexRoundTrip(n % 16);
      assert e[0] == '\\' && e[1] == 'u' && e[2] == '0' && e[3] == '0';
      assert e[4] == HexDigit(n / 16) && e[5] == HexDigit(n % 16);
      assert e[6..] == rest;
    } else if n == 8 || n == 9 || n == 10 || n == 12 || n == 13 || c == '"' || c == '\\' {
      assert e[2..] == rest;
    } else {
      assert e[1..] == rest;
    }
  }

  /** Decoding undoes `JSON.stringify`. */
  lemma {:induction false} UnescapeEscape(s: string)
    ensures Unescape(Escape(s)) == Some(s)
  {
    if s != [] {
      UnescapeChar(s[0], Escape(s[1..]));
      UnescapeEscape(s[1..]);
      assert [s[0]] + s[1..] == s;
    }
  }

  /** `JSON.stringify({content: text})`. */
  function ContentObject(text: string): (r: string)
    ensures forall i :: 0 <= i < |r| ==> r[i] != '\n' && r[i] != '\r'
  {
    var r := "{\"content\":" + Quote(text) + "}";
    assert forall i :: 0 <= i < |r| ==> r[i] as int >= 0x20 by {
      var e := Escape(text);
      assert r == "{\"content\":\"" + e + "\"}";
      forall i | 0 <= i < |r| ensures r[i] as int >= 0x20 {
        if 12 <= i < 12 + |e| {
          assert r[i] == e[i - 12];
        }
      }
    }
    r
  }

  /** Reads back the `content` string of an object written as
      `ContentObject` writes it. */
  function ContentOf(p: string): Option<string> {
    var head := "{\"content\":\"";
    if |p| >= |head| + 2 && p[..|head|] == head && p[|p| - 2..] == "\"}" then
      Unescape(p[|head|..|p| - 2])
    else None
  }

  /** Reading the content back gives the text that was written. */
  lemma ContentRoundTrip(text: string)
    ensures ContentOf(ContentObject(text)) == Some(text)
  {
    var head := "{\"content\":\"";
    var e := Escape(text);
    var p := ContentObject(text);
    assert p == head + e + "\"}";
    assert p[..|head|] == head;
    assert p[|p| - 2..] == "\"}";
    assert p[|head|..|p| - 2] == e;
    UnescapeEscape(text);
  }
}

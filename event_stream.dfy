/**
 * How a client reads a `text/event-stream` body, after section 9.2.6
 * ("Interpreting an event stream") of the WHATWG HTML Living Standard: the
 * stream is cut into lines at CRLF, LF or CR; a blank line dispatches the
 * data gathered so far; a line starting with `:` is a comment; any other
 * line is `field: value`, and only the `data` field is kept here (the chat
 * endpoint sends no other field). An unterminated last line is discarded.
 */
module EventStream {
  import opened JsText

  predicate IsBreak(c: char) {
    c == '\n' || c == '\r'
  }

  /** Index of the first line break in `s`. */
  function LineBreak(s: string): (k: Option<nat>)
    ensures k.Some? ==> k.value < |s| && IsBreak(s[k.value])
    ensures k.Some? ==> forall j :: 0 <= j < k.value ==> !IsBreak(s[j])
    ensures k.None? ==> forall j :: 0 <= j < |s| ==> !IsBreak(s[j])
  {
    if s == [] then None
    else if IsBreak(s[0]) then Some(0)
    else match LineBreak(s[1..])
      case Some(k) => Some(k + 1)
      case None => None
  }

  /** The complete lines of `s`, without their terminators. */
  function Lines(s: string): seq<string>
    decreases |s|
  {
    match LineBreak(s)
    case None => []
    case Some(k) =>
      var width := if s[k] == '\r' && k + 1 < |s| && s[k + 1] == '\n' then 2 else 1;
      [s[..k]] + Lines(s[k + width..])
  }

  /** Field name and value of a non-comment line: split at the first colon,
      one space after the colon dropped. */
  function Field(line: string): (string, string) {
    match IndexOfFrom(line, ':', 0)
    case None => (line, [])
    case Some(k) =>
      var value := line[k + 1..];
      (line[..k], if value != [] && value[0] == ' ' then value[1..] else value)
  }

  /** The `data` of each event dispatched while reading `lines`, starting
      with the data buffer `buffer`. */
  function Dispatch(lines: seq<string>, buffer: string): seq<string>
    decreases |lines|
  {
    if lines == [] then []
    else if lines[0] == [] then
      if buffer == [] then Dispatch(lines[1..], [])
      else [buffer[..|buffer| - 1]] + Dispatch(lines[1..], [])
    else if lines[0][0] == ':' then Dispatch(lines[1..], buffer)
    else
      var (name, value) := Field(lines[0]);
      if name == "data" then Dispatch(lines[1..], buffer + value + "\n")
      else Dispatch(lines[1..], buffer)
  }

  /** The data of every event a client receives from the stream `s`. */
  function Events(s: string): seq<string> {
    Dispatch(Lines(s), [])
  }

  /** One `data:` event: `data: <payload>` and a blank line. */
  function DataFrame(payload: string): string {
    "data: " + payload + "\n\n"
  }

  lemma LineBreakAfterPlain(p: string, rest: string)
    requires forall i :: 0 <= i < |p| ==> !IsBreak(p[i])
    requires rest != [] && IsBreak(rest[0])
    ensures LineBreak(p + rest) == Some(|p|)
  {
    if p != [] {
      assert (p + rest)[1..] == p[1..] + rest;
      LineBreakAfterPlain(p[1..], rest);
    } else {
      assert p + rest == rest;
    }
  }

  /** A line ended by LF is one line, whatever follows. */
  lemma LineThenLF(line: string, rest: string)
    requires forall i :: 0 <= i < |line| ==> !IsBreak(line[i])
    ensures Lines(line + "\n" + rest) == [line] + Lines(rest)
  {
    var s := line + "\n" + rest;
    assert s == line + ("\n" + rest);
    LineBreakAfterPlain(line, "\n" + rest);
    assert s[|line|] == '\n';
    assert s[..|line|] == line;
    assert s[|line| + 1..] == rest;
  }

  /** A data frame whose payload holds no line break is exactly two lines. */
  lemma FrameLines(payload: string, rest: string)
    requires forall i :: 0 <= i < |payload| ==> !IsBreak(payload[i])
    ensures Lines(DataFrame(payload) + rest) == ["data: " + payload, ""] + Lines(rest)
  {
    var line := "data: " + payload;
    DataLinePlain(payload);
    FrameSplit(payload, rest);
    LineThenLF(line, "\n" + rest);
    BlankLine(rest);
  }

  lemma DataLinePlain(payload: string)
    requires forall i :: 0 <= i < |payload| ==> !IsBreak(payload[i])
    ensures forall i :: 0 <= i < |"data: " + payload| ==> !IsBreak(("data: " + payload)[i])
  {
    var line := "data: " + payload;
    forall i | 0 <= i < |line|
      ensures !IsBreak(line[i])
    {
      if i >= 6 {
        assert line[i] == payload[i - 6];
      }
    }
  }

  lemma FrameSplit(payload: string, rest: string)
    ensures DataFrame(payload) + rest == ("data: " + payload) + "\n" + ("\n" + rest)
  {
  }

  /** An empty line ends at once. */
  lemma BlankLine(rest: string)
    ensures Lines("\n" + rest) == [""] + Lines(rest)
  {
    LineThenLF([], rest);
    assert [] + "\n" + rest == "\n" + rest;
  }

  /** Those two lines dispatch exactly one event carrying the payload. */
  lemma FrameDispatch(payload: string, more: seq<string>)
    ensures Dispatch(["data: " + payload, ""] + more, []) == [payload] + Dispatch(more, [])
  {
    var lines := ["data: " + payload, ""] + more;
    var line := "data: " + payload;
    assert line[4] == ':';
    assert IndexOfFrom(line, ':', 0) == Some(4);
    assert line[..4] == "data";
    assert line[5..] == " " + payload;
    assert Field(line) == ("data", payload);
    assert lines[1..] == [""] + more;
    assert ([""] + more)[1..] == more;
    assert ([] + payload + "\n")[..|payload|] == payload;
  }

  /** A client reading frames back to back receives one event per frame,
      in order, each carrying its frame's payload. */
  lemma {:induction false} EventsOfFrames(payloads: seq<string>)
    requires forall k, i :: 0 <= k < |payloads| && 0 <= i < |payloads[k]| ==> !IsBreak(payloads[k][i])
    ensures Events(ConcatFrames(payloads)) == payloads
  {
    if payloads != [] {
      var p := payloads[0];
      var rest := ConcatFrames(payloads[1..]);
      FrameLines(p, rest);
      FrameDispatch(p, Lines(rest));
      EventsOfFrames(payloads[1..]);
      assert [p] + payloads[1..] == payloads;
    }
  }

  /** The frames of `payloads`, one after the other. */
  function ConcatFrames(payloads: seq<string>): string {
    if payloads == [] then [] else DataFrame(payloads[0]) + ConcatFrames(payloads[1..])
  }
}

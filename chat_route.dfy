/**
 * The chat endpoint: the prompt is the fixed system prompt followed by the
 * content of the last message only; the model's reply is streamed back as
 * an event stream with one `data:` frame per chunk.
 *
 * The system prompt (read once at module load) is a parameter; the model
 * call is an outcome handed in: either the chunk texts it streams (and,
 * when reading the stream throws part-way, what it threw), or a failure
 * before any response exists.
 */
module ChatRoute {
  import opened JsText
  import opened JsonString
  import opened EventStream

  datatype Message = Message(role: string, content: Option<string>)

  /** A template string shows a missing `content` as "undefined". */
  function ContentText(content: Option<string>): string {
    match content
    case Some(t) => t
    case None => "undefined"
  }

  /** `${systemPrompt}\n\nUser: ${lastMessage.content}\n\nAssistant:`: the
      system prompt, then the last turn, which can be read back from between
      the fixed markers. */
  function BuildPrompt(system: string, last: Message): (p: string)
    ensures |p| == |system| + 8 + |ContentText(last.content)| + 12
    ensures p[..|system|] == system
    ensures p[|system|..|system| + 8] == "\n\nUser: "
    ensures p[|system| + 8..|p| - 12] == ContentText(last.content)
    ensures p[|p| - 12..] == "\n\nAssistant:"
  {
    system + "\n\nUser: " + ContentText(last.content) + "\n\nAssistant:"
  }

  /** The prompt for a conversation: built from its last message alone;
      there is none for an empty conversation, where reading the last
      message's `content` throws. */
  function PromptOf(system: string, messages: seq<Message>): (p: Option<string>)
    ensures p.None? <==> messages == []
    ensures p.Some? ==> p.value == BuildPrompt(system, messages[|messages| - 1])
  {
    if messages == [] then None else Some(BuildPrompt(system, messages[|messages| - 1]))
  }

  /** Earlier turns never reach the model: a conversation gives the same
      prompt as its last message alone, and two conversations that end in
      the same message give the same prompt. */
  lemma OnlyLastTurnCounts(system: string, earlier: seq<Message>, last: Message, other: seq<Message>)
    requires other != [] && other[|other| - 1] == last
    ensures PromptOf(system, earlier + [last]) == PromptOf(system, [last])
    ensures PromptOf(system, earlier + [last]) == PromptOf(system, other)
  {
  }

  /** The frame enqueued for one chunk of the reply. */
  function Frame(text: string): string {
    DataFrame(ContentObject(text))
  }

  function Frames(texts: seq<string>): (f: seq<string>)
    ensures |f| == |texts| && forall i :: 0 <= i < |texts| ==> f[i] == Frame(texts[i])
  {
    seq(|texts|, i requires 0 <= i < |texts| => Frame(texts[i]))
  }

  /** The body bytes a client reads: the enqueued frames back to back. */
  function Concat(chunks: seq<string>): string {
    if chunks == [] then [] else chunks[0] + Concat(chunks[1..])
  }

  /** How a readable stream ends: still open, closed by its source, or
      errored because its `start` rejected. */
  datatype StreamState = Open | Closed | Errored(reason: JsError)

  /** The ending a stream's `start` reaches: closed when the model's stream
      ran out, errored with what was thrown otherwise. */
  function Ending(failure: Option<JsError>): (s: StreamState)
    ensures s != Open
    ensures s == Closed <==> failure.None?
    ensures failure.Some? ==> s == Errored(failure.value)
  {
    match failure
    case None => Closed
    case Some(e) => Errored(e)
  }

  /** The readable side of the response body: what was enqueued, and how
      the stream ended. */
  class StreamController {
    var queue: seq<string>
    var state: StreamState

    constructor ()
      ensures queue == [] && state == Open
    {
      queue := [];
      state := Open;
    }

    method Enqueue(chunk: string)
      requires state == Open
      modifies this
      ensures queue == old(queue) + [chunk] && state == Open
    {
      queue := queue + [chunk];
    }

    method Close()
      requires state == Open
      modifies this
      ensures state == Closed && queue == old(queue)
    {
      state := Closed;
    }

    /** What a rejected `start` does to the stream: it ends in error and
        is never closed. `queue` keeps every frame enqueued before; the
        stream itself drops those the client had not read yet. */
    method Error(reason: JsError)
      requires state == Open
      modifies this
      ensures state == Errored(reason) && queue == old(queue)
    {
      state := Errored(reason);
    }
  }

  /** The stream's `start`: one frame per chunk, in order; then close, or,
      when reading the model's stream threw after those chunks, error. */
  method Start(controller: StreamController, texts: seq<string>, failure: Option<JsError>)
    requires controller.state == Open
    modifies controller
    ensures controller.queue == old(controller.queue) + Frames(texts)
    ensures controller.state == Ending(failure)
  {
    for i := 0 to |texts|
      invariant controller.queue == old(controller.queue) + Frames(texts[..i])
      invariant controller.state == Open
    {
      assert Frames(texts[..i + 1]) == Frames(texts[..i]) + [Frame(texts[i])];
      controller.Enqueue(Frame(texts[i]));
    }
    assert texts[..|texts|] == texts;
    if failure.None? {
      controller.Close();
    } else {
      controller.Error(failure.value);
    }
  }

  /** What the model call did: it streamed `chunks`, and reading on threw
      `failure` (None when the stream ran out normally); or it threw before
      streaming. */
  datatype Generation = Streamed(chunks: seq<string>, failure: Option<JsError>) | ModelThrew

  datatype ChatResponse =
    | EventStreamResponse(headers: seq<(string, string)>, frames: seq<string>, ending: StreamState)
    | ErrorResponse(status: nat, error: string)

  const StreamHeaders: seq<(string, string)> :=
    [("Content-Type", "text/event-stream"), ("Cache-Control", "no-cache"), ("Connection", "keep-alive")]

  const ChatFailed := "Failed to process chat request"

  /** `POST /api/chat`. `messages` is None when the body is not JSON; an
      empty list makes `lastMessage.content` throw, which lands in the same
      error response. A failure while streaming comes after the response
      was returned: it errors the stream and never turns into a 500. */
  method Post(messages: Option<seq<Message>>, system: string, generation: Generation)
    returns (response: ChatResponse, prompt: Option<string>)
    ensures prompt == (if messages.None? then None else PromptOf(system, messages.value))
    ensures prompt.None? ==> response == ErrorResponse(500, ChatFailed)
    ensures prompt.Some? && generation.ModelThrew? ==> response == ErrorResponse(500, ChatFailed)
    ensures prompt.Some? && generation.Streamed? ==>
              response == EventStreamResponse(StreamHeaders, Frames(generation.chunks), Ending(generation.failure))
  {
    if messages.None? || messages.value == [] {
      return ErrorResponse(500, ChatFailed), None;
    }
    prompt := PromptOf(system, messages.value);
    match generation
    case ModelThrew =>
      response := ErrorResponse(500, ChatFailed);
    case Streamed(chunks, failure) =>
      var controller := new StreamController();
      Start(controller, chunks, failure);
      response := EventStreamResponse(StreamHeaders, controller.queue, controller.state);
  }

  lemma {:induction false} ConcatFramesOf(texts: seq<string>)
    ensures Concat(Frames(texts)) == ConcatFrames(seq(|texts|, i requires 0 <= i < |texts| => ContentObject(texts[i])))
  {
    if texts != [] {
      ConcatFramesOf(texts[1..]);
      assert Frames(texts)[1..] == Frames(texts[1..]);
      var payloads := seq(|texts|, i requires 0 <= i < |texts| => ContentObject(texts[i]));
      assert payloads[1..] == seq(|texts| - 1, i requires 0 <= i < |texts| - 1 => ContentObject(texts[1..][i]));
    }
  }

  /** A client reading the streamed body receives exactly one event per
      chunk, in chunk order, and reading its `content` back gives the chunk's
      text. */
  lemma ClientReceivesEachChunk(texts: seq<string>)
    ensures |Events(Concat(Frames(texts)))| == |texts|
    ensures forall i :: 0 <= i < |texts| ==> ContentOf(Events(Concat(Frames(texts)))[i]) == Some(texts[i])
  {
    var payloads := seq(|texts|, i requires 0 <= i < |texts| => ContentObject(texts[i]));
    ConcatFramesOf(texts);
    EventsOfFrames(payloads);
    forall i | 0 <= i < |texts|
      ensures ContentOf(payloads[i]) == Some(texts[i])
    {
      ContentRoundTrip(texts[i]);
    }
  }
}

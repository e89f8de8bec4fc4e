/**
 * The part both streaming endpoints share: the `for await` loop that turns
 * the backend's events into frames on the response stream, then exactly one
 * terminal frame.
 */
module Gateway {
  import opened Wrappers
  import opened Sse
  import opened Claude

  /** The two fixed system prompts, kept opaque. */
  datatype SystemPrompt = GenerationSystemPrompt | IterationSystemPrompt

  /** The arguments of the backend's `messages.stream` call. */
  datatype BackendRequest = BackendRequest(model: string, maxTokens: nat, system: SystemPrompt, messages: seq<MessageParam>)

  /** The output cap both endpoints pass to the backend. */
  const MaxTokens: nat := 16000

  /** What the backend does when a route reaches it: whether constructing
      the client throws, whether `messages.stream` throws, and otherwise the
      stream it returns. */
  datatype Backend = Backend(clientFails: bool, startFails: bool, stream: BackendStream)

  /** A route's HTTP response: a JSON error object with its status, or the
      event stream with its headers and the frames it carries. */
  datatype Response =
    | JsonError(status: nat, json: string)
    | EventStream(status: nat, contentType: string, cacheControl: string, connection: string, frames: seq<Frame>)

  /** JavaScript truthiness of an optional string field: present and non-empty. */
  predicate Truthy(field: Option<string>) {
    field.Some? && field.value != ""
  }

  /** The streaming response for a started backend stream. */
  function StreamOf(frames: seq<Frame>): Response {
    EventStream(200, "text/event-stream", "no-cache", "keep-alive", frames)
  }

  /** The delta carried by a `content_block_delta` event. */
  datatype Delta = TextDelta(text: string) | OtherDelta(deltaType: string)

  /** An event of the backend's message stream. */
  datatype BackendEvent = ContentBlockDelta(delta: Delta) | OtherEvent(eventType: string)

  /** The backend's stream as the route sees it: the events it yields, and
      whether iterating it then throws instead of ending normally. */
  datatype BackendStream = BackendStream(events: seq<BackendEvent>, fails: bool)

  predicate IsTextDelta(e: BackendEvent) {
    e.ContentBlockDelta? && e.delta.TextDelta?
  }

  /** The text frames a run of events yields: one per text delta, in order. */
  function TextFrames(events: seq<BackendEvent>): seq<Frame> {
    if events == [] then []
    else (if IsTextDelta(events[0]) then [TextFrame(events[0].delta.text)] else []) + TextFrames(events[1..])
  }

  /** The number of characters those deltas carry. */
  function DeltaChars(events: seq<BackendEvent>): nat {
    if events == [] then 0
    else (if IsTextDelta(events[0]) then |events[0].delta.text| else 0) + DeltaChars(events[1..])
  }

  /** The concatenated text of the deltas. */
  function DeltaText(events: seq<BackendEvent>): string {
    if events == [] then ""
    else (if IsTextDelta(events[0]) then events[0].delta.text else "") + DeltaText(events[1..])
  }

  /** The terminal frame: `[DONE]` after a normal end, the error object
      with the route's message after a failure. */
  function Terminal(fails: bool, failMessage: string): Frame {
    if fails then ErrorFrame(failMessage) else DoneFrame
  }

  /** The stream's `start`: enqueue a text frame for each text delta as it
      arrives (counting chunks and characters), then `[DONE]`, or, when the
      backend throws, the error frame instead; then close. */
  method Pump(stream: BackendStream, failMessage: string) returns (frames: seq<Frame>, chunkCount: nat, totalChars: nat)
    ensures frames == TextFrames(stream.events) + [Terminal(stream.fails, failMessage)]
    ensures chunkCount == |TextFrames(stream.events)| && totalChars == DeltaChars(stream.events)
  {
    var events := stream.events;
    frames, chunkCount, totalChars := [], 0, 0;
    var i := 0;
    while i < |events|
      invariant 0 <= i <= |events|
      invariant frames == TextFrames(events[..i])
      invariant chunkCount == |frames| && totalChars == DeltaChars(events[..i])
    {
      var event := events[i];
      if event.ContentBlockDelta? && event.delta.TextDelta? {
        chunkCount := chunkCount + 1;
        totalChars := totalChars + |event.delta.text|;
        frames := frames + [TextFrame(event.delta.text)];
      }
      SplitLast(events, i);
      i := i + 1;
    }
    assert events[..i] == events;
    if stream.fails {
      frames := frames + [ErrorFrame(failMessage)];
    } else {
      frames := frames + [DoneFrame];
    }
  }

  /** Extending the events by one extends each summary by that event's share. */
  lemma SplitLast(events: seq<BackendEvent>, i: nat)
    requires i < |events|
    ensures TextFrames(events[..i + 1]) == TextFrames(events[..i]) + TextFrames([events[i]])
    ensures DeltaChars(events[..i + 1]) == DeltaChars(events[..i]) + DeltaChars([events[i]])
  {
    assert events[..i + 1] == events[..i] + [events[i]];
    TextFramesAppend(events[..i], [events[i]]);
    DeltaCharsAppend(events[..i], [events[i]]);
  }

  /** Frames keep the order of the events: the frames of two runs in a row
      are the frames of the first followed by those of the second. */
  lemma {:induction false} TextFramesAppend(a: seq<BackendEvent>, b: seq<BackendEvent>)
    ensures TextFrames(a + b) == TextFrames(a) + TextFrames(b)
    decreases |a|
  {
    if a != [] {
      assert (a + b)[1..] == a[1..] + b;
      TextFramesAppend(a[1..], b);
    } else {
      assert a + b == b;
    }
  }

  lemma {:induction false} DeltaCharsAppend(a: seq<BackendEvent>, b: seq<BackendEvent>)
    ensures DeltaChars(a + b) == DeltaChars(a) + DeltaChars(b)
    decreases |a|
  {
    if a != [] {
      assert (a + b)[1..] == a[1..] + b;
      DeltaCharsAppend(a[1..], b);
    } else {
      assert a + b == b;
    }
  }

  /** Only text deltas make frames, all of them text frames, one each; their
      texts are the delta texts in order. */
  lemma {:induction false} TextFramesAreDeltas(events: seq<BackendEvent>)
    ensures forall i :: 0 <= i < |TextFrames(events)| ==> TextFrames(events)[i].TextFrame?
    ensures |TextFrames(events)| == |Filter(events)|
    ensures forall i :: 0 <= i < |Filter(events)| ==> TextFrames(events)[i] == TextFrame(Filter(events)[i].delta.text)
    ensures Texts(TextFrames(events)) == DeltaText(events)
    decreases |events|
  {
    if events != [] {
      TextFramesAreDeltas(events[1..]);
      var rest := TextFrames(events[1..]);
      if IsTextDelta(events[0]) {
        var all := [TextFrame(events[0].delta.text)] + rest;
        assert all[1..] == rest;
      } else {
        assert TextFrames(events) == rest;
      }
    }
  }

  /** The text deltas among the events, in order. */
  function Filter(events: seq<BackendEvent>): (r: seq<BackendEvent>)
    ensures forall i :: 0 <= i < |r| ==> IsTextDelta(r[i])
  {
    if events == [] then []
    else (if IsTextDelta(events[0]) then [events[0]] else []) + Filter(events[1..])
  }

  /** The texts of a run of text frames, concatenated. */
  function Texts(frames: seq<Frame>): string {
    if frames == [] then ""
    else (if frames[0].TextFrame? then frames[0].text else "") + Texts(frames[1..])
  }

  /** Every stream the gateway produces has exactly one terminal frame, and
      it is the last one. */
  lemma ExactlyOneTerminal(stream: BackendStream, failMessage: string)
    ensures var frames := TextFrames(stream.events) + [Terminal(stream.fails, failMessage)];
      forall i :: 0 <= i < |frames| ==> (IsTerminal(frames[i]) <==> i == |frames| - 1)
  {
    TextFramesAreDeltas(stream.events);
  }
}

/**
 * The builder page: the client side of a generation or iteration call.
 * `consumeStream` reads the response body chunk by chunk, keeps the
 * accumulated model text, re-extracts the current HTML after every text
 * frame and shows it through a 500 ms last-write-wins debounce; the
 * handlers around it guard against overlapping calls and count iterations.
 */
module Builder {
  import opened Wrappers
  import opened JsString
  import opened Extractor
  import opened Types
  import Sse

  /** What `JSON.parse` makes of a `data: ` payload, through the two fields
      the page reads: `ParseFails` when parsing (or reading a field of a
      `null` result) throws, otherwise the `error` and `text` fields, with ""
      standing for a missing or falsy field. */
  datatype Parsed = ParseFails | Fields(error: string, text: string)

  /** One thing that happens while the body is read: a decoded reader
      chunk, a firing of the pending debounce timer, or a rejected read. */
  datatype ReadEvent = Chunk(text: string) | TimerFires | ReadFails(message: string)

  /** How `consumeStream` ends: it returns after the reader is done, it
      returns early on an error frame, or it throws. */
  datatype StreamOutcome = Finished | ServerError(message: string) | Threw(message: string)

  /** The page state the stream touches; `pending` is the html the debounce
      timer will show, if one is scheduled. */
  datatype View = View(generatedHtml: string, displayHtml: string, error: string, accumulated: string, pending: Option<string>)

  datatype Step = Continue(view: View) | Stop(view: View, outcome: StreamOutcome)

  const DebounceMillis: nat := 500
  const NoBodyMessage: string := "No response body"

  /** The effect of one `data: ` payload. The read specification takes the
      extraction as `extract`; `BuilderPage` passes `ExtractHtml`. */
  function OnData(v: View, data: string, parse: string -> Parsed, extract: string -> string): Step {
    if data == Sse.DoneMarker then Continue(v)
    else match parse(data)
      case ParseFails => Continue(v)
      case Fields(err, text) =>
        if err != "" then Stop(v.(error := err), ServerError(err))
        else if text == "" then Continue(v)
        else
          var acc := v.accumulated + text;
          var extracted := extract(acc);
          if extracted == "" then Continue(v.(accumulated := acc))
          else Continue(v.(accumulated := acc, generatedHtml := extracted, pending := Some(extracted)))
  }

  /** Only lines that begin with "data: " are looked at. */
  function OnLine(v: View, line: string, parse: string -> Parsed, extract: string -> string): Step {
    if StartsWith(line, Sse.DataPrefix) then OnData(v, line[|Sse.DataPrefix|..], parse, extract) else Continue(v)
  }

  function OnLines(v: View, lines: seq<string>, parse: string -> Parsed, extract: string -> string): Step
    decreases |lines|
  {
    if lines == [] then Continue(v)
    else match OnLine(v, lines[0], parse, extract)
      case Stop(v', o) => Stop(v', o)
      case Continue(v') => OnLines(v', lines[1..], parse, extract)
  }

  /** The debounce timer fires: the scheduled html is shown. */
  function FireDebounce(v: View): View {
    match v.pending
    case None => v
    case Some(h) => v.(displayHtml := h, pending := None)
  }

  /** Each chunk is split on "\n" by itself, so a frame cut across two
      chunks is never seen whole. */
  function OnEvent(v: View, e: ReadEvent, parse: string -> Parsed, extract: string -> string): Step {
    match e
    case Chunk(text) => OnLines(v, Split(text, '\n'), parse, extract)
    case TimerFires => Continue(FireDebounce(v))
    case ReadFails(m) => Stop(v, Threw(m))
  }

  /** After the reader is done: cancel the timer and show the final
      extraction at once, unless it is empty. */
  function FinalCommit(v: View, extract: string -> string): View {
    var final := extract(v.accumulated);
    var v' := v.(pending := None);
    if final == "" then v' else v'.(generatedHtml := final, displayHtml := final)
  }

  function ReadAll(v: View, events: seq<ReadEvent>, parse: string -> Parsed, extract: string -> string): (View, StreamOutcome)
    decreases |events|
  {
    if events == [] then (FinalCommit(v, extract), Finished)
    else match OnEvent(v, events[0], parse, extract)
      case Stop(v', o) => (v', o)
      case Continue(v') => ReadAll(v', events[1..], parse, extract)
  }

  /** `consumeStream` as a function of the page state, the response body
      (`None` when there is none) and `JSON.parse`. */
  function ConsumeSpec(v: View, body: Option<seq<ReadEvent>>, parse: string -> Parsed, extract: string -> string): (View, StreamOutcome) {
    match body
    case None => (v, Threw(NoBodyMessage))
    case Some(events) => ReadAll(v.(accumulated := ""), events, parse, extract)
  }

  /** The text a line contributes: that of a parsed `data: ` payload other
      than `[DONE]`, and nothing for any other line. */
  function LineText(line: string, parse: string -> Parsed): string {
    if StartsWith(line, Sse.DataPrefix) && line[|Sse.DataPrefix|..] != Sse.DoneMarker
       && parse(line[|Sse.DataPrefix|..]).Fields?
    then parse(line[|Sse.DataPrefix|..]).text
    else ""
  }

  function LinesText(lines: seq<string>, parse: string -> Parsed): string {
    if lines == [] then "" else LineText(lines[0], parse) + LinesText(lines[1..], parse)
  }

  /** The text one read event contributes. */
  function EventText(e: ReadEvent, parse: string -> Parsed): string {
    if e.Chunk? then LinesText(Split(e.text, '\n'), parse) else ""
  }

  /** The text of every frame in the body, chunk by chunk. */
  function StreamText(events: seq<ReadEvent>, parse: string -> Parsed): string {
    if events == [] then "" else EventText(events[0], parse) + StreamText(events[1..], parse)
  }

  /** The debounce timer only ever holds a non-empty extraction. */
  predicate PendingOk(v: View) {
    v.pending.None? || v.pending.value != ""
  }

  /** `w` never blanks what `v` showed or had generated. */
  predicate NoBlanking(v: View, w: View) {
    (w.generatedHtml == v.generatedHtml || w.generatedHtml != "")
    && (w.displayHtml == v.displayHtml || w.displayHtml != "")
  }

  /** One unfolding of `OnLines` past a line that does not stop. */
  lemma OnLinesCons(v: View, lines: seq<string>, parse: string -> Parsed, extract: string -> string)
    requires lines != [] && OnLines(v, lines, parse, extract).Continue?
    ensures OnLine(v, lines[0], parse, extract).Continue?
    ensures OnLines(v, lines, parse, extract) == OnLines(OnLine(v, lines[0], parse, extract).view, lines[1..], parse, extract)
  {
  }

  lemma LinesTextCons(lines: seq<string>, parse: string -> Parsed)
    requires lines != []
    ensures LinesText(lines, parse) == LineText(lines[0], parse) + LinesText(lines[1..], parse)
  {
  }

  lemma {:induction false} LinesAccumulate(v: View, lines: seq<string>, parse: string -> Parsed, extract: string -> string)
    requires OnLines(v, lines, parse, extract).Continue?
    ensures OnLines(v, lines, parse, extract).view.accumulated == v.accumulated + LinesText(lines, parse)
    decreases |lines|
  {
    if lines != [] {
      OnLinesCons(v, lines, parse, extract);
      LinesTextCons(lines, parse);
      LineAccumulates(v, lines[0], parse, extract);
      LinesAccumulate(OnLine(v, lines[0], parse, extract).view, lines[1..], parse, extract);
    }
  }

  /** A line that does not end the read appends its text. */
  lemma LineAccumulates(v: View, line: string, parse: string -> Parsed, extract: string -> string)
    ensures OnLine(v, line, parse, extract).Continue? ==>
      OnLine(v, line, parse, extract).view.accumulated == v.accumulated + LineText(line, parse)
  {
    if StartsWith(line, Sse.DataPrefix) {
      var data := line[|Sse.DataPrefix|..];
      assert OnLine(v, line, parse, extract) == OnData(v, data, parse, extract);
    }
  }

  /** An event that does not end the read appends its text; one that does
      never reports a normal end. */
  lemma EventStep(v: View, e: ReadEvent, parse: string -> Parsed, extract: string -> string)
    ensures var s := OnEvent(v, e, parse, extract);
      (s.Continue? ==> s.view.accumulated == v.accumulated + EventText(e, parse))
      && (s.Stop? ==> s.outcome != Finished)
  {
    if e.Chunk? {
      var s := OnLines(v, Split(e.text, '\n'), parse, extract);
      if s.Continue? {
        LinesAccumulate(v, Split(e.text, '\n'), parse, extract);
      } else {
        LinesErrorIsSet(v, Split(e.text, '\n'), parse, extract);
      }
    }
  }

  /** On a normal end the accumulator holds exactly the text of every frame
      read (it was reset first, and only text was appended), no timer is
      left pending, and a non-empty final extraction is both generated and
      shown. */
  lemma FinishedCommits(v: View, events: seq<ReadEvent>, parse: string -> Parsed, extract: string -> string)
    requires ReadAll(v, events, parse, extract).1 == Finished
    ensures var w := ReadAll(v, events, parse, extract).0;
      w.accumulated == v.accumulated + StreamText(events, parse) && w.pending == None
      && (extract(w.accumulated) != "" ==>
            w.generatedHtml == extract(w.accumulated) && w.displayHtml == extract(w.accumulated))
  {
    FinishedAccumulates(v, events, parse, extract);
    FinishedShows(v, events, parse, extract);
  }

  lemma {:induction false} FinishedAccumulates(v: View, events: seq<ReadEvent>, parse: string -> Parsed, extract: string -> string)
    requires ReadAll(v, events, parse, extract).1 == Finished
    ensures ReadAll(v, events, parse, extract).0.accumulated == v.accumulated + StreamText(events, parse)
    decreases |events|
  {
    if events != [] {
      var step := OnEvent(v, events[0], parse, extract);
      EventStep(v, events[0], parse, extract);
      ReadAllCons(v, events, parse, extract);
      FinishedAccumulates(step.view, events[1..], parse, extract);
      assert StreamText(events, parse) == EventText(events[0], parse) + StreamText(events[1..], parse);
    }
  }

  lemma {:induction false} FinishedShows(v: View, events: seq<ReadEvent>, parse: string -> Parsed, extract: string -> string)
    requires ReadAll(v, events, parse, extract).1 == Finished
    ensures var w := ReadAll(v, events, parse, extract).0;
      w.pending == None
      && (extract(w.accumulated) != "" ==>
            w.generatedHtml == extract(w.accumulated) && w.displayHtml == extract(w.accumulated))
    decreases |events|
  {
    if events != [] {
      EventStep(v, events[0], parse, extract);
      ReadAllCons(v, events, parse, extract);
      FinishedShows(OnEvent(v, events[0], parse, extract).view, events[1..], parse, extract);
    }
  }

  /** An event that does not stop the read hands its state to the rest. */
  lemma ReadAllCons(v: View, events: seq<ReadEvent>, parse: string -> Parsed, extract: string -> string)
    requires events != [] && ReadAll(v, events, parse, extract).1 == Finished
    requires var s := OnEvent(v, events[0], parse, extract); s.Stop? ==> s.outcome != Finished
    ensures OnEvent(v, events[0], parse, extract).Continue?
    ensures ReadAll(v, events, parse, extract)
      == ReadAll(OnEvent(v, events[0], parse, extract).view, events[1..], parse, extract)
  {
  }

  /** The same for a whole call: the accumulator starts from "". */
  lemma ConsumeFinished(v: View, events: seq<ReadEvent>, parse: string -> Parsed, extract: string -> string)
    requires ConsumeSpec(v, Some(events), parse, extract).1 == Finished
    ensures var w := ConsumeSpec(v, Some(events), parse, extract).0;
      w.accumulated == StreamText(events, parse) && w.pending == None
      && (extract(w.accumulated) != "" ==>
            w.generatedHtml == extract(w.accumulated) && w.displayHtml == extract(w.accumulated))
  {
    FinishedCommits(v.(accumulated := ""), events, parse, extract);
  }

  lemma {:induction false} LinesNeverBlank(v: View, lines: seq<string>, parse: string -> Parsed, extract: string -> string)
    requires PendingOk(v)
    ensures PendingOk(OnLines(v, lines, parse, extract).view) && NoBlanking(v, OnLines(v, lines, parse, extract).view)
    decreases |lines|
  {
    if lines != [] {
      var step := OnLine(v, lines[0], parse, extract);
      if step.Continue? {
        LinesNeverBlank(step.view, lines[1..], parse, extract);
      }
    }
  }

  /** An empty extraction never overwrites the generated or the shown
      html, on any path, and the timer never schedules an empty one. */
  lemma {:induction false} NeverBlanks(v: View, events: seq<ReadEvent>, parse: string -> Parsed, extract: string -> string)
    requires PendingOk(v)
    ensures PendingOk(ReadAll(v, events, parse, extract).0) && NoBlanking(v, ReadAll(v, events, parse, extract).0)
    decreases |events|
  {
    if events != [] {
      var step := OnEvent(v, events[0], parse, extract);
      if events[0].Chunk? {
        LinesNeverBlank(v, Split(events[0].text, '\n'), parse, extract);
      }
      if step.Continue? {
        NeverBlanks(step.view, events[1..], parse, extract);
      }
    }
  }

  lemma {:induction false} LinesErrorIsSet(v: View, lines: seq<string>, parse: string -> Parsed, extract: string -> string)
    requires OnLines(v, lines, parse, extract).Stop?
    ensures var s := OnLines(v, lines, parse, extract);
      s.outcome.ServerError? && s.outcome.message != "" && s.view.error == s.outcome.message
    decreases |lines|
  {
    if lines != [] && OnLine(v, lines[0], parse, extract).Continue? {
      LinesErrorIsSet(OnLine(v, lines[0], parse, extract).view, lines[1..], parse, extract);
    }
  }

  /** An error frame ends the read with its message set as the page error.
      `StopIsFinal` shows that nothing after it is read and
      `Pipeline.ErrorSkipsFinalCommit` that the final commit is skipped. */
  lemma {:induction false} ErrorFrameStops(v: View, events: seq<ReadEvent>, parse: string -> Parsed, extract: string -> string)
    requires ReadAll(v, events, parse, extract).1.ServerError?
    ensures var (w, o) := ReadAll(v, events, parse, extract); o.message != "" && w.error == o.message
    decreases |events|
  {
    if events != [] {
      var step := OnEvent(v, events[0], parse, extract);
      if step.Stop? {
        LinesErrorIsSet(v, Split(events[0].text, '\n'), parse, extract);
      } else {
        ErrorFrameStops(step.view, events[1..], parse, extract);
      }
    }
  }

  /** A read that ends early (an error frame or a rejected read) ignores
      every event after the one that stopped it: `consumeStream` has
      returned, so later chunks and the final commit never happen. */
  lemma {:induction false} StopIsFinal(v: View, events: seq<ReadEvent>, rest: seq<ReadEvent>, parse: string -> Parsed, extract: string -> string)
    requires ReadAll(v, events, parse, extract).1 != Finished
    ensures ReadAll(v, events + rest, parse, extract) == ReadAll(v, events, parse, extract)
    decreases |events|
  {
    assert events != [];
    assert (events + rest)[0] == events[0];
    assert (events + rest)[1..] == events[1..] + rest;
    var step := OnEvent(v, events[0], parse, extract);
    if step.Continue? {
      StopIsFinal(step.view, events[1..], rest, parse, extract);
    }
  }

  /** `[DONE]` and unparsable payloads are skipped without ending the read. */
  lemma SkippedLines(v: View, data: string, parse: string -> Parsed, extract: string -> string)
    requires data == Sse.DoneMarker || parse(data) == ParseFails
    ensures OnLine(v, Sse.DataPrefix + data, parse, extract) == Continue(v)
  {
    var line := Sse.DataPrefix + data;
    assert StartsWith(line, Sse.DataPrefix) && line[|Sse.DataPrefix|..] == data;
  }

  /** A frame whose line is cut by a chunk boundary is lost: the first
      chunk's `data: ` line holds a cut payload that does not parse, and the
      second chunk's lines are not `data: ` lines, since each chunk is split
      on its own. */
  lemma SplitFrameIsDropped(v: View, payload: string, cut: nat, parse: string -> Parsed, extract: string -> string)
    requires cut <= |payload| && '\n' !in payload
    requires parse(payload[..cut]) == ParseFails
    requires !StartsWith(payload[cut..], Sse.DataPrefix)
    ensures ReadAll(v, [Chunk(Sse.DataPrefix + payload[..cut]), Chunk(payload[cut..] + "\n\n")], parse, extract).0.accumulated
      == v.accumulated
  {
    var events := [Chunk(Sse.DataPrefix + payload[..cut]), Chunk(payload[cut..] + "\n\n")];
    FirstHalfSkipped(v, payload[..cut], parse, extract);
    SecondHalfSkipped(v, payload[cut..], parse, extract);
    SkippedEvents(v, events, parse, extract);
  }

  /** A frame whose `data: ` prefix itself is cut by a chunk boundary is
      lost whatever its payload: neither piece is a `data: ` line. */
  lemma PrefixCutIsDropped(v: View, payload: string, c: nat, parse: string -> Parsed, extract: string -> string)
    requires 0 < c < |Sse.DataPrefix| && '\n' !in payload
    ensures ReadAll(v, [Chunk(Sse.DataPrefix[..c]), Chunk(Sse.DataPrefix[c..] + payload + "\n\n")], parse, extract).0.accumulated
      == v.accumulated
  {
    var head := Sse.DataPrefix[..c];
    var tail := Sse.DataPrefix[c..] + payload;
    var events := [Chunk(head), Chunk(tail + "\n\n")];
    assert '\n' !in head && '\n' !in tail by { assert '\n' !in Sse.DataPrefix; }
    PlainLineSkipped(v, head, parse, extract);
    assert tail[0] == Sse.DataPrefix[c] != Sse.DataPrefix[0];
    SecondHalfSkipped(v, tail, parse, extract);
    assert events[1].text == tail + "\n\n";
    SkippedEvents(v, events, parse, extract);
  }

  /** A chunk holding one line with no line break that is not a `data: `
      line changes nothing. */
  lemma PlainLineSkipped(v: View, line: string, parse: string -> Parsed, extract: string -> string)
    requires '\n' !in line && !StartsWith(line, Sse.DataPrefix)
    ensures OnEvent(v, Chunk(line), parse, extract) == Continue(v)
  {
    assert Join([line], '\n') == line;
    SplitJoin([line], '\n');
    assert Split(line, '\n') == [line];
    assert [line][1..] == [];
    assert OnLines(v, [line], parse, extract) == Continue(v);
  }

  /** Events that each leave the state alone leave the accumulated text alone. */
  lemma {:induction false} SkippedEvents(v: View, events: seq<ReadEvent>, parse: string -> Parsed, extract: string -> string)
    requires forall i :: 0 <= i < |events| ==> OnEvent(v, events[i], parse, extract) == Continue(v)
    ensures ReadAll(v, events, parse, extract).0.accumulated == v.accumulated
    decreases |events|
  {
    if events != [] {
      assert OnEvent(v, events[0], parse, extract) == Continue(v);
      SkippedEvents(v, events[1..], parse, extract);
    }
  }

  /** A chunk holding one `data: ` line with no line break, whose payload
      does not parse, changes nothing. */
  lemma FirstHalfSkipped(v: View, head: string, parse: string -> Parsed, extract: string -> string)
    requires '\n' !in head && parse(head) == ParseFails
    ensures OnEvent(v, Chunk(Sse.DataPrefix + head), parse, extract) == Continue(v)
  {
    var line := Sse.DataPrefix + head;
    assert '\n' !in line by { assert '\n' !in Sse.DataPrefix; }
    assert Join([line], '\n') == line;
    SplitJoin([line], '\n');
    assert Split(line, '\n') == [line];
    SkippedLines(v, head, parse, extract);
    assert OnLine(v, line, parse, extract) == Continue(v);
    assert [line][1..] == [];
    assert OnLines(v, [line], parse, extract) == Continue(v);
    assert OnEvent(v, Chunk(line), parse, extract) == OnLines(v, Split(line, '\n'), parse, extract);
  }

  /** A chunk holding a line that is not a `data: ` line, then an empty
      line, changes nothing. */
  lemma SecondHalfSkipped(v: View, tail: string, parse: string -> Parsed, extract: string -> string)
    requires '\n' !in tail && !StartsWith(tail, Sse.DataPrefix)
    ensures OnEvent(v, Chunk(tail + "\n\n"), parse, extract) == Continue(v)
  {
    var lines := [tail, "", ""];
    JoinTwo(tail, "", [""], '\n');
    assert lines == [tail, ""] + [""];
    assert Join([""], '\n') == "";
    assert Join(lines, '\n') == tail + "\n\n";
    SplitJoin(lines, '\n');
    assert Split(tail + "\n\n", '\n') == lines;
    assert OnLine(v, tail, parse, extract) == Continue(v);
    assert OnLine(v, "", parse, extract) == Continue(v) by { assert !StartsWith("", Sse.DataPrefix); }
    assert [""][1..] == [];
    assert OnLines(v, [""], parse, extract) == Continue(v);
    assert ["", ""][1..] == [""];
    assert OnLines(v, ["", ""], parse, extract) == Continue(v);
    assert lines[1..] == ["", ""];
    assert OnLines(v, lines, parse, extract) == Continue(v);
    assert OnEvent(v, Chunk(tail + "\n\n"), parse, extract) == OnLines(v, Split(tail + "\n\n", '\n'), parse, extract);
  }

  /** The deploy prompt for the current builder data and generated html. */
  function BuildDeployPrompt(data: Option<BuilderData>, generatedHtml: string): string {
    match data
    case None => ""
    case Some(d) =>
      DeployIntro + d.url + " (\"" + d.title + "\").\n\nHere is what I want:\n" + d.prompt + "\n\n"
      + DeployGuidance + "\n\n" + HtmlFence(generatedHtml)
  }

  /** The generated html in an html fence. */
  function HtmlFence(html: string): string {
    "```html\n" + html + "\n```"
  }

  const DeployIntro: string := "I want to rebuild the frontend of "
  const DeployGuidance: string :=
    "Below is the complete target HTML prototype that shows exactly what it should look like. "
    + "Implement this as a production-quality page in my project, matching the layout, styling, "
    + "colors, typography, and content as closely as possible. Use Tailwind CSS for styling."

  /** With no builder data the prompt is empty; otherwise it opens with the
      site's url, holds the user's goal verbatim, and ends with the whole
      generated html in an html fence. */
  lemma DeployPromptShape(data: Option<BuilderData>, generatedHtml: string)
    ensures data.None? ==> BuildDeployPrompt(data, generatedHtml) == ""
    ensures data.Some? ==>
      var r := BuildDeployPrompt(data, generatedHtml);
      var tail := "```html\n" + generatedHtml + "\n```";
      var head := DeployIntro + data.value.url;
      |r| >= |head| + |tail| && r[..|head|] == head && r[|r| - |tail|..] == tail
  {
    if data.Some? {
      var d := data.value;
      var head := DeployIntro + d.url;
      var middle := " (\"" + d.title + "\").\n\nHere is what I want:\n" + d.prompt + "\n\n" + DeployGuidance + "\n\n";
      assert BuildDeployPrompt(data, generatedHtml) == head + middle + HtmlFence(generatedHtml);
      Framed(head, middle, HtmlFence(generatedHtml));
    }
  }

  /** A concatenation starts with its first part and ends with its last. */
  lemma Framed(head: string, middle: string, tail: string)
    ensures var r := head + middle + tail;
      |r| >= |head| + |tail| && r[..|head|] == head && r[|r| - |tail|..] == tail
  {
    var r := head + middle + tail;
    assert r[..|head|] == head;
    assert r[|r| - |tail|..] == tail;
  }

  /** The reply to the page's `fetch`: a rejected fetch, a non-ok status
      with its JSON body, or an ok response with its body stream. */
  datatype Reply = FetchRejected(message: string) | NotOk(errorJson: ErrorJson) | Ok(body: Option<seq<ReadEvent>>)

  /** An error response's body: `res.json()` throws, or it has an `error`
      field ("" when missing). */
  datatype ErrorJson = BodyUnreadable(message: string) | ErrorField(error: string)

  /** The message a failed request surfaces. */
  function FailureMessage(reply: Reply, fallback: string): string
    requires !reply.Ok?
  {
    match reply
    case FetchRejected(m) => m
    case NotOk(BodyUnreadable(m)) => m
    case NotOk(ErrorField(e)) => if e != "" then e else fallback
  }

  /** The page state after a completed call: a thrown stream sets its
      message as the error; an ok stream leaves what it left. */
  function AfterCall(v: View, reply: Reply, parse: string -> Parsed, fallback: string, extract: string -> string): View {
    if reply.Ok? then
      var (w, o) := ConsumeSpec(v, reply.body, parse, extract);
      if o.Threw? then w.(error := o.message) else w
    else v.(error := FailureMessage(reply, fallback))
  }

  /** Whether the call ran `consumeStream` to a normal return (an error
      frame included). */
  predicate StreamReturned(v: View, reply: Reply, parse: string -> Parsed, extract: string -> string) {
    reply.Ok? && !ConsumeSpec(v, reply.body, parse, extract).1.Threw?
  }

  class BuilderPage {
    var builderData: Option<BuilderData>
    var generatedHtml: string
    var displayHtml: string
    var isGenerating: bool
    var instruction: string
    var iterationCount: nat
    var error: string
    var accumulated: string
    var pending: Option<string>

    function State(): View
      reads this
    {
      View(generatedHtml, displayHtml, error, accumulated, pending)
    }

    /** The page's invariant: the debounce timer only ever holds a
        non-empty html. */
    ghost predicate Valid()
      reads this
    {
      PendingOk(State())
    }

    /** The page once its builder data is loaded. */
    constructor (data: Option<BuilderData>)
      ensures Valid()
      ensures builderData == data && generatedHtml == "" && displayHtml == "" && !isGenerating
      ensures instruction == "" && iterationCount == 0 && error == "" && accumulated == "" && pending == None
    {
      builderData := data;
      generatedHtml, displayHtml := "", "";
      isGenerating := false;
      instruction := "";
      iterationCount := 0;
      error, accumulated := "", "";
      pending := None;
    }

    /** `updateDisplayDebounced(html)`: cancel the pending timer, if any, and
        schedule the latest html; the page only calls it with a non-empty
        extraction. */
    method UpdateDisplayDebounced(html: string)
      requires Valid() && html != ""
      modifies this`pending
      ensures Valid()
      ensures pending == Some(html)
    {
      pending := Some(html);
    }

    /** The debounce timer fires. */
    method FireDebounceTimer()
      requires Valid()
      modifies this`displayHtml, this`pending
      ensures Valid()
      ensures State() == FireDebounce(old(State()))
    {
      if pending.Some? {
        displayHtml := pending.value;
        pending := None;
      }
    }

    /** One line of a chunk; `stop` is set when the line ends the read. */
    method ProcessLine(line: string, parse: string -> Parsed) returns (stop: Option<StreamOutcome>)
      requires Valid()
      modifies this`generatedHtml, this`error, this`accumulated, this`pending
      ensures Valid()
      ensures stop.None? ==> OnLine(old(State()), line, parse, ExtractHtml) == Continue(State())
      ensures stop.Some? ==> OnLine(old(State()), line, parse, ExtractHtml) == Stop(State(), stop.value)
    {
      stop := None;
      if StartsWith(line, Sse.DataPrefix) {
        var data := line[|Sse.DataPrefix|..];
        if data != Sse.DoneMarker {
          var parsed := parse(data);
          if parsed.Fields? {
            if parsed.error != "" {
              error := parsed.error;
              return Some(ServerError(parsed.error));
            }
            if parsed.text != "" {
              accumulated := accumulated + parsed.text;
              var extracted := ExtractHtml(accumulated);
              if extracted != "" {
                generatedHtml := extracted;
                UpdateDisplayDebounced(extracted);
              }
            }
          }
        }
      }
    }

    /** One decoded reader chunk, split on "\n" and read line by line. */
    method ProcessChunk(text: string, parse: string -> Parsed) returns (stop: Option<StreamOutcome>)
      requires Valid()
      modifies this`generatedHtml, this`error, this`accumulated, this`pending
      ensures Valid()
      ensures stop.None? ==> OnLines(old(State()), Split(text, '\n'), parse, ExtractHtml) == Continue(State())
      ensures stop.Some? ==> OnLines(old(State()), Split(text, '\n'), parse, ExtractHtml) == Stop(State(), stop.value)
    {
      var lines := Split(text, '\n');
      var j := 0;
      while j < |lines|
        invariant 0 <= j <= |lines|
        invariant Valid()
        invariant OnLines(State(), lines[j..], parse, ExtractHtml) == OnLines(old(State()), lines, parse, ExtractHtml)
      {
        assert lines[j..][0] == lines[j] && lines[j..][1..] == lines[j + 1..];
        stop := ProcessLine(lines[j], parse);
        if stop.Some? {
          return;
        }
        j := j + 1;
      }
      stop := None;
    }

    /** `consumeStream(response)`. */
    method ConsumeStream(body: Option<seq<ReadEvent>>, parse: string -> Parsed) returns (outcome: StreamOutcome)
      requires Valid()
      modifies this`generatedHtml, this`displayHtml, this`error, this`accumulated, this`pending
      ensures Valid()
      ensures (State(), outcome) == ConsumeSpec(old(State()), body, parse, ExtractHtml)
    {
      if body.None? {
        return Threw(NoBodyMessage);
      }
      var events := body.value;
      accumulated := "";
      ghost var goal := ReadAll(State(), events, parse, ExtractHtml);
      var i := 0;
      while i < |events|
        invariant 0 <= i <= |events|
        invariant Valid()
        invariant ReadAll(State(), events[i..], parse, ExtractHtml) == goal
      {
        assert events[i..][0] == events[i] && events[i..][1..] == events[i + 1..];
        match events[i] {
          case ReadFails(m) =>
            return Threw(m);
          case TimerFires =>
            FireDebounceTimer();
          case Chunk(text) =>
            var stop := ProcessChunk(text, parse);
            if stop.Some? {
              return stop.value;
            }
        }
        i := i + 1;
      }
      // the final update, without debounce
      pending := None;
      var finalHtml := ExtractHtml(accumulated);
      if finalHtml != "" {
        generatedHtml := finalHtml;
        displayHtml := finalHtml;
      }
      outcome := Finished;
    }

    /** The synchronous start of `handleGenerate`: nothing without builder
        data; otherwise mark the page busy, clear the error and build the
        request body. */
    method BeginGenerate() returns (request: Option<GenerateRequest>)
      requires Valid()
      modifies this`isGenerating, this`error
      ensures Valid()
      ensures builderData.None? ==> request == None && isGenerating == old(isGenerating) && error == old(error)
      ensures builderData.Some? ==>
        var d := builderData.value;
        request == Some(GenerateRequest(d.screenshot, d.html, d.url, d.prompt)) && isGenerating && error == ""
    {
      if builderData.None? {
        return None;
      }
      var d := builderData.value;
      isGenerating := true;
      error := "";
      request := Some(GenerateRequest(d.screenshot, d.html, d.url, d.prompt));
    }

    /** The rest of `handleGenerate` once the fetch settles. */
    method CompleteGenerate(reply: Reply, parse: string -> Parsed)
      requires Valid()
      modifies this`generatedHtml, this`displayHtml, this`error, this`accumulated, this`pending, this`isGenerating
      ensures Valid()
      ensures State() == AfterCall(old(State()), reply, parse, "Generation failed", ExtractHtml)
      ensures !isGenerating
    {
      match reply {
        case Ok(body) =>
          var outcome := ConsumeStream(body, parse);
          if outcome.Threw? {
            error := outcome.message;
          }
        case _ =>
          error := FailureMessage(reply, "Generation failed");
      }
      isGenerating := false;
    }

    /** The instruction box is edited. */
    method EditInstruction(text: string)
      requires Valid()
      modifies this`instruction
      ensures Valid()
      ensures instruction == text
    {
      instruction := text;
    }

    /** The synchronous start of `handleIterate`: nothing when the trimmed
        instruction is empty, a call is running or nothing has been
        generated; otherwise take the trimmed instruction, clear the box,
        mark the page busy, clear the error and build the request body. */
    method BeginIterate() returns (request: Option<IterateRequest>)
      requires Valid()
      modifies this`instruction, this`isGenerating, this`error
      ensures Valid()
      ensures var go := Trim(old(instruction)) != "" && !old(isGenerating) && generatedHtml != "";
        (!go ==> request == None && instruction == old(instruction)
                 && isGenerating == old(isGenerating) && error == old(error))
        && (go ==> request == Some(IterateRequest(generatedHtml, Trim(old(instruction)),
                                                  if builderData.Some? then builderData.value.url else ""))
                   && instruction == "" && isGenerating && error == "")
    {
      var current := Trim(instruction);
      if current == "" || isGenerating || generatedHtml == "" {
        return None;
      }
      instruction := "";
      isGenerating := true;
      error := "";
      var url := if builderData.Some? then builderData.value.url else "";
      request := Some(IterateRequest(generatedHtml, current, url));
    }

    /** The rest of `handleIterate` once the fetch settles: the count goes
        up by one whenever `consumeStream` returns, an error frame
        included. */
    method CompleteIterate(reply: Reply, parse: string -> Parsed)
      requires Valid()
      modifies this`generatedHtml, this`displayHtml, this`error, this`accumulated, this`pending
      modifies this`isGenerating, this`iterationCount
      ensures Valid()
      ensures State() == AfterCall(old(State()), reply, parse, "Iteration failed", ExtractHtml)
      ensures iterationCount == old(iterationCount) + if StreamReturned(old(State()), reply, parse, ExtractHtml) then 1 else 0
      ensures !isGenerating
    {
      match reply {
        case Ok(body) =>
          var outcome := ConsumeStream(body, parse);
          if outcome.Threw? {
            error := outcome.message;
          } else {
            iterationCount := iterationCount + 1;
          }
        case _ =>
          error := FailureMessage(reply, "Iteration failed");
      }
      isGenerating := false;
    }

    /** `buildDeployPrompt()`. */
    function DeployPrompt(): string
      reads this
    {
      BuildDeployPrompt(builderData, generatedHtml)
    }
  }
}

/**
 * The two halves of a call together: the frames the gateway writes,
 * delivered to the builder page in reader chunks that cut only between
 * frames, are read back exactly — the page accumulates the model's text
 * and ends the way the stream ended.
 */
module Pipeline {
  import opened Wrappers
  import opened JsString
  import opened Extractor
  import opened Sse
  import Gateway
  import opened Builder

  /** What the page's `JSON.parse` yields for a frame's payload. */
  function Decoded(f: Frame): Parsed {
    match f
    case TextFrame(t) => Fields("", t)
    case DoneFrame => ParseFails
    case ErrorFrame(m) => Fields(m, "")
  }

  /** `parse` reads back every payload the gateway writes, as `JSON.parse`
      does (`QuoteJsonRoundTrip` is the string part of that). */
  ghost predicate ParsesFrames(parse: string -> Parsed) {
    forall f: Frame :: parse(Payload(f)) == Decoded(f)
  }

  /** A frame the page reports as an error ("" is falsy, so an empty error
      message is not one). */
  predicate IsFailure(f: Frame) {
    f.ErrorFrame? && f.message != ""
  }

  /** The lines of a run of frames: each `data:` line and the empty line
      after it. */
  function FrameLines(frames: seq<Frame>): seq<string> {
    if frames == [] then [] else [DataPrefix + Payload(frames[0]), ""] + FrameLines(frames[1..])
  }

  /** What `split("\n")` makes of `WireAll(frames)`: the frame lines and a
      final empty piece. */
  function WireLines(frames: seq<Frame>): seq<string> {
    FrameLines(frames) + [""]
  }

  /** The reader chunks, one per group of whole frames. */
  function Body(groups: seq<seq<Frame>>): seq<ReadEvent> {
    if groups == [] then [] else [Chunk(WireAll(groups[0]))] + Body(groups[1..])
  }

  function Flatten(groups: seq<seq<Frame>>): seq<Frame> {
    if groups == [] then [] else groups[0] + Flatten(groups[1..])
  }

  lemma {:induction false} FrameLinesAppend(a: seq<Frame>, b: seq<Frame>)
    ensures FrameLines(a + b) == FrameLines(a) + FrameLines(b)
    decreases |a|
  {
    if a == [] {
      assert a + b == b;
    } else {
      assert (a + b)[0] == a[0] && (a + b)[1..] == a[1..] + b;
      FrameLinesAppend(a[1..], b);
    }
  }

  lemma {:induction false} FrameLinesAreLines(frames: seq<Frame>)
    ensures forall i :: 0 <= i < |FrameLines(frames)| ==> '\n' !in FrameLines(frames)[i]
    decreases |frames|
  {
    if frames != [] {
      PayloadIsOneLine(frames[0]);
      FrameLinesAreLines(frames[1..]);
      assert '\n' !in DataPrefix;
    }
  }

  lemma {:induction false} JoinWireLines(frames: seq<Frame>)
    ensures Join(WireLines(frames), '\n') == WireAll(frames)
    decreases |frames|
  {
    if frames != [] {
      var d := DataPrefix + Payload(frames[0]);
      var rest := WireLines(frames[1..]);
      assert WireLines(frames) == [d, ""] + rest;
      JoinTwo(d, "", rest, '\n');
      JoinWireLines(frames[1..]);
      assert Wire(frames[0]) == d + ['\n'] + "" + ['\n'];
    }
  }

  /** Splitting what the gateway wrote gives back its lines. */
  lemma SplitWire(frames: seq<Frame>)
    ensures Split(WireAll(frames), '\n') == WireLines(frames)
  {
    FrameLinesAreLines(frames);
    JoinWireLines(frames);
    SplitJoin(WireLines(frames), '\n');
  }

  lemma {:induction false} OnLinesAppend(v: View, x: seq<string>, y: seq<string>, parse: string -> Parsed, extract: string -> string)
    ensures OnLines(v, x + y, parse, extract) ==
      match OnLines(v, x, parse, extract)
      case Stop(w, o) => Stop(w, o)
      case Continue(w) => OnLines(w, y, parse, extract)
    decreases |x|
  {
    if x == [] {
      assert x + y == y;
    } else {
      assert (x + y)[0] == x[0] && (x + y)[1..] == x[1..] + y;
      var step := OnLine(v, x[0], parse, extract);
      if step.Continue? {
        OnLinesAppend(step.view, x[1..], y, parse, extract);
      }
    }
  }

  lemma {:induction false} LinesTextAppend(x: seq<string>, y: seq<string>, parse: string -> Parsed)
    ensures LinesText(x + y, parse) == LinesText(x, parse) + LinesText(y, parse)
    decreases |x|
  {
    if x == [] {
      assert x + y == y;
    } else {
      assert (x + y)[0] == x[0] && (x + y)[1..] == x[1..] + y;
      LinesTextAppend(x[1..], y, parse);
    }
  }

  lemma {:induction false} TextsAppend(a: seq<Frame>, b: seq<Frame>)
    ensures Gateway.Texts(a + b) == Gateway.Texts(a) + Gateway.Texts(b)
    decreases |a|
  {
    if a == [] {
      assert a + b == b;
    } else {
      assert (a + b)[0] == a[0] && (a + b)[1..] == a[1..] + b;
      TextsAppend(a[1..], b);
    }
  }

  /** Only `[DONE]` has the done marker as its payload. */
  lemma PayloadNotDone(f: Frame)
    ensures (Payload(f) == DoneMarker) <==> f.DoneFrame?
  {
    if !f.DoneFrame? {
      assert Payload(f)[0] == '{';
    }
  }

  lemma DataLine(f: Frame)
    ensures StartsWith(DataPrefix + Payload(f), DataPrefix)
    ensures (DataPrefix + Payload(f))[|DataPrefix|..] == Payload(f)
  {
  }

  /** A frame's `data:` line, as the page reads it. */
  lemma FrameLine(v: View, f: Frame, parse: string -> Parsed, extract: string -> string)
    requires ParsesFrames(parse)
    ensures var s := OnLine(v, DataPrefix + Payload(f), parse, extract);
      (IsFailure(f) ==> s == Stop(v.(error := f.message), ServerError(f.message)))
      && (!IsFailure(f) ==> s.Continue?)
      && LineText(DataPrefix + Payload(f), parse) == Gateway.Texts([f])
  {
    DataLine(f);
    PayloadNotDone(f);
    assert parse(Payload(f)) == Decoded(f);
    assert Gateway.Texts([f]) == if f.TextFrame? then f.text else "";
  }

  /** One frame's two lines, as the page reads them. */
  lemma FrameStep(v: View, f: Frame, parse: string -> Parsed, extract: string -> string)
    requires ParsesFrames(parse)
    ensures var lines := [DataPrefix + Payload(f), ""];
      (IsFailure(f) ==> OnLines(v, lines, parse, extract) == Stop(v.(error := f.message), ServerError(f.message)))
      && (!IsFailure(f) ==>
            (OnLines(v, lines, parse, extract).Continue? && LinesText(lines, parse) == Gateway.Texts([f])))
  {
    var d := DataPrefix + Payload(f);
    FrameLine(v, f, parse, extract);
    assert !StartsWith("", DataPrefix);
    assert [d, ""][0] == d && [d, ""][1..] == [""];
    assert [""][1..] == [];
  }

  /** Frames that are not failures are read through, and their texts are
      what the lines contribute. */
  lemma {:induction false} CleanFrames(v: View, frames: seq<Frame>, parse: string -> Parsed, extract: string -> string)
    requires ParsesFrames(parse)
    requires forall i :: 0 <= i < |frames| ==> !IsFailure(frames[i])
    ensures OnLines(v, FrameLines(frames), parse, extract).Continue?
    ensures LinesText(FrameLines(frames), parse) == Gateway.Texts(frames)
    decreases |frames|
  {
    if frames != [] {
      var lines := [DataPrefix + Payload(frames[0]), ""];
      var rest := FrameLines(frames[1..]);
      assert FrameLines(frames) == lines + rest;
      FrameStep(v, frames[0], parse, extract);
      var w := OnLines(v, lines, parse, extract).view;
      CleanFrames(w, frames[1..], parse, extract);
      OnLinesAppend(v, lines, rest, parse, extract);
      LinesTextAppend(lines, rest, parse);
      assert frames == [frames[0]] + frames[1..];
      TextsAppend([frames[0]], frames[1..]);
    }
  }

  lemma CleanChunk(v: View, frames: seq<Frame>, parse: string -> Parsed, extract: string -> string)
    requires ParsesFrames(parse)
    requires forall i :: 0 <= i < |frames| ==> !IsFailure(frames[i])
    ensures OnEvent(v, Chunk(WireAll(frames)), parse, extract).Continue?
    ensures EventText(Chunk(WireAll(frames)), parse) == Gateway.Texts(frames)
  {
    SplitWire(frames);
    CleanFrames(v, frames, parse, extract);
    OnLinesAppend(v, FrameLines(frames), [""], parse, extract);
    LinesTextAppend(FrameLines(frames), [""], parse);
    assert !StartsWith("", DataPrefix);
  }

  /** Whole-frame chunks without a failure are read to a normal end, and
      the page sees the texts of all their frames. */
  lemma {:induction false} CleanBody(v: View, groups: seq<seq<Frame>>, parse: string -> Parsed, extract: string -> string)
    requires ParsesFrames(parse)
    requires forall i :: 0 <= i < |Flatten(groups)| ==> !IsFailure(Flatten(groups)[i])
    ensures ReadAll(v, Body(groups), parse, extract).1 == Finished
    ensures StreamText(Body(groups), parse) == Gateway.Texts(Flatten(groups))
    decreases |groups|
  {
    if groups != [] {
      var g := groups[0];
      assert Flatten(groups) == g + Flatten(groups[1..]);
      assert forall i :: 0 <= i < |g| ==> Flatten(groups)[i] == g[i];
      assert forall i :: 0 <= i < |Flatten(groups[1..])| ==> Flatten(groups)[|g| + i] == Flatten(groups[1..])[i];
      CleanChunk(v, g, parse, extract);
      var body := Body(groups);
      assert body[0] == Chunk(WireAll(g)) && body[1..] == Body(groups[1..]);
      CleanBody(OnEvent(v, body[0], parse, extract).view, groups[1..], parse, extract);
      TextsAppend(g, Flatten(groups[1..]));
    }
  }

  /** The lines of a chunk that ends in a failure. */
  lemma ErrorChunkLines(clean: seq<Frame>, m: string)
    ensures Split(WireAll(clean + [ErrorFrame(m)]), '\n')
      == FrameLines(clean) + ([DataPrefix + Payload(ErrorFrame(m)), ""] + [""])
  {
    SplitWire(clean + [ErrorFrame(m)]);
    LastFrameLines(clean, ErrorFrame(m));
  }

  /** The lines of frames ending in `last`: those before it, then its own. */
  lemma LastFrameLines(init: seq<Frame>, last: Frame)
    ensures WireLines(init + [last]) == FrameLines(init) + ([DataPrefix + Payload(last), ""] + [""])
  {
    FrameLinesAppend(init, [last]);
    assert [last][1..] == [];
    assert FrameLines([last]) == [DataPrefix + Payload(last), ""];
  }

  lemma ErrorLines(v: View, clean: seq<Frame>, m: string, parse: string -> Parsed, extract: string -> string)
    requires ParsesFrames(parse)
    requires m != ""
    requires forall i :: 0 <= i < |clean| ==> !IsFailure(clean[i])
    ensures OnLines(v, FrameLines(clean) + ([DataPrefix + Payload(ErrorFrame(m)), ""] + [""]), parse, extract).Stop?
    ensures OnLines(v, FrameLines(clean) + ([DataPrefix + Payload(ErrorFrame(m)), ""] + [""]), parse, extract).outcome
      == ServerError(m)
  {
    var e := ErrorFrame(m);
    var d := DataPrefix + Payload(e);
    var cl := FrameLines(clean);
    CleanFrames(v, clean, parse, extract);
    var w := OnLines(v, cl, parse, extract).view;
    OnLinesAppend(v, cl, [d, ""] + [""], parse, extract);
    FrameStep(w, e, parse, extract);
    OnLinesAppend(w, [d, ""], [""], parse, extract);
  }

  lemma ErrorChunk(v: View, clean: seq<Frame>, m: string, parse: string -> Parsed, extract: string -> string)
    requires ParsesFrames(parse)
    requires m != ""
    requires forall i :: 0 <= i < |clean| ==> !IsFailure(clean[i])
    ensures OnEvent(v, Chunk(WireAll(clean + [ErrorFrame(m)])), parse, extract).Stop?
    ensures OnEvent(v, Chunk(WireAll(clean + [ErrorFrame(m)])), parse, extract).outcome == ServerError(m)
  {
    ErrorChunkLines(clean, m);
    ErrorLines(v, clean, m, parse, extract);
  }

  /** Whole-frame chunks ending in a failure end the read with that
      failure, wherever the chunk boundaries fall. */
  lemma {:induction false} ErrorBody(v: View, groups: seq<seq<Frame>>, clean: seq<Frame>, m: string, parse: string -> Parsed, extract: string -> string)
    requires ParsesFrames(parse)
    requires m != ""
    requires forall i :: 0 <= i < |clean| ==> !IsFailure(clean[i])
    requires Flatten(groups) == clean + [ErrorFrame(m)]
    ensures ReadAll(v, Body(groups), parse, extract).1 == ServerError(m)
    decreases |groups|
  {
    var g := groups[0];
    var all := clean + [ErrorFrame(m)];
    var rest := Flatten(groups[1..]);
    assert all == g + rest;
    var body := Body(groups);
    assert body[0] == Chunk(WireAll(g)) && body[1..] == Body(groups[1..]);
    if |g| <= |clean| {
      assert g == all[..|g|] == clean[..|g|];
      assert rest == all[|g|..] == clean[|g|..] + [ErrorFrame(m)];
      CleanChunk(v, g, parse, extract);
      ErrorBody(OnEvent(v, body[0], parse, extract).view, groups[1..], clean[|g|..], m, parse, extract);
    } else {
      assert g == all;
      ErrorChunk(v, clean, m, parse, extract);
    }
  }

  /** The gateway's stream, read by the page: after a normal end the page
      has accumulated exactly the model's text and shows its final
      extraction; after a failure it reports the route's message. */
  /** The exact effect of one non-empty text frame's two lines: the text is
      appended and, when the extraction is non-empty, generated and
      scheduled for display. */
  lemma TextStep(v: View, t: string, parse: string -> Parsed, extract: string -> string)
    requires ParsesFrames(parse)
    requires t != ""
    ensures var acc := v.accumulated + t;
      var x := extract(acc);
      OnLines(v, [DataPrefix + Payload(TextFrame(t)), ""], parse, extract)
        == Continue(if x == "" then v.(accumulated := acc)
                    else v.(accumulated := acc, generatedHtml := x, pending := Some(x)))
  {
    var d := DataPrefix + Payload(TextFrame(t));
    DataLine(TextFrame(t));
    PayloadNotDone(TextFrame(t));
    assert parse(Payload(TextFrame(t))) == Fields("", t);
    assert !StartsWith("", DataPrefix);
    assert [d, ""][0] == d && [d, ""][1..] == [""];
    assert [""][1..] == [];
  }

  /** A text frame followed by an error frame in one chunk: the read stops
      with the error set, the text kept, the html it produced still only
      scheduled, and the shown html untouched, since the final commit is
      skipped. */
  lemma ErrorSkipsFinalCommit(v: View, t: string, m: string, parse: string -> Parsed, extract: string -> string)
    requires ParsesFrames(parse)
    requires t != "" && m != ""
    ensures var (w, o) := ReadAll(v, [Chunk(Wire(TextFrame(t)) + Wire(ErrorFrame(m)))], parse, extract);
      var x := extract(v.accumulated + t);
      o == ServerError(m) && w.error == m && w.accumulated == v.accumulated + t
      && w.displayHtml == v.displayHtml
      && w.pending == (if x == "" then v.pending else Some(x))
  {
    var text := TextFrame(t);
    var e := ErrorFrame(m);
    var dt := DataPrefix + Payload(text);
    var de := DataPrefix + Payload(e);
    WireTwo(text, e);
    ErrorChunkLines([text], m);
    OneFrameLines(text);
    TextStep(v, t, parse, extract);
    var w1 := OnLines(v, [dt, ""], parse, extract).view;
    OnLinesAppend(v, [dt, ""], [de, ""] + [""], parse, extract);
    FrameStep(w1, e, parse, extract);
    OnLinesAppend(w1, [de, ""], [""], parse, extract);
  }

  /** The same text frame followed by `[DONE]`: the read finishes and the
      final commit clears the timer and shows the extraction at once. */
  lemma DoneCommitsFinal(v: View, t: string, parse: string -> Parsed, extract: string -> string)
    requires ParsesFrames(parse)
    requires t != ""
    ensures var (w, o) := ReadAll(v, [Chunk(Wire(TextFrame(t)) + Wire(DoneFrame))], parse, extract);
      var x := extract(v.accumulated + t);
      o == Finished && w.accumulated == v.accumulated + t && w.pending == None
      && (x != "" ==> w.generatedHtml == x && w.displayHtml == x)
  {
    var text := TextFrame(t);
    var dt := DataPrefix + Payload(text);
    var dd := DataPrefix + Payload(DoneFrame);
    WireTwo(text, DoneFrame);
    SplitWire([text] + [DoneFrame]);
    LastFrameLines([text], DoneFrame);
    OneFrameLines(text);
    TextStep(v, t, parse, extract);
    var w1 := OnLines(v, [dt, ""], parse, extract).view;
    OnLinesAppend(v, [dt, ""], [dd, ""] + [""], parse, extract);
    DoneLines(w1, parse, extract);
    OneChunk(v, Wire(text) + Wire(DoneFrame), w1, parse, extract);
  }

  lemma WireTwo(a: Frame, b: Frame)
    ensures WireAll([a] + [b]) == Wire(a) + Wire(b)
  {
    assert [a] + [b] == [a, b];
    assert [a, b][1..] == [b] && [b][1..] == [];
    assert WireAll([b]) == Wire(b) + WireAll([]) == Wire(b);
  }

  lemma OneFrameLines(f: Frame)
    ensures FrameLines([f]) == [DataPrefix + Payload(f), ""]
  {
    assert [f][1..] == [];
  }

  /** The lines of a final `[DONE]` frame change nothing. */
  lemma DoneLines(v: View, parse: string -> Parsed, extract: string -> string)
    ensures OnLines(v, [DataPrefix + Payload(DoneFrame), ""] + [""], parse, extract) == Continue(v)
  {
    var dd := DataPrefix + Payload(DoneFrame);
    SkippedLines(v, DoneMarker, parse, extract);
    assert !StartsWith("", DataPrefix);
    assert ([dd, ""] + [""])[0] == dd && ([dd, ""] + [""])[1..] == ["", ""];
    assert ["", ""][1..] == [""] && [""][1..] == [];
  }

  /** A body of one chunk that does not stop the read ends in the final
      commit. */
  lemma OneChunk(v: View, x: string, w: View, parse: string -> Parsed, extract: string -> string)
    requires OnEvent(v, Chunk(x), parse, extract) == Continue(w)
    ensures ReadAll(v, [Chunk(x)], parse, extract) == (FinalCommit(w, extract), Finished)
  {
    assert [Chunk(x)][1..] == [];
  }

  lemma StreamRoundTrip(v: View, stream: Gateway.BackendStream, failMessage: string,
                        groups: seq<seq<Frame>>, parse: string -> Parsed, extract: string -> string)
    requires ParsesFrames(parse)
    requires failMessage != ""
    requires Flatten(groups) == Gateway.TextFrames(stream.events) + [Gateway.Terminal(stream.fails, failMessage)]
    ensures var (w, o) := ConsumeSpec(v, Some(Body(groups)), parse, extract);
      (stream.fails ==> o == ServerError(failMessage) && w.error == failMessage)
      && (!stream.fails ==>
            o == Finished && w.accumulated == Gateway.DeltaText(stream.events) && w.pending == None
            && (extract(w.accumulated) != "" ==>
                  w.generatedHtml == extract(w.accumulated) && w.displayHtml == extract(w.accumulated)))
  {
    var texts := Gateway.TextFrames(stream.events);
    Gateway.TextFramesAreDeltas(stream.events);
    var v0 := v.(accumulated := "");
    if stream.fails {
      ErrorBody(v0, groups, texts, failMessage, parse, extract);
      ErrorFrameStops(v0, Body(groups), parse, extract);
    } else {
      var all := texts + [DoneFrame];
      assert forall i :: 0 <= i < |all| ==> !IsFailure(all[i]);
      CleanBody(v0, groups, parse, extract);
      TextsAppend(texts, [DoneFrame]);
      ConsumeFinished(v, Body(groups), parse, extract);
    }
  }
}

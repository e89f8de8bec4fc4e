# Flawless prototype builder — a Dafny model

The application captures a web page (a screenshot and its HTML). It then asks
a language model for a single-file HTML prototype of what the user wants and
streams the answer back to a builder page. The page shows the prototype as it
grows and lets the user request changes. This project models the core of the
application and proves properties of that model:

- **Prompt builders** (`Claude`). The vision message for a first generation,
  and the plain-text iteration message that wraps the current HTML in an html
  fence.
- **The two streaming routes** (`GenerateRoute`, `IterateRoute`, with the
  shared `Gateway` loop). Each route validates the request body and starts
  one backend call. It turns every text delta into one `data: {"text":…}`
  frame, then ends the stream with `data: [DONE]`, or with one error frame
  when the backend fails mid-stream.
- **Frame encoding** (`Sse`). `JSON.stringify` of a string follows the
  QuoteJSONString operation of ECMA-262. It has an inverse
  and never emits a raw line feed.
- **The builder page** (`Builder`), with two parts:
  - `consumeStream`, which splits each reader chunk on `"\n"`, accumulates
    the text of the `data:` frames, re-extracts the HTML after each one and
    shows it through a 500 ms debounce. It stops at an error frame and
    commits the final extraction at once when the reader is done.
  - The generate and iterate handlers (busy flag, error message, iteration
    count) and the deploy prompt.
- **HTML extraction** (`Extractor`). `extractHtml` is written out exactly as
  its two regular expressions and `trim()` behave.
- **The landing page** (`Landing`): URL normalisation, the capture
  request's state changes, and the hand-off to the builder page.
- **The demo chat** (`Slack`): its message-reveal sequencer and its
  rendering rules.
- **`Pipeline`** joins the server and the client. When the gateway's frames
  reach the page in chunks that break only between frames, the page reads
  back exactly the model's text and ends the way the stream ended.

`JsString` holds the JavaScript string operations the core uses: `trim`,
the `\s` class, `indexOf`, `startsWith`, `split`, and `slice`. A Dafny `char` is a Unicode scalar value, so lengths and
positions count scalar values where JavaScript counts UTF-16 code units;
the two agree on text inside the Basic Multilingual Plane. Asynchronous handlers are split into a
synchronous `Begin…` method and a `Complete…` method that receives the
settled reply. Timers are explicit events: `TimerFires` in a read, and
`Tick` for the chat.

The page's read specification (`Builder.OnLine` through `Builder.ConsumeSpec`)
takes the extraction as a function parameter. `Builder.BuilderPage`'s
methods pass `Extractor.ExtractHtml`, so the class follows the page exactly.
The lemmas about reading hold for every extraction, and so for
`extractHtml` too.

The model keeps the following behaviour exactly as the code has it:

- **Missing `html` on `/api/generate`.** The route checks only
  `screenshot` and `prompt`. On a missing `html`, `html.slice(0, 30000)`
  throws inside the route's `try`, so the request gets the 500 "Failed to start
  generation" response (app/api/generate/route.ts:31, 84-89). `GenerateRoute.Post`
  returns that.
- **Debounce rescheduling.** The debounce timer is replaced only when a
  new delta gives a non-empty extraction, not on every
  delta (app/builder/page.tsx:121-124).
- **Error frame during an iteration.** When the stream ends with an error
  frame, `consumeStream` returns normally. The page shows the error, and the
  iteration count still goes up (app/builder/page.tsx:109-113, 226-227).

## Model

| member | source | states |
|---|---|---|
| JsString.Trim | app/builder/page.tsx:18-25 | `trim()`: the result has no whitespace at either end, is a contiguous slice of the input, and only whitespace was removed on each side |
| JsString.TrimOfPadded | app/builder/page.tsx:18-25 | trimming whitespace + a trimmed string + whitespace gives back that string |
| JsString.TrimIgnoresPadding | app/builder/page.tsx:18-25 | extra whitespace around any string does not change its trim |
| JsString.SkipWs | app/builder/page.tsx:17 | the greedy `\s*` stops at the end of the maximal whitespace run |
| JsString.IndexOf | app/builder/page.tsx:17 | `Some(i)` is the first occurrence at or after `from`; `None` means there is none |
| JsString.OccurrenceInSlice | app/builder/page.tsx:17 | a pattern occurs in a slice exactly where it occurs in the whole string (both directions) |
| JsString.Split | app/builder/page.tsx:97 | `split("\n")`: no piece contains the separator, and joining the pieces gives back the input |
| JsString.SplitJoin | app/builder/page.tsx:97 | splitting the join of separator-free pieces gives back exactly those pieces |
| JsString.SliceTo | lib/claude.ts:35 | `slice(0, n)` has length min(n, length) and is a prefix |
| Extractor.ExtractHtml | app/builder/page.tsx:15-26 | `extractHtml`: the result is always trimmed |
| Extractor.ClosedFence | app/builder/page.tsx:17-18 | with a closing fence after the group start, the closed-fence expression matches from the first marker to the first such fence, the result is the trimmed text between them, and it contains no fence |
| Extractor.OpenFence | app/builder/page.tsx:21-22 | with an open but unclosed fence, the result is the trimmed rest of the text, without a fence |
| Extractor.NoFence | app/builder/page.tsx:25 | without an opening marker, the result is the whole text trimmed |
| Extractor.ClosedBeatsOpen | app/builder/page.tsx:17-22 | with no fence after the first marker's group start, the closed-fence expression has no match at all (from any marker, with any split of the whitespace between `\s*` and `\n?`), and the result is the trimmed rest after the group start |
| Extractor.Idempotent | app/builder/page.tsx:15-26 | extracting from an extraction changes nothing |
| Extractor.ExtractFenced | app/builder/page.tsx:17-18 | a lead-in without backticks, then `` ```html ``, a fence-free body, `` ``` `` and anything after, yields the trimmed body |
| Claude.VisionMessageShape | lib/claude.ts:16-40 | one user message: the base64 PNG image block with the screenshot, then a text block holding the first 30000 characters of the HTML after the fixed preamble and ending with "User request: " and the prompt |
| Claude.IterationMessageShape | lib/claude.ts:42-52 | one user message whose text has the preamble, the current HTML inside an html fence, and the instruction at the end |
| Claude.IterationRoundTrip | lib/claude.ts:49 | extracting from the iteration message gives back the trimmed current HTML when that HTML contains no fence |
| Sse.HexDigit | app/api/generate/route.ts:59 | the lower-case hex digit of n reads back as n |
| Sse.QuoteJsonRoundTrip | app/api/generate/route.ts:59 | decoding `JSON.stringify(s)` as a JSON string gives back `s` |
| Sse.EscapeRoundTrip | app/api/generate/route.ts:59 | unescaping the escaped body gives back the string |
| Sse.EscapeIsPrintable | app/api/generate/route.ts:59 | an escaped string holds no control character |
| Sse.PayloadIsOneLine | app/api/generate/route.ts:59-71 | no frame payload (text, `[DONE]` or error) contains a line feed, so each frame is one `data:` line and a blank line |
| Gateway.Pump | app/api/generate/route.ts:49-73 | the frames are one text frame per text delta, in order, then exactly one terminal frame (`[DONE]`, or the error frame with the route's message when the backend throws); the counters are the number of deltas and their total length |
| Gateway.TextFramesAreDeltas | app/api/generate/route.ts:50-61 | only text deltas make frames; each is a text frame carrying its delta's text; their texts concatenated are the delta texts |
| Gateway.ExactlyOneTerminal | app/api/generate/route.ts:63-72 | every stream has exactly one terminal frame, and it is the last one |
| GenerateRoute.Post | app/api/generate/route.ts:8-91 | an unparsable body or a failing client or stream start gives 500 "Failed to start generation"; a missing screenshot or prompt gives 400 with no backend call; otherwise one call with model, 16000 tokens, the generation prompt and the vision messages, answered by an event stream of the pumped frames |
| IterateRoute.Post | app/api/iterate/route.ts:12-96 | the same for iteration: 400 "Current HTML and instruction are required" with no call; 500 "Failed to start iteration"; otherwise one call with the iteration prompt and messages, streamed with "Iteration failed" as the failure frame |
| Builder.FinishedCommits | app/builder/page.tsx:88-142 | on a normal end the accumulator grew by exactly the text of the frames read, no timer is pending, and a non-empty final extraction is both generated and shown |
| Builder.ConsumeFinished | app/builder/page.tsx:84-142 | after a normal end the accumulator holds exactly the text of every frame in the body (it is reset first) |
| Builder.NeverBlanks | app/builder/page.tsx:120-142 | on every path, an empty extraction never overwrites the generated or the displayed HTML, and the timer never holds an empty one |
| Builder.ErrorFrameStops | app/builder/page.tsx:109-113 | an error frame ends the read, with its non-empty message as the page error |
| Builder.EventStep | app/builder/page.tsx:88-129 | a read event that does not stop the read appends exactly its frames' text; a stop is never a normal end |
| Builder.SkippedLines | app/builder/page.tsx:102-127 | `[DONE]` and unparsable payloads are skipped without ending the read |
| Builder.SplitFrameIsDropped | app/builder/page.tsx:96-99 | a frame cut by a chunk boundary inside its payload is lost, given that the cut part does not parse and the rest does not start with `data: `, because each chunk is split on its own |
| Builder.PrefixCutIsDropped | app/builder/page.tsx:96-99 | a frame cut by a chunk boundary inside its `data: ` prefix is lost whatever its payload, since neither piece is a `data: ` line |
| Builder.StopIsFinal | app/builder/page.tsx:87-112 | once an error frame or a rejected read ends the read, the events after it change neither the state nor the outcome |
| Builder.DeployPromptShape | app/builder/page.tsx:239-251 | empty without builder data; otherwise it starts with the site URL and ends with the whole generated HTML in an html fence |
| Builder.BuilderPage.ConsumeStream | app/builder/page.tsx:76-143 | the new page state and the outcome are those of the read specification: no body throws "No response body"; otherwise reset, read chunk by chunk, stop at an error frame or a rejected read, final commit; the page invariant is kept |
| Builder.BuilderPage.ProcessLine | app/builder/page.tsx:100-128 | one line changes the state as the line specification says, and reports a stop exactly when it makes one |
| Builder.BuilderPage.ProcessChunk | app/builder/page.tsx:96-129 | a chunk's lines, in order, up to the first stop |
| Builder.BuilderPage.UpdateDisplayDebounced | app/builder/page.tsx:67-74 | the pending display value is replaced by the latest HTML, which is non-empty as at its one call site, so the page invariant (the timer only holds non-empty HTML) is kept |
| Builder.BuilderPage.FireDebounceTimer | app/builder/page.tsx:71-73 | the pending HTML is shown and nothing is pending any more |
| Builder.BuilderPage.BeginGenerate | app/builder/page.tsx:145-172 | nothing without builder data; otherwise busy, error cleared, request built from the builder data |
| Builder.BuilderPage.CompleteGenerate | app/builder/page.tsx:175-190 | a failed request shows the server's message or "Generation failed"; an ok reply runs the stream and shows its thrown message; the page is never left busy |
| Builder.BuilderPage.BeginIterate | app/builder/page.tsx:193-218 | does nothing if the trimmed instruction is empty, a call is running, or nothing has been generated; otherwise takes the trimmed instruction, clears the box, sets busy, clears the error, and builds the request with the current HTML and the URL (or "") |
| Builder.BuilderPage.CompleteIterate | app/builder/page.tsx:221-236 | as for generation with "Iteration failed"; the count goes up by one exactly when the stream returned (an error frame included) |
| Builder.BuilderPage.EditInstruction | app/builder/page.tsx:351 | the instruction is the edited text |
| Pipeline.SplitWire | app/builder/page.tsx:97 | splitting what the gateway wrote on `"\n"` gives each frame's `data:` line, a blank line, and a final empty piece |
| Pipeline.CleanBody | app/builder/page.tsx:88-129 | whole-frame chunks with no error frame are read to a normal end, and the page sees the texts of all their frames, however the frames are grouped into chunks |
| Pipeline.ErrorBody | app/builder/page.tsx:109-113 | whole-frame chunks ending with an error frame end the read with that error, wherever the chunk boundaries fall |
| Pipeline.ErrorSkipsFinalCommit | app/builder/page.tsx:107-142 | a text frame then an error frame in one chunk: the read stops with that error and the text kept, the HTML the text produced stays only scheduled, and the shown HTML is untouched because the final commit is skipped |
| Pipeline.DoneCommitsFinal | app/builder/page.tsx:100-142 | the same text frame then `[DONE]`: the read finishes, nothing is left scheduled, and a non-empty extraction is generated and shown at once |
| Pipeline.StreamRoundTrip | app/api/generate/route.ts:49-73 | the gateway's stream, read by the page: after a normal end the page holds exactly the model's text and shows its final extraction; after a backend failure it reports the route's message |
| Landing.NormalizeUrl | app/page.tsx:28-32 | the result always has an http or https scheme; a trimmed URL that has one, in any letter case, is kept; otherwise "https://" is put in front of it |
| Landing.NormalizeIdempotent | app/page.tsx:28-32 | normalising twice is normalising once |
| Landing.SchemeIsPrefix | app/page.tsx:29 | for every input, the scheme test holds exactly when the string, with ASCII letters folded to lower case, starts with `http://` or `https://` |
| Landing.SchemeExamples | app/page.tsx:29 | the scheme test ignores letter case and accepts only `http://` and `https://` |
| Landing.Handoff | app/page.tsx:64-73 | the stored builder data carries the capture's url, screenshot, html and title, and the goal |
| Landing.Home.BeginScrape | app/page.tsx:21-43 | an empty trimmed URL sets "Please enter a URL" and makes no request; otherwise requests the normalised URL, writes it back only when a scheme was added, sets loading and clears the error |
| Landing.Home.CompleteScrape | app/page.tsx:44-58 | success stores the capture and moves to step 2; failure shows the server's message, the default, or the thrown message, and leaves the step; loading ends on every path |
| Landing.Home.HandleGenerate | app/page.tsx:61-76 | nothing without a trimmed goal and a capture; otherwise stores the hand-off with the trimmed goal and leaves for the builder |
| Landing.Home.Change | app/page.tsx:196-199 | back to step 1, with the capture dropped |
| Landing.Home.EditUrl | app/page.tsx:110-113 | the URL is the edited text and the error is cleared |
| Landing.Home.EditPrompt | app/page.tsx:209 | the goal is the edited text |
| Slack.ThreeStatic | frontend/slack-conversation.tsx:55-129 | exactly the first three messages are static, so `staticCount` is 3 |
| Slack.Rows | frontend/slack-conversation.tsx:476-491 | the first `visibleCount` messages are rendered; message i animates iff i ≥ `staticCount`, and is grouped iff i > 0 and it shares user and time with message i-1 |
| Slack.NoneGrouped | frontend/slack-conversation.tsx:55-112 | in this conversation no message is grouped with the one above it |
| Slack.PlayOnce | frontend/slack-conversation.tsx:134-148 | playing has an effect only once; with reduced motion all seven messages show at once with no typing; otherwise the three static messages show, with the next message's delay pending |
| Slack.TickStep | frontend/slack-conversation.tsx:148-161 | each timer firing keeps the invariant; a delay starts typing as the next message's user; the end of typing clears the indicator and reveals exactly one more message, never beyond the last |
| Slack.RevealsAll | frontend/slack-conversation.tsx:143-163 | from any pending delay, two firings per remaining message reveal the whole conversation and leave nothing pending |
| Slack.Settled | frontend/slack-conversation.tsx:148 | once nothing is pending, further firings change nothing |
| Slack.AnimatedRun | frontend/slack-conversation.tsx:134-166 | after playing, eight firings reveal all seven messages |
| Slack.ReducedRun | frontend/slack-conversation.tsx:138-141 | with reduced motion all messages show at once and no firing ever follows |
| Slack.MessageSequence.PlaySequence | frontend/slack-conversation.tsx:134-166 | the hook's state after `playSequence` is the play specification's |
| Slack.MessageSequence.Tick | frontend/slack-conversation.tsx:150-160 | the hook's state after a timer fires is the firing specification's |

## Left out

- The scraper, the `/api/scrape` route, `lib/prompts.ts` and the Anthropic client singleton are not part of this model. The system prompts are opaque constants (`Gateway.SystemPrompt`). The `CLAUDE_MODEL` lookup is the `model` parameter of the routes.
- `JSON.parse` on the page is a parameter `parse`. `Pipeline.ParsesFrames` says that it reads back the payloads the gateway writes. `Sse.QuoteJsonRoundTrip` is the string part of that. The `error` and `text` fields are strings, with "" standing for a missing or falsy field.
- `TextDecoder`, `TextEncoder` and byte chunking: reader chunks are already-decoded strings, so encoding errors are not modelled.
- String lengths and `slice` count Unicode scalar values, not UTF-16 code units: a character outside the Basic Multilingual Plane counts 1 here and 2 in JavaScript. So `Claude.BuildVisionMessages`'s `html.slice(0, 30000)` (lib/claude.ts:35) keeps more characters here than in JavaScript on such input, and never splits a surrogate pair.
- Request fields are assumed to be strings or absent. A non-string `prompt` (app/api/generate/route.ts:19) or `instruction` (app/api/iterate/route.ts:22) makes `?.slice` throw, which the route's catch turns into a 500 reply. The model's request bodies cannot express such a field.
- Wall-clock time: timers are explicit events. The 500 ms debounce, 800 ms typing and per-message delays are recorded, not timed. Concurrency between a firing timer and a read is reduced to the order of events.
- Logging, `Date.now`, the phase text and its `setTimeout`, the clipboard, the "copied" flag, the deploy dialog, and all markup and animation.
- The builder page's `sessionStorage` loading and redirect, and the effect that starts generation on load. The constructor takes the loaded data; starting generation is a call to `BeginGenerate`.
- The chat's `isInView` trigger and its `prefers-reduced-motion` query: the caller calls `PlaySequence`, and reduced motion is a constructor parameter. Message reactions and user avatars are presentation only.
- The landing page's button and Enter-key guards (`disabled={loading}` and the like) are not modelled. The model's methods can be called in any state.
- Lone surrogates: `JSON.stringify` escapes them as `\uXXXX`. Here a `char` is never a surrogate, so that branch of the encoding is not modelled.

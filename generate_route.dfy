/**
 * `POST /api/generate`: validate the body, start a vision request to the
 * backend, and stream its text back as frames.
 */
module GenerateRoute {
  import opened Wrappers
  import opened Sse
  import opened Claude
  import opened Gateway

  /** The request body: unparsable JSON, or the fields the route reads
      (`None` for an absent field; `url` is only logged). */
  datatype Body = Unparsable | Body(screenshot: Option<string>, html: Option<string>, prompt: Option<string>)

  const MissingFields: string := "Screenshot and prompt are required"
  const StartFailed: string := "Failed to start generation"
  const StreamFailed: string := "Generation failed"

  /** `POST(request)`: `call` is the backend request made, if any. */
  method Post(model: string, body: Body, backend: Backend) returns (call: Option<BackendRequest>, response: Response)
    ensures body.Unparsable? ==> call == None && response == JsonError(500, ErrorObject(StartFailed))
    ensures body.Body? && !(Truthy(body.screenshot) && Truthy(body.prompt)) ==>
      call == None && response == JsonError(400, ErrorObject(MissingFields))
    ensures body.Body? && Truthy(body.screenshot) && Truthy(body.prompt) ==>
      if backend.clientFails || body.html.None? then
        call == None && response == JsonError(500, ErrorObject(StartFailed))
      else
        call == Some(BackendRequest(model, MaxTokens, GenerationSystemPrompt,
                                    BuildVisionMessages(body.screenshot.value, body.html.value, body.prompt.value)))
        && response == if backend.startFails then JsonError(500, ErrorObject(StartFailed))
                       else StreamOf(TextFrames(backend.stream.events) + [Terminal(backend.stream.fails, StreamFailed)])
  {
    call := None;
    if body.Unparsable? {
      return call, JsonError(500, ErrorObject(StartFailed));
    }
    if !Truthy(body.screenshot) || !Truthy(body.prompt) {
      return call, JsonError(400, ErrorObject(MissingFields));
    }
    if backend.clientFails || body.html.None? {
      // the client constructor throws, or `html.slice` on a missing field does
      return call, JsonError(500, ErrorObject(StartFailed));
    }
    var messages := BuildVisionMessages(body.screenshot.value, body.html.value, body.prompt.value);
    call := Some(BackendRequest(model, MaxTokens, GenerationSystemPrompt, messages));
    if backend.startFails {
      return call, JsonError(500, ErrorObject(StartFailed));
    }
    var frames, chunkCount, totalChars := Pump(backend.stream, StreamFailed);
    response := StreamOf(frames);
  }
}

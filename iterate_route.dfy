/**
 * `POST /api/iterate`: validate the body, start an iteration request to the
 * backend, and stream its text back as frames.
 */
module IterateRoute {
  import opened Wrappers
  import opened Sse
  import opened Claude
  import opened Gateway

  /** The request body: unparsable JSON, or the fields the route reads
      (`None` for an absent field; `url` is only logged). */
  datatype Body = Unparsable | Body(currentHtml: Option<string>, instruction: Option<string>)

  const MissingFields: string := "Current HTML and instruction are required"
  const StartFailed: string := "Failed to start iteration"
  const StreamFailed: string := "Iteration failed"

  /** `POST(request)`: `call` is the backend request made, if any. */
  method Post(model: string, body: Body, backend: Backend) returns (call: Option<BackendRequest>, response: Response)
    ensures body.Unparsable? ==> call == None && response == JsonError(500, ErrorObject(StartFailed))
    ensures body.Body? && !(Truthy(body.currentHtml) && Truthy(body.instruction)) ==>
      call == None && response == JsonError(400, ErrorObject(MissingFields))
    ensures body.Body? && Truthy(body.currentHtml) && Truthy(body.instruction) ==>
      if backend.clientFails then
        call == None && response == JsonError(500, ErrorObject(StartFailed))
      else
        call == Some(BackendRequest(model, MaxTokens, IterationSystemPrompt,
                                    BuildIterationMessages(body.currentHtml.value, body.instruction.value)))
        && response == if backend.startFails then JsonError(500, ErrorObject(StartFailed))
                       else StreamOf(TextFrames(backend.stream.events) + [Terminal(backend.stream.fails, StreamFailed)])
  {
    call := None;
    if body.Unparsable? {
      return call, JsonError(500, ErrorObject(StartFailed));
    }
    if !Truthy(body.currentHtml) || !Truthy(body.instruction) {
      return call, JsonError(400, ErrorObject(MissingFields));
    }
    if backend.clientFails {
      return call, JsonError(500, ErrorObject(StartFailed));
    }
    var messages := BuildIterationMessages(body.currentHtml.value, body.instruction.value);
    call := Some(BackendRequest(model, MaxTokens, IterationSystemPrompt, messages));
    if backend.startFails {
      return call, JsonError(500, ErrorObject(StartFailed));
    }
    var frames, chunkCount, totalChars := Pump(backend.stream, StreamFailed);
    response := StreamOf(frames);
  }
}

/** The global error layer of the `core` generation. Every response leaving the service with a
    4xx or 5xx status gets a JSON body: a JSON body is kept, any other body is wrapped into the
    error envelope; a failure of the wrapped service becomes a 500 envelope. */
module CoreErrorLayer {
  import opened Wrappers
  import opened Json
  import opened Http
  import CoreError

  /** `handle_response`: success and informational responses pass through untouched. */
  function HandleResponse(res: Response): (r: Response)
    ensures r.status == res.status
    ensures !IsErrorStatus(res.status) ==> r == res
    ensures IsErrorStatus(res.status) ==> r.body.JsonBody?
    ensures IsErrorStatus(res.status) && res.body.JsonBody? ==> r == res
    ensures IsErrorStatus(res.status) && res.body.TextBody? ==>
              CoreError.FromJson(r.body.value) == Some(CoreError.New(res.status, res.body.text))
    ensures IsErrorStatus(res.status) && res.body.Unreadable? ==>
              CoreError.FromJson(r.body.value) == Some(CoreError.New(res.status, ""))
  {
    if !IsErrorStatus(res.status) then res
    else match res.body
      case JsonBody(_) => HandleJsonError(res)
      case TextBody(text) => HandleTextError(res.status, text)
      // a body that cannot be collected is read as no bytes at all, which is not JSON
      case Unreadable => HandleTextError(res.status, "")
  }

  /** `handle_json_error`: the parts and the JSON value are kept as they are. */
  function HandleJsonError(res: Response): Response {
    res
  }

  /** `handle_text_error`: the text becomes the message of an envelope with the same status. */
  function HandleTextError(status: int, text: string): Response
    requires IsErrorStatus(status)
  {
    CoreError.IntoResponse(CoreError.New(status, text))
  }

  /** `GlobalErrorService::call`: the inner service's response goes through `handle_response`;
      its failure (carried as its display text) becomes a 500 with that text as the message. */
  function Call(outcome: Result<Response, string>): (r: Response)
    ensures outcome.Success? ==> r.status == outcome.value.status && r == HandleResponse(outcome.value)
    ensures outcome.Failure? ==>
              r.status == INTERNAL_SERVER_ERROR && r.body.JsonBody? &&
              CoreError.FromJson(r.body.value) == Some(CoreError.ServerError(outcome.error))
  {
    match outcome
    case Success(res) => HandleResponse(res)
    case Failure(text) => CoreError.IntoResponse(CoreError.FromAnyhow(text))
  }

  /** Passing a response through the layer twice is the same as once. */
  lemma HandleResponseIdempotent(res: Response)
    ensures HandleResponse(HandleResponse(res)) == HandleResponse(res)
  {
  }

  /** An error the service raises itself reaches the client unchanged. */
  lemma ErrorEnvelopeKept(e: CoreError.HttpError)
    requires IsErrorStatus(e.status)
    ensures HandleResponse(CoreError.IntoResponse(e)) == CoreError.IntoResponse(e)
  {
  }

  /** Every error response leaving the layer has a JSON body; no other response is touched. */
  lemma {:induction false} CallErrorsAreJson(outcome: Result<Response, string>)
    ensures IsErrorStatus(Call(outcome).status) ==> Call(outcome).body.JsonBody?
    ensures outcome.Success? && !IsErrorStatus(outcome.value.status) ==> Call(outcome) == outcome.value
  {
  }
}

/** The error type of the older (`ctx`) generation of the service: a status and a message,
    serialized as a two-member JSON object. */
module ModelsError {
  import opened Wrappers
  import opened Json
  import opened Http

  datatype HttpError = HttpError(status: int, message: string)

  /** `HttpError::new`: a status code (always three digits) and a message. */
  function New(status: int, message: string): (e: HttpError)
    requires IsValidStatus(status)
    ensures e.status == status && e.message == message
  {
    HttpError(status, message)
  }

  /** The serialized error: `status`, then `message`. */
  function ToJson(e: HttpError): Json {
    JObject([("status", JNumber(e.status)), ("message", JString(e.message))])
  }

  /** Reads an error back from its JSON form. */
  function FromJson(v: Json): Option<HttpError> {
    match (Get(v, "status"), Get(v, "message"))
    case (Some(JNumber(status)), Some(JString(message))) => Some(HttpError(status, message))
    case _ => None
  }

  /** The JSON body carries everything the error holds. */
  lemma ToJsonRoundTrip(e: HttpError)
    ensures FromJson(ToJson(e)) == Some(e)
  {
    var ms := ToJson(e).members;
    assert Lookup(ms, "status") == Some(JNumber(e.status));
    assert "message" != "status";
    assert Lookup(ms[1..], "message") == Some(JString(e.message));
  }

  /** `IntoResponse`: the error's own status (a server error if it were not a valid code)
      and the error as a JSON body. */
  function IntoResponse(e: HttpError): (r: Response)
    ensures IsValidStatus(e.status) ==> r.status == e.status
    ensures !IsValidStatus(e.status) ==> r.status == INTERNAL_SERVER_ERROR
    ensures r.body.JsonBody? && FromJson(r.body.value) == Some(e)
  {
    ToJsonRoundTrip(e);
    Response(if IsValidStatus(e.status) then e.status else INTERNAL_SERVER_ERROR, JSON_HEADERS, JsonBody(ToJson(e)))
  }
}

/** The global error layer of the older (`ctx`) generation. Every 4xx or 5xx response is rebuilt
    as a `{status, message}` envelope: from a JSON body its `message` member is taken (or
    "Unknown server error" when it has none), from any other body its text. */
module CtxErrorLayer {
  import opened Wrappers
  import opened Json
  import opened Http
  import ModelsError

  const UNKNOWN_ERROR: string := "Unknown server error"

  /** The `message` member of a JSON body, or the default string when there is none. */
  function MessageValue(json: Json): (m: Json)
    ensures Get(json, "message").Some? ==> m == Get(json, "message").value
    ensures Get(json, "message").None? ==> m == JString(UNKNOWN_ERROR)
  {
    Get(json, "message").GetOr(JString(UNKNOWN_ERROR))
  }

  // ---------------------------------------------------------------------------
  // As written: the message is the member's JSON text (`Value::to_string`)
  // ---------------------------------------------------------------------------

  /** `handle_json_error` as written: `message.to_string()` renders the JSON value, so a
      string message keeps its quotes. */
  function HandleJsonErrorAsWritten(status: int, json: Json): Response
    requires IsErrorStatus(status)
  {
    ModelsError.IntoResponse(ModelsError.New(status, Serialize(MessageValue(json))))
  }

  /** `handle_response` as written. */
  function HandleResponseAsWritten(res: Response): (r: Response)
    ensures r.status == res.status
    ensures !IsErrorStatus(res.status) ==> r == res
    ensures IsErrorStatus(res.status) && res.body.JsonBody? ==>
              r.body.JsonBody? &&
              ModelsError.FromJson(r.body.value) == Some(ModelsError.New(res.status, Serialize(MessageValue(res.body.value))))
    ensures IsErrorStatus(res.status) && res.body.TextBody? ==>
              r.body.JsonBody? && ModelsError.FromJson(r.body.value) == Some(ModelsError.New(res.status, res.body.text))
    ensures IsErrorStatus(res.status) && res.body.Unreadable? ==>
              r.body.JsonBody? && ModelsError.FromJson(r.body.value) == Some(ModelsError.New(res.status, ""))
  {
    if !IsErrorStatus(res.status) then res
    else match res.body
      case JsonBody(json) => HandleJsonErrorAsWritten(res.status, json)
      case TextBody(text) => HandleTextError(res.status, text)
      case Unreadable => HandleTextError(res.status, "")
  }

  /** The layer's own envelope, sent through it again, comes out with its message wrapped in
      one more pair of quotes: a 404 "Not Found" becomes a 404 "\"Not Found\"". */
  lemma {:induction false} AsWrittenRequotesMessage(status: int, message: string)
    requires IsErrorStatus(status)
    ensures var once := ModelsError.IntoResponse(ModelsError.New(status, message));
            var twice := HandleResponseAsWritten(once);
            ModelsError.FromJson(twice.body.value) == Some(ModelsError.New(status, Quote(message))) &&
            Quote(message) != message
  {
    var once := ModelsError.IntoResponse(ModelsError.New(status, message));
    var ms := once.body.value.members;
    assert "message" != "status";
    assert Lookup(ms[1..], "message") == Some(JString(message));
    assert MessageValue(once.body.value) == JString(message);
    assert |Quote(message)| == |Escape(message)| + 2;
    EscapeLength(message);
  }

  /** Escaping never shortens a string. */
  lemma {:induction false} EscapeLength(s: string)
    ensures |Escape(s)| >= |s|
    decreases |s|
  {
    if s != [] {
      EscapeLength(s[1..]);
    }
  }

  // ---------------------------------------------------------------------------
  // Corrected: a string message is used as its content
  // ---------------------------------------------------------------------------

  /** The text of a message value: a string's own characters, any other value's JSON text. */
  function MessageText(v: Json): (t: string)
    ensures v.JString? ==> t == v.s
  {
    if v.JString? then v.s else Serialize(v)
  }

  function HandleJsonError(status: int, json: Json): Response
    requires IsErrorStatus(status)
  {
    ModelsError.IntoResponse(ModelsError.New(status, MessageText(MessageValue(json))))
  }

  /** `handle_text_error`: the text becomes the message of an envelope with the same status. */
  function HandleTextError(status: int, text: string): Response
    requires IsErrorStatus(status)
  {
    ModelsError.IntoResponse(ModelsError.New(status, text))
  }

  /** `handle_response` with the corrected `handle_json_error`: it differs from the layer as
      written only for a JSON body whose message is a string. */
  function HandleResponse(res: Response): (r: Response)
    ensures r.status == res.status
    ensures !IsErrorStatus(res.status) ==> r == res
    ensures IsErrorStatus(res.status) ==> r.body.JsonBody? && ModelsError.FromJson(r.body.value).Some?
    ensures IsErrorStatus(res.status) && res.body.TextBody? ==>
              ModelsError.FromJson(r.body.value) == Some(ModelsError.New(res.status, res.body.text))
    ensures !(res.body.JsonBody? && MessageValue(res.body.value).JString?) ==> r == HandleResponseAsWritten(res)
  {
    if !IsErrorStatus(res.status) then res
    else match res.body
      case JsonBody(json) => HandleJsonError(res.status, json)
      case TextBody(text) => HandleTextError(res.status, text)
      case Unreadable => HandleTextError(res.status, "")
  }

  /** An envelope the service built itself passes through unchanged. */
  lemma {:induction false} EnvelopeKept(status: int, message: string)
    requires IsErrorStatus(status)
    ensures var e := ModelsError.IntoResponse(ModelsError.New(status, message));
            HandleResponse(e) == e
  {
    var once := ModelsError.IntoResponse(ModelsError.New(status, message));
    var ms := once.body.value.members;
    assert "message" != "status";
    assert Lookup(ms[1..], "message") == Some(JString(message));
    assert MessageValue(once.body.value) == JString(message);
  }

  /** Passing a response through the layer twice is the same as once. */
  lemma HandleResponseIdempotent(res: Response)
    ensures HandleResponse(HandleResponse(res)) == HandleResponse(res)
  {
    if IsErrorStatus(res.status) {
      var r := HandleResponse(res);
      var e := ModelsError.FromJson(r.body.value).value;
      assert r == ModelsError.IntoResponse(ModelsError.New(res.status, e.message));
      EnvelopeKept(res.status, e.message);
    }
  }

  /** `GlobalErrorService::call`: the wrapped service's response goes through the layer as
      written; its failure becomes a 500 envelope carrying the failure's display text. */
  function Call(outcome: Result<Response, string>): (r: Response)
    ensures outcome.Success? ==> r.status == outcome.value.status && r == HandleResponseAsWritten(outcome.value)
    ensures outcome.Failure? ==>
              r.status == INTERNAL_SERVER_ERROR && r.body.JsonBody? &&
              ModelsError.FromJson(r.body.value) == Some(ModelsError.New(INTERNAL_SERVER_ERROR, outcome.error))
  {
    match outcome
    case Success(res) => HandleResponseAsWritten(res)
    case Failure(text) => ModelsError.IntoResponse(ModelsError.New(INTERNAL_SERVER_ERROR, text))
  }

  /** `GlobalErrorService::call` with the corrected layer: an envelope the service built
      comes out of the layer as it went in. */
  function CallIntended(outcome: Result<Response, string>): (r: Response)
    ensures outcome.Success? ==> r.status == outcome.value.status && r == HandleResponse(outcome.value)
    ensures outcome.Failure? ==> r == Call(outcome)
    ensures outcome.Success? && !IsErrorStatus(outcome.value.status) ==> r == Call(outcome)
  {
    match outcome
    case Success(res) => HandleResponse(res)
    case Failure(text) => ModelsError.IntoResponse(ModelsError.New(INTERNAL_SERVER_ERROR, text))
  }
}

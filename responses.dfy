/** How the `core` handlers turn service outcomes into answers: a database failure is a 500
    carrying the error's text, a missing row on an edit is a 404, and a delete answers 202
    with a small success object. */
module Responses {
  import opened Wrappers
  import opened Json
  import opened Http
  import opened Models
  import opened CoreError

  /** `map_err(|e| HttpError::server_error(e.to_string()))`. */
  function DbFailure(e: DbError): (h: HttpError)
    ensures h.status == INTERNAL_SERVER_ERROR && h.message == DbErrorText(e) && h.errors.None?
  {
    ServerError(DbErrorText(e))
  }

  /** A service result with its failure mapped to a 500. */
  function OrServerError<T>(r: Result<T, DbError>): (out: Result<T, HttpError>)
    ensures out.Success? <==> r.Success?
    ensures out.Success? ==> out.value == r.value
    ensures out.Failure? ==> out.error == DbFailure(r.error)
  {
    match r
    case Success(v) => Success(v)
    case Failure(e) => Failure(DbFailure(e))
  }

  /** The edit handlers' mapping: `RowNotFound` is a 404 with the handler's message, any
      other failure a 500. */
  function EditFailure(e: DbError, notFound: string): (h: HttpError)
    ensures h.status == NOT_FOUND <==> e.RowNotFound?
    ensures e.RowNotFound? ==> h == NotFound(notFound)
    ensures !e.RowNotFound? ==> h == DbFailure(e)
  {
    match e
    case RowNotFound => NotFound(notFound)
    case _ => DbFailure(e)
  }

  /** `(StatusCode::ACCEPTED, Json(json!({"success": true, "message": message})))`. */
  function Accepted(message: string): (r: Response)
    ensures r.status == ACCEPTED && r.body.JsonBody?
    ensures Get(r.body.value, "success") == Some(JBool(true))
    ensures Get(r.body.value, "message") == Some(JString(message))
  {
    var body := JObject([("success", JBool(true)), ("message", JString(message))]);
    assert "message" != "success";
    Response(ACCEPTED, JSON_HEADERS, JsonBody(body))
  }
}

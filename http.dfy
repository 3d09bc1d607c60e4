/** The slice of HTTP the service's layers look at: request methods, status classes,
    response bodies, the `Authorization` header and the per-request extensions. */
module Http {
  import opened Wrappers
  import opened Text
  import opened Json

  /** Request methods; every method other than the five the service routes is `Other`. */
  datatype Method = GET | POST | PUT | PATCH | DELETE | Other(name: string)

  /** `StatusCode::is_client_error`. */
  predicate IsClientError(status: int) {
    400 <= status <= 499
  }

  /** `StatusCode::is_server_error`. */
  predicate IsServerError(status: int) {
    500 <= status <= 599
  }

  predicate IsErrorStatus(status: int) {
    IsClientError(status) || IsServerError(status)
  }

  /** `StatusCode::from_u16` succeeds exactly on three-digit codes. */
  predicate IsValidStatus(code: int) {
    100 <= code <= 999
  }

  const OK: int := 200
  const CREATED: int := 201
  const ACCEPTED: int := 202
  const BAD_REQUEST: int := 400
  const UNAUTHORIZED: int := 401
  const FORBIDDEN: int := 403
  const NOT_FOUND: int := 404
  const CONFLICT: int := 409
  const TOO_MANY_REQUESTS: int := 429
  const INTERNAL_SERVER_ERROR: int := 500

  /** A response body as the error layers see it once collected: bytes that parse as JSON,
      bytes that do not (held as their lossy UTF-8 text), or a body stream that fails to collect. */
  datatype Body = JsonBody(value: Json) | TextBody(text: string) | Unreadable

  datatype Response = Response(status: int, headers: seq<(string, string)>, body: Body)

  const JSON_HEADERS: seq<(string, string)> := [("content-type", "application/json")]

  /** `HeaderValue::to_str`: succeeds when every byte is visible ASCII or a tab.
      A header value's bytes are held as characters below 256. */
  function HeaderToStr(raw: string): (r: Option<string>)
    ensures r.Some? ==> r.value == raw
  {
    if forall i :: 0 <= i < |raw| ==> raw[i] == '\t' || ' ' <= raw[i] <= '~' then Some(raw) else None
  }

  /** The bearer token of a request: the second space-separated word of a readable
      `Authorization` header. The first word (the scheme) is never looked at. */
  function BearerToken(authorization: Option<string>): Option<string> {
    if authorization.None? then None
    else match HeaderToStr(authorization.value)
      case None => None
      case Some(value) =>
        var words := Split(value, ' ');
        if |words| >= 2 then Some(words[1]) else None
  }

  /** A token is found exactly when the header is present, readable and holds a space. */
  lemma BearerTokenFound(authorization: Option<string>)
    ensures BearerToken(authorization).Some? <==>
              authorization.Some? && HeaderToStr(authorization.value).Some? && ' ' in authorization.value
  {
  }

  /** Whatever the scheme word says, the token is the word after it: "Basic x" yields "x". */
  lemma {:induction false} TokenIgnoresScheme(scheme: string, token: string)
    requires ' ' !in scheme && ' ' !in token
    requires HeaderToStr(scheme + " " + token).Some?
    ensures BearerToken(Some(scheme + " " + token)) == Some(token)
  {
    SplitOfJoin([scheme, token], ' ');
    assert Join([scheme, token], " ") == scheme + " " + token;
  }

  /** An inbound request: what the layers read (the method, here `verb`, the path, `Authorization` header) and the
      extension slot the authentication gate writes the authenticated user id into. */
  class Request {
    const verb: Method
    const path: string
    const authorization: Option<string>
    var authUser: Option<string>

    constructor (verb: Method, path: string, authorization: Option<string>)
      ensures this.verb == verb && this.path == path && this.authorization == authorization
      ensures authUser == None
    {
      this.verb := verb;
      this.path := path;
      this.authorization := authorization;
      authUser := None;
    }
  }
}

/** The service's error type (the `core` generation): a status, a message and, for a failed
    request-body validation, the per-field messages. It is turned into a JSON response. */
module CoreError {
  import opened Wrappers
  import opened Text
  import opened Json
  import opened Http
  import opened Validator

  /** One field's entry in the `errors` list. */
  datatype FieldError = FieldError(field: string, message: string)

  datatype HttpError = HttpError(status: int, message: string, errors: Option<seq<FieldError>>)

  /** `HttpError::new`: a status code (always three digits) and a message, no field errors. */
  function New(status: int, message: string): (e: HttpError)
    requires IsValidStatus(status)
    ensures e.status == status && e.message == message && e.errors.None?
  {
    HttpError(status, message, None)
  }

  function BadRequest(message: string): (e: HttpError)
    ensures e.status == 400 && e.message == message && e.errors.None?
  {
    New(BAD_REQUEST, message)
  }

  function ServerError(message: string): (e: HttpError)
    ensures e.status == 500 && e.message == message && e.errors.None?
  {
    New(INTERNAL_SERVER_ERROR, message)
  }

  function Unauthorized(message: string): (e: HttpError)
    ensures e.status == 401 && e.message == message && e.errors.None?
  {
    New(UNAUTHORIZED, message)
  }

  function NotFound(message: string): (e: HttpError)
    ensures e.status == 404 && e.message == message && e.errors.None?
  {
    New(NOT_FOUND, message)
  }

  function Forbidden(message: string): (e: HttpError)
    ensures e.status == 403 && e.message == message && e.errors.None?
  {
    New(FORBIDDEN, message)
  }

  function Conflict(message: string): (e: HttpError)
    ensures e.status == 409 && e.message == message && e.errors.None?
  {
    New(CONFLICT, message)
  }

  function TooManyRequests(message: string): (e: HttpError)
    ensures e.status == 429 && e.message == message && e.errors.None?
  {
    New(TOO_MANY_REQUESTS, message)
  }

  /** `From<anyhow::Error>`: any other failure is a server error carrying its text. */
  function FromAnyhow(text: string): (e: HttpError)
    ensures e.status == 500 && e.message == text && e.errors.None?
  {
    ServerError(text)
  }

  /** The messages a field's failed rules carry, skipping rules without one. */
  function PresentMessages(messages: seq<Option<string>>): (ms: seq<string>)
    ensures |ms| <= |messages|
    ensures forall m :: m in ms <==> Some(m) in messages
    decreases |messages|
  {
    if messages == [] then []
    else
      var rest := PresentMessages(messages[1..]);
      assert messages == [messages[0]] + messages[1..];
      if messages[0].Some? then [messages[0].value] + rest else rest
  }

  function FieldErrorOf(f: FieldFailures): FieldError {
    FieldError(f.field, Join(PresentMessages(f.messages), ", "))
  }

  const VALIDATION_FAILED: string := "Request body validation failed"

  /** `HttpError::validation_error`: a 400 "Request body validation failed" whose `errors`
      list holds one entry per failing field, its messages joined with ", ". */
  function ValidationError(failures: seq<FieldFailures>): (e: HttpError)
    ensures e.status == BAD_REQUEST && e.message == VALIDATION_FAILED
    ensures e.errors.Some? && |e.errors.value| == |failures|
    ensures forall i :: 0 <= i < |failures| ==>
              e.errors.value[i].field == failures[i].field &&
              e.errors.value[i].message == Join(PresentMessages(failures[i].messages), ", ")
  {
    HttpError(BAD_REQUEST, VALIDATION_FAILED, Some(seq(|failures|, i requires 0 <= i < |failures| => FieldErrorOf(failures[i]))))
  }

  /** A field that failed one rule reports that rule's message as it is; a field that failed
      two reports both, first rule first. */
  lemma ValidationMessages(field: string, m1: string, m2: string)
    ensures ValidationError([FieldFailures(field, [Some(m1)])]).errors == Some([FieldError(field, m1)])
    ensures ValidationError([FieldFailures(field, [Some(m1), Some(m2)])]).errors == Some([FieldError(field, m1 + ", " + m2)])
  {
    var one := [Some(m1)];
    var two := [Some(m1), Some(m2)];
    assert PresentMessages(one[1..]) == [];
    assert PresentMessages(one) == [m1];
    assert PresentMessages(two[1..][1..]) == [];
    assert PresentMessages(two[1..]) == [m2];
    assert PresentMessages(two) == [m1, m2];
    assert Join([m1, m2], ", ") == m1 + ", " + Join([m2], ", ");
    var e1 := ValidationError([FieldFailures(field, one)]).errors.value;
    var e2 := ValidationError([FieldFailures(field, two)]).errors.value;
    assert e1 == [e1[0]] && e1[0] == FieldError(field, m1);
    assert e2 == [e2[0]] && e2[0] == FieldError(field, m1 + ", " + m2);
  }

  // ---------------------------------------------------------------------------
  // JSON form
  // ---------------------------------------------------------------------------

  function FieldErrorJson(f: FieldError): Json {
    JObject([("field", JString(f.field)), ("message", JString(f.message))])
  }

  function FieldErrorFromJson(v: Json): Option<FieldError> {
    match (Get(v, "field"), Get(v, "message"))
    case (Some(JString(field)), Some(JString(message))) => Some(FieldError(field, message))
    case _ => None
  }

  function FieldErrorsFromJson(items: seq<Json>): Option<seq<FieldError>>
    decreases |items|
  {
    if items == [] then Some([])
    else match (FieldErrorFromJson(items[0]), FieldErrorsFromJson(items[1..]))
      case (Some(f), Some(rest)) => Some([f] + rest)
      case _ => None
  }

  /** The serialized error: `status`, `message`, and `errors` only when there are some. */
  function ToJson(e: HttpError): Json {
    var base := [("status", JNumber(e.status)), ("message", JString(e.message))];
    match e.errors
    case None => JObject(base)
    case Some(fs) => JObject(base + [("errors", JArray(seq(|fs|, i requires 0 <= i < |fs| => FieldErrorJson(fs[i]))))])
  }

  /** Reads an error back from its JSON form. */
  function FromJson(v: Json): Option<HttpError> {
    match (Get(v, "status"), Get(v, "message"), Get(v, "errors"))
    case (Some(JNumber(status)), Some(JString(message)), None) => Some(HttpError(status, message, None))
    case (Some(JNumber(status)), Some(JString(message)), Some(JArray(items))) =>
      (match FieldErrorsFromJson(items)
       case Some(fs) => Some(HttpError(status, message, Some(fs)))
       case None => None)
    case _ => None
  }

  lemma {:induction false} FieldErrorsRoundTrip(fs: seq<FieldError>)
    ensures FieldErrorsFromJson(seq(|fs|, i requires 0 <= i < |fs| => FieldErrorJson(fs[i]))) == Some(fs)
    decreases |fs|
  {
    var items := seq(|fs|, i requires 0 <= i < |fs| => FieldErrorJson(fs[i]));
    if fs != [] {
      assert items[1..] == seq(|fs[1..]|, i requires 0 <= i < |fs[1..]| => FieldErrorJson(fs[1..][i]));
      FieldErrorsRoundTrip(fs[1..]);
      assert FieldErrorFromJson(items[0]) == Some(fs[0]);
      assert fs == [fs[0]] + fs[1..];
    }
  }

  /** The JSON body carries everything the error holds: reading it back gives the error. */
  lemma ToJsonRoundTrip(e: HttpError)
    ensures FromJson(ToJson(e)) == Some(e)
  {
    var ms := ToJson(e).members;
    assert ms[0] == ("status", JNumber(e.status)) && ms[1] == ("message", JString(e.message));
    assert Lookup(ms, "status") == Some(JNumber(e.status));
    assert "message" != "status";
    assert Lookup(ms[1..], "message") == Some(JString(e.message));
    assert Lookup(ms, "message") == Some(JString(e.message));
    assert "errors" != "status" && "errors" != "message";
    match e.errors
    case None =>
      assert ms[2..] == [];
      assert Lookup(ms[2..], "errors") == None;
      assert Lookup(ms[1..], "errors") == None;
      assert Lookup(ms, "errors") == None;
    case Some(fs) =>
      var items := seq(|fs|, i requires 0 <= i < |fs| => FieldErrorJson(fs[i]));
      assert ms[2] == ("errors", JArray(items));
      assert Lookup(ms[2..], "errors") == Some(JArray(items));
      assert Lookup(ms[1..], "errors") == Some(JArray(items));
      assert Lookup(ms, "errors") == Some(JArray(items));
      FieldErrorsRoundTrip(fs);
  }

  /** `IntoResponse`: the error's own status (a server error if it were not a valid code)
      and the error as a JSON body. */
  function IntoResponse(e: HttpError): (r: Response)
    ensures IsValidStatus(e.status) ==> r.status == e.status
    ensures !IsValidStatus(e.status) ==> r.status == INTERNAL_SERVER_ERROR
    ensures r.body.JsonBody? && FromJson(r.body.value) == Some(e)
  {
    ToJsonRoundTrip(e);
    Response(if IsValidStatus(e.status) then e.status else INTERNAL_SERVER_ERROR, JSON_HEADERS, JsonBody(ToJson(e)))
  }

  // ---------------------------------------------------------------------------
  // Display
  // ---------------------------------------------------------------------------

  const DISPLAY_PREFIX: string := "HttpError: status="
  const DISPLAY_SEPARATOR: string := ", message="

  function Display(e: HttpError): string {
    DISPLAY_PREFIX + IntDecimal(e.status) + DISPLAY_SEPARATOR + e.message
  }

  /** Two texts built from the same frame around parts of equal length have equal parts. */
  lemma FrameCancel(prefix: string, x: string, y: string, sep: string, m1: string, m2: string)
    requires |x| == |y|
    requires prefix + x + sep + m1 == prefix + y + sep + m2
    ensures x == y && m1 == m2
  {
    var t1, t2 := prefix + x + sep + m1, prefix + y + sep + m2;
    assert x == t1[|prefix|..|prefix| + |x|];
    assert y == t2[|prefix|..|prefix| + |y|];
    assert m1 == t1[|prefix| + |x| + |sep|..];
    assert m2 == t2[|prefix| + |y| + |sep|..];
  }

  /** Every valid status code is written with three digits. */
  lemma StatusDigits(status: int)
    requires IsValidStatus(status)
    ensures |IntDecimal(status)| == 3
  {
    assert Pow10(2) == 100 && Pow10(3) == 1000;
    DecimalLength(status, 2);
  }

  /** The text of two errors with a valid status differs whenever their status or message does. */
  lemma DisplayInjective(a: HttpError, b: HttpError)
    requires IsValidStatus(a.status) && IsValidStatus(b.status)
    requires Display(a) == Display(b)
    ensures a.status == b.status && a.message == b.message
  {
    StatusDigits(a.status);
    StatusDigits(b.status);
    FrameCancel(DISPLAY_PREFIX, IntDecimal(a.status), IntDecimal(b.status), DISPLAY_SEPARATOR, a.message, b.message);
    DecimalInjective(a.status, b.status);
  }
}

/**
 * The exception filter that turns every `HttpException` into the API's one
 * error body `{ success: false, statusCode, error: { code, message, details? },
 * path, method, timestamp, requestId? }`, with secrets scrubbed out of the
 * details.
 *
 * The reverse table of `HttpStatus` (status number to enum name) belongs to
 * the framework and is a parameter, `names`. The clock is the `timestamp`
 * parameter. The log lines the filter writes are not modelled.
 */
module HttpExceptionFilter {
  import opened Wrappers
  import opened Text
  import opened Json

  const Redacted: Json := JStr("[REDACTED]")
  const ValidationFailed: string := "Validation failed"
  const InternalServerError: int := 500
  const BadRequest: int := 400

  // ---------------------------------------------------------------------
  // statusCodeToName
  // ---------------------------------------------------------------------

  /** `HttpStatus[status]` if it names the status, else `HTTP_<status>`. */
  function StatusCodeToName(names: map<int, string>, status: int): (r: string)
    ensures status in names && names[status] != "" ==> r == names[status]
    ensures !(status in names && names[status] != "") ==> r == "HTTP_" + IntToString(status)
    ensures r != ""
  {
    if status in names && names[status] != "" then names[status] else "HTTP_" + IntToString(status)
  }

  /** Two statuses without a name never share a code. */
  lemma UnnamedCodesDistinct(names: map<int, string>, s1: int, s2: int)
    requires !(s1 in names && names[s1] != "") && !(s2 in names && names[s2] != "")
    requires StatusCodeToName(names, s1) == StatusCodeToName(names, s2)
    ensures s1 == s2
  {
    var c := StatusCodeToName(names, s1);
    assert c[5..] == IntToString(s1);
    assert c[5..] == IntToString(s2);
    IntToStringInjective(s1, s2);
  }

  // ---------------------------------------------------------------------
  // normalizeHttpError
  // ---------------------------------------------------------------------

  /**
   * `{ code, message, details? }`. Code and message are JavaScript values:
   * for an object response they are whatever `error` holds, which need not
   * be a string. `details` is `JUndefined` when absent.
   */
  datatype Normalized = Normalized(code: Json, message: Json, details: Json)

  /** The message of the object branch before the `message` property is looked at. */
  function BaseMessage(fallback: string, errLabel: Json, defaultCode: string): Json {
    Or(JStr(fallback), Or(errLabel, JStr(defaultCode)))
  }

  /**
   * `normalizeHttpError(status, fallbackMessage, raw)`: a string response
   * becomes the message, an object response supplies the code (`error`), the
   * message (`message`, a string or an array of validation messages) and the
   * details (the array, else `errors`); anything else falls back to the
   * status name and the exception's own message.
   */
  function NormalizeHttpError(names: map<int, string>, status: int, fallback: string, raw: Json): (r: Normalized)
    ensures Truthy(r.code) && Truthy(r.message)
    ensures raw.JStr? ==>
      r == Normalized(JStr(StatusCodeToName(names, status)),
                      JStr(if raw.s != "" then raw.s else if fallback != "" then fallback else StatusCodeToName(names, status)),
                      JUndefined)
    ensures !raw.JStr? && !(Truthy(raw) && (raw.JObj? || raw.JArr?)) ==>
      r == Normalized(JStr(StatusCodeToName(names, status)),
                      JStr(if fallback != "" then fallback else StatusCodeToName(names, status)),
                      JUndefined)
  {
    var defaultCode := StatusCodeToName(names, status);
    if raw.JStr? then
      Normalized(JStr(defaultCode), Or(JStr(raw.s), Or(JStr(fallback), JStr(defaultCode))), JUndefined)
    else if Truthy(raw) && (raw.JObj? || raw.JArr?) then
      var errLabel := Or(Field(raw, "error"), JStr(defaultCode));
      var rawMsg := Field(raw, "message");
      var base := BaseMessage(fallback, errLabel, defaultCode);
      var message :=
        if rawMsg.JArr? then (if status == BadRequest then JStr(ValidationFailed) else Or(errLabel, JStr(defaultCode)))
        else if rawMsg.JStr? then Or(rawMsg, base)
        else base;
      var details := if rawMsg.JArr? then rawMsg else JUndefined;
      var details' := if !Truthy(details) && Truthy(Field(raw, "errors")) then Field(raw, "errors") else details;
      Normalized(Or(errLabel, JStr(defaultCode)), Or(message, JStr(defaultCode)), if Truthy(details') then details' else JUndefined)
    else
      Normalized(JStr(defaultCode), Or(JStr(fallback), JStr(defaultCode)), JUndefined)
  }

  /** For an object response the code is its `error` when truthy, else the status name. */
  lemma ObjectCode(names: map<int, string>, status: int, fallback: string, entries: seq<Entry>)
    ensures var r := NormalizeHttpError(names, status, fallback, JObj(entries));
      r.code == if Truthy(Get(entries, "error")) then Get(entries, "error") else JStr(StatusCodeToName(names, status))
  {
  }

  /**
   * An array `message` becomes the details; the message is then the fixed
   * validation text for a 400 and the error label otherwise.
   */
  lemma ArrayMessage(names: map<int, string>, status: int, fallback: string, entries: seq<Entry>)
    requires Get(entries, "message").JArr?
    ensures var r := NormalizeHttpError(names, status, fallback, JObj(entries));
      && r.details == Get(entries, "message")
      && r.message == (if status == BadRequest then JStr(ValidationFailed) else r.code)
  {
  }

  /** A non-empty string `message` is the message, whatever the exception's own message. */
  lemma StringMessage(names: map<int, string>, status: int, fallback: string, entries: seq<Entry>)
    requires Get(entries, "message").JStr? && Get(entries, "message").s != ""
    ensures NormalizeHttpError(names, status, fallback, JObj(entries)).message == Get(entries, "message")
  {
  }

  /**
   * Without an array `message`, the message is the non-empty string
   * `message`, else the exception's own message, else the code; and `errors`
   * becomes the details when it is truthy.
   */
  lemma ObjectWithoutArray(names: map<int, string>, status: int, fallback: string, entries: seq<Entry>)
    requires !Get(entries, "message").JArr?
    ensures var r := NormalizeHttpError(names, status, fallback, JObj(entries));
      var msg := Get(entries, "message");
      && r.details == (if Truthy(Get(entries, "errors")) then Get(entries, "errors") else JUndefined)
      && r.message == (if msg.JStr? && msg.s != "" then msg else if fallback != "" then JStr(fallback) else r.code)
  {
  }

  /** `errors` is used only when no array `message` was given. */
  lemma ErrorsOnlyWithoutArray(names: map<int, string>, status: int, fallback: string, entries: seq<Entry>)
    requires Get(entries, "message").JArr? && Get(entries, "message") != Get(entries, "errors")
    ensures NormalizeHttpError(names, status, fallback, JObj(entries)).details != Get(entries, "errors")
  {
    ArrayMessage(names, status, fallback, entries);
  }

  // ---------------------------------------------------------------------
  // sanitize
  // ---------------------------------------------------------------------

  /** `/password|token|secret|authorization|cookie|api[-_]?key|set-cookie/i`. */
  predicate SensitiveKey(key: string) {
    var l := Lower(key);
    || Contains(l, "password")
    || Contains(l, "token")
    || Contains(l, "secret")
    || Contains(l, "authorization")
    || Contains(l, "cookie")
    || Contains(l, "apikey") || Contains(l, "api-key") || Contains(l, "api_key")
    || Contains(l, "set-cookie")
  }

  /**
   * `sanitize(value)`: scalars and null stay, arrays are sanitised element by
   * element, and in an object every value under a sensitive key, null
   * included, becomes `'[REDACTED]'` while the others are sanitised in turn.
   */
  function Sanitized(v: Json): (r: Json)
    decreases v
  {
    match v
    case JArr(items) =>
      JArr(seq(|items|, i requires 0 <= i < |items| => Sanitized(items[i])))
    case JObj(entries) =>
      JObj(seq(|entries|, i requires 0 <= i < |entries| =>
        Entry(entries[i].key, if SensitiveKey(entries[i].key) then Redacted else Sanitized(entries[i].value))))
    case _ => v
  }

  /**
   * `b` has the structure of `a`: arrays keep their length, objects their
   * keys in order, scalars their value; only values under sensitive keys may
   * differ.
   */
  predicate SameStructure(a: Json, b: Json)
    decreases a
  {
    match a
    case JArr(items) =>
      b.JArr? && |b.items| == |items| && forall i :: 0 <= i < |items| ==> SameStructure(items[i], b.items[i])
    case JObj(entries) =>
      && b.JObj? && Keys(b.entries) == Keys(entries)
      && forall i :: 0 <= i < |entries| ==> SensitiveKey(entries[i].key) || SameStructure(entries[i].value, b.entries[i].value)
    case _ => b == a
  }

  /** Every value under a sensitive key, at any depth, is `'[REDACTED]'`. */
  predicate Scrubbed(v: Json)
    decreases v
  {
    match v
    case JArr(items) => forall i :: 0 <= i < |items| ==> Scrubbed(items[i])
    case JObj(entries) =>
      forall i :: 0 <= i < |entries| ==>
        if SensitiveKey(entries[i].key) then entries[i].value == Redacted else Scrubbed(entries[i].value)
    case _ => true
  }

  /** `sanitize` keeps the structure and every scalar not under a sensitive key, and scrubs the rest. */
  lemma {:induction false} SanitizedFacts(v: Json)
    ensures SameStructure(v, Sanitized(v))
    ensures Scrubbed(Sanitized(v))
    decreases v
  {
    var r := Sanitized(v);
    match v
    case JArr(items) =>
      forall i | 0 <= i < |items| ensures SameStructure(items[i], r.items[i]) && Scrubbed(r.items[i]) {
        SanitizedFacts(items[i]);
      }
    case JObj(entries) =>
      forall i | 0 <= i < |entries|
        ensures SensitiveKey(entries[i].key) || SameStructure(entries[i].value, r.entries[i].value)
        ensures if SensitiveKey(r.entries[i].key) then r.entries[i].value == Redacted else Scrubbed(r.entries[i].value)
      {
        if !SensitiveKey(entries[i].key) {
          SanitizedFacts(entries[i].value);
        }
      }
      assert Keys(r.entries) == Keys(entries);
    case _ =>
  }

  /** A scrubbed value is its own sanitisation. */
  lemma {:induction false} ScrubbedFixed(v: Json)
    requires Scrubbed(v)
    ensures Sanitized(v) == v
    decreases v
  {
    match v
    case JArr(items) =>
      forall i | 0 <= i < |items| ensures Sanitized(items[i]) == items[i] {
        ScrubbedFixed(items[i]);
      }
      assert Sanitized(v).items == items;
    case JObj(entries) =>
      forall i | 0 <= i < |entries| ensures Sanitized(v).entries[i] == entries[i] {
        if !SensitiveKey(entries[i].key) {
          ScrubbedFixed(entries[i].value);
        }
      }
      assert Sanitized(v).entries == entries;
    case _ =>
  }

  /** `sanitize` is idempotent: the filter may apply it to the details twice. */
  lemma SanitizedIdempotent(v: Json)
    ensures Sanitized(Sanitized(v)) == Sanitized(v)
  {
    SanitizedFacts(v);
    ScrubbedFixed(Sanitized(v));
  }

  /** `sanitize(value)`, building each new array and object in a loop. */
  method Sanitize(v: Json) returns (r: Json)
    ensures r == Sanitized(v)
    decreases v
  {
    match v {
      case JArr(items) =>
        var out: seq<Json> := [];
        var i := 0;
        while i < |items|
          invariant 0 <= i <= |items|
          invariant |out| == i && forall j :: 0 <= j < i ==> out[j] == Sanitized(items[j])
        {
          var x := Sanitize(items[i]);
          out := out + [x];
          i := i + 1;
        }
        r := JArr(out);
        assert r.items == Sanitized(v).items;
      case JObj(entries) =>
        var out: seq<Entry> := [];
        var i := 0;
        while i < |entries|
          invariant 0 <= i <= |entries|
          invariant |out| == i
          invariant forall j :: 0 <= j < i ==> out[j] == Sanitized(v).entries[j]
        {
          var x: Json;
          if SensitiveKey(entries[i].key) {
            x := Redacted;
          } else {
            x := Sanitize(entries[i].value);
          }
          out := out + [Entry(entries[i].key, x)];
          i := i + 1;
        }
        r := JObj(out);
        assert r.entries == Sanitized(v).entries;
      case _ =>
        r := v;
    }
  }

  // ---------------------------------------------------------------------
  // catch
  // ---------------------------------------------------------------------

  /** `Array.isArray(h) ? h[0] : h` for the `x-request-id` header. */
  function FirstHeader(h: Json): Json {
    if h.JArr? then (if h.items != [] then h.items[0] else JUndefined) else h
  }

  /** `request.id || requestIdHeader || undefined`. */
  function RequestId(reqId: Json, requestIdHeader: Json): (r: Json)
    ensures Truthy(reqId) ==> r == reqId
    ensures !Truthy(reqId) && Truthy(FirstHeader(requestIdHeader)) ==> r == FirstHeader(requestIdHeader)
    ensures !Truthy(r) ==> r == JUndefined
  {
    Or(reqId, Or(FirstHeader(requestIdHeader), JUndefined))
  }

  /** What `catch` reads off the request. */
  datatype Request = Request(id: Json, requestIdHeader: Json, originalUrl: Json, url: Json, httpMethod: Json)

  /** `{ code, message, details? }` as sent. */
  datatype ErrorDetail = ErrorDetail(code: Json, message: Json, details: Option<Json>)

  /** `{ success, statusCode, error, path, method, timestamp, requestId? }`. */
  datatype ErrorResponse = ErrorResponse(
    success: bool, statusCode: int, error: ErrorDetail,
    path: Json, httpMethod: Json, timestamp: string, requestId: Option<Json>)

  /**
   * The response body `catch` sends: the normalised code and message, the
   * details only when there are any and then sanitised, the request id only
   * when there is one.
   */
  function ErrorBody(names: map<int, string>, status: int, exceptionMessage: string, raw: Json, req: Request, timestamp: string)
    : (body: ErrorResponse)
    ensures !body.success && body.statusCode == status && body.timestamp == timestamp
    ensures var n := NormalizeHttpError(names, status, exceptionMessage, raw);
      && body.error.code == n.code && body.error.message == n.message
      && (body.error.details.Some? <==> Truthy(n.details))
      && (body.error.details.Some? ==> body.error.details.value == Sanitized(n.details))
    ensures body.error.details.Some? ==> Scrubbed(body.error.details.value)
    ensures Truthy(body.error.code) && Truthy(body.error.message)
    ensures var rid := RequestId(req.id, req.requestIdHeader);
      body.requestId == if Truthy(rid) then Some(rid) else None
    ensures body.path == if Truthy(req.originalUrl) then req.originalUrl else req.url
  {
    var n := NormalizeHttpError(names, status, exceptionMessage, raw);
    SanitizedFacts(n.details);
    var rid := RequestId(req.id, req.requestIdHeader);
    ErrorResponse(
      false, status,
      ErrorDetail(n.code, n.message, if Truthy(n.details) then Some(Sanitized(n.details)) else None),
      Or(req.originalUrl, req.url), req.httpMethod, timestamp,
      if Truthy(rid) then Some(rid) else None)
  }

  /** The response as the filter leaves it: the status set and the body sent. */
  class Response {
    var status: int
    var sent: Option<ErrorResponse>

    constructor()
      ensures status == 200 && sent == None
    {
      status := 200;
      sent := None;
    }

    /** `response.status(status).json(body)`. */
    method Send(s: int, body: ErrorResponse)
      modifies this
      ensures status == s && sent == Some(body)
    {
      status := s;
      sent := Some(body);
    }
  }

  /**
   * `catch(exception, host)`: the status is the exception's own, or 500 when
   * it has none, and the response is the error body.
   */
  method Catch(names: map<int, string>, exceptionStatus: Option<int>, exceptionMessage: string, raw: Json,
               req: Request, timestamp: string, response: Response)
    modifies response
    ensures response.status == (if exceptionStatus.Some? then exceptionStatus.value else InternalServerError)
    ensures response.sent == Some(ErrorBody(names, response.status, exceptionMessage, raw, req, timestamp))
  {
    var status := if exceptionStatus.Some? then exceptionStatus.value else InternalServerError;
    var body := ErrorBody(names, status, exceptionMessage, raw, req, timestamp);
    response.Send(status, body);
  }
}

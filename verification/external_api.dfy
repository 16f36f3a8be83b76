/**
 * The error handler of the service's REST API (`ExternalApi.handle_error`): it turns any raised
 * exception into one HTTP error response, or hands back a response the exception already carries.
 *
 * `Classify` states the whole policy as a function; `HandleError` performs the same steps
 * imperatively, in the order the handler does, and is proved to agree with `Classify`.
 * Sending the request-exception signal, writing the log entry, serialising the response and the
 * internals of the `unauthorized` hook are not performed here: the outcome records how many
 * times the log is written and whether the hook was applied.
 */
module ExternalApi {
  import opened Wrappers
  import opened Ascii
  import opened PyDict
  import opened HttpHeaders
  import opened PyFormat

  // ---------------------------------------------------------------- exceptions

  /** A response object that an HTTPException already carries. */
  datatype PrebuiltResponse = PrebuiltResponse(status: int, headers: Headers, content: string)

  /**
   * What an HTTPException adds: its status code, a response it may already carry, and the
   * headers of the response werkzeug would generate for it (`e.get_response().headers`).
   */
  datatype HttpPart = HttpPart(code: int, response: Option<PrebuiltResponse>, generatedHeaders: Headers)

  /** A Python attribute that is missing, set to None, or set to a string. */
  datatype Attr = Missing | PyNone | Text(s: string)

  /**
   * A raised exception: `className` is `type(e).__name__` and `text` is `str(e)`. The class
   * tests of the handler are flags, so one exception may pass several of them, as a class with
   * several bases does: `http` is present iff `isinstance(e, HTTPException)`, and `isValueError`
   * and `isAppInvokeQuota` answer `isinstance(e, ValueError)` and
   * `isinstance(e, AppInvokeQuotaExceededError)`. `data` is the optional `data` attribute.
   */
  datatype Exception = Exception(
    className: string,
    text: string,
    http: Option<HttpPart>,
    isValueError: bool,
    isAppInvokeQuota: bool,
    description: Attr,
    data: Option<Body>)

  /** `AppInvokeQuotaExceededError(message)`: its class-level description is fixed. */
  function AppInvokeQuotaExceededError(message: string): Exception
  {
    Exception("AppInvokeQuotaExceededError", message, None, false, true, Text("App Invoke Quota Exceeded"), None)
  }

  /** `QuotaExceededError(message)`: none of the handler's class tests applies to it. */
  function QuotaExceededError(message: string): Exception
  {
    Exception("QuotaExceededError", message, None, false, false, Text("Quota Exceeded"), None)
  }

  // ---------------------------------------------------------------- the Api object

  /**
   * The parts of the Api object the handler reads: the per-class override registry
   * (`self.errors`), the default media type and the registered representations, in order.
   */
  datatype Api = Api(errors: map<string, Body>, defaultMediatype: Option<string>, representations: seq<string>)

  /**
   * An override is a dict whose `status`, when present, is an int and whose `message`, when
   * present, is a template whose only field is `{message}`; any other override makes the
   * handler itself raise.
   */
  predicate OverrideOk(custom: Body)
  {
    && UniqueKeys(custom)
    && (Get(custom, "status").Some? ==> Get(custom, "status").value.Int?)
    && (Get(custom, "message").Some? ==>
          Get(custom, "message").value.Str? && TemplateOk(Get(custom, "message").value.s))
  }

  /**
   * The override registered for the raised class, if there is one, is usable. Only that entry is
   * read (`self.errors[type(e).__name__]`); other entries of the registry may hold anything.
   */
  predicate OverrideUsable(api: Api, className: string)
  {
    className in api.errors ==> OverrideOk(api.errors[className])
  }

  // ---------------------------------------------------------------- outcome

  /**
   * What the handler returns: the carried response unchanged; or a response built from a body,
   * a status and headers, with the media type forced for serialisation (406 only), the number
   * of server-error log entries written and whether the `unauthorized` hook was applied; or an
   * exception raised by the handler itself.
   */
  datatype Outcome =
    | PassThrough(response: PrebuiltResponse)
    | Reply(body: Body, status: int, headers: Headers, fallbackMediatype: Option<string>,
            logCount: nat, unauthorized: bool)
    | Raises(error: string, logCount: nat)

  // ---------------------------------------------------------------- constants

  const JsonDecodeFailure: string := "Failed to decode JSON object: Expecting value: line 1 column 1 (char 0)"
  const InvalidJsonPayload: string := "Invalid JSON payload received or JSON payload is empty."
  const RemoveHeaders: seq<string> := ["Content-Length"]
  const PlainText: string := "text/plain"

  /**
   * The reason phrase of a status code (werkzeug's table); the empty string for unknown codes.
   * A reason phrase is never the JSON decoding message, so the rewrite of that message only
   * ever applies to an exception's own description.
   */
  function ReasonPhrase(code: int): (r: string)
    ensures r != JsonDecodeFailure
  {
    match code
    case 100 => "Continue"
    case 101 => "Switching Protocols"
    case 102 => "Processing"
    case 103 => "Early Hints"
    case 200 => "OK"
    case 201 => "Created"
    case 202 => "Accepted"
    case 203 => "Non Authoritative Information"
    case 204 => "No Content"
    case 205 => "Reset Content"
    case 206 => "Partial Content"
    case 207 => "Multi Status"
    case 208 => "Already Reported"
    case 226 => "IM Used"
    case 300 => "Multiple Choices"
    case 301 => "Moved Permanently"
    case 302 => "Found"
    case 303 => "See Other"
    case 304 => "Not Modified"
    case 305 => "Use Proxy"
    case 306 => "Switch Proxy"
    case 307 => "Temporary Redirect"
    case 308 => "Permanent Redirect"
    case 400 => "Bad Request"
    case 401 => "Unauthorized"
    case 402 => "Payment Required"
    case 403 => "Forbidden"
    case 404 => "Not Found"
    case 405 => "Method Not Allowed"
    case 406 => "Not Acceptable"
    case 407 => "Proxy Authentication Required"
    case 408 => "Request Timeout"
    case 409 => "Conflict"
    case 410 => "Gone"
    case 411 => "Length Required"
    case 412 => "Precondition Failed"
    case 413 => "Request Entity Too Large"
    case 414 => "Request URI Too Long"
    case 415 => "Unsupported Media Type"
    case 416 => "Requested Range Not Satisfiable"
    case 417 => "Expectation Failed"
    case 418 => "I'm a teapot"
    case 421 => "Misdirected Request"
    case 422 => "Unprocessable Entity"
    case 423 => "Locked"
    case 424 => "Failed Dependency"
    case 425 => "Too Early"
    case 426 => "Upgrade Required"
    case 428 => "Precondition Required"
    case 429 => "Too Many Requests"
    case 431 => "Request Header Fields Too Large"
    case 449 => "Retry With"
    case 451 => "Unavailable For Legal Reasons"
    case 500 => "Internal Server Error"
    case 501 => "Not Implemented"
    case 502 => "Bad Gateway"
    case 503 => "Service Unavailable"
    case 504 => "Gateway Timeout"
    case 505 => "HTTP Version Not Supported"
    case 506 => "Variant Also Negotiates"
    case 507 => "Insufficient Storage"
    case 508 => "Loop Detected"
    case 510 => "Not Extended"
    case 511 => "Network Authentication Failed"
    case _ => ""
  }

  // ---------------------------------------------------------------- error code from class name

  /** The tail of the name, with `_` inserted before each capital letter. */
  function UnderscoreTail(t: string): string
  {
    if t == [] then []
    else (if IsUpper(t[0]) then ['_', t[0]] else [t[0]]) + UnderscoreTail(t[1..])
  }

  /** `re.sub(r'(?<!^)(?=[A-Z])', '_', name)`: `_` before every capital except at index 0. */
  function UnderscoreBeforeCapitals(name: string): string
  {
    if name == [] then [] else [name[0]] + UnderscoreTail(name[1..])
  }

  /** The error code derived from a class name: `NotFound` becomes `not_found`. */
  function SnakeCase(name: string): (r: string)
    ensures forall i :: 0 <= i < |r| ==> !IsUpper(r[i])
  {
    LowerString(UnderscoreBeforeCapitals(name))
  }

  // ---------------------------------------------------------------- the steps

  predicate PassesThrough(e: Exception)
  {
    e.http.Some? && e.http.value.response.Some?
  }

  /** `getattr(e, 'description', http_status_message(code))` for an HTTPException. */
  function HttpMessage(e: Exception): Value
    requires e.http.Some?
  {
    match e.description
    case Missing => Str(ReasonPhrase(e.http.value.code))
    case PyNone => Null
    case Text(s) => Str(s)
  }

  /** The status, default body and headers chosen by the class tests, before any override. */
  datatype Draft = Draft(status: int, body: Body, headers: Headers)

  function DefaultDraft(e: Exception): Draft
    requires !PassesThrough(e)
  {
    if e.http.Some? then
      var code := e.http.value.code;
      var body := [("code", Str(SnakeCase(e.className))), ("message", HttpMessage(e)), ("status", Int(code))];
      Draft(code,
            if GetOrNull(body, "message") == Str(JsonDecodeFailure) then Set(body, "message", Str(InvalidJsonPayload))
            else body,
            e.http.value.generatedHeaders)
    else if e.isValueError then
      Draft(400, [("code", Str("invalid_param")), ("message", Str(e.text)), ("status", Int(400))], [])
    else if e.isAppInvokeQuota then
      Draft(429, [("code", Str("too_many_requests")), ("message", Str(e.text)), ("status", Int(429))], [])
    else
      Draft(500, [("message", Str(ReasonPhrase(500)))], [])
  }

  /** The headers with every `Content-Length` entry removed. */
  function StripHeaders(h: Headers): Headers
  {
    RemoveAll(h, RemoveHeaders)
  }

  /** `custom_data.get('status', 500)` */
  function OverrideStatus(custom: Body): int
    requires OverrideOk(custom)
  {
    match Get(custom, "status")
    case Some(v) => v.i
    case None => 500
  }

  /** `str(e.description if hasattr(e, 'description') else e)` */
  function TemplateArgument(e: Exception): string
  {
    match e.description
    case Missing => e.text
    case PyNone => "None"
    case Text(s) => s
  }

  /** The override with its `message` template filled in. */
  function FilledOverride(custom: Body, e: Exception): Body
    requires OverrideOk(custom)
  {
    if "message" in Keys(custom) then
      Set(custom, "message", Str(Fill(Get(custom, "message").value.s, TemplateArgument(e))))
    else custom
  }

  /**
   * The override step: a registered class sets the status (500 when the override has none)
   * and every key of the filled-in override overwrites the body key of the same name.
   */
  function ApplyOverride(api: Api, e: Exception, status: int, data: Body): (int, Body)
    requires OverrideUsable(api, e.className)
  {
    if e.className in api.errors then
      var custom := api.errors[e.className];
      (OverrideStatus(custom), Update(data, FilledOverride(custom, e)))
    else (status, data)
  }

  /** `code` is set to `'unknown'` only when the body has none. */
  function DefaultCode(data: Body): Body
  {
    if "code" in Keys(data) then data else Set(data, "code", Str("unknown"))
  }

  /** The first registered representation, or plain text when none is registered. */
  function Fallback(api: Api): string
  {
    if |api.representations| > 0 then api.representations[0] else PlainText
  }

  /** The 406 and 400 reshapes, the default code and the 401 hook. */
  function Finish(api: Api, status: int, data: Body, headers: Headers, logCount: nat): Outcome
  {
    if status == 406 && api.defaultMediatype.None? then
      Reply([("code", Str("not_acceptable")), ("message", GetOrNull(data, "message"))],
            status, headers, Some(Fallback(api)), logCount, false)
    else if status == 400 then
      match GetOrNull(data, "message")
      case Dict(entries) =>
        if entries == [] then Raises("IndexError", logCount)
        else Reply([("code", Str("invalid_param")), ("message", entries[0].1), ("params", Str(entries[0].0))],
                   status, headers, None, logCount, false)
      case _ => Reply(DefaultCode(data), status, headers, None, logCount, false)
    else
      Reply(DefaultCode(data), status, headers, None, logCount, status == 401)
  }

  /** What the last stage keeps whatever the branch: status, headers, log count and the two gates. */
  lemma FinishShape(api: Api, status: int, data: Body, headers: Headers, logCount: nat)
    ensures var out := Finish(api, status, data, headers, logCount);
      && !out.PassThrough?
      && (out.Reply? ==> out.status == status && out.headers == headers && out.logCount == logCount)
      && (out.Reply? ==> (out.unauthorized <==> status == 401))
      && (out.Reply? ==> (out.fallbackMediatype.Some? <==> status == 406 && api.defaultMediatype.None?))
      && (out.Raises? ==> status == 400 && out.logCount == logCount)
  {
  }

  /**
   * The whole handler as a function of the Api object and the exception. Whatever the branch,
   * a carried response is exactly what passes through, a reply is logged once iff its status is
   * a server error and gets the 401 hook iff its status is 401, and the handler's own raise is
   * the IndexError of the empty validation message, never logged.
   */
  function Classify(api: Api, e: Exception): (r: Outcome)
    requires !PassesThrough(e) ==> OverrideUsable(api, e.className)
    ensures r.PassThrough? <==> PassesThrough(e)
    ensures r.Reply? ==> r.logCount == (if r.status >= 500 then 1 else 0)
    ensures r.Reply? ==> (r.unauthorized <==> r.status == 401)
    ensures r.Raises? ==> r.error == "IndexError" && r.logCount == 0
  {
    if PassesThrough(e) then PassThrough(e.http.value.response.value)
    else
      var draft := DefaultDraft(e);
      var data := if e.data.Some? then e.data.value else draft.body;
      var overridden := ApplyOverride(api, e, draft.status, data);
      FinishShape(api, overridden.0, overridden.1, StripHeaders(draft.headers), if overridden.0 >= 500 then 1 else 0);
      Finish(api, overridden.0, overridden.1, StripHeaders(draft.headers), if overridden.0 >= 500 then 1 else 0)
  }

  // ---------------------------------------------------------------- the handler

  /** The class tests (the HTTPException, ValueError, quota and fallback branches). */
  method DefaultError(e: Exception) returns (statusCode: int, defaultData: Body, headers: Headers)
    requires !PassesThrough(e)
    ensures Draft(statusCode, defaultData, headers) == DefaultDraft(e)
  {
    headers := [];
    if e.http.Some? {
      statusCode := e.http.value.code;
      defaultData := [("code", Str(SnakeCase(e.className))), ("message", HttpMessage(e)), ("status", Int(statusCode))];
      if GetOrNull(defaultData, "message") == Str(JsonDecodeFailure) {
        defaultData := Set(defaultData, "message", Str(InvalidJsonPayload));
      }
      headers := e.http.value.generatedHeaders;
    } else if e.isValueError {
      statusCode := 400;
      defaultData := [("code", Str("invalid_param")), ("message", Str(e.text)), ("status", Int(statusCode))];
    } else if e.isAppInvokeQuota {
      statusCode := 429;
      defaultData := [("code", Str("too_many_requests")), ("message", Str(e.text)), ("status", Int(statusCode))];
    } else {
      statusCode := 500;
      defaultData := [("message", Str(ReasonPhrase(statusCode)))];
    }
  }

  /** `for header in remove_headers: headers.pop(header, None)` */
  method PopRemovedHeaders(generated: Headers) returns (headers: Headers)
    ensures headers == StripHeaders(generated)
  {
    headers := generated;
    for i := 0 to |RemoveHeaders|
      invariant headers == RemoveAll(generated, RemoveHeaders[..i])
    {
      assert RemoveHeaders[..i + 1][..i] == RemoveHeaders[..i];
      headers := Remove(headers, RemoveHeaders[i]);
    }
    assert RemoveHeaders[..|RemoveHeaders|] == RemoveHeaders;
  }

  /** The registry lookup: the status is reassigned and the body updated in place. */
  method OverrideError(api: Api, e: Exception, status: int, body: Body) returns (statusCode: int, data: Body)
    requires OverrideUsable(api, e.className)
    ensures (statusCode, data) == ApplyOverride(api, e, status, body)
  {
    statusCode, data := status, body;
    if e.className in api.errors {
      var customData := api.errors[e.className];
      statusCode := OverrideStatus(customData);
      if "message" in Keys(customData) {
        customData := Set(customData, "message", Str(Fill(GetOrNull(customData, "message").s, TemplateArgument(e))));
      }
      data := Update(data, customData);
    }
  }

  /** The 406 and 400 reshapes, the default code and the 401 hook. */
  method MakeResponse(api: Api, statusCode: int, body: Body, headers: Headers, logCount: nat) returns (out: Outcome)
    ensures out == Finish(api, statusCode, body, headers, logCount)
  {
    var data := body;
    if statusCode == 406 && api.defaultMediatype.None? {
      var fallbackMediatype := Fallback(api);
      data := [("code", Str("not_acceptable")), ("message", GetOrNull(data, "message"))];
      out := Reply(data, statusCode, headers, Some(fallbackMediatype), logCount, false);
    } else if statusCode == 400 {
      var message := GetOrNull(data, "message");
      if message.Dict? {
        if message.entries == [] {
          return Raises("IndexError", logCount);
        }
        var (paramKey, paramValue) := message.entries[0];
        data := [("code", Str("invalid_param")), ("message", paramValue), ("params", Str(paramKey))];
      } else if "code" !in Keys(data) {
        data := Set(data, "code", Str("unknown"));
      }
      out := Reply(data, statusCode, headers, None, logCount, false);
    } else {
      if "code" !in Keys(data) {
        data := Set(data, "code", Str("unknown"));
      }
      out := Reply(data, statusCode, headers, None, logCount, false);
    }

    if statusCode == 401 {
      out := out.(unauthorized := true);
    }
  }

  method HandleError(api: Api, e: Exception) returns (out: Outcome)
    requires !PassesThrough(e) ==> OverrideUsable(api, e.className)
    ensures out == Classify(api, e)
  {
    if e.http.Some? && e.http.value.response.Some? {
      return PassThrough(e.http.value.response.value);
    }
    var statusCode, defaultData, headers := DefaultError(e);
    headers := PopRemovedHeaders(headers);
    var data := if e.data.Some? then e.data.value else defaultData;
    statusCode, data := OverrideError(api, e, statusCode, data);

    var logCount := 0;
    if statusCode >= 500 {
      logCount := logCount + 1;
    }
    out := MakeResponse(api, statusCode, data, headers, logCount);
  }
}

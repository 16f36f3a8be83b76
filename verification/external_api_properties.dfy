/**
 * What the error handler promises, stated over `ExternalApi.Classify` (which `HandleError` is
 * proved to compute): branch precedence and the fixed mappings, header scrubbing, the `data`
 * attribute, overrides, the logging gate, the 406 and 400 reshapes, the default code and the
 * 401 hook.
 */
module ExternalApiProperties {
  import opened Wrappers
  import opened Ascii
  import opened PyDict
  import opened HttpHeaders
  import opened PyFormat
  import opened ExternalApi

  // ---------------------------------------------------------------- the error code

  /** A class name as the handler meets them: a capital, then letters and digits only. */
  predicate CamelName(name: string)
  {
    |name| >= 1 && IsUpper(name[0]) && forall i :: 0 <= i < |name| ==> IsLetterOrDigit(name[i])
  }

  function CamelTail(t: string): string
  {
    if t == [] then []
    else if t[0] == '_' && |t| >= 2 then [Upper(t[1])] + CamelTail(t[2..])
    else [t[0]] + CamelTail(t[1..])
  }

  /** Reads an error code back as a class name: capital first, `_x` becomes `X`. */
  function CamelCase(code: string): string
  {
    if code == [] then [] else [Upper(code[0])] + CamelTail(code[1..])
  }

  lemma {:induction false} CamelTailInverts(t: string)
    requires forall i :: 0 <= i < |t| ==> IsLetterOrDigit(t[i])
    ensures CamelTail(LowerString(UnderscoreTail(t))) == t
  {
    if t != [] {
      var head: string := if IsUpper(t[0]) then ['_', t[0]] else [t[0]];
      assert UnderscoreTail(t) == head + UnderscoreTail(t[1..]);
      LowerStringAppend(head, UnderscoreTail(t[1..]));
      CamelTailInverts(t[1..]);
      var rest := LowerString(UnderscoreTail(t[1..]));
      if IsUpper(t[0]) {
        assert LowerString(UnderscoreTail(t)) == ['_', Lower(t[0])] + rest;
        assert (['_', Lower(t[0])] + rest)[2..] == rest;
      } else {
        assert LowerString(UnderscoreTail(t)) == [t[0]] + rest;
        assert ([t[0]] + rest)[1..] == rest;
      }
    }
  }

  /**
   * The error code loses nothing for a class name: reading it back gives the class name, so
   * distinct class names give distinct codes.
   */
  lemma SnakeCaseRoundTrip(name: string)
    requires CamelName(name)
    ensures CamelCase(SnakeCase(name)) == name
  {
    var tail := UnderscoreTail(name[1..]);
    assert UnderscoreBeforeCapitals(name) == [name[0]] + tail;
    LowerStringAppend([name[0]], tail);
    assert SnakeCase(name) == [Lower(name[0])] + LowerString(tail);
    assert ([Lower(name[0])] + LowerString(tail))[1..] == LowerString(tail);
    CamelTailInverts(name[1..]);
  }

  lemma SnakeCaseNotFound()
    ensures SnakeCase("NotFound") == "not_found"
  {
    assert UnderscoreTail("otFound") == "ot_Found";
    var u := UnderscoreBeforeCapitals("NotFound");
    assert u == "Not_Found";
    assert forall i :: 0 <= i < |u| ==> LowerString(u)[i] == "not_found"[i];
  }

  // ---------------------------------------------------------------- the steps

  /** The body before overrides: the exception's `data` attribute, or else the default body. */
  function InitialBody(e: Exception): Body
    requires !PassesThrough(e)
  {
    if e.data.Some? then e.data.value else DefaultDraft(e).body
  }

  /** Status and body after the override step. */
  function Overridden(api: Api, e: Exception): (int, Body)
    requires OverrideUsable(api, e.className) && !PassesThrough(e)
  {
    ApplyOverride(api, e, DefaultDraft(e).status, InitialBody(e))
  }

  lemma ClassifySteps(api: Api, e: Exception)
    requires OverrideUsable(api, e.className) && !PassesThrough(e)
    ensures Classify(api, e) ==
      Finish(api, Overridden(api, e).0, Overridden(api, e).1, StripHeaders(DefaultDraft(e).headers),
             if Overridden(api, e).0 >= 500 then 1 else 0)
  {
  }

  /**
   * The override step: the status becomes the override's `status`, or 500 when it has none;
   * a `message` template is filled with the description (or `str(e)`); every other key of the
   * override overwrites the body key of the same name; keys the override lacks keep their values.
   */
  lemma OverrideEffect(api: Api, e: Exception, status: int, data: Body)
    requires OverrideUsable(api, e.className) && e.className in api.errors
    ensures var custom := api.errors[e.className];
      var r := ApplyOverride(api, e, status, data);
      && r.0 == (if Get(custom, "status").Some? then Get(custom, "status").value.i else 500)
      && Keys(r.1) == Keys(data) + Keys(custom)
      && (forall k :: k in Keys(custom) && k != "message" ==> Get(r.1, k) == Get(custom, k))
      && ("message" in Keys(custom) ==>
            Get(r.1, "message") == Some(Str(Fill(Get(custom, "message").value.s, TemplateArgument(e)))))
      && (forall k :: k !in Keys(custom) ==> Get(r.1, k) == Get(data, k))
  {
    var custom := api.errors[e.className];
    assert OverrideOk(custom);
    var filled := FilledOverride(custom, e);
    assert UniqueKeys(filled) && Keys(filled) == Keys(custom);
    assert forall k :: k != "message" ==> Get(filled, k) == Get(custom, k);
  }

  /** An exception whose class is not registered keeps its status and body. */
  lemma NoOverrideNoChange(api: Api, e: Exception, status: int, data: Body)
    requires e.className !in api.errors
    ensures ApplyOverride(api, e, status, data) == (status, data)
  {
  }

  /** `code` becomes `'unknown'` only when absent; an existing code and every other key are kept. */
  lemma DefaultCodeEffect(data: Body)
    ensures Get(DefaultCode(data), "code") == if "code" in Keys(data) then Get(data, "code") else Some(Str("unknown"))
    ensures forall k :: k != "code" ==> Get(DefaultCode(data), k) == Get(data, k)
    ensures Keys(DefaultCode(data)) == Keys(data) + {"code"}
  {
  }

  // ---------------------------------------------------------------- outcome-wide properties

  /** Outside the two reshapes the last stage only fills in a missing `code`. */
  lemma FinishPlain(api: Api, status: int, data: Body, headers: Headers, logCount: nat)
    requires !(status == 406 && api.defaultMediatype.None?) && !(status == 400 && GetOrNull(data, "message").Dict?)
    ensures Finish(api, status, data, headers, logCount) == Reply(DefaultCode(data), status, headers, None, logCount, status == 401)
  {
  }

  /** A carried response is returned as it is: no body, no override, no log entry. */
  lemma PassThroughUnchanged(api: Api, e: Exception)
    requires !PassesThrough(e) ==> OverrideUsable(api, e.className)
    ensures Classify(api, e).PassThrough? <==> PassesThrough(e)
    ensures PassesThrough(e) ==> Classify(api, e) == PassThrough(e.http.value.response.value)
  {
    if !PassesThrough(e) {
      ClassifySteps(api, e);
      var ov := Overridden(api, e);
      FinishShape(api, ov.0, ov.1, StripHeaders(DefaultDraft(e).headers), if ov.0 >= 500 then 1 else 0);
    }
  }

  /**
   * The reply carries the status left after overrides, a log entry is written exactly once when
   * that status is at least 500 and never otherwise, and the `unauthorized` hook is applied
   * exactly when it is 401.
   */
  lemma FinalStatusGates(api: Api, e: Exception)
    requires OverrideUsable(api, e.className) && !PassesThrough(e)
    ensures var out := Classify(api, e);
      var status := Overridden(api, e).0;
      && (out.Reply? ==> out.status == status)
      && (out.Reply? ==> out.logCount == if status >= 500 then 1 else 0)
      && (out.Reply? ==> (out.unauthorized <==> status == 401))
      && (out.Reply? ==> (out.fallbackMediatype.Some? <==> status == 406 && api.defaultMediatype.None?))
      && (out.Raises? ==> status == 400 && out.logCount == 0)
  {
    ClassifySteps(api, e);
    var ov := Overridden(api, e);
    FinishShape(api, ov.0, ov.1, StripHeaders(DefaultDraft(e).headers), if ov.0 >= 500 then 1 else 0);
  }

  /** Only `Content-Length` is named in the removed-headers list. */
  lemma UnlistedHeader(n: string)
    ensures Unlisted(n, RemoveHeaders) <==> !EqualsIgnoreCase(n, "Content-Length")
  {
    assert RemoveHeaders[0] == "Content-Length";
  }

  /**
   * `Content-Length` is dropped, in any spelling, and every other header is kept with all its
   * copies and in its original order.
   */
  lemma ContentLengthStripped(api: Api, e: Exception)
    requires OverrideUsable(api, e.className) && !PassesThrough(e)
    ensures var out := Classify(api, e);
      var generated := if e.http.Some? then e.http.value.generatedHeaders else [];
      out.Reply? ==>
        && (forall p :: multiset(out.headers)[p] ==
              if EqualsIgnoreCase(p.0, "Content-Length") then 0 else multiset(generated)[p])
        && (forall a, b :: generated == a + b ==> out.headers == StripHeaders(a) + StripHeaders(b))
  {
    ClassifySteps(api, e);
    var ov := Overridden(api, e);
    FinishShape(api, ov.0, ov.1, StripHeaders(DefaultDraft(e).headers), if ov.0 >= 500 then 1 else 0);
    var generated := if e.http.Some? then e.http.value.generatedHeaders else [];
    assert DefaultDraft(e).headers == generated;
    RemoveAllCounts(generated, RemoveHeaders);
    forall p: (string, string) {
      UnlistedHeader(p.0);
    }
    forall a, b | generated == a + b ensures StripHeaders(generated) == StripHeaders(a) + StripHeaders(b) {
      RemoveAllAppend(a, b, RemoveHeaders);
    }
  }

  // ---------------------------------------------------------------- branch precedence

  lemma ThreeEntries(k1: string, v1: Value, k2: string, v2: Value, k3: string, v3: Value)
    requires k1 != k2 && k1 != k3 && k2 != k3
    ensures var d := [(k1, v1), (k2, v2), (k3, v3)];
      Keys(d) == {k1, k2, k3} && Get(d, k1) == Some(v1) && Get(d, k2) == Some(v2) && Get(d, k3) == Some(v3)
  {
    var d := [(k1, v1), (k2, v2), (k3, v3)];
    var d2 := [(k2, v2), (k3, v3)];
    var d3 := [(k3, v3)];
    assert d[1..] == d2 && d2[1..] == d3 && d3[1..] == [];
    assert Keys(d3) == {k3} && Get(d3, k3) == Some(v3);
    assert Keys(d2) == {k2, k3} && Get(d2, k3) == Some(v3);
  }

  /** The message of an HTTPException's default body, after the one JSON-message rewrite. */
  function HttpDefaultMessage(e: Exception): Value
    requires e.http.Some?
  {
    if HttpMessage(e) == Str(JsonDecodeFailure) then Str(InvalidJsonPayload) else HttpMessage(e)
  }

  /** The default body of an HTTPException: its class's error code, its message and its status. */
  lemma HttpDraft(e: Exception)
    requires e.http.Some? && e.http.value.response.None?
    ensures var d := DefaultDraft(e);
      && d.status == e.http.value.code
      && Keys(d.body) == {"code", "message", "status"}
      && Get(d.body, "code") == Some(Str(SnakeCase(e.className)))
      && Get(d.body, "message") == Some(HttpDefaultMessage(e))
      && Get(d.body, "status") == Some(Int(e.http.value.code))
  {
    var code := e.http.value.code;
    ThreeEntries("code", Str(SnakeCase(e.className)), "message", HttpMessage(e), "status", Int(code));
  }

  /**
   * An HTTPException is tested first, whatever other classes it also belongs to: its status is
   * its code, its error code comes from its class name, its message is its description (or the
   * reason phrase when it has none, and the clearer text for the JSON decoding message), and
   * its body also holds its status.
   */
  lemma HttpExceptionBody(api: Api, e: Exception)
    requires e.http.Some? && e.http.value.response.None? && e.data.None? && e.className !in api.errors
    requires !(e.http.value.code == 406 && api.defaultMediatype.None?)
    ensures var out := Classify(api, e);
      var code := e.http.value.code;
      && out.Reply? && out.status == code
      && Keys(out.body) == {"code", "message", "status"}
      && Get(out.body, "code") == Some(Str(SnakeCase(e.className)))
      && Get(out.body, "message") == Some(HttpDefaultMessage(e))
      && Get(out.body, "status") == Some(Int(code))
  {
    ClassifySteps(api, e);
    HttpDraft(e);
    assert !HttpDefaultMessage(e).Dict?;
    DefaultCodeEffect(DefaultDraft(e).body);
  }

  /** Otherwise a ValueError gives 400 with `invalid_param` and `str(e)`, whatever else it is. */
  lemma ValueErrorResponse(api: Api, e: Exception)
    requires e.http.None? && e.isValueError && e.data.None? && e.className !in api.errors
    ensures Classify(api, e) ==
      Reply([("code", Str("invalid_param")), ("message", Str(e.text)), ("status", Int(400))], 400, [], None, 0, false)
  {
    ClassifySteps(api, e);
    var d := DefaultDraft(e).body;
    assert "code" in Keys(d);
    assert Get(d, "message") == Some(Str(e.text));
  }

  /** Otherwise an AppInvokeQuotaExceededError gives 429 with `too_many_requests` and `str(e)`. */
  lemma QuotaErrorResponse(api: Api, e: Exception)
    requires e.http.None? && !e.isValueError && e.isAppInvokeQuota && e.data.None? && e.className !in api.errors
    ensures Classify(api, e) ==
      Reply([("code", Str("too_many_requests")), ("message", Str(e.text)), ("status", Int(429))], 429, [], None, 0, false)
  {
    ClassifySteps(api, e);
    var d := DefaultDraft(e).body;
    assert "code" in Keys(d);
  }

  /**
   * Anything else gives 500 with only the generic reason phrase, to which the default code is
   * added; there is no `status` key, and the log is written once.
   */
  lemma UnclassifiedResponse(api: Api, e: Exception)
    requires e.http.None? && !e.isValueError && !e.isAppInvokeQuota && e.data.None? && e.className !in api.errors
    ensures Classify(api, e) ==
      Reply([("message", Str("Internal Server Error")), ("code", Str("unknown"))], 500, [], None, 1, false)
  {
    ClassifySteps(api, e);
    var d := DefaultDraft(e).body;
    assert "code" !in Keys(d);
  }

  // ---------------------------------------------------------------- data attribute and overrides

  /**
   * A `data` attribute replaces the default body wholesale: without an override, the reply
   * body (outside the two reshapes) is that dict with only a missing `code` added.
   */
  lemma DataAttributeReplacesBody(api: Api, e: Exception)
    requires !PassesThrough(e) && e.data.Some? && e.className !in api.errors
    ensures var d := e.data.value;
      var status := DefaultDraft(e).status;
      var out := Classify(api, e);
      !(status == 406 && api.defaultMediatype.None?) && !(status == 400 && GetOrNull(d, "message").Dict?) ==>
        && out.Reply? && out.status == status
        && Keys(out.body) == Keys(d) + {"code"}
        && (forall k :: k != "code" ==> Get(out.body, k) == Get(d, k))
        && Get(out.body, "code") == (if "code" in Keys(d) then Get(d, "code") else Some(Str("unknown")))
  {
    ClassifySteps(api, e);
    DefaultCodeEffect(e.data.value);
  }

  /**
   * A registered override decides the status (500 when it names none) and its keys win over
   * the body's; outside the two reshapes this is what the reply carries.
   */
  lemma OverrideWins(api: Api, e: Exception)
    requires OverrideUsable(api, e.className) && !PassesThrough(e) && e.className in api.errors
    ensures var custom := api.errors[e.className];
      var status := if Get(custom, "status").Some? then Get(custom, "status").value.i else 500;
      var out := Classify(api, e);
      var body := Overridden(api, e).1;
      && (out.Reply? ==> out.status == status)
      && (!(status == 406 && api.defaultMediatype.None?) && !(status == 400 && GetOrNull(body, "message").Dict?) ==>
            && out.Reply?
            && (forall k :: k in Keys(custom) && k != "message" ==> Get(out.body, k) == Get(custom, k))
            && ("message" in Keys(custom) ==>
                  Get(out.body, "message") == Some(Str(Fill(Get(custom, "message").value.s, TemplateArgument(e))))))
  {
    ClassifySteps(api, e);
    var ov := Overridden(api, e);
    OverrideEffect(api, e, DefaultDraft(e).status, InitialBody(e));
    var headers, logCount := StripHeaders(DefaultDraft(e).headers), if ov.0 >= 500 then 1 else 0;
    FinishShape(api, ov.0, ov.1, headers, logCount);
    if !(ov.0 == 406 && api.defaultMediatype.None?) && !(ov.0 == 400 && GetOrNull(ov.1, "message").Dict?) {
      FinishPlain(api, ov.0, ov.1, headers, logCount);
      DefaultCodeEffect(ov.1);
    }
  }

  // ---------------------------------------------------------------- the reshapes

  /**
   * 406 without a default media type: the body becomes exactly the `not_acceptable` code and
   * the previous message (None when there was none), serialised with the first registered
   * representation or plain text.
   */
  lemma NotAcceptableReshape(api: Api, e: Exception)
    requires OverrideUsable(api, e.className) && !PassesThrough(e)
    requires Overridden(api, e).0 == 406 && api.defaultMediatype.None?
    ensures var out := Classify(api, e);
      && out.Reply?
      && out.body == [("code", Str("not_acceptable")), ("message", GetOrNull(Overridden(api, e).1, "message"))]
      && out.fallbackMediatype == Some(Fallback(api))
  {
    ClassifySteps(api, e);
  }

  /**
   * 400 whose message is a dict: the body becomes exactly `invalid_param`, the first entry's
   * value as the message and its key as `params`; the other entries are dropped. An empty dict
   * makes the handler raise IndexError.
   */
  lemma BadRequestDictFlattened(api: Api, e: Exception)
    requires OverrideUsable(api, e.className) && !PassesThrough(e)
    requires Overridden(api, e).0 == 400 && GetOrNull(Overridden(api, e).1, "message").Dict?
    ensures var entries := GetOrNull(Overridden(api, e).1, "message").entries;
      var out := Classify(api, e);
      && (entries == [] ==> out == Raises("IndexError", 0))
      && (entries != [] ==>
            && out.Reply? && out.status == 400
            && out.body == [("code", Str("invalid_param")), ("message", entries[0].1), ("params", Str(entries[0].0))])
  {
    ClassifySteps(api, e);
  }

  /** Outside the reshapes only a missing `code` is filled in; an existing one is never replaced. */
  lemma CodeFilledOnlyWhenAbsent(api: Api, e: Exception)
    requires OverrideUsable(api, e.className) && !PassesThrough(e)
    ensures var status := Overridden(api, e).0;
      var body := Overridden(api, e).1;
      var out := Classify(api, e);
      !(status == 406 && api.defaultMediatype.None?) && !(status == 400 && GetOrNull(body, "message").Dict?) ==>
        && out.Reply?
        && Get(out.body, "code") == (if "code" in Keys(body) then Get(body, "code") else Some(Str("unknown")))
        && (forall k :: k != "code" ==> Get(out.body, k) == Get(body, k))
  {
    ClassifySteps(api, e);
    DefaultCodeEffect(Overridden(api, e).1);
  }

  // ---------------------------------------------------------------- scenarios

  /** A NotFound HTTPException without a description answers with the 404 reason phrase. */
  lemma NotFoundWithoutDescription(api: Api, generated: Headers)
    requires "NotFound" !in api.errors
    ensures var e := Exception("NotFound", "404 Not Found", Some(HttpPart(404, None, generated)), false, false, Missing, None);
      var out := Classify(api, e);
      && out.Reply? && out.status == 404
      && Get(out.body, "code") == Some(Str("not_found"))
      && Get(out.body, "message") == Some(Str("Not Found"))
      && Get(out.body, "status") == Some(Int(404))
  {
    var e := Exception("NotFound", "404 Not Found", Some(HttpPart(404, None, generated)), false, false, Missing, None);
    HttpExceptionBody(api, e);
    SnakeCaseNotFound();
    NotFoundPhrase();
  }

  lemma NotFoundPhrase()
    ensures ReasonPhrase(404) == "Not Found"
  {
  }

  /** An override dict with a status and a message template made of a prefix and `{message}`. */
  function StatusAndTemplate(code: int, prefix: string): (custom: Body)
    requires BraceFree(prefix)
    ensures OverrideOk(custom)
    ensures Keys(custom) == {"status", "message"}
    ensures Get(custom, "status") == Some(Int(code))
    ensures Get(custom, "message") == Some(Str(prefix + Placeholder))
  {
    var custom := [("status", Int(code)), ("message", Str(prefix + Placeholder))];
    assert custom[1..] == [("message", Str(prefix + Placeholder))];
    assert custom[1..][1..] == [];
    assert Keys(custom[1..]) == {"message"};
    assert "status" != "message";
    FillOnePlaceholder(prefix, [], []);
    assert prefix + Placeholder + [] == prefix + Placeholder;
    assert UniqueKeys(custom[1..]);
    assert UniqueKeys(custom);
    assert TemplateOk(prefix + Placeholder);
    assert Get(custom, "status") == Some(Int(code));
    assert Get(custom, "message") == Some(Str(prefix + Placeholder));
    custom
  }

  /**
   * An override registered for QuotaExceededError wins over the default 500, and its
   * `{message}` field receives the class-level description "Quota Exceeded", not the text
   * the error was raised with.
   */
  lemma QuotaOverrideUsesClassDescription(code: int, prefix: string, raised: string)
    requires BraceFree(prefix) && code != 406
    ensures var api := Api(map["QuotaExceededError" := StatusAndTemplate(code, prefix)], None, ["application/json"]);
      OverrideUsable(api, "QuotaExceededError") &&
      var out := Classify(api, QuotaExceededError(raised));
      && out.Reply? && out.status == code && out.logCount == (if code >= 500 then 1 else 0)
      && Get(out.body, "message") == Some(Str(prefix + "Quota Exceeded"))
      && Get(out.body, "status") == Some(Int(code))
  {
    var custom := StatusAndTemplate(code, prefix);
    var api := Api(map["QuotaExceededError" := custom], None, ["application/json"]);
    var e := QuotaExceededError(raised);
    assert OverrideUsable(api, e.className);
    assert TemplateArgument(e) == "Quota Exceeded";
    FillOnePlaceholder(prefix, [], "Quota Exceeded");
    assert prefix + Placeholder + [] == prefix + Placeholder;
    assert prefix + "Quota Exceeded" + [] == prefix + "Quota Exceeded";
    OverrideEffect(api, e, DefaultDraft(e).status, InitialBody(e));
    ClassifySteps(api, e);
    var ov := Overridden(api, e);
    assert ov.0 == code && GetOrNull(ov.1, "message") == Str(prefix + "Quota Exceeded");
    FinishPlain(api, ov.0, ov.1, StripHeaders(DefaultDraft(e).headers), if code >= 500 then 1 else 0);
    DefaultCodeEffect(ov.1);
  }

  /**
   * An override without `status` forces 500 while the body keeps the HTTP status it had, so
   * the two disagree; the server-error log is written.
   */
  lemma OverrideWithoutStatusForces500(api: Api, e: Exception)
    requires OverrideUsable(api, e.className) && e.http.Some? && e.http.value.response.None? && e.data.None?
    requires e.className in api.errors && "status" !in Keys(api.errors[e.className])
    ensures var out := Classify(api, e);
      && out.Reply? && out.status == 500 && out.logCount == 1
      && Get(out.body, "status") == Some(Int(e.http.value.code))
  {
    HttpDraft(e);
    OverrideEffect(api, e, DefaultDraft(e).status, InitialBody(e));
    OverrideWins(api, e);
    FinalStatusGates(api, e);
    ClassifySteps(api, e);
    DefaultCodeEffect(Overridden(api, e).1);
  }

  /** A 400 whose `data` holds a one-field validation message is flattened to that field. */
  lemma BadRequestFieldMessage(api: Api)
    requires "BadRequest" !in api.errors
    ensures var data := [("message", Dict([("email", Str("invalid format"))]))];
      var e := Exception("BadRequest", "400 Bad Request", Some(HttpPart(400, None, [])), false, false, Text("bad"), Some(data));
      Classify(api, e) ==
        Reply([("code", Str("invalid_param")), ("message", Str("invalid format")), ("params", Str("email"))], 400, [], None, 0, false)
  {
    var data := [("message", Dict([("email", Str("invalid format"))]))];
    var e := Exception("BadRequest", "400 Bad Request", Some(HttpPart(400, None, [])), false, false, Text("bad"), Some(data));
    assert GetOrNull(data, "message") == Dict([("email", Str("invalid format"))]);
    assert DefaultDraft(e).status == 400 && DefaultDraft(e).headers == [];
    NoOverrideNoChange(api, e, 400, data);
    assert Overridden(api, e) == (400, data);
    BadRequestDictFlattened(api, e);
    ClassifySteps(api, e);
    FinishShape(api, 400, data, StripHeaders([]), 0);
    assert StripHeaders([]) == [];
  }
}

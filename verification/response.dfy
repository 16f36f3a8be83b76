/**
 * The success envelope every controller returns: a four-key body, the HTTP status code and
 * the response headers, handed to the web framework as a triple.
 */
module Response {
  import opened Wrappers
  import opened PyDict
  import opened HttpHeaders

  /** The `(body, status_code, headers)` triple; `headers` is None when the caller gave none. */
  datatype Envelope = Envelope(body: Body, statusCode: Value, headers: Option<Headers>)

  const EnvelopeKeys: set<string> := {"status", "message", "data", "code"}

  /**
   * `api_response(status, message, data, status_code, headers)` with the source's defaults.
   * The body holds exactly the four keys, each caller value lands under its key unchanged,
   * `code` repeats the status code of the triple, and the headers pass through untouched.
   */
  function ApiResponse(status: Value := Str("success"), message: Value := Null, data: Value := Null,
                       statusCode: Value := Int(200), headers: Option<Headers> := None): (r: Envelope)
    ensures Keys(r.body) == EnvelopeKeys && UniqueKeys(r.body)
    ensures Get(r.body, "status") == Some(status)
    ensures Get(r.body, "message") == Some(message)
    ensures Get(r.body, "data") == Some(data)
    ensures Get(r.body, "code") == Some(r.statusCode)
    ensures r.statusCode == statusCode && r.headers == headers
  {
    var body := [("status", status), ("message", message), ("data", data), ("code", statusCode)];
    assert body[1..] == [("message", message), ("data", data), ("code", statusCode)];
    assert body[1..][1..] == [("data", data), ("code", statusCode)];
    assert body[1..][1..][1..] == [("code", statusCode)];
    assert body[1..][1..][1..][1..] == [];
    assert Get(body[1..][1..][1..], "code") == Some(statusCode);
    assert Get(body[1..][1..], "code") == Some(statusCode);
    assert Get(body[1..][1..], "data") == Some(data);
    assert Get(body[1..], "code") == Some(statusCode);
    assert Get(body[1..], "data") == Some(data);
    assert Keys(body[1..][1..][1..]) == {"code"};
    assert Keys(body[1..][1..]) == {"data", "code"};
    assert Keys(body[1..]) == {"message", "data", "code"};
    assert UniqueKeys(body[1..][1..]);
    assert UniqueKeys(body[1..]);
    Envelope(body, statusCode, headers)
  }

  /**
   * Called with no arguments the envelope reports success with status 200, no message, no data
   * and no headers; keys the caller leaves out are present with None.
   */
  lemma DefaultEnvelope()
    ensures var r := ApiResponse();
      && r.statusCode == Int(200) && r.headers == None
      && GetOrNull(r.body, "status") == Str("success")
      && GetOrNull(r.body, "message") == Null
      && GetOrNull(r.body, "data") == Null
      && GetOrNull(r.body, "code") == Int(200)
  {
  }
}

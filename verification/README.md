# API error handling, response envelope and input validators — a Dafny model

This project models three pieces of the service's API layer and proves properties of them.

- **The error handler** (`ExternalApi.handle_error`). It turns any exception raised inside a request into one HTTP error response. The handler first sorts the exception into one of four kinds:
  - an HTTPException, which gives its own status, a snake-case error code and its description;
  - a ValueError, which gives 400 `invalid_param`;
  - an AppInvokeQuotaExceededError, which gives 429 `too_many_requests`;
  - anything else, which gives 500.

  It then applies the exception's `data` attribute and any override registered for its class, and logs server errors. Last come the 406 and 400 reshapes, filling in a missing `code`, and the 401 hook.
- **The success envelope** (`api_response`). It builds the four-key body `status`, `message`, `data`, `code` and returns it with the status code and headers.
- **The request-input validators and helpers** of `api/libs/helper.py`:
  - `alphanumeric`, `email`, `timestamp_value`, `str_len` and `uuid_value`;
  - client-address selection (`get_remote_ip`);
  - random identifier generation (`generate_string`).

## Files

The supporting modules model the Python and werkzeug behaviour the core relies on:

- `wrappers.dfy`: `Option` and `Result`.
- `ascii.dfy`: ASCII character classes and lower-casing.
- `numerals.dfy`: decimal and hex text, and `int()` restricted to an optional sign and digits.
- `pydict.dfy`: insertion-ordered Python dicts as association lists, with `get`, `d[k] = v` and `update`.
- `headers.dfy`: werkzeug `Headers` as a list of pairs with case-insensitive names, with `pop`, `get` and `getlist`.
- `pyformat.dfy`: `str.format(message=...)` for templates whose only field is `{message}`.
- `patterns.dfy`: the pieces of `re.match` the validators use: greedy character-class runs and the `$` anchor.

The core modules are:

- `external_api.dfy`: the handler. `Classify` states the policy as a function. `HandleError` performs the handler's steps imperatively, in the source's order, through stage methods. It is proved equal to `Classify`.
- `external_api_properties.dfy`: what `Classify` guarantees, one lemma per rule, plus concrete scenarios.
- `response.dfy`: the success envelope.
- `helper.dfy`: the validators and helpers. `generate_string` is a method with a loop. The rest are functions with lemmas.

Inputs the model cannot compute are parameters:

- The Unicode tables behind Python's `\w` are a parameter `word`. Its required properties are stated by `WordClass`.
- `uuid.UUID` parsing is a parameter `parse`.
- The headers werkzeug generates for an HTTPException are a field of the exception.
- `random.choice` is a nondeterministic choice (`:|`).

### Behaviour of the code worth noting

The handler's docstring (external_api.py:31-35) says every error body holds an error code, a message and a status. The model follows the code, which does not always do that:

- **The 500 body has no `status` key.** The unclassified-exception body holds only `message`, and then `code: 'unknown'` (external_api.py:75-79). So the body's `status` does not always equal the response status.
- **An override without `status` forces 500** (external_api.py:95). The body keeps whatever `status` it had, so the two disagree. See `OverrideWithoutStatusForces500`.
- **An override's `{message}` does not receive the raised message.** It receives `e.description` whenever the exception has that attribute (external_api.py:99). For the quota errors that is the class-level text, "Quota Exceeded" or "App Invoke Quota Exceeded". See `QuotaOverrideUsesClassDescription`.
- **The handler can raise.** A 400 whose `message` is an empty dict makes the handler raise IndexError (external_api.py:129). The model returns the outcome `Raises("IndexError", …)`.

## Model

| member | source | states |
|---|---|---|
| ExternalApi.HandleError | api/libs/external_api.py:18-148 | For every Api object and exception, the handler's outcome equals `Classify(api, e)`. The only condition is that, when no response is carried, the override registered for the exception's class, if any, is usable (`OverrideUsable`). Entries for other classes, and every entry when a response is carried, are never read and may hold anything. The outcome is a carried response returned as is, or a reply with its body, status, headers, fallback media type, number of server-error log entries and whether the 401 hook ran, or the IndexError raise. |
| ExternalApi.Classify | api/libs/external_api.py:18-148 | The policy as a function. Its outcome is a pass-through exactly when a response is carried. A reply is logged once iff its status is at least 500, and gets the 401 hook iff its status is 401. The handler's own raise is always the IndexError of the 400 flattening, never logged. |
| ExternalApi.ReasonPhrase | api/libs/external_api.py:53 | `http_status_message` from werkzeug's table. No reason phrase equals the JSON-decoding message, so the rewrite of lines 57-58 only ever changes an exception's own description. |
| ExternalApi.DefaultError | api/libs/external_api.py:45-79 | The class tests are applied in order (HTTPException, then ValueError, then AppInvokeQuotaExceededError, then the 500 fallback). The status, default body and headers equal `DefaultDraft(e)`. |
| ExternalApi.PopRemovedHeaders | api/libs/external_api.py:84-87 | Popping each removed header name in turn leaves `StripHeaders` of the generated headers. |
| ExternalApi.OverrideError | api/libs/external_api.py:89-101 | The override stage (status from the override, filled template, `update`) yields `ApplyOverride`. |
| ExternalApi.MakeResponse | api/libs/external_api.py:110-147 | The final stage (406 reshape, 400 flattening, default code, 401 hook) yields `Finish`. |
| ExternalApi.SnakeCase | api/libs/external_api.py:52 | The error code derived from a class name contains no upper-case letter. |
| ExternalApiProperties.CamelTailInverts | api/libs/external_api.py:52 | Undoing the underscore insertion on the tail of a camel-case name restores it. |
| ExternalApiProperties.SnakeCaseRoundTrip | api/libs/external_api.py:52 | For a camel-case class name, re-capitalising the derived code gives the class name back. The code loses no information. |
| ExternalApiProperties.SnakeCaseNotFound | api/libs/external_api.py:52 | `NotFound` becomes `not_found`. |
| ExternalApiProperties.PassThroughUnchanged | api/libs/external_api.py:45-48 | The outcome is a pass-through exactly when the exception is an HTTPException carrying a response, and then it is that response, unchanged, whatever the registry holds. |
| ExternalApiProperties.FinalStatusGates | api/libs/external_api.py:104-147 | The reply status is the status left after overrides. One log entry is written iff that status is at least 500. The 401 hook runs iff it is 401. A fallback media type is chosen iff it is 406 with no default media type. A raise only happens at 400, unlogged. |
| ExternalApiProperties.ContentLengthStripped | api/libs/external_api.py:81-87 | Every `Content-Length` header is dropped, in any spelling. Every other header is kept with all its copies (multiset equality) and in its original order (stripping distributes over concatenation). |
| ExternalApi.FinishShape | api/libs/external_api.py:110-147 | In every branch, the last stage keeps the status, headers and log count, never produces a pass-through, and sets the hook exactly at 401 and the fallback exactly at 406 with no default media type. |
| ExternalApiProperties.FinishPlain | api/libs/external_api.py:140-147 | Outside the two reshapes, the reply is the body with a default `code`. |
| ExternalApiProperties.HttpDraft | api/libs/external_api.py:50-58 | An HTTPException's default body has exactly the keys code, message and status: the snake-case class name, the description (or the reason phrase, with the JSON-decoding message rewritten), and the code. |
| ExternalApiProperties.HttpExceptionBody | api/libs/external_api.py:45-60 | With no `data` and no override, and unless it is a 406 with no default media type (the reshape of lines 110-126), an HTTPException answers with its code and exactly those three keys, whatever other classes it also belongs to. |
| ExternalApiProperties.ValueErrorResponse | api/libs/external_api.py:61-67 | A ValueError that is not an HTTPException, with no `data` attribute and no override for its class, answers exactly 400, `invalid_param`, `str(e)`, with nothing logged. |
| ExternalApiProperties.QuotaErrorResponse | api/libs/external_api.py:68-74 | An app-invoke quota error that is neither of the above, with no `data` attribute and no override for its class, answers exactly 429, `too_many_requests`, `str(e)`. |
| ExternalApiProperties.UnclassifiedResponse | api/libs/external_api.py:75-79 | Any other exception, with no `data` attribute and no override for its class, answers 500 with the reason phrase, `code: 'unknown'` and no `status` key, and one log entry. |
| ExternalApiProperties.DataAttributeReplacesBody | api/libs/external_api.py:89 | With no override for the exception's class, a `data` attribute replaces the default body. Outside the reshapes, the reply is that dict with only a missing `code` added. |
| ExternalApiProperties.OverrideEffect | api/libs/external_api.py:91-101 | The status becomes the override's or 500. The keys are merged. Override keys win, with the template filled. Other keys keep their values. |
| ExternalApiProperties.NoOverrideNoChange | api/libs/external_api.py:92 | An unregistered class keeps its status and body. |
| ExternalApiProperties.OverrideWins | api/libs/external_api.py:91-101 | With a registered override, the reply status is the override's (or 500). Outside the two reshapes (406 with no default media type; 400 whose message is a dict), every override key reaches the reply, with its `message` template filled. |
| ExternalApiProperties.DefaultCodeEffect | api/libs/external_api.py:136-142 | `code` is added as `'unknown'` only when absent. Every other key is untouched. |
| ExternalApiProperties.NotAcceptableReshape | api/libs/external_api.py:110-126 | At 406 with no default media type, the body is exactly `not_acceptable` plus the previous message (None if none). The fallback is the first representation or `text/plain`. |
| ExternalApiProperties.BadRequestDictFlattened | api/libs/external_api.py:127-139 | At 400 with a dict message, the body is exactly `invalid_param`, the first entry's value and its key as `params`. An empty dict raises IndexError. |
| ExternalApiProperties.CodeFilledOnlyWhenAbsent | api/libs/external_api.py:135-144 | Outside the reshapes, an existing `code` is never overwritten, a missing one becomes `'unknown'`, and no other key changes. |
| ExternalApiProperties.NotFoundWithoutDescription | api/libs/external_api.py:50-55 | An HTTPException class named NotFound that lacks a `description` attribute (`Missing`) answers 404, `not_found`, "Not Found", status 404. werkzeug's own NotFound carries a class-level description, which `getattr` at line 53 would return instead. |
| ExternalApiProperties.QuotaOverrideUsesClassDescription | api/libs/external_api.py:97-100 | An override `{status, message: prefix + '{message}'}` for QuotaExceededError wins with its status. Its message is the prefix followed by "Quota Exceeded", not the raised text. |
| ExternalApiProperties.OverrideWithoutStatusForces500 | api/libs/external_api.py:95-108 | An override without `status` gives 500 and a log entry, while the body keeps the HTTPException's own status. |
| ExternalApiProperties.BadRequestFieldMessage | api/libs/external_api.py:127-134 | A 400 whose `data` message is `{email: 'invalid format'}` answers exactly `{code: invalid_param, message: 'invalid format', params: email}`. |
| PyDict.Set | api/libs/external_api.py:141-142 | `d[k] = v`: the keys gain `k`, `k` maps to `v`, every other key keeps its value, and keys stay unique. |
| PyDict.Update | api/libs/external_api.py:101 | `d.update(u)`: the keys are the union, keys stay unique, and each key maps to `u`'s value if present there, else to `d`'s. |
| PyDict.Get | api/libs/external_api.py:119 | `d.get(k)` is present exactly when `k` is a key. |
| HttpHeaders.Remove | api/libs/external_api.py:87 | `headers.pop(name)` keeps exactly the entries whose name differs from `name`, ignoring case. |
| HttpHeaders.RemoveCounts | api/libs/external_api.py:87 | Every entry with another name survives as many times as it occurs. No entry with that name survives. |
| HttpHeaders.RemoveAppend | api/libs/external_api.py:87 | Removal distributes over concatenation, so the surviving entries keep their relative order. |
| HttpHeaders.RemoveAll | api/libs/external_api.py:86-87 | After popping every listed name, exactly the entries matching none of them remain. |
| HttpHeaders.RemoveAllCounts | api/libs/external_api.py:86-87 | The entries matching none of the names keep their multiplicity, and the others are gone. |
| HttpHeaders.RemoveAllAppend | api/libs/external_api.py:86-87 | Popping several names also distributes over concatenation and keeps order. |
| PyFormat.Fill | api/libs/external_api.py:98-100 | `template.format(message=m)`: formatting an accepted template with a brace-free message leaves no brace, so every field is replaced. |
| PyFormat.FillOnePlaceholder | api/libs/external_api.py:98-100 | A template with one `{message}` field between brace-free text is accepted, and formatting replaces the field by the argument. |
| PyFormat.FillBraceFree | api/libs/external_api.py:98-100 | A template without braces is accepted and formats to itself. |
| Response.ApiResponse | api/libs/response.py:1-18 | The body has exactly the keys status, message, data and code, each holding the caller's value. `code` equals the returned status code. Status code and headers are returned verbatim. |
| Response.DefaultEnvelope | api/libs/response.py:1-17 | With no arguments: status `success`, message and data None, code 200, no headers. |
| Patterns.Run | api/libs/helper.py:84 | A greedy class run consumes only class characters and stops at the end or at the first character outside the class. |
| Patterns.RunIsOnlyBoundary | api/libs/helper.py:84 | Any class prefix followed by the end or by a non-class character is the greedy run, so backtracking finds no other. |
| Patterns.RunThenGreedy | api/libs/helper.py:51 | When the separator is outside the class, a run followed by the separator exists for some length iff the greedy run is followed by it. |
| Helper.Alphanumeric | api/libs/helper.py:78-87 | An accepted value is returned unchanged. A refused one gives `'<value> is not a valid alphanumeric value'`. |
| Helper.AlphanumericAccepts | api/libs/helper.py:84-85 | A value is accepted iff it is a non-empty run of `[a-zA-Z0-9_]`, or such a run followed by one final newline. |
| Helper.Email | api/libs/helper.py:45-57 | An accepted address is returned unchanged. A refused one gives `'<email> is not a valid email.'`. |
| Helper.DomainTailGreedy | api/libs/helper.py:51 | The greedy scan of `([\w-]+\.)*[\w-]{2,}$` accepts exactly the texts that some split into labels matches. |
| Helper.DomainGreedy | api/libs/helper.py:51 | The same holds for `([\w-]+\.)+[\w-]{2,}$`. |
| Helper.EmailAccepts | api/libs/helper.py:51-53 | `email` accepts exactly the texts that some split into local part, `@` and dotted labels matches. |
| Helper.EmailHasOneAt | api/libs/helper.py:51-53 | An accepted address contains exactly one `@`, after a non-empty local part. |
| Helper.TimestampValue | api/libs/helper.py:90-104 | The result is a number exactly when the text parses as an integer that is not negative, and it is that integer. Otherwise the error is `'<timestamp> is not a valid timestamp.'`. |
| Helper.TimestampOfDecimal | api/libs/helper.py:96-100 | The decimal text of any natural number is accepted as that number. |
| Helper.TimestampRejectsNegative | api/libs/helper.py:97-99 | The decimal text of any negative number is refused. |
| Helper.StrLen.Call | api/libs/helper.py:118-130 | A value is returned unchanged iff its length is at most `max_length`, so the bound is inclusive. Otherwise the message names the argument, the value and the limit. |
| Helper.UuidText | api/libs/helper.py:70-71 | The text form is 36 characters with hyphens at 8, 13, 18 and 23. Its digits are the 32-digit lower-case hex of the number. |
| Helper.UuidTextRoundTrip | api/libs/helper.py:70-71 | Reading the text form's digits back as hex gives the UUID. |
| Helper.UuidValue | api/libs/helper.py:60-75 | `''` is returned without parsing. Otherwise the result is canonical text whose digits encode the parsed UUID, exactly when parsing succeeds, else `'<value> is not a valid uuid.'`. |
| Helper.UuidValueIdempotent | api/libs/helper.py:60-75 | When the parser reads canonical text faithfully, validating an accepted result again returns it unchanged. |
| HttpHeaders.FirstIndexIgnoresCase | api/libs/helper.py:233-234 | Looking up two spellings of one header name finds the same entry. |
| HttpHeaders.GetFirst | api/libs/helper.py:233-234 | `headers.get(name)` finds a value iff some entry has that name, ignoring case. The value is the first one `getlist` reports. |
| HttpHeaders.GetList | api/libs/helper.py:235-236 | `getlist` is empty iff no header has the name. Its first value is that of the first such header. |
| Helper.GetRemoteIp | api/libs/helper.py:227-238 | The address returned is the peer address or the value of a `CF-Connecting-IP` or `X-Forwarded-For` header. It never comes from any other header. |
| Helper.RemoteIpPrecedence | api/libs/helper.py:227-238 | The first `CF-Connecting-IP` header wins when non-empty. Otherwise the first `X-Forwarded-For` header wins, whole and even if empty. Otherwise the peer address. |
| Helper.CloudflareSpellings | api/libs/helper.py:233-234 | The two spellings the code uses name the same header. |
| Helper.GenerateString | api/libs/helper.py:213-224 | The result has n characters (none when n <= 0), each drawn from the alphabet. |
| Helper.LettersDigitsExactly | api/libs/helper.py:219 | The alphabet has 62 characters, and a character is in it iff it is an ASCII letter or digit. |
| Helper.GeneratedIsAlphanumeric | api/libs/helper.py:213-224 | Any non-empty string drawn from the alphabet passes `alphanumeric`. |
| Numerals.ParseInt | api/libs/helper.py:97 | `int(s)` on the modelled forms: a text is accepted iff it is non-empty digits, or a `+` or `-` followed by non-empty digits. A negative value needs a leading minus sign. |
| Numerals.ParseDigits | api/libs/helper.py:97 | Unsigned digits, leading zeros included, are accepted with their decimal value. |
| Numerals.ParsePlus | api/libs/helper.py:97 | A `+` sign leaves the value unchanged. |
| Numerals.ParseMinus | api/libs/helper.py:97 | A `-` sign negates the value, so `-0` is 0. |
| Numerals.ParseLeadingZero | api/libs/helper.py:97 | A leading zero leaves the value unchanged (`007` is 7). |
| Numerals.ParseShowInt | api/libs/helper.py:97 | `int(str(i)) == i` for every integer. |
| Numerals.HexRoundTrip | api/libs/helper.py:70-71 | Fixed-width hex text of a number that fits the width reads back as that number. |

## Left out

- The request-exception signal (external_api.py:42), the logging call itself (105-108), the serialisation done by `make_response`, and the internals of `unauthorized` are not modelled. The outcome records how often the log is written, the fallback media type, and whether the hook ran.
- When the body is the exception's own `data` dict, the code changes that dict in place: `data.update(...)` at external_api.py:101 and `data['code'] = 'unknown'` at lines 137 and 142. The model computes each updated dict as a new value. The change seen afterwards through the exception object (aliasing) is not modelled.
- A `data` attribute that is not a dict (None, an int, a list, a string) is not modelled: the model types the attribute as an optional dict. In the code, the first use of such a value decides the outcome:
  - with an override, `data.update` at external_api.py:101 raises;
  - at 406 with no default media type, `data.get` at line 119 raises, and at 400 `data.get` at line 128 raises;
  - otherwise `'code' not in data` at line 141 raises for None or an int;
  - a list, or a string without `code`, raises at the item assignment on line 142;
  - a list or string that contains `code` reaches `make_response` at line 144 without raising.
- `ExternalApi.Classify` requires the override registered for the raised exception's class, if there is one, to have an int `status` and a `message` template whose only replacement field is `{message}` (`OverrideUsable`). Only that entry is read, and only when no response is carried. Overrides of any other shape for the raised class are not modelled. The code raises on some of them: a KeyError or IndexError from other template fields, a type error from a non-numeric `status` such as a string. A float `status` such as `500.0` behaves like the int. An override whose `status` is None does not raise: it skips the log, the reshapes and the 401 hook and reaches `make_response` with status None. Neither behaviour is modelled. The same goes for `{{`/`}}` escapes and format specs in templates.
- An HTTPException whose `code` is None is not modelled, nor an override `status` that is not an int (a float one would behave like the int).
- Python's Unicode `\w` is a parameter. Only its ASCII part and the characters the email pattern relies on are constrained. Lower-casing is ASCII only, both in the error code (external_api.py:52) and in header-name matching (`EqualsIgnoreCase`, used by `Remove`, `GetFirst` and `GetList`); werkzeug compares header names with Unicode `str.lower()`.
- `http_status_message` is modelled by werkzeug's reason-phrase table. An unknown code gives the empty string.
- `Helper.TimestampValue`: only string arguments are modelled, and `int()` is restricted to an optional sign followed by ASCII decimal digits `0`-`9`. Python also accepts other Unicode decimal digits (`int('١٢') == 12`), which the model refuses. Surrounding whitespace, underscores and already-integer arguments are not modelled.
- `Helper.Email` and `Helper.Alphanumeric`: non-string arguments, which raise TypeError in `re.match`, are not modelled.
- `Helper.StrLen.Call`: only string values are modelled, and `max_length` is an int. In the code, `len(value)` at helper.py:124 accepts any value with a length, such as a list, which is then bounded the same way. Only a value without a length raises TypeError.
- `Helper.EmailAccepts`: proved for every `\w` table satisfying `WordClass`, not for Python's actual table.
- `Helper.UuidValue`: `uuid.UUID` parsing is abstract. Which spellings it accepts (braces, `urn:uuid:`, upper case, no hyphens) is not modelled.
- `Helper.GenerateString`: the random choice is a nondeterministic choice. Its distribution is not modelled.
- `get_remote_ip` sees only the request's headers and peer address. WSGI's mapping of header names is not modelled.
- `run`, `TimestampField`, `float_range`, `datetime_string`, `_get_float`, `timezone` and `generate_text_hash` are not part of this model. They are shell execution, floating point, date parsing, the time-zone database and SHA-256.

/**
 * The request-input validators and small utilities: each validator returns its input (or its
 * normalised form) or fails with the ValueError text the source raises, modelled as `Err`.
 */
module Helper {
  import opened Wrappers
  import opened Ascii
  import opened Numerals
  import opened HttpHeaders
  import opened Patterns

  // ---------------------------------------------------------------- character classes

  /** `[a-zA-Z0-9_]` */
  predicate IsAsciiWordChar(c: char) { IsLetterOrDigit(c) || c == '_' }

  /**
   * What is assumed of Python's `\w`, whose Unicode tables are not modelled: it holds every
   * ASCII word character and none of `@`, `.`, `-` or the newline.
   */
  predicate WordClass(word: char -> bool)
  {
    && (forall c :: IsAsciiWordChar(c) ==> word(c))
    && !word('@') && !word('.') && !word('-') && !word('\n')
  }

  /** The punctuation the local part allows besides `\w`: ``.!#$%&'*+-/=?^_`{|}~`` */
  predicate IsLocalSpecial(c: char)
  {
    || c == '.' || c == '!' || c == '#' || c == '$' || c == '%' || c == '&' || c == '\''
    || c == '*' || c == '+' || c == '-' || c == '/' || c == '=' || c == '?' || c == '^'
    || c == '_' || c == '`' || c == '{' || c == '|' || c == '}' || c == '~'
  }

  /** `[\w\.!#$%&'*+\-/=?^_`{|}~]`: the characters of an address's local part. */
  function LocalClass(word: char -> bool): char -> bool
  {
    c => word(c) || IsLocalSpecial(c)
  }

  /** `[\w-]`: the characters of a domain label. */
  function LabelClass(word: char -> bool): char -> bool
  {
    c => word(c) || c == '-'
  }

  // ---------------------------------------------------------------- alphanumeric

  /**
   * `re.match(r'^[a-zA-Z0-9_]+$', value)`: the greedy run of word characters must be non-empty
   * and end where `$` matches.
   */
  predicate AlphanumericMatch(value: string)
  {
    var k := Run(IsAsciiWordChar, value);
    k >= 1 && DollarAt(value, k)
  }

  /** `alphanumeric(value)` */
  function Alphanumeric(value: string): (r: Result<string>)
    ensures r.Ok? ==> r.value == value
    ensures r.Err? ==> r.error == value + " is not a valid alphanumeric value"
  {
    if AlphanumericMatch(value) then Ok(value)
    else Err(value + " is not a valid alphanumeric value")
  }

  /**
   * A value is accepted exactly when it is a non-empty run of `[a-zA-Z0-9_]`, or such a run
   * followed by one final newline (which `$` lets through).
   */
  lemma AlphanumericAccepts(value: string)
    ensures Alphanumeric(value).Ok? <==>
      || (|value| >= 1 && AllIn(IsAsciiWordChar, value))
      || (|value| >= 2 && value[|value| - 1] == '\n' && AllIn(IsAsciiWordChar, value[..|value| - 1]))
  {
    var n := |value|;
    if n >= 1 && AllIn(IsAsciiWordChar, value) {
      assert value[..n] == value;
      RunIsOnlyBoundary(IsAsciiWordChar, value, n);
    }
    if n >= 2 && value[n - 1] == '\n' && AllIn(IsAsciiWordChar, value[..n - 1]) {
      RunIsOnlyBoundary(IsAsciiWordChar, value, n - 1);
    }
    var k := Run(IsAsciiWordChar, value);
    if k == n {
      assert value[..k] == value;
    }
  }

  // ---------------------------------------------------------------- email

  /**
   * `([\w-]+\.)*[\w-]{2,}$` matched greedily: a label followed by a dot starts another round,
   * otherwise the label must be at least two characters long and end where `$` matches.
   */
  predicate MatchDomainTail(word: char -> bool, t: string)
    decreases |t|
  {
    var k := Run(LabelClass(word), t);
    if k >= 1 && k < |t| && t[k] == '.' then MatchDomainTail(word, t[k + 1..])
    else k >= 2 && DollarAt(t, k)
  }

  /** `([\w-]+\.)+[\w-]{2,}$`: at least one dotted label, then the tail. */
  predicate MatchDomain(word: char -> bool, t: string)
  {
    var k := Run(LabelClass(word), t);
    k >= 1 && k < |t| && t[k] == '.' && MatchDomainTail(word, t[k + 1..])
  }

  /** `re.match(r"^[\w\.!#$%&'*+\-/=?^_`{|}~]+@([\w-]+\.)+[\w-]{2,}$", email)` */
  predicate MatchEmail(word: char -> bool, s: string)
  {
    var k := Run(LocalClass(word), s);
    k >= 1 && k < |s| && s[k] == '@' && MatchDomain(word, s[k + 1..])
  }

  /** `email(email)` with `\w` given by `word`. */
  function Email(word: char -> bool, email: string): (r: Result<string>)
    ensures r.Ok? ==> r.value == email
    ensures r.Err? ==> r.error == email + " is not a valid email."
  {
    if MatchEmail(word, email) then Ok(email)
    else Err(email + " is not a valid email.")
  }

  // The same pattern read the way a backtracking matcher reads it: every split of the text
  // into the pattern's parts is tried.

  /** `[\w-]{2,}$` at the start of `u`, for some length. */
  predicate FinalLabel(word: char -> bool, u: string)
  {
    exists j :: 2 <= j <= |u| && AllIn(LabelClass(word), u[..j]) && DollarAt(u, j)
  }

  /** `([\w-]+\.)*[\w-]{2,}$` at the start of `u`, for some split. */
  predicate DomainTail(word: char -> bool, u: string)
    decreases |u|
  {
    || FinalLabel(word, u)
    || exists j :: 1 <= j < |u| && u[j] == '.' && AllIn(LabelClass(word), u[..j]) && DomainTail(word, u[j + 1..])
  }

  /** `([\w-]+\.)+[\w-]{2,}$` at the start of `t`, for some split. */
  predicate Domain(word: char -> bool, t: string)
  {
    RunThen(LabelClass(word), '.', u => DomainTail(word, u), t)
  }

  /** `[\w\.!#$%&'*+\-/=?^_`{|}~]+@` and a domain, for some split. */
  predicate EmailShape(word: char -> bool, s: string)
  {
    RunThen(LocalClass(word), '@', t => Domain(word, t), s)
  }

  /** A prefix of label characters that a dot or a newline follows is the greedy label. */
  lemma LabelBoundary(word: char -> bool, u: string, j: nat)
    requires WordClass(word)
    requires j < |u| && (u[j] == '.' || u[j] == '\n') && AllIn(LabelClass(word), u[..j])
    ensures j == Run(LabelClass(word), u)
  {
    assert !LabelClass(word)(u[j]);
    RunIsOnlyBoundary(LabelClass(word), u, j);
  }

  /** The final label is found exactly where the greedy run ends. */
  lemma FinalLabelGreedy(word: char -> bool, u: string)
    requires WordClass(word)
    ensures FinalLabel(word, u) <==> (var k := Run(LabelClass(word), u); k >= 2 && DollarAt(u, k))
  {
    var k := Run(LabelClass(word), u);
    if FinalLabel(word, u) {
      var j :| 2 <= j <= |u| && AllIn(LabelClass(word), u[..j]) && DollarAt(u, j);
      if j == |u| {
        RunIsOnlyBoundary(LabelClass(word), u, j);
      } else {
        LabelBoundary(word, u, j);
      }
    }
  }

  /** A dotted label can only be split off where the greedy run of label characters ends. */
  lemma DottedLabelGreedy(word: char -> bool, u: string)
    requires WordClass(word)
    ensures var k := Run(LabelClass(word), u);
      (exists j :: 1 <= j < |u| && u[j] == '.' && AllIn(LabelClass(word), u[..j]) && DomainTail(word, u[j + 1..])) <==>
      (1 <= k < |u| && u[k] == '.' && DomainTail(word, u[k + 1..]))
  {
    var k := Run(LabelClass(word), u);
    forall j | 1 <= j < |u| && u[j] == '.' && AllIn(LabelClass(word), u[..j])
      ensures j == k
    {
      LabelBoundary(word, u, j);
    }
  }

  /**
   * One round of the domain tail read greedily: either the final label where the greedy run
   * ends, or a dotted label split off where the greedy run ends and another round after it.
   */
  lemma DomainTailStep(word: char -> bool, u: string)
    requires WordClass(word)
    ensures var k := Run(LabelClass(word), u);
      DomainTail(word, u) <==> (k >= 2 && DollarAt(u, k)) || (1 <= k < |u| && u[k] == '.' && DomainTail(word, u[k + 1..]))
  {
    FinalLabelGreedy(word, u);
    DottedLabelGreedy(word, u);
  }

  /** The greedy scan of the domain tail accepts exactly what some split accepts. */
  lemma {:induction false} DomainTailGreedy(word: char -> bool, u: string)
    requires WordClass(word)
    ensures MatchDomainTail(word, u) <==> DomainTail(word, u)
    decreases |u|
  {
    var k := Run(LabelClass(word), u);
    if 1 <= k < |u| && u[k] == '.' {
      calc {
        MatchDomainTail(word, u);
        MatchDomainTail(word, u[k + 1..]);
        { DomainTailGreedy(word, u[k + 1..]); }
        DomainTail(word, u[k + 1..]);
        { DomainTailStep(word, u); assert !DollarAt(u, k); }
        DomainTail(word, u);
      }
    } else {
      calc {
        MatchDomainTail(word, u);
        k >= 2 && DollarAt(u, k);
        { DomainTailStep(word, u); }
        DomainTail(word, u);
      }
    }
  }

  /** The greedy scan of the domain accepts exactly what some split accepts. */
  lemma DomainGreedy(word: char -> bool, t: string)
    requires WordClass(word)
    ensures MatchDomain(word, t) <==> Domain(word, t)
  {
    var k := Run(LabelClass(word), t);
    assert !LabelClass(word)('.');
    RunThenGreedy(LabelClass(word), '.', u => DomainTail(word, u), t);
    if 1 <= k < |t| && t[k] == '.' {
      DomainTailGreedy(word, t[k + 1..]);
    }
  }

  /** `email` accepts exactly the addresses that some split of the pattern matches. */
  lemma EmailAccepts(word: char -> bool, s: string)
    requires WordClass(word)
    ensures Email(word, s).Ok? <==> EmailShape(word, s)
  {
    var k := Run(LocalClass(word), s);
    assert !LocalClass(word)('@');
    RunThenGreedy(LocalClass(word), '@', t => Domain(word, t), s);
    if 1 <= k < |s| && s[k] == '@' {
      DomainGreedy(word, s[k + 1..]);
    }
  }

  /** A run of label characters holds no `@`. */
  lemma LabelRunHasNoAt(word: char -> bool, u: string)
    requires WordClass(word)
    ensures forall i :: 0 <= i < Run(LabelClass(word), u) ==> u[i] != '@'
  {
    var k := Run(LabelClass(word), u);
    forall i | 0 <= i < k ensures u[i] != '@' {
      assert LabelClass(word)(u[..k][i]);
    }
  }

  /** No character of an accepted domain tail is an `@`. */
  lemma {:induction false} DomainTailHasNoAt(word: char -> bool, u: string)
    requires WordClass(word) && MatchDomainTail(word, u)
    ensures forall i :: 0 <= i < |u| ==> u[i] != '@'
    decreases |u|
  {
    var k := Run(LabelClass(word), u);
    LabelRunHasNoAt(word, u);
    if k >= 1 && k < |u| && u[k] == '.' {
      DomainTailHasNoAt(word, u[k + 1..]);
      forall i | k < i < |u| ensures u[i] != '@' {
        assert u[i] == u[k + 1..][i - k - 1];
      }
    } else {
      assert DollarAt(u, k);
      forall i | k <= i < |u| ensures u[i] != '@' {
        assert i == k && u[k] == '\n';
      }
    }
  }

  /** No character of an accepted domain is an `@`. */
  lemma DomainHasNoAt(word: char -> bool, t: string)
    requires WordClass(word) && MatchDomain(word, t)
    ensures forall i :: 0 <= i < |t| ==> t[i] != '@'
  {
    var k := Run(LabelClass(word), t);
    LabelRunHasNoAt(word, t);
    DomainTailHasNoAt(word, t[k + 1..]);
    forall i | k < i < |t| ensures t[i] != '@' {
      assert t[i] == t[k + 1..][i - k - 1];
    }
  }

  /** An accepted address has exactly one `@`, with a non-empty local part before it. */
  lemma EmailHasOneAt(word: char -> bool, s: string)
    requires WordClass(word) && Email(word, s).Ok?
    ensures exists i :: 1 <= i < |s| && s[i] == '@' && (forall j :: 0 <= j < |s| && s[j] == '@' ==> j == i)
  {
    var k := Run(LocalClass(word), s);
    var t := s[k + 1..];
    forall j | 0 <= j < k ensures s[j] != '@' {
      assert LocalClass(word)(s[..k][j]);
    }
    DomainHasNoAt(word, t);
    forall j | k < j < |s| ensures s[j] != '@' {
      assert s[j] == t[j - k - 1];
    }
  }

  // ---------------------------------------------------------------- timestamp_value

  /** `timestamp_value(timestamp)` for a string argument. */
  function TimestampValue(timestamp: string): (r: Result<nat>)
    ensures r.Ok? <==> ParseInt(timestamp).Some? && ParseInt(timestamp).value >= 0
    ensures r.Ok? ==> ParseInt(timestamp) == Some(r.value as int)
    ensures r.Err? ==> r.error == timestamp + " is not a valid timestamp."
  {
    match ParseInt(timestamp)
    case Some(i) => if i < 0 then Err(timestamp + " is not a valid timestamp.") else Ok(i)
    case None => Err(timestamp + " is not a valid timestamp.")
  }

  /** The decimal text of any natural number is accepted as that number. */
  lemma TimestampOfDecimal(n: nat)
    ensures TimestampValue(ShowNat(n)) == Ok(n)
  {
    ParseShowInt(n);
  }

  /** The decimal text of a negative number is always rejected. */
  lemma TimestampRejectsNegative(i: int)
    requires i < 0
    ensures TimestampValue(ShowInt(i)) == Err(ShowInt(i) + " is not a valid timestamp.")
  {
    ParseShowInt(i);
  }

  // ---------------------------------------------------------------- str_len

  /** The `str_len(max_length, argument)` validator: the configuration `__init__` stores. */
  datatype StrLen = StrLen(maxLength: int, argument: string := "argument")
  {
    /** `__call__(value)`: the bound is inclusive; a longer value is refused with a message naming the argument. */
    function Call(value: string): (r: Result<string>)
      ensures r.Ok? <==> |value| <= maxLength
      ensures r.Ok? ==> r.value == value
      ensures r.Err? ==>
        r.error == "Invalid " + argument + ": " + value + ". " + argument + " cannot exceed length " + ShowInt(maxLength)
    {
      if |value| > maxLength then
        Err("Invalid " + argument + ": " + value + ". " + argument + " cannot exceed length " + ShowInt(maxLength))
      else Ok(value)
    }
  }

  // ---------------------------------------------------------------- uuid_value

  /** A UUID is a 128-bit number. */
  type Uuid = n: nat | n < Pow16(32)

  /** The 32 hex digits of a 36-character UUID text, hyphens dropped. */
  function UuidDigits(r: string): (d: string)
    requires |r| == 36
    ensures |d| == 32
  {
    r[..8] + r[9..13] + r[14..18] + r[19..23] + r[24..]
  }

  /** The canonical text form: 32 lower-case hex digits grouped 8-4-4-4-12 by hyphens. */
  predicate IsCanonicalUuid(r: string)
  {
    && |r| == 36
    && r[8] == '-' && r[13] == '-' && r[18] == '-' && r[23] == '-'
    && forall i :: 0 <= i < 32 ==> IsHexDigit(UuidDigits(r)[i])
  }

  /** `str(uuid.UUID(...))`, the text form of section 3 of RFC 4122: its digits are the number in hex. */
  function UuidText(n: Uuid): (r: string)
    ensures IsCanonicalUuid(r)
    ensures UuidDigits(r) == Hex(n, 32)
  {
    var h := Hex(n, 32);
    var r := h[..8] + "-" + h[8..12] + "-" + h[12..16] + "-" + h[16..20] + "-" + h[20..];
    assert r[..8] == h[..8];
    assert r[9..13] == h[8..12];
    assert r[14..18] == h[12..16];
    assert r[19..23] == h[16..20];
    assert r[24..] == h[20..];
    assert h == h[..8] + h[8..12] + h[12..16] + h[16..20] + h[20..];
    r
  }

  /** The canonical text loses nothing: its digits, read as hex, give the UUID back. */
  lemma UuidTextRoundTrip(n: Uuid)
    ensures HexValue(UuidDigits(UuidText(n))) == n
  {
    HexRoundTrip(n, 32);
  }

  /**
   * `uuid_value(value)` with `uuid.UUID` given as `parse`: the empty string is returned as is
   * without parsing; anything else is normalised to the canonical text or refused.
   */
  function UuidValue(value: string, parse: string -> Option<Uuid>): (r: Result<string>)
    ensures value == "" ==> r == Ok("")
    ensures value != "" ==> (r.Ok? <==> parse(value).Some?)
    ensures value != "" && r.Ok? ==> IsCanonicalUuid(r.value) && HexValue(UuidDigits(r.value)) == parse(value).value
    ensures r.Err? ==> r.error == value + " is not a valid uuid."
  {
    if value == "" then Ok("")
    else match parse(value)
      case Some(n) => UuidTextRoundTrip(n); Ok(UuidText(n))
      case None => Err(value + " is not a valid uuid.")
  }

  /**
   * When the parser reads canonical texts back faithfully, validating an accepted value again
   * changes nothing.
   */
  lemma UuidValueIdempotent(value: string, parse: string -> Option<Uuid>)
    requires forall n: Uuid :: parse(UuidText(n)) == Some(n)
    requires UuidValue(value, parse).Ok?
    ensures UuidValue(UuidValue(value, parse).value, parse) == UuidValue(value, parse)
  {
    if value != "" {
      var n := parse(value).value;
      assert UuidValue(value, parse).value == UuidText(n);
      assert parse(UuidText(n)) == Some(n);
    }
  }

  // ---------------------------------------------------------------- get_remote_ip

  /** The two headers a proxy in front of the service may set for the client address. */
  predicate ProxyHeader(name: string)
  {
    EqualsIgnoreCase(name, "CF-Connecting-IP") || EqualsIgnoreCase(name, "X-Forwarded-For")
  }

  /**
   * `get_remote_ip(request)`: a non-empty `CF-Connecting-IP` header wins, then the first
   * `X-Forwarded-For` header (even an empty one), then the socket's peer address.
   */
  function GetRemoteIp(h: Headers, remoteAddr: Option<string>): (r: Option<string>)
    ensures r == remoteAddr || exists i :: 0 <= i < |h| && r == Some(h[i].1) && ProxyHeader(h[i].0)
  {
    CloudflareSpellings();
    FirstIndexIgnoresCase(h, "CF-Connecting-IP", "Cf-Connecting-Ip");
    var cf := GetFirst(h, "CF-Connecting-IP");
    if cf.Some? && cf.value != "" then GetFirst(h, "Cf-Connecting-Ip")
    else
      var forwarded := GetList(h, "X-Forwarded-For");
      if forwarded != [] then Some(forwarded[0]) else remoteAddr
  }

  /** The two spellings the source uses for the Cloudflare header name one header. */
  lemma CloudflareSpellings()
    ensures EqualsIgnoreCase("CF-Connecting-IP", "Cf-Connecting-Ip")
  {
    var a, b := LowerString("CF-Connecting-IP"), LowerString("Cf-Connecting-Ip");
    assert forall i :: 0 <= i < 16 ==> a[i] == b[i];
  }

  /** The three sources, in order of precedence, stated on the header list itself. */
  lemma RemoteIpPrecedence(h: Headers, remoteAddr: Option<string>)
    ensures var cf := FirstIndex(h, "CF-Connecting-IP");
      var xf := FirstIndex(h, "X-Forwarded-For");
      var r := GetRemoteIp(h, remoteAddr);
      && (cf < |h| && h[cf].1 != "" ==> r == Some(h[cf].1))
      && (!(cf < |h| && h[cf].1 != "") && xf < |h| ==> r == Some(h[xf].1))
      && (!(cf < |h| && h[cf].1 != "") && xf == |h| ==> r == remoteAddr)
  {
    CloudflareSpellings();
    FirstIndexIgnoresCase(h, "CF-Connecting-IP", "Cf-Connecting-Ip");
  }

  // ---------------------------------------------------------------- generate_string

  /** `string.ascii_letters + string.digits`: a-z, then A-Z, then 0-9. */
  const LettersDigits: string :=
    seq(26, i requires 0 <= i < 26 => ('a' as int + i) as char) +
    seq(26, i requires 0 <= i < 26 => ('A' as int + i) as char) +
    seq(10, i requires 0 <= i < 10 => ('0' as int + i) as char)

  /** The alphabet is exactly the 62 ASCII letters and digits. */
  lemma LettersDigitsExactly()
    ensures |LettersDigits| == 62
    ensures forall c :: c in LettersDigits <==> IsLetterOrDigit(c)
  {
    forall c | IsLetterOrDigit(c) ensures c in LettersDigits {
      if IsLower(c) {
        assert LettersDigits[c as int - 'a' as int] == c;
      } else if IsUpper(c) {
        assert LettersDigits[26 + c as int - 'A' as int] == c;
      } else {
        assert LettersDigits[52 + c as int - '0' as int] == c;
      }
    }
  }

  /** `generate_string(n)`: n characters, each drawn from the alphabet; none when n <= 0. */
  method GenerateString(n: int) returns (result: string)
    ensures |result| == if n > 0 then n else 0
    ensures forall i :: 0 <= i < |result| ==> result[i] in LettersDigits
  {
    result := "";
    var i := 0;
    while i < n
      invariant 0 <= i <= (if n > 0 then n else 0) && |result| == i
      invariant forall j :: 0 <= j < |result| ==> result[j] in LettersDigits
    {
      assert LettersDigits[0] in LettersDigits;
      var c :| c in LettersDigits;
      result := result + [c];
      i := i + 1;
    }
  }

  /** A generated string of positive length always passes `alphanumeric`. */
  lemma GeneratedIsAlphanumeric(s: string)
    requires |s| >= 1 && forall i :: 0 <= i < |s| ==> s[i] in LettersDigits
    ensures Alphanumeric(s) == Ok(s)
  {
    LettersDigitsExactly();
    AlphanumericAccepts(s);
    assert AllIn(IsAsciiWordChar, s);
  }
}

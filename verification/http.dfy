/** What the three Python cloud functions share: the incoming event, the response record, the
    CORS header sets, header lookups, the `x-forwarded-for` client address, and Python's `int()`
    on a query parameter. */
module Http {

  import opened Wrappers
  import opened Json
  import opened Text

  /** The fields of the event a handler reads. `httpMethod` is `None` when the key is absent
      (then `'GET'` is used). `body` is the outcome of `json.loads` on the body text: `None` when
      it raised; an absent body is the text `'{}'`, so it arrives as an empty object.
      `pathParameters`, `headers` and `queryStringParameters` are empty maps when absent. */
  datatype Event = Event(
    httpMethod: Option<string>,
    pathParameters: map<string, string>,
    headers: map<string, string>,
    body: Option<Json>,
    queryStringParameters: map<string, string>)

  /** A response body: the empty string, a JSON document, or `{"error": str(e)}` for a caught
      exception whose message is not modelled. */
  datatype Body = Empty | JsonBody(value: Json) | ExceptionBody

  datatype Response = Response(statusCode: int, headers: map<string, string>, body: Body)

  /** The process environment and the database connection attempt. */
  datatype Environment = Environment(databaseUrl: Option<string>, connectOk: bool)

  /** `event.get('httpMethod', 'GET')`. */
  function Method(e: Event): string {
    e.httpMethod.GetOr("GET")
  }

  /** `if not database_url`: an unset and an empty `DATABASE_URL` are both refused. */
  predicate DatabaseConfigured(env: Environment) {
    env.databaseUrl.Some? && env.databaseUrl.value != ""
  }

  const JsonHeaders: map<string, string> :=
    map["Content-Type" := "application/json", "Access-Control-Allow-Origin" := "*"]

  /** The headers of a preflight answer, listing the allowed methods. */
  function CorsHeaders(allowMethods: string): map<string, string> {
    map[
      "Access-Control-Allow-Origin" := "*",
      "Access-Control-Allow-Methods" := allowMethods,
      "Access-Control-Allow-Headers" := "Content-Type, Authorization",
      "Access-Control-Max-Age" := "86400"
    ]
  }

  /** The answer to `OPTIONS`: 200, the CORS headers, an empty body. */
  function Preflight(allowMethods: string): (r: Response)
    ensures r.statusCode == 200 && r.body == Empty
    ensures "Access-Control-Allow-Methods" in r.headers && r.headers["Access-Control-Allow-Methods"] == allowMethods
    ensures "Access-Control-Allow-Origin" in r.headers && r.headers["Access-Control-Allow-Origin"] == "*"
  {
    Response(200, CorsHeaders(allowMethods), Empty)
  }

  function JsonResponse(status: int, value: Json): (r: Response)
    ensures r.statusCode == status && r.body == JsonBody(value) && r.headers == JsonHeaders
  {
    Response(status, JsonHeaders, JsonBody(value))
  }

  /** `{"error": message}` with the given status. */
  function ErrorResponse(status: int, message: string): (r: Response)
    ensures r.statusCode == status && r.headers == JsonHeaders
    ensures r.body.JsonBody? && r.body.value.JObject?
    ensures ErrorMessage(r) == Some(message)
  {
    JsonResponse(status, JObject(map["error" := JString(message)]))
  }

  /** The `error` text of a response, when it carries one. */
  function ErrorMessage(r: Response): Option<string> {
    if r.body.JsonBody? && r.body.value.JObject? && "error" in r.body.value.fields
       && r.body.value.fields["error"].JString?
    then Some(r.body.value.fields["error"].s)
    else None
  }

  /** A caught exception: 500 with its message. */
  const ServerError: Response := Response(500, JsonHeaders, ExceptionBody)

  const NotConfigured: string := "Database connection not configured"
  const MethodNotAllowed: string := "Method not allowed"

  /** `headers.get('x-forwarded-for', '').split(',')[0].strip()`: the first listed address,
      trimmed. It holds no comma and does not begin or end in whitespace. */
  function ForwardedFor(headers: map<string, string>): (ip: string)
    ensures "x-forwarded-for" !in headers ==> ip == ""
    ensures ',' !in ip
    ensures |ip| > 0 ==> !IsSpace(ip[0]) && !IsSpace(ip[|ip| - 1])
  {
    var first := BeforeFirst(GetOr(headers, "x-forwarded-for", ""), ',');
    assert ',' !in first;
    var ip := Strip(first);
    StripOmits(first, ',');
    ip
  }

  /** A proxy chain `first, rest` yields its first entry with surrounding spaces cut. */
  lemma ForwardedForFirstEntry(headers: map<string, string>, first: string, rest: string)
    requires ',' !in first
    requires "x-forwarded-for" in headers && headers["x-forwarded-for"] == first + "," + rest
    ensures ForwardedFor(headers) == Strip(first)
  {
    BeforeFirstPrefix(first, rest, ',');
  }

  lemma {:induction false} BeforeFirstPrefix(first: string, rest: string, sep: char)
    requires sep !in first
    ensures BeforeFirst(first + [sep] + rest, sep) == first
    decreases |first|
  {
    var s := first + [sep] + rest;
    if |first| > 0 {
      assert s[1..] == first[1..] + [sep] + rest;
      BeforeFirstPrefix(first[1..], rest, sep);
    }
  }

  /** The ASCII information separators U+001C to U+001F: `str.isspace` holds for them, but
      `int()` skips only the ASCII space, tab, line feed, vertical tab, form feed and carriage
      return among the ASCII characters, so a separator is never skipped. */
  predicate IsSeparator(c: char) {
    '\U{001C}' <= c <= '\U{001F}'
  }

  predicate HasSeparator(s: string) {
    exists i :: 0 <= i < |s| && IsSeparator(s[i])
  }

  /** The characters `int()` skips around a numeral. */
  predicate IntSpace(c: char) {
    IsSpace(c) && !IsSeparator(c)
  }

  /** CPython's limit on the digits of a decimal `int()` or `str()` conversion
      (`sys.int_info.default_max_str_digits`); a longer numeral raises `ValueError`. */
  const MaxStrDigits: nat := 4300

  /** How Python's `int()` reads a string: surrounding whitespace ignored, an optional sign, then
      one to `MaxStrDigits` decimal digits; anything else raises (`None`). A numeral holds no
      separator, so a separator anywhere lies in the margins `strip()` would cut, where `int()`
      refuses it. */
  function ParseInt(s: string): (r: Option<int>)
    ensures r.Some? <==> !HasSeparator(s) && var t := Strip(s);
      || (0 < |t| <= MaxStrDigits && AllDecimal(t))
      || (1 < |t| <= MaxStrDigits + 1 && (t[0] == '+' || t[0] == '-') && AllDecimal(t[1..]))
  {
    var t := Strip(s);
    if HasSeparator(s) then None else
    if |t| > 0 && (t[0] == '+' || t[0] == '-') then
      var d := t[1..];
      if 0 < |d| <= MaxStrDigits && AllDecimal(d) then
        var v: int := DecimalValue(d);
        Some(if t[0] == '-' then -v else v)
      else None
    else if 0 < |t| <= MaxStrDigits && AllDecimal(t) then Some(DecimalValue(t))
    else None
  }

  /** `int()` refuses a numeral led by an information separator, although `strip()` would cut it. */
  lemma SeparatorIsNotSkipped()
    ensures Strip("\U{001C}7") == "7"
    ensures ParseInt("\U{001C}7").None?
  {
    assert IsSeparator("\U{001C}7"[0]);
  }

  /** A numeral of more than `MaxStrDigits` digits is refused, although it is well formed. */
  lemma OverlongNumeralRefused(s: string)
    requires |s| > MaxStrDigits && AllDecimal(s)
    ensures ParseInt(s).None?
  {
    StripNumeral(s);
    assert s[0] != '+' && s[0] != '-';
  }

  lemma StripNumeral(s: string)
    requires |s| > 0 && AllDecimal(s)
    ensures Strip(s) == s
  {
    assert IsDecimalDigit(s[0]) && IsDecimalDigit(s[|s| - 1]);
    StripPadded("", s, "");
    assert "" + s + "" == s;
  }

  /** The number of digits `str(n)` writes. */
  function DigitCount(n: int): nat {
    |Decimal(if n < 0 then -n else n)|
  }

  /** `str(n)`. */
  function ShowInt(n: int): (s: string)
    ensures |s| > 0 && !IsSpace(s[0]) && !IsSpace(s[|s| - 1])
    ensures forall i :: 0 <= i < |s| ==> s[i] == '-' || IsDecimalDigit(s[i])
  {
    if n < 0 then "-" + Decimal(-n) else Decimal(n)
  }

  /** `int()` reads back what `str()` writes, whatever whitespace `int()` skips surrounds it.
      `str()` itself raises beyond `MaxStrDigits` digits, so only such numbers are written. */
  lemma ParseShowInt(n: int, before: string, after: string)
    requires DigitCount(n) <= MaxStrDigits
    requires forall i :: 0 <= i < |before| ==> IntSpace(before[i])
    requires forall i :: 0 <= i < |after| ==> IntSpace(after[i])
    ensures ParseInt(before + ShowInt(n) + after) == Some(n)
  {
    var k := ShowInt(n);
    NoSeparatorPadded(before, k, after);
    StripPadded(before, k, after);
    if n < 0 {
      ParseNegative(before + k + after, -n);
    } else {
      ParseNonNegative(before + k + after, n);
    }
  }

  lemma NoSeparatorPadded(before: string, k: string, after: string)
    requires forall i :: 0 <= i < |before| ==> IntSpace(before[i])
    requires forall i :: 0 <= i < |after| ==> IntSpace(after[i])
    requires forall i :: 0 <= i < |k| ==> k[i] == '-' || IsDecimalDigit(k[i])
    ensures !HasSeparator(before + k + after)
  {
    var x := before + k + after;
    forall i | 0 <= i < |x| ensures !IsSeparator(x[i]) {
      if i < |before| {
        assert x[i] == before[i];
      } else if i < |before| + |k| {
        assert x[i] == k[i - |before|];
      } else {
        assert x[i] == after[i - |before| - |k|];
      }
    }
  }

  lemma ParseNegative(x: string, m: nat)
    requires m > 0 && Strip(x) == "-" + Decimal(m) && !HasSeparator(x) && |Decimal(m)| <= MaxStrDigits
    ensures ParseInt(x) == Some(-(m as int))
  {
    var t := Strip(x);
    assert t[0] == '-' && t[1..] == Decimal(m);
    DecimalRoundTrip(m);
  }

  lemma ParseNonNegative(x: string, m: nat)
    requires Strip(x) == Decimal(m) && !HasSeparator(x) && |Decimal(m)| <= MaxStrDigits
    ensures ParseInt(x) == Some(m)
  {
    var t := Strip(x);
    assert IsDecimalDigit(t[0]);
    DecimalRoundTrip(m);
  }

  lemma StripPadded(before: string, s: string, after: string)
    requires forall i :: 0 <= i < |before| ==> IsSpace(before[i])
    requires forall i :: 0 <= i < |after| ==> IsSpace(after[i])
    requires |s| > 0 && !IsSpace(s[0]) && !IsSpace(s[|s| - 1])
    ensures Strip(before + s + after) == s
  {
    TrimStartSpaces(before, s + after);
    assert before + s + after == before + (s + after);
    TrimEndSpaces(s, after);
  }

  lemma {:induction false} TrimStartSpaces(spaces: string, s: string)
    requires forall i :: 0 <= i < |spaces| ==> IsSpace(spaces[i])
    requires |s| > 0 && !IsSpace(s[0])
    ensures TrimStart(spaces + s) == s
    decreases |spaces|
  {
    if |spaces| > 0 {
      assert (spaces + s)[1..] == spaces[1..] + s;
      TrimStartSpaces(spaces[1..], s);
    } else {
      assert spaces + s == s;
    }
  }

  lemma {:induction false} TrimEndSpaces(s: string, spaces: string)
    requires forall i :: 0 <= i < |spaces| ==> IsSpace(spaces[i])
    requires |s| > 0 && !IsSpace(s[|s| - 1])
    ensures TrimEnd(s + spaces) == s
    decreases |spaces|
  {
    if |spaces| > 0 {
      var t := s + spaces;
      assert t[..|t| - 1] == s + spaces[..|spaces| - 1];
      TrimEndSpaces(s, spaces[..|spaces| - 1]);
    } else {
      assert s + spaces == s;
    }
  }

  /** `int(params.get('days', 7))` where `params` is `queryStringParameters or {}`. */
  function Days(e: Event): Option<int> {
    if "days" in e.queryStringParameters then ParseInt(e.queryStringParameters["days"]) else Some(7)
  }

  /** The period a request asks for: 7 without a `days` parameter; the number itself when the
      parameter is a numeral `str()` would write (at most `MaxStrDigits` digits), padded with
      whitespace `int()` skips; and no period at all (the handler's 500) when the parameter
      carries an information separator or is a numeral of more digits. */
  lemma DaysOfQuery(e: Event, n: int, before: string, after: string)
    requires forall i :: 0 <= i < |before| ==> IntSpace(before[i])
    requires forall i :: 0 <= i < |after| ==> IntSpace(after[i])
    ensures "days" !in e.queryStringParameters ==> Days(e) == Some(7)
    ensures ("days" in e.queryStringParameters && e.queryStringParameters["days"] == before + ShowInt(n) + after
             && DigitCount(n) <= MaxStrDigits) ==> Days(e) == Some(n)
    ensures "days" in e.queryStringParameters && HasSeparator(e.queryStringParameters["days"]) ==> Days(e).None?
    ensures ("days" in e.queryStringParameters && |e.queryStringParameters["days"]| > MaxStrDigits
             && AllDecimal(e.queryStringParameters["days"])) ==> Days(e).None?
  {
    if DigitCount(n) <= MaxStrDigits {
      ParseShowInt(n, before, after);
    }
    if "days" in e.queryStringParameters && |e.queryStringParameters["days"]| > MaxStrDigits
       && AllDecimal(e.queryStringParameters["days"]) {
      OverlongNumeralRefused(e.queryStringParameters["days"]);
    }
  }
}

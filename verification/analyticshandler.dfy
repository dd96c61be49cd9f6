/** The analytics cloud function (`backend/analytics/index.py`): preflight and configuration
    guards, `POST` recording one user action with its client address, `GET` reading the report
    period, and the browser classification the report groups by. The report's SQL aggregates
    come from the database and are inputs here. */
module AnalyticsHandler {

  import opened Wrappers
  import opened Json
  import opened Text
  import opened Http

  /** A row of `user_actions`; the body fields are stored as they arrived. */
  datatype ActionRow = ActionRow(
    id: nat,
    sessionId: Json,
    userAgent: string,
    ipAddress: string,
    actionType: Json,
    actionDetails: Json,
    pageUrl: Json,
    referrer: Json,
    timestamp: int)

  datatype Outcome = Outcome(response: Response, actions: seq<ActionRow>)

  /** The summary row of the report query: total actions, distinct sessions, distinct addresses. */
  datatype Summary = Summary(totalActions: int, uniqueSessions: int, uniqueVisitors: int)

  datatype Browser = Chrome | Firefox | Safari | Edge | Other

  const AllowedMethods: string := "GET, POST, OPTIONS"
  const UnknownAddress: string := "0.0.0.0"
  const DefaultDays: int := 7

  /** The client address recorded with an action: the first `x-forwarded-for` entry, else a
      non-empty `x-real-ip`, else `0.0.0.0`. It is never empty. */
  function ClientIp(headers: map<string, string>): (ip: string)
    ensures ip != ""
    ensures ForwardedFor(headers) != "" ==> ip == ForwardedFor(headers)
    ensures ForwardedFor(headers) == "" && "x-real-ip" in headers && headers["x-real-ip"] != "" ==>
              ip == headers["x-real-ip"]
    ensures ForwardedFor(headers) == "" && ("x-real-ip" !in headers || headers["x-real-ip"] == "") ==>
              ip == UnknownAddress
  {
    var forwarded := ForwardedFor(headers);
    var ip := if forwarded == "" then GetOr(headers, "x-real-ip", UnknownAddress) else forwarded;
    if ip == "" then UnknownAddress else ip
  }

  /** The row a `POST` body describes, each missing field replaced by its default. */
  function ActionOf(body: map<string, Json>, headers: map<string, string>, id: nat, now: int): ActionRow {
    ActionRow(id,
      GetOr(body, "session_id", JString("")),
      GetOr(headers, "user-agent", ""),
      ClientIp(headers),
      GetOr(body, "action_type", JString("")),
      GetOr(body, "action_details", JObject(map[])),
      GetOr(body, "page_url", JString("")),
      GetOr(body, "referrer", JString("")),
      now)
  }

  /** `POST`: one row appended, its serial id reported. */
  function RecordAction(e: Event, actions: seq<ActionRow>, now: int): (o: Outcome)
    ensures o.response.statusCode == 200 || o.response.statusCode == 500
    ensures o.response.statusCode == 500 <==> !(e.body.Some? && e.body.value.JObject?)
    ensures o.response.statusCode == 500 ==> o.actions == actions
    ensures o.response.statusCode == 200 ==>
              && |o.actions| == |actions| + 1 && o.actions[..|actions|] == actions
              && o.actions[|actions|] == ActionOf(e.body.value.fields, e.headers, |actions| + 1, now)
              && o.response == JsonResponse(200, JObject(map["success" := JBool(true), "action_id" := JNumber(|actions| + 1)]))
  {
    match e.body
    case None => Outcome(ServerError, actions)
    case Some(b) =>
      if !b.JObject? then Outcome(ServerError, actions)
      else
        var id := |actions| + 1;
        Outcome(JsonResponse(200, JObject(map["success" := JBool(true), "action_id" := JNumber(id)])),
                actions + [ActionOf(b.fields, e.headers, id, now)])
  }

  /** `summary_row[k] if summary_row else 0`. */
  function SummaryJson(row: Option<Summary>): Json {
    var s := row.GetOr(Summary(0, 0, 0));
    JObject(map["total_actions" := JNumber(s.totalActions), "unique_sessions" := JNumber(s.uniqueSessions),
                "unique_visitors" := JNumber(s.uniqueVisitors)])
  }

  /** `GET`: the period (`days`, 7 by default; 500 when `int()` refuses it) and the summary. */
  function Report(e: Event, summary: Option<Summary>): (r: Response)
    ensures Days(e).None? <==> r == ServerError
    ensures Days(e).Some? ==> r.statusCode == 200 && r.body.JsonBody? && r.body.value.JObject?
    ensures Days(e).Some? ==> var fields := r.body.value.fields;
              && "period_days" in fields && fields["period_days"] == JNumber(Days(e).value)
              && "summary" in fields && fields["summary"] == SummaryJson(summary)
  {
    match Days(e)
    case None => ServerError
    case Some(days) =>
      JsonResponse(200, JObject(map["period_days" := JNumber(days), "summary" := SummaryJson(summary)]))
  }

  /** The handler. `summary` is what the report's summary query returned. */
  function Handler(e: Event, env: Environment, actions: seq<ActionRow>, now: int, summary: Option<Summary>)
    : (o: Outcome)
    ensures Method(e) == "OPTIONS" ==> o == Outcome(Preflight(AllowedMethods), actions)
    ensures Method(e) != "OPTIONS" && !DatabaseConfigured(env) ==> o == Outcome(ErrorResponse(500, NotConfigured), actions)
    ensures Method(e) != "OPTIONS" && DatabaseConfigured(env) && !env.connectOk ==> o == Outcome(ServerError, actions)
    ensures DatabaseConfigured(env) && env.connectOk && Method(e) !in {"OPTIONS", "GET", "POST"} ==>
              o == Outcome(ErrorResponse(405, MethodNotAllowed), actions)
    ensures o.actions != actions ==> Method(e) == "POST" && |o.actions| == |actions| + 1
    ensures Method(e) == "GET" && DatabaseConfigured(env) && env.connectOk && Days(e).Some? ==>
              o.response.statusCode == 200
  {
    var verb := Method(e);
    if verb == "OPTIONS" then Outcome(Preflight(AllowedMethods), actions)
    else if !DatabaseConfigured(env) then Outcome(ErrorResponse(500, NotConfigured), actions)
    else if !env.connectOk then Outcome(ServerError, actions)
    else if verb == "POST" then RecordAction(e, actions, now)
    else if verb == "GET" then Outcome(Report(e, summary), actions)
    else Outcome(ErrorResponse(405, MethodNotAllowed), actions)
  }

  /** The report's `CASE`: the first rule that matches names the browser. `LIKE '%x%'` is
      case-sensitive containment. */
  function ClassifyBrowser(ua: string): (b: Browser)
    ensures b == Chrome <==> Contains(ua, "Chrome")
    ensures b == Firefox <==> !Contains(ua, "Chrome") && Contains(ua, "Firefox")
    ensures b == Safari <==> !Contains(ua, "Chrome") && !Contains(ua, "Firefox") && Contains(ua, "Safari")
    ensures b == Edge <==>
              !Contains(ua, "Chrome") && !Contains(ua, "Firefox") && !Contains(ua, "Safari") && Contains(ua, "Edge")
  {
    if Contains(ua, "Chrome") then Chrome
    else if Contains(ua, "Firefox") then Firefox
    else if Contains(ua, "Safari") && !Contains(ua, "Chrome") then Safari
    else if Contains(ua, "Edge") then Edge
    else Other
  }

  /** Any agent string that mentions Chrome or Safari is never labelled Edge, so Edge's own
      agent strings, which mention both, count as Chrome. */
  lemma EdgeNeedsNeitherChromeNorSafari(ua: string)
    requires ClassifyBrowser(ua) == Edge
    ensures !Contains(ua, "Chrome") && !Contains(ua, "Safari") && Contains(ua, "Edge")
  {
  }

  /** An agent string naming Chrome, Safari and Edge, as Edge's own do, is labelled Chrome. */
  lemma EdgeAgentIsChrome()
    ensures ClassifyBrowser("Chrome/70 Safari/537 Edge/18") == Chrome
  {
    var ua := "Chrome/70 Safari/537 Edge/18";
    assert ua[0..6] == "Chrome";
    assert OccursAt(ua, "Chrome", 0);
    ContainsIff(ua, "Chrome");
  }
}

/** The push-notification cloud function (`backend/push-notifications/index.py`): the preflight
    and configuration guards, `POST /subscribe` (an upsert keyed by endpoint), `POST /send`
    (notification bookkeeping) and `GET` statistics, over an abstract database of two tables. */
module PushHandler {

  import opened Wrappers
  import opened Json
  import opened Text
  import opened Http

  /** A row of `push_subscriptions`. The key fields hold the values the request carried. */
  datatype SubscriptionRow = SubscriptionRow(
    id: nat,
    endpoint: Json,
    p256dh: Json,
    auth: Json,
    userAgent: string,
    ipAddress: string,
    isActive: bool,
    lastUsed: Option<int>)

  /** A row of `push_notifications`; `data` is the value that was serialised into the column. */
  datatype NotificationRow = NotificationRow(
    id: nat,
    title: Json,
    body: Json,
    icon: Json,
    badge: Json,
    tag: Json,
    data: Json,
    sentCount: nat,
    successCount: nat,
    createdAt: int)

  datatype Db = Db(subscriptions: seq<SubscriptionRow>, notifications: seq<NotificationRow>)

  /** The response and the database after the call. */
  datatype Outcome = Outcome(response: Response, db: Db)

  const AllowedMethods: string := "GET, POST, PUT, DELETE, OPTIONS"
  const DefaultNotificationTitle: string := "Новое уведомление"
  const DefaultIcon: string := "/favicon.ico"

  /** Some active row has this endpoint. */
  predicate HasActive(rows: seq<SubscriptionRow>, endpoint: Json) {
    exists i | 0 <= i < |rows| :: rows[i].isActive && rows[i].endpoint == endpoint
  }

  /** The table invariant the upsert is meant to keep: no two active rows share an endpoint. */
  predicate AtMostOneActive(rows: seq<SubscriptionRow>) {
    forall i, j | 0 <= i < j < |rows| :: rows[i].isActive && rows[j].isActive ==> rows[i].endpoint != rows[j].endpoint
  }

  /** The number of active rows. */
  function ActiveCount(rows: seq<SubscriptionRow>): (n: nat)
    ensures n <= |rows|
    ensures n == 0 <==> forall i :: 0 <= i < |rows| ==> !rows[i].isActive
  {
    if |rows| == 0 then 0 else ActiveCount(rows[..|rows| - 1]) + (if rows[|rows| - 1].isActive then 1 else 0)
  }

  /** `UPDATE ... SET last_used = now WHERE endpoint = e`: no row is added, removed or moved,
      no column but `last_used` changes, and `last_used` is now exactly for the rows with the
      endpoint, active or not. */
  function Touch(rows: seq<SubscriptionRow>, endpoint: Json, now: int): (r: seq<SubscriptionRow>)
    ensures |r| == |rows|
    ensures forall i :: 0 <= i < |rows| ==> r[i].(lastUsed := rows[i].lastUsed) == rows[i]
    ensures forall i :: 0 <= i < |rows| && rows[i].endpoint == endpoint ==> r[i].lastUsed == Some(now)
    ensures forall i :: 0 <= i < |rows| && rows[i].endpoint != endpoint ==> r[i] == rows[i]
  {
    seq(|rows|, i requires 0 <= i < |rows| =>
      if rows[i].endpoint == endpoint then rows[i].(lastUsed := Some(now)) else rows[i])
  }

  /** The subscriber's address: the first `x-forwarded-for` entry, else `x-real-ip`, else empty. */
  function SubscriberIp(headers: map<string, string>): string {
    var forwarded := ForwardedFor(headers);
    if forwarded == "" then GetOr(headers, "x-real-ip", "") else forwarded
  }

  /** `body_data.get('endpoint', '')`, `body_data.get('keys', {}).get('p256dh', '')` and
      `...get('auth', '')`; `None` when `keys` is not an object and `.get` raises. */
  function SubscriptionFields(body: map<string, Json>): (r: Option<(Json, Json, Json)>)
    ensures r.None? <==> "keys" in body && !body["keys"].JObject?
    ensures r.Some? ==> r.value.0 == GetOr(body, "endpoint", JString(""))
    ensures r.Some? && "keys" !in body ==> r.value.1 == JString("") && r.value.2 == JString("")
    ensures r.Some? && "keys" in body ==>
              && r.value.1 == GetOr(body["keys"].fields, "p256dh", JString(""))
              && r.value.2 == GetOr(body["keys"].fields, "auth", JString(""))
  {
    var keys := GetOr(body, "keys", JObject(map[]));
    if !keys.JObject? then None
    else Some((GetOr(body, "endpoint", JString("")),
               GetOr(keys.fields, "p256dh", JString("")),
               GetOr(keys.fields, "auth", JString(""))))
  }

  const Subscribed: Json := JObject(map["success" := JBool(true), "message" := JString("Subscribed successfully")])

  /** `POST` with action `subscribe`. */
  function SubscribeAction(e: Event, db: Db, now: int): (o: Outcome)
    ensures o.db.notifications == db.notifications
    ensures o.response.statusCode != 200 ==> o.db == db
    ensures o.response.statusCode == 200 ==> o.response == JsonResponse(200, Subscribed)
    ensures o.response.statusCode in {200, 400, 500}
  {
    match e.body
    case None => Outcome(ServerError, db)
    case Some(b) =>
      if !b.JObject? then Outcome(ServerError, db)
      else
        match SubscriptionFields(b.fields)
        case None => Outcome(ServerError, db)
        case Some(fields) =>
          var (endpoint, p256dh, auth) := fields;
          if !PyTruthy(endpoint) || !PyTruthy(p256dh) || !PyTruthy(auth) then
            Outcome(ErrorResponse(400, "Missing subscription data"), db)
          else
            var rows := db.subscriptions;
            var rows' :=
              if HasActive(rows, endpoint) then Touch(rows, endpoint, now)
              else rows + [SubscriptionRow(|rows| + 1, endpoint, p256dh, auth,
                                           GetOr(e.headers, "user-agent", ""), SubscriberIp(e.headers),
                                           true, None)];
            Outcome(JsonResponse(200, Subscribed), db.(subscriptions := rows'))
  }

  /** The values of one notification, each from the body or its default. */
  function NotificationOf(body: map<string, Json>, id: nat, count: nat, now: int): NotificationRow {
    NotificationRow(id,
      GetOr(body, "title", JString(DefaultNotificationTitle)),
      GetOr(body, "body", JString("")),
      GetOr(body, "icon", JString(DefaultIcon)),
      GetOr(body, "badge", JString(DefaultIcon)),
      GetOr(body, "tag", JString("")),
      GetOr(body, "data", JObject(map[])),
      count, count, now)
  }

  const NoActiveSubscriptions: Json :=
    JObject(map["success" := JBool(true), "message" := JString("No active subscriptions")])

  /** `POST` with action `send`: no authorisation is asked for. With no active subscription
      nothing is recorded; otherwise one notification is recorded whose sent and success counts
      are both the number of active subscriptions (every delivery is counted as a success). */
  function SendAction(e: Event, db: Db, now: int): (o: Outcome)
    ensures o.db.subscriptions == db.subscriptions
    ensures o.response.statusCode in {200, 500}
    ensures o.response.statusCode == 500 ==> o.db == db
  {
    match e.body
    case None => Outcome(ServerError, db)
    case Some(b) =>
      if !b.JObject? then Outcome(ServerError, db)
      else
        var count := ActiveCount(db.subscriptions);
        if count == 0 then Outcome(JsonResponse(200, NoActiveSubscriptions), db)
        else
          var note := NotificationOf(b.fields, |db.notifications| + 1, count, now);
          Outcome(
            JsonResponse(200, JObject(map["success" := JBool(true), "sent_count" := JNumber(count),
                                          "success_count" := JNumber(count)])),
            db.(notifications := db.notifications + [note]))
  }

  /** The interval clause of the statistics statement once psycopg2 has bound `days`: an
      integer parameter is rendered as its bare numeral, so the clause reads `INTERVAL 7 DAY`. */
  function IntervalAsWritten(days: int): string {
    "INTERVAL " + ShowInt(days) + " DAY"
  }

  /** The clause the statement evidently means, in the quoted form the analytics function binds
      its `days` into: `INTERVAL '7 days'`. */
  function IntervalIntended(days: int): string {
    "INTERVAL '" + ShowInt(days) + " days'"
  }

  /** PostgreSQL's interval constant: after the keyword `INTERVAL` the grammar takes only a
      quoted string literal, and any other token there is a syntax error. */
  predicate IntervalAccepted(clause: string) {
    |clause| > 9 && clause[..9] == "INTERVAL " && clause[9] == '\''
  }

  /** The bound numeral begins with a digit or `-`, never with a quote, so PostgreSQL refuses
      the clause as written whatever `days` is; the intended clause is always accepted. */
  lemma IntervalClauses(days: int)
    ensures !IntervalAccepted(IntervalAsWritten(days))
    ensures IntervalAccepted(IntervalIntended(days))
  {
  }

  /** The reply to a `GET` that reached the statistics. */
  function ActiveReport(db: Db): Json {
    JObject(map["active_subscriptions" := JNumber(ActiveCount(db.subscriptions))])
  }

  /** The `GET` branch with a given rendering of the interval clause: `days` must parse as an
      integer (else 500); a clause PostgreSQL refuses makes the first `execute` raise (500);
      otherwise the count of active subscriptions is reported. Nothing is written. */
  function Stats(e: Event, db: Db, interval: int -> string): (o: Outcome)
    ensures o.db == db
    ensures o.response.statusCode == 200 <==> Days(e).Some? && IntervalAccepted(interval(Days(e).value))
    ensures o.response.statusCode != 200 ==> o.response == ServerError
    ensures o.response.statusCode == 200 ==> o.response == JsonResponse(200, ActiveReport(db))
  {
    match Days(e)
    case None => Outcome(ServerError, db)
    case Some(days) =>
      if IntervalAccepted(interval(days)) then Outcome(JsonResponse(200, ActiveReport(db)), db)
      else Outcome(ServerError, db)
  }

  /** `GET` as written: the statement binds `days` unquoted after `INTERVAL`, so every request,
      with or without a valid `days`, is answered 500 and changes nothing. */
  function StatsAction(e: Event, db: Db): (o: Outcome)
    ensures o == Outcome(ServerError, db)
  {
    match Days(e)
    case None => Stats(e, db, IntervalAsWritten)
    case Some(days) => IntervalClauses(days); Stats(e, db, IntervalAsWritten)
  }

  /** `GET` with the quoted interval it evidently means: 500 exactly when `days` is not an
      integer, and otherwise the number of active subscriptions. */
  function StatsActionIntended(e: Event, db: Db): (o: Outcome)
    ensures o.db == db
    ensures Days(e).None? <==> o.response == ServerError
    ensures Days(e).Some? ==> o.response == JsonResponse(200, ActiveReport(db))
  {
    match Days(e)
    case None => Stats(e, db, IntervalIntended)
    case Some(days) => IntervalClauses(days); Stats(e, db, IntervalIntended)
  }

  /** The whole handler: preflight, configuration, connection, then dispatch on method and
      action; everything else is 405. */
  function Handler(e: Event, env: Environment, db: Db, now: int): (o: Outcome)
    ensures Method(e) == "OPTIONS" ==> o == Outcome(Preflight(AllowedMethods), db)
    ensures Method(e) != "OPTIONS" && !DatabaseConfigured(env) ==> o == Outcome(ErrorResponse(500, NotConfigured), db)
    ensures Method(e) != "OPTIONS" && DatabaseConfigured(env) && !env.connectOk ==> o == Outcome(ServerError, db)
    ensures o.response.statusCode != 200 ==> o.db == db
    ensures o.db.subscriptions != db.subscriptions ==>
              Method(e) == "POST" && GetOr(e.pathParameters, "action", "") == "subscribe"
    ensures o.db.notifications != db.notifications ==>
              Method(e) == "POST" && GetOr(e.pathParameters, "action", "") == "send"
    ensures DatabaseConfigured(env) && env.connectOk && Method(e) !in {"OPTIONS", "GET", "POST"} ==>
              o == Outcome(ErrorResponse(405, MethodNotAllowed), db)
    ensures DatabaseConfigured(env) && env.connectOk && Method(e) == "POST"
            && GetOr(e.pathParameters, "action", "") !in {"subscribe", "send"} ==>
              o == Outcome(ErrorResponse(405, MethodNotAllowed), db)
  {
    var verb := Method(e);
    if verb == "OPTIONS" then Outcome(Preflight(AllowedMethods), db)
    else if !DatabaseConfigured(env) then Outcome(ErrorResponse(500, NotConfigured), db)
    else if !env.connectOk then Outcome(ServerError, db)
    else if verb == "POST" then
      var action := GetOr(e.pathParameters, "action", "");
      if action == "subscribe" then SubscribeAction(e, db, now)
      else if action == "send" then SendAction(e, db, now)
      else Outcome(ErrorResponse(405, MethodNotAllowed), db)
    else if verb == "GET" then StatsAction(e, db)
    else Outcome(ErrorResponse(405, MethodNotAllowed), db)
  }

  /** A subscribe request whose endpoint, `p256dh` or `auth`, as read with their defaults, is
      falsy is refused with 400 and leaves the table as it was. */
  lemma MissingSubscriptionData(e: Event, db: Db, now: int, body: map<string, Json>)
    requires e.body == Some(JObject(body))
    requires SubscriptionFields(body).Some?
    requires var f := SubscriptionFields(body).value; !PyTruthy(f.0) || !PyTruthy(f.1) || !PyTruthy(f.2)
    ensures SubscribeAction(e, db, now).response == ErrorResponse(400, "Missing subscription data")
    ensures SubscribeAction(e, db, now).db == db
  {
  }

  /** In particular a body with no `keys` object at all reads empty keys and is refused with 400. */
  lemma MissingKeys(e: Event, db: Db, now: int, body: map<string, Json>)
    requires e.body == Some(JObject(body)) && "keys" !in body
    ensures SubscribeAction(e, db, now).response == ErrorResponse(400, "Missing subscription data")
    ensures SubscribeAction(e, db, now).db == db
  {
  }

  /** The upsert: when an active row exists for the endpoint the table keeps its rows and only
      `last_used` of rows with that endpoint moves to `now`; otherwise exactly one active row
      is appended, carrying the request's endpoint and keys, its user agent and the subscriber's
      address. */
  lemma SubscribeUpserts(e: Event, db: Db, now: int, body: map<string, Json>)
    requires e.body == Some(JObject(body))
    requires SubscriptionFields(body).Some?
    requires var f := SubscriptionFields(body).value; PyTruthy(f.0) && PyTruthy(f.1) && PyTruthy(f.2)
    ensures var endpoint := SubscriptionFields(body).value.0;
            var rows := db.subscriptions;
            var rows' := SubscribeAction(e, db, now).db.subscriptions;
      && (HasActive(rows, endpoint) ==>
            && |rows'| == |rows|
            && forall i :: 0 <= i < |rows| ==>
                 rows'[i].(lastUsed := rows[i].lastUsed) == rows[i]
                 && (rows'[i] != rows[i] ==> rows[i].endpoint == endpoint))
      && (!HasActive(rows, endpoint) ==>
            && |rows'| == |rows| + 1 && rows'[..|rows|] == rows
            && rows'[|rows|] == SubscriptionRow(|rows| + 1, endpoint, SubscriptionFields(body).value.1,
                                                SubscriptionFields(body).value.2,
                                                GetOr(e.headers, "user-agent", ""), SubscriberIp(e.headers),
                                                true, None))
  {
  }

  /** Subscribing keeps at most one active row per endpoint. */
  lemma {:induction false} SubscribeKeepsOneActive(e: Event, db: Db, now: int)
    requires AtMostOneActive(db.subscriptions)
    ensures AtMostOneActive(SubscribeAction(e, db, now).db.subscriptions)
  {
    var rows := db.subscriptions;
    var o := SubscribeAction(e, db, now);
    var rows' := o.db.subscriptions;
    if rows' != rows {
      var b := e.body.value;
      var endpoint := SubscriptionFields(b.fields).value.0;
      if HasActive(rows, endpoint) {
        forall i, j | 0 <= i < j < |rows'| && rows'[i].isActive && rows'[j].isActive
          ensures rows'[i].endpoint != rows'[j].endpoint
        {
          assert rows'[i].endpoint == rows[i].endpoint && rows'[i].isActive == rows[i].isActive;
          assert rows'[j].endpoint == rows[j].endpoint && rows'[j].isActive == rows[j].isActive;
        }
      } else {
        forall i, j | 0 <= i < j < |rows'| && rows'[i].isActive && rows'[j].isActive
          ensures rows'[i].endpoint != rows'[j].endpoint
        {
          if j == |rows| {
            assert rows'[i] == rows[i];
          } else {
            assert rows'[i] == rows[i] && rows'[j] == rows[j];
          }
        }
      }
    }
  }

  /** Whatever request arrives, the handler keeps at most one active row per endpoint. */
  lemma HandlerKeepsOneActive(e: Event, env: Environment, db: Db, now: int)
    requires AtMostOneActive(db.subscriptions)
    ensures AtMostOneActive(Handler(e, env, db, now).db.subscriptions)
  {
    SubscribeKeepsOneActive(e, db, now);
  }

  /** Once the database is reachable, every `GET` is answered 500 and writes nothing, because
      the statistics statement is refused. */
  lemma StatisticsUnreachable(e: Event, env: Environment, db: Db, now: int)
    requires Method(e) == "GET" && DatabaseConfigured(env) && env.connectOk
    ensures Handler(e, env, db, now) == Outcome(ServerError, db)
  {
  }

  /** Repeating a successful subscription adds no row: the second one finds the active row the
      first left behind. */
  lemma ResubscribeAddsNoRow(e: Event, db: Db, now: int, later: int)
    requires SubscribeAction(e, db, now).response.statusCode == 200
    ensures var db1 := SubscribeAction(e, db, now).db;
      |SubscribeAction(e, db1, later).db.subscriptions| == |db1.subscriptions|
  {
    var b := e.body.value;
    var endpoint := SubscriptionFields(b.fields).value.0;
    var rows := db.subscriptions;
    var db1 := SubscribeAction(e, db, now).db;
    if HasActive(rows, endpoint) {
      var i :| 0 <= i < |rows| && rows[i].isActive && rows[i].endpoint == endpoint;
      assert db1.subscriptions[i].isActive && db1.subscriptions[i].endpoint == endpoint;
    } else {
      assert db1.subscriptions[|rows|].isActive && db1.subscriptions[|rows|].endpoint == endpoint;
    }
  }

  /** Sending with no active subscription answers "No active subscriptions" and records nothing. */
  lemma SendWithoutSubscribers(e: Event, db: Db, now: int)
    requires e.body.Some? && e.body.value.JObject?
    requires forall i :: 0 <= i < |db.subscriptions| ==> !db.subscriptions[i].isActive
    ensures SendAction(e, db, now) == Outcome(JsonResponse(200, NoActiveSubscriptions), db)
  {
  }

  /** Sending with active subscriptions records exactly one notification, with the body's fields
      or their defaults, and reports the active count as both sent and successful. */
  lemma SendRecordsOneNotification(e: Event, db: Db, now: int)
    requires e.body.Some? && e.body.value.JObject?
    requires exists i :: 0 <= i < |db.subscriptions| && db.subscriptions[i].isActive
    ensures var o := SendAction(e, db, now);
            var count := ActiveCount(db.subscriptions);
      && |o.db.notifications| == |db.notifications| + 1
      && o.db.notifications[..|db.notifications|] == db.notifications
      && o.db.notifications[|db.notifications|] == NotificationOf(e.body.value.fields, |db.notifications| + 1, count, now)
      && o.response.statusCode == 200 && o.response.body.JsonBody?
      && o.response.body.value.JObject? && "sent_count" in o.response.body.value.fields
      && o.response.body.value.fields["sent_count"] == JNumber(count)
      && count > 0
  {
  }
}

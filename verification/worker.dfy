/** The notification worker (`public/sw.js`): how a push message becomes the options of the shown
    notification, and where a click on that notification leads. Browser calls
    (`showNotification`, `clients.matchAll`, `focus`, `navigate`, `openWindow`) are recorded as
    effects instead of being performed. */
module Worker {

  import opened Wrappers
  import opened Json
  import opened Text

  /** The message data of a push event: absent, or present with its raw text and the outcome of
      `event.data.json()` (`None` when parsing throws). JSON parsing itself is not modelled. */
  datatype PushData = NoData | Data(text: string, parsed: Option<Json>)

  const DefaultTitle: string := "КрымБлок"
  const DefaultBody: string := "Новое уведомление"
  const DefaultIcon: string := "/favicon.ico"
  const DefaultUrl: string := "/"
  const FallbackUrl: string := "/admin"

  /** The record the push handler starts from. */
  function Defaults(): map<string, Json> {
    map[
      "title" := JString(DefaultTitle),
      "body" := JString(DefaultBody),
      "icon" := JString(DefaultIcon),
      "badge" := JString(DefaultIcon),
      "data" := JObject(map["url" := JString(DefaultUrl)])
    ]
  }

  /** The five fields the notification is built from. */
  predicate IsShownField(k: string) {
    k == "title" || k == "body" || k == "icon" || k == "badge" || k == "data"
  }

  /** The property name of the `n`-th element when a string or array is spread. */
  function IndexKey(n: nat): (k: string)
    ensures |k| > 0 && k[0] in "0123456789"
  {
    Decimal(n)
  }

  lemma IndexKeyNotShown(n: nat)
    ensures !IsShownField(IndexKey(n))
  {
    var k := IndexKey(n);
    assert '0' <= k[0] <= '9';
  }

  /** The own enumerable properties that `{...v}` copies: an object's fields, the characters of a
      string or the elements of an array under their index, nothing for `null`, booleans and numbers. */
  function SpreadProperties(v: Json): (m: map<string, Json>)
    ensures v.JObject? ==> m == v.fields
    ensures !v.JObject? ==> forall k :: k in m ==> !IsShownField(k)
  {
    match v
    case JObject(fields) => fields
    case JString(s) =>
      IndexKeysNotShown(|s|);
      IndexKeysDistinct();
      map i | 0 <= i < |s| :: IndexKey(i) := JString([s[i]])
    case JArray(items) =>
      IndexKeysNotShown(|items|);
      IndexKeysDistinct();
      map i | 0 <= i < |items| :: IndexKey(i) := items[i]
    case _ => map[]
  }

  lemma IndexKeysDistinct()
    ensures forall i: nat, j: nat :: IndexKey(i) == IndexKey(j) ==> i == j
  {
    forall i: nat, j: nat | IndexKey(i) == IndexKey(j) ensures i == j {
      DecimalRoundTrip(i);
      DecimalRoundTrip(j);
    }
  }

  lemma IndexKeysNotShown(n: nat)
    ensures forall i :: 0 <= i < n ==> !IsShownField(IndexKey(i))
  {
    forall i | 0 <= i < n ensures !IsShownField(IndexKey(i)) {
      IndexKeyNotShown(i);
    }
  }

  /** `notificationData` after the push handler's merge step. */
  function ResolvePayload(d: PushData): (m: map<string, Json>)
    ensures forall k :: IsShownField(k) ==> k in m
  {
    match d
    case NoData => Defaults()
    case Data(text, parsed) =>
      match parsed
      case Some(v) => Defaults() + SpreadProperties(v)
      case None => Defaults()["body" := JString(text)]
  }

  datatype NotificationAction = NotificationAction(action: string, title: string)

  /** The arguments of the single `showNotification` call. */
  datatype ShownNotification = ShownNotification(
    title: Json,
    body: Json,
    icon: Json,
    badge: Json,
    data: Json,
    requireInteraction: bool,
    actions: seq<NotificationAction>)

  const OpenAction := NotificationAction("open", "Открыть")
  const CloseAction := NotificationAction("close", "Закрыть")

  /** The notification the `push` handler asks the platform to show. Without data it is the
      default one. A JSON object payload is merged shallowly: each shown field the payload
      carries replaces the default outright (a payload `data` object replaces the whole default
      `data`), the rest keep their defaults. A payload that is not JSON replaces only the body,
      with the raw text. Every notification waits for interaction and offers `open` then `close`. */
  function HandlePush(d: PushData): (n: ShownNotification)
    ensures n.requireInteraction
    ensures n.actions == [OpenAction, CloseAction]
    ensures d.NoData? ==>
              && n.title == JString(DefaultTitle) && n.body == JString(DefaultBody)
              && n.icon == JString(DefaultIcon) && n.badge == JString(DefaultIcon)
              && n.data == JObject(map["url" := JString(DefaultUrl)])
    ensures d.Data? && d.parsed.Some? && d.parsed.value.JObject? ==>
              var fields := d.parsed.value.fields;
              && n.title == GetOr(fields, "title", JString(DefaultTitle))
              && n.body == GetOr(fields, "body", JString(DefaultBody))
              && n.icon == GetOr(fields, "icon", JString(DefaultIcon))
              && n.badge == GetOr(fields, "badge", JString(DefaultIcon))
              && n.data == GetOr(fields, "data", JObject(map["url" := JString(DefaultUrl)]))
    ensures d.Data? && d.parsed.None? ==>
              && n.title == JString(DefaultTitle) && n.body == JString(d.text)
              && n.icon == JString(DefaultIcon) && n.badge == JString(DefaultIcon)
              && n.data == JObject(map["url" := JString(DefaultUrl)])
  {
    var m := ResolvePayload(d);
    ShownNotification(m["title"], m["body"], m["icon"], m["badge"], m["data"], true, [OpenAction, CloseAction])
  }

  /** A payload that is valid JSON but not an object (a string, array, number, boolean or `null`)
      adds no shown field, so the notification is exactly the default one. */
  lemma NonObjectPayloadKeepsDefaults(text: string, v: Json)
    requires !v.JObject?
    ensures HandlePush(Data(text, Some(v))) == HandlePush(NoData)
  {
    var m := ResolvePayload(Data(text, Some(v)));
    var s := SpreadProperties(v);
    assert IsShownField("title") && IsShownField("body") && IsShownField("icon");
    assert IsShownField("badge") && IsShownField("data");
    assert m == Defaults() + s;
    assert m["title"] == Defaults()["title"] && m["body"] == Defaults()["body"];
    assert m["icon"] == Defaults()["icon"] && m["badge"] == Defaults()["badge"];
    assert m["data"] == Defaults()["data"];
  }

  /** The worked example: defaults overridden by `{body: "X", data: {url: "/y"}}`. */
  lemma MergeExample()
    ensures var payload := JObject(map["body" := JString("X"), "data" := JObject(map["url" := JString("/y")])]);
      var n := HandlePush(Data("", Some(payload)));
      n.title == JString(DefaultTitle) && n.body == JString("X") && n.icon == JString(DefaultIcon)
      && n.badge == JString(DefaultIcon) && n.data == JObject(map["url" := JString("/y")])
  {
  }

  // ---------------------------------------------------------------------------------------------
  // Notification clicks

  /** A `notificationclick` event: the action button pressed (`""` for the body) and the data the
      notification was shown with. */
  datatype ClickEvent = ClickEvent(action: string, data: Json)

  /** The browser calls the click handler makes, in order; clients are named by their position in
      the `matchAll` result. */
  datatype Effect =
    | CloseNotification
    | MatchAllWindows
    | Focus(client: nat)
    | Navigate(client: nat, url: Json)
    | OpenWindow(url: Json)

  /** `event.notification.data?.url || '/admin'`. */
  function TargetUrl(data: Json): (url: Json)
    ensures JsTruthy(url)
    ensures Member(data, "url").Some? && JsTruthy(Member(data, "url").value) ==> url == Member(data, "url").value
    ensures (Member(data, "url").None? || !JsTruthy(Member(data, "url").value)) ==> url == JString(FallbackUrl)
  {
    match Member(data, "url")
    case Some(u) => if JsTruthy(u) then u else JString(FallbackUrl)
    case None => JString(FallbackUrl)
  }

  /** The position of the first client whose URL contains `origin` as a substring, searching from `from`. */
  function FirstMatch(clients: seq<string>, origin: string, from: nat): (r: Option<nat>)
    requires from <= |clients|
    ensures r.Some? ==>
              && from <= r.value < |clients| && Contains(clients[r.value], origin)
              && forall j :: from <= j < r.value ==> !Contains(clients[j], origin)
    ensures r.None? ==> forall j :: from <= j < |clients| ==> !Contains(clients[j], origin)
    decreases |clients| - from
  {
    if from == |clients| then None
    else if Contains(clients[from], origin) then Some(from)
    else FirstMatch(clients, origin, from + 1)
  }

  /** The `for` loop over `windowClients`, stopping at the first URL that includes the origin. */
  method FindClient(windowClients: seq<string>, origin: string) returns (r: Option<nat>)
    ensures r == FirstMatch(windowClients, origin, 0)
    ensures r.Some? ==>
              && r.value < |windowClients| && Contains(windowClients[r.value], origin)
              && forall j :: 0 <= j < r.value ==> !Contains(windowClients[j], origin)
    ensures r.None? ==> forall j :: 0 <= j < |windowClients| ==> !Contains(windowClients[j], origin)
  {
    var i := 0;
    while i < |windowClients|
      invariant 0 <= i <= |windowClients|
      invariant FirstMatch(windowClients, origin, 0) == FirstMatch(windowClients, origin, i)
    {
      if Contains(windowClients[i], origin) {
        return Some(i);
      }
      i := i + 1;
    }
    return None;
  }

  /** The effects of one `notificationclick`, given the URLs of the window clients in enumeration
      order and the worker's own origin. */
  function HandleClick(ev: ClickEvent, clients: seq<string>, origin: string): (effects: seq<Effect>)
    ensures |effects| > 0 && effects[0] == CloseNotification
    ensures ev.action == "close" <==> effects == [CloseNotification]
    ensures ev.action != "close" ==> |effects| >= 3 && effects[1] == MatchAllWindows
  {
    if ev.action == "close" then [CloseNotification]
    else
      var target := TargetUrl(ev.data);
      [CloseNotification, MatchAllWindows] +
      match FirstMatch(clients, origin, 0)
      case Some(i) => [Focus(i), Navigate(i, target)]
      case None => [OpenWindow(target)]
  }

  /** Routing after a click that is not `close`: the first client (in enumeration order) whose
      URL contains the origin is focused and navigated to the target and nothing is opened;
      when no client matches, exactly one window is opened at the target and nothing is navigated. */
  lemma ClickRouting(ev: ClickEvent, clients: seq<string>, origin: string)
    requires ev.action != "close"
    ensures var effects := HandleClick(ev, clients, origin);
      var target := TargetUrl(ev.data);
      && (forall i :: 0 <= i < |clients| && Contains(clients[i], origin)
            && (forall j :: 0 <= j < i ==> !Contains(clients[j], origin))
            ==> effects == [CloseNotification, MatchAllWindows, Focus(i), Navigate(i, target)])
      && ((forall j :: 0 <= j < |clients| ==> !Contains(clients[j], origin))
            ==> effects == [CloseNotification, MatchAllWindows, OpenWindow(target)])
  {
    var r := FirstMatch(clients, origin, 0);
    forall i | 0 <= i < |clients| && Contains(clients[i], origin)
      && (forall j :: 0 <= j < i ==> !Contains(clients[j], origin))
      ensures r == Some(i)
    {
    }
  }

  /** Worked example: `data.url = "/report"` and one client on the worker's origin: that client is
      focused and navigated to "/report". */
  lemma ClickFocusesMatchingClient()
    ensures HandleClick(ClickEvent("open", JObject(map["url" := JString("/report")])),
                        ["https://shop.example/catalog"], "https://shop.example")
      == [CloseNotification, MatchAllWindows, Focus(0), Navigate(0, JString("/report"))]
  {
    var c := "https://shop.example/catalog";
    var o := "https://shop.example";
    assert c[0..|o|] == o;
    assert OccursAt(c, o, 0);
    ContainsIff(c, o);
  }

  /** Origin matching is substring containment, so a window on another site whose URL merely
      mentions the worker's origin (here in its query string) is the one focused and navigated. */
  lemma ForeignClientCanMatch()
    ensures HandleClick(ClickEvent("", JNull), ["https://other.example/?r=https://shop.example"], "https://shop.example")
      == [CloseNotification, MatchAllWindows, Focus(0), Navigate(0, JString(FallbackUrl))]
  {
    var c := "https://other.example/?r=https://shop.example";
    var o := "https://shop.example";
    assert c[|c| - |o|..|c|] == o;
    assert OccursAt(c, o, |c| - |o|);
    ContainsIff(c, o);
  }
}

/** The subscription controller (`usePushNotifications`): the React state `isSupported`,
    `isSubscribed`, `subscription`, `isLoading`, and the operations `checkSubscription`,
    `subscribe`, `unsubscribe`, `sendTestNotification`. State updates are applied immediately and
    in order; every browser call is an input (its outcome) and an entry in the call log. */
module PushController {

  import opened Wrappers
  import opened Json
  import opened Base64
  import opened KeyCodec

  const PushEndpoint: string := "https://functions.poehali.dev/6adb334a-6838-4575-aef7-55e7f7744a02"
  const WorkerScript: string := "/sw.js"

  /** A live platform push subscription: its endpoint and the raw `p256dh` and `auth` keys. */
  datatype Handle = Handle(endpoint: string, p256dh: seq<byte>, auth: seq<byte>)

  datatype ControllerState = ControllerState(
    isSupported: bool,
    isSubscribed: bool,
    subscription: Option<Handle>,
    isLoading: bool)

  /** The state right after the hook is created. */
  const Initial := ControllerState(false, false, None, false)

  /** `isSubscribed` mirrors whether a handle is held. */
  predicate Consistent(st: ControllerState) {
    st.isSubscribed == st.subscription.Some?
  }

  /** The JSON record POSTed to the registration endpoint, keys in standard base64. */
  datatype SubscriptionRecord = SubscriptionRecord(endpoint: string, p256dh: string, auth: string)

  datatype Permission = Granted | Denied | Dismissed

  /** What a `fetch` produced: a response with its `ok` flag, or a rejection. */
  datatype FetchOutcome = Responded(ok: bool) | NetworkError

  /** The browser calls `subscribe` makes, in order. */
  datatype Call =
    | RegisterWorker(script: string)
    | RequestPermission
    | DecodeApplicationServerKey(key: string)
    | PushManagerSubscribe(userVisibleOnly: bool, applicationServerKey: seq<byte>)
    | PostSubscription(url: string, record: SubscriptionRecord)

  /** How the browser answers each step of `subscribe`: whether registering the worker and waiting
      for it to be ready succeeds, the permission prompt's answer, the subscription
      `pushManager.subscribe` creates (`None` when it throws), and the registration POST. */
  datatype SubscribeEnv = SubscribeEnv(
    registerOk: bool,
    permission: Permission,
    created: Option<Handle>,
    post: FetchOutcome)

  /** `subscribe` either throws (only when unsupported) or resolves to a boolean. */
  datatype Outcome = Threw(message: string) | Resolved(value: bool)

  datatype SubscribeResult = SubscribeResult(
    outcome: Outcome,
    state: ControllerState,
    platform: Option<Handle>,
    calls: seq<Call>)

  /** `checkSubscription`: `query` is what `serviceWorker.ready` + `getSubscription()` produced,
      `None` when either threw (then the state is left alone). */
  function CheckSubscription(st: ControllerState, query: Option<Option<Handle>>): (r: ControllerState)
    ensures query.None? ==> r == st
    ensures query.Some? ==> r.subscription == query.value && r.isSubscribed == query.value.Some?
    ensures r.isSupported == st.isSupported && r.isLoading == st.isLoading
    ensures Consistent(st) ==> Consistent(r)
  {
    match query
    case None => st
    case Some(sub) => st.(subscription := sub, isSubscribed := sub.Some?)
  }

  /** The mount effect: record support, and query the subscription only when supported. */
  function CheckSupport(st: ControllerState, supported: bool, query: Option<Option<Handle>>): (r: ControllerState)
    ensures r.isSupported == supported
    ensures !supported ==> r == st.(isSupported := false)
    ensures supported ==> r == CheckSubscription(st.(isSupported := true), query)
    ensures Consistent(st) ==> Consistent(r)
  {
    var st1 := st.(isSupported := supported);
    if supported then CheckSubscription(st1, query) else st1
  }

  /** The record sent to the server: endpoint as is, both keys re-encoded with `btoa`. */
  function ToRecord(h: Handle): (r: SubscriptionRecord)
    ensures r.endpoint == h.endpoint
    ensures DecodeBytes(r.p256dh) == Some(h.p256dh) && DecodeBytes(r.auth) == Some(h.auth)
  {
    DecodeEncode(h.p256dh);
    DecodeEncode(h.auth);
    SubscriptionRecord(h.endpoint, Encode(h.p256dh), Encode(h.auth))
  }

  /** `urlBase64ToUint8Array(VAPID_PUBLIC_KEY)`: the decoded key, an uncompressed P-256 point. */
  function ApplicationServerKey(): (k: Option<seq<byte>>)
    ensures k.Some? && |k.value| == 65 && k.value[0] == 0x04
  {
    VapidKeyIsUncompressedPoint();
    UrlBase64ToBytes(VapidPublicKey)
  }

  /** The steps of `subscribe` after `isLoading` has been set, up to the point where the `try`
      block ends; `isLoading` is reset by the caller (the `finally`). */
  function SubscribeSteps(st: ControllerState, platform: Option<Handle>, env: SubscribeEnv,
                          key: Option<seq<byte>>): (r: SubscribeResult)
    ensures r.outcome.Resolved? && r.state.isSupported == st.isSupported && r.state.isLoading == st.isLoading
    ensures env.permission != Granted ==>
              && r.outcome == Resolved(false) && r.state == st && r.platform == platform
              && forall i :: 0 <= i < |r.calls| ==> !r.calls[i].PushManagerSubscribe? && !r.calls[i].PostSubscription?
    ensures r.outcome == Resolved(true) <==>
              env.registerOk && env.permission == Granted && key.Some? && env.created.Some? && env.post == Responded(true)
    ensures r.outcome == Resolved(true) ==>
              r.state.subscription == env.created && r.state.isSubscribed && r.platform == env.created
    ensures r.outcome == Resolved(false) ==> r.state == st
    ensures env.registerOk && env.permission == Granted && key.Some? ==>
              && |r.calls| >= 4
              && r.calls[0] == RegisterWorker(WorkerScript) && r.calls[1] == RequestPermission
              && r.calls[2] == DecodeApplicationServerKey(VapidPublicKey)
              && r.calls[3] == PushManagerSubscribe(true, key.value)
  {
    var register := RegisterWorker(WorkerScript);
    var decode := DecodeApplicationServerKey(VapidPublicKey);
    if !env.registerOk then SubscribeResult(Resolved(false), st, platform, [register])
    else if env.permission != Granted then SubscribeResult(Resolved(false), st, platform, [register, RequestPermission])
    else
      match key
      case None => SubscribeResult(Resolved(false), st, platform, [register, RequestPermission, decode])
      case Some(key) =>
        var pushSubscribe := PushManagerSubscribe(true, key);
        match env.created
        case None => SubscribeResult(Resolved(false), st, platform, [register, RequestPermission, decode, pushSubscribe])
        case Some(h) =>
          var calls := [register, RequestPermission, decode, pushSubscribe,
                        PostSubscription(PushEndpoint + "/subscribe", ToRecord(h))];
          if env.post == Responded(true) then
            SubscribeResult(Resolved(true), st.(subscription := Some(h), isSubscribed := true), Some(h), calls)
          else
            SubscribeResult(Resolved(false), st, Some(h), calls)
  }

  /** `subscribe`: throws when unsupported, otherwise sets `isLoading`, runs the steps with every
      failure caught as `false`, and clears `isLoading` at the end. */
  function Subscribe(st: ControllerState, platform: Option<Handle>, env: SubscribeEnv): (r: SubscribeResult)
    ensures !st.isSupported ==> r == SubscribeResult(Threw("Push notifications not supported"), st, platform, [])
    ensures st.isSupported ==> r.outcome.Resolved? && !r.state.isLoading && r.state.isSupported
    ensures st.isSupported && env.permission != Granted ==>
              && r.outcome == Resolved(false)
              && r.state == st.(isLoading := false) && r.platform == platform
              && forall i :: 0 <= i < |r.calls| ==> !r.calls[i].PushManagerSubscribe? && !r.calls[i].PostSubscription?
    ensures r.outcome == Resolved(true) <==>
              st.isSupported && env.registerOk && env.permission == Granted && env.created.Some?
              && env.post == Responded(true)
    ensures r.outcome == Resolved(true) ==>
              r.state.subscription == env.created && r.state.isSubscribed && r.platform == env.created
    ensures r.outcome == Resolved(false) ==>
              r.state.subscription == st.subscription && r.state.isSubscribed == st.isSubscribed
    ensures st.isSupported && env.registerOk && env.permission == Granted ==>
              && |r.calls| >= 4
              && r.calls[0] == RegisterWorker(WorkerScript) && r.calls[1] == RequestPermission
              && r.calls[2] == DecodeApplicationServerKey(VapidPublicKey)
              && r.calls[3].PushManagerSubscribe? && r.calls[3].userVisibleOnly
    ensures Consistent(st) ==> Consistent(r.state)
  {
    if !st.isSupported then SubscribeResult(Threw("Push notifications not supported"), st, platform, [])
    else
      var r := SubscribeSteps(st.(isLoading := true), platform, env, ApplicationServerKey());
      r.(state := r.state.(isLoading := false))
  }

  /** The application-server key handed to `pushManager.subscribe` is the decoded VAPID key:
      65 bytes, first byte 0x04. */
  lemma SubscribeUsesVapidKey(st: ControllerState, platform: Option<Handle>, env: SubscribeEnv)
    requires st.isSupported && env.registerOk && env.permission == Granted
    ensures var r := Subscribe(st, platform, env);
      && |r.calls| >= 4 && r.calls[3].PushManagerSubscribe?
      && r.calls[3].applicationServerKey == UrlBase64ToBytes(VapidPublicKey).value
      && |r.calls[3].applicationServerKey| == 65 && r.calls[3].applicationServerKey[0] == 0x04
  {
    VapidKeyIsUncompressedPoint();
  }

  /** A created subscription is POSTed to the registration endpoint with keys that decode back to
      the platform's key bytes. */
  lemma SubscribePostsCreatedKeys(st: ControllerState, platform: Option<Handle>, env: SubscribeEnv)
    requires st.isSupported && env.registerOk && env.permission == Granted && env.created.Some?
    ensures var r := Subscribe(st, platform, env);
      && |r.calls| == 5 && r.calls[4].PostSubscription?
      && r.calls[4].url == PushEndpoint + "/subscribe"
      && r.calls[4].record.endpoint == env.created.value.endpoint
      && DecodeBytes(r.calls[4].record.p256dh) == Some(env.created.value.p256dh)
      && DecodeBytes(r.calls[4].record.auth) == Some(env.created.value.auth)
  {
    VapidKeyIsUncompressedPoint();
  }

  /** When the server rejects the registration, `subscribe` resolves to `false` and the controller
      keeps its previous handle, yet the platform subscription exists: the next
      `checkSubscription`, which reads the platform, reports it as subscribed. */
  lemma RejectedRegistrationLeavesPlatformSubscription(st: ControllerState, platform: Option<Handle>, env: SubscribeEnv)
    requires st.isSupported && env.registerOk && env.permission == Granted && env.created.Some?
    requires env.post != Responded(true)
    ensures var r := Subscribe(st, platform, env);
      && r.outcome == Resolved(false)
      && r.state.subscription == st.subscription
      && r.platform == env.created
      && CheckSubscription(r.state, Some(r.platform)).isSubscribed
  {
    VapidKeyIsUncompressedPoint();
  }

  datatype UnsubscribeResult = UnsubscribeResult(value: bool, state: ControllerState, platform: Option<Handle>)

  /** `unsubscribe`: without a handle it resolves `false` and touches nothing; otherwise
      `subscription.unsubscribe()` either succeeds (handle and platform subscription gone) or
      throws (caught, nothing changes but `isLoading`). The server is not told. */
  function Unsubscribe(st: ControllerState, platform: Option<Handle>, revokeOk: bool): (r: UnsubscribeResult)
    ensures st.subscription.None? ==> r == UnsubscribeResult(false, st, platform)
    ensures st.subscription.Some? ==> !r.state.isLoading && r.value == revokeOk
    ensures st.subscription.Some? && revokeOk ==>
              r.state.subscription.None? && !r.state.isSubscribed && r.platform.None?
    ensures st.subscription.Some? && !revokeOk ==> r == UnsubscribeResult(false, st.(isLoading := false), platform)
    ensures r.state.isSupported == st.isSupported
    ensures Consistent(st) ==> Consistent(r.state)
  {
    if st.subscription.None? then UnsubscribeResult(false, st, platform)
    else if revokeOk then
      UnsubscribeResult(true, st.(subscription := None, isSubscribed := false, isLoading := false), None)
    else
      UnsubscribeResult(false, st.(isLoading := false), platform)
  }

  /** The request `sendTestNotification` sends. */
  datatype TestRequest = TestRequest(url: string, authorization: string, body: Json)

  /** `sendTestNotification`: `token` is what `localStorage.getItem('admin_token')` returned (a
      missing token is interpolated as "null"), `now` the `Date.now()` reading. */
  function SendTestNotification(title: string, body: string, token: Option<string>, now: int, outcome: FetchOutcome)
    : (r: (bool, TestRequest))
    ensures r.0 <==> outcome == Responded(true)
    ensures r.1.url == PushEndpoint + "/send"
    ensures r.1.authorization == "Bearer " + token.GetOr("null")
    ensures r.1.body.JObject? && "title" in r.1.body.fields && "body" in r.1.body.fields
    ensures r.1.body.fields["title"] == JString(title) && r.1.body.fields["body"] == JString(body)
  {
    var request := TestRequest(
      PushEndpoint + "/send",
      "Bearer " + token.GetOr("null"),
      JObject(map[
        "title" := JString(title),
        "body" := JString(body),
        "icon" := JString("/favicon.ico"),
        "badge" := JString("/favicon.ico"),
        "tag" := JString("admin-notification"),
        "data" := JObject(map["timestamp" := JNumber(now), "url" := JString("/admin")])
      ]));
    match outcome
    case Responded(ok) => (ok, request)
    case NetworkError => (false, request)
  }

  /** Every reachable state keeps `isSubscribed` in step with the handle: the initial state does,
      and each operation preserves it. */
  lemma ConsistencyIsInvariant(st: ControllerState, platform: Option<Handle>, supported: bool,
                               query: Option<Option<Handle>>, env: SubscribeEnv, revokeOk: bool)
    requires Consistent(st)
    ensures Consistent(Initial)
    ensures Consistent(CheckSupport(st, supported, query))
    ensures Consistent(Subscribe(st, platform, env).state)
    ensures Consistent(Unsubscribe(st, platform, revokeOk).state)
  {
  }
}

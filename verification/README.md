# Push notifications, admin login, analytics and theme: a Dafny model

This project models the core of a small web site with an admin area, which runs in three places.

- **The browser.** The service worker turns push messages into notifications and routes clicks on them. The `usePushNotifications` hook subscribes the browser to push messages and registers the subscription with the backend. The `useAnalytics` hooks record page events. `ThemeToggle` switches between the light and dark themes.
- **The key codec.** The push hook's `urlBase64ToUint8Array` decodes the VAPID application-server key, which is base64url (section 5 of RFC 4648). It does so by padding the key, translating it to standard base64 (section 4 of RFC 4648) and calling `atob`. `atob` is the forgiving-base64 decoder of the HTML standard. The subscription keys go back to the server through `btoa`.
- **Three Python cloud functions.**
  - The push function stores subscriptions and records sent notifications.
  - The auth function logs admins in.
  - The analytics function records user actions and reports on them.

Each function is a request-to-response decision with ordered guards. The push and analytics functions check, in order: preflight, configuration, connection, dispatch, validation. The auth function answers a method other than `POST` with 405 before the configuration check, and validates the credentials before it connects. The database is modelled as sequences of rows. A row's serial id is its position plus one, and the clock is a parameter.

Browser calls, database connections, `bcrypt.checkpw` and `jwt.encode` are not performed. Each one is an input to the model: its outcome, or a function parameter in the case of the crypto. The browser calls a hook or the worker makes are returned as an ordered log.

The modules follow the program's structure.

| module | file | models |
|---|---|---|
| `Wrappers` | `wrappers.dfy` | `Option` |
| `Json` | `json.dfy` | JSON values; JavaScript and Python truthiness; `dict.get` and `?.` access |
| `Text` | `text.dfy` | substring search (`includes`, `LIKE '%x%'`); Python's `split(',')[0]` and `strip()`; decimal numerals |
| `Base64` | `base64.dfy` | `btoa` and `atob` |
| `KeyCodec` | `keycodec.dfy` | `urlBase64ToUint8Array` and the VAPID key |
| `Worker` | `worker.dfy` | `public/sw.js` |
| `PushController` | `controller.dfy` | the state machine of `usePushNotifications` |
| `Http` | `http.dfy` | what the three handlers share: events, responses, CORS, the `x-forwarded-for` address, `int()` of `days` |
| `PushHandler` | `pushhandler.dfy` | `backend/push-notifications/index.py` |
| `AuthHandler` | `authhandler.dfy` | `backend/auth/index.py` |
| `AnalyticsHandler` | `analyticshandler.dfy` | `backend/analytics/index.py` |
| `AnalyticsHooks` | `analyticshooks.dfy` | `src/hooks/useAnalytics.ts` |
| `Theme` | `theme.dfy` | `src/components/ThemeToggle.tsx` |

Some of the code's behaviour may not be what a reader expects. The model keeps it as the code has it:

- **Worker click routing.**
  - A window counts as the site's own when its URL merely *contains* the worker's origin.
  - A window on another site whose URL mentions the origin is therefore focused and navigated (`Worker.ForeignClientCanMatch`).
- **`subscribe` failures.**
  - A denied permission resolves `subscribe` to `false`; it does not reject.
  - So does every other failure after the support check: registration, key decoding, the platform subscription and the server POST.
  - When the server refuses the registration, the platform subscription already exists, but the hook keeps its old handle.
- **The send action** asks for no authorisation. Every delivery counts as a success.
- **The browser classification** tests `Chrome` first. Edge's agent strings contain "Chrome", so they are classified as Chrome, and the `Edge` label is reachable only by agents that name neither Chrome nor Safari.
- **Push statistics.** The push function binds `days` unquoted after `INTERVAL`, which PostgreSQL refuses, so its `GET` always answers 500 (see "## Findings").
- **The debug login** `admin`/`temp123` is answered without the database. It still needs `DATABASE_URL` to be set, because that check comes first.

## Model

| member | source | states |
|---|---|---|
| `Theme.Mount` | src/components/ThemeToggle.tsx:8-16 | A stored `dark` gives the dark theme on every system. Any other non-empty stored name gives the light theme on every system. With nothing or an empty string stored, the theme follows the system preference. The class is added only for the dark theme, and storage is not written. |
| `Theme.StoredLightWins` | src/components/ThemeToggle.tsx:12 | A stored `light` gives the light theme even on a system that prefers dark. |
| `Theme.Toggle` | src/components/ThemeToggle.tsx:18-29 | A toggle negates `isDark`. Afterwards the stored item is `dark` exactly when `isDark` holds and is otherwise `light`, and the `dark` class is present exactly when `isDark` holds. |
| `Theme.ToggleTwice` | src/components/ThemeToggle.tsx:18-29 | Every toggle leaves storage and class in step with `isDark`. From such a state, two toggles restore `isDark`, the stored item and the class exactly. |
| `Theme.ToggleSurvivesReload` | src/components/ThemeToggle.tsx:8-29 | After a toggle, a reload resolves the same theme from storage, whatever the system preference. |
| `Worker.SpreadProperties` | public/sw.js:30 | Spreading an object copies its fields. Spreading a string, array or primitive adds only index keys, never one of the five notification fields. |
| `Worker.ResolvePayload` | public/sw.js:17-34 | The merged record always has the five fields the notification is built from. |
| `Worker.HandlePush` | public/sw.js:14-58 | The notification always requires interaction and offers `open` then `close`. Without data it is the default one (title КрымБлок, body "Новое уведомление", `/favicon.ico` icon and badge, `data.url` `/`). A JSON object payload replaces each field it carries, `data` wholesale, and the other fields keep their defaults. A payload that does not parse replaces only the body, with the raw text. |
| `Worker.NonObjectPayloadKeepsDefaults` | public/sw.js:27-30 | A JSON payload that is not an object yields exactly the default notification. |
| `Worker.MergeExample` | public/sw.js:17-42 | A payload `{body: "X", data: {url: "/y"}}` changes the body and the whole `data`, and nothing else. |
| `Worker.TargetUrl` | public/sw.js:70 | The target is always truthy. It is `data.url` when that is truthy, and `/admin` when it is missing or falsy, including the empty string. |
| `Worker.FirstMatch` | public/sw.js:77-83 | The result is the first position, in enumeration order, whose URL contains the origin; `None` means no URL contains it. |
| `Worker.FindClient` | public/sw.js:72-86 | The loop stops at the first client whose URL contains the origin, with none before it; `None` means no client matches. |
| `Worker.HandleClick` | public/sw.js:61-90 | The notification is always closed first. The `close` action does nothing else. Any other action enumerates the windows and then either focuses and navigates one window or opens one. |
| `Worker.ClickRouting` | public/sw.js:72-86 | After a non-`close` click, the first matching client is focused and navigated to the target and no window is opened. With no match, exactly one window is opened at the target and nothing is navigated. |
| `Worker.ClickFocusesMatchingClient` | public/sw.js:70-83 | With `data.url` `/report` and one window on the site, that window is focused and sent to `/report`. |
| `Worker.ForeignClientCanMatch` | public/sw.js:79 | A window on another site whose URL mentions the origin is focused and navigated, because matching is substring containment. |
| `KeyCodec.PaddingLength` | src/hooks/usePushNotifications.ts:15 | The padding is below four, brings the length to a multiple of four, and is zero for lengths that already are. |
| `KeyCodec.Pad` | src/hooks/usePushNotifications.ts:15-16 | The padded string extends the input with `=` only, up to a multiple of four. |
| `KeyCodec.ToStandardAlphabet` | src/hooks/usePushNotifications.ts:16-18 | The translation keeps the length. It maps each `-` to `+` and each `_` to `/`, leaves every other character in place, and no `-` or `_` remains. |
| `KeyCodec.UrlAlphabetRoundTrip` | src/hooks/usePushNotifications.ts:16-18 | On strings without `+` and `/`, translating to the standard alphabet and back is the identity, so the translation loses nothing. |
| `KeyCodec.UrlBase64ToUint8Array` | src/hooks/usePushNotifications.ts:14-27 | The output array has the length of `atob`'s result and holds its character codes, one byte each. `None` is the error `atob` throws. |
| `KeyCodec.UrlRoundTrip` | src/hooks/usePushNotifications.ts:14-27 | The unpadded base64url encoding of any byte sequence decodes back to that sequence. |
| `KeyCodec.ReencodeGivesStandardForm` | src/hooks/usePushNotifications.ts:14-27 | For every canonical base64url string, one an encoder could have written, re-encoding the decoded bytes with `btoa` gives back the padded standard-alphabet string that was decoded. A non-canonical string such as `BE` decodes like `BA` and re-encodes as `BA==`. |
| `KeyCodec.UrlSafeStringDecodes` | src/hooks/usePushNotifications.ts:14-20 | A base64url string whose length is not one more than a multiple of four always decodes, to the bytes its digits stand for. |
| `KeyCodec.OneOverMultipleOfFourFails` | src/hooks/usePushNotifications.ts:15-20 | A string one character longer than a multiple of four gets three `=`. `atob` strips at most two of them and then throws. |
| `KeyCodec.VapidKeyIsUrlSafe` | src/hooks/usePushNotifications.ts:79 | The key is 87 base64url characters starting with `BE`. |
| `KeyCodec.UncompressedPointShape` | src/hooks/usePushNotifications.ts:79-84 | Any 87-character base64url string starting with `BE` decodes to 65 bytes whose first byte is 0x04. |
| `KeyCodec.VapidKeyIsUncompressedPoint` | src/hooks/usePushNotifications.ts:79-84 | The key gets one `=` and decodes to 65 bytes starting with 0x04, the uncompressed P-256 point that section 3.2 of RFC 8292 requires. |
| `Base64.EncodeDigits` | src/hooks/usePushNotifications.ts:93-94 | The unpadded `btoa` digits are all base64 digits. Their count is never one more than a multiple of four. |
| `Base64.Encode` | src/hooks/usePushNotifications.ts:93-94 | `btoa` output is a multiple of four characters long and begins with the unpadded digits. |
| `Base64.EncodeHasNoSpace` | src/hooks/usePushNotifications.ts:93-94 | `btoa` output contains no ASCII whitespace. |
| `Base64.DecodeBytes` | src/hooks/usePushNotifications.ts:20 | After whitespace removal and padding stripping, `atob` succeeds exactly when the length is not one more than a multiple of four and every character is a base64 digit. |
| `Base64.Atob` | src/hooks/usePushNotifications.ts:20-25 | `atob` fails exactly when the byte decoding fails. Otherwise it returns a binary string carrying those bytes as character codes. |
| `Base64.DecodeEncode` | src/hooks/usePushNotifications.ts:93-94 | `atob(btoa(x))` gives back the bytes `x`. |
| `Base64.DecodeEncodeDigits` | src/hooks/usePushNotifications.ts:93-94 | Decoding the unpadded digits of any byte sequence gives that sequence back. |
| `Base64.DecodeDigitsLength` | src/hooks/usePushNotifications.ts:20-21 | Each full group of four digits decodes to three bytes. Two or three leftover digits decode to one or two bytes. |
| `Base64.RemoveAsciiSpace` | src/hooks/usePushNotifications.ts:20 | Whitespace removal leaves no whitespace and does not change a string that has none. |
| `Base64.BytesToBinaryString` | src/hooks/usePushNotifications.ts:93 | `String.fromCharCode` of a byte array yields one character per byte, with that byte as its code. |
| `PushController.CheckSubscription` | src/hooks/usePushNotifications.ts:49-58 | A successful query stores the platform's subscription and sets `isSubscribed` to whether it exists. A failed query changes nothing, and support and loading flags are untouched. |
| `PushController.CheckSupport` | src/hooks/usePushNotifications.ts:35-47 | The support flag is recorded. The subscription is queried only when push is supported. |
| `PushController.ToRecord` | src/hooks/usePushNotifications.ts:90-96 | The record sent to the server carries the endpoint unchanged and keys that `atob` decodes back to the platform's key bytes. |
| `PushController.ApplicationServerKey` | src/hooks/usePushNotifications.ts:79-84 | The application-server key handed to the push manager decodes without error to 65 bytes starting with 0x04. |
| `PushController.SubscribeSteps` | src/hooks/usePushNotifications.ts:67-113 | The steps resolve to `true` exactly when registration, permission, key, platform subscription and POST all succeed. A refused permission reaches neither the push manager nor the server. On `false` the state is unchanged. |
| `PushController.Subscribe` | src/hooks/usePushNotifications.ts:60-120 | When push is unsupported, `subscribe` throws with nothing called and nothing changed. Otherwise it resolves, and `isLoading` ends false. It resolves `true` exactly when every step succeeds, and only then does the handle change. A denied permission gives `false` with no push subscription and no POST. The consistency of `isSubscribed` with the handle is kept. |
| `PushController.SubscribeUsesVapidKey` | src/hooks/usePushNotifications.ts:79-87 | The fourth call is `pushManager.subscribe` with `userVisibleOnly` and the decoded VAPID key: 65 bytes, first byte 0x04. |
| `PushController.SubscribePostsCreatedKeys` | src/hooks/usePushNotifications.ts:87-108 | A created subscription is POSTed to `/subscribe` with its endpoint and keys that decode back to the platform's bytes. |
| `PushController.RejectedRegistrationLeavesPlatformSubscription` | src/hooks/usePushNotifications.ts:87-116 | When the server rejects the registration, `subscribe` resolves `false` and keeps the old handle. The platform subscription nevertheless exists, so the next check reports the browser as subscribed. |
| `PushController.Unsubscribe` | src/hooks/usePushNotifications.ts:122-138 | Without a handle, `unsubscribe` returns false and changes nothing. Otherwise it returns whether the revocation succeeded, drops handle and platform subscription only on success, and always ends with `isLoading` false. |
| `PushController.SendTestNotification` | src/hooks/usePushNotifications.ts:140-166 | The result is true exactly when the server answered ok. The request goes to `/send` with `Bearer <token>`, or `Bearer null` when no token is stored, and a body carrying the given title and text. |
| `PushController.ConsistencyIsInvariant` | src/hooks/usePushNotifications.ts:30-138 | `isSubscribed == (subscription != null)` holds initially and is preserved by the support check, `subscribe` and `unsubscribe`. |
| `Text.ContainsIff` | backend/analytics/index.py:171-174 | The containment check behind `LIKE '%x%'` and `includes` holds exactly when the pattern occurs at some position. |
| `Text.Strip` | backend/push-notifications/index.py:63 | `strip()` yields the slice after the leading whitespace. The result neither starts nor ends in whitespace, and it is empty exactly when the input is all whitespace. |
| `Text.BeforeFirst` | backend/push-notifications/index.py:63 | `split(',')[0]` is a comma-free prefix that ends at the first comma, if there is one. |
| `Text.StripOmits` | backend/push-notifications/index.py:63 | Stripping introduces no character. |
| `Text.Decimal` | src/hooks/useAnalytics.ts:17 | A numeral is non-empty, all digits and has no leading zero. |
| `Text.DecimalRoundTrip` | src/hooks/useAnalytics.ts:17 | Reading back a numeral gives its number, so numerals of distinct numbers differ. |
| `Http.Preflight` | backend/push-notifications/index.py:24-34 | `OPTIONS` is answered 200 with an empty body, origin `*` and the handler's allowed methods. |
| `Http.ErrorResponse` | backend/push-notifications/index.py:67-72 | An error answer carries the status, the JSON headers and `{"error": message}`. |
| `Http.ForwardedFor` | backend/push-notifications/index.py:63 | The forwarded address is empty without the header. It never holds a comma and never starts or ends in whitespace. |
| `Http.ForwardedForFirstEntry` | backend/analytics/index.py:57 | A proxy chain `first, rest` yields its first entry, trimmed. |
| `Http.ParseInt` | backend/push-notifications/index.py:168 | `int()` succeeds exactly on an optional sign followed by one to 4300 decimal digits, surrounded by whitespace `int()` skips. 4300 is the default limit on the digits of a conversion in CPython 3.11 and later. `str.isspace` whitespace counts, except the information separators U+001C to U+001F: a string holding one fails. |
| `Http.OverlongNumeralRefused` | backend/analytics/index.py:88 | A string of more than 4300 decimal digits is refused, although it is a well-formed numeral. |
| `Http.SeparatorIsNotSkipped` | backend/analytics/index.py:88 | `strip()` cuts a leading U+001C, but `int()` refuses the same string. |
| `Http.ShowInt` | backend/push-notifications/index.py:168 | `str(n)` is non-empty with no surrounding whitespace. |
| `Http.ParseShowInt` | backend/push-notifications/index.py:168 | `int()` reads back any integer `str()` can write, padded with any whitespace `int()` skips. `str()` itself refuses integers of more than 4300 digits. |
| `Http.DaysOfQuery` | backend/push-notifications/index.py:167-168 | `days` is 7 when absent. A parameter holding a numeral of at most 4300 digits as `str()` writes it, padded with whitespace `int()` skips, gives that number. A parameter holding an information separator, or a numeral of more than 4300 digits, gives no period, which the handlers answer with 500. |
| `PushHandler.ActiveCount` | backend/push-notifications/index.py:185-188 | The active count is at most the number of rows and is zero exactly when no row is active. |
| `PushHandler.Touch` | backend/push-notifications/index.py:82-85 | No row is added, removed or moved, and no column but `last_used` changes. Every row with the endpoint, active or not, gets the new `last_used`, and every other row is unchanged. |
| `PushHandler.SubscriptionFields` | backend/push-notifications/index.py:57-59 | Endpoint and keys are read with `''` defaults. The read fails exactly when `keys` is present but is not an object. |
| `PushHandler.SubscribeAction` | backend/push-notifications/index.py:52-101 | Subscribing touches only the subscription table. It answers 200 "Subscribed successfully", 400 or 500, and on any error the database is unchanged. |
| `PushHandler.SendAction` | backend/push-notifications/index.py:103-163 | Sending touches only the notification table and answers 200 or 500, and a 500 changes nothing. |
| `PushHandler.IntervalClauses` | backend/push-notifications/index.py:171-180 | Bound as psycopg2 binds an integer, the clause `INTERVAL <days> DAY` has a numeral, not a quoted literal, after `INTERVAL`, so PostgreSQL refuses it for every `days`. The quoted clause `INTERVAL '<days> days'` is always accepted. |
| `PushHandler.Stats` | backend/push-notifications/index.py:165-228 | Statistics change nothing. They answer 200 exactly when `days` is an integer and PostgreSQL accepts the interval clause, and then report the number of active subscriptions. Every other answer is the caught exception's 500. |
| `PushHandler.StatsAction` | backend/push-notifications/index.py:165-228 | As written, every statistics request is answered 500 and changes nothing: an invalid `days` raises in `int()`, a valid one in the first `execute`. |
| `PushHandler.StatsActionIntended` | backend/push-notifications/index.py:165-221 | With the quoted interval, statistics fail exactly when `int()` refuses `days`, and otherwise report the number of active subscriptions. |
| `PushHandler.StatisticsUnreachable` | backend/push-notifications/index.py:165-228 | Once the database is reachable, every `GET` to the push function is answered 500 and writes nothing. |
| `PushHandler.Handler` | backend/push-notifications/index.py:21-240 | `OPTIONS` is answered before the configuration check, which comes before the connection. Only a `subscribe` POST changes subscriptions and only a `send` POST changes notifications. A non-200 answer changes nothing. Other POST actions and other methods get 405. |
| `PushHandler.MissingSubscriptionData` | backend/push-notifications/index.py:57-72 | When the endpoint, `p256dh` or `auth`, read with their `''` defaults, is falsy, the answer is 400 "Missing subscription data" and the table is left alone. This covers a missing `keys` object, a missing field and an empty one. |
| `PushHandler.MissingKeys` | backend/push-notifications/index.py:57-72 | A body with no `keys` object reads empty keys and gets 400, with the table unchanged. |
| `PushHandler.SubscribeUpserts` | backend/push-notifications/index.py:74-93 | With an active row for the endpoint, only `last_used` of rows with that endpoint changes. Otherwise exactly one active row is appended, with the next serial id. It holds the request's endpoint, `p256dh` and `auth`, its `user-agent` header (or empty) and the subscriber address: the first `x-forwarded-for` entry, stripped, else `x-real-ip`, else empty. `last_used` is unset. |
| `PushHandler.SubscribeKeepsOneActive` | backend/push-notifications/index.py:74-93 | Subscribing keeps at most one active row per endpoint. |
| `PushHandler.HandlerKeepsOneActive` | backend/push-notifications/index.py:21-240 | No request breaks the rule of at most one active row per endpoint. |
| `PushHandler.ResubscribeAddsNoRow` | backend/push-notifications/index.py:74-93 | Repeating a successful subscription adds no row. |
| `PushHandler.SendWithoutSubscribers` | backend/push-notifications/index.py:114-125 | With no active subscription, sending answers "No active subscriptions" and records nothing. |
| `PushHandler.SendRecordsOneNotification` | backend/push-notifications/index.py:127-163 | With active subscriptions, exactly one notification is appended, built from the body's fields or their defaults. `sent_count` is the positive active count. |
| `AuthHandler.Escape` | backend/auth/index.py:85 | Escaping doubles every quote. The result is one character longer per quote, and a quote-free name is unchanged. |
| `AuthHandler.ReadEscaped` | backend/auth/index.py:85-90 | SQL reads an escaped name between quotes back as exactly that name, whatever characters it holds (NUL aside, see "## Left out"), and the literal ends at the closing quote. |
| `AuthHandler.SelectUser` | backend/auth/index.py:85-90 | The lookup statement is the fixed `SELECT` prefix followed by a literal that SQL reads as exactly the given name, with nothing after it. |
| `AuthHandler.FindUser` | backend/auth/index.py:88-91 | The lookup returns a row with that name, and `None` exactly when no row has it. Without `ORDER BY`, `fetchone()` may return any matching row; the model chooses the first in table order. |
| `AuthHandler.SetLastLogin` | backend/auth/index.py:122-125 | No row is added, removed or moved, and no column but `last_login` changes. Every row with that id gets `last_login = now`, and every other row is unchanged. |
| `AuthHandler.Handler` | backend/auth/index.py:16-156 | `OPTIONS` is answered first. Any other non-POST method gets 405, and a missing `DATABASE_URL` then gives 500. Only a 200 changes the table, and then only `last_login`. |
| `AuthHandler.Login` | backend/auth/index.py:47-149 | Credential handling changes no row, or only `last_login` on success. |
| `AuthHandler.DebugLoginBypassesDatabase` | backend/auth/index.py:38-71 | `admin`/`temp123` logs in as user 999 without reading or writing the table, but only once `DATABASE_URL` is set. |
| `AuthHandler.MissingCredentials` | backend/auth/index.py:73-78 | Outside the debug login, an empty or missing name or password gives 400. |
| `AuthHandler.RejectedLogin` | backend/auth/index.py:93-119 | An unknown name and a wrong password both get 401 "Invalid credentials", and `last_login` does not change. |
| `AuthHandler.AcceptedLogin` | backend/auth/index.py:108-149 | A matching password answers 200 with the first matching row's id and name. Exactly the rows with that id get `last_login = now`. |
| `AnalyticsHandler.ClientIp` | backend/analytics/index.py:57-61 | The recorded address is never empty. It is the first forwarded entry, else a non-empty `x-real-ip`, else `0.0.0.0`. |
| `AnalyticsHandler.RecordAction` | backend/analytics/index.py:43-83 | A POST appends exactly one row and reports its id. An unreadable body gives 500 and appends nothing. |
| `AnalyticsHandler.Report` | backend/analytics/index.py:85-231 | The report fails exactly when `int()` refuses `days`. Otherwise `period_days` is `days`, and `summary` holds the summary query's three counts, each 0 when the query returned no row. |
| `AnalyticsHandler.Handler` | backend/analytics/index.py:14-250 | `OPTIONS` is answered first, then the configuration and connection guards. Only POST appends, and only one row. Other methods get 405. |
| `AnalyticsHandler.ClassifyBrowser` | backend/analytics/index.py:170-176 | Each label is given exactly when its rule is the first that matches, in the order Chrome, Firefox, Safari without Chrome, Edge, Other. |
| `AnalyticsHandler.EdgeNeedsNeitherChromeNorSafari` | backend/analytics/index.py:170-176 | `Edge` is given only to agents that mention neither Chrome nor Safari. |
| `AnalyticsHandler.EdgeAgentIsChrome` | backend/analytics/index.py:170-176 | An agent naming Chrome, Safari and Edge is classified as Chrome. |
| `AnalyticsHooks.GetSessionId` | src/hooks/useAnalytics.ts:14-21 | The id is never empty and is left in storage. A stored non-empty id is reused; otherwise a new one, `session_<now>_<random>`, is created. |
| `AnalyticsHooks.SessionIdIsStable` | src/hooks/useAnalytics.ts:14-21 | Once an id is handed out, every later call returns it and leaves storage alone, whatever the clock and random input. |
| `AnalyticsHooks.EventRecord` | src/hooks/useAnalytics.ts:26-31 | The record carries the caller's fields unchanged. `session_id`, `page_url` and `referrer` default to the session and page values unless the caller supplies them. |
| `AnalyticsHooks.TrackEvent` | src/hooks/useAnalytics.ts:24-43 | A tracked event carries the session id left in storage and every field the caller gave. A stored id is kept. |
| `AnalyticsHooks.EventsShareSession` | src/hooks/useAnalytics.ts:24-31 | Two events of one tab carry the same session id. |
| `AnalyticsHooks.ClickDetails` | src/hooks/useAnalytics.ts:85-90 | The additional data is spread last and overrides `element_type` and `element_text`. The text appears only when given, and no other key is added. |
| `AnalyticsHooks.Due` | src/hooks/useAnalytics.ts:114-125 | Exactly the checkpoints at or below the percentage that have not been reported are due. |
| `AnalyticsHooks.DueAscending` | src/hooks/useAnalytics.ts:114-125 | The due checkpoints come in ascending order. |
| `AnalyticsHooks.Scroll` | src/hooks/useAnalytics.ts:104-126 | A scroll raises the maximum to at least the percentage and otherwise keeps it. It reports the due checkpoints and remembers them. |
| `AnalyticsHooks.HandleScroll` | src/hooks/useAnalytics.ts:104-126 | The handler reports, in ascending order, exactly the checkpoints reached and not yet reported. The maximum never decreases. |
| `AnalyticsHooks.ReportDue` | src/hooks/useAnalytics.ts:114-125 | The `forEach` reports the due checkpoints in order and adds exactly them to the reached set. |
| `AnalyticsHooks.RunReportsOnce` | src/hooks/useAnalytics.ts:100-126 | Over any sequence of scrolls, each checkpoint is reported at most once, never one reported before, and the reached set grows by exactly the reports. |
| `AnalyticsHooks.RunTracksMaximum` | src/hooks/useAnalytics.ts:109-111 | After any sequence of scrolls, the maximum is the largest percentage seen, or the starting maximum. |
| `AnalyticsHooks.SummaryIffScrolled` | src/hooks/useAnalytics.ts:100-138 | From a fresh tracker, a summary is sent on unload exactly when some scroll was at a positive percentage. |

## Left out

- **Request bodies.**
  - JSON parsing and serialisation are not modelled. A body arrives as the value `json.loads` produced, or `None` when it raised.
  - An absent body is the text `'{}'`, so it arrives as an empty object.
  - JSON numbers are integers.
- **`null` containers.**
  - A `null` `pathParameters` or `headers` would make `.get` raise. The model has maps there, so it does not cover that case.
  - `queryStringParameters` of `null` is covered as the empty map.
- **Database.**
  - The database is abstract and its column types are not checked. A value the database would refuse, such as a non-string endpoint, is stored as given.
  - Database errors after a successful connection are not modelled, except the refused interval clause of the push statistics.
  - The SQL literal reader assumes `standard_conforming_strings` is on, PostgreSQL's default since 9.1. A backslash inside `'…'` is then an ordinary character. With the setting off, a name such as `\' OR 1=1 --` would escape the literal that `replace("'", "''")` builds.
  - A login name holding U+0000 is not modelled as an error. libpq ends the statement text at the NUL, so the source answers 500 there, where the model looks the name up.
  - The two commits of the send action are modelled as their final state.
  - A new subscription row is active by the table's default, and `last_used` starts unset.
- **Statistics.** The aggregate queries of the two `GET` branches are left out, because they depend on the database engine and floating point. For push these are the totals, `success_rate` and the recent notifications. For analytics these are the action types and the daily, page, hourly and browser statistics. Only the `CASE` classifier and the summary defaults are modelled.
- **Intervals.** Of PostgreSQL's grammar, only the rule that `INTERVAL` must be followed by a quoted literal is modelled, in `PushHandler.IntervalAccepted`. The analytics function builds `interval = f"{days} days"` and writes `INTERVAL '{interval}'`, a quoted literal, so its statements are taken to run.
- **Crypto.** `bcrypt.checkpw` and `jwt.encode` are parameters, because they are foreign crypto. The token's `exp` and `iat` clock reads and the secret are not modelled.
- **Diagnostics.** Debug `print`s and `console` logging are left out, because they are output only.
- **Python `int()`.** Underscores and non-ASCII digits are not accepted, although Python's `int()` accepts them. `Http.ParseInt` covers ASCII signs and digits, the 4300-digit limit at its default, and the whitespace `int()` skips: the six ASCII whitespace characters and the non-ASCII `str.isspace` characters. A limit changed through `sys.set_int_max_str_digits` or `PYTHONINTMAXSTRDIGITS` is not modelled.
- **Exception messages.** The text of a caught exception's message is not modelled. A 500 from an exception is `Http.ServerError`.
- **The browser and clocks.**
  - `fetch`, `Notification.requestPermission`, `serviceWorker.register`/`ready`, `pushManager.subscribe`/`getSubscription`, `subscription.unsubscribe` and `clients.matchAll`/`focus`/`navigate`/`openWindow` are outcomes given as inputs, or effects in a log.
  - `Date.now` and `Math.random` are inputs.
- **`trackEvent`'s request.** The request `trackEvent` sends is not modelled, because its failure is caught and logged, so it affects no state. The model has no error outcome for it.
- **Scroll percentage.** The percentage is computed with floating point and `Math.round`, so it is taken as an integer input.
- **Other hooks.**
  - `usePageTracking` and `useFormTracking` are not modelled. They only call `trackEvent` with fixed action types.
  - `useFormTracking` also computes a floating-point `completion_percentage` that can divide by zero.
  - `AnalyticsHooks.TrackEvent` covers the record any of them would post.
- **Worker lifecycle.** `install`, `activate` (`skipWaiting`, `clients.claim`), `notificationclose` and `waitUntil` only manage the worker's lifetime and are not modelled.
- **Concurrency.** React state updates are applied immediately and in order. Overlapping `subscribe` calls are not modelled.
- **Rendering.** Rendering is left out: the theme icons, and the pages and components that only display data.
- **Hashing script.** The password-hashing script is not modelled, because it is package installation plus foreign crypto.

## Findings

| source | as written | input that shows it | evidently intended | confidence | as-written member | corrected member |
|---|---|---|---|---|---|---|
| backend/push-notifications/index.py:171-180 | `created_at >= NOW() - INTERVAL %s DAY` with `(days,)`. psycopg2 binds the integer as a bare numeral, giving `INTERVAL 7 DAY`, which PostgreSQL's grammar refuses. The `except` then answers 500. | `GET` with no query parameters (`days` = 7) | `INTERVAL '7 days'`, a quoted literal as in the analytics function, so the statistics answer 200 | medium; not executed | `PushHandler.StatsAction` (`PushHandler.IntervalClauses`, `PushHandler.StatisticsUnreachable`) | `PushHandler.StatsActionIntended` |

`PushHandler.Handler` follows the code as written and uses `PushHandler.StatsAction`. `PushHandler.StatsActionIntended` stands beside it with the intended property proved.

/** The client-side analytics hooks (`src/hooks/useAnalytics.ts`): the per-tab session id, the
    event record `trackEvent` posts, the click details `trackClick` builds, and the scroll
    tracker's checkpoint state. Storage, the clock and `Math.random` are inputs; `fetch` is not
    modelled beyond the fact that a failure is swallowed, so no operation here has an error
    outcome. */
module AnalyticsHooks {

  import opened Wrappers
  import opened Json
  import opened Text

  /** `getSessionId` against the value `sessionStorage` holds: a stored non-empty id is
      returned as is; otherwise `session_<now>_<suffix>` is created and stored. `suffix` stands
      for the random base-36 characters. The id and the storage afterwards are returned. */
  function GetSessionId(stored: Option<string>, now: nat, suffix: string): (r: (string, Option<string>))
    ensures r.0 != ""
    ensures r.1 == Some(r.0)
    ensures stored.Some? && stored.value != "" ==> r.0 == stored.value
    ensures stored.None? || stored.value == "" ==> r.0 == "session_" + Decimal(now) + "_" + suffix
  {
    if stored.Some? && stored.value != "" then (stored.value, stored)
    else
      var id := "session_" + Decimal(now) + "_" + suffix;
      (id, Some(id))
  }

  /** Once an id has been handed out, every later call returns that same id and leaves the
      storage alone, whatever clock or random input it gets. */
  lemma SessionIdIsStable(stored: Option<string>, now: nat, suffix: string, later: nat, suffix2: string)
    ensures var (id, storage) := GetSessionId(stored, now, suffix);
      GetSessionId(storage, later, suffix2) == (id, storage)
  {
  }

  /** What the page provides to every event. */
  datatype Page = Page(href: string, referrer: string)

  /** The record `trackEvent` posts: the session id, the page URL and the referrer, then the
      caller's fields spread over them. */
  function EventRecord(sessionId: string, page: Page, event: map<string, Json>): (r: map<string, Json>)
    ensures r.Keys == event.Keys + {"session_id", "page_url", "referrer"}
    ensures forall k :: k in event ==> r[k] == event[k]
    ensures "session_id" !in event ==> r["session_id"] == JString(sessionId)
    ensures "page_url" !in event ==> r["page_url"] == JString(page.href)
    ensures "referrer" !in event ==> r["referrer"] == JString(page.referrer)
  {
    map["session_id" := JString(sessionId), "page_url" := JString(page.href), "referrer" := JString(page.referrer)]
      + event
  }

  /** `trackEvent`: reads (and maybe creates) the session id, then builds the record. The
      result is the posted record and the session storage afterwards. */
  function TrackEvent(event: map<string, Json>, page: Page, stored: Option<string>, now: nat, suffix: string)
    : (r: (map<string, Json>, Option<string>))
    ensures r.1.Some? && r.1.value != ""
    ensures "session_id" !in event ==> "session_id" in r.0 && r.0["session_id"] == JString(r.1.value)
    ensures forall k :: k in event ==> k in r.0 && r.0[k] == event[k]
    ensures stored.Some? && stored.value != "" ==> r.1 == stored
  {
    var (id, storage) := GetSessionId(stored, now, suffix);
    (EventRecord(id, page, event), storage)
  }

  /** Two events of one tab carry the same session id, unless the caller supplies one. */
  lemma EventsShareSession(e1: map<string, Json>, e2: map<string, Json>, page: Page, stored: Option<string>,
                           now1: nat, suffix1: string, now2: nat, suffix2: string)
    requires "session_id" !in e1 && "session_id" !in e2
    ensures var (r1, storage) := TrackEvent(e1, page, stored, now1, suffix1);
            var (r2, _) := TrackEvent(e2, page, storage, now2, suffix2);
      r1["session_id"] == r2["session_id"]
  {
  }

  /** The `action_details` of `trackClick`: the element type, the element text when one is
      given, then the additional data spread last, so it overrides both. */
  function ClickDetails(elementType: string, elementText: Option<string>, additional: map<string, Json>)
    : (d: map<string, Json>)
    ensures forall k :: k in additional ==> k in d && d[k] == additional[k]
    ensures "element_type" !in additional ==> "element_type" in d && d["element_type"] == JString(elementType)
    ensures "element_text" !in additional && elementText.Some? ==>
              "element_text" in d && d["element_text"] == JString(elementText.value)
    ensures "element_text" !in additional && elementText.None? ==> "element_text" !in d
    ensures d.Keys <= additional.Keys + {"element_type", "element_text"}
  {
    var base := map["element_type" := JString(elementType)];
    var withText := if elementText.Some? then base["element_text" := JString(elementText.value)] else base;
    withText + additional
  }

  /** `trackClick`: a `click` event with those details. */
  function ClickEvent(elementType: string, elementText: Option<string>, additional: map<string, Json>)
    : map<string, Json>
  {
    map["action_type" := JString("click"), "action_details" := JObject(ClickDetails(elementType, elementText, additional))]
  }

  // Scroll tracking

  const Checkpoints: seq<int> := [25, 50, 75, 100]

  /** The tracker's memory: the largest percentage seen and the checkpoints already reported. */
  datatype ScrollState = ScrollState(maxPercent: int, reached: set<int>)

  const ScrollStart: ScrollState := ScrollState(0, {})

  predicate Ascending(s: seq<int>) {
    forall i, j :: 0 <= i < j < |s| ==> s[i] < s[j]
  }

  predicate Distinct(s: seq<int>) {
    forall i, j :: 0 <= i < j < |s| ==> s[i] != s[j]
  }

  /** The checkpoints of `cps`, in their order, that `p` has reached and that were not reported
      before. */
  function Due(cps: seq<int>, reached: set<int>, p: int): (r: seq<int>)
    ensures forall c :: c in r <==> c in cps && c <= p && c !in reached
  {
    if |cps| == 0 then []
    else
      var last := cps[|cps| - 1];
      var r := Due(cps[..|cps| - 1], reached, p) + (if last <= p && last !in reached then [last] else []);
      assert forall c :: c in cps <==> c in cps[..|cps| - 1] || c == last;
      r
  }

  /** Reports keep the order of the checkpoints. */
  lemma {:induction false} DueAscending(cps: seq<int>, reached: set<int>, p: int)
    requires Ascending(cps)
    ensures Ascending(Due(cps, reached, p))
    decreases |cps|
  {
    if |cps| > 0 {
      var prefix := cps[..|cps| - 1];
      var last := cps[|cps| - 1];
      assert Ascending(prefix);
      DueAscending(prefix, reached, p);
      var d := Due(prefix, reached, p);
      forall x | x in d ensures x < last {
        var k :| 0 <= k < |prefix| && prefix[k] == x;
      }
      var r := Due(cps, reached, p);
      if last <= p && last !in reached {
        assert r == d + [last];
        forall i, j | 0 <= i < j < |r| ensures r[i] < r[j] {
          assert r[i] == d[i] && d[i] in d;
          if j < |d| {
            assert r[j] == d[j];
          }
        }
      } else {
        assert r == d;
      }
    }
  }

  /** One scroll event at percentage `p`: the new state and the checkpoints it reports. */
  function Scroll(st: ScrollState, p: int): (r: (ScrollState, seq<int>))
    ensures r.0.maxPercent >= st.maxPercent && r.0.maxPercent >= p
    ensures r.0.maxPercent == st.maxPercent || r.0.maxPercent == p
    ensures r.1 == Due(Checkpoints, st.reached, p)
    ensures r.0.reached == st.reached + set c | c in r.1
  {
    var reported := Due(Checkpoints, st.reached, p);
    (ScrollState(if p > st.maxPercent then p else st.maxPercent, st.reached + set c | c in reported), reported)
  }

  /** `handleScroll`, as the hook runs it: the maximum is raised, then the checkpoints are
      walked in order and each one reached and not yet reported is reported and remembered. */
  method HandleScroll(st: ScrollState, p: int) returns (next: ScrollState, reported: seq<int>)
    ensures (next, reported) == Scroll(st, p)
    ensures forall c :: c in reported <==> c in Checkpoints && c <= p && c !in st.reached
    ensures Ascending(reported)
    ensures next.maxPercent >= st.maxPercent && next.maxPercent >= p
  {
    var maxPercent := st.maxPercent;
    if p > maxPercent {
      maxPercent := p;
    }
    var reached;
    reached, reported := ReportDue(Checkpoints, st.reached, p);
    assert reached == st.reached + set c | c in reported;
    next := ScrollState(maxPercent, reached);
    DueAscending(Checkpoints, st.reached, p);
  }

  /** The `forEach` over the checkpoints: each one at or below `p` and not yet in the set is
      added to the set and reported. */
  method ReportDue(cps: seq<int>, before: set<int>, p: int) returns (reached: set<int>, reported: seq<int>)
    requires Distinct(cps)
    ensures reported == Due(cps, before, p)
    ensures forall c :: c in reached <==> c in before || c in reported
  {
    reached := before;
    reported := [];
    var i := 0;
    while i < |cps|
      invariant 0 <= i <= |cps|
      invariant reported == Due(cps[..i], before, p)
      invariant forall c :: c in reached <==> c in before || c in reported
    {
      var c := cps[i];
      assert cps[..i + 1][..i] == cps[..i];
      assert forall k :: 0 <= k < i ==> cps[..i][k] != c;
      assert c !in cps[..i];
      if p >= c && c !in reached {
        reached := reached + {c};
        reported := reported + [c];
      }
      i := i + 1;
    }
    assert cps[..i] == cps;
  }

  /** A sequence of scroll events: the final state and every report, in order. */
  function Run(st: ScrollState, ps: seq<int>): (ScrollState, seq<int>)
    decreases |ps|
  {
    if |ps| == 0 then (st, [])
    else
      var (st1, r1) := Scroll(st, ps[0]);
      var (st2, r2) := Run(st1, ps[1..]);
      (st2, r1 + r2)
  }

  /** Over any run, each checkpoint is reported at most once, never one reported before, and the
      reported set is exactly what the tracker remembers in addition. */
  lemma {:induction false} RunReportsOnce(st: ScrollState, ps: seq<int>)
    ensures var (st', reports) := Run(st, ps);
      && Distinct(reports)
      && (forall c :: c in reports ==> c !in st.reached && c in Checkpoints)
      && st'.reached == st.reached + set c | c in reports
    decreases |ps|
  {
    if |ps| > 0 {
      var (st1, r1) := Scroll(st, ps[0]);
      var (st2, r2) := Run(st1, ps[1..]);
      RunReportsOnce(st1, ps[1..]);
      DueAscending(Checkpoints, st.reached, ps[0]);
      assert Run(st, ps) == (st2, r1 + r2);
      var reports := r1 + r2;
      forall i, j | 0 <= i < j < |reports| ensures reports[i] != reports[j] {
        if j < |r1| {
          assert reports[i] == r1[i] && reports[j] == r1[j];
        } else if i >= |r1| {
          assert reports[i] == r2[i - |r1|] && reports[j] == r2[j - |r1|];
        } else {
          assert reports[i] == r1[i] && reports[j] == r2[j - |r1|];
          assert r1[i] in r1 && r2[j - |r1|] in r2;
          assert reports[i] in st1.reached && reports[j] !in st1.reached;
        }
      }
      forall c | c in reports ensures c !in st.reached && c in Checkpoints {
        if c in r1 {
        } else {
          assert c in r2;
        }
      }
    }
  }

  /** The largest of `m` and the percentages. */
  function MaxOf(m: int, ps: seq<int>): int
    decreases |ps|
  {
    if |ps| == 0 then m else MaxOf(if ps[0] > m then ps[0] else m, ps[1..])
  }

  /** The tracked maximum never goes down, and after a run it is the largest percentage seen
      (or the starting maximum). */
  lemma {:induction false} RunTracksMaximum(st: ScrollState, ps: seq<int>)
    ensures Run(st, ps).0.maxPercent == MaxOf(st.maxPercent, ps)
    ensures Run(st, ps).0.maxPercent >= st.maxPercent
    ensures forall i :: 0 <= i < |ps| ==> Run(st, ps).0.maxPercent >= ps[i]
    decreases |ps|
  {
    if |ps| > 0 {
      var (st1, r1) := Scroll(st, ps[0]);
      RunTracksMaximum(st1, ps[1..]);
      forall i | 0 < i < |ps| ensures Run(st, ps).0.maxPercent >= ps[i] {
        assert ps[i] == ps[1..][i - 1];
      }
    }
  }

  /** `handleBeforeUnload` of the scroll tracker: a summary with the maximum, only when it is
      positive. */
  function UnloadSummary(st: ScrollState): Option<int> {
    if st.maxPercent > 0 then Some(st.maxPercent) else None
  }

  /** From a fresh tracker, a summary is sent on unload exactly when some scroll event was at a
      positive percentage. */
  lemma SummaryIffScrolled(ps: seq<int>)
    ensures UnloadSummary(Run(ScrollStart, ps).0).Some? <==> exists i :: 0 <= i < |ps| && ps[i] > 0
  {
    RunTracksMaximum(ScrollStart, ps);
    MaxOfBound(0, ps);
  }

  lemma {:induction false} MaxOfBound(m: int, ps: seq<int>)
    ensures MaxOf(m, ps) == m || exists i :: 0 <= i < |ps| && MaxOf(m, ps) == ps[i]
    decreases |ps|
  {
    if |ps| > 0 {
      var m' := if ps[0] > m then ps[0] else m;
      MaxOfBound(m', ps[1..]);
      if MaxOf(m', ps[1..]) != m' {
        var i :| 0 <= i < |ps[1..]| && MaxOf(m', ps[1..]) == ps[1..][i];
        assert MaxOf(m, ps) == ps[i + 1];
      } else if m' != m {
        assert MaxOf(m, ps) == ps[0];
      }
    }
  }
}

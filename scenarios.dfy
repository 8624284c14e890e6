/** The configurations of the route file and the cases of the unit tests,
    replayed against the specification of one request. The tests stub the
    store's replies; here the store holds a log that produces those replies. */
module RateLimitScenarios {
  import opened RateLimitTypes
  import opened Redis
  import opened RateLimiter
  import RateLimitProperties

  const IP: string := "127.0.0.1"
  const NOW: int := 1000000
  const WINDOW: int := 60000

  const EmptyResponse: Response := Response(map[], None, None)

  function Flat(limit: int, override: Option<OverrideLimit>): RateLimitOptions
  {
    RateLimitOptions(WINDOW, Number(limit), None, None, override)
  }

  /** The authenticated route allows 10 requests to a signed-in user and 5 to
      anyone else; the unauthenticated route allows 5 to both. */
  lemma RouteLimits()
    ensures GetRequestLimit(Requests(RequestLimit(Some(10), 5)), true) == 10
    ensures GetRequestLimit(Requests(RequestLimit(Some(10), 5)), false) == 5
    ensures GetRequestLimit(Number(5), true) == GetRequestLimit(Number(5), false) == 5
  {
  }

  /** A sign-in only raises the limit when an authenticated maximum is configured. */
  lemma MissingAuthenticatedMaximum()
    ensures GetRequestLimit(Requests(RequestLimit(None, 5)), true) == 5
    ensures GetRequestLimit(Requests(RequestLimit(Some(0), 5)), true) == 5
  {
  }

  /** Two entries still in the window plus this request: three of five used,
      two remain, the request goes through. */
  lemma WithinLimit()
    ensures var state := StoreState(map[DefaultKey(IP) := {990000, 995000}], map[]);
            var d := Decide(Flat(5, None), Request(IP, None, false), state, {}, NOW, NOW, EmptyResponse);
            d.outcome == Next && d.response.status.None? &&
            d.response.headers == map[LIMIT_HEADER := 5, REMAINING_HEADER := 2, RESET_HEADER := NOW + WINDOW]
  {
    var log: set<int> := {990000, 995000};
    var purged := set t | t in log + {NOW} && !(0 <= t <= NOW - WINDOW);
    assert purged == {990000, 995000, NOW};
  }

  /** Five entries in the window plus this request exceed a limit of five: the
      reset time is the oldest entry's plus the window, and the client is
      told to retry in 21 seconds. An entry older than the window is purged. */
  lemma ExceedsLimit()
    ensures var state := StoreState(map[DefaultKey(IP) := {900000, 960945, 970000, 980000, 990000, 995000}], map[]);
            var d := Decide(Flat(5, None), Request(IP, None, false), state, {}, NOW, NOW, EmptyResponse);
            d.outcome == Rejected && d.response.status == Some(429) &&
            d.response.body == Some(RejectBody(RATE_LIMIT_MESSAGE, 21)) &&
            d.response.headers == map[LIMIT_HEADER := 5, REMAINING_HEADER := 0, RESET_HEADER := 1020945] &&
            d.state.sortedSets[DefaultKey(IP)] == {960945, 970000, 980000, 990000, 995000, NOW}
  {
    var log: set<int> := {900000, 960945, 970000, 980000, 990000, 995000};
    var purged := set t | t in log + {NOW} && !(0 <= t <= NOW - WINDOW);
    assert purged == {960945, 970000, 980000, 990000, 995000, NOW};
    assert IsLowest(960945, purged);
  }

  /** A stored override of 4 replaces the base limit of 5: three used, one remains. */
  lemma OverrideSucceeds()
    ensures var state := StoreState(map[DefaultKey(IP) := {990000, 995000}], map[OverrideKey(IP) := 4]);
            var options := Flat(5, Some(OverrideLimit(4, ["special"], WINDOW)));
            var d := Decide(options, Request(IP, Some("special"), false), state, {}, NOW, NOW, EmptyResponse);
            d.outcome == Next && d.response.headers[REMAINING_HEADER] == 1 && d.state.strings == state.strings
  {
    var log: set<int> := {990000, 995000};
    var purged := set t | t in log + {NOW} && !(0 <= t <= NOW - WINDOW);
    assert purged == {990000, 995000, NOW};
  }

  /** A stored override of 3 with three requests in the window: none remain, rejected. */
  lemma OverrideExhausted()
    ensures var state := StoreState(map[DefaultKey(IP) := {990000, 995000}], map[OverrideKey(IP) := 3]);
            var options := Flat(5, Some(OverrideLimit(3, ["special"], WINDOW)));
            var d := Decide(options, Request(IP, Some("special"), false), state, {}, NOW, NOW, EmptyResponse);
            d.outcome == Rejected && d.response.headers[REMAINING_HEADER] == 0 &&
            d.response.status == Some(429) && d.response.body.value.error == RATE_LIMIT_MESSAGE
  {
    var log: set<int> := {990000, 995000};
    var purged := set t | t in log + {NOW} && !(0 <= t <= NOW - WINDOW);
    assert purged == {990000, 995000, NOW};
  }

  /** The triggering event writes the override record and the request is
      counted against the override's limit. */
  lemma EventWritesOverride()
    ensures var state := StoreState(map[], map[]);
            var options := Flat(5, Some(OverrideLimit(10, ["override"], WINDOW)));
            var d := Decide(options, Request(IP, Some("override"), false), state, {}, NOW, NOW, EmptyResponse);
            d.outcome == Next && d.state.strings == map[OverrideKey(IP) := 10] &&
            d.response.headers[LIMIT_HEADER] == 10 && d.response.headers[REMAINING_HEADER] == 9
  {
    var purged := set t | t in {} + {NOW} && !(0 <= t <= NOW - WINDOW);
    assert purged == {NOW};
  }

  /** A store that cannot read the override record lets the request through
      without any rate-limit header, and counts nothing. */
  lemma StoreErrorFailsOpen()
    ensures var state := StoreState(map[], map[]);
            var options := Flat(5, Some(OverrideLimit(4, ["special"], WINDOW)));
            var d := Decide(options, Request(IP, None, false), state, {GET}, NOW, NOW, EmptyResponse);
            d.outcome == Next && d.response == EmptyResponse && d.state == state
  {
  }

  /** The retry delay is not floored: a reply sent after the reset time
      carries a negative delay. */
  lemma RetryAfterNotFloored()
    ensures RetryAfter(-1500) == -1
    ensures RetryAfter(1) == 1 && RetryAfter(1000) == 1 && RetryAfter(0) == 0
  {
  }

  /** Three requests a millisecond apart against a limit of two, through the
      middleware itself: only the first goes through, the second (the
      limit-th) is already rejected, and rejected requests stay in the log. */
  method ThreeRequests() returns (outcomes: seq<Outcome>, log: set<int>)
    ensures outcomes == [Next, Rejected, Rejected]
    ensures log == {NOW, NOW + 1, NOW + 2}
  {
    var store := new Client(map[], map[], {});
    var options := Flat(2, None);
    var req := Request(IP, None, false);
    var key := DefaultKey(IP);
    var first := Request1(store, options, req, NOW, {}, 1);
    var second := Request1(store, options, req, NOW + 1, {NOW}, 2);
    var third := Request1(store, options, req, NOW + 2, {NOW, NOW + 1}, 3);
    outcomes := [first, second, third];
    log := Members(store.sortedSets, key);
  }

  /** One request at time `t` against a log `before` of timestamps all inside
      the window; `count` is the size of the log once `t` is added. */
  method Request1(store: Client, options: RateLimitOptions, req: Request, t: int, before: set<int>, count: nat)
    returns (outcome: Outcome)
    requires options == Flat(2, None) && req == Request(IP, None, false) && store.failing == {}
    requires Members(store.sortedSets, DefaultKey(IP)) == before
    requires t >= WINDOW && forall u :: u in before ==> t - WINDOW < u < t
    requires |before + {t}| == count
    modifies store
    ensures store.failing == {} && Members(store.sortedSets, DefaultKey(IP)) == before + {t}
    ensures outcome == if count >= 2 then Rejected else Next
  {
    ghost var st := store.State();
    RateLimitProperties.AdmissionWindow(options, req, st, t, t, EmptyResponse);
    assert OverrideStep(options.override, req, st.strings, {}).result == Ok(None);
    assert EffectiveLimit(None, GetRequestLimit(options.limit, req.hasUser)) == 2;
    assert (set u | u in before && u > t - WINDOW) + {t} == before + {t};
    var response;
    outcome, response := RateLimit(options, req, EmptyResponse, store, t, t);
  }
}

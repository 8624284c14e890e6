/** Properties of the rate limiter's specification functions: what the
    override record guarantees, how the sliding log evolves, and when a
    request is admitted, rejected or let through on a store failure. */
module RateLimitProperties {
  import opened RateLimitTypes
  import opened Redis
  import opened RateLimiter

  /* ---------------- keys ---------------- */

  /** Default counter keys and override keys live in different namespaces. */
  lemma NamespacesDisjoint(ip: string, other: string)
    ensures DefaultKey(ip) != OverrideKey(other)
  {
    assert DefaultKey(ip)[0] == 'r';
    assert OverrideKey(other)[0] == 'o';
  }

  /* ---------------- override record ---------------- */

  /** Without an override option nothing is read or written. */
  lemma NoOverrideConfigured(req: Request, strings: map<string, int>, failing: set<Command>)
    ensures OverrideStep(None, req, strings, failing) == OverrideCheck(Ok(None), strings)
  {
  }

  /** A stored record decides the override whatever the request's event,
      and nothing is written. */
  lemma StoredOverrideAuthoritative(override: OverrideLimit, req: Request, event: Option<string>,
                                    strings: map<string, int>, failing: set<Command>)
    requires GET !in failing && OverrideKey(req.ip) in strings
    ensures OverrideStep(Some(override), req.(event := event), strings, failing)
            == OverrideCheck(Ok(Some(strings[OverrideKey(req.ip)])), strings)
  {
  }

  /** Without a stored record, the record is written (with the override's
      limit, which is returned) exactly when the event triggers it; otherwise
      no override results and nothing is written. */
  lemma OverrideRecordedIffTriggered(override: OverrideLimit, req: Request, strings: map<string, int>,
                                     failing: set<Command>)
    requires GET !in failing && SET !in failing && OverrideKey(req.ip) !in strings
    ensures var c := OverrideStep(Some(override), req, strings, failing);
            (c.strings == strings[OverrideKey(req.ip) := override.limit] <==> Triggers(req.event, override.event)) &&
            (Triggers(req.event, override.event) ==> c.result == Ok(Some(override.limit))) &&
            (!Triggers(req.event, override.event) ==> c.result == Ok(None) && c.strings == strings)
  {
    var key := OverrideKey(req.ip);
    if !Triggers(req.event, override.event) {
      assert key in strings[key := override.limit];
    }
  }

  /** Once a check yields an override for an address, every later check for
      that address yields the same value and writes nothing, whatever event it
      carries and whatever limit and events its override option configures; a
      later check without an override option ignores the record. */
  lemma OverrideRecordImmutable(override: OverrideLimit, req: Request, later: OverrideLimit, next: Request,
                                strings: map<string, int>, failing: set<Command>)
    requires next.ip == req.ip && GET !in failing
    requires OverrideStep(Some(override), req, strings, failing).result.Ok?
    requires OverrideStep(Some(override), req, strings, failing).result.value.Some?
    ensures var c := OverrideStep(Some(override), req, strings, failing);
            OverrideStep(Some(later), next, c.strings, failing) == OverrideCheck(c.result, c.strings) &&
            OverrideStep(None, next, c.strings, failing) == OverrideCheck(Ok(None), c.strings)
  {
  }

  /** Checking for an override touches no key but the address's record, and
      only adds that record when it is absent. */
  lemma OverrideFrame(override: Option<OverrideLimit>, req: Request, strings: map<string, int>,
                      failing: set<Command>)
    ensures var c := OverrideStep(override, req, strings, failing);
            strings.Keys <= c.strings.Keys <= strings.Keys + {OverrideKey(req.ip)} &&
            forall k :: k in strings ==> c.strings[k] == strings[k]
  {
  }

  /** A failing read of the record fails the check and writes nothing. */
  lemma OverrideReadFailure(override: OverrideLimit, req: Request, strings: map<string, int>,
                            failing: set<Command>)
    requires GET in failing
    ensures OverrideStep(Some(override), req, strings, failing) == OverrideCheck(Failure, strings)
  {
  }

  /* ---------------- sliding log ---------------- */

  /** Every timestamp in the log is a non-negative millisecond reading. */
  ghost predicate Timestamps(log: set<int>)
  {
    forall t :: t in log ==> t >= 0
  }

  /** The counter's commands all succeed. */
  predicate CounterUp(failing: set<Command>)
  {
    ZADD !in failing && ZREMRANGEBYSCORE !in failing && ZCARD !in failing && EXPIRE !in failing &&
    ZRANGE !in failing
  }

  /** After a step the key's log is the old entries younger than the window
      start plus `now`; every other key keeps its log. */
  lemma SlidingLogWindow(sets: map<string, set<int>>, key: string, limit: int, windowMs: int,
                         now: int, failing: set<Command>)
    requires ZADD !in failing && ZREMRANGEBYSCORE !in failing
    requires windowMs > 0 && Timestamps(Members(sets, key))
    ensures var c := SlidingLogStep(sets, key, limit, windowMs, now, failing);
            Members(c.sortedSets, key) == (set t | t in Members(sets, key) && t > now - windowMs) + {now} &&
            forall k :: k != key ==> Members(c.sortedSets, k) == Members(sets, k)
  {
    var c := SlidingLogStep(sets, key, limit, windowMs, now, failing);
    var added := Added(sets, key, now);
    assert c.sortedSets == Removed(added, key, 0, now - windowMs);
    var expected := (set t | t in Members(sets, key) && t > now - windowMs) + {now};
    forall t | t in Members(c.sortedSets, key)
      ensures t in expected
    {
      assert t in Members(added, key);
    }
    forall t | t in expected
      ensures t in Members(c.sortedSets, key)
    {
      assert t in Members(added, key);
    }
  }

  /** The info a successful step reports: the limit as given, the size of the
      new log as the count (at least one: this request), the remaining
      allowance, and a reset time no later than a full window from now and,
      when above the limit, that of the oldest entry still counted. */
  lemma SlidingLogInfo(sets: map<string, set<int>>, key: string, limit: int, windowMs: int,
                       now: int, failing: set<Command>)
    requires CounterUp(failing)
    requires windowMs > 0 && Timestamps(Members(sets, key))
    ensures var c := SlidingLogStep(sets, key, limit, windowMs, now, failing);
            var log := Members(c.sortedSets, key);
            c.info.Ok? &&
            c.info.value.limit == limit &&
            c.info.value.current == |log| >= 1 &&
            c.info.value.remaining == Remaining(limit, |log|) &&
            now < c.info.value.resetTime <= now + windowMs &&
            (c.info.value.current > limit ==> c.info.value.resetTime == Lowest(log) + windowMs) &&
            (c.info.value.current <= limit ==> c.info.value.resetTime == now + windowMs)
  {
    var c := SlidingLogStep(sets, key, limit, windowMs, now, failing);
    SlidingLogWindow(sets, key, limit, windowMs, now, failing);
    var log := Members(c.sortedSets, key);
    assert now in log;
    if |log| > limit {
      var m := Lowest(log);
      assert m <= now;
      if m != now {
        assert m in Members(sets, key) && m > now - windowMs;
      }
    }
  }

  /** Purging the same score range twice is purging it once. */
  lemma PurgeIdempotent(sets: map<string, set<int>>, key: string, min: int, max: int)
    ensures Removed(Removed(sets, key, min, max), key, min, max) == Removed(sets, key, min, max)
  {
    var once := Removed(sets, key, min, max);
    if key in sets {
      assert once[key] == set t | t in once[key] && !(min <= t <= max);
    }
  }

  /** A second request in the same millisecond adds no entry: the log and
      the reported info are those of the first. */
  lemma SameMillisecondCollapses(sets: map<string, set<int>>, key: string, limit: int,
                                 windowMs: int, now: int, failing: set<Command>)
    requires ZADD !in failing && ZREMRANGEBYSCORE !in failing
    requires windowMs > 0
    ensures var first := SlidingLogStep(sets, key, limit, windowMs, now, failing);
            var second := SlidingLogStep(first.sortedSets, key, limit, windowMs, now, failing);
            second == first
  {
    var first := SlidingLogStep(sets, key, limit, windowMs, now, failing);
    var purged := first.sortedSets;
    assert purged == Removed(Added(sets, key, now), key, 0, now - windowMs);
    assert key in purged && now in purged[key];
    assert Members(purged, key) + {now} == purged[key];
    assert Added(purged, key, now) == purged;
    PurgeIdempotent(Added(sets, key, now), key, 0, now - windowMs);
  }

  /* ---------------- decision ---------------- */

  /** A failure in the override check or the counter lets the request
      through with the response untouched; a failing command that every such
      request issues is one such failure. */
  lemma FailOpen(options: RateLimitOptions, req: Request, state: StoreState, failing: set<Command>,
                 now: int, later: int, res: Response)
    ensures var d := Decide(options, req, state, failing, now, later, res);
            d.info.Failure? ==> d.outcome == Next && d.response == res
    ensures var d := Decide(options, req, state, failing, now, later, res);
            var issuedFails := (options.override.Some? && GET in failing) || ZADD in failing ||
                               ZREMRANGEBYSCORE in failing || ZCARD in failing || EXPIRE in failing;
            issuedFails ==> d.info.Failure?
  {
  }

  /** With the counter's info in hand, the headers are set on both paths and
      the request is rejected exactly when the count has reached the limit,
      with status 429, the configured message and the retry delay. */
  lemma DecisionFollowsCount(options: RateLimitOptions, req: Request, state: StoreState, failing: set<Command>,
                             now: int, later: int, res: Response)
    ensures var d := Decide(options, req, state, failing, now, later, res);
            d.outcome == Rejected ==> d.info.Ok? && d.info.value.remaining == 0
    ensures var d := Decide(options, req, state, failing, now, later, res);
            d.info.Ok? ==>
              var info := d.info.value;
              var message := if options.message.Some? then options.message.value else RATE_LIMIT_MESSAGE;
              d.response.headers == WithHeaders(res, info).headers &&
              (d.outcome == Rejected <==> info.current >= info.limit) &&
              (d.outcome == Next ==> d.response == WithHeaders(res, info)) &&
              (d.outcome == Rejected ==>
                 d.response.status == Some(RATE_LIMIT_STATUS) &&
                 d.response.body == Some(RejectBody(message, RetryAfter(info.resetTime - later))))
  {
  }

  /** When no command fails, the request is rejected exactly when the
      timestamps in (now - windowMs, now], this request's included, number at
      least the effective limit; the `limit`-th request of a window is the
      first one rejected. */
  lemma AdmissionWindow(options: RateLimitOptions, req: Request, state: StoreState,
                        now: int, later: int, res: Response)
    requires options.windowMs > 0
    requires Timestamps(Members(state.sortedSets, CounterKey(options, req)))
    ensures var o := OverrideStep(options.override, req, state.strings, {});
            var limit := EffectiveLimit(o.result.value, GetRequestLimit(options.limit, req.hasUser));
            var log := Members(state.sortedSets, CounterKey(options, req));
            var inWindow := (set t | t in log && t > now - options.windowMs) + {now};
            var d := Decide(options, req, state, {}, now, later, res);
            o.result.Ok? && d.info.Ok? && d.info.value.current == |inWindow| &&
            Members(d.state.sortedSets, CounterKey(options, req)) == inWindow &&
            (d.outcome == Rejected <==> |inWindow| >= limit)
  {
    var o := OverrideStep(options.override, req, state.strings, {});
    var limit := EffectiveLimit(o.result.value, GetRequestLimit(options.limit, req.hasUser));
    var key := CounterKey(options, req);
    SlidingLogWindow(state.sortedSets, key, limit, options.windowMs, now, {});
  }

  /** `Math.ceil(x / 1000)` never decreases as its argument grows. */
  lemma RetryAfterMonotone(a: int, b: int)
    requires a <= b
    ensures RetryAfter(a) <= RetryAfter(b)
  {
  }

  /** A rejection answered at a second clock reading `later` no earlier than
      the counter's `now` asks for at most the whole window, rounded up to
      seconds, and for at least one second while the reset time is still
      ahead of that reading. */
  lemma RetryAfterBounds(options: RateLimitOptions, req: Request, state: StoreState,
                         now: int, later: int, res: Response)
    requires options.windowMs > 0 && now <= later
    requires Timestamps(Members(state.sortedSets, CounterKey(options, req)))
    ensures var d := Decide(options, req, state, {}, now, later, res);
            d.outcome == Rejected ==>
              d.info.Ok? &&
              (later < d.info.value.resetTime ==> d.response.body.value.retryAfter >= 1) &&
              d.response.body.value.retryAfter <= RetryAfter(options.windowMs)
  {
    var o := OverrideStep(options.override, req, state.strings, {});
    var limit := EffectiveLimit(o.result.value, GetRequestLimit(options.limit, req.hasUser));
    var key := CounterKey(options, req);
    SlidingLogInfo(state.sortedSets, key, limit, options.windowMs, now, {});
    var c := SlidingLogStep(state.sortedSets, key, limit, options.windowMs, now, {});
    RetryAfterMonotone(c.info.value.resetTime - later, options.windowMs);
  }
}

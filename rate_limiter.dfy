/** The rate-limiting middleware: limit resolution, the override record, the
    sliding-log counter and the per-request decision. Each imperative
    operation is a method over the Redis client, proved equal to a function
    of the store's previous data; the clock is read by the caller and passed
    in as `now` (the counter's reading) and `later` (the reading used for
    the retry delay of a rejection). */
module RateLimiter {
  import opened RateLimitTypes
  import opened Redis

  /* ---------------- keys ---------------- */

  /** Default rate-limit key: `ratelimit:ip:<address>`. */
  function DefaultKey(ip: string): string
  {
    RATE_LIMIT_PREFIX + ":ip:" + ip
  }

  /** Key of the override record: `override:<address>`. */
  function OverrideKey(ip: string): string
  {
    OVERRIDE_PREFIX + ":" + ip
  }

  /** The configured key when there is one, the default key otherwise. */
  function CounterKey(options: RateLimitOptions, req: Request): (k: string)
    ensures options.key.None? ==> k == DefaultKey(req.ip)
    ensures options.key.Some? ==> k == options.key.value
  {
    if options.key.Some? then options.key.value else DefaultKey(req.ip)
  }

  /* ---------------- limit resolution ---------------- */

  /** The base limit: a flat number as it is; for a pair, the authenticated
      maximum when a user is attached and that maximum is nonzero (absent
      counts as zero), the unauthenticated maximum otherwise. */
  function GetRequestLimit(limit: Limit, hasUser: bool): (r: int)
    ensures limit.Number? ==> r == limit.n
    ensures limit.Requests? && !hasUser ==> r == limit.pair.maxRequests
    ensures limit.Requests? && limit.pair.authenticatedMaxRequests in {None, Some(0)} ==> r == limit.pair.maxRequests
    ensures limit.Requests? && hasUser && limit.pair.authenticatedMaxRequests !in {None, Some(0)}
            ==> r == limit.pair.authenticatedMaxRequests.value
  {
    match limit
    case Number(n) => n
    case Requests(pair) =>
      var authenticated := if pair.authenticatedMaxRequests.Some? then pair.authenticatedMaxRequests.value else 0;
      if hasUser && authenticated != 0 then authenticated else pair.maxRequests
  }

  /** `override || base`: an override of 0 (falsy) or none falls back to the base limit. */
  function EffectiveLimit(override: Option<int>, base: int): (r: int)
    ensures override.Some? && override.value != 0 ==> r == override.value
    ensures override.None? || override.value == 0 ==> r == base
  {
    if override.Some? && override.value != 0 then override.value else base
  }

  /* ---------------- override record ---------------- */

  /** The request's event is truthy (non-empty) and listed in the override's events. */
  predicate Triggers(event: Option<string>, events: seq<string>)
  {
    event.Some? && event.value != "" && event.value in events
  }

  datatype OverrideCheck = OverrideCheck(result: Result<Option<int>>, strings: map<string, int>)

  /** What checking for an override returns and leaves in the string keys. */
  function OverrideStep(override: Option<OverrideLimit>, req: Request, strings: map<string, int>,
                        failing: set<Command>): OverrideCheck
  {
    if override.None? then OverrideCheck(Ok(None), strings)
    else if GET in failing then OverrideCheck(Failure, strings)
    else
      var key := OverrideKey(req.ip);
      if key in strings then OverrideCheck(Ok(Some(strings[key])), strings)
      else if !Triggers(req.event, override.value.event) then OverrideCheck(Ok(None), strings)
      else if SET in failing then OverrideCheck(Failure, strings)
      else OverrideCheck(Ok(Some(override.value.limit)), strings[key := override.value.limit])
  }

  method CheckForOverride(req: Request, options: RateLimitOptions, store: Client) returns (r: Result<Option<int>>)
    modifies store
    ensures var c := OverrideStep(options.override, req, old(store.strings), old(store.failing));
            r == c.result && store.strings == c.strings
    ensures store.sortedSets == old(store.sortedSets) && store.failing == old(store.failing)
  {
    if options.override.None? {
      return Ok(None);
    }
    var override := options.override.value;
    var key := OverrideKey(req.ip);
    var validOverride := store.Get(key);
    if validOverride.Failure? {
      return Failure;
    }
    if validOverride.value.Some? {
      return Ok(validOverride.value);
    }
    if Triggers(req.event, override.event) {
      var ok := store.Set(key, override.limit, override.windowMs);
      if !ok {
        return Failure;
      }
      return Ok(Some(override.limit));
    }
    return Ok(None);
  }

  /* ---------------- sliding-log counter ---------------- */

  /** `Math.max(0, limit - count)`. */
  function Remaining(limit: int, count: int): (r: nat)
    ensures r == 0 <==> count >= limit
    ensures r > 0 ==> r == limit - count
  {
    if limit - count > 0 then limit - count else 0
  }

  /** Reset time reported for a log of `count` entries: `now + windowMs`,
      except when the log holds more than `limit` entries, then its lowest
      timestamp plus `windowMs`. */
  ghost function ResetTime(log: set<int>, count: int, limit: int, windowMs: int, now: int): int
  {
    if count > limit && log != {} then Lowest(log) + windowMs else now + windowMs
  }

  datatype CounterStep = CounterStep(info: Result<RateLimitInfo>, sortedSets: map<string, set<int>>)

  /** One counter step at time `now`: add `now`, purge scores in
      [0, now - windowMs], count, refresh the time to live and, above the
      limit, read the lowest score; the first failing command ends the step
      with the effects of the commands before it. */
  ghost function SlidingLogStep(sets: map<string, set<int>>, key: string, limit: int, windowMs: int,
                                now: int, failing: set<Command>): CounterStep
  {
    if ZADD in failing then CounterStep(Failure, sets)
    else
      var added := Added(sets, key, now);
      if ZREMRANGEBYSCORE in failing then CounterStep(Failure, added)
      else
        var purged := Removed(added, key, 0, now - windowMs);
        var log := Members(purged, key);
        if ZCARD in failing || EXPIRE in failing || (|log| > limit && ZRANGE in failing) then
          CounterStep(Failure, purged)
        else
          CounterStep(Ok(RateLimitInfo(limit, |log|, Remaining(limit, |log|),
                                       ResetTime(log, |log|, limit, windowMs, now))), purged)
  }

  method CheckSlidingLogLimit(key: string, limit: int, windowMs: int, now: int, store: Client)
    returns (r: Result<RateLimitInfo>)
    modifies store
    ensures var c := SlidingLogStep(old(store.sortedSets), key, limit, windowMs, now, old(store.failing));
            r == c.info && store.sortedSets == c.sortedSets
    ensures store.strings == old(store.strings) && store.failing == old(store.failing)
  {
    var windowStart := now - windowMs;
    var ok := store.ZAdd(key, now);
    if !ok {
      return Failure;
    }
    ok := store.ZRemRangeByScore(key, 0, windowStart);
    if !ok {
      return Failure;
    }
    var count := store.ZCard(key);
    if count.Failure? {
      return Failure;
    }
    ok := store.Expire(key, windowMs);
    if !ok {
      return Failure;
    }
    var resetTime := now + windowMs;
    if count.value > limit {
      var oldestTimestamps := store.ZRangeFirst(key);
      if oldestTimestamps.Failure? {
        return Failure;
      }
      if |oldestTimestamps.value| > 0 {
        resetTime := windowMs + oldestTimestamps.value[0];
      }
    }
    r := Ok(RateLimitInfo(limit, count.value, Remaining(limit, count.value), resetTime));
  }

  /* ---------------- decision ---------------- */

  /** `Math.ceil(delayMs / 1000)`: the least whole number of seconds covering the delay. */
  function RetryAfter(delayMs: int): (r: int)
    ensures (r - 1) * 1000 < delayMs <= r * 1000
  {
    -((-delayMs) / 1000)
  }

  /** The three rate-limit headers set from the counter's info. */
  function WithHeaders(res: Response, info: RateLimitInfo): (r: Response)
    ensures r.status == res.status && r.body == res.body
    ensures r.headers.Keys == res.headers.Keys + {LIMIT_HEADER, REMAINING_HEADER, RESET_HEADER}
    ensures r.headers[LIMIT_HEADER] == info.limit
    ensures r.headers[REMAINING_HEADER] == info.remaining
    ensures r.headers[RESET_HEADER] == info.resetTime
    ensures forall h :: h in res.headers && h !in {LIMIT_HEADER, REMAINING_HEADER, RESET_HEADER}
                        ==> r.headers[h] == res.headers[h]
  {
    res.(headers := res.headers[LIMIT_HEADER := info.limit][REMAINING_HEADER := info.remaining]
                               [RESET_HEADER := info.resetTime])
  }

  /** Everything one request does: the outcome, the response, the store's
      data afterwards and the counter's info (Failure when the override
      check or the counter failed). */
  datatype Decision = Decision(outcome: Outcome, response: Response, state: StoreState, info: Result<RateLimitInfo>)

  ghost function Decide(options: RateLimitOptions, req: Request, state: StoreState, failing: set<Command>,
                        now: int, later: int, res: Response): Decision
  {
    var o := OverrideStep(options.override, req, state.strings, failing);
    match o.result
    case Failure => Decision(Next, res, StoreState(state.sortedSets, o.strings), Failure)
    case Ok(override) =>
      var limit := EffectiveLimit(override, GetRequestLimit(options.limit, req.hasUser));
      var c := SlidingLogStep(state.sortedSets, CounterKey(options, req), limit, options.windowMs, now, failing);
      var after := StoreState(c.sortedSets, o.strings);
      match c.info
      case Failure => Decision(Next, res, after, Failure)
      case Ok(info) =>
        var withHeaders := WithHeaders(res, info);
        if info.remaining <= 0 then
          var message := if options.message.Some? then options.message.value else RATE_LIMIT_MESSAGE;
          var body := RejectBody(message, RetryAfter(info.resetTime - later));
          Decision(Rejected, withHeaders.(status := Some(RATE_LIMIT_STATUS), body := Some(body)), after, c.info)
        else
          Decision(Next, withHeaders, after, c.info)
  }

  /** The middleware built from `options`, applied to one request. */
  method RateLimit(options: RateLimitOptions, req: Request, res: Response, store: Client, now: int, later: int)
    returns (outcome: Outcome, res': Response)
    modifies store
    ensures var d := Decide(options, req, old(store.State()), old(store.failing), now, later, res);
            outcome == d.outcome && res' == d.response && store.State() == d.state
    ensures store.failing == old(store.failing)
  {
    var message := if options.message.Some? then options.message.value else RATE_LIMIT_MESSAGE;
    var key := CounterKey(options, req);
    var override := CheckForOverride(req, options, store);
    if override.Failure? {
      return Next, res;
    }
    var limit := EffectiveLimit(override.value, GetRequestLimit(options.limit, req.hasUser));
    var rateLimitInfo := CheckSlidingLogLimit(key, limit, options.windowMs, now, store);
    if rateLimitInfo.Failure? {
      return Next, res;
    }
    var info := rateLimitInfo.value;
    res' := WithHeaders(res, info);
    if info.remaining <= 0 {
      res' := res'.(status := Some(RATE_LIMIT_STATUS),
                    body := Some(RejectBody(message, RetryAfter(info.resetTime - later))));
      return Rejected, res';
    }
    outcome := Next;
  }
}

# Sliding-log rate limiter, modelled in Dafny

This project models the Express rate-limiting middleware of
`src/utils/rateLimiter/RateLimit.ts`. For each request, the middleware does four things:

- It resolves a limit: a flat number, or a pair that depends on whether a user is signed in.
- It looks for an override record `override:<ip>`. An event named in the request's `event` query parameter can create that record.
- It records the request in a Redis sorted set, the "sliding log", keyed by `ratelimit:ip:<ip>` unless a key is configured. It purges the entries that fall outside the window and counts the rest.
- It sets the `X-RateLimit-*` headers. It answers 429 once nothing remains, and lets the request through when any Redis command fails ("fail open").

Files:

- `types.dfy` (`RateLimitTypes`): the option, info, request and response types, and the constants.
- `redis.dfy` (`Redis`): the store as a class `Client`. It holds two maps. `sortedSets` maps a key to its set of scores; a member is the decimal text of its own score, so a set of scores is enough. `strings` maps a key to an integer value. A third field, `failing`, lists the commands that raise. A command that raises changes nothing.
- `rate_limiter.dfy` (`RateLimiter`): the operations. `CheckForOverride`, `CheckSlidingLogLimit` and `RateLimit` are methods over the client. Each is proved equal to a specification function of the store's previous data: `OverrideStep`, `SlidingLogStep` and `Decide`. `GetRequestLimit` is a function.
- `properties.dfy` (`RateLimitProperties`): lemmas about those functions.
- `scenarios.dfy` (`RateLimitScenarios`): the unit-test cases and the route configurations, replayed on the model.

The clock is an input. `now` is the reading taken by the counter at `RateLimit.ts:118`. `later` is the second reading taken for `retryAfter` at `RateLimit.ts:35`.

At these points the code's boundaries differ from what its own comments suggest, or are left unsaid by them; the model follows the code:

- The JSDoc at `RateLimit.ts:107` calls `limit` the "Maximum number of requests", and the comment at line 131 says "Limit is inclusive". But the request is rejected once `remaining <= 0` (line 32), that is once `count >= limit`, and `count` includes the request itself. So the `limit`-th request of a window is the first one rejected.
- Line 131 switches the reset time to "oldest entry + window" only when `count > limit`. Line 32 rejects from `count == limit`. So a request rejected at `count == limit` reports `now + windowMs`.
- The purge at line 125 removes the scores in `[0, now - windowMs]`, and both bounds are inclusive. A negative score is never purged.
- Two requests in the same millisecond share one log entry, because the member added at line 122 is `${now}`.
- `retryAfter` at line 35 is `Math.ceil` of the remaining delay, with no clamp. It is negative when the second clock reading is past the reset time.

## Model

| member | source | states |
|---|---|---|
| `Redis.Added` | src/utils/rateLimiter/RateLimit.ts:122 | ZADD gives the key's log the old scores plus the new one (an existing score changes nothing); every other key's log is unchanged |
| `Redis.Removed` | src/utils/rateLimiter/RateLimit.ts:125 | ZREMRANGEBYSCORE keeps exactly the scores outside the inclusive range; the result is a subset of the old log; other keys are unchanged |
| `Redis.LowestExists` | src/utils/rateLimiter/RateLimit.ts:132-135 | every non-empty log has a lowest score (the member ZRANGE 0 0 returns) |
| `Redis.Lowest` | src/utils/rateLimiter/RateLimit.ts:132-135 | the lowest score is in the log, is no greater than any entry and is unique |
| `Redis.Client.Get` | src/utils/rateLimiter/RateLimit.ts:64 | GET fails exactly when the command is failing; otherwise it returns the stored value, or None when the key is absent |
| `Redis.Client.Set` | src/utils/rateLimiter/RateLimit.ts:71-73 | SET stores the value when it succeeds and changes nothing when it fails; the sorted sets are untouched |
| `Redis.Client.ZAdd` | src/utils/rateLimiter/RateLimit.ts:122 | the new sorted sets are `Added(old, key, score)` on success and the old ones on failure; the string keys are untouched |
| `Redis.Client.ZRemRangeByScore` | src/utils/rateLimiter/RateLimit.ts:125 | the new sorted sets are `Removed(old, key, min, max)` on success and the old ones on failure |
| `Redis.Client.ZCard` | src/utils/rateLimiter/RateLimit.ts:126 | ZCARD fails exactly when the command is failing; otherwise it returns the size of the key's log |
| `Redis.Client.Expire` | src/utils/rateLimiter/RateLimit.ts:127 | EXPIRE succeeds exactly when the command is not failing |
| `Redis.Client.ZRangeFirst` | src/utils/rateLimiter/RateLimit.ts:132-135 | ZRANGE key 0 0 returns nothing for an empty log and otherwise exactly one score, the lowest |
| `RateLimiter.CounterKey` | src/utils/rateLimiter/RateLimit.ts:22 | the configured key when one is given, otherwise `ratelimit:ip:<ip>` |
| `RateLimiter.GetRequestLimit` | src/utils/rateLimiter/RateLimit.ts:91-102 | a flat limit is returned unchanged; for a pair, the authenticated maximum when a user is attached and that maximum is present and nonzero, `maxRequests` in every other case |
| `RateLimiter.EffectiveLimit` | src/utils/rateLimiter/RateLimit.ts:24 | a nonzero override wins; no override, or an override of 0, falls back to the base limit |
| `RateLimiter.CheckForOverride` | src/utils/rateLimiter/RateLimit.ts:57-82 | the result and the new string keys are those of `OverrideStep` on the old store; the sorted sets are untouched |
| `RateLimiter.Remaining` | src/utils/rateLimiter/RateLimit.ts:148 | `max(0, limit - count)`: never negative, zero exactly when `count >= limit`, otherwise `limit - count` |
| `RateLimiter.CheckSlidingLogLimit` | src/utils/rateLimiter/RateLimit.ts:112-154 | the returned info and the new sorted sets are those of `SlidingLogStep` on the old sorted sets, including the partial effects of a failure midway; the string keys are untouched |
| `RateLimiter.RetryAfter` | src/utils/rateLimiter/RateLimit.ts:35 | `ceil(delay / 1000)`: the least whole number of seconds whose milliseconds cover the delay, for negative delays too |
| `RateLimiter.WithHeaders` | src/utils/rateLimiter/RateLimit.ts:28-30 | the three headers carry the info's limit, remaining and reset time; every other header, the status and the body are kept |
| `RateLimiter.RateLimit` | src/utils/rateLimiter/RateLimit.ts:19-46 | the outcome (`next()` or 429), the response and the store's new data are those of `Decide` on the old store |
| `RateLimitProperties.NamespacesDisjoint` | src/common/Constant.ts:1-2 | no default counter key equals any override key |
| `RateLimitProperties.NoOverrideConfigured` | src/utils/rateLimiter/RateLimit.ts:59 | without an override option, the check yields no override and leaves the string keys as they were |
| `RateLimitProperties.StoredOverrideAuthoritative` | src/utils/rateLimiter/RateLimit.ts:64-68 | a stored `override:<ip>` value is returned whatever the request's event is, and nothing is written |
| `RateLimitProperties.OverrideRecordedIffTriggered` | src/utils/rateLimiter/RateLimit.ts:70-77 | with no stored record, the record `override:<ip> := limit` is written if and only if the event is non-empty and listed; then the limit is returned; otherwise no override results and nothing changes |
| `RateLimitProperties.OverrideRecordImmutable` | src/utils/rateLimiter/RateLimit.ts:59-75 | once a check yields an override for an address, every later check for that address yields the same value and writes nothing, whatever event it carries and whatever limit and events its override option configures; a later check without an override option ignores the record and yields no override |
| `RateLimitProperties.OverrideFrame` | src/utils/rateLimiter/RateLimit.ts:63-75 | a check keeps every existing string key and its value, and adds at most the address's record |
| `RateLimitProperties.OverrideReadFailure` | src/utils/rateLimiter/RateLimit.ts:78-81 | a failing GET makes the check fail and writes nothing |
| `RateLimitProperties.SlidingLogWindow` | src/utils/rateLimiter/RateLimit.ts:118-125 | after the step, the key's log is `{t in old log \| t > now - windowMs} ∪ {now}`, and every other key's log is unchanged (timestamps non-negative, window positive) |
| `RateLimitProperties.SlidingLogInfo` | src/utils/rateLimiter/RateLimit.ts:126-150 | when no command fails, the info has the given limit, the new log's size as `current` (at least 1) and `remaining = max(0, limit - current)`; `now < resetTime <= now + windowMs`; `resetTime` is the lowest remaining entry plus the window above the limit and `now + windowMs` otherwise |
| `RateLimitProperties.PurgeIdempotent` | src/utils/rateLimiter/RateLimit.ts:125 | purging the same score range twice gives the same store as purging it once |
| `RateLimitProperties.SameMillisecondCollapses` | src/utils/rateLimiter/RateLimit.ts:122 | a second step at the same `now` leaves the log and the reported info exactly as the first step left them |
| `RateLimitProperties.FailOpen` | src/utils/rateLimiter/RateLimit.ts:41-44 | when the override check or the counter fails, the outcome is `next()` and the response is untouched (no headers); a failing GET (with an override option), ZADD, ZREMRANGEBYSCORE, ZCARD or EXPIRE always causes such a failure |
| `RateLimitProperties.DecisionFollowsCount` | src/utils/rateLimiter/RateLimit.ts:28-38 | a rejection happens only with zero remaining; with the info in hand, the headers are set on both paths, the outcome is a rejection if and only if `current >= limit`, and a rejection carries status 429, the configured or default message and `RetryAfter(resetTime - later)` |
| `RateLimitProperties.AdmissionWindow` | src/utils/rateLimiter/RateLimit.ts:21-40 | when no command fails, the count is the number of timestamps in `(now - windowMs, now]` (this request included), those timestamps are the new log, and the request is rejected if and only if that number is at least the effective limit |
| `RateLimitProperties.RetryAfterBounds` | src/utils/rateLimiter/RateLimit.ts:35 | when no command fails and the reply's clock reading is no earlier than the counter's, a rejection asks for at most `ceil(windowMs / 1000)` seconds, and for at least one second while the reset time is still ahead of that reading |
| `RateLimitScenarios.RouteLimits` | src/routes/Route.ts:15-26 | the authenticated route resolves to 10 for a signed-in user and to 5 otherwise; the flat limit resolves to 5 either way |
| `RateLimitScenarios.MissingAuthenticatedMaximum` | src/utils/rateLimiter/RateLimit.ts:94-95 | an absent or zero authenticated maximum leaves a signed-in user at `maxRequests` |
| `RateLimitScenarios.WithinLimit` | src/utils/rateLimiter/RateLimit.test.ts:46-57 | limit 5, three requests in the window: the request passes with `Remaining` 2 and no status set |
| `RateLimitScenarios.ExceedsLimit` | src/utils/rateLimiter/RateLimit.test.ts:59-74 | limit 5, six requests in the window: 429 with the default message, a reset at the oldest entry plus the window, and a retry delay of 21 s; a stale entry is purged |
| `RateLimitScenarios.OverrideSucceeds` | src/utils/rateLimiter/RateLimit.test.ts:76-95 | a stored override of 4 with three requests in the window: the request passes with `Remaining` 1 and nothing is written |
| `RateLimitScenarios.OverrideExhausted` | src/utils/rateLimiter/RateLimit.test.ts:97-120 | a stored override of 3 with three requests in the window: `Remaining` 0, 429 and the default message |
| `RateLimitScenarios.EventWritesOverride` | src/routes/Route.ts:5-13 | with the unauthenticated route's override, the event `override` writes the record 10, and the request counts against 10 |
| `RateLimitScenarios.StoreErrorFailsOpen` | src/utils/rateLimiter/RateLimit.test.ts:37-44 | a failing GET with an override option configured lets the request through, sets no header and counts nothing (the test's own options have no override, so there its failing GET is never issued) |
| `RateLimitScenarios.RetryAfterNotFloored` | src/utils/rateLimiter/RateLimit.ts:35 | a delay of -1500 ms gives a `retryAfter` of -1, not 0 |
| `RateLimitScenarios.ThreeRequests` | src/utils/rateLimiter/RateLimit.ts:26-40 | three requests through the middleware method against a limit of 2: passed, rejected, rejected, and all three stay in the log |

## Left out

- Time to live: the `PX` on the override record (line 72) and the `expire` on the log (line 127) are not modelled. Neither is expiry driven by the store's own clock. Records and entries leave only by the purge.
- Redis.Client.Expire: states only whether the command succeeds. The time to live it sets is not modelled. Neither is how Redis treats the fractional number of seconds `windowMs / 1000`.
- Redis.Client.Set: the `PX` time to live is ignored.
- Concurrency: concurrent requests can interleave their store commands. Each request is modelled as one sequential step.
- Redis keeps sorted sets and strings in one keyspace. The model uses two maps. So a configured counter key that equals an override key, and the type error Redis raises for it, are not modelled. The default keys cannot collide (`NamespacesDisjoint`).
- Redis deletes a sorted set that becomes empty. The model keeps an empty entry, which reads the same through every command used here.
- JavaScript numbers are unbounded integers here. `Number()` of a non-numeric stored string (NaN) is not modelled. Neither are fractional limits, windows or timestamps.
- `req.user` becomes the flag `hasUser`. The `event` query parameter is an optional string.
- The `try`/`catch` in `getRequestLimit` (lines 98-101) cannot trigger for options of the declared types, so `GetRequestLimit` is total.
- Each caught error is re-thrown with its own message (lines 78-81 and 151-153). The model collapses all of them into `Failure`. Console logging is left out (lines 42, 79, 99, 138-143).
- Header values are the numbers themselves, not their `toString()` text. The Express `Request`/`Response` objects are reduced to the fields the middleware reads and writes.
- The factory `rateLimit(options)` returns a closure. It is modelled as one method that takes the options and the request together.
- The Redis connection (`src/utils/Redis.ts`), process start-up (`src/main.ts`), routing (`src/routes/Route.ts`, used only for sample configurations) and the test configuration are not part of this model.

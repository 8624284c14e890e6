/** Configuration, request, response and result types of the rate limiter,
    with the constants the middleware uses. */
module RateLimitTypes {

  datatype Option<+T> = None | Some(value: T)

  /** Outcome of an operation that talks to the store: any store error is
      collapsed into the single value Failure. */
  datatype Result<+T> = Ok(value: T) | Failure

  /** Namespace of the default rate-limit key. */
  const RATE_LIMIT_PREFIX: string := "ratelimit"
  /** Namespace of the override record key. */
  const OVERRIDE_PREFIX: string := "override"
  /** Default rejection message and the status of a rejection. */
  const RATE_LIMIT_MESSAGE: string := "Too many requests, please try again later"
  const RATE_LIMIT_STATUS: int := 429

  const LIMIT_HEADER: string := "X-RateLimit-Limit"
  const REMAINING_HEADER: string := "X-RateLimit-Remaining"
  const RESET_HEADER: string := "X-RateLimit-Reset"

  /** Elevated limit set when the request's event is one of `event`;
      `windowMs` is the lifetime of the override record. */
  datatype OverrideLimit = OverrideLimit(limit: int, event: seq<string>, windowMs: int)

  /** Per-user limit pair; an absent authenticated maximum counts as 0. */
  datatype RequestLimit = RequestLimit(authenticatedMaxRequests: Option<int>, maxRequests: int)

  /** The `limit` option: a flat number or a RequestLimit pair. */
  datatype Limit = Number(n: int) | Requests(pair: RequestLimit)

  datatype RateLimitOptions = RateLimitOptions(
    windowMs: int,
    limit: Limit,
    message: Option<string>,
    key: Option<string>,
    override: Option<OverrideLimit>)

  datatype RateLimitInfo = RateLimitInfo(limit: int, current: int, remaining: int, resetTime: int)

  /** What the limiter reads of an incoming request: the client address, the
      `event` query parameter and whether an authenticated user is attached. */
  datatype Request = Request(ip: string, event: Option<string>, hasUser: bool)

  /** JSON body of a rejection. */
  datatype RejectBody = RejectBody(error: string, retryAfter: int)

  /** What the limiter writes to the response: headers (numeric values),
      the status and the JSON body, when set. */
  datatype Response = Response(headers: map<string, int>, status: Option<int>, body: Option<RejectBody>)

  /** Next: the middleware called `next()`; Rejected: it answered with 429. */
  datatype Outcome = Next | Rejected
}

/**
 * The request filter in front of the limiter: it derives the client
 * identity from the forwarding headers, asks the limiter once, and aborts
 * a refused request with a 429 carrying the configured limit headers.
 */
module RateLimitFiltering {
  import opened Wrappers
  import opened JavaText
  import opened Http
  import opened RateLimiting

  /** Configuration defaults of "rate.limit.requests" and
      "rate.limit.window.seconds". They only feed the response headers; the
      limiter itself uses its own constants. */
  const DEFAULT_MAX_REQUESTS: int32 := 10
  const DEFAULT_WINDOW_SECONDS: int32 := 60

  /** The filter carries no `@Priority`, so JAX-RS gives it the default,
      `Priorities.USER`. */
  const PRIORITY: int := 5000

  const X_FORWARDED_FOR: string := "X-Forwarded-For"
  const X_REAL_IP: string := "X-Real-IP"
  const UNKNOWN_CLIENT: string := "unknown"
  const TOO_MANY_REQUESTS: int := 429
  const TOO_MANY_REQUESTS_BODY: string := "{\"error\": \"Too many requests. Please try again later.\"}"

  /** `getClientIp`: the first comma-separated entry of a non-empty
      X-Forwarded-For, trimmed; else a non-empty X-Real-IP verbatim; else
      "unknown". None stands for the exception `split(",")[0]` throws when
      X-Forwarded-For consists of commas only. */
  function ClientIp(xForwardedFor: Option<string>, xRealIp: Option<string>): (r: Option<string>)
    ensures PresentNonEmpty(xForwardedFor) ==> (r.None? <==> AllAre(xForwardedFor.value, ','))
    ensures PresentNonEmpty(xForwardedFor) && r.Some? ==>
      r.value == Trim(UpToFirst(xForwardedFor.value, ','))
    ensures !PresentNonEmpty(xForwardedFor) && PresentNonEmpty(xRealIp) ==> r == xRealIp
    ensures !PresentNonEmpty(xForwardedFor) && !PresentNonEmpty(xRealIp) ==> r == Some(UNKNOWN_CLIENT)
  {
    if xForwardedFor.Some? && xForwardedFor.value != [] then
      var parts := JavaSplit(xForwardedFor.value, ',');
      SplitFirst(xForwardedFor.value, ',');
      if |parts| == 0 then None else Some(Trim(parts[0]))
    else if xRealIp.Some? && xRealIp.value != [] then
      xRealIp
    else
      Some(UNKNOWN_CLIENT)
  }

  /** X-Forwarded-For takes precedence: whenever it yields an identity,
      X-Real-IP is not consulted. */
  lemma ForwardedForWins(xForwardedFor: string, xRealIp: Option<string>)
    requires xForwardedFor != [] && !AllAre(xForwardedFor, ',')
    ensures ClientIp(Some(xForwardedFor), xRealIp) == ClientIp(Some(xForwardedFor), None)
    ensures ClientIp(Some(xForwardedFor), xRealIp) == Some(Trim(UpToFirst(xForwardedFor, ',')))
  {
  }

  /** The rejection of a rate-limited request. */
  function TooManyRequests(maxRequests: int32, windowSeconds: int32): (r: Response)
    ensures r.status == TOO_MANY_REQUESTS && r.entity == Some(TOO_MANY_REQUESTS_BODY)
    ensures r.headers.Keys == {"X-RateLimit-Limit", "X-RateLimit-Remaining", "Retry-After"}
    ensures ParseInt(r.headers["X-RateLimit-Limit"]) == Some(maxRequests as int)
    ensures ParseInt(r.headers["X-RateLimit-Remaining"]) == Some(0)
    ensures ParseInt(r.headers["Retry-After"]) == Some(windowSeconds as int)
  {
    ParseIntToString(maxRequests as int);
    ParseIntToString(0);
    ParseIntToString(windowSeconds as int);
    Response(TOO_MANY_REQUESTS, Some(TOO_MANY_REQUESTS_BODY),
      map["X-RateLimit-Limit" := IntToString(maxRequests as int),
          "X-RateLimit-Remaining" := IntToString(0),
          "Retry-After" := IntToString(windowSeconds as int)])
  }

  /** The filter's effect on the limiter's buckets and on the request. */
  datatype Decision = Decision(verdict: Verdict, buckets: map<string, Bucket>)

  /** `filter(requestContext)` at `now`: the buckets change only through one
      `allowRequest` for the derived identity; the request continues exactly
      when that call admits it, and is otherwise aborted with the 429. When
      the identity cannot be derived, the filter throws before touching the
      limiter. */
  function Decide(buckets: map<string, Bucket>, req: Request, now: int,
                  maxRequests: int32, windowSeconds: int32): (d: Decision)
    ensures ClientIp(req.Header(X_FORWARDED_FOR), req.Header(X_REAL_IP)).None? ==>
      d == Decision(Fault, buckets)
    ensures ClientIp(req.Header(X_FORWARDED_FOR), req.Header(X_REAL_IP)).Some? ==>
      var a := Allow(buckets, ClientIp(req.Header(X_FORWARDED_FOR), req.Header(X_REAL_IP)).value, now);
      && d.buckets == a.buckets
      && (d.verdict == Continue <==> a.allowed)
      && (!a.allowed ==> d.verdict == Abort(TooManyRequests(maxRequests, windowSeconds)))
  {
    match ClientIp(req.Header(X_FORWARDED_FOR), req.Header(X_REAL_IP))
    case None => Decision(Fault, buckets)
    case Some(clientIp) =>
      var a := Allow(buckets, clientIp, now);
      if a.allowed then Decision(Continue, a.buckets)
      else Decision(Abort(TooManyRequests(maxRequests, windowSeconds)), a.buckets)
  }

  class RateLimitFilter {
    const rateLimiterService: RateLimiterService
    const maxRequests: int32
    const windowSeconds: int32

    constructor (rateLimiterService: RateLimiterService, maxRequests: int32, windowSeconds: int32)
      ensures this.rateLimiterService == rateLimiterService
      ensures this.maxRequests == maxRequests && this.windowSeconds == windowSeconds
    {
      this.rateLimiterService := rateLimiterService;
      this.maxRequests := maxRequests;
      this.windowSeconds := windowSeconds;
    }

    method Filter(req: Request, now: int) returns (verdict: Verdict)
      requires rateLimiterService.Valid()
      modifies rateLimiterService, rateLimiterService.buckets.Values
      ensures rateLimiterService.Valid()
      ensures Decision(verdict, rateLimiterService.model)
        == Decide(old(rateLimiterService.model), req, now, maxRequests, windowSeconds)
    {
      var clientIp := ClientIp(req.Header(X_FORWARDED_FOR), req.Header(X_REAL_IP));
      if clientIp.None? {
        return Fault;
      }
      var allowed := rateLimiterService.AllowRequest(clientIp.value, now);
      if !allowed {
        return Abort(TooManyRequests(maxRequests, windowSeconds));
      }
      return Continue;
    }
  }
}

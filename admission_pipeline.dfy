/**
 * The admission layer as JAX-RS runs it: the request filters in ascending
 * priority (the idempotency guard at 1000, the deadline tracker at 2000,
 * the rate limiter at the default 5000), the first abort ending the chain;
 * then the resource, if every filter let the request through; then the
 * response filters, in descending priority, on whatever response the
 * request ended with, an aborted one included. A filter that throws gives
 * a 500 response. The request arrives at `now` and its response filters
 * run at `finished`.
 */
module AdmissionPipeline {
  import opened Wrappers
  import opened JavaText
  import opened Http
  import opened RateLimiting
  import opened RateLimitFiltering
  import opened Idempotency
  import opened IdempotencyFiltering
  import opened Deadline

  /** The state the filters keep between requests. */
  datatype Gates = Gates(store: Store, buckets: map<string, Bucket>, times: map<string, int>)

  /** The rate filter's configuration: it only feeds the 429's headers. */
  datatype Settings = Settings(maxRequests: int32, windowSeconds: int32)

  /** A request as it reaches the filters: no filter has set a property yet. */
  predicate Inbound(req: Request) {
    req.idempotencyKey.None? && req.originalBody.None? && req.requestId.None?
  }

  /** How the request filters left things: the state, the request context
      (with the properties the filters that ran set on it) and the verdict
      of the last filter that ran. */
  datatype Filtered = Filtered(gates: Gates, request: Request, verdict: Verdict)

  /** The response a request ends with when a filter stopped it. */
  function Rejection(v: Verdict): (r: Response)
    requires !v.Continue?
    ensures v.Abort? ==> r == v.response
    ensures v.Fault? ==> r.status == INTERNAL_SERVER_ERROR
  {
    if v.Abort? then v.response else Response(INTERNAL_SERVER_ERROR, None, map[])
  }

  /** The request filters of the layer. `KeyOnMarkGuard` is the idempotency
      guard changed to record the key on the request only once it has
      marked it. */
  datatype Stage = Guard | KeyOnMarkGuard | Tracker | Limiter

  /** A filter's priority: `@Priority(1000)` on the idempotency guard,
      `@Priority(2000)` on the deadline tracker, none (so the default) on the
      rate filter. */
  function Priority(stage: Stage): int {
    match stage
    case Guard => IdempotencyFiltering.PRIORITY
    case KeyOnMarkGuard => IdempotencyFiltering.PRIORITY
    case Tracker => Deadline.PRIORITY
    case Limiter => RateLimitFiltering.PRIORITY
  }

  /** The filters run by strictly ascending priority. */
  predicate Ascending(stages: seq<Stage>) {
    forall i, j :: 0 <= i < j < |stages| ==> Priority(stages[i]) < Priority(stages[j])
  }

  /** The order of the request filters in the code as it stands. */
  const DECLARED_ORDER: seq<Stage> := [Guard, Tracker, Limiter]

  /** JAX-RS sorts the three filters by priority, and that sort has exactly
      one outcome: the declared order. */
  lemma DeclaredOrderIsByPriority(order: seq<Stage>)
    requires |order| == 3 && Guard in order && Tracker in order && Limiter in order
    ensures Ascending(order) <==> order == DECLARED_ORDER
  {
    if Ascending(order) {
      assert Priority(order[0]) < Priority(order[1]) < Priority(order[2]);
      assert order[1] == Tracker && order[2] == Limiter;
      assert order == [order[0], Tracker, Limiter];
    }
  }

  /** One request filter at `now`, unless an earlier filter already stopped
      the request. */
  function Step(stage: Stage, f: Filtered, requestId: string, now: int, cfg: Settings): (r: Filtered)
    ensures !f.verdict.Continue? ==> r == f
  {
    if !f.verdict.Continue? then f
    else
      match stage
      case Guard =>
        var i := OnRequest(f.gates.store, f.request, now);
        Filtered(f.gates.(store := i.store), i.request, i.verdict)
      case KeyOnMarkGuard =>
        var i := OnRequestKeyOnMark(f.gates.store, f.request, now);
        Filtered(f.gates.(store := i.store), i.request, i.verdict)
      case Tracker =>
        Filtered(f.gates.(times := Started(f.gates.times, requestId, now)),
                 f.request.(requestId := Some(requestId)), Continue)
      case Limiter =>
        var d := Decide(f.gates.buckets, f.request, now, cfg.maxRequests, cfg.windowSeconds);
        Filtered(f.gates.(buckets := d.buckets), f.request, d.verdict)
  }

  /** The request filters in the order given, the first that stops the
      request ending the chain. */
  function Chain(stages: seq<Stage>, f: Filtered, requestId: string, now: int, cfg: Settings): Filtered
    decreases |stages|
  {
    if stages == [] then f else Chain(stages[1..], Step(stages[0], f, requestId, now, cfg), requestId, now, cfg)
  }

  lemma ChainOfThree(a: Stage, b: Stage, c: Stage, f: Filtered, requestId: string, now: int, cfg: Settings)
    ensures Chain([a, b, c], f, requestId, now, cfg)
      == Step(c, Step(b, Step(a, f, requestId, now, cfg), requestId, now, cfg), requestId, now, cfg)
  {
    var f1 := Step(a, f, requestId, now, cfg);
    var f2 := Step(b, f1, requestId, now, cfg);
    assert [a, b, c][1..] == [b, c];
    assert [b, c][1..] == [c];
    assert [c][1..] == [];
    assert Chain([a, b, c], f, requestId, now, cfg) == Chain([b, c], f1, requestId, now, cfg);
    assert Chain([b, c], f1, requestId, now, cfg) == Chain([c], f2, requestId, now, cfg);
    assert Chain([c], f2, requestId, now, cfg) == Chain([], Step(c, f2, requestId, now, cfg), requestId, now, cfg);
  }

  /** The request filters in their declared order: the idempotency guard;
      if it lets the request through, the deadline tracker records the id
      `requestId` and tags the request with it, and the rate limiter decides
      on the tagged request. A request the guard stops leaves the buckets
      and the deadline times as they were. */
  function AdmitInDeclaredOrder(g: Gates, req: Request, requestId: string, now: int, cfg: Settings): (r: Filtered)
    ensures var i := OnRequest(g.store, req, now);
      !i.verdict.Continue? ==> r == Filtered(g.(store := i.store), i.request, i.verdict)
    ensures var i := OnRequest(g.store, req, now);
      var ctx := i.request.(requestId := Some(requestId));
      var d := Decide(g.buckets, ctx, now, cfg.maxRequests, cfg.windowSeconds);
      i.verdict.Continue? ==> r == Filtered(Gates(i.store, d.buckets, Started(g.times, requestId, now)), ctx, d.verdict)
  {
    ChainOfThree(Guard, Tracker, Limiter, Filtered(g, req, Continue), requestId, now, cfg);
    Chain(DECLARED_ORDER, Filtered(g, req, Continue), requestId, now, cfg)
  }

  /** The result of one request: the state after its response filters, the
      response sent and whether the resource was invoked. */
  datatype Exchange = Exchange(gates: Gates, response: Response, handled: bool)

  /** The resource, if admitted, then the response filters: the deadline
      tracker's (2000) and the idempotency guard's (1000). */
  function Complete(a: Filtered, finished: int, resource: Request -> Response): (x: Exchange)
    ensures x.handled <==> a.verdict.Continue?
    ensures x.handled ==> x.response == resource(a.request)
    ensures !x.handled ==> x.response == Rejection(a.verdict)
    ensures x.gates.buckets == a.gates.buckets
    ensures x.gates.times == Finished(a.gates.times, a.request.requestId)
    ensures x.gates.store == OnResponse(a.gates.store, a.request, x.response, finished)
  {
    var resp := if a.verdict.Continue? then resource(a.request) else Rejection(a.verdict);
    var times := Finished(a.gates.times, a.request.requestId);
    Exchange(Gates(OnResponse(a.gates.store, a.request, resp, finished), a.gates.buckets, times),
             resp, a.verdict.Continue?)
  }

  /** One request through the layer as the code declares it. */
  function Handle(g: Gates, req: Request, requestId: string, now: int, finished: int,
                  cfg: Settings, resource: Request -> Response): Exchange {
    Complete(AdmitInDeclaredOrder(g, req, requestId, now, cfg), finished, resource)
  }

  /** The resource runs only for a request every gate admitted: the
      idempotency check let it proceed (the key, if any, is then marked) and
      the limiter admitted its client. A request stopped by a gate never
      reaches it. */
  lemma ResourceOnlyWhenAdmitted(g: Gates, req: Request, requestId: string, now: int, finished: int,
                                 cfg: Settings, resource: Request -> Response)
    ensures var x := Handle(g, req, requestId, now, finished, cfg, resource);
      var i := OnRequest(g.store, req, now);
      var ip := ClientIp(req.Header(X_FORWARDED_FOR), req.Header(X_REAL_IP));
      x.handled <==> i.verdict == Continue && ip.Some? && Allow(g.buckets, ip.value, now).allowed
  {
    var i := OnRequest(g.store, req, now);
    if i.verdict.Continue? {
      var ctx := i.request.(requestId := Some(requestId));
      assert ctx.headers == req.headers;
      assert ctx.Header(X_FORWARDED_FOR) == req.Header(X_FORWARDED_FOR);
      assert ctx.Header(X_REAL_IP) == req.Header(X_REAL_IP);
    }
  }

  /** Whichever way a request with a new id ends, the deadline tracker
      forgets it: no entry is left behind. */
  lemma DeadlineEntryReleased(g: Gates, req: Request, requestId: string, now: int, finished: int,
                              cfg: Settings, resource: Request -> Response)
    requires Inbound(req) && requestId !in g.times
    ensures Handle(g, req, requestId, now, finished, cfg, resource).gates.times == g.times
  {
    var i := OnRequest(g.store, req, now);
    if i.verdict.Continue? {
      assert Started(g.times, requestId, now) - {requestId} == g.times;
    } else {
      assert i.request.requestId == req.requestId;
    }
  }

  /** A keyed POST that arrives while its key is being processed gets the
      409, and the idempotency guard's response filter then caches that 409
      as the key's completed response, for 24 hours. */
  lemma ConflictIsCached(g: Gates, req: Request, key: string, requestId: string, now: int, finished: int,
                         cfg: Settings, resource: Request -> Response)
    requires Inbound(req) && KeyedPost(req, key)
    requires Live(g.store, key, now) && g.store[key].Processing?
    ensures var x := Handle(g, req, requestId, now, finished, cfg, resource);
      && x.response == InProgressResponse() && !x.handled
      && x.gates.store == g.store[key := Completed(CONFLICT, IN_PROGRESS_BODY, finished + COMPLETED_TTL_MS)]
  {
    var i := OnRequest(g.store, req, now);
    assert i.request.idempotencyKey == Some(key);
  }

  /** A consequence: once a second request has met the 409, the key no longer
      frees itself five minutes after it was marked; a third request is
      answered 409 until 24 hours after that conflict, and never reaches the
      resource, even though the first request might never respond. */
  lemma ConflictOutlivesProcessing(g: Gates, second: Request, third: Request, key: string,
                                   id2: string, id3: string, t2: int, f2: int, t3: int, f3: int,
                                   cfg: Settings, resource: Request -> Response)
    requires Inbound(second) && KeyedPost(second, key) && Inbound(third) && KeyedPost(third, key)
    requires Live(g.store, key, t2) && g.store[key].Processing?
    requires t3 <= f2 + COMPLETED_TTL_MS
    ensures var x2 := Handle(g, second, id2, t2, f2, cfg, resource);
      var x3 := Handle(x2.gates, third, id3, t3, f3, cfg, resource);
      x3.response == InProgressResponse() && !x3.handled
  {
    ConflictIsCached(g, second, key, id2, t2, f2, cfg, resource);
  }

  /** The limiter's answer to the client of `req` at `now`, if an identity
      can be derived. */
  function Refused(buckets: map<string, Bucket>, req: Request, now: int): bool {
    var ip := ClientIp(req.Header(X_FORWARDED_FOR), req.Header(X_REAL_IP));
    ip.Some? && !Allow(buckets, ip.value, now).allowed
  }

  /** As declared, a keyed POST the limiter refuses has already been marked
      by the idempotency guard, so its 429 is cached under the key for 24
      hours, without the rate headers. */
  lemma RateLimitedResponseCached(g: Gates, req: Request, key: string, requestId: string, now: int,
                                  finished: int, cfg: Settings, resource: Request -> Response)
    requires Inbound(req) && KeyedPost(req, key) && !Live(g.store, key, now)
    requires Refused(g.buckets, req, now)
    ensures var x := Handle(g, req, requestId, now, finished, cfg, resource);
      && x.response == TooManyRequests(cfg.maxRequests, cfg.windowSeconds) && !x.handled
      && key in x.gates.store
      && x.gates.store[key] == Completed(TOO_MANY_REQUESTS, TOO_MANY_REQUESTS_BODY, finished + COMPLETED_TTL_MS)
  {
    var i := OnRequest(g.store, req, now);
    var ctx := i.request.(requestId := Some(requestId));
    assert ctx.Header(X_FORWARDED_FOR) == req.Header(X_FORWARDED_FOR);
    assert ctx.Header(X_REAL_IP) == req.Header(X_REAL_IP);
    assert ctx.idempotencyKey == Some(key);
  }

  /** The counterexample: a client whose bucket is empty sends a keyed POST;
      a minute later its window has passed and the limiter would admit it,
      yet the retry is answered with the cached 429 (now bare of its rate
      headers) and the resource is never invoked, for a day. */
  lemma RateLimitedRetryRefusedForADay(cfg: Settings, resource: Request -> Response)
    ensures var req := Request("POST", map[IDEMPOTENCY_KEY_HEADER := "k", X_REAL_IP := "10.0.0.1"],
                               false, Original([]), None, None, None);
      var g := Gates(map[], map["10.0.0.1" := Bucket(0, 0)], map[]);
      var x1 := Handle(g, req, "r1", 1, 1, cfg, resource);
      var x2 := Handle(x1.gates, req, "r2", WINDOW_SIZE_MS + 1, WINDOW_SIZE_MS + 1, cfg, resource);
      && x1.response.status == TOO_MANY_REQUESTS
      && Allow(x1.gates.buckets, "10.0.0.1", WINDOW_SIZE_MS + 1).allowed
      && x2.response == TextResponse(TOO_MANY_REQUESTS, TOO_MANY_REQUESTS_BODY)
      && !x2.handled
  {
    var req := Request("POST", map[IDEMPOTENCY_KEY_HEADER := "k", X_REAL_IP := "10.0.0.1"],
                       false, Original([]), None, None, None);
    var g := Gates(map[], map["10.0.0.1" := Bucket(0, 0)], map[]);
    assert !IsBlank("k") by {
      assert !IsWhitespace("k"[0]);
    }
    assert IsPost("POST");
    assert req.Header(X_FORWARDED_FOR) == None;
    assert req.Header(X_REAL_IP) == Some("10.0.0.1");
    assert ClientIp(req.Header(X_FORWARDED_FOR), req.Header(X_REAL_IP)) == Some("10.0.0.1");
    RateLimitedResponseCached(g, req, "k", "r1", 1, 1, cfg, resource);
    var x1 := Handle(g, req, "r1", 1, 1, cfg, resource);
    assert x1.gates.buckets == Allow(g.buckets, "10.0.0.1", 1).buckets;
    assert x1.gates.buckets["10.0.0.1"] == Bucket(0, 0);
    assert Live(x1.gates.store, "k", WINDOW_SIZE_MS + 1);
    ReplayRenewsExpiry(x1.gates, req, "k", "r2", WINDOW_SIZE_MS + 1, WINDOW_SIZE_MS + 1, cfg, resource);
  }

  /** The request filters with the rate filter given a priority below
      1000: the limiter decides first, so a request it refuses never reaches
      the idempotency guard and leaves no record. */
  function AdmitRateLimitedFirst(g: Gates, req: Request, requestId: string, now: int, cfg: Settings): (r: Filtered)
    ensures var d := Decide(g.buckets, req, now, cfg.maxRequests, cfg.windowSeconds);
      !d.verdict.Continue? ==> r == Filtered(g.(buckets := d.buckets), req, d.verdict)
    ensures var d := Decide(g.buckets, req, now, cfg.maxRequests, cfg.windowSeconds);
      var i := OnRequest(g.store, req, now);
      d.verdict.Continue? && !i.verdict.Continue? ==> r == Filtered(Gates(i.store, d.buckets, g.times), i.request, i.verdict)
    ensures var d := Decide(g.buckets, req, now, cfg.maxRequests, cfg.windowSeconds);
      var i := OnRequest(g.store, req, now);
      d.verdict.Continue? && i.verdict.Continue? ==>
        r == Filtered(Gates(i.store, d.buckets, Started(g.times, requestId, now)),
                      i.request.(requestId := Some(requestId)), Continue)
  {
    ChainOfThree(Limiter, Guard, Tracker, Filtered(g, req, Continue), requestId, now, cfg);
    Chain([Limiter, Guard, Tracker], Filtered(g, req, Continue), requestId, now, cfg)
  }

  /** One request through the layer with the rate filter first. */
  function HandleRateLimitedFirst(g: Gates, req: Request, requestId: string, now: int, finished: int,
                                  cfg: Settings, resource: Request -> Response): Exchange {
    Complete(AdmitRateLimitedFirst(g, req, requestId, now, cfg), finished, resource)
  }

  /** With the limiter first, a refused request leaves the idempotency store
      exactly as it was, so its key is free again the moment the limiter
      admits a retry, and that retry reaches the resource. */
  lemma RateLimitedFirstCachesNothing(g: Gates, req: Request, retry: Request, key: string,
                                      id1: string, id2: string, now: int, finished: int, later: int, done: int,
                                      cfg: Settings, resource: Request -> Response)
    requires Inbound(req) && Refused(g.buckets, req, now)
    requires Inbound(retry) && KeyedPost(retry, key) && !Live(g.store, key, later)
    ensures var x1 := HandleRateLimitedFirst(g, req, id1, now, finished, cfg, resource);
      && x1.response == TooManyRequests(cfg.maxRequests, cfg.windowSeconds) && !x1.handled
      && x1.gates.store == g.store
      && (!Refused(x1.gates.buckets, retry, later) && ClientIp(retry.Header(X_FORWARDED_FOR), retry.Header(X_REAL_IP)).Some? ==>
            HandleRateLimitedFirst(x1.gates, retry, id2, later, done, cfg, resource).handled)
  {
  }

  /** Reordering changes nothing for a request both gates admit: the same
      response, from the same resource call, and the same state after it. */
  lemma OrdersAgreeWhenAdmitted(g: Gates, req: Request, requestId: string, now: int, finished: int,
                                cfg: Settings, resource: Request -> Response)
    requires !Refused(g.buckets, req, now)
    requires ClientIp(req.Header(X_FORWARDED_FOR), req.Header(X_REAL_IP)).Some?
    requires OnRequest(g.store, req, now).verdict == Continue
    ensures HandleRateLimitedFirst(g, req, requestId, now, finished, cfg, resource)
      == Handle(g, req, requestId, now, finished, cfg, resource)
  {
    var i := OnRequest(g.store, req, now);
    var ctx := i.request.(requestId := Some(requestId));
    assert ctx.Header(X_FORWARDED_FOR) == req.Header(X_FORWARDED_FOR);
    assert ctx.Header(X_REAL_IP) == req.Header(X_REAL_IP);
    var d := Decide(g.buckets, req, now, cfg.maxRequests, cfg.windowSeconds);
    assert Decide(g.buckets, ctx, now, cfg.maxRequests, cfg.windowSeconds) == d;
    assert AdmitRateLimitedFirst(g, req, requestId, now, cfg) == AdmitInDeclaredOrder(g, req, requestId, now, cfg);
  }

  /** As declared, a replay passes through the response filter as well and
      is stored again with a fresh 24-hour expiry, so a key retried at least
      once a day never expires. */
  lemma ReplayRenewsExpiry(g: Gates, req: Request, key: string, requestId: string, now: int, finished: int,
                           cfg: Settings, resource: Request -> Response)
    requires Inbound(req) && KeyedPost(req, key)
    requires Live(g.store, key, now) && g.store[key].Completed? && Cacheable(g.store[key].statusCode)
    ensures var x := Handle(g, req, requestId, now, finished, cfg, resource);
      var rec := g.store[key];
      && x.response == TextResponse(rec.statusCode, rec.responseBody) && !x.handled
      && x.gates.store == g.store[key := Completed(rec.statusCode, rec.responseBody, finished + COMPLETED_TTL_MS)]
  {
    var i := OnRequest(g.store, req, now);
    assert i.request.idempotencyKey == Some(key);
  }

  /** The order with both corrections: the limiter first, then the guard
      that records the key only once it has marked it, then the deadline
      tracker. */
  const CORRECTED_ORDER: seq<Stage> := [Limiter, KeyOnMarkGuard, Tracker]

  function AdmitCorrected(g: Gates, req: Request, requestId: string, now: int, cfg: Settings): Filtered {
    Chain(CORRECTED_ORDER, Filtered(g, req, Continue), requestId, now, cfg)
  }

  /** One request through the corrected layer. */
  function HandleCorrected(g: Gates, req: Request, requestId: string, now: int, finished: int,
                           cfg: Settings, resource: Request -> Response): Exchange {
    Complete(AdmitCorrected(g, req, requestId, now, cfg), finished, resource)
  }

  /** Corrected, a keyed POST whose key has a live record (a conflict or a
      replay) never reaches the resource and leaves the store as it was:
      the 409 is not cached and a replay does not renew its record. */
  lemma CorrectedGuardAnswersNotStored(g: Gates, req: Request, key: string, requestId: string, now: int,
                                       finished: int, cfg: Settings, resource: Request -> Response)
    requires Inbound(req) && KeyedPost(req, key) && Live(g.store, key, now)
    ensures var x := HandleCorrected(g, req, requestId, now, finished, cfg, resource);
      !x.handled && x.gates.store == g.store
  {
    var f0 := Filtered(g, req, Continue);
    ChainOfThree(Limiter, KeyOnMarkGuard, Tracker, f0, requestId, now, cfg);
    var f1 := Step(Limiter, f0, requestId, now, cfg);
    assert f1.request == req && f1.gates.store == g.store;
    if f1.verdict.Continue? {
      var o := OnRequestKeyOnMark(g.store, req, now);
      assert !o.verdict.Continue?;
      OwnAnswerNotStored(g.store, req, Rejection(o.verdict), now, finished);
    }
  }

  /** Corrected, a conflict leaves the processing record as it was, so the
      key frees itself once that record expires: a later keyed POST passes
      the guard. */
  lemma CorrectedConflictSelfHeals(g: Gates, second: Request, third: Request, key: string, id2: string,
                                   t2: int, f2: int, t3: int, cfg: Settings, resource: Request -> Response)
    requires Inbound(second) && KeyedPost(second, key) && KeyedPost(third, key)
    requires Live(g.store, key, t2) && g.store[key].Processing?
    requires t3 > g.store[key].expiresAt
    ensures var x2 := HandleCorrected(g, second, id2, t2, f2, cfg, resource);
      OnRequestKeyOnMark(x2.gates.store, third, t3).verdict == Continue
  {
    CorrectedGuardAnswersNotStored(g, second, key, id2, t2, f2, cfg, resource);
  }
}

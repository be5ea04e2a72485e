/**
 * The deadline tracker: the request filter records when a request started
 * under its request id, the response filter forgets it, and a deferred
 * check, run `timeoutSeconds` later, aborts with 504 only if the request
 * is still recorded and its budget has been used up. The deferred check is
 * the method `CheckTimeout`, called with the instant it runs at.
 */
module Deadline {
  import opened Wrappers
  import opened Http

  const PRIORITY: int := 2000
  /** Default of "quarkus.rest.timeout", in seconds. */
  const DEFAULT_TIMEOUT_SECONDS: int := 30
  const GATEWAY_TIMEOUT: int := 504
  const TIMEOUT_BODY: string := "{\"error\": \"Request timeout\"}"

  /** The abort performed by the deferred check. */
  function TimeoutResponse(): Response {
    TextResponse(GATEWAY_TIMEOUT, TIMEOUT_BODY)
  }

  /** `requestTimes` after the request filter recorded `requestId` at `now`. */
  function Started(times: map<string, int>, requestId: string, now: int): (r: map<string, int>)
    ensures r.Keys == times.Keys + {requestId} && r[requestId] == now
    ensures forall id :: id in times && id != requestId ==> r[id] == times[id]
  {
    times[requestId := now]
  }

  /** `requestTimes` after the response filter, given the request's
      "requestId" property: the id is forgotten, nothing else changes, and a
      missing property changes nothing. */
  function Finished(times: map<string, int>, requestId: Option<string>): (r: map<string, int>)
    ensures requestId.None? ==> r == times
    ensures requestId.Some? ==> r.Keys == times.Keys - {requestId.value}
    ensures forall id :: id in r ==> r[id] == times[id]
  {
    if requestId.Some? then times - {requestId.value} else times
  }

  /** The deferred check at `now` with a budget of `timeoutSeconds`: it
      aborts with the 504 exactly when the request is still recorded and at
      least the budget has elapsed since it started. */
  function Expired(times: map<string, int>, requestId: string, now: int, timeoutSeconds: int): (r: Option<Response>)
    ensures r.Some? <==> requestId in times && now - times[requestId] >= timeoutSeconds * 1000
    ensures r.Some? ==> r.value == TimeoutResponse()
  {
    if requestId in times && now - times[requestId] >= timeoutSeconds * 1000 then
      Some(TimeoutResponse())
    else None
  }

  /** Once the response filter has run, a later check does nothing. */
  lemma CheckAfterResponseIsNoop(times: map<string, int>, requestId: string, now: int, timeoutSeconds: int)
    ensures Expired(Finished(times, Some(requestId)), requestId, now, timeoutSeconds).None?
  {
  }

  /** A request still in flight when its check runs on schedule (the budget
      after it started, or later) is aborted. */
  lemma ScheduledCheckFires(times: map<string, int>, requestId: string, start: int, now: int, timeoutSeconds: int)
    requires now >= start + timeoutSeconds * 1000
    ensures Expired(Started(times, requestId, start), requestId, now, timeoutSeconds) == Some(TimeoutResponse())
  {
  }

  /** Finishing one request never changes the check of another. */
  lemma OtherRequestsUnaffected(times: map<string, int>, finished: string, checked: string, now: int, timeoutSeconds: int)
    requires finished != checked
    ensures Expired(Finished(times, Some(finished)), checked, now, timeoutSeconds)
      == Expired(times, checked, now, timeoutSeconds)
  {
  }

  class TimeoutInterceptor {
    const timeoutSeconds: int
    var requestTimes: map<string, int>

    constructor (timeoutSeconds: int)
      ensures this.timeoutSeconds == timeoutSeconds && requestTimes == map[]
    {
      this.timeoutSeconds := timeoutSeconds;
      requestTimes := map[];
    }

    /** The interceptor with the default 30-second budget. */
    constructor Default()
      ensures timeoutSeconds == DEFAULT_TIMEOUT_SECONDS && requestTimes == map[]
    {
      timeoutSeconds := DEFAULT_TIMEOUT_SECONDS;
      requestTimes := map[];
    }

    /** The request filter for a request given the id `requestId` at `now`;
        `request` is the context with the "requestId" property set. */
    method RequestFilter(req: Request, requestId: string, now: int) returns (request: Request)
      modifies this
      ensures requestTimes == Started(old(requestTimes), requestId, now)
      ensures request == req.(requestId := Some(requestId))
    {
      request := req.(requestId := Some(requestId));
      requestTimes := requestTimes[requestId := now];
    }

    /** The response filter. */
    method ResponseFilter(req: Request)
      modifies this
      ensures requestTimes == Finished(old(requestTimes), req.requestId)
    {
      var requestId := req.requestId;
      if requestId.Some? {
        requestTimes := requestTimes - {requestId.value};
      }
    }

    /** The scheduled check, run at `now`; it only reads `requestTimes`. */
    method CheckTimeout(requestId: string, now: int) returns (abort: Option<Response>)
      ensures abort == Expired(requestTimes, requestId, now, timeoutSeconds)
    {
      abort := None;
      if requestId in requestTimes {
        var startTime := requestTimes[requestId];
        var elapsed := now - startTime;
        if elapsed >= timeoutSeconds * 1000 {
          abort := Some(TimeoutResponse());
        }
      }
    }
  }
}

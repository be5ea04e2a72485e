/**
 * The filter pair around the idempotency store. On the way in, a POST
 * carrying a non-blank Idempotency-Key is checked: a conflict or a cached
 * response aborts the request, otherwise the key is marked as processing
 * and the body is buffered so that the resource can read it again. On the
 * way out, a status in [200, 500) is cached under the key and any other
 * status releases it. Everything else passes untouched.
 */
module IdempotencyFiltering {
  import opened Wrappers
  import opened JavaText
  import opened Http
  import opened Idempotency

  const PRIORITY: int := 1000
  const IDEMPOTENCY_KEY_HEADER: string := "Idempotency-Key"

  /** Statuses whose response is cached: 2xx and 4xx (and 3xx). */
  predicate Cacheable(status: int) {
    200 <= status < 500
  }

  /** The request filter's effect: the new store, the request with the
      properties and entity stream the filter set, and its verdict. */
  datatype RequestOutcome = RequestOutcome(store: Store, request: Request, verdict: Verdict)

  /** The request filter at `now`. A non-POST request, or a POST without a
      usable key, passes with store and request unchanged. Otherwise the key
      is recorded on the request; a response from the check aborts the
      request without marking, and a proceed marks the key as processing and
      replaces an entity by a buffer holding exactly the bytes it delivered. */
  function OnRequest(s: Store, req: Request, now: int): (r: RequestOutcome)
    ensures !IsPost(req.verb) || !Usable(req.Header(IDEMPOTENCY_KEY_HEADER)) ==>
      r == RequestOutcome(s, req, Continue)
    ensures IsPost(req.verb) && Usable(req.Header(IDEMPOTENCY_KEY_HEADER)) ==>
      var key := req.Header(IDEMPOTENCY_KEY_HEADER);
      var c := Check(s, key, now);
      && r.request.idempotencyKey == key
      && r.request.(idempotencyKey := req.idempotencyKey, entity := req.entity,
                    originalBody := req.originalBody) == req
      && (c.response.Some? ==>
            && r.verdict == Abort(c.response.value) && r.store == c.store
            && r.request.entity == req.entity && r.request.originalBody == req.originalBody)
      && (c.response.None? ==>
            && r.verdict == Continue
            && r.store == Mark(c.store, key, now)
            && (req.hasEntity ==>
                  r.request.entity == Buffered(Content(req.entity))
                  && r.request.originalBody == Some(Content(req.entity)))
            && (!req.hasEntity ==> r.request.entity == req.entity && r.request.originalBody == req.originalBody))
  {
    var key := req.Header(IDEMPOTENCY_KEY_HEADER);
    if !IsPost(req.verb) || key.None? || IsBlank(key.value) then RequestOutcome(s, req, Continue)
    else
      var keyed := req.(idempotencyKey := key);
      var c := Check(s, key, now);
      if c.response.Some? then RequestOutcome(c.store, keyed, Abort(c.response.value))
      else
        var marked := Mark(c.store, key, now);
        if req.hasEntity then
          var body := Content(req.entity);
          RequestOutcome(marked, keyed.(entity := Buffered(body), originalBody := Some(body)), Continue)
        else RequestOutcome(marked, keyed, Continue)
  }

  /** The response filter at `now`. Only a POST whose key property is usable
      touches the store: a cacheable status stores the status and the
      entity's text ("" for no entity), any other status, below 200 too,
      removes the key. */
  function OnResponse(s: Store, req: Request, resp: Response, now: int): (r: Store)
    ensures !IsPost(req.verb) || !Usable(req.idempotencyKey) ==> r == s
    ensures IsPost(req.verb) && Usable(req.idempotencyKey) && Cacheable(resp.status) ==>
      r == Save(s, req.idempotencyKey, resp.status, resp.entity.GetOr(""), now)
    ensures IsPost(req.verb) && Usable(req.idempotencyKey) && !Cacheable(resp.status) ==>
      r == Remove(s, req.idempotencyKey)
  {
    if !IsPost(req.verb) then s
    else
      var key := req.idempotencyKey;
      if key.Some? && !IsBlank(key.value) then
        if 200 <= resp.status < 500 then Save(s, key, resp.status, resp.entity.GetOr(""), now)
        else Remove(s, key)
      else s
  }

  /** A POST carrying `key`. */
  predicate KeyedPost(req: Request, key: string) {
    IsPost(req.verb) && req.Header(IDEMPOTENCY_KEY_HEADER) == Some(key) && !IsBlank(key)
  }

  /** The request filter changed to record the key on the request only once
      it has marked the key: the store and the verdict are those of
      `OnRequest`, but a request the guard answers itself (with the 409 or a
      replay) keeps the properties it arrived with. */
  function OnRequestKeyOnMark(s: Store, req: Request, now: int): (r: RequestOutcome)
    ensures r.store == OnRequest(s, req, now).store && r.verdict == OnRequest(s, req, now).verdict
    ensures r.verdict.Continue? ==> r.request == OnRequest(s, req, now).request
    ensures !r.verdict.Continue? ==> r.request == req
  {
    var o := OnRequest(s, req, now);
    if o.verdict.Continue? then o else o.(request := req)
  }

  /** With the key recorded only on marking, the response filter leaves the
      store alone for a request that the guard answered itself. */
  lemma OwnAnswerNotStored(s: Store, req: Request, resp: Response, now: int, finished: int)
    requires req.idempotencyKey.None?
    requires !OnRequestKeyOnMark(s, req, now).verdict.Continue?
    ensures var o := OnRequestKeyOnMark(s, req, now);
      OnResponse(o.store, o.request, resp, finished) == o.store
  {
    var o := OnRequestKeyOnMark(s, req, now);
    assert o.request == req;
  }

  /** A key that has a live record is never overwritten by the request
      filter: a completed record is not turned back into a processing one,
      a processing one is not renewed, and the request is aborted. */
  lemma LiveRecordKept(s: Store, req: Request, key: string, now: int)
    requires KeyedPost(req, key) && Live(s, key, now)
    ensures OnRequest(s, req, now).store == s
    ensures OnRequest(s, req, now).verdict.Abort?
  {
  }

  /** Of two requests with the same key, the second within five minutes of
      the first proceeding gets the 409 and does not proceed. */
  lemma SecondRequestConflicts(s: Store, first: Request, second: Request, key: string, t1: int, t2: int)
    requires KeyedPost(first, key) && KeyedPost(second, key)
    requires OnRequest(s, first, t1).verdict == Continue
    requires t2 <= t1 + PROCESSING_TTL_MS
    ensures OnRequest(OnRequest(s, first, t1).store, second, t2).verdict == Abort(InProgressResponse())
  {
    var c := Check(s, Some(key), t1);
    assert OnRequest(s, first, t1).store == Mark(c.store, Some(key), t1);
  }

  /** A request that proceeded and completed with a cacheable status is
      answered, on a retry within 24 hours, with exactly that status and the
      entity's text, and the retry does not proceed. */
  lemma CompletedRequestReplayed(s: Store, first: Request, resp: Response, retry: Request,
                                 key: string, t1: int, t2: int, t3: int)
    requires KeyedPost(first, key) && KeyedPost(retry, key)
    requires OnRequest(s, first, t1).verdict == Continue
    requires Cacheable(resp.status)
    requires t3 <= t2 + COMPLETED_TTL_MS
    ensures var afterReq := OnRequest(s, first, t1);
      var afterResp := OnResponse(afterReq.store, afterReq.request, resp, t2);
      OnRequest(afterResp, retry, t3).verdict == Abort(TextResponse(resp.status, resp.entity.GetOr("")))
  {
    var afterReq := OnRequest(s, first, t1);
    assert afterReq.request.idempotencyKey == Some(key);
  }

  /** A request that proceeded and failed with a status outside [200, 500)
      frees its key: a retry proceeds at once. */
  lemma FailedRequestReleased(s: Store, first: Request, resp: Response, retry: Request,
                              key: string, t1: int, t2: int, t3: int)
    requires KeyedPost(first, key) && KeyedPost(retry, key)
    requires OnRequest(s, first, t1).verdict == Continue
    requires !Cacheable(resp.status)
    ensures var afterReq := OnRequest(s, first, t1);
      var afterResp := OnResponse(afterReq.store, afterReq.request, resp, t2);
      OnRequest(afterResp, retry, t3).verdict == Continue
  {
    var afterReq := OnRequest(s, first, t1);
    assert afterReq.request.idempotencyKey == Some(key);
  }

  class IdempotencyFilter {
    const idempotencyService: IdempotencyService

    constructor (idempotencyService: IdempotencyService)
      ensures this.idempotencyService == idempotencyService
    {
      this.idempotencyService := idempotencyService;
    }

    /** The request filter; `request` is the context after the filter ran. */
    method RequestFilter(req: Request, now: int) returns (request: Request, verdict: Verdict)
      modifies idempotencyService
      ensures RequestOutcome(idempotencyService.idempotencyStore, request, verdict)
        == OnRequest(old(idempotencyService.idempotencyStore), req, now)
    {
      request, verdict := req, Continue;
      if !IsPost(req.verb) {
        return;
      }
      var idempotencyKey := req.Header(IDEMPOTENCY_KEY_HEADER);
      if idempotencyKey.Some? && !IsBlank(idempotencyKey.value) {
        request := request.(idempotencyKey := idempotencyKey);
        var cachedResponse := idempotencyService.CheckIdempotency(idempotencyKey, now);
        if cachedResponse.Some? {
          verdict := Abort(cachedResponse.value);
          return;
        }
        idempotencyService.MarkAsProcessing(idempotencyKey, now);
        if req.hasEntity {
          var requestBody := ReadAll(Reads(req.entity));
          request := request.(entity := Buffered(requestBody), originalBody := Some(requestBody));
        }
      }
    }

    /** The response filter. */
    method ResponseFilter(req: Request, resp: Response, now: int)
      modifies idempotencyService
      ensures idempotencyService.idempotencyStore
        == OnResponse(old(idempotencyService.idempotencyStore), req, resp, now)
    {
      if !IsPost(req.verb) {
        return;
      }
      var idempotencyKey := req.idempotencyKey;
      if idempotencyKey.Some? && !IsBlank(idempotencyKey.value) {
        var statusCode := resp.status;
        if statusCode >= 200 && statusCode < 500 {
          var responseBody := if resp.entity.Some? then resp.entity.value else "";
          idempotencyService.StoreResponse(idempotencyKey, statusCode, responseBody, now);
        } else {
          idempotencyService.RemoveKey(idempotencyKey);
        }
      }
    }

    /** The body-buffering loop: read into a 1024-byte buffer until the
      stream ends, appending each read's bytes to the output. */
    static method ReadAll(stream: seq<Chunk>) returns (requestBody: seq<byte>)
      ensures requestBody == Concat(stream)
    {
      var baos: seq<byte> := [];
      var buffer := new byte[READ_BUFFER_SIZE];
      var i := 0;
      while i < |stream|
        invariant 0 <= i <= |stream|
        invariant baos == Concat(stream[..i])
      {
        var length := Read(stream[i], buffer);
        assert stream[..i + 1] == stream[..i] + [stream[i]];
        ConcatAppend(stream[..i], stream[i]);
        baos := baos + buffer[..length];
        i := i + 1;
      }
      assert stream[..i] == stream;
      requestBody := baos;
    }

    /** One `read(buffer)` that returns `chunk`: its bytes land at the start
      of the buffer and their number is returned. */
    static method Read(chunk: Chunk, buffer: array<byte>) returns (length: int)
      requires buffer.Length == READ_BUFFER_SIZE
      modifies buffer
      ensures length == |chunk| && buffer[..length] == chunk
    {
      length := |chunk|;
      for k := 0 to length
        invariant forall j :: 0 <= j < k ==> buffer[j] == chunk[j]
      {
        buffer[k] := chunk[k];
      }
    }
  }
}

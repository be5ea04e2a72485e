# Request admission layer: a verified model

This project models the request-admission layer of a Quarkus book-catalogue
service in Dafny and proves properties of the model. The layer has three
JAX-RS filters and the services behind them:

- **Rate limiter.** `RateLimiterService` keeps one fixed-window token bucket per client. `RateLimitFilter` derives the client identity from the `X-Forwarded-For` and `X-Real-IP` headers and aborts a refused request with a 429.
- **Idempotency guard.** `IdempotencyService` keeps a store of records, one per idempotency key. A record is either still processing (kept for 5 minutes) or completed with a status and body (kept for 24 hours). `IdempotencyFilter` checks and marks a key on the way in and caches or releases it on the way out.
- **Deadline tracker.** `TimeoutInterceptor` records when each request started and forgets it when the response leaves. A deferred check aborts with 504 if the request is still recorded and its budget has been used up.

The project also models the pagination links built by `SearchBookResponse`. A final module composes the three filters in the order their declared priorities give. It also composes two corrected variants that the Findings section motivates.

State that the source updates in place is kept in classes:

- `TokenBucket` and `RateLimiterService` with its map of bucket objects;
- `IdempotencyService` and its store;
- `TimeoutInterceptor` and its `requestTimes` map.

Each method's contract ties the new state and the result to a pure function of the old state. The properties are proved about those functions.

The body-buffering loop of the idempotency filter is a `while` loop. It reads into a 1024-byte array and carries a loop invariant. `buildLinks` is a method that builds the parameter string and the map step by step, and it is proved equal to the `Links` function.

How outside inputs are modelled:

- **Clock.** Every reading of the clock is a parameter `now`, in milliseconds. The source reads it through `System.currentTimeMillis` and `Instant.now`.
- **Request id.** The deadline tracker's request id is a parameter.
- **Resource.** The downstream resource method is a function parameter.
- **Deferred check.** The timeout check is a method `CheckTimeout(id, now)`; it is not a scheduled task.

## Model

| member | source | states |
|---|---|---|
| RateLimiting.NewBucket | src/main/java/org/acme/RateLimiterService.java:25-28 | a new bucket is full (10 tokens), in range, and its window starts at now |
| RateLimiting.Refilled | src/main/java/org/acme/RateLimiterService.java:39-47 | once 60000 ms or more have passed, tokens become 10 and the timestamp becomes now; otherwise the bucket is unchanged; the 0..10 range is kept |
| RateLimiting.Consume | src/main/java/org/acme/RateLimiterService.java:30-37 | admitted iff the refilled bucket has a token; an admission costs exactly one token, a refusal none; a refusal leaves 0 tokens; the range 0..10 is preserved |
| RateLimiting.Allow | src/main/java/org/acme/RateLimiterService.java:16-19 | the client's existing bucket goes through `Consume`; a new client is admitted with 9 tokens left, stamped now; every other client's bucket is unchanged |
| RateLimiting.RunWithinWindow | src/main/java/org/acme/RateLimiterService.java:30-47 | with no refill in between, the i-th of successive requests is admitted iff i < the tokens the bucket held |
| RateLimiting.FreshClientBurst | src/main/java/org/acme/RateLimiterService.java:11 | within its first window, a new client's first 10 requests are admitted and the 11th and later are refused |
| RateLimiting.AdmittedWithinWindow | src/main/java/org/acme/RateLimiterService.java:32-36 | within one window a client is admitted at most as many times as it had tokens, so at most 10 times |
| RateLimiting.AdmittedAfterWindow | src/main/java/org/acme/RateLimiterService.java:43-46 | once a window has passed, the next request is admitted whatever the bucket held, and it starts a new window |
| RateLimiting.ClientsIndependent | src/main/java/org/acme/RateLimiterService.java:16-18 | one client's requests never change the answer another client gets |
| RateLimiting.TokenBucket.constructor | src/main/java/org/acme/RateLimiterService.java:25-28 | the object's state is `NewBucket(now)` |
| RateLimiting.TokenBucket.TryConsume | src/main/java/org/acme/RateLimiterService.java:30-37 | the answer and the new fields are exactly `Consume` of the old fields |
| RateLimiting.TokenBucket.Refill | src/main/java/org/acme/RateLimiterService.java:39-47 | the new fields are exactly `Refilled` of the old ones |
| RateLimiting.RateLimiterService.AllowRequest | src/main/java/org/acme/RateLimiterService.java:16-19 | the answer and the buckets' values follow `Allow`; a known client's bucket object is reused and the map is unchanged; a new client gets a fresh bucket and nothing else is added; each bucket belongs to its own client and stays in range |
| RateLimiting.RateLimiterService.BucketFor | src/main/java/org/acme/RateLimiterService.java:17 | `computeIfAbsent`: a known client's existing bucket, or a fresh full bucket created at now and added under the client; no other entry changes |
| RateLimiting.RateLimiterService.SpendFrom | src/main/java/org/acme/RateLimiterService.java:18 | `tryConsume()` on the client's bucket: the answer and the client's new value are `Consume` of its old value; every other client's value is unchanged |
| RateLimiting.AllowAfterLookup | src/main/java/org/acme/RateLimiterService.java:16-19 | `Allow` equals the lookup-or-create step followed by `Consume` on the bucket found |
| JavaText.Trim | src/main/java/org/acme/RateLimitFilter.java:42 | `String.trim`: the result is an infix of the input that neither starts nor ends with a character up to U+0020, and everything cut away is such a character |
| JavaText.SplitFirst | src/main/java/org/acme/RateLimitFilter.java:42 | for a non-empty string (the only kind `getClientIp` splits; `"".split(",")` is `[""]`), `split(",")` is empty iff the string is made only of commas; otherwise its first element is the text before the first comma |
| JavaText.ParseIntToString | src/main/java/org/acme/SearchBookResponse.java:56 | the decimal rendering of any integer parses back to that integer |
| RateLimitFiltering.ClientIp | src/main/java/org/acme/RateLimitFilter.java:39-52 | a non-empty X-Forwarded-For gives its first comma-separated segment, trimmed, and throws when it holds only commas; otherwise a non-empty X-Real-IP is returned verbatim; otherwise "unknown" |
| RateLimitFiltering.ForwardedForWins | src/main/java/org/acme/RateLimitFilter.java:40-48 | whenever X-Forwarded-For yields an identity, X-Real-IP does not matter |
| RateLimitFiltering.TooManyRequests | src/main/java/org/acme/RateLimitFilter.java:28-35 | the 429 carries the error body and exactly three headers, which read back as the configured limit, 0 and the window in seconds |
| RateLimitFiltering.Decide | src/main/java/org/acme/RateLimitFilter.java:23-37 | the buckets change only through one `Allow` for the derived identity; the request continues iff admitted and is otherwise aborted with the 429; if no identity can be derived, the filter throws and the limiter is untouched |
| RateLimitFiltering.RateLimitFilter.Filter | src/main/java/org/acme/RateLimitFilter.java:23-37 | the verdict and the limiter's new buckets are exactly `Decide` of the old buckets |
| Idempotency.Check | src/main/java/org/acme/IdempotencyService.java:26-53 | proceed iff the key is null, blank or has no live record; a live processing record gives the 409 with its body; a live completed record replays exactly its status and body; the store changes only by dropping this key's expired record |
| Idempotency.Mark | src/main/java/org/acme/IdempotencyService.java:55-59 | a usable key gets a processing record that expires 300000 ms later; an unusable key changes nothing; no other key changes |
| Idempotency.Save | src/main/java/org/acme/IdempotencyService.java:61-67 | a usable key's record, whatever it was, becomes a completed record that expires 24 hours later; no other key changes |
| Idempotency.Remove | src/main/java/org/acme/IdempotencyService.java:69-73 | only a usable key's record is removed; every other record is kept unchanged |
| Idempotency.Sweep | src/main/java/org/acme/IdempotencyService.java:75-78 | exactly the expired records, of either kind, are removed; all others are kept unchanged |
| Idempotency.ReplayUntilExpiry | src/main/java/org/acme/IdempotencyService.java:110-112 | a stored response is replayed verbatim up to and including its expiry instant |
| Idempotency.ProcessingSelfHeals | src/main/java/org/acme/IdempotencyService.java:87-92 | a marked key answers 409 up to and including 300 s after marking, and right after that it proceeds with its record dropped |
| Idempotency.ReleasedKeyProceeds | src/main/java/org/acme/IdempotencyService.java:69-73 | after a removal, the key proceeds at once |
| Idempotency.SweepUnobservable | src/main/java/org/acme/IdempotencyService.java:75-78 | a sweep never changes what a later check answers |
| Idempotency.SweepsCompose | src/main/java/org/acme/IdempotencyService.java:75-78 | a sweep followed by a later sweep equals the later sweep alone |
| Idempotency.IdempotencyService.CheckIdempotency | src/main/java/org/acme/IdempotencyService.java:26-53 | the answer and the new store are exactly `Check` of the old store |
| Idempotency.IdempotencyService.MarkAsProcessing | src/main/java/org/acme/IdempotencyService.java:55-59 | the new store is exactly `Mark` of the old one |
| Idempotency.IdempotencyService.StoreResponse | src/main/java/org/acme/IdempotencyService.java:61-67 | the new store is exactly `Save` of the old one |
| Idempotency.IdempotencyService.RemoveKey | src/main/java/org/acme/IdempotencyService.java:69-73 | the new store is exactly `Remove` of the old one |
| Idempotency.IdempotencyService.CleanupExpiredKeys | src/main/java/org/acme/IdempotencyService.java:75-78 | the new store is exactly `Sweep` of the old one |
| IdempotencyFiltering.OnRequest | src/main/java/org/acme/IdempotencyFilter.java:29-67 | a non-POST request (compared ignoring case), or a POST without a non-blank key, passes with nothing changed; otherwise the key is recorded on the request; a response from the check aborts without marking and leaves the entity and the body property as they were; a proceed marks the key and replaces the entity by a buffer of exactly the bytes it delivered |
| IdempotencyFiltering.OnResponse | src/main/java/org/acme/IdempotencyFilter.java:70-94 | only a POST with a usable key property touches the store; a status in [200, 500) stores the status and the entity text ("" when there is none); any other status, below 200 included, removes the key |
| IdempotencyFiltering.LiveRecordKept | src/main/java/org/acme/IdempotencyFilter.java:42-48 | a key with a live record is never overwritten by the request filter, and the request is aborted |
| IdempotencyFiltering.SecondRequestConflicts | src/main/java/org/acme/IdempotencyFilter.java:42-51 | a second request with the same key, within 300 s of the first proceeding, gets the 409 |
| IdempotencyFiltering.CompletedRequestReplayed | src/main/java/org/acme/IdempotencyFilter.java:82-88 | after a cacheable response, a retry within 24 hours is answered with exactly that status and text and does not proceed |
| IdempotencyFiltering.FailedRequestReleased | src/main/java/org/acme/IdempotencyFilter.java:89-92 | after a response outside [200, 500), a retry proceeds at once |
| IdempotencyFiltering.IdempotencyFilter.RequestFilter | src/main/java/org/acme/IdempotencyFilter.java:29-67 | the new store, the request context and the verdict are exactly `OnRequest` of the old store |
| IdempotencyFiltering.IdempotencyFilter.ResponseFilter | src/main/java/org/acme/IdempotencyFilter.java:70-94 | the new store is exactly `OnResponse` of the old one |
| IdempotencyFiltering.IdempotencyFilter.ReadAll | src/main/java/org/acme/IdempotencyFilter.java:55-62 | the buffered body is the concatenation of the bytes of every read, in order |
| IdempotencyFiltering.IdempotencyFilter.Read | src/main/java/org/acme/IdempotencyFilter.java:59-60 | one read puts a chunk's bytes at the start of the 1024-byte buffer and returns their count |
| Deadline.Started | src/main/java/org/acme/TimeoutInterceptor.java:30-33 | the id is recorded at now; every other entry is unchanged |
| Deadline.Finished | src/main/java/org/acme/TimeoutInterceptor.java:52-57 | the id is removed and nothing else changes; a null id changes nothing |
| Deadline.Expired | src/main/java/org/acme/TimeoutInterceptor.java:36-48 | aborts with the 504 `{"error": "Request timeout"}` iff the entry is present and now - start >= timeoutSeconds * 1000 |
| Deadline.CheckAfterResponseIsNoop | src/main/java/org/acme/TimeoutInterceptor.java:37-38 | once the response filter has run, a later check does nothing |
| Deadline.ScheduledCheckFires | src/main/java/org/acme/TimeoutInterceptor.java:36-48 | a request still in flight when its check runs on schedule, or later, is aborted |
| Deadline.OtherRequestsUnaffected | src/main/java/org/acme/TimeoutInterceptor.java:53-56 | finishing one request never changes the check of another |
| Deadline.TimeoutInterceptor.Default | src/main/java/org/acme/TimeoutInterceptor.java:23-24 | the default budget is 30 seconds, and no request is recorded |
| Deadline.TimeoutInterceptor.RequestFilter | src/main/java/org/acme/TimeoutInterceptor.java:30-33 | the map becomes `Started` of the old map, and the id is set as the request property |
| Deadline.TimeoutInterceptor.ResponseFilter | src/main/java/org/acme/TimeoutInterceptor.java:52-57 | the map becomes `Finished` of the old map |
| Deadline.TimeoutInterceptor.CheckTimeout | src/main/java/org/acme/TimeoutInterceptor.java:36-48 | the check's answer is `Expired` on the current map, and the check changes nothing |
| SearchPagination.Params | src/main/java/org/acme/SearchBookResponse.java:47-53 | the "q=" prefix appears iff the query is non-null and non-blank; the string always ends with sort, direction and size, in that order |
| SearchPagination.PageLinkRoundTrip | src/main/java/org/acme/SearchBookResponse.java:56 | the number after the last '=' of a page link is exactly its page, whatever the base URL and parameters |
| SearchPagination.NextPage | src/main/java/org/acme/SearchBookResponse.java:71 | `page + 1` in Java `int` arithmetic: page + 1 below the largest int, the smallest int at it |
| SearchPagination.LinksFor | src/main/java/org/acme/SearchBookResponse.java:40-78 | "self", "first", "last" and "books" are always present; "prev" is present iff page > 1; "next" is present iff page < totalPages; every page link is a link to the search with the parameters |
| SearchPagination.LinksAskForTheirPages | src/main/java/org/acme/SearchBookResponse.java:56-72 | "self" asks for page, "first" for 1, "last" for totalPages, "prev" for page - 1 and "next" for page + 1 (wrapping at the largest int) |
| SearchPagination.BuildLinks | src/main/java/org/acme/SearchBookResponse.java:40-78 | the map built step by step equals `Links` |
| SearchPagination.From | src/main/java/org/acme/SearchBookResponse.java:17-38 | the books keep the input's length and order, each converted; page, size, totalElements and totalPages are copied verbatim; the links are `Links` |
| AdmissionPipeline.DeclaredOrderIsByPriority | src/main/java/org/acme/IdempotencyFilter.java:18 | with the priorities 1000 (`@Priority` on the idempotency guard), 2000 (`@Priority` on `TimeoutInterceptor`, line 20) and the default 5000 of the rate filter, the only ordering of the three filters by ascending priority is guard, tracker, limiter |
| AdmissionPipeline.AdmitInDeclaredOrder | src/main/java/org/acme/IdempotencyFilter.java:18 | the request filters chained in that order: a request the guard stops keeps its verdict, with buckets and deadline times unchanged; otherwise the tracker records `Started` and tags the request with its id, and the verdict and buckets are `Decide` on the tagged request |
| AdmissionPipeline.AdmitRateLimitedFirst | src/main/java/org/acme/RateLimitFilter.java:10-11 | the same filters with the limiter first: a refusal leaves store and deadline times untouched; then the guard; then the tracker |
| AdmissionPipeline.Complete | src/main/java/org/acme/IdempotencyFilter.java:70-94 | the resource runs iff every request filter continued; a stopped request answers with its abort (or the 500 of a throw); both response filters see the final response |
| AdmissionPipeline.ResourceOnlyWhenAdmitted | src/main/java/org/acme/IdempotencyFilter.java:18 | the resource runs iff the idempotency check proceeds and the limiter admits the derived client |
| AdmissionPipeline.DeadlineEntryReleased | src/main/java/org/acme/TimeoutInterceptor.java:30-57 | whichever way a request with a new id ends, the deadline tracker keeps no entry for it |
| AdmissionPipeline.ConflictIsCached | src/main/java/org/acme/IdempotencyFilter.java:39-88 | a keyed POST that meets a processing record gets the 409, and the response filter then stores that 409 as the key's completed response for 24 hours |
| AdmissionPipeline.ConflictOutlivesProcessing | src/main/java/org/acme/IdempotencyFilter.java:39-88 | after such a conflict, later requests with the key are refused with 409 for 24 hours, not 5 minutes |
| AdmissionPipeline.RateLimitedResponseCached | src/main/java/org/acme/RateLimitFilter.java:10-11 | in the declared order, a keyed POST the limiter refuses is cached under its key as a completed 429 for 24 hours |
| AdmissionPipeline.RateLimitedRetryRefusedForADay | src/main/java/org/acme/RateLimitFilter.java:10-11 | a retry after the window has passed, which the limiter would admit, is answered with the cached 429 (without its rate headers) and never reaches the resource |
| AdmissionPipeline.RateLimitedFirstCachesNothing | src/main/java/org/acme/RateLimitFilter.java:26-35 | with the limiter first, a refused request leaves the idempotency store as it was, and a retry the limiter admits reaches the resource |
| AdmissionPipeline.ReplayRenewsExpiry | src/main/java/org/acme/IdempotencyFilter.java:76-88 | a replayed response passes through the response filter and is stored again, with a new expiry 24 hours after this request |
| IdempotencyFiltering.OnRequestKeyOnMark | src/main/java/org/acme/IdempotencyFilter.java:37-51 | the request filter with the key recorded only once it is marked: the same store and verdict as the code's filter, and a request the guard answers keeps the properties it arrived with |
| IdempotencyFiltering.OwnAnswerNotStored | src/main/java/org/acme/IdempotencyFilter.java:37-47 | with the key recorded only once it is marked, the response filter leaves the store alone for a request the guard answered itself |
| AdmissionPipeline.CorrectedGuardAnswersNotStored | src/main/java/org/acme/IdempotencyFilter.java:39-47 | with both corrections, a keyed POST whose key has a live record never reaches the resource and leaves the store as it was |
| AdmissionPipeline.CorrectedConflictSelfHeals | src/main/java/org/acme/IdempotencyService.java:86-91 | with both corrections, a conflict leaves the processing record as it was, so a keyed POST after its 5-minute expiry passes the guard |
| AdmissionPipeline.OrdersAgreeWhenAdmitted | src/main/java/org/acme/IdempotencyFilter.java:18 | for a request both gates admit, the two orders give the same response and the same state |

## Left out

- Concurrency is not modelled. This covers `ConcurrentHashMap`, `computeIfAbsent`, the `synchronized` on `tryConsume`, and the two scheduler threads. Every operation runs alone, in sequence.
- The idempotency filter's check and mark are two separate calls, and the model keeps them separate. It proves no atomic insert-if-absent, and the code has none.
- Scheduling is not modelled. The hourly sweep is the function `Sweep`, called with the instant it runs at. The deferred timeout check is the method `CheckTimeout`.
- The timeout check's `abortWith` is called from another thread on a request already in progress, and that effect is not modelled. The pipeline does not include the deferred check.
- The JAX-RS runtime is reduced to plain values. The model does not include case-insensitive header lookup, multi-valued headers, or response building beyond status, entity text and headers.
- A response filter also runs for a request aborted by a request filter, and throwing filters are mapped to a 500 that the response filters also see. The model builds both behaviours in and does not prove either.
- Configuration injection is not modelled. `maxRequests` and `windowSeconds` are plain parameters that only feed the 429's headers; the limiter uses its own constants 10 and 60000 ms. `timeoutSeconds` is a constructor parameter with a default of 30.
- Deadline.Expired: does not model the 64-bit wrap-around of `timeoutSeconds * 1000` or of the clock difference. Timestamps are unbounded integers, because real clock readings are far from the `long` range.
- RateLimiting.Refilled: does not model `long` overflow of `now - lastRefillTimestamp`, for the same reason.
- `storeResponse` with a null body is not modelled: the filter never passes one.
- A null `sort` or `direction` would render as "null" in the links. The model takes them as strings.
- No URL encoding is applied to the parameters, and the model applies none either.
- `entity.toString()` is modelled as the response's entity text. For a DTO entity, that text is Java's default rendering, not JSON.
- BookResource, GreetingResource and BookRepresentation are not part of this model. `BookRepresentation.from` is the function parameter `represent` of `From`, and the resource method is the parameter `resource` of the pipeline.
- Request ids are given as parameters; the model does not generate them from the time and thread id.
- The stream reads of the body-buffering loop are modelled as a given sequence of non-empty chunks of at most 1024 bytes. I/O errors are not modelled.
- The model follows the code where it departs from the evident intent. The filter order comes from the declared priorities, so the idempotency guard runs first, although limiting should happen before a key is recorded (see Findings). A check-and-insert should be atomic, but the code calls check and mark separately, and so does the model.
- Idempotency.ReplayUntilExpiry, Idempotency.ProcessingSelfHeals: the service reads `Instant.now()`, which resolves below a millisecond, and `isExpired` is strict at that resolution; the model counts whole milliseconds, so the "up to and including the expiry instant" boundary of `ReplayUntilExpiry` and `ProcessingSelfHeals` holds only to the millisecond.

## Findings

| source | as written | input that shows it | evidently intended | confidence | as-written member | corrected member |
|---|---|---|---|---|---|---|
| src/main/java/org/acme/RateLimitFilter.java:10-11 | the rate filter has no `@Priority`, so it runs at the default 5000, after the idempotency guard (1000) has already marked the key; the 429 then passes through the idempotency response filter and is cached as the key's completed response for 24 hours | a POST with key "k" from client 10.0.0.1 whose bucket is empty, at t = 1, then the same request at t = 60001, when the limiter would admit it: the retry is answered with the cached 429 and never reaches the resource | the limiter runs before the idempotency guard, so a refused request leaves no record and a retry the limiter admits is processed | medium, not executed | AdmissionPipeline.RateLimitedRetryRefusedForADay | AdmissionPipeline.HandleRateLimitedFirst |
| src/main/java/org/acme/IdempotencyFilter.java:39-47 | the key property is set before the check, so a 409 answered while the key is processing goes through the response filter and is stored as a completed record for 24 hours, not the 5 minutes a processing record lasts; in the same way each replay is stored again with a new 24-hour expiry (`ReplayRenewsExpiry`), so a key retried at least once a day never expires | a keyed POST meets a processing record at t2 and gets the 409; a third request with the key at any time up to 24 hours after that response is answered 409, even if the first request never responds | the key property is set only once the key is marked, so the guard's own answers leave the store as it was and the processing record frees the key after 5 minutes | medium, not executed | AdmissionPipeline.ConflictOutlivesProcessing | AdmissionPipeline.CorrectedConflictSelfHeals |

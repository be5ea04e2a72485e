/**
 * The per-client fixed-window limiter: one token bucket per client id,
 * created full on first sight, refilled to `MAX_REQUESTS` once
 * `WINDOW_SIZE_MS` milliseconds have passed since its last refill, and
 * spending one token per admitted request. The clock reading is the
 * parameter `now` (milliseconds).
 */
module RateLimiting {

  const MAX_REQUESTS: int := 10
  const WINDOW_SIZE_MS: int := 60_000

  /** The value of a token bucket. */
  datatype Bucket = Bucket(tokens: int, lastRefillTimestamp: int)

  /** The bucket invariant: never negative, never above the capacity. */
  predicate InRange(b: Bucket) {
    0 <= b.tokens <= MAX_REQUESTS
  }

  /** A bucket created at `now`: full, its window starting at `now`. */
  function NewBucket(now: int): (b: Bucket)
    ensures InRange(b) && b.tokens == MAX_REQUESTS
    ensures b.lastRefillTimestamp == now
  {
    Bucket(MAX_REQUESTS, now)
  }

  /** True when a whole window has passed since the bucket's last refill. */
  predicate WindowElapsed(b: Bucket, now: int) {
    now - b.lastRefillTimestamp >= WINDOW_SIZE_MS
  }

  /** The bucket after `refill()` at `now`. */
  function Refilled(b: Bucket, now: int): (r: Bucket)
    ensures WindowElapsed(b, now) ==> r.tokens == MAX_REQUESTS && r.lastRefillTimestamp == now
    ensures !WindowElapsed(b, now) ==> r == b
    ensures InRange(b) ==> InRange(r)
  {
    if now - b.lastRefillTimestamp >= WINDOW_SIZE_MS then Bucket(MAX_REQUESTS, now) else b
  }

  /** The answer of `tryConsume()` and the bucket it leaves. */
  datatype Consumed = Consumed(allowed: bool, bucket: Bucket)

  /** `tryConsume()` at `now`: refill, then spend one token if any is left.
      The request is admitted exactly when the refilled bucket has a token;
      an admitted request costs exactly one token, a refused one nothing,
      and a refused request leaves an in-range bucket empty. */
  function Consume(b: Bucket, now: int): (r: Consumed)
    ensures r.allowed <==> Refilled(b, now).tokens > 0
    ensures r.bucket.lastRefillTimestamp == Refilled(b, now).lastRefillTimestamp
    ensures r.allowed ==> r.bucket.tokens == Refilled(b, now).tokens - 1
    ensures !r.allowed ==> r.bucket == Refilled(b, now)
    ensures InRange(b) ==> InRange(r.bucket)
    ensures InRange(b) && !r.allowed ==> r.bucket.tokens == 0
  {
    var f := Refilled(b, now);
    if f.tokens > 0 then Consumed(true, f.(tokens := f.tokens - 1)) else Consumed(false, f)
  }

  /** The buckets and the answer after `allowRequest(clientId)` at `now`:
      an existing bucket is reused, an unknown client gets a new one, and
      every other client's bucket stays as it was. */
  datatype Admission = Admission(allowed: bool, buckets: map<string, Bucket>)

  function Allow(buckets: map<string, Bucket>, clientId: string, now: int): (r: Admission)
    ensures r.buckets.Keys == buckets.Keys + {clientId}
    ensures forall c :: c in buckets && c != clientId ==> r.buckets[c] == buckets[c]
    ensures clientId in buckets ==>
      Consumed(r.allowed, r.buckets[clientId]) == Consume(buckets[clientId], now)
    ensures clientId !in buckets ==>
      r.allowed && r.buckets[clientId] == Bucket(MAX_REQUESTS - 1, now)
  {
    var before := if clientId in buckets then buckets[clientId] else NewBucket(now);
    var c := Consume(before, now);
    Admission(c.allowed, buckets[clientId := c.bucket])
  }

  /** `Allow` split at the lookup: `after` is the map once the client's
      bucket has been found or created, and the answer is that bucket's. */
  lemma AllowAfterLookup(buckets: map<string, Bucket>, after: map<string, Bucket>, clientId: string, now: int)
    requires after == buckets[clientId := if clientId in buckets then buckets[clientId] else NewBucket(now)]
    ensures Allow(buckets, clientId, now)
      == Admission(Consume(after[clientId], now).allowed, after[clientId := Consume(after[clientId], now).bucket])
  {
    assert after[clientId := Consume(after[clientId], now).bucket]
      == buckets[clientId := Consume(after[clientId], now).bucket];
  }

  /** The answers to successive requests of one client at the given times. */
  function Run(b: Bucket, times: seq<int>): (r: seq<bool>)
    ensures |r| == |times|
    decreases |times|
  {
    if times == [] then []
    else
      var c := Consume(b, times[0]);
      [c.allowed] + Run(c.bucket, times[1..])
  }

  /** Within one window (no call reaches a refill), the answers are exactly
      `b.tokens` admissions followed by refusals. */
  lemma {:induction false} RunWithinWindow(b: Bucket, times: seq<int>)
    requires InRange(b)
    requires forall i :: 0 <= i < |times| ==> !WindowElapsed(b, times[i])
    ensures forall i :: 0 <= i < |times| ==> Run(b, times)[i] == (i < b.tokens)
    decreases |times|
  {
    if times != [] {
      var c := Consume(b, times[0]);
      assert c.bucket.lastRefillTimestamp == b.lastRefillTimestamp;
      assert c.bucket.tokens == if b.tokens > 0 then b.tokens - 1 else 0;
      var rest := times[1..];
      assert forall i :: 0 <= i < |rest| ==> !WindowElapsed(c.bucket, rest[i]) by {
        forall i | 0 <= i < |rest| ensures !WindowElapsed(c.bucket, rest[i]) {
          assert rest[i] == times[i + 1];
        }
      }
      RunWithinWindow(c.bucket, rest);
      var r := Run(b, times);
      forall i | 0 <= i < |times| ensures r[i] == (i < b.tokens) {
        if i > 0 {
          assert r[i] == Run(c.bucket, rest)[i - 1];
        }
      }
    }
  }

  /** A new client's first `MAX_REQUESTS` requests inside its first window
      are admitted and every later one in that window is refused; in
      particular the eleventh is refused. */
  lemma FreshClientBurst(t0: int, times: seq<int>)
    requires forall i :: 0 <= i < |times| ==> t0 <= times[i] < t0 + WINDOW_SIZE_MS
    ensures forall i :: 0 <= i < |times| ==> Run(NewBucket(t0), times)[i] == (i < MAX_REQUESTS)
  {
    RunWithinWindow(NewBucket(t0), times);
  }

  /** The number of admissions among the answers. */
  function Admitted(answers: seq<bool>): (n: nat)
    ensures n <= |answers|
    decreases |answers|
  {
    if answers == [] then 0 else (if answers[0] then 1 else 0) + Admitted(answers[1..])
  }

  /** However the calls are spread inside one window, a client is admitted
      at most as many times as it had tokens, hence at most `MAX_REQUESTS`. */
  lemma {:induction false} AdmittedWithinWindow(b: Bucket, times: seq<int>)
    requires InRange(b)
    requires forall i :: 0 <= i < |times| ==> !WindowElapsed(b, times[i])
    ensures Admitted(Run(b, times)) <= b.tokens <= MAX_REQUESTS
    decreases |times|
  {
    if times != [] {
      var c := Consume(b, times[0]);
      var rest := times[1..];
      assert forall i :: 0 <= i < |rest| ==> !WindowElapsed(c.bucket, rest[i]) by {
        forall i | 0 <= i < |rest| ensures !WindowElapsed(c.bucket, rest[i]) {
          assert rest[i] == times[i + 1];
        }
      }
      AdmittedWithinWindow(c.bucket, rest);
      assert Run(b, times)[1..] == Run(c.bucket, rest);
    }
  }

  /** Once a window has passed, the next request is admitted whatever the
      bucket held, and it starts a new window at `now`. */
  lemma AdmittedAfterWindow(b: Bucket, now: int)
    requires WindowElapsed(b, now)
    ensures Consume(b, now) == Consumed(true, Bucket(MAX_REQUESTS - 1, now))
  {
  }

  /** Requests of one client never change the answer another client gets. */
  lemma ClientsIndependent(m: map<string, Bucket>, c: string, d: string, t1: int, t2: int)
    requires c != d
    ensures Allow(Allow(m, d, t1).buckets, c, t2).allowed == Allow(m, c, t2).allowed
  {
  }

  /** A token bucket object, its fields updated in place. */
  class TokenBucket {
    /** The client the bucket was created for. */
    ghost const owner: string
    var tokens: int
    var lastRefillTimestamp: int

    function State(): Bucket
      reads this
    {
      Bucket(tokens, lastRefillTimestamp)
    }

    constructor (ghost owner: string, now: int)
      ensures this.owner == owner && State() == NewBucket(now)
    {
      this.owner := owner;
      tokens := MAX_REQUESTS;
      lastRefillTimestamp := now;
    }

    method TryConsume(now: int) returns (allowed: bool)
      modifies this
      ensures Consumed(allowed, State()) == Consume(old(State()), now)
    {
      Refill(now);
      if tokens > 0 {
        tokens := tokens - 1;
        return true;
      }
      return false;
    }

    method Refill(now: int)
      modifies this
      ensures State() == Refilled(old(State()), now)
    {
      var timePassed := now - lastRefillTimestamp;
      if timePassed >= WINDOW_SIZE_MS {
        tokens := MAX_REQUESTS;
        lastRefillTimestamp := now;
      }
    }
  }

  /** The service: a map from client id to that client's bucket object. */
  class RateLimiterService {
    var buckets: map<string, TokenBucket>
    /** The buckets as values. */
    ghost var model: map<string, Bucket>

    /** `model` holds the value of every client's bucket; each bucket was
        created for its client, so distinct clients own distinct bucket
        objects; every bucket is in range. */
    ghost predicate Valid()
      reads this, buckets.Values
    {
      && model.Keys == buckets.Keys
      && forall c :: c in buckets ==>
           buckets[c].owner == c && buckets[c].State() == model[c] && InRange(model[c])
    }

    constructor ()
      ensures Valid() && model == map[]
    {
      buckets := map[];
      model := map[];
    }

    method AllowRequest(clientId: string, now: int) returns (allowed: bool)
      requires Valid()
      modifies this, buckets.Values
      ensures Valid()
      ensures Admission(allowed, model) == Allow(old(model), clientId, now)
      ensures clientId in buckets && buckets == old(buckets)[clientId := buckets[clientId]]
      ensures clientId in old(buckets) ==> buckets == old(buckets)
      ensures clientId !in old(buckets) ==> fresh(buckets[clientId])
    {
      var bucket := BucketFor(clientId, now);
      AllowAfterLookup(old(model), model, clientId, now);
      allowed := SpendFrom(clientId, bucket, now);
    }

    /** `tryConsume()` on the client's bucket, with `model` kept in step. */
    method SpendFrom(clientId: string, bucket: TokenBucket, now: int) returns (allowed: bool)
      requires Valid() && clientId in buckets && buckets[clientId] == bucket
      modifies this`model, bucket
      ensures Valid()
      ensures Admission(allowed, model) == Admission(Consume(old(model[clientId]), now).allowed,
                                                     old(model)[clientId := Consume(old(model[clientId]), now).bucket])
    {
      ghost var start := bucket.State();
      assert forall d :: d in buckets ==> buckets[d].owner == d;
      allowed := bucket.TryConsume(now);
      model := model[clientId := bucket.State()];
      forall d | d in buckets && d != clientId
        ensures buckets[d].State() == model[d]
      {
        assert buckets[d].owner != bucket.owner;
      }
    }

    /** `computeIfAbsent(clientId, k -> new TokenBucket())`: the client's
        bucket, created full at `now` and added to the map if it had none. */
    method BucketFor(clientId: string, now: int) returns (bucket: TokenBucket)
      requires Valid()
      modifies this
      ensures Valid()
      ensures buckets == old(buckets)[clientId := bucket]
      ensures clientId in old(buckets) ==> bucket == old(buckets[clientId])
      ensures clientId !in old(buckets) ==> fresh(bucket)
      ensures bucket.owner == clientId
      ensures model == old(model)[clientId := bucket.State()]
      ensures bucket.State() == if clientId in old(buckets) then old(model)[clientId] else NewBucket(now)
    {
      if clientId in buckets {
        bucket := buckets[clientId];
        assert buckets == old(buckets)[clientId := bucket];
        assert model == old(model)[clientId := bucket.State()];
      } else {
        bucket := new TokenBucket(clientId, now);
        buckets := buckets[clientId := bucket];
        model := model[clientId := bucket.State()];
      }
    }
  }
}

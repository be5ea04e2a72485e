/**
 * The idempotency store: a map from client-supplied key to a record that
 * is either still being processed (kept for five minutes) or completed
 * with a status and body to replay (kept for 24 hours). Records expire
 * strictly after their expiry instant. The clock reading is the
 * parameter `now` (milliseconds).
 */
module Idempotency {
  import opened Wrappers
  import opened JavaText
  import opened Http

  const IDEMPOTENCY_KEY_TTL_HOURS: int := 24
  const PROCESSING_TTL_MS: int := 300 * 1000
  const COMPLETED_TTL_MS: int := IDEMPOTENCY_KEY_TTL_HOURS * 3600 * 1000
  const CONFLICT: int := 409
  const IN_PROGRESS_BODY: string :=
    "{\"error\": \"Request with this idempotency key is currently being processed\"}"

  /** `IdempotencyRecord`: the processing form has no status or body. */
  datatype Record =
    | Processing(expiresAt: int)
    | Completed(statusCode: int, responseBody: string, expiresAt: int)

  /** `isExpired()`: strictly after the expiry instant. */
  predicate IsExpired(r: Record, now: int) {
    now > r.expiresAt
  }

  type Store = map<string, Record>

  /** A key the service acts on: not null and not blank. */
  predicate Usable(key: Option<string>) {
    PresentNonBlank(key)
  }

  /** `key` has a record that has not expired at `now`. */
  predicate Live(s: Store, key: string, now: int) {
    key in s && !IsExpired(s[key], now)
  }

  /** The 409 returned while a key is being processed. */
  function InProgressResponse(): Response {
    TextResponse(CONFLICT, IN_PROGRESS_BODY)
  }

  /** The result of `checkIdempotency` (None is `null`: proceed) and the
      store it leaves. */
  datatype CheckResult = CheckResult(response: Option<Response>, store: Store)

  /** `checkIdempotency(key)` at `now`. The caller may proceed exactly when
      the key is unusable or has no live record; a live processing record
      yields the 409, a live completed record yields exactly its stored
      status and body. The only change to the store is that an expired
      record of the key is dropped. */
  function Check(s: Store, key: Option<string>, now: int): (r: CheckResult)
    ensures r.response.None? <==> !Usable(key) || !Live(s, key.value, now)
    ensures Usable(key) && Live(s, key.value, now) && s[key.value].Processing? ==>
      r.response == Some(InProgressResponse())
    ensures Usable(key) && Live(s, key.value, now) && s[key.value].Completed? ==>
      r.response == Some(TextResponse(s[key.value].statusCode, s[key.value].responseBody))
    ensures forall k :: k in r.store <==>
      k in s && !(Usable(key) && k == key.value && IsExpired(s[k], now))
    ensures forall k :: k in r.store ==> r.store[k] == s[k]
  {
    if key.None? || IsBlank(key.value) then CheckResult(None, s)
    else if key.value in s then
      var record := s[key.value];
      if IsExpired(record, now) then CheckResult(None, s - {key.value})
      else if record.Processing? then CheckResult(Some(InProgressResponse()), s)
      else CheckResult(Some(TextResponse(record.statusCode, record.responseBody)), s)
    else CheckResult(None, s)
  }

  /** `markAsProcessing(key)` at `now`: a usable key gets a processing
      record expiring five minutes later; nothing else changes. */
  function Mark(s: Store, key: Option<string>, now: int): (r: Store)
    ensures !Usable(key) ==> r == s
    ensures Usable(key) ==>
      r.Keys == s.Keys + {key.value} && r[key.value] == Processing(now + PROCESSING_TTL_MS)
    ensures forall k :: k in s && !(Usable(key) && k == key.value) ==> r[k] == s[k]
  {
    if key.Some? && !IsBlank(key.value) then s[key.value := Processing(now + PROCESSING_TTL_MS)] else s
  }

  /** `storeResponse(key, statusCode, responseBody)` at `now`: a usable key's
      record, whatever it was, becomes a completed record expiring 24 hours
      later; nothing else changes. */
  function Save(s: Store, key: Option<string>, statusCode: int, responseBody: string, now: int): (r: Store)
    ensures !Usable(key) ==> r == s
    ensures Usable(key) ==>
      && r.Keys == s.Keys + {key.value}
      && r[key.value] == Completed(statusCode, responseBody, now + COMPLETED_TTL_MS)
    ensures forall k :: k in s && !(Usable(key) && k == key.value) ==> r[k] == s[k]
  {
    if key.Some? && !IsBlank(key.value) then
      s[key.value := Completed(statusCode, responseBody, now + COMPLETED_TTL_MS)]
    else s
  }

  /** `removeKey(key)`: drops a usable key's record and touches nothing else. */
  function Remove(s: Store, key: Option<string>): (r: Store)
    ensures !Usable(key) ==> r == s
    ensures Usable(key) ==> r.Keys == s.Keys - {key.value}
    ensures forall k :: k in r ==> r[k] == s[k]
  {
    if key.Some? && !IsBlank(key.value) then s - {key.value} else s
  }

  /** `cleanupExpiredKeys()` at `now`: exactly the records that have expired,
      processing or completed, are removed; all others are kept unchanged. */
  function Sweep(s: Store, now: int): (r: Store)
    ensures forall k :: k in r <==> k in s && !IsExpired(s[k], now)
    ensures forall k :: k in r ==> r[k] == s[k]
  {
    map k | k in s && !IsExpired(s[k], now) :: s[k]
  }

  /** A stored response is replayed verbatim, and the store left alone,
      until its 24 hours have passed. */
  lemma ReplayUntilExpiry(s: Store, key: string, statusCode: int, responseBody: string, saved: int, now: int)
    requires !IsBlank(key)
    requires now <= saved + COMPLETED_TTL_MS
    ensures var s' := Save(s, Some(key), statusCode, responseBody, saved);
      Check(s', Some(key), now) == CheckResult(Some(TextResponse(statusCode, responseBody)), s')
  {
  }

  /** A key marked as processing answers 409 up to and including its expiry
      instant, and is free again (its record dropped) right after it, long
      before a completed record would expire. */
  lemma ProcessingSelfHeals(s: Store, key: string, marked: int, now: int)
    requires !IsBlank(key)
    ensures var s' := Mark(s, Some(key), marked);
      && (now <= marked + PROCESSING_TTL_MS ==>
            Check(s', Some(key), now) == CheckResult(Some(InProgressResponse()), s'))
      && (now > marked + PROCESSING_TTL_MS ==>
            Check(s', Some(key), now) == CheckResult(None, s - {key}))
  {
    var s' := Mark(s, Some(key), marked);
    assert s' - {key} == s - {key};
  }

  /** After a release the key may be used again at once. */
  lemma ReleasedKeyProceeds(s: Store, key: Option<string>, now: int)
    ensures Check(Remove(s, key), key, now).response.None?
  {
  }

  /** Sweeping never changes what a later check answers. */
  lemma SweepUnobservable(s: Store, key: Option<string>, swept: int, now: int)
    requires swept <= now
    ensures Check(Sweep(s, swept), key, now).response == Check(s, key, now).response
  {
  }

  /** A second sweep at a later instant is the same as one sweep then. */
  lemma SweepsCompose(s: Store, t1: int, t2: int)
    requires t1 <= t2
    ensures Sweep(Sweep(s, t1), t2) == Sweep(s, t2)
  {
  }

  /** The service object; its store is updated in place. */
  class IdempotencyService {
    var idempotencyStore: Store

    constructor ()
      ensures idempotencyStore == map[]
    {
      idempotencyStore := map[];
    }

    method CheckIdempotency(key: Option<string>, now: int) returns (response: Option<Response>)
      modifies this
      ensures CheckResult(response, idempotencyStore) == Check(old(idempotencyStore), key, now)
    {
      if key.None? || IsBlank(key.value) {
        return None;
      }
      if key.value in idempotencyStore {
        var record := idempotencyStore[key.value];
        if IsExpired(record, now) {
          idempotencyStore := idempotencyStore - {key.value};
          return None;
        }
        if record.Processing? {
          return Some(InProgressResponse());
        }
        return Some(TextResponse(record.statusCode, record.responseBody));
      }
      return None;
    }

    method MarkAsProcessing(key: Option<string>, now: int)
      modifies this
      ensures idempotencyStore == Mark(old(idempotencyStore), key, now)
    {
      if key.Some? && !IsBlank(key.value) {
        idempotencyStore := idempotencyStore[key.value := Processing(now + PROCESSING_TTL_MS)];
      }
    }

    method StoreResponse(key: Option<string>, statusCode: int, responseBody: string, now: int)
      modifies this
      ensures idempotencyStore == Save(old(idempotencyStore), key, statusCode, responseBody, now)
    {
      if key.Some? && !IsBlank(key.value) {
        idempotencyStore := idempotencyStore[key.value :=
          Completed(statusCode, responseBody, now + COMPLETED_TTL_MS)];
      }
    }

    method RemoveKey(key: Option<string>)
      modifies this
      ensures idempotencyStore == Remove(old(idempotencyStore), key)
    {
      if key.Some? && !IsBlank(key.value) {
        idempotencyStore := idempotencyStore - {key.value};
      }
    }

    method CleanupExpiredKeys(now: int)
      modifies this
      ensures idempotencyStore == Sweep(old(idempotencyStore), now)
    {
      idempotencyStore := map k | k in idempotencyStore && !IsExpired(idempotencyStore[k], now)
        :: idempotencyStore[k];
    }
  }
}

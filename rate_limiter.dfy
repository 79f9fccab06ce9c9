/** The `rateLimiter(windowMs, maxRequests, message)` middleware of
    backend/middlewares/rateLimiter.js: bump the per-client, per-route counter,
    set the X-RateLimit headers, answer 429 when over the limit, and let the
    request through on any error. */
module RateLimiter {
  import opened Common
  import opened Redis

  /** `new Date(t)` is a valid date only for |t| <= 8.64e15 milliseconds. */
  const MAX_DATE_MS: int := 8_640_000_000_000_000

  /** The three response headers; the reset time is kept in epoch
      milliseconds rather than formatted as an ISO string. */
  datatype Headers = Headers(limit: int, remaining: int, resetMs: int)

  /** What the middleware does with the request: answer 429 with
      `{error, retryAfter}` without calling `next`, or call `next` exactly
      once, with the headers set or (after a caught error) without them. */
  datatype Outcome =
    | TooMany(headers: Headers, error: string, retryAfter: int)
    | Next(headersSet: Option<Headers>)

  /** The counter key of a request. */
  function RateLimitKey(ip: string, originalUrl: string): (key: string)
    ensures |key| > 11 && key[..11] == "rate_limit:"
  {
    "rate_limit:" + ip + ":" + originalUrl
  }

  /** A counter key never names a cache entry, so counting never disturbs
      the message, user or presence caches. */
  lemma RateLimitKeysSeparate(ip: string, originalUrl: string, conversationId: string, userId: string)
    ensures var key := RateLimitKey(ip, originalUrl);
            key != MessagesKey(conversationId) && key != UserKey(userId) && key != ONLINE_USERS_KEY
  {
    var key := RateLimitKey(ip, originalUrl);
    assert key[0] == 'r' && MessagesKey(conversationId)[0] == 'm' && UserKey(userId)[0] == 'u';
    assert ONLINE_USERS_KEY[0] == 'o';
  }

  /** `new Date(resetTime).toISOString()` does not throw. */
  predicate Formattable(resetTime: Option<int>) {
    resetTime.Some? && -MAX_DATE_MS <= resetTime.value <= MAX_DATE_MS
  }

  /** The middleware after the counter has answered: formatting the reset
      header throws when the answer has no usable reset time, and the catch
      calls `next`; otherwise 429 when not allowed, `next` when allowed. */
  function Respond(maxRequests: int, message: string, result: RateResult, nowMs: int): (o: Outcome)
    ensures o.TooMany? ==> !result.allowed && o.error == message
    ensures o.Next? && o.headersSet.None? ==> !Formattable(result.resetTime)
  {
    if !Formattable(result.resetTime) then Next(None)
    else
      var headers := Headers(maxRequests, result.remaining, result.resetTime.value);
      if !result.allowed then TooMany(headers, message, CeilDiv(result.resetTime.value - nowMs, 1000))
      else Next(Some(headers))
  }

  /** The middleware: the counter step on the cache, then `Respond`. */
  method RateLimit(cache: RedisClient, windowMs: int, maxRequests: int, message: string,
                   ip: string, originalUrl: string, now: int, nowMs: int, fault: Fault)
    returns (o: Outcome)
    modifies cache`store
    ensures var (s, r) := IncrementRateLimitSpec(old(cache.store), cache.isConnected, RateLimitKey(ip, originalUrl),
                                                 windowMs, maxRequests, now, nowMs, fault);
            cache.store == s && o == Respond(maxRequests, message, r, nowMs)
  {
    var key := RateLimitKey(ip, originalUrl);
    var result := cache.IncrementRateLimit(key, windowMs, maxRequests, now, nowMs, fault);
    o := Respond(maxRequests, message, result, nowMs);
  }

  /** Fail open: with the cache disconnected, or a cache command throwing,
      the request goes through without headers. */
  lemma FailsOpen(store: Store, connected: bool, key: string, windowMs: int, maxRequests: int,
                  message: string, now: int, nowMs: int, fault: Fault)
    requires !connected || fault != NoFault
    ensures Respond(maxRequests, message,
                    IncrementRateLimitSpec(store, connected, key, windowMs, maxRequests, now, nowMs, fault).1, nowMs)
            == Next(None)
  {
  }

  /** On a working cache (and a clock far from the end of the Date range) the
      request is refused exactly when the new count exceeds the limit; a
      refusal carries `retryAfter` equal to the seconds left in the window,
      and an admission carries the limit, the remaining budget and the reset
      time in its headers. */
  lemma RefusedIffOverLimit(store: Store, key: string, windowMs: int, maxRequests: int,
                            message: string, now: int, nowMs: int)
    requires windowMs > 0 && IncrAccepts(store, key, now)
    requires 0 <= nowMs <= MAX_DATE_MS / 2
    requires forall k :: k in store && store[k].expiresAt.Some? ==> store[k].expiresAt.value <= now + MAX_DATE_MS / 4000
    requires windowMs <= MAX_DATE_MS / 4
    ensures var (s, r) := IncrementRateLimitSpec(store, true, key, windowMs, maxRequests, now, nowMs, NoFault);
            var count := CountAt(store, key, now) + 1;
            var o := Respond(maxRequests, message, r, nowMs);
            && (o.TooMany? <==> count > maxRequests)
            && (o.TooMany? ==> o.retryAfter == TtlAt(s, key, now))
            && (o.Next? ==> o.headersSet == Some(Headers(maxRequests, Max(0, maxRequests - count), nowMs + TtlAt(s, key, now) * 1000)))
  {
    var (s, r) := IncrementRateLimitSpec(store, true, key, windowMs, maxRequests, now, nowMs, NoFault);
    RateLimitCounts(store, key, windowMs, maxRequests, now, nowMs, key);
    var ttl := TtlAt(s, key, now);
    assert ttl <= MAX_DATE_MS / 4000 by {
      if CountAt(store, key, now) + 1 != 1 {
        assert Live(store, key, now);
      }
    }
    assert -2 <= ttl;
    assert r.resetTime == Some(nowMs + ttl * 1000);
    assert Formattable(r.resetTime);
    assert CeilDiv(ttl * 1000, 1000) == ttl;
  }
}

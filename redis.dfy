/** The `RedisClient` singleton of backend/utils/redis.js: a fail-soft
    wrapper over one Redis keyspace. The keyspace is a map from key to a value
    and an optional absolute expiry, in whole seconds of a clock `now` that
    every operation receives. A `fault` parameter stands for the Redis command
    throwing (connection lost mid-call, wrong value type); every method catches
    it and answers `false` or `null`. */
module Redis {
  import opened Common
  import opened Records

  const MESSAGE_CACHE_TTL: int := 3600
  /** The default `ttl` argument of `cacheOnlineUsers`. */
  const ONLINE_USERS_TTL: int := 300
  const ONLINE_USERS_KEY: string := "online:users"
  /** INCR fails on a counter that would leave the signed 64-bit range. */
  const MAX_COUNTER: int := 0x7fff_ffff_ffff_ffff

  /** What a key holds: the JSON texts the client writes, kept decoded. */
  datatype Value =
    | MessageList(messages: seq<Message>)
    | UserData(data: string)
    | UserList(users: seq<UserId>)
    | Counter(count: int)

  datatype Entry = Entry(value: Value, expiresAt: Option<int>)

  type Store = map<string, Entry>

  function MessagesKey(conversationId: string): (key: string) {
    "messages:" + conversationId
  }

  function UserKey(userId: string): (key: string) {
    "user:" + userId
  }

  /** A key exists and has not expired at time `now`. */
  predicate Live(store: Store, key: string, now: int) {
    key in store && (store[key].expiresAt.None? || now < store[key].expiresAt.value)
  }

  /** GET: the value of a live key. */
  function Get(store: Store, key: string, now: int): (r: Option<Value>)
    ensures r.Some? <==> Live(store, key, now)
    ensures r.Some? ==> r.value == store[key].value
  {
    if Live(store, key, now) then Some(store[key].value) else None
  }

  /** SETEX: store a value that expires `ttl` seconds from now. */
  function SetEx(store: Store, key: string, ttl: int, value: Value, now: int): (s: Store) {
    store[key := Entry(value, Some(now + ttl))]
  }

  /** DEL: remove a key, present or not. */
  function Del(store: Store, key: string): (s: Store) {
    store - {key}
  }

  lemma GetAfterSetEx(store: Store, key: string, ttl: int, value: Value, now: int, t: int, other: string)
    requires now <= t
    ensures Get(SetEx(store, key, ttl, value, now), key, t) == (if t < now + ttl then Some(value) else None)
    ensures other != key ==> Get(SetEx(store, key, ttl, value, now), other, t) == Get(store, other, t)
  {
  }

  lemma GetAfterDel(store: Store, key: string, t: int, other: string)
    ensures Get(Del(store, key), key, t) == None
    ensures other != key ==> Get(Del(store, key), other, t) == Get(store, other, t)
  {
  }

  /** The three key families never collide, and the message-cache key names
      exactly one conversation id. */
  lemma KeyFamiliesDisjoint(a: string, b: string, c: string)
    ensures MessagesKey(a) != UserKey(b)
    ensures MessagesKey(a) != ONLINE_USERS_KEY && UserKey(b) != ONLINE_USERS_KEY
    ensures MessagesKey(a) == MessagesKey(c) <==> a == c
  {
    assert MessagesKey(a)[0] == 'm' && UserKey(b)[0] == 'u' && ONLINE_USERS_KEY[0] == 'o';
    if MessagesKey(a) == MessagesKey(c) {
      assert a == MessagesKey(a)[9..] && c == MessagesKey(c)[9..];
    }
  }

  /** The message list cached for a conversation, if any. */
  function MessagesAt(store: Store, conversationId: string, now: int): (r: Option<seq<Message>>) {
    match Get(store, MessagesKey(conversationId), now)
    case Some(MessageList(ms)) => Some(ms)
    case _ => None
  }

  /** The user record cached for a user, if any. */
  function UserAt(store: Store, userId: UserId, now: int): (r: Option<string>) {
    match Get(store, UserKey(userId), now)
    case Some(UserData(d)) => Some(d)
    case _ => None
  }

  /** The cached online-user list, if any. */
  function OnlineUsersAt(store: Store, now: int): (r: Option<seq<UserId>>) {
    match Get(store, ONLINE_USERS_KEY, now)
    case Some(UserList(us)) => Some(us)
    case _ => None
  }

  /** Caching a conversation's messages makes them readable until the TTL
      elapses and changes what no other conversation, user or presence read
      returns. */
  lemma CachedMessagesReadBack(store: Store, id: string, ms: seq<Message>, now: int, t: int, otherId: string, userId: UserId)
    requires now <= t < now + MESSAGE_CACHE_TTL
    ensures var s := SetEx(store, MessagesKey(id), MESSAGE_CACHE_TTL, MessageList(ms), now);
            && MessagesAt(s, id, t) == Some(ms)
            && (otherId != id ==> MessagesAt(s, otherId, t) == MessagesAt(store, otherId, t))
            && UserAt(s, userId, t) == UserAt(store, userId, t)
            && OnlineUsersAt(s, t) == OnlineUsersAt(store, t)
  {
    KeyFamiliesDisjoint(id, userId, otherId);
  }

  /** After invalidation a conversation reads as a miss; nothing else
      changes. */
  lemma InvalidatedMessagesMiss(store: Store, id: string, t: int, otherId: string, userId: UserId)
    ensures var s := Del(store, MessagesKey(id));
            && MessagesAt(s, id, t) == None
            && (otherId != id ==> MessagesAt(s, otherId, t) == MessagesAt(store, otherId, t))
            && UserAt(s, userId, t) == UserAt(store, userId, t)
            && OnlineUsersAt(s, t) == OnlineUsersAt(store, t)
  {
    KeyFamiliesDisjoint(id, userId, otherId);
  }

  /** The online-user list reads back until its TTL elapses, whatever was
      there before, and is gone afterwards. */
  lemma OnlineUsersReadBack(store: Store, users: seq<UserId>, ttl: int, now: int, t: int, id: string)
    requires now <= t
    ensures var s := SetEx(store, ONLINE_USERS_KEY, ttl, UserList(users), now);
            && OnlineUsersAt(s, t) == (if t < now + ttl then Some(users) else None)
            && MessagesAt(s, id, t) == MessagesAt(store, id, t)
  {
    KeyFamiliesDisjoint(id, "", id);
  }

  // ---------------------------------------------------------------------
  // The fixed-window counter of `incrementRateLimit`

  /** Where a rate-limit call is interrupted by a throwing command:
      nowhere, at INCR itself, at the command right after INCR (EXPIRE on a
      new window, TTL otherwise), or at TTL (after EXPIRE has succeeded on a
      new window). */
  datatype Fault = NoFault | FailsAtIncr | FailsAfterIncr | FailsAtTtl

  /** `{allowed, remaining, resetTime}`; `resetTime` is absent on the
      disconnected and failure answers. */
  datatype RateResult = RateResult(allowed: bool, remaining: int, resetTime: Option<int>)

  /** The live counter at a key, 0 when there is none. */
  function CountAt(store: Store, key: string, now: int): (count: int) {
    match Get(store, key, now)
    case Some(Counter(n)) => n
    case _ => 0
  }

  /** INCR succeeds on a missing or expired key and on a counter below the
      64-bit limit; on anything else it throws. */
  predicate IncrAccepts(store: Store, key: string, now: int) {
    match Get(store, key, now)
    case None => true
    case Some(Counter(n)) => n < MAX_COUNTER
    case Some(_) => false
  }

  /** INCR: raise the counter by one, keeping its expiry; a missing key
      starts a counter at 1 with no expiry. */
  function Incr(store: Store, key: string, now: int): (r: (Store, int))
    requires IncrAccepts(store, key, now)
    ensures r.1 == CountAt(store, key, now) + 1
  {
    if Live(store, key, now) then
      (store[key := Entry(Counter(store[key].value.count + 1), store[key].expiresAt)], store[key].value.count + 1)
    else
      (store[key := Entry(Counter(1), None)], 1)
  }

  /** EXPIRE: a positive number of seconds sets the expiry; any other
      number deletes the key. */
  function Expire(store: Store, key: string, seconds: int, now: int): (s: Store)
    requires key in store
  {
    if seconds > 0 then store[key := store[key].(expiresAt := Some(now + seconds))]
    else store - {key}
  }

  /** TTL: remaining seconds of a live key, -1 for a live key without
      expiry, -2 for a missing one. */
  function TtlAt(store: Store, key: string, now: int): (ttl: int) {
    if !Live(store, key, now) then -2
    else if store[key].expiresAt.None? then -1
    else store[key].expiresAt.value - now
  }

  /** The answer after a caught error: let the request through. */
  function FailOpen(maxRequests: int): (r: RateResult) {
    RateResult(true, maxRequests, None)
  }

  /** The whole of `incrementRateLimit` on the keyspace: the new keyspace
      and the answer. `nowMs` is `Date.now()`. */
  function IncrementRateLimitSpec(store: Store, connected: bool, key: string, windowMs: int, maxRequests: int,
                                  now: int, nowMs: int, fault: Fault): (r: (Store, RateResult))
  {
    if !connected then (store, RateResult(false, 0, None))
    else if fault == FailsAtIncr || !IncrAccepts(store, key, now) then (store, FailOpen(maxRequests))
    else
      var (s1, current) := Incr(store, key, now);
      if fault == FailsAfterIncr then (s1, FailOpen(maxRequests))
      else
        var s2 := if current == 1 then Expire(s1, key, CeilDiv(windowMs, 1000), now) else s1;
        if fault == FailsAtTtl then (s2, FailOpen(maxRequests))
        else
        (s2, RateResult(current <= maxRequests, Max(0, maxRequests - current),
                        Some(nowMs + TtlAt(s2, key, now) * 1000)))
  }

  /** Disconnected: refuse with nothing remaining, no reset time, and leave
      the keyspace alone. A failing command, including INCR refusing a key
      that holds no counter or one at the 64-bit limit: let the request
      through with the full budget. */
  lemma RateLimitGuards(store: Store, connected: bool, key: string, windowMs: int, maxRequests: int,
                        now: int, nowMs: int, fault: Fault)
    ensures !connected ==>
      IncrementRateLimitSpec(store, connected, key, windowMs, maxRequests, now, nowMs, fault)
        == (store, RateResult(false, 0, None))
    ensures connected && fault != NoFault ==>
      IncrementRateLimitSpec(store, connected, key, windowMs, maxRequests, now, nowMs, fault).1
        == RateResult(true, maxRequests, None)
    ensures connected && fault == FailsAtIncr ==>
      IncrementRateLimitSpec(store, connected, key, windowMs, maxRequests, now, nowMs, fault).0 == store
    ensures connected && !IncrAccepts(store, key, now) ==>
      IncrementRateLimitSpec(store, connected, key, windowMs, maxRequests, now, nowMs, fault)
        == (store, RateResult(true, maxRequests, None))
  {
  }

  /** A throw after INCR on a new window lets the request through but keeps
      the counter at 1: without an expiry when EXPIRE threw, with the
      window's expiry when only TTL threw. */
  lemma FaultAfterIncrKeepsCounter(store: Store, key: string, windowMs: int, maxRequests: int,
                                   now: int, nowMs: int, fault: Fault)
    requires windowMs > 0 && !Live(store, key, now)
    requires fault == FailsAfterIncr || fault == FailsAtTtl
    ensures var (s, r) := IncrementRateLimitSpec(store, true, key, windowMs, maxRequests, now, nowMs, fault);
            && r == RateResult(true, maxRequests, None)
            && key in s && s[key].value == Counter(1)
            && s[key].expiresAt == (if fault == FailsAtTtl then Some(now + CeilDiv(windowMs, 1000)) else None)
            && (forall other :: other != key ==> (other in s <==> other in store))
            && forall other :: other != key && other in store ==> s[other] == store[other]
  {
    assert IncrAccepts(store, key, now);
    assert CeilDiv(windowMs, 1000) > 0;
  }

  /** Within a live window (a counter INCR has already raised to 1 or more)
      a throw after INCR still counts the request: the counter rises by
      exactly one and keeps its expiry, no other key changes, and the
      request is let through. */
  lemma FaultInLiveWindowCounts(store: Store, key: string, windowMs: int, maxRequests: int,
                                now: int, nowMs: int, fault: Fault)
    requires IncrAccepts(store, key, now) && CountAt(store, key, now) >= 1
    requires fault == FailsAfterIncr || fault == FailsAtTtl
    ensures var (s, r) := IncrementRateLimitSpec(store, true, key, windowMs, maxRequests, now, nowMs, fault);
            && r == RateResult(true, maxRequests, None)
            && key in s && CountAt(s, key, now) == CountAt(store, key, now) + 1
            && s[key].expiresAt == store[key].expiresAt
            && (forall other :: other != key ==> (other in s <==> other in store))
            && forall other :: other != key && other in store ==> s[other] == store[other]
  {
    assert Live(store, key, now);
    var (s1, current) := Incr(store, key, now);
    assert current == CountAt(store, key, now) + 1 && current != 1;
    assert Live(s1, key, now);
  }

  /** A successful call raises the counter by exactly one, sets the expiry
      (ceil(windowMs / 1000) seconds) only when the counter becomes 1 and
      leaves every other key as it was; it allows the request iff the new
      count is within the limit and reports what remains of the budget. */
  lemma RateLimitCounts(store: Store, key: string, windowMs: int, maxRequests: int, now: int, nowMs: int, other: string)
    requires windowMs > 0 && IncrAccepts(store, key, now)
    ensures var (s, r) := IncrementRateLimitSpec(store, true, key, windowMs, maxRequests, now, nowMs, NoFault);
            var count := CountAt(store, key, now) + 1;
            && CountAt(s, key, now) == count
            && key in s
            && s[key].expiresAt == (if count == 1 then Some(now + CeilDiv(windowMs, 1000)) else store[key].expiresAt)
            && (other != key ==> (other in s <==> other in store))
            && (other != key && other in store ==> s[other] == store[other])
            && (r.allowed <==> count <= maxRequests)
            && r.remaining == Max(0, maxRequests - count) && r.remaining >= 0
            && r.resetTime.Some?
  {
    var (s1, current) := Incr(store, key, now);
    assert current == CountAt(store, key, now) + 1;
    if current == 1 {
      var secs := CeilDiv(windowMs, 1000);
      assert secs > 0;
      var s2 := Expire(s1, key, secs, now);
      assert s2[key] == Entry(Counter(1), Some(now + secs));
      assert Live(s2, key, now);
      assert CountAt(s2, key, now) == 1;
    } else {
      assert Live(store, key, now);
    }
  }

  /** The fixed-window example: with a one-second window and a limit of 3,
      four calls within the window answer allowed, allowed, allowed, refused,
      and the fourth reports nothing remaining. */
  lemma FourCallsInOneWindow(store: Store, key: string, now: int, nowMs: int)
    requires !Live(store, key, now)
    ensures var (s1, r1) := IncrementRateLimitSpec(store, true, key, 1000, 3, now, nowMs, NoFault);
            var (s2, r2) := IncrementRateLimitSpec(s1, true, key, 1000, 3, now, nowMs, NoFault);
            var (s3, r3) := IncrementRateLimitSpec(s2, true, key, 1000, 3, now, nowMs, NoFault);
            var (s4, r4) := IncrementRateLimitSpec(s3, true, key, 1000, 3, now, nowMs, NoFault);
            r1.allowed && r2.allowed && r3.allowed && !r4.allowed && r4.remaining == 0
  {
    var (s1, r1) := IncrementRateLimitSpec(store, true, key, 1000, 3, now, nowMs, NoFault);
    RateLimitCounts(store, key, 1000, 3, now, nowMs, key);
    assert CountAt(s1, key, now) == 1 && Live(s1, key, now);
    var (s2, r2) := IncrementRateLimitSpec(s1, true, key, 1000, 3, now, nowMs, NoFault);
    RateLimitCounts(s1, key, 1000, 3, now, nowMs, key);
    assert CountAt(s2, key, now) == 2 && Live(s2, key, now);
    var (s3, r3) := IncrementRateLimitSpec(s2, true, key, 1000, 3, now, nowMs, NoFault);
    RateLimitCounts(s2, key, 1000, 3, now, nowMs, key);
    assert CountAt(s3, key, now) == 3;
    RateLimitCounts(s3, key, 1000, 3, now, nowMs, key);
  }

  // ---------------------------------------------------------------------
  // The client object

  class RedisClient {
    var hasClient: bool
    var isConnected: bool
    /** The keyspace of the Redis server the client talks to. */
    var store: Store

    constructor (server: Store)
      ensures !hasClient && !isConnected && store == server
    {
      hasClient, isConnected, store := false, false, server;
    }

    /** `connect`: create the client; it is connected iff the server is
        reachable, and the answer says so. */
    method Connect(reachable: bool) returns (ok: bool)
      modifies this`hasClient, this`isConnected
      ensures hasClient && ok == reachable && isConnected == reachable
    {
      hasClient := true;
      isConnected := reachable;
      ok := reachable;
    }

    /** `disconnect`: only a created client is disconnected. */
    method Disconnect()
      modifies this`isConnected
      ensures isConnected == (old(isConnected) && !hasClient)
    {
      if hasClient {
        isConnected := false;
      }
    }

    /** The client's `error` event. */
    method OnError()
      modifies this`isConnected
      ensures !isConnected
    {
      isConnected := false;
    }

    /** `cacheUser`: SETEX `user:<id>`; fails on a disconnected client, a
        throwing command or a non-positive TTL (Redis rejects it). */
    method CacheUser(userId: UserId, userData: string, ttl: int, now: int, fault: bool) returns (ok: bool)
      modifies this`store
      ensures ok <==> isConnected && !fault && ttl > 0
      ensures store == if ok then SetEx(old(store), UserKey(userId), ttl, UserData(userData), now) else old(store)
    {
      if !isConnected {
        return false;
      }
      if fault || ttl <= 0 {
        return false;
      }
      store := SetEx(store, UserKey(userId), ttl, UserData(userData), now);
      ok := true;
    }

    /** `getCachedUser`. */
    method GetCachedUser(userId: UserId, now: int, fault: bool) returns (r: Option<string>)
      ensures !isConnected || fault ==> r == None
      ensures isConnected && !fault ==> r == UserAt(store, userId, now)
    {
      if !isConnected || fault {
        return None;
      }
      r := UserAt(store, userId, now);
    }

    /** `cacheMessages`: SETEX `messages:<id>` for one hour. */
    method CacheMessages(conversationId: string, messages: seq<Message>, now: int, fault: bool) returns (ok: bool)
      modifies this`store
      ensures ok <==> isConnected && !fault
      ensures store == if ok then SetEx(old(store), MessagesKey(conversationId), MESSAGE_CACHE_TTL, MessageList(messages), now)
                       else old(store)
    {
      if !isConnected || fault {
        return false;
      }
      store := SetEx(store, MessagesKey(conversationId), MESSAGE_CACHE_TTL, MessageList(messages), now);
      ok := true;
    }

    /** `getCachedMessages`: the cached list (an empty list is a hit), or
        `null`. */
    method GetCachedMessages(conversationId: string, now: int, fault: bool) returns (r: Option<seq<Message>>)
      ensures !isConnected || fault ==> r == None
      ensures isConnected && !fault ==> r == MessagesAt(store, conversationId, now)
    {
      if !isConnected || fault {
        return None;
      }
      r := MessagesAt(store, conversationId, now);
    }

    /** `invalidateMessagesCache`: DEL `messages:<id>`. */
    method InvalidateMessagesCache(conversationId: string, fault: bool) returns (ok: bool)
      modifies this`store
      ensures ok <==> isConnected && !fault
      ensures store == if ok then Del(old(store), MessagesKey(conversationId)) else old(store)
    {
      if !isConnected || fault {
        return false;
      }
      store := Del(store, MessagesKey(conversationId));
      ok := true;
    }

    /** `cacheOnlineUsers`: SETEX the single `online:users` entry. */
    method CacheOnlineUsers(users: seq<UserId>, ttl: int, now: int, fault: bool) returns (ok: bool)
      modifies this`store
      ensures ok <==> isConnected && !fault && ttl > 0
      ensures store == if ok then SetEx(old(store), ONLINE_USERS_KEY, ttl, UserList(users), now) else old(store)
    {
      if !isConnected || fault || ttl <= 0 {
        return false;
      }
      store := SetEx(store, ONLINE_USERS_KEY, ttl, UserList(users), now);
      ok := true;
    }

    /** `getCachedOnlineUsers`. */
    method GetCachedOnlineUsers(now: int, fault: bool) returns (r: Option<seq<UserId>>)
      ensures !isConnected || fault ==> r == None
      ensures isConnected && !fault ==> r == OnlineUsersAt(store, now)
    {
      if !isConnected || fault {
        return None;
      }
      r := OnlineUsersAt(store, now);
    }

    /** `incrementRateLimit`: INCR, EXPIRE on the first hit of a window,
        TTL, and the answer; see `IncrementRateLimitSpec`. */
    method IncrementRateLimit(key: string, windowMs: int, maxRequests: int, now: int, nowMs: int, fault: Fault)
      returns (r: RateResult)
      modifies this`store
      ensures (store, r) == IncrementRateLimitSpec(old(store), isConnected, key, windowMs, maxRequests, now, nowMs, fault)
    {
      if !isConnected {
        return RateResult(false, 0, None);
      }
      if fault == FailsAtIncr || !IncrAccepts(store, key, now) {
        return FailOpen(maxRequests);
      }
      var current;
      store, current := Incr(store, key, now).0, Incr(store, key, now).1;
      if fault == FailsAfterIncr {
        return FailOpen(maxRequests);
      }
      if current == 1 {
        store := Expire(store, key, CeilDiv(windowMs, 1000), now);
      }
      if fault == FailsAtTtl {
        return FailOpen(maxRequests);
      }
      var ttl := TtlAt(store, key, now);
      r := RateResult(current <= maxRequests, Max(0, maxRequests - current), Some(nowMs + ttl * 1000));
    }
  }
}

/** The presence registry of backend/socket/socket.js: the module-level
    `userSocketMap` object, `getReceiverSocketId`, and the `connection` and
    `disconnect` handlers. A JavaScript object enumerates its string keys
    that are not array indices in insertion order; user ids are taken to be
    such keys (as every ObjectId is), so the map is an association list:
    `delete` removes a key and a later assignment re-inserts it at the end.
    Array-index keys, which JavaScript lists first in numeric order, are
    not modelled. Emits are returned as events instead of being sent. */
module Presence {
  import opened Common
  import opened Records
  import Redis

  type SocketId = string

  /** `userSocketMap`: userId to socket id, in key insertion order. */
  type SocketMap = seq<(UserId, SocketId)>

  /** `Object.keys(userSocketMap)`, for keys that are not array indices. */
  function Keys(m: SocketMap): (ks: seq<UserId>)
    ensures |ks| == |m|
    ensures forall i :: 0 <= i < |m| ==> ks[i] == m[i].0
  {
    if m == [] then [] else [m[0].0] + Keys(m[1..])
  }

  /** An object has at most one own property per key. */
  predicate DistinctKeys(m: SocketMap) {
    forall i, j :: 0 <= i < j < |m| ==> m[i].0 != m[j].0
  }

  /** `userSocketMap[u]`: the socket id bound to `u`, if any. */
  function Get(m: SocketMap, u: UserId): (r: Option<SocketId>)
    ensures r.Some? <==> u in Keys(m)
    ensures r.Some? ==> (u, r.value) in m
  {
    if m == [] then None
    else if m[0].0 == u then Some(m[0].1)
    else Get(m[1..], u)
  }

  /** `delete userSocketMap[u]`. */
  function Delete(m: SocketMap, u: UserId): (r: SocketMap)
    ensures forall p :: p in r <==> p in m && p.0 != u
  {
    if m == [] then []
    else if m[0].0 == u then Delete(m[1..], u)
    else [m[0]] + Delete(m[1..], u)
  }

  /** Rebind every entry of `u` to `s`, in place. */
  function Rebind(m: SocketMap, u: UserId, s: SocketId): (r: SocketMap)
    ensures Keys(r) == Keys(m)
  {
    if m == [] then []
    else [if m[0].0 == u then (u, s) else m[0]] + Rebind(m[1..], u, s)
  }

  /** `userSocketMap[u] = s`: an existing key keeps its place, a new key goes
      last. */
  function Assign(m: SocketMap, u: UserId, s: SocketId): (r: SocketMap) {
    if u in Keys(m) then Rebind(m, u, s) else m + [(u, s)]
  }

  /** The user ids of a list with one id removed, in order. */
  function Without(ks: seq<UserId>, u: UserId): (r: seq<UserId>) {
    if ks == [] then []
    else if ks[0] == u then Without(ks[1..], u)
    else [ks[0]] + Without(ks[1..], u)
  }

  lemma {:induction false} GetRebind(m: SocketMap, u: UserId, s: SocketId, v: UserId)
    ensures Get(Rebind(m, u, s), v) == if v == u && u in Keys(m) then Some(s) else Get(m, v)
    decreases |m|
  {
    if m != [] {
      GetRebind(m[1..], u, s, v);
      assert Rebind(m, u, s)[1..] == Rebind(m[1..], u, s);
    }
  }

  lemma {:induction false} GetAppend(m: SocketMap, u: UserId, s: SocketId, v: UserId)
    requires u !in Keys(m)
    ensures Get(m + [(u, s)], v) == if v == u then Some(s) else Get(m, v)
    decreases |m|
  {
    if m == [] {
    } else {
      assert (m + [(u, s)])[1..] == m[1..] + [(u, s)];
      assert Keys(m) == [m[0].0] + Keys(m[1..]);
      GetAppend(m[1..], u, s, v);
    }
  }

  /** After `userSocketMap[u] = s` the user is bound to exactly `s`, and
      every other user's binding is what it was. */
  lemma GetAssign(m: SocketMap, u: UserId, s: SocketId, v: UserId)
    ensures Get(Assign(m, u, s), v) == if v == u then Some(s) else Get(m, v)
  {
    if u in Keys(m) {
      GetRebind(m, u, s, v);
    } else {
      GetAppend(m, u, s, v);
    }
  }

  /** After `delete userSocketMap[u]` the user has no binding, and every
      other user's binding is what it was. */
  lemma {:induction false} GetDelete(m: SocketMap, u: UserId, v: UserId)
    ensures Get(Delete(m, u), v) == if v == u then None else Get(m, v)
    decreases |m|
  {
    if m != [] {
      GetDelete(m[1..], u, v);
    }
  }

  lemma {:induction false} KeysDelete(m: SocketMap, u: UserId)
    ensures Keys(Delete(m, u)) == Without(Keys(m), u)
    decreases |m|
  {
    if m != [] {
      KeysDelete(m[1..], u);
      assert Keys(m)[1..] == Keys(m[1..]);
      if m[0].0 != u {
        assert Keys([m[0]] + Delete(m[1..], u)) == [m[0].0] + Keys(Delete(m[1..], u));
      }
    }
  }

  lemma {:induction false} WithoutNotIn(ks: seq<UserId>, u: UserId)
    ensures u !in Without(ks, u)
    ensures forall v :: v in Without(ks, u) <==> v in ks && v != u
    decreases |ks|
  {
    if ks != [] {
      WithoutNotIn(ks[1..], u);
    }
  }

  /** A list without duplicates: the shape of every `getOnlineUsers`
      broadcast. */
  predicate NoDuplicates(ks: seq<UserId>) {
    forall i, j :: 0 <= i < j < |ks| ==> ks[i] != ks[j]
  }

  lemma DistinctKeysNoDuplicates(m: SocketMap)
    requires DistinctKeys(m)
    ensures NoDuplicates(Keys(m))
  {
  }

  lemma {:induction false} DeleteKeepsDistinct(m: SocketMap, u: UserId)
    requires DistinctKeys(m)
    ensures DistinctKeys(Delete(m, u))
    decreases |m|
  {
    if m != [] {
      DeleteKeepsDistinct(m[1..], u);
      var rest := Delete(m[1..], u);
      if m[0].0 != u {
        var r := [m[0]] + rest;
        forall i, j | 0 <= i < j < |r| ensures r[i].0 != r[j].0 {
          if i == 0 {
            assert r[j] in rest;
            assert r[j] in m[1..];
          }
        }
      }
    }
  }

  lemma AssignKeepsDistinct(m: SocketMap, u: UserId, s: SocketId)
    requires DistinctKeys(m)
    ensures DistinctKeys(Assign(m, u, s))
  {
    if u in Keys(m) {
      var r := Rebind(m, u, s);
      assert Keys(r) == Keys(m);
      forall i, j | 0 <= i < j < |r| ensures r[i].0 != r[j].0 {
        assert Keys(r)[i] == r[i].0 && Keys(r)[j] == r[j].0;
      }
    }
  }

  /** Assigning a user that is not in the map adds it as the last key;
      assigning one that is leaves the key list as it was (ids that are not
      array indices). */
  lemma KeysAssign(m: SocketMap, u: UserId, s: SocketId)
    ensures Keys(Assign(m, u, s)) == if u in Keys(m) then Keys(m) else Keys(m) + [u]
  {
    if u !in Keys(m) {
      assert Keys(m + [(u, s)]) == Keys(m) + [u];
    }
  }

  /** A superseding login deletes and re-inserts the user, which moves it to
      the end of the key list (ids that are not array indices). */
  lemma SupersedeMovesToEnd(m: SocketMap, u: UserId, s: SocketId)
    ensures Keys(Assign(Delete(m, u), u, s)) == Without(Keys(m), u) + [u]
  {
    KeysDelete(m, u);
    WithoutNotIn(Keys(m), u);
    KeysAssign(Delete(m, u), u, s);
  }

  /** What a handler emits: `forceDisconnect` to one socket, the
      `getOnlineUsers` broadcast to every client, or `socket.disconnect()`. */
  datatype Event =
    | ForceDisconnect(socketId: SocketId, reason: string)
    | GetOnlineUsers(users: seq<UserId>)
    | CloseSocket(socketId: SocketId)

  const SUPERSEDE_REASON: string := "New login detected"

  /** The `userId` query parameter is accepted unless it is absent, empty,
      "undefined" or "null". */
  predicate ValidUserId(userId: Option<string>) {
    Present(userId) && userId.value != "undefined" && userId.value != "null"
  }

  /** The previous socket of a connecting user is superseded when it is a
      non-empty id other than the connecting socket's. */
  predicate Supersedes(previous: Option<SocketId>, socketId: SocketId) {
    previous.Some? && previous.value != "" && previous.value != socketId
  }

  class SocketServer {
    var userSocketMap: SocketMap

    ghost predicate Valid()
      reads this
    {
      DistinctKeys(userSocketMap)
    }

    constructor ()
      ensures Valid() && userSocketMap == []
    {
      userSocketMap := [];
    }

    /** `getReceiverSocketId`: the socket bound to a user, nothing for a user
        who is not online. */
    function GetReceiverSocketId(receiverId: UserId): (r: Option<SocketId>)
      reads this
      ensures r.Some? <==> receiverId in Keys(userSocketMap)
      ensures r.Some? ==> (receiverId, r.value) in userSocketMap
    {
      Get(userSocketMap, receiverId)
    }

    /** The `connection` handler: reject an invalid user id; otherwise tell a
        superseded socket to go and drop its entry, bind the user to this
        socket, mirror the key list to the cache and broadcast it. */
    method OnConnection(socketId: SocketId, userId: Option<string>, cache: Redis.RedisClient, now: int, cacheFault: bool)
      returns (events: seq<Event>)
      requires Valid()
      modifies this, cache`store
      ensures Valid()
      ensures !ValidUserId(userId) ==>
        events == [CloseSocket(socketId)] && userSocketMap == old(userSocketMap) && cache.store == old(cache.store)
      ensures ValidUserId(userId) ==>
        var u := userId.value;
        var previous := Get(old(userSocketMap), u);
        && userSocketMap == Assign(if Supersedes(previous, socketId) then Delete(old(userSocketMap), u)
                                   else old(userSocketMap), u, socketId)
        && events == (if Supersedes(previous, socketId) then [ForceDisconnect(previous.value, SUPERSEDE_REASON)] else [])
                     + [GetOnlineUsers(Keys(userSocketMap))]
        && cache.store == if cache.isConnected && !cacheFault
                          then Redis.SetEx(old(cache.store), Redis.ONLINE_USERS_KEY, Redis.ONLINE_USERS_TTL,
                                           Redis.UserList(Keys(userSocketMap)), now)
                          else old(cache.store)
      ensures ValidUserId(userId) ==> Get(userSocketMap, userId.value) == Some(socketId)
      ensures forall v :: (!ValidUserId(userId) || v != userId.value) ==> Get(userSocketMap, v) == Get(old(userSocketMap), v)
    {
      if !ValidUserId(userId) {
        return [CloseSocket(socketId)];
      }
      var u := userId.value;
      events := [];
      var previous := Get(userSocketMap, u);
      if Supersedes(previous, socketId) {
        events := [ForceDisconnect(previous.value, SUPERSEDE_REASON)];
        DeleteKeepsDistinct(userSocketMap, u);
        forall v ensures Get(Delete(userSocketMap, u), v) == if v == u then None else Get(userSocketMap, v) {
          GetDelete(userSocketMap, u, v);
        }
        userSocketMap := Delete(userSocketMap, u);
      }
      AssignKeepsDistinct(userSocketMap, u, socketId);
      forall v ensures Get(Assign(userSocketMap, u, socketId), v) == if v == u then Some(socketId) else Get(userSocketMap, v) {
        GetAssign(userSocketMap, u, socketId, v);
      }
      userSocketMap := Assign(userSocketMap, u, socketId);
      var onlineUsers := Keys(userSocketMap);
      var _ := cache.CacheOnlineUsers(onlineUsers, Redis.ONLINE_USERS_TTL, now, cacheFault);
      events := events + [GetOnlineUsers(onlineUsers)];
    }

    /** The `disconnect` handler registered for a valid user: delete the
        user's entry whatever socket it now names, mirror the key list to the
        cache and broadcast it. */
    method OnDisconnect(userId: UserId, cache: Redis.RedisClient, now: int, cacheFault: bool)
      returns (events: seq<Event>)
      requires Valid()
      modifies this, cache`store
      ensures Valid()
      ensures userSocketMap == Delete(old(userSocketMap), userId)
      ensures Keys(userSocketMap) == Without(Keys(old(userSocketMap)), userId)
      ensures events == [GetOnlineUsers(Keys(userSocketMap))]
      ensures cache.store == if cache.isConnected && !cacheFault
                             then Redis.SetEx(old(cache.store), Redis.ONLINE_USERS_KEY, Redis.ONLINE_USERS_TTL,
                                              Redis.UserList(Keys(userSocketMap)), now)
                             else old(cache.store)
      ensures Get(userSocketMap, userId) == None
      ensures forall v :: v != userId ==> Get(userSocketMap, v) == Get(old(userSocketMap), v)
    {
      DeleteKeepsDistinct(userSocketMap, userId);
      KeysDelete(userSocketMap, userId);
      forall v ensures Get(Delete(userSocketMap, userId), v) == if v == userId then None else Get(userSocketMap, v) {
        GetDelete(userSocketMap, userId, v);
      }
      userSocketMap := Delete(userSocketMap, userId);
      var onlineUsers := Keys(userSocketMap);
      var _ := cache.CacheOnlineUsers(onlineUsers, Redis.ONLINE_USERS_TTL, now, cacheFault);
      events := [GetOnlineUsers(onlineUsers)];
    }
  }

  /** A stale disconnect: user `u` logs in on socket `s1`, then on `s2`,
      which supersedes `s1`; when `s1`'s disconnect handler then runs, it
      deletes `u` although `s2` is still connected, so `u` appears offline and
      receives no pushes. */
  lemma StaleDisconnectTakesUserOffline(m: SocketMap, u: UserId, s1: SocketId, s2: SocketId)
    requires s1 != "" && s1 != s2
    ensures var afterFirst := Assign(m, u, s1);
            var previous := Get(afterFirst, u);
            && previous == Some(s1) && Supersedes(previous, s2)
            && var afterSecond := Assign(Delete(afterFirst, u), u, s2);
               && Get(afterSecond, u) == Some(s2)
               && Get(Delete(afterSecond, u), u) == None
  {
    var afterFirst := Assign(m, u, s1);
    GetAssign(m, u, s1, u);
    var afterSecond := Assign(Delete(afterFirst, u), u, s2);
    GetAssign(Delete(afterFirst, u), u, s2, u);
    GetDelete(afterSecond, u, u);
  }
}

# react-chat-app message pipeline, in Dafny

This project models the core of the chat application's backend and two client-side list rules, and proves properties of the model.

- **Send/read pipeline** (`messages.dfy`, module `MessagesController`). `sendMessage`:
  - looks up the receiver;
  - encrypts with the receiver's public key;
  - finds or creates the conversation between the two users;
  - persists the message;
  - invalidates the conversation's cache entry;
  - pushes the ciphertext to the receiver's socket;
  - answers 201 with the plaintext.

  `getMessages` serves a cache hit, or loads the conversation, decrypts each message for the reader and caches the result.
- **Cache and fixed-window counter** (`redis.dfy`, module `Redis`). The `RedisClient` wrapper is a class:
  - its `isConnected` flag guards every method;
  - its keyspace is a map with whole-second expiries;
  - `incrementRateLimit` is INCR / EXPIRE / TTL.
- **Presence registry** (`socket.dfy`, module `Presence`). `userSocketMap` is an insertion-ordered association list. JavaScript objects enumerate string keys in insertion order, but only keys that are not array indices. The model is for such ids, which every 24-digit hex ObjectId is (see "## Left out"). The `connection` and `disconnect` handlers are methods that return the events they emit.
- **Cipher guards** (`encryption.dfy`, module `Encryption`). The guards of `encryptMessage`, `decryptMessage`, `generateKeyPair`, `testEncryption` and `generateSharedSecret`. CryptoJS is a record of uninterpreted functions (`CryptoLib`). Its one law, that AES decryption with the same passphrase undoes encryption, is the predicate `RoundTrips`. Lemmas take it as a hypothesis; it is never an axiom.
- **Rate-limit middleware** (`rate_limiter.dfy`, module `RateLimiter`). The 429 / `next` decision, `retryAfter` as a ceiling of seconds, and failing open.
- **Metrics and logging** (`performance_monitor.dfy`, `logger.dfy`). The request, error and connection counters. The last-1000 response-time buffer. The level filter and the level each logging helper uses.
- **Client store and live push** (`use_conversation.dfy`, `use_listen_messages.dfy`). The zustand conversation store with `addMessage` deduplicating by id. The `newMessage` handler's sender filter, and the guard that registers it.

Shared pieces live in `common.dfy` and `records.dfy`:
- `Option`;
- truthiness of a possibly absent string (`Present`);
- the order `Array.prototype.sort` uses on strings (`StrLess`, `SortTwo`);
- `Math.ceil` of a quotient (`CeilDiv`);
- the document shapes.

The model follows the code as written in the following places:
- The send path encrypts with the receiver's `publicKey`, and the read path decrypts with the reader's `privateKey`. `generateSharedSecret` is not called on either path.
- The plaintext is stored next to the ciphertext. A reader whose decryption yields `null` sees that plaintext.
- A live push carries the ciphertext in its `message` field. The client adds it to the list as it is, without decrypting it (`ListenMessages.LivePushShowsPushedText`).
- A disconnect deletes the user's entry even when a newer socket of the same user has superseded the disconnecting one. That user then appears offline and gets no pushes (`Presence.StaleDisconnectTakesUserOffline`).
- `{participants: {$all: [a, b]}}` with `a == b` matches any conversation that contains `a`. `MessagesController.HasPair` keeps that behaviour.

Clocks, randomness and failures are parameters:
- `now` is whole seconds for Redis expiries. `nowMs` is `Date.now()`.
- `random` holds the 32 bytes of `WordArray.random`.
- `fault`, `cacheFault`, `readFault` and `writeFault` stand for a Redis command throwing.
- `conversationSaved` and `messageSaved` are the outcomes of the two parallel saves.
- `newMessageId` and `newConversationId` are the ids MongoDB assigns.

## Model

| member | source | states |
|---|---|---|
| Common.SortTwo | backend/controllers/messages.controller.js:56 | `[a, b].sort()` returns its two arguments, in non-decreasing code-unit order |
| Common.SortTwoSymmetric | backend/utils/encryption.js:89-91 | sorting two strings gives the same pair whichever comes first |
| Common.CeilDiv | backend/middlewares/rateLimiter.js:18 | `Math.ceil(a / b)` for positive `b` is the least `q` with `a <= q * b` |
| Encryption.Hex | backend/utils/encryption.js:11 | hex encoding gives two lower-case hex digits per byte |
| Encryption.HexAt | backend/utils/encryption.js:11 | byte `i` is written at positions `2i` and `2i+1`, high nibble first |
| Encryption.HexInjective | backend/utils/encryption.js:11 | two byte strings with the same hex encoding are equal |
| Encryption.KeyPairFollowsRandom | backend/utils/encryption.js:9-16 | different random bytes give different keys |
| Encryption.GenerateKeyPair | backend/utils/encryption.js:9-16 | public and private key are the same 64-digit hex string |
| Encryption.EncryptMessage | backend/utils/encryption.js:19-33 | `null` when the message or key is absent or empty; otherwise exactly what the cipher returns, `null` when it throws |
| Encryption.DecryptMessage | backend/utils/encryption.js:36-57 | a returned text is never empty, and it comes from decrypting a present ciphertext with a present key; with both inputs present and a non-empty decryption, that decryption is returned |
| Encryption.EncryptFailsOnlyOnMissingInput | backend/utils/encryption.js:19-33 | with a lawful cipher, encryption succeeds iff both message and key are present and non-empty |
| Encryption.RoundTrip | backend/utils/encryption.js:59-73 | decrypting with a generated pair's private key what was encrypted under its public key gives the message back |
| Encryption.TestEncryption | backend/utils/encryption.js:60-73 | the report's `success` holds iff decryption gave back "Hello, World!" |
| Encryption.TestEncryptionSucceeds | backend/utils/encryption.js:60-73 | with a lawful cipher the self test succeeds for every generated key |
| Encryption.GenerateSharedSecret | backend/utils/encryption.js:76-96 | `null` iff either key is absent or empty; otherwise the SHA-256 of the smaller key followed by the larger |
| Encryption.SharedSecretSymmetric | backend/utils/encryption.js:89-95 | the shared secret does not depend on the order of the keys |
| Redis.Get | backend/utils/redis.js:98 | GET answers a key's value iff the key exists and has not expired |
| Redis.GetAfterSetEx | backend/utils/redis.js:83 | after SETEX the key reads back the value until its TTL elapses, and every other key reads as before |
| Redis.GetAfterDel | backend/utils/redis.js:117 | after DEL the key reads as missing, and every other key reads as before |
| Redis.KeyFamiliesDisjoint | backend/utils/redis.js:56-129 | `messages:`, `user:` and `online:users` keys never collide; the message key determines the conversation id |
| Redis.CachedMessagesReadBack | backend/utils/redis.js:77-111 | cached messages read back unchanged within 3600 s; other conversations, users and the online list are unaffected |
| Redis.InvalidatedMessagesMiss | backend/utils/redis.js:113-123 | after invalidation the conversation reads as a miss and nothing else changes |
| Redis.OnlineUsersReadBack | backend/utils/redis.js:125-147 | the single online-user entry reads back until its TTL and is gone afterwards, whatever it held before |
| Redis.Incr | backend/utils/redis.js:153 | INCR answers the previous live count plus one |
| Redis.RateLimitGuards | backend/utils/redis.js:150-168 | disconnected: `{allowed: false, remaining: 0}`, no reset time, keyspace untouched; a throwing command: `{allowed: true, remaining: maxRequests}`, and a throw at INCR leaves the keyspace untouched; a key INCR refuses (not a counter, or at the 64-bit limit): the same answer with the keyspace untouched |
| Redis.FaultAfterIncrKeepsCounter | backend/utils/redis.js:153-166 | a throw after INCR on a new window lets the request through and leaves the counter at 1: without an expiry if EXPIRE threw, with the window's expiry if only TTL threw; no other key changes |
| Redis.FaultInLiveWindowCounts | backend/utils/redis.js:153-166 | in a live window (counter already 1 or more) a throw after INCR still raises the counter by exactly one, keeps its expiry and changes no other key, and the request is let through |
| Redis.IncrementRateLimitSpec | backend/utils/redis.js:150-168 | the keyspace and answer of one `incrementRateLimit` call, with a throw possible at INCR, EXPIRE or TTL; its cases are stated by RateLimitGuards, RateLimitCounts, FaultAfterIncrKeepsCounter and FaultInLiveWindowCounts |
| Redis.RateLimitCounts | backend/utils/redis.js:153-163 | the counter rises by exactly one; expiry of ceil(windowMs/1000) s is set only on the first hit; no other key changes; allowed iff count <= max; remaining = max(0, max - count) >= 0 |
| Redis.FourCallsInOneWindow | backend/utils/redis.js:150-163 | with a 1000 ms window and limit 3, four calls give allowed, allowed, allowed, refused, with 0 remaining on the fourth |
| Redis.RedisClient.constructor | backend/utils/redis.js:13-18 | a new client has no connection and is not connected |
| Redis.RedisClient.Connect | backend/utils/redis.js:20-43 | the client exists afterwards and is connected iff the server was reachable, which the answer reports |
| Redis.RedisClient.Disconnect | backend/utils/redis.js:45-50 | only an existing client becomes disconnected |
| Redis.RedisClient.OnError | backend/utils/redis.js:26-29 | an error event marks the client disconnected |
| Redis.RedisClient.CacheUser | backend/utils/redis.js:53-62 | succeeds iff connected, no command throws and the TTL is positive; then SETEX `user:<id>`, else the keyspace is unchanged |
| Redis.RedisClient.GetCachedUser | backend/utils/redis.js:65-74 | `null` when disconnected or throwing, else the live `user:<id>` entry |
| Redis.RedisClient.CacheMessages | backend/utils/redis.js:77-90 | succeeds iff connected and no command throws; then SETEX `messages:<id>` for 3600 s, else unchanged |
| Redis.RedisClient.GetCachedMessages | backend/utils/redis.js:93-111 | `null` when disconnected or throwing, else the live cached list |
| Redis.RedisClient.InvalidateMessagesCache | backend/utils/redis.js:114-123 | succeeds iff connected and no command throws; then DEL `messages:<id>`, else unchanged |
| Redis.RedisClient.CacheOnlineUsers | backend/utils/redis.js:126-135 | succeeds iff connected, no command throws and the TTL is positive; then SETEX `online:users`, else unchanged |
| Redis.RedisClient.GetCachedOnlineUsers | backend/utils/redis.js:138-147 | `null` when disconnected or throwing, else the live online-user list |
| Redis.RedisClient.IncrementRateLimit | backend/utils/redis.js:150-168 | the new keyspace and the answer are those of `IncrementRateLimitSpec`: the INCR / EXPIRE / TTL sequence with its guards and a throw at any of the three |
| RateLimiter.RateLimitKey | backend/middlewares/rateLimiter.js:6 | the counter key starts with "rate_limit:" |
| RateLimiter.RateLimitKeysSeparate | backend/middlewares/rateLimiter.js:6 | a counter key is never a message, user or online-list cache key |
| RateLimiter.Respond | backend/middlewares/rateLimiter.js:9-27 | 429 only when the counter refused, carrying the configured message; `next` without headers only when the reset time cannot be formatted |
| RateLimiter.RateLimit | backend/middlewares/rateLimiter.js:3-29 | the middleware is the counter step on the cache followed by `Respond` |
| RateLimiter.FailsOpen | backend/middlewares/rateLimiter.js:23-27 | with the cache disconnected or a command throwing, the request goes through without headers |
| RateLimiter.RefusedIffOverLimit | backend/middlewares/rateLimiter.js:9-22 | on a working cache, 429 iff the new count exceeds the limit; `retryAfter` is the window's remaining seconds; otherwise headers are limit, remaining and reset time |
| Presence.Keys | backend/socket/socket.js:58 | `Object.keys` lists the users of the map in order |
| Presence.Get | backend/socket/socket.js:22-24 | a lookup finds a socket iff the user is a key, and that binding is in the map |
| Presence.Delete | backend/socket/socket.js:51 | `delete` removes exactly the user's entries |
| Presence.Rebind | backend/socket/socket.js:55 | rebinding an existing key keeps the key order |
| Presence.Assign | backend/socket/socket.js:55 | `map[u] = s`: rebind in place when `u` is a key, append otherwise; its effect is stated by GetAssign, KeysAssign and AssignKeepsDistinct |
| Presence.GetAssign | backend/socket/socket.js:55 | after `map[u] = s`, `u` maps to `s` and every other user to what it did before |
| Presence.GetDelete | backend/socket/socket.js:77 | after `delete map[u]`, `u` is unbound and every other user keeps its binding |
| Presence.KeysDelete | backend/socket/socket.js:77-80 | deleting a user removes it from the key list and keeps the others' order |
| Presence.DistinctKeysNoDuplicates | backend/socket/socket.js:58 | the broadcast key list has no duplicates |
| Presence.DeleteKeepsDistinct | backend/socket/socket.js:51 | deletion keeps one entry per user |
| Presence.AssignKeepsDistinct | backend/socket/socket.js:55 | assignment keeps one entry per user |
| Presence.KeysAssign | backend/socket/socket.js:55-58 | assigning a new user appends it to the key list; assigning a present one leaves the list alone |
| Presence.SupersedeMovesToEnd | backend/socket/socket.js:48-58 | a superseding login moves the user to the end of the broadcast list |
| Presence.ValidUserId | backend/socket/socket.js:37 | the handshake id is accepted unless it is absent, empty, "undefined" or "null" |
| Presence.Supersedes | backend/socket/socket.js:48-49 | the previous socket is superseded iff it is a non-empty id other than the connecting socket's |
| Presence.SocketServer.constructor | backend/socket/socket.js:26 | the map starts empty |
| Presence.SocketServer.GetReceiverSocketId | backend/socket/socket.js:22-24 | a socket id is returned iff the user is online, and it is the registered one |
| Presence.SocketServer.OnConnection | backend/socket/socket.js:29-68 | invalid id: the socket is closed and nothing else changes; valid: a superseded socket is sent `forceDisconnect` first, the user is bound to this socket, other users' bindings are unchanged, the full key list goes to the cache and to the broadcast |
| Presence.SocketServer.OnDisconnect | backend/socket/socket.js:70-91 | the user's entry goes whatever socket it names, other bindings are unchanged, and the remaining key list goes to the cache and to the broadcast |
| Presence.StaleDisconnectTakesUserOffline | backend/socket/socket.js:47-77 | after a superseding login, the old socket's disconnect leaves the user with no socket |
| MessagesController.ConversationKeySymmetric | backend/controllers/messages.controller.js:56 | the cache key is the same whichever user computes it, so send (line 56) and read (line 95) agree |
| MessagesController.ConversationKeyIdentifiesPair | backend/controllers/messages.controller.js:56 | for ids without '_', two keys are equal iff they name the same unordered pair |
| MessagesController.FindConversation | backend/controllers/messages.controller.js:28-30 | the lookup answers the first conversation containing both users, or none when no conversation does |
| MessagesController.FindConversationSymmetric | backend/controllers/messages.controller.js:125-127 | the lookup answers the same conversation whichever of the two users asks |
| MessagesController.FindConversationParticipantsOnly | backend/controllers/messages.controller.js:28-30 | appending message ids never changes which conversation the lookup finds |
| MessagesController.ConversationKey | backend/controllers/messages.controller.js:56 | the key is the two ids joined by '_', the smaller first |
| MessagesController.HasPair | backend/controllers/messages.controller.js:28-30 | the `$all: [a, b]` filter: both ids are among the participants |
| MessagesController.AppendMessageId | backend/controllers/messages.controller.js:49 | the id goes at the end of that one conversation's messages; its id, its participants and every other conversation are unchanged |
| MessagesController.LookupOrCreate | backend/controllers/messages.controller.js:27-37 | the conversation that receives the message exists in the resulting list |
| MessagesController.LookupOrCreateThenAppend | backend/controllers/messages.controller.js:27-50 | a conversation `[sender, receiver]` is created only when none contains both; the new id goes at the end of exactly that conversation and no other changes |
| MessagesController.SendKeepsPairsUnique | backend/controllers/messages.controller.js:28-37 | if no two conversations hold the same pair of distinct users, that stays true after a send |
| MessagesController.ReplyReusesConversation | backend/controllers/messages.controller.js:28-37 | a reply in the other direction reuses the conversation the first message went into |
| MessagesController.Populate | backend/controllers/messages.controller.js:125-127 | `populate` gives at most one document per id, and exactly one per id, in order, when every id has a document |
| MessagesController.PopulateOne | backend/controllers/messages.controller.js:125-127 | one id populates to its document, or to nothing when it has none |
| MessagesController.PopulateConcat | backend/controllers/messages.controller.js:125-127 | populating a concatenation populates each part in order, so ids without a document drop out and the rest keep their order |
| MessagesController.PopulateAppend | backend/controllers/messages.controller.js:49-53 | a stored id appended to a conversation populates as its last document |
| MessagesController.DecryptView | backend/controllers/messages.controller.js:101-121 | only `message` changes; encrypted with ciphertext: the decrypted text, the stored plaintext when decryption gives `null`, "[Decryption failed]" when the reader has no key record; anything else unchanged |
| MessagesController.DecryptAll | backend/controllers/messages.controller.js:134-154 | one view per message, in order |
| MessagesController.ReceiverReadsPlaintext | backend/controllers/messages.controller.js:137-144 | the receiver's view of a message encrypted for them is the plaintext the sender typed |
| MessagesController.FailedDecryptionShowsStoredPlaintext | backend/controllers/messages.controller.js:143 | when decryption gives `null` the reader sees the stored plaintext |
| MessagesController.AcceptedSpec | backend/controllers/messages.controller.js:27-82 | the state, answer and effect trace of a send after encryption; its cases are stated by SendAccepted |
| MessagesController.SendSpec | backend/controllers/messages.controller.js:9-87 | the state, answer and effect trace of `sendMessage`; its cases are stated by SendRefusals and SendAccepted |
| MessagesController.Persist | backend/controllers/messages.controller.js:27-53 | a conversation is created exactly when the lookup finds none, and the stored conversations and messages are the lookup-or-create followed by each save that succeeds |
| MessagesController.SendRefusals | backend/controllers/messages.controller.js:16-25 | unknown receiver: 404; no key record: 500 "internal server error"; failed encryption (an absent or empty message included): 500 "Encryption failed"; in each refusal nothing is stored, created, invalidated or pushed, and an absent message never gets 201 |
| MessagesController.SendAccepted | backend/controllers/messages.controller.js:27-82 | an encrypted send appends the new id to exactly the found-or-created conversation and stores plaintext, ciphertext and `isEncrypted`, each only if its save succeeds; 201 with the plaintext iff both saves succeed, otherwise 500 with no invalidation or push; on 201 the effects are creation (if any), persist, invalidate, then the ciphertext push iff the receiver has a socket |
| MessagesController.Accept | backend/controllers/messages.controller.js:27-82 | the database, answer and effect trace after encryption are those of the accepted-send outcome, and the conversation's cache entry is deleted only on a 201 with a connected, non-failing cache |
| MessagesController.SendMessage | backend/controllers/messages.controller.js:9-87 | the database, answer and effect trace are the send outcome whose cases SendRefusals and SendAccepted state; the conversation's cache entry is deleted only on a 201 with a connected, non-failing cache |
| MessagesController.GetMessages | backend/controllers/messages.controller.js:89-164 | cache hit: views of the cached list, no cache write; miss and no conversation: `[]`, no cache write; miss: views of the populated messages in order, which are cached |
| MessagesController.SentMessageReadBack | backend/controllers/messages.controller.js:40-57 | after a send, either participant's lookup finds that conversation and its history ends with the new message |
| MessagesController.SendThenReceiverReads | backend/controllers/messages.controller.js:9-159 | A sends text to B, who has a generated pair: encryption succeeds and B's history ends with a message reading that text |
| Logging.Rank | backend/utils/logger.js:4-9 | the four level names rank 0..3; any other name has no rank |
| Logging.ShouldLog | backend/utils/logger.js:12-14 | a level passes iff the configured name has a rank at least the level's; its order is stated by ShouldLogIsRankOrder |
| Logging.NewLogger | backend/utils/logger.js:3 | the configured level is `LOG_LEVEL` when set and non-empty, else "info" |
| Logging.Log | backend/utils/logger.js:22-44 | a line is printed iff the level passes the filter, with that level and message |
| Logging.LogRequest | backend/utils/logger.js:47-62 | a request is logged at error level iff its status is >= 400, otherwise at info |
| Logging.LogSocketEvent | backend/utils/logger.js:65-71 | socket events log at info |
| Logging.LogSecurityEvent | backend/utils/logger.js:74-80 | security events log at warn |
| Logging.ShouldLogIsRankOrder | backend/utils/logger.js:12-14 | a level passes iff its rank is at most the configured level's; every lower level then passes too |
| Logging.DefaultLevelSuppressesOnlyDebug | backend/utils/logger.js:3-14 | with no `LOG_LEVEL`, exactly debug is suppressed |
| Logging.ErrorAlwaysDebugOnlyAtDebug | backend/utils/logger.js:12-14 | under any known level error passes; debug passes iff the level is "debug" |
| Logging.UnknownLevelLogsNothing | backend/utils/logger.js:12-14 | an unknown configured level silences every logging call |
| Logging.FailedRequestAlwaysLogged | backend/utils/logger.js:57-58 | a failing request is logged under every known configured level |
| Monitoring.KeepLast | backend/utils/performanceMonitor.js:30-32 | `slice(-n)` keeps the last min(length, n) elements |
| Monitoring.KeepLastPush | backend/utils/performanceMonitor.js:27-32 | trimming after each push equals trimming the whole history: the buffer holds the latest 1000 times in arrival order |
| Monitoring.PerformanceMonitor.constructor | backend/utils/performanceMonitor.js:4-14 | all counters start at zero with an empty buffer |
| Monitoring.PerformanceMonitor.OnRequest | backend/utils/performanceMonitor.js:21 | each request raises `requests` by exactly one |
| Monitoring.PerformanceMonitor.OnFinish | backend/utils/performanceMonitor.js:23-39 | the time is appended and the buffer is the last 1000 of all finished times, at most 1000 long; `errors` rises iff status >= 400; the request is logged |
| Monitoring.PerformanceMonitor.OnSocketConnection | backend/utils/performanceMonitor.js:47-49 | a connection raises `activeConnections` by one and logs at info |
| Monitoring.PerformanceMonitor.OnSocketDisconnect | backend/utils/performanceMonitor.js:51-54 | a disconnect lowers `activeConnections` by one and logs at info |
| Monitoring.PerformanceMonitor.ResetMetrics | backend/utils/performanceMonitor.js:113-123 | requests and errors become 0 and the buffer empty; `activeConnections` is kept |
| ClientConversation.WithMessage | frontend/src/zustand/useConversation.js:17-26 | the message is appended at the end iff its id is new; existing messages keep their places; the id is present afterwards |
| ClientConversation.WithMessageIdempotent | frontend/src/zustand/useConversation.js:22-25 | adding the same message twice equals adding it once |
| ClientConversation.WithMessageKnownId | frontend/src/zustand/useConversation.js:22-23 | a message whose id is present leaves the list unchanged |
| ClientConversation.WithMessageKeepsDistinct | frontend/src/zustand/useConversation.js:22-25 | distinct ids stay distinct |
| ClientConversation.ConversationStore.constructor | frontend/src/zustand/useConversation.js:4-10 | nothing selected and no messages |
| ClientConversation.ConversationStore.SetSelectedConversation | frontend/src/zustand/useConversation.js:5-8 | the selection is stored and the messages are emptied |
| ClientConversation.ConversationStore.SetMessages | frontend/src/zustand/useConversation.js:11-14 | the list is replaced, the selection untouched |
| ClientConversation.ConversationStore.AddMessage | frontend/src/zustand/useConversation.js:17-26 | the list becomes `WithMessage` of the old one, keeping ids distinct |
| ClientConversation.ConversationStore.ClearMessages | frontend/src/zustand/useConversation.js:29-32 | the list is emptied and the selection kept |
| ListenMessages.FromSelected | frontend/src/hooks/useListenMessages.js:20 | a selection exists and its id is the push's sender |
| ListenMessages.Processed | frontend/src/hooks/useListenMessages.js:21-24 | every pushed field is kept and `shouldShake` is true |
| ListenMessages.AfterPush | frontend/src/hooks/useListenMessages.js:20-31 | a push from the selected contact is added through `addMessage`; with no selection or another sender the list is unchanged |
| ListenMessages.HandleNewMessage | frontend/src/hooks/useListenMessages.js:15-32 | the handler changes the store's list exactly as `AfterPush` says |
| ListenMessages.RepeatedPushIgnored | frontend/src/hooks/useListenMessages.js:27 | the same push twice leaves the list as one push does |
| ListenMessages.LivePushShowsPushedText | frontend/src/hooks/useListenMessages.js:20-27 | a new push from the selected contact lands last, with the pushed (ciphertext) text and `shouldShake` |
| ListenMessages.ClientSocket.RemoveNewMessageHandlers | frontend/src/hooks/useListenMessages.js:36-38 | the cleanup removes every `newMessage` handler |
| ListenMessages.ListenEffect | frontend/src/hooks/useListenMessages.js:12-39 | a handler is registered iff there is a socket and a signed-in user, capturing the current selection |
| ListenMessages.Rerun | frontend/src/hooks/useListenMessages.js:12-39 | cleanup followed by the effect leaves exactly one handler, holding the new selection |

## Left out

- Transport and serialisation: Express, HTTP status plumbing, Socket.IO delivery, CORS and ping settings, and JSON encoding of cache values. Cache values are stored decoded, and emits are returned as events.
- MongoDB I/O: `findById`, `findOne`, `create`, `populate` and `save` act on an in-memory `Database`. A thrown database error other than a failed save is not modelled. Timestamps (`createdAt`, `updatedAt`) are not modelled.
- The `users` part of `Database` is read only. Accounts, passwords and JWT (backend/controllers/auth.controller.js) and the key backfill (backend/utils/migration.js) are not part of this model.
- MessagesController.SendMessage: the user model is not part of this model. A receiver without a key record is assumed to throw when its `publicKey` is read (answer 500 "internal server error"). A record whose `publicKey` is missing goes through `encryptMessage` and answers 500 "Encryption failed". Which of the two a real document hits depends on the schema.
- AES, SHA-256 and random bytes: the cipher is uninterpreted, including its random salt. Only the round-trip law is assumed, and nothing about decryption with another key. The random bytes of `generateKeyPair` are a parameter.
- Strings are sequences of code points, while JavaScript compares UTF-16 code units. The two orders agree on the hex ids used here.
- Object property names that collide with `Object.prototype` members (such as a user id "constructor") are not modelled. The map is a plain association list.
- Presence.Keys: states insertion order, which JavaScript gives only for keys that are not array indices ("0" to "4294967294"). Such keys come first, in ascending numeric order. The handshake id is not authenticated, so a client can connect as "42". The model covers only ids that are not array indices, which includes every 24-digit hex ObjectId.
- Presence.KeysAssign: "a new user goes last" holds only for ids that are not array indices, for the same reason.
- Presence.SupersedeMovesToEnd: a superseding login by an array-index id leaves that id among the numeric keys at the front, not at the end. The lemma covers only ids that are not array indices.
- Concurrency: each handler is modelled as one atomic step, as if requests ran one at a time. The source awaits between steps, so two races are not captured. Two concurrent first sends between the same pair (A to B and B to A) can both miss in `findOne` and both `create`, leaving two conversations for the pair; SendKeepsPairsUnique and ReplyReusesConversation hold for sequential sends only. A `getMessages` whose `cacheMessages` runs after a concurrent send's invalidation caches a list without the new message for up to 3600 s.
- Default arguments are not modelled: every caller passes `ttl` to `cacheUser` and `cacheOnlineUsers`, and `message` to the rate limiter. The constructor's unused `USER_CACHE_TTL` is left out.
- backend/server.js wiring is not modelled: middleware order, security headers, static files, signals, and which object `trackSocketConnections` is attached to.
- The monitor's floating-point and process statistics are not modelled: average response time, the `errorRate` string, memory and CPU usage, `getMetrics`, `healthCheck` and uptime. Response times are plain `real` values.
- `logger.formatMessage`, console output and metadata are left out, because they hold a wall-clock timestamp and `JSON.stringify` of arbitrary objects. A logged line is only its level and message.
- The socket handlers' own logging calls, the `error` and `forceDisconnect` listeners on the server socket, and the 30-second metrics timer are not modelled.
- Redis.RateLimitCounts: stated for `windowMs > 0` only. With a non-positive window, EXPIRE deletes the fresh counter, which `IncrementRateLimitSpec` models but no lemma states.
- RateLimiter.Respond: one `nowMs` stands for both `Date.now()` readings, the one in `incrementRateLimit` that sets `resetTime` and the one in the middleware that computes `retryAfter`. The source's `retryAfter` equals the model's only when the two readings are less than a second apart; each further whole second between them lowers it by one.
- Redis.FaultInLiveWindowCounts: stated for counters of 1 or more, which are the only ones INCR creates. A live counter holding 0 or less (written by something other than this client) answers 1 after INCR, so EXPIRE runs and a TTL throw leaves a new expiry; `IncrementRateLimitSpec` models that case but no lemma states it.
- RateLimiter.RefusedIffOverLimit: stated only for clocks and expiries well inside the range `new Date` accepts. Outside it, formatting the reset header throws and the request goes through, which `Respond` models.
- The frontend encryption utilities, the `useSendMessage` and `useGetMessages` hooks, the contexts and all JSX components are not modelled. They are fetch and socket clients and rendering.
- Dispatch of a `newMessage` event to the registered handlers is the Socket.IO client's job and is not modelled. `HandleNewMessage` receives the selection its handler captured.

/** The message pipeline of backend/controllers/messages.controller.js:
    `sendMessage` (encrypt, find or create the conversation, persist,
    invalidate the cache, push to the receiver's socket, answer 201) and
    `getMessages` (cache hit, or load, decrypt for the reader and cache).
    MongoDB is an in-memory `Database` object; its writes succeed or fail
    according to parameters. */
module MessagesController {
  import opened Common
  import opened Records
  import Encryption
  import Redis
  import Presence

  const RECEIVER_NOT_FOUND: string := "Receiver not found"
  const ENCRYPTION_FAILED: string := "Encryption failed"
  const INTERNAL_ERROR: string := "internal server error"
  const DECRYPTION_FAILED: string := "[Decryption failed]"

  datatype Body =
    | ErrorBody(error: string)
    | Sent(message: Outgoing)
    | History(messages: seq<Message>)

  /** An HTTP answer: status code and JSON body. */
  datatype Response = Response(status: int, body: Body)

  // ---------------------------------------------------------------------
  // The conversation key

  /** `[a, b].sort().join('_')`: the cache key of the conversation between
      two users. */
  function ConversationKey(a: UserId, b: UserId): (k: string)
    ensures k == a + "_" + b || k == b + "_" + a
    ensures StrLess(b, a) ==> k == b + "_" + a
    ensures StrLess(a, b) ==> k == a + "_" + b
  {
    var sorted := SortTwo(a, b);
    sorted.0 + "_" + sorted.1
  }

  /** Both participants compute the same key, so send and read agree on it
      whoever is the sender. */
  lemma ConversationKeySymmetric(a: UserId, b: UserId)
    ensures ConversationKey(a, b) == ConversationKey(b, a)
  {
    SortTwoSymmetric(a, b);
  }

  lemma JoinedSplits(x: string, y: string, x': string, y': string)
    requires '_' !in x && '_' !in x'
    requires x + "_" + y == x' + "_" + y'
    ensures x == x' && y == y'
  {
    var s, s' := x + "_" + y, x' + "_" + y';
    assert s[|x|] == '_' && s'[|x'|] == '_';
    assert forall k :: 0 <= k < |x| ==> s[k] == x[k];
    assert forall k :: 0 <= k < |x'| ==> s'[k] == x'[k];
    assert |x| == |x'|;
    assert x == s[..|x|] && x' == s'[..|x'|];
    assert y == s[|x| + 1..] && y' == s'[|x'| + 1..];
  }

  /** For ids without '_' (MongoDB ids are hex), the key names exactly one
      unordered pair of users. */
  lemma ConversationKeyIdentifiesPair(a: UserId, b: UserId, c: UserId, d: UserId)
    requires '_' !in a && '_' !in b && '_' !in c && '_' !in d
    ensures ConversationKey(a, b) == ConversationKey(c, d) <==> (a == c && b == d) || (a == d && b == c)
  {
    var p, q := SortTwo(a, b), SortTwo(c, d);
    if ConversationKey(a, b) == ConversationKey(c, d) {
      JoinedSplits(p.0, p.1, q.0, q.1);
    }
    if a == d && b == c {
      ConversationKeySymmetric(a, b);
    }
  }

  // ---------------------------------------------------------------------
  // Conversations in the store

  /** The `{participants: {$all: [a, b]}}` filter. */
  predicate HasPair(c: Conversation, a: UserId, b: UserId) {
    a in c.participants && b in c.participants
  }

  function FindFrom(convs: seq<Conversation>, a: UserId, b: UserId, from: nat): (r: Option<nat>)
    requires from <= |convs|
    ensures r.Some? ==> from <= r.value < |convs| && HasPair(convs[r.value], a, b)
                        && forall j :: from <= j < r.value ==> !HasPair(convs[j], a, b)
    ensures r.None? ==> forall j :: from <= j < |convs| ==> !HasPair(convs[j], a, b)
    decreases |convs| - from
  {
    if from == |convs| then None
    else if HasPair(convs[from], a, b) then Some(from)
    else FindFrom(convs, a, b, from + 1)
  }

  /** `Conversation.findOne`: the first conversation whose participants
      include both users. */
  function FindConversation(convs: seq<Conversation>, a: UserId, b: UserId): (r: Option<nat>)
    ensures r.Some? ==> r.value < |convs| && HasPair(convs[r.value], a, b)
                        && forall j :: 0 <= j < r.value ==> !HasPair(convs[j], a, b)
    ensures r.None? ==> forall j :: 0 <= j < |convs| ==> !HasPair(convs[j], a, b)
  {
    FindFrom(convs, a, b, 0)
  }

  /** Two results that both satisfy the contract of `FindConversation` are
      equal: it names the first match. */
  lemma FindConversationUnique(convs: seq<Conversation>, a: UserId, b: UserId, r: Option<nat>)
    requires r.Some? ==> r.value < |convs| && HasPair(convs[r.value], a, b)
                         && forall j :: 0 <= j < r.value ==> !HasPair(convs[j], a, b)
    requires r.None? ==> forall j :: 0 <= j < |convs| ==> !HasPair(convs[j], a, b)
    ensures FindConversation(convs, a, b) == r
  {
  }

  /** The lookup does not depend on which participant asks. */
  lemma FindConversationSymmetric(convs: seq<Conversation>, a: UserId, b: UserId)
    ensures FindConversation(convs, a, b) == FindConversation(convs, b, a)
  {
    FindConversationUnique(convs, b, a, FindConversation(convs, a, b));
  }

  /** The lookup reads only the participants. */
  lemma FindConversationParticipantsOnly(convs: seq<Conversation>, convs': seq<Conversation>, a: UserId, b: UserId)
    requires |convs| == |convs'|
    requires forall j :: 0 <= j < |convs| ==> convs[j].participants == convs'[j].participants
    ensures FindConversation(convs, a, b) == FindConversation(convs', a, b)
  {
    var f := FindConversation(convs, a, b);
    assert forall j :: 0 <= j < |convs| ==> (HasPair(convs[j], a, b) <==> HasPair(convs'[j], a, b));
    FindConversationUnique(convs', a, b, f);
  }

  /** Lookup-or-create: the conversation list after the possible creation,
      and the index of the conversation that receives the message. */
  function LookupOrCreate(convs: seq<Conversation>, senderId: UserId, receiverId: UserId,
                          newConversationId: ConversationId): (r: (seq<Conversation>, nat))
    ensures r.1 < |r.0|
  {
    match FindConversation(convs, senderId, receiverId)
    case Some(i) => (convs, i)
    case None => (convs + [Conversation(newConversationId, [senderId, receiverId], [])], |convs|)
  }

  /** `conversation.messages.push(id)`, saved. */
  function AppendMessageId(convs: seq<Conversation>, index: nat, id: MessageId): (r: seq<Conversation>)
    requires index < |convs|
    ensures |r| == |convs|
    ensures r[index].messages == convs[index].messages + [id]
    ensures r[index].id == convs[index].id && r[index].participants == convs[index].participants
    ensures forall j :: 0 <= j < |convs| && j != index ==> r[j] == convs[j]
  {
    convs[index := convs[index].(messages := convs[index].messages + [id])]
  }

  /** A conversation is created only when none with both users exists;
      otherwise the first existing one is reused and nothing is created.
      Appending puts exactly the new id at the end of that conversation and
      changes no other conversation. */
  lemma LookupOrCreateThenAppend(convs: seq<Conversation>, senderId: UserId, receiverId: UserId,
                                 newConversationId: ConversationId, id: MessageId)
    ensures var (convs1, i) := LookupOrCreate(convs, senderId, receiverId, newConversationId);
            var convs2 := AppendMessageId(convs1, i, id);
            && (FindConversation(convs, senderId, receiverId).Some? ==>
                  convs1 == convs && Some(i) == FindConversation(convs, senderId, receiverId))
            && (FindConversation(convs, senderId, receiverId).None? ==>
                  convs1 == convs + [Conversation(newConversationId, [senderId, receiverId], [])])
            && |convs2| == |convs1|
            && convs2[i].messages == convs1[i].messages + [id]
            && convs2[i].id == convs1[i].id && convs2[i].participants == convs1[i].participants
            && forall j :: 0 <= j < |convs1| && j != i ==> convs2[j] == convs1[j]
  {
  }

  /** At most one conversation holds any pair of distinct users. */
  ghost predicate PairsUnique(convs: seq<Conversation>) {
    forall i, j, a: UserId, b: UserId :: 0 <= i < j < |convs| && a != b && HasPair(convs[i], a, b) ==> !HasPair(convs[j], a, b)
  }

  /** A send, run on its own, keeps conversations unique per pair, whether
      the conversation is reused or created and whichever of the two users
      sends first. */
  lemma SendKeepsPairsUnique(convs: seq<Conversation>, senderId: UserId, receiverId: UserId,
                             newConversationId: ConversationId, id: MessageId)
    requires PairsUnique(convs)
    ensures var (convs1, i) := LookupOrCreate(convs, senderId, receiverId, newConversationId);
            PairsUnique(convs1) && PairsUnique(AppendMessageId(convs1, i, id))
  {
    var (convs1, i) := LookupOrCreate(convs, senderId, receiverId, newConversationId);
    var found := FindConversation(convs, senderId, receiverId);
    if found.None? {
      var created := convs1[|convs|];
      forall k, j, a: UserId, b: UserId | 0 <= k < j < |convs1| && a != b && HasPair(convs1[k], a, b)
        ensures !HasPair(convs1[j], a, b)
      {
        if j == |convs| {
          assert created.participants == [senderId, receiverId];
          assert convs1[k] == convs[k];
          assert !HasPair(convs[k], senderId, receiverId);
        }
      }
    }
    var convs2 := AppendMessageId(convs1, i, id);
    assert forall k :: 0 <= k < |convs2| ==> convs2[k].participants == convs1[k].participants;
    forall k, j, a: UserId, b: UserId | 0 <= k < j < |convs2| && a != b && HasPair(convs2[k], a, b)
      ensures !HasPair(convs2[j], a, b)
    {
      assert HasPair(convs1[k], a, b);
    }
  }

  /** Over sequential sends, in whichever direction, two users share one
      conversation: a send from either side finds the conversation an
      earlier send created. */
  lemma ReplyReusesConversation(convs: seq<Conversation>, a: UserId, b: UserId,
                                firstId: ConversationId, secondId: ConversationId, m1: MessageId, m2: MessageId)
    ensures var (convs1, i) := LookupOrCreate(convs, a, b, firstId);
            var convs2 := AppendMessageId(convs1, i, m1);
            var (convs3, j) := LookupOrCreate(convs2, b, a, secondId);
            convs3 == convs2 && j == i
  {
    var (convs1, i) := LookupOrCreate(convs, a, b, firstId);
    var convs2 := AppendMessageId(convs1, i, m1);
    FindConversationParticipantsOnly(convs1, convs2, a, b);
    FindConversationSymmetric(convs2, a, b);
    if FindConversation(convs, a, b).None? {
      FindConversationUnique(convs1, a, b, Some(|convs|));
    }
  }

  // ---------------------------------------------------------------------
  // Reading: populate and the per-message view

  /** `.populate("messages")`: the message documents of a conversation in
      id order; ids without a document are skipped. */
  function Populate(ids: seq<MessageId>, docs: map<MessageId, Message>): (r: seq<Message>)
    ensures |r| <= |ids|
    ensures (forall k :: 0 <= k < |ids| ==> ids[k] in docs) ==>
              |r| == |ids| && forall k :: 0 <= k < |ids| ==> r[k] == docs[ids[k]]
  {
    if ids == [] then []
    else if ids[0] in docs then [docs[ids[0]]] + Populate(ids[1..], docs)
    else Populate(ids[1..], docs)
  }

  /** One id populates to its document, or to nothing when it has none. */
  lemma PopulateOne(id: MessageId, docs: map<MessageId, Message>)
    ensures Populate([id], docs) == if id in docs then [docs[id]] else []
  {
    assert [id][1..] == [];
  }

  /** Populating a concatenation populates each part, in order: the missing
      ids drop out and the rest keep their relative order. */
  lemma {:induction false} PopulateConcat(a: seq<MessageId>, b: seq<MessageId>, docs: map<MessageId, Message>)
    ensures Populate(a + b, docs) == Populate(a, docs) + Populate(b, docs)
    decreases |a|
  {
    if a != [] {
      assert (a + b)[0] == a[0] && (a + b)[1..] == a[1..] + b;
      PopulateConcat(a[1..], b, docs);
    } else {
      assert a + b == b;
    }
  }

  lemma {:induction false} PopulateAppend(ids: seq<MessageId>, id: MessageId, docs: map<MessageId, Message>)
    requires id in docs
    ensures Populate(ids + [id], docs) == Populate(ids, docs) + [docs[id]]
    decreases |ids|
  {
    if ids != [] {
      assert (ids + [id])[1..] == ids[1..] + [id];
      PopulateAppend(ids[1..], id, docs);
    }
  }

  /** The message a reader is shown for one stored (or cached) message.
      An encrypted message with a ciphertext is decrypted with the reader's
      private key, falling back to the stored plaintext when decryption
      answers `null`; reading the private key of a reader without a key
      record throws, and the message reads "[Decryption failed]". Anything
      else is shown as stored. Only `message` ever changes. */
  function DecryptView(lib: Encryption.CryptoLib, readerKeys: Option<Encryption.KeyPair>, m: Message): (v: Message)
    ensures v.(message := m.message) == m
    ensures !(m.isEncrypted && Present(m.encryptedMessage)) ==> v == m
    ensures m.isEncrypted && Present(m.encryptedMessage) && readerKeys.None? ==> v.message == DECRYPTION_FAILED
    ensures m.isEncrypted && Present(m.encryptedMessage) && readerKeys.Some? ==>
              match Encryption.DecryptMessage(lib, m.encryptedMessage, readerKeys.value.privateKey)
              case None => v.message == m.message
              case Some(text) => v.message == text && text != ""
  {
    if m.isEncrypted && Present(m.encryptedMessage) then
      match readerKeys
      case None => m.(message := DECRYPTION_FAILED)
      case Some(keys) =>
        match Encryption.DecryptMessage(lib, m.encryptedMessage, keys.privateKey)
        case Some(text) => m.(message := text)
        case None => m
    else m
  }

  /** The `.map` over a list of messages: one view per message, in order. */
  function DecryptAll(lib: Encryption.CryptoLib, readerKeys: Option<Encryption.KeyPair>, ms: seq<Message>): (vs: seq<Message>)
    ensures |vs| == |ms|
    ensures forall k :: 0 <= k < |ms| ==> vs[k] == DecryptView(lib, readerKeys, ms[k])
  {
    seq(|ms|, k requires 0 <= k < |ms| => DecryptView(lib, readerKeys, ms[k]))
  }

  /** The receiver of a message reads back the plaintext its sender typed:
      it was encrypted with the receiver's public key and is decrypted with
      the receiver's private key, which is the same key. */
  lemma ReceiverReadsPlaintext(lib: Encryption.CryptoLib, random: seq<bv8>, m: Message, text: string)
    requires Encryption.RoundTrips(lib) && |random| == 32 && text != ""
    requires m.isEncrypted
    requires m.encryptedMessage == Encryption.EncryptMessage(lib, Some(text), Encryption.GenerateKeyPair(random).publicKey)
    ensures DecryptView(lib, Some(Encryption.GenerateKeyPair(random)), m).message == text
  {
    Encryption.RoundTrip(lib, random, text);
    Encryption.EncryptFailsOnlyOnMissingInput(lib, Some(text), Encryption.GenerateKeyPair(random).publicKey);
  }

  /** Whoever reads, a message whose decryption answers `null` shows the
      plaintext stored beside the ciphertext. */
  lemma FailedDecryptionShowsStoredPlaintext(lib: Encryption.CryptoLib, keys: Encryption.KeyPair, m: Message)
    requires Encryption.DecryptMessage(lib, m.encryptedMessage, keys.privateKey).None?
    ensures DecryptView(lib, Some(keys), m).message == m.message
  {
  }

  // ---------------------------------------------------------------------
  // The database and the two handlers

  class Database {
    var users: map<UserId, User>
    var conversations: seq<Conversation>
    var messages: map<MessageId, Message>

    constructor (users: map<UserId, User>)
      ensures this.users == users && conversations == [] && messages == map[]
    {
      this.users, conversations, messages := users, [], map[];
    }
  }

  /** The observable steps of a send, in the order they happen. */
  datatype Effect =
    | ConversationCreated(conversationId: ConversationId)
    | Persisted(messageId: MessageId)
    | CacheInvalidated(cacheKey: string)
    | NewMessagePushed(socketId: Presence.SocketId, payload: Outgoing)

  /** The ciphertext `sendMessage` computes, when the receiver exists and has
      a key record. */
  function SendCiphertext(lib: Encryption.CryptoLib, users: map<UserId, User>, receiverId: UserId,
                          message: Option<string>): (r: Option<string>)
  {
    if receiverId in users && users[receiverId].encryptionKeys.Some? then
      Encryption.EncryptMessage(lib, message, users[receiverId].encryptionKeys.value.publicKey)
    else None
  }

  /** The stored conversations and messages after a send, its answer and its
      effects in order. */
  datatype SendOutcome = SendOutcome(
    conversations: seq<Conversation>,
    messages: map<MessageId, Message>,
    response: Response,
    effects: seq<Effect>)

  /** The conversations and messages after lookup-or-create and the two
      saves, each of which may fail; a created conversation stays even when
      both saves fail. */
  function Stored(convs: seq<Conversation>, docs: map<MessageId, Message>, newMessage: Message,
                  newConversationId: ConversationId, conversationSaved: bool, messageSaved: bool)
    : (r: (seq<Conversation>, map<MessageId, Message>))
  {
    var (convs1, i) := LookupOrCreate(convs, newMessage.senderId, newMessage.receiverId, newConversationId);
    (if conversationSaved then AppendMessageId(convs1, i, newMessage.id) else convs1,
     if messageSaved then docs[newMessage.id := newMessage] else docs)
  }

  /** `Conversation.findOne` / `Conversation.create`, the push of the id and
      the two saves, on the database. */
  method Persist(db: Database, newMessage: Message, newConversationId: ConversationId,
                 conversationSaved: bool, messageSaved: bool)
    returns (created: bool)
    modifies db`conversations, db`messages
    ensures created <==> FindConversation(old(db.conversations), newMessage.senderId, newMessage.receiverId).None?
    ensures (db.conversations, db.messages)
            == Stored(old(db.conversations), old(db.messages), newMessage, newConversationId, conversationSaved, messageSaved)
  {
    var found := FindConversation(db.conversations, newMessage.senderId, newMessage.receiverId);
    var index: nat;
    if found.None? {
      db.conversations := db.conversations + [Conversation(newConversationId, [newMessage.senderId, newMessage.receiverId], [])];
      index := |db.conversations| - 1;
    } else {
      index := found.value;
    }
    created := found.None?;
    if conversationSaved {
      db.conversations := AppendMessageId(db.conversations, index, newMessage.id);
    }
    if messageSaved {
      db.messages := db.messages[newMessage.id := newMessage];
    }
  }

  /** What an accepted send does once the message is encrypted: store it,
      and on success answer 201, invalidate and push. `receiverSocket` is
      what `getReceiverSocketId` answers for the receiver. */
  function AcceptedSpec(convs: seq<Conversation>, docs: map<MessageId, Message>, newMessage: Message,
                        newConversationId: ConversationId, conversationSaved: bool, messageSaved: bool,
                        receiverSocket: Option<Presence.SocketId>): (out: SendOutcome)
    requires newMessage.encryptedMessage.Some?
  {
    var creation := if FindConversation(convs, newMessage.senderId, newMessage.receiverId).None?
                    then [ConversationCreated(newConversationId)] else [];
    var (convs2, docs2) := Stored(convs, docs, newMessage, newConversationId, conversationSaved, messageSaved);
    if !(conversationSaved && messageSaved) then
      SendOutcome(convs2, docs2, Response(500, ErrorBody(INTERNAL_ERROR)), creation)
    else
      var notified := creation + [Persisted(newMessage.id)]
                      + [CacheInvalidated(ConversationKey(newMessage.senderId, newMessage.receiverId))];
      var pushed := if Present(receiverSocket)
                    then notified + [NewMessagePushed(receiverSocket.value,
                                       Outgoing(newMessage.id, newMessage.senderId, newMessage.receiverId,
                                                newMessage.encryptedMessage.value, true))]
                    else notified;
      SendOutcome(convs2, docs2,
                  Response(201, Sent(Outgoing(newMessage.id, newMessage.senderId, newMessage.receiverId, newMessage.message, true))),
                  pushed)
  }

  /** `sendMessage` on the store. */
  function SendSpec(lib: Encryption.CryptoLib, users: map<UserId, User>, convs: seq<Conversation>,
                    docs: map<MessageId, Message>, senderId: UserId, receiverId: UserId, message: Option<string>,
                    newMessageId: MessageId, newConversationId: ConversationId,
                    conversationSaved: bool, messageSaved: bool, receiverSocket: Option<Presence.SocketId>): (out: SendOutcome)
  {
    if receiverId !in users then
      SendOutcome(convs, docs, Response(404, ErrorBody(RECEIVER_NOT_FOUND)), [])
    else if users[receiverId].encryptionKeys.None? then
      // reading `publicKey` of a missing key record throws; the catch answers 500
      SendOutcome(convs, docs, Response(500, ErrorBody(INTERNAL_ERROR)), [])
    else
      var encrypted := SendCiphertext(lib, users, receiverId, message);
      if !Present(encrypted) then
        SendOutcome(convs, docs, Response(500, ErrorBody(ENCRYPTION_FAILED)), [])
      else
        AcceptedSpec(convs, docs, Message(newMessageId, senderId, receiverId, message.value, encrypted, true),
                     newConversationId, conversationSaved, messageSaved, receiverSocket)
  }

  /** The refusals: an unknown receiver gets 404; a receiver without a key
      record, or a failed encryption (for example an empty message), gets
      500. None of them stores, creates, invalidates or pushes anything. */
  lemma SendRefusals(lib: Encryption.CryptoLib, users: map<UserId, User>, convs: seq<Conversation>,
                     docs: map<MessageId, Message>, senderId: UserId, receiverId: UserId, message: Option<string>,
                     newMessageId: MessageId, newConversationId: ConversationId,
                     conversationSaved: bool, messageSaved: bool, receiverSocket: Option<Presence.SocketId>)
    ensures var out := SendSpec(lib, users, convs, docs, senderId, receiverId, message, newMessageId,
                                newConversationId, conversationSaved, messageSaved, receiverSocket);
            && (receiverId !in users ==> out.response == Response(404, ErrorBody(RECEIVER_NOT_FOUND)))
            && (receiverId in users && users[receiverId].encryptionKeys.None? ==>
                  out.response == Response(500, ErrorBody(INTERNAL_ERROR)))
            && (receiverId in users && users[receiverId].encryptionKeys.Some? && !Present(SendCiphertext(lib, users, receiverId, message)) ==>
                  out.response == Response(500, ErrorBody(ENCRYPTION_FAILED)))
            && (!Present(SendCiphertext(lib, users, receiverId, message)) ==>
                  out.conversations == convs && out.messages == docs && out.effects == [])
            && (!Present(message) ==> out.response.status != 201)
  {
  }

  /** An encrypted send: the conversation is found or created, the new
      message (plaintext, ciphertext, `isEncrypted`) is stored and its id
      appended to exactly that conversation, each only if its save succeeds.
      The answer is 201 with the plaintext iff both saves succeed, and only
      then is the cache invalidated, after the message is persisted, and the
      ciphertext pushed, last, iff the receiver has a socket. */
  lemma SendAccepted(lib: Encryption.CryptoLib, users: map<UserId, User>, convs: seq<Conversation>,
                     docs: map<MessageId, Message>, senderId: UserId, receiverId: UserId, message: Option<string>,
                     newMessageId: MessageId, newConversationId: ConversationId,
                     conversationSaved: bool, messageSaved: bool, receiverSocket: Option<Presence.SocketId>)
    requires Present(SendCiphertext(lib, users, receiverId, message))
    ensures var out := SendSpec(lib, users, convs, docs, senderId, receiverId, message, newMessageId,
                                newConversationId, conversationSaved, messageSaved, receiverSocket);
            var ciphertext := SendCiphertext(lib, users, receiverId, message).value;
            var found := FindConversation(convs, senderId, receiverId);
            var (convs1, i) := LookupOrCreate(convs, senderId, receiverId, newConversationId);
            var created := if found.None? then [ConversationCreated(newConversationId)] else [];
            && Present(message)
            && |out.conversations| == |convs1|
            && (forall j :: 0 <= j < |convs1| && j != i ==> out.conversations[j] == convs1[j])
            && out.conversations[i].messages == convs1[i].messages + (if conversationSaved then [newMessageId] else [])
            && (messageSaved ==> out.messages == docs[newMessageId := Message(newMessageId, senderId, receiverId, message.value, Some(ciphertext), true)])
            && (!messageSaved ==> out.messages == docs)
            && (out.response.status == 201 <==> conversationSaved && messageSaved)
            && (!(conversationSaved && messageSaved) ==>
                  out.response == Response(500, ErrorBody(INTERNAL_ERROR)) && out.effects == created)
            && (conversationSaved && messageSaved ==>
                  && out.response == Response(201, Sent(Outgoing(newMessageId, senderId, receiverId, message.value, true)))
                  && |out.effects| == |created| + 2 + (if Present(receiverSocket) then 1 else 0)
                  && out.effects[..|created|] == created
                  && out.effects[|created|] == Persisted(newMessageId)
                  && out.effects[|created| + 1] == CacheInvalidated(ConversationKey(senderId, receiverId))
                  && (Present(receiverSocket) ==>
                        out.effects[|created| + 2] == NewMessagePushed(receiverSocket.value,
                          Outgoing(newMessageId, senderId, receiverId, ciphertext, true))))
  {
    LookupOrCreateThenAppend(convs, senderId, receiverId, newConversationId, newMessageId);
  }

  /** The part of `sendMessage` after encryption: persist, then on success
      invalidate the conversation's cache entry and push to the receiver. */
  method Accept(db: Database, cache: Redis.RedisClient, presence: Presence.SocketServer, newMessage: Message,
                newConversationId: ConversationId, conversationSaved: bool, messageSaved: bool, cacheFault: bool)
    returns (response: Response, effects: seq<Effect>)
    requires newMessage.encryptedMessage.Some?
    modifies db`conversations, db`messages, cache`store
    ensures var out := AcceptedSpec(old(db.conversations), old(db.messages), newMessage, newConversationId,
                                    conversationSaved, messageSaved, presence.GetReceiverSocketId(newMessage.receiverId));
            && db.conversations == out.conversations && db.messages == out.messages
            && response == out.response && effects == out.effects
            && cache.store == if response.status == 201 && cache.isConnected && !cacheFault
                              then Redis.Del(old(cache.store), Redis.MessagesKey(ConversationKey(newMessage.senderId, newMessage.receiverId)))
                              else old(cache.store)
  {
    var created := Persist(db, newMessage, newConversationId, conversationSaved, messageSaved);
    effects := if created then [ConversationCreated(newConversationId)] else [];
    if !(conversationSaved && messageSaved) {
      return Response(500, ErrorBody(INTERNAL_ERROR)), effects;
    }
    effects := effects + [Persisted(newMessage.id)];
    var key := ConversationKey(newMessage.senderId, newMessage.receiverId);
    var _ := cache.InvalidateMessagesCache(key, cacheFault);
    effects := effects + [CacheInvalidated(key)];
    var socketId := presence.GetReceiverSocketId(newMessage.receiverId);
    if Present(socketId) {
      effects := effects + [NewMessagePushed(socketId.value, Outgoing(newMessage.id, newMessage.senderId, newMessage.receiverId,
                                                                      newMessage.encryptedMessage.value, true))];
    }
    response := Response(201, Sent(Outgoing(newMessage.id, newMessage.senderId, newMessage.receiverId, newMessage.message, true)));
  }

  /** `sendMessage`, sender `senderId`, receiver `receiverId`, body
      `message`. The new ids, whether each of the two parallel saves
      succeeds and whether the cache command throws are parameters. The
      cache entry of the conversation is deleted only on a 201. */
  method SendMessage(db: Database, cache: Redis.RedisClient, presence: Presence.SocketServer,
                     lib: Encryption.CryptoLib, senderId: UserId, receiverId: UserId, message: Option<string>,
                     newMessageId: MessageId, newConversationId: ConversationId,
                     conversationSaved: bool, messageSaved: bool, cacheFault: bool)
    returns (response: Response, effects: seq<Effect>)
    modifies db`conversations, db`messages, cache`store
    ensures var out := SendSpec(lib, db.users, old(db.conversations), old(db.messages), senderId, receiverId, message,
                                newMessageId, newConversationId, conversationSaved, messageSaved,
                                presence.GetReceiverSocketId(receiverId));
            && db.conversations == out.conversations && db.messages == out.messages
            && response == out.response && effects == out.effects
            && cache.store == if response.status == 201 && cache.isConnected && !cacheFault
                              then Redis.Del(old(cache.store), Redis.MessagesKey(ConversationKey(senderId, receiverId)))
                              else old(cache.store)
  {
    if receiverId !in db.users {
      return Response(404, ErrorBody(RECEIVER_NOT_FOUND)), [];
    }
    var receiver := db.users[receiverId];
    if receiver.encryptionKeys.None? {
      return Response(500, ErrorBody(INTERNAL_ERROR)), [];
    }
    var encrypted := Encryption.EncryptMessage(lib, message, receiver.encryptionKeys.value.publicKey);
    if !Present(encrypted) {
      return Response(500, ErrorBody(ENCRYPTION_FAILED)), [];
    }
    var newMessage := Message(newMessageId, senderId, receiverId, message.value, encrypted, true);
    response, effects := Accept(db, cache, presence, newMessage, newConversationId, conversationSaved, messageSaved, cacheFault);
  }

  /** `getMessages` for reader `readerId` (with key record `readerKeys`)
      and the other participant `otherId`. Whether the cache read or write
      throws are parameters. */
  method GetMessages(db: Database, cache: Redis.RedisClient, lib: Encryption.CryptoLib,
                     readerId: UserId, readerKeys: Option<Encryption.KeyPair>, otherId: UserId,
                     now: int, readFault: bool, writeFault: bool)
    returns (response: Response)
    modifies cache`store
    ensures var key := ConversationKey(readerId, otherId);
            var cached := if cache.isConnected && !readFault then Redis.MessagesAt(old(cache.store), key, now) else None;
            var found := FindConversation(db.conversations, readerId, otherId);
            && (cached.Some? ==>
                  response == Response(200, History(DecryptAll(lib, readerKeys, cached.value)))
                  && cache.store == old(cache.store))
            && (cached.None? && found.None? ==>
                  response == Response(200, History([])) && cache.store == old(cache.store))
            && (cached.None? && found.Some? ==>
                  var views := DecryptAll(lib, readerKeys, Populate(db.conversations[found.value].messages, db.messages));
                  && response == Response(200, History(views))
                  && cache.store == if cache.isConnected && !writeFault
                                    then Redis.SetEx(old(cache.store), Redis.MessagesKey(key), Redis.MESSAGE_CACHE_TTL,
                                                     Redis.MessageList(views), now)
                                    else old(cache.store))
  {
    var key := ConversationKey(readerId, otherId);
    var cached := cache.GetCachedMessages(key, now, readFault);
    if cached.Some? {
      return Response(200, History(DecryptAll(lib, readerKeys, cached.value)));
    }
    var found := FindConversation(db.conversations, readerId, otherId);
    if found.None? {
      return Response(200, History([]));
    }
    var views := DecryptAll(lib, readerKeys, Populate(db.conversations[found.value].messages, db.messages));
    var _ := cache.CacheMessages(key, views, now, writeFault);
    response := Response(200, History(views));
  }

  /** A message that was persisted is read back by either participant:
      the conversation found for the pair, in either order, ends with it. */
  lemma SentMessageReadBack(convs: seq<Conversation>, docs: map<MessageId, Message>,
                            senderId: UserId, receiverId: UserId, newConversationId: ConversationId, m: Message)
    ensures var (convs1, i) := LookupOrCreate(convs, senderId, receiverId, newConversationId);
            var convs2 := AppendMessageId(convs1, i, m.id);
            var docs2 := docs[m.id := m];
            && FindConversation(convs2, receiverId, senderId) == Some(i)
            && FindConversation(convs2, senderId, receiverId) == Some(i)
            && var history := Populate(convs2[i].messages, docs2);
               |history| > 0 && history[|history| - 1] == m
  {
    var (convs1, i) := LookupOrCreate(convs, senderId, receiverId, newConversationId);
    var convs2 := AppendMessageId(convs1, i, m.id);
    var docs2 := docs[m.id := m];
    if FindConversation(convs, senderId, receiverId).None? {
      FindConversationUnique(convs1, senderId, receiverId, Some(|convs|));
    }
    FindConversationParticipantsOnly(convs1, convs2, senderId, receiverId);
    FindConversationSymmetric(convs2, senderId, receiverId);
    PopulateAppend(convs1[i].messages, m.id, docs2);
  }

  /** The example of two users: A sends "hi" to B, who has a generated key
      pair; B's history of the conversation ends with a message that reads
      "hi", whose stored ciphertext is what encryption produced. */
  lemma SendThenReceiverReads(lib: Encryption.CryptoLib, random: seq<bv8>, convs: seq<Conversation>,
                              docs: map<MessageId, Message>, a: UserId, b: UserId,
                              newConversationId: ConversationId, id: MessageId, text: string)
    requires Encryption.RoundTrips(lib) && |random| == 32 && text != ""
    ensures var keysB := Encryption.GenerateKeyPair(random);
            var users := map[b := User(Some(keysB))];
            var ciphertext := SendCiphertext(lib, users, b, Some(text));
            && Present(ciphertext)
            && var m := Message(id, a, b, text, ciphertext, true);
               var (convs1, i) := LookupOrCreate(convs, a, b, newConversationId);
               var convs2 := AppendMessageId(convs1, i, id);
               var history := Populate(convs2[i].messages, docs[id := m]);
               var views := DecryptAll(lib, Some(keysB), history);
               && FindConversation(convs2, b, a) == Some(i)
               && |views| > 0 && views[|views| - 1].message == text
  {
    var keysB := Encryption.GenerateKeyPair(random);
    var users := map[b := User(Some(keysB))];
    var ciphertext := SendCiphertext(lib, users, b, Some(text));
    Encryption.EncryptFailsOnlyOnMissingInput(lib, Some(text), keysB.publicKey);
    var m := Message(id, a, b, text, ciphertext, true);
    SentMessageReadBack(convs, docs, a, b, newConversationId, m);
    ReceiverReadsPlaintext(lib, random, m, text);
  }
}

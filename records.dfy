/** The persisted and transmitted shapes of backend/models/message.model.js
    and of the conversation and user documents the controller reads. */
module Records {
  import opened Common
  import Encryption

  type UserId = string
  type MessageId = string
  type ConversationId = string

  /** A message document. `message` is the plaintext the sender typed,
      `encryptedMessage` its ciphertext (absent in legacy documents) and
      `isEncrypted` defaults to true. A decrypted view handed to a reader has
      the same shape, with `message` replaced. Timestamps are not modelled. */
  datatype Message = Message(
    id: MessageId,
    senderId: UserId,
    receiverId: UserId,
    message: string,
    encryptedMessage: Option<string>,
    isEncrypted: bool)

  /** A conversation document: its participants and the ids of its messages
      in insertion order. */
  datatype Conversation = Conversation(
    id: ConversationId,
    participants: seq<UserId>,
    messages: seq<MessageId>)

  /** A user as the message pipeline sees it: the key record, absent for
      accounts that have not yet been backfilled. */
  datatype User = User(encryptionKeys: Option<Encryption.KeyPair>)

  /** The object the send path returns with status 201 and pushes as
      `newMessage`: the message fields without `encryptedMessage`. */
  datatype Outgoing = Outgoing(
    id: MessageId,
    senderId: UserId,
    receiverId: UserId,
    message: string,
    isEncrypted: bool)
}

/** The client-side conversation store of
    frontend/src/zustand/useConversation.js: the selected contact and the
    message list shown for it. */
module ClientConversation {
  import opened Common
  import opened Records

  /** The selected contact; only its `_id` is read. */
  datatype Contact = Contact(id: UserId)

  /** A message as the client list holds it. */
  datatype ClientMessage = ClientMessage(
    id: MessageId,
    senderId: UserId,
    receiverId: UserId,
    message: string,
    isEncrypted: bool,
    shouldShake: bool)

  /** `messages.some(msg => msg._id === id)` */
  predicate HasId(ms: seq<ClientMessage>, id: MessageId) {
    exists k :: 0 <= k < |ms| && ms[k].id == id
  }

  /** No two messages in the list share an id. */
  predicate DistinctIds(ms: seq<ClientMessage>) {
    forall j, k :: 0 <= j < k < |ms| ==> ms[j].id != ms[k].id
  }

  /** The list after `addMessage(m)`: `m` is appended at the end exactly when
      no message with its id is present; existing messages keep their places
      either way. */
  function WithMessage(ms: seq<ClientMessage>, m: ClientMessage): (r: seq<ClientMessage>)
    ensures HasId(r, m.id)
    ensures |r| == if HasId(ms, m.id) then |ms| else |ms| + 1
    ensures r[..|ms|] == ms
    ensures !HasId(ms, m.id) ==> r[|ms|] == m
  {
    if HasId(ms, m.id) then ms
    else
      var r := ms + [m];
      assert r[|ms|] == m;
      r
  }

  /** Adding the same message twice is adding it once. */
  lemma WithMessageIdempotent(ms: seq<ClientMessage>, m: ClientMessage)
    ensures WithMessage(WithMessage(ms, m), m) == WithMessage(ms, m)
  {
  }

  /** Adding a message whose id is already present changes nothing, even if
      its other fields differ. */
  lemma WithMessageKnownId(ms: seq<ClientMessage>, m: ClientMessage, k: nat)
    requires k < |ms| && ms[k].id == m.id
    ensures WithMessage(ms, m) == ms
  {
  }

  /** Distinct ids stay distinct. */
  lemma WithMessageKeepsDistinct(ms: seq<ClientMessage>, m: ClientMessage)
    ensures DistinctIds(ms) ==> DistinctIds(WithMessage(ms, m))
  {
    var r := WithMessage(ms, m);
    if DistinctIds(ms) && !HasId(ms, m.id) {
      forall j, k | 0 <= j < k < |r|
        ensures r[j].id != r[k].id
      {
        if k == |ms| {
          assert r[j] == ms[j];
        }
      }
    }
  }

  class ConversationStore {
    var selectedConversation: Option<Contact>
    var messages: seq<ClientMessage>

    /** The store's initial state: nothing selected, no messages. */
    constructor ()
      ensures selectedConversation == None && messages == []
    {
      selectedConversation, messages := None, [];
    }

    /** `setSelectedConversation`: select and clear the list. */
    method SetSelectedConversation(selected: Option<Contact>)
      modifies this
      ensures selectedConversation == selected && messages == []
    {
      selectedConversation, messages := selected, [];
    }

    /** `setMessages`: replace the whole list. */
    method SetMessages(ms: seq<ClientMessage>)
      modifies this`messages
      ensures messages == ms
    {
      messages := ms;
    }

    /** `addMessage`: append unless a message with the same id is present. */
    method AddMessage(m: ClientMessage)
      modifies this`messages
      ensures messages == WithMessage(old(messages), m)
      ensures DistinctIds(old(messages)) ==> DistinctIds(messages)
    {
      WithMessageKeepsDistinct(messages, m);
      if !HasId(messages, m.id) {
        messages := messages + [m];
      }
    }

    /** `clearMessages`: empty the list; the selection stays. */
    method ClearMessages()
      modifies this`messages
      ensures messages == []
    {
      messages := [];
    }
  }
}

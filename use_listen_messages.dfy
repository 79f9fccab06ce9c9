/** The live-push listener of frontend/src/hooks/useListenMessages.js: the
    effect that registers a `newMessage` handler, and the handler that adds a
    pushed message to the store when it comes from the selected contact. */
module ListenMessages {
  import opened Common
  import opened Records
  import opened ClientConversation

  /** The handler's filter: a selection exists and the push's sender is the
      selected contact. */
  predicate FromSelected(selected: Option<Contact>, push: Outgoing) {
    selected.Some? && selected.value.id == push.senderId
  }

  /** `{...newMessage, shouldShake: true}`: every pushed field kept, nothing
      decrypted. */
  function Processed(push: Outgoing): (m: ClientMessage)
    ensures m.shouldShake
    ensures m.(shouldShake := false) == ClientMessage(push.id, push.senderId, push.receiverId, push.message, push.isEncrypted, false)
  {
    ClientMessage(push.id, push.senderId, push.receiverId, push.message, push.isEncrypted, true)
  }

  /** The message list after the handler has seen `push`, with `selected`
      the selection the handler captured when it was registered. */
  function AfterPush(ms: seq<ClientMessage>, selected: Option<Contact>, push: Outgoing): (r: seq<ClientMessage>)
    ensures !FromSelected(selected, push) ==> r == ms
    ensures FromSelected(selected, push) ==> r == WithMessage(ms, Processed(push))
  {
    if FromSelected(selected, push) then WithMessage(ms, Processed(push)) else ms
  }

  /** `handleNewMessage` on the store. */
  method HandleNewMessage(store: ConversationStore, selected: Option<Contact>, push: Outgoing)
    modifies store`messages
    ensures store.messages == AfterPush(old(store.messages), selected, push)
  {
    if selected.Some? && selected.value.id == push.senderId {
      store.AddMessage(Processed(push));
    }
  }

  /** The same push delivered twice leaves the list as one delivery does. */
  lemma RepeatedPushIgnored(ms: seq<ClientMessage>, selected: Option<Contact>, push: Outgoing)
    ensures AfterPush(AfterPush(ms, selected, push), selected, push) == AfterPush(ms, selected, push)
  {
    if FromSelected(selected, push) {
      WithMessageIdempotent(ms, Processed(push));
    }
  }

  /** A new push from the selected contact lands at the end of the list
      with the pushed text, which the server fills with the ciphertext:
      the live view shows what was pushed, not a decryption of it. */
  lemma LivePushShowsPushedText(ms: seq<ClientMessage>, sender: UserId, push: Outgoing)
    requires push.senderId == sender && !HasId(ms, push.id)
    ensures var r := AfterPush(ms, Some(Contact(sender)), push);
            |r| == |ms| + 1 && r[..|ms|] == ms && r[|ms|].message == push.message && r[|ms|].shouldShake
  {
  }

  /** The client socket: the selections captured by its registered
      `newMessage` handlers, in registration order. */
  class ClientSocket {
    var newMessageHandlers: seq<Option<Contact>>

    constructor ()
      ensures newMessageHandlers == []
    {
      newMessageHandlers := [];
    }

    /** The effect's cleanup, `socket.off("newMessage")`: every handler for
        the event goes. */
    method RemoveNewMessageHandlers()
      modifies this
      ensures newMessageHandlers == []
    {
      newMessageHandlers := [];
    }
  }

  /** The effect body: with no socket or no signed-in user it does nothing;
      otherwise it registers a handler capturing the current selection. */
  method ListenEffect(socket: ClientSocket?, authUser: Option<UserId>, selected: Option<Contact>)
    returns (registered: bool)
    modifies socket
    ensures registered <==> socket != null && authUser.Some?
    ensures socket != null && registered ==> socket.newMessageHandlers == old(socket.newMessageHandlers) + [selected]
    ensures socket != null && !registered ==> socket.newMessageHandlers == old(socket.newMessageHandlers)
  {
    if socket == null || authUser.None? {
      return false;
    }
    socket.newMessageHandlers := socket.newMessageHandlers + [selected];
    registered := true;
  }

  /** A re-run of the effect after its cleanup leaves exactly one handler,
      holding the new selection. */
  method Rerun(socket: ClientSocket, authUser: UserId, selected: Option<Contact>)
    modifies socket
    ensures socket.newMessageHandlers == [selected]
  {
    socket.RemoveNewMessageHandlers();
    var _ := ListenEffect(socket, Some(authUser), selected);
  }
}

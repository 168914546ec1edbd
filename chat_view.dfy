// One conversation on the client: its transcript, the text being typed,
// and the read receipts it sends to the server. The receipts and the
// messages it publishes to the rest of the client are recorded in ghost
// logs; the HTTP calls and the event aggregator are not modelled.
module ChatView {
  import opened Wrappers
  import opened ClientData

  /** A read receipt: one message by id, or a whole conversation by friend. */
  datatype ReadRequest = ReadById(messageId: Option<String>) | ReadByFriend(friendId: String)

  datatype Key = Enter | OtherKey

  class ChatViewModel {
    /** The friend this conversation is with. */
    const userId: String
    const friend: Contact
    var chats: seq<ChatContent>
    var message: String
    ghost var readRequests: seq<ReadRequest>
    ghost var published: seq<UserSendMessage>

    constructor (userId: String, friend: Contact)
      ensures this.userId == userId && this.friend == friend
      ensures chats == [] && message == [] && readRequests == [] && published == []
    {
      this.userId := userId;
      this.friend := friend;
      chats := [];
      message := [];
      readRequests := [];
      published := [];
    }

    /** Appends one live message and marks it read on the server. Nothing
        is deduplicated: the same message delivered twice is shown twice. */
    method AddChat(m: Option<UserReceiveMessage>)
      modifies this`chats, this`readRequests
      ensures m.None? ==> chats == old(chats) && readRequests == old(readRequests)
      ensures m.Some? ==>
        chats == old(chats) + [ToChatContent(m.value)]
        && readRequests == old(readRequests) + [ReadById(m.value.id)]
    {
      if m.None? {
        return;
      }
      chats := chats + [ToChatContent(m.value)];
      readRequests := readRequests + [ReadById(m.value.id)];
    }

    /** Appends a batch in order and then marks the whole conversation read
        with one request. A missing or empty batch does nothing. */
    method AddChats(ms: Option<seq<UserReceiveMessage>>)
      modifies this`chats, this`readRequests
      ensures ms.None? || ms.value == [] ==> chats == old(chats) && readRequests == old(readRequests)
      ensures ms.Some? && ms.value != [] ==>
        chats == old(chats) + ToChatContents(ms.value)
        && readRequests == old(readRequests) + [ReadByFriend(userId)]
    {
      if ms.None? || |ms.value| == 0 {
        return;
      }
      var batch := ms.value;
      var i := 0;
      while i < |batch|
        invariant 0 <= i <= |batch|
        invariant chats == old(chats) + ToChatContents(batch[..i])
        invariant readRequests == old(readRequests)
      {
        assert batch[..i + 1] == batch[..i] + [batch[i]];
        chats := chats + [ToChatContent(batch[i])];
        i := i + 1;
      }
      assert batch[..i] == batch;
      readRequests := readRequests + [ReadByFriend(userId)];
    }

    /** Publishes the typed text to the friend and clears it; empty text
        publishes nothing. The transcript is left to the server's echo. */
    method SendMessage()
      modifies this`message, this`published
      ensures old(message) == [] ==> message == old(message) && published == old(published)
      ensures old(message) != [] ==>
        message == [] && published == old(published) + [UserSendMessage(userId, old(message))]
    {
      if message == [] {
        return;
      }
      published := published + [UserSendMessage(userId, message)];
      message := [];
    }

    /** Enter sends; any other key does nothing. */
    method MessageEnter(key: Key)
      modifies this`message, this`published
      ensures key != Enter ==> message == old(message) && published == old(published)
      ensures key == Enter ==>
        (old(message) == [] ==> message == old(message) && published == old(published))
        && (old(message) != [] ==> message == [] && published == old(published) + [UserSendMessage(userId, old(message))])
    {
      if key == Enter {
        SendMessage();
      }
    }
  }

  /** AddChat does not deduplicate by id: delivering the same message
      twice appends it twice, and marks it read twice. */
  method DuplicateDeliveryShownTwice(vm: ChatViewModel, m: UserReceiveMessage)
    modifies vm
    ensures vm.chats == old(vm.chats) + [ToChatContent(m), ToChatContent(m)]
    ensures vm.readRequests == old(vm.readRequests) + [ReadById(m.id), ReadById(m.id)]
  {
    vm.AddChat(Some(m));
    vm.AddChat(Some(m));
  }
}

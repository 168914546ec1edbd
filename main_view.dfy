// The client's main window: a cache of child pages built on first use,
// the mapping of the hub's pushes into client messages, the forwarding of
// a typed message to the hub, and the unread badge. Publications to the
// client's event aggregator and invocations of the hub are recorded in
// ghost logs.
module MainView {
  import opened Wrappers
  import opened ClientData
  import Storage
  import ChatHub

  /** The child pages the menu can show. */
  datatype ChildPage = ChatManagePage | TestChatPage | ScreenshotPage | AddressBookPage

  /** The signed-in user. */
  datatype Me = Me(id: String, nickName: String, avatarUrl: String)

  /** A call made on the hub connection. */
  datatype HubInvocation = SendMessageToFriend(receiverId: String, content: String)

  /** The page a menu key names, if any. */
  function PageFor(key: String): (r: Option<ChildPage>)
    ensures r.Some? <==> key in {"ChatManage", "TestChat", "Screenshot", "AddressBook"}
  {
    if key == "ChatManage" then Some(ChatManagePage)
    else if key == "TestChat" then Some(TestChatPage)
    else if key == "Screenshot" then Some(ScreenshotPage)
    else if key == "AddressBook" then Some(AddressBookPage)
    else None
  }

  /** No two keys name the same page. */
  lemma PageForInjective(a: String, b: String)
    requires PageFor(a).Some? && PageFor(a) == PageFor(b)
    ensures a == b
  {
  }

  /** A pushed message from a friend: filed under the sender's
      conversation, written by the sender. */
  function FromReceive(m: ChatHub.ReceiveMessage): (r: UserReceiveMessage)
  {
    UserReceiveMessage(Some(m.id), m.senderId, m.senderId, m.nickName, m.avatarUrl, m.content, m.sentAt, false, m.contentType)
  }

  /** The echo of one's own message: filed under the receiver's
      conversation, written by me. */
  function FromSentMe(me: Me, m: ChatHub.SentMeMessage): (r: UserReceiveMessage)
  {
    UserReceiveMessage(Some(m.id), m.receiverId, me.id, me.nickName, me.avatarUrl, m.content, m.sentAt, true, m.contentType)
  }

  /** One delivery reaches both clients as the same line: the recipient
      files it under the sender, the sender (through its echo) under the
      recipient, each under the other party. */
  lemma DeliveryLandsWithBothParties(me: Me, sender: Storage.ChatUser, stored: Storage.PrivateChat)
    requires me.id == stored.senderId && sender.userId == stored.senderId
    ensures var pushed := FromReceive(ChatHub.ToReceiveMessage(sender, stored));
            var echoed := FromSentMe(me, ChatHub.ToSentMe(stored));
      && pushed.chartId == stored.senderId && !pushed.isMe
      && echoed.chartId == stored.receiverId && echoed.isMe
      && pushed.userId == echoed.userId
      && ToChatContent(pushed).(isMe := true, nickName := me.nickName, avatarUrl := me.avatarUrl)
         == ToChatContent(echoed)
  {
  }

  class MainViewModel {
    /** key -> the page built for it */
    var munus: map<String, ChildPage>
    /** The pages the conductor holds, in creation order. */
    var items: seq<ChildPage>
    var activeItem: Option<ChildPage>
    var chartCount: int
    const user: Me
    ghost var published: seq<UserReceiveMessage>
    ghost var invocations: seq<HubInvocation>

    /** Each cached page is the one its key names, and the conductor holds
        exactly the cached pages, each once. */
    ghost predicate Valid()
      reads this
    {
      && (forall k :: k in munus ==> PageFor(k) == Some(munus[k]))
      && (forall p :: p in items <==> p in munus.Values)
      && (forall i, j :: 0 <= i < j < |items| ==> items[i] != items[j])
    }

    /** Opens on the chat manager page. */
    constructor (user: Me)
      ensures Valid() && this.user == user
      ensures munus == map["ChatManage" := ChatManagePage] && items == [ChatManagePage]
      ensures activeItem == Some(ChatManagePage) && chartCount == 0
      ensures published == [] && invocations == []
    {
      this.user := user;
      munus := map[];
      items := [];
      chartCount := 0;
      published := [];
      invocations := [];
      new;
      var model := GetMunu("ChatManage");
      activeItem := model;
    }

    /** The page for key: the cached one, or a new one cached and added to
        the conductor; an unknown key gives nothing and changes nothing. */
    method GetMunu(key: String) returns (r: Option<ChildPage>)
      requires Valid()
      modifies this`munus, this`items
      ensures Valid()
      ensures key in old(munus) ==> r == Some(old(munus)[key]) && munus == old(munus) && items == old(items)
      ensures key !in old(munus) && PageFor(key).Some? ==>
        r == PageFor(key) && munus == old(munus)[key := r.value] && items == old(items) + [r.value]
      ensures PageFor(key).None? ==> r.None? && munus == old(munus) && items == old(items)
    {
      if key in munus {
        return Some(munus[key]);
      }
      r := PageFor(key);
      if r.Some? {
        forall i | 0 <= i < |items|
          ensures items[i] != r.value
        {
          assert items[i] in items;
          var k :| k in munus && munus[k] == items[i];
          if items[i] == r.value {
            PageForInjective(k, key);
          }
        }
        munus := munus[key := r.value];
        items := items + [r.value];
      }
    }

    /** Shows the page for key; an unknown key shows nothing new. */
    method SwitchView(key: String)
      requires Valid()
      modifies this`munus, this`items, this`activeItem
      ensures Valid()
      ensures PageFor(key).None? ==>
        activeItem == old(activeItem) && munus == old(munus) && items == old(items)
      ensures PageFor(key).Some? ==> activeItem == PageFor(key) && key in munus
    {
      var model := GetMunu(key);
      if model.Some? {
        activeItem := model;
      }
    }

    /** A pushed message from a friend is published to the client. */
    method OnReceiveMessage(m: ChatHub.ReceiveMessage)
      modifies this`published
      ensures published == old(published) + [FromReceive(m)]
    {
      published := published + [FromReceive(m)];
    }

    /** The echo of one's own message is published to the client. */
    method OnSentMe(m: ChatHub.SentMeMessage)
      modifies this`published
      ensures published == old(published) + [FromSentMe(user, m)]
    {
      published := published + [FromSentMe(user, m)];
    }

    /** A message typed in a conversation goes to the hub addressed to
        that conversation's friend. */
    method HandleSend(message: UserSendMessage)
      modifies this`invocations
      ensures invocations == old(invocations) + [SendMessageToFriend(message.userId, message.message)]
    {
      invocations := invocations + [SendMessageToFriend(message.userId, message.message)];
    }

    /** A published pending total becomes the badge. */
    method HandleCount(count: int)
      modifies this`chartCount
      ensures chartCount == count
    {
      chartCount := count;
    }
  }
}

// The client's session manager: messages for conversations that are not
// open wait in a pending list, each friend's badge shows how many wait for
// it, and opening a friend builds its conversation once and drains its
// pending messages into it. Totals published to the rest of the client
// are recorded in a ghost log.
module ChatManage {
  import opened Wrappers
  import opened Tables
  import opened ClientData
  import opened ChatView
  import PrivateChatBiz

  /** How many pending messages belong to the conversation with friendId. */
  function PendingCount(pending: seq<UserReceiveMessage>, friendId: String): (n: nat)
    ensures n <= |pending|
  {
    |Filter(pending, ChartIs(friendId))|
  }

  /** FirstOrDefault by id over a list of contacts. */
  function FindFriend(friends: seq<Contact>, id: String): (r: Contact?)
    ensures r != null ==> r in friends && r.id == id
    ensures r == null <==> forall i :: 0 <= i < |friends| ==> friends[i].id != id
  {
    if friends == [] then null
    else if friends[0].id == id then friends[0]
    else
      assert forall i :: 1 <= i < |friends| ==> friends[i] == friends[1..][i - 1];
      FindFriend(friends[1..], id)
  }

  /** An unread message fetched at start-up, shown as written by sender. */
  function BacklogEntry(dto: PrivateChatBiz.PrivateChatDto, sender: Contact): (m: UserReceiveMessage)
  {
    UserReceiveMessage(dto.id, dto.senderId, dto.senderId, sender.nickName, sender.avatarUrl,
                       dto.content, dto.createdAt, false, dto.contentType)
  }

  /** The fetched unread messages whose sender is on the friend list, in
      fetch order; the others are dropped. */
  function Backlog(friends: seq<Contact>, list: seq<PrivateChatBiz.PrivateChatDto>): (r: seq<UserReceiveMessage>)
    ensures |r| <= |list|
  {
    if list == [] then []
    else
      var sender := FindFriend(friends, list[0].senderId);
      (if sender == null then [] else [BacklogEntry(list[0], sender)]) + Backlog(friends, list[1..])
  }

  /** Every kept message is an incoming one from a friend, filed under
      that friend's conversation. */
  lemma {:induction false} BacklogOnlyFriends(friends: seq<Contact>, list: seq<PrivateChatBiz.PrivateChatDto>)
    ensures forall m :: m in Backlog(friends, list) ==>
      !m.isMe && m.chartId == m.userId && FindFriend(friends, m.chartId) != null
  {
    if list != [] {
      BacklogOnlyFriends(friends, list[1..]);
    }
  }

  /** Every fetched message whose sender is a friend is kept. */
  lemma {:induction false} BacklogKeepsFriends(friends: seq<Contact>, list: seq<PrivateChatBiz.PrivateChatDto>)
    ensures forall i :: 0 <= i < |list| && FindFriend(friends, list[i].senderId) != null ==>
      BacklogEntry(list[i], FindFriend(friends, list[i].senderId)) in Backlog(friends, list)
  {
    if list != [] {
      BacklogKeepsFriends(friends, list[1..]);
      assert forall i :: 1 <= i < |list| ==> list[i] == list[1..][i - 1];
    }
  }

  lemma {:induction false} BacklogAppend(friends: seq<Contact>, a: seq<PrivateChatBiz.PrivateChatDto>, b: seq<PrivateChatBiz.PrivateChatDto>)
    ensures Backlog(friends, a + b) == Backlog(friends, a) + Backlog(friends, b)
  {
    if a != [] {
      var ab := a + b;
      assert ab[0] == a[0] && ab[1..] == a[1..] + b;
      BacklogAppend(friends, a[1..], b);
      var sender := FindFriend(friends, a[0].senderId);
      var head := if sender == null then [] else [BacklogEntry(a[0], sender)];
      assert Backlog(friends, ab) == head + Backlog(friends, ab[1..]);
      assert Backlog(friends, a) == head + Backlog(friends, a[1..]);
    } else {
      assert a + b == b;
    }
  }

  /** One more fetched message extends the backlog by its entry, if any. */
  lemma BacklogSnoc(friends: seq<Contact>, list: seq<PrivateChatBiz.PrivateChatDto>, x: PrivateChatBiz.PrivateChatDto)
    ensures var sender := FindFriend(friends, x.senderId);
      Backlog(friends, list + [x]) == Backlog(friends, list) + (if sender == null then [] else [BacklogEntry(x, sender)])
  {
    BacklogAppend(friends, list, [x]);
    assert [x][1..] == [];
  }

  /** Draining one friend's pending messages leaves every other friend's
      pending messages, and so its badge, as they were. */
  lemma DrainKeepsOthers(pending: seq<UserReceiveMessage>, friendId: String, other: String)
    requires other != friendId
    ensures Filter(Filter(pending, Not(ChartIs(friendId))), ChartIs(other)) == Filter(pending, ChartIs(other))
    ensures Filter(Filter(pending, Not(ChartIs(friendId))), ChartIs(friendId)) == []
  {
    FilterPastRemoval(pending, ChartIs(friendId), ChartIs(other));
    var rest := Filter(pending, Not(ChartIs(friendId)));
    FilterNone(rest, ChartIs(friendId));
  }

  class ChatManageViewModel {
    /** Messages for conversations that are not open, in arrival order. */
    var receiveMessages: seq<UserReceiveMessage>
    /** friend id -> its conversation, built on first opening */
    var chatList: map<String, ChatViewModel>
    /** The conversations the conductor holds, in creation order. */
    var items: seq<ChatViewModel>
    var friendList: seq<Contact>
    var selectedFriend: Contact?
    /** The conversation shown. */
    var active: ChatViewModel?
    var isFirstView: bool
    ghost var backlogFetches: nat
    /** The pending totals published for the main window's badge. */
    ghost var publishedTotals: seq<int>

    /** Each conversation is filed under its own friend's id, and the
        backlog has been fetched exactly when the first view is over. */
    ghost predicate Keyed()
      reads this
    {
      && (forall id :: id in chatList ==> chatList[id].userId == id)
      && backlogFetches == (if isFirstView then 0 else 1)
    }

    ghost predicate Valid()
      reads this
    {
      Keyed() && (selectedFriend != null ==> selectedFriend.id in chatList)
    }

    constructor ()
      ensures Valid()
      ensures receiveMessages == [] && chatList == map[] && items == [] && friendList == []
      ensures selectedFriend == null && active == null && isFirstView && publishedTotals == []
    {
      receiveMessages := [];
      chatList := map[];
      items := [];
      friendList := [];
      selectedFriend := null;
      active := null;
      isFirstView := true;
      backlogFetches := 0;
      publishedTotals := [];
    }

    /** Every friend's badge becomes the number of its pending messages,
        and the total pending count is published. */
    method UpdateMessageCount()
      modifies friendList, this`publishedTotals
      ensures forall f :: f in friendList ==> f.chartCount == PendingCount(receiveMessages, f.id)
      ensures forall f :: f in friendList ==> f.isVisible == old(f.isVisible)
      ensures publishedTotals == old(publishedTotals) + [|receiveMessages|]
    {
      var i := 0;
      while i < |friendList|
        invariant 0 <= i <= |friendList|
        invariant forall j :: 0 <= j < i ==> friendList[j].chartCount == PendingCount(receiveMessages, friendList[j].id)
        invariant forall f :: f in friendList ==> f.isVisible == old(f.isVisible)
        invariant publishedTotals == old(publishedTotals)
      {
        friendList[i].chartCount := PendingCount(receiveMessages, friendList[i].id);
        i := i + 1;
      }
      publishedTotals := publishedTotals + [|receiveMessages|];
    }

    /** The conversation with user, built and added on first use. */
    method Conversation(user: Contact) returns (vm: ChatViewModel)
      requires Keyed()
      modifies this`chatList, this`items
      ensures Keyed()
      ensures user.id in chatList && vm == chatList[user.id]
      ensures user.id in old(chatList) ==> chatList == old(chatList) && items == old(items)
      ensures user.id !in old(chatList) ==>
        && fresh(vm) && vm.friend == user && vm.chats == [] && vm.readRequests == []
        && chatList == old(chatList)[user.id := vm] && items == old(items) + [vm]
    {
      if user.id !in chatList {
        vm := new ChatViewModel(user.id, user);
        chatList := chatList[user.id := vm];
        items := items + [vm];
      } else {
        vm := chatList[user.id];
      }
    }

    /** Moves the pending messages of vm's friend into vm in order, with
        one read receipt, and recomputes the badges; with none pending
        nothing changes. */
    method DrainPending(vm: ChatViewModel)
      modifies this`receiveMessages, this`publishedTotals, vm`chats, vm`readRequests, friendList
      ensures var pending := Filter(old(receiveMessages), ChartIs(vm.userId));
        && (pending == [] ==>
              receiveMessages == old(receiveMessages) && publishedTotals == old(publishedTotals)
              && vm.chats == old(vm.chats) && vm.readRequests == old(vm.readRequests))
        && (pending != [] ==>
              && receiveMessages == Filter(old(receiveMessages), Not(ChartIs(vm.userId)))
              && vm.chats == old(vm.chats) + ToChatContents(pending)
              && vm.readRequests == old(vm.readRequests) + [ReadByFriend(vm.userId)]
              && (forall f :: f in friendList ==> f.chartCount == PendingCount(receiveMessages, f.id))
              && publishedTotals == old(publishedTotals) + [|receiveMessages|])
    {
      var messages := Filter(receiveMessages, ChartIs(vm.userId));
      if |messages| > 0 {
        vm.AddChats(Some(messages));
        receiveMessages := Filter(receiveMessages, Not(ChartIs(vm.userId)));
        UpdateMessageCount();
      }
    }

    /** Opens the conversation with user, building it on first opening;
        that friend's pending messages move into it in order with one
        read receipt for the whole conversation, and the badges are
        recomputed. A null friend does nothing. */
    method SwitchFriend(user: Contact?)
      requires Keyed()
      modifies this`chatList, this`items, this`receiveMessages, this`publishedTotals, this`active
      modifies chatList.Values, friendList
      ensures Keyed() && old(chatList).Keys <= chatList.Keys
      ensures user == null ==>
        receiveMessages == old(receiveMessages) && chatList == old(chatList) && items == old(items)
        && active == old(active) && publishedTotals == old(publishedTotals)
      ensures user != null ==>
        && user.id in chatList && active == chatList[user.id]
        && (user.id in old(chatList) ==> chatList == old(chatList) && items == old(items))
        && (user.id !in old(chatList) ==>
              fresh(chatList[user.id]) && chatList[user.id].friend == user
              && chatList == old(chatList)[user.id := chatList[user.id]]
              && items == old(items) + [chatList[user.id]])
      ensures user != null ==>
        var pending := Filter(old(receiveMessages), ChartIs(user.id));
        var before := if user.id in old(chatList) then old(chatList[user.id].chats) else [];
        var requestsBefore := if user.id in old(chatList) then old(chatList[user.id].readRequests) else [];
        && (pending == [] ==>
              receiveMessages == old(receiveMessages) && publishedTotals == old(publishedTotals)
              && chatList[user.id].chats == before && chatList[user.id].readRequests == requestsBefore)
        && (pending != [] ==>
              && receiveMessages == Filter(old(receiveMessages), Not(ChartIs(user.id)))
              && chatList[user.id].chats == before + ToChatContents(pending)
              && chatList[user.id].readRequests == requestsBefore + [ReadByFriend(user.id)]
              && (forall f :: f in friendList ==> f.chartCount == PendingCount(receiveMessages, f.id))
              && publishedTotals == old(publishedTotals) + [|receiveMessages|])
      ensures forall id :: id in old(chatList) && (user == null || id != user.id) ==>
        chatList[id].chats == old(chatList[id].chats)
    {
      if user == null {
        return;
      }
      var vm := Conversation(user);
      DrainPending(vm);
      active := vm;
    }

    /** The SelectedFriend setter: a different value is stored and opened;
        the value already selected changes nothing. */
    method SetSelectedFriend(value: Contact?)
      requires Valid()
      modifies this`selectedFriend, this`chatList, this`items, this`receiveMessages, this`publishedTotals, this`active
      modifies chatList.Values, friendList
      ensures Valid()
      ensures selectedFriend == value
      ensures old(selectedFriend) == value ==>
        receiveMessages == old(receiveMessages) && chatList == old(chatList) && items == old(items)
        && active == old(active) && publishedTotals == old(publishedTotals)
      ensures old(selectedFriend) != value && value != null ==>
        value.id in chatList && active == chatList[value.id]
        && receiveMessages == Filter(old(receiveMessages), Not(ChartIs(value.id)))
    {
      if selectedFriend != value {
        selectedFriend := value;
        SwitchFriend(value);
        if value != null && Filter(old(receiveMessages), ChartIs(value.id)) == [] {
          FilterNone(old(receiveMessages), ChartIs(value.id));
          FilterKeepsAll(old(receiveMessages), Not(ChartIs(value.id)));
        }
      }
    }

    /** A live message: appended to the open conversation when it belongs
        to the selected friend, otherwise kept pending with the badges
        recomputed. */
    method HandleMessage(message: UserReceiveMessage)
      requires Valid()
      modifies this`receiveMessages, this`publishedTotals, chatList.Values, friendList
      ensures Valid() && chatList == old(chatList)
      ensures selectedFriend != null && selectedFriend.id == message.chartId ==>
        var vm := chatList[message.chartId];
        && vm.chats == old(vm.chats) + [ToChatContent(message)]
        && vm.readRequests == old(vm.readRequests) + [ReadById(message.id)]
        && receiveMessages == old(receiveMessages) && publishedTotals == old(publishedTotals)
      ensures !(selectedFriend != null && selectedFriend.id == message.chartId) ==>
        && receiveMessages == old(receiveMessages) + [message]
        && (forall f :: f in friendList ==> f.chartCount == PendingCount(receiveMessages, f.id))
        && publishedTotals == old(publishedTotals) + [|receiveMessages|]
      ensures forall id :: id in chatList && id != message.chartId ==> chatList[id].chats == old(chatList[id].chats)
    {
      if selectedFriend != null && selectedFriend.id == message.chartId {
        var vm := chatList[selectedFriend.id];
        vm.AddChat(Some(message));
      } else {
        receiveMessages := receiveMessages + [message];
        UpdateMessageCount();
      }
    }

    /** The unread messages fetched at start-up: those from friends join
        the pending list in fetch order and the badges are recomputed once.
        A failed fetch (null) does nothing. */
    method GetAllUnreadChart(list: Option<seq<PrivateChatBiz.PrivateChatDto>>)
      modifies this`receiveMessages, this`publishedTotals, friendList
      ensures list.None? ==>
        receiveMessages == old(receiveMessages) && publishedTotals == old(publishedTotals)
        && (forall f :: f in friendList ==> f.chartCount == old(f.chartCount))
      ensures forall f :: f in friendList ==> f.isVisible == old(f.isVisible)
      ensures list.Some? ==>
        && receiveMessages == old(receiveMessages) + Backlog(friendList, list.value)
        && (forall f :: f in friendList ==> f.chartCount == PendingCount(receiveMessages, f.id))
        && publishedTotals == old(publishedTotals) + [|receiveMessages|]
    {
      if list.None? {
        return;
      }
      var rows := list.value;
      var merged := receiveMessages;
      var i := 0;
      while i < |rows|
        invariant 0 <= i <= |rows|
        invariant merged == old(receiveMessages) + Backlog(friendList, rows[..i])
        invariant publishedTotals == old(publishedTotals)
        invariant forall f :: f in friendList ==> f.isVisible == old(f.isVisible)
      {
        var user := FindFriend(friendList, rows[i].senderId);
        BacklogSnoc(friendList, rows[..i], rows[i]);
        assert rows[..i + 1] == rows[..i] + [rows[i]];
        if user != null {
          merged := merged + [BacklogEntry(rows[i], user)];
        }
        i := i + 1;
      }
      assert rows[..i] == rows;
      receiveMessages := merged;
      UpdateMessageCount();
    }

    /** The friend list arrives; on the first load only, the unread
        backlog is merged in as well. */
    method GetFriends(fetched: seq<Contact>, backlog: Option<seq<PrivateChatBiz.PrivateChatDto>>)
      requires Valid()
      modifies this`friendList, this`isFirstView, this`backlogFetches, this`receiveMessages, this`publishedTotals, fetched
      ensures Valid()
      ensures friendList == fetched && !isFirstView
      ensures forall f :: f in fetched ==> f.isVisible == old(f.isVisible)
      ensures !old(isFirstView) ==>
        receiveMessages == old(receiveMessages) && publishedTotals == old(publishedTotals)
        && backlogFetches == old(backlogFetches)
        && (forall f :: f in fetched ==> f.chartCount == old(f.chartCount))
      ensures old(isFirstView) ==> backlogFetches == old(backlogFetches) + 1
      ensures old(isFirstView) && backlog.None? ==>
        receiveMessages == old(receiveMessages) && publishedTotals == old(publishedTotals)
        && (forall f :: f in fetched ==> f.chartCount == old(f.chartCount))
      ensures old(isFirstView) && backlog.Some? ==>
        receiveMessages == old(receiveMessages) + Backlog(fetched, backlog.value)
        && (forall f :: f in fetched ==> f.chartCount == PendingCount(receiveMessages, f.id))
        && publishedTotals == old(publishedTotals) + [|receiveMessages|]
    {
      friendList := fetched;
      if isFirstView {
        GetAllUnreadChart(backlog);
        backlogFetches := backlogFetches + 1;
        isFirstView := false;
      }
    }
  }
}

// The private-message store: persisting a message, the per-user and
// per-conversation unread listings, and marking messages read one by one
// or per conversation. `committed` stands for the database's answer to a
// write (more than zero affected rows).
module PrivateChatBiz {
  import opened Wrappers
  import opened Tables
  import opened Storage

  /** The message as it travels between server and client. */
  datatype PrivateChatDto = PrivateChatDto(
    id: Option<String>,
    contentType: String,
    senderId: String,
    receiverId: String,
    content: String,
    createdAt: int)

  /** The projection every listing applies to a stored row. */
  function ToDto(m: PrivateChat): PrivateChatDto
  {
    PrivateChatDto(Some(m.messageId), m.contentType, m.senderId, m.receiverId, m.content, m.createdAt)
  }

  function Project(rows: seq<PrivateChat>): (r: seq<PrivateChatDto>)
    ensures |r| == |rows| && forall i :: 0 <= i < |rows| ==> r[i] == ToDto(rows[i])
  {
    seq(|rows|, i requires 0 <= i < |rows| => ToDto(rows[i]))
  }

  /** A nullable flag counts as unread only when it is false, not null. */
  predicate IsUnread(m: PrivateChat)
  {
    m.isRead == Some(false)
  }

  function InvolvesPred(id: String): PrivateChat -> bool
  {
    (m: PrivateChat) => m.senderId == id || m.receiverId == id
  }

  function UnreadToPred(userId: String): PrivateChat -> bool
  {
    (m: PrivateChat) => m.receiverId == userId && IsUnread(m)
  }

  function UnreadFromPred(userId: String, friendId: String): PrivateChat -> bool
  {
    (m: PrivateChat) => m.senderId == friendId && m.receiverId == userId && IsUnread(m)
  }

  function MarkRead(m: PrivateChat): PrivateChat
  {
    m.(isRead := Some(true))
  }

  /** The chat history of a user: every message it sent or received. */
  function GetUserPrivateChats(rows: seq<PrivateChat>, id: String): (r: seq<PrivateChat>)
    ensures forall m :: m in r <==> m in rows && (m.senderId == id || m.receiverId == id)
  {
    Filter(rows, InvolvesPred(id))
  }

  /** All unread messages addressed to a user. */
  function GetAllUnreadByUserId(rows: seq<PrivateChat>, userId: String): seq<PrivateChatDto>
  {
    Project(Filter(rows, UnreadToPred(userId)))
  }

  /** The unread messages one friend sent to a user. */
  function GetUnreadUserChart(rows: seq<PrivateChat>, userId: String, friendId: String): seq<PrivateChatDto>
  {
    Project(Filter(rows, UnreadFromPred(userId, friendId)))
  }

  /** The row AddPrivateChats inserts for a DTO: the DTO's id or a fresh
      GUID, unread, not recalled, stamped with the current time. Reading it
      back through the listing projection returns the DTO with its id filled
      in and its timestamp replaced. */
  function NewChat(dto: PrivateChatDto, newGuid: String, now: int): (m: PrivateChat)
    ensures m.messageId == (if dto.id.Some? then dto.id.value else newGuid)
    ensures IsUnread(m) && m.isRecalled == Some(false) && m.createdAt == now
    ensures ToDto(m) == dto.(id := Some(m.messageId), createdAt := now)
  {
    PrivateChat(
      if dto.id.Some? then dto.id.value else newGuid,
      dto.senderId, dto.receiverId, dto.content, dto.contentType,
      Some(false), Some(false), now)
  }

  /** Persists a message. A primary-key collision is an error; a write the
      database does not confirm yields no model. */
  method AddPrivateChats(db: Database, dto: PrivateChatDto, newGuid: String, now: int, committed: bool)
    returns (r: Result<Option<PrivateChat>, StoreError>)
    requires db.Valid()
    modifies db`chats
    ensures db.Valid()
    ensures var m := NewChat(dto, newGuid, now);
      if FindByKey(old(db.chats), ChatKey, m.messageId).Some? then
        r == Err(DuplicateKey) && db.chats == old(db.chats)
      else if committed then
        r == Ok(Some(m)) && db.chats == old(db.chats) + [m]
      else
        r == Ok(None) && db.chats == old(db.chats)
  {
    var model := NewChat(dto, newGuid, now);
    if FindByKey(db.chats, ChatKey, model.messageId).Some? {
      return Err(DuplicateKey);
    }
    if committed {
      AppendFreshKey(db.chats, model, ChatKey);
      db.chats := db.chats + [model];
      r := Ok(Some(model));
    } else {
      r := Ok(None);
    }
  }

  /** The table after SetReadById(id) has been written back. */
  function SetReadByIdRows(rows: seq<PrivateChat>, id: String): seq<PrivateChat>
  {
    UpdateWhere(rows, KeyIs(ChatKey, id), MarkRead)
  }

  /** The table after SetReadByFriendId(userId, friendId) has been written back. */
  function SetReadByFriendRows(rows: seq<PrivateChat>, userId: String, friendId: String): seq<PrivateChat>
  {
    UpdateWhere(rows, UnreadFromPred(userId, friendId), MarkRead)
  }

  /** Marks one message read. An unknown id is an error (the lookup finds
      nothing and is dereferenced); otherwise the answer is whether the
      database confirmed the write. */
  method SetReadById(db: Database, id: String, committed: bool) returns (r: Result<bool, StoreError>)
    requires db.Valid()
    modifies db`chats
    ensures db.Valid()
    ensures FindByKey(old(db.chats), ChatKey, id).None? ==>
      r == Err(NotFound) && db.chats == old(db.chats)
    ensures FindByKey(old(db.chats), ChatKey, id).Some? ==>
      r == Ok(committed) &&
      db.chats == if committed then SetReadByIdRows(old(db.chats), id) else old(db.chats)
  {
    var chart := FindByKey(db.chats, ChatKey, id);
    if chart.None? {
      return Err(NotFound);
    }
    var updated := MarkRead(chart.value);
    if committed {
      FilterByUniqueKey(db.chats, ChatKey, id);
      WriteBackIsUpdateWhere(db.chats, KeyIs(ChatKey, id), MarkRead, ChatKey, [updated]);
      UpdateKeepsKeys(db.chats, KeyIs(ChatKey, id), MarkRead, ChatKey);
      db.chats := ReplaceByKey(db.chats, [updated], ChatKey);
    }
    r := Ok(committed);
  }

  /** Marks read every unread message a friend sent to the user. The answer
      is false when there was nothing to mark. */
  method SetReadByFriendId(db: Database, userId: String, friendId: String, committed: bool) returns (r: bool)
    requires db.Valid()
    modifies db`chats
    ensures db.Valid()
    ensures r == (committed && |GetUnreadUserChart(old(db.chats), userId, friendId)| > 0)
    ensures db.chats == if committed then SetReadByFriendRows(old(db.chats), userId, friendId) else old(db.chats)
  {
    var list := Filter(db.chats, UnreadFromPred(userId, friendId));
    ghost var fetched := list;
    var i := 0;
    while i < |list|
      invariant 0 <= i <= |list| == |fetched|
      invariant forall j :: 0 <= j < i ==> list[j] == MarkRead(fetched[j])
      invariant forall j :: i <= j < |list| ==> list[j] == fetched[j]
    {
      list := list[i := MarkRead(list[i])];
      i := i + 1;
    }
    if committed {
      WriteBackIsUpdateWhere(db.chats, UnreadFromPred(userId, friendId), MarkRead, ChatKey, list);
      UpdateKeepsKeys(db.chats, UnreadFromPred(userId, friendId), MarkRead, ChatKey);
      db.chats := ReplaceByKey(db.chats, list, ChatKey);
    }
    r := committed && |list| > 0;
  }

  // ----- What the listings contain -----

  lemma ProjectMembers(s: seq<PrivateChat>)
    ensures forall m :: m in s ==> ToDto(m) in Project(s)
    ensures forall d :: d in Project(s) ==> exists m :: m in s && d == ToDto(m)
  {
    forall m | m in s ensures ToDto(m) in Project(s) {
      var i :| 0 <= i < |s| && s[i] == m;
      assert Project(s)[i] == ToDto(m);
    }
    forall d | d in Project(s) ensures exists m :: m in s && d == ToDto(m) {
      var i :| 0 <= i < |Project(s)| && Project(s)[i] == d;
      assert s[i] in s;
    }
  }

  /** The unread listing of a user holds exactly the unread messages
      addressed to that user. */
  lemma UnreadListing(rows: seq<PrivateChat>, userId: String)
    ensures forall m :: m in rows && m.receiverId == userId && IsUnread(m) ==>
      ToDto(m) in GetAllUnreadByUserId(rows, userId)
    ensures forall d :: d in GetAllUnreadByUserId(rows, userId) ==>
      exists m :: m in rows && m.receiverId == userId && IsUnread(m) && d == ToDto(m)
  {
    ProjectMembers(Filter(rows, UnreadToPred(userId)));
  }

  /** A listing entry sent by the given friend. */
  function SentBy(friendId: String): PrivateChatDto -> bool
  {
    (d: PrivateChatDto) => d.senderId == friendId
  }

  lemma ProjectAppend(a: seq<PrivateChat>, b: seq<PrivateChat>)
    ensures Project(a + b) == Project(a) + Project(b)
  {
    assert forall i :: 0 <= i < |a + b| ==> Project(a + b)[i] == (Project(a) + Project(b))[i];
  }

  /** The per-conversation listing is the per-user listing restricted to one
      sender. The sequence equality relies on the model returning query rows
      in insertion order; UnreadListingsAsMultisets states the
      order-free form. */
  lemma {:induction false} ConversationIsSubListing(rows: seq<PrivateChat>, userId: String, friendId: String)
    ensures GetUnreadUserChart(rows, userId, friendId) == Filter(GetAllUnreadByUserId(rows, userId), SentBy(friendId))
  {
    if rows != [] {
      var x, rest := rows[0], rows[1..];
      var to, from := UnreadToPred(userId), UnreadFromPred(userId, friendId);
      ConversationIsSubListing(rest, userId, friendId);
      var headTo := if to(x) then [x] else [];
      var headFrom := if from(x) then [x] else [];
      assert Filter(rows, to) == headTo + Filter(rest, to);
      assert Filter(rows, from) == headFrom + Filter(rest, from);
      ProjectAppend(headTo, Filter(rest, to));
      ProjectAppend(headFrom, Filter(rest, from));
      FilterAppend(Project(headTo), Project(Filter(rest, to)), SentBy(friendId));
      assert Filter(Project(headTo), SentBy(friendId)) == Project(headFrom) by {
        if to(x) {
          assert Project(headTo) == [ToDto(x)];
          assert Filter([ToDto(x)], SentBy(friendId)) == (if SentBy(friendId)(ToDto(x)) then [ToDto(x)] else []) + Filter([], SentBy(friendId));
        }
      }
    }
  }

  /** A newly persisted message is appended to the receiver's unread
      listing and to the listing of its conversation (last, because the
      model returns query rows in insertion order). */
  lemma NewMessageIsListedUnread(rows: seq<PrivateChat>, dto: PrivateChatDto, newGuid: String, now: int)
    ensures var m := NewChat(dto, newGuid, now);
      GetAllUnreadByUserId(rows + [m], dto.receiverId) == GetAllUnreadByUserId(rows, dto.receiverId) + [ToDto(m)]
      && GetUnreadUserChart(rows + [m], dto.receiverId, dto.senderId)
         == GetUnreadUserChart(rows, dto.receiverId, dto.senderId) + [ToDto(m)]
  {
    var m := NewChat(dto, newGuid, now);
    FilterAppend(rows, [m], UnreadToPred(dto.receiverId));
    FilterAppend(rows, [m], UnreadFromPred(dto.receiverId, dto.senderId));
    assert Filter([m], UnreadToPred(dto.receiverId)) == [m];
    assert Filter([m], UnreadFromPred(dto.receiverId, dto.senderId)) == [m];
  }

  /** The two listings without any claim about row order: a new message is
      listed exactly once more in both, and a conversation holds the same
      rows as the user's listing restricted to its sender. */
  lemma UnreadListingsAsMultisets(rows: seq<PrivateChat>, dto: PrivateChatDto, newGuid: String, now: int)
    ensures var m := NewChat(dto, newGuid, now);
      multiset(GetAllUnreadByUserId(rows + [m], dto.receiverId))
        == multiset(GetAllUnreadByUserId(rows, dto.receiverId)) + multiset{ToDto(m)}
      && multiset(GetUnreadUserChart(rows + [m], dto.receiverId, dto.senderId))
        == multiset(GetUnreadUserChart(rows, dto.receiverId, dto.senderId)) + multiset{ToDto(m)}
    ensures multiset(GetUnreadUserChart(rows, dto.receiverId, dto.senderId))
      == multiset(Filter(GetAllUnreadByUserId(rows, dto.receiverId), SentBy(dto.senderId)))
  {
    NewMessageIsListedUnread(rows, dto, newGuid, now);
    ConversationIsSubListing(rows, dto.receiverId, dto.senderId);
  }

  // ----- Marking read -----

  /** After a conversation is marked read its unread listing is empty. */
  lemma ReadByFriendClearsConversation(rows: seq<PrivateChat>, userId: String, friendId: String)
    ensures GetUnreadUserChart(SetReadByFriendRows(rows, userId, friendId), userId, friendId) == []
  {
    FilterNone(SetReadByFriendRows(rows, userId, friendId), UnreadFromPred(userId, friendId));
  }

  /** Marking one conversation read leaves the unread listing of every
      other conversation as it was. */
  lemma ReadByFriendKeepsOtherConversations(rows: seq<PrivateChat>, userId: String, friendId: String,
                                            otherUser: String, otherFriend: String)
    requires (otherUser, otherFriend) != (userId, friendId)
    ensures GetUnreadUserChart(SetReadByFriendRows(rows, userId, friendId), otherUser, otherFriend)
         == GetUnreadUserChart(rows, otherUser, otherFriend)
  {
    FilterUnaffected(rows, UnreadFromPred(userId, friendId), MarkRead, UnreadFromPred(otherUser, otherFriend));
  }

  /** Marking a conversation read removes from the user's unread listing
      exactly that friend's messages. */
  lemma ReadByFriendShrinksUnreadListing(rows: seq<PrivateChat>, userId: String, friendId: String)
    ensures forall d ::
      d in GetAllUnreadByUserId(SetReadByFriendRows(rows, userId, friendId), userId) <==>
      d in GetAllUnreadByUserId(rows, userId) && d.senderId != friendId
  {
    var p := UnreadFromPred(userId, friendId);
    var q := UnreadToPred(userId);
    var after := SetReadByFriendRows(rows, userId, friendId);
    FilterAfterUpdate(rows, p, MarkRead, q);
    ProjectMembers(Filter(after, q));
    ProjectMembers(Filter(rows, q));
    forall d | d in GetAllUnreadByUserId(rows, userId) && d.senderId != friendId
      ensures d in GetAllUnreadByUserId(after, userId)
    {
      var m :| m in Filter(rows, q) && d == ToDto(m);
      assert m in Filter(after, q);
    }
  }

  /** Marking a message read a second time changes nothing. */
  lemma ReadByIdIdempotent(rows: seq<PrivateChat>, id: String)
    ensures SetReadByIdRows(SetReadByIdRows(rows, id), id) == SetReadByIdRows(rows, id)
  {
    UpdateWhereTwice(rows, KeyIs(ChatKey, id), MarkRead);
  }

  /** Row-level form of ReadByIdShrinksUnreadListing. */
  lemma ReadByIdUnreadRows(rows: seq<PrivateChat>, id: String, userId: String)
    ensures forall m ::
      m in Filter(SetReadByIdRows(rows, id), UnreadToPred(userId)) <==>
      m in Filter(rows, UnreadToPred(userId)) && m.messageId != id
  {
    var q := UnreadToPred(userId);
    forall x ensures !q(MarkRead(x)) {
      assert MarkRead(x).isRead == Some(true);
    }
    var p := KeyIs(ChatKey, id);
    FilterAfterUpdate(rows, p, MarkRead, q);
    forall m ensures p(m) <==> m.messageId == id {
      assert p(m) == (ChatKey(m) == id);
    }
  }

  /** Marking a message read takes exactly that message out of every unread
      listing. */
  lemma ReadByIdShrinksUnreadListing(rows: seq<PrivateChat>, id: String, userId: String)
    ensures forall d ::
      d in GetAllUnreadByUserId(SetReadByIdRows(rows, id), userId) <==>
      d in GetAllUnreadByUserId(rows, userId) && d.id != Some(id)
  {
    var q := UnreadToPred(userId);
    var after := SetReadByIdRows(rows, id);
    ReadByIdUnreadRows(rows, id, userId);
    ProjectMembers(Filter(after, q));
    ProjectMembers(Filter(rows, q));
    forall d | d in GetAllUnreadByUserId(after, userId)
      ensures d in GetAllUnreadByUserId(rows, userId) && d.id != Some(id)
    {
      var m :| m in Filter(after, q) && d == ToDto(m);
      assert m in Filter(rows, q) && m.messageId != id;
    }
    forall d | d in GetAllUnreadByUserId(rows, userId) && d.id != Some(id)
      ensures d in GetAllUnreadByUserId(after, userId)
    {
      var m :| m in Filter(rows, q) && d == ToDto(m);
      assert m.messageId != id by { assert d.id == Some(m.messageId); }
      assert m in Filter(after, q);
    }
  }

}

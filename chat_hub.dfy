// The server's real-time hub: a registry binding each user id to the
// connection it last registered from, and the delivery of a private
// message (persist, push to the recipient if connected, echo to the
// sender). Pushes are recorded in a ghost log of outgoing events; the
// transport itself is not modelled.
module ChatHub {
  import opened Wrappers
  import opened Tables
  import opened Storage
  import opened UserBiz
  import opened PrivateChatBiz

  /** The push a connected recipient receives. */
  datatype ReceiveMessage = ReceiveMessage(
    id: String,
    senderId: String,
    nickName: String,
    avatarUrl: String,
    contentType: String,
    content: String,
    sentAt: int)

  /** The confirmation echoed to the sender's own connection. */
  datatype SentMeMessage = SentMeMessage(
    id: String,
    receiverId: String,
    content: String,
    sentAt: int,
    contentType: String)

  /** What the hub did, in order: a message stored, a push to a connection,
      an echo to the calling connection. */
  datatype HubEvent =
    | Persisted(messageId: String)
    | ReceivePush(connectionId: String, receive: ReceiveMessage)
    | SentMePush(connectionId: String, sentMe: SentMeMessage)

  const TextContentType: String := "text"

  function PushedId(e: HubEvent): Option<String>
  {
    match e
    case Persisted(_) => None
    case ReceivePush(_, m) => Some(m.id)
    case SentMePush(_, m) => Some(m.id)
  }

  /** Every push carries a message that an earlier event stored. */
  ghost predicate PushesFollowPersist(log: seq<HubEvent>)
  {
    forall i :: 0 <= i < |log| && PushedId(log[i]).Some? ==>
      exists j :: 0 <= j < i && log[j] == Persisted(PushedId(log[i]).value)
  }

  /** The message row the hub asks the store to insert. */
  function OutgoingDto(senderId: String, receiverId: String, message: String): PrivateChatDto
  {
    PrivateChatDto(None, TextContentType, senderId, receiverId, message, 0)
  }

  /** SendMessageToFriend's answer for a caller bound as senderId: nothing
      for an unknown sender; otherwise AddPrivateChats' answer for the row
      built from the message, whose key is the fresh GUID. */
  function SendAnswer(users: seq<ChatUser>, chats: seq<PrivateChat>, senderId: String, receiverId: String,
                      message: String, newGuid: String, now: int, committed: bool)
    : (r: Result<Option<PrivateChat>, StoreError>)
    ensures r.Err? <==> GetUserInfo(users, senderId).Some? && FindByKey(chats, ChatKey, newGuid).Some?
    ensures r.Err? ==> r.error == DuplicateKey
    ensures r.Ok? && r.value.Some? <==>
      GetUserInfo(users, senderId).Some? && FindByKey(chats, ChatKey, newGuid).None? && committed
    ensures r.Ok? && r.value.Some? ==>
      r.value.value == NewChat(OutgoingDto(senderId, receiverId, message), newGuid, now)
      && r.value.value.messageId == newGuid
  {
    if GetUserInfo(users, senderId).None? then Ok(None)
    else if FindByKey(chats, ChatKey, newGuid).Some? then Err(DuplicateKey)
    else if committed then Ok(Some(NewChat(OutgoingDto(senderId, receiverId, message), newGuid, now)))
    else Ok(None)
  }

  function ToReceiveMessage(sender: ChatUser, m: PrivateChat): (r: ReceiveMessage)
  {
    ReceiveMessage(m.messageId, sender.userId, sender.nickName, sender.avatarUrl, m.contentType, m.content, m.createdAt)
  }

  function ToSentMe(m: PrivateChat): (r: SentMeMessage)
  {
    SentMeMessage(m.messageId, m.receiverId, m.content, m.createdAt, m.contentType)
  }

  /** The events of one delivery of a stored message m. */
  function DeliveryEvents(connections: map<String, String>, callerConn: String, sender: ChatUser, m: PrivateChat)
    : (r: seq<HubEvent>)
    ensures |r| == if m.receiverId in connections then 3 else 2
    ensures r[0] == Persisted(m.messageId) && r[|r| - 1] == SentMePush(callerConn, ToSentMe(m))
    ensures forall i :: 0 < i < |r| ==> PushedId(r[i]) == Some(m.messageId)
  {
    [Persisted(m.messageId)]
    + (if m.receiverId in connections then [ReceivePush(connections[m.receiverId], ToReceiveMessage(sender, m))] else [])
    + [SentMePush(callerConn, ToSentMe(m))]
  }

  /** A delivery appended to a well-ordered log keeps it well ordered. */
  lemma DeliveryKeepsOrder(log: seq<HubEvent>, connections: map<String, String>, callerConn: String, sender: ChatUser, m: PrivateChat)
    requires PushesFollowPersist(log)
    ensures PushesFollowPersist(log + DeliveryEvents(connections, callerConn, sender, m))
  {
    var d := DeliveryEvents(connections, callerConn, sender, m);
    var l := log + d;
    forall i | 0 <= i < |l| && PushedId(l[i]).Some?
      ensures exists j :: 0 <= j < i && l[j] == Persisted(PushedId(l[i]).value)
    {
      if i < |log| {
        assert l[i] == log[i];
        var j :| 0 <= j < i && log[j] == Persisted(PushedId(log[i]).value);
        assert l[j] == log[j];
      } else {
        assert l[i] == d[i - |log|];
        assert l[|log|] == d[0];
      }
    }
  }

  class Hub {
    /** user id -> connection id of its latest registration */
    var connections: map<String, String>
    ghost var log: seq<HubEvent>
    const db: Database

    ghost predicate Valid()
      reads this, db
    {
      db.Valid() && PushesFollowPersist(log)
    }

    constructor (db: Database)
      requires db.Valid()
      ensures Valid() && this.db == db
      ensures connections == map[] && log == []
    {
      this.db := db;
      connections := map[];
      log := [];
    }

    /** Binds userId to the calling connection after marking the user
        online. An unknown user answers false and binds nothing. In this
        model the store does not throw, so once the user is found the catch
        that answers false is not reached; in the service a store exception
        from the status update (a lost connection, say) answers false and
        binds nothing. */
    method RegisterUserConnection(userId: String, callerConn: String, now: int, committed: bool) returns (r: bool)
      requires Valid()
      modifies this`connections, db`users
      ensures Valid()
      ensures GetUserInfo(old(db.users), userId).None? ==>
        !r && connections == old(connections) && db.users == old(db.users)
      ensures GetUserInfo(old(db.users), userId).Some? ==>
        r && connections == old(connections)[userId := callerConn]
        && db.users == if committed then UpdateUserStatusRows(old(db.users), userId, Online, now) else old(db.users)
    {
      var user := GetUserInfo(db.users, userId);
      if user.None? {
        return false;
      }
      var _ := UpdateUserStatus(db, userId, Online, now, committed);
      connections := connections[userId := callerConn];
      r := true;
    }

    /** A connection opening for an authenticated user: the same binding as
        RegisterUserConnection, with no answer. */
    method OnConnected(userId: String, callerConn: String, now: int, committed: bool)
      requires Valid()
      modifies this`connections, db`users
      ensures Valid()
      ensures GetUserInfo(old(db.users), userId).None? ==>
        connections == old(connections) && db.users == old(db.users)
      ensures GetUserInfo(old(db.users), userId).Some? ==>
        connections == old(connections)[userId := callerConn]
        && db.users == if committed then UpdateUserStatusRows(old(db.users), userId, Online, now) else old(db.users)
    {
      var user := GetUserInfo(db.users, userId);
      if user.None? {
        return;
      }
      var _ := UpdateUserStatus(db, userId, Online, now, committed);
      connections := connections[userId := callerConn];
    }

    /** The user bound to a connection, found by scanning the registry; the
        dictionary's enumeration order is unspecified, so when several
        users are bound to the connection any one of them may be found. */
    method GetUserId(conn: String) returns (r: Option<String>)
      ensures r.Some? ==> r.value in connections && connections[r.value] == conn
      ensures r.None? <==> forall u :: u in connections ==> connections[u] != conn
    {
      var unseen := connections.Keys;
      while unseen != {}
        invariant unseen <= connections.Keys
        invariant forall u :: u in connections && u !in unseen ==> connections[u] != conn
        decreases |unseen|
      {
        var u :| u in unseen;
        if connections[u] == conn {
          return Some(u);
        }
        unseen := unseen - {u};
      }
      r := None;
    }

    /** A connection closing: the user bound to it is marked offline and
        unbound. A connection nobody is bound to changes nothing; a status
        update that fails (the bound user's row is gone) propagates before
        the entry is removed. */
    method OnDisconnected(conn: String, now: int, committed: bool) returns (r: Result<Option<String>, StoreError>)
      requires Valid()
      modifies this`connections, db`users
      ensures Valid()
      ensures r == Ok(None) <==> forall u :: u in old(connections) ==> old(connections)[u] != conn
      ensures r == Ok(None) ==> connections == old(connections) && db.users == old(db.users)
      ensures r.Err? ==>
        r.error == NotFound && connections == old(connections) && db.users == old(db.users)
      ensures r.Ok? && r.value.Some? ==>
        var u := r.value.value;
        u in old(connections) && old(connections)[u] == conn
        && connections == old(connections) - {u}
        && db.users == if committed then UpdateUserStatusRows(old(db.users), u, Offline, now) else old(db.users)
    {
      var userId := GetUserId(conn);
      if userId.None? {
        return Ok(None);
      }
      var status := UpdateUserStatus(db, userId.value, Offline, now, committed);
      if status.Err? {
        return Err(status.error);
      }
      connections := connections - {userId.value};
      r := Ok(userId);
    }

    /** Sends a text message from the user bound to the calling connection:
        stores it, pushes it to the recipient's connection when the
        recipient is bound, and echoes it to the caller. An unbound caller,
        an unknown sender or an insert the database did not confirm sends
        nothing; a failing insert propagates. The answer is the stored
        row. */
    method SendMessageToFriend(callerConn: String, receiverId: String, message: String, newGuid: String, now: int, committed: bool)
      returns (r: Result<Option<PrivateChat>, StoreError>)
      requires Valid()
      modifies this`log, db`chats
      ensures Valid()
      ensures connections == old(connections)
      ensures (forall u :: u in connections ==> connections[u] != callerConn) ==>
        r == Ok(None) && db.chats == old(db.chats) && log == old(log)
      ensures (exists u :: u in connections && connections[u] == callerConn) ==>
        exists u :: u in connections && connections[u] == callerConn
          && r == SendAnswer(db.users, old(db.chats), u, receiverId, message, newGuid, now, committed)
      ensures !(r.Ok? && r.value.Some?) ==> db.chats == old(db.chats) && log == old(log)
      ensures r.Ok? && r.value.Some? ==>
        var m := r.value.value;
        var sender := GetUserInfo(db.users, m.senderId);
        && m.senderId in connections && connections[m.senderId] == callerConn
        && sender.Some?
        && m == NewChat(OutgoingDto(m.senderId, receiverId, message), newGuid, now)
        && db.chats == old(db.chats) + [m]
        && log == old(log) + DeliveryEvents(connections, callerConn, sender.value, m)
    {
      var userId := GetUserId(callerConn);
      if userId.None? {
        return Ok(None);
      }
      var user := GetUserInfo(db.users, userId.value);
      if user.None? {
        return Ok(None);
      }
      var dto := OutgoingDto(userId.value, receiverId, message);
      var model := AddPrivateChats(db, dto, newGuid, now, committed);
      if model.Err? {
        return Err(model.error);
      }
      if model.value.None? {
        return Ok(None);
      }
      var m := model.value.value;
      Deliver(callerConn, user.value, m);
      r := model;
    }

    /** What follows a confirmed insert: the row is reported persisted, then
        pushed to the receiver when it is online, then echoed to the caller. */
    method Deliver(callerConn: String, sender: ChatUser, m: PrivateChat)
      requires Valid()
      modifies this`log
      ensures Valid()
      ensures log == old(log) + DeliveryEvents(connections, callerConn, sender, m)
    {
      DeliveryKeepsOrder(log, connections, callerConn, sender, m);
      log := log + [Persisted(m.messageId)];
      if m.receiverId in connections {
        log := log + [ReceivePush(connections[m.receiverId], ToReceiveMessage(sender, m))];
      }
      log := log + [SentMePush(callerConn, ToSentMe(m))];
      assert log == old(log) + DeliveryEvents(connections, callerConn, sender, m);
    }

    /** The connection ids currently bound, each listed once. */
    method GetAllOnlineUsers() returns (r: seq<String>)
      ensures forall c :: c in r <==> exists u :: u in connections && connections[u] == c
      ensures forall i, j :: 0 <= i < j < |r| ==> r[i] != r[j]
    {
      r := [];
      var unseen := connections.Keys;
      while unseen != {}
        invariant unseen <= connections.Keys
        invariant forall c :: c in r <==> exists u :: u in connections && u !in unseen && connections[u] == c
        invariant forall i, j :: 0 <= i < j < |r| ==> r[i] != r[j]
        decreases |unseen|
      {
        var u :| u in unseen;
        if connections[u] !in r {
          r := r + [connections[u]];
        }
        unseen := unseen - {u};
      }
    }
  }

  /** Re-registering from a new connection and then closing the old one
      keeps the new binding: the scan no longer finds the old connection. */
  method RebindThenDropOld(hub: Hub, userId: String, oldConn: String, newConn: String, now: int)
    requires hub.Valid()
    requires GetUserInfo(hub.db.users, userId).Some?
    requires oldConn != newConn
    modifies hub, hub.db`users
    ensures userId in hub.connections && hub.connections[userId] == newConn
  {
    var registered := hub.RegisterUserConnection(userId, newConn, now, true);
    var closed := hub.OnDisconnected(oldConn, now, true);
  }
}

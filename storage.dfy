// The server's database: the three tables the chat core reads and writes
// (users, friendships, private messages). Rows are values; the database
// is one object whose tables the business layer replaces. Timestamps are
// integer ticks supplied by the caller.
module Storage {
  import opened Wrappers
  import opened Tables

  type String = seq<char>

  /** A row of the chat_users table. */
  datatype ChatUser = ChatUser(
    userId: String,
    userName: String,
    email: String,
    phone: String,
    avatarUrl: String,
    nickName: String,
    status: String,
    createdAt: Option<int>,
    lastOnline: Option<int>)

  /** A row of the friendships table; `id` is the identity column. */
  datatype Friendship = Friendship(
    id: int,
    userId1: String,
    userId2: String,
    status: String,
    createdAt: Option<int>)

  /** A row of the private_chat table. `isRead` is nullable in the schema. */
  datatype PrivateChat = PrivateChat(
    messageId: String,
    senderId: String,
    receiverId: String,
    content: String,
    contentType: String,
    isRead: Option<bool>,
    isRecalled: Option<bool>,
    createdAt: int)

  /** The friendship states; rows store the enum member's name. */
  datatype FriendshipsStatus = Apply | Pending | Accepted | Rejected
  {
    function Name(): String
    {
      match this
      case Apply => "Apply"
      case Pending => "Pending"
      case Accepted => "Accepted"
      case Rejected => "Rejected"
    }
  }

  /** The presence states; rows store the enum member's name. */
  datatype UserStatus = Online | Offline | Away
  {
    function Name(): String
    {
      match this
      case Online => "online"
      case Offline => "offline"
      case Away => "away"
    }
  }

  /** How a store operation can fail: a First() that found nothing and was
      dereferenced, an insert that collided with a primary key, a delete
      that reported no affected rows. */
  datatype StoreError = NotFound | DuplicateKey | DeleteFailed

  function UserKey(u: ChatUser): String { u.userId }
  function FriendshipKey(f: Friendship): int { f.id }
  function ChatKey(m: PrivateChat): String { m.messageId }

  class Database {
    var users: seq<ChatUser>
    var friendships: seq<Friendship>
    var chats: seq<PrivateChat>
    /** The next value of the friendships identity column. */
    var nextFriendshipId: int

    /** Primary keys are unique and identities are below the counter. */
    ghost predicate Valid()
      reads this
    {
      && KeysUnique(users, UserKey)
      && KeysUnique(friendships, FriendshipKey)
      && KeysUnique(chats, ChatKey)
      && forall i :: 0 <= i < |friendships| ==> friendships[i].id < nextFriendshipId
    }

    constructor ()
      ensures Valid()
      ensures users == [] && friendships == [] && chats == []
    {
      users, friendships, chats := [], [], [];
      nextFriendshipId := 1;
    }
  }
}

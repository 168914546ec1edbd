// The user directory: lookup by id, presence updates and the search for
// people to add as friends.
module UserBiz {
  import opened Wrappers
  import opened Tables
  import opened Text
  import opened Ordering
  import opened Storage

  /** The public view of a user returned by the user and friend queries. */
  datatype UserDto = UserDto(
    id: String,
    avatarUrl: String,
    email: String,
    phone: String,
    nickName: String,
    userName: String,
    status: String)

  function ToUserDto(u: ChatUser): UserDto
  {
    UserDto(u.userId, u.avatarUrl, u.email, u.phone, u.nickName, u.userName, u.status)
  }

  function ProjectUsers(s: seq<ChatUser>): (r: seq<UserDto>)
    ensures |r| == |s| && forall i :: 0 <= i < |s| ==> r[i] == ToUserDto(s[i])
  {
    seq(|s|, i requires 0 <= i < |s| => ToUserDto(s[i]))
  }

  function CreatedKey(u: ChatUser): Option<int> { u.createdAt }

  /** The user with the given id, or nothing. */
  function GetUserInfo(users: seq<ChatUser>, userId: String): (r: Option<ChatUser>)
    ensures r.Some? ==> r.value in users && r.value.userId == userId
    ensures r.None? <==> forall u :: u in users ==> u.userId != userId
  {
    FindByKey(users, UserKey, userId)
  }

  /** The row change of UpdateUserStatus: the status name, and the last
      online time when the new status is online. */
  function WithStatus(status: UserStatus, now: int): ChatUser -> ChatUser
  {
    (u: ChatUser) => u.(status := status.Name(), lastOnline := if status == Online then Some(now) else u.lastOnline)
  }

  /** The row change of UpdateLastUserTime. */
  function Touch(now: int): ChatUser -> ChatUser
  {
    (u: ChatUser) => u.(lastOnline := Some(now))
  }

  function UpdateUserStatusRows(users: seq<ChatUser>, userId: String, status: UserStatus, now: int): seq<ChatUser>
  {
    UpdateWhere(users, KeyIs(UserKey, userId), WithStatus(status, now))
  }

  function UpdateLastUserTimeRows(users: seq<ChatUser>, userId: String, now: int): seq<ChatUser>
  {
    UpdateWhere(users, KeyIs(UserKey, userId), Touch(now))
  }

  /** Sets a user's presence. An unknown user is an error (the lookup finds
      nothing and is dereferenced). */
  method UpdateUserStatus(db: Database, userId: String, status: UserStatus, now: int, committed: bool)
    returns (r: Result<bool, StoreError>)
    requires db.Valid()
    modifies db`users
    ensures db.Valid()
    ensures GetUserInfo(old(db.users), userId).None? ==> r == Err(NotFound) && db.users == old(db.users)
    ensures GetUserInfo(old(db.users), userId).Some? ==>
      r == Ok(committed) &&
      db.users == if committed then UpdateUserStatusRows(old(db.users), userId, status, now) else old(db.users)
  {
    var user := GetUserInfo(db.users, userId);
    if user.None? {
      return Err(NotFound);
    }
    var updated := WithStatus(status, now)(user.value);
    if committed {
      WriteBackOne(db.users, UserKey, userId, WithStatus(status, now));
      db.users := ReplaceByKey(db.users, [updated], UserKey);
    }
    r := Ok(committed);
  }

  /** Records that a user was seen now. An unknown user is an error. */
  method UpdateLastUserTime(db: Database, userId: String, now: int, committed: bool)
    returns (r: Result<bool, StoreError>)
    requires db.Valid()
    modifies db`users
    ensures db.Valid()
    ensures GetUserInfo(old(db.users), userId).None? ==> r == Err(NotFound) && db.users == old(db.users)
    ensures GetUserInfo(old(db.users), userId).Some? ==>
      r == Ok(committed) &&
      db.users == if committed then UpdateLastUserTimeRows(old(db.users), userId, now) else old(db.users)
  {
    var user := GetUserInfo(db.users, userId);
    if user.None? {
      return Err(NotFound);
    }
    var updated := Touch(now)(user.value);
    if committed {
      WriteBackOne(db.users, UserKey, userId, Touch(now));
      db.users := ReplaceByKey(db.users, [updated], UserKey);
    }
    r := Ok(committed);
  }

  /** A presence update read back: the user now has the new status name,
      going online stamps the last online time, going offline or away keeps
      it, nothing else about that user changes, and every other user reads
      back as before. */
  lemma StatusUpdateReadBack(users: seq<ChatUser>, userId: String, status: UserStatus, now: int, other: String)
    requires GetUserInfo(users, userId).Some?
    ensures var before := GetUserInfo(users, userId).value;
      var after := GetUserInfo(UpdateUserStatusRows(users, userId, status, now), userId);
      && after.Some?
      && after.value.status == status.Name()
      && after.value.lastOnline == (if status == Online then Some(now) else before.lastOnline)
      && after.value.(status := before.status, lastOnline := before.lastOnline) == before
    ensures other != userId ==>
      GetUserInfo(UpdateUserStatusRows(users, userId, status, now), other) == GetUserInfo(users, other)
  {
    FindAfterKeyedUpdate(users, UserKey, userId, WithStatus(status, now), userId);
    FindAfterKeyedUpdate(users, UserKey, userId, WithStatus(status, now), other);
  }

  /** Touching a user changes its last online time and nothing else. */
  lemma LastUserTimeReadBack(users: seq<ChatUser>, userId: String, now: int, other: String)
    requires GetUserInfo(users, userId).Some?
    ensures var before := GetUserInfo(users, userId).value;
      GetUserInfo(UpdateLastUserTimeRows(users, userId, now), userId) == Some(before.(lastOnline := Some(now)))
    ensures other != userId ==>
      GetUserInfo(UpdateLastUserTimeRows(users, userId, now), other) == GetUserInfo(users, other)
  {
    FindAfterKeyedUpdate(users, UserKey, userId, Touch(now), userId);
    FindAfterKeyedUpdate(users, UserKey, userId, Touch(now), other);
  }

  // ----- Searching for people to add -----

  const SearchLimit := 20

  /** No friendship row leads from the searching user to u. */
  predicate NoFriendshipFrom(friendships: seq<Friendship>, userId: String, u: ChatUser)
  {
    forall f :: f in friendships ==> !(f.userId2 == u.userId && f.userId1 == userId)
  }

  /** The search condition on an already trimmed text. */
  function SearchPred(friendships: seq<Friendship>, text: String, userId: String): ChatUser -> bool
  {
    (u: ChatUser) => u.userId != userId && Contains(u.nickName, text) && NoFriendshipFrom(friendships, userId, u)
  }

  function Matches(friendships: seq<Friendship>, text: String, userId: String): seq<ChatUser> -> seq<ChatUser>
  {
    (users: seq<ChatUser>) => Filter(users, SearchPred(friendships, Trim(text), userId))
  }

  /** The rows SearchUserList returns, before projection: the matching users
      newest first, at most SearchLimit of them. */
  function SearchRows(users: seq<ChatUser>, friendships: seq<Friendship>, text: String, userId: String): seq<ChatUser>
  {
    var sorted := OrderByDescending(Matches(friendships, text, userId)(users), CreatedKey);
    if |sorted| <= SearchLimit then sorted else sorted[..SearchLimit]
  }

  function SearchUserList(users: seq<ChatUser>, friendships: seq<Friendship>, text: String, userId: String): seq<UserDto>
  {
    ProjectUsers(SearchRows(users, friendships, text, userId))
  }

  /** Every search result passes the search filter. */
  lemma SearchRowsSound(users: seq<ChatUser>, friendships: seq<Friendship>, text: String, userId: String)
    ensures forall u :: u in SearchRows(users, friendships, text, userId) ==>
      u in users && u.userId != userId && Contains(u.nickName, Trim(text))
      && NoFriendshipFrom(friendships, userId, u)
  {
    var matching := Matches(friendships, text, userId)(users);
    var sorted := OrderByDescending(matching, CreatedKey);
    forall u | u in SearchRows(users, friendships, text, userId)
      ensures u in users && u.userId != userId && Contains(u.nickName, Trim(text))
        && NoFriendshipFrom(friendships, userId, u)
    {
      assert u in sorted;
      assert u in multiset(sorted);
    }
  }

  /** A user passing the search filter is returned unless the page is full
      of users at least as new. */
  lemma SearchRowsComplete(users: seq<ChatUser>, friendships: seq<Friendship>, text: String, userId: String)
    ensures var rows := SearchRows(users, friendships, text, userId);
      forall u :: (u in users && u.userId != userId && Contains(u.nickName, Trim(text))
                   && NoFriendshipFrom(friendships, userId, u)) ==>
        u in rows || (|rows| == SearchLimit && forall i :: 0 <= i < SearchLimit ==> AtLeast(rows[i].createdAt, u.createdAt))
  {
    var matching := Matches(friendships, text, userId)(users);
    var sorted := OrderByDescending(matching, CreatedKey);
    var rows := SearchRows(users, friendships, text, userId);
    forall u | u in users && u.userId != userId && Contains(u.nickName, Trim(text))
        && NoFriendshipFrom(friendships, userId, u)
      ensures u in rows || (|rows| == SearchLimit && forall i :: 0 <= i < SearchLimit ==> AtLeast(rows[i].createdAt, u.createdAt))
    {
      assert u in matching;
      assert u in multiset(sorted);
      if |sorted| > SearchLimit {
        SortSorted(matching, CreatedKey);
        TakeKeepsNewest(sorted, CreatedKey, SearchLimit, u);
      }
    }
  }

  /** Search results are users other than the searcher, whose nickname
      contains the trimmed text and who have no friendship row from the
      searcher; newest first; as many as match, up to SearchLimit; and a
      matching user is left out only when SearchLimit users at least as new
      were returned. */
  lemma SearchUserListSpec(users: seq<ChatUser>, friendships: seq<Friendship>, text: String, userId: String)
    ensures var rows := SearchRows(users, friendships, text, userId);
      var matching := Matches(friendships, text, userId)(users);
      && |rows| == (if |matching| <= SearchLimit then |matching| else SearchLimit)
      && SortedDesc(rows, CreatedKey)
      && (forall u :: u in rows ==>
            u in users && u.userId != userId && Contains(u.nickName, Trim(text))
            && NoFriendshipFrom(friendships, userId, u))
      && (forall u :: (u in users && u.userId != userId && Contains(u.nickName, Trim(text))
                       && NoFriendshipFrom(friendships, userId, u)) ==>
            u in rows || (|rows| == SearchLimit && forall i :: 0 <= i < SearchLimit ==> AtLeast(rows[i].createdAt, u.createdAt)))
  {
    var matching := Matches(friendships, text, userId)(users);
    var sorted := OrderByDescending(matching, CreatedKey);
    SortSorted(matching, CreatedKey);
    if |sorted| > SearchLimit {
      SortedPrefix(sorted, CreatedKey, SearchLimit);
    }
    SearchRowsSound(users, friendships, text, userId);
    SearchRowsComplete(users, friendships, text, userId);
  }

}

// Friend requests and friend lists. A request writes two directed rows,
// one per side: "Apply" on the requester's side, "Pending" on the other.
// Accepting turns both rows of the pair "Accepted"; rejecting marks the
// rejecting user's own row "Rejected". The friend lists join the rows
// leaving a user with the user table.
module FriendshipsBiz {
  import opened Wrappers
  import opened Tables
  import opened Ordering
  import opened Storage
  import opened UserBiz

  /** A row between the two users, in either direction. */
  function PairPred(a: String, b: String): Friendship -> bool
  {
    (f: Friendship) => (f.userId1 == a && f.userId2 == b) || (f.userId1 == b && f.userId2 == a)
  }

  /** The row leading from a to b. */
  function DirectedPred(a: String, b: String): Friendship -> bool
  {
    (f: Friendship) => f.userId1 == a && f.userId2 == b
  }

  function WithFriendshipStatus(s: FriendshipsStatus): Friendship -> Friendship
  {
    (f: Friendship) => f.(status := s.Name())
  }

  // ----- Friend lists -----

  /** The inner join of the rows leaving userId in the given state with the
      user table, in row order. */
  function JoinUsers(friendships: seq<Friendship>, users: seq<ChatUser>, userId: String, status: String): seq<ChatUser>
  {
    if friendships == [] then []
    else
      var f := friendships[0];
      var rest := JoinUsers(friendships[1..], users, userId, status);
      if f.userId1 == userId && f.status == status then
        match FindByKey(users, UserKey, f.userId2)
        case Some(u) => [u] + rest
        case None => rest
      else rest
  }

  /** The accepted friends of a user. */
  function GetFriends(users: seq<ChatUser>, friendships: seq<Friendship>, userId: String): seq<UserDto>
  {
    ProjectUsers(JoinUsers(friendships, users, userId, Accepted.Name()))
  }

  /** The users a user's rows in the given state lead to, newest first. */
  function GetFriendList(users: seq<ChatUser>, friendships: seq<Friendship>, userId: String, status: FriendshipsStatus)
    : seq<UserDto>
  {
    ProjectUsers(OrderByDescending(JoinUsers(friendships, users, userId, status.Name()), CreatedKey))
  }

  /** A user is on userId's list for a state exactly when some row in that
      state leads from userId to it. */
  lemma {:induction false} JoinUsersSpec(friendships: seq<Friendship>, users: seq<ChatUser>, userId: String, status: String)
    requires KeysUnique(users, UserKey)
    ensures forall u :: u in JoinUsers(friendships, users, userId, status) <==>
      u in users && exists f :: f in friendships && f.userId1 == userId && f.status == status && f.userId2 == u.userId
  {
    if friendships != [] {
      JoinUsersSpec(friendships[1..], users, userId, status);
      var f := friendships[0];
      assert forall g :: g in friendships <==> g == f || g in friendships[1..];
      forall u | u in users && u.userId == f.userId2
        ensures FindByKey(users, UserKey, f.userId2) == Some(u)
      {
        FoundByOwnKey(users, UserKey, u);
      }
    }
  }

  /** GetFriends and GetFriendList agree with the join: a user is listed
      exactly when a row in the state leads to it. */
  lemma FriendListMembers(users: seq<ChatUser>, friendships: seq<Friendship>, userId: String, status: FriendshipsStatus, u: ChatUser)
    requires KeysUnique(users, UserKey)
    requires u in users
    ensures ToUserDto(u) in GetFriendList(users, friendships, userId, status) <==>
      exists f :: f in friendships && f.userId1 == userId && f.status == status.Name() && f.userId2 == u.userId
    ensures status == Accepted ==>
      (ToUserDto(u) in GetFriends(users, friendships, userId) <==>
       exists f :: f in friendships && f.userId1 == userId && f.status == status.Name() && f.userId2 == u.userId)
  {
    var joined := JoinUsers(friendships, users, userId, status.Name());
    var sorted := OrderByDescending(joined, CreatedKey);
    JoinUsersSpec(friendships, users, userId, status.Name());
    forall x | x in sorted ensures x in users {
      assert x in multiset(sorted);
      assert x in joined;
    }
    ProjectedMember(users, sorted, u);
    ProjectedMember(users, joined, u);
    assert u in sorted <==> u in multiset(sorted);
  }

  /** Projection loses no user: in a table with unique ids, a user's DTO is
      listed exactly when the user is. */
  lemma ProjectedMember(users: seq<ChatUser>, s: seq<ChatUser>, u: ChatUser)
    requires KeysUnique(users, UserKey)
    requires u in users && forall x :: x in s ==> x in users
    ensures ToUserDto(u) in ProjectUsers(s) <==> u in s
  {
    if ToUserDto(u) in ProjectUsers(s) {
      var i :| 0 <= i < |s| && ProjectUsers(s)[i] == ToUserDto(u);
      assert s[i] in s && s[i].userId == u.userId;
      UniqueKeyIdentifies(users, UserKey, s[i], u);
    }
    if u in s {
      var i :| 0 <= i < |s| && s[i] == u;
      assert ProjectUsers(s)[i] == ToUserDto(u);
    }
  }

  // ----- Requests -----

  /** The two rows a request inserts, with the next two identities. */
  function NewPairRows(userId: String, friendId: String, id: int, now: int): seq<Friendship>
  {
    [Friendship(id, userId, friendId, Apply.Name(), Some(now)),
     Friendship(id + 1, friendId, userId, Pending.Name(), Some(now))]
  }

  /** The table after a request whose writes were all confirmed. */
  function AddFriendRows(rows: seq<Friendship>, userId: String, friendId: String, id: int, now: int): seq<Friendship>
  {
    Filter(rows, Not(PairPred(userId, friendId))) + NewPairRows(userId, friendId, id, now)
  }

  /** Sends a friend request: deletes whatever rows the pair had, then
      inserts the Apply/Pending pair. A delete the database reports as
      affecting nothing is an error; the answer is whether the insert was
      confirmed. */
  method AddFriend(db: Database, userId: String, friendId: String, now: int, deleteCommitted: bool, insertCommitted: bool)
    returns (r: Result<bool, StoreError>)
    requires db.Valid()
    modifies db`friendships, db`nextFriendshipId
    ensures db.Valid()
    ensures var existing := Filter(old(db.friendships), PairPred(userId, friendId));
      if |existing| > 0 && !deleteCommitted then
        r == Err(DeleteFailed) && db.friendships == old(db.friendships)
        && db.nextFriendshipId == old(db.nextFriendshipId)
      else
        r == Ok(insertCommitted)
        && db.friendships ==
           (if |existing| > 0 then Filter(old(db.friendships), Not(PairPred(userId, friendId))) else old(db.friendships))
           + (if insertCommitted then NewPairRows(userId, friendId, old(db.nextFriendshipId), now) else [])
        && db.nextFriendshipId == old(db.nextFriendshipId) + (if insertCommitted then 2 else 0)
  {
    var list := Filter(db.friendships, PairPred(userId, friendId));
    if |list| > 0 {
      if !deleteCommitted {
        return Err(DeleteFailed);
      }
      DeleteFetchedIsFilterOut(db.friendships, PairPred(userId, friendId), FriendshipKey);
      FilterKeepsBound(db.friendships, Not(PairPred(userId, friendId)), db.nextFriendshipId);
      db.friendships := DeleteByKey(db.friendships, list, FriendshipKey);
    }
    if insertCommitted {
      var id := db.nextFriendshipId;
      NewPairKeepsKeys(db.friendships, userId, friendId, id, now);
      db.friendships := db.friendships + NewPairRows(userId, friendId, id, now);
      db.nextFriendshipId := id + 2;
    }
    r := Ok(insertCommitted);
  }

  /** Deleting rows keeps the keys unique and below the identity counter. */
  lemma FilterKeepsBound(rows: seq<Friendship>, p: Friendship -> bool, next: int)
    requires KeysUnique(rows, FriendshipKey) && forall i :: 0 <= i < |rows| ==> rows[i].id < next
    ensures KeysUnique(Filter(rows, p), FriendshipKey)
    ensures forall i :: 0 <= i < |Filter(rows, p)| ==> Filter(rows, p)[i].id < next
  {
    FilterKeepsKeys(rows, p, FriendshipKey);
    forall i | 0 <= i < |Filter(rows, p)| ensures Filter(rows, p)[i].id < next {
      assert Filter(rows, p)[i] in rows;
    }
  }

  /** The two inserted rows take fresh identities. */
  lemma NewPairKeepsKeys(rows: seq<Friendship>, userId: String, friendId: String, id: int, now: int)
    requires KeysUnique(rows, FriendshipKey) && forall i :: 0 <= i < |rows| ==> rows[i].id < id
    ensures KeysUnique(rows + NewPairRows(userId, friendId, id, now), FriendshipKey)
    ensures forall i :: 0 <= i < |rows + NewPairRows(userId, friendId, id, now)| ==>
      (rows + NewPairRows(userId, friendId, id, now))[i].id < id + 2
  {
    var added := NewPairRows(userId, friendId, id, now);
    var r := rows + added;
    forall i, j | 0 <= i < j < |r| ensures FriendshipKey(r[i]) != FriendshipKey(r[j]) {
      if j < |rows| {
        assert r[i] == rows[i] && r[j] == rows[j];
      } else if i < |rows| {
        assert r[i] == rows[i];
      }
    }
  }

  /** The table after ThroughFriend(userId, friendId) was written back. */
  function ThroughFriendRows(rows: seq<Friendship>, userId: String, friendId: String): seq<Friendship>
  {
    UpdateWhere(rows, PairPred(userId, friendId), WithFriendshipStatus(Accepted))
  }

  /** Accepts a request: every row of the pair, in both directions, becomes
      Accepted. The answer is false when the pair has no rows. */
  method ThroughFriend(db: Database, userId: String, friendId: String, committed: bool) returns (r: bool)
    requires db.Valid()
    modifies db`friendships
    ensures db.Valid()
    ensures r == (committed && |Filter(old(db.friendships), PairPred(userId, friendId))| > 0)
    ensures db.friendships == if committed then ThroughFriendRows(old(db.friendships), userId, friendId) else old(db.friendships)
  {
    var friendships := Filter(db.friendships, PairPred(userId, friendId));
    ghost var fetched := friendships;
    var i := 0;
    while i < |friendships|
      invariant 0 <= i <= |friendships| == |fetched|
      invariant forall j :: 0 <= j < i ==> friendships[j] == WithFriendshipStatus(Accepted)(fetched[j])
      invariant forall j :: i <= j < |friendships| ==> friendships[j] == fetched[j]
    {
      friendships := friendships[i := WithFriendshipStatus(Accepted)(friendships[i])];
      i := i + 1;
    }
    if committed {
      WriteBackIsUpdateWhere(db.friendships, PairPred(userId, friendId), WithFriendshipStatus(Accepted), FriendshipKey, friendships);
      UpdateKeepsKeys(db.friendships, PairPred(userId, friendId), WithFriendshipStatus(Accepted), FriendshipKey);
      db.friendships := ReplaceByKey(db.friendships, friendships, FriendshipKey);
    }
    r := committed && |friendships| > 0;
  }

  /** The table after RejectFriend(userId, friendId) was written back. */
  function RejectFriendRows(rows: seq<Friendship>, userId: String, friendId: String): seq<Friendship>
  {
    match FindFirst(rows, DirectedPred(userId, friendId))
    case None => rows
    case Some(f) => UpdateWhere(rows, KeyIs(FriendshipKey, f.id), WithFriendshipStatus(Rejected))
  }

  /** Rejects a request: the first row leading from the rejecting user to
      the requester becomes Rejected. No such row is an error. */
  method RejectFriend(db: Database, userId: String, friendId: String, committed: bool)
    returns (r: Result<bool, StoreError>)
    requires db.Valid()
    modifies db`friendships
    ensures db.Valid()
    ensures FindFirst(old(db.friendships), DirectedPred(userId, friendId)).None? ==>
      r == Err(NotFound) && db.friendships == old(db.friendships)
    ensures FindFirst(old(db.friendships), DirectedPred(userId, friendId)).Some? ==>
      r == Ok(committed) &&
      db.friendships == if committed then RejectFriendRows(old(db.friendships), userId, friendId) else old(db.friendships)
  {
    var friendship := FindFirst(db.friendships, DirectedPred(userId, friendId));
    if friendship.None? {
      return Err(NotFound);
    }
    var updated := WithFriendshipStatus(Rejected)(friendship.value);
    if committed {
      FoundByOwnKey(db.friendships, FriendshipKey, friendship.value);
      WriteBackOne(db.friendships, FriendshipKey, friendship.value.id, WithFriendshipStatus(Rejected));
      db.friendships := ReplaceByKey(db.friendships, [updated], FriendshipKey);
    }
    r := Ok(committed);
  }

  // ----- What the request flow guarantees -----

  /** After a request the pair has exactly the two new rows, and the rows of
      every other pair are as they were. */
  lemma AddFriendReplacesPair(rows: seq<Friendship>, userId: String, friendId: String, id: int, now: int)
    ensures Filter(AddFriendRows(rows, userId, friendId, id, now), PairPred(userId, friendId))
         == NewPairRows(userId, friendId, id, now)
    ensures Filter(AddFriendRows(rows, userId, friendId, id, now), Not(PairPred(userId, friendId)))
         == Filter(rows, Not(PairPred(userId, friendId)))
  {
    var p := PairPred(userId, friendId);
    var kept := Filter(rows, Not(p));
    var added := NewPairRows(userId, friendId, id, now);
    FilterAppend(kept, added, p);
    FilterAppend(kept, added, Not(p));
    forall i | 0 <= i < |kept| ensures !p(kept[i]) {
      assert kept[i] in kept;
    }
    FilterNone(kept, p);
    NewPairRowsArePair(userId, friendId, id, now);
    FilterKeepsAll(kept, Not(p));
  }

  /** Both rows a request writes belong to the requested pair. */
  lemma NewPairRowsArePair(userId: String, friendId: String, id: int, now: int)
    ensures Filter(NewPairRows(userId, friendId, id, now), PairPred(userId, friendId)) == NewPairRows(userId, friendId, id, now)
    ensures Filter(NewPairRows(userId, friendId, id, now), Not(PairPred(userId, friendId))) == []
  {
    var p := PairPred(userId, friendId);
    var added := NewPairRows(userId, friendId, id, now);
    assert p(added[0]) && p(added[1]);
    FilterKeepsAll(added, p);
    FilterNone(added, Not(p));
  }

  /** Accepting touches only the pair's rows, and leaves every one of them
      Accepted. */
  lemma ThroughFriendAcceptsPair(rows: seq<Friendship>, userId: String, friendId: String)
    ensures forall f :: f in Filter(ThroughFriendRows(rows, userId, friendId), PairPred(userId, friendId)) ==>
      f.status == Accepted.Name()
    ensures Filter(ThroughFriendRows(rows, userId, friendId), Not(PairPred(userId, friendId)))
         == Filter(rows, Not(PairPred(userId, friendId)))
  {
    var p := PairPred(userId, friendId);
    var after := ThroughFriendRows(rows, userId, friendId);
    forall f | f in Filter(after, p) ensures f.status == Accepted.Name() {
      var i :| 0 <= i < |after| && after[i] == f;
    }
    FilterUnaffected(rows, p, WithFriendshipStatus(Accepted), Not(p));
  }

  /** A request from a to b that b accepts makes each of them a friend of
      the other, whatever rows the pair had before. */
  lemma RequestThenAcceptMakesFriends(users: seq<ChatUser>, rows: seq<Friendship>, a: ChatUser, b: ChatUser, id: int, now: int)
    requires KeysUnique(users, UserKey)
    requires a in users && b in users
    ensures var accepted := ThroughFriendRows(AddFriendRows(rows, a.userId, b.userId, id, now), b.userId, a.userId);
      ToUserDto(b) in GetFriends(users, accepted, a.userId) && ToUserDto(a) in GetFriends(users, accepted, b.userId)
  {
    var requested := AddFriendRows(rows, a.userId, b.userId, id, now);
    var accepted := ThroughFriendRows(requested, b.userId, a.userId);
    var n := |Filter(rows, Not(PairPred(a.userId, b.userId)))|;
    assert requested[n] == Friendship(id, a.userId, b.userId, Apply.Name(), Some(now));
    assert requested[n + 1] == Friendship(id + 1, b.userId, a.userId, Pending.Name(), Some(now));
    assert accepted[n] == Friendship(id, a.userId, b.userId, Accepted.Name(), Some(now));
    assert accepted[n + 1] == Friendship(id + 1, b.userId, a.userId, Accepted.Name(), Some(now));
    assert accepted[n] in accepted && accepted[n + 1] in accepted;
    FriendListMembers(users, accepted, a.userId, Accepted, b);
    FriendListMembers(users, accepted, b.userId, Accepted, a);
  }

  /** Rejecting the pending row that follows rows with older identities and
      no row from b to a marks just that row. */
  lemma RejectNewPair(kept: seq<Friendship>, a: String, b: String, id: int, now: int)
    requires a != b
    requires forall i :: 0 <= i < |kept| ==> !DirectedPred(b, a)(kept[i]) && kept[i].id < id
    ensures RejectFriendRows(kept + NewPairRows(a, b, id, now), b, a)
         == kept + [Friendship(id, a, b, Apply.Name(), Some(now)), Friendship(id + 1, b, a, Rejected.Name(), Some(now))]
  {
    var added := NewPairRows(a, b, id, now);
    FindFirstAfterNone(kept, added, DirectedPred(b, a));
    assert !DirectedPred(b, a)(added[0]) && DirectedPred(b, a)(added[1]);
    assert added[1..] == [added[1]];
    var update := WithFriendshipStatus(Rejected);
    var target := KeyIs(FriendshipKey, id + 1);
    assert forall i :: 0 <= i < |kept| ==> !target(kept[i]);
    UpdateWhereSkipsPrefix(kept, added, target, update);
    var tail := UpdateWhere(added, target, update);
    assert tail[0] == added[0] && tail[1] == update(added[1]);
    assert tail == [added[0], update(added[1])];
  }

  /** The table after a request from a that b rejected: the pair's rows are
      a's application and b's rejected row. */
  lemma RejectAfterRequest(rows: seq<Friendship>, a: String, b: String, id: int, now: int)
    requires a != b
    requires forall i :: 0 <= i < |rows| ==> rows[i].id < id
    ensures RejectFriendRows(AddFriendRows(rows, a, b, id, now), b, a)
         == Filter(rows, Not(PairPred(a, b)))
            + [Friendship(id, a, b, Apply.Name(), Some(now)), Friendship(id + 1, b, a, Rejected.Name(), Some(now))]
  {
    var kept := Filter(rows, Not(PairPred(a, b)));
    forall i | 0 <= i < |kept| ensures !DirectedPred(b, a)(kept[i]) && kept[i].id < id {
      assert kept[i] in kept;
      var j :| 0 <= j < |rows| && rows[j] == kept[i];
    }
    RejectNewPair(kept, a, b, id, now);
  }

  /** A request from a that b rejects moves a from b's pending list to b's
      rejected list, and a's own row stays an application. */
  lemma RequestThenRejectMovesToRejected(users: seq<ChatUser>, rows: seq<Friendship>, a: ChatUser, b: ChatUser, id: int, now: int)
    requires KeysUnique(users, UserKey)
    requires forall i :: 0 <= i < |rows| ==> rows[i].id < id
    requires a in users && b in users && a.userId != b.userId
    ensures var rejected := RejectFriendRows(AddFriendRows(rows, a.userId, b.userId, id, now), b.userId, a.userId);
      && ToUserDto(a) in GetFriendList(users, rejected, b.userId, Rejected)
      && ToUserDto(a) !in GetFriendList(users, rejected, b.userId, Pending)
      && ToUserDto(b) in GetFriendList(users, rejected, a.userId, Apply)
  {
    var kept := Filter(rows, Not(PairPred(a.userId, b.userId)));
    forall i | 0 <= i < |kept| ensures !PairPred(a.userId, b.userId)(kept[i]) {
      assert kept[i] in kept;
    }
    RejectAfterRequest(rows, a.userId, b.userId, id, now);
    PairListsAfterReject(users, kept, a, b, id, now);
  }

  /** A row from one user to another in a state puts the second user on
      the first one's list for that state. */
  lemma ListedByRow(users: seq<ChatUser>, rows: seq<Friendship>, f: Friendship, to: ChatUser, status: FriendshipsStatus)
    requires KeysUnique(users, UserKey) && to in users
    requires f in rows && f.userId2 == to.userId && f.status == status.Name()
    ensures ToUserDto(to) in GetFriendList(users, rows, f.userId1, status)
  {
    FriendListMembers(users, rows, f.userId1, status, to);
  }

  /** Without a row in that state, the user is not on the list. */
  lemma NotListedWithoutRow(users: seq<ChatUser>, rows: seq<Friendship>, from: String, to: ChatUser, status: FriendshipsStatus)
    requires KeysUnique(users, UserKey) && to in users
    requires forall i :: 0 <= i < |rows| && rows[i].userId1 == from && rows[i].userId2 == to.userId ==>
      rows[i].status != status.Name()
    ensures ToUserDto(to) !in GetFriendList(users, rows, from, status)
  {
    FriendListMembers(users, rows, from, status, to);
  }

  /** The lists of the pair once the rows are the other pairs' rows, a's
      application and b's rejected row. */
  lemma PairListsAfterReject(users: seq<ChatUser>, kept: seq<Friendship>, a: ChatUser, b: ChatUser, id: int, now: int)
    requires KeysUnique(users, UserKey)
    requires a in users && b in users
    requires forall i :: 0 <= i < |kept| ==> !PairPred(a.userId, b.userId)(kept[i])
    ensures var rejected := kept + [Friendship(id, a.userId, b.userId, Apply.Name(), Some(now)),
                                    Friendship(id + 1, b.userId, a.userId, Rejected.Name(), Some(now))];
      && ToUserDto(a) in GetFriendList(users, rejected, b.userId, Rejected)
      && ToUserDto(a) !in GetFriendList(users, rejected, b.userId, Pending)
      && ToUserDto(b) in GetFriendList(users, rejected, a.userId, Apply)
  {
    var applied := Friendship(id, a.userId, b.userId, Apply.Name(), Some(now));
    var refused := Friendship(id + 1, b.userId, a.userId, Rejected.Name(), Some(now));
    var rejected := kept + [applied, refused];
    assert rejected[|kept|] == applied && rejected[|kept| + 1] == refused;
    ListedByRow(users, rejected, refused, a, Rejected);
    ListedByRow(users, rejected, applied, b, Apply);
    assert |Pending.Name()| != |Apply.Name()| && |Pending.Name()| != |Rejected.Name()|;
    forall j | 0 <= j < |kept| ensures !(kept[j].userId1 == b.userId && kept[j].userId2 == a.userId) {
      assert !PairPred(a.userId, b.userId)(kept[j]);
    }
    NotListedWithoutRow(users, rejected, b.userId, a, Pending);
  }

  lemma {:induction false} FindFirstAfterNone(s: seq<Friendship>, t: seq<Friendship>, p: Friendship -> bool)
    requires forall i :: 0 <= i < |s| ==> !p(s[i])
    ensures FindFirst(s + t, p) == FindFirst(t, p)
  {
    if s != [] {
      assert (s + t)[0] == s[0] && (s + t)[1..] == s[1..] + t;
      FindFirstAfterNone(s[1..], t, p);
    } else {
      assert s + t == t;
    }
  }
}

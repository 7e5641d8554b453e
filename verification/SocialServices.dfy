/** The social services statement by statement (`app/services/follow.py`,
    `close_friend.py`, `block.py`, `like.py`, `bookmark.py`, `notification.py`), each against
    the function that says what it does to the database. */
module SocialServices {
  import opened Wrappers
  import opened Schema
  import opened Policies
  import opened Authz
  import opened Content
  import opened Social
  import opened Sessions
  import opened Requests

  // --- follows -----------------------------------------------------------------

  method FollowAccount(session: Session, follower: UserId, following: UserId, id: NotificationId) returns (reply: Reply)
    modifies session
    ensures Ends(old(session.committed), old(session.working),
                 FollowUser(old(session.working), session.me, follower, following, id),
                 session.committed, session.working, reply)
  {
    if follower == following {
      return Raises(SelfFollow);
    }
    if (follower, following) in session.working.follows {
      return Returned;
    }
    var ok := session.InsertFollow(follower, following);
    if ok {
      ok := session.InsertNotification(id, Notification(following, Some(follower), UserTarget(follower), false));
    }
    if !ok {
      return Raises(Refused);
    }
    session.Commit();
    return Returned;
  }

  method UnfollowAccount(session: Session, follower: UserId, following: UserId) returns (reply: Reply)
    modifies session
    ensures Ends(old(session.committed), old(session.working),
                 UnfollowUser(old(session.working), session.me, follower, following),
                 session.committed, session.working, reply)
  {
    if (follower, following) !in session.working.follows {
      return Raises(FollowNotFound);
    }
    session.DeleteFollow(follower, following);
    session.Commit();
    return Returned;
  }

  // --- close friends -----------------------------------------------------------

  method BefriendAccount(session: Session, owner: UserId, friend: UserId) returns (reply: Reply)
    modifies session
    ensures Ends(old(session.committed), old(session.working),
                 AddCloseFriend(old(session.working), session.me, owner, friend),
                 session.committed, session.working, reply)
  {
    if SeesCloseFriendRow(session.working, session.me, owner, friend) {
      return Returned;
    }
    if (friend, owner) !in session.working.follows {
      return Raises(NotAFollower);
    }
    var ok := session.InsertCloseFriend(owner, friend);
    if !ok {
      return Raises(Refused);
    }
    session.Commit();
    return Returned;
  }

  method UnfriendAccount(session: Session, owner: UserId, friend: UserId) returns (reply: Reply)
    modifies session
    ensures Ends(old(session.committed), old(session.working),
                 RemoveCloseFriend(old(session.working), session.me, owner, friend),
                 session.committed, session.working, reply)
  {
    if !SeesCloseFriendRow(session.working, session.me, owner, friend) {
      return Raises(CloseFriendNotFound);
    }
    session.DeleteCloseFriend(owner, friend);
    session.Commit();
    return Returned;
  }

  // --- blocks ------------------------------------------------------------------

  lemma UnfollowTwice(db: Db, gone: set<(UserId, UserId)>, more: set<(UserId, UserId)>)
    ensures WithoutFollows(WithoutFollows(db, gone), more) == WithoutFollows(db, gone + more)
  {
  }

  lemma UnfollowAbsent(db: Db, pair: (UserId, UserId), gone: set<(UserId, UserId)>)
    requires CloseFriendKeys(db.follows, db.closeFriends) && pair !in db.follows
    ensures WithoutFollows(db, gone + {pair}) == WithoutFollows(db, gone)
  {
  }

  lemma UnfollowNothing(db: Db)
    ensures WithoutFollows(db, {}) == db
  {
  }

  /** The loop over both directions. The close-friend foreign key is what makes an absent
      follow leave nothing to delete. */
  method DropFollowsBetween(session: Session, a: UserId, b: UserId)
    requires CloseFriendKeys(session.working.follows, session.working.closeFriends)
    requires FollowsDelete(session.working, session.me, a, b).True? && FollowsDelete(session.working, session.me, b, a).True?
    modifies session`working
    ensures session.working == WithoutFollows(old(session.working), {(a, b), (b, a)})
  {
    ghost var before := session.working;
    var directions := [(a, b), (b, a)];
    var i := 0;
    ghost var gone: set<(UserId, UserId)> := {};
    UnfollowNothing(before);
    while i < |directions|
      invariant 0 <= i <= |directions|
      invariant gone == if i == 0 then {} else if i == 1 then {(a, b)} else {(a, b), (b, a)}
      invariant session.working == WithoutFollows(before, gone)
    {
      var pair := directions[i];
      if pair in session.working.follows {
        session.DeleteFollow(pair.0, pair.1);
        UnfollowTwice(before, gone, {pair});
      } else if pair in gone {
        assert gone + {pair} == gone;
      } else {
        UnfollowAbsent(before, pair, gone);
      }
      gone := gone + {pair};
      i := i + 1;
    }
  }

  method BlockAccount(session: Session, blocker: UserId, blocked: UserId) returns (reply: Reply)
    requires CloseFriendKeys(session.working.follows, session.working.closeFriends)
    modifies session
    ensures Ends(old(session.committed), old(session.working),
                 CreateBlock(old(session.working), session.me, blocker, blocked),
                 session.committed, session.working, reply)
  {
    if blocker == blocked {
      return Raises(SelfBlock);
    }
    if SeesBlock(session.working, session.me, blocker, blocked) {
      return Returned;
    }
    var ok := session.InsertBlock(blocker, blocked);
    if !ok {
      return Raises(Refused);
    }
    DropFollowsBetween(session, blocker, blocked);
    session.PurgeInteractions(blocker, blocked);
    session.Commit();
    return Returned;
  }

  method UnblockAccount(session: Session, blocker: UserId, blocked: UserId) returns (reply: Reply)
    modifies session
    ensures Ends(old(session.committed), old(session.working),
                 RemoveBlock(old(session.working), session.me, blocker, blocked),
                 session.committed, session.working, reply)
  {
    if !SeesBlock(session.working, session.me, blocker, blocked) {
      return Raises(BlockNotFound);
    }
    session.DeleteBlock(blocker, blocked);
    session.Commit();
    return Returned;
  }

  // --- notifications -----------------------------------------------------------

  /** These rows marked read, as far as the update policy lets the caller. */
  function MarkedRead(db: Db, me: Option<UserId>, ids: set<NotificationId>): Db {
    db.(notifications := map id <- db.notifications ::
      if id in ids && NotificationWritable(db, me, db.notifications[id])
      then db.notifications[id].(read := true) else db.notifications[id])
  }

  lemma MarkOneMore(db: Db, me: Option<UserId>, ids: set<NotificationId>, id: NotificationId)
    requires id in db.notifications && id !in ids
    ensures var d, n := MarkedRead(db, me, ids), db.notifications[id];
            && d.notifications[id] == n
            && NotificationWritable(d, me, n) == NotificationWritable(db, me, n)
            && MarkedRead(db, me, ids + {id})
               == if NotificationWritable(db, me, n)
                  then d.(notifications := d.notifications[id := n.(read := true)]) else d
  {
    var d, n, next := MarkedRead(db, me, ids), db.notifications[id], MarkedRead(db, me, ids + {id});
    if NotificationWritable(db, me, n) {
      assert next.notifications == d.notifications[id := n.(read := true)];
    } else {
      assert next.notifications == d.notifications;
    }
  }

  lemma Witness<T>(s: set<T>) returns (x: T)
    requires s != {}
    ensures x in s
  {
    x :| x in s;
  }

  method MarkEach(session: Session, unread: set<NotificationId>)
    requires unread <= session.working.notifications.Keys
    modifies session`working
    ensures session.working == MarkedRead(old(session.working), session.me, unread)
  {
    ghost var before := session.working;
    var left := unread;
    assert MarkedRead(before, session.me, {}).notifications == before.notifications;
    assert unread - left == {};
    while left != {}
      invariant left <= unread
      invariant session.working == MarkedRead(before, session.me, unread - left)
      decreases |left|
    {
      ghost var some := Witness(left);
      var id :| id in left;
      MarkOneMore(before, session.me, unread - left, id);
      assert unread - (left - {id}) == unread - left + {id};
      left := left - {id};
      session.MarkNotificationRead(id);
    }
    assert unread - left == unread;
  }

  method ReadNotificationsOf(session: Session, user: UserId) returns (reply: Reply)
    modifies session
    ensures Ends(old(session.committed), old(session.working),
                 MarkAllNotificationsRead(old(session.working), session.me, user),
                 session.committed, session.working, reply)
  {
    var unread := set id <- session.working.notifications | Unread(session.working, session.me, user, id);
    MarkEach(session, unread);
    assert session.working == MarkAllNotificationsRead(old(session.working), session.me, user).db;
    session.Commit();
    return Returned;
  }

  // --- likes -------------------------------------------------------------------

  method LikeOneCheckin(session: Session, me: UserId, c: CheckinId, id: NotificationId) returns (reply: Reply)
    requires session.me == Some(me) && me in session.working.users
    modifies session
    ensures Ends(old(session.committed), old(session.working), LikeCheckin(old(session.working), me, c, id),
                 session.committed, session.working, reply)
  {
    var row := GetCheckin(session.working, session.me, c);
    if row.Missing? {
      return Raises(CheckinNotFound);
    }
    if SeesCheckinLike(session.working, session.me, me, c) {
      return Returned;
    }
    var ok := session.InsertCheckinLike(me, c);
    if !ok {
      return Raises(Refused);
    }
    if row.row.owner != me {
      ok := session.InsertNotification(id, Notification(row.row.owner, Some(me), CheckinTarget(c), false));
      if !ok {
        return Raises(Refused);
      }
    }
    session.Commit();
    return Returned;
  }

  method LikeOneList(session: Session, me: UserId, l: ListId, id: NotificationId) returns (reply: Reply)
    requires session.me == Some(me) && me in session.working.users
    modifies session
    ensures Ends(old(session.committed), old(session.working), LikeList(old(session.working), me, l, id),
                 session.committed, session.working, reply)
  {
    var row := GetList(session.working, session.me, l);
    if row.Missing? {
      return Raises(ListNotFound);
    }
    if SeesListLike(session.working, session.me, me, l) {
      return Returned;
    }
    var ok := session.InsertListLike(me, l);
    if !ok {
      return Raises(Refused);
    }
    if row.row.owner != me {
      ok := session.InsertNotification(id, Notification(row.row.owner, Some(me), ListTarget(l), false));
      if !ok {
        return Raises(Refused);
      }
    }
    session.Commit();
    return Returned;
  }

  method UnlikeOneCheckin(session: Session, me: UserId, c: CheckinId) returns (reply: Reply)
    requires session.me == Some(me)
    modifies session
    ensures Ends(old(session.committed), old(session.working), UnlikeCheckin(old(session.working), me, c),
                 session.committed, session.working, reply)
  {
    if !SeesCheckinLike(session.working, session.me, me, c) {
      return Raises(LikeNotFound);
    }
    session.DeleteCheckinLike(me, c);
    session.Commit();
    return Returned;
  }

  method UnlikeOneList(session: Session, me: UserId, l: ListId) returns (reply: Reply)
    requires session.me == Some(me)
    modifies session
    ensures Ends(old(session.committed), old(session.working), UnlikeList(old(session.working), me, l),
                 session.committed, session.working, reply)
  {
    if !SeesListLike(session.working, session.me, me, l) {
      return Raises(LikeNotFound);
    }
    session.DeleteListLike(me, l);
    session.Commit();
    return Returned;
  }

  // --- bookmarks ---------------------------------------------------------------

  method BookmarkOneCheckin(session: Session, me: UserId, c: CheckinId) returns (reply: Reply)
    requires session.me == Some(me) && me in session.working.users
    modifies session
    ensures Ends(old(session.committed), old(session.working), BookmarkCheckin(old(session.working), me, c),
                 session.committed, session.working, reply)
  {
    if GetCheckin(session.working, session.me, c).Missing? {
      return Raises(CheckinNotFound);
    }
    if (me, c) in session.working.checkinBookmarks {
      return Returned;
    }
    var ok := session.InsertCheckinBookmark(me, c);
    if !ok {
      return Raises(Refused);
    }
    session.Commit();
    return Returned;
  }

  method UnbookmarkOneCheckin(session: Session, me: UserId, c: CheckinId) returns (reply: Reply)
    requires session.me == Some(me)
    modifies session
    ensures Ends(old(session.committed), old(session.working), UnbookmarkCheckin(old(session.working), me, c),
                 session.committed, session.working, reply)
  {
    if (me, c) !in session.working.checkinBookmarks {
      return Raises(BookmarkNotFound);
    }
    session.DeleteCheckinBookmark(me, c);
    session.Commit();
    return Returned;
  }

  method BookmarkOneList(session: Session, me: UserId, l: ListId) returns (reply: Reply)
    requires session.me == Some(me) && me in session.working.users
    modifies session
    ensures Ends(old(session.committed), old(session.working), BookmarkList(old(session.working), me, l),
                 session.committed, session.working, reply)
  {
    if GetList(session.working, session.me, l).Missing? {
      return Raises(ListNotFound);
    }
    if (me, l) in session.working.listBookmarks {
      return Returned;
    }
    var ok := session.InsertListBookmark(me, l);
    if !ok {
      return Raises(Refused);
    }
    session.Commit();
    return Returned;
  }

  method UnbookmarkOneList(session: Session, me: UserId, l: ListId) returns (reply: Reply)
    requires session.me == Some(me)
    modifies session
    ensures Ends(old(session.committed), old(session.working), UnbookmarkList(old(session.working), me, l),
                 session.committed, session.working, reply)
  {
    if (me, l) !in session.working.listBookmarks {
      return Raises(BookmarkNotFound);
    }
    session.DeleteListBookmark(me, l);
    session.Commit();
    return Returned;
  }

  // --- dispatch ----------------------------------------------------------------

  method HandleSocial(session: Session, me: UserId, call: SocialCall) returns (reply: Reply)
    requires session.me == Some(me) && CloseFriendKeys(session.working.follows, session.working.closeFriends)
    modifies session
    ensures Ends(old(session.committed), old(session.working), ServeSocial(old(session.working), me, call),
                 session.committed, session.working, reply)
  {
    match call {
      case Follow(u, n) => reply := FollowAccount(session, me, u, n);
      case Unfollow(u) => reply := UnfollowAccount(session, me, u);
      case RemoveFollower(u) => reply := UnfollowAccount(session, u, me);
      case AddFriend(u) => reply := BefriendAccount(session, me, u);
      case RemoveFriend(u) => reply := UnfriendAccount(session, me, u);
      case Block(u) => reply := BlockAccount(session, me, u);
      case Unblock(u) => reply := UnblockAccount(session, me, u);
      case ReadNotifications => reply := ReadNotificationsOf(session, me);
    }
  }

  method HandleLike(session: Session, me: UserId, call: LikeCall) returns (reply: Reply)
    requires session.me == Some(me) && me in session.working.users
    modifies session
    ensures Ends(old(session.committed), old(session.working), ServeLike(old(session.working), me, call),
                 session.committed, session.working, reply)
  {
    match call {
      case Like(c, n) => reply := LikeOneCheckin(session, me, c, n);
      case Unlike(c) => reply := UnlikeOneCheckin(session, me, c);
      case LikeOfList(l, n) => reply := LikeOneList(session, me, l, n);
      case UnlikeOfList(l) => reply := UnlikeOneList(session, me, l);
    }
  }

  method HandleBookmark(session: Session, me: UserId, call: BookmarkCall) returns (reply: Reply)
    requires session.me == Some(me) && me in session.working.users
    modifies session
    ensures Ends(old(session.committed), old(session.working), ServeBookmark(old(session.working), me, call),
                 session.committed, session.working, reply)
  {
    match call {
      case Bookmark(c) => reply := BookmarkOneCheckin(session, me, c);
      case Unbookmark(c) => reply := UnbookmarkOneCheckin(session, me, c);
      case BookmarkOfList(l) => reply := BookmarkOneList(session, me, l);
      case UnbookmarkOfList(l) => reply := UnbookmarkOneList(session, me, l);
    }
  }
}

/** When the social calls go through, in terms a caller can check beforehand. The services
    never look for a block; these conditions show where one takes effect all the same. */
module SocialRules {
  import opened Wrappers
  import opened Schema
  import opened Policies
  import opened Authz
  import opened Social
  import opened Requests
  import opened Blocking

  /** A notification from the caller is admitted exactly when no block stands between the
      two accounts, whoever the caller is: here even an admin is stopped. */
  lemma NotifyingNeedsNoBlock(db: Db, me: UserId, id: NotificationId, to: UserId, target: Target)
    requires me in db.users && to in db.users
    ensures NotificationInsertable(db, Some(me), id, Notification(to, Some(me), target, false)) <==>
            id !in db.notifications && !Blocked(db, me, to)
  {
  }

  // --- follows and close friends ---------------------------------------------------

  /** Following: refused for oneself, nothing where it is already so, and otherwise the follow
      and one notification for the account followed, as long as that account exists and no
      block stands between the two. */
  lemma FollowSucceedsExactly(db: Db, me: UserId, u: UserId, id: NotificationId)
    requires me in db.users
    ensures ServeSocial(db, me, Follow(u, id)) ==
            if me == u then Raised(SelfFollow)
            else if (me, u) in db.follows then Unchanged
            else if u in db.users && !Blocked(db, me, u) && id !in db.notifications then
              Committed(db.(follows := db.follows + {(me, u)},
                            notifications := db.notifications[id := Notification(u, Some(me), UserTarget(me), false)]))
            else Raised(Refused)
  {
    if u in db.users {
      NotifyingNeedsNoBlock(db.(follows := db.follows + {(me, u)}), me, id, u, UserTarget(me));
    }
  }

  /** Ending a follow, from either side, takes that follow and the closeness resting on it,
      and nothing else. */
  lemma UnfollowSucceedsExactly(db: Db, me: UserId, u: UserId)
    ensures ServeSocial(db, me, Unfollow(u)) ==
            if (me, u) in db.follows
            then Committed(db.(follows := db.follows - {(me, u)}, closeFriends := db.closeFriends - {(u, me)}))
            else Raised(FollowNotFound)
    ensures ServeSocial(db, me, RemoveFollower(u)) ==
            if (u, me) in db.follows
            then Committed(db.(follows := db.follows - {(u, me)}, closeFriends := db.closeFriends - {(me, u)}))
            else Raised(FollowNotFound)
  {
    UnfollowedRows(db, me, u);
    UnfollowedRows(db, u, me);
  }

  lemma UnfollowedRows(db: Db, a: UserId, b: UserId)
    ensures WithoutFollows(db, {(a, b)})
            == db.(follows := db.follows - {(a, b)}, closeFriends := db.closeFriends - {(b, a)})
  {
    assert WithoutFollows(db, {(a, b)}).closeFriends == db.closeFriends - {(b, a)};
  }

  /** Only an account that follows can be made a close friend, and that adds the one row. */
  lemma BefriendingSucceedsExactly(db: Db, me: UserId, u: UserId)
    ensures ServeSocial(db, me, AddFriend(u)) ==
            if (me, u) in db.closeFriends then Unchanged
            else if (u, me) in db.follows then Committed(db.(closeFriends := db.closeFriends + {(me, u)}))
            else Raised(NotAFollower)
  {
  }

  lemma UnfriendingSucceedsExactly(db: Db, me: UserId, u: UserId)
    ensures ServeSocial(db, me, RemoveFriend(u)) ==
            if (me, u) in db.closeFriends then Committed(db.(closeFriends := db.closeFriends - {(me, u)}))
            else Raised(CloseFriendNotFound)
  {
  }

  // --- blocks ------------------------------------------------------------------------

  /** Blocking goes by the caller's own block alone: that the other side has blocked the
      caller makes no difference. A new block adds its row, severs the pair, and does
      nothing else. */
  lemma BlockSucceedsExactly(db: Db, me: UserId, u: UserId)
    requires me in db.users
    ensures var out := ServeSocial(db, me, Block(u));
            && (out == Raised(SelfBlock) <==> me == u)
            && (out == Unchanged <==> me != u && (me, u) in db.blocks)
            && (out.Committed? <==> me != u && (me, u) !in db.blocks && u in db.users)
            && (out == Raised(Refused) <==> me != u && (me, u) !in db.blocks && u !in db.users)
            && (out.Committed? ==>
                  (me, u) in out.db.blocks && Severed(db.(blocks := db.blocks + {(me, u)}), out.db, me, u))
  {
    if CreateBlock(db, Some(me), me, u).Committed? { BlockSevers(db, Some(me), me, u); }
  }

  /** Only the blocker's own block is lifted, and nothing comes back with it. */
  lemma UnblockSucceedsExactly(db: Db, me: UserId, u: UserId)
    ensures ServeSocial(db, me, Unblock(u)) ==
            if (me, u) in db.blocks then Committed(db.(blocks := db.blocks - {(me, u)})) else Raised(BlockNotFound)
  {
  }

  // --- likes ---------------------------------------------------------------------------

  /** The check-in is there to be reacted to. */
  predicate Open(db: Db, me: UserId, c: CheckinId)
    requires me in db.users
  {
    && c in db.checkins && !db.checkins[c].deleted
    && CanView(db, Some(me), db.checkins[c].owner, db.checkins[c].visibility)
  }

  predicate ListOpen(db: Db, me: UserId, l: ListId)
    requires me in db.users
  {
    l in db.lists && CanView(db, Some(me), db.lists[l].owner, db.lists[l].visibility)
  }

  /** Liking: the check-in must be there to see; liking again changes nothing; one's own is
      liked quietly; anyone else's together with one notification to its owner, which a block
      between the two refuses, and the like with it. */
  lemma LikeSucceedsExactly(db: Db, me: UserId, c: CheckinId, id: NotificationId)
    requires me in db.users && CheckinKeys(db.users.Keys, db.venues.Keys, db.checkins)
    ensures ServeLike(db, me, LikeCall.Like(c, id)) ==
            if !Open(db, me, c) then Raised(CheckinNotFound)
            else if (me, c) in db.checkinLikes then Unchanged
            else
              var owner := db.checkins[c].owner;
              var liked := db.(checkinLikes := db.checkinLikes + {(me, c)});
              if owner == me then Committed(liked)
              else if !Blocked(db, me, owner) && id !in db.notifications then
                Committed(liked.(notifications :=
                  db.notifications[id := Notification(owner, Some(me), CheckinTarget(c), false)]))
              else Raised(Refused)
  {
    if c in db.checkins {
      var owner := db.checkins[c].owner;
      PythonAgreesWithSql(db, Some(me), owner, db.checkins[c].visibility);
      NotifyingNeedsNoBlock(db.(checkinLikes := db.checkinLikes + {(me, c)}), me, id, owner, CheckinTarget(c));
    }
  }

  lemma ListLikeSucceedsExactly(db: Db, me: UserId, l: ListId, id: NotificationId)
    requires me in db.users && ListKeys(db.users.Keys, db.lists)
    ensures ServeLike(db, me, LikeOfList(l, id)) ==
            if !ListOpen(db, me, l) then Raised(ListNotFound)
            else if (me, l) in db.listLikes then Unchanged
            else
              var owner := db.lists[l].owner;
              var liked := db.(listLikes := db.listLikes + {(me, l)});
              if owner == me then Committed(liked)
              else if !Blocked(db, me, owner) && id !in db.notifications then
                Committed(liked.(notifications := db.notifications[id := Notification(owner, Some(me), ListTarget(l), false)]))
              else Raised(Refused)
  {
    if l in db.lists {
      var owner := db.lists[l].owner;
      PythonAgreesWithSql(db, Some(me), owner, db.lists[l].visibility);
      NotifyingNeedsNoBlock(db.(listLikes := db.listLikes + {(me, l)}), me, id, owner, ListTarget(l));
    }
  }

  /** A like is taken back exactly when it was given and its target can still be seen, deleted
      or not: one on content since hidden is answered as if it had never been given. */
  lemma UnlikeSucceedsExactly(db: Db, me: UserId, c: CheckinId)
    requires me in db.users
    ensures ServeLike(db, me, Unlike(c)) ==
            if (me, c) in db.checkinLikes && c in db.checkins
               && CanView(db, Some(me), db.checkins[c].owner, db.checkins[c].visibility)
            then Committed(db.(checkinLikes := db.checkinLikes - {(me, c)}))
            else Raised(LikeNotFound)
  {
    if c in db.checkins { PythonAgreesWithSql(db, Some(me), db.checkins[c].owner, db.checkins[c].visibility); }
  }

  lemma ListUnlikeSucceedsExactly(db: Db, me: UserId, l: ListId)
    requires me in db.users
    ensures ServeLike(db, me, UnlikeOfList(l)) ==
            if (me, l) in db.listLikes && ListOpen(db, me, l)
            then Committed(db.(listLikes := db.listLikes - {(me, l)}))
            else Raised(LikeNotFound)
  {
    if l in db.lists { PythonAgreesWithSql(db, Some(me), db.lists[l].owner, db.lists[l].visibility); }
  }

  // --- bookmarks -----------------------------------------------------------------------

  /** A bookmark notifies nobody, so being able to see the check-in is enough. */
  lemma BookmarkSucceedsExactly(db: Db, me: UserId, c: CheckinId)
    requires me in db.users
    ensures ServeBookmark(db, me, BookmarkCall.Bookmark(c)) ==
            if !Open(db, me, c) then Raised(CheckinNotFound)
            else if (me, c) in db.checkinBookmarks then Unchanged
            else Committed(db.(checkinBookmarks := db.checkinBookmarks + {(me, c)}))
  {
    if c in db.checkins { PythonAgreesWithSql(db, Some(me), db.checkins[c].owner, db.checkins[c].visibility); }
  }

  lemma ListBookmarkSucceedsExactly(db: Db, me: UserId, l: ListId)
    requires me in db.users
    ensures ServeBookmark(db, me, BookmarkOfList(l)) ==
            if !ListOpen(db, me, l) then Raised(ListNotFound)
            else if (me, l) in db.listBookmarks then Unchanged
            else Committed(db.(listBookmarks := db.listBookmarks + {(me, l)}))
  {
    if l in db.lists { PythonAgreesWithSql(db, Some(me), db.lists[l].owner, db.lists[l].visibility); }
  }

  /** A bookmark is taken back exactly when it was given, hidden since or not. */
  lemma UnbookmarkSucceedsExactly(db: Db, me: UserId, c: CheckinId)
    requires me in db.users
    ensures ServeBookmark(db, me, Unbookmark(c)) ==
            if (me, c) in db.checkinBookmarks then Committed(db.(checkinBookmarks := db.checkinBookmarks - {(me, c)}))
            else Raised(BookmarkNotFound)
  {
  }

  lemma ListUnbookmarkSucceedsExactly(db: Db, me: UserId, l: ListId)
    requires me in db.users
    ensures ServeBookmark(db, me, UnbookmarkOfList(l)) ==
            if (me, l) in db.listBookmarks then Committed(db.(listBookmarks := db.listBookmarks - {(me, l)}))
            else Raised(BookmarkNotFound)
  {
  }

  // --- undoing ---------------------------------------------------------------------------

  /** Following and thinking better of it: both relations are as before; only the
      notification has been sent. */
  lemma FollowThenUnfollow(db: Db, me: UserId, u: UserId, id: NotificationId)
    requires CloseFriendKeys(db.follows, db.closeFriends)
    requires FollowUser(db, Some(me), me, u, id).Committed?
    ensures var followed := FollowUser(db, Some(me), me, u, id).db;
            var out := UnfollowUser(followed, Some(me), me, u);
            && out.Committed?
            && out.db == db.(notifications := out.db.notifications)
            && out.db.notifications.Keys == db.notifications.Keys + {id}
  {
    var followed := FollowUser(db, Some(me), me, u, id).db;
    assert followed.follows - {(me, u)} == db.follows;
    assert (set p <- db.closeFriends | (p.1, p.0) !in {(me, u)}) == db.closeFriends;
  }

  // --- notifications -----------------------------------------------------------------

  /** What `count_unread_notifications` counts. */
  function UnreadIds(db: Db, me: Option<UserId>, user: UserId): set<NotificationId> {
    set id <- db.notifications | Unread(db, me, user, id)
  }

  /** An account's unread notifications are those addressed to it, not yet read, and not from
      someone it shares a block with; an admin sees past the block. */
  lemma UnreadAreExact(db: Db, me: UserId, id: NotificationId)
    ensures id in UnreadIds(db, Some(me), me) <==>
            && id in db.notifications && db.notifications[id].recipient == me && !db.notifications[id].read
            && (|| (me in db.users && db.users[me].role.Admin?)
                || db.notifications[id].actor.None? || !Blocked(db, me, db.notifications[id].actor.value))
  {
  }

  /** Reading everything leaves nothing unread, touches nobody else's notifications, loses
      none and changes nothing else. */
  lemma ReadingLeavesNoneUnread(db: Db, me: UserId)
    requires me in db.users
    ensures ServeSocial(db, me, ReadNotifications).Committed?
    ensures var d := ServeSocial(db, me, ReadNotifications).db;
            && d == db.(notifications := d.notifications)
            && UnreadIds(d, Some(me), me) == {}
            && d.notifications.Keys == db.notifications.Keys
            && (forall id <- db.notifications ::
                  if id in UnreadIds(db, Some(me), me)
                  then d.notifications[id] == db.notifications[id].(read := true)
                  else d.notifications[id] == db.notifications[id])
  {
    var d := ServeSocial(db, me, ReadNotifications).db;
    forall id <- db.notifications
      ensures NotificationsSelect(d, Some(me), db.notifications[id]) == NotificationsSelect(db, Some(me), db.notifications[id])
    {
    }
  }
}

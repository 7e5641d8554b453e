/** Follow, close-friend, block, like, bookmark and notification services: what each
    call does to the database state it runs on. Row inserts must pass the table's
    `WITH CHECK`, its select policy (every insert reads the row back), its keys and
    its uniqueness; failing any of them aborts the whole call. */
module Social {
  import opened Wrappers
  import opened Schema
  import opened Policies
  import opened Authz
  import opened Content

  // --- notifications -----------------------------------------------------------

  predicate NotificationInsertable(db: Db, me: Option<UserId>, id: NotificationId, n: Notification) {
    && id !in db.notifications
    && n.recipient in db.users && KnownOrNull(db.users.Keys, n.actor)
    && NotificationsInsert(db, me, n).True?
    && NotificationsSelect(db, me, n).True?
  }

  /** `create_notification` followed by the caller's commit. */
  function NotifyAndCommit(db: Db, me: Option<UserId>, id: NotificationId, n: Notification): Outcome {
    if NotificationInsertable(db, me, id, n) then Committed(db.(notifications := db.notifications[id := n]))
    else Raised(Refused)
  }

  predicate Unread(db: Db, me: Option<UserId>, user: UserId, id: NotificationId) {
    && id in db.notifications
    && db.notifications[id].recipient == user && !db.notifications[id].read
    && NotificationsSelect(db, me, db.notifications[id]).True?
  }

  function MarkAllNotificationsRead(db: Db, me: Option<UserId>, user: UserId): Outcome {
    Committed(db.(notifications := map id <- db.notifications ::
      if Unread(db, me, user, id) && NotificationsUpdate(db, me, db.notifications[id]).True?
      then db.notifications[id].(read := true) else db.notifications[id]))
  }

  // --- follows -----------------------------------------------------------------

  /** Deleting follow rows takes the close-friend rows resting on them along. */
  function WithoutFollows(db: Db, gone: set<(UserId, UserId)>): Db {
    db.(follows := db.follows - gone,
        closeFriends := (set p <- db.closeFriends | (p.1, p.0) !in gone))
  }

  function FollowUser(db: Db, me: Option<UserId>, follower: UserId, following: UserId, id: NotificationId): Outcome {
    if follower == following then Raised(SelfFollow)
    else if (follower, following) in db.follows then Unchanged
    else if follower !in db.users || following !in db.users || !FollowsInsert(db, me, follower).True?
    then Raised(Refused)
    else NotifyAndCommit(db.(follows := db.follows + {(follower, following)}), me, id,
                         Notification(following, Some(follower), UserTarget(follower), false))
  }

  function UnfollowUser(db: Db, me: Option<UserId>, follower: UserId, following: UserId): Outcome {
    if (follower, following) !in db.follows then Raised(FollowNotFound)
    else if FollowsDelete(db, me, follower, following).True? then Committed(WithoutFollows(db, {(follower, following)}))
    else Committed(db)
  }

  // --- close friends -----------------------------------------------------------

  function AddCloseFriend(db: Db, me: Option<UserId>, owner: UserId, friend: UserId): Outcome {
    if SeesCloseFriendRow(db, me, owner, friend) then Unchanged
    else if (friend, owner) !in db.follows then Raised(NotAFollower)
    else if (owner, friend) in db.closeFriends || !CloseFriendsWrite(db, me, owner).True? then Raised(Refused)
    else Committed(db.(closeFriends := db.closeFriends + {(owner, friend)}))
  }

  function RemoveCloseFriend(db: Db, me: Option<UserId>, owner: UserId, friend: UserId): Outcome {
    if !SeesCloseFriendRow(db, me, owner, friend) then Raised(CloseFriendNotFound)
    else if CloseFriendsWrite(db, me, owner).True? then
      Committed(db.(closeFriends := db.closeFriends - {(owner, friend)}))
    else Committed(db)
  }

  // --- blocks ------------------------------------------------------------------

  /** The two accounts are `a` and `b`, either way round. */
  predicate Joins(a: UserId, b: UserId, x: UserId, y: UserId) {
    (x == a && y == b) || (x == b && y == a)
  }

  predicate LikeJoins(db: Db, a: UserId, b: UserId, p: (UserId, CheckinId)) {
    p.1 in db.checkins && Joins(a, b, p.0, db.checkins[p.1].owner)
  }

  predicate ListLikeJoins(db: Db, a: UserId, b: UserId, p: (UserId, ListId)) {
    p.1 in db.lists && Joins(a, b, p.0, db.lists[p.1].owner)
  }

  predicate NotificationJoins(n: Notification, a: UserId, b: UserId) {
    n.actor.Some? && Joins(a, b, n.recipient, n.actor.value)
  }

  /** `rls_purge_interactions_between`: runs with the table owner's rights. */
  function PurgeInteractionsBetween(db: Db, a: UserId, b: UserId): Db {
    db.(checkinLikes := (set p <- db.checkinLikes | !LikeJoins(db, a, b, p)),
        listLikes := (set p <- db.listLikes | !ListLikeJoins(db, a, b, p)),
        checkinBookmarks := (set p <- db.checkinBookmarks | !LikeJoins(db, a, b, p)),
        listBookmarks := (set p <- db.listBookmarks | !ListLikeJoins(db, a, b, p)),
        notifications := map id <- db.notifications | !NotificationJoins(db.notifications[id], a, b) :: db.notifications[id])
  }

  predicate SeesBlock(db: Db, me: Option<UserId>, blocker: UserId, blocked: UserId) {
    (blocker, blocked) in db.blocks && BlocksAccess(db, me, blocker).True?
  }

  function CreateBlock(db: Db, me: Option<UserId>, blocker: UserId, blocked: UserId): Outcome {
    if blocker == blocked then Raised(SelfBlock)
    else if SeesBlock(db, me, blocker, blocked) then Unchanged
    else if (blocker, blocked) in db.blocks || blocker !in db.users || blocked !in db.users
            || !BlocksAccess(db, me, blocker).True?
    then Raised(Refused)
    else
      var added := db.(blocks := db.blocks + {(blocker, blocked)});
      var unfollowed := WithoutFollows(added, {(blocker, blocked), (blocked, blocker)});
      Committed(PurgeInteractionsBetween(unfollowed, blocker, blocked))
  }

  function RemoveBlock(db: Db, me: Option<UserId>, blocker: UserId, blocked: UserId): Outcome {
    if !SeesBlock(db, me, blocker, blocked) then Raised(BlockNotFound)
    else Committed(db.(blocks := db.blocks - {(blocker, blocked)}))
  }

  // --- likes -------------------------------------------------------------------

  predicate SeesCheckinLike(db: Db, me: Option<UserId>, u: UserId, c: CheckinId) {
    (u, c) in db.checkinLikes && CanViewCheckin(db, me, c).True?
  }

  predicate SeesListLike(db: Db, me: Option<UserId>, u: UserId, l: ListId) {
    (u, l) in db.listLikes && CanViewList(db, me, l).True?
  }

  function LikeCheckin(db: Db, me: UserId, c: CheckinId, id: NotificationId): Outcome
    requires me in db.users
  {
    match GetCheckin(db, Some(me), c)
    case Missing => Raised(CheckinNotFound)
    case Found(row) =>
      if SeesCheckinLike(db, Some(me), me, c) then Unchanged
      else if !CheckinLikesInsert(db, Some(me), me, c).True? then Raised(Refused)
      else
        var liked := db.(checkinLikes := db.checkinLikes + {(me, c)});
        if row.owner == me then Committed(liked)
        else NotifyAndCommit(liked, Some(me), id, Notification(row.owner, Some(me), CheckinTarget(c), false))
  }

  function UnlikeCheckin(db: Db, me: UserId, c: CheckinId): Outcome {
    if !SeesCheckinLike(db, Some(me), me, c) then Raised(LikeNotFound)
    else Committed(db.(checkinLikes := db.checkinLikes - {(me, c)}))
  }

  function LikeList(db: Db, me: UserId, l: ListId, id: NotificationId): Outcome
    requires me in db.users
  {
    match GetList(db, Some(me), l)
    case Missing => Raised(ListNotFound)
    case Found(row) =>
      if SeesListLike(db, Some(me), me, l) then Unchanged
      else if !ListLikesInsert(db, Some(me), me, l).True? then Raised(Refused)
      else
        var liked := db.(listLikes := db.listLikes + {(me, l)});
        if row.owner == me then Committed(liked)
        else NotifyAndCommit(liked, Some(me), id, Notification(row.owner, Some(me), ListTarget(l), false))
  }

  function UnlikeList(db: Db, me: UserId, l: ListId): Outcome {
    if !SeesListLike(db, Some(me), me, l) then Raised(LikeNotFound)
    else Committed(db.(listLikes := db.listLikes - {(me, l)}))
  }

  // --- bookmarks ---------------------------------------------------------------

  function BookmarkCheckin(db: Db, me: UserId, c: CheckinId): Outcome
    requires me in db.users
  {
    match GetCheckin(db, Some(me), c)
    case Missing => Raised(CheckinNotFound)
    case Found(_) =>
      if (me, c) in db.checkinBookmarks then Unchanged
      else if !CheckinLikesInsert(db, Some(me), me, c).True? then Raised(Refused)
      else Committed(db.(checkinBookmarks := db.checkinBookmarks + {(me, c)}))
  }

  function UnbookmarkCheckin(db: Db, me: UserId, c: CheckinId): Outcome {
    if (me, c) !in db.checkinBookmarks then Raised(BookmarkNotFound)
    else Committed(db.(checkinBookmarks := db.checkinBookmarks - {(me, c)}))
  }

  function BookmarkList(db: Db, me: UserId, l: ListId): Outcome
    requires me in db.users
  {
    match GetList(db, Some(me), l)
    case Missing => Raised(ListNotFound)
    case Found(_) =>
      if (me, l) in db.listBookmarks then Unchanged
      else if !ListLikesInsert(db, Some(me), me, l).True? then Raised(Refused)
      else Committed(db.(listBookmarks := db.listBookmarks + {(me, l)}))
  }

  function UnbookmarkList(db: Db, me: UserId, l: ListId): Outcome {
    if (me, l) !in db.listBookmarks then Raised(BookmarkNotFound)
    else Committed(db.(listBookmarks := db.listBookmarks - {(me, l)}))
  }
}

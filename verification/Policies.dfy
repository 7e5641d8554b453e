/** The row-level security helper functions and the final policy of each table, as SQL
    evaluates them. `me` is the transaction's identity; `None` is an anonymous caller,
    for whom `rls_current_user_id()` is `NULL`. Helpers run with the table owner's
    rights, so their own lookups see every row. */
module Policies {
  import opened Wrappers
  import opened ThreeValued
  import opened Schema

  /** `EXISTS (... role = 'admin')`: never null. */
  predicate HasAdminRow(db: Db, me: Option<UserId>) {
    me.Some? && me.value in db.users && db.users[me.value].role.Admin?
  }

  predicate Blocked(db: Db, a: UserId, b: UserId) {
    (a, b) in db.blocks || (b, a) in db.blocks
  }

  function IsAdmin(db: Db, me: Option<UserId>): Truth {
    Of(HasAdminRow(db, me))
  }

  function IsOwnerOrAdmin(db: Db, me: Option<UserId>, owner: Option<UserId>): Truth {
    Or(Equal(owner, me), Of(HasAdminRow(db, me)))
  }

  /** Comparing with a `NULL` id matches no row, so the `EXISTS` is then false. */
  function IsBlockedPair(db: Db, a: Option<UserId>, b: Option<UserId>): Truth {
    Of(a.Some? && b.Some? && Blocked(db, a.value, b.value))
  }

  function IsCloseFriendOf(db: Db, me: Option<UserId>, owner: UserId): Truth {
    Of(me.Some? && (owner, me.value) in db.closeFriends)
  }

  function CanViewVisibility(db: Db, me: Option<UserId>, owner: UserId, visibility: Visibility): Truth {
    Or(IsOwnerOrAdmin(db, me, Some(owner)),
       And(Not(IsBlockedPair(db, Some(owner), me)),
           Or(Of(visibility.Public?),
              And(Of(visibility.CloseFriends?), IsCloseFriendOf(db, me, owner)))))
  }

  /** A scalar subquery over a missing parent row is `NULL`. */
  function CanViewCheckin(db: Db, me: Option<UserId>, c: CheckinId): Truth {
    if c in db.checkins then CanViewVisibility(db, me, db.checkins[c].owner, db.checkins[c].visibility) else Null
  }

  function CanViewList(db: Db, me: Option<UserId>, l: ListId): Truth {
    if l in db.lists then CanViewVisibility(db, me, db.lists[l].owner, db.lists[l].visibility) else Null
  }

  function IsOwnerOrAdminOfList(db: Db, me: Option<UserId>, l: ListId): Truth {
    if l in db.lists then IsOwnerOrAdmin(db, me, Some(db.lists[l].owner)) else Null
  }

  // --- users -------------------------------------------------------------------

  function UsersSelect(db: Db, me: Option<UserId>, u: UserId): Truth {
    Or(IsAdmin(db, me), Not(IsBlockedPair(db, Some(u), me)))
  }

  function UsersWrite(db: Db, me: Option<UserId>, u: UserId): Truth {
    IsOwnerOrAdmin(db, me, Some(u))
  }

  // --- follows, close friends, blocks ------------------------------------------

  function FollowsInsert(db: Db, me: Option<UserId>, follower: UserId): Truth {
    IsOwnerOrAdmin(db, me, Some(follower))
  }

  function FollowsDelete(db: Db, me: Option<UserId>, follower: UserId, following: UserId): Truth {
    Or(IsOwnerOrAdmin(db, me, Some(follower)), IsOwnerOrAdmin(db, me, Some(following)))
  }

  function CloseFriendsSelect(db: Db, me: Option<UserId>, owner: UserId, friend: UserId): Truth {
    Or(IsOwnerOrAdmin(db, me, Some(owner)), IsOwnerOrAdmin(db, me, Some(friend)))
  }

  function CloseFriendsWrite(db: Db, me: Option<UserId>, owner: UserId): Truth {
    IsOwnerOrAdmin(db, me, Some(owner))
  }

  /** `blocks_select`, `blocks_insert` and `blocks_delete` share one expression. */
  function BlocksAccess(db: Db, me: Option<UserId>, blocker: UserId): Truth {
    IsOwnerOrAdmin(db, me, Some(blocker))
  }

  // --- check-ins and lists -----------------------------------------------------

  function CheckinsSelect(db: Db, me: Option<UserId>, row: Checkin): Truth {
    CanViewVisibility(db, me, row.owner, row.visibility)
  }

  function ListsSelect(db: Db, me: Option<UserId>, row: VenueList): Truth {
    CanViewVisibility(db, me, row.owner, row.visibility)
  }

  /** Insert, update and delete on `checkins` and `lists`. */
  function ContentWrite(db: Db, me: Option<UserId>, owner: UserId): Truth {
    IsOwnerOrAdmin(db, me, Some(owner))
  }

  // --- likes and bookmarks -----------------------------------------------------

  function CheckinLikesInsert(db: Db, me: Option<UserId>, u: UserId, c: CheckinId): Truth {
    And(IsOwnerOrAdmin(db, me, Some(u)), CanViewCheckin(db, me, c))
  }

  function ListLikesInsert(db: Db, me: Option<UserId>, u: UserId, l: ListId): Truth {
    And(IsOwnerOrAdmin(db, me, Some(u)), CanViewList(db, me, l))
  }

  /** Deleting a like, and reading or deleting a bookmark, is for its own user. */
  function ReactionOwner(db: Db, me: Option<UserId>, u: UserId): Truth {
    IsOwnerOrAdmin(db, me, Some(u))
  }

  // --- notifications -----------------------------------------------------------

  function NotificationsSelect(db: Db, me: Option<UserId>, n: Notification): Truth {
    And(Or(IsOwnerOrAdmin(db, me, Some(n.recipient)), IsOwnerOrAdmin(db, me, n.actor)),
        Or(IsAdmin(db, me), Not(IsBlockedPair(db, Some(n.recipient), n.actor))))
  }

  function NotificationsInsert(db: Db, me: Option<UserId>, n: Notification): Truth {
    And(Of(me.Some?), Not(IsBlockedPair(db, Some(n.recipient), n.actor)))
  }

  function NotificationsUpdate(db: Db, me: Option<UserId>, n: Notification): Truth {
    IsOwnerOrAdmin(db, me, Some(n.recipient))
  }

  // --- venues ------------------------------------------------------------------

  function VenuesSelect(db: Db, me: Option<UserId>, row: Venue): Truth {
    Or(IsAdmin(db, me), Not(Of(row.suspended)))
  }

  function VenuesInsert(me: Option<UserId>): Truth {
    Of(me.Some?)
  }

  function VenuesUpdate(db: Db, me: Option<UserId>): Truth {
    IsAdmin(db, me)
  }
}
